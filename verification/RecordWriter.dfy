/**
 Writing a record file: cyber/record/file/record_file_writer.{h,cc}. The writing thread fills one chunk
 while the flush thread writes the other; the two are swapped under the flush mutex. The sequential
 parts are a class proved against functions; the two threads are a transition system over these
 functions, with one step per critical section.
 */
module RecordWriter {

  import opened RecordFormat
  import opened RecordReader

  // ---------------------------------------------------------------- chunks

  datatype Chunk = Chunk(header: ChunkHeader, body: seq<Message>)

  const EMPTY_CHUNK := Chunk(ChunkHeader(0, 0, 0, 0), [])

  predicate Empty(c: Chunk) {
    c.header.messageNumber == 0
  }

  function Add(c: Chunk, m: Message): Chunk {
    var h := c.header;
    var begin := if h.beginTime == 0 || h.beginTime > m.time then m.time else h.beginTime;
    var end := if h.endTime < m.time then m.time else h.endTime;
    Chunk(ChunkHeader(begin, end, h.messageNumber + 1, h.rawSize + |m.content|), c.body + [m])
  }

  /** The chunk that results from adding messages to an empty one. */
  function ChunkOf(ms: seq<Message>): Chunk {
    if ms == [] then EMPTY_CHUNK else Add(ChunkOf(ms[..|ms| - 1]), ms[|ms| - 1])
  }

  function RawSize(ms: seq<Message>): nat {
    if ms == [] then 0 else RawSize(ms[..|ms| - 1]) + |ms[|ms| - 1].content|
  }

  lemma {:induction false} ChunkCounts(ms: seq<Message>)
    ensures ChunkOf(ms).body == ms
    ensures ChunkOf(ms).header.messageNumber == |ms| && ChunkOf(ms).header.rawSize == RawSize(ms)
  {
    if ms != [] {
      ChunkCounts(ms[..|ms| - 1]);
      assert ms == ms[..|ms| - 1] + [ms[|ms| - 1]];
    }
  }

  lemma ChunkOfSnoc(ms: seq<Message>, m: Message)
    ensures ChunkOf(ms + [m]) == Add(ChunkOf(ms), m)
  {
    assert (ms + [m])[..|ms|] == ms;
  }

  /** The failing case: behind time 0 the chunk forgets it. */
  lemma ZeroTimeIsForgotten()
    ensures
      var ms := [Message("c", 0, ""), Message("c", 5, "")];
      ChunkOf(ms).header.beginTime == 5 && !Describes(ChunkOf(ms).header, ms)
  {
    var first, second := Message("c", 0, ""), Message("c", 5, "");
    var ms := [first, second];
    assert ms[..1] == [first] && [first][..0] == [];
    assert ChunkOf([first]) == Add(EMPTY_CHUNK, first);
    assert ms[0].time < ChunkOf(ms).header.beginTime;
  }

  predicate SomeTime(ms: seq<Message>, t: nat) {
    exists i :: 0 <= i < |ms| && ms[i].time == t
  }

  predicate NoZero(ms: seq<Message>) {
    forall i | 0 <= i < |ms| :: ms[i].time != 0
  }

  lemma {:induction false} EndIsLatest(ms: seq<Message>)
    requires ms != []
    ensures SomeTime(ms, ChunkOf(ms).header.endTime)
    ensures forall i | 0 <= i < |ms| :: ms[i].time <= ChunkOf(ms).header.endTime
  {
    var k := |ms| - 1;
    if k > 0 {
      EndIsLatest(ms[..k]);
      var i :| 0 <= i < k && ms[..k][i].time == ChunkOf(ms[..k]).header.endTime;
      assert ms[i] == ms[..k][i];
      forall j | 0 <= j < |ms|
        ensures ms[j].time <= ChunkOf(ms).header.endTime
      {
        if j < k { assert ms[j] == ms[..k][j]; }
      }
    }
    assert ms[k].time <= ChunkOf(ms).header.endTime;
  }

  /** Time 0 counts as "not set", so a chunk starts over behind every message with time 0. */
  lemma {:induction false} BeginIsEarliest(ms: seq<Message>)
    requires ms != []
    ensures ms[|ms| - 1].time == 0 ==> ChunkOf(ms).header.beginTime == 0
    ensures ms[|ms| - 1].time != 0 ==> ChunkOf(ms).header.beginTime != 0
    ensures SomeTime(ms, ChunkOf(ms).header.beginTime)
    ensures NoZero(ms) ==> forall i | 0 <= i < |ms| :: ChunkOf(ms).header.beginTime <= ms[i].time
  {
    var k := |ms| - 1;
    if k > 0 {
      BeginIsEarliest(ms[..k]);
      var i :| 0 <= i < k && ms[..k][i].time == ChunkOf(ms[..k]).header.beginTime;
      assert ms[i] == ms[..k][i];
      if NoZero(ms) {
        forall j | 0 <= j < k ensures ms[..k][j] == ms[j] {}
        forall j | 0 <= j < |ms|
          ensures ChunkOf(ms).header.beginTime <= ms[j].time
        {
          if j < k { assert ms[j] == ms[..k][j]; }
        }
      }
    }
    assert ms[k].time == ChunkOf(ms).header.beginTime || ChunkOf(ms).header.beginTime == ChunkOf(ms[..k]).header.beginTime;
  }

  /** A chunk header tells the truth exactly when no message has time 0 or the last one has. */
  lemma ChunkDescribesIff(ms: seq<Message>)
    requires ms != []
    ensures Describes(ChunkOf(ms).header, ms) <==> NoZero(ms) || ms[|ms| - 1].time == 0
  {
    var h := ChunkOf(ms).header;
    assert h.messageNumber == |ms| by { ChunkCounts(ms); }
    EndIsLatest(ms);
    BeginIsEarliest(ms);
    DescribesWhen(h, ms);
    if NoZero(ms) || ms[|ms| - 1].time == 0 {
      forall i | 0 <= i < |ms| ensures h.beginTime <= ms[i].time {}
    } else {
      var i :| 0 <= i < |ms| && ms[i].time == 0;
      assert h.beginTime > ms[i].time;
    }
  }

  lemma DescribesWhen(h: ChunkHeader, ms: seq<Message>)
    requires ms != [] && h.messageNumber == |ms| && SomeTime(ms, h.beginTime) && SomeTime(ms, h.endTime)
    requires forall i | 0 <= i < |ms| :: ms[i].time <= h.endTime
    ensures Describes(h, ms) <==> forall i | 0 <= i < |ms| :: h.beginTime <= ms[i].time
  {
  }

  // ---------------------------------------------------------------- the file under construction

  /** What has been written, the header and the index kept in memory. */
  datatype Out = Out(header: Header, sections: seq<Section>, index: seq<SingleIndex>)

  function WriteChannel(o: Out, name: string): Out {
    Out(o.header.(channelNumber := o.header.channelNumber + 1),
        o.sections + [ChannelSection(name)],
        o.index + [ChannelCache(name, 0)])
  }

  function WriteChunk(o: Out, c: Chunk): Out {
    Out(o.header.(chunkNumber := o.header.chunkNumber + 1,
                  beginTime := if o.header.beginTime == 0 then c.header.beginTime else o.header.beginTime,
                  endTime := c.header.endTime,
                  messageNumber := o.header.messageNumber + c.header.messageNumber),
        o.sections + [ChunkHeaderSection(c.header), ChunkBodySection(c.body)],
        o.index + [ChunkHeaderCache(c.header), ChunkBodyCache(|c.body|)])
  }

  function WithCount(single: SingleIndex, counts: map<string, nat>): SingleIndex {
    if single.ChannelCache? && single.name in counts then single.(messageNumber := counts[single.name]) else single
  }

  function WithCounts(index: seq<SingleIndex>, counts: map<string, nat>): (r: seq<SingleIndex>)
    ensures |r| == |index| && forall i | 0 <= i < |r| :: r[i] == WithCount(index[i], counts)
  {
    seq(|index|, i requires 0 <= i < |index| => WithCount(index[i], counts))
  }

  function WriteIndex(o: Out, counts: map<string, nat>): Out {
    var index := WithCounts(o.index, counts);
    Out(o.header.(indexPosition := |o.sections|), o.sections + [IndexSection(index)], index)
  }

  function CountUp(counts: map<string, nat>, name: string): map<string, nat> {
    counts[name := if name in counts then counts[name] + 1 else 1]
  }

  /** Whether the active chunk has to be handed over after `m` was added to it. */
  predicate NeedsFlush(h: Header, c: ChunkHeader, m: Message) {
    || (h.chunkInterval > 0 && m.time - c.beginTime > h.chunkInterval)
    || (h.chunkRawSize > 0 && c.rawSize > h.chunkRawSize)
  }

  // ---------------------------------------------------------------- the sequential code

  class ChunkBuffer {
    var header: ChunkHeader
    var body: seq<Message>

    function Value(): Chunk
      reads this
    {
      Chunk(header, body)
    }

    constructor ()
      ensures Value() == EMPTY_CHUNK
    {
      header, body := ChunkHeader(0, 0, 0, 0), [];
    }

    method Clear()
      modifies this
      ensures Value() == EMPTY_CHUNK
    {
      header, body := ChunkHeader(0, 0, 0, 0), [];
    }

    /** Keeps the header equal to that of the chunk built from the body. */
    method AddMessage(m: Message)
      requires Value() == ChunkOf(body)
      modifies this
      ensures body == old(body) + [m] && Value() == ChunkOf(body)
    {
      ChunkOfSnoc(body, m);
      Append(m);
    }

    method Append(m: Message)
      modifies this
      ensures Value() == Add(old(Value()), m)
    {
      body := body + [m];
      if header.beginTime == 0 { header := header.(beginTime := m.time); }
      if header.beginTime > m.time { header := header.(beginTime := m.time); }
      if header.endTime < m.time { header := header.(endTime := m.time); }
      header := header.(messageNumber := header.messageNumber + 1);
      header := header.(rawSize := header.rawSize + |m.content|);
    }
  }

  class FileWriter {
    var header: Header
    var sections: seq<Section>
    var index: seq<SingleIndex>
    var counts: map<string, nat>
    var active: ChunkBuffer
    var flush: ChunkBuffer

    ghost function Written(): Out
      reads this
    {
      Out(header, sections, index)
    }

    ghost predicate Valid()
      reads this, active, flush
    {
      active != flush && active.Value() == ChunkOf(active.body) && flush.Value() == ChunkOf(flush.body)
    }

    constructor (header: Header)
      ensures Valid() && fresh(active) && fresh(flush) && active.body == [] && flush.body == []
      ensures Written() == Out(header, [], []) && counts == map[]
    {
      this.header, sections, index, counts := header, [], [], map[];
      active := new ChunkBuffer();
      flush := new ChunkBuffer();
    }

    method AppendChannel(name: string)
      modifies this`header, this`sections, this`index
      ensures Written() == WriteChannel(old(Written()), name)
    {
      sections := sections + [ChannelSection(name)];
      header := header.(channelNumber := header.channelNumber + 1);
      index := index + [ChannelCache(name, 0)];
    }

    /** The flush thread's part: write the flush chunk and clear it. */
    method FlushChunk()
      requires Valid()
      modifies this`header, this`sections, this`index, flush
      ensures Valid() && flush.body == []
      ensures Written() == if Empty(old(flush.Value())) then old(Written())
                           else WriteChunk(old(Written()), old(flush.Value()))
    {
      if flush.header.messageNumber == 0 { return; }
      AppendChunk();
      flush.Clear();
    }

    /** The two sections of the flush chunk, and what the header and the index say about them. */
    method AppendChunk()
      modifies this`header, this`sections, this`index
      ensures Written() == WriteChunk(old(Written()), flush.Value())
    {
      sections := sections + [ChunkHeaderSection(flush.header)];
      index := index + [ChunkHeaderCache(flush.header)];
      sections := sections + [ChunkBodySection(flush.body)];
      header := header.(chunkNumber := header.chunkNumber + 1);
      if header.beginTime == 0 { header := header.(beginTime := flush.header.beginTime); }
      header := header.(endTime := flush.header.endTime);
      header := header.(messageNumber := header.messageNumber + flush.header.messageNumber);
      index := index + [ChunkBodyCache(|flush.body|)];
      assert [ChunkHeaderSection(flush.header)] + [ChunkBodySection(flush.body)]
             == [ChunkHeaderSection(flush.header), ChunkBodySection(flush.body)];
    }

    /** `WriteMessage` up to the decision to swap. */
    method Accept(m: Message) returns (needFlush: bool)
      requires Valid()
      modifies this`counts, active
      ensures Valid() && active.body == old(active.body) + [m] && counts == CountUp(old(counts), m.channel)
      ensures needFlush == NeedsFlush(header, active.header, m)
    {
      active.AddMessage(m);
      if m.channel in counts {
        counts := counts[m.channel := counts[m.channel] + 1];
      } else {
        counts := counts[m.channel := 1];
      }
      needFlush := false;
      if header.chunkInterval > 0 && m.time - active.header.beginTime > header.chunkInterval {
        needFlush := true;
      }
      if header.chunkRawSize > 0 && active.header.rawSize > header.chunkRawSize {
        needFlush := true;
      }
    }

    method SwapChunks()
      requires Valid()
      modifies this`active, this`flush
      ensures Valid() && active == old(flush) && flush == old(active)
    {
      active, flush := flush, active;
    }

    method FinishIndex()
      modifies this`header, this`sections, this`index
      ensures Written() == WriteIndex(old(Written()), counts)
    {
      var i := 0;
      while i < |index|
        invariant i <= |index| == |old(index)| && header == old(header) && sections == old(sections)
        invariant forall j | 0 <= j < i :: index[j] == WithCount(old(index)[j], counts)
        invariant forall j | i <= j < |index| :: index[j] == old(index)[j]
      {
        var single := index[i];
        if single.ChannelCache? && single.name in counts {
          index := index[i := single.(messageNumber := counts[single.name])];
        }
        i := i + 1;
      }
      assert index == WithCounts(old(index), counts);
      header := header.(indexPosition := |sections|);
      sections := sections + [IndexSection(index)];
    }

    /** The object holds what the transition system says. */
    ghost predicate Shows(s: State)
      reads this, active, flush
    {
      Valid() && Written() == s.out && counts == s.counts && active.Value() == s.active && flush.Value() == s.flush
    }

    /** One step of either thread, by the methods of the object. Whether the writing thread has to swap next
        is decided as the object decides it. */
    method Perform(a: Action, ghost s: State) returns (needFlush: bool)
      requires Shows(s) && Enabled(s, a)
      modifies this, active, flush
      ensures Shows(Next(s, a)) && {active, flush} == old({active, flush})
      ensures a.WriteMessage? ==> (needFlush <==> Next(s, a).writer.MustSwap?)
    {
      needFlush := false;
      match a {
        case WriteMessage(m) =>
          ChunkOfSnoc(active.body, m);
          needFlush := Accept(m);
        case NewChannel(name) => AppendChannel(name);
        case Swap => SwapChunks();
        case SwapLast => SwapChunks();
        case Write => AppendChunk();
        case Clear => flush.Clear();
        case Finish => Complete();
        case Take | Exit | CloseStart | SeeDrained | StopWriting =>
      }
    }

    /** The end of `Close`: the index, and the header marked complete. */
    method Complete()
      modifies this`header, this`sections, this`index
      ensures var o := WriteIndex(old(Written()), counts); Written() == o.(header := o.header.(isComplete := true))
    {
      FinishIndex();
      header := header.(isComplete := true);
    }
  }

  /** Any run of the two threads, performed on the object: it ends up holding what the transition system
      says, so what is proved about every run is proved about the object. */
  method Replay(h: Header, actions: seq<Action>) returns (w: FileWriter)
    requires Run(Open(h), actions)
    ensures fresh(w) && w.Shows(Final(Open(h), actions))
  {
    w := new FileWriter(h);
    ghost var s := Open(h);
    for i := 0 to |actions|
      invariant fresh(w) && fresh(w.active) && fresh(w.flush) && w.Shows(s)
      invariant Run(s, actions[i..]) && Final(s, actions[i..]) == Final(Open(h), actions)
    {
      assert actions[i..][0] == actions[i] && actions[i..][1..] == actions[i + 1..];
      var needFlush := w.Perform(actions[i], s);
      s := Next(s, actions[i]);
    }
  }

  // ---------------------------------------------------------------- the two threads

  datatype WriterPc =
    | Ready          // between calls
    | MustSwap       // in WriteMessage, about to take the flush mutex
    | Draining       // Close: waiting for a pending flush
    | LastSwap       // Close: about to take the flush mutex
    | LastDrain      // Close: waiting for the last flush
    | Joining        // Close: waiting for the flush thread to end
    | Closed

  datatype FlusherPc =
    | Waiting        // does not hold the flush mutex
    | Holding        // holds it, found a chunk to write
    | Wrote          // holds it, has written the chunk
    | Exited

  datatype Ids = Ids(file: seq<nat>, flush: seq<nat>, active: seq<nat>)

  datatype State = State(
    out: Out, disk: Header, counts: map<string, nat>, active: Chunk, flush: Chunk,
    writing: bool, writer: WriterPc, flusher: FlusherPc,
    accepted: seq<Message>, ids: Ids, crossed: bool)
  // `accepted`, `ids` and `crossed` are history: the messages in the order of WriteMessage, where each of
  // them is now, by its position in that order, and whether a swap has ever found the flush chunk not yet
  // written.

  datatype Action =
    | WriteMessage(m: Message) | NewChannel(name: string) | Swap
    | Take | Write | Clear | Exit
    | CloseStart | SeeDrained | SwapLast | StopWriting | Finish

  predicate MutexFree(s: State) {
    s.flusher.Waiting? || s.flusher.Exited?
  }

  predicate Enabled(s: State, a: Action) {
    match a
    case WriteMessage(_) => s.writer.Ready?
    case NewChannel(_) => s.writer.Ready?
    case Swap => s.writer.MustSwap? && MutexFree(s)
    case Take => s.flusher.Waiting? && s.writing && !Empty(s.flush)
    case Write => s.flusher.Holding?
    case Clear => s.flusher.Wrote?
    case Exit => s.flusher.Waiting? && !s.writing
    case CloseStart => s.writer.Ready?
    case SeeDrained => s.writer.Draining? && Empty(s.flush)
    case SwapLast => s.writer.LastSwap? && MutexFree(s)
    case StopWriting => s.writer.LastDrain? && Empty(s.flush)
    case Finish => s.writer.Joining? && s.flusher.Exited?
  }

  function Exchanged(ids: Ids): Ids {
    ids.(flush := ids.active, active := ids.flush)
  }

  function Next(s: State, a: Action): State
    requires Enabled(s, a)
  {
    match a
    case WriteMessage(m) =>
      var active := Add(s.active, m);
      s.(active := active, counts := CountUp(s.counts, m.channel), accepted := s.accepted + [m],
         ids := s.ids.(active := s.ids.active + [|s.accepted|]),
         writer := if NeedsFlush(s.out.header, active.header, m) then MustSwap else Ready)
    case NewChannel(name) => s.(out := WriteChannel(s.out, name))
    case Swap =>
      s.(active := s.flush, flush := s.active, writer := Ready, crossed := s.crossed || !Empty(s.flush),
         ids := Exchanged(s.ids))
    case Take => s.(flusher := Holding)
    case Write =>
      s.(out := WriteChunk(s.out, s.flush), flusher := Wrote, ids := s.ids.(file := s.ids.file + s.ids.flush))
    case Clear => s.(flush := EMPTY_CHUNK, flusher := Waiting, ids := s.ids.(flush := []))
    case Exit => s.(flusher := Exited)
    case CloseStart => s.(writer := Draining)
    case SeeDrained => s.(writer := LastSwap)
    case SwapLast => s.(active := s.flush, flush := s.active, writer := LastDrain, ids := Exchanged(s.ids))
    case StopWriting => s.(writing := false, writer := Joining)
    case Finish =>
      var o := WriteIndex(s.out, s.counts);
      var header := o.header.(isComplete := true);
      s.(out := o.(header := header), disk := header, writer := Closed)
  }

  /** A fresh header, as the header builder makes it. */
  predicate FreshHeader(h: Header) {
    h.beginTime == 0 && h.endTime == 0 && h.messageNumber == 0 && h.chunkNumber == 0 && h.channelNumber == 0 && !h.isComplete
  }

  function Open(h: Header): State {
    State(Out(h, [], []), h, map[], EMPTY_CHUNK, EMPTY_CHUNK, true, Ready, Waiting, [], Ids([], [], []), false)
  }

  predicate Run(s: State, actions: seq<Action>)
    decreases |actions|
  {
    actions == [] || (Enabled(s, actions[0]) && Run(Next(s, actions[0]), actions[1..]))
  }

  function Final(s: State, actions: seq<Action>): State
    requires Run(s, actions)
    decreases |actions|
  {
    if actions == [] then s else Final(Next(s, actions[0]), actions[1..])
  }

  // ---------------------------------------------------------------- conservation

  /** The flush chunk's messages that are not in the file yet. */
  function Unwritten(s: State): seq<Message> {
    if s.flusher.Wrote? then [] else s.flush.body
  }

  /** All messages, in the order in which they would reach the file from here. */
  function Order(s: State): seq<Message> {
    Messages(s.out.sections) + Unwritten(s) + s.active.body
  }

  predicate ChunksOk(s: State) {
    && s.active == ChunkOf(s.active.body) && s.flush == ChunkOf(s.flush.body)
    && (s.flusher.Holding? || s.flusher.Wrote? ==> s.flush.body != [])
    && (s.writer.MustSwap? ==> s.active.body != [] && s.accepted != []
                               && s.active.body[|s.active.body| - 1] == s.accepted[|s.accepted| - 1])
  }

  /** Where Close stands, and what is then known to be empty. */
  predicate ClosingOk(s: State) {
    && (s.writing <==> !s.writer.Joining? && !s.writer.Closed?)
    && (s.writer.LastSwap? ==> s.flush.body == [])
    && (s.writer.LastDrain? || s.writer.Joining? || s.writer.Closed? ==> s.active.body == [])
    && (s.writer.Joining? || s.writer.Closed? ==> s.flush.body == [])
    && (s.flusher.Exited? ==> !s.writing)
    && (s.writer.Closed? ==> s.flusher.Exited?)
  }

  function Times(ms: seq<Message>, m: Message): nat {
    multiset(ms)[m]
  }

  /** The same messages, each as often. */
  ghost predicate Rearranged(a: seq<Message>, b: seq<Message>) {
    forall m: Message :: Times(a, m) == Times(b, m)
  }

  lemma RearrangedIff(a: seq<Message>, b: seq<Message>)
    ensures Rearranged(a, b) <==> multiset(a) == multiset(b)
  {
    if Rearranged(a, b) {
      forall m: Message ensures multiset(a)[m] == multiset(b)[m] { assert Times(a, m) == Times(b, m); }
    }
  }

  ghost predicate Conserved(s: State) {
    && Rearranged(Order(s), s.accepted)
    && (!s.crossed ==> Order(s) == s.accepted)
  }

  lemma EmptyIff(ms: seq<Message>)
    ensures Empty(ChunkOf(ms)) <==> ms == []
  {
    ChunkCounts(ms);
  }

  lemma ChunksOkNext(s: State, a: Action)
    requires ChunksOk(s) && ClosingOk(s) && Enabled(s, a)
    ensures ChunksOk(Next(s, a)) && ClosingOk(Next(s, a))
  {
    EmptyIff(s.flush.body);
    if a.WriteMessage? { ChunkOfSnoc(s.active.body, a.m); }
    ChunksNext(s, a);
    ClosingNext(s, a);
  }

  lemma ChunksNext(s: State, a: Action)
    requires ChunksOk(s) && Enabled(s, a) && (Empty(s.flush) <==> s.flush.body == [])
    requires a.WriteMessage? ==> ChunkOf(s.active.body + [a.m]) == Add(s.active, a.m)
    ensures ChunksOk(Next(s, a))
  {
    assert ChunkOf([]) == EMPTY_CHUNK;
    if a.WriteMessage? {
      ChunksAccept(s, a.m);
    } else if a.Swap? || a.SwapLast? {
      assert Next(s, a).active == s.flush && Next(s, a).flush == s.active;
    } else {
      ChunksSame(s, Next(s, a));
    }
  }

  lemma ChunksAccept(s: State, m: Message)
    requires ChunksOk(s) && s.writer.Ready? && ChunkOf(s.active.body + [m]) == Add(s.active, m)
    ensures ChunksOk(Next(s, WriteMessage(m)))
  {
  }

  lemma ChunksSame(s: State, s': State)
    requires ChunksOk(s) && s'.active == s.active && s'.accepted == s.accepted && ChunkOf([]) == EMPTY_CHUNK
    requires s'.flush == s.flush || (s'.flush == EMPTY_CHUNK && s'.flusher.Waiting?)
    requires s'.flusher.Holding? || s'.flusher.Wrote? ==> s'.flush.body != []
    requires s'.writer.MustSwap? ==> s.writer.MustSwap?
    ensures ChunksOk(s')
  {
  }

  lemma ClosingNext(s: State, a: Action)
    requires ClosingOk(s) && Enabled(s, a) && (Empty(s.flush) <==> s.flush.body == [])
    ensures ClosingOk(Next(s, a))
  {
  }

  lemma MessagesOfChunk(o: Out, c: Chunk)
    ensures Messages(WriteChunk(o, c).sections) == Messages(o.sections) + c.body
  {
    var more := [ChunkHeaderSection(c.header), ChunkBodySection(c.body)];
    MessagesAppend(o.sections, more);
    assert more[1..] == [ChunkBodySection(c.body)] && more[1..][1..] == [];
    assert Messages(more[1..]) == c.body + [];
    assert Messages(more) == [] + (c.body + []);
  }

  lemma MessagesOfOther(o: seq<Section>, section: Section)
    requires !section.ChunkBodySection?
    ensures Messages(o + [section]) == Messages(o)
  {
    MessagesAppend(o, [section]);
    assert Messages([section]) == [] + Messages([section][1..]);
  }

  lemma OrderAccept(s: State, m: Message)
    requires Conserved(s) && s.writer.Ready?
    ensures Conserved(Next(s, WriteMessage(m)))
  {
    AppendLast(Messages(s.out.sections) + Unwritten(s), s.active.body, s.accepted, m);
  }

  lemma AppendLast(before: seq<Message>, active: seq<Message>, accepted: seq<Message>, m: Message)
    requires Rearranged(before + active, accepted)
    ensures before + (active + [m]) == (before + active) + [m]
    ensures Rearranged(before + (active + [m]), accepted + [m])
  {
    assert before + (active + [m]) == (before + active) + [m];
    RearrangedIff(before + active, accepted);
    RearrangedIff(before + active + [m], accepted + [m]);
    assert multiset((before + active) + [m]) == multiset(before + active) + multiset{m};
    assert multiset(accepted + [m]) == multiset(accepted) + multiset{m};
  }

  /** Exchanging the chunks keeps the multiset, and the order if one of them is empty. */
  lemma OrderSwap(s: State, s': State)
    requires Conserved(s) && MutexFree(s)
    requires s' == s.(active := s.flush, flush := s.active, writer := s'.writer, crossed := s'.crossed, ids := s'.ids)
    requires s.flush.body == [] || s'.crossed
    requires s.crossed ==> s'.crossed
    ensures Conserved(s')
  {
    Exchange(Messages(s.out.sections), s.flush.body, s.active.body);
    forall m: Message
      ensures Times(Order(s'), m) == Times(s.accepted, m)
    {
      assert Times(Order(s'), m) == Times(Order(s), m);
    }
  }

  lemma Exchange(file: seq<Message>, x: seq<Message>, y: seq<Message>)
    ensures Rearranged(file + y + x, file + x + y)
    ensures x == [] ==> file + x + y == file + y + x
  {
    assert multiset(file + x + y) == multiset(file) + multiset(x) + multiset(y);
    assert multiset(file + y + x) == multiset(file) + multiset(y) + multiset(x);
    RearrangedIff(file + y + x, file + x + y);
    if x == [] {
      assert file + [] == file && (file + y) + [] == file + y;
    }
  }

  lemma OrderWrite(s: State)
    requires Conserved(s) && s.flusher.Holding?
    ensures Conserved(Next(s, Write))
  {
    MessagesOfChunk(s.out, s.flush);
    assert Order(Next(s, Write)) == Order(s);
  }

  /** A step that changes none of the parts keeps all this. */
  lemma OrderSame(s: State, s': State)
    requires Conserved(s) && Messages(s'.out.sections) == Messages(s.out.sections) && Unwritten(s') == Unwritten(s)
    requires s'.active.body == s.active.body && s'.accepted == s.accepted && s'.crossed == s.crossed
    ensures Conserved(s')
  {
    assert Order(s') == Order(s);
  }

  /** Every step keeps the multiset, and the order too unless a swap crosses two filled chunks. */
  lemma ConservedNext(s: State, a: Action)
    requires ChunksOk(s) && ClosingOk(s) && Conserved(s) && Enabled(s, a)
    ensures Conserved(Next(s, a))
  {
    if a.WriteMessage? {
      OrderAccept(s, a.m);
    } else if a.Swap? || a.SwapLast? {
      EmptyIff(s.flush.body);
      OrderSwap(s, Next(s, a));
    } else if a.Write? {
      OrderWrite(s);
    } else {
      SameFile(s, a);
      OrderSame(s, Next(s, a));
    }
  }

  lemma SameFile(s: State, a: Action)
    requires Enabled(s, a) && !a.Write?
    ensures Messages(Next(s, a).out.sections) == Messages(s.out.sections)
  {
    if a.NewChannel? {
      MessagesOfOther(s.out.sections, ChannelSection(a.name));
    } else if a.Finish? {
      MessagesOfOther(s.out.sections, IndexSection(WithCounts(s.out.index, s.counts)));
    }
  }

  // ---------------------------------------------------------------- header, index and counts

  function CountOf(ms: seq<Message>, channel: string): nat {
    if ms == [] then 0
    else CountOf(ms[..|ms| - 1], channel) + if ms[|ms| - 1].channel == channel then 1 else 0
  }

  function Chunks(sections: seq<Section>): nat {
    if sections == [] then 0
    else Chunks(sections[..|sections| - 1]) + if sections[|sections| - 1].ChunkBodySection? then 1 else 0
  }

  function Channels(sections: seq<Section>): nat {
    if sections == [] then 0
    else Channels(sections[..|sections| - 1]) + if sections[|sections| - 1].ChannelSection? then 1 else 0
  }

  lemma TalliesSnoc(sections: seq<Section>, section: Section)
    ensures Chunks(sections + [section]) == Chunks(sections) + if section.ChunkBodySection? then 1 else 0
    ensures Channels(sections + [section]) == Channels(sections) + if section.ChannelSection? then 1 else 0
  {
    assert (sections + [section])[..|sections|] == sections;
  }

  /** The index entry that belongs to a section, with the counts of `ms` for channels. */
  predicate Indexes(single: SingleIndex, section: Section, ms: seq<Message>) {
    match section
    case ChannelSection(name) => single == ChannelCache(name, CountOf(ms, name))
    case ChunkHeaderSection(header) => single == ChunkHeaderCache(header)
    case ChunkBodySection(messages) => single == ChunkBodyCache(|messages|)
    case IndexSection(_) => false
  }

  /** The index has one entry per section, in order. */
  predicate IndexMatches(index: seq<SingleIndex>, sections: seq<Section>, ms: seq<Message>) {
    |index| == |sections| && forall i | 0 <= i < |index| :: Indexes(index[i], sections[i], ms)
  }

  /** Every chunk in the file is a chunk built from its messages. */
  predicate Chunked(sections: seq<Section>) {
    forall i | 0 <= i < |sections| && sections[i].ChunkHeaderSection? ::
      && i + 1 < |sections| && sections[i + 1].ChunkBodySection? && sections[i + 1].messages != []
      && sections[i].header == ChunkOf(sections[i + 1].messages).header
  }

  /** The file before its index is written: the header and the index in memory agree with it. */
  predicate OutOk(o: Out) {
    && o.header.messageNumber == |Messages(o.sections)|
    && o.header.chunkNumber == Chunks(o.sections) && o.header.channelNumber == Channels(o.sections)
    && Chunked(o.sections)
    && IndexMatches(o.index, o.sections, [])
  }

  ghost predicate CountsOk(counts: map<string, nat>, ms: seq<Message>) {
    forall channel: string :: CountMatches(counts, ms, channel)
  }

  predicate CountMatches(counts: map<string, nat>, ms: seq<Message>, channel: string) {
    (if channel in counts then counts[channel] else 0) == CountOf(ms, channel)
  }

  lemma OutOkChannel(o: Out, name: string)
    requires OutOk(o)
    ensures OutOk(WriteChannel(o, name))
  {
    MessagesOfOther(o.sections, ChannelSection(name));
    TalliesSnoc(o.sections, ChannelSection(name));
  }

  lemma OutOkChunk(o: Out, c: Chunk)
    requires OutOk(o) && c == ChunkOf(c.body) && c.body != []
    ensures OutOk(WriteChunk(o, c))
  {
    MessagesOfChunk(o, c);
    ChunkCounts(c.body);
    TalliesChunk(o.sections, c);
    ChunkedChunk(o.sections, c);
    IndexChunk(o.index, o.sections, c);
  }

  lemma TalliesChunk(sections: seq<Section>, c: Chunk)
    ensures
      var more := [ChunkHeaderSection(c.header), ChunkBodySection(c.body)];
      Chunks(sections + more) == Chunks(sections) + 1 && Channels(sections + more) == Channels(sections)
  {
    var h, b := ChunkHeaderSection(c.header), ChunkBodySection(c.body);
    TalliesSnoc(sections, h);
    TalliesSnoc(sections + [h], b);
    assert sections + [h] + [b] == sections + [h, b];
  }

  lemma ChunkedChunk(sections: seq<Section>, c: Chunk)
    requires Chunked(sections) && c == ChunkOf(c.body) && c.body != []
    ensures Chunked(sections + [ChunkHeaderSection(c.header), ChunkBodySection(c.body)])
  {
    var more := sections + [ChunkHeaderSection(c.header), ChunkBodySection(c.body)];
    forall i | 0 <= i < |more| && more[i].ChunkHeaderSection?
      ensures i + 1 < |more| && more[i + 1].ChunkBodySection? && more[i + 1].messages != []
      ensures more[i].header == ChunkOf(more[i + 1].messages).header
    {
      if i < |sections| { assert more[i] == sections[i] && more[i + 1] == sections[i + 1]; }
    }
  }

  lemma IndexChunk(index: seq<SingleIndex>, sections: seq<Section>, c: Chunk)
    requires IndexMatches(index, sections, [])
    ensures IndexMatches(index + [ChunkHeaderCache(c.header), ChunkBodyCache(|c.body|)],
                         sections + [ChunkHeaderSection(c.header), ChunkBodySection(c.body)], [])
  {
  }

  lemma CountsOkNext(counts: map<string, nat>, ms: seq<Message>, m: Message)
    requires CountsOk(counts, ms)
    ensures CountsOk(CountUp(counts, m.channel), ms + [m])
  {
    assert (ms + [m])[..|ms|] == ms;
    forall channel: string
      ensures CountMatches(CountUp(counts, m.channel), ms + [m], channel)
    {
      assert CountMatches(counts, ms, channel);
    }
  }

  /** The finished file: its last section is the index, at the position the header names, and the
      numbers in header and index are those of the file and of the accepted messages. */
  predicate FinishedOk(s: State) {
    var sections := s.out.sections;
    && s.disk == s.out.header && s.disk.isComplete
    && sections != [] && s.disk.indexPosition == |sections| - 1
    && sections[|sections| - 1] == IndexSection(s.out.index)
    && IndexMatches(s.out.index, sections[..|sections| - 1], s.accepted)
    && s.disk.messageNumber == |Messages(sections)|
    && s.disk.chunkNumber == Chunks(sections) && s.disk.channelNumber == Channels(sections)
    && Chunked(sections) && Framed(sections)
  }

  ghost predicate BooksOk(s: State) {
    CountsOk(s.counts, s.accepted) && if s.writer.Closed? then FinishedOk(s) else OutOk(s.out)
  }

  lemma FinishedNext(s: State)
    requires BooksOk(s) && Enabled(s, Finish)
    ensures FinishedOk(Next(s, Finish))
  {
    var s' := Next(s, Finish);
    MessagesOfOther(s.out.sections, IndexSection(s'.out.index));
    TalliesSnoc(s.out.sections, IndexSection(s'.out.index));
    assert s'.out.sections[..|s.out.sections|] == s.out.sections;
    IndexFilled(s.out.index, s.out.sections, s.counts, s.accepted);
    FramedWithIndex(s.out.sections, s'.out.index);
  }

  lemma FramedWithIndex(sections: seq<Section>, index: seq<SingleIndex>)
    requires Chunked(sections) && forall i | 0 <= i < |sections| :: !sections[i].IndexSection?
    ensures Chunked(sections + [IndexSection(index)]) && Framed(sections + [IndexSection(index)])
  {
    var all := sections + [IndexSection(index)];
    forall i | 0 <= i < |all| && all[i].ChunkHeaderSection?
      ensures i + 1 < |sections| && all[i] == sections[i] && all[i + 1] == sections[i + 1]
    {
    }
  }

  /** Filling in the counts makes the index one for the accepted messages. */
  lemma IndexFilled(index: seq<SingleIndex>, sections: seq<Section>, counts: map<string, nat>, ms: seq<Message>)
    requires IndexMatches(index, sections, []) && CountsOk(counts, ms)
    ensures IndexMatches(WithCounts(index, counts), sections, ms)
    ensures forall i | 0 <= i < |sections| :: !sections[i].IndexSection?
  {
    forall i | 0 <= i < |sections|
      ensures Indexes(WithCounts(index, counts)[i], sections[i], ms) && !sections[i].IndexSection?
    {
      assert Indexes(index[i], sections[i], []);
      if sections[i].ChannelSection? { assert CountMatches(counts, ms, sections[i].name); }
    }
  }

  lemma BooksOkNext(s: State, a: Action)
    requires ChunksOk(s) && ClosingOk(s) && BooksOk(s) && Enabled(s, a)
    ensures BooksOk(Next(s, a))
  {
    match a
    case WriteMessage(m) => CountsOkNext(s.counts, s.accepted, m);
    case NewChannel(name) => OutOkChannel(s.out, name);
    case Write => OutOkChunk(s.out, s.flush);
    case Finish => FinishedNext(s);
    case Swap | SwapLast | Take | Clear | Exit | CloseStart | SeeDrained | StopWriting =>
  }

  // ---------------------------------------------------------------- times in the header

  lemma SortedChunk(ms: seq<Message>)
    requires ms != [] && NoZero(ms) && SortedByTime(ms)
    ensures ChunkOf(ms).header.beginTime == ms[0].time
    ensures ChunkOf(ms).header.endTime == ms[|ms| - 1].time
  {
    BeginIsEarliest(ms);
    EndIsLatest(ms);
  }

  /** For messages in order the header carries the first and the last time of the file. */
  predicate Brackets(h: Header, file: seq<Message>) {
    if file == [] then h.beginTime == 0
    else h.beginTime == file[0].time && h.endTime == file[|file| - 1].time
  }

  predicate InOrder(ms: seq<Message>) {
    NoZero(ms) && SortedByTime(ms)
  }

  predicate TimesOk(s: State) {
    !s.crossed && InOrder(s.accepted) ==> Brackets(s.out.header, Messages(s.out.sections))
  }

  lemma BracketsChunk(h: Header, file: seq<Message>, c: Chunk, rest: seq<Message>)
    requires Brackets(h, file) && c == ChunkOf(c.body) && c.body != [] && InOrder(file + c.body + rest)
    ensures Brackets(WriteChunk(Out(h, [], []), c).header, file + c.body)
  {
    var all := file + c.body + rest;
    assert forall i | 0 <= i < |c.body| :: c.body[i] == all[|file| + i];
    SortedChunk(c.body);
    assert file != [] ==> file[0] == all[0];
  }

  lemma InOrderPrefix(ms: seq<Message>, m: Message)
    requires InOrder(ms + [m])
    ensures InOrder(ms)
  {
    assert forall i | 0 <= i < |ms| :: ms[i] == (ms + [m])[i];
  }

  lemma TimesOkNext(s: State, a: Action)
    requires ChunksOk(s) && ClosingOk(s) && Conserved(s) && TimesOk(s) && Enabled(s, a)
    ensures TimesOk(Next(s, a))
  {
    match a
    case WriteMessage(m) =>
      if InOrder(s.accepted + [m]) { InOrderPrefix(s.accepted, m); }
    case NewChannel(_) => SameFile(s, a);
    case Write =>
      MessagesOfChunk(s.out, s.flush);
      if !s.crossed && InOrder(s.accepted) {
        BracketsChunk(s.out.header, Messages(s.out.sections), s.flush, s.active.body);
      }
    case Finish => SameFile(s, a);
    case Swap | SwapLast | Take | Clear | Exit | CloseStart | SeeDrained | StopWriting =>
  }

  predicate Fits(ms: seq<Message>) {
    forall i | 0 <= i < |ms| :: ms[i].time <= UINT64_MAX
  }

  predicate BoundOk(s: State) {
    Fits(s.accepted) ==> s.out.header.beginTime <= UINT64_MAX
  }

  lemma SameMultisetFits(part: seq<Message>, ms: seq<Message>)
    requires multiset(part) <= multiset(ms) && Fits(ms)
    ensures Fits(part)
  {
    forall i | 0 <= i < |part| ensures part[i].time <= UINT64_MAX {
      assert part[i] in multiset(part);
      assert part[i] in ms;
    }
  }

  lemma MiddleFits(file: seq<Message>, flush: seq<Message>, active: seq<Message>, ms: seq<Message>)
    requires Rearranged(file + flush + active, ms) && Fits(ms)
    ensures Fits(flush)
  {
    RearrangedIff(file + flush + active, ms);
    assert multiset(file + flush + active) == multiset(file) + multiset(flush) + multiset(active);
    SameMultisetFits(flush, ms);
  }

  lemma FitsPrefix(ms: seq<Message>, m: Message)
    requires Fits(ms + [m])
    ensures Fits(ms)
  {
    assert forall i | 0 <= i < |ms| :: ms[i] == (ms + [m])[i];
  }

  lemma FlushFits(s: State)
    requires ChunksOk(s) && Conserved(s) && !s.flusher.Wrote? && Fits(s.accepted)
    ensures s.flush.header.beginTime <= UINT64_MAX
  {
    MiddleFits(Messages(s.out.sections), s.flush.body, s.active.body, s.accepted);
    ChunkFits(s.flush.body);
  }

  lemma BoundOkNext(s: State, a: Action)
    requires BoundOk(s) && Enabled(s, a)
    requires a.Write? && Fits(s.accepted) ==> s.flush.header.beginTime <= UINT64_MAX
    ensures BoundOk(Next(s, a))
  {
    match a
    case WriteMessage(m) =>
      if Fits(s.accepted + [m]) { FitsPrefix(s.accepted, m); }
    case Write | NewChannel(_) | Finish | Swap | SwapLast | Take | Clear | Exit
       | CloseStart | SeeDrained | StopWriting =>
  }

  // ---------------------------------------------------------------- all runs

  ghost predicate Inv(s: State) {
    ChunksOk(s) && ClosingOk(s) && Conserved(s) && BooksOk(s) && TimesOk(s) && BoundOk(s)
  }

  lemma OpenInv(h: Header)
    requires FreshHeader(h)
    ensures Inv(Open(h))
  {
    var s := Open(h);
    assert Order(s) == s.accepted;
    forall channel: string ensures CountMatches(s.counts, s.accepted, channel) {}
  }

  lemma NextInv(s: State, a: Action)
    requires Inv(s) && Enabled(s, a)
    ensures Inv(Next(s, a))
  {
    ChunksOkNext(s, a);
    ConservedNext(s, a);
    BooksOkNext(s, a);
    TimesOkNext(s, a);
    if a.Write? && Fits(s.accepted) { FlushFits(s); }
    BoundOkNext(s, a);
  }

  lemma {:induction false} RunInv(s: State, actions: seq<Action>)
    requires Inv(s) && Run(s, actions)
    ensures Inv(Final(s, actions))
    decreases |actions|
  {
    if actions != [] {
      NextInv(s, actions[0]);
      RunInv(Next(s, actions[0]), actions[1..]);
    }
  }

  /** Over every interleaving, at every point, the accepted messages are exactly those in the file, in the
      flush chunk and in the active chunk. */
  lemma NothingLostOverEveryRun(h: Header, actions: seq<Action>)
    requires FreshHeader(h) && Run(Open(h), actions)
    ensures var s := Final(Open(h), actions);
            multiset(Messages(s.out.sections)) + multiset(Unwritten(s)) + multiset(s.active.body) == multiset(s.accepted)
  {
    OpenInv(h);
    RunInv(Open(h), actions);
    var s := Final(Open(h), actions);
    RearrangedIff(Order(s), s.accepted);
    assert multiset(Order(s)) == multiset(Messages(s.out.sections)) + multiset(Unwritten(s)) + multiset(s.active.body);
  }

  lemma BodyInFile(sections: seq<Section>, i: nat, k: nat)
    requires i < |sections| && sections[i].ChunkBodySection? && k < |sections[i].messages|
    ensures sections[i].messages[k] in Messages(sections)
  {
    MessagesAppend(sections[..i], sections[i..]);
    assert sections[..i] + sections[i..] == sections;
    assert Messages(sections[i..]) == sections[i].messages + Messages(sections[i..][1..]);
    assert Messages(sections)[|Messages(sections[..i])| + k] == sections[i].messages[k];
  }

  lemma ChunkedWellFormed(sections: seq<Section>)
    requires Chunked(sections) && Framed(sections) && NoZero(Messages(sections))
    ensures WellFormed(sections)
  {
    forall i | 0 <= i < |sections| - 1 && sections[i].ChunkHeaderSection? && sections[i + 1].ChunkBodySection?
      ensures Describes(sections[i].header, sections[i + 1].messages)
    {
      var ms := sections[i + 1].messages;
      forall k | 0 <= k < |ms| ensures ms[k].time != 0 { BodyInFile(sections, i + 1, k); }
      ChunkDescribesIff(ms);
    }
  }

  lemma SameMultisetNoZero(a: seq<Message>, b: seq<Message>)
    requires multiset(a) == multiset(b) && NoZero(b)
    ensures NoZero(a)
  {
    forall i | 0 <= i < |a| ensures a[i].time != 0 {
      assert a[i] in multiset(a);
      assert a[i] in b;
    }
  }

  /** Every accepted message is in the file and nothing else, header and index agree with the file, and a
      file without time 0 is well formed. */
  predicate Complete(s: State) {
    && multiset(Messages(s.out.sections)) == multiset(s.accepted)
    && FinishedOk(s) && s.disk.messageNumber == |s.accepted|
    && (NoZero(s.accepted) ==> WellFormed(s.out.sections))
  }

  lemma ClosedOrder(s: State)
    requires ClosingOk(s) && Conserved(s) && s.writer.Closed?
    ensures multiset(Messages(s.out.sections)) == multiset(s.accepted)
    ensures |Messages(s.out.sections)| == |s.accepted|
    ensures !s.crossed ==> Messages(s.out.sections) == s.accepted
  {
    var file := Messages(s.out.sections);
    assert Order(s) == file + [] + [] == file;
    RearrangedIff(file, s.accepted);
    assert |multiset(file)| == |file| && |multiset(s.accepted)| == |s.accepted|;
  }

  lemma ClosedComplete(s: State)
    requires FinishedOk(s) && multiset(Messages(s.out.sections)) == multiset(s.accepted)
    requires |Messages(s.out.sections)| == |s.accepted|
    ensures Complete(s)
  {
    if NoZero(s.accepted) {
      SameMultisetNoZero(Messages(s.out.sections), s.accepted);
      ChunkedWellFormed(s.out.sections);
    }
  }

  /** After `Close`, over every interleaving, the file is complete. */
  lemma ClosedFileIsComplete(h: Header, actions: seq<Action>)
    requires FreshHeader(h) && Run(Open(h), actions) && Final(Open(h), actions).writer.Closed?
    ensures Complete(Final(Open(h), actions))
  {
    OpenInv(h);
    RunInv(Open(h), actions);
    ClosedOrder(Final(Open(h), actions));
    ClosedComplete(Final(Open(h), actions));
  }

  /** The file is sorted by time and its header brackets it. */
  predicate Bracketed(s: State) {
    && WellFormed(s.out.sections)
    && SortedByTime(Messages(s.out.sections)) && Covers(s.disk, Messages(s.out.sections))
  }

  lemma BracketsCovers(h: Header, file: seq<Message>)
    requires Brackets(h, file) && SortedByTime(file)
    ensures Covers(h, file)
  {
  }

  /** Messages accepted in the order of their times, without a crossing swap, give a sorted file with a true
      header. */
  lemma ClosedFileIsSorted(h: Header, actions: seq<Action>)
    requires FreshHeader(h) && Run(Open(h), actions) && Final(Open(h), actions).writer.Closed?
    requires InOrder(Final(Open(h), actions).accepted) && !Final(Open(h), actions).crossed
    ensures Bracketed(Final(Open(h), actions))
  {
    ClosedFileIsComplete(h, actions);
    OpenInv(h);
    RunInv(Open(h), actions);
    var s := Final(Open(h), actions);
    ClosedOrder(s);
    BracketsCovers(s.disk, Messages(s.out.sections));
  }

  // ---------------------------------------------------------------- when the order is kept

  function Iota(n: nat): (r: seq<nat>)
    ensures |r| == n && forall i | 0 <= i < n :: r[i] == i
  {
    seq(n, i => i)
  }

  /** The ids of the flush chunk's messages that are not in the file yet. */
  function UnwrittenIds(s: State): seq<nat> {
    if s.flusher.Wrote? then [] else s.ids.flush
  }

  function OrderIds(s: State): seq<nat> {
    s.ids.file + UnwrittenIds(s) + s.ids.active
  }

  /** `ids` tells for every message of `ms` which accepted message it is. */
  predicate Names(ids: seq<nat>, ms: seq<Message>, accepted: seq<Message>) {
    |ids| == |ms| && forall i | 0 <= i < |ids| :: ids[i] < |accepted| && accepted[ids[i]] == ms[i]
  }

  predicate Below(ids: seq<nat>, n: int) {
    forall i | 0 <= i < |ids| :: ids[i] < n
  }

  predicate PlacesOk(s: State) {
    && Names(s.ids.file, Messages(s.out.sections), s.accepted)
    && Names(s.ids.flush, s.flush.body, s.accepted) && Names(s.ids.active, s.active.body, s.accepted)
    && (s.writer.MustSwap? ==>
          && s.ids.active != [] && s.ids.active[|s.ids.active| - 1] == |s.accepted| - 1
          && Below(s.ids.flush, |s.accepted| - 1))
    && (!s.crossed ==> OrderIds(s) == Iota(|s.accepted|))
  }

  lemma NamesMore(ids: seq<nat>, ms: seq<Message>, accepted: seq<Message>, m: Message)
    requires Names(ids, ms, accepted)
    ensures Names(ids, ms, accepted + [m]) && Below(ids, |accepted|)
    ensures Names(ids + [|accepted|], ms + [m], accepted + [m])
  {
  }

  lemma PlacesAccept(s: State, m: Message)
    requires PlacesOk(s) && s.writer.Ready?
    ensures PlacesOk(Next(s, WriteMessage(m)))
  {
    NamesMore(s.ids.file, Messages(s.out.sections), s.accepted, m);
    NamesMore(s.ids.flush, s.flush.body, s.accepted, m);
    NamesMore(s.ids.active, s.active.body, s.accepted, m);
    var n := |s.accepted|;
    if !s.crossed {
      assert s.ids.file + UnwrittenIds(s) + (s.ids.active + [n]) == OrderIds(s) + [n] == Iota(n + 1);
    }
  }

  lemma PlacesSwap(s: State, a: Action)
    requires PlacesOk(s) && ChunksOk(s) && ClosingOk(s) && Enabled(s, a) && (a.Swap? || a.SwapLast?)
    ensures PlacesOk(Next(s, a))
  {
    EmptyIff(s.flush.body);
    SwapIds(s.ids.file, s.ids.flush, s.ids.active);
    assert OrderIds(Next(s, a)) == s.ids.file + s.ids.active + s.ids.flush;
  }

  lemma SwapIds(file: seq<nat>, flush: seq<nat>, active: seq<nat>)
    ensures flush == [] ==> file + active + flush == file + flush + active
  {
    assert flush == [] ==> file + active + [] == file + [] + active;
  }

  lemma PlacesWrite(s: State)
    requires PlacesOk(s) && s.flusher.Holding?
    ensures PlacesOk(Next(s, Write))
  {
    MessagesOfChunk(s.out, s.flush);
    NamesAppend(s.ids.file, s.ids.flush, Messages(s.out.sections), s.flush.body, s.accepted);
    WrittenIds(s.ids.file, s.ids.flush, s.ids.active);
  }

  lemma NamesAppend(a: seq<nat>, b: seq<nat>, x: seq<Message>, y: seq<Message>, accepted: seq<Message>)
    requires Names(a, x, accepted) && Names(b, y, accepted)
    ensures Names(a + b, x + y, accepted)
  {
  }

  lemma WrittenIds(file: seq<nat>, flush: seq<nat>, active: seq<nat>)
    ensures (file + flush) + [] + active == file + flush + active
  {
    assert (file + flush) + [] == file + flush;
  }

  lemma PlacesOkNext(s: State, a: Action)
    requires PlacesOk(s) && ChunksOk(s) && ClosingOk(s) && Enabled(s, a)
    ensures PlacesOk(Next(s, a))
  {
    if a.WriteMessage? {
      PlacesAccept(s, a.m);
    } else if a.Swap? || a.SwapLast? {
      PlacesSwap(s, a);
    } else if a.Write? {
      PlacesWrite(s);
    } else {
      PlacesQuiet(s, a);
    }
  }

  lemma PlacesQuiet(s: State, a: Action)
    requires PlacesOk(s) && Enabled(s, a) && !a.WriteMessage? && !a.Swap? && !a.SwapLast? && !a.Write?
    ensures PlacesOk(Next(s, a))
  {
    SameFile(s, a);
    PlacesSame(s, Next(s, a));
  }

  /** A step that moves no message keeps the places; clearing a written chunk is one. */
  lemma PlacesSame(s: State, s': State)
    requires PlacesOk(s) && Messages(s'.out.sections) == Messages(s.out.sections)
    requires s'.accepted == s.accepted && s'.crossed == s.crossed && s'.active.body == s.active.body
    requires s'.ids.file == s.ids.file && s'.ids.active == s.ids.active && UnwrittenIds(s') == UnwrittenIds(s)
    requires (s'.ids.flush == s.ids.flush && s'.flush == s.flush) || (s'.ids.flush == [] && s'.flush == EMPTY_CHUNK)
    requires s'.writer.MustSwap? ==> s.writer.MustSwap?
    ensures PlacesOk(s')
  {
  }

  /** Evidence that two accepted messages, given by their ids, will end up in the wrong order. */
  datatype Crossing =
    | Settled(x: nat, y: nat)              // the later one is in the file, ahead of the earlier one
    | Facing(x: nat, y: nat)               // the later one is in the flush chunk, the earlier one active
    | Straddling(x: nat, y: nat, z: nat)   // one chunk holds x and z, the other y between them

  predicate Ahead(file: seq<nat>, later: nat, earlier: nat) {
    exists i, j :: 0 <= i < j < |file| && file[i] == later && file[j] == earlier
  }

  predicate Holds(s: State, c: Crossing) {
    var file, pending, active := s.ids.file, UnwrittenIds(s), s.ids.active;
    match c
    case Settled(x, y) => x < y && y in file && (Ahead(file, y, x) || x in pending || x in active)
    case Facing(x, y) => x < y && x in active && y in pending && !s.writer.MustSwap?
    case Straddling(x, y, z) =>
      x < y < z && ((y in pending && x in active && z in active) || (y in active && x in pending && z in pending))
  }

  /** A swap that finds the flush chunk unwritten puts a later message ahead of an earlier one. */
  lemma CrossingStart(s: State) returns (c: Crossing)
    requires PlacesOk(s) && Enabled(s, Swap) && s.ids.flush != []
    ensures Holds(Next(s, Swap), c)
  {
    var k := |s.ids.active| - 1;
    assert s.ids.flush[0] in s.ids.flush && s.ids.active[k] in s.ids.active;
    c := Facing(s.ids.flush[0], s.ids.active[k]);
  }

  lemma AheadMore(file: seq<nat>, more: seq<nat>, later: nat, earlier: nat)
    requires later in file && (Ahead(file, later, earlier) || earlier in more)
    ensures Ahead(file + more, later, earlier)
  {
    if Ahead(file, later, earlier) {
      var i, j :| 0 <= i < j < |file| && file[i] == later && file[j] == earlier;
      assert (file + more)[i] == later && (file + more)[j] == earlier;
    } else {
      var i :| 0 <= i < |file| && file[i] == later;
      var j :| 0 <= j < |more| && more[j] == earlier;
      assert (file + more)[i] == later && (file + more)[|file| + j] == earlier;
    }
  }

  lemma CrossingWrite(s: State, c: Crossing) returns (c': Crossing)
    requires s.flusher.Holding? && Holds(s, c)
    ensures Holds(Next(s, Write), c')
  {
    var file, pending := s.ids.file, s.ids.flush;
    match c
    case Settled(x, y) =>
      c' := c;
      if Ahead(file, y, x) || x in pending { AheadMore(file, pending, y, x); }
    case Facing(x, y) => c' := Settled(x, y);
    case Straddling(x, y, z) => c' := if y in pending && x in s.ids.active then Settled(x, y) else Settled(y, z);
  }

  /** No later step can undo it. */
  lemma CrossingStays(s: State, a: Action, c: Crossing) returns (c': Crossing)
    requires PlacesOk(s) && ChunksOk(s) && ClosingOk(s) && Enabled(s, a) && Holds(s, c)
    ensures Holds(Next(s, a), c')
  {
    c' := c;
    if a.WriteMessage? {
      CrossingAccept(s, a.m, c);
      if c.Facing? { c' := Straddling(c.x, c.y, |s.accepted|); }
    } else if a.Write? {
      c' := CrossingWrite(s, c);
    }
  }

  lemma CrossingAccept(s: State, m: Message, c: Crossing)
    requires PlacesOk(s) && s.writer.Ready? && Holds(s, c)
    ensures Holds(Next(s, WriteMessage(m)), if c.Facing? then Straddling(c.x, c.y, |s.accepted|) else c)
  {
    var active := s.ids.active + [|s.accepted|];
    assert active[|s.ids.active|] == |s.accepted|;
    assert forall x | x in s.ids.active :: x in active;
    assert c.Facing? ==> c.y < |s.accepted|;
  }

  ghost predicate CrossingShown(s: State) {
    s.crossed ==> exists c :: Holds(s, c)
  }

  lemma CrossedNext(s: State, a: Action)
    requires PlacesOk(s) && ChunksOk(s) && ClosingOk(s) && Enabled(s, a) && CrossingShown(s)
    ensures CrossingShown(Next(s, a))
  {
    if s.crossed {
      var c :| Holds(s, c);
      var c' := CrossingStays(s, a, c);
    } else if Next(s, a).crossed {
      EmptyIff(s.flush.body);
      var c' := CrossingStart(s);
    }
  }

  lemma {:induction false} PlacesRun(s: State, actions: seq<Action>)
    requires Inv(s) && Run(s, actions)
    ensures PlacesOk(s) && CrossingShown(s) ==> PlacesOk(Final(s, actions)) && CrossingShown(Final(s, actions))
    decreases |actions|
  {
    if actions != [] && PlacesOk(s) && CrossingShown(s) {
      NextInv(s, actions[0]);
      PlacesOkNext(s, actions[0]);
      CrossedNext(s, actions[0]);
      PlacesRun(Next(s, actions[0]), actions[1..]);
    }
  }

  /** The order of the file, over every run and for any messages, equal ones included: position by position
      the file holds the accepted messages that `ids.file` names, and these are 0, 1, 2 ... if and only if
      no swap found the flush chunk still unwritten. */
  lemma OrderKeptIffNeverCrossed(h: Header, actions: seq<Action>)
    requires FreshHeader(h) && Run(Open(h), actions) && Final(Open(h), actions).writer.Closed?
    ensures var s := Final(Open(h), actions); Names(s.ids.file, Messages(s.out.sections), s.accepted)
    ensures var s := Final(Open(h), actions); s.ids.file == Iota(|s.accepted|) <==> !s.crossed
  {
    PlacesOverRun(h, actions);
    ClosedPlaces(Final(Open(h), actions));
  }

  lemma PlacesOverRun(h: Header, actions: seq<Action>)
    requires FreshHeader(h) && Run(Open(h), actions)
    ensures
      var s := Final(Open(h), actions);
      PlacesOk(s) && CrossingShown(s) && ClosingOk(s)
  {
    OpenInv(h);
    OpenPlaces(h);
    RunInv(Open(h), actions);
    PlacesRun(Open(h), actions);
  }

  lemma OpenPlaces(h: Header)
    ensures PlacesOk(Open(h)) && CrossingShown(Open(h))
  {
  }

  lemma ClosedPlaces(s: State)
    requires PlacesOk(s) && CrossingShown(s) && ClosingOk(s) && s.writer.Closed?
    ensures Names(s.ids.file, Messages(s.out.sections), s.accepted)
    ensures s.ids.file == Iota(|s.accepted|) <==> !s.crossed
  {
    assert s.ids.flush == [] && s.ids.active == [];
    assert OrderIds(s) == s.ids.file + [] + [] == s.ids.file;
    if s.crossed {
      var c :| Holds(s, c);
      NeverAhead(|s.accepted|, c.x, c.y);
    }
  }

  lemma NeverAhead(n: nat, x: nat, y: nat)
    requires x < y
    ensures !Ahead(Iota(n), y, x)
  {
  }

  // ---------------------------------------------------------------- the history is what happened

  function AcceptedIn(a: Action): seq<Message> {
    if a.WriteMessage? then [a.m] else []
  }

  function AcceptedOf(actions: seq<Action>): seq<Message> {
    if actions == [] then [] else AcceptedIn(actions[0]) + AcceptedOf(actions[1..])
  }

  function AnnouncedIn(a: Action): seq<string> {
    if a.NewChannel? then [a.name] else []
  }

  function AnnouncedOf(actions: seq<Action>): seq<string> {
    if actions == [] then [] else AnnouncedIn(actions[0]) + AnnouncedOf(actions[1..])
  }

  lemma Regroup<T>(a: seq<T>, b: seq<T>, c: seq<T>)
    ensures a + (b + c) == (a + b) + c && a + [] == a
  {
  }

  /** The channels that have a section of their own, in file order. */
  function ChannelNames(sections: seq<Section>): seq<string> {
    if sections == [] then []
    else
      ChannelNames(sections[..|sections| - 1])
      + if sections[|sections| - 1].ChannelSection? then [sections[|sections| - 1].name] else []
  }

  lemma ChannelNamesSnoc(sections: seq<Section>, section: Section)
    ensures ChannelNames(sections + [section])
            == ChannelNames(sections) + if section.ChannelSection? then [section.name] else []
  {
    assert (sections + [section])[..|sections|] == sections;
  }

  lemma AcceptedNext(s: State, a: Action)
    requires Enabled(s, a)
    ensures Next(s, a).accepted == s.accepted + AcceptedIn(a)
  {
    Regroup(s.accepted, [], []);
  }

  lemma AnnouncedNext(s: State, a: Action)
    requires Enabled(s, a)
    ensures ChannelNames(Next(s, a).out.sections) == ChannelNames(s.out.sections) + AnnouncedIn(a)
  {
    Regroup(ChannelNames(s.out.sections), [], []);
    if a.NewChannel? {
      ChannelNamesSnoc(s.out.sections, ChannelSection(a.name));
    } else if a.Write? {
      var h, b := ChunkHeaderSection(s.flush.header), ChunkBodySection(s.flush.body);
      ChannelNamesSnoc(s.out.sections, h);
      ChannelNamesSnoc(s.out.sections + [h], b);
      assert s.out.sections + [h] + [b] == s.out.sections + [h, b];
    } else if a.Finish? {
      ChannelNamesSnoc(s.out.sections, IndexSection(WithCounts(s.out.index, s.counts)));
    }
  }

  /** Over every run the accepted messages are those given to WriteMessage, in order, and the channel sections
      those of the announced channels. */
  lemma {:induction false} HistoryIsRecorded(s: State, actions: seq<Action>)
    requires Run(s, actions)
    ensures Final(s, actions).accepted == s.accepted + AcceptedOf(actions)
    ensures ChannelNames(Final(s, actions).out.sections) == ChannelNames(s.out.sections) + AnnouncedOf(actions)
    decreases |actions|
  {
    var names := ChannelNames(s.out.sections);
    if actions == [] {
      Regroup(s.accepted, [], []);
      Regroup(names, [], []);
    } else {
      AcceptedNext(s, actions[0]);
      AnnouncedNext(s, actions[0]);
      HistoryIsRecorded(Next(s, actions[0]), actions[1..]);
      Regroup(s.accepted, AcceptedIn(actions[0]), AcceptedOf(actions[1..]));
      Regroup(names, AnnouncedIn(actions[0]), AnnouncedOf(actions[1..]));
    }
  }

  // ---------------------------------------------------------------- when a chunk is handed over

  /** A chunk that need not be handed over: its last message is within the interval of all others, and it is
      not larger than the limit; a limit of 0 is none. */
  predicate Within(h: Header, ms: seq<Message>) {
    && (h.chunkInterval > 0 ==> forall i | 0 <= i < |ms| :: ms[|ms| - 1].time - ms[i].time <= h.chunkInterval)
    && (h.chunkRawSize > 0 ==> RawSize(ms) <= h.chunkRawSize)
  }

  lemma NeedsFlushIff(h: Header, ms: seq<Message>)
    requires ms != [] && NoZero(ms)
    ensures NeedsFlush(h, ChunkOf(ms).header, ms[|ms| - 1]) <==> !Within(h, ms)
  {
    assert ChunkOf(ms).header.rawSize == RawSize(ms) by { ChunkCounts(ms); }
    SpanIsFromBegin(ms, ChunkOf(ms).header.beginTime, h.chunkInterval);
  }

  lemma SpanIsFromBegin(ms: seq<Message>, begin: nat, interval: nat)
    requires ms != [] && NoZero(ms) && begin == ChunkOf(ms).header.beginTime
    ensures ms[|ms| - 1].time - begin > interval <==>
              !(forall i | 0 <= i < |ms| :: ms[|ms| - 1].time - ms[i].time <= interval)
  {
    BeginIsEarliest(ms);
    var i :| 0 <= i < |ms| && ms[i].time == begin;
  }

  predicate LimitsOk(s: State) {
    && (s.writer.Ready? && !s.crossed && NoZero(s.accepted) && s.active.body != [] ==> Within(s.out.header, s.active.body))
    && (s.writer.MustSwap? && NoZero(s.accepted) ==> !Within(s.out.header, s.active.body))
  }

  lemma NamedNoZero(ids: seq<nat>, ms: seq<Message>, accepted: seq<Message>)
    requires Names(ids, ms, accepted) && NoZero(accepted)
    ensures NoZero(ms)
  {
  }

  lemma LimitsAccept(s: State, m: Message)
    requires ChunksOk(s) && PlacesOk(s) && s.writer.Ready?
    ensures LimitsOk(Next(s, WriteMessage(m)))
  {
    var s' := Next(s, WriteMessage(m));
    if NoZero(s'.accepted) {
      PlacesAccept(s, m);
      NamedNoZero(s'.ids.active, s'.active.body, s'.accepted);
      ChunkOfSnoc(s.active.body, m);
      NeedsFlushIff(s.out.header, s'.active.body);
    }
  }

  /** A step that neither accepts nor swaps. */
  lemma LimitsSame(s: State, s': State)
    requires LimitsOk(s) && s'.active == s.active && s'.accepted == s.accepted && s'.crossed == s.crossed
    requires s'.out.header.chunkInterval == s.out.header.chunkInterval
    requires s'.out.header.chunkRawSize == s.out.header.chunkRawSize
    requires s'.writer.Ready? ==> s.writer.Ready?
    requires s'.writer.MustSwap? ==> s.writer.MustSwap?
    ensures LimitsOk(s')
  {
  }

  lemma LimitsNext(s: State, a: Action)
    requires ChunksOk(s) && PlacesOk(s) && LimitsOk(s) && Enabled(s, a)
    ensures LimitsOk(Next(s, a))
  {
    if a.WriteMessage? {
      LimitsAccept(s, a.m);
    } else if a.Swap? || a.SwapLast? {
      EmptyIff(s.flush.body);
    } else {
      LimitsSame(s, Next(s, a));
    }
  }

  lemma {:induction false} LimitsRun(s: State, actions: seq<Action>)
    requires Inv(s) && PlacesOk(s) && LimitsOk(s) && Run(s, actions)
    ensures LimitsOk(Final(s, actions))
    decreases |actions|
  {
    if actions != [] {
      NextInv(s, actions[0]);
      PlacesOkNext(s, actions[0]);
      LimitsNext(s, actions[0]);
      LimitsRun(Next(s, actions[0]), actions[1..]);
    }
  }

  /** Over every run: right before a swap the active chunk is over one of the limits, and between calls it is
      over none as long as no swap crossed. */
  lemma HandedOverIffOverLimit(h: Header, actions: seq<Action>)
    requires FreshHeader(h) && Run(Open(h), actions)
    ensures
      var s := Final(Open(h), actions);
      NoZero(s.accepted) ==>
        && (s.writer.MustSwap? ==> !Within(s.out.header, s.active.body))
        && (s.writer.Ready? && !s.crossed && s.active.body != [] ==> Within(s.out.header, s.active.body))
  {
    OpenInv(h);
    OpenPlaces(h);
    LimitsRun(Open(h), actions);
  }

  predicate Distinct(ms: seq<Message>) {
    forall i, j | 0 <= i < j < |ms| :: ms[i] != ms[j]
  }

  /** So pairwise different messages stand in the file in the order of acceptance if and only if no swap
      crossed. */
  lemma MessagesKeptIffNeverCrossed(h: Header, actions: seq<Action>)
    requires FreshHeader(h) && Run(Open(h), actions) && Final(Open(h), actions).writer.Closed?
    requires Distinct(Final(Open(h), actions).accepted)
    ensures var s := Final(Open(h), actions); Messages(s.out.sections) == s.accepted <==> !s.crossed
  {
    OrderKeptIffNeverCrossed(h, actions);
    var s := Final(Open(h), actions);
    if Messages(s.out.sections) == s.accepted { NamedInOrder(s.ids.file, s.accepted); }
  }

  lemma NamedInOrder(ids: seq<nat>, ms: seq<Message>)
    requires Names(ids, ms, ms) && Distinct(ms)
    ensures ids == Iota(|ms|)
  {
    forall i | 0 <= i < |ids| ensures ids[i] == i { assert ms[ids[i]] == ms[i]; }
  }

  predicate StrictlyIncreasing(ms: seq<Message>) {
    forall i, j | 0 <= i < j < |ms| :: ms[i].time < ms[j].time
  }

  lemma {:induction false} SortedPermutationIsSame(a: seq<Message>, b: seq<Message>)
    requires multiset(a) == multiset(b) && SortedByTime(a) && StrictlyIncreasing(b)
    ensures a == b
    decreases |a|
  {
    assert |multiset(a)| == |a| && |multiset(b)| == |b|;
    if a != [] {
      var k := |a| - 1;
      SameLast(a, b);
      SortedPermutationIsSame(a[..k], b[..k]);
      assert a == a[..k] + [a[k]] && b == b[..k] + [b[k]];
    }
  }

  lemma SameLast(a: seq<Message>, b: seq<Message>)
    requires multiset(a) == multiset(b) && SortedByTime(a) && StrictlyIncreasing(b) && 0 < |a| == |b|
    ensures a[|a| - 1] == b[|b| - 1]
    ensures multiset(a[..|a| - 1]) == multiset(b[..|b| - 1])
  {
    var k := |a| - 1;
    SameMember(a, b, k);
    SameMember(b, a, k);
    ButLast(a);
    ButLast(b);
  }

  lemma SameMember(a: seq<Message>, b: seq<Message>, i: nat)
    requires multiset(a) == multiset(b) && i < |a|
    ensures a[i] in b
  {
    assert a[i] in multiset(a);
  }

  lemma ButLast(a: seq<Message>)
    requires a != []
    ensures multiset(a[..|a| - 1]) == multiset(a) - multiset{a[|a| - 1]}
  {
    assert a == a[..|a| - 1] + [a[|a| - 1]];
  }

  /** Messages accepted in strictly increasing order of time give a sorted file with a true header if and
      only if no swap crossed. */
  lemma SortedIffNeverCrossed(h: Header, actions: seq<Action>)
    requires FreshHeader(h) && Run(Open(h), actions) && Final(Open(h), actions).writer.Closed?
    requires NoZero(Final(Open(h), actions).accepted) && StrictlyIncreasing(Final(Open(h), actions).accepted)
    ensures Bracketed(Final(Open(h), actions)) <==> !Final(Open(h), actions).crossed
  {
    var s := Final(Open(h), actions);
    if Bracketed(s) {
      ClosedFileIsComplete(h, actions);
      SortedPermutationIsSame(Messages(s.out.sections), s.accepted);
      MessagesKeptIffNeverCrossed(h, actions);
    }
    if !s.crossed { ClosedFileIsSorted(h, actions); }
  }

  // ---------------------------------------------------------------- a crossing, to the end

  ghost predicate Reaches(s: State, s': State) {
    exists actions :: Run(s, actions) && Final(s, actions) == s'
  }

  lemma {:induction false} Extend(s: State, actions: seq<Action>, a: Action)
    requires Run(s, actions) && Enabled(Final(s, actions), a)
    ensures Run(s, actions + [a]) && Final(s, actions + [a]) == Next(Final(s, actions), a)
    decreases |actions|
  {
    if actions == [] {
      assert Run(Next(s, a), []);
    } else {
      Extend(Next(s, actions[0]), actions[1..], a);
      assert (actions + [a])[1..] == actions[1..] + [a];
    }
  }

  lemma ReachesNext(s: State, m: State, a: Action)
    requires Reaches(s, m) && Enabled(m, a)
    ensures Reaches(s, Next(m, a))
  {
    var actions :| Run(s, actions) && Final(s, actions) == m;
    Extend(s, actions, a);
  }

  /** The flush thread writes one chunk while nobody interferes. */
  lemma FlushAlone(s0: State, s: State) returns (s': State)
    requires Reaches(s0, s) && s.flusher.Waiting? && s.writing && !Empty(s.flush)
    ensures Reaches(s0, s') && s' == s.(out := WriteChunk(s.out, s.flush), flush := EMPTY_CHUNK, ids := s'.ids)
  {
    ReachesNext(s0, s, Take);
    var s1 := Next(s, Take);
    ReachesNext(s0, s1, Write);
    var s2 := Next(s1, Write);
    ReachesNext(s0, s2, Clear);
    s' := Next(s2, Clear);
  }

  /** Close from the point where the flush chunk has been written: the active chunk follows it. */
  lemma CloseAlone(s0: State, s: State) returns (s': State)
    requires Reaches(s0, s) && s.writer.Ready? && s.flusher.Waiting? && s.writing
    requires s.flush == EMPTY_CHUNK && !Empty(s.active)
    ensures Reaches(s0, s') && s'.writer.Closed? && s'.accepted == s.accepted && s'.crossed == s.crossed
    ensures s'.disk.beginTime == WriteChunk(s.out, s.active).header.beginTime
    ensures s'.disk.endTime == s.active.header.endTime
    ensures Messages(s'.out.sections) == Messages(s.out.sections) + s.active.body
  {
    ReachesNext(s0, s, CloseStart);
    var s1 := Next(s, CloseStart);
    ReachesNext(s0, s1, SeeDrained);
    var s2 := Next(s1, SeeDrained);
    ReachesNext(s0, s2, SwapLast);
    var s3 := FlushAlone(s0, Next(s2, SwapLast));
    s' := CloseEnds(s0, s3);
    MessagesOfChunk(s.out, s.active);
  }

  lemma CloseEnds(s0: State, s: State) returns (s': State)
    requires Reaches(s0, s) && s.writer.LastDrain? && s.flusher.Waiting? && s.flush == EMPTY_CHUNK
    ensures Reaches(s0, s') && s'.writer.Closed? && s'.accepted == s.accepted && s'.crossed == s.crossed
    ensures s'.disk.beginTime == s.out.header.beginTime && s'.disk.endTime == s.out.header.endTime
    ensures Messages(s'.out.sections) == Messages(s.out.sections)
  {
    ReachesNext(s0, s, StopWriting);
    var s1 := Next(s, StopWriting);
    ReachesNext(s0, s1, Exit);
    var s2 := Next(s1, Exit);
    SameFile(s2, Finish);
    ReachesNext(s0, s2, Finish);
    s' := Next(s2, Finish);
  }

  const TINY_CHUNKS := Header(0, 0, 0, 0, 0, false, 0, 0, 1)

  /** Two messages that each fill a chunk, accepted before the flush thread gets a turn. */
  lemma TwoSwaps(a: Message, b: Message) returns (s: State)
    requires |a.content| > 1 && |b.content| > 1
    ensures Reaches(Open(TINY_CHUNKS), s) && s.crossed && s.accepted == [a, b]
    ensures s.writer.Ready? && s.flusher.Waiting? && s.writing && s.out == Out(TINY_CHUNKS, [], [])
    ensures s.flush == Add(EMPTY_CHUNK, b) && s.active == Add(EMPTY_CHUNK, a)
  {
    var s0 := Open(TINY_CHUNKS);
    assert Run(s0, []) && Final(s0, []) == s0;
    ReachesNext(s0, s0, WriteMessage(a));
    var s1 := Next(s0, WriteMessage(a));
    ReachesNext(s0, s1, Swap);
    var s2 := Next(s1, Swap);
    ReachesNext(s0, s2, WriteMessage(b));
    var s3 := Next(s2, WriteMessage(b));
    ReachesNext(s0, s3, Swap);
    s := Next(s3, Swap);
  }

  /** The failure, to the closed file: two messages accepted in the order of their times stand in it the
      other way round, and its header begins after it ends. */
  lemma CrossingHappens() returns (s: State)
    ensures Reaches(Open(TINY_CHUNKS), s) && s.writer.Closed? && s.crossed
    ensures
      var a, b := Message("c", 1, "xx"), Message("c", 2, "xx");
      s.accepted == [a, b] && Messages(s.out.sections) == [b, a]
    ensures s.disk.beginTime == 2 && s.disk.endTime == 1
  {
    var a, b := Message("c", 1, "xx"), Message("c", 2, "xx");
    var s1 := TwoSwaps(a, b);
    MessagesOfChunk(s1.out, s1.flush);
    var s2 := FlushAlone(Open(TINY_CHUNKS), s1);
    s := CloseAlone(Open(TINY_CHUNKS), s2);
    assert [] + [b] + [a] == [b, a];
  }

  // ---------------------------------------------------------------- writing, then reading

  lemma {:induction false} ChunkFits(ms: seq<Message>)
    requires Fits(ms)
    ensures ChunkOf(ms).header.beginTime <= UINT64_MAX
  {
    if ms != [] {
      var k := |ms| - 1;
      forall i | 0 <= i < k ensures ms[..k][i].time <= UINT64_MAX { assert ms[..k][i] == ms[i]; }
      ChunkFits(ms[..k]);
    }
  }

  predicate Readable(s: State) {
    && Framed(s.out.sections) && Fits(Messages(s.out.sections)) && s.disk.beginTime <= UINT64_MAX
    && forall i | 0 <= i < |s.out.sections| && s.out.sections[i].ChunkHeaderSection? ::
         s.out.sections[i].header.beginTime <= UINT64_MAX
  }

  lemma CompleteReadable(s: State)
    requires Complete(s) && BoundOk(s) && Fits(s.accepted)
    ensures Readable(s)
  {
    SameMultisetFits(Messages(s.out.sections), s.accepted);
    forall i | 0 <= i < |s.out.sections| && s.out.sections[i].ChunkHeaderSection?
      ensures s.out.sections[i].header.beginTime <= UINT64_MAX
    {
      var ms := s.out.sections[i + 1].messages;
      forall k | 0 <= k < |ms| ensures ms[k].time <= UINT64_MAX { BodyInFile(s.out.sections, i + 1, k); }
      ChunkFits(ms);
    }
  }

  lemma ClosedFileIsReadable(h: Header, actions: seq<Action>)
    requires FreshHeader(h) && Run(Open(h), actions) && Final(Open(h), actions).writer.Closed?
    requires Fits(Final(Open(h), actions).accepted)
    ensures var s := Final(Open(h), actions);
            && Readable(s) && multiset(Messages(s.out.sections)) == multiset(s.accepted)
            && (!s.crossed ==> Messages(s.out.sections) == s.accepted)
  {
    ClosedFileIsComplete(h, actions);
    OpenInv(h);
    RunInv(Open(h), actions);
    ClosedOrder(Final(Open(h), actions));
    CompleteReadable(Final(Open(h), actions));
  }
}
