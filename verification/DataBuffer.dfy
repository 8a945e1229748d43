/**
 The data path of one channel: cyber/data/cache_buffer.h (an overwriting ring), channel_buffer.h (reading
 it with an index), data_visitor.h (the cursor of one reader) and fusion/all_latest.h (joining a primary
 channel with the latest messages of others). The ring is proved against the log of everything published,
 the cursor against a model of positions, the fusion against the history of arrivals.
 */
module DataBuffer {

  // ---------------------------------------------------------------- slots

  lemma SlotsDiffer(p: nat, t: nat, capacity: nat)
    requires p < t < p + capacity
    ensures p % capacity != t % capacity
  {
    if p % capacity == t % capacity {
      var k := t / capacity - p / capacity;
      assert t - p == capacity * k;
      NoMultipleBetween(capacity, k);
    }
  }

  lemma NoMultipleBetween(n: nat, k: int)
    requires n > 0
    ensures !(0 < n * k < n)
  {
    if k <= 0 { assert n * k <= 0; } else { assert n * k >= n; }
  }

  function Max(a: int, b: int): int {
    if a < b then b else a
  }

  function Min(a: int, b: int): int {
    if a < b then a else b
  }

  // ---------------------------------------------------------------- the ring

  class CacheBuffer<T(0)> {
    const buffer: array<T>
    const capacity: nat
    var head: nat
    var tail: nat
    /** Everything ever filled in; position p holds log[p - 1]. */
    ghost var log: seq<T>

    predicate Empty()
      reads this
    {
      tail == 0
    }

    predicate Full()
      reads this
    {
      capacity - 1 == tail - head
    }

    ghost predicate Valid()
      reads this, buffer
    {
      && capacity > 0 && buffer.Length == capacity
      && tail == |log| && head == Max(0, tail - (capacity - 1))
      && forall p | 0 < p <= tail && p >= head :: buffer[p % capacity] == log[p - 1]
    }

    constructor (size: nat)
      ensures Valid() && fresh(buffer) && log == [] && capacity == size + 1
    {
      capacity := size + 1;
      buffer := new T[size + 1];
      head, tail, log := 0, 0, [];
    }

    /** What the accessors Head to Tail show, oldest first. */
    ghost function Contents(): seq<T>
      requires capacity > 0 && buffer.Length == capacity && head <= tail
      reads this, buffer
    {
      seq(tail - head, i requires 0 <= i < tail - head reads this, buffer
                         requires capacity > 0 && buffer.Length == capacity => buffer[(head + 1 + i) % capacity])
    }

    /** After n fills the ring holds exactly the last min(n, size) messages, in order; and the slot that
        Back reads holds the newest one even when the size is 0. */
    lemma HoldsTheLast()
      requires Valid()
      ensures Contents() == log[|log| - Min(|log|, capacity - 1)..]
      ensures log != [] ==> buffer[tail % capacity] == log[|log| - 1]
    {
      assert tail - head == Min(|log|, capacity - 1);
      forall i | 0 <= i < tail - head
        ensures Contents()[i] == log[head..][i]
      {
        assert buffer[(head + 1 + i) % capacity] == log[head + i];
      }
    }

    /** `Fill` without a fusion callback. */
    method Fill(value: T)
      requires Valid()
      modifies this, buffer
      ensures Valid() && log == old(log) + [value]
    {
      ghost var t := tail + 1;
      forall p | 0 < p <= tail && p >= Max(0, t - (capacity - 1))
        ensures p % capacity != t % capacity
      {
        SlotsDiffer(p, t, capacity);
      }
      if Full() {
        assert head % capacity == t % capacity by { assert t == head + capacity; SameSlot(head, capacity); }
        buffer[head % capacity] := value;
        head := head + 1;
        tail := tail + 1;
      } else {
        buffer[(tail + 1) % capacity] := value;
        tail := tail + 1;
      }
      log := log + [value];
    }
  }

  lemma SameSlot(p: nat, capacity: nat)
    requires capacity > 0
    ensures (p + capacity) % capacity == p % capacity
  {
    var k := (p + capacity) / capacity - p / capacity;
    assert (p + capacity) % capacity - p % capacity == capacity - capacity * k;
    NoMultipleBetween(capacity, 1 - k);
    NoMultipleBetween(capacity, k - 1);
    assert capacity - capacity * k == capacity * (1 - k);
    assert capacity * k - capacity == capacity * (k - 1);
  }

  // ---------------------------------------------------------------- positions

  /** One reader: how much was published, its next index, and the positions it was given. */
  datatype Cursor = Cursor(published: nat, next: nat, delivered: seq<nat>)

  datatype Event = Publish | TryFetch

  /** The position a fetch with `index` is answered with; 0 stands for none. An index of 0 and an index
      that has fallen out of the ring both jump to the newest message. */
  function Answer(published: nat, size: nat, index: nat): (position: nat)
    ensures index <= published + 1 ==> position <= published
  {
    if published == 0 || index == published + 1 then 0
    else if index == 0 || index + size <= published then published
    else index
  }

  predicate CursorOk(c: Cursor) {
    c.next <= c.published + 1
  }

  function Step(c: Cursor, e: Event, size: nat): (r: Cursor)
    requires CursorOk(c)
    ensures CursorOk(r)
  {
    match e
    case Publish => c.(published := c.published + 1)
    case TryFetch =>
      var position := Answer(c.published, size, c.next);
      if position == 0 then c else c.(next := position + 1, delivered := c.delivered + [position])
  }

  function After(events: seq<Event>, size: nat): (c: Cursor)
    ensures CursorOk(c)
  {
    if events == [] then Cursor(0, 0, [])
    else Step(After(events[..|events| - 1], size), events[|events| - 1], size)
  }

  predicate Increasing(ps: seq<nat>) {
    forall i, j | 0 <= i < j < |ps| :: ps[i] < ps[j]
  }

  /** The index remembers the last delivery. */
  predicate Tracks(c: Cursor) {
    && Increasing(c.delivered) && (forall i | 0 <= i < |c.delivered| :: 0 < c.delivered[i] <= c.published)
    && c.next == if c.delivered == [] then 0 else c.delivered[|c.delivered| - 1] + 1
  }

  /** Over every interleaving of publishing and fetching, positions are delivered in strictly increasing
      order, so no message twice and none out of order. */
  lemma {:induction false} DeliveredIncreasing(events: seq<Event>, size: nat)
    ensures Tracks(After(events, size))
  {
    if events != [] {
      var before := events[..|events| - 1];
      DeliveredIncreasing(before, size);
      if events[|events| - 1].TryFetch? { TracksStep(After(before, size), size); }
    }
  }

  lemma TracksStep(c: Cursor, size: nat)
    requires CursorOk(c) && Tracks(c)
    ensures Tracks(Step(c, TryFetch, size))
  {
  }

  function Last(ps: seq<nat>): nat
    requires ps != []
  {
    ps[|ps| - 1]
  }

  /** Which message a fetch delivers, in terms of what was delivered before, over every interleaving: the next
      one if the ring still holds it, the newest one to a reader that starts or has fallen behind, and none
      if everything was delivered. */
  lemma DeliversNextOrNewest(events: seq<Event>, size: nat)
    requires events != [] && events[|events| - 1].TryFetch?
    ensures
      var c, c' := After(events[..|events| - 1], size), After(events, size);
      var ps := c.delivered;
      c'.delivered == ps + if c.published == 0 || (ps != [] && Last(ps) == c.published) then []
                           else if ps != [] && c.published - Last(ps) <= Max(size, 1) then [Last(ps) + 1]
                           else [c.published]
  {
    DeliveredIncreasing(events[..|events| - 1], size);
    FetchDelivers(After(events[..|events| - 1], size), size);
  }

  lemma FetchDelivers(c: Cursor, size: nat)
    requires CursorOk(c) && Tracks(c)
    ensures
      var ps := c.delivered;
      Step(c, TryFetch, size).delivered
      == ps + if c.published == 0 || (ps != [] && Last(ps) == c.published) then []
              else if ps != [] && c.published - Last(ps) <= Max(size, 1) then [Last(ps) + 1]
              else [c.published]
  {
    assert c.delivered + [] == c.delivered;
  }

  predicate Consecutive(ps: seq<nat>) {
    forall i | 0 < i < |ps| :: ps[i] == ps[i - 1] + 1
  }

  /** A reader that has started has at most as many unread messages as the ring holds; a ring of size 0
      still holds the newest one. */
  predicate KeepsUp(c: Cursor, size: nat) {
    c.next == 0 || c.published + 1 - c.next <= Max(size, 1)
  }

  predicate NeverLags(events: seq<Event>, size: nat) {
    forall k | 0 <= k < |events| && events[k].TryFetch? :: KeepsUp(After(events[..k], size), size)
  }

  /** Nothing is lost between two deliveries if and only if the reader never lags by more than the ring
      holds when it fetches. */
  lemma {:induction false} LosslessIffNeverLags(events: seq<Event>, size: nat)
    ensures Consecutive(After(events, size).delivered) <==> NeverLags(events, size)
  {
    if events != [] {
      var n := |events| - 1;
      var before := events[..n];
      LosslessIffNeverLags(before, size);
      DeliveredIncreasing(before, size);
      NeverLagsLast(events, size);
      if events[n].TryFetch? { ConsecutiveStep(After(before, size), size); }
    }
  }

  lemma NeverLagsLast(events: seq<Event>, size: nat)
    requires events != []
    ensures
      var before, last := events[..|events| - 1], events[|events| - 1];
      NeverLags(events, size) <==>
        NeverLags(before, size) && (last.TryFetch? ==> KeepsUp(After(before, size), size))
  {
    var n := |events| - 1;
    assert forall k | 0 <= k < n :: events[..n][..k] == events[..k] && events[..n][k] == events[k];
  }

  lemma ConsecutiveStep(c: Cursor, size: nat)
    requires CursorOk(c) && Tracks(c)
    ensures Consecutive(Step(c, TryFetch, size).delivered) <==> Consecutive(c.delivered) && KeepsUp(c, size)
  {
    var position := Answer(c.published, size, c.next);
    if position != 0 {
      var ps := c.delivered + [position];
      assert forall i | 0 <= i < |c.delivered| :: ps[i] == c.delivered[i];
      if c.delivered != [] {
        assert ps[|ps| - 1] == position && ps[|ps| - 2] == c.next - 1;
        assert position == c.next <==> KeepsUp(c, size);
      }
    }
  }

  // ---------------------------------------------------------------- reading the ring

  class ChannelBuffer<T(0)> {
    const buffer: CacheBuffer<T>

    constructor (buffer: CacheBuffer<T>)
      ensures this.buffer == buffer
    {
      this.buffer := buffer;
    }

    /** The message at the position the cursor model answers, and that position. */
    method Fetch(index: nat) returns (ok: bool, position: nat, m: T)
      requires buffer.Valid() && index <= |buffer.log| + 1
      ensures ok <==> Answer(|buffer.log|, buffer.capacity - 1, index) != 0
      ensures ok ==> position == Answer(|buffer.log|, buffer.capacity - 1, index) && m == buffer.log[position - 1]
      ensures !ok ==> position == index
      ensures ok <==> buffer.log != [] && index != |buffer.log| + 1
      ensures ok ==> m == if index == 0 || index + buffer.capacity - 1 <= |buffer.log| then buffer.log[|buffer.log| - 1]
                          else buffer.log[index - 1]
    {
      ok, position, m := false, index, buffer.buffer[0];
      if buffer.Empty() {
        return;
      }
      if index == 0 {
        position := buffer.tail;
      } else if index == buffer.tail + 1 {
        return;
      } else if index < buffer.head + 1 {
        position := buffer.tail;
      }
      return true, position, buffer.buffer[position % buffer.capacity];
    }

    method Latest() returns (ok: bool, m: T)
      requires buffer.Valid()
      ensures ok <==> buffer.log != []
      ensures ok ==> m == buffer.log[|buffer.log| - 1]
    {
      if buffer.Empty() {
        return false, buffer.buffer[0];
      }
      return true, buffer.buffer[buffer.tail % buffer.capacity];
    }

    /** The newest messages, oldest first, as many as asked for and as the ring holds. */
    method FetchMulti(fetchSize: nat) returns (ok: bool, vec: seq<T>)
      requires buffer.Valid()
      ensures ok <==> buffer.log != []
      ensures ok ==> |vec| == Min(Min(|buffer.log|, buffer.capacity - 1), fetchSize)
                     && vec == buffer.log[|buffer.log| - |vec|..]
    {
      vec := [];
      if buffer.Empty() {
        return false, vec;
      }
      var num := Min(buffer.tail - buffer.head, fetchSize);
      ghost var first := buffer.tail - num;
      var index := buffer.tail - num + 1;
      while index <= buffer.tail
        invariant first < index <= buffer.tail + 1
        invariant vec == buffer.log[first..index - 1]
      {
        vec := vec + [buffer.buffer[index % buffer.capacity]];
        index := index + 1;
      }
      return true, vec;
    }
  }

  class DataVisitor<T(0)> {
    const channel: ChannelBuffer<T>
    var nextMsgIndex: nat
    ghost var delivered: seq<nat>

    ghost function Model(): Cursor
      reads this, channel.buffer
    {
      Cursor(|channel.buffer.log|, nextMsgIndex, delivered)
    }

    ghost predicate Valid()
      reads this, channel.buffer, channel.buffer.buffer
    {
      channel.buffer.Valid() && CursorOk(Model()) && Tracks(Model())
    }

    constructor (channel: ChannelBuffer<T>)
      requires channel.buffer.Valid()
      ensures this.channel == channel && Valid() && nextMsgIndex == 0 && delivered == []
    {
      this.channel := channel;
      nextMsgIndex, delivered := 0, [];
    }

    /** A fetch follows the cursor model and hands out the message published at that position. */
    method TryFetchNext() returns (ok: bool, m: T)
      requires Valid()
      modifies this
      ensures Valid() && Model() == Step(old(Model()), TryFetch, channel.buffer.capacity - 1)
      ensures ok <==> |delivered| == |old(delivered)| + 1
      ensures ok ==> m == channel.buffer.log[delivered[|delivered| - 1] - 1]
    {
      var position;
      TracksStep(Model(), channel.buffer.capacity - 1);
      ok, position, m := channel.Fetch(nextMsgIndex);
      if ok {
        nextMsgIndex := position + 1;
        delivered := delivered + [position];
      }
    }

    /** Publishing leaves the reader's own state alone. */
    method Dispatch(m: T)
      requires Valid()
      modifies channel.buffer, channel.buffer.buffer
      ensures Valid() && channel.buffer.log == old(channel.buffer.log) + [m]
      ensures Model() == Step(old(Model()), Publish, channel.buffer.capacity - 1)
    {
      channel.buffer.Fill(m);
    }
  }

  // ---------------------------------------------------------------- fusion: the specification

  datatype Arrival<T> = Primary(m: T) | Secondary(channel: nat, m: T)

  /** A primary message with the latest message of every secondary channel. */
  datatype Fused<T> = Fused(primary: T, others: seq<T>)

  /** What arrived on one secondary channel. */
  function Received<T>(arrivals: seq<Arrival<T>>, j: nat): seq<T> {
    if arrivals == [] then []
    else
      var before, last := Received(arrivals[..|arrivals| - 1], j), arrivals[|arrivals| - 1];
      if last.Secondary? && last.channel == j then before + [last.m] else before
  }

  /** All `n` secondary channels have data. */
  predicate Started<T>(arrivals: seq<Arrival<T>>, n: nat) {
    forall j | 0 <= j < n :: Received(arrivals, j) != []
  }

  function LatestOf<T>(arrivals: seq<Arrival<T>>, n: nat): (r: seq<T>)
    requires Started(arrivals, n)
    ensures |r| == n && forall j | 0 <= j < n :: r[j] == Received(arrivals, j)[|Received(arrivals, j)| - 1]
  {
    seq(n, j requires 0 <= j < n => Received(arrivals, j)[|Received(arrivals, j)| - 1])
  }

  /** The fused stream of a history. */
  function FusedStream<T>(arrivals: seq<Arrival<T>>, n: nat): seq<Fused<T>> {
    if arrivals == [] then []
    else
      var before, last := arrivals[..|arrivals| - 1], arrivals[|arrivals| - 1];
      if last.Primary? && Started(before, n) then FusedStream(before, n) + [Fused(last.m, LatestOf(before, n))]
      else FusedStream(before, n)
  }

  function Primaries<T>(arrivals: seq<Arrival<T>>): seq<T> {
    if arrivals == [] then []
    else
      var before, last := Primaries(arrivals[..|arrivals| - 1]), arrivals[|arrivals| - 1];
      if last.Primary? then before + [last.m] else before
  }

  function PrimaryParts<T>(stream: seq<Fused<T>>): (r: seq<T>)
    ensures |r| == |stream| && forall i | 0 <= i < |r| :: r[i] == stream[i].primary
  {
    seq(|stream|, i requires 0 <= i < |stream| => stream[i].primary)
  }

  lemma {:induction false} StartedStays<T>(a: seq<Arrival<T>>, b: seq<Arrival<T>>, n: nat)
    requires Started(a, n)
    ensures Started(a + b, n)
    decreases |b|
  {
    if b == [] {
      assert a + b == a;
    } else {
      var k := |b| - 1;
      StartedStays(a, b[..k], n);
      assert (a + b)[..|a + b| - 1] == a + b[..k];
    }
  }

  /** Nothing is fused before every secondary channel has data. */
  lemma {:induction false} NothingFusedBefore<T>(arrivals: seq<Arrival<T>>, n: nat)
    requires !Started(arrivals, n)
    ensures FusedStream(arrivals, n) == []
  {
    if arrivals != [] {
      var before := arrivals[..|arrivals| - 1];
      assert before + [arrivals[|arrivals| - 1]] == arrivals;
      if Started(before, n) {
        StartedStays(before, [arrivals[|arrivals| - 1]], n);
      } else {
        NothingFusedBefore(before, n);
      }
    }
  }

  lemma {:induction false} NothingFusedAtFirst<T>(arrivals: seq<Arrival<T>>, n: nat)
    requires Primaries(arrivals) == []
    ensures FusedStream(arrivals, n) == []
  {
    if arrivals != [] { NothingFusedAtFirst(arrivals[..|arrivals| - 1], n); }
  }

  /** From then on every primary message is fused, once and in order. */
  lemma {:induction false} EveryPrimaryFusedAfter<T>(a: seq<Arrival<T>>, b: seq<Arrival<T>>, n: nat)
    requires Started(a, n)
    ensures PrimaryParts(FusedStream(a + b, n)) == PrimaryParts(FusedStream(a, n)) + Primaries(b)
    decreases |b|
  {
    if b == [] {
      assert a + b == a;
    } else {
      var k := |b| - 1;
      EveryPrimaryFusedAfter(a, b[..k], n);
      StartedStays(a, b[..k], n);
      assert (a + b)[..|a + b| - 1] == a + b[..k] && (a + b)[|a + b| - 1] == b[k];
    }
  }

  // ---------------------------------------------------------------- fusion: the code

  class AllLatest<T(0)> {
    const secondaries: seq<ChannelBuffer<T>>
    const fusion: ChannelBuffer<Fused<T>>
    ghost const rings: seq<CacheBuffer<T>>
    ghost const arrays: seq<array<T>>
    ghost var arrivals: seq<Arrival<T>>

    /** Every channel has a ring and an array of its own. */
    ghost predicate Apart() {
      && |rings| == |arrays| == |secondaries|
      && (forall j | 0 <= j < |secondaries| :: secondaries[j].buffer == rings[j] && rings[j].buffer == arrays[j])
      && (forall i, j | 0 <= i < j < |rings| :: rings[i] != rings[j] && arrays[i] != arrays[j])
      && (forall j | 0 <= j < |rings| ::
            && rings[j] as object != fusion.buffer && arrays[j] as object != fusion.buffer.buffer)
    }

    ghost predicate SecondariesOk(history: seq<Arrival<T>>)
      requires Apart()
      reads rings, arrays
    {
      forall j | 0 <= j < |rings| :: rings[j].Valid() && rings[j].log == Received(history, j)
    }

    ghost predicate Valid()
      reads this, rings, arrays, fusion.buffer, fusion.buffer.buffer
    {
      && Apart() && SecondariesOk(arrivals)
      && fusion.buffer.Valid() && fusion.buffer.log == FusedStream(arrivals, |secondaries|)
    }

    /** The secondary rings may have data already; the fused ring has the primary's queue size. */
    constructor (secondaries: seq<ChannelBuffer<T>>, queueSize: nat,
                 ghost rings: seq<CacheBuffer<T>>, ghost arrays: seq<array<T>>, ghost earlier: seq<Arrival<T>>)
      requires |rings| == |arrays| == |secondaries|
      requires forall j | 0 <= j < |secondaries| :: secondaries[j].buffer == rings[j] && rings[j].buffer == arrays[j]
      requires forall i, j | 0 <= i < j < |rings| :: rings[i] != rings[j] && arrays[i] != arrays[j]
      requires forall j | 0 <= j < |rings| :: rings[j].Valid() && rings[j].log == Received(earlier, j)
      requires Primaries(earlier) == []
      ensures Valid() && this.secondaries == secondaries && arrivals == earlier
      ensures fresh(fusion.buffer) && fusion.buffer.capacity == queueSize + 1
    {
      var ring := new CacheBuffer<Fused<T>>(queueSize);
      this.secondaries, this.rings, this.arrays := secondaries, rings, arrays;
      fusion := new ChannelBuffer(ring);
      arrivals := earlier;
      new;
      NothingFusedAtFirst(earlier, |secondaries|);
    }

    /** A message on a secondary channel only fills that channel's ring. */
    method OnSecondary(j: nat, m: T)
      requires Valid() && j < |secondaries|
      modifies this`arrivals, secondaries[j].buffer, secondaries[j].buffer.buffer
      ensures Valid() && arrivals == old(arrivals) + [Secondary(j, m)]
    {
      ghost var after := arrivals + [Secondary(j, m)];
      SecondaryArrives(arrivals, j, m, |secondaries|);
      PushSecondary(j, m);
      arrivals := after;
    }

    method PushSecondary(j: nat, m: T)
      requires Valid() && j < |secondaries|
      modifies secondaries[j].buffer, secondaries[j].buffer.buffer
      ensures forall i | 0 <= i < |rings| ::
                rings[i].Valid() && rings[i].log == old(rings[i].log) + if i == j then [m] else []
      ensures fusion.buffer.Valid() && fusion.buffer.log == old(fusion.buffer.log)
    {
      assert rings[j] as object != fusion.buffer && arrays[j] as object != fusion.buffer.buffer;
      secondaries[j].buffer.Fill(m);
      forall i | 0 <= i < |rings|
        ensures rings[i].Valid() && rings[i].log == old(rings[i].log) + if i == j then [m] else []
      {
        if i < j { assert rings[i] != rings[j]; } else if j < i { assert rings[j] != rings[i]; }
      }
    }

    /** The latest message of every secondary channel, if all have one. */
    method LatestOfAll() returns (ok: bool, others: seq<T>)
      requires Valid()
      ensures ok <==> Started(arrivals, |secondaries|)
      ensures ok ==> others == LatestOf(arrivals, |secondaries|)
    {
      others := [];
      var i := 0;
      while i < |secondaries|
        invariant i == |others| <= |secondaries|
        invariant forall j | 0 <= j < i ::
                    Received(arrivals, j) != [] && others[j] == Received(arrivals, j)[|Received(arrivals, j)| - 1]
      {
        assert rings[i].log == Received(arrivals, i);
        var found, latest := secondaries[i].Latest();
        if !found {
          return false, others;
        }
        others := others + [latest];
        i := i + 1;
      }
      return true, others;
    }

    method PushFused(data: Fused<T>)
      requires Valid()
      modifies fusion.buffer, fusion.buffer.buffer
      ensures SecondariesOk(arrivals) && fusion.buffer.Valid()
      ensures fusion.buffer.log == old(fusion.buffer.log) + [data]
    {
      fusion.buffer.Fill(data);
      forall i | 0 <= i < |rings|
        ensures rings[i].Valid() && rings[i].log == Received(arrivals, i)
      {
        assert rings[i] as object != fusion.buffer && arrays[i] as object != fusion.buffer.buffer;
      }
    }

    /** The fusion callback: the primary ring itself stays empty. */
    method OnPrimary(m: T)
      requires Valid()
      modifies this`arrivals, fusion.buffer, fusion.buffer.buffer
      ensures Valid() && arrivals == old(arrivals) + [Primary(m)]
    {
      PrimaryArrives(arrivals, m, |secondaries|);
      var ok, others := LatestOfAll();
      if ok {
        PushFused(Fused(m, others));
      }
      arrivals := arrivals + [Primary(m)];
    }
  }

  /** Fetching from the fused ring: an in-order subsequence of the fused stream of the whole history. */
  method Fusion<T(0)>(fusion: AllLatest<T>, visitor: DataVisitor<Fused<T>>) returns (ok: bool, data: Fused<T>)
    requires fusion.Valid() && visitor.Valid() && visitor.channel == fusion.fusion
    modifies visitor
    ensures fusion.Valid() && visitor.Valid() && Increasing(visitor.delivered)
    ensures old(visitor.delivered) <= visitor.delivered
    ensures ok <==> |visitor.delivered| == |old(visitor.delivered)| + 1
    ensures ok ==>
              var stream := FusedStream(fusion.arrivals, |fusion.secondaries|);
              var position := visitor.delivered[|visitor.delivered| - 1];
              0 < position <= |stream| && data == stream[position - 1]
  {
    ok, data := visitor.TryFetchNext();
  }

  lemma SecondaryArrives<T>(arrivals: seq<Arrival<T>>, j: nat, m: T, n: nat)
    ensures forall i: nat :: Received(arrivals + [Secondary(j, m)], i) == Received(arrivals, i) + if i == j then [m] else []
    ensures FusedStream(arrivals + [Secondary(j, m)], n) == FusedStream(arrivals, n)
  {
    assert (arrivals + [Secondary(j, m)])[..|arrivals|] == arrivals;
  }

  lemma PrimaryArrives<T>(arrivals: seq<Arrival<T>>, m: T, n: nat)
    ensures forall j: nat :: Received(arrivals + [Primary(m)], j) == Received(arrivals, j)
    ensures FusedStream(arrivals + [Primary(m)], n)
            == FusedStream(arrivals, n) + if Started(arrivals, n) then [Fused(m, LatestOf(arrivals, n))] else []
  {
    assert (arrivals + [Primary(m)])[..|arrivals|] == arrivals;
  }
}
