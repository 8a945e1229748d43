/**
 The data-delivery protocol between dispatchers, coroutines and processors as a transition system,
 one shared access per step: a dispatcher fills every buffer of a channel and then notifies
 (data_dispatcher.h, data_notifier.h, scheduler_classic.cc), a coroutine announces DATA_WAIT before
 it tries to fetch (routine_factory.h), a processor turns a cleared update flag into READY
 (croutine.h, classic_context.cc, processor.cc).

 A buffer appears through its counters only; DataBuffer proves that the ring behind them holds the
 right messages.
 */
module DataWait {

  import DataBuffer
  import opened Options

  type Pid = nat
  type Did = nat

  datatype RoutineState = READY | SLEEP | DATA_WAIT

  /** Where the fetch loop of a coroutine stands. */
  datatype Loc =
    | AtTop      // about to announce DATA_WAIT
    | AtFetch    // about to call TryFetch
    | Missed     // TryFetch returned false, about to yield
    | InCallback // running the user function on a fetched message

  /** One coroutine with its buffer: `tail` messages were published to it and `next` is its cursor.
      `updated` set means no notification is pending. `runner` is the processor inside its lock.
      `skipped` is history: a notifier passed by before the callback was registered. */
  datatype Cr = Cr(
    state: RoutineState, updated: bool, runner: Option<Pid>, loc: Loc,
    size: nat, tail: nat, next: nat, registered: bool, skipped: bool)

  datatype Processor =
    | PIdle
    | PTestAndSet(r: nat)
    | PGotFlag(r: nat)
    | PCheck(r: nat)
    | PRun(r: nat)
    | PRelease(r: nat)

  datatype Dispatcher =
    | DIdle
    | DFill(subs: seq<nat>, i: nat)
    | DNotify(subs: seq<nat>, i: nat)
    | DClear(subs: seq<nat>, i: nat)

  datatype State = State(crs: seq<Cr>, ps: map<Pid, Processor>, ds: map<Did, Dispatcher>)

  datatype Action =
    | Register(r: nat)
    | Acquire(p: Pid, r: nat)
    | Awake(p: Pid)            // the sleep deadline of the acquired coroutine has passed
    | ProcStep(p: Pid)
    | CallbackSleeps(p: Pid)   // the user function calls Sleep
    | Publish(d: Did, subs: seq<nat>)
    | DispStep(d: Did)

  predicate Init(s: State) {
    && (forall r | 0 <= r < |s.crs| ::
          && s.crs[r].state == READY && s.crs[r].updated && s.crs[r].runner == None
          && s.crs[r].loc == AtTop && s.crs[r].tail == 0 && s.crs[r].next == 0 && !s.crs[r].skipped)
    && (forall p | p in s.ps :: s.ps[p] == PIdle)
    && (forall d | d in s.ds :: s.ds[d] == DIdle)
  }

  // ---------------------------------------------------------------- the cursor

  /** The buffer holds a message the cursor has not delivered. */
  predicate Unread(c: Cr) {
    c.tail > 0 && (c.next == 0 || c.next <= c.tail)
  }

  /** `ChannelBuffer::Fetch` on the counters: the position that the ring of DataBuffer answers with, if any. */
  function Fetch(c: Cr): (r: Option<nat>)
    ensures c.next <= c.tail + 1 ==> (r.Some? <==> Unread(c))
    ensures c.next <= c.tail + 1 && r.Some? ==> 1 <= r.value <= c.tail
  {
    var position := DataBuffer.Answer(c.tail, c.size, c.next);
    if position == 0 then None else Some(position)
  }

  // ---------------------------------------------------------------- steps

  predicate Shape(s: State) {
    && (forall p | p in s.ps && !s.ps[p].PIdle? :: s.ps[p].r < |s.crs|)
    && (forall d | d in s.ds && !s.ds[d].DIdle? ::
          && s.ds[d].i <= |s.ds[d].subs| && (s.ds[d].DClear? ==> s.ds[d].i < |s.ds[d].subs|)
          && (forall j | 0 <= j < |s.ds[d].subs| :: s.ds[d].subs[j] < |s.crs|))
  }

  predicate Enabled(s: State, a: Action) {
    match a
    case Register(r) => r < |s.crs|
    case Acquire(p, r) => p in s.ps && s.ps[p] == PIdle && r < |s.crs| && s.crs[r].runner == None
    case Awake(p) => p in s.ps && s.ps[p].PTestAndSet? && s.ps[p].r < |s.crs| && s.crs[s.ps[p].r].state == SLEEP
    case ProcStep(p) => p in s.ps && s.ps[p] != PIdle
    case CallbackSleeps(p) =>
      p in s.ps && s.ps[p].PRun? && s.ps[p].r < |s.crs| && s.crs[s.ps[p].r].loc == InCallback
    case Publish(d, subs) =>
      d in s.ds && s.ds[d] == DIdle && (forall j | 0 <= j < |subs| :: subs[j] < |s.crs|)
    case DispStep(d) => d in s.ds && s.ds[d] != DIdle
  }

  function Next(s: State, a: Action): (s': State)
    requires Shape(s) && Enabled(s, a)
    ensures Shape(s') && |s'.crs| == |s.crs|
  {
    match a
    case Register(r) => s.(crs := s.crs[r := s.crs[r].(registered := true)])
    case Acquire(p, r) =>
      s.(crs := s.crs[r := s.crs[r].(runner := Some(p))], ps := s.ps[p := PTestAndSet(r)])
    case Awake(p) =>
      var r := s.ps[p].r;
      s.(crs := s.crs[r := s.crs[r].(state := READY)], ps := s.ps[p := PRun(r)])
    case ProcStep(p) =>
      var r := s.ps[p].r;
      var (c, q) := Process(s.crs[r], s.ps[p]);
      s.(crs := s.crs[r := c], ps := s.ps[p := q])
    case CallbackSleeps(p) =>
      var r := s.ps[p].r;
      s.(crs := s.crs[r := s.crs[r].(state := SLEEP)], ps := s.ps[p := PRelease(r)])
    case Publish(d, subs) => s.(ds := s.ds[d := DFill(subs, 0)])
    case DispStep(d) => Dispatch(s, d, s.ds[d])
  }

  /** One step of a processor on the coroutine it acquired: `UpdateState`, then `Resume`, then `Release`. */
  function Process(c: Cr, q: Processor): (r: (Cr, Processor))
    requires q != PIdle
    ensures !r.1.PIdle? ==> r.1.r == q.r
  {
    match q
    case PTestAndSet(r) => (c.(updated := true), if c.updated then PCheck(r) else PGotFlag(r))
    case PGotFlag(r) => (if c.state == DATA_WAIT then c.(state := READY) else c, PCheck(r))
    case PCheck(r) => (c, if c.state == READY then PRun(r) else PRelease(r))
    case PRun(r) => Resume(c, r)
    case PRelease(r) => (c.(runner := None), PIdle)
  }

  /** One step of the fetch loop. A yield hands control back to the processor. */
  function Resume(c: Cr, r: nat): (Cr, Processor) {
    match c.loc
    case AtTop => (c.(state := DATA_WAIT, loc := AtFetch), PRun(r))
    case AtFetch =>
      var got := Fetch(c);
      if got.Some? then (c.(next := got.value + 1, loc := InCallback), PRun(r))
      else (c.(loc := Missed), PRun(r))
    case Missed => (c.(loc := AtTop), PRelease(r))
    case InCallback => (c.(state := READY, loc := AtTop), PRelease(r))
  }

  /** One step of a dispatcher: fill all buffers first, then notify each registered callback. */
  function Dispatch(s: State, d: Did, q: Dispatcher): (s': State)
    requires Shape(s) && d in s.ds && s.ds[d] == q && q != DIdle
    ensures Shape(s') && |s'.crs| == |s.crs|
  {
    match q
    case DFill(subs, i) =>
      if i < |subs| then
        var r := subs[i];
        s.(crs := s.crs[r := s.crs[r].(tail := s.crs[r].tail + 1)], ds := s.ds[d := DFill(subs, i + 1)])
      else s.(ds := s.ds[d := DNotify(subs, 0)])
    case DNotify(subs, i) =>
      if i == |subs| then s.(ds := s.ds[d := DIdle])
      else
        var r := subs[i];
        if !s.crs[r].registered then
          s.(crs := s.crs[r := s.crs[r].(skipped := true)], ds := s.ds[d := DNotify(subs, i + 1)])
        else if s.crs[r].state == DATA_WAIT then s.(ds := s.ds[d := DClear(subs, i)])
        else s.(ds := s.ds[d := DNotify(subs, i + 1)])
    case DClear(subs, i) =>
      var r := subs[i];
      s.(crs := s.crs[r := s.crs[r].(updated := false)], ds := s.ds[d := DNotify(subs, i + 1)])
  }

  /** The buffer of a coroutine and its cursor move as the reader of DataBuffer does, so what is proved there
      about the delivered positions holds for every coroutine here. */
  lemma FetchFollowsCursor(c: Cr, r: nat, delivered: seq<nat>)
    requires c.next <= c.tail + 1 && c.loc == AtFetch
    ensures
      var before := DataBuffer.Cursor(c.tail, c.next, delivered);
      var after, c' := DataBuffer.Step(before, DataBuffer.TryFetch, c.size), Resume(c, r).0;
      && after.published == c'.tail && after.next == c'.next
      && after.delivered == delivered + if c'.loc == InCallback then [c'.next - 1] else []
  {
    assert delivered + [] == delivered;
  }

  // ---------------------------------------------------------------- invariant

  /** The coroutine will call TryFetch again before it parks in DATA_WAIT. */
  predicate WillLook(c: Cr) {
    c.loc == AtFetch || c.loc == InCallback || (c.loc == AtTop && c.state != DATA_WAIT)
  }

  /** A dispatcher that still has to run the notifier of coroutine `r`. */
  predicate Owes(q: Dispatcher, r: nat) {
    match q
    case DIdle => false
    case DFill(subs, _) => r in subs
    case DNotify(subs, i) => i <= |subs| && r in subs[i..]
    case DClear(subs, i) => i <= |subs| && r in subs[i..]
  }

  predicate SomeoneOwes(s: State, r: nat) {
    exists d :: d in s.ds && Owes(s.ds[d], r)
  }

  predicate HasFlag(s: State, c: Cr, r: nat) {
    c.runner.Some? && c.runner.value in s.ps && s.ps[c.runner.value] == PGotFlag(r)
  }

  /** What holds of one coroutine by itself. */
  predicate LoopOk(c: Cr) {
    && c.next <= c.tail + 1
    && (c.loc == AtFetch || c.loc == Missed ==> c.state == DATA_WAIT)
    && (c.state == SLEEP ==> c.loc == InCallback)
  }

  predicate Notified(s: State, r: nat)
    requires r < |s.crs|
  {
    var c := s.crs[r];
    !c.skipped && Unread(c) && !WillLook(c) ==> !c.updated || HasFlag(s, c, r) || SomeoneOwes(s, r)
  }

  /** A processor inside a coroutine is its one runner. */
  predicate Exclusive(s: State)
    requires Shape(s)
  {
    && (forall p | p in s.ps && !s.ps[p].PIdle? :: s.crs[s.ps[p].r].runner == Some(p))
    && (forall r | 0 <= r < |s.crs| && s.crs[r].runner.Some? ::
          var p := s.crs[r].runner.value; p in s.ps && !s.ps[p].PIdle? && s.ps[p].r == r)
  }

  /** The program counter of the runner agrees with the loop and the state. */
  predicate RunnerOk(s: State)
    requires Shape(s)
  {
    forall r | 0 <= r < |s.crs| && s.crs[r].state == DATA_WAIT && s.crs[r].loc != AtTop ::
      s.crs[r].runner.Some? && s.crs[r].runner.value in s.ps && s.ps[s.crs[r].runner.value] == PRun(r)
  }

  predicate Inv(s: State) {
    && Shape(s) && Exclusive(s) && RunnerOk(s)
    && (forall r | 0 <= r < |s.crs| :: LoopOk(s.crs[r]) && Notified(s, r))
  }

  lemma InitInv(s: State)
    requires Init(s)
    ensures Inv(s)
  {
  }

  lemma NextInv(s: State, a: Action)
    requires Inv(s) && Enabled(s, a)
    ensures Inv(Next(s, a))
  {
    match a {
      case Register(r) => RegisterInv(s, r);
      case Acquire(p, r) => AcquireInv(s, p, r);
      case Awake(p) => AwakeInv(s, p);
      case ProcStep(p) => ProcInv(s, p);
      case CallbackSleeps(p) => SleepsInv(s, p);
      case Publish(d, subs) => PublishInv(s, d, subs);
      case DispStep(d) => DispatchInv(s, d);
    }
  }

  lemma SameDispatchers(s: State, s': State)
    requires s.ds == s'.ds
    ensures forall r: nat :: SomeoneOwes(s, r) <==> SomeoneOwes(s', r)
  {
  }

  /** The step from s to s' concerns coroutine r and, at most, processor p. */
  predicate OnlyMoves(s: State, s': State, p: Pid, r: nat)
    requires r < |s.crs|
  {
    && s'.ds == s.ds && |s'.crs| == |s.crs| && s'.crs == s.crs[r := s'.crs[r]]
    && s'.ps.Keys == s.ps.Keys && (forall q | q in s.ps && q != p :: s'.ps[q] == s.ps[q])
  }

  /** A coroutine that a processor step does not concern keeps its part of the invariant. */
  lemma OtherKept(s: State, s': State, p: Pid, r: nat, q: nat)
    requires Shape(s) && Exclusive(s) && r < |s.crs| && OnlyMoves(s, s', p, r)
    requires q < |s.crs| && q != r && LoopOk(s.crs[q]) && Notified(s, q)
    requires p in s.ps && (s.ps[p].PIdle? || s.ps[p].r == r)
    ensures LoopOk(s'.crs[q]) && Notified(s', q)
  {
    SameDispatchers(s, s');
  }

  lemma MoveInv(s: State, s': State, p: Pid, r: nat)
    requires Inv(s) && r < |s.crs| && OnlyMoves(s, s', p, r)
    requires p in s.ps && (s.ps[p].PIdle? || s.ps[p].r == r)
    requires Shape(s') && Exclusive(s') && RunnerOk(s') && LoopOk(s'.crs[r]) && Notified(s', r)
    ensures Inv(s')
  {
    forall q | 0 <= q < |s'.crs|
      ensures LoopOk(s'.crs[q]) && Notified(s', q)
    {
      assert LoopOk(s.crs[q]) && Notified(s, q);
      if q != r { OtherKept(s, s', p, r, q); }
    }
  }

  lemma RegisterInv(s: State, r: nat)
    requires Inv(s) && Enabled(s, Register(r))
    ensures Inv(Next(s, Register(r)))
  {
    var s' := Next(s, Register(r));
    SameDispatchers(s, s');
    forall q | 0 <= q < |s'.crs|
      ensures LoopOk(s'.crs[q]) && Notified(s', q)
    {
      assert LoopOk(s.crs[q]) && Notified(s, q);
    }
  }

  lemma AcquireInv(s: State, p: Pid, r: nat)
    requires Inv(s) && Enabled(s, Acquire(p, r))
    ensures Inv(Next(s, Acquire(p, r)))
  {
    var s' := Next(s, Acquire(p, r));
    SameDispatchers(s, s');
    assert LoopOk(s.crs[r]) && Notified(s, r);
    MoveInv(s, s', p, r);
  }

  lemma AwakeInv(s: State, p: Pid)
    requires Inv(s) && Enabled(s, Awake(p))
    ensures Inv(Next(s, Awake(p)))
  {
    var s', r := Next(s, Awake(p)), s.ps[p].r;
    SameDispatchers(s, s');
    assert s.crs[r].runner == Some(p) && LoopOk(s.crs[r]) && Notified(s, r);
    MoveInv(s, s', p, r);
  }

  lemma SleepsInv(s: State, p: Pid)
    requires Inv(s) && Enabled(s, CallbackSleeps(p))
    ensures Inv(Next(s, CallbackSleeps(p)))
  {
    var s', r := Next(s, CallbackSleeps(p)), s.ps[p].r;
    SameDispatchers(s, s');
    assert s.crs[r].runner == Some(p) && LoopOk(s.crs[r]) && Notified(s, r);
    MoveInv(s, s', p, r);
  }

  /** A dispatcher moving on never forgets what the other dispatchers owe. */
  lemma OthersStillOwe(s: State, s': State, d: Did, r: nat)
    requires s'.ds.Keys == s.ds.Keys && d in s.ds
    requires forall e | e in s.ds && e != d :: s'.ds[e] == s.ds[e]
    requires Owes(s.ds[d], r) ==> Owes(s'.ds[d], r)
    ensures SomeoneOwes(s, r) ==> SomeoneOwes(s', r)
  {
    if SomeoneOwes(s, r) {
      var e :| e in s.ds && Owes(s.ds[e], r);
      assert Owes(s'.ds[e], r);
    }
  }

  lemma PublishInv(s: State, d: Did, subs: seq<nat>)
    requires Inv(s) && Enabled(s, Publish(d, subs))
    ensures Inv(Next(s, Publish(d, subs)))
  {
    var s' := Next(s, Publish(d, subs));
    forall r | 0 <= r < |s.crs|
      ensures Notified(s', r)
    {
      assert Notified(s, r);
      OthersStillOwe(s, s', d, r);
    }
  }

  lemma DispatchInv(s: State, d: Did)
    requires Inv(s) && Enabled(s, DispStep(d))
    ensures Inv(Next(s, DispStep(d)))
  {
    var s' := Next(s, DispStep(d));
    DispatchFrame(s, d);
    forall r | 0 <= r < |s.crs|
      ensures Notified(s', r)
    {
      match s.ds[d] {
        case DFill(subs, i) => FillNotified(s, d, r);
        case DNotify(subs, i) => NotifyNotified(s, d, r);
        case DClear(subs, i) => ClearNotified(s, d, r);
      }
    }
  }

  /** A dispatcher changes no processor and of a coroutine only the buffer, the flag and the history. */
  lemma DispatchFrame(s: State, d: Did)
    requires Shape(s) && Exclusive(s) && RunnerOk(s) && Enabled(s, DispStep(d))
    requires forall r | 0 <= r < |s.crs| :: LoopOk(s.crs[r])
    ensures
      var s' := Next(s, DispStep(d));
      Exclusive(s') && RunnerOk(s') && forall r | 0 <= r < |s'.crs| :: LoopOk(s'.crs[r])
  {
    var s' := Next(s, DispStep(d));
    assert s'.ps == s.ps;
    forall r | 0 <= r < |s.crs|
      ensures s'.crs[r].runner == s.crs[r].runner && s'.crs[r].state == s.crs[r].state
      ensures s'.crs[r].loc == s.crs[r].loc && LoopOk(s'.crs[r])
    {
      assert LoopOk(s.crs[r]);
    }
  }

  lemma FillNotified(s: State, d: Did, r: nat)
    requires Inv(s) && d in s.ds && s.ds[d].DFill? && r < |s.crs|
    ensures Notified(Next(s, DispStep(d)), r)
  {
    var s' := Next(s, DispStep(d));
    var DFill(subs, i) := s.ds[d];
    if i == |subs| { assert subs[0..] == subs; }
    OthersStillOwe(s, s', d, r);
    if i < |subs| && r == subs[i] {
      assert Owes(s'.ds[d], r);
    }
    assert Notified(s, r);
  }

  lemma NotifyNotified(s: State, d: Did, r: nat)
    requires Inv(s) && d in s.ds && s.ds[d].DNotify? && r < |s.crs|
    ensures Notified(Next(s, DispStep(d)), r)
  {
    var s' := Next(s, DispStep(d));
    var DNotify(subs, i) := s.ds[d];
    assert LoopOk(s.crs[r]) && Notified(s, r);
    if i < |subs| {
      assert subs[i..] == [subs[i]] + subs[i + 1..];
      if r != subs[i] || s'.ds[d].DClear? { OthersStillOwe(s, s', d, r); }
    } else {
      OthersStillOwe(s, s', d, r);
    }
  }

  lemma ClearNotified(s: State, d: Did, r: nat)
    requires Inv(s) && d in s.ds && s.ds[d].DClear? && r < |s.crs|
    ensures Notified(Next(s, DispStep(d)), r)
  {
    var s' := Next(s, DispStep(d));
    var DClear(subs, i) := s.ds[d];
    assert Notified(s, r);
    assert subs[i..] == [subs[i]] + subs[i + 1..];
    if r != subs[i] { OthersStillOwe(s, s', d, r); }
  }

  lemma ProcInv(s: State, p: Pid)
    requires Inv(s) && Enabled(s, ProcStep(p))
    ensures Inv(Next(s, ProcStep(p)))
  {
    ProcOwn(s, p);
    ProcExclusive(s, p);
    MoveInv(s, Next(s, ProcStep(p)), p, s.ps[p].r);
  }

  lemma ProcExclusive(s: State, p: Pid)
    requires Shape(s) && Exclusive(s) && RunnerOk(s) && Enabled(s, ProcStep(p))
    requires LoopOk(s.crs[s.ps[p].r])
    ensures Exclusive(Next(s, ProcStep(p))) && RunnerOk(Next(s, ProcStep(p)))
  {
    var s', r := Next(s, ProcStep(p)), s.ps[p].r;
    assert s.crs[r].runner == Some(p);
    ProcessRunner(s.crs[r], s.ps[p], p);
    assert RunnerAt(s, r);
    ProcRunner(s.crs[r], s.ps[p], p);
    MoveExclusive(s, s', p, r);
    MoveRunner(s, s', p, r);
  }

  /** A processor keeps the coroutine until it releases it. */
  lemma ProcessRunner(c: Cr, q: Processor, p: Pid)
    requires q != PIdle && c.runner == Some(p)
    ensures
      var (c', q') := Process(c, q);
      if q' == PIdle then c'.runner == None else q'.r == q.r && c'.runner == Some(p)
  {
  }

  lemma ProcRunner(c: Cr, q: Processor, p: Pid)
    requires q != PIdle && LoopOk(c) && c.runner == Some(p)
    requires c.state == DATA_WAIT && c.loc != AtTop ==> q == PRun(q.r)
    ensures
      var (c', q') := Process(c, q);
      c'.state == DATA_WAIT && c'.loc != AtTop ==> c'.runner == Some(p) && q' == PRun(q.r)
  {
  }

  predicate RunnerAt(s: State, r: nat)
    requires r < |s.crs|
  {
    s.crs[r].state == DATA_WAIT && s.crs[r].loc != AtTop ==>
      s.crs[r].runner.Some? && s.crs[r].runner.value in s.ps && s.ps[s.crs[r].runner.value] == PRun(r)
  }

  /** Processor p, idle or inside coroutine r, ends up idle with r unheld or inside r. */
  lemma MoveExclusive(s: State, s': State, p: Pid, r: nat)
    requires Shape(s) && Exclusive(s) && Shape(s') && r < |s.crs| && OnlyMoves(s, s', p, r)
    requires p in s.ps && !s.ps[p].PIdle? && s.ps[p].r == r
    requires if s'.ps[p] == PIdle then s'.crs[r].runner == None
             else s'.ps[p].r == r && s'.crs[r].runner == Some(p)
    ensures Exclusive(s')
  {
    assert s.crs[r].runner == Some(p);
    forall q | q in s'.ps && !s'.ps[q].PIdle? ensures s'.crs[s'.ps[q].r].runner == Some(q) {
      if q != p { assert s.crs[s.ps[q].r].runner == Some(q); }
    }
  }

  lemma MoveRunner(s: State, s': State, p: Pid, r: nat)
    requires Shape(s) && Exclusive(s) && RunnerOk(s) && Shape(s') && r < |s.crs| && OnlyMoves(s, s', p, r)
    requires p in s.ps && !s.ps[p].PIdle? && s.ps[p].r == r && RunnerAt(s', r)
    ensures RunnerOk(s')
  {
    forall q | 0 <= q < |s'.crs| ensures RunnerAt(s', q) {
      if q != r { assert s'.crs[q] == s.crs[q] && RunnerAt(s, q); }
    }
  }

  lemma ProcOwn(s: State, p: Pid)
    requires Inv(s) && Enabled(s, ProcStep(p))
    ensures
      var s', r := Next(s, ProcStep(p)), s.ps[p].r;
      && LoopOk(s'.crs[r]) && Notified(s', r)
  {
    var s', r := Next(s, ProcStep(p)), s.ps[p].r;
    SameDispatchers(s, s');
    assert s.crs[r].runner == Some(p);
    assert LoopOk(s.crs[r]) && Notified(s, r);
  }

  // ---------------------------------------------------------------- whole runs

  ghost predicate Run(s: State, actions: seq<Action>)
    requires Shape(s)
    decreases |actions|
  {
    actions == [] || (Enabled(s, actions[0]) && Run(Next(s, actions[0]), actions[1..]))
  }

  ghost function Final(s: State, actions: seq<Action>): (r: State)
    requires Shape(s) && Run(s, actions)
    ensures Shape(r) && |r.crs| == |s.crs|
    decreases |actions|
  {
    if actions == [] then s else Final(Next(s, actions[0]), actions[1..])
  }

  lemma {:induction false} RunInv(s: State, actions: seq<Action>)
    requires Inv(s) && Run(s, actions)
    ensures Inv(Final(s, actions))
    decreases |actions|
  {
    if actions != [] {
      NextInv(s, actions[0]);
      RunInv(Next(s, actions[0]), actions[1..]);
    }
  }

  /** Nobody runs the coroutine and its last fetch attempt left it waiting for data. */
  predicate Parked(c: Cr) {
    c.runner == None && c.state == DATA_WAIT
  }

  predicate AllDispatched(s: State) {
    forall d | d in s.ds :: s.ds[d] == DIdle
  }

  /** No missed wakeup, over every interleaving: once all dispatchers are idle, a coroutine parked
      in DATA_WAIT with an unread message has a notification pending, provided its callback was
      registered by the time a notifier reached it. */
  lemma NoMissedWakeup(s0: State, actions: seq<Action>, r: nat)
    requires Init(s0) && Run(s0, actions) && r < |s0.crs|
    ensures
      var s := Final(s0, actions);
      AllDispatched(s) && Parked(s.crs[r]) && Unread(s.crs[r]) && !s.crs[r].skipped ==> !s.crs[r].updated
  {
    InitInv(s0);
    RunInv(s0, actions);
    var s := Final(s0, actions);
    assert LoopOk(s.crs[r]) && Notified(s, r);
  }

  /** With the callback registered before the first message nothing is ever skipped. */
  lemma {:induction false} RegisteredIsNeverSkipped(s: State, actions: seq<Action>, r: nat)
    requires Inv(s) && Run(s, actions) && r < |s.crs| && s.crs[r].registered && !s.crs[r].skipped
    ensures !Final(s, actions).crs[r].skipped
    decreases |actions|
  {
    if actions != [] {
      NextInv(s, actions[0]);
      RegisteredStays(s, actions[0], r);
      RegisteredIsNeverSkipped(Next(s, actions[0]), actions[1..], r);
    }
  }

  lemma RegisteredStays(s: State, a: Action, r: nat)
    requires Shape(s) && Enabled(s, a) && r < |s.crs| && s.crs[r].registered && !s.crs[r].skipped
    ensures Next(s, a).crs[r].registered && !Next(s, a).crs[r].skipped
  {
  }

  /** A pending notification wakes: the next processor to acquire the parked coroutine makes it READY
      and uses the notification up; without one the coroutine is left as it was. */
  lemma NextUpdateMakesReady(s: State, p: Pid, r: nat)
    requires Inv(s) && r < |s.crs| && Parked(s.crs[r]) && p in s.ps && s.ps[p] == PIdle
    ensures
      var s1 := Next(s, Acquire(p, r));
      var s2 := Next(s1, ProcStep(p));
      if s.crs[r].updated then s2.ps[p] == PCheck(r) && s2.crs[r] == s.crs[r].(runner := Some(p))
      else
        var s3 := Next(s2, ProcStep(p));
        s3.ps[p] == PCheck(r) && s3.crs[r] == s.crs[r].(runner := Some(p), state := READY, updated := true)
  {
  }

  /** No processor runs a sleeping coroutine. */
  predicate RunsAwake(s: State)
    requires Shape(s)
  {
    forall p | p in s.ps && s.ps[p].PRun? :: s.crs[s.ps[p].r].state != SLEEP
  }

  /** A step of processor p on the coroutine r that it holds, or one that leaves the state of r as it is. */
  lemma RunsAwakeMove(s: State, s': State, p: Pid, r: nat)
    requires Shape(s) && Exclusive(s) && RunsAwake(s) && Shape(s') && r < |s.crs| && OnlyMoves(s, s', p, r)
    requires s.crs[r].runner == Some(p) || s'.crs[r].state == s.crs[r].state
    requires p in s'.ps && s'.ps[p].PRun? ==> s'.crs[s'.ps[p].r].state != SLEEP
    ensures RunsAwake(s')
  {
    forall q | q in s'.ps && s'.ps[q].PRun? && q != p ensures s'.crs[s'.ps[q].r].state != SLEEP {
      assert s.crs[s.ps[q].r].runner == Some(q);
    }
  }

  lemma RunsAwakeProc(s: State, p: Pid)
    requires Shape(s) && Exclusive(s) && RunsAwake(s) && Enabled(s, ProcStep(p))
    ensures RunsAwake(Next(s, ProcStep(p)))
  {
    var r := s.ps[p].r;
    assert s.crs[r].runner == Some(p) && (s.ps[p].PRun? ==> s.crs[r].state != SLEEP);
    RunsAwakeMove(s, Next(s, ProcStep(p)), p, r);
  }

  lemma RunsAwakeNext(s: State, a: Action)
    requires Inv(s) && RunsAwake(s) && Enabled(s, a)
    ensures RunsAwake(Next(s, a))
  {
    match a {
      case Acquire(p, r) => RunsAwakeMove(s, Next(s, a), p, r);
      case Awake(p) => RunsAwakeMove(s, Next(s, a), p, s.ps[p].r);
      case ProcStep(p) => RunsAwakeProc(s, p);
      case CallbackSleeps(p) => RunsAwakeMove(s, Next(s, a), p, s.ps[p].r);
      case _ => RunsAwakeQuiet(s, a);
    }
  }

  lemma RunsAwakeQuiet(s: State, a: Action)
    requires Shape(s) && RunsAwake(s) && Enabled(s, a) && (a.Register? || a.Publish? || a.DispStep?)
    ensures RunsAwake(Next(s, a))
  {
    var s' := Next(s, a);
    assert s'.ps == s.ps && forall r | 0 <= r < |s.crs| :: s'.crs[r].state == s.crs[r].state;
  }

  lemma {:induction false} RunsAwakeRun(s: State, actions: seq<Action>)
    requires Inv(s) && RunsAwake(s) && Run(s, actions)
    ensures Inv(Final(s, actions)) && RunsAwake(Final(s, actions))
    decreases |actions|
  {
    if actions != [] {
      NextInv(s, actions[0]);
      RunsAwakeNext(s, actions[0]);
      RunsAwakeRun(Next(s, actions[0]), actions[1..]);
    }
  }

  /** Over every run, a sleeping coroutine becomes ready when its time has come and by no other step, notified or
      not. */
  lemma SleeperWakesOnlyOnTime(s0: State, actions: seq<Action>, a: Action, r: nat)
    requires Init(s0) && Run(s0, actions) && r < |s0.crs| && Enabled(Final(s0, actions), a)
    ensures
      var s := Final(s0, actions);
      s.crs[r].state == SLEEP && Next(s, a).crs[r].state != SLEEP ==>
        a.Awake? && s.ps[a.p].r == r && Next(s, a).crs[r] == s.crs[r].(state := READY)
  {
    InitInv(s0);
    RunsAwakeRun(s0, actions);
    SleeperStep(Final(s0, actions), a, r);
  }

  lemma SleeperStep(s: State, a: Action, r: nat)
    requires Inv(s) && RunsAwake(s) && Enabled(s, a) && r < |s.crs|
    ensures s.crs[r].state == SLEEP && Next(s, a).crs[r].state != SLEEP ==>
              a.Awake? && s.ps[a.p].r == r && Next(s, a).crs[r] == s.crs[r].(state := READY)
  {
    assert LoopOk(s.crs[r]);
  }

  // ---------------------------------------------------------------- a whole turn

  /** The step is one that processor p makes on the coroutine it holds. */
  predicate OfProcessor(a: Action, p: Pid) {
    (a.ProcStep? || a.Awake? || a.CallbackSleeps?) && a.p == p
  }

  function TurnSteps(actions: seq<Action>, p: Pid): nat {
    if actions == [] then 0 else (if OfProcessor(actions[0], p) then 1 else 0) + TurnSteps(actions[1..], p)
  }

  /** How many more steps the turn of a coroutine can take: one fetch, at most one callback, one yield. */
  function TurnLeft(q: Processor, loc: Loc): nat {
    match q
    case PIdle => 0
    case PRelease(_) => 1
    case PRun(_) => (match loc
                     case AtTop => 4
                     case AtFetch => 3
                     case Missed => 2
                     case InCallback => 2)
    case PCheck(_) => 5
    case PGotFlag(_) => 6
    case PTestAndSet(_) => 7
  }

  function TurnAt(s: State, p: Pid): nat
    requires Shape(s) && p in s.ps
  {
    if s.ps[p].PIdle? then 0 else TurnLeft(s.ps[p], s.crs[s.ps[p].r].loc)
  }

  lemma TurnOwn(s: State, a: Action, p: Pid)
    requires Shape(s) && Enabled(s, a) && OfProcessor(a, p)
    ensures p in Next(s, a).ps && TurnAt(Next(s, a), p) < TurnAt(s, p)
  {
  }

  lemma TurnOther(s: State, a: Action, p: Pid)
    requires Shape(s) && Exclusive(s) && Enabled(s, a) && p in s.ps && !OfProcessor(a, p) && !(a.Acquire? && a.p == p)
    ensures p in Next(s, a).ps && TurnAt(Next(s, a), p) == TurnAt(s, p)
  {
    assert Next(s, a).ps[p] == s.ps[p];
    if !s.ps[p].PIdle? {
      assert s.crs[s.ps[p].r].runner == Some(p);
      if a.ProcStep? || a.Awake? || a.CallbackSleeps? { assert s.crs[s.ps[a.p].r].runner == Some(a.p); }
    }
  }

  lemma TurnNext(s: State, a: Action, p: Pid)
    requires Shape(s) && Exclusive(s) && Enabled(s, a) && p in s.ps && !(a.Acquire? && a.p == p)
    ensures p in Next(s, a).ps && TurnAt(Next(s, a), p) + (if OfProcessor(a, p) then 1 else 0) <= TurnAt(s, p)
  {
    if OfProcessor(a, p) { TurnOwn(s, a, p); } else { TurnOther(s, a, p); }
  }

  /** Every turn ends: after a processor has taken up a coroutine it makes at most seven steps before it is free
      for another one, whatever the other threads do and however the coroutine fares. */
  lemma TurnEnds(s: State, actions: seq<Action>, p: Pid)
    requires Inv(s) && Run(s, actions) && p in s.ps
    requires forall i | 0 <= i < |actions| :: !(actions[i].Acquire? && actions[i].p == p)
    ensures Shape(Final(s, actions)) && p in Final(s, actions).ps
    ensures TurnSteps(actions, p) <= 7
    ensures TurnSteps(actions, p) == TurnAt(s, p) ==> Final(s, actions).ps[p] == PIdle
  {
    TurnRun(s, actions, p);
    TurnAtMost(s, p);
    if TurnSteps(actions, p) == TurnAt(s, p) { TurnOver(Final(s, actions), p); }
  }

  lemma {:induction false} TurnRun(s: State, actions: seq<Action>, p: Pid)
    requires Inv(s) && Run(s, actions) && p in s.ps
    requires forall i | 0 <= i < |actions| :: !(actions[i].Acquire? && actions[i].p == p)
    ensures Shape(Final(s, actions)) && p in Final(s, actions).ps
    ensures TurnSteps(actions, p) + TurnAt(Final(s, actions), p) <= TurnAt(s, p)
    decreases |actions|
  {
    if actions != [] {
      NextInv(s, actions[0]);
      assert !(actions[0].Acquire? && actions[0].p == p);
      TurnNext(s, actions[0], p);
      TurnRun(Next(s, actions[0]), actions[1..], p);
    }
  }

  lemma TurnAtMost(s: State, p: Pid)
    requires Shape(s) && p in s.ps
    ensures TurnAt(s, p) <= 7
  {
  }

  lemma TurnOver(s: State, p: Pid)
    requires Shape(s) && p in s.ps && TurnAt(s, p) == 0
    ensures s.ps[p] == PIdle
  {
  }

  // ---------------------------------------------------------------- a whole dispatch

  function Count(xs: seq<nat>, r: nat): nat {
    if xs == [] then 0 else (if xs[0] == r then 1 else 0) + Count(xs[1..], r)
  }

  /** How many messages a dispatcher still has to put into the buffer of coroutine r. */
  function Left(q: Dispatcher, r: nat): nat {
    if q.DFill? && q.i <= |q.subs| then Count(q.subs[q.i..], r) else 0
  }

  /** How many steps of dispatcher d put a message into the buffer of r. */
  ghost function Filled(s: State, actions: seq<Action>, d: Did, r: nat): nat
    requires Shape(s) && Run(s, actions) && r < |s.crs|
    decreases |actions|
  {
    if actions == [] then 0
    else
      var s' := Next(s, actions[0]);
      (if actions[0] == DispStep(d) && s'.crs[r].tail == s.crs[r].tail + 1 then 1 else 0) + Filled(s', actions[1..], d, r)
  }

  predicate PublishesBy(a: Action, d: Did) {
    a.Publish? && a.d == d
  }

  lemma LeftNext(s: State, a: Action, d: Did, r: nat)
    requires Shape(s) && Enabled(s, a) && d in s.ds && r < |s.crs| && !PublishesBy(a, d)
    ensures
      var s' := Next(s, a);
      && d in s'.ds
      && Left(s.ds[d], r)
         == Left(s'.ds[d], r) + (if a == DispStep(d) && s'.crs[r].tail == s.crs[r].tail + 1 then 1 else 0)
  {
    if a == DispStep(d) { LeftOwn(s, d, r); } else { assert Next(s, a).ds[d] == s.ds[d]; }
  }

  lemma LeftOwn(s: State, d: Did, r: nat)
    requires Shape(s) && Enabled(s, DispStep(d)) && r < |s.crs|
    ensures
      var s' := Next(s, DispStep(d));
      && d in s'.ds
      && Left(s.ds[d], r) == Left(s'.ds[d], r) + (if s'.crs[r].tail == s.crs[r].tail + 1 then 1 else 0)
  {
    if s.ds[d].DFill? {
      var DFill(subs, i) := s.ds[d];
      if i < |subs| { assert subs[i..][1..] == subs[i + 1..]; } else { assert subs[i..] == []; }
    }
  }

  lemma {:induction false} FillsWhatIsLeft(s: State, actions: seq<Action>, d: Did, r: nat)
    requires Shape(s) && Run(s, actions) && d in s.ds && r < |s.crs|
    requires forall i | 0 <= i < |actions| :: !PublishesBy(actions[i], d)
    requires d in Final(s, actions).ds && Final(s, actions).ds[d] == DIdle
    ensures Filled(s, actions, d, r) == Left(s.ds[d], r)
    decreases |actions|
  {
    if actions != [] {
      assert !PublishesBy(actions[0], d);
      LeftNext(s, actions[0], d, r);
      FillsWhatIsLeft(Next(s, actions[0]), actions[1..], d, r);
    }
  }

  /** A whole dispatch, whatever the other threads do during it: every buffer subscribed to gets the message
      exactly as often as it is subscribed, and no other buffer gets it. */
  lemma DispatchReachesEverySubscriber(s: State, d: Did, subs: seq<nat>, actions: seq<Action>, r: nat)
    requires Shape(s) && Enabled(s, Publish(d, subs)) && r < |s.crs|
    requires Run(Next(s, Publish(d, subs)), actions)
    requires forall i | 0 <= i < |actions| :: !PublishesBy(actions[i], d)
    requires var s' := Final(Next(s, Publish(d, subs)), actions); d in s'.ds && s'.ds[d] == DIdle
    ensures Filled(Next(s, Publish(d, subs)), actions, d, r) == Count(subs, r)
  {
    var s1 := Next(s, Publish(d, subs));
    FillsWhatIsLeft(s1, actions, d, r);
    assert subs[0..] == subs;
  }

  // ---------------------------------------------------------------- who gets notified

  /** The state after the first k actions. */
  ghost function StateAt(s: State, actions: seq<Action>, k: nat): (r: State)
    requires Shape(s) && Run(s, actions) && k <= |actions|
    ensures |r.crs| == |s.crs|
    decreases k
  {
    if k == 0 then s else StateAt(Next(s, actions[0]), actions[1..], k - 1)
  }

  predicate OfDispatcher(a: Action, d: Did) {
    (a.Publish? || a.DispStep?) && a.d == d
  }

  /** With action k, its last one, dispatcher d found coroutine r registered and waiting for data. */
  ghost predicate FoundWaiting(s: State, actions: seq<Action>, k: nat, d: Did, r: nat)
    requires Shape(s) && Run(s, actions) && r < |s.crs|
  {
    && k < |actions| && actions[k] == DispStep(d)
    && (forall j | k < j < |actions| :: !OfDispatcher(actions[j], d))
    && var c := StateAt(s, actions, k).crs[r]; c.registered && c.state == DATA_WAIT
  }

  lemma FoundLater(s: State, actions: seq<Action>, k: nat, d: Did, r: nat)
    requires Shape(s) && Run(s, actions) && r < |s.crs| && actions != []
    requires FoundWaiting(Next(s, actions[0]), actions[1..], k, d, r)
    ensures FoundWaiting(s, actions, k + 1, d, r)
  {
    assert actions[k + 1] == actions[1..][k];
    forall j | k + 1 < j < |actions| ensures !OfDispatcher(actions[j], d) {
      assert actions[j] == actions[1..][j - 1];
    }
  }

  /** A dispatcher that is about to clear a flag was so from the start, or it found the coroutine waiting with
      its last step. */
  lemma {:induction false} AboutToClear(s: State, actions: seq<Action>, d: Did) returns (k: nat)
    requires Shape(s) && Run(s, actions) && d in Final(s, actions).ds && Final(s, actions).ds[d].DClear?
    requires |Final(s, actions).crs| == |s.crs|
    ensures
      var q := Final(s, actions).ds[d];
      || (d in s.ds && s.ds[d] == q && forall j | 0 <= j < |actions| :: !OfDispatcher(actions[j], d))
      || (q.i < |q.subs| && q.subs[q.i] < |s.crs| && FoundWaiting(s, actions, k, d, q.subs[q.i]))
    decreases |actions|
  {
    k := 0;
    if actions != [] {
      var s' := Next(s, actions[0]);
      var j := AboutToClear(s', actions[1..], d);
      var q := Final(s, actions).ds[d];
      if q.i < |q.subs| && q.subs[q.i] < |s.crs| && FoundWaiting(s', actions[1..], j, d, q.subs[q.i]) {
        FoundLater(s, actions, j, d, q.subs[q.i]);
        k := j + 1;
      } else {
        FirstOfDispatcher(s, actions, d);
      }
    }
  }

  lemma FirstOfDispatcher(s: State, actions: seq<Action>, d: Did)
    requires Shape(s) && Run(s, actions) && actions != []
    requires forall i | 0 <= i < |actions[1..]| :: !OfDispatcher(actions[1..][i], d)
    requires d in Next(s, actions[0]).ds && Next(s, actions[0]).ds[d].DClear?
    ensures
      var q := Next(s, actions[0]).ds[d];
      || (d in s.ds && s.ds[d] == q && forall j | 0 <= j < |actions| :: !OfDispatcher(actions[j], d))
      || (q.i < |q.subs| && q.subs[q.i] < |s.crs| && FoundWaiting(s, actions, 0, d, q.subs[q.i]))
  {
    forall i | 0 < i < |actions| ensures !OfDispatcher(actions[i], d) { assert actions[i] == actions[1..][i - 1]; }
    if OfDispatcher(actions[0], d) { FoundNow(s, actions[0], d); }
  }

  lemma FoundNow(s: State, a: Action, d: Did)
    requires Shape(s) && Enabled(s, a) && OfDispatcher(a, d) && d in Next(s, a).ds && Next(s, a).ds[d].DClear?
    ensures
      var q := Next(s, a).ds[d];
      a == DispStep(d) && q.i < |q.subs| && q.subs[q.i] < |s.crs|
      && s.crs[q.subs[q.i]].registered && s.crs[q.subs[q.i]].state == DATA_WAIT
  {
  }

  /** Over every run, the flag of a coroutine is cleared only by a dispatcher that, with its step before, found
      the coroutine registered and waiting for data: a coroutine that runs or sleeps is not notified. */
  lemma OnlyWaitersAreNotified(s0: State, actions: seq<Action>, a: Action, r: nat) returns (k: nat)
    requires Init(s0) && Run(s0, actions) && r < |s0.crs| == |Final(s0, actions).crs| && Enabled(Final(s0, actions), a)
    requires Final(s0, actions).crs[r].updated && !Next(Final(s0, actions), a).crs[r].updated
    ensures a.DispStep? && FoundWaiting(s0, actions, k, a.d, r)
  {
    ClearsFlag(Final(s0, actions), a, r);
    k := AboutToClear(s0, actions, a.d);
  }

  lemma ClearsFlag(s: State, a: Action, r: nat)
    requires Shape(s) && Enabled(s, a) && r < |s.crs| && s.crs[r].updated && !Next(s, a).crs[r].updated
    ensures a.DispStep? && s.ds[a.d].DClear? && s.ds[a.d].subs[s.ds[a.d].i] == r
  {
  }

  // ---------------------------------------------------------------- to the delivery

  /** Processor p is bound to deliver to coroutine r within k own steps; with k = 0 the cursor has moved. */
  predicate Delivering(s: State, p: Pid, r: nat, next: nat, k: nat)
    requires r < |s.crs|
  {
    var c := s.crs[r];
    if k == 0 then c.next > next
    else
      && p in s.ps && c.next == next && Unread(c) && c.runner == Some(p)
      && (match k
          case 5 => s.ps[p] == PTestAndSet(r) && !c.updated && c.state == DATA_WAIT && c.loc == AtTop
          case 4 => s.ps[p] == PGotFlag(r) && c.state == DATA_WAIT && c.loc == AtTop
          case 3 => s.ps[p] == PCheck(r) && c.state == READY && c.loc == AtTop
          case 2 => s.ps[p] == PRun(r) && c.loc == AtTop
          case 1 => s.ps[p] == PRun(r) && c.loc == AtFetch
          case _ => false)
  }

  /** The cursor never goes back. */
  lemma CursorKept(s: State, a: Action, r: nat)
    requires Inv(s) && Enabled(s, a) && r < |s.crs|
    ensures Next(s, a).crs[r].next >= s.crs[r].next && Next(s, a).crs[r].tail >= s.crs[r].tail
  {
    assert LoopOk(s.crs[r]);
  }

  /** Each own step brings the delivery one step closer, and no step of anybody else prevents it. */
  lemma DeliveringNext(s: State, a: Action, p: Pid, r: nat, next: nat, k: nat)
    requires Inv(s) && Enabled(s, a) && r < |s.crs| && Delivering(s, p, r, next, k)
    ensures Delivering(Next(s, a), p, r, next, if a == ProcStep(p) && k > 0 then k - 1 else k)
  {
    if k == 0 {
      CursorKept(s, a, r);
    } else if a == ProcStep(p) {
      assert LoopOk(s.crs[r]);
    } else {
      OthersDoNotInterfere(s, a, p, r);
    }
  }

  lemma OthersDoNotInterfere(s: State, a: Action, p: Pid, r: nat)
    requires Inv(s) && Enabled(s, a) && r < |s.crs| && s.crs[r].runner == Some(p) && a != ProcStep(p)
    requires s.crs[r].state != SLEEP && s.crs[r].loc != InCallback
    ensures
      var s', c, c' := Next(s, a), s.crs[r], Next(s, a).crs[r];
      && p in s.ps && p in s'.ps && s'.ps[p] == s.ps[p] && (!c.updated ==> !c'.updated)
      && c'.next == c.next && c'.tail >= c.tail && c'.runner == c.runner && c'.state == c.state && c'.loc == c.loc
  {
    assert p in s.ps && !s.ps[p].PIdle? && s.ps[p].r == r;
    assert a.ProcStep? ==> s.crs[s.ps[a.p].r].runner == Some(a.p);
  }

  function OwnSteps(actions: seq<Action>, p: Pid): nat {
    if actions == [] then 0 else (if actions[0] == ProcStep(p) then 1 else 0) + OwnSteps(actions[1..], p)
  }

  lemma {:induction false} DeliveringRun(s: State, actions: seq<Action>, p: Pid, r: nat, next: nat, k: nat)
    requires Inv(s) && Run(s, actions) && r < |s.crs| && Delivering(s, p, r, next, k)
    ensures OwnSteps(actions, p) >= k ==> Final(s, actions).crs[r].next > next
    decreases |actions|
  {
    if actions != [] {
      NextInv(s, actions[0]);
      DeliveringNext(s, actions[0], p, r, next, k);
      DeliveringRun(Next(s, actions[0]), actions[1..], p, r, next,
                    if actions[0] == ProcStep(p) && k > 0 then k - 1 else k);
    }
  }

  /** From the message to its delivery, over every interleaving before and after: once dispatching is
      over, whichever processor next takes a parked, registered coroutine with an unread message hands it
      a message within five steps of its own, whatever the other threads do meanwhile. */
  lemma WakeupDelivers(s0: State, before: seq<Action>, r: nat, p: Pid, after: seq<Action>)
    requires Init(s0) && r < |s0.crs| && Run(s0, before)
    requires var s := Final(s0, before); Enabled(s, Acquire(p, r)) && Run(Next(s, Acquire(p, r)), after)
    ensures
      var s := Final(s0, before);
      s0.crs[r].registered && AllDispatched(s) && Parked(s.crs[r]) && Unread(s.crs[r]) && OwnSteps(after, p) >= 5 ==>
        Final(Next(s, Acquire(p, r)), after).crs[r].next > s.crs[r].next
  {
    InitInv(s0);
    RunInv(s0, before);
    NoMissedWakeup(s0, before, r);
    var s := Final(s0, before);
    if s0.crs[r].registered && AllDispatched(s) && Parked(s.crs[r]) && Unread(s.crs[r]) {
      RegisteredIsNeverSkipped(s0, before, r);
      NextInv(s, Acquire(p, r));
      assert LoopOk(s.crs[r]);
      DeliveringRun(Next(s, Acquire(p, r)), after, p, r, s.crs[r].next, 5);
    }
  }

  /** One run, over every interleaving: a coroutine is inside at most one processor at a time. */
  lemma RunByOneProcessor(s0: State, actions: seq<Action>, p: Pid, q: Pid)
    requires Init(s0) && Run(s0, actions)
    ensures
      var s := Final(s0, actions);
      p in s.ps && q in s.ps && s.ps[p].PRun? && s.ps[q].PRun? && s.ps[p].r == s.ps[q].r ==> p == q
  {
    InitInv(s0);
    RunInv(s0, actions);
    var s := Final(s0, actions);
    if p in s.ps && q in s.ps && s.ps[p].PRun? && s.ps[q].PRun? && s.ps[p].r == s.ps[q].r {
      assert s.crs[s.ps[p].r].runner == Some(p) && s.crs[s.ps[q].r].runner == Some(q);
    }
  }

  ghost predicate Reaches(s: State, s': State)
    requires Shape(s)
  {
    exists actions :: Run(s, actions) && Final(s, actions) == s'
  }

  lemma {:induction false} Extend(s: State, actions: seq<Action>, a: Action)
    requires Shape(s) && Run(s, actions) && Enabled(Final(s, actions), a)
    ensures Run(s, actions + [a]) && Final(s, actions + [a]) == Next(Final(s, actions), a)
    decreases |actions|
  {
    if actions == [] {
      assert Run(Next(s, a), []);
    } else {
      Extend(Next(s, actions[0]), actions[1..], a);
      assert (actions + [a])[1..] == actions[1..] + [a];
    }
  }

  lemma ReachesNext(s: State, m: State, a: Action)
    requires Shape(s) && Reaches(s, m) && Shape(m) && Enabled(m, a)
    ensures Reaches(s, Next(m, a))
  {
    var actions :| Run(s, actions) && Final(s, actions) == m;
    Extend(s, actions, a);
  }

  /** The initial system except for one coroutine, one processor and one dispatcher. */
  function Solo(s0: State, r: nat, p: Pid, d: Did, c: Cr, q: Processor, e: Dispatcher): State
    requires r < |s0.crs|
  {
    State(s0.crs[r := c], s0.ps[p := q], s0.ds[d := e])
  }

  predicate Start(s0: State, r: nat, p: Pid, d: Did) {
    Init(s0) && r < |s0.crs| && p in s0.ps && d in s0.ds
  }

  lemma SoloStep(s0: State, r: nat, p: Pid, d: Did, c: Cr, q: Processor)
    requires Start(s0, r, p, d)
    requires Reaches(s0, Solo(s0, r, p, d, c, q, DIdle)) && q != PIdle && q.r == r
    ensures var (c', q') := Process(c, q); Reaches(s0, Solo(s0, r, p, d, c', q', DIdle))
  {
    var m := Solo(s0, r, p, d, c, q, DIdle);
    ReachesNext(s0, m, ProcStep(p));
    var (c', q') := Process(c, q);
    assert s0.ps[p := q][p := q'] == s0.ps[p := q'] && s0.crs[r := c][r := c'] == s0.crs[r := c'];
    assert Next(m, ProcStep(p)) == Solo(s0, r, p, d, c', q', DIdle);
  }

  /** A first run of the coroutine on an empty buffer: it announces DATA_WAIT, misses and parks. */
  lemma FirstRunParks(s0: State, r: nat, p: Pid, d: Did)
    requires Start(s0, r, p, d)
    ensures Reaches(s0, Solo(s0, r, p, d, s0.crs[r].(state := DATA_WAIT), PIdle, DIdle))
  {
    var c := s0.crs[r].(runner := Some(p));
    FirstRunResumes(s0, r, p, d);
    SoloStep(s0, r, p, d, c, PRun(r));
    SoloStep(s0, r, p, d, c.(state := DATA_WAIT, loc := AtFetch), PRun(r));
    FirstRunEnds(s0, r, p, d);
  }

  lemma FirstRunEnds(s0: State, r: nat, p: Pid, d: Did)
    requires Start(s0, r, p, d)
    requires
      var c := s0.crs[r].(runner := Some(p), state := DATA_WAIT, loc := Missed);
      Reaches(s0, Solo(s0, r, p, d, c, PRun(r), DIdle))
    ensures Reaches(s0, Solo(s0, r, p, d, s0.crs[r].(state := DATA_WAIT), PIdle, DIdle))
  {
    var c := s0.crs[r].(runner := Some(p), state := DATA_WAIT);
    SoloStep(s0, r, p, d, c.(loc := Missed), PRun(r));
    SoloStep(s0, r, p, d, c, PRelease(r));
    assert c.(runner := None) == s0.crs[r].(state := DATA_WAIT);
  }

  lemma FirstRunResumes(s0: State, r: nat, p: Pid, d: Did)
    requires Start(s0, r, p, d)
    ensures Reaches(s0, Solo(s0, r, p, d, s0.crs[r].(runner := Some(p)), PRun(r), DIdle))
  {
    var c := s0.crs[r].(runner := Some(p));
    FirstAcquired(s0, r, p, d);
    SoloStep(s0, r, p, d, c, PTestAndSet(r));
    SoloStep(s0, r, p, d, c, PCheck(r));
  }

  lemma FirstAcquired(s0: State, r: nat, p: Pid, d: Did)
    requires Start(s0, r, p, d)
    ensures Reaches(s0, Solo(s0, r, p, d, s0.crs[r].(runner := Some(p)), PTestAndSet(r), DIdle))
  {
    assert Run(s0, []) && Final(s0, []) == s0;
    ReachesNext(s0, s0, Acquire(p, r));
    assert s0.ds[d := DIdle] == s0.ds;
  }

  lemma SoloDispatch(s0: State, r: nat, p: Pid, d: Did, c: Cr, e: Dispatcher, c': Cr, e': Dispatcher)
    requires Start(s0, r, p, d)
    requires Reaches(s0, Solo(s0, r, p, d, c, PIdle, e)) && Shape(Solo(s0, r, p, d, c, PIdle, e)) && e != DIdle
    requires Dispatch(Solo(s0, r, p, d, c, PIdle, e), d, e) ==
             Solo(s0, r, p, d, c, PIdle, e).(crs := s0.crs[r := c][r := c'], ds := s0.ds[d := e][d := e'])
    ensures Reaches(s0, Solo(s0, r, p, d, c', PIdle, e'))
  {
    var m := Solo(s0, r, p, d, c, PIdle, e);
    ReachesNext(s0, m, DispStep(d));
    SetTwice(s0, r, p, d, c, e, c', e');
    assert Next(m, DispStep(d)) == Dispatch(m, d, e);
  }

  lemma SetTwice(s0: State, r: nat, p: Pid, d: Did, c: Cr, e: Dispatcher, c': Cr, e': Dispatcher)
    requires r < |s0.crs|
    ensures Solo(s0, r, p, d, c, PIdle, e).(crs := s0.crs[r := c][r := c'], ds := s0.ds[d := e][d := e'])
            == Solo(s0, r, p, d, c', PIdle, e')
  {
    assert s0.ds[d := e][d := e'] == s0.ds[d := e'] && s0.crs[r := c][r := c'] == s0.crs[r := c'];
  }

  lemma SoloPublish(s0: State, r: nat, p: Pid, d: Did, c: Cr)
    requires Start(s0, r, p, d)
    requires Reaches(s0, Solo(s0, r, p, d, c, PIdle, DIdle))
    ensures Reaches(s0, Solo(s0, r, p, d, c, PIdle, DFill([r], 0)))
  {
    ReachesNext(s0, Solo(s0, r, p, d, c, PIdle, DIdle), Publish(d, [r]));
    assert s0.ds[d := DIdle][d := DFill([r], 0)] == s0.ds[d := DFill([r], 0)];
  }

  lemma SoloFillOne(s0: State, r: nat, p: Pid, d: Did, c: Cr)
    requires Start(s0, r, p, d)
    requires Reaches(s0, Solo(s0, r, p, d, c, PIdle, DFill([r], 0)))
    ensures Reaches(s0, Solo(s0, r, p, d, c.(tail := c.tail + 1), PIdle, DFill([r], 1)))
  {
    SoloDispatch(s0, r, p, d, c, DFill([r], 0), c.(tail := c.tail + 1), DFill([r], 1));
  }

  lemma SoloFill(s0: State, r: nat, p: Pid, d: Did, c: Cr)
    requires Start(s0, r, p, d)
    requires Reaches(s0, Solo(s0, r, p, d, c, PIdle, DIdle))
    ensures Reaches(s0, Solo(s0, r, p, d, c.(tail := c.tail + 1), PIdle, DNotify([r], 0)))
  {
    var c' := c.(tail := c.tail + 1);
    SoloPublish(s0, r, p, d, c);
    SoloFillOne(s0, r, p, d, c);
    assert s0.crs[r := c'][r := c'] == s0.crs[r := c'];
    SoloDispatch(s0, r, p, d, c', DFill([r], 1), c', DNotify([r], 0));
  }

  lemma SoloSkip(s0: State, r: nat, p: Pid, d: Did, c: Cr)
    requires Start(s0, r, p, d) && !c.registered
    requires Reaches(s0, Solo(s0, r, p, d, c, PIdle, DNotify([r], 0)))
    ensures Reaches(s0, Solo(s0, r, p, d, c.(skipped := true), PIdle, DIdle))
  {
    var c' := c.(skipped := true);
    SoloDispatch(s0, r, p, d, c, DNotify([r], 0), c', DNotify([r], 1));
    assert s0.crs[r := c'][r := c'] == s0.crs[r := c'];
    SoloDispatch(s0, r, p, d, c', DNotify([r], 1), c', DIdle);
  }

  /** The failure: everyone is done, the coroutine waits, a message is there, nothing is pending. */
  predicate MissedWakeup(s: State, r: nat)
    requires r < |s.crs|
  {
    AllDispatched(s) && Parked(s.crs[r]) && Unread(s.crs[r]) && s.crs[r].updated
  }

  /** The task is dispatched before its callback is registered (`CreateTask`). If the coroutine parks
      and a message arrives in between, the notifier finds no callback, and the wakeup is missed even
      though the callback is registered afterwards. */
  lemma LateRegistrationMissesWakeup(s0: State, r: nat, p: Pid, d: Did) returns (s: State)
    requires Start(s0, r, p, d) && !s0.crs[r].registered
    ensures Reaches(s0, s) && |s.crs| == |s0.crs| && s.crs[r].registered && MissedWakeup(s, r)
  {
    var c := s0.crs[r].(state := DATA_WAIT);
    FirstRunParks(s0, r, p, d);
    SoloFill(s0, r, p, d, c);
    SoloSkip(s0, r, p, d, c.(tail := 1));
    s := RegisteredTooLate(s0, r, p, d, c.(tail := 1, skipped := true));
  }

  lemma RegisteredTooLate(s0: State, r: nat, p: Pid, d: Did, c: Cr) returns (s: State)
    requires Start(s0, r, p, d) && Reaches(s0, Solo(s0, r, p, d, c, PIdle, DIdle))
    requires Parked(c) && Unread(c) && c.updated
    ensures Reaches(s0, s) && |s.crs| == |s0.crs| && s.crs[r].registered && MissedWakeup(s, r)
  {
    var quiet := Solo(s0, r, p, d, c, PIdle, DIdle);
    ReachesNext(s0, quiet, Register(r));
    s := Next(quiet, Register(r));
  }

  /** A missed coroutine that processors keep looking at in vain. */
  predicate Stuck(s: State, r: nat)
    requires r < |s.crs|
  {
    var c := s.crs[r];
    && c.state == DATA_WAIT && c.loc == AtTop && c.updated && !SomeoneOwes(s, r)
    && (c.runner.Some? && c.runner.value in s.ps ==>
          var q := s.ps[c.runner.value]; q == PTestAndSet(r) || q == PCheck(r) || q == PRelease(r))
  }

  predicate PublishesTo(a: Action, r: nat) {
    a.Publish? && r in a.subs
  }

  predicate NoPublishTo(actions: seq<Action>, r: nat) {
    forall i | 0 <= i < |actions| :: !PublishesTo(actions[i], r)
  }

  lemma StuckNext(s: State, a: Action, r: nat)
    requires Inv(s) && Enabled(s, a) && r < |s.crs| && Stuck(s, r) && !PublishesTo(a, r)
    ensures Stuck(Next(s, a), r) && Next(s, a).crs[r].next == s.crs[r].next
  {
    var s' := Next(s, a);
    if a.DispStep? {
      StuckDispatch(s, a.d, r);
    } else if !a.Publish? {
      SameDispatchers(s, s');
      StuckProcessors(s, a, r);
    }
  }

  lemma StuckDispatch(s: State, d: Did, r: nat)
    requires Inv(s) && Enabled(s, DispStep(d)) && r < |s.crs| && Stuck(s, r)
    ensures Stuck(Next(s, DispStep(d)), r) && Next(s, DispStep(d)).crs[r].next == s.crs[r].next
  {
    var s', q := Next(s, DispStep(d)), s.ds[d];
    assert !Owes(q, r);
    if q.i < |q.subs| { assert q.subs[q.i..] == [q.subs[q.i]] + q.subs[q.i + 1..]; }
    if q.DFill? && q.i == |q.subs| { assert q.subs[0..] == q.subs; }
    assert !Owes(s'.ds[d], r);
    forall e | e in s'.ds ensures !Owes(s'.ds[e], r) { if e != d { assert s'.ds[e] == s.ds[e]; } }
  }

  lemma StuckProcessors(s: State, a: Action, r: nat)
    requires Inv(s) && Enabled(s, a) && r < |s.crs| && Stuck(s, r) && !a.DispStep? && !a.Publish?
    requires !SomeoneOwes(Next(s, a), r)
    ensures Stuck(Next(s, a), r) && Next(s, a).crs[r].next == s.crs[r].next
  {
    if a.ProcStep? || a.Awake? || a.CallbackSleeps? {
      assert s.crs[s.ps[a.p].r].runner == Some(a.p);
    }
  }

  lemma {:induction false} StuckRun(s: State, actions: seq<Action>, r: nat)
    requires Inv(s) && Run(s, actions) && r < |s.crs| && Stuck(s, r)
    ensures NoPublishTo(actions, r) ==> Final(s, actions).crs[r].next == s.crs[r].next
    decreases |actions|
  {
    if actions != [] && NoPublishTo(actions, r) {
      NextInv(s, actions[0]);
      StuckNext(s, actions[0], r);
      StuckRun(Next(s, actions[0]), actions[1..], r);
    }
  }

  /** A missed message is not delivered before another one is published to the coroutine, however long
      the processors run. */
  lemma MissedStaysUnread(s0: State, before: seq<Action>, after: seq<Action>, r: nat)
    requires Init(s0) && r < |s0.crs| && Run(s0, before) && Run(Final(s0, before), after)
    ensures
      var s := Final(s0, before);
      MissedWakeup(s, r) && NoPublishTo(after, r) ==> Final(s, after).crs[r].next == s.crs[r].next
  {
    InitInv(s0);
    RunInv(s0, before);
    if MissedWakeup(Final(s0, before), r) { StuckRun(Final(s0, before), after, r); }
  }

  ghost predicate NeverMisses(s0: State, r: nat)
    requires Shape(s0) && r < |s0.crs|
  {
    forall s | Reaches(s0, s) && |s.crs| == |s0.crs| :: !MissedWakeup(s, r)
  }

  /** Exactly when the protocol is safe: in a system with a processor and a dispatcher, no run ever
      misses a wakeup of coroutine `r` if and only if its callback is registered from the start. */
  lemma SafeIffRegisteredFirst(s0: State, r: nat, p: Pid, d: Did)
    requires Start(s0, r, p, d)
    ensures s0.crs[r].registered <==> NeverMisses(s0, r)
  {
    InitInv(s0);
    if s0.crs[r].registered {
      forall s | Reaches(s0, s) && |s.crs| == |s0.crs|
        ensures !MissedWakeup(s, r)
      {
        var actions :| Run(s0, actions) && Final(s0, actions) == s;
        RegisteredIsNeverSkipped(s0, actions, r);
        NoMissedWakeup(s0, actions, r);
      }
    } else {
      var s := LateRegistrationMissesWakeup(s0, r, p, d);
    }
  }
}
