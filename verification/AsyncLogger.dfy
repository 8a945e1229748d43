/**
 The double-buffered logger: cyber/logger/async_logger.{h,cc}. Any number of threads write and flush; one
 thread swaps the two buffers and writes the messages out without holding the lock. One step per stretch
 of code under the lock and per message written.
 */
module AsyncLogger {

  datatype Msg = Msg(ts: int, text: string)

  /** `overhead` is the size of a message without its text. */
  datatype Config = Config(maxBufferBytes: nat, overhead: nat)

  datatype Buffer = Buffer(messages: seq<Msg>, size: nat, flush: bool)

  const CLEARED := Buffer([], 0, false)

  function Add(b: Buffer, m: Msg, forceFlush: bool, config: Config): Buffer {
    Buffer(b.messages + [m], b.size + config.overhead + |m.text|, b.flush || forceFlush)
  }

  predicate NeedsFlushOrWrite(b: Buffer) {
    b.flush || b.messages != []
  }

  predicate BufferFull(b: Buffer, config: Config) {
    b.size > config.maxBufferBytes / 2
  }

  /** The logging thread. */
  datatype Runner =
    | Top                     // at the head of the outer loop
    | Inner                   // waiting for work
    | Writing(done: nat)      // has written that many messages of the flushing buffer
    | Exited

  /** A thread in Write that found the buffer not full, and is about to take the lock. */
  datatype Writer = Writer(msg: Msg, forceFlush: bool)

  /** A thread waiting in Flush; `goal` is history: how many messages were accepted at the call. */
  datatype Flusher = Flusher(orig: nat, goal: nat)

  datatype State = State(
    running: bool, active: Buffer, flushing: Buffer, flushCount: nat, runner: Runner,
    writers: map<nat, Writer>, flushers: map<nat, Flusher>,
    accepted: seq<Msg>, written: seq<Msg>, synced: nat)
  // History: `accepted` in the order of Write, `written` in the order of the files, and how many of the
  // written messages the last flush of the files covered.

  datatype Action =
    | Check(t: nat, ts: int, text: string, forceFlush: bool) | Accept(t: nat)
    | CallFlush(t: nat) | WakeFlush(t: nat)
    | Stop
    | Loop | Timeout | Swap | WriteOne | EndRound

  predicate Enabled(s: State, a: Action) {
    match a
    case Check(t, _, _, _) => t !in s.writers
    case Accept(t) => t in s.writers
    case CallFlush(t) => t !in s.flushers
    case WakeFlush(t) => t in s.flushers
    case Stop => s.running
    case Loop => s.runner.Top?
    case Timeout => s.runner.Inner? && !NeedsFlushOrWrite(s.active) && s.running
    case Swap => s.runner.Inner? && (NeedsFlushOrWrite(s.active) || !s.running)
    case WriteOne => s.runner.Writing? && s.runner.done < |s.flushing.messages|
    case EndRound => s.runner.Writing? && s.runner.done >= |s.flushing.messages|
  }

  /** Whether a thread woken in Flush returns. */
  predicate Returns(s: State, f: Flusher) {
    !(s.flushCount < f.orig + 2 && s.running)
  }

  function Next(s: State, a: Action, config: Config): State
    requires Enabled(s, a)
  {
    match a
    case Check(t, ts, text, forceFlush) =>
      if BufferFull(s.active, config) then s
      else s.(writers := s.writers[t := Writer(Msg(ts, text), forceFlush)])
    case Accept(t) =>
      var w := s.writers[t];
      var s' := s.(writers := s.writers - {t});
      if s.running then s'.(active := Add(s.active, w.msg, w.forceFlush, config), accepted := s.accepted + [w.msg])
      else s'
    case CallFlush(t) =>
      if !s.running then s
      else s.(flushers := s.flushers[t := Flusher(s.flushCount, |s.accepted|)], active := s.active.(flush := true))
    case WakeFlush(t) =>
      if Returns(s, s.flushers[t]) then s.(flushers := s.flushers - {t})
      else s.(active := s.active.(flush := true))
    case Stop => s.(running := false)
    case Loop => s.(runner := if s.running || NeedsFlushOrWrite(s.active) then Inner else Exited)
    case Timeout => s.(active := s.active.(flush := true))
    case Swap => s.(active := s.flushing, flushing := s.active, runner := Writing(0))
    case WriteOne =>
      s.(written := s.written + [s.flushing.messages[s.runner.done]], runner := Writing(s.runner.done + 1))
    case EndRound =>
      s.(flushing := CLEARED, flushCount := s.flushCount + 1, runner := Top,
         synced := if s.flushing.flush then |s.written| else s.synced)
  }

  /** Right after Start. */
  const STARTED := State(true, CLEARED, CLEARED, 0, Top, map[], map[], [], [], 0)

  predicate Run(s: State, actions: seq<Action>, config: Config)
    decreases |actions|
  {
    actions == [] || (Enabled(s, actions[0]) && Run(Next(s, actions[0], config), actions[1..], config))
  }

  function Final(s: State, actions: seq<Action>, config: Config): State
    requires Run(s, actions, config)
    decreases |actions|
  {
    if actions == [] then s else Final(Next(s, actions[0], config), actions[1..], config)
  }

  // ---------------------------------------------------------------- order

  /** The messages of the flushing buffer that are not written yet. */
  function Unwritten(s: State): seq<Msg>
    requires s.runner.Writing? ==> s.runner.done <= |s.flushing.messages|
  {
    if s.runner.Writing? then s.flushing.messages[s.runner.done..] else s.flushing.messages
  }

  predicate OrderOk(s: State) {
    && (if s.runner.Writing? then s.runner.done <= |s.flushing.messages| else s.flushing == CLEARED)
    && s.written + Unwritten(s) + s.active.messages == s.accepted
    && s.synced <= |s.written|
  }

  predicate StopOk(s: State) {
    s.runner.Exited? ==> !s.running && s.active.messages == []
  }

  lemma OrderOkNext(s: State, a: Action, config: Config)
    requires OrderOk(s) && StopOk(s) && Enabled(s, a)
    ensures OrderOk(Next(s, a, config)) && StopOk(Next(s, a, config))
  {
    match a
    case Accept(t) =>
      if s.running {
        var m := s.writers[t].msg;
        assert s.written + Unwritten(s) + (s.active.messages + [m]) == (s.written + Unwritten(s) + s.active.messages) + [m];
      }
    case Swap =>
      assert s.written + s.active.messages[0..] + [] == s.written + [] + s.active.messages;
    case WriteOne =>
      var k := s.runner.done;
      assert s.flushing.messages[k..] == [s.flushing.messages[k]] + s.flushing.messages[k + 1..];
      assert (s.written + [s.flushing.messages[k]]) + s.flushing.messages[k + 1..] == s.written + s.flushing.messages[k..];
    case EndRound =>
      assert s.flushing.messages[s.runner.done..] == [];
    case Check(_, _, _, _) | CallFlush(_) | WakeFlush(_) | Stop | Loop | Timeout =>
  }

  // ---------------------------------------------------------------- two rounds

  /** Where the flush a thread waits for stands: done; in the round that is being written; or requested of
      the active buffer, with at most one round to finish before that buffer's own. */
  predicate Promised(s: State, f: Flusher)
    requires s.runner.Writing? ==> s.runner.done <= |s.flushing.messages|
  {
    || f.goal <= s.synced
    || (s.runner.Writing? && s.flushing.flush && f.goal <= |s.written| + |Unwritten(s)| && s.flushCount <= f.orig + 1)
    || (s.active.flush && f.goal <= |s.accepted| && s.flushCount <= f.orig + if s.runner.Writing? then 0 else 1)
  }

  predicate FlushersOk(s: State)
    requires s.runner.Writing? ==> s.runner.done <= |s.flushing.messages|
  {
    forall t | t in s.flushers :: Promised(s, s.flushers[t])
  }

  /** Every step of any thread brings the promise no further away. */
  lemma PromisedNext(s: State, a: Action, f: Flusher, config: Config)
    requires OrderOk(s) && StopOk(s) && Enabled(s, a) && Promised(s, f)
    ensures OrderOk(Next(s, a, config)) && Promised(Next(s, a, config), f)
  {
    OrderOkNext(s, a, config);
    assert |s.accepted| == |s.written| + |Unwritten(s)| + |s.active.messages|;
  }

  predicate Inv(s: State) {
    OrderOk(s) && StopOk(s) && FlushersOk(s)
  }

  lemma NextInv(s: State, a: Action, config: Config)
    requires Inv(s) && Enabled(s, a)
    ensures Inv(Next(s, a, config))
  {
    OrderOkNext(s, a, config);
    var s' := Next(s, a, config);
    forall t | t in s'.flushers
      ensures Promised(s', s'.flushers[t])
    {
      if t in s.flushers { PromisedNext(s, a, s.flushers[t], config); }
    }
  }

  lemma {:induction false} RunInv(s: State, actions: seq<Action>, config: Config)
    requires Inv(s) && Run(s, actions, config)
    ensures Inv(Final(s, actions, config))
    decreases |actions|
  {
    if actions != [] {
      NextInv(s, actions[0], config);
      RunInv(Next(s, actions[0], config), actions[1..], config);
    }
  }

  /** Over every run the files hold the accepted messages in order, followed by the two buffers. */
  lemma WrittenInOrderOverEveryRun(actions: seq<Action>, config: Config)
    requires Run(STARTED, actions, config)
    ensures var s := Final(STARTED, actions, config);
            && s.written <= s.accepted
            && OrderOk(s) && s.accepted == s.written + Unwritten(s) + s.active.messages
  {
    RunInv(STARTED, actions, config);
  }

  /** Whatever step makes a thread leave Flush while the logger runs: everything accepted before its call has
      been written, and the files have been flushed after that. */
  lemma FlushReturnsAfterWriting(actions: seq<Action>, config: Config, a: Action, t: nat)
    requires Run(STARTED, actions, config) && Enabled(Final(STARTED, actions, config), a)
    ensures
      var s := Final(STARTED, actions, config);
      s.running && t in s.flushers && t !in Next(s, a, config).flushers ==>
        && s.flushers[t].goal <= s.synced <= |s.written|
        && s.flushers[t].goal <= |s.accepted| && s.accepted[..s.flushers[t].goal] <= s.written
  {
    RunInv(STARTED, actions, config);
    var s := Final(STARTED, actions, config);
    if s.running && t in s.flushers && t !in Next(s, a, config).flushers {
      assert Promised(s, s.flushers[t]);
      var g := s.flushers[t].goal;
      assert s.accepted[..g] == s.written[..g];
    }
  }

  // ---------------------------------------------------------------- a whole call of Flush

  /** How many rounds of the logging thread end in the stretch. */
  function Rounds(actions: seq<Action>): nat {
    if actions == [] then 0 else (if actions[0].EndRound? then 1 else 0) + Rounds(actions[1..])
  }

  lemma {:induction false} RoundsCounted(s: State, actions: seq<Action>, config: Config)
    requires Run(s, actions, config)
    ensures Final(s, actions, config).flushCount == s.flushCount + Rounds(actions)
    ensures s.accepted <= Final(s, actions, config).accepted
    decreases |actions|
  {
    if actions != [] { RoundsCounted(Next(s, actions[0], config), actions[1..], config); }
  }

  /** A thread that is still in Flush at the end, and called it once, is still in that call. */
  lemma {:induction false} FlusherKept(s: State, actions: seq<Action>, config: Config, t: nat)
    requires Run(s, actions, config) && forall i | 0 <= i < |actions| :: actions[i] != CallFlush(t)
    ensures t in Final(s, actions, config).flushers ==>
              t in s.flushers && Final(s, actions, config).flushers[t] == s.flushers[t]
    decreases |actions|
  {
    if actions != [] {
      assert actions[0] != CallFlush(t);
      FlusherKept(Next(s, actions[0], config), actions[1..], config, t);
    }
  }

  /** A whole call of Flush, whatever the other threads do during it: woken while the logger runs, the
      thread returns if and only if two rounds have ended since the call, and then everything that was
      accepted before the call is written and flushed to the files. A stopped logger lets it go at once. */
  lemma FlushWaitsForTwoRounds(before: seq<Action>, between: seq<Action>, config: Config, t: nat)
    requires Run(STARTED, before, config) && Final(STARTED, before, config).running
    requires t !in Final(STARTED, before, config).flushers
    requires Run(Next(Final(STARTED, before, config), CallFlush(t), config), between, config)
    requires forall i | 0 <= i < |between| :: between[i] != CallFlush(t)
    ensures
      var s1 := Final(STARTED, before, config);
      var s2 := Final(Next(s1, CallFlush(t), config), between, config);
      t in Next(s1, CallFlush(t), config).flushers && (t in s2.flushers ==>
        && (t !in Next(s2, WakeFlush(t), config).flushers <==> Rounds(between) >= 2 || !s2.running)
        && (Rounds(between) >= 2 ==> |s1.accepted| <= s2.synced && s1.accepted <= s2.written))
  {
    RunInv(STARTED, before, config);
    var s1 := Final(STARTED, before, config);
    FlushCall(s1, between, config, t);
    var s2 := Final(Next(s1, CallFlush(t), config), between, config);
    if t in s2.flushers {
      Woken(s2, config, t);
      if Rounds(between) >= 2 { SyncedPrefix(s2, s1.accepted); }
    }
  }

  /** What the call leaves in the state as long as it lasts. */
  lemma FlushCall(s1: State, between: seq<Action>, config: Config, t: nat)
    requires Inv(s1) && s1.running && t !in s1.flushers && Run(Next(s1, CallFlush(t), config), between, config)
    requires forall i | 0 <= i < |between| :: between[i] != CallFlush(t)
    ensures
      var s2 := Final(Next(s1, CallFlush(t), config), between, config);
      && Inv(s2) && s2.flushCount == s1.flushCount + Rounds(between) && s1.accepted <= s2.accepted
      && (t in s2.flushers ==> s2.flushers[t] == Flusher(s1.flushCount, |s1.accepted|))
  {
    var s := Next(s1, CallFlush(t), config);
    NextInv(s1, CallFlush(t), config);
    RunInv(s, between, config);
    RoundsCounted(s, between, config);
    FlusherKept(s, between, config, t);
  }

  lemma Woken(s: State, config: Config, t: nat)
    requires Inv(s) && t in s.flushers
    ensures
      var f := s.flushers[t];
      && (t !in Next(s, WakeFlush(t), config).flushers <==> s.flushCount >= f.orig + 2 || !s.running)
      && (s.flushCount >= f.orig + 2 ==> f.goal <= s.synced)
  {
    assert Promised(s, s.flushers[t]);
  }

  lemma SyncedPrefix(s: State, early: seq<Msg>)
    requires OrderOk(s) && early <= s.accepted && |early| <= s.synced
    ensures early <= s.written
  {
    assert s.accepted[..|early|] == early;
    assert s.written <= s.accepted;
  }

  /** Once a flush is asked of the active buffer, two rounds bring everything accepted so far to the files. */
  lemma RequestIsHonoured(s: State, after: seq<Action>, config: Config)
    requires Inv(s) && s.active.flush && Run(s, after, config)
    ensures
      var s2 := Final(s, after, config);
      Rounds(after) >= 2 ==> |s.accepted| <= s2.synced && s.accepted <= s2.written
  {
    RunInv(s, after, config);
    RoundsCounted(s, after, config);
    PromisedRun(s, after, Flusher(s.flushCount, |s.accepted|), config);
    if Rounds(after) >= 2 { SyncedPrefix(Final(s, after, config), s.accepted); }
  }

  /** So a message written with force_flush is on disk after two rounds, without any call of Flush, and so is
      everything accepted when the logging thread's wait times out. */
  lemma ForcedIsFlushed(before: seq<Action>, after: seq<Action>, config: Config, a: Action)
    requires Run(STARTED, before, config) && Enabled(Final(STARTED, before, config), a)
    requires
      var s1 := Final(STARTED, before, config);
      && (a.Timeout? || (a.Accept? && s1.running && s1.writers[a.t].forceFlush))
      && Run(Next(s1, a, config), after, config)
    ensures
      var s1 := Final(STARTED, before, config);
      var accepted := s1.accepted + if a.Accept? then [s1.writers[a.t].msg] else [];
      var s2 := Final(Next(s1, a, config), after, config);
      Rounds(after) >= 2 ==> |accepted| <= s2.synced && accepted <= s2.written
  {
    var s1 := Final(STARTED, before, config);
    RunInv(STARTED, before, config);
    NextInv(s1, a, config);
    assert s1.accepted + [] == s1.accepted;
    RequestIsHonoured(Next(s1, a, config), after, config);
  }

  lemma {:induction false} PromisedRun(s: State, actions: seq<Action>, f: Flusher, config: Config)
    requires Inv(s) && Run(s, actions, config) && Promised(s, f)
    ensures OrderOk(Final(s, actions, config)) && Promised(Final(s, actions, config), f)
    decreases |actions|
  {
    if actions != [] {
      NextInv(s, actions[0], config);
      PromisedNext(s, actions[0], f, config);
      PromisedRun(Next(s, actions[0], config), actions[1..], f, config);
    }
  }

  lemma {:induction false} RequestStays(s: State, actions: seq<Action>, config: Config)
    requires s.active.flush && Run(s, actions, config) && forall i | 0 <= i < |actions| :: !actions[i].Swap?
    ensures Final(s, actions, config).active.flush
    decreases |actions|
  {
    if actions != [] {
      assert !actions[0].Swap?;
      RequestStays(Next(s, actions[0], config), actions[1..], config);
    }
  }

  /** A thread that is woken in Flush and has to go on waiting has asked for another round: until the buffers are
      swapped the logging thread can always go on to write, and does not have to wait for its timeout. */
  lemma WaiterNeedsNoTimeout(s: State, t: nat, actions: seq<Action>, config: Config)
    requires Enabled(s, WakeFlush(t)) && t in Next(s, WakeFlush(t), config).flushers
    requires Run(Next(s, WakeFlush(t), config), actions, config) && forall i | 0 <= i < |actions| :: !actions[i].Swap?
    ensures
      var s' := Final(Next(s, WakeFlush(t), config), actions, config);
      !Enabled(s', Timeout) && (s'.runner.Inner? ==> Enabled(s', Swap))
  {
    RequestStays(Next(s, WakeFlush(t), config), actions, config);
  }

  /** When Stop has joined the thread, both buffers are empty and every accepted message was written. */
  lemma StoppedIsEmpty(actions: seq<Action>, config: Config)
    requires Run(STARTED, actions, config) && Final(STARTED, actions, config).runner.Exited?
    ensures var s := Final(STARTED, actions, config);
            s.active.messages == [] && s.flushing.messages == [] && s.written == s.accepted
  {
    RunInv(STARTED, actions, config);
    var s := Final(STARTED, actions, config);
    assert s.written + [] + [] == s.written;
  }

  // ---------------------------------------------------------------- stopping

  predicate ByRunner(a: Action) {
    a.Loop? || a.Timeout? || a.Swap? || a.WriteOne? || a.EndRound?
  }

  function RunnerSteps(actions: seq<Action>): nat {
    if actions == [] then 0 else (if ByRunner(actions[0]) then 1 else 0) + RunnerSteps(actions[1..])
  }

  /** The logging thread is never stuck: until it has ended, it always has a step to make. */
  lemma RunnerNeverStuck(s: State) returns (a: Action)
    requires !s.runner.Exited?
    ensures ByRunner(a) && Enabled(s, a)
  {
    match s.runner {
      case Top => a := Loop;
      case Inner => a := if NeedsFlushOrWrite(s.active) || !s.running then Swap else Timeout;
      case Writing(done) => a := if done < |s.flushing.messages| then WriteOne else EndRound;
    }
  }

  /** How many steps the logging thread of a stopped logger has left. */
  function Work(s: State): int {
    var top := if NeedsFlushOrWrite(s.active) then 4 + |s.active.messages| else 1;
    match s.runner
    case Exited => 0
    case Top => top
    case Inner => 3 + |s.active.messages|
    case Writing(done) => |s.flushing.messages| - done + 1 + top
  }

  lemma WorkNext(s: State, a: Action, config: Config)
    requires Inv(s) && !s.running && Enabled(s, a)
    ensures !Next(s, a, config).running && Next(s, a, config).accepted == s.accepted
    ensures Work(Next(s, a, config)) == Work(s) - if ByRunner(a) then 1 else 0
    ensures s.runner.Exited? ==> !ByRunner(a) && Next(s, a, config).runner.Exited?
  {
  }

  lemma {:induction false} WorkEnds(s: State, actions: seq<Action>, config: Config)
    requires Inv(s) && !s.running && Run(s, actions, config)
    ensures
      var s' := Final(s, actions, config);
      && !s'.running && s'.accepted == s.accepted && RunnerSteps(actions) <= Work(s)
      && (RunnerSteps(actions) == Work(s) ==> s'.runner.Exited?)
    decreases |actions|
  {
    if actions != [] {
      NextInv(s, actions[0], config);
      WorkNext(s, actions[0], config);
      WorkEnds(Next(s, actions[0], config), actions[1..], config);
    }
  }

  /** After Stop nothing more is accepted, and the logging thread ends after exactly as many steps of its own as
      there is work in the buffers, whatever other threads do meanwhile; by then all is written. */
  lemma StopEnds(before: seq<Action>, after: seq<Action>, config: Config)
    requires Run(STARTED, before, config) && Final(STARTED, before, config).running
    requires Run(Next(Final(STARTED, before, config), Stop, config), after, config)
    ensures
      var s1 := Next(Final(STARTED, before, config), Stop, config);
      var s2 := Final(s1, after, config);
      && !s2.running && s2.accepted == Final(STARTED, before, config).accepted && RunnerSteps(after) <= Work(s1)
      && (RunnerSteps(after) == Work(s1) ==> s2.runner.Exited? && s2.written == s2.accepted)
  {
    RunInv(STARTED, before, config);
    var s := Final(STARTED, before, config);
    NextInv(s, Stop, config);
    var s1 := Next(s, Stop, config);
    WorkEnds(s1, after, config);
    RunInv(s1, after, config);
    var s2 := Final(s1, after, config);
    assert s2.runner.Exited? ==> s2.written + [] + [] == s2.written;
  }

  // ---------------------------------------------------------------- dropping

  /** What a buffer is charged for its messages. */
  function Bytes(ms: seq<Msg>, config: Config): nat {
    if ms == [] then 0 else Bytes(ms[..|ms| - 1], config) + config.overhead + |ms[|ms| - 1].text|
  }

  predicate SizesOk(s: State, config: Config) {
    && s.active.size == Bytes(s.active.messages, config)
    && s.flushing.size == Bytes(s.flushing.messages, config)
  }

  lemma SizesOkNext(s: State, a: Action, config: Config)
    requires SizesOk(s, config) && Enabled(s, a)
    ensures SizesOk(Next(s, a, config), config)
  {
    if a.Accept? {
      assert (s.active.messages + [s.writers[a.t].msg])[..|s.active.messages|] == s.active.messages;
    }
  }

  lemma {:induction false} SizesOkRun(s: State, actions: seq<Action>, config: Config)
    requires SizesOk(s, config) && Run(s, actions, config)
    ensures SizesOk(Final(s, actions, config), config)
    decreases |actions|
  {
    if actions != [] {
      SizesOkNext(s, actions[0], config);
      SizesOkRun(Next(s, actions[0], config), actions[1..], config);
    }
  }

  /** Over every run a message is dropped at the check if and only if the messages waiting in the active
      buffer take more than half of the space; otherwise its thread goes on to add it. */
  lemma DroppedIffHalfFull(actions: seq<Action>, config: Config, t: nat, ts: int, text: string, forceFlush: bool)
    requires Run(STARTED, actions, config) && t !in Final(STARTED, actions, config).writers
    ensures
      var s := Final(STARTED, actions, config);
      var s' := Next(s, Check(t, ts, text, forceFlush), config);
      if Bytes(s.active.messages, config) > config.maxBufferBytes / 2 then s' == s
      else t in s'.writers && s'.writers[t] == Writer(Msg(ts, text), forceFlush)
  {
    SizesOkRun(STARTED, actions, config);
  }

  predicate IsOf(a: Action, t: nat) {
    (a.Check? || a.Accept?) && a.t == t
  }

  lemma {:induction false} WriterKept(s: State, actions: seq<Action>, config: Config, t: nat)
    requires Run(s, actions, config) && forall i | 0 <= i < |actions| :: !IsOf(actions[i], t)
    ensures
      var s' := Final(s, actions, config);
      (t in s'.writers <==> t in s.writers) && (t in s.writers ==> s'.writers[t] == s.writers[t])
    decreases |actions|
  {
    if actions != [] {
      WriterKept(Next(s, actions[0], config), actions[1..], config, t);
    }
  }

  /** A whole call of Write, whatever happens between its check and its lock: the message is accepted if
      and only if the buffer was not too full at the check and the logger still runs under the lock. */
  lemma WriteIsAcceptedIff(
      before: seq<Action>, between: seq<Action>, config: Config, t: nat, ts: int, text: string, forceFlush: bool)
    requires Run(STARTED, before, config) && t !in Final(STARTED, before, config).writers
    requires Run(Next(Final(STARTED, before, config), Check(t, ts, text, forceFlush), config), between, config)
    requires forall i | 0 <= i < |between| :: !IsOf(between[i], t)
    ensures
      var s1 := Final(STARTED, before, config);
      var s2 := Final(Next(s1, Check(t, ts, text, forceFlush), config), between, config);
      if Bytes(s1.active.messages, config) > config.maxBufferBytes / 2 then t !in s2.writers
      else
        && t in s2.writers
        && Next(s2, Accept(t), config).accepted == s2.accepted + if s2.running then [Msg(ts, text)] else []
  {
    DroppedIffHalfFull(before, config, t, ts, text, forceFlush);
    var s1 := Final(STARTED, before, config);
    WriterKept(Next(s1, Check(t, ts, text, forceFlush), config), between, config, t);
  }

  // ---------------------------------------------------------------- why two rounds

  lemma RunStep(s: State, a: Action, rest: seq<Action>, config: Config)
    requires Enabled(s, a) && Run(Next(s, a, config), rest, config)
    ensures Run(s, [a] + rest, config) && Final(s, [a] + rest, config) == Final(Next(s, a, config), rest, config)
  {
    assert ([a] + rest)[1..] == rest;
  }

  /** The files are flushed at the end of a round that a flush was asked of, then with all that is written, and
      at no other step. */
  lemma FilesFlushedOnlyWhenAsked(s: State, a: Action, config: Config)
    requires OrderOk(s) && Enabled(s, a)
    ensures
      var s' := Next(s, a, config);
      && (a.EndRound? && s.flushing.flush ==> s'.synced == |s'.written| && s'.written == s.written)
      && (!(a.EndRound? && s.flushing.flush) ==> s'.synced == s.synced)
  {
  }

  /** Waiting for one round would not do: the round under way at the call may leave messages behind. */
  lemma OneRoundIsNotEnough(config: Config) returns (actions: seq<Action>)
    ensures Run(STARTED, actions, config)
    ensures var s := Final(STARTED, actions, config);
            0 in s.flushers && s.flushCount == s.flushers[0].orig + 1 && s.flushers[0].goal > |s.written|
  {
    var c := Check(0, 0, "", false);
    var s1 := Next(STARTED, c, config);
    var s2 := Next(s1, Accept(0), config);
    var s3 := Next(s2, Loop, config);
    var s4 := Next(s3, Swap, config);
    var s5 := Next(s4, c, config);
    var s6 := Next(s5, Accept(0), config);
    var s7 := Next(s6, CallFlush(0), config);
    var s8 := Next(s7, WriteOne, config);
    RunStep(s8, EndRound, [], config);
    var a8 := [EndRound] + [];
    RunStep(s7, WriteOne, a8, config);
    var a7 := [WriteOne] + a8;
    RunStep(s6, CallFlush(0), a7, config);
    var a6 := [CallFlush(0)] + a7;
    RunStep(s5, Accept(0), a6, config);
    var a5 := [Accept(0)] + a6;
    RunStep(s4, c, a5, config);
    var a4 := [c] + a5;
    RunStep(s3, Swap, a4, config);
    var a3 := [Swap] + a4;
    RunStep(s2, Loop, a3, config);
    var a2 := [Loop] + a3;
    RunStep(s1, Accept(0), a2, config);
    RunStep(STARTED, c, [Accept(0)] + a2, config);
    actions := [c] + ([Accept(0)] + a2);
  }
}
