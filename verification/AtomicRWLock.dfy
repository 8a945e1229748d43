/**
 The writer-preferring spin lock of cyber/base/atomic_rw_lock.h as a transition system:
 one atomic access per step, any number of threads, weak compare-and-swap.
 */
module AtomicRWLock {

  type Tid = nat

  const RW_LOCK_FREE := 0
  const WRITE_EXCLUSIVE := -1

  datatype Pc =
    | Idle
    | RLoad
    | RTest(lockNum: int)
    | RCas(lockNum: int)
    | RHeld
    | WRegister
    | WCas
    | WUnregister
    | WHeld

  datatype State = State(lockNum: int, waitNum: int, writeFirst: bool, pcs: map<Tid, Pc>)

  datatype Action =
    | BeginRead(t: Tid)
    | BeginWrite(t: Tid)
    | Unlock(t: Tid)
    | Step(t: Tid)
    | WeakFail(t: Tid)

  predicate Init(s: State) {
    && s.lockNum == RW_LOCK_FREE && s.waitNum == 0
    && (forall t | t in s.pcs :: s.pcs[t] == Idle)
  }

  predicate Enabled(s: State, a: Action) {
    && a.t in s.pcs
    && match a
       case BeginRead(t) => s.pcs[t] == Idle
       case BeginWrite(t) => s.pcs[t] == Idle
       case Unlock(t) => s.pcs[t] == RHeld || s.pcs[t] == WHeld
       case Step(t) => s.pcs[t] != Idle && s.pcs[t] != RHeld && s.pcs[t] != WHeld
       case WeakFail(t) => s.pcs[t].RCas? || s.pcs[t].WCas?
  }

  function Goto(s: State, t: Tid, pc: Pc): State {
    s.(pcs := s.pcs[t := pc])
  }

  function Next(s: State, a: Action): State
    requires Enabled(s, a)
  {
    match a
    case BeginRead(t) => Goto(s, t, RLoad)
    case BeginWrite(t) => Goto(s, t, WRegister)
    case Unlock(t) =>
      Goto(s, t, Idle).(lockNum := if s.pcs[t] == RHeld then s.lockNum - 1 else s.lockNum + 1)
    case Step(t) => StepThread(s, t, s.pcs[t])
    case WeakFail(t) => if s.pcs[t].RCas? then Goto(s, t, RTest(s.lockNum)) else s
  }

  function StepThread(s: State, t: Tid, pc: Pc): State
    requires t in s.pcs && s.pcs[t] == pc && pc != Idle && pc != RHeld && pc != WHeld
  {
    match pc
    case RLoad => Goto(s, t, RTest(s.lockNum))
    case RTest(n) =>
      if n < RW_LOCK_FREE || (s.writeFirst && s.waitNum > 0) then Goto(s, t, RLoad)
      else Goto(s, t, RCas(n))
    case RCas(n) =>
      if s.lockNum == n then Goto(s, t, RHeld).(lockNum := n + 1) else Goto(s, t, RTest(s.lockNum))
    case WRegister => Goto(s, t, WCas).(waitNum := s.waitNum + 1)
    case WCas =>
      if s.lockNum == RW_LOCK_FREE then Goto(s, t, WUnregister).(lockNum := WRITE_EXCLUSIVE) else s
    case WUnregister => Goto(s, t, WHeld).(waitNum := s.waitNum - 1)
  }

  // ---------------------------------------------------------------- invariant

  function Readers(s: State): set<Tid> {
    set t | t in s.pcs && s.pcs[t] == RHeld
  }

  function Writers(s: State): set<Tid> {
    set t | t in s.pcs && (s.pcs[t] == WUnregister || s.pcs[t] == WHeld)
  }

  function Registered(s: State): set<Tid> {
    set t | t in s.pcs && (s.pcs[t] == WCas || s.pcs[t] == WUnregister)
  }

  predicate Inv(s: State) {
    && |Writers(s)| <= 1
    && s.lockNum == (if Writers(s) == {} then |Readers(s)| else WRITE_EXCLUSIVE)
    && (Writers(s) != {} ==> Readers(s) == {})
    && s.waitNum == |Registered(s)|
    && (forall t | t in s.pcs && s.pcs[t].RCas? :: s.pcs[t].lockNum >= 0)
  }

  lemma InitInv(s: State)
    requires Init(s)
    ensures Inv(s)
  {
    assert Readers(s) == {} && Writers(s) == {} && Registered(s) == {};
  }

  function One(b: bool): nat {
    if b then 1 else 0
  }

  predicate Writes(pc: Pc) {
    pc == WUnregister || pc == WHeld
  }

  predicate Waits(pc: Pc) {
    pc == WCas || pc == WUnregister
  }

  /** How the three counts change when thread `t` moves from one program counter to another. */
  lemma CountsAfter(s: State, t: Tid, pc: Pc, s': State)
    requires t in s.pcs && s'.pcs == s.pcs[t := pc]
    ensures |Readers(s')| == |Readers(s)| + One(pc == RHeld) - One(s.pcs[t] == RHeld)
    ensures |Writers(s')| == |Writers(s)| + One(Writes(pc)) - One(Writes(s.pcs[t]))
    ensures |Registered(s')| == |Registered(s)| + One(Waits(pc)) - One(Waits(s.pcs[t]))
  {
    Moves(Readers(s), Readers(s'), t, pc == RHeld);
    Moves(Writers(s), Writers(s'), t, Writes(pc));
    Moves(Registered(s), Registered(s'), t, Waits(pc));
  }

  lemma Moves(xs: set<Tid>, ys: set<Tid>, t: Tid, now: bool)
    requires (forall u | u != t :: u in xs <==> u in ys) && (t in ys <==> now)
    ensures |ys| == |xs| + One(now) - One(t in xs)
  {
    assert ys == if now then xs + {t} else xs - {t};
  }

  lemma NextInv(s: State, a: Action)
    requires Inv(s) && Enabled(s, a)
    ensures Inv(Next(s, a))
  {
    var s' := Next(s, a);
    CountsAfter(s, a.t, s'.pcs[a.t], s');
    assert s.pcs[a.t] == RHeld ==> a.t in Readers(s);
    assert Writes(s.pcs[a.t]) ==> a.t in Writers(s);
  }

  // ---------------------------------------------------------------- whole runs

  ghost predicate Run(s: State, actions: seq<Action>)
    decreases |actions|
  {
    actions == [] || (Enabled(s, actions[0]) && Run(Next(s, actions[0]), actions[1..]))
  }

  ghost function Final(s: State, actions: seq<Action>): State
    requires Run(s, actions)
    decreases |actions|
  {
    if actions == [] then s else Final(Next(s, actions[0]), actions[1..])
  }

  lemma {:induction false} RunInv(s: State, actions: seq<Action>)
    requires Inv(s) && Run(s, actions)
    ensures Inv(Final(s, actions))
    decreases |actions|
  {
    if actions != [] {
      NextInv(s, actions[0]);
      RunInv(Next(s, actions[0]), actions[1..]);
    }
  }

  /** Over every run: two holders of which one writes are the same thread, and the counter tells
      exactly who is inside. */
  lemma WritersExcludeEveryone(s0: State, actions: seq<Action>)
    requires Init(s0) && Run(s0, actions)
    ensures
      var s := Final(s0, actions);
      && (s.lockNum == WRITE_EXCLUSIVE <==> |Writers(s)| == 1 && Readers(s) == {})
      && (s.lockNum != WRITE_EXCLUSIVE <==> Writers(s) == {} && s.lockNum == |Readers(s)|)
      && (forall w, t | w in Writers(s) && t in Writers(s) + Readers(s) :: w == t)
      && s.waitNum == |Registered(s)|
  {
    InitInv(s0);
    RunInv(s0, actions);
    var s := Final(s0, actions);
    if Writers(s) != {} {
      var w :| w in Writers(s);
      assert |Writers(s) - {w}| == 0;
      assert Writers(s) == {w};
    }
  }

  /** A waiting writer gets in exactly when nobody is inside. */
  lemma WriterEntersIffFree(s: State, w: Tid)
    requires Inv(s) && w in s.pcs && s.pcs[w] == WCas
    ensures Next(s, Step(w)).pcs[w] == WUnregister <==> Readers(s) == {} && Writers(s) == {}
  {
  }

  /** A reader past the check gets in exactly when the count has not moved since it looked. */
  lemma ReaderEntersIffUnmoved(s: State, t: Tid)
    requires Inv(s) && t in s.pcs && s.pcs[t].RCas?
    ensures Next(s, Step(t)).pcs[t] == RHeld <==> s.lockNum == s.pcs[t].lockNum
    ensures Next(s, Step(t)).pcs[t] == RHeld ==> Writers(s) == {}
  {
  }

  /** The readers already past the check of the registered-writer count. */
  function PastCheck(s: State): set<Tid> {
    set t | t in s.pcs && s.pcs[t].RCas?
  }

  /** The readers that get in during the run, in order. */
  ghost function Entered(s: State, actions: seq<Action>): seq<Tid>
    requires Run(s, actions)
    decreases |actions|
  {
    if actions == [] then [] else
      var s' := Next(s, actions[0]);
      var t := actions[0].t;
      (if s.pcs[t] != RHeld && s'.pcs[t] == RHeld then [t] else []) + Entered(s', actions[1..])
  }

  ghost predicate WaitsThroughout(s: State, actions: seq<Action>, w: Tid)
    requires Run(s, actions)
    decreases |actions|
  {
    && w in s.pcs && s.pcs[w] == WCas
    && (actions == [] || WaitsThroughout(Next(s, actions[0]), actions[1..], w))
  }

  lemma RegisteredWriterStopsNewReaders(s: State, a: Action, w: Tid)
    requires Inv(s) && s.writeFirst && Enabled(s, a) && w in s.pcs && s.pcs[w] == WCas
    ensures PastCheck(Next(s, a)) <= PastCheck(s)
    ensures s.pcs[a.t] != RHeld && Next(s, a).pcs[a.t] == RHeld ==>
              a.t in PastCheck(s) && a.t !in PastCheck(Next(s, a))
  {
    assert w in Registered(s);
  }

  predicate OnceEach(ts: seq<Tid>, among: set<Tid>) {
    && (forall i | 0 <= i < |ts| :: ts[i] in among)
    && (forall i, j | 0 <= i < j < |ts| :: ts[i] != ts[j])
  }

  /** Writer preference, over every stretch of every run during which a registered writer waits:
      only readers that had already passed the check when it began get in, each at most once. */
  lemma {:induction false} WriterPreference(s: State, actions: seq<Action>, w: Tid)
    requires Inv(s) && s.writeFirst && Run(s, actions) && WaitsThroughout(s, actions, w)
    ensures OnceEach(Entered(s, actions), PastCheck(s)) && |Entered(s, actions)| <= |PastCheck(s)|
    decreases |actions|
  {
    if actions != [] {
      var a := actions[0];
      var s' := Next(s, a);
      NextInv(s, a);
      RegisteredWriterStopsNewReaders(s, a, w);
      WriterPreference(s', actions[1..], w);
      OneMore(if s.pcs[a.t] != RHeld && s'.pcs[a.t] == RHeld then [a.t] else [], Entered(s', actions[1..]),
              PastCheck(s'), PastCheck(s));
    }
  }

  lemma OneMore(first: seq<Tid>, rest: seq<Tid>, past': set<Tid>, past: set<Tid>)
    requires OnceEach(rest, past') && |rest| <= |past'| && past' <= past
    requires |first| <= 1 && (first != [] ==> first[0] in past && first[0] !in past')
    ensures OnceEach(first + rest, past) && |first + rest| <= |past|
  {
    if first == [] { SubsetSize(past', past); } else { SubsetSize(past', past - {first[0]}); }
  }

  lemma {:induction false} SubsetSize(a: set<Tid>, b: set<Tid>)
    requires a <= b
    ensures |a| <= |b|
  {
    if a != {} {
      var x :| x in a;
      SubsetSize(a - {x}, b - {x});
    }
  }

  // ---------------------------------------------------------------- whole calls

  /** Inside ReadLock. */
  predicate Reading(pc: Pc) {
    pc.RLoad? || pc.RTest? || pc.RCas?
  }

  /** Inside WriteLock. */
  predicate Writing(pc: Pc) {
    pc.WRegister? || pc.WCas? || pc.WUnregister?
  }

  ghost predicate NeverUnlocks(actions: seq<Action>, t: Tid) {
    forall i | 0 <= i < |actions| :: actions[i] != Unlock(t)
  }

  lemma {:induction false} StaysInside(s: State, actions: seq<Action>, t: Tid)
    requires t in s.pcs && Run(s, actions) && NeverUnlocks(actions, t) && s.pcs[t] != Idle
    ensures t in Final(s, actions).pcs
    ensures Reading(s.pcs[t]) || s.pcs[t].RHeld? ==>
              Reading(Final(s, actions).pcs[t]) || Final(s, actions).pcs[t].RHeld?
    ensures Writing(s.pcs[t]) || s.pcs[t].WHeld? ==>
              Writing(Final(s, actions).pcs[t]) || Final(s, actions).pcs[t].WHeld?
    decreases |actions|
  {
    if actions != [] {
      assert actions[0] != Unlock(t);
      StaysInside(Next(s, actions[0]), actions[1..], t);
    }
  }

  /** A lock call returns only with its lock: until it unlocks, a thread that called ReadLock is on its way in
      or holds the lock for reading, and one that called WriteLock is on its way in or holds it for writing. */
  lemma LockCallsEndInside(s: State, t: Tid, actions: seq<Action>)
    requires t in s.pcs && s.pcs[t] == Idle && NeverUnlocks(actions, t)
    ensures Run(Next(s, BeginRead(t)), actions) ==>
              var s' := Final(Next(s, BeginRead(t)), actions);
              t in s'.pcs && (Reading(s'.pcs[t]) || t in Readers(s'))
    ensures Run(Next(s, BeginWrite(t)), actions) ==>
              var s' := Final(Next(s, BeginWrite(t)), actions);
              t in s'.pcs && (Writing(s'.pcs[t]) || t in Writers(s'))
  {
    if Run(Next(s, BeginRead(t)), actions) { StaysInside(Next(s, BeginRead(t)), actions, t); }
    if Run(Next(s, BeginWrite(t)), actions) { StaysInside(Next(s, BeginWrite(t)), actions, t); }
  }

  /** An unlock ends it: the thread is no longer inside and in no call, everybody else stays where they are, and
      the lock is free again exactly if nobody else is inside. */
  lemma UnlockLetsGo(s: State, t: Tid)
    requires Inv(s) && Enabled(s, Unlock(t))
    ensures
      var s' := Next(s, Unlock(t));
      && t in s'.pcs && !Reading(s'.pcs[t]) && !Writing(s'.pcs[t])
      && Readers(s') == Readers(s) - {t} && Writers(s') == Writers(s) - {t} && Registered(s') == Registered(s)
      && (s'.lockNum == RW_LOCK_FREE <==> Readers(s') == {} && Writers(s') == {})
  {
    var s' := Next(s, Unlock(t));
    NextInv(s, Unlock(t));
    FreeIffNobodyInside(s');
    MovesOut(s, s', t);
  }

  lemma FreeIffNobodyInside(s: State)
    requires Inv(s)
    ensures s.lockNum == RW_LOCK_FREE <==> Readers(s) == {} && Writers(s) == {}
  {
  }

  lemma MovesOut(s: State, s': State, t: Tid)
    requires t in s.pcs && !Waits(s.pcs[t]) && s'.pcs == s.pcs[t := Idle]
    ensures Readers(s') == Readers(s) - {t} && Writers(s') == Writers(s) - {t} && Registered(s') == Registered(s)
  {
  }

  // ---------------------------------------------------------------- progress

  function OwnSteps(actions: seq<Action>, t: Tid): nat {
    if actions == [] then 0 else One(actions[0] == Step(t)) + OwnSteps(actions[1..], t)
  }

  function WeakFails(actions: seq<Action>, t: Tid): nat {
    if actions == [] then 0 else One(actions[0] == WeakFail(t)) + WeakFails(actions[1..], t)
  }

  /** How often the count of the lock changes. */
  ghost function Changes(s: State, actions: seq<Action>): nat
    requires Run(s, actions)
    decreases |actions|
  {
    if actions == [] then 0
    else
      var s' := Next(s, actions[0]);
      One(s'.lockNum != s.lockNum) + Changes(s', actions[1..])
  }

  /** No writer is inside and, where writers go first, none waits. */
  predicate OpenToReaders(s: State) {
    s.lockNum >= RW_LOCK_FREE && (s.writeFirst ==> s.waitNum == 0)
  }

  ghost predicate ReadsOpenly(s: State, actions: seq<Action>, t: Tid)
    requires Run(s, actions)
    decreases |actions|
  {
    && t in s.pcs && Reading(s.pcs[t]) && OpenToReaders(s)
    && (actions == [] || ReadsOpenly(Next(s, actions[0]), actions[1..], t))
  }

  /** How many steps of its own a reader needs if the count stays as it is. */
  function Ahead(s: State, pc: Pc): nat {
    match pc
    case RLoad => 3
    case RTest(n) => if n == s.lockNum then 2 else 4
    case RCas(n) => if n == s.lockNum then 1 else 3
    case _ => 0
  }

  lemma AheadNext(s: State, a: Action, t: Tid)
    requires Enabled(s, a) && t in s.pcs && Reading(s.pcs[t]) && OpenToReaders(s)
    ensures
      var s' := Next(s, a);
      && t in s'.pcs
      && Ahead(s', s'.pcs[t]) + One(a == Step(t))
         <= Ahead(s, s.pcs[t]) + One(a == WeakFail(t)) + 2 * One(s'.lockNum != s.lockNum)
  {
  }

  /** While the lock is open to readers, a reader that has not got in yet has made fewer than four steps, and two
      more for every change of the count, and one more for every compare-and-swap that failed for no reason.
      So it waits only for writers, and otherwise only while others get in or out. */
  lemma {:induction false} ReaderGetsIn(s: State, actions: seq<Action>, t: Tid)
    requires Run(s, actions) && ReadsOpenly(s, actions, t)
    ensures OwnSteps(actions, t) < Ahead(s, s.pcs[t]) + WeakFails(actions, t) + 2 * Changes(s, actions)
    decreases |actions|
  {
    if actions != [] {
      AheadNext(s, actions[0], t);
      ReaderGetsIn(Next(s, actions[0]), actions[1..], t);
    }
  }

  ghost predicate WritesAlone(s: State, actions: seq<Action>, w: Tid)
    requires Run(s, actions)
    decreases |actions|
  {
    && w in s.pcs && Writing(s.pcs[w]) && (Readers(s) == {} && Writers(s) <= {w})
    && (actions == [] || WritesAlone(Next(s, actions[0]), actions[1..], w))
  }

  function WriterAhead(pc: Pc): nat {
    match pc
    case WRegister => 3
    case WCas => 2
    case WUnregister => 1
    case _ => 0
  }

  /** A writer that nobody inside keeps out is in after three steps of its own, whatever the other waiting
      threads do. A compare-and-swap that fails for no reason does not count as a step. */
  lemma {:induction false} WriterGetsIn(s: State, actions: seq<Action>, w: Tid)
    requires Inv(s) && Run(s, actions) && WritesAlone(s, actions, w)
    ensures OwnSteps(actions, w) < WriterAhead(s.pcs[w])
    decreases |actions|
  {
    if actions != [] {
      NextInv(s, actions[0]);
      if s.pcs[w].WCas? { assert w !in Writers(s); assert Writers(s) == {}; }
      WriterGetsIn(Next(s, actions[0]), actions[1..], w);
    }
  }
}
