/**
 Picking the next coroutine: the priority scan of cyber/scheduler/policy/classic_context.cc with the state
 update of cyber/croutine/croutine.h, as one processor sees it at one instant. Routines are named by
 their place in a table that the scan updates.
 */
module ClassicContext {

  const MAX_PRIO: nat := 20

  datatype RoutineState = READY | FINISHED | SLEEP | IO_WAIT | DATA_WAIT

  /** `updated`: the flag is clear, there is news that UpdateState has not looked at. */
  datatype Routine = Routine(state: RoutineState, updated: bool, wakeTime: int, locked: bool)

  /** `UpdateState` at time `now`. */
  function UpdateState(r: Routine, now: int): Routine {
    if r.state.SLEEP? && now > r.wakeTime then r.(state := READY)
    else if r.updated then
      r.(updated := false, state := if r.state.DATA_WAIT? || r.state.IO_WAIT? then READY else r.state)
    else r
  }

  /** What makes a routine worth running, said without the update. */
  predicate Runnable(r: Routine, now: int) {
    && !r.locked
    && (|| r.state.READY?
        || (r.state.SLEEP? && now > r.wakeTime)
        || (r.updated && (r.state.DATA_WAIT? || r.state.IO_WAIT?)))
  }

  lemma ReadyIffRunnable(r: Routine, now: int)
    requires !r.locked
    ensures UpdateState(r, now).state.READY? <==> Runnable(r, now)
  {
  }

  /** The update wakes a routine whose time has come or that waits and has news, and no other; it uses up the
      news unless the time had come; wake time and lock stay as they are. */
  lemma UpdateWakesOnly(r: Routine, now: int)
    ensures
      var u := UpdateState(r, now);
      && u.wakeTime == r.wakeTime && u.locked == r.locked
      && (u.state != r.state ==>
            && u.state.READY?
            && (|| (r.state.SLEEP? && now > r.wakeTime)
                || (r.updated && (r.state.DATA_WAIT? || r.state.IO_WAIT?))))
      && (r.state.SLEEP? && now > r.wakeTime ==> u == r.(state := READY))
      && (!(r.state.SLEEP? && now > r.wakeTime) ==> !u.updated)
      && (r.state.FINISHED? || (!r.updated && !r.state.SLEEP?) ==> u.state == r.state)
      && (r.updated && (r.state.DATA_WAIT? || r.state.IO_WAIT?) ==> u.state.READY?)
  {
  }

  /** A routine that was looked at and left alone. */
  function Passed(r: Routine, now: int): Routine {
    if r.locked then r else UpdateState(r, now)
  }

  predicate Sleeps(r: Routine, now: int) {
    !r.locked && r.state.SLEEP? && now <= r.wakeTime
  }

  type Queues = qs: seq<seq<nat>> | |qs| == MAX_PRIO witness seq(MAX_PRIO, i => [])

  /** Every entry is a routine, and none is queued twice. */
  predicate QueuesOk(qs: Queues, size: nat) {
    && (forall p, i | 0 <= p < MAX_PRIO && 0 <= i < |qs[p]| :: qs[p][i] < size)
    && (forall p, i, q, j | 0 <= p < MAX_PRIO && 0 <= i < |qs[p]| && 0 <= q < MAX_PRIO && 0 <= j < |qs[q]|
                            && (p != q || i != j) :: qs[p][i] != qs[q][j])
  }

  predicate HigherUp(qs: Queues, x: nat, p: nat)
    requires p < MAX_PRIO
  {
    exists q :: p < q < MAX_PRIO && x in qs[q]
  }

  /** `x` comes before the place (p, i) in the scan: a higher priority, or earlier in the same queue. */
  predicate Before(qs: Queues, x: nat, p: nat, i: nat)
    requires p < MAX_PRIO && i <= |qs[p]|
  {
    HigherUp(qs, x, p) || x in qs[p][..i]
  }

  /** The table after the scan has passed everything before (p, i). */
  ghost predicate PassedBefore(qs: Queues, was: seq<Routine>, table: seq<Routine>, now: int, p: nat, i: nat)
    requires p < MAX_PRIO && i <= |qs[p]|
  {
    && |table| == |was|
    && (forall x | 0 <= x < |was| && Before(qs, x, p, i) ::
          !Runnable(was[x], now) && table[x] == Passed(was[x], now))
    && (forall x | 0 <= x < |was| && !Before(qs, x, p, i) :: table[x] == was[x])
  }

  /** The earliest wake-up among the sleepers passed so far and an earlier request. */
  ghost predicate Alarm(qs: Queues, was: seq<Routine>, now: int, p: nat, i: nat,
                        need0: bool, wake0: int, need: bool, wake: int)
    requires p < MAX_PRIO && i <= |qs[p]|
  {
    && (need <==> need0 || exists x :: 0 <= x < |was| && Before(qs, x, p, i) && Sleeps(was[x], now))
    && (!need ==> wake == wake0)
    && (need0 ==> wake <= wake0)
    && (forall x | 0 <= x < |was| && Before(qs, x, p, i) && Sleeps(was[x], now) :: wake <= was[x].wakeTime)
    && (need ==> (need0 && wake == wake0)
                 || exists x :: 0 <= x < |was| && Before(qs, x, p, i) && Sleeps(was[x], now) && wake == was[x].wakeTime)
  }

  lemma InSnoc(xs: seq<nat>, v: nat)
    ensures forall x :: x in xs + [v] <==> x in xs || x == v
  {
    assert (xs + [v])[|xs|] == v;
    forall x | x in xs ensures x in xs + [v] {
      var i :| 0 <= i < |xs| && xs[i] == x;
      assert (xs + [v])[i] == x;
    }
  }

  lemma BeforeNext(qs: Queues, size: nat, p: nat, i: nat)
    requires p < MAX_PRIO && i < |qs[p]| && QueuesOk(qs, size)
    ensures forall x :: Before(qs, x, p, i + 1) <==> Before(qs, x, p, i) || x == qs[p][i]
    ensures !Before(qs, qs[p][i], p, i)
  {
    assert qs[p][..i + 1] == qs[p][..i] + [qs[p][i]];
    InSnoc(qs[p][..i], qs[p][i]);
    assert forall j | 0 <= j < i :: qs[p][..i][j] == qs[p][j] && qs[p][j] != qs[p][i];
    assert forall q, j | p < q < MAX_PRIO && 0 <= j < |qs[q]| :: qs[q][j] != qs[p][i];
    forall x
      ensures Before(qs, x, p, i + 1) <==> Before(qs, x, p, i) || x == qs[p][i]
    {
      assert x in qs[p][..i + 1] <==> x in qs[p][..i] || x == qs[p][i];
    }
  }

  lemma BeforeLower(qs: Queues, p: nat)
    requires 0 < p < MAX_PRIO
    ensures forall x :: Before(qs, x, p - 1, 0) <==> Before(qs, x, p, |qs[p]|)
  {
    assert qs[p][..|qs[p]|] == qs[p] && qs[p - 1][..0] == [];
    forall x ensures HigherUp(qs, x, p - 1) <==> HigherUp(qs, x, p) || x in qs[p] {
      if x in qs[p] { assert p - 1 < p < MAX_PRIO && x in qs[p]; }
      if HigherUp(qs, x, p) {
        var q :| p < q < MAX_PRIO && x in qs[q];
        assert p - 1 < q;
      }
    }
  }

  lemma NotPassedYet(qs: Queues, was: seq<Routine>, table: seq<Routine>, now: int, p: nat, i: nat)
    requires p < MAX_PRIO && i < |qs[p]| && QueuesOk(qs, |was|) && PassedBefore(qs, was, table, now, p, i)
    ensures qs[p][i] < |was| == |table| && table[qs[p][i]] == was[qs[p][i]]
  {
    BeforeNext(qs, |was|, p, i);
  }

  lemma PassOne(qs: Queues, was: seq<Routine>, table: seq<Routine>, now: int, p: nat, i: nat)
    requires p < MAX_PRIO && i < |qs[p]| && QueuesOk(qs, |was|) && PassedBefore(qs, was, table, now, p, i)
    requires !Runnable(was[qs[p][i]], now)
    ensures qs[p][i] < |was| == |table|
    ensures PassedBefore(qs, was, table[qs[p][i] := Passed(was[qs[p][i]], now)], now, p, i + 1)
  {
    BeforeNext(qs, |was|, p, i);
  }

  lemma AlarmOne(qs: Queues, was: seq<Routine>, now: int, p: nat, i: nat,
                 need0: bool, wake0: int, need: bool, wake: int, need': bool, wake': int)
    requires p < MAX_PRIO && i < |qs[p]| && QueuesOk(qs, |was|)
    requires Alarm(qs, was, now, p, i, need0, wake0, need, wake)
    requires var r := was[qs[p][i]];
             if Sleeps(r, now) && (!need || wake > r.wakeTime) then need' && wake' == r.wakeTime
             else need' == need && wake' == wake
    ensures Alarm(qs, was, now, p, i + 1, need0, wake0, need', wake')
  {
    BeforeNext(qs, |was|, p, i);
  }

  lemma NextPriority(qs: Queues, was: seq<Routine>, table: seq<Routine>, now: int, p: nat,
                     need0: bool, wake0: int, need: bool, wake: int)
    requires 0 < p < MAX_PRIO && PassedBefore(qs, was, table, now, p, |qs[p]|)
    requires Alarm(qs, was, now, p, |qs[p]|, need0, wake0, need, wake)
    ensures PassedBefore(qs, was, table, now, p - 1, 0)
    ensures Alarm(qs, was, now, p - 1, 0, need0, wake0, need, wake)
  {
    BeforeLower(qs, p);
  }

  class Context {
    const queues: Queues
    var stop: bool
    var needSleep: bool
    var wakeTime: int
    var routines: seq<Routine>

    constructor (queues: Queues, routines: seq<Routine>)
      ensures this.queues == queues && this.routines == routines && !stop && !needSleep
    {
      this.queues, this.routines := queues, routines;
      stop, needSleep, wakeTime := false, false, 0;
    }

    /** Looks at one routine: acquires it, brings it up to date, and keeps it if it is ready. */
    method Visit(x: nat, now: int) returns (ready: bool)
      requires x < |routines|
      modifies this`needSleep, this`wakeTime, this`routines
      ensures ready <==> Runnable(old(routines)[x], now)
      ensures ready ==> routines == old(routines)[x := UpdateState(old(routines)[x], now).(locked := true)]
      ensures !ready ==> routines == old(routines)[x := Passed(old(routines)[x], now)]
      ensures var r := old(routines)[x];
              if Sleeps(r, now) && (!old(needSleep) || old(wakeTime) > r.wakeTime)
              then needSleep && wakeTime == r.wakeTime
              else needSleep == old(needSleep) && wakeTime == old(wakeTime)
    {
      if routines[x].locked {
        return false;
      }
      routines := routines[x := routines[x].(locked := true)];
      routines := routines[x := UpdateState(routines[x], now)];
      if routines[x].state.READY? {
        return true;
      }
      if routines[x].state.SLEEP? {
        if !needSleep || wakeTime > routines[x].wakeTime {
          needSleep, wakeTime := true, routines[x].wakeTime;
        }
      }
      routines := routines[x := routines[x].(locked := false)];
      return false;
    }

    /** One queue of the scan, from its head. */
    method ScanQueue(p: nat, now: int, ghost was: seq<Routine>, ghost need0: bool, ghost wake0: int)
      returns (found: bool, i: nat)
      requires p < MAX_PRIO && QueuesOk(queues, |was|)
      requires PassedBefore(queues, was, routines, now, p, 0)
      requires Alarm(queues, was, now, p, 0, need0, wake0, needSleep, wakeTime)
      modifies this`needSleep, this`wakeTime, this`routines
      ensures i <= |queues[p]| && (found <==> i < |queues[p]|)
      ensures Alarm(queues, was, now, p, i, need0, wake0, needSleep, wakeTime)
      ensures !found ==> PassedBefore(queues, was, routines, now, p, i)
      ensures found ==>
                var x := queues[p][i];
                && x < |was| == |routines| && Runnable(was[x], now)
                && routines[x] == UpdateState(was[x], now).(locked := true)
                && PassedBefore(queues, was, routines[x := was[x]], now, p, i)
    {
      i := 0;
      while i < |queues[p]|
        invariant i <= |queues[p]|
        invariant PassedBefore(queues, was, routines, now, p, i)
        invariant Alarm(queues, was, now, p, i, need0, wake0, needSleep, wakeTime)
      {
        ghost var table, need, wake := routines, needSleep, wakeTime;
        var x := queues[p][i];
        NotPassedYet(queues, was, routines, now, p, i);
        var ready := Visit(x, now);
        if ready {
          assert routines[x := was[x]] == table;
          return true, i;
        }
        PassOne(queues, was, table, now, p, i);
        AlarmOne(queues, was, now, p, i, need0, wake0, need, wake, needSleep, wakeTime);
        i := i + 1;
      }
      return false, i;
    }

    /** The routine of the highest priority, first in its queue, that can run; it comes back locked. If
        none comes back, none can run. All that were passed are up to date and unlocked, and the alarm is
        set to the earliest of the sleepers among them. */
    method NextRoutine(now: int) returns (found: bool, p: nat, i: nat)
      requires QueuesOk(queues, |routines|)
      modifies this`needSleep, this`wakeTime, this`routines
      ensures p < MAX_PRIO && i <= |queues[p]| && |routines| == |old(routines)|
      ensures stop ==> !found && routines == old(routines) && needSleep == old(needSleep) && wakeTime == old(wakeTime)
      ensures !stop ==> Alarm(queues, old(routines), now, p, i, old(needSleep), old(wakeTime), needSleep, wakeTime)
      ensures !stop && !found ==>
                && p == 0 && i == |queues[0]| && PassedBefore(queues, old(routines), routines, now, p, i)
                && forall q, j | 0 <= q < MAX_PRIO && 0 <= j < |queues[q]| :: !Runnable(old(routines)[queues[q][j]], now)
      ensures found ==>
                && i < |queues[p]|
                && var x := queues[p][i];
                   && Runnable(old(routines)[x], now)
                   && routines[x] == UpdateState(old(routines)[x], now).(locked := true)
                   && PassedBefore(queues, old(routines), routines[x := old(routines)[x]], now, p, i)
    {
      found, p, i := false, 0, 0;
      if stop {
        return;
      }
      p := MAX_PRIO;
      while p > 0
        invariant p <= MAX_PRIO && |routines| == |old(routines)|
        invariant p > 0 ==> PassedBefore(queues, old(routines), routines, now, p - 1, 0)
        invariant p > 0 ==> Alarm(queues, old(routines), now, p - 1, 0, old(needSleep), old(wakeTime), needSleep, wakeTime)
        invariant p == 0 ==> PassedBefore(queues, old(routines), routines, now, 0, |queues[0]|)
        invariant p == 0 ==> Alarm(queues, old(routines), now, 0, |queues[0]|, old(needSleep), old(wakeTime), needSleep, wakeTime)
      {
        p := p - 1;
        found, i := ScanQueue(p, now, old(routines), old(needSleep), old(wakeTime));
        if found {
          return;
        }
        if p > 0 {
          NextPriority(queues, old(routines), routines, now, p, old(needSleep), old(wakeTime), needSleep, wakeTime);
        }
      }
      NothingLeft(queues, old(routines), routines, now);
      return false, 0, |queues[0]|;
    }
  }

  lemma NothingLeft(qs: Queues, was: seq<Routine>, table: seq<Routine>, now: int)
    requires QueuesOk(qs, |was|) && PassedBefore(qs, was, table, now, 0, |qs[0]|)
    ensures forall q, j | 0 <= q < MAX_PRIO && 0 <= j < |qs[q]| :: !Runnable(was[qs[q][j]], now)
  {
    forall q, j | 0 <= q < MAX_PRIO && 0 <= j < |qs[q]|
      ensures !Runnable(was[qs[q][j]], now)
    {
      assert qs[0][..|qs[0]|] == qs[0];
      assert qs[q][j] in qs[q];
      assert Before(qs, qs[q][j], 0, |qs[0]|);
    }
  }
}
