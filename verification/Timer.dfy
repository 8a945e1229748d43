/**
 The periodic timer callback of cyber/timer/timer.cc: it measures its own drift in nanoseconds and
 corrects the next delay in whole milliseconds. Times are unbounded integers; `llround` of a quotient is
 taken exactly (rounding inside a double is not modelled).
 */
module Timer {

  import Wheel = TimingWheel

  const NS_PER_MS := 1_000_000

  function Abs(x: int): nat {
    if x >= 0 then x else -x
  }

  function Max(a: int, b: int): int {
    if a < b then b else a
  }

  /** `llround(ns / 1e6)`: the nearest whole millisecond, halves away from zero. */
  function RoundMs(ns: int): (ms: int)
    ensures Abs(ns - ms * NS_PER_MS) <= NS_PER_MS / 2
    ensures Abs(ns - ms * NS_PER_MS) == NS_PER_MS / 2 ==> Abs(ms * NS_PER_MS) > Abs(ns)
    ensures ns >= 0 ==> ms >= 0
  {
    if ns >= 0 then (ns + NS_PER_MS / 2) / NS_PER_MS else -((-ns + NS_PER_MS / 2) / NS_PER_MS)
  }

  /** The fields of a TimerTask that the callback uses. */
  datatype Task = Task(intervalMs: nat, nextMs: int, errorNs: int, lastNs: int)

  /** `InitTimerTask` accepts exactly the periods the wheel can hold. */
  method InitTimerTask(period: nat) returns (ok: bool, task: Task)
    ensures ok <==> 1 <= period < Wheel.TIMER_MAX_INTERVAL_MS
    ensures ok ==> task == Task(period, period, 0, 0)
  {
    task := Task(0, 0, 0, 0);
    if period == 0 {
      return false, task;
    }
    if period >= Wheel.TIMER_MAX_INTERVAL_MS {
      return false, task;
    }
    return true, Task(period, period, 0, 0);
  }

  /** The run used less than a period and the correction leaves a positive delay. */
  predicate Corrects(intervalMs: int, executeMs: int, errorMs: int) {
    executeMs < intervalMs && intervalMs - executeMs - 1 >= errorMs
  }

  /** One run of the callback that started at `start` and ended at `end`. */
  function Fire(task: Task, start: int, end: int): Task {
    var executeMs := RoundMs(end - start);
    var errorNs :=
      if task.lastNs == 0 then task.errorNs
      else task.errorNs + start - task.lastNs - task.intervalMs * NS_PER_MS;
    var errorMs := RoundMs(errorNs);
    var nextMs := if Corrects(task.intervalMs, executeMs, errorMs) then task.intervalMs - executeMs - errorMs else 1;
    Task(task.intervalMs, nextMs, errorNs, start)
  }

  /** The callback as the source runs it, on the task object it captured. */
  class TimerTask {
    var intervalMs: nat
    var nextFireDurationMs: int
    var accumulatedErrorNs: int
    var lastExecuteTimeNs: int

    ghost function Model(): Task
      reads this
    {
      Task(intervalMs, nextFireDurationMs, accumulatedErrorNs, lastExecuteTimeNs)
    }

    constructor (period: nat)
      ensures Model() == Task(period, period, 0, 0)
    {
      intervalMs, nextFireDurationMs, accumulatedErrorNs, lastExecuteTimeNs := period, period, 0, 0;
    }

    /** The next delay is 1 when the run took the period or longer, and otherwise what is left of the period
        after the run and the error, but at least 1; the error grows by how much later than a period after
        the previous start this one was. */
    method Callback(start: int, end: int)
      modifies this
      ensures Model() == Fire(old(Model()), start, end)
      ensures intervalMs == old(intervalMs) && lastExecuteTimeNs == start
      ensures old(lastExecuteTimeNs) == 0 ==> accumulatedErrorNs == old(accumulatedErrorNs)
      ensures old(lastExecuteTimeNs) != 0 ==>
                accumulatedErrorNs - old(accumulatedErrorNs) == start - old(lastExecuteTimeNs) - intervalMs * NS_PER_MS
      ensures RoundMs(end - start) >= intervalMs ==> nextFireDurationMs == 1
      ensures RoundMs(end - start) < intervalMs ==>
                nextFireDurationMs == Max(1, intervalMs - RoundMs(end - start) - RoundMs(accumulatedErrorNs))
    {
      var executeTimeMs := RoundMs(end - start);
      if lastExecuteTimeNs == 0 {
        lastExecuteTimeNs := start;
      } else {
        accumulatedErrorNs := accumulatedErrorNs + (start - lastExecuteTimeNs - intervalMs * NS_PER_MS);
      }
      lastExecuteTimeNs := start;
      if executeTimeMs >= intervalMs {
        nextFireDurationMs := 1;
      } else {
        var accumulatedErrorMs := RoundMs(accumulatedErrorNs);
        if intervalMs - executeTimeMs - 1 >= accumulatedErrorMs {
          nextFireDurationMs := intervalMs - executeTimeMs - accumulatedErrorMs;
        } else {
          nextFireDurationMs := 1;
        }
      }
    }
  }

  // ---------------------------------------------------------------- many runs

  /** The task after the first k runs; run i starts at starts[i] and ends at ends[i]. */
  function After(task: Task, starts: seq<int>, ends: seq<int>, k: nat): Task
    requires k <= |starts| && k <= |ends|
  {
    if k == 0 then task else Fire(After(task, starts, ends, k - 1), starts[k - 1], ends[k - 1])
  }

  predicate Fresh(task: Task) {
    task.errorNs == 0 && task.lastNs == 0
  }

  /** The accumulated error is the drift: how far the last start is from where the first start and a
      whole number of periods put it. */
  lemma {:induction false} ErrorIsDrift(task: Task, starts: seq<int>, ends: seq<int>, k: nat)
    requires Fresh(task) && 1 <= k <= |starts| && k <= |ends|
    requires forall i | 0 <= i < |starts| :: starts[i] != 0
    ensures
      var t := After(task, starts, ends, k);
      && t.intervalMs == task.intervalMs && t.lastNs == starts[k - 1]
      && t.errorNs == starts[k - 1] - starts[0] - (k - 1) * (task.intervalMs * NS_PER_MS)
  {
    if k == 1 {
      assert After(task, starts, ends, 0) == task;
    } else {
      ErrorIsDrift(task, starts, ends, k - 1);
      OnePeriodMore(k - 2, task.intervalMs * NS_PER_MS);
    }
  }

  lemma OnePeriodMore(k: int, period: int)
    ensures (k + 1) * period == k * period + period
  {
  }

  /** Whatever the times, the next delay is at least one millisecond. */
  lemma NextDelayPositive(task: Task, start: int, end: int)
    ensures Fire(task, start, end).nextMs >= 1
  {
  }

  /** The wheel keeps the delay asked for at the end of a run up to `jitter`. */
  predicate FiresOnTime(task: Task, end: int, nextStart: int, jitter: nat) {
    Abs(nextStart - (end + task.nextMs * NS_PER_MS)) <= jitter
  }

  /** Run i took the correcting branch. */
  predicate CorrectsAt(task: Task, starts: seq<int>, ends: seq<int>, i: nat)
    requires i < |starts| && i < |ends|
  {
    var t := After(task, starts, ends, i + 1);
    Corrects(t.intervalMs, RoundMs(ends[i] - starts[i]), RoundMs(t.errorNs))
  }

  lemma OneCorrection(t: Task, start: int, end: int, nextStart: int, nextEnd: int, jitter: nat)
    requires start != 0
    requires
      var t1 := Fire(t, start, end);
      Corrects(t.intervalMs, RoundMs(end - start), RoundMs(t1.errorNs)) && FiresOnTime(t1, end, nextStart, jitter)
    ensures Abs(Fire(Fire(t, start, end), nextStart, nextEnd).errorNs) <= NS_PER_MS + jitter
  {
  }

  /** Drift does not grow: for every number of runs, however long, the error measured right after a
      correcting run is at most one millisecond plus the firing jitter. */
  lemma DriftStaysBounded(task: Task, starts: seq<int>, ends: seq<int>, k: nat, jitter: nat)
    requires Fresh(task) && 2 <= k <= |starts| && k <= |ends|
    requires forall i | 0 <= i < |starts| :: starts[i] != 0
    requires CorrectsAt(task, starts, ends, k - 2)
    requires FiresOnTime(After(task, starts, ends, k - 1), ends[k - 2], starts[k - 1], jitter)
    ensures Abs(starts[k - 1] - starts[0] - (k - 1) * (task.intervalMs * NS_PER_MS)) <= NS_PER_MS + jitter
  {
    ErrorIsDrift(task, starts, ends, k);
    ErrorIsDrift(task, starts, ends, k - 1);
    OneCorrection(After(task, starts, ends, k - 2), starts[k - 2], ends[k - 2], starts[k - 1], ends[k - 1], jitter);
  }

  /** What a run and the delay behind it do to the drift, on any branch: it changes by the run time and the
      delay, less a period, up to the jitter. */
  lemma DriftOfOneRun(t: Task, start: int, end: int, nextStart: int, nextEnd: int, jitter: nat)
    requires start != 0 && FiresOnTime(Fire(t, start, end), end, nextStart, jitter)
    ensures
      var t1 := Fire(t, start, end);
      var t2 := Fire(t1, nextStart, nextEnd);
      Abs(t2.errorNs - t1.errorNs - (end - start + t1.nextMs * NS_PER_MS - t.intervalMs * NS_PER_MS)) <= jitter
  {
  }

  /** A run that takes the period or longer cannot be made up for: the timer fires again after 1 ms and the
      drift grows by exactly the overrun and this millisecond, up to the jitter. */
  lemma OverrunDrift(t: Task, start: int, end: int, nextStart: int, nextEnd: int, jitter: nat)
    requires start != 0 && RoundMs(end - start) >= t.intervalMs
    requires FiresOnTime(Fire(t, start, end), end, nextStart, jitter)
    ensures
      var t1 := Fire(t, start, end);
      var t2 := Fire(t1, nextStart, nextEnd);
      && Abs(t2.errorNs - t1.errorNs - (end - start + NS_PER_MS - t.intervalMs * NS_PER_MS)) <= jitter
      && t2.errorNs >= t1.errorNs + NS_PER_MS / 2 - jitter
  {
    DriftOfOneRun(t, start, end, nextStart, nextEnd, jitter);
  }

  /** When the timer is too late to correct at once it catches up: a run shorter than the period adds at
      most half a millisecond and the jitter to the drift, and never overshoots by more than the jitter. */
  lemma CatchingUpDoesNotGrow(t: Task, start: int, end: int, nextStart: int, nextEnd: int, jitter: nat)
    requires start != 0 && RoundMs(end - start) < t.intervalMs
    requires
      var t1 := Fire(t, start, end);
      !Corrects(t.intervalMs, RoundMs(end - start), RoundMs(t1.errorNs)) && FiresOnTime(t1, end, nextStart, jitter)
    ensures
      var t1 := Fire(t, start, end);
      && Fire(t1, nextStart, nextEnd).errorNs <= t1.errorNs + NS_PER_MS / 2 + jitter
      && Fire(t1, nextStart, nextEnd).errorNs + jitter >= 0
  {
    DriftOfOneRun(t, start, end, nextStart, nextEnd, jitter);
  }

  /** An early timer is always corrected at once, unless the run overran. */
  lemma EarlyIsCorrected(t: Task, start: int, end: int, nextStart: int, nextEnd: int, jitter: nat)
    requires start != 0 && RoundMs(end - start) < t.intervalMs
    requires var t1 := Fire(t, start, end); t1.errorNs < 0 && FiresOnTime(t1, end, nextStart, jitter)
    ensures Abs(Fire(Fire(t, start, end), nextStart, nextEnd).errorNs) <= NS_PER_MS + jitter
  {
    assert RoundMs(Fire(t, start, end).errorNs) <= 0;
    OneCorrection(t, start, end, nextStart, nextEnd, jitter);
  }

  /** The bound on being early is kept by every run, correcting, catching up or overrunning. */
  lemma EarlyBoundKept(t: Task, start: int, end: int, nextStart: int, nextEnd: int, jitter: nat)
    requires start != 0 && jitter <= NS_PER_MS / 2 && FiresOnTime(Fire(t, start, end), end, nextStart, jitter)
    requires Fire(t, start, end).errorNs >= -NS_PER_MS - jitter
    ensures Fire(Fire(t, start, end), nextStart, nextEnd).errorNs >= -NS_PER_MS - jitter
  {
    var t1 := Fire(t, start, end);
    if RoundMs(end - start) >= t.intervalMs {
      OverrunDrift(t, start, end, nextStart, nextEnd, jitter);
    } else if Corrects(t.intervalMs, RoundMs(end - start), RoundMs(t1.errorNs)) {
      OneCorrection(t, start, end, nextStart, nextEnd, jitter);
    } else {
      CatchingUpDoesNotGrow(t, start, end, nextStart, nextEnd, jitter);
    }
  }

  /** For every number of runs, however long each of them takes, the timer is never more than a millisecond
      and the jitter ahead of its schedule. */
  lemma {:induction false} NeverAhead(task: Task, starts: seq<int>, ends: seq<int>, k: nat, jitter: nat)
    requires Fresh(task) && 1 <= k <= |starts| && k <= |ends| && jitter <= NS_PER_MS / 2
    requires forall i | 0 <= i < |starts| :: starts[i] != 0
    requires forall i | 0 <= i < k - 1 :: FiresOnTime(After(task, starts, ends, i + 1), ends[i], starts[i + 1], jitter)
    ensures starts[k - 1] - starts[0] - (k - 1) * (task.intervalMs * NS_PER_MS) >= -NS_PER_MS - jitter
  {
    ErrorIsDrift(task, starts, ends, k);
    if k > 1 {
      NeverAhead(task, starts, ends, k - 1, jitter);
      ErrorIsDrift(task, starts, ends, k - 1);
      assert FiresOnTime(After(task, starts, ends, k - 2 + 1), ends[k - 2], starts[k - 1], jitter);
      EarlyBoundKept(After(task, starts, ends, k - 2), starts[k - 2], ends[k - 2], starts[k - 1], ends[k - 1], jitter);
    }
  }

  /** The timer on the wheel: with small jitter, the drift after a correcting run stays within one
      millisecond plus jitter if and only if the wheel keeps the delay it is asked for. A delay in the
      wheel's early window throws the timer a whole round off. */
  lemma DriftBoundedIffWheelKeepsDelay(
      t: Task, start: int, end: int, cur: nat, nextStart: int, nextEnd: int, jitter: nat)
    requires start != 0 && cur < Wheel.WORK_WHEEL_SIZE && jitter < 255 * NS_PER_MS
    requires Corrects(t.intervalMs, RoundMs(end - start), RoundMs(Fire(t, start, end).errorNs))
    requires Abs(nextStart - (end + Wheel.Delay(cur, Fire(t, start, end).nextMs) * NS_PER_MS)) <= jitter
    ensures
      var delay := Fire(t, start, end).nextMs;
      Abs(Fire(Fire(t, start, end), nextStart, nextEnd).errorNs) <= NS_PER_MS + jitter <==>
        || delay <= Wheel.WORK_WHEEL_SIZE
        || 2 * Wheel.WORK_WHEEL_SIZE <= cur + delay < Wheel.TIMER_MAX_INTERVAL_MS + Wheel.WORK_WHEEL_SIZE
  {
    var t1 := Fire(t, start, end);
    Wheel.DelayIsExactIff(cur, t1.nextMs);
    Wheel.DelayOffByARound(cur, t1.nextMs);
    var shift := (t1.nextMs - Wheel.Delay(cur, t1.nextMs)) * NS_PER_MS;
    OneCorrection(t, start, end, nextStart + shift, nextEnd, jitter);
  }
}
