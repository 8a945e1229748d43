/**
 The two-level timing wheel of cyber/timer/timing_wheel.cc and .h: 512 work slots of one millisecond
 and 64 assistant slots of one work round. Proved to refine a plain countdown, up to the exact set of
 delays for which the code does not.

 A task's weak pointer expires when its timer stops; expired tasks stay in their bucket and are dropped
 when it is drained. A task is in the wheel at most once: a timer adds it on start and again only after
 it fired.
 */
module TimingWheel {

  type TaskId = nat

  const WORK_WHEEL_SIZE := 512
  const ASSISTANT_WHEEL_SIZE := 64
  const TIMER_MAX_INTERVAL_MS := WORK_WHEEL_SIZE * ASSISTANT_WHEEL_SIZE

  datatype Place = Work(i: nat) | Assistant(j: nat)

  /** The contents of the wheel. `remainder` is the field AddTask stores in the task, `alive` the tasks
      whose timer is still running, `ticked` says that the current slot was drained since the index last
      moved. `place` is history: the bucket that holds each task. */
  datatype Wheel = Wheel(
    work: seq<seq<TaskId>>, assistant: seq<seq<TaskId>>, remainder: map<TaskId, nat>,
    alive: set<TaskId>, cur: nat, round: nat, ticked: bool, place: map<TaskId, Place>)

  function GetWorkWheelIndex(index: nat): (r: nat)
    ensures r < WORK_WHEEL_SIZE
  {
    index % WORK_WHEEL_SIZE
  }

  function GetAssistantWheelIndex(index: nat): (r: nat)
    ensures r < ASSISTANT_WHEEL_SIZE
  {
    index % ASSISTANT_WHEEL_SIZE
  }

  predicate NoDup(xs: seq<TaskId>) {
    forall i, j | 0 <= i < j < |xs| :: xs[i] != xs[j]
  }

  predicate PlaceOk(w: Wheel, id: TaskId)
    requires id in w.place
  {
    match w.place[id]
    case Work(i) => i < |w.work| && id in w.work[i]
    case Assistant(j) =>
      j < |w.assistant| && id in w.assistant[j] && id in w.remainder && w.remainder[id] < WORK_WHEEL_SIZE
  }

  /** A bucket lists tasks that know they are there, each once. */
  predicate BucketOk(bucket: seq<TaskId>, place: map<TaskId, Place>, p: Place) {
    NoDup(bucket) && forall id | id in bucket :: id in place && place[id] == p
  }

  predicate Inv(w: Wheel) {
    && |w.work| == WORK_WHEEL_SIZE && |w.assistant| == ASSISTANT_WHEEL_SIZE
    && w.cur < WORK_WHEEL_SIZE && w.round < ASSISTANT_WHEEL_SIZE
    && (forall i | 0 <= i < |w.work| :: BucketOk(w.work[i], w.place, Work(i)))
    && (forall j | 0 <= j < |w.assistant| :: BucketOk(w.assistant[j], w.place, Assistant(j)))
    && (forall id | id in w.place :: PlaceOk(w, id))
    && (w.ticked ==> w.work[w.cur] == [])
  }

  predicate Init(w: Wheel) {
    && w.work == seq(WORK_WHEEL_SIZE, _ => []) && w.assistant == seq(ASSISTANT_WHEEL_SIZE, _ => [])
    && w.cur == 0 && w.round == 0 && !w.ticked && w.place == map[]
  }

  lemma InitInv(w: Wheel)
    requires Init(w)
    ensures Inv(w)
  {
  }

  // ---------------------------------------------------------------- the operations, on values

  predicate CanAdd(w: Wheel, id: TaskId, delay: nat) {
    Inv(w) && id in w.alive && id !in w.place && delay >= 1
  }

  function PutWork(w: Wheel, id: TaskId, i: nat): Wheel
    requires i < |w.work|
  {
    w.(work := w.work[i := w.work[i] + [id]], place := w.place[id := Work(i)])
  }

  function PutAssistant(w: Wheel, id: TaskId, j: nat): Wheel
    requires j < |w.assistant|
  {
    w.(assistant := w.assistant[j := w.assistant[j] + [id]], place := w.place[id := Assistant(j)])
  }

  /** `AddTask`, with the test `real_work_wheel_index != current_work_wheel_index_` as in the source. */
  function AddTask(w: Wheel, id: TaskId, delay: nat): Wheel
    requires CanAdd(w, id, delay)
  {
    var index := w.cur + delay;
    if index >= WORK_WHEEL_SIZE then
      var realIndex := GetWorkWheelIndex(index);
      var w1 := w.(remainder := w.remainder[id := realIndex]);
      var ticks := index / WORK_WHEEL_SIZE;
      if ticks == 1 && realIndex != w.cur then PutWork(w1, id, realIndex)
      else PutAssistant(w1, id, GetAssistantWheelIndex(w.round + ticks))
    else PutWork(w, id, index)
  }

  /** The entries whose task is still alive, in order. */
  function Live(xs: seq<TaskId>, alive: set<TaskId>): (r: seq<TaskId>)
    ensures forall id :: id in r <==> id in xs && id in alive
  {
    if xs == [] then []
    else (if xs[0] in alive then [xs[0]] else []) + Live(xs[1..], alive)
  }

  function Without(m: map<TaskId, Place>, xs: seq<TaskId>): (r: map<TaskId, Place>)
    ensures forall id :: id in r <==> id in m && id !in xs
    ensures forall id | id in r :: r[id] == m[id]
  {
    map id | id in m && id !in xs :: m[id]
  }

  /** `Tick`: hand the live tasks of the current slot to the scheduler and empty the slot. */
  function Tick(w: Wheel): (Wheel, seq<TaskId>)
    requires w.cur < |w.work|
  {
    (w.(work := w.work[w.cur := []], place := Without(w.place, w.work[w.cur]), ticked := true),
     Live(w.work[w.cur], w.alive))
  }

  /** Move the live tasks `xs` of an assistant bucket into their work slots. */
  function Spread(work: seq<seq<TaskId>>, xs: seq<TaskId>, remainder: map<TaskId, nat>): (r: seq<seq<TaskId>>)
    requires forall id | id in xs :: id in remainder && remainder[id] < |work|
    ensures |r| == |work|
    decreases |xs|
  {
    if xs == [] then work
    else
      var i := remainder[xs[0]];
      Spread(work[i := work[i] + [xs[0]]], xs[1..], remainder)
  }

  /** `Cascade`: empty an assistant bucket into the work wheel, dropping expired tasks. */
  function Cascade(w: Wheel, j: nat): Wheel
    requires |w.work| == WORK_WHEEL_SIZE && j < |w.assistant|
    requires forall id | id in w.assistant[j] :: id in w.remainder && w.remainder[id] < WORK_WHEEL_SIZE
  {
    var live := Live(w.assistant[j], w.alive);
    w.(work := Spread(w.work, live, w.remainder), assistant := w.assistant[j := []],
       place := map id | id in w.place && (id in w.assistant[j] ==> id in live) ::
                  if id in w.assistant[j] then Work(w.remainder[id]) else w.place[id])
  }

  /** The second half of the loop in `TickFunc`: move the index, and cascade at the end of a round. */
  function Advance(w: Wheel): Wheel
    requires Inv(w)
  {
    var cur := GetWorkWheelIndex(w.cur + 1);
    if cur == 0 then
      var round := GetAssistantWheelIndex(w.round + 1);
      assert forall id | id in w.assistant[round] :: PlaceOk(w, id);
      Cascade(w.(cur := cur, ticked := false, round := round), round)
    else w.(cur := cur, ticked := false)
  }

  /** `Timer::Stop` drops the task: its weak pointers expire. */
  function Stop(w: Wheel, id: TaskId): Wheel {
    w.(alive := w.alive - {id})
  }

  // ---------------------------------------------------------------- the countdown it refines

  /** How many times the index still has to move from `cur` until it comes to slot `i`. */
  function SlotsAhead(i: nat, cur: nat): int {
    if i >= cur then i - cur else i + WORK_WHEEL_SIZE - cur
  }

  /** How many rounds still have to end until assistant bucket `j` is emptied: at least one. */
  function RoundsAhead(j: nat, round: nat): int {
    if j > round then j - round else j + ASSISTANT_WHEEL_SIZE - round
  }

  /** How many times the index still has to move until the slot of this task is drained. */
  function Remaining(w: Wheel, id: TaskId): int
    requires id in w.place
  {
    match w.place[id]
    case Work(i) => SlotsAhead(i, w.cur)
    case Assistant(j) =>
      WORK_WHEEL_SIZE * RoundsAhead(j, w.round) - w.cur + if id in w.remainder then w.remainder[id] else 0
  }

  function Countdown(w: Wheel): map<TaskId, int> {
    map id | id in w.place && id in w.alive :: Remaining(w, id)
  }

  /** The countdown AddTask starts for a delay asked for when the work index is `cur`. */
  function Delay(cur: nat, delay: nat): int
    requires cur < WORK_WHEEL_SIZE
  {
    var index := cur + delay;
    var ticks := index / WORK_WHEEL_SIZE;
    var slot := index % WORK_WHEEL_SIZE;
    if ticks == 0 then delay
    else if ticks == 1 && slot != cur then SlotsAhead(slot, cur)
    else WORK_WHEEL_SIZE * ((ticks - 1) % ASSISTANT_WHEEL_SIZE + 1) - cur + slot
  }

  /** Exactly which delays are kept: all up to one work round, and beyond that all that reach past the
      next round, up to what 64 rounds can hold. In between the task is put one round early. */
  lemma DelayIsExactIff(cur: nat, delay: nat)
    requires cur < WORK_WHEEL_SIZE && delay >= 1
    ensures Delay(cur, delay) == delay <==>
            || delay <= WORK_WHEEL_SIZE
            || 2 * WORK_WHEEL_SIZE <= cur + delay < TIMER_MAX_INTERVAL_MS + WORK_WHEEL_SIZE
    ensures WORK_WHEEL_SIZE < delay && cur + delay < 2 * WORK_WHEEL_SIZE ==>
              Delay(cur, delay) == delay - WORK_WHEEL_SIZE
  {
  }

  /** For every period a timer accepts the only failing delays are those strictly between one round and
      the end of the next one. */
  lemma AcceptedDelayIsExactIff(cur: nat, delay: nat)
    requires cur < WORK_WHEEL_SIZE && 1 <= delay < TIMER_MAX_INTERVAL_MS
    ensures Delay(cur, delay) ==
            if WORK_WHEEL_SIZE < delay && cur + delay < 2 * WORK_WHEEL_SIZE then delay - WORK_WHEEL_SIZE
            else delay
  {
    DelayIsExactIff(cur, delay);
  }

  /** A delay that is not kept comes out at least one whole round short. */
  lemma DelayOffByARound(cur: nat, delay: nat)
    requires cur < WORK_WHEEL_SIZE && delay >= 1
    ensures Delay(cur, delay) == delay || Delay(cur, delay) <= delay - WORK_WHEEL_SIZE
  {
  }

  // ---------------------------------------------------------------- adding

  lemma PutWorkOk(w: Wheel, id: TaskId, i: nat)
    requires Inv(w) && id !in w.place && i < WORK_WHEEL_SIZE && (w.ticked ==> i != w.cur)
    ensures Inv(PutWork(w, id, i))
    ensures forall x | x in w.place :: Remaining(PutWork(w, id, i), x) == Remaining(w, x)
  {
    var w' := PutWork(w, id, i);
    assert BucketOk(w.work[i], w.place, Work(i));
    AppendBucket(w.work[i], w.place, Work(i), id);
    assert id in w'.work[i] by { assert w'.work[i][|w.work[i]|] == id; }
    forall x | x in w'.place
      ensures PlaceOk(w', x)
    {
      if x != id { assert PlaceOk(w, x); }
    }
  }

  lemma AppendBucket(bucket: seq<TaskId>, place: map<TaskId, Place>, p: Place, id: TaskId)
    requires BucketOk(bucket, place, p) && id !in place
    ensures BucketOk(bucket + [id], place[id := p], p)
  {
    assert id !in bucket;
  }

  lemma PutAssistantOk(w: Wheel, id: TaskId, j: nat)
    requires Inv(w) && id !in w.place && j < ASSISTANT_WHEEL_SIZE
    requires id in w.remainder && w.remainder[id] < WORK_WHEEL_SIZE
    ensures Inv(PutAssistant(w, id, j))
    ensures forall x | x in w.place :: Remaining(PutAssistant(w, id, j), x) == Remaining(w, x)
  {
    var w' := PutAssistant(w, id, j);
    assert BucketOk(w.assistant[j], w.place, Assistant(j));
    AppendBucket(w.assistant[j], w.place, Assistant(j), id);
    assert id in w'.assistant[j] by { assert w'.assistant[j][|w.assistant[j]|] == id; }
    forall x | x in w'.place
      ensures PlaceOk(w', x)
    {
      if x != id { assert PlaceOk(w, x); }
    }
  }

  lemma RemainderOk(w: Wheel, id: TaskId, r: nat)
    requires Inv(w) && id !in w.place
    ensures Inv(w.(remainder := w.remainder[id := r]))
    ensures Countdown(w.(remainder := w.remainder[id := r])) == Countdown(w)
  {
    var w' := w.(remainder := w.remainder[id := r]);
    forall x | x in w'.place
      ensures PlaceOk(w', x) && Remaining(w', x) == Remaining(w, x)
    {
      assert PlaceOk(w, x);
    }
  }

  /** Adding a task starts its countdown at `Delay` and touches no other. */
  lemma AddRefines(w: Wheel, id: TaskId, delay: nat)
    requires CanAdd(w, id, delay)
    ensures Inv(AddTask(w, id, delay))
    ensures Countdown(AddTask(w, id, delay)) == Countdown(w)[id := Delay(w.cur, delay)]
  {
    AddTaskPuts(w, id, delay);
    if w.cur + delay < WORK_WHEEL_SIZE {
      AddThisRound(w, id, delay);
    } else if w.cur + delay < 2 * WORK_WHEEL_SIZE && delay != WORK_WHEEL_SIZE {
      AddNextRound(w, id, delay);
    } else {
      AddLater(w, id, delay, (w.cur + delay) % WORK_WHEEL_SIZE, (w.cur + delay) / WORK_WHEEL_SIZE);
    }
  }

  /** Where AddTask puts the task. */
  lemma AddTaskPuts(w: Wheel, id: TaskId, delay: nat)
    requires CanAdd(w, id, delay)
    ensures w.cur + delay < WORK_WHEEL_SIZE ==> AddTask(w, id, delay) == PutWork(w, id, w.cur + delay)
    ensures
      var slot, ticks := (w.cur + delay) % WORK_WHEEL_SIZE, (w.cur + delay) / WORK_WHEEL_SIZE;
      var w1 := w.(remainder := w.remainder[id := slot]);
      w.cur + delay >= WORK_WHEEL_SIZE ==>
        AddTask(w, id, delay) == if ticks == 1 && slot != w.cur then PutWork(w1, id, slot)
                                 else PutAssistant(w1, id, GetAssistantWheelIndex(w.round + ticks))
  {
  }

  lemma CountdownOfOneMore(w: Wheel, w': Wheel, id: TaskId)
    requires w'.alive == w.alive && id in w.alive && id !in w.place
    requires w'.place.Keys == w.place.Keys + {id}
    requires forall x | x in w.place :: Remaining(w', x) == Remaining(w, x)
    ensures Countdown(w') == Countdown(w)[id := Remaining(w', id)]
  {
  }

  lemma PutWorkCounts(w: Wheel, id: TaskId, i: nat, n: int)
    requires Inv(w) && id in w.alive && id !in w.place && i < WORK_WHEEL_SIZE && (w.ticked ==> i != w.cur)
    requires n == SlotsAhead(i, w.cur)
    ensures Inv(PutWork(w, id, i)) && Countdown(PutWork(w, id, i)) == Countdown(w)[id := n]
  {
    PutWorkOk(w, id, i);
    CountdownOfOneMore(w, PutWork(w, id, i), id);
  }

  lemma PutAssistantCounts(w: Wheel, id: TaskId, j: nat, n: int)
    requires Inv(w) && id in w.alive && id !in w.place && j < ASSISTANT_WHEEL_SIZE
    requires id in w.remainder && w.remainder[id] < WORK_WHEEL_SIZE
    requires n == WORK_WHEEL_SIZE * RoundsAhead(j, w.round) - w.cur + w.remainder[id]
    ensures Inv(PutAssistant(w, id, j)) && Countdown(PutAssistant(w, id, j)) == Countdown(w)[id := n]
  {
    PutAssistantOk(w, id, j);
    CountdownOfOneMore(w, PutAssistant(w, id, j), id);
  }

  lemma AddThisRound(w: Wheel, id: TaskId, delay: nat)
    requires CanAdd(w, id, delay) && w.cur + delay < WORK_WHEEL_SIZE
    ensures
      var w' := PutWork(w, id, w.cur + delay);
      Inv(w') && Countdown(w') == Countdown(w)[id := Delay(w.cur, delay)]
  {
    PutWorkCounts(w, id, w.cur + delay, Delay(w.cur, delay));
  }

  lemma AddNextRound(w: Wheel, id: TaskId, delay: nat)
    requires CanAdd(w, id, delay)
    requires WORK_WHEEL_SIZE <= w.cur + delay < 2 * WORK_WHEEL_SIZE && delay != WORK_WHEEL_SIZE
    ensures
      var slot := (w.cur + delay) % WORK_WHEEL_SIZE;
      var w' := PutWork(w.(remainder := w.remainder[id := slot]), id, slot);
      Inv(w') && Countdown(w') == Countdown(w)[id := Delay(w.cur, delay)]
  {
    var slot := (w.cur + delay) % WORK_WHEEL_SIZE;
    RemainderOk(w, id, slot);
    PutWorkCounts(w.(remainder := w.remainder[id := slot]), id, slot, Delay(w.cur, delay));
  }

  lemma AddLater(w: Wheel, id: TaskId, delay: nat, slot: nat, ticks: nat)
    requires CanAdd(w, id, delay) && (2 * WORK_WHEEL_SIZE <= w.cur + delay || delay == WORK_WHEEL_SIZE)
    requires slot == (w.cur + delay) % WORK_WHEEL_SIZE && ticks == (w.cur + delay) / WORK_WHEEL_SIZE
    ensures
      var w' := PutAssistant(w.(remainder := w.remainder[id := slot]), id, GetAssistantWheelIndex(w.round + ticks));
      Inv(w') && Countdown(w') == Countdown(w)[id := Delay(w.cur, delay)]
  {
    LaterDelay(w.cur, w.round, delay);
    AddToBucket(w, id, slot, GetAssistantWheelIndex(w.round + ticks), Delay(w.cur, delay));
  }

  lemma AddToBucket(w: Wheel, id: TaskId, slot: nat, j: nat, n: int)
    requires Inv(w) && id in w.alive && id !in w.place && slot < WORK_WHEEL_SIZE && j < ASSISTANT_WHEEL_SIZE
    requires n == WORK_WHEEL_SIZE * RoundsAhead(j, w.round) - w.cur + slot
    ensures
      var w' := PutAssistant(w.(remainder := w.remainder[id := slot]), id, j);
      Inv(w') && Countdown(w') == Countdown(w)[id := n]
  {
    RemainderOk(w, id, slot);
    PutAssistantCounts(w.(remainder := w.remainder[id := slot]), id, j, n);
  }

  lemma LaterDelay(cur: nat, round: nat, delay: nat)
    requires cur < WORK_WHEEL_SIZE && round < ASSISTANT_WHEEL_SIZE && delay >= 1
    requires 2 * WORK_WHEEL_SIZE <= cur + delay || delay == WORK_WHEEL_SIZE
    ensures
      var slot, ticks := (cur + delay) % WORK_WHEEL_SIZE, (cur + delay) / WORK_WHEEL_SIZE;
      && ticks >= 1 && !(ticks == 1 && slot != cur)
      && WORK_WHEEL_SIZE * RoundsAhead(GetAssistantWheelIndex(round + ticks), round) - cur + slot == Delay(cur, delay)
  {
    RoundsOfTicks(round, (cur + delay) / WORK_WHEEL_SIZE);
  }

  /** Placing a task `ticks` buckets ahead on the assistant wheel makes it wait for that many rounds, or
      for 64 fewer per turn of the wheel. */
  lemma RoundsOfTicks(round: nat, ticks: nat)
    requires round < ASSISTANT_WHEEL_SIZE && ticks >= 1
    ensures
      RoundsAhead((round + ticks) % ASSISTANT_WHEEL_SIZE, round) == (ticks - 1) % ASSISTANT_WHEEL_SIZE + 1
  {
  }

  // ---------------------------------------------------------------- draining a slot

  lemma {:induction false} LiveNoDup(xs: seq<TaskId>, alive: set<TaskId>)
    requires NoDup(xs)
    ensures NoDup(Live(xs, alive))
  {
    if xs != [] {
      LiveNoDup(xs[1..], alive);
      assert xs[0] !in xs[1..];
    }
  }

  lemma LiveShift(xs: seq<TaskId>, alive: set<TaskId>, fired: seq<TaskId>)
    requires xs != []
    ensures fired + Live(xs, alive) == (if xs[0] in alive then fired + [xs[0]] else fired) + Live(xs[1..], alive)
  {
    var rest := Live(xs[1..], alive);
    if xs[0] in alive {
      assert fired + ([xs[0]] + rest) == (fired + [xs[0]]) + rest;
    } else {
      assert [] + rest == rest;
    }
  }

  /** A tick fires exactly the tasks whose countdown is at zero, each once, and forgets them. */
  lemma TickRefines(w: Wheel)
    requires Inv(w)
    ensures Inv(Tick(w).0)
    ensures NoDup(Tick(w).1)
    ensures forall id :: id in Tick(w).1 <==> id in Countdown(w) && Countdown(w)[id] == 0
    ensures Countdown(Tick(w).0) == map id | id in Countdown(w) && Countdown(w)[id] != 0 :: Countdown(w)[id]
  {
    TickInv(w);
    assert BucketOk(w.work[w.cur], w.place, Work(w.cur));
    LiveNoDup(w.work[w.cur], w.alive);
    forall id | id in w.place
      ensures id in w.work[w.cur] <==> Remaining(w, id) == 0
    {
      assert PlaceOk(w, id);
    }
    TickCounts(w);
  }

  lemma TickCounts(w: Wheel)
    requires w.cur < |w.work| && (forall id | id in w.work[w.cur] :: id in w.place)
    requires forall id | id in w.place :: id in w.work[w.cur] <==> Remaining(w, id) == 0
    ensures forall id :: id in Tick(w).1 <==> id in Countdown(w) && Countdown(w)[id] == 0
    ensures Countdown(Tick(w).0) == map id | id in Countdown(w) && Countdown(w)[id] != 0 :: Countdown(w)[id]
  {
    var w' := Tick(w).0;
    forall id | id in w'.place ensures Remaining(w', id) == Remaining(w, id) {}
  }

  lemma TickInv(w: Wheel)
    requires Inv(w)
    ensures Inv(Tick(w).0)
  {
    var w' := Tick(w).0;
    forall id | id in w'.place
      ensures PlaceOk(w', id)
    {
      assert PlaceOk(w, id);
    }
    forall i | 0 <= i < |w'.work|
      ensures BucketOk(w'.work[i], w'.place, Work(i))
    {
      assert BucketOk(w.work[i], w.place, Work(i));
    }
    forall j | 0 <= j < |w'.assistant|
      ensures BucketOk(w'.assistant[j], w'.place, Assistant(j))
    {
      assert BucketOk(w.assistant[j], w.place, Assistant(j));
      assert BucketOk(w.work[w.cur], w.place, Work(w.cur));
    }
  }

  // ---------------------------------------------------------------- moving the index

  lemma {:induction false} SpreadHas(work: seq<seq<TaskId>>, xs: seq<TaskId>, remainder: map<TaskId, nat>)
    requires forall id | id in xs :: id in remainder && remainder[id] < |work|
    ensures
      var r := Spread(work, xs, remainder);
      forall i | 0 <= i < |work| :: forall id :: id in r[i] <==>
        id in work[i] || (id in xs && remainder[id] == i)
    decreases |xs|
  {
    if xs != [] {
      var i := remainder[xs[0]];
      var work1 := work[i := work[i] + [xs[0]]];
      SpreadHas(work1, xs[1..], remainder);
      assert forall id :: id in xs <==> id == xs[0] || id in xs[1..];
      assert forall id :: id in work1[i] <==> id in work[i] || id == xs[0];
    }
  }

  lemma AppendNoDup(xs: seq<TaskId>, id: TaskId)
    requires NoDup(xs) && id !in xs
    ensures NoDup(xs + [id])
  {
  }

  lemma {:induction false} SpreadNoDup(work: seq<seq<TaskId>>, xs: seq<TaskId>, remainder: map<TaskId, nat>)
    requires forall id | id in xs :: id in remainder && remainder[id] < |work|
    requires forall i | 0 <= i < |work| :: NoDup(work[i])
    requires forall i | 0 <= i < |work| :: forall id | id in xs :: id !in work[i]
    requires NoDup(xs)
    ensures
      var r := Spread(work, xs, remainder);
      forall i | 0 <= i < |work| :: NoDup(r[i])
    decreases |xs|
  {
    if xs != [] {
      var i := remainder[xs[0]];
      var work1 := work[i := work[i] + [xs[0]]];
      assert xs[0] !in xs[1..];
      assert forall id :: id in work1[i] <==> id in work[i] || id == xs[0];
      AppendNoDup(work[i], xs[0]);
      SpreadNoDup(work1, xs[1..], remainder);
      assert Spread(work, xs, remainder) == Spread(work1, xs[1..], remainder);
    }
  }

  lemma CascadeOk(w: Wheel, j: nat)
    requires Inv(w) && !w.ticked && j < ASSISTANT_WHEEL_SIZE
    requires forall id | id in w.assistant[j] :: id in w.remainder && w.remainder[id] < WORK_WHEEL_SIZE
    ensures Inv(Cascade(w, j))
  {
    var w' := Cascade(w, j);
    var live := Live(w.assistant[j], w.alive);
    LiveNoDup(w.assistant[j], w.alive);
    SpreadHas(w.work, live, w.remainder);
    SpreadNoDup(w.work, live, w.remainder);
    forall id | id in w'.place
      ensures PlaceOk(w', id)
    {
      assert PlaceOk(w, id);
    }
    CascadePlaces(w, j);
  }

  lemma CascadePlaces(w: Wheel, j: nat)
    requires Inv(w) && j < ASSISTANT_WHEEL_SIZE
    requires forall id | id in w.assistant[j] :: id in w.remainder && w.remainder[id] < WORK_WHEEL_SIZE
    ensures
      var w' := Cascade(w, j);
      && (forall i | 0 <= i < |w'.work| :: forall id | id in w'.work[i] :: id in w'.place && w'.place[id] == Work(i))
      && (forall k | 0 <= k < |w'.assistant| :: forall id | id in w'.assistant[k] ::
            id in w'.place && w'.place[id] == Assistant(k))
  {
    SpreadHas(w.work, Live(w.assistant[j], w.alive), w.remainder);
  }

  /** Moving the index takes one off every countdown, across the end of a round too. */
  lemma AdvanceRefines(w: Wheel)
    requires Inv(w) && w.ticked
    ensures Inv(Advance(w))
    ensures Countdown(Advance(w)).Keys == Countdown(w).Keys
    ensures forall id | id in Countdown(w) :: Countdown(w)[id] >= 1 && Countdown(Advance(w))[id] == Countdown(w)[id] - 1
  {
    if w.cur + 1 < WORK_WHEEL_SIZE { AdvanceWithinRound(w); } else { AdvanceOverRound(w); }
  }

  lemma AdvanceWithinRound(w: Wheel)
    requires Inv(w) && w.ticked && w.cur + 1 < WORK_WHEEL_SIZE
    ensures Inv(Advance(w))
    ensures Countdown(Advance(w)).Keys == Countdown(w).Keys
    ensures forall id | id in Countdown(w) :: Countdown(w)[id] >= 1 && Countdown(Advance(w))[id] == Countdown(w)[id] - 1
  {
    var w' := Advance(w);
    assert w' == w.(cur := w.cur + 1, ticked := false);
    forall id | id in w'.place
      ensures PlaceOk(w', id) && Remaining(w, id) >= 1 && Remaining(w', id) == Remaining(w, id) - 1
    {
      assert PlaceOk(w, id);
      WithinRoundAt(w, w', id);
    }
  }

  lemma WithinRoundAt(w: Wheel, w': Wheel, id: TaskId)
    requires id in w.place && PlaceOk(w, id) && w.cur + 1 < WORK_WHEEL_SIZE == |w.work| && w.work[w.cur] == []
    requires w.round < ASSISTANT_WHEEL_SIZE && w' == w.(cur := w.cur + 1, ticked := false)
    ensures PlaceOk(w', id) && Remaining(w, id) >= 1 && Remaining(w', id) == Remaining(w, id) - 1
  {
  }

  /** The wheel between the index move and the cascade at the end of a round. */
  function Turned(w: Wheel): Wheel {
    w.(cur := 0, ticked := false, round := GetAssistantWheelIndex(w.round + 1))
  }

  lemma TurnedOk(w: Wheel)
    requires Inv(w)
    ensures Inv(Turned(w))
    ensures forall id | id in Turned(w).assistant[Turned(w).round] ::
              id in w.remainder && w.remainder[id] < WORK_WHEEL_SIZE
  {
    var w1 := Turned(w);
    forall id | id in w1.place ensures PlaceOk(w1, id) { assert PlaceOk(w, id); }
    forall id | id in w1.assistant[w1.round] ensures id in w.remainder && w.remainder[id] < WORK_WHEEL_SIZE {
      assert PlaceOk(w, id);
    }
  }

  lemma AdvanceIs(w: Wheel)
    requires Inv(w)
    ensures GetWorkWheelIndex(w.cur + 1) == if w.cur + 1 < WORK_WHEEL_SIZE then w.cur + 1 else 0
    ensures w.cur + 1 < WORK_WHEEL_SIZE ==> Advance(w) == w.(cur := w.cur + 1, ticked := false)
    ensures w.cur + 1 == WORK_WHEEL_SIZE ==>
              (TurnedOk(w); Advance(w) == Cascade(Turned(w), Turned(w).round))
  {
    TurnedOk(w);
  }

  lemma AdvanceOverRound(w: Wheel)
    requires Inv(w) && w.ticked && w.cur + 1 == WORK_WHEEL_SIZE
    ensures Inv(Advance(w))
    ensures Countdown(Advance(w)).Keys == Countdown(w).Keys
    ensures forall id | id in Countdown(w) :: Countdown(w)[id] >= 1 && Countdown(Advance(w))[id] == Countdown(w)[id] - 1
  {
    TurnedOk(w);
    var w1 := Turned(w);
    CascadeOk(w1, w1.round);
    var w' := Cascade(w1, w1.round);
    assert Advance(w) == w';
    assert Countdown(w').Keys == Countdown(w).Keys;
    forall id | id in Countdown(w)
      ensures Countdown(w)[id] >= 1 && Countdown(w')[id] == Countdown(w)[id] - 1
    {
      OverRound(w, id);
    }
  }

  lemma CascadePlace(w: Wheel, id: TaskId)
    requires Inv(w) && id in w.place && id in w.alive
    requires forall x | x in w.assistant[w.round] :: x in w.remainder && w.remainder[x] < WORK_WHEEL_SIZE
    ensures
      var w' := Cascade(w, w.round);
      && id in w'.place && w'.remainder == w.remainder && w'.cur == w.cur && w'.round == w.round
      && w'.place[id] == if w.place[id] == Assistant(w.round) then Work(w.remainder[id]) else w.place[id]
  {
    assert PlaceOk(w, id);
  }

  lemma RoundsTurned(j: nat, round: nat)
    requires j < ASSISTANT_WHEEL_SIZE && round < ASSISTANT_WHEEL_SIZE
    ensures
      var next := GetAssistantWheelIndex(round + 1);
      RoundsAhead(j, round) == if j == next then 1 else RoundsAhead(j, next) + 1
  {
  }

  lemma OverRound(w: Wheel, id: TaskId)
    requires Inv(w) && w.ticked && w.cur + 1 == WORK_WHEEL_SIZE && id in w.place && id in w.alive
    requires (TurnedOk(w); Inv(Cascade(Turned(w), Turned(w).round)))
    ensures
      var w' := Cascade(Turned(w), Turned(w).round);
      id in w'.place && Remaining(w, id) >= 1 && Remaining(w', id) == Remaining(w, id) - 1
  {
    TurnedOk(w);
    assert PlaceOk(w, id);
    CascadePlace(Turned(w), id);
    OverRoundAt(w, Cascade(Turned(w), Turned(w).round), id);
  }

  /** The arithmetic of a turn, for one task. */
  lemma OverRoundAt(w: Wheel, w': Wheel, id: TaskId)
    requires id in w.place && PlaceOk(w, id) && id in w'.place && PlaceOk(w', id)
    requires |w.work| == WORK_WHEEL_SIZE && |w.assistant| == ASSISTANT_WHEEL_SIZE && w.round < ASSISTANT_WHEEL_SIZE
    requires w.cur + 1 == WORK_WHEEL_SIZE && w.work[w.cur] == []
    requires w'.cur == 0 && w'.round == GetAssistantWheelIndex(w.round + 1) && w'.remainder == w.remainder
    requires w'.place[id] == if w.place[id] == Assistant(w'.round) then Work(w.remainder[id]) else w.place[id]
    ensures Remaining(w, id) >= 1 && Remaining(w', id) == Remaining(w, id) - 1
  {
    if w.place[id].Assistant? {
      RoundsTurned(w.place[id].j, w.round);
    }
  }

  // ---------------------------------------------------------------- whole runs

  datatype Event = Add(id: TaskId, delay: nat) | StopTask(id: TaskId) | TickSlot | MoveIndex

  /** The tick thread drains the slot once between two moves of the index; tasks come and go at any time. */
  predicate CanDo(w: Wheel, e: Event) {
    match e
    case Add(id, delay) => CanAdd(w, id, delay)
    case StopTask(_) => true
    case TickSlot => !w.ticked
    case MoveIndex => w.ticked
  }

  function Do(w: Wheel, e: Event): Wheel
    requires Inv(w) && CanDo(w, e)
  {
    match e
    case Add(id, delay) => AddTask(w, id, delay)
    case StopTask(id) => Stop(w, id)
    case TickSlot => Tick(w).0
    case MoveIndex => Advance(w)
  }

  lemma DoInv(w: Wheel, e: Event)
    requires Inv(w) && CanDo(w, e)
    ensures Inv(Do(w, e))
  {
    match e {
      case Add(id, delay) => AddRefines(w, id, delay);
      case StopTask(id) => StopRefines(w, id);
      case TickSlot => TickRefines(w);
      case MoveIndex => AdvanceRefines(w);
    }
  }

  lemma StopRefines(w: Wheel, id: TaskId)
    requires Inv(w)
    ensures Inv(Stop(w, id))
    ensures Countdown(Stop(w, id)) == Countdown(w) - {id}
  {
    var w' := Stop(w, id);
    forall x | x in w'.place ensures PlaceOk(w', x) && Remaining(w', x) == Remaining(w, x) { assert PlaceOk(w, x); }
    StopCounts(w, w', id);
  }

  lemma StopCounts(w: Wheel, w': Wheel, id: TaskId)
    requires w'.place == w.place && w'.alive == w.alive - {id}
    requires forall x | x in w'.place :: Remaining(w', x) == Remaining(w, x)
    ensures Countdown(w') == Countdown(w) - {id}
  {
  }

  /** The events can happen one after the other, from `w` on. */
  ghost predicate Run(w: Wheel, events: seq<Event>)
    requires Inv(w)
    decreases |events|
  {
    events == [] || (CanDo(w, events[0]) && (DoInv(w, events[0]); Run(Do(w, events[0]), events[1..])))
  }

  /** The wheel after the first t events. */
  ghost function After(w: Wheel, events: seq<Event>, t: nat): (r: Wheel)
    requires Inv(w) && Run(w, events) && t <= |events|
    ensures r.cur < |r.work|
    decreases t
  {
    if t == 0 then w else DoInv(w, events[0]); After(Do(w, events[0]), events[1..], t - 1)
  }

  /** Every wheel on the way is in order, and every event can happen there. */
  lemma {:induction false} RunInv(w: Wheel, events: seq<Event>, t: nat)
    requires Inv(w) && Run(w, events) && t <= |events|
    ensures Inv(After(w, events, t))
    ensures t < |events| ==> CanDo(After(w, events, t), events[t])
    decreases t
  {
    if t > 0 {
      DoInv(w, events[0]);
      RunInv(Do(w, events[0]), events[1..], t - 1);
    }
  }

  /** How often the index moved during the first t events. */
  function Moves(events: seq<Event>, t: nat): nat
    requires t <= |events|
    decreases t
  {
    if t == 0 then 0 else (if events[0] == MoveIndex then 1 else 0) + Moves(events[1..], t - 1)
  }

  predicate Concerns(e: Event, id: TaskId) {
    (e.StopTask? || e.Add?) && e.id == id
  }

  /** The countdown of task `id` is at `k` as long as it has not fired, and gone once it has: at zero it
      lasts until the tick. */
  predicate At(w: Wheel, id: TaskId, k: int) {
    if k > 0 || (k == 0 && !w.ticked) then id in Countdown(w) && Countdown(w)[id] == k else id !in Countdown(w)
  }

  lemma CountsOn(w: Wheel, e: Event, id: TaskId, k: int)
    requires Inv(w) && CanDo(w, e) && At(w, id, k) && !Concerns(e, id)
    ensures At(Do(w, e), id, if e == MoveIndex then k - 1 else k)
  {
    match e {
      case Add(x, delay) => CountsOnAdd(w, x, delay, id, k);
      case StopTask(x) => StopRefines(w, x);
      case TickSlot => TickRefines(w);
      case MoveIndex => CountsOnMove(w, id, k);
    }
  }

  lemma CountsOnAdd(w: Wheel, x: TaskId, delay: nat, id: TaskId, k: int)
    requires CanAdd(w, x, delay) && At(w, id, k) && x != id
    ensures At(AddTask(w, x, delay), id, k)
  {
    AddRefines(w, x, delay);
    AddTaskPuts(w, x, delay);
  }

  lemma CountsOnMove(w: Wheel, id: TaskId, k: int)
    requires Inv(w) && w.ticked && At(w, id, k)
    ensures At(Advance(w), id, k - 1)
  {
    AdvanceRefines(w);
    assert !Advance(w).ticked;
  }

  lemma {:induction false} CountsThroughout(w: Wheel, events: seq<Event>, id: TaskId, n: int, t: nat)
    requires Inv(w) && Run(w, events) && At(w, id, n) && t <= |events|
    requires forall u | 0 <= u < t :: !Concerns(events[u], id)
    ensures At(After(w, events, t), id, n - Moves(events, t))
    decreases t
  {
    if t > 0 {
      DoInv(w, events[0]);
      CountsOn(w, events[0], id, n);
      assert forall u | 0 <= u < t - 1 :: events[1..][u] == events[u + 1];
      CountsThroughout(Do(w, events[0]), events[1..], id, if events[0] == MoveIndex then n - 1 else n, t - 1);
    }
  }

  lemma StaysTicked(w: Wheel, e: Event)
    requires Inv(w) && CanDo(w, e) && e != MoveIndex && (w.ticked || e == TickSlot)
    ensures Do(w, e).ticked
  {
    if e.Add? { AddTaskPuts(w, e.id, e.delay); }
  }

  lemma {:induction false} TickedUntilMove(w: Wheel, events: seq<Event>, u: nat)
    requires Inv(w) && Run(w, events) && w.ticked && u <= |events|
    ensures Moves(events, u) > 0 || After(w, events, u).ticked
    decreases u
  {
    if u > 0 && events[0] != MoveIndex {
      DoInv(w, events[0]);
      StaysTicked(w, events[0]);
      TickedUntilMove(Do(w, events[0]), events[1..], u - 1);
    }
  }

  /** Two ticks never see the same number of index moves, so "after n moves" names one tick. */
  lemma {:induction false} TicksDiffer(w: Wheel, events: seq<Event>, t: nat, u: nat)
    requires Inv(w) && Run(w, events) && t < u < |events| && events[t] == events[u] == TickSlot
    ensures Moves(events, t) < Moves(events, u)
    decreases t
  {
    DoInv(w, events[0]);
    if t > 0 {
      TicksDiffer(Do(w, events[0]), events[1..], t - 1, u - 1);
    } else {
      StaysTicked(w, events[0]);
      TickedUntilMove(Do(w, events[0]), events[1..], u - 1);
      RunInv(w, events, u);
    }
  }

  /** The wheel against the promise of a timer, from any reachable state and over any run that does not
      stop the task: a task added with an accepted delay fires in the tick after exactly `delay` moves
      of the index and in no other, unless the delay lies strictly between one round and the end of the
      next, when it fires exactly one round early. */
  lemma TaskFiresAfterItsDelay(w: Wheel, id: TaskId, delay: nat, events: seq<Event>, t: nat)
    requires CanAdd(w, id, delay) && delay < TIMER_MAX_INTERVAL_MS
    requires (AddRefines(w, id, delay); Run(AddTask(w, id, delay), events))
    requires forall u | 0 <= u < |events| :: !Concerns(events[u], id)
    requires t < |events| && events[t] == TickSlot
    ensures
      var fired := Tick(After(AddTask(w, id, delay), events, t)).1;
      var early := WORK_WHEEL_SIZE < delay && w.cur + delay < 2 * WORK_WHEEL_SIZE;
      && (id in fired <==> Moves(events, t) == if early then delay - WORK_WHEEL_SIZE else delay)
      && NoDup(fired)
    ensures forall u | 0 <= u < |events| && u != t && events[u] == TickSlot :: Moves(events, u) != Moves(events, t)
  {
    var n := Delay(w.cur, delay);
    AddRefines(w, id, delay);
    var w1 := AddTask(w, id, delay);
    AcceptedDelayIsExactIff(w.cur, delay);
    CountsThroughout(w1, events, id, n, t);
    RunInv(w1, events, t);
    FiresAtZero(After(w1, events, t), id, n - Moves(events, t));
    forall u | 0 <= u < |events| && u != t && events[u] == TickSlot
      ensures Moves(events, u) != Moves(events, t)
    {
      if u < t { TicksDiffer(w1, events, u, t); } else { TicksDiffer(w1, events, t, u); }
    }
  }

  /** The tick thread on its own: n rounds of its loop and one more tick. */
  function Ticking(n: nat): (r: seq<Event>)
    ensures |r| == 2 * n + 1 && r[2 * n] == TickSlot && forall i | 0 <= i < |r| :: r[i] == TickSlot || r[i] == MoveIndex
  {
    if n == 0 then [TickSlot] else [TickSlot, MoveIndex] + Ticking(n - 1)
  }

  lemma RunOne(w: Wheel, e: Event, rest: seq<Event>)
    requires Inv(w) && CanDo(w, e) && Inv(Do(w, e)) && Run(Do(w, e), rest)
    ensures Run(w, [e] + rest)
  {
    assert ([e] + rest)[1..] == rest;
  }

  lemma {:induction false} TickingRuns(w: Wheel, n: nat)
    requires Inv(w) && !w.ticked
    ensures Run(w, Ticking(n))
    decreases n
  {
    DoInv(w, TickSlot);
    var w1 := Tick(w).0;
    if n == 0 {
      RunOne(w, TickSlot, []);
      assert [TickSlot] + [] == Ticking(n);
    } else {
      DoInv(w1, MoveIndex);
      TickingRuns(Advance(w1), n - 1);
      RunOne(w1, MoveIndex, Ticking(n - 1));
      RunOne(w, TickSlot, [MoveIndex] + Ticking(n - 1));
      assert [TickSlot] + ([MoveIndex] + Ticking(n - 1)) == Ticking(n);
    }
  }

  lemma {:induction false} TickingMoves(n: nat)
    ensures Moves(Ticking(n), 2 * n) == n
  {
    if n > 0 {
      TickingMoves(n - 1);
      assert Ticking(n)[1..] == [MoveIndex] + Ticking(n - 1) && Ticking(n)[1..][1..] == Ticking(n - 1);
      assert Moves(Ticking(n)[1..], 2 * n - 1) == n;
    }
  }

  /** The failing case, as a run of a new wheel: a task added with a delay of 600 fires in the tick after 88
      moves of the index. */
  lemma SixHundredFiresEarly(w: Wheel, id: TaskId) returns (events: seq<Event>, t: nat)
    requires Init(w) && id in w.alive
    ensures CanAdd(w, id, 600) && Inv(AddTask(w, id, 600)) && Run(AddTask(w, id, 600), events)
    ensures t < |events| && events[t] == TickSlot && Moves(events, t) == 88
    ensures id in Tick(After(AddTask(w, id, 600), events, t)).1
  {
    InitInv(w);
    events, t := EarlyTaskFires(w, id, 600);
  }

  /** Every delay that is not kept fires one round early when the tick thread goes on. */
  lemma EarlyTaskFires(w: Wheel, id: TaskId, delay: nat) returns (events: seq<Event>, t: nat)
    requires CanAdd(w, id, delay) && !w.ticked && WORK_WHEEL_SIZE < delay && w.cur + delay < 2 * WORK_WHEEL_SIZE
    ensures Inv(AddTask(w, id, delay)) && Run(AddTask(w, id, delay), events)
    ensures t < |events| && events[t] == TickSlot && Moves(events, t) == delay - WORK_WHEEL_SIZE
    ensures id in Tick(After(AddTask(w, id, delay), events, t)).1
  {
    AddRefines(w, id, delay);
    AddTaskTicked(w, id, delay);
    AcceptedDelayIsExactIff(w.cur, delay);
    events, t := TickingFires(AddTask(w, id, delay), id, delay - WORK_WHEEL_SIZE);
  }

  lemma TickingFires(w: Wheel, id: TaskId, n: nat) returns (events: seq<Event>, t: nat)
    requires Inv(w) && !w.ticked && At(w, id, n)
    ensures Run(w, events) && t < |events| && events[t] == TickSlot && Moves(events, t) == n
    ensures id in Tick(After(w, events, t)).1
  {
    events, t := Ticking(n), 2 * n;
    TickingRuns(w, n);
    TickingMoves(n);
    CountsThroughout(w, events, id, n, t);
    RunInv(w, events, t);
    FiresAtZero(After(w, events, t), id, 0);
  }

  lemma AddTaskTicked(w: Wheel, id: TaskId, delay: nat)
    requires CanAdd(w, id, delay)
    ensures AddTask(w, id, delay).ticked == w.ticked
  {
    AddTaskPuts(w, id, delay);
  }

  lemma FiresAtZero(w: Wheel, id: TaskId, k: int)
    requires Inv(w) && !w.ticked && At(w, id, k)
    ensures id in Tick(w).1 <==> k == 0
    ensures NoDup(Tick(w).1)
  {
    TickRefines(w);
  }

  // ---------------------------------------------------------------- the wheel in place

  class Clockwork {
    var work: array<seq<TaskId>>
    var assistant: array<seq<TaskId>>
    var remainder: map<TaskId, nat>
    var alive: set<TaskId>
    var cur: nat
    var round: nat
    var ticked: bool
    ghost var place: map<TaskId, Place>

    ghost function Model(): Wheel
      reads this, work, assistant
    {
      Wheel(work[..], assistant[..], remainder, alive, cur, round, ticked, place)
    }

    ghost predicate Valid()
      reads this, work, assistant
    {
      work != assistant && Inv(Model())
    }

    constructor ()
      ensures Valid() && fresh(work) && fresh(assistant) && Init(Model())
    {
      work := new seq<TaskId>[WORK_WHEEL_SIZE](_ => []);
      assistant := new seq<TaskId>[ASSISTANT_WHEEL_SIZE](_ => []);
      remainder, alive, cur, round, ticked, place := map[], {}, 0, 0, false, map[];
      new;
      assert work[..] == seq(WORK_WHEEL_SIZE, _ => []);
      assert assistant[..] == seq(ASSISTANT_WHEEL_SIZE, _ => []);
      InitInv(Model());
    }

    method Add(id: TaskId, delay: nat)
      requires Valid() && CanAdd(Model(), id, delay)
      modifies this, work, assistant
      ensures Valid() && work == old(work) && assistant == old(assistant)
      ensures Model() == AddTask(old(Model()), id, delay)
    {
      ghost var before := Model();
      var index := cur + delay;
      if index >= WORK_WHEEL_SIZE {
        var realIndex := GetWorkWheelIndex(index);
        remainder := remainder[id := realIndex];
        var ticks := index / WORK_WHEEL_SIZE;
        if ticks == 1 && realIndex != cur {
          AppendWork(realIndex, id);
        } else {
          AppendAssistant(GetAssistantWheelIndex(round + ticks), id);
        }
      } else {
        AppendWork(index, id);
      }
      assert Model() == AddTask(before, id, delay);
      AddRefines(before, id, delay);
    }

    /** `TimerBucket::AddTask` on a work slot. */
    method AppendWork(i: nat, id: TaskId)
      requires work != assistant && i < work.Length
      modifies this`place, work
      ensures Model() == PutWork(old(Model()), id, i)
    {
      work[i] := work[i] + [id];
      place := place[id := Work(i)];
    }

    method AppendAssistant(j: nat, id: TaskId)
      requires work != assistant && j < assistant.Length
      modifies this`place, assistant
      ensures Model() == PutAssistant(old(Model()), id, j)
    {
      assistant[j] := assistant[j] + [id];
      place := place[id := Assistant(j)];
    }

    /** Walks the current bucket front to back, erasing every entry and firing the live ones. */
    method TickNow() returns (fired: seq<TaskId>)
      requires Valid()
      modifies this`place, this`ticked, work
      ensures Valid()
      ensures (Model(), fired) == Tick(old(Model()))
    {
      ghost var before := Model();
      fired := DrainSlot();
      place := Without(place, before.work[cur]);
      ticked := true;
      assert Model() == Tick(before).0;
      TickRefines(before);
    }

    method DrainSlot() returns (fired: seq<TaskId>)
      requires work != assistant && cur < work.Length
      modifies work
      ensures work[..] == old(work[..])[cur := []]
      ensures fired == Live(old(work[cur]), alive)
    {
      fired := [];
      while work[cur] != []
        invariant work[..] == old(work[..])[cur := work[cur]]
        invariant Live(old(work[cur]), alive) == fired + Live(work[cur], alive)
        decreases |work[cur]|
      {
        var id := work[cur][0];
        LiveShift(work[cur], alive, fired);
        if id in alive { fired := fired + [id]; }
        work[cur] := work[cur][1..];
      }
    }

    /** Walks an assistant bucket front to back, erasing every entry and re-adding the live ones. */
    method CascadeNow(j: nat)
      requires work != assistant && work.Length == WORK_WHEEL_SIZE && j < assistant.Length
      requires forall id | id in assistant[j] :: id in remainder && remainder[id] < WORK_WHEEL_SIZE
      modifies this`place, work, assistant
      ensures Model() == Cascade(old(Model()), j)
    {
      ghost var before := Model();
      EmptyBucket(j);
      place := Cascade(before, j).place;
    }

    method EmptyBucket(j: nat)
      requires work != assistant && j < assistant.Length
      requires forall id | id in assistant[j] :: id in remainder && remainder[id] < work.Length
      modifies work, assistant
      ensures assistant[..] == old(assistant[..])[j := []]
      ensures work[..] == Spread(old(work[..]), Live(old(assistant[j]), alive), remainder)
    {
      ghost var goal := Spread(work[..], Live(assistant[j], alive), remainder);
      while assistant[j] != []
        invariant assistant[..] == old(assistant[..])[j := assistant[j]]
        invariant forall id | id in assistant[j] :: id in remainder && remainder[id] < work.Length
        invariant Spread(work[..], Live(assistant[j], alive), remainder) == goal
        decreases |assistant[j]|
      {
        MoveFirst(j);
      }
    }

    /** Erases the first entry and puts a live one into its work slot. */
    method MoveFirst(j: nat)
      requires work != assistant && j < assistant.Length && assistant[j] != []
      requires forall id | id in assistant[j] :: id in remainder && remainder[id] < work.Length
      modifies work, assistant
      ensures assistant[..] == old(assistant[..])[j := old(assistant[j])[1..]]
      ensures assistant[j] == old(assistant[j])[1..]
      ensures Spread(work[..], Live(assistant[j], alive), remainder)
              == old(Spread(work[..], Live(assistant[j], alive), remainder))
    {
      var id := assistant[j][0];
      ghost var works, live := work[..], Live(assistant[j], alive);
      if id in alive {
        assert live[0] == id && live[1..] == Live(assistant[j][1..], alive);
        var i := remainder[id];
        work[i] := work[i] + [id];
        assert work[..] == works[i := works[i] + [id]];
      } else {
        assert live == Live(assistant[j][1..], alive);
      }
      assistant[j] := assistant[j][1..];
    }

    /** The tail of the loop in `TickFunc`, after the sleep. */
    method AdvanceNow()
      requires Valid() && ticked
      modifies this, work, assistant
      ensures Valid() && work == old(work) && assistant == old(assistant)
      ensures Model() == Advance(old(Model()))
    {
      ghost var before := Model();
      TurnNow();
      AdvanceRefines(before);
    }

    method TurnNow()
      requires Valid() && ticked
      modifies this, work, assistant
      ensures work == old(work) && assistant == old(assistant)
      ensures Model() == Advance(old(Model()))
    {
      ghost var before := Model();
      cur := GetWorkWheelIndex(cur + 1);
      ticked := false;
      if cur == 0 {
        round := GetAssistantWheelIndex(round + 1);
        TurnedOk(before);
        assert Model() == Turned(before);
        CascadeNow(round);
      } else {
        assert Model() == before.(cur := before.cur + 1, ticked := false);
      }
      AdvanceIs(before);
    }
  }
}
