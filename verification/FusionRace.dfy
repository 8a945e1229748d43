/**
 The fusion callback of cyber/data/fusion/all_latest.h against channels that go on receiving: it looks at
 the secondary channels one after the other, each under its own lock, so messages can arrive between two
 looks. DataBuffer.dfy has the callback at one instant; this is the same callback as a transition system.
 */
module FusionRace {

  import opened DataBuffer

  /** Under way for the primary that is arrival `begun`; |others| channels were looked at, channel j after
      `looks[j]` arrivals. */
  datatype Callback<T> =
    | Idle
    | Looking(begun: nat, others: seq<T>, looks: seq<nat>)

  /** A fused message, the stretch of arrivals during which it was put together, and the looks. */
  datatype Entry<T> = Entry(data: Fused<T>, begun: nat, ended: nat, looks: seq<nat>)

  /** `n` secondary channels. `arrivals` is the history of all channels; a look at a ring sees what was
      received on it so far. */
  datatype State<T> = State(n: nat, arrivals: seq<Arrival<T>>, callback: Callback<T>, fused: seq<Entry<T>>)

  datatype Action<T> =
    | ArriveSecondary(channel: nat, m: T)
    | ArrivePrimary(m: T)   // the primary ring's lock admits one callback at a time
    | LookNext
    | Push

  function Start<T>(n: nat): State<T> {
    State(n, [], Idle, [])
  }

  predicate Enabled<T>(s: State<T>, a: Action<T>) {
    match a
    case ArriveSecondary(_, _) => true
    case ArrivePrimary(_) => s.callback.Idle?
    case LookNext => s.callback.Looking? && |s.callback.others| < s.n
    case Push =>
      s.callback.Looking? && |s.callback.others| >= s.n
      && s.callback.begun < |s.arrivals| && s.arrivals[s.callback.begun].Primary?
  }

  function Next<T>(s: State<T>, a: Action<T>): State<T>
    requires Enabled(s, a)
  {
    match a
    case ArriveSecondary(channel, m) => s.(arrivals := s.arrivals + [Secondary(channel, m)])
    case ArrivePrimary(m) => s.(arrivals := s.arrivals + [Primary(m)], callback := Looking(|s.arrivals|, [], []))
    case LookNext =>
      var c, seen := s.callback, Received(s.arrivals, |s.callback.others|);
      s.(callback := if seen == [] then Idle
                     else Looking(c.begun, c.others + [seen[|seen| - 1]], c.looks + [|s.arrivals|]))
    case Push =>
      var data := Fused(s.arrivals[s.callback.begun].m, s.callback.others);
      s.(callback := Idle, fused := s.fused + [Entry(data, s.callback.begun, |s.arrivals|, s.callback.looks)])
  }

  // ---------------------------------------------------------------- what is fused

  /** After t arrivals `x` is the latest message of channel j. */
  predicate LatestAt<T(==)>(arrivals: seq<Arrival<T>>, t: nat, j: nat, x: T) {
    t <= |arrivals| && var seen := Received(arrivals[..t], j); seen != [] && seen[|seen| - 1] == x
  }

  ghost predicate LooksOk<T>(arrivals: seq<Arrival<T>>, begun: nat, ended: nat, others: seq<T>, looks: seq<nat>) {
    && |looks| == |others|
    && forall j | 0 <= j < |looks| :: begun < looks[j] <= ended && LatestAt(arrivals, looks[j], j, others[j])
  }

  ghost predicate EntryOk<T>(s: State<T>, e: Entry<T>) {
    && e.begun < e.ended <= |s.arrivals| && s.arrivals[e.begun] == Primary(e.data.primary)
    && |e.data.others| == s.n && LooksOk(s.arrivals, e.begun, e.ended, e.data.others, e.looks)
  }

  ghost predicate Inv<T>(s: State<T>) {
    && (forall i | 0 <= i < |s.fused| :: EntryOk(s, s.fused[i]))
    && (forall i, j | 0 <= i < j < |s.fused| :: s.fused[i].ended <= s.fused[j].begun)
    && (s.callback.Looking? ==>
          && s.callback.begun < |s.arrivals| && s.arrivals[s.callback.begun].Primary?
          && |s.callback.others| <= s.n
          && LooksOk(s.arrivals, s.callback.begun, |s.arrivals|, s.callback.others, s.callback.looks)
          && forall i | 0 <= i < |s.fused| :: s.fused[i].ended <= s.callback.begun)
  }

  lemma LatestMore<T>(arrivals: seq<Arrival<T>>, more: Arrival<T>, t: nat, j: nat, x: T)
    requires LatestAt(arrivals, t, j, x)
    ensures LatestAt(arrivals + [more], t, j, x)
  {
    assert (arrivals + [more])[..t] == arrivals[..t];
  }

  lemma LooksMore<T>(arrivals: seq<Arrival<T>>, more: Arrival<T>, begun: nat, ended: nat, ended': nat,
                     others: seq<T>, looks: seq<nat>)
    requires LooksOk(arrivals, begun, ended, others, looks) && ended <= ended'
    ensures LooksOk(arrivals + [more], begun, ended', others, looks)
  {
    forall j | 0 <= j < |looks| ensures LatestAt(arrivals + [more], looks[j], j, others[j]) {
      LatestMore(arrivals, more, looks[j], j, others[j]);
    }
  }

  lemma ArriveInv<T>(s: State<T>, more: Arrival<T>)
    requires Inv(s)
    ensures Inv(s.(arrivals := s.arrivals + [more]))
  {
    var s' := s.(arrivals := s.arrivals + [more]);
    forall i | 0 <= i < |s.fused| ensures EntryOk(s', s.fused[i]) {
      var e := s.fused[i];
      assert EntryOk(s, e);
      LooksMore(s.arrivals, more, e.begun, e.ended, e.ended, e.data.others, e.looks);
    }
    if s.callback.Looking? {
      var c := s.callback;
      LooksMore(s.arrivals, more, c.begun, |s.arrivals|, |s.arrivals| + 1, c.others, c.looks);
    }
  }

  lemma LookInv<T>(s: State<T>)
    requires Inv(s) && Enabled(s, LookNext)
    ensures Inv(Next(s, LookNext))
  {
    var j := |s.callback.others|;
    var seen := Received(s.arrivals, j);
    if seen != [] {
      assert s.arrivals[..|s.arrivals|] == s.arrivals;
      assert LatestAt(s.arrivals, |s.arrivals|, j, seen[|seen| - 1]);
    }
    forall i | 0 <= i < |s.fused| ensures EntryOk(Next(s, LookNext), s.fused[i]) { assert EntryOk(s, s.fused[i]); }
  }

  lemma NextInv<T>(s: State<T>, a: Action<T>)
    requires Inv(s) && Enabled(s, a)
    ensures Inv(Next(s, a))
  {
    match a
    case ArriveSecondary(channel, m) => ArriveInv(s, Secondary(channel, m));
    case ArrivePrimary(m) =>
      ArriveInv(s, Primary(m));
      var s', s1 := Next(s, a), s.(arrivals := s.arrivals + [Primary(m)]);
      forall i | 0 <= i < |s.fused| ensures EntryOk(s', s'.fused[i]) && s.fused[i].ended <= |s.arrivals| {
        assert EntryOk(s1, s1.fused[i]) && EntryOk(s, s.fused[i]);
      }
    case LookNext => LookInv(s);
    case Push =>
      var s' := Next(s, a);
      forall i | 0 <= i < |s'.fused| ensures EntryOk(s', s'.fused[i]) {
        if i < |s.fused| { assert EntryOk(s, s.fused[i]); }
      }
  }

  // ---------------------------------------------------------------- that it is fused

  ghost predicate FusedFrom<T>(s: State<T>, a: nat) {
    exists i :: 0 <= i < |s.fused| && s.fused[i].begun == a
  }

  /** Arrival a is a primary message that found data on every channel. */
  predicate IsDue<T>(arrivals: seq<Arrival<T>>, a: nat, n: nat) {
    a < |arrivals| && arrivals[a].Primary? && Started(arrivals[..a], n)
  }

  ghost predicate Served<T>(s: State<T>, a: nat) {
    (s.callback.Looking? && s.callback.begun == a) || FusedFrom(s, a)
  }

  /** Every primary message that is due has been fused or its callback is under way. */
  ghost predicate AllServed<T>(s: State<T>) {
    forall a: nat | IsDue(s.arrivals, a, s.n) :: Served(s, a)
  }

  /** The callback of a due primary never gives up. */
  lemma DueGoesOn<T>(s: State<T>)
    requires Inv(s) && Enabled(s, LookNext) && IsDue(s.arrivals, s.callback.begun, s.n)
    ensures Next(s, LookNext).callback.Looking?
  {
    var b := s.callback.begun;
    StartedStays(s.arrivals[..b], s.arrivals[b..], s.n);
    assert s.arrivals[..b] + s.arrivals[b..] == s.arrivals;
  }

  lemma ServedNext<T>(s: State<T>, action: Action<T>)
    requires Inv(s) && Enabled(s, action) && AllServed(s)
    ensures AllServed(Next(s, action))
  {
    var s' := Next(s, action);
    forall a: nat | IsDue(s'.arrivals, a, s.n) ensures Served(s', a) {
      if a < |s.arrivals| {
        assert s'.arrivals[..a] == s.arrivals[..a];
        assert IsDue(s.arrivals, a, s.n) && Served(s, a);
        StillServed(s, action, a);
      }
    }
  }

  lemma StillServed<T>(s: State<T>, action: Action<T>, a: nat)
    requires Inv(s) && Enabled(s, action) && IsDue(s.arrivals, a, s.n) && Served(s, a)
    ensures Served(Next(s, action), a)
  {
    var s' := Next(s, action);
    if FusedFrom(s, a) {
      var i :| 0 <= i < |s.fused| && s.fused[i].begun == a;
      assert s'.fused[i] == s.fused[i];
    } else if action.LookNext? {
      DueGoesOn(s);
    } else if action.Push? {
      assert s'.fused[|s.fused|].begun == a;
    }
  }

  // ---------------------------------------------------------------- whole runs

  predicate Run<T>(s: State<T>, actions: seq<Action<T>>)
    decreases |actions|
  {
    actions == [] || (Enabled(s, actions[0]) && Run(Next(s, actions[0]), actions[1..]))
  }

  function Final<T>(s: State<T>, actions: seq<Action<T>>): State<T>
    requires Run(s, actions)
    decreases |actions|
  {
    if actions == [] then s else Final(Next(s, actions[0]), actions[1..])
  }

  lemma {:induction false} RunInv<T>(s: State<T>, actions: seq<Action<T>>)
    requires Inv(s) && AllServed(s) && Run(s, actions)
    ensures Inv(Final(s, actions)) && AllServed(Final(s, actions)) && Final(s, actions).n == s.n
    decreases |actions|
  {
    if actions != [] {
      NextInv(s, actions[0]);
      ServedNext(s, actions[0]);
      RunInv(Next(s, actions[0]), actions[1..]);
    }
  }

  /** What a step delivers. */
  function ArrivalOf<T>(a: Action<T>): seq<Arrival<T>> {
    match a
    case ArriveSecondary(channel, m) => [Secondary(channel, m)]
    case ArrivePrimary(m) => [Primary(m)]
    case LookNext => []
    case Push => []
  }

  function Arriving<T>(actions: seq<Action<T>>): seq<Arrival<T>> {
    if actions == [] then [] else ArrivalOf(actions[0]) + Arriving(actions[1..])
  }

  lemma ArrivalRecorded<T>(s: State<T>, a: Action<T>)
    requires Enabled(s, a)
    ensures Next(s, a).arrivals == s.arrivals + ArrivalOf(a)
  {
    assert s.arrivals + [] == s.arrivals;
  }

  /** The history is what arrived, in order. */
  lemma {:induction false} ArrivalsAreRecorded<T>(s: State<T>, actions: seq<Action<T>>)
    requires Run(s, actions)
    ensures Final(s, actions).arrivals == s.arrivals + Arriving(actions)
    decreases |actions|
  {
    if actions == [] {
      assert s.arrivals + [] == s.arrivals;
    } else {
      ArrivalRecorded(s, actions[0]);
      ArrivalsAreRecorded(Next(s, actions[0]), actions[1..]);
      Regroup(s.arrivals, ArrivalOf(actions[0]), Arriving(actions[1..]));
    }
  }

  lemma Regroup<T>(a: seq<Arrival<T>>, b: seq<Arrival<T>>, c: seq<Arrival<T>>)
    ensures a + (b + c) == (a + b) + c
  {
  }

  /** A step of the callback itself. */
  predicate Own<T>(a: Action<T>) {
    a.LookNext? || a.Push?
  }

  function OwnSteps<T>(actions: seq<Action<T>>): nat {
    if actions == [] then 0 else (if Own(actions[0]) then 1 else 0) + OwnSteps(actions[1..])
  }

  /** How many steps the callback can still make: one look at every channel left, and the push. */
  function StepsLeft<T>(s: State<T>): int {
    if s.callback.Looking? then s.n - |s.callback.others| + 1 else 0
  }

  /** However the callback of a primary message is interleaved with arrivals, it ends: after a look at every
      channel and the push, or at the first channel that has no message, and then nothing is fused. */
  lemma {:induction false} CallbackEnds<T>(s: State<T>, actions: seq<Action<T>>)
    requires Inv(s) && Run(s, actions) && forall i | 0 <= i < |actions| :: !actions[i].ArrivePrimary?
    ensures OwnSteps(actions) + StepsLeft(Final(s, actions)) <= StepsLeft(s)
    decreases |actions|
  {
    if actions != [] {
      NextInv(s, actions[0]);
      assert !actions[0].ArrivePrimary?;
      CallbackEnds(Next(s, actions[0]), actions[1..]);
    }
  }

  /** Over every interleaving: each fused message pairs a primary message with, for every secondary channel,
      the message that was the latest of its channel at the look, an instant of the callback; and the
      callbacks of the fused messages follow one another, so the primaries are fused in order. */
  lemma FusedWithinItsCallback<T>(n: nat, actions: seq<Action<T>>)
    requires Run(Start(n), actions)
    ensures
      var s := Final(Start(n), actions);
      && (forall i | 0 <= i < |s.fused| ::
            && s.fused[i].begun < s.fused[i].ended <= |s.arrivals| && |s.fused[i].looks| == n
            && s.arrivals[s.fused[i].begun] == Primary(s.fused[i].data.primary) && |s.fused[i].data.others| == n)
      && (forall i, j | 0 <= i < |s.fused| && 0 <= j < n ::
            && s.fused[i].begun < s.fused[i].looks[j] <= s.fused[i].ended
            && LatestAt(s.arrivals, s.fused[i].looks[j], j, s.fused[i].data.others[j]))
      && (forall i, j | 0 <= i < j < |s.fused| :: s.fused[i].ended <= s.fused[j].begun)
  {
    RunInv(Start(n), actions);
    var s := Final(Start(n), actions);
    forall i | 0 <= i < |s.fused| ensures EntryOk(s, s.fused[i]) {}
  }

  /** Over every interleaving: a primary message that arrives once every channel has data is fused, and
      fused once, unless its callback is still under way. */
  lemma DuePrimaryIsFusedOnce<T>(n: nat, actions: seq<Action<T>>, a: nat)
    requires Run(Start(n), actions) && IsDue(Final(Start(n), actions).arrivals, a, n)
    ensures
      var s := Final(Start(n), actions);
      && ((s.callback.Looking? && s.callback.begun == a) || FusedFrom(s, a))
      && (forall i, j | 0 <= i < j < |s.fused| :: !(s.fused[i].begun == a && s.fused[j].begun == a))
  {
    RunInv(Start(n), actions);
    var s := Final(Start(n), actions);
    assert Served(s, a);
    forall i, j | 0 <= i < j < |s.fused| ensures s.fused[i].begun < s.fused[j].begun { assert EntryOk(s, s.fused[i]); }
  }

  // ---------------------------------------------------------------- against the callback at one instant

  lemma {:induction false} ReceivedAppend<T>(a: seq<Arrival<T>>, b: seq<Arrival<T>>, j: nat)
    ensures Received(a + b, j) == Received(a, j) + Received(b, j)
    decreases |b|
  {
    if b == [] {
      assert a + b == a;
    } else {
      var k := |b| - 1;
      ReceivedAppend(a, b[..k], j);
      assert (a + b)[..|a + b| - 1] == a + b[..k];
    }
  }

  /** What arrived on channel j from the primary's arrival up to the look is nothing, or ends with a message
      equal to the one that was the latest when the primary arrived. */
  predicate NotOvertaken<T(==)>(arrivals: seq<Arrival<T>>, begun: nat, look: nat, j: nat)
    requires begun <= look <= |arrivals|
  {
    var before, between := Received(arrivals[..begun], j), Received(arrivals[begun..look], j);
    between == [] || (before != [] && between[|between| - 1] == before[|before| - 1])
  }

  /** A look shows what was the latest when the primary arrived if and only if no different message came in
      between. */
  lemma LookIsExactIff<T>(arrivals: seq<Arrival<T>>, begun: nat, look: nat, j: nat, x: T)
    requires begun <= look && LatestAt(arrivals, look, j, x)
    ensures LatestAt(arrivals, begun, j, x) <==> NotOvertaken(arrivals, begun, look, j)
  {
    ReceivedAppend(arrivals[..begun], arrivals[begun..look], j);
    assert arrivals[..begun] + arrivals[begun..look] == arrivals[..look];
  }

  /** Over every interleaving: a fused message is what the callback at one instant would have made of its
      primary if and only if no channel was overtaken before the look at it. */
  lemma FusedIsExactIff<T>(n: nat, actions: seq<Action<T>>, i: nat)
    requires Run(Start(n), actions) && i < |Final(Start(n), actions).fused|
    ensures
      var s := Final(Start(n), actions);
      var e := s.fused[i];
      && e.begun < |s.arrivals| && |e.looks| == n && (forall j | 0 <= j < n :: e.begun <= e.looks[j] <= |s.arrivals|)
      && ((Started(s.arrivals[..e.begun], n) && e.data.others == LatestOf(s.arrivals[..e.begun], n))
          <==> forall j | 0 <= j < n :: NotOvertaken(s.arrivals, e.begun, e.looks[j], j))
  {
    FusedWithinItsCallback(n, actions);
    var s := Final(Start(n), actions);
    var e := s.fused[i];
    forall j | 0 <= j < n
      ensures LatestAt(s.arrivals, e.begun, j, e.data.others[j]) <==> NotOvertaken(s.arrivals, e.begun, e.looks[j], j)
    {
      LookIsExactIff(s.arrivals, e.begun, e.looks[j], j, e.data.others[j]);
    }
    LatestEverywhere(s.arrivals, e.begun, n, e.data.others);
  }

  lemma LatestEverywhere<T>(arrivals: seq<Arrival<T>>, t: nat, n: nat, others: seq<T>)
    requires t <= |arrivals| && |others| == n
    ensures (Started(arrivals[..t], n) && others == LatestOf(arrivals[..t], n))
            <==> forall j | 0 <= j < n :: LatestAt(arrivals, t, j, others[j])
  {
    if forall j | 0 <= j < n :: LatestAt(arrivals, t, j, others[j]) {
      assert forall j | 0 <= j < n :: LatestAt(arrivals, t, j, others[j]) && Received(arrivals[..t], j) != [];
    }
  }

  /** A callback that nothing interrupted fuses what the callback at one instant does. */
  lemma UninterruptedIsExact<T>(n: nat, actions: seq<Action<T>>, i: nat)
    requires Run(Start(n), actions) && i < |Final(Start(n), actions).fused|
    ensures
      var s := Final(Start(n), actions);
      var e := s.fused[i];
      && e.begun < |s.arrivals|
      && (e.ended == e.begun + 1 ==>
            Started(s.arrivals[..e.begun], n) && e.data.others == LatestOf(s.arrivals[..e.begun], n))
  {
    FusedWithinItsCallback(n, actions);
    FusedIsExactIff(n, actions, i);
    var s := Final(Start(n), actions);
    var e := s.fused[i];
    if e.ended == e.begun + 1 {
      forall j | 0 <= j < n ensures NotOvertaken(s.arrivals, e.begun, e.looks[j], j) {
        assert s.arrivals[e.begun..e.looks[j]] == [Primary(e.data.primary)];
      }
    }
  }

  lemma RunOne<T>(s: State<T>, a: Action<T>, rest: seq<Action<T>>)
    requires Enabled(s, a) && Run(Next(s, a), rest)
    ensures Run(s, [a] + rest) && Final(s, [a] + rest) == Final(Next(s, a), rest)
  {
    assert ([a] + rest)[1..] == rest;
  }

  const OVERTAKING: seq<Arrival<int>> := [Secondary(0, 7), Primary(1), Secondary(0, 8)]

  lemma OvertakingReceived()
    ensures Received(OVERTAKING[..1], 0) == [7] && Received(OVERTAKING, 0) == [7, 8]
  {
    var first: seq<Arrival<int>> := [Secondary(0, 7)];
    assert first[..0] == [] && OVERTAKING[..1] == first;
    assert Received(first, 0) == [] + [7];
    assert OVERTAKING[..2][..1] == first && OVERTAKING[..2][1] == Primary(1);
    assert Received(OVERTAKING[..2], 0) == [7];
  }

  /** The callback of the primary looks at its one channel when all three messages have arrived. */
  lemma OvertakingEnds() returns (s: State<int>)
    ensures Run(State(1, OVERTAKING, Looking(1, [], []), []), [LookNext, Push])
    ensures Final(State(1, OVERTAKING, Looking(1, [], []), []), [LookNext, Push]) == s
    ensures s == State(1, OVERTAKING, Idle, [Entry(Fused(1, [8]), 1, 3, [3])])
  {
    OvertakingReceived();
    var s3 := State(1, OVERTAKING, Looking(1, [], []), []);
    var s4 := Next(s3, LookNext);
    var others, looks := s4.callback.others, s4.callback.looks;
    assert others == [8] && looks == [3];
    assert s4.callback == Looking(1, others, looks);
    s := Next(s4, Push);
    assert s.fused == [Entry(Fused(1, others), 1, 3, looks)];
    RunOne(s4, Push, []);
    RunOne(s3, LookNext, [Push]);
    var push: seq<Action<int>> := [Push];
    assert push + [] == push && [LookNext] + push == [LookNext, Push];
  }

  lemma OvertakingRun() returns (actions: seq<Action<int>>)
    ensures Run(Start(1), actions)
    ensures Final(Start(1), actions) == State(1, OVERTAKING, Idle, [Entry(Fused(1, [8]), 1, 3, [3])])
  {
    var last := OvertakingEnds();
    var s1 := Next(Start(1), ArriveSecondary(0, 7));
    var s2 := Next(s1, ArrivePrimary(1));
    var s3 := Next(s2, ArriveSecondary(0, 8));
    assert s3.arrivals == OVERTAKING;
    RunOne(s2, ArriveSecondary(0, 8), [LookNext, Push]);
    var rest := [ArriveSecondary(0, 8)] + [LookNext, Push];
    RunOne(s1, ArrivePrimary(1), rest);
    RunOne(Start(1), ArriveSecondary(0, 7), [ArrivePrimary(1)] + rest);
    actions := [ArriveSecondary(0, 7)] + ([ArrivePrimary(1)] + rest);
  }

  /** The failing case: a secondary message that arrives during the callback is fused with a primary that
      arrived before it. */
  lemma OvertakenHappens() returns (actions: seq<Action<int>>)
    ensures Run(Start(1), actions)
    ensures
      var s := Final(Start(1), actions);
      && s.arrivals == OVERTAKING && s.fused == [Entry(Fused(1, [8]), 1, 3, [3])]
      && Started(s.arrivals[..1], 1) && LatestOf(s.arrivals[..1], 1) == [7]
  {
    actions := OvertakingRun();
    OvertakingReceived();
    assert LatestOf(OVERTAKING[..1], 1) == [7];
  }
}
