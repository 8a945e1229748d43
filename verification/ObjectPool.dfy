/**
 The lock-free free-list stack of cyber/base/concurrent_object_pool.h as a transition system:
 one atomic access per step, any number of threads. The head carries a count so that a stale
 compare-and-swap cannot succeed after pops and pushes that bring the same node back.
 */
module ObjectPool {

  import opened Options

  type Tid = nat
  type Node = nat

  datatype Head = Head(count: nat, node: Option<Node>)

  datatype Pc =
    | Idle
    | GLoad
    | GReadNext(seen: Head)
    | GCas(seen: Head, next: Option<Node>)
    | GDone(got: Option<Node>)
    | RLoad(n: Node)
    | RWrite(n: Node, seen: Head)
    | RCas(n: Node, seen: Head)

  /** `out` holds the nodes wrapped in a live shared pointer, `releasing` those inside
      `ReleaseObject`. `free` is history: the free list a sequential stack would have. */
  datatype State = State(
    next: seq<Option<Node>>, head: Head, pcs: map<Tid, Pc>,
    out: set<Node>, releasing: map<Node, Tid>, free: seq<Node>)

  datatype Action =
    | BeginGet(t: Tid)
    | BeginRelease(t: Tid, n: Node)
    | Step(t: Tid)
    | WeakFail(t: Tid)

  predicate AtRest(pc: Pc) {
    pc.Idle? || pc.GDone?
  }

  predicate Releases(pc: Pc, n: Node) {
    (pc.RLoad? || pc.RWrite? || pc.RCas?) && pc.n == n
  }

  /** Following `next` from `node` visits exactly the nodes of `free` and ends at null. */
  predicate Chain(next: seq<Option<Node>>, node: Option<Node>, free: seq<Node>)
    decreases |free|
  {
    if free == [] then node == None
    else node == Some(free[0]) && free[0] < |next| && Chain(next, next[free[0]], free[1..])
  }

  predicate Distinct(xs: seq<Node>) {
    forall i, j | 0 <= i < j < |xs| :: xs[i] != xs[j]
  }

  /** The constructor links node i to node i + 1 and the last node to null. */
  method LinkArena(capacity: nat) returns (next: seq<Option<Node>>)
    requires capacity >= 1
    ensures |next| == capacity && Linked(next)
    ensures Chain(next, Some(0), seq(capacity, i => i))
  {
    next := seq(capacity, _ => None);
    var i := 0;
    while i < capacity - 1
      invariant 0 <= i <= capacity - 1 && |next| == capacity
      invariant forall j | 0 <= j < i :: next[j] == Some(j + 1)
    {
      next := next[i := Some(i + 1)];
      i := i + 1;
    }
    next := next[capacity - 1 := None];
    ConsecutiveChain(next, 0);
    assert seq(capacity, i => i) == seq(capacity - 0, i => 0 + i);
  }

  predicate Linked(next: seq<Option<Node>>) {
    forall j | 0 <= j < |next| :: next[j] == if j + 1 < |next| then Some(j + 1) else None
  }

  lemma {:induction false} ConsecutiveChain(next: seq<Option<Node>>, from: nat)
    requires from < |next| && Linked(next)
    ensures Chain(next, Some(from), seq(|next| - from, i => from + i))
    decreases |next| - from
  {
    var c := seq(|next| - from, i => from + i);
    if from + 1 < |next| {
      ConsecutiveChain(next, from + 1);
      assert c[1..] == seq(|next| - (from + 1), i => from + 1 + i);
    } else {
      assert c[1..] == [];
    }
  }

  predicate Init(s: State, capacity: nat) {
    && capacity >= 1 && |s.next| == capacity
    && s.head == Head(0, Some(0))
    && Linked(s.next) && s.free == seq(capacity, i => i)
    && s.out == {} && s.releasing == map[]
    && (forall t | t in s.pcs :: s.pcs[t] == Idle)
  }

  /** Every pointer in memory or in a register is null or a node of the arena. */
  predicate InArena(s: State, p: Option<Node>) {
    p.Some? ==> p.value < |s.next|
  }

  predicate Shape(s: State) {
    && InArena(s, s.head.node)
    && (forall i | 0 <= i < |s.next| :: InArena(s, s.next[i]))
    && (forall n | n in s.out :: n < |s.next|)
    && (forall t | t in s.pcs :: ShapePc(s, s.pcs[t]))
  }

  predicate ShapePc(s: State, pc: Pc) {
    match pc
    case GReadNext(seen) => seen.node.Some? && InArena(s, seen.node)
    case GCas(seen, next) => seen.node.Some? && InArena(s, seen.node) && InArena(s, next)
    case RLoad(n) => n < |s.next|
    case RWrite(n, seen) => n < |s.next| && InArena(s, seen.node)
    case RCas(n, seen) => n < |s.next| && InArena(s, seen.node)
    case _ => true
  }

  /** Only a holder of the node releases it; a released node leaves `out` at once. */
  predicate Enabled(s: State, a: Action) {
    && a.t in s.pcs
    && match a
       case BeginGet(t) => AtRest(s.pcs[t])
       case BeginRelease(t, n) => AtRest(s.pcs[t]) && n in s.out
       case Step(t) => !AtRest(s.pcs[t])
       case WeakFail(t) => s.pcs[t].GCas? || s.pcs[t].RCas?
  }

  function Goto(s: State, t: Tid, pc: Pc): State {
    s.(pcs := s.pcs[t := pc])
  }

  /** Having observed head `h`, `FindFreeHead` gives up on null and otherwise reads its next. */
  function Observe(s: State, t: Tid, h: Head): State {
    Goto(s, t, if h.node == None then GDone(None) else GReadNext(h))
  }

  function Next(s: State, a: Action): (r: State)
    requires Shape(s) && Enabled(s, a)
    ensures Shape(r)
  {
    match a
    case BeginGet(t) => Goto(s, t, GLoad)
    case BeginRelease(t, n) =>
      Goto(s, t, RLoad(n)).(out := s.out - {n}, releasing := s.releasing[n := t])
    case Step(t) => StepThread(s, t, s.pcs[t])
    case WeakFail(t) =>
      if s.pcs[t].GCas? then Observe(s, t, s.head) else Goto(s, t, RWrite(s.pcs[t].n, s.head))
  }

  function StepThread(s: State, t: Tid, pc: Pc): (r: State)
    requires Shape(s) && t in s.pcs && s.pcs[t] == pc && !AtRest(pc)
    ensures Shape(r)
  {
    match pc
    case GLoad => Observe(s, t, s.head)
    case GReadNext(seen) => Goto(s, t, GCas(seen, s.next[seen.node.value]))
    case GCas(seen, next) =>
      if s.head == seen then
        Goto(s, t, GDone(seen.node)).(
          head := Head(seen.count + 1, next), out := s.out + {seen.node.value},
          free := if s.free == [] then [] else s.free[1..])
      else Observe(s, t, s.head)
    case RLoad(n) => Goto(s, t, RWrite(n, s.head))
    case RWrite(n, seen) => Goto(s, t, RCas(n, seen)).(next := s.next[n := seen.node])
    case RCas(n, seen) =>
      if s.head == seen then
        Goto(s, t, Idle).(
          head := Head(seen.count + 1, Some(n)), releasing := s.releasing - {n}, free := [n] + s.free)
      else Goto(s, t, RWrite(n, s.head))
  }

  // ---------------------------------------------------------------- invariant

  predicate FreeList(s: State) {
    && Chain(s.next, s.head.node, s.free)
    && Distinct(s.free)
  }

  /** Every node is in exactly one of: the free list, a client's hands, a running release. */
  predicate Partition(s: State) {
    && (forall n | n in s.free :: n < |s.next| && n !in s.out && n !in s.releasing)
    && (forall n | n in s.out :: n < |s.next| && n !in s.releasing)
    && (forall n | n in s.releasing :: n < |s.next|)
    && (forall n: Node | n < |s.next| :: n in s.free || n in s.out || n in s.releasing)
  }

  predicate Releasers(s: State) {
    && (forall n | n in s.releasing :: s.releasing[n] in s.pcs && Releases(s.pcs[s.releasing[n]], n))
    && (forall t | t in s.pcs && (s.pcs[t].RLoad? || s.pcs[t].RWrite? || s.pcs[t].RCas?) ::
          s.pcs[t].n in s.releasing && s.releasing[s.pcs[t].n] == t)
  }

  /** An observed head is never newer than the head, and an equal count means it is the head. */
  predicate Observed(s: State, seen: Head) {
    seen.count <= s.head.count && (seen.count == s.head.count ==> seen == s.head)
  }

  predicate ThreadOk(s: State, pc: Pc)
    requires ShapePc(s, pc)
  {
    match pc
    case GReadNext(seen) => Observed(s, seen)
    case GCas(seen, next) =>
      Observed(s, seen) && (seen == s.head ==> next == s.next[seen.node.value])
    case RWrite(_, seen) => Observed(s, seen)
    case RCas(n, seen) => Observed(s, seen) && s.next[n] == seen.node
    case _ => true
  }

  predicate Inv(s: State) {
    && Shape(s) && FreeList(s) && Partition(s) && Releasers(s)
    && (forall t | t in s.pcs :: ThreadOk(s, s.pcs[t]))
  }

  lemma InitInv(s: State, capacity: nat)
    requires Init(s, capacity)
    ensures Inv(s)
  {
    ConsecutiveChain(s.next, 0);
    assert s.free == seq(capacity - 0, i => 0 + i);
    forall n: Node | n < capacity
      ensures n in s.free
    {
      assert s.free[n] == n;
    }
  }

  /** Writing the link of a node outside the list leaves the list as it was. */
  lemma {:induction false} ChainFrame(next: seq<Option<Node>>, node: Option<Node>, free: seq<Node>,
                                      n: Node, link: Option<Node>)
    requires Chain(next, node, free) && n < |next| && n !in free
    ensures Chain(next[n := link], node, free)
    decreases |free|
  {
    if free != [] {
      ChainFrame(next, next[free[0]], free[1..], n, link);
    }
  }

  lemma NextInv(s: State, a: Action)
    requires Inv(s) && Enabled(s, a)
    ensures Inv(Next(s, a))
  {
    match a {
      case BeginGet(t) => LocalInv(s, t, GLoad);
      case BeginRelease(t, n) => BeginReleaseInv(s, t, n);
      case WeakFail(t) => LocalInv(s, t, Next(s, a).pcs[t]);
      case Step(t) => StepInv(s, t);
    }
  }

  lemma StepInv(s: State, t: Tid)
    requires Inv(s) && Enabled(s, Step(t))
    ensures Inv(Next(s, Step(t)))
  {
    var pc := s.pcs[t];
    if pc.RWrite? {
      LinkInv(s, t);
    } else if pc.GCas? && s.head == pc.seen {
      PopInv(s, t);
    } else if pc.RCas? && s.head == pc.seen {
      PushInv(s, t);
    } else {
      LocalInv(s, t, Next(s, Step(t)).pcs[t]);
    }
  }

  /** The node a thread is inside `ReleaseObject` with, if any. */
  function Held(pc: Pc): Option<Node> {
    if pc.RLoad? || pc.RWrite? || pc.RCas? then Some(pc.n) else None
  }

  predicate ThreadsOk(s: State)
    requires Shape(s)
  {
    forall t | t in s.pcs :: ThreadOk(s, s.pcs[t])
  }

  /** A step that changes nothing but one thread's registers. */
  lemma LocalInv(s: State, t: Tid, pc: Pc)
    requires Inv(s) && t in s.pcs && ShapePc(s, pc) && ThreadOk(s, pc) && Held(pc) == Held(s.pcs[t])
    ensures Inv(Goto(s, t, pc))
  {
    LocalReleasers(s, t, pc);
    LocalThreads(s, t, pc);
  }

  lemma LocalReleasers(s: State, t: Tid, pc: Pc)
    requires Releasers(s) && t in s.pcs && Held(pc) == Held(s.pcs[t])
    ensures Releasers(Goto(s, t, pc))
  {
  }

  lemma LocalThreads(s: State, t: Tid, pc: Pc)
    requires Shape(s) && ThreadsOk(s) && t in s.pcs && ShapePc(s, pc) && ThreadOk(s, pc)
    ensures Shape(Goto(s, t, pc)) && ThreadsOk(Goto(s, t, pc))
  {
    var s' := Goto(s, t, pc);
    forall u | u in s'.pcs ensures ShapePc(s', s'.pcs[u]) && ThreadOk(s', s'.pcs[u]) {
      if u != t { assert ShapePc(s, s.pcs[u]) && ThreadOk(s, s.pcs[u]); }
    }
  }

  lemma BeginReleaseInv(s: State, t: Tid, n: Node)
    requires Inv(s) && Enabled(s, BeginRelease(t, n))
    ensures Inv(Next(s, BeginRelease(t, n)))
  {
    var s' := Next(s, BeginRelease(t, n));
    BeginReleasers(s, t, n);
    assert Partition(s');
    LocalThreads(s, t, RLoad(n));
    forall u | u in s'.pcs ensures ThreadOk(s', s'.pcs[u]) { assert ThreadOk(Goto(s, t, RLoad(n)), s'.pcs[u]); }
  }

  lemma BeginReleasers(s: State, t: Tid, n: Node)
    requires Releasers(s) && t in s.pcs && AtRest(s.pcs[t]) && n !in s.releasing
    ensures Releasers(Goto(s, t, RLoad(n)).(releasing := s.releasing[n := t]))
  {
  }

  lemma PopInv(s: State, t: Tid)
    requires Inv(s) && t in s.pcs && s.pcs[t].GCas? && s.head == s.pcs[t].seen
    ensures Inv(Next(s, Step(t)))
  {
    PopPartition(s, t);
    PopThreads(s, t);
  }

  /** The free list loses its first node, which the client now holds. */
  lemma PopPartition(s: State, t: Tid)
    requires Inv(s) && t in s.pcs && s.pcs[t].GCas? && s.head == s.pcs[t].seen
    ensures FreeList(Next(s, Step(t))) && Partition(Next(s, Step(t)))
  {
    var s' := Next(s, Step(t));
    assert ThreadOk(s, s.pcs[t]);
    assert s.free[0] == s.head.node.value;
    assert s.free == [s.free[0]] + s'.free;
    assert s.free[0] !in s'.free;
    assert forall n :: n in s.free <==> n == s.free[0] || n in s'.free;
  }

  lemma PopThreads(s: State, t: Tid)
    requires Inv(s) && t in s.pcs && s.pcs[t].GCas? && s.head == s.pcs[t].seen
    ensures Releasers(Next(s, Step(t))) && ThreadsOk(Next(s, Step(t)))
  {
    var s' := Next(s, Step(t));
    LocalReleasers(s, t, s'.pcs[t]);
    forall u | u in s'.pcs ensures ThreadOk(s', s'.pcs[u]) {
      if u != t { assert ThreadOk(s, s.pcs[u]); }
    }
  }

  lemma PushInv(s: State, t: Tid)
    requires Inv(s) && t in s.pcs && s.pcs[t].RCas? && s.head == s.pcs[t].seen
    ensures Inv(Next(s, Step(t)))
  {
    PushList(s, t);
    PushPartition(s, t);
    PushThreads(s, t);
  }

  lemma PushList(s: State, t: Tid)
    requires Inv(s) && t in s.pcs && s.pcs[t].RCas? && s.head == s.pcs[t].seen
    ensures FreeList(Next(s, Step(t)))
  {
    var s' := Next(s, Step(t));
    assert s'.free[1..] == s.free;
  }

  lemma PushPartition(s: State, t: Tid)
    requires Inv(s) && t in s.pcs && s.pcs[t].RCas? && s.head == s.pcs[t].seen
    ensures Partition(Next(s, Step(t)))
  {
    var s' := Next(s, Step(t));
    var n := s.pcs[t].n;
    assert forall m :: m in s'.free <==> m == n || m in s.free;
  }

  lemma PushThreads(s: State, t: Tid)
    requires Inv(s) && t in s.pcs && s.pcs[t].RCas? && s.head == s.pcs[t].seen
    ensures Releasers(Next(s, Step(t)))
    ensures var s' := Next(s, Step(t)); forall u | u in s'.pcs :: ThreadOk(s', s'.pcs[u])
  {
  }

  lemma LinkInv(s: State, t: Tid)
    requires Inv(s) && t in s.pcs && s.pcs[t].RWrite?
    ensures Inv(Next(s, Step(t)))
  {
    var RWrite(n, seen) := s.pcs[t];
    ChainFrame(s.next, s.head.node, s.free, n, seen.node);
    LocalReleasers(s, t, RCas(n, seen));
    LinkThreads(s, t);
  }

  lemma LinkThreads(s: State, t: Tid)
    requires Inv(s) && t in s.pcs && s.pcs[t].RWrite?
    ensures ThreadsOk(Next(s, Step(t)))
  {
    var s' := Next(s, Step(t));
    if s.head.node.Some? { assert s.free[0] == s.head.node.value; }
    forall u | u in s'.pcs ensures ThreadOk(s', s'.pcs[u]) {
      if u != t { assert ThreadOk(s, s.pcs[u]); }
    }
  }

  // ---------------------------------------------------------------- whole runs

  ghost predicate Run(s: State, actions: seq<Action>)
    requires Shape(s)
    decreases |actions|
  {
    actions == [] ||
    (Enabled(s, actions[0]) && Run(Next(s, actions[0]), actions[1..]))
  }

  ghost function Final(s: State, actions: seq<Action>): State
    requires Shape(s) && Run(s, actions)
    decreases |actions|
  {
    if actions == [] then s else Final(Next(s, actions[0]), actions[1..])
  }

  lemma {:induction false} RunInv(s: State, actions: seq<Action>)
    requires Inv(s) && Run(s, actions)
    ensures Inv(Final(s, actions))
    ensures |Final(s, actions).next| == |s.next|
    decreases |actions|
  {
    if actions != [] {
      NextInv(s, actions[0]);
      RunInv(Next(s, actions[0]), actions[1..]);
    }
  }

  /** Over every run the links from the free head form an acyclic list, and that list, the handed
      out nodes and the nodes being released partition the arena, so nothing leaks or doubles. */
  lemma ArenaPartitionedOverEveryRun(s0: State, capacity: nat, actions: seq<Action>)
    requires Init(s0, capacity) && Run(s0, actions)
    ensures
      var s := Final(s0, actions);
      && Chain(s.next, s.head.node, s.free) && Distinct(s.free)
      && Partition(s) && |s.next| == capacity
      && |s.free| + |s.out| + |s.releasing| == capacity
  {
    InitInv(s0, capacity);
    RunInv(s0, actions);
    var s := Final(s0, actions);
    CountNodes(s);
  }

  lemma CountNodes(s: State)
    requires Distinct(s.free) && Partition(s)
    ensures |s.free| + |s.out| + |s.releasing| == |s.next|
  {
    PartitionSets(s, Elements(s.free), s.releasing.Keys);
    ThreeParts(Elements(s.free), s.out, s.releasing.Keys);
  }

  lemma PartitionSets(s: State, free: set<Node>, releasing: set<Node>)
    requires Partition(s) && (forall n :: n in free <==> n in s.free) && releasing == s.releasing.Keys
    ensures NodesBelow(|s.next|) == free + s.out + releasing
    ensures free !! s.out && free !! releasing && s.out !! releasing
  {
  }

  lemma ThreeParts(a: set<Node>, b: set<Node>, c: set<Node>)
    requires a !! b && a !! c && b !! c
    ensures |a + b + c| == |a| + |b| + |c|
  {
    assert |a + b| == |a| + |b|;
    assert (a + b) !! c;
  }

  ghost function Elements(xs: seq<Node>): (r: set<Node>)
    requires Distinct(xs)
    ensures forall n :: n in r <==> n in xs
    ensures |r| == |xs|
  {
    if xs == [] then {} else
      assert forall n :: n in xs <==> n == xs[0] || n in xs[1..];
      {xs[0]} + Elements(xs[1..])
  }

  ghost function NodesBelow(k: nat): (r: set<Node>)
    ensures forall n: Node :: n in r <==> n < k
    ensures |r| == k
  {
    if k == 0 then {} else {k - 1} + NodesBelow(k - 1)
  }

  /** No node is owned twice: a winning pop takes the first free node, which no client holds and
      no release is touching, and leaves exactly the rest of the list. */
  lemma PopTakesUnownedNode(s: State, t: Tid)
    requires Inv(s) && t in s.pcs && s.pcs[t].GCas? && s.head == s.pcs[t].seen
    ensures s.free != []
    ensures
      var s' := Next(s, Step(t));
      var n := s.free[0];
      && s'.pcs[t] == GDone(Some(n))
      && n !in s.out && n !in s.releasing && s'.out == s.out + {n}
      && s'.free == s.free[1..] && Chain(s'.next, s'.head.node, s'.free)
  {
    PopInv(s, t);
  }

  /** `GetObject` yields null exactly when the free list is empty at that instant. */
  lemma GetFailsIffListEmpty(s: State, t: Tid)
    requires Inv(s) && t in s.pcs
    requires s.pcs[t].GLoad? || (s.pcs[t].GCas? && s.head != s.pcs[t].seen)
    ensures Next(s, Step(t)).pcs[t] == GDone(None) <==> s.free == []
  {
  }

  /** However a call of GetObject ends: with null if and only if the free list is empty at that instant, and
      then nothing changes hands; otherwise with the first free node, which moves from the list to the
      client. No other step of a call changes the list or what clients hold. */
  lemma GetOutcome(s: State, a: Action, t: Tid)
    requires Inv(s) && Enabled(s, a) && a.t == t && (s.pcs[t].GLoad? || s.pcs[t].GReadNext? || s.pcs[t].GCas?)
    ensures
      var s' := Next(s, a);
      if s'.pcs[t] == GDone(None) then s.free == [] && s'.free == s.free && s'.out == s.out
      else if s'.pcs[t].GDone? then
        s.free != [] && s'.pcs[t] == GDone(Some(s.free[0])) && s'.free == s.free[1..] && s'.out == s.out + {s.free[0]}
      else (s'.pcs[t].GReadNext? || s'.pcs[t].GCas?) && s'.free == s.free && s'.out == s.out
  {
    assert ThreadOk(s, s.pcs[t]);
    if a.Step? && s.pcs[t].GCas? && s.head == s.pcs[t].seen { PopTakesUnownedNode(s, t); }
  }

  /** However a call of ReleaseObject(n) ends: the node it was given goes to the front of the free list, and no
      other step of the call changes the list. */
  lemma ReleaseOutcome(s: State, a: Action, t: Tid, n: Node)
    requires Inv(s) && Enabled(s, a) && a.t == t && n in s.releasing && s.releasing[n] == t
    ensures
      var s' := Next(s, a);
      if n !in s'.releasing then s'.pcs[t] == Idle && s'.free == [n] + s.free && s'.out == s.out
      else s'.releasing[n] == t && Releases(s'.pcs[t], n) && s'.free == s.free && s'.out == s.out
  {
    assert Releases(s.pcs[t], n);
  }

  /** The count has not gone back, and if it stands where it was the free list is untouched. */
  predicate Untouched(s: State, s': State) {
    && s.head.count <= s'.head.count
    && (s.head.count == s'.head.count ==>
          && s'.head == s.head && s'.free == s.free
          && (forall n | n in s.free :: n < |s.next| && n < |s'.next| && s'.next[n] == s.next[n]))
  }

  lemma UntouchedStep(s: State, a: Action)
    requires Inv(s) && Enabled(s, a)
    ensures Untouched(s, Next(s, a))
  {
    if a.Step? && s.pcs[a.t].RWrite? {
      assert s.pcs[a.t].n !in s.free;
    }
  }

  lemma UntouchedChain(s: State, m: State, s': State)
    requires Untouched(s, m) && Untouched(m, s')
    ensures Untouched(s, s')
  {
  }

  /** ABA safety: across any stretch of any run, an unchanged count means that no pop and no push
      succeeded, so the head, the list and all its links are what they were. */
  lemma {:induction false} EqualCountMeansUntouched(s: State, actions: seq<Action>)
    requires Inv(s) && Run(s, actions)
    ensures Untouched(s, Final(s, actions))
    decreases |actions|
  {
    if actions == [] {
      assert forall n | n in s.free :: n < |s.next|;
    } else {
      var m := Next(s, actions[0]);
      NextInv(s, actions[0]);
      UntouchedStep(s, actions[0]);
      EqualCountMeansUntouched(m, actions[1..]);
      UntouchedChain(s, m, Final(s, actions));
    }
  }

  // ---------------------------------------------------------------- progress

  function One(b: bool): nat {
    if b then 1 else 0
  }

  function OwnSteps(actions: seq<Action>, t: Tid): nat {
    if actions == [] then 0 else One(actions[0] == Step(t)) + OwnSteps(actions[1..], t)
  }

  function WeakFails(actions: seq<Action>, t: Tid): nat {
    if actions == [] then 0 else One(actions[0] == WeakFail(t)) + WeakFails(actions[1..], t)
  }

  /** How many pops and pushes succeed in the stretch. */
  ghost function Successes(s: State, actions: seq<Action>): nat
    requires Shape(s) && Run(s, actions)
    decreases |actions|
  {
    if actions == [] then 0
    else
      var s' := Next(s, actions[0]);
      One(s'.head.count != s.head.count) + Successes(s', actions[1..])
  }

  ghost predicate InCallThroughout(s: State, actions: seq<Action>, t: Tid)
    requires Shape(s) && Run(s, actions)
    decreases |actions|
  {
    && t in s.pcs && !AtRest(s.pcs[t])
    && (actions == [] || InCallThroughout(Next(s, actions[0]), actions[1..], t))
  }

  /** How many steps of its own a call needs if the head stays as it is. */
  function Ahead(head: Head, pc: Pc): nat {
    match pc
    case GLoad => 3
    case GReadNext(seen) => if seen == head then 2 else 4
    case GCas(seen, _) => if seen == head then 1 else 3
    case RLoad(_) => 3
    case RWrite(_, seen) => if seen == head then 2 else 4
    case RCas(_, seen) => if seen == head then 1 else 3
    case _ => 0
  }

  lemma AheadOwn(s: State, a: Action, t: Tid)
    requires Shape(s) && Enabled(s, a) && a.t == t && !AtRest(s.pcs[t])
    ensures
      var s' := Next(s, a);
      && t in s'.pcs
      && Ahead(s'.head, s'.pcs[t]) + One(a == Step(t)) <= Ahead(s.head, s.pcs[t]) + One(a == WeakFail(t))
  {
  }

  lemma AheadNext(s: State, a: Action, t: Tid)
    requires Inv(s) && Enabled(s, a) && t in s.pcs && !AtRest(s.pcs[t])
    ensures
      var s' := Next(s, a);
      && t in s'.pcs
      && Ahead(s'.head, s'.pcs[t]) + One(a == Step(t))
         <= Ahead(s.head, s.pcs[t]) + One(a == WeakFail(t)) + 2 * One(s'.head.count != s.head.count)
  {
    if a.t == t {
      AheadOwn(s, a, t);
    } else {
      UntouchedStep(s, a);
      assert Next(s, a).pcs[t] == s.pcs[t];
    }
  }

  /** Lock freedom, over every stretch of every run: a call of GetObject or ReleaseObject that has not returned
      yet has made fewer than four steps, and two more for every pop or push that succeeded meanwhile, and one
      more for every compare-and-swap that failed for no reason. */
  lemma {:induction false} CallsAreLockFree(s: State, actions: seq<Action>, t: Tid)
    requires Inv(s) && Run(s, actions) && InCallThroughout(s, actions, t)
    ensures OwnSteps(actions, t) < Ahead(s.head, s.pcs[t]) + WeakFails(actions, t) + 2 * Successes(s, actions)
    decreases |actions|
  {
    if actions != [] {
      NextInv(s, actions[0]);
      AheadNext(s, actions[0], t);
      CallsAreLockFree(Next(s, actions[0]), actions[1..], t);
    }
  }
}
