/**
 The insert-only lock-free hash map of cyber/base/atomic_hash_map.h as a transition system:
 one sorted linked list per bucket, one atomic access per step, any number of threads.

 `nodes[..buckets]` are the bucket sentinels; a later index is an entry, `vals` the value objects
 they point to. Entries and values are never reused (the reclamation of replaced values is not
 modelled). The proofs hold for every index function into the table; `TableIndex` is the source's.
 */
module AtomicHashMap {

  import opened Options

  type Tid = nat
  type Key = int
  type Value = int
  type Ptr = nat

  datatype Entry = Entry(key: Key, cell: Ptr, next: Option<Ptr>)

  /** The shared memory. `abs` and `home` are history: the plain map the operations are meant to
      implement, and the entry that carries each key. `owner` records which thread allocated an
      entry that is not linked in. */
  datatype Mem = Mem(
    buckets: nat, index: Key -> Ptr, nodes: seq<Entry>, vals: seq<Value>,
    abs: map<Key, Value>, home: map<Key, Ptr>, owner: map<Ptr, Tid>)

  /** The registers of an `Insert`: its arguments and what it has allocated so far. */
  datatype Ins = Ins(key: Key, value: Value, newEntry: Option<Ptr>, newValue: Option<Ptr>)

  datatype Pc =
    | Idle
    | IFind(i: Ins, prev: Ptr)
    | ILoadValue(i: Ins, target: Ptr)
    | ICasValue(i: Ins, target: Ptr, seen: Ptr)
    | IStore(i: Ins, prev: Ptr, at: Option<Ptr>)
    | ICasNext(i: Ins, prev: Ptr, at: Option<Ptr>)
    | HFind(key: Key, prev: Ptr)
    | HDone(key: Key, has: bool)
    | GFind(key: Key, prev: Ptr)
    | GLoad(key: Key, target: Ptr)
    | GDone(key: Key, got: Option<Value>)

  datatype State = State(m: Mem, pcs: map<Tid, Pc>)

  datatype Action =
    | BeginSet(t: Tid, key: Key, value: Value)
    | BeginHas(t: Tid, key: Key)
    | BeginGet(t: Tid, key: Key)
    | Step(t: Tid)

  predicate AtRest(pc: Pc) {
    pc.Idle? || pc.HDone? || pc.GDone?
  }

  /** An empty map; `index` can be any function into the buckets, `TableStarts` is about the source's. */
  ghost predicate Init(s: State) {
    && Empty(s) && forall k :: s.m.index(k) < s.m.buckets
  }

  predicate Empty(s: State) {
    && s.m.buckets > 0 && |s.m.nodes| == s.m.buckets
    && (forall i | 0 <= i < s.m.buckets :: s.m.nodes[i].next == None)
    && (forall t | t in s.pcs :: s.pcs[t] == Idle)
    && s.m.abs == map[] && s.m.home == map[] && s.m.owner == map[]
  }

  predicate Enabled(s: State, a: Action) {
    a.t in s.pcs && (AtRest(s.pcs[a.t]) <==> !a.Step?)
  }

  // ---------------------------------------------------------------- invariant

  /** A sentinel, or the entry that carries its key. */
  predicate Published(m: Mem, p: Ptr) {
    p < |m.nodes| && (p < m.buckets || (m.nodes[p].key in m.home && m.home[m.nodes[p].key] == p))
  }

  function BucketOf(m: Mem, p: Ptr): Ptr
    requires p < |m.nodes|
  {
    if p < m.buckets then p else m.index(m.nodes[p].key)
  }

  /** Position `p` lies before `key`: a sentinel lies before everything. */
  predicate Before(m: Mem, p: Ptr, key: Key)
    requires p < |m.nodes|
  {
    p < m.buckets || m.nodes[p].key < key
  }

  /** `p` is a published position of `key`'s bucket, before `key`. */
  predicate Place(m: Mem, p: Ptr, key: Key) {
    Published(m, p) && BucketOf(m, p) == m.index(key) && Before(m, p, key)
  }

  /** `at` is null or a published entry of `key`'s bucket strictly after `key`. */
  predicate After(m: Mem, at: Option<Ptr>, key: Key) {
    at.Some? ==>
      && m.buckets <= at.value && Published(m, at.value)
      && BucketOf(m, at.value) == m.index(key) && key < m.nodes[at.value].key
  }

  /** `p`'s successor is the next larger key of the bucket: no present key lies in between. */
  predicate Adjacent(m: Mem, p: Ptr)
    requires Published(m, p)
  {
    var q := m.nodes[p].next;
    && (q.Some? ==>
          && m.buckets <= q.value && Published(m, q.value)
          && BucketOf(m, q.value) == BucketOf(m, p) && Before(m, p, m.nodes[q.value].key))
    && (forall k | k in m.home && m.index(k) == BucketOf(m, p) && Before(m, p, k) ::
          q.Some? && m.nodes[q.value].key <= k)
  }

  predicate Agrees(m: Mem) {
    && m.home.Keys == m.abs.Keys
    && (forall k | k in m.home ::
          && m.buckets <= m.home[k] < |m.nodes|
          && m.nodes[m.home[k]].key == k
          && m.nodes[m.home[k]].cell < |m.vals|
          && m.vals[m.nodes[m.home[k]].cell] == m.abs[k])
  }

  predicate Sorted(m: Mem) {
    forall p | 0 <= p < |m.nodes| && Published(m, p) :: Adjacent(m, p)
  }

  predicate Owners(m: Mem) {
    forall p | p in m.owner :: m.buckets <= p < |m.nodes| && !Published(m, p)
  }

  ghost predicate MemOk(m: Mem) {
    && m.buckets <= |m.nodes| && (forall k :: m.index(k) < m.buckets)
    && Agrees(m) && Sorted(m) && Owners(m)
  }

  predicate InsOk(m: Mem, t: Tid, i: Ins) {
    && (i.newEntry.Some? ==>
          var n := i.newEntry.value;
          && n in m.owner && m.owner[n] == t && n < |m.nodes|
          && m.nodes[n].key == i.key && m.nodes[n].cell < |m.vals| && m.vals[m.nodes[n].cell] == i.value)
    && (i.newValue.Some? ==> i.newValue.value < |m.vals| && m.vals[i.newValue.value] == i.value)
  }

  predicate ThreadOk(m: Mem, t: Tid, pc: Pc) {
    match pc
    case IFind(i, prev) => InsOk(m, t, i) && Place(m, prev, i.key)
    case ILoadValue(i, target) => InsOk(m, t, i) && i.key in m.home && m.home[i.key] == target
    case ICasValue(i, target, _) =>
      InsOk(m, t, i) && i.newValue.Some? && i.key in m.home && m.home[i.key] == target
    case IStore(i, prev, at) => InsOk(m, t, i) && Place(m, prev, i.key) && After(m, at, i.key)
    case ICasNext(i, prev, at) =>
      && InsOk(m, t, i) && Place(m, prev, i.key) && After(m, at, i.key)
      && i.newEntry.Some? && m.nodes[i.newEntry.value].next == at
    case HFind(key, prev) => Place(m, prev, key)
    case GFind(key, prev) => Place(m, prev, key)
    case GLoad(key, target) => key in m.home && m.home[key] == target
    case _ => true
  }

  ghost predicate Inv(s: State) {
    MemOk(s.m) && forall t | t in s.pcs :: ThreadOk(s.m, t, s.pcs[t])
  }

  // ---------------------------------------------------------------- steps

  datatype Found = Hit(target: Ptr) | Stop(at: Option<Ptr>) | Onward(p: Ptr)

  /** One turn of the loop in `Find`: load the successor of `prev` and compare its key. */
  ghost function Look(m: Mem, prev: Ptr, key: Key): Found
    requires MemOk(m) && Published(m, prev)
  {
    var next := m.nodes[prev].next;
    if next == None then Stop(None)
    else
      assert Adjacent(m, prev);
      if m.nodes[next.value].key == key then Hit(next.value)
      else if m.nodes[next.value].key > key then Stop(next)
      else Onward(next.value)
  }

  ghost function Next(s: State, a: Action): State
    requires Inv(s) && Enabled(s, a)
  {
    match a
    case BeginSet(t, key, value) => s.(pcs := s.pcs[t := IFind(Ins(key, value, None, None), s.m.index(key))])
    case BeginHas(t, key) => s.(pcs := s.pcs[t := HFind(key, s.m.index(key))])
    case BeginGet(t, key) => s.(pcs := s.pcs[t := GFind(key, s.m.index(key))])
    case Step(t) => var (m, pc) := StepThread(s.m, t, s.pcs[t]); State(m, s.pcs[t := pc])
  }

  /** The link of an entry is set. */
  function Relinked(m: Mem, n: Ptr, at: Option<Ptr>): Mem
    requires n < |m.nodes|
  {
    m.(nodes := m.nodes[n := m.nodes[n].(next := at)])
  }

  /** A new entry with a new value, owned by thread t. */
  function Allocated(m: Mem, t: Tid, key: Key, value: Value, at: Option<Ptr>): Mem {
    m.(nodes := m.nodes + [Entry(key, |m.vals|, at)], vals := m.vals + [value], owner := m.owner[|m.nodes| := t])
  }

  /** Entry n becomes the successor of `prev`. */
  function LinkedIn(m: Mem, prev: Ptr, n: Ptr, key: Key, value: Value): Mem
    requires prev < |m.nodes|
  {
    m.(nodes := m.nodes[prev := m.nodes[prev].(next := Some(n))],
       abs := m.abs[key := value], home := m.home[key := n], owner := m.owner - {n})
  }

  /** The one atomic access of a thread at `pc`: the memory after it and where the thread goes. */
  ghost function StepThread(m: Mem, t: Tid, pc: Pc): (Mem, Pc)
    requires MemOk(m) && ThreadOk(m, t, pc) && !AtRest(pc)
  {
    match pc
    case IFind(i, prev) =>
      (m, match Look(m, prev, i.key)
          case Hit(target) => ILoadValue(i, target)
          case Stop(at) => IStore(i, prev, at)
          case Onward(p) => IFind(i, p))
    case ILoadValue(i, target) =>
      var seen := m.nodes[target].cell;
      if i.newValue.Some? then (m, ICasValue(i, target, seen))
      else (m.(vals := m.vals + [i.value]), ICasValue(i.(newValue := Some(|m.vals|)), target, seen))
    case ICasValue(i, target, seen) =>
      if m.nodes[target].cell == seen then
        (m.(nodes := m.nodes[target := m.nodes[target].(cell := i.newValue.value)],
            abs := m.abs[i.key := i.value],
            owner := if i.newEntry.Some? then m.owner - {i.newEntry.value} else m.owner), Idle)
      else (m, IFind(i, m.index(i.key)))
    case IStore(i, prev, at) =>
      if i.newEntry.Some? then
        (Relinked(m, i.newEntry.value, at), ICasNext(i, prev, at))
      else
        (Allocated(m, t, i.key, i.value, at), ICasNext(i.(newEntry := Some(|m.nodes|)), prev, at))
    case ICasNext(i, prev, at) =>
      if m.nodes[prev].next == at then
        (LinkedIn(m, prev, i.newEntry.value, i.key, i.value), Idle)
      else (m, IFind(i, m.index(i.key)))
    case HFind(key, prev) =>
      (m, match Look(m, prev, key)
          case Hit(_) => HDone(key, true)
          case Stop(_) => HDone(key, false)
          case Onward(p) => HFind(key, p))
    case GFind(key, prev) =>
      (m, match Look(m, prev, key)
          case Hit(target) => GLoad(key, target)
          case Stop(_) => GDone(key, None)
          case Onward(p) => GFind(key, p))
    case GLoad(key, target) => (m, GDone(key, Some(m.vals[m.nodes[target].cell])))
  }

  // ---------------------------------------------------------------- preservation

  lemma InitInv(s: State)
    requires Init(s)
    ensures Inv(s)
  {
  }

  /** What one look at the successor of a place before `key` establishes about the map right now. */
  lemma LookIsExact(m: Mem, prev: Ptr, key: Key)
    requires MemOk(m) && Place(m, prev, key)
    ensures Look(m, prev, key).Hit? ==> key in m.home && m.home[key] == Look(m, prev, key).target
    ensures Look(m, prev, key).Stop? ==>
              && key !in m.abs
              && Look(m, prev, key).at == m.nodes[prev].next && After(m, m.nodes[prev].next, key)
    ensures Look(m, prev, key).Onward? ==> Place(m, Look(m, prev, key).p, key)
  {
    assert Adjacent(m, prev);
  }

  /** Memory only grows: keys stay put, values are never overwritten, present keys stay present. */
  ghost predicate Grows(m: Mem, m': Mem) {
    && m'.buckets == m.buckets && m'.index == m.index && |m.nodes| <= |m'.nodes|
    && (forall p | 0 <= p < |m.nodes| :: m'.nodes[p].key == m.nodes[p].key)
    && m.vals <= m'.vals
    && (forall k | k in m.home :: k in m'.home && m'.home[k] == m.home[k])
  }

  /** The entries another thread allocated and has not linked in are untouched. */
  predicate SparesOthers(m: Mem, m': Mem, t: Tid) {
    forall p | p in m.owner && m.owner[p] != t && p < |m.nodes| && p < |m'.nodes| ::
      p in m'.owner && m'.owner[p] == m.owner[p] && m'.nodes[p] == m.nodes[p]
  }

  lemma OtherThreadStable(m: Mem, m': Mem, t: Tid, u: Tid, pc: Pc)
    requires ThreadOk(m, u, pc) && u != t && Grows(m, m') && SparesOthers(m, m', t)
    ensures ThreadOk(m', u, pc)
  {
  }

  lemma StepOk(m: Mem, t: Tid, pc: Pc)
    requires MemOk(m) && ThreadOk(m, t, pc) && !AtRest(pc)
    ensures
      var (m', pc') := StepThread(m, t, pc);
      MemOk(m') && ThreadOk(m', t, pc') && Grows(m, m') && SparesOthers(m, m', t)
  {
    match pc {
      case IFind(i, prev) => LookIsExact(m, prev, i.key);
      case HFind(key, prev) => LookIsExact(m, prev, key);
      case GFind(key, prev) => LookIsExact(m, prev, key);
      case GLoad(_, _) =>
      case ILoadValue(_, _) => LoadValueOk(m, t, pc);
      case ICasValue(_, target, seen) => if m.nodes[target].cell == seen { ReplaceOk(m, t, pc); }
      case IStore(_, _, _) => StoreOk(m, t, pc);
      case ICasNext(_, prev, at) => if m.nodes[prev].next == at { LinkOk(m, t, pc); }
    }
  }

  /** Without a new key, a list position keeps its neighbour as long as its link is kept. */
  lemma SortedFrame(m: Mem, m': Mem)
    requires MemOk(m) && Grows(m, m') && m'.home == m.home
    requires forall p | 0 <= p < |m.nodes| && Published(m, p) :: m'.nodes[p].next == m.nodes[p].next
    ensures Sorted(m')
  {
    forall p | 0 <= p < |m'.nodes| && Published(m', p)
      ensures Adjacent(m', p)
    {
      assert Published(m, p) && Adjacent(m, p);
    }
  }

  lemma LoadValueOk(m: Mem, t: Tid, pc: Pc)
    requires MemOk(m) && ThreadOk(m, t, pc) && pc.ILoadValue?
    ensures
      var (m', pc') := StepThread(m, t, pc);
      MemOk(m') && ThreadOk(m', t, pc') && Grows(m, m') && SparesOthers(m, m', t)
  {
    SortedFrame(m, StepThread(m, t, pc).0);
  }

  lemma ReplaceOk(m: Mem, t: Tid, pc: Pc)
    requires MemOk(m) && ThreadOk(m, t, pc) && pc.ICasValue? && m.nodes[pc.target].cell == pc.seen
    ensures
      var (m', pc') := StepThread(m, t, pc);
      MemOk(m') && ThreadOk(m', t, pc') && Grows(m, m') && SparesOthers(m, m', t)
  {
    SortedFrame(m, StepThread(m, t, pc).0);
  }

  lemma StoreOk(m: Mem, t: Tid, pc: Pc)
    requires MemOk(m) && ThreadOk(m, t, pc) && pc.IStore?
    ensures
      var (m', pc') := StepThread(m, t, pc);
      MemOk(m') && ThreadOk(m', t, pc') && Grows(m, m') && SparesOthers(m, m', t)
  {
    if pc.i.newEntry.Some? { RelinkOk(m, t, pc); } else { AllocateOk(m, t, pc); }
  }

  lemma RelinkOk(m: Mem, t: Tid, pc: Pc)
    requires MemOk(m) && ThreadOk(m, t, pc) && pc.IStore? && pc.i.newEntry.Some?
    ensures
      var (m', pc') := StepThread(m, t, pc);
      MemOk(m') && ThreadOk(m', t, pc') && Grows(m, m') && SparesOthers(m, m', t)
  {
    RelinkMem(m, t, pc.i.newEntry.value, pc.at);
    RelinkThread(m, t, pc.i, pc.prev, pc.at);
  }

  /** Setting the link of an own entry that is not linked in. */
  lemma RelinkMem(m: Mem, t: Tid, n: Ptr, at: Option<Ptr>)
    requires MemOk(m) && n in m.owner && m.owner[n] == t
    ensures MemOk(Relinked(m, n, at)) && Grows(m, Relinked(m, n, at)) && SparesOthers(m, Relinked(m, n, at), t)
  {
    SortedFrame(m, Relinked(m, n, at));
  }

  lemma RelinkThread(m: Mem, t: Tid, i: Ins, prev: Ptr, at: Option<Ptr>)
    requires InsOk(m, t, i) && i.newEntry.Some? && Place(m, prev, i.key) && After(m, at, i.key)
    ensures
      var m' := Relinked(m, i.newEntry.value, at);
      InsOk(m', t, i) && Place(m', prev, i.key) && After(m', at, i.key) && m'.nodes[i.newEntry.value].next == at
  {
  }

  lemma AllocateOk(m: Mem, t: Tid, pc: Pc)
    requires MemOk(m) && ThreadOk(m, t, pc) && pc.IStore? && pc.i.newEntry.None?
    ensures
      var (m', pc') := StepThread(m, t, pc);
      MemOk(m') && ThreadOk(m', t, pc') && Grows(m, m') && SparesOthers(m, m', t)
  {
    AllocateMem(m, t, pc.i.key, pc.i.value, pc.at);
    AllocateThread(m, t, pc.i, pc.prev, pc.at);
  }

  lemma AllocateMem(m: Mem, t: Tid, key: Key, value: Value, at: Option<Ptr>)
    requires MemOk(m)
    ensures
      var m' := Allocated(m, t, key, value, at);
      MemOk(m') && Grows(m, m') && SparesOthers(m, m', t)
  {
    var m' := Allocated(m, t, key, value, at);
    assert |m.nodes| !in m.owner;
    assert forall p | 0 <= p < |m.nodes| :: m'.nodes[p] == m.nodes[p];
    SortedFrame(m, m');
  }

  lemma AllocateThread(m: Mem, t: Tid, i: Ins, prev: Ptr, at: Option<Ptr>)
    requires InsOk(m, t, i) && i.newEntry.None? && Place(m, prev, i.key) && After(m, at, i.key)
    ensures
      var m', i' := Allocated(m, t, i.key, i.value, at), i.(newEntry := Some(|m.nodes|));
      InsOk(m', t, i') && Place(m', prev, i.key) && After(m', at, i.key) && m'.nodes[|m.nodes|].next == at
  {
    var m' := Allocated(m, t, i.key, i.value, at);
    assert forall p | 0 <= p < |m.nodes| :: m'.nodes[p] == m.nodes[p];
  }

  /** Entry n, not linked in, is to go between `prev` and its successor. */
  ghost predicate CanLink(m: Mem, prev: Ptr, n: Ptr, key: Key) {
    && MemOk(m) && n in m.owner && n < |m.nodes| && m.nodes[n].key == key && Place(m, prev, key)
    && m.nodes[n].next == m.nodes[prev].next && After(m, m.nodes[n].next, key)
  }

  lemma LinkNew(m: Mem, prev: Ptr, n: Ptr, key: Key)
    requires CanLink(m, prev, n, key)
    ensures key !in m.home
  {
    assert Adjacent(m, prev);
  }

  /** Linking the new entry between two neighbours keeps every position next to its successor. */
  lemma LinkSorted(m: Mem, prev: Ptr, n: Ptr, key: Key, value: Value)
    requires CanLink(m, prev, n, key)
    ensures key !in m.home
    ensures Grows(m, LinkedIn(m, prev, n, key, value)) && Sorted(LinkedIn(m, prev, n, key, value))
  {
    var m' := LinkedIn(m, prev, n, key, value);
    LinkNew(m, prev, n, key);
    forall p | 0 <= p < |m'.nodes| && Published(m', p)
      ensures Adjacent(m', p)
    {
      if p == n {
        LinkedNew(m, prev, n, key, value);
      } else if p == prev {
        LinkedPrev(m, prev, n, key, value);
      } else {
        assert Published(m, p) && Adjacent(m, p);
        LinkedOther(m, prev, n, key, value, p);
      }
    }
  }

  lemma LinkedNew(m: Mem, prev: Ptr, n: Ptr, key: Key, value: Value)
    requires CanLink(m, prev, n, key) && key !in m.home
    ensures Published(LinkedIn(m, prev, n, key, value), n) && Adjacent(LinkedIn(m, prev, n, key, value), n)
  {
    assert Adjacent(m, prev);
  }

  lemma LinkedPrev(m: Mem, prev: Ptr, n: Ptr, key: Key, value: Value)
    requires CanLink(m, prev, n, key) && key !in m.home
    ensures Published(LinkedIn(m, prev, n, key, value), prev) && Adjacent(LinkedIn(m, prev, n, key, value), prev)
  {
    assert Adjacent(m, prev);
  }

  lemma LinkedOther(m: Mem, prev: Ptr, n: Ptr, key: Key, value: Value, p: Ptr)
    requires CanLink(m, prev, n, key) && key !in m.home && Published(m, p) && Adjacent(m, p) && p != prev
    ensures Published(LinkedIn(m, prev, n, key, value), p) && Adjacent(LinkedIn(m, prev, n, key, value), p)
  {
    if BucketOf(m, p) == m.index(key) && Before(m, p, key) { OtherPredecessor(m, prev, n, key, p); }
  }

  /** A position before the new key that is not its predecessor has a successor that is not behind it. */
  lemma OtherPredecessor(m: Mem, prev: Ptr, n: Ptr, key: Key, p: Ptr)
    requires CanLink(m, prev, n, key) && Published(m, p) && p != prev
    requires BucketOf(m, p) == m.index(key) && Before(m, p, key)
    ensures m.nodes[p].next.Some? && m.nodes[p].next.value < |m.nodes| && m.nodes[m.nodes[p].next.value].key <= key
  {
    assert Adjacent(m, prev) && Adjacent(m, p);
  }

  lemma LinkOk(m: Mem, t: Tid, pc: Pc)
    requires MemOk(m) && ThreadOk(m, t, pc) && pc.ICasNext? && m.nodes[pc.prev].next == pc.at
    ensures
      var (m', pc') := StepThread(m, t, pc);
      MemOk(m') && ThreadOk(m', t, pc') && Grows(m, m') && SparesOthers(m, m', t)
  {
    LinkSorted(m, pc.prev, pc.i.newEntry.value, pc.i.key, pc.i.value);
  }

  lemma NextInv(s: State, a: Action)
    requires Inv(s) && Enabled(s, a)
    ensures Inv(Next(s, a))
    ensures Grows(s.m, Next(s, a).m)
  {
    if a.Step? {
      StepOk(s.m, a.t, s.pcs[a.t]);
      var s' := Next(s, a);
      forall u | u in s'.pcs
        ensures ThreadOk(s'.m, u, s'.pcs[u])
      {
        if u != a.t { OtherThreadStable(s.m, s'.m, a.t, u, s.pcs[u]); }
      }
    }
  }

  // ---------------------------------------------------------------- whole runs

  ghost predicate Run(s: State, actions: seq<Action>)
    requires Inv(s)
    decreases |actions|
  {
    actions == [] ||
    (Enabled(s, actions[0]) && (NextInv(s, actions[0]); Run(Next(s, actions[0]), actions[1..])))
  }

  ghost function Final(s: State, actions: seq<Action>): (r: State)
    requires Inv(s) && Run(s, actions)
    ensures Inv(r)
    decreases |actions|
  {
    if actions == [] then s else NextInv(s, actions[0]); Final(Next(s, actions[0]), actions[1..])
  }

  /** Following the links from position `p`, as a reader of a frozen memory would. */
  ghost function Walk(m: Mem, p: Ptr): (keys: seq<Key>)
    requires MemOk(m) && Published(m, p)
    ensures forall k :: k in keys <==> k in m.home && m.index(k) == BucketOf(m, p) && Before(m, p, k)
    ensures forall i, j | 0 <= i < j < |keys| :: keys[i] < keys[j]
    decreases Larger(m, p)
  {
    assert Adjacent(m, p);
    var q := m.nodes[p].next;
    if q == None then []
    else
      assert Larger(m, q.value) < Larger(m, p) by {
        assert m.nodes[q.value].key in Larger(m, p) - Larger(m, q.value);
      }
      [m.nodes[q.value].key] + Walk(m, q.value)
  }

  ghost function Larger(m: Mem, p: Ptr): set<Key>
    requires p < |m.nodes|
  {
    set k | k in m.home && Before(m, p, k)
  }

  /** Over every run every bucket is strictly sorted and duplicate-free and lists exactly the keys
      of the plain map that belong to it, and the value cell of each key's entry holds its value. */
  lemma BucketsSortedOverEveryRun(s0: State, actions: seq<Action>, b: Ptr)
    requires Init(s0) && b < s0.m.buckets
    requires (InitInv(s0); Run(s0, actions))
    ensures
      var m := Final(s0, actions).m;
      && m.buckets == s0.m.buckets && Published(m, b)
      && var keys := Walk(m, b);
         && (forall i, j | 0 <= i < j < |keys| :: keys[i] < keys[j])
         && (forall k :: k in keys <==> k in m.abs && m.index(k) == b)
         && (forall k | k in m.abs :: m.vals[m.nodes[m.home[k]].cell] == m.abs[k])
  {
    InitInv(s0);
    RunGrows(s0, actions);
  }

  lemma {:induction false} RunGrows(s: State, actions: seq<Action>)
    requires Inv(s) && Run(s, actions)
    ensures Grows(s.m, Final(s, actions).m)
    decreases |actions|
  {
    if actions != [] {
      NextInv(s, actions[0]);
      RunGrows(Next(s, actions[0]), actions[1..]);
    }
  }

  /** No inserted key ever disappears, along any stretch of any run. */
  lemma KeysNeverDisappear(s: State, actions: seq<Action>)
    requires Inv(s) && Run(s, actions)
    ensures s.m.abs.Keys <= Final(s, actions).m.abs.Keys
  {
    RunGrows(s, actions);
    var m' := Final(s, actions).m;
    forall k | k in s.m.abs
      ensures k in m'.abs
    {
      assert k in s.m.home;
      assert k in m'.home.Keys;
    }
  }

  /** `Set` takes effect at its one winning compare-and-swap and at no other step; a winning link
      step inserts a key that was absent, a winning value step replaces one that was present. */
  lemma SetTakesEffectAtOneStep(s: State, t: Tid)
    requires Inv(s) && t in s.pcs && !AtRest(s.pcs[t])
    ensures
      var pc, s' := s.pcs[t], Next(s, Step(t));
      && (s'.pcs[t] == Idle ==>
            && (pc.ICasNext? || pc.ICasValue?)
            && s'.m.abs == s.m.abs[pc.i.key := pc.i.value]
            && (pc.i.key in s.m.abs <==> pc.ICasValue?))
      && (s'.pcs[t] != Idle ==> s'.m.abs == s.m.abs)
  {
    var pc := s.pcs[t];
    if pc.ICasNext? {
      if s.m.nodes[pc.prev].next == pc.at { LinkNew(s.m, pc.prev, pc.i.newEntry.value, pc.i.key); }
    } else if !pc.ICasValue? {
      OtherStepsHaveNoEffect(s.m, t, pc);
    }
  }

  lemma OtherStepsHaveNoEffect(m: Mem, t: Tid, pc: Pc)
    requires MemOk(m) && ThreadOk(m, t, pc) && !AtRest(pc) && !pc.ICasNext? && !pc.ICasValue?
    ensures StepThread(m, t, pc).0.abs == m.abs && StepThread(m, t, pc).1 != Idle
  {
  }

  /** `Has` answers, at its last load, exactly whether the plain map has the key at that instant. */
  lemma HasTakesEffectAtOneStep(s: State, t: Tid)
    requires Inv(s) && t in s.pcs && s.pcs[t].HFind?
    ensures
      var key, pc' := s.pcs[t].key, Next(s, Step(t)).pcs[t];
      pc'.HDone? ==> pc' == HDone(key, key in s.m.abs)
  {
    LookIsExact(s.m, s.pcs[t].prev, s.pcs[t].key);
  }

  /** `Get` answers, at its last load, exactly what the plain map holds at that instant. */
  lemma GetTakesEffectAtOneStep(s: State, t: Tid)
    requires Inv(s) && t in s.pcs && (s.pcs[t].GFind? || s.pcs[t].GLoad?)
    ensures
      var key, pc' := s.pcs[t].key, Next(s, Step(t)).pcs[t];
      pc'.GDone? ==> pc' == GDone(key, if key in s.m.abs then Some(s.m.abs[key]) else None)
  {
    if s.pcs[t].GFind? {
      LookIsExact(s.m, s.pcs[t].prev, s.pcs[t].key);
    }
  }

  // ---------------------------------------------------------------- whole calls

  predicate BeginsCall(a: Action, t: Tid) {
    !a.Step? && a.t == t
  }

  /** No step of the stretch begins another call of thread t. */
  predicate SameCall(actions: seq<Action>, t: Tid) {
    forall i | 0 <= i < |actions| :: !BeginsCall(actions[i], t)
  }

  /** The state after the first j actions. */
  ghost function StateAt(s: State, actions: seq<Action>, j: nat): (r: State)
    requires Inv(s) && Run(s, actions) && j <= |actions|
    ensures Inv(r)
    decreases j
  {
    if j == 0 then s else NextInv(s, actions[0]); StateAt(Next(s, actions[0]), actions[1..], j - 1)
  }

  /** Inside Set(k, v). */
  predicate Setting(pc: Pc, k: Key, v: Value) {
    (pc.IFind? || pc.ILoadValue? || pc.ICasValue? || pc.IStore? || pc.ICasNext?) && pc.i.key == k && pc.i.value == v
  }

  lemma SettingStep(s: State, t: Tid, k: Key, v: Value)
    requires Inv(s) && t in s.pcs && Setting(s.pcs[t], k, v)
    ensures
      var s' := Next(s, Step(t));
      if s'.pcs[t] == Idle then s'.m.abs == s.m.abs[k := v] else Setting(s'.pcs[t], k, v) && s'.m.abs == s.m.abs
  {
    SetTakesEffectAtOneStep(s, t);
  }

  lemma OthersKeepPc(s: State, a: Action, t: Tid)
    requires Inv(s) && Enabled(s, a) && t in s.pcs && a.t != t
    ensures t in Next(s, a).pcs && Next(s, a).pcs[t] == s.pcs[t]
  {
  }

  /** Between its calls a thread does nothing. */
  lemma {:induction false} RestStays(s: State, actions: seq<Action>, t: Tid)
    requires Inv(s) && Run(s, actions) && t in s.pcs && AtRest(s.pcs[t]) && SameCall(actions, t)
    ensures t in Final(s, actions).pcs && Final(s, actions).pcs[t] == s.pcs[t]
    ensures forall j | 0 <= j < |actions| :: actions[j] != Step(t)
    decreases |actions|
  {
    if actions != [] {
      assert !BeginsCall(actions[0], t);
      NextInv(s, actions[0]);
      OthersKeepPc(s, actions[0], t);
      RestStays(Next(s, actions[0]), actions[1..], t);
      forall j | 0 <= j < |actions| ensures actions[j] != Step(t) {
        if j > 0 { assert actions[j] == actions[1..][j - 1]; }
      }
    }
  }

  /** Step i of the stretch, a step of thread t, sets k to v in the plain map, and no other step of t
      changes it. */
  ghost predicate OneEffect(s: State, actions: seq<Action>, t: Tid, i: nat, k: Key, v: Value)
    requires Inv(s) && Run(s, actions)
  {
    && i < |actions| && actions[i] == Step(t)
    && StateAt(s, actions, i + 1).m.abs == StateAt(s, actions, i).m.abs[k := v]
    && forall j | 0 <= j < |actions| && j != i && actions[j] == Step(t) :: NoEffect(s, actions, j)
  }

  ghost predicate NoEffect(s: State, actions: seq<Action>, j: nat)
    requires Inv(s) && Run(s, actions) && j < |actions|
  {
    StateAt(s, actions, j + 1).m.abs == StateAt(s, actions, j).m.abs
  }

  /** Prefixing a step that is no effect of thread t. */
  lemma EffectLater(s: State, actions: seq<Action>, t: Tid, i: nat, k: Key, v: Value)
    requires Inv(s) && Run(s, actions) && actions != []
    requires actions[0] == Step(t) ==> Next(s, actions[0]).m.abs == s.m.abs
    requires (NextInv(s, actions[0]); OneEffect(Next(s, actions[0]), actions[1..], t, i, k, v))
    ensures OneEffect(s, actions, t, i + 1, k, v)
  {
    NextInv(s, actions[0]);
    var s1 := Next(s, actions[0]);
    forall j | 0 <= j < |actions| && j != i + 1 && actions[j] == Step(t) ensures NoEffect(s, actions, j) {
      if j > 0 {
        assert actions[j] == actions[1..][j - 1];
        assert NoEffect(s1, actions[1..], j - 1);
      }
    }
  }

  lemma EffectNow(s: State, actions: seq<Action>, t: Tid, k: Key, v: Value)
    requires Inv(s) && Run(s, actions) && actions != [] && actions[0] == Step(t)
    requires Next(s, actions[0]).m.abs == s.m.abs[k := v]
    requires forall j | 0 <= j < |actions[1..]| :: actions[1..][j] != Step(t)
    ensures OneEffect(s, actions, t, 0, k, v)
  {
    assert forall j | 0 < j < |actions| :: actions[j] == actions[1..][j - 1];
    NextInv(s, actions[0]);
    assert StateAt(Next(s, actions[0]), actions[1..], 0) == Next(s, actions[0]);
  }

  lemma {:induction false} SettingRun(s: State, actions: seq<Action>, t: Tid, k: Key, v: Value) returns (i: nat)
    requires Inv(s) && Run(s, actions) && SameCall(actions, t) && t in s.pcs && Setting(s.pcs[t], k, v)
    requires t in Final(s, actions).pcs && AtRest(Final(s, actions).pcs[t])
    ensures OneEffect(s, actions, t, i, k, v)
    decreases |actions|
  {
    var a, s1 := actions[0], Next(s, actions[0]);
    assert !BeginsCall(a, t);
    assert SameCall(actions[1..], t);
    NextInv(s, a);
    if a == Step(t) { SettingStep(s, t, k, v); } else { OthersKeepPc(s, a, t); }
    if s1.pcs[t] == Idle {
      RestStays(s1, actions[1..], t);
      EffectNow(s, actions, t, k, v);
      i := 0;
    } else {
      var j := SettingRun(s1, actions[1..], t, k, v);
      EffectLater(s, actions, t, j, k, v);
      i := j + 1;
    }
  }

  /** A whole call Set(k, v), whatever other threads do during it: at exactly one of its own steps the plain
      map gets k set to v, and none of its other steps changes the plain map. */
  lemma SetIsAtomic(s: State, actions: seq<Action>, t: Tid, k: Key, v: Value) returns (i: nat)
    requires Inv(s) && Enabled(s, BeginSet(t, k, v))
    requires (NextInv(s, BeginSet(t, k, v)); Run(Next(s, BeginSet(t, k, v)), actions)) && SameCall(actions, t)
    requires var s' := Final(Next(s, BeginSet(t, k, v)), actions); t in s'.pcs && AtRest(s'.pcs[t])
    ensures Inv(Next(s, BeginSet(t, k, v))) && Next(s, BeginSet(t, k, v)).m == s.m
    ensures OneEffect(Next(s, BeginSet(t, k, v)), actions, t, i, k, v)
  {
    NextInv(s, BeginSet(t, k, v));
    i := SettingRun(Next(s, BeginSet(t, k, v)), actions, t, k, v);
  }

  /** Inside Has(k) or Get(k). */
  predicate Asking(pc: Pc, k: Key) {
    (pc.HFind? || pc.GFind? || pc.GLoad?) && pc.key == k
  }

  /** What the plain map says about k, as Has or as Get tells it. */
  predicate Tells(pc: Pc, has: bool, k: Key, abs: map<Key, Value>) {
    pc == if has then HDone(k, k in abs) else GDone(k, if k in abs then Some(abs[k]) else None)
  }

  lemma AskingStep(s: State, t: Tid, k: Key)
    requires Inv(s) && t in s.pcs && Asking(s.pcs[t], k)
    ensures
      var s', has := Next(s, Step(t)), s.pcs[t].HFind?;
      && s'.m == s.m
      && if AtRest(s'.pcs[t]) then Tells(s'.pcs[t], has, k, s.m.abs) else Asking(s'.pcs[t], k) && s'.pcs[t].HFind? == has
  {
    if s.pcs[t].HFind? { HasTakesEffectAtOneStep(s, t); } else { GetTakesEffectAtOneStep(s, t); }
  }

  /** The thread ends up with the answer that the plain map gives before step i, a step of its own. */
  ghost predicate AnsweredAt(s: State, actions: seq<Action>, t: Tid, i: nat, has: bool, k: Key)
    requires Inv(s) && Run(s, actions)
  {
    && i < |actions| && actions[i] == Step(t)
    && t in Final(s, actions).pcs && Tells(Final(s, actions).pcs[t], has, k, StateAt(s, actions, i).m.abs)
  }

  lemma AnsweredLater(s: State, actions: seq<Action>, t: Tid, i: nat, has: bool, k: Key)
    requires Inv(s) && Run(s, actions) && actions != []
    requires (NextInv(s, actions[0]); AnsweredAt(Next(s, actions[0]), actions[1..], t, i, has, k))
    ensures AnsweredAt(s, actions, t, i + 1, has, k)
  {
    assert actions[i + 1] == actions[1..][i];
  }

  lemma {:induction false} AskingRun(s: State, actions: seq<Action>, t: Tid, k: Key) returns (i: nat)
    requires Inv(s) && Run(s, actions) && SameCall(actions, t) && t in s.pcs && Asking(s.pcs[t], k)
    requires t in Final(s, actions).pcs && AtRest(Final(s, actions).pcs[t])
    ensures AnsweredAt(s, actions, t, i, s.pcs[t].HFind?, k)
    decreases |actions|
  {
    var a, s1 := actions[0], Next(s, actions[0]);
    assert !BeginsCall(a, t);
    assert SameCall(actions[1..], t);
    NextInv(s, a);
    if a == Step(t) { AskingStep(s, t, k); } else { OthersKeepPc(s, a, t); }
    if AtRest(s1.pcs[t]) {
      RestStays(s1, actions[1..], t);
      i := 0;
    } else {
      var j := AskingRun(s1, actions[1..], t, k);
      AnsweredLater(s, actions, t, j, s.pcs[t].HFind?, k);
      i := j + 1;
    }
  }

  /** A whole call Has(k): the answer is what the plain map says about k at one step of the call. */
  lemma HasIsAtomic(s: State, actions: seq<Action>, t: Tid, k: Key) returns (i: nat)
    requires Inv(s) && Enabled(s, BeginHas(t, k))
    requires (NextInv(s, BeginHas(t, k)); Run(Next(s, BeginHas(t, k)), actions)) && SameCall(actions, t)
    requires var s' := Final(Next(s, BeginHas(t, k)), actions); t in s'.pcs && AtRest(s'.pcs[t])
    ensures Inv(Next(s, BeginHas(t, k))) && i < |actions| && actions[i] == Step(t)
    ensures
      var s1 := Next(s, BeginHas(t, k));
      Final(s1, actions).pcs[t] == HDone(k, k in StateAt(s1, actions, i).m.abs)
  {
    NextInv(s, BeginHas(t, k));
    i := AskingRun(Next(s, BeginHas(t, k)), actions, t, k);
  }

  /** A whole call Get(k): the answer is what the plain map holds under k at one step of the call. */
  lemma GetIsAtomic(s: State, actions: seq<Action>, t: Tid, k: Key) returns (i: nat)
    requires Inv(s) && Enabled(s, BeginGet(t, k))
    requires (NextInv(s, BeginGet(t, k)); Run(Next(s, BeginGet(t, k)), actions)) && SameCall(actions, t)
    requires var s' := Final(Next(s, BeginGet(t, k)), actions); t in s'.pcs && AtRest(s'.pcs[t])
    ensures Inv(Next(s, BeginGet(t, k))) && i < |actions| && actions[i] == Step(t)
    ensures
      var s1 := Next(s, BeginGet(t, k));
      var abs := StateAt(s1, actions, i).m.abs;
      Final(s1, actions).pcs[t] == GDone(k, if k in abs then Some(abs[k]) else None)
  {
    NextInv(s, BeginGet(t, k));
    i := AskingRun(Next(s, BeginGet(t, k)), actions, t, k);
  }

  /** Left alone, a search ends: every turn of its loop leaves strictly fewer larger keys ahead. */
  lemma SearchMovesOn(m: Mem, prev: Ptr, key: Key)
    requires MemOk(m) && Place(m, prev, key) && Look(m, prev, key).Onward?
    ensures Place(m, Look(m, prev, key).p, key)
    ensures Larger(m, Look(m, prev, key).p) < Larger(m, prev)
  {
    LookIsExact(m, prev, key);
    assert Adjacent(m, prev);
    var q := Look(m, prev, key).p;
    assert m.nodes[q].key in Larger(m, prev) - Larger(m, q);
  }

  // ---------------------------------------------------------------- progress

  /** The link or the cell that a compare-and-swap is about to change is still what the thread saw. */
  predicate Current(m: Mem, pc: Pc) {
    match pc
    case IStore(_, prev, at) => prev < |m.nodes| && m.nodes[prev].next == at
    case ICasNext(_, prev, at) => prev < |m.nodes| && m.nodes[prev].next == at
    case ICasValue(_, target, seen) => target < |m.nodes| && m.nodes[target].cell == seen
    case _ => true
  }

  ghost function Beyond(m: Mem, p: Ptr): nat {
    if p < |m.nodes| then |Larger(m, p)| else 0
  }

  /** How many steps of its own a call needs at most if no Set of another thread returns meanwhile. A call whose
      compare-and-swap is going to fail has to search again. */
  ghost function Ahead(m: Mem, pc: Pc): nat {
    match pc
    case HFind(_, prev) => Beyond(m, prev) + 2
    case GFind(_, prev) => Beyond(m, prev) + 2
    case GLoad(_, _) => 1
    case IFind(_, prev) => Beyond(m, prev) + 3
    case ILoadValue(_, _) => 2
    case IStore(_, _, _) => if Current(m, pc) then 2 else |m.home| + 5
    case ICasNext(_, _, _) => if Current(m, pc) then 1 else |m.home| + 4
    case ICasValue(_, _, _) => if Current(m, pc) then 1 else |m.home| + 4
    case _ => 0
  }

  /** No list position and no published entry changes. */
  predicate Quiet(m: Mem, m': Mem) {
    && m'.home == m.home && m'.buckets == m.buckets && |m.nodes| <= |m'.nodes|
    && forall p | 0 <= p < |m.nodes| && Published(m, p) :: m'.nodes[p] == m.nodes[p]
  }

  /** At most one key is new. */
  predicate OneKeyMore(m: Mem, m': Mem, key: Key) {
    && m.home.Keys <= m'.home.Keys <= m.home.Keys + {key} && m'.buckets == m.buckets && |m'.nodes| == |m.nodes|
    && forall p | 0 <= p < |m.nodes| :: m'.nodes[p].key == m.nodes[p].key
  }

  lemma StepIsQuietOrReturns(m: Mem, t: Tid, pc: Pc)
    requires MemOk(m) && ThreadOk(m, t, pc) && !AtRest(pc)
    ensures
      var (m', pc') := StepThread(m, t, pc);
      if pc' == Idle then (pc.ICasNext? || pc.ICasValue?) && OneKeyMore(m, m', pc.i.key) else Quiet(m, m')
  {
  }

  lemma LargerIsBounded(m: Mem, p: Ptr)
    ensures Beyond(m, p) <= |m.home|
  {
    if p < |m.nodes| {
      assert Larger(m, p) <= m.home.Keys;
      SubsetSize(Larger(m, p), m.home.Keys);
    }
  }

  lemma {:induction false} SubsetSize<T>(a: set<T>, b: set<T>)
    requires a <= b
    ensures |a| <= |b|
  {
    if a != {} {
      var x :| x in a;
      SubsetSize(a - {x}, b - {x});
    }
  }

  lemma LargerSame(m: Mem, m': Mem, p: Ptr)
    requires p < |m.nodes| && Published(m, p) && Quiet(m, m')
    ensures Beyond(m', p) == Beyond(m, p)
  {
    assert Larger(m', p) == Larger(m, p);
  }

  lemma LargerOneMore(m: Mem, m': Mem, p: Ptr, key: Key)
    requires OneKeyMore(m, m', key)
    ensures Beyond(m', p) <= Beyond(m, p) + 1
  {
    if p < |m.nodes| {
      assert Larger(m', p) <= Larger(m, p) + {key};
      SubsetSize(Larger(m', p), Larger(m, p) + {key});
    }
  }

  lemma AheadOwn(m: Mem, t: Tid, pc: Pc)
    requires MemOk(m) && ThreadOk(m, t, pc) && !AtRest(pc)
    ensures var (m', pc') := StepThread(m, t, pc); Ahead(m', pc') + 1 <= Ahead(m, pc)
  {
    if pc.IFind? {
      SearchShortens(m, pc.prev, pc.i.key);
    } else if pc.HFind? || pc.GFind? {
      SearchShortens(m, pc.prev, pc.key);
    } else if pc.ICasNext? || pc.ICasValue? {
      LargerIsBounded(m, m.index(pc.i.key));
    } else if pc.IStore? {
      StoreKeepsLink(m, t, pc);
    }
  }

  lemma StoreKeepsLink(m: Mem, t: Tid, pc: Pc)
    requires MemOk(m) && ThreadOk(m, t, pc) && pc.IStore?
    ensures
      var (m', pc') := StepThread(m, t, pc);
      pc'.ICasNext? && m'.home == m.home && Current(m', pc') == Current(m, pc)
  {
    StepIsQuietOrReturns(m, t, pc);
    assert StepThread(m, t, pc).0.nodes[pc.prev] == m.nodes[pc.prev];
  }

  lemma SearchShortens(m: Mem, prev: Ptr, key: Key)
    requires MemOk(m) && Place(m, prev, key)
    ensures Look(m, prev, key).Onward? ==> Beyond(m, Look(m, prev, key).p) < Beyond(m, prev)
    ensures Look(m, prev, key).Stop? ==> Look(m, prev, key).at == m.nodes[prev].next
  {
    if Look(m, prev, key).Onward? {
      SearchMovesOn(m, prev, key);
      ProperSubsetSize(Larger(m, Look(m, prev, key).p), Larger(m, prev));
    }
  }

  lemma ProperSubsetSize<T>(a: set<T>, b: set<T>)
    requires a < b
    ensures |a| < |b|
  {
    var x :| x in b && x !in a;
    SubsetSize(a, b - {x});
  }

  lemma AheadQuiet(m: Mem, m': Mem, u: Tid, pc: Pc)
    requires MemOk(m) && ThreadOk(m, u, pc) && !AtRest(pc) && Quiet(m, m')
    ensures Ahead(m', pc) == Ahead(m, pc)
  {
    if pc.IFind? || pc.HFind? || pc.GFind? {
      LargerSame(m, m', pc.prev);
    } else if pc.IStore? || pc.ICasNext? {
      assert m'.nodes[pc.prev] == m.nodes[pc.prev];
    } else if pc.ICasValue? {
      assert Published(m, pc.target);
    }
  }

  /** What the return of another thread's Set can cost a call: one step of a Has or Get, another search of a
      Set. */
  function Setback(asks: bool, keys: nat): nat {
    if asks then 1 else keys + 3
  }

  predicate Asks(pc: Pc) {
    pc.HFind? || pc.GFind? || pc.GLoad?
  }

  lemma AheadOneMore(m: Mem, m': Mem, pc: Pc, key: Key)
    requires OneKeyMore(m, m', key)
    ensures Ahead(m', pc) <= Ahead(m, pc) + Setback(Asks(pc), |m'.home|)
  {
    if pc.IFind? || pc.HFind? || pc.GFind? { LargerOneMore(m, m', pc.prev, key); }
  }

  /** The step is the last one of a Set of a thread other than t. */
  ghost predicate OtherSetReturns(s: State, a: Action, t: Tid)
    requires Inv(s) && Enabled(s, a)
  {
    a.Step? && a.t != t && Next(s, a).pcs[a.t] == Idle
  }

  ghost function OtherSets(s: State, actions: seq<Action>, t: Tid): nat
    requires Inv(s) && Run(s, actions)
    decreases |actions|
  {
    if actions == [] then 0
    else
      NextInv(s, actions[0]);
      (if OtherSetReturns(s, actions[0], t) then 1 else 0) + OtherSets(Next(s, actions[0]), actions[1..], t)
  }

  function OwnSteps(actions: seq<Action>, t: Tid): nat {
    if actions == [] then 0 else (if actions[0] == Step(t) then 1 else 0) + OwnSteps(actions[1..], t)
  }

  ghost predicate InCallThroughout(s: State, actions: seq<Action>, t: Tid)
    requires Inv(s) && Run(s, actions)
    decreases |actions|
  {
    && t in s.pcs && !AtRest(s.pcs[t])
    && (actions == [] || (NextInv(s, actions[0]); InCallThroughout(Next(s, actions[0]), actions[1..], t)))
  }

  lemma AheadNext(s: State, a: Action, t: Tid)
    requires Inv(s) && Enabled(s, a) && t in s.pcs && !AtRest(s.pcs[t])
    ensures
      var s' := Next(s, a);
      && t in s'.pcs
      && Ahead(s'.m, s'.pcs[t]) + (if a == Step(t) then 1 else 0)
         <= Ahead(s.m, s.pcs[t]) + if OtherSetReturns(s, a, t) then Setback(Asks(s.pcs[t]), |s'.m.home|) else 0
  {
    if a == Step(t) {
      AheadOwn(s.m, t, s.pcs[t]);
    } else {
      OthersKeepPc(s, a, t);
      if a.Step? {
        StepIsQuietOrReturns(s.m, a.t, s.pcs[a.t]);
        if OtherSetReturns(s, a, t) {
          AheadOneMore(s.m, Next(s, a).m, s.pcs[t], s.pcs[a.t].i.key);
        } else {
          AheadQuiet(s.m, Next(s, a).m, t, s.pcs[t]);
        }
      }
    }
  }

  /** What these returns cost a call together, in a map that never has more than `keys` keys. */
  function Cost(sets: nat, asks: bool, keys: nat): nat {
    if sets == 0 then 0 else Setback(asks, keys) + Cost(sets - 1, asks, keys)
  }

  lemma {:induction false} CostIsProduct(sets: nat, asks: bool, keys: nat)
    ensures Cost(sets, asks, keys) == sets * Setback(asks, keys)
  {
    if sets > 0 {
      CostIsProduct(sets - 1, asks, keys);
      assert sets * Setback(asks, keys) == (sets - 1) * Setback(asks, keys) + Setback(asks, keys);
    }
  }

  /** The bound with `keys` standing for any number of keys that the map does not exceed in the stretch. */
  lemma {:induction false} StepsBounded(s: State, actions: seq<Action>, t: Tid, asks: bool, keys: nat)
    requires Inv(s) && Run(s, actions) && InCallThroughout(s, actions, t) && |Final(s, actions).m.home| <= keys
    requires asks == Asks(s.pcs[t])
    ensures OwnSteps(actions, t) < Ahead(s.m, s.pcs[t]) + Cost(OtherSets(s, actions, t), asks, keys)
    decreases |actions|
  {
    if actions == [] {
      AheadSome(s.m, s.pcs[t]);
    } else {
      var s' := Next(s, actions[0]);
      NextInv(s, actions[0]);
      SameKind(s, actions[0], t);
      StepsBounded(s', actions[1..], t, asks, keys);
      KeysStay(s', actions[1..]);
      StepBounded(s, actions[0], t, asks, keys, OwnSteps(actions[1..], t), OtherSets(s', actions[1..], t));
    }
  }

  lemma StepBounded(s: State, a: Action, t: Tid, asks: bool, keys: nat, steps: nat, sets: nat)
    requires Inv(s) && Enabled(s, a) && t in s.pcs && !AtRest(s.pcs[t]) && asks == Asks(s.pcs[t])
    requires t in Next(s, a).pcs && |Next(s, a).m.home| <= keys
    requires steps < Ahead(Next(s, a).m, Next(s, a).pcs[t]) + Cost(sets, asks, keys)
    ensures (if a == Step(t) then 1 else 0) + steps
            < Ahead(s.m, s.pcs[t]) + Cost((if OtherSetReturns(s, a, t) then 1 else 0) + sets, asks, keys)
  {
    AheadNext(s, a, t);
    var s' := Next(s, a);
    OneStepMore(steps, sets, Ahead(s.m, s.pcs[t]), Ahead(s'.m, s'.pcs[t]), a == Step(t), OtherSetReturns(s, a, t),
                asks, |s'.m.home|, keys);
  }

  lemma OneStepMore(steps: nat, sets: nat, ahead: nat, ahead': nat, own: bool, hit: bool, asks: bool, now: nat, keys: nat)
    requires steps < ahead' + Cost(sets, asks, keys) && now <= keys
    requires ahead' + (if own then 1 else 0) <= ahead + if hit then Setback(asks, now) else 0
    ensures (if own then 1 else 0) + steps < ahead + Cost((if hit then 1 else 0) + sets, asks, keys)
  {
  }

  lemma AheadSome(m: Mem, pc: Pc)
    requires !AtRest(pc)
    ensures Ahead(m, pc) > 0
  {
  }

  lemma KeysStay(s: State, actions: seq<Action>)
    requires Inv(s) && Run(s, actions)
    ensures |s.m.home| <= |Final(s, actions).m.home|
  {
    RunGrows(s, actions);
    var m' := Final(s, actions).m;
    assert forall k | k in s.m.home.Keys :: k in m'.home.Keys;
    SubsetSize(s.m.home.Keys, m'.home.Keys);
  }

  lemma SameKind(s: State, a: Action, t: Tid)
    requires Inv(s) && Enabled(s, a) && t in s.pcs && !AtRest(s.pcs[t])
    requires t in Next(s, a).pcs && !AtRest(Next(s, a).pcs[t])
    ensures Asks(Next(s, a).pcs[t]) == Asks(s.pcs[t])
  {
    if a.t != t { OthersKeepPc(s, a, t); }
  }

  predicate Within(steps: nat, asks: bool, before: nat, after: nat, others: nat) {
    if asks then steps < before + 2 + others else steps < before + 5 + others * (after + 3)
  }

  /** Lock freedom, over every stretch of every run: a call of Has or Get that has not returned yet has made at
      most one step more than there were keys, and one more for every Set that returned meanwhile. For a call of
      Set it is four more, and another search for every such Set. */
  lemma CallsAreLockFree(s: State, actions: seq<Action>, t: Tid)
    requires Inv(s) && Run(s, actions) && InCallThroughout(s, actions, t)
    ensures
      Within(OwnSteps(actions, t), Asks(s.pcs[t]), |s.m.abs|, |Final(s, actions).m.abs|, OtherSets(s, actions, t))
  {
    var asks, keys, others := Asks(s.pcs[t]), |Final(s, actions).m.abs|, OtherSets(s, actions, t);
    OneEntryPerKey(s.m);
    OneEntryPerKey(Final(s, actions).m);
    StepsBounded(s, actions, t, asks, keys);
    AheadAtMost(s.m, s.pcs[t]);
    WithinIf(OwnSteps(actions, t), Ahead(s.m, s.pcs[t]), asks, |s.m.abs|, keys, others);
  }

  lemma WithinIf(steps: nat, ahead: nat, asks: bool, before: nat, after: nat, others: nat)
    requires steps < ahead + Cost(others, asks, after) && ahead <= before + if asks then 2 else 5
    ensures Within(steps, asks, before, after, others)
  {
    CostIsProduct(others, asks, after);
  }

  lemma OneEntryPerKey(m: Mem)
    requires m.home.Keys == m.abs.Keys
    ensures |m.home| == |m.abs|
  {
    assert |m.home| == |m.home.Keys| && |m.abs| == |m.abs.Keys|;
  }

  lemma AheadAtMost(m: Mem, pc: Pc)
    ensures Ahead(m, pc) <= |m.home| + if Asks(pc) then 2 else 5
  {
    if pc.IFind? || pc.HFind? || pc.GFind? { LargerIsBounded(m, pc.prev); }
  }

  // ---------------------------------------------------------------- the index mask

  function Pow2(bits: nat): (r: nat)
    ensures r >= 1
  {
    if bits == 0 then 1 else 2 * Pow2(bits - 1)
  }

  /** The bitwise and of two numbers. */
  function BitAnd(a: nat, b: nat): nat {
    if a == 0 || b == 0 then 0
    else 2 * BitAnd(a / 2, b / 2) + if a % 2 == 1 && b % 2 == 1 then 1 else 0
  }

  /** The bucket of a key in a table of 2^bits buckets: the key as 64 bits, masked with the size minus 1. */
  function TableIndex(key: Key, bits: nat): Ptr {
    Masked(key, bits, 64)
  }

  /** The key as an unsigned word, and the mask of a table of 2^bits buckets. */
  function Masked(key: Key, bits: nat, word: nat): Ptr {
    BitAnd(key % Pow2(word), Pow2(bits) - 1)
  }

  lemma RemainderIs(x: int, n: nat, q: int, r: nat)
    requires n > 0 && x == n * q + r && r < n
    ensures x % n == r
  {
    var d := x / n - q;
    assert n * d == r - x % n;
    MultipleIsFar(n, d);
  }

  lemma MultipleIsFar(n: nat, d: int)
    ensures d >= 1 ==> n * d >= n
    ensures d <= -1 ==> n * d + n <= 0
  {
  }

  lemma DoubledRemainder(a: nat, p: nat)
    requires p > 0
    ensures 2 * ((a / 2) % p) + a % 2 == a % (2 * p)
  {
    var h := a / 2;
    var q := h / p;
    assert h == p * q + h % p;
    assert (2 * p) * q == 2 * (p * q);
    RemainderIs(a, 2 * p, q, 2 * (h % p) + a % 2);
  }

  lemma NestedRemainder(x: int, n: nat, m: nat)
    requires n > 0 && m > 0
    ensures n * m > 0 && (x % (n * m)) % n == x % n
  {
    MultipleIsFar(n, m);
    var low, q := x % (n * m), x / (n * m);
    var k := low / n;
    assert x == (n * m) * q + low && low == n * k + low % n;
    assert (n * m) * q == n * (m * q);
    assert n * (m * q) + n * k == n * (m * q + k);
    RemainderIs(x, n, m * q + k, low % n);
  }

  lemma {:induction false} MaskIsRemainder(a: nat, bits: nat)
    ensures BitAnd(a, Pow2(bits) - 1) == a % Pow2(bits)
  {
    if bits > 0 {
      var p := Pow2(bits - 1);
      MaskIsRemainder(a / 2, bits - 1);
      DoubledRemainder(a, p);
      assert (2 * p - 1) / 2 == p - 1 && (2 * p - 1) % 2 == 1;
      assert a == 0 ==> BitAnd(a / 2, p - 1) == 0;
    }
  }

  lemma {:induction false} Pow2Splits(bits: nat, more: nat)
    ensures Pow2(bits + more) == Pow2(bits) * Pow2(more)
  {
    if more > 0 {
      Pow2Splits(bits, more - 1);
      assert Pow2(bits) * (2 * Pow2(more - 1)) == 2 * (Pow2(bits) * Pow2(more - 1));
    }
  }

  /** The mask is the remainder by the table size, also for negative keys. */
  lemma TableIndexIsRemainder(key: Key, bits: nat)
    requires bits <= 64
    ensures TableIndex(key, bits) == key % Pow2(bits)
  {
    MaskedRemainder(key, bits, 64 - bits);
  }

  /** Reducing to a word that is `more` bits wider than the mask changes nothing. */
  lemma MaskedRemainder(key: Key, bits: nat, more: nat)
    ensures Masked(key, bits, bits + more) == key % Pow2(bits)
  {
    MaskIsRemainder(key % Pow2(bits + more), bits);
    Pow2Splits(bits, more);
    NestedRemainder(key, Pow2(bits), Pow2(more));
  }

  /** A map with the source's table and mask is one of the initial states all results here start from. */
  lemma TableStarts(s: State, bits: nat)
    requires bits <= 64 && Empty(s) && s.m.buckets == Pow2(bits) && forall k :: s.m.index(k) == TableIndex(k, bits)
    ensures Init(s) && forall k :: s.m.index(k) == k % s.m.buckets
  {
    forall k ensures s.m.index(k) == k % s.m.buckets { TableIndexIsRemainder(k, bits); }
  }
}
