/**
 Adding, removing and running coroutines under the classic policy, as a transition system:
 scheduler_classic.cc (DispatchTask, RemoveCRoutine), classic_context.cc (the scan of a run queue)
 and processor.cc (acquire, resume, release).

 A run queue is one (group, priority) vector with its reader-writer lock. A scan holds the read side
 from its start until it returns, so the entries it still has to visit are fixed; a writer's critical
 section is one step that needs the lock free (AtomicRWLock proves that exclusion). `CreateTask` makes
 a new coroutine object for every task, so an object is dispatched at most once.
 */
module Scheduler {

  type Pid = nat   // a processor
  type Tid = nat   // a thread that adds or removes tasks
  type Oid = nat   // a coroutine object
  type Id = nat    // a task id
  type Queue = nat // a (group, priority) pair

  // ================================================================ the registry

  datatype Control =
    | CIdle
    | AddBegin(id: Id, o: Oid)           // holds the id's mutex
    | AddEnqueue(id: Id, o: Oid)         // entered in id_cr_, not yet queued
    | RemoveBegin(id: Id)                // holds the id's mutex
    | RemoveDequeue(id: Id, q: Queue)    // erased from id_cr_, not yet taken off the queue
    | Returned(ok: bool)

  /** `idOf` and `home` are fixed by the task's name and configuration. `unused` are the objects not yet
      handed to DispatchTask. */
  datatype Registry = Registry(
    idOf: map<Oid, Id>, home: map<Oid, Queue>, unused: set<Oid>,
    idCr: map<Id, Oid>, queues: map<Queue, seq<Oid>>, mutex: map<Id, Tid>, cs: map<Tid, Control>)

  predicate AtRest(c: Control) {
    c.CIdle? || c.Returned?
  }

  predicate Known(r: Registry, o: Oid) {
    o in r.idOf && o in r.home && r.home[o] in r.queues
  }

  predicate Queued(r: Registry, o: Oid) {
    Known(r, o) && o in r.queues[r.home[o]]
  }

  predicate NoDup(xs: seq<Oid>) {
    forall i, j | 0 <= i < j < |xs| :: xs[i] != xs[j]
  }

  predicate Doing(r: Registry, id: Id, c: Control) {
    id in r.mutex && r.mutex[id] in r.cs && r.cs[r.mutex[id]] == c
  }

  /** An entry of queue `k` belongs there and is either registered under its id or being removed. */
  predicate EntryOk(r: Registry, k: Queue, o: Oid) {
    && Known(r, o) && r.home[o] == k && o !in r.unused
    && (if r.idOf[o] in r.idCr then r.idCr[r.idOf[o]] == o
        else Doing(r, r.idOf[o], RemoveDequeue(r.idOf[o], k)))
  }

  predicate QueueOk(r: Registry, k: Queue)
    requires k in r.queues
  {
    && (forall o | o in r.queues[k] :: EntryOk(r, k, o))
    && NoDup(r.queues[k])
    && (forall o, o' | o in r.queues[k] && o' in r.queues[k] && o in r.idOf && o' in r.idOf ::
          r.idOf[o] == r.idOf[o'] ==> o == o')
  }

  /** A registered id is queued, or its adder is about to queue it. */
  predicate RegisteredOk(r: Registry, id: Id)
    requires id in r.idCr
  {
    var o := r.idCr[id];
    && Known(r, o) && r.idOf[o] == id && o !in r.unused
    && (o in r.queues[r.home[o]] || Doing(r, id, AddEnqueue(id, o)))
  }

  predicate ControlOk(r: Registry, t: Tid, c: Control) {
    && (!AtRest(c) ==> c.id in r.mutex && r.mutex[c.id] == t)
    && match c
       case AddBegin(id, o) => Known(r, o) && r.idOf[o] == id && o !in r.unused && !Queued(r, o)
       case AddEnqueue(id, o) =>
         && Known(r, o) && r.idOf[o] == id && o !in r.unused && !Queued(r, o)
         && id in r.idCr && r.idCr[id] == o
       case RemoveDequeue(id, k) =>
         && id !in r.idCr && k in r.queues
         && exists o :: o in r.queues[k] && o in r.idOf && r.idOf[o] == id
       case _ => true
  }

  predicate MutexOk(r: Registry, id: Id)
    requires id in r.mutex
  {
    r.mutex[id] in r.cs && !AtRest(r.cs[r.mutex[id]]) && r.cs[r.mutex[id]].id == id
  }

  predicate RegInv(r: Registry) {
    && (forall o | o in r.unused :: Known(r, o))
    && (forall k | k in r.queues :: QueueOk(r, k))
    && (forall id | id in r.idCr :: RegisteredOk(r, id))
    && (forall id | id in r.mutex :: MutexOk(r, id))
    && (forall t | t in r.cs :: ControlOk(r, t, r.cs[t]))
  }

  /** The entry of a queue that carries `id`: `RemoveCRoutine` walks the vector to the first one. */
  function Find(r: Registry, xs: seq<Oid>, id: Id): (i: nat)
    requires forall o | o in xs :: o in r.idOf
    ensures i <= |xs|
    ensures i < |xs| ==> r.idOf[xs[i]] == id
    ensures forall j | 0 <= j < i :: r.idOf[xs[j]] != id
  {
    if xs == [] || r.idOf[xs[0]] == id then 0 else 1 + Find(r, xs[1..], id)
  }

  function Erase(xs: seq<Oid>, i: nat): seq<Oid>
    requires i < |xs|
  {
    xs[..i] + xs[i + 1..]
  }

  /** What a control step does to the coroutine objects. */
  datatype Effect = Nothing | Enters(k: Queue, o: Oid) | Leaves(k: Queue, o: Oid)

  function StepControl(r: Registry, t: Tid): (Registry, Effect)
    requires RegInv(r) && t in r.cs && !AtRest(r.cs[t])
  {
    match r.cs[t]
    case AddBegin(id, o) =>
      if id in r.idCr then (r.(mutex := r.mutex - {id}, cs := r.cs[t := Returned(false)]), Nothing)
      else (r.(idCr := r.idCr[id := o], cs := r.cs[t := AddEnqueue(id, o)]), Nothing)
    case AddEnqueue(id, o) =>
      assert ControlOk(r, t, r.cs[t]);
      var k := r.home[o];
      (r.(queues := r.queues[k := r.queues[k] + [o]], mutex := r.mutex - {id}, cs := r.cs[t := Returned(true)]),
       Enters(k, o))
    case RemoveBegin(id) =>
      if id in r.idCr then
        assert RegisteredOk(r, id);
        (r.(idCr := r.idCr - {id}, cs := r.cs[t := RemoveDequeue(id, r.home[r.idCr[id]])]), Nothing)
      else (r.(mutex := r.mutex - {id}, cs := r.cs[t := Returned(false)]), Nothing)
    case RemoveDequeue(id, k) =>
      assert ControlOk(r, t, r.cs[t]) && QueueOk(r, k);
      assert forall o | o in r.queues[k] :: EntryOk(r, k, o);
      var xs := r.queues[k];
      var i := Find(r, xs, id);
      if i == |xs| then (r.(mutex := r.mutex - {id}, cs := r.cs[t := Returned(false)]), Nothing)
      else
        (r.(queues := r.queues[k := Erase(xs, i)], mutex := r.mutex - {id}, cs := r.cs[t := Returned(true)]),
         Leaves(k, xs[i]))
  }

  predicate CanBeginAdd(r: Registry, t: Tid, o: Oid) {
    t in r.cs && AtRest(r.cs[t]) && o in r.unused && o in r.idOf && r.idOf[o] !in r.mutex
  }

  function BeginAddReg(r: Registry, t: Tid, o: Oid): Registry
    requires CanBeginAdd(r, t, o)
  {
    r.(unused := r.unused - {o}, mutex := r.mutex[r.idOf[o] := t], cs := r.cs[t := AddBegin(r.idOf[o], o)])
  }

  predicate CanBeginRemove(r: Registry, t: Tid, id: Id) {
    t in r.cs && AtRest(r.cs[t]) && id !in r.mutex
  }

  function BeginRemoveReg(r: Registry, t: Tid, id: Id): Registry
    requires CanBeginRemove(r, t, id)
  {
    r.(mutex := r.mutex[id := t], cs := r.cs[t := RemoveBegin(id)])
  }

  // ---------------------------------------------------------------- the registry is kept

  /** A step of thread `t`: the other threads and the mutexes they hold stay as they are. */
  predicate OthersKept(r: Registry, r': Registry, t: Tid) {
    && r'.idOf == r.idOf && r'.home == r.home && r'.queues.Keys == r.queues.Keys
    && r'.unused <= r.unused && t in r.cs && t in r'.cs && r'.cs == r.cs[t := r'.cs[t]]
    && (forall id | id in r.mutex && r.mutex[id] != t :: id in r'.mutex && r'.mutex[id] == r.mutex[id])
  }

  lemma DoingKept(r: Registry, r': Registry, t: Tid, id: Id, c: Control)
    requires t in r'.cs && OthersKept(r, r', t) && Doing(r, id, c) && r.mutex[id] != t
    ensures Doing(r', id, c)
  {
  }

  lemma QueueKept(r: Registry, r': Registry, t: Tid, k: Queue)
    requires t in r'.cs && OthersKept(r, r', t) && k in r.queues && QueueOk(r, k)
    requires r'.queues[k] == r.queues[k]
    requires forall o | o in r.queues[k] && o in r.idOf :: EntryOk(r, k, o) ==> EntryOk(r', k, o)
    ensures QueueOk(r', k)
  {
  }

  lemma BeginAddOk(r: Registry, t: Tid, o: Oid)
    requires RegInv(r) && CanBeginAdd(r, t, o)
    ensures RegInv(BeginAddReg(r, t, o))
  {
    var r' := BeginAddReg(r, t, o);
    assert ControlOk(r, t, r.cs[t]);
    BeginKept(r, r', t);
    UnusedIsNotQueued(r, o);
    forall id | id in r'.mutex ensures MutexOk(r', id) { assert id in r.mutex ==> MutexOk(r, id); }
  }

  lemma UnusedIsNotQueued(r: Registry, o: Oid)
    requires RegInv(r) && o in r.unused
    ensures Known(r, o) && !Queued(r, o)
  {
    assert QueueOk(r, r.home[o]);
    assert o in r.queues[r.home[o]] ==> EntryOk(r, r.home[o], o);
  }

  lemma BeginRemoveOk(r: Registry, t: Tid, id: Id)
    requires RegInv(r) && CanBeginRemove(r, t, id)
    ensures RegInv(BeginRemoveReg(r, t, id))
  {
    var r' := BeginRemoveReg(r, t, id);
    BeginKept(r, r', t);
    forall i | i in r'.mutex ensures MutexOk(r', i) { assert i in r.mutex ==> MutexOk(r, i); }
  }

  /** Taking a mutex disturbs neither the queues, nor the registrations, nor another thread. */
  lemma BeginKept(r: Registry, r': Registry, t: Tid)
    requires RegInv(r) && t in r.cs && t in r'.cs && AtRest(r.cs[t]) && OthersKept(r, r', t)
    requires r'.queues == r.queues && r'.idCr == r.idCr
    requires forall id | id in r.mutex :: id in r'.mutex && r'.mutex[id] == r.mutex[id]
    ensures forall k | k in r'.queues :: QueueOk(r', k)
    ensures forall id | id in r'.idCr :: RegisteredOk(r', id)
    ensures forall u | u in r'.cs && u != t :: ControlOk(r', u, r'.cs[u])
  {
    forall k | k in r'.queues
      ensures QueueOk(r', k)
    {
      forall o | o in r.queues[k] && o in r.idOf && EntryOk(r, k, o)
        ensures EntryOk(r', k, o)
      {
        EntryKept(r, r', t, k, o);
      }
      QueueKept(r, r', t, k);
    }
    forall id | id in r'.idCr
      ensures RegisteredOk(r', id)
    {
      assert RegisteredOk(r, id);
      if Doing(r, id, AddEnqueue(id, r.idCr[id])) { DoingKept(r, r', t, id, AddEnqueue(id, r.idCr[id])); }
    }
    forall u | u in r'.cs && u != t
      ensures ControlOk(r', u, r'.cs[u])
    {
      assert ControlOk(r, u, r.cs[u]);
    }
  }

  lemma EntryKept(r: Registry, r': Registry, t: Tid, k: Queue, o: Oid)
    requires t in r.cs && t in r'.cs && AtRest(r.cs[t]) && OthersKept(r, r', t)
    requires r'.queues == r.queues && r'.idCr == r.idCr && EntryOk(r, k, o)
    ensures EntryOk(r', k, o)
  {
    var id := r.idOf[o];
    if id !in r.idCr { DoingKept(r, r', t, id, RemoveDequeue(id, k)); }
  }

  /** Off the id that thread `t` is busy with, its step changes nothing that matters. */
  ghost predicate OnlyAbout(r: Registry, r': Registry, t: Tid, id: Id) {
    && OthersKept(r, r', t)
    && (forall i | i != id :: (i in r'.idCr <==> i in r.idCr) && (i in r.idCr ==> r'.idCr[i] == r.idCr[i]))
    && (forall i | i != id :: (i in r'.mutex <==> i in r.mutex) && (i in r.mutex ==> r'.mutex[i] == r.mutex[i]))
    && (forall k | k in r.queues :: forall o | o in r.idOf && r.idOf[o] != id ::
          o in r'.queues[k] <==> o in r.queues[k])
  }

  lemma OtherDoingKept(r: Registry, r': Registry, t: Tid, id: Id, i: Id, c: Control)
    requires RegInv(r) && t in r.cs && !AtRest(r.cs[t]) && r.cs[t].id == id
    requires OnlyAbout(r, r', t, id) && i != id && Doing(r, i, c)
    ensures Doing(r', i, c)
  {
    assert MutexOk(r, i);
  }

  lemma OtherEntryKept(r: Registry, r': Registry, t: Tid, id: Id, k: Queue, o: Oid)
    requires RegInv(r) && t in r.cs && !AtRest(r.cs[t]) && r.cs[t].id == id
    requires OnlyAbout(r, r', t, id) && EntryOk(r, k, o) && r.idOf[o] != id
    ensures EntryOk(r', k, o)
  {
    if r.idOf[o] !in r.idCr { OtherDoingKept(r, r', t, id, r.idOf[o], RemoveDequeue(r.idOf[o], k)); }
  }

  lemma OtherRegisteredKept(r: Registry, r': Registry, t: Tid, id: Id, i: Id)
    requires RegInv(r) && t in r.cs && !AtRest(r.cs[t]) && r.cs[t].id == id
    requires OnlyAbout(r, r', t, id) && i in r'.idCr && i != id
    ensures RegisteredOk(r', i)
  {
    assert RegisteredOk(r, i);
    var o := r.idCr[i];
    if o !in r.queues[r.home[o]] { OtherDoingKept(r, r', t, id, i, AddEnqueue(i, o)); }
  }

  lemma OtherControlKept(r: Registry, r': Registry, t: Tid, id: Id, u: Tid)
    requires RegInv(r) && t in r.cs && !AtRest(r.cs[t]) && r.cs[t].id == id
    requires OnlyAbout(r, r', t, id) && u in r'.cs && u != t
    ensures ControlOk(r', u, r'.cs[u])
  {
    assert ControlOk(r, u, r.cs[u]) && ControlOk(r, t, r.cs[t]);
    match r.cs[u] {
      case RemoveDequeue(i, k) =>
        var o :| o in r.queues[k] && o in r.idOf && r.idOf[o] == i;
        assert o in r'.queues[k];
      case _ =>
    }
  }

  /** After a step about `id`, queue `k` has its entries once each, and those with this id are in order. */
  predicate EntriesAbout(r: Registry, r': Registry, k: Queue, id: Id)
    requires k in r'.queues
  {
    && NoDup(r'.queues[k])
    && (forall o | o in r'.queues[k] :: o in r.idOf && (r.idOf[o] == id ==> EntryOk(r', k, o)))
    && (forall o, o' | o in r'.queues[k] && o' in r'.queues[k] && o in r.idOf && o' in r.idOf ::
          r.idOf[o] == r.idOf[o'] == id ==> o == o')
  }

  lemma QueueAfterStep(r: Registry, r': Registry, t: Tid, id: Id, k: Queue)
    requires RegInv(r) && t in r.cs && !AtRest(r.cs[t]) && r.cs[t].id == id
    requires OnlyAbout(r, r', t, id) && k in r'.queues && EntriesAbout(r, r', k, id)
    ensures QueueOk(r', k)
  {
    assert QueueOk(r, k);
    forall o | o in r'.queues[k]
      ensures EntryOk(r', k, o)
    {
      if r.idOf[o] != id { OtherEntryKept(r, r', t, id, k, o); }
    }
  }

  /** Before thread `t` has taken the id off the queue, an entry with its id is the registered one. */
  lemma EntryOfOwnId(r: Registry, t: Tid, k: Queue, o: Oid)
    requires RegInv(r) && t in r.cs && !AtRest(r.cs[t]) && !r.cs[t].RemoveDequeue?
    requires k in r.queues && o in r.queues[k] && o in r.idOf && r.idOf[o] == r.cs[t].id
    ensures EntryOk(r, k, o) && r.cs[t].id in r.idCr && r.idCr[r.cs[t].id] == o
  {
    assert ControlOk(r, t, r.cs[t]) && QueueOk(r, k);
    assert EntryOk(r, k, o);
  }

  /** A step that leaves the queues alone. */
  lemma SameQueue(r: Registry, r': Registry, t: Tid, k: Queue)
    requires RegInv(r) && t in r.cs && !AtRest(r.cs[t]) && !r.cs[t].RemoveDequeue?
    requires k in r.queues && r'.queues == r.queues && r'.idOf == r.idOf
    requires forall o | EntryOk(r, k, o) && r.cs[t].id in r.idCr && r.idCr[r.cs[t].id] == o :: EntryOk(r', k, o)
    ensures EntriesAbout(r, r', k, r.cs[t].id)
  {
    assert QueueOk(r, k);
    forall o | o in r'.queues[k]
      ensures o in r.idOf && (r.idOf[o] == r.cs[t].id ==> EntryOk(r', k, o))
    {
      assert EntryOk(r, k, o);
      if r.idOf[o] == r.cs[t].id { EntryOfOwnId(r, t, k, o); }
    }
  }

  /** What remains to be shown after a step about `id`. */
  lemma StepOk(r: Registry, r': Registry, t: Tid, id: Id)
    requires RegInv(r) && t in r.cs && !AtRest(r.cs[t]) && r.cs[t].id == id
    requires OnlyAbout(r, r', t, id)
    requires ControlOk(r', t, r'.cs[t])
    requires id in r'.mutex ==> MutexOk(r', id)
    requires id in r'.idCr ==> RegisteredOk(r', id)
    requires forall k | k in r'.queues :: EntriesAbout(r, r', k, id)
    ensures RegInv(r')
  {
    forall k | k in r'.queues ensures QueueOk(r', k) { QueueAfterStep(r, r', t, id, k); }
    forall i | i in r'.idCr ensures RegisteredOk(r', i) {
      if i != id { OtherRegisteredKept(r, r', t, id, i); }
    }
    forall i | i in r'.mutex ensures MutexOk(r', i) {
      if i != id { assert MutexOk(r, i); }
    }
    forall u | u in r'.cs ensures ControlOk(r', u, r'.cs[u]) {
      if u != t { OtherControlKept(r, r', t, id, u); }
    }
  }

  lemma ControlStepOk(r: Registry, t: Tid)
    requires RegInv(r) && t in r.cs && !AtRest(r.cs[t])
    ensures RegInv(StepControl(r, t).0)
  {
    match r.cs[t] {
      case AddBegin(_, _) => AddBeginOk(r, t);
      case AddEnqueue(_, _) => AddEnqueueOk(r, t);
      case RemoveBegin(_) => RemoveBeginOk(r, t);
      case RemoveDequeue(_, _) => RemoveDequeueOk(r, t);
    }
  }

  /** The first critical section of an operation touches the id map and its own mutex at most. */
  lemma BeginAbout(r: Registry, t: Tid)
    requires RegInv(r) && t in r.cs && (r.cs[t].AddBegin? || r.cs[t].RemoveBegin?)
    ensures
      var (r', e) := StepControl(r, t);
      && e == Nothing && r'.queues == r.queues && r'.unused == r.unused && OnlyAbout(r, r', t, r.cs[t].id)
      && (AtRest(r'.cs[t]) || r'.cs[t].RemoveDequeue? || r'.cs[t] == AddEnqueue(r.cs[t].id, r.cs[t].o))
  {
    assert ControlOk(r, t, r.cs[t]);
  }

  lemma AddBeginOk(r: Registry, t: Tid)
    requires RegInv(r) && t in r.cs && r.cs[t].AddBegin?
    ensures RegInv(StepControl(r, t).0)
  {
    var r', id := StepControl(r, t).0, r.cs[t].id;
    BeginAbout(r, t);
    assert ControlOk(r, t, r.cs[t]);
    forall k | k in r'.queues ensures EntriesAbout(r, r', k, id) { SameQueue(r, r', t, k); }
    if id in r.idCr { assert RegisteredOk(r, id); }
    StepOk(r, r', t, id);
  }

  lemma AppendedHas(xs: seq<Oid>, o: Oid)
    requires NoDup(xs) && o !in xs
    ensures NoDup(xs + [o])
    ensures forall x :: x in xs + [o] <==> x in xs || x == o
  {
  }

  lemma NotYetQueued(r: Registry, t: Tid, k: Queue, x: Oid)
    requires RegInv(r) && t in r.cs && r.cs[t].AddEnqueue? && k in r.queues && x in r.queues[k]
    ensures x in r.idOf && r.idOf[x] != r.cs[t].id
  {
    assert ControlOk(r, t, r.cs[t]) && QueueOk(r, k);
    assert EntryOk(r, k, x);
  }

  lemma AddEnqueueOk(r: Registry, t: Tid)
    requires RegInv(r) && t in r.cs && r.cs[t].AddEnqueue?
    ensures RegInv(StepControl(r, t).0)
  {
    var r', id, o := StepControl(r, t).0, r.cs[t].id, r.cs[t].o;
    assert ControlOk(r, t, r.cs[t]);
    AppendedHas(r.queues[r.home[o]], o);
    forall k | k in r'.queues ensures EntriesAbout(r, r', k, id) { AddedEntries(r, t, k); }
    assert OnlyAbout(r, r', t, id);
    StepOk(r, r', t, id);
  }

  lemma AddedEntries(r: Registry, t: Tid, k: Queue)
    requires RegInv(r) && t in r.cs && r.cs[t].AddEnqueue? && k in r.queues
    ensures EntriesAbout(r, StepControl(r, t).0, k, r.cs[t].id)
  {
    var r', o := StepControl(r, t).0, r.cs[t].o;
    assert ControlOk(r, t, r.cs[t]) && QueueOk(r, k);
    if k == r.home[o] { AppendedHas(r.queues[k], o); }
    forall x | x in r'.queues[k] ensures x in r.idOf && (r.idOf[x] == r.cs[t].id ==> x == o && k == r.home[o]) {
      if x in r.queues[k] { NotYetQueued(r, t, k, x); }
    }
    assert k == r.home[o] ==> EntryOk(r', k, o);
  }

  lemma RemoveBeginOk(r: Registry, t: Tid)
    requires RegInv(r) && t in r.cs && r.cs[t].RemoveBegin?
    ensures RegInv(StepControl(r, t).0)
  {
    var r', id := StepControl(r, t).0, r.cs[t].id;
    BeginAbout(r, t);
    assert ControlOk(r, t, r.cs[t]);
    if id in r.idCr { RegisteredIsQueued(r, t); }
    forall k | k in r'.queues ensures EntriesAbout(r, r', k, id) { SameQueue(r, r', t, k); }
    StepOk(r, r', t, id);
  }

  lemma RegisteredIsQueued(r: Registry, t: Tid)
    requires RegInv(r) && t in r.cs && r.cs[t].RemoveBegin? && r.cs[t].id in r.idCr
    ensures var o := r.idCr[r.cs[t].id]; Queued(r, o) && r.idOf[o] == r.cs[t].id
  {
    assert ControlOk(r, t, r.cs[t]) && RegisteredOk(r, r.cs[t].id);
  }

  lemma ErasedHas(xs: seq<Oid>, i: nat)
    requires i < |xs| && NoDup(xs)
    ensures NoDup(Erase(xs, i))
    ensures forall x :: x in Erase(xs, i) <==> x in xs && x != xs[i]
  {
  }

  lemma RemoveDequeueOk(r: Registry, t: Tid)
    requires RegInv(r) && t in r.cs && r.cs[t].RemoveDequeue?
    ensures RegInv(StepControl(r, t).0)
    ensures StepControl(r, t).0.cs[t] == Returned(true)
  {
    var r', id := StepControl(r, t).0, r.cs[t].id;
    var i := RemovedAt(r, t);
    forall k | k in r'.queues ensures EntriesAbout(r, r', k, id) { RemovedEntries(r, t, k); }
    ErasedHas(r.queues[r.cs[t].q], i);
    assert ControlOk(r, t, r.cs[t]);
    assert OnlyAbout(r, r', t, id);
    StepOk(r, r', t, id);
  }

  /** The entry to remove is there: the walk over the queue finds it. */
  lemma RemovedAt(r: Registry, t: Tid) returns (i: nat)
    requires RegInv(r) && t in r.cs && r.cs[t].RemoveDequeue?
    ensures ControlOk(r, t, r.cs[t]) && i < |r.queues[r.cs[t].q]| && NoDup(r.queues[r.cs[t].q])
    ensures forall o | o in r.queues[r.cs[t].q] :: o in r.idOf && (r.idOf[o] == r.cs[t].id <==> o == r.queues[r.cs[t].q][i])
    ensures
      var id, k := r.cs[t].id, r.cs[t].q;
      StepControl(r, t) ==
        (r.(queues := r.queues[k := Erase(r.queues[k], i)], mutex := r.mutex - {id}, cs := r.cs[t := Returned(true)]),
         Leaves(k, r.queues[k][i]))
  {
    var id, k := r.cs[t].id, r.cs[t].q;
    assert ControlOk(r, t, r.cs[t]) && QueueOk(r, k);
    var xs := r.queues[k];
    assert forall o | o in xs :: EntryOk(r, k, o);
    i := Find(r, xs, id);
    assert i < |xs|;
    assert xs[i] in xs;
  }

  lemma RemovedEntries(r: Registry, t: Tid, k: Queue)
    requires RegInv(r) && t in r.cs && r.cs[t].RemoveDequeue? && k in r.queues
    ensures EntriesAbout(r, StepControl(r, t).0, k, r.cs[t].id)
    ensures forall x | x in StepControl(r, t).0.queues[k] :: x in r.queues[k] && x in r.idOf && r.idOf[x] != r.cs[t].id
  {
    var id := r.cs[t].id;
    var i := RemovedAt(r, t);
    assert QueueOk(r, k);
    if k == r.cs[t].q {
      ErasedHas(r.queues[k], i);
    } else {
      forall x | x in r.queues[k] ensures x in r.idOf && r.idOf[x] != id { assert EntryOk(r, k, x); }
    }
  }

  // ================================================================ the processors

  datatype Processor =
    | PIdle
    | PScan(k: Queue, rest: seq<Oid>)           // read lock held, entries still to try
    | PHave(k: Queue, o: Oid, rest: seq<Oid>)   // read lock held, `o` acquired, about to look at its state
    | PRun(o: Oid)                              // inside Resume
    | PRelease(o: Oid)

  /** `locked` are the coroutines whose atomic flag is set. `entered` is history: ever queued. */
  datatype Running = Running(locked: set<Oid>, entered: set<Oid>, ps: map<Pid, Processor>)

  /** The coroutine a processor is between acquiring and releasing. */
  predicate Holds(q: Processor, o: Oid) {
    (q.PHave? || q.PRun? || q.PRelease?) && q.o == o
  }

  predicate Scanning(q: Processor, k: Queue) {
    (q.PScan? || q.PHave?) && q.k == k
  }

  /** No scan holds the read side of queue `k`. */
  predicate WriteFree(u: Running, k: Queue) {
    forall p | p in u.ps :: !Scanning(u.ps[p], k)
  }

  predicate OnQueue(queues: map<Queue, seq<Oid>>, o: Oid) {
    exists k :: k in queues && o in queues[k]
  }

  predicate HolderOk(u: Running, queues: map<Queue, seq<Oid>>, p: Pid, o: Oid) {
    && o in u.entered && (OnQueue(queues, o) ==> o in u.locked)
    && (forall q | q in u.ps && q != p :: !Holds(u.ps[q], o))
  }

  predicate ProcessorOk(u: Running, queues: map<Queue, seq<Oid>>, p: Pid)
    requires p in u.ps
  {
    match u.ps[p]
    case PIdle => true
    case PScan(k, rest) => k in queues && (forall o | o in rest :: o in queues[k])
    case PHave(k, o, rest) =>
      k in queues && o in queues[k] && (forall x | x in rest :: x in queues[k]) && HolderOk(u, queues, p, o)
    case PRun(o) => HolderOk(u, queues, p, o)
    case PRelease(o) => HolderOk(u, queues, p, o)
  }

  predicate SomeoneHolds(u: Running, o: Oid) {
    exists p :: p in u.ps && Holds(u.ps[p], o)
  }

  predicate RunInv(u: Running, queues: map<Queue, seq<Oid>>) {
    && (forall k | k in queues :: forall o | o in queues[k] :: o in u.entered)
    && (forall o | o in u.locked :: SomeoneHolds(u, o))
    && (forall p | p in u.ps :: ProcessorOk(u, queues, p))
  }

  /** One step of a processor. `ready` is what UpdateState says of the coroutine it acquired. */
  function StepProcessor(u: Running, p: Pid, ready: bool): Running
    requires p in u.ps && u.ps[p] != PIdle
  {
    match u.ps[p]
    case PScan(k, rest) =>
      if rest == [] then u.(ps := u.ps[p := PIdle])
      else if rest[0] in u.locked then u.(ps := u.ps[p := PScan(k, rest[1..])])
      else u.(locked := u.locked + {rest[0]}, ps := u.ps[p := PHave(k, rest[0], rest[1..])])
    case PHave(k, o, rest) =>
      if ready then u.(ps := u.ps[p := PRun(o)])
      else u.(locked := u.locked - {o}, ps := u.ps[p := PScan(k, rest)])
    case PRun(o) => u.(ps := u.ps[p := PRelease(o)])
    case PRelease(o) => u.(locked := u.locked - {o}, ps := u.ps[p := PIdle])
  }

  lemma ProcessorStepOk(u: Running, queues: map<Queue, seq<Oid>>, p: Pid, ready: bool)
    requires RunInv(u, queues) && p in u.ps && u.ps[p] != PIdle
    ensures RunInv(StepProcessor(u, p, ready), queues)
  {
    var u' := StepProcessor(u, p, ready);
    assert ProcessorOk(u, queues, p);
    forall q | q in u'.ps
      ensures ProcessorOk(u', queues, q)
    {
      assert ProcessorOk(u, queues, q);
      if q != p && u.ps[p].PScan? && u.ps[p].rest != [] {
        assert OnQueue(queues, u.ps[p].rest[0]);
      }
    }
    forall o | o in u'.locked
      ensures SomeoneHolds(u', o)
    {
      if o in u.locked {
        var q :| q in u.ps && Holds(u.ps[q], o);
        assert Holds(u'.ps[q], o);
      } else {
        assert Holds(u'.ps[p], o);
      }
    }
  }

  function BeginScan(u: Running, queues: map<Queue, seq<Oid>>, p: Pid, k: Queue): Running
    requires p in u.ps && k in queues
  {
    u.(ps := u.ps[p := PScan(k, queues[k])])
  }

  lemma BeginScanOk(u: Running, queues: map<Queue, seq<Oid>>, p: Pid, k: Queue)
    requires RunInv(u, queues) && p in u.ps && u.ps[p] == PIdle && k in queues
    ensures RunInv(BeginScan(u, queues, p, k), queues)
  {
    var u' := BeginScan(u, queues, p, k);
    forall q | q in u'.ps ensures ProcessorOk(u', queues, q) { assert ProcessorOk(u, queues, q); }
    forall o | o in u'.locked
      ensures SomeoneHolds(u', o)
    {
      var q :| q in u.ps && Holds(u.ps[q], o);
      assert Holds(u'.ps[q], o);
    }
  }

  /** The step that queues a coroutine finds it never queued before. */
  lemma EntersOk(u: Running, queues: map<Queue, seq<Oid>>, k: Queue, o: Oid)
    requires RunInv(u, queues) && k in queues && o !in u.entered && WriteFree(u, k)
    ensures RunInv(u.(entered := u.entered + {o}), queues[k := queues[k] + [o]])
  {
    var u', queues' := u.(entered := u.entered + {o}), queues[k := queues[k] + [o]];
    forall q | q in u'.ps
      ensures ProcessorOk(u', queues', q)
    {
      assert ProcessorOk(u, queues, q) && !Scanning(u.ps[q], k);
      forall x | x in u.entered && OnQueue(queues', x)
        ensures OnQueue(queues, x)
      {
        var j :| j in queues' && x in queues'[j];
        assert x in queues[j];
      }
    }
    forall x | x in u'.locked
      ensures SomeoneHolds(u', x)
    {
      var q :| q in u.ps && Holds(u.ps[q], x);
      assert Holds(u'.ps[q], x);
    }
  }

  /** `RemoveCRoutine` may clear the flag of a coroutine that is being run: it is off every queue by
      then, so nobody else can acquire it. */
  lemma LeavesOk(u: Running, queues: map<Queue, seq<Oid>>, k: Queue, o: Oid, xs: seq<Oid>)
    requires RunInv(u, queues) && k in queues && WriteFree(u, k)
    requires (forall x | x in xs :: x in queues[k]) && !OnQueue(queues[k := xs], o)
    ensures RunInv(u.(locked := u.locked - {o}), queues[k := xs])
  {
    var u', queues' := u.(locked := u.locked - {o}), queues[k := xs];
    forall q | q in u'.ps
      ensures ProcessorOk(u', queues', q)
    {
      assert ProcessorOk(u, queues, q) && !Scanning(u.ps[q], k);
      forall x | OnQueue(queues', x)
        ensures OnQueue(queues, x)
      {
        var j :| j in queues' && x in queues'[j];
        assert x in queues[j];
      }
    }
    forall x | x in u'.locked
      ensures SomeoneHolds(u', x)
    {
      var q :| q in u.ps && Holds(u.ps[q], x);
      assert Holds(u'.ps[q], x);
    }
  }

  // ================================================================ the whole system

  datatype State = State(reg: Registry, run: Running)

  datatype Action =
    | Add(t: Tid, o: Oid)
    | Remove(t: Tid, id: Id)
    | ControlStep(t: Tid)
    | Scan(p: Pid, k: Queue)
    | ProcessorStep(p: Pid, ready: bool)

  predicate Init(s: State) {
    && s.reg.idCr == map[] && s.reg.mutex == map[]
    && (forall o | o in s.reg.unused :: Known(s.reg, o))
    && (forall k | k in s.reg.queues :: s.reg.queues[k] == [])
    && (forall t | t in s.reg.cs :: s.reg.cs[t] == CIdle)
    && s.run.locked == {} && s.run.entered == {}
    && (forall p | p in s.run.ps :: s.run.ps[p] == PIdle)
  }

  predicate Inv(s: State) {
    RegInv(s.reg) && RunInv(s.run, s.reg.queues) && NewOnesUntouched(s.reg, s.run.entered)
  }

  lemma InitInv(s: State)
    requires Init(s)
    ensures Inv(s)
  {
  }

  /** A writer's critical section waits until no scan reads the queue. */
  predicate Enabled(s: State, a: Action) {
    match a
    case Add(t, o) => CanBeginAdd(s.reg, t, o)
    case Remove(t, id) => CanBeginRemove(s.reg, t, id)
    case ControlStep(t) =>
      && t in s.reg.cs && !AtRest(s.reg.cs[t])
      && (s.reg.cs[t].AddEnqueue? ==> s.reg.cs[t].o in s.reg.home && WriteFree(s.run, s.reg.home[s.reg.cs[t].o]))
      && (s.reg.cs[t].RemoveDequeue? ==> WriteFree(s.run, s.reg.cs[t].q))
    case Scan(p, k) => p in s.run.ps && s.run.ps[p] == PIdle && k in s.reg.queues
    case ProcessorStep(p, _) => p in s.run.ps && s.run.ps[p] != PIdle
  }

  function Next(s: State, a: Action): State
    requires Inv(s) && Enabled(s, a)
  {
    match a
    case Add(t, o) => s.(reg := BeginAddReg(s.reg, t, o))
    case Remove(t, id) => s.(reg := BeginRemoveReg(s.reg, t, id))
    case ControlStep(t) =>
      var (reg, e) := StepControl(s.reg, t);
      State(reg, match e
                 case Nothing => s.run
                 case Enters(_, o) => s.run.(entered := s.run.entered + {o})
                 case Leaves(_, o) => s.run.(locked := s.run.locked - {o}))
    case Scan(p, k) => s.(run := BeginScan(s.run, s.reg.queues, p, k))
    case ProcessorStep(p, ready) => s.(run := StepProcessor(s.run, p, ready))
  }

  /** No coroutine that is still to be queued was ever queued before. */
  predicate NewOnesUntouched(reg: Registry, entered: set<Oid>) {
    && (forall o | o in reg.unused :: o !in entered)
    && (forall t | t in reg.cs && (reg.cs[t].AddBegin? || reg.cs[t].AddEnqueue?) :: reg.cs[t].o !in entered)
  }

  lemma ControlStepInv(s: State, t: Tid)
    requires Inv(s) && Enabled(s, ControlStep(t))
    ensures Inv(Next(s, ControlStep(t)))
  {
    ControlStepOk(s.reg, t);
    if s.reg.cs[t].AddEnqueue? {
      AddedEnters(s, t);
    } else if s.reg.cs[t].RemoveDequeue? {
      RemovedLeaves(s, t);
      RemovedUntouched(s, t);
    } else {
      QuietStep(s, t);
    }
  }

  lemma QuietStep(s: State, t: Tid)
    requires Inv(s) && Enabled(s, ControlStep(t)) && (s.reg.cs[t].AddBegin? || s.reg.cs[t].RemoveBegin?)
    ensures
      var s' := Next(s, ControlStep(t));
      s'.run == s.run && s'.reg.queues == s.reg.queues && NewOnesUntouched(s'.reg, s'.run.entered)
  {
    BeginAbout(s.reg, t);
    var r' := StepControl(s.reg, t).0;
    forall u | u in r'.cs && (r'.cs[u].AddBegin? || r'.cs[u].AddEnqueue?) ensures r'.cs[u].o !in s.run.entered {
      if u != t { assert r'.cs[u] == s.reg.cs[u]; }
    }
  }

  lemma RemovedUntouched(s: State, t: Tid)
    requires Inv(s) && Enabled(s, ControlStep(t)) && s.reg.cs[t].RemoveDequeue?
    ensures NewOnesUntouched(Next(s, ControlStep(t)).reg, Next(s, ControlStep(t)).run.entered)
  {
  }

  lemma AddedEnters(s: State, t: Tid)
    requires Inv(s) && Enabled(s, ControlStep(t)) && s.reg.cs[t].AddEnqueue?
    ensures
      var s' := Next(s, ControlStep(t));
      RunInv(s'.run, s'.reg.queues) && NewOnesUntouched(s'.reg, s'.run.entered)
  {
    var s', o := Next(s, ControlStep(t)), s.reg.cs[t].o;
    assert ControlOk(s.reg, t, s.reg.cs[t]);
    EntersOk(s.run, s.reg.queues, s.reg.home[o], o);
    forall u | u in s'.reg.cs && (s'.reg.cs[u].AddBegin? || s'.reg.cs[u].AddEnqueue?)
      ensures s'.reg.cs[u].o !in s'.run.entered
    {
      assert ControlOk(s.reg, u, s.reg.cs[u]);
    }
  }

  lemma RemovedLeaves(s: State, t: Tid)
    requires Inv(s) && Enabled(s, ControlStep(t)) && s.reg.cs[t].RemoveDequeue?
    ensures StepControl(s.reg, t).1.Leaves?
    ensures !OnQueue(StepControl(s.reg, t).0.queues, StepControl(s.reg, t).1.o)
    ensures RunInv(Next(s, ControlStep(t)).run, Next(s, ControlStep(t)).reg.queues)
  {
    RemoveDequeueOk(s.reg, t);
    var k := s.reg.cs[t].q;
    var i := RemovedAt(s.reg, t);
    var (r', e) := StepControl(s.reg, t);
    ErasedHas(s.reg.queues[k], i);
    assert e.o in s.reg.queues[k];
    forall j | j in r'.queues ensures e.o !in r'.queues[j] { RemovedEntries(s.reg, t, j); }
    LeavesOk(s.run, s.reg.queues, k, e.o, r'.queues[k]);
  }

  lemma NextInv(s: State, a: Action)
    requires Inv(s) && Enabled(s, a)
    ensures Inv(Next(s, a))
  {
    match a {
      case Add(t, o) => BeginAddOk(s.reg, t, o);
      case Remove(t, id) => BeginRemoveOk(s.reg, t, id);
      case ControlStep(t) => ControlStepInv(s, t);
      case Scan(p, k) => BeginScanOk(s.run, s.reg.queues, p, k);
      case ProcessorStep(p, ready) => ProcessorStepOk(s.run, s.reg.queues, p, ready);
    }
  }

  ghost predicate Run(s: State, actions: seq<Action>)
    requires Inv(s)
    decreases |actions|
  {
    actions == [] ||
    (Enabled(s, actions[0]) && (NextInv(s, actions[0]); Run(Next(s, actions[0]), actions[1..])))
  }

  ghost function Final(s: State, actions: seq<Action>): State
    requires Inv(s) && Run(s, actions)
    decreases |actions|
  {
    if actions == [] then s else NextInv(s, actions[0]); Final(Next(s, actions[0]), actions[1..])
  }

  lemma {:induction false} FinalInv(s: State, actions: seq<Action>)
    requires Inv(s) && Run(s, actions)
    ensures Inv(Final(s, actions))
    decreases |actions|
  {
    if actions != [] {
      NextInv(s, actions[0]);
      FinalInv(Next(s, actions[0]), actions[1..]);
    }
  }

  /** Exclusive execution, over every run: no two processors are inside the same coroutine object, even
      when a removal clears its flag while it runs; and the flag of a queued coroutine is set exactly
      while some processor is inside it. */
  lemma ExclusiveExecution(s0: State, actions: seq<Action>, p: Pid, q: Pid, o: Oid)
    requires Init(s0) && (InitInv(s0); Run(s0, actions))
    ensures
      var u := Final(s0, actions).run;
      && (p in u.ps && q in u.ps && Holds(u.ps[p], o) && Holds(u.ps[q], o) ==> p == q)
      && (OnQueue(Final(s0, actions).reg.queues, o) ==> (o in u.locked <==> SomeoneHolds(u, o)))
  {
    FinalInv(s0, actions);
    var s := Final(s0, actions);
    OneHolder(s.run, s.reg.queues, p, q, o);
  }

  lemma OneHolder(u: Running, queues: map<Queue, seq<Oid>>, p: Pid, q: Pid, o: Oid)
    requires RunInv(u, queues)
    ensures p in u.ps && q in u.ps && Holds(u.ps[p], o) && Holds(u.ps[q], o) ==> p == q
    ensures OnQueue(queues, o) ==> (o in u.locked <==> SomeoneHolds(u, o))
  {
    if p in u.ps { assert ProcessorOk(u, queues, p); }
    if SomeoneHolds(u, o) {
      var h :| h in u.ps && Holds(u.ps[h], o);
      assert ProcessorOk(u, queues, h);
    }
  }

  /** Between operations, over every run: each id in `id_cr_` sits exactly once, in the queue of its
      group and priority, and every queue entry is the coroutine registered under its id. */
  lemma RegistryMatchesQueues(s0: State, actions: seq<Action>)
    requires Init(s0) && (InitInv(s0); Run(s0, actions))
    ensures
      var r := Final(s0, actions).reg;
      r.mutex == map[] ==>
        && (forall id | id in r.idCr :: Queued(r, r.idCr[id]) && r.idOf[r.idCr[id]] == id)
        && (forall k | k in r.queues :: forall o | o in r.queues[k] ::
              Known(r, o) && r.home[o] == k && r.idOf[o] in r.idCr && r.idCr[r.idOf[o]] == o)
        && (forall k | k in r.queues :: NoDup(r.queues[k]))
  {
    FinalInv(s0, actions);
    var r := Final(s0, actions).reg;
    if r.mutex == map[] {
      forall id | id in r.idCr ensures Queued(r, r.idCr[id]) && r.idOf[r.idCr[id]] == id {
        assert RegisteredOk(r, id);
      }
      forall k | k in r.queues
        ensures NoDup(r.queues[k])
        ensures forall o | o in r.queues[k] :: EntryOk(r, k, o)
      {
        assert QueueOk(r, k);
      }
    }
  }

  /** A coroutine off every queue stays off, and no processor enters it any more: those inside it at
      the end of any run were inside at its start. */
  lemma {:induction false} RemovedNeverStarts(s: State, actions: seq<Action>, o: Oid, p: Pid)
    requires Inv(s) && Run(s, actions) && o in s.run.entered && !OnQueue(s.reg.queues, o)
    ensures !OnQueue(Final(s, actions).reg.queues, o)
    ensures
      var u := Final(s, actions).run;
      p in u.ps && Holds(u.ps[p], o) ==> p in s.run.ps && Holds(s.run.ps[p], o)
    decreases |actions|
  {
    if actions != [] {
      NextInv(s, actions[0]);
      StaysRemoved(s, actions[0], o, p);
      RemovedNeverStarts(Next(s, actions[0]), actions[1..], o, p);
    }
  }

  lemma StaysRemoved(s: State, a: Action, o: Oid, p: Pid)
    requires Inv(s) && Enabled(s, a) && o in s.run.entered && !OnQueue(s.reg.queues, o)
    ensures o in Next(s, a).run.entered && !OnQueue(Next(s, a).reg.queues, o)
    ensures p in Next(s, a).run.ps && Holds(Next(s, a).run.ps[p], o) ==> p in s.run.ps && Holds(s.run.ps[p], o)
  {
    match a
    case Add(_, _) =>
    case Remove(_, _) =>
    case Scan(_, _) =>
    case ControlStep(t) => StaysOffQueues(s, t, o);
    case ProcessorStep(p', ready) =>
      assert ProcessorOk(s.run, s.reg.queues, p');
      NotTakenUp(s.run, s.reg.queues, p', ready, o, p);
  }

  lemma StaysOffQueues(s: State, t: Tid, o: Oid)
    requires Inv(s) && Enabled(s, ControlStep(t)) && o in s.run.entered && !OnQueue(s.reg.queues, o)
    ensures o in Next(s, ControlStep(t)).run.entered && !OnQueue(Next(s, ControlStep(t)).reg.queues, o)
    ensures Next(s, ControlStep(t)).run.ps == s.run.ps
  {
    if s.reg.cs[t].RemoveDequeue? {
      OnlyShrinks(s.reg, t, o);
      var i := RemovedAt(s.reg, t);
    } else if s.reg.cs[t].AddEnqueue? {
      AddsAnother(s, t, o);
    } else {
      QuietStep(s, t);
    }
  }

  /** What is added has never been queued before. */
  lemma AddsAnother(s: State, t: Tid, o: Oid)
    requires RegInv(s.reg) && t in s.reg.cs && s.reg.cs[t].AddEnqueue? && NewOnesUntouched(s.reg, s.run.entered)
    requires o in s.run.entered && !OnQueue(s.reg.queues, o)
    ensures StepControl(s.reg, t).1.Enters? && !OnQueue(StepControl(s.reg, t).0.queues, o)
  {
    var x := s.reg.cs[t].o;
    assert ControlOk(s.reg, t, s.reg.cs[t]);
    AppendedHas(s.reg.queues[s.reg.home[x]], x);
  }

  lemma OnlyShrinks(r: Registry, t: Tid, o: Oid)
    requires RegInv(r) && t in r.cs && r.cs[t].RemoveDequeue? && !OnQueue(r.queues, o)
    ensures !OnQueue(StepControl(r, t).0.queues, o)
  {
    forall k | k in r.queues ensures o !in StepControl(r, t).0.queues[k] { RemovedEntries(r, t, k); }
  }

  /** A processor takes up only what is on a queue. */
  lemma NotTakenUp(u: Running, queues: map<Queue, seq<Oid>>, p': Pid, ready: bool, o: Oid, p: Pid)
    requires p' in u.ps && u.ps[p'] != PIdle && ProcessorOk(u, queues, p') && !OnQueue(queues, o)
    ensures
      var u' := StepProcessor(u, p', ready);
      u'.entered == u.entered && (p in u'.ps && Holds(u'.ps[p], o) ==> p in u.ps && Holds(u.ps[p], o))
  {
  }

  // ================================================================ whole calls

  predicate Begins(a: Action, t: Tid) {
    (a.Add? || a.Remove?) && a.t == t
  }

  predicate SameEntry(a: map<Id, Oid>, b: map<Id, Oid>, id: Id) {
    (id in a <==> id in b) && (id in a && id in b ==> a[id] == b[id])
  }

  /** Where a call of thread t about `id` stands: an addition of `o`, or a removal. `prior` is the id map at the
      call. */
  predicate Stands(r: Registry, t: Tid, id: Id, adding: bool, o: Oid, prior: map<Id, Oid>) {
    && t in r.cs
    && match r.cs[t]
       case AddBegin(i, x) => adding && i == id && x == o && SameEntry(r.idCr, prior, id)
       case AddEnqueue(i, x) => adding && i == id && x == o && id !in prior
       case RemoveBegin(i) => !adding && i == id && SameEntry(r.idCr, prior, id)
       case RemoveDequeue(i, k) =>
         && !adding && i == id && id in prior && k in r.queues && prior[id] in r.queues[k]
         && prior[id] in r.idOf && r.idOf[prior[id]] == id
       case Returned(ok) => ok <==> (adding <==> id !in prior)
       case CIdle => false
  }

  lemma StepAbout(r: Registry, u: Tid)
    requires RegInv(r) && u in r.cs && !AtRest(r.cs[u])
    ensures OnlyAbout(r, StepControl(r, u).0, u, r.cs[u].id)
  {
    assert ControlOk(r, u, r.cs[u]);
    if r.cs[u].RemoveDequeue? {
      var i := RemovedAt(r, u);
      ErasedHas(r.queues[r.cs[u].q], i);
    } else if r.cs[u].AddEnqueue? {
      AppendedHas(r.queues[r.home[r.cs[u].o]], r.cs[u].o);
    } else {
      BeginAbout(r, u);
    }
  }

  /** Another thread is busy with another id, since t holds the mutex of its own. */
  lemma StandsOther(r: Registry, r': Registry, u: Tid, t: Tid, id: Id, adding: bool, o: Oid, prior: map<Id, Oid>)
    requires RegInv(r) && u in r.cs && !AtRest(r.cs[u]) && OnlyAbout(r, r', u, r.cs[u].id) && u != t
    requires Stands(r, t, id, adding, o, prior)
    ensures Stands(r', t, id, adding, o, prior)
  {
    assert ControlOk(r, t, r.cs[t]) && ControlOk(r, u, r.cs[u]);
  }

  /** The next critical section of the call, and what it does when it is the last one. */
  lemma StandsStep(r: Registry, t: Tid, id: Id, adding: bool, o: Oid, prior: map<Id, Oid>)
    requires RegInv(r) && Stands(r, t, id, adding, o, prior) && !AtRest(r.cs[t])
    ensures Stands(StepControl(r, t).0, t, id, adding, o, prior)
    ensures AtRest(StepControl(r, t).0.cs[t]) ==> Outcome(r, StepControl(r, t).0, id, adding, o, prior)
  {
    assert ControlOk(r, t, r.cs[t]);
    match r.cs[t] {
      case RemoveBegin(_) => if id in r.idCr { RegisteredIsQueued(r, t); }
      case RemoveDequeue(_, _) =>
        forall k | k in r.queues ensures prior[id] !in StepControl(r, t).0.queues[k] { RemovedEntries(r, t, k); }
        RemoveDequeueOk(r, t);
      case AddBegin(_, _) =>
      case AddEnqueue(_, _) =>
    }
  }

  /** What the last critical section of a call has done. */
  predicate Outcome(r: Registry, r': Registry, id: Id, adding: bool, o: Oid, prior: map<Id, Oid>) {
    if adding && id !in prior then
      && id in r'.idCr && r'.idCr[id] == o && o in r.home && r.home[o] in r.queues
      && r'.queues == r.queues[r.home[o] := r.queues[r.home[o]] + [o]]
    else if !adding && id in prior then id !in r'.idCr && !OnQueue(r'.queues, prior[id])
    else r'.idCr == r.idCr && r'.queues == r.queues && SameEntry(r'.idCr, prior, id)
  }

  lemma StandsNext(s: State, a: Action, t: Tid, id: Id, adding: bool, o: Oid, prior: map<Id, Oid>)
    requires Inv(s) && Enabled(s, a) && !Begins(a, t) && Stands(s.reg, t, id, adding, o, prior)
    ensures Stands(Next(s, a).reg, t, id, adding, o, prior)
  {
    match a {
      case ControlStep(u) =>
        if u == t {
          StandsStep(s.reg, t, id, adding, o, prior);
        } else {
          StepAbout(s.reg, u);
          StandsOther(s.reg, Next(s, a).reg, u, t, id, adding, o, prior);
        }
      case Add(_, _) =>
      case Remove(_, _) =>
      case Scan(_, _) =>
      case ProcessorStep(_, _) =>
    }
  }

  lemma {:induction false} StandsRun(s: State, actions: seq<Action>, t: Tid, id: Id, adding: bool, o: Oid, prior: map<Id, Oid>)
    requires Inv(s) && Run(s, actions) && Stands(s.reg, t, id, adding, o, prior)
    requires forall i | 0 <= i < |actions| :: !Begins(actions[i], t)
    ensures Stands(Final(s, actions).reg, t, id, adding, o, prior) && Inv(Final(s, actions))
    decreases |actions|
  {
    if actions != [] {
      assert !Begins(actions[0], t);
      NextInv(s, actions[0]);
      StandsNext(s, actions[0], t, id, adding, o, prior);
      StandsRun(Next(s, actions[0]), actions[1..], t, id, adding, o, prior);
    }
  }

  /** What the call has come to: the answer when it has returned, and what its last critical section does when
      that is the next one. */
  ghost predicate Ends(s: State, t: Tid, id: Id, adding: bool, o: Oid, prior: map<Id, Oid>)
    requires Inv(s)
  {
    && t in s.reg.cs
    && (AtRest(s.reg.cs[t]) ==> s.reg.cs[t] == Returned(adding <==> id !in prior))
    && (!AtRest(s.reg.cs[t]) && AtRest(StepControl(s.reg, t).0.cs[t]) ==>
          && StepControl(s.reg, t).0.cs[t] == Returned(adding <==> id !in prior)
          && Outcome(s.reg, StepControl(s.reg, t).0, id, adding, o, prior))
  }

  lemma StandsEnds(s: State, t: Tid, id: Id, adding: bool, o: Oid, prior: map<Id, Oid>)
    requires Inv(s) && Stands(s.reg, t, id, adding, o, prior)
    ensures Ends(s, t, id, adding, o, prior)
  {
    if !AtRest(s.reg.cs[t]) { StandsStep(s.reg, t, id, adding, o, prior); }
  }

  /** A whole DispatchTask, whatever other threads do during it: it returns true if and only if the id was free
      at the call; its last critical section then leaves the coroutine registered under its id and at the end
      of its queue, and otherwise changes nothing. */
  lemma AddOutcome(s: State, t: Tid, o: Oid, between: seq<Action>)
    requires Inv(s) && Enabled(s, Add(t, o))
    requires (NextInv(s, Add(t, o)); Run(Next(s, Add(t, o)), between))
    requires forall i | 0 <= i < |between| :: !Begins(between[i], t)
    ensures
      var s2 := Final(Next(s, Add(t, o)), between);
      Inv(s2) && Ends(s2, t, s.reg.idOf[o], true, o, s.reg.idCr)
  {
    NextInv(s, Add(t, o));
    StandsRun(Next(s, Add(t, o)), between, t, s.reg.idOf[o], true, o, s.reg.idCr);
    StandsEnds(Final(Next(s, Add(t, o)), between), t, s.reg.idOf[o], true, o, s.reg.idCr);
  }

  /** A whole RemoveCRoutine: it returns true if and only if the id was registered at the call; the coroutine
      that was is then off every queue and its id free, and otherwise nothing has changed. */
  lemma RemoveOutcome(s: State, t: Tid, id: Id, between: seq<Action>)
    requires Inv(s) && Enabled(s, Remove(t, id))
    requires (NextInv(s, Remove(t, id)); Run(Next(s, Remove(t, id)), between))
    requires forall i | 0 <= i < |between| :: !Begins(between[i], t)
    ensures
      var s2 := Final(Next(s, Remove(t, id)), between);
      Inv(s2) && Ends(s2, t, id, false, 0, s.reg.idCr)
  {
    NextInv(s, Remove(t, id));
    StandsRun(Next(s, Remove(t, id)), between, t, id, false, 0, s.reg.idCr);
    StandsEnds(Final(Next(s, Remove(t, id)), between), t, id, false, 0, s.reg.idCr);
  }

  /** The step that takes the coroutine off its queue also clears its flag, and no other flag. */
  lemma RemovalClearsFlag(s: State, t: Tid, id: Id, prior: map<Id, Oid>)
    requires Inv(s) && Enabled(s, ControlStep(t)) && s.reg.cs[t].RemoveDequeue?
    requires Stands(s.reg, t, id, false, 0, prior)
    ensures Next(s, ControlStep(t)).run == s.run.(locked := s.run.locked - {prior[id]})
  {
    var i := RemovedAt(s.reg, t);
  }

  // ---------------------------------------------------------------- a whole scan

  /** The entries a scan still has to decide about, the acquired one included. */
  function Ahead(q: Processor): seq<Oid> {
    match q
    case PScan(_, rest) => rest
    case PHave(_, o, rest) => [o] + rest
    case _ => []
  }

  predicate InScan(q: Processor) {
    q.PScan? || q.PHave?
  }

  /** The entry that a step of the scan passes, if any. */
  function PassedIn(q: Processor, q': Processor): seq<Oid> {
    if InScan(q) && InScan(q') && Ahead(q) != [] && Ahead(q') == Ahead(q)[1..] then [Ahead(q)[0]] else []
  }

  /** An entry is passed only if another processor holds it, or if it was acquired and found not ready; the
      scan ends without a coroutine only when nothing is ahead, and with one only with the first one ahead,
      acquired by this processor and found ready. */
  lemma ScanStep(u: Running, queues: map<Queue, seq<Oid>>, p: Pid, ready: bool)
    requires RunInv(u, queues) && p in u.ps && InScan(u.ps[p])
    ensures
      var u' := StepProcessor(u, p, ready);
      var q, q' := u.ps[p], u'.ps[p];
      && (InScan(q') ==> Ahead(q) == PassedIn(q, q') + Ahead(q'))
      && (PassedIn(q, q') != [] ==>
            || (exists h :: h in u.ps && h != p && Holds(u.ps[h], Ahead(q)[0]))
            || (q.PHave? && !ready && Ahead(q)[0] !in u'.locked))
      && (q' == PIdle ==> Ahead(q) == [])
      && (!InScan(q') && q' != PIdle ==> q.PHave? && ready && q' == PRun(Ahead(q)[0]) && Ahead(q)[0] in u'.locked)
  {
    var u' := StepProcessor(u, p, ready);
    var q, q' := u.ps[p], u'.ps[p];
    assert ProcessorOk(u, queues, p);
    if q.PHave? {
      assert OnQueue(queues, q.o);
    } else if q.rest != [] {
      assert q.rest == [q.rest[0]] + q.rest[1..];
      if q.rest[0] in u.locked {
        var h :| h in u.ps && Holds(u.ps[h], q.rest[0]);
        assert h != p;
      }
    }
  }

  /** The entries that processor p passes in the stretch, in order. */
  ghost function Passed(s: State, actions: seq<Action>, p: Pid): seq<Oid>
    requires Inv(s) && Run(s, actions)
    decreases |actions|
  {
    if actions == [] then []
    else
      NextInv(s, actions[0]);
      var s' := Next(s, actions[0]);
      (if p in s.run.ps && p in s'.run.ps then PassedIn(s.run.ps[p], s'.run.ps[p]) else []) + Passed(s', actions[1..], p)
  }

  ghost predicate ScansThroughout(s: State, actions: seq<Action>, p: Pid)
    requires Inv(s) && Run(s, actions)
    decreases |actions|
  {
    && p in s.run.ps && InScan(s.run.ps[p])
    && (actions == [] || (NextInv(s, actions[0]); ScansThroughout(Next(s, actions[0]), actions[1..], p)))
  }

  lemma ScanNext(s: State, a: Action, p: Pid)
    requires Inv(s) && Enabled(s, a) && p in s.run.ps && InScan(s.run.ps[p])
    requires p in Next(s, a).run.ps && InScan(Next(s, a).run.ps[p])
    ensures
      var q, q' := s.run.ps[p], Next(s, a).run.ps[p];
      Ahead(q) == PassedIn(q, q') + Ahead(q')
  {
    if a.ProcessorStep? && a.p == p {
      ScanStep(s.run, s.reg.queues, p, a.ready);
    } else {
      assert Next(s, a).run.ps[p] == s.run.ps[p];
      assert Ahead(s.run.ps[p]) != [] ==> |Ahead(s.run.ps[p])[1..]| < |Ahead(s.run.ps[p])|;
    }
  }

  /** A whole scan, whatever other threads do during it: it passes the entries of its queue one by one, from
      the front, and skips none. */
  lemma {:induction false} ScanInOrder(s: State, actions: seq<Action>, p: Pid)
    requires Inv(s) && Run(s, actions) && ScansThroughout(s, actions, p)
    ensures p in Final(s, actions).run.ps && InScan(Final(s, actions).run.ps[p])
    ensures Ahead(s.run.ps[p]) == Passed(s, actions, p) + Ahead(Final(s, actions).run.ps[p])
    decreases |actions|
  {
    if actions == [] {
      assert [] + Ahead(s.run.ps[p]) == Ahead(s.run.ps[p]);
    } else {
      var s' := Next(s, actions[0]);
      NextInv(s, actions[0]);
      ScanNext(s, actions[0], p);
      ScanInOrder(s', actions[1..], p);
      Regroup(PassedIn(s.run.ps[p], s'.run.ps[p]), Passed(s', actions[1..], p), Ahead(Final(s, actions).run.ps[p]));
    }
  }

  lemma Regroup(a: seq<Oid>, b: seq<Oid>, c: seq<Oid>)
    ensures a + (b + c) == (a + b) + c
  {
  }

  function OwnSteps(actions: seq<Action>, p: Pid): nat {
    if actions == [] then 0
    else (if actions[0].ProcessorStep? && actions[0].p == p then 1 else 0) + OwnSteps(actions[1..], p)
  }

  /** How many steps of its own a processor can still make before it is free. */
  function StepsLeft(q: Processor): nat {
    match q
    case PIdle => 0
    case PRelease(_) => 1
    case PRun(_) => 2
    case PScan(_, rest) => 2 * |rest| + 2
    case PHave(_, _, rest) => 2 * |rest| + 3
  }

  lemma StepsLeftNext(s: State, a: Action, p: Pid)
    requires Inv(s) && Enabled(s, a) && p in s.run.ps && !(a.Scan? && a.p == p)
    ensures
      var s' := Next(s, a);
      && p in s'.run.ps
      && StepsLeft(s'.run.ps[p]) + (if a.ProcessorStep? && a.p == p then 1 else 0) <= StepsLeft(s.run.ps[p])
  {
    assert (a.ProcessorStep? && a.p == p) || Next(s, a).run.ps[p] == s.run.ps[p];
  }

  /** Whatever other threads do, a processor that begins no further scan makes at most two steps for every entry
      ahead of it, and two more: no locked entry holds a scan up. */
  lemma {:induction false} ScanTerminates(s: State, actions: seq<Action>, p: Pid)
    requires Inv(s) && Run(s, actions) && p in s.run.ps
    requires forall i | 0 <= i < |actions| :: !(actions[i].Scan? && actions[i].p == p)
    ensures p in Final(s, actions).run.ps
    ensures OwnSteps(actions, p) + StepsLeft(Final(s, actions).run.ps[p]) <= StepsLeft(s.run.ps[p])
    decreases |actions|
  {
    if actions != [] {
      NextInv(s, actions[0]);
      assert !(actions[0].Scan? && actions[0].p == p);
      StepsLeftNext(s, actions[0], p);
      ScanTerminates(Next(s, actions[0]), actions[1..], p);
    }
  }

  /** How a scan that has passed `passed` of the entries `all` can end with its next step. */
  ghost predicate EndsScan(u: Running, p: Pid, ready: bool, passed: seq<Oid>, all: seq<Oid>) {
    && p in u.ps && InScan(u.ps[p])
    && var q := StepProcessor(u, p, ready).ps[p];
       && (q == PIdle ==> passed == all)
       && (q.PRun? ==> passed + [q.o] <= all)
  }

  lemma ScanEnds(u: Running, queues: map<Queue, seq<Oid>>, p: Pid, ready: bool, passed: seq<Oid>, all: seq<Oid>)
    requires RunInv(u, queues) && p in u.ps && InScan(u.ps[p]) && all == passed + Ahead(u.ps[p])
    ensures EndsScan(u, p, ready, passed, all)
  {
    ScanStep(u, queues, p, ready);
    var ahead := Ahead(u.ps[p]);
    assert passed + [] == passed;
    if ahead != [] { assert passed + ahead == (passed + [ahead[0]]) + ahead[1..]; }
  }

  /** So a scan of queue k that ends without a coroutine has passed all entries that the queue had when it began,
      and one that ends with a coroutine has passed all entries in front of it. */
  lemma ScanCoversQueue(s: State, k: Queue, p: Pid, actions: seq<Action>, ready: bool)
    requires Inv(s) && Enabled(s, Scan(p, k))
    requires (NextInv(s, Scan(p, k));
              Run(Next(s, Scan(p, k)), actions) && ScansThroughout(Next(s, Scan(p, k)), actions, p))
    ensures
      var s1 := Next(s, Scan(p, k));
      EndsScan(Final(s1, actions).run, p, ready, Passed(s1, actions, p), s.reg.queues[k])
  {
    NextInv(s, Scan(p, k));
    var s1 := Next(s, Scan(p, k));
    FinalInv(s1, actions);
    ScanInOrder(s1, actions, p);
    assert Ahead(s1.run.ps[p]) == s.reg.queues[k];
    var s2 := Final(s1, actions);
    ScanEnds(s2.run, s2.reg.queues, p, ready, Passed(s1, actions, p), s.reg.queues[k]);
  }

  // ---------------------------------------------------------------- a whole run of a coroutine

  /** Where processor p is, `n` of its own steps after it began to run coroutine o. */
  predicate RunsSince(u: Running, p: Pid, o: Oid, n: nat) {
    p in u.ps && u.ps[p] == if n == 0 then PRun(o) else PRelease(o)
  }

  lemma {:induction false} RunsOn(s: State, actions: seq<Action>, p: Pid, o: Oid, n: nat)
    requires Inv(s) && Run(s, actions) && RunsSince(s.run, p, o, n) && n + OwnSteps(actions, p) <= 1
    ensures RunsSince(Final(s, actions).run, p, o, n + OwnSteps(actions, p)) && Inv(Final(s, actions))
    decreases |actions|
  {
    if actions != [] {
      NextInv(s, actions[0]);
      RunsNext(s, actions[0], p, o, n);
      var own := if actions[0].ProcessorStep? && actions[0].p == p then 1 else 0;
      RunsOn(Next(s, actions[0]), actions[1..], p, o, n + own);
    }
  }

  lemma RunsNext(s: State, a: Action, p: Pid, o: Oid, n: nat)
    requires Inv(s) && Enabled(s, a) && RunsSince(s.run, p, o, n)
    ensures a.ProcessorStep? && a.p == p && n == 0 ==> RunsSince(Next(s, a).run, p, o, 1)
    ensures !(a.ProcessorStep? && a.p == p) ==> RunsSince(Next(s, a).run, p, o, n)
  {
  }

  /** Whatever other threads do, the second step of a processor after it began to run a coroutine lets it go:
      its flag is clear, no other flag changes, and the processor is free. */
  lemma RunIsReleased(s: State, actions: seq<Action>, p: Pid, o: Oid, ready: bool)
    requires Inv(s) && Run(s, actions) && p in s.run.ps && s.run.ps[p] == PRun(o) && OwnSteps(actions, p) == 1
    ensures
      var u := Final(s, actions).run;
      && p in u.ps && u.ps[p] != PIdle
      && var u' := StepProcessor(u, p, ready);
         u'.ps[p] == PIdle && u'.locked == u.locked - {o}
  {
    RunsOn(s, actions, p, o, 0);
  }
}
