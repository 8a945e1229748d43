/**
 The multi-producer multi-consumer ring of cyber/base/bounded_queue.h as a
 transition system: any number of threads, one atomic access per step,
 sequentially consistent memory, weak compare-and-swap that may fail at any time.

 An element is `width` words and is copied word by word, so a reader and a writer
 of the same slot really can overlap.
 */
module BoundedQueue {

  type Tid = nat
  type Word = int
  type Element = seq<Word>

  datatype Pc =
    | Idle
    | ELoadTail(e: Element)
    | ELoadHead(e: Element, oldTail: nat)
    | ECasTail(e: Element, oldTail: nat)
    | EWrite(e: Element, oldTail: nat, k: nat)
    | ECommit(e: Element, oldTail: nat)
    | EnqDone(ok: bool)
    | DLoadHead
    | DLoadCommit(oldHead: nat)
    | DRead(oldHead: nat, buf: Element)
    | DCasHead(oldHead: nat, buf: Element)
    | DeqDone(ok: bool, value: Element)

  /** `log`, `writer`, `out` and `taker` are history: the values and threads in order of successful
      tail CAS, and the values handed out and their threads in order of successful head CAS. */
  datatype State = State(
    n: nat, width: nat, pool: seq<Element>,
    head: nat, tail: nat, commit: nat,
    pcs: map<Tid, Pc>,
    log: seq<Element>, writer: seq<Tid>, out: seq<Element>, taker: seq<Tid>)

  datatype Action =
    | BeginEnqueue(t: Tid, e: Element)
    | BeginDequeue(t: Tid)
    | Step(t: Tid)
    | WeakFail(t: Tid)

  /** The ring slot of position `p`: positions go round a ring of `n` slots. */
  function Slot(p: nat, n: nat): (r: nat)
    requires n > 0
    ensures r < n
  {
    if p < n then p else Slot(p - n, n)
  }

  /** The source's `GetIndex`, a division and a multiplication, computes the slot. */
  lemma GetIndexIsSlot(num: nat, n: nat)
    requires n > 0
    ensures num - (num / n) * n == Slot(num, n)
  {
    assert num == (num / n) * n + num % n;
    SlotOfSum(num / n, num % n, n);
  }

  lemma {:induction false} SlotOfSum(q: nat, r: nat, n: nat)
    requires r < n
    ensures q * n + r >= 0 && Slot(q * n + r, n) == r
  {
    if q > 0 {
      SlotOfSum(q - 1, r, n);
      assert (q - 1) * n + r == q * n + r - n;
    }
  }

  lemma SlotsDiffer(a: nat, b: nat, n: nat)
    requires a < b < a + n
    ensures Slot(a, n) != Slot(b, n)
  {
    if a >= n {
      SlotsDiffer(a - n, b - n, n);
    }
  }

  predicate AtRest(pc: Pc) {
    pc.Idle? || pc.EnqDone? || pc.DeqDone?
  }

  predicate Init(s: State, size: nat) {
    && s.n == size + 2 && s.width >= 1
    && |s.pool| == s.n && (forall i | 0 <= i < s.n :: |s.pool[i]| == s.width)
    && s.head == 0 && s.tail == 1 && s.commit == 1
    && (forall t | t in s.pcs :: s.pcs[t] == Idle)
    && s.log == [] && s.writer == [] && s.out == [] && s.taker == []
  }

  /** Which actions thread `a.t` may take. */
  predicate Enabled(s: State, a: Action) {
    && a.t in s.pcs
    && match a
       case BeginEnqueue(t, e) => AtRest(s.pcs[t]) && |e| == s.width
       case BeginDequeue(t) => AtRest(s.pcs[t])
       case Step(t) => !AtRest(s.pcs[t])
       case WeakFail(t) => s.pcs[t].ECasTail? || s.pcs[t].ECommit? || s.pcs[t].DCasHead?
  }

  /** The shape that makes every step of every thread well defined. */
  predicate Shape(s: State) {
    && s.n >= 2 && s.width >= 1
    && |s.pool| == s.n && (forall i | 0 <= i < s.n :: |s.pool[i]| == s.width)
    && (forall t | t in s.pcs :: ShapePc(s, s.pcs[t]))
  }

  predicate ShapePc(s: State, pc: Pc) {
    match pc
    case ELoadTail(e) => |e| == s.width
    case ELoadHead(e, _) => |e| == s.width
    case ECasTail(e, _) => |e| == s.width
    case EWrite(e, _, k) => |e| == s.width && k < s.width
    case ECommit(e, _) => |e| == s.width
    case DRead(_, buf) => |buf| < s.width
    case DCasHead(_, buf) => |buf| == s.width
    case _ => true
  }

  function Goto(s: State, t: Tid, pc: Pc): State {
    s.(pcs := s.pcs[t := pc])
  }

  function Next(s: State, a: Action): (r: State)
    requires Shape(s) && Enabled(s, a)
    ensures Shape(r)
  {
    match a
    case BeginEnqueue(t, e) => Goto(s, t, ELoadTail(e))
    case BeginDequeue(t) => Goto(s, t, DLoadHead)
    case Step(t) => StepThread(s, t, s.pcs[t])
    case WeakFail(t) =>
      match s.pcs[t]
      case ECasTail(e, _) => Goto(s, t, ELoadHead(e, s.tail))
      case ECommit(_, _) => s
      case DCasHead(_, _) => Goto(s, t, DLoadCommit(s.head))
  }

  function StepThread(s: State, t: Tid, pc: Pc): (r: State)
    requires Shape(s) && t in s.pcs && s.pcs[t] == pc && !AtRest(pc)
    ensures Shape(r)
  {
    match pc
    case ELoadTail(e) => Goto(s, t, ELoadHead(e, s.tail))
    case ELoadHead(e, oldTail) =>
      if Slot(oldTail + 1, s.n) == Slot(s.head, s.n) then Goto(s, t, EnqDone(false))
      else Goto(s, t, ECasTail(e, oldTail))
    case ECasTail(e, oldTail) =>
      if s.tail == oldTail then
        Goto(s, t, EWrite(e, oldTail, 0)).(tail := oldTail + 1, log := s.log + [e], writer := s.writer + [t])
      else Goto(s, t, ELoadHead(e, s.tail))
    case EWrite(e, oldTail, k) =>
      var i := Slot(oldTail, s.n);
      Goto(s, t, if k + 1 < s.width then EWrite(e, oldTail, k + 1) else ECommit(e, oldTail))
        .(pool := s.pool[i := s.pool[i][k := e[k]]])
    case ECommit(e, oldTail) =>
      if s.commit == oldTail then Goto(s, t, EnqDone(true)).(commit := oldTail + 1) else s
    case DLoadHead => Goto(s, t, DLoadCommit(s.head))
    case DLoadCommit(oldHead) =>
      if oldHead + 1 == s.commit then Goto(s, t, DeqDone(false, []))
      else Goto(s, t, DRead(oldHead, []))
    case DRead(oldHead, buf) =>
      var buf' := buf + [s.pool[Slot(oldHead + 1, s.n)][|buf|]];
      Goto(s, t, if |buf'| < s.width then DRead(oldHead, buf') else DCasHead(oldHead, buf'))
    case DCasHead(oldHead, buf) =>
      if s.head == oldHead then
        Goto(s, t, DeqDone(true, buf)).(head := oldHead + 1, out := s.out + [buf], taker := s.taker + [t])
      else Goto(s, t, DLoadCommit(s.head))
  }

  // ---------------------------------------------------------------- invariant

  /** A producer between its tail CAS and its commit CAS owns position `oldTail`. */
  predicate InFlight(pc: Pc, p: nat) {
    (pc.EWrite? || pc.ECommit?) && pc.oldTail == p
  }

  predicate Counters(s: State) {
    && s.head < s.commit <= s.tail
    && s.tail - s.head <= s.n - 1
    && |s.log| == s.tail - 1 == |s.writer|
    && s.out == s.log[..s.head] && |s.taker| == |s.out|
  }

  predicate Committed(s: State)
    requires Shape(s) && Counters(s)
  {
    forall p :: s.head < p < s.commit ==> s.pool[Slot(p, s.n)] == s.log[p - 1]
  }

  predicate Owners(s: State)
    requires Counters(s)
  {
    forall i | s.commit - 1 <= i < |s.writer| ::
      s.writer[i] in s.pcs && InFlight(s.pcs[s.writer[i]], i + 1)
  }

  predicate ThreadOk(s: State, t: Tid, pc: Pc)
    requires Shape(s) && Counters(s) && ShapePc(s, pc)
  {
    match pc
    case ELoadHead(_, oldTail) => oldTail <= s.tail
    case ECasTail(_, oldTail) =>
      oldTail <= s.tail && (oldTail == s.tail ==> s.tail + 1 - s.head <= s.n - 1)
    case EWrite(e, oldTail, k) =>
      && s.commit <= oldTail < s.tail && s.writer[oldTail - 1] == t && s.log[oldTail - 1] == e
      && s.pool[Slot(oldTail, s.n)][..k] == e[..k]
    case ECommit(e, oldTail) =>
      && s.commit <= oldTail < s.tail && s.writer[oldTail - 1] == t && s.log[oldTail - 1] == e
      && s.pool[Slot(oldTail, s.n)] == e
    case DLoadCommit(oldHead) => oldHead <= s.head
    case DRead(oldHead, buf) =>
      oldHead <= s.head && (oldHead == s.head ==> oldHead + 1 < s.commit && buf <= s.log[oldHead])
    case DCasHead(oldHead, buf) =>
      oldHead <= s.head && (oldHead == s.head ==> oldHead + 1 < s.commit && buf == s.log[oldHead])
    case DeqDone(ok, value) => ok ==> value in s.out
    case _ => true
  }

  predicate Inv(s: State) {
    && Shape(s) && Counters(s) && Committed(s) && Owners(s)
    && (forall t | t in s.pcs :: ThreadOk(s, t, s.pcs[t]))
  }

  lemma InitInv(s: State, size: nat)
    requires Init(s, size)
    ensures Inv(s)
  {
  }

  /** A step that only moves one thread's program counter, outside its reservation. */
  lemma LocalInv(s: State, t: Tid, pc: Pc)
    requires Inv(s) && t in s.pcs && ShapePc(s, pc) && ThreadOk(s, t, pc)
    requires !s.pcs[t].EWrite? && !s.pcs[t].ECommit?
    ensures Inv(Goto(s, t, pc))
  {
  }

  lemma NextInv(s: State, a: Action)
    requires Inv(s) && Enabled(s, a)
    ensures Inv(Next(s, a))
  {
    match a {
      case BeginEnqueue(t, e) => LocalInv(s, t, ELoadTail(e));
      case BeginDequeue(t) => LocalInv(s, t, DLoadHead);
      case WeakFail(t) =>
        match s.pcs[t] {
          case ECasTail(e, _) => LocalInv(s, t, ELoadHead(e, s.tail));
          case ECommit(_, _) =>
          case DCasHead(_, _) => LocalInv(s, t, DLoadCommit(s.head));
        }
      case Step(t) => StepInv(s, t);
    }
  }

  lemma StepInv(s: State, t: Tid)
    requires Inv(s) && t in s.pcs && !AtRest(s.pcs[t])
    ensures Inv(Next(s, Step(t)))
  {
    match s.pcs[t] {
      case ELoadTail(e) => LocalInv(s, t, ELoadHead(e, s.tail));
      case ELoadHead(_, _) => CheckHeadInv(s, t);
      case ECasTail(_, _) => CasTailInv(s, t);
      case EWrite(_, _, _) => WriteInv(s, t);
      case ECommit(_, _) => CommitInv(s, t);
      case DLoadHead => LocalInv(s, t, DLoadCommit(s.head));
      case DLoadCommit(_) => LocalInv(s, t, Next(s, Step(t)).pcs[t]);
      case DRead(_, _) => ReadInv(s, t);
      case DCasHead(_, _) => CasHeadInv(s, t);
    }
  }

  lemma CheckHeadInv(s: State, t: Tid)
    requires Inv(s) && t in s.pcs && s.pcs[t].ELoadHead?
    ensures Inv(Next(s, Step(t)))
  {
    var ELoadHead(e, oldTail) := s.pcs[t];
    assert ThreadOk(s, t, s.pcs[t]);
    assert oldTail == s.tail && s.tail + 1 == s.head + s.n ==> Slot(s.tail + 1, s.n) == Slot(s.head, s.n);
    if Slot(oldTail + 1, s.n) == Slot(s.head, s.n) {
      LocalInv(s, t, EnqDone(false));
    } else {
      LocalInv(s, t, ECasTail(e, oldTail));
    }
  }

  lemma CasTailInv(s: State, t: Tid)
    requires Inv(s) && t in s.pcs && s.pcs[t].ECasTail?
    ensures Inv(Next(s, Step(t)))
  {
    var s' := Next(s, Step(t));
    assert ThreadOk(s, t, s.pcs[t]);
    if s.tail == s.pcs[t].oldTail {
      assert s'.log[..s.head] == s.log[..s.head];
      forall u | u in s'.pcs ensures ThreadOk(s', u, s'.pcs[u]) {
        if u != t { CasTailOthers(s, t, u); }
      }
    } else {
      LocalInv(s, t, s'.pcs[t]);
    }
  }

  lemma CasTailOthers(s: State, t: Tid, u: Tid)
    requires Inv(s) && t in s.pcs && s.pcs[t].ECasTail? && s.tail == s.pcs[t].oldTail && u in s.pcs && u != t
    ensures
      var s' := Next(s, Step(t));
      Counters(s') ==> u in s'.pcs && s'.pcs[u] == s.pcs[u] && ThreadOk(s', u, s.pcs[u])
  {
    assert ThreadOk(s, t, s.pcs[t]) && ThreadOk(s, u, s.pcs[u]);
  }

  lemma CommitInv(s: State, t: Tid)
    requires Inv(s) && t in s.pcs && s.pcs[t].ECommit?
    ensures Inv(Next(s, Step(t)))
  {
    var s' := Next(s, Step(t));
    CommitShared(s, t);
    forall u | u in s'.pcs ensures ThreadOk(s', u, s'.pcs[u]) {
      if u != t { CommitOthers(s, t, u); }
    }
  }

  lemma CommitShared(s: State, t: Tid)
    requires Inv(s) && t in s.pcs && s.pcs[t].ECommit?
    ensures
      var s' := Next(s, Step(t));
      Counters(s') && Committed(s') && Owners(s') && ThreadOk(s', t, s'.pcs[t])
  {
    assert ThreadOk(s, t, s.pcs[t]);
  }

  lemma CommitOthers(s: State, t: Tid, u: Tid)
    requires Inv(s) && t in s.pcs && s.pcs[t].ECommit? && u in s.pcs && u != t
    ensures
      var s' := Next(s, Step(t));
      Counters(s') && u in s'.pcs && s'.pcs[u] == s.pcs[u] && ThreadOk(s', u, s.pcs[u])
  {
    assert ThreadOk(s, t, s.pcs[t]) && ThreadOk(s, u, s.pcs[u]);
  }

  /** Writing one word touches no committed slot and no slot of another producer. */
  lemma WriteFrame(s: State, t: Tid, p: nat)
    requires Inv(s) && t in s.pcs && s.pcs[t].EWrite?
    requires s.head < p < s.tail && p != s.pcs[t].oldTail
    ensures Next(s, Step(t)).pool[Slot(p, s.n)] == s.pool[Slot(p, s.n)]
  {
    var oldTail := s.pcs[t].oldTail;
    if p < oldTail { SlotsDiffer(p, oldTail, s.n); } else { SlotsDiffer(oldTail, p, s.n); }
  }

  lemma WriteOwn(s: State, t: Tid)
    requires Inv(s) && t in s.pcs && s.pcs[t].EWrite?
    ensures Shape(Next(s, Step(t))) && ThreadOk(Next(s, Step(t)), t, Next(s, Step(t)).pcs[t])
  {
    var s' := Next(s, Step(t));
    var EWrite(e, oldTail, k) := s.pcs[t];
    assert ThreadOk(s, t, s.pcs[t]);
    WordWritten(s.pool[Slot(oldTail, s.n)], e, k);
  }

  lemma WordWritten(slot: Element, e: Element, k: nat)
    requires k < |e| == |slot| && slot[..k] == e[..k]
    ensures slot[k := e[k]][..k + 1] == e[..k + 1]
    ensures k + 1 == |e| ==> slot[k := e[k]] == e
  {
    assert slot[k := e[k]][..k + 1] == slot[..k] + [e[k]] == e[..k + 1];
    if k + 1 == |e| {
      assert slot[k := e[k]] == slot[k := e[k]][..k + 1] && e == e[..k + 1];
    }
  }

  lemma WriteInv(s: State, t: Tid)
    requires Inv(s) && t in s.pcs && s.pcs[t].EWrite?
    ensures Inv(Next(s, Step(t)))
  {
    var s' := Next(s, Step(t));
    WriteOwn(s, t);
    forall p | s.head < p < s.commit
      ensures s'.pool[Slot(p, s.n)] == s'.log[p - 1]
    {
      WriteFrame(s, t, p);
    }
    forall u | u in s'.pcs
      ensures ThreadOk(s', u, s'.pcs[u])
    {
      if u != t { WriteOthers(s, t, u); }
    }
  }

  lemma WriteOthers(s: State, t: Tid, u: Tid)
    requires Inv(s) && t in s.pcs && s.pcs[t].EWrite? && u in s.pcs && u != t
    ensures ThreadOk(Next(s, Step(t)), u, s.pcs[u])
  {
    if s.pcs[u].EWrite? || s.pcs[u].ECommit? {
      WriteFrame(s, t, s.pcs[u].oldTail);
    }
  }

  lemma ReadInv(s: State, t: Tid)
    requires Inv(s) && t in s.pcs && s.pcs[t].DRead?
    ensures Inv(Next(s, Step(t)))
  {
  }

  lemma CasHeadInv(s: State, t: Tid)
    requires Inv(s) && t in s.pcs && s.pcs[t].DCasHead?
    ensures Inv(Next(s, Step(t)))
  {
    var s' := Next(s, Step(t));
    assert ThreadOk(s, t, s.pcs[t]);
    if s.head == s.pcs[t].oldHead {
      assert s.log[..s.head + 1] == s.log[..s.head] + [s.log[s.head]];
      assert s'.pcs[t].value == s'.out[|s.out|];
      forall u | u in s'.pcs ensures ThreadOk(s', u, s'.pcs[u]) {
        if u != t { CasHeadOthers(s, t, u); }
      }
    }
  }

  lemma CasHeadOthers(s: State, t: Tid, u: Tid)
    requires Inv(s) && t in s.pcs && s.pcs[t].DCasHead? && s.head == s.pcs[t].oldHead && u in s.pcs && u != t
    ensures
      var s' := Next(s, Step(t));
      Counters(s') ==> u in s'.pcs && s'.pcs[u] == s.pcs[u] && ThreadOk(s', u, s.pcs[u])
  {
    assert ThreadOk(s, t, s.pcs[t]) && ThreadOk(s, u, s.pcs[u]);
    var s' := Next(s, Step(t));
    if s.pcs[u].DeqDone? && s.pcs[u].ok { assert s.pcs[u].value in s'.out; }
  }

  // ---------------------------------------------------------------- whole runs

  ghost predicate Run(s: State, actions: seq<Action>)
    requires Shape(s)
    decreases |actions|
  {
    actions == [] ||
    (Enabled(s, actions[0]) && Run(Next(s, actions[0]), actions[1..]))
  }

  ghost function Final(s: State, actions: seq<Action>): State
    requires Shape(s) && Run(s, actions)
    decreases |actions|
  {
    if actions == [] then s else Final(Next(s, actions[0]), actions[1..])
  }

  lemma {:induction false} RunInv(s: State, actions: seq<Action>)
    requires Inv(s) && Run(s, actions)
    ensures Inv(Final(s, actions))
    decreases |actions|
  {
    if actions != [] {
      NextInv(s, actions[0]);
      RunInv(Next(s, actions[0]), actions[1..]);
    }
  }

  /** FIFO over every run: what was taken out, in order of winning head CAS, is a prefix of what
      was put in, in order of winning tail CAS, word for word; at most `size` elements are held;
      and when no producer is between its two CAS every reserved element is committed. */
  lemma FifoOverEveryRun(s0: State, size: nat, actions: seq<Action>)
    requires Init(s0, size) && Run(s0, actions)
    ensures
      var s := Final(s0, actions);
      && s.out <= s.log
      && |s.log| - |s.out| == s.tail - s.head - 1 <= size
      && ((forall t | t in s.pcs :: !s.pcs[t].EWrite? && !s.pcs[t].ECommit?) ==> s.commit == s.tail)
  {
    InitInv(s0, size);
    RunInv(s0, actions);
    var s := Final(s0, actions);
    KeepsSize(s0, actions);
    assert s.commit < s.tail ==> InFlight(s.pcs[s.writer[s.commit - 1]], s.commit);
  }

  lemma {:induction false} KeepsSize(s: State, actions: seq<Action>)
    requires Inv(s) && Run(s, actions)
    ensures Final(s, actions).n == s.n
    decreases |actions|
  {
    if actions != [] {
      NextInv(s, actions[0]);
      KeepsSize(Next(s, actions[0]), actions[1..]);
    }
  }

  predicate Copying(pc: Pc) {
    pc.DRead? || pc.DCasHead?
  }

  /** No producer writes the slot of the oldest element, in any state in which there is a committed one. */
  lemma OldestSlotIsNotWritten(s: State)
    requires Inv(s) && s.head + 1 < s.commit
    ensures forall u | u in s.pcs && s.pcs[u].EWrite? :: Slot(s.pcs[u].oldTail, s.n) != Slot(s.head + 1, s.n)
  {
    forall u | u in s.pcs && s.pcs[u].EWrite?
      ensures Slot(s.pcs[u].oldTail, s.n) != Slot(s.head + 1, s.n)
    {
      assert ThreadOk(s, u, s.pcs[u]);
      SlotsDiffer(s.head + 1, s.pcs[u].oldTail, s.n);
    }
  }

  /** A reader that wins its head CAS was handed the oldest committed element. While its view of the head
      is current, at any point of its copy, that element is committed and no producer writes its slot. */
  lemma WinnerReadsOldest(s: State, t: Tid)
    requires Inv(s) && t in s.pcs && Copying(s.pcs[t]) && s.head == s.pcs[t].oldHead
    ensures s.head + 1 < s.commit
    ensures s.pcs[t].buf <= s.log[|s.out|]
    ensures s.pcs[t].DCasHead? ==> Next(s, Step(t)).pcs[t] == DeqDone(true, s.log[|s.out|])
    ensures forall u | u in s.pcs && s.pcs[u].EWrite? ::
              Slot(s.pcs[u].oldTail, s.n) != Slot(s.head + 1, s.n)
  {
    assert ThreadOk(s, t, s.pcs[t]);
    OldestSlotIsNotWritten(s);
  }

  lemma {:induction false} HeadOnlyGrows(s: State, actions: seq<Action>)
    requires Inv(s) && Run(s, actions)
    ensures s.head <= Final(s, actions).head && s.commit <= Final(s, actions).commit
    decreases |actions|
  {
    if actions != [] {
      NextInv(s, actions[0]);
      HeadOnlyGrows(Next(s, actions[0]), actions[1..]);
    }
  }

  lemma {:induction false} RunSplit(s: State, actions: seq<Action>, k: nat)
    requires Shape(s) && Run(s, actions) && k <= |actions|
    ensures Run(s, actions[..k]) && Shape(Final(s, actions[..k]))
    ensures Run(Final(s, actions[..k]), actions[k..])
    ensures Final(Final(s, actions[..k]), actions[k..]) == Final(s, actions)
    decreases |actions|
  {
    if k == 0 {
      assert actions[k..] == actions;
    } else {
      RunSplit(Next(s, actions[0]), actions[1..], k - 1);
      assert actions[..k][1..] == actions[1..][..k - 1] && actions[k..] == actions[1..][k - 1..];
    }
  }

  lemma HeadBetween(s: State, actions: seq<Action>, k: nat)
    requires Inv(s) && Run(s, actions) && k <= |actions|
    ensures Run(s, actions[..k]) && Inv(Final(s, actions[..k]))
    ensures s.head <= Final(s, actions[..k]).head <= Final(s, actions).head
    ensures s.commit <= Final(s, actions[..k]).commit
  {
    RunSplit(s, actions, k);
    RunInv(s, actions[..k]);
    HeadOnlyGrows(s, actions[..k]);
    HeadOnlyGrows(Final(s, actions[..k]), actions[k..]);
  }

  /** The head is at h, the element behind it is committed and nobody writes its slot. */
  predicate Readable(s: State, h: nat) {
    && s.n > 0 && s.head == h && h + 1 < s.commit
    && forall u | u in s.pcs && s.pcs[u].EWrite? :: Slot(s.pcs[u].oldTail, s.n) != Slot(h + 1, s.n)
  }

  /** The whole copy of a winner: from any state of the copy to the CAS it wins, through any steps of any
      threads, the head stays what the reader saw, the element stays committed and no producer writes its
      slot at any state in between. */
  lemma WinnersCopyIsUndisturbed(s: State, actions: seq<Action>, t: Tid, k: nat)
    requires Inv(s) && Run(s, actions) && k <= |actions| && t in s.pcs && Copying(s.pcs[t])
    requires Final(s, actions).head == s.pcs[t].oldHead
    ensures Run(s, actions[..k]) && Readable(Final(s, actions[..k]), s.pcs[t].oldHead)
  {
    HeadBetween(s, actions, k);
    assert s.pcs[t].oldHead <= s.head && (s.pcs[t].oldHead == s.head ==> s.head + 1 < s.commit) by {
      assert ThreadOk(s, t, s.pcs[t]);
    }
    OldestSlotIsNotWritten(Final(s, actions[..k]));
  }

  /** `Dequeue` reports "empty" exactly at an instant when nothing is committed: the load of the
      commit counter fails the call if and only if the ring holds no committed element then. */
  lemma DequeueFailsIffNothingCommitted(s: State, t: Tid)
    requires Inv(s) && t in s.pcs && s.pcs[t].DLoadCommit?
    ensures Next(s, Step(t)).pcs[t] == DeqDone(false, []) <==> s.commit == s.head + 1 && s.pcs[t].oldHead == s.head
    ensures s.pcs[t].oldHead == s.head ==>
              (Next(s, Step(t)).pcs[t].DeqDone? <==> s.log[s.head..s.commit - 1] == [])
  {
    assert ThreadOk(s, t, s.pcs[t]);
  }

  /** `Enqueue` reports "full" in exactly two situations: the tail it loaded is current and the
      ring holds `size` elements, or the tail is so stale that the head has already passed it and
      happens to sit a whole number of rounds ahead. */
  lemma EnqueueFailsIff(s: State, t: Tid)
    requires Inv(s) && t in s.pcs && s.pcs[t].ELoadHead?
    ensures
      var oldTail := s.pcs[t].oldTail;
      Next(s, Step(t)).pcs[t] == EnqDone(false) <==>
        || (oldTail == s.tail && s.tail - s.head - 1 == s.n - 2)
        || (oldTail + 1 <= s.head && Slot(s.head, s.n) == Slot(oldTail + 1, s.n))
  {
    var oldTail := s.pcs[t].oldTail;
    assert ThreadOk(s, t, s.pcs[t]);
    if s.head < oldTail + 1 {
      if oldTail + 1 < s.head + s.n { SlotsDiffer(s.head, oldTail + 1, s.n); }
    }
  }

  // ---------------------------------------------------------------- whole calls

  predicate NothingCommitted(s: State) {
    s.head < s.commit && s.commit - 1 <= |s.log| && s.log[s.head..s.commit - 1] == []
  }

  /** Whatever step of whatever thread ends a Dequeue with "empty", nothing is committed at that instant. */
  lemma EmptyReportedOnlyIfNothingCommitted(s: State, a: Action, t: Tid)
    requires Inv(s) && Enabled(s, a) && t in s.pcs
    ensures
      var before, after := s.pcs[t], Next(s, a).pcs[t];
      after.DeqDone? && !after.ok && !(before.DeqDone? && !before.ok) ==> NothingCommitted(s)
  {
    assert ThreadOk(s, t, s.pcs[t]);
  }

  /** The same for "full": the ring is full, or the loaded tail is stale by whole rounds. */
  lemma FullReportedOnlyIf(s: State, a: Action, t: Tid)
    requires Inv(s) && Enabled(s, a) && t in s.pcs
    ensures
      var before, after := s.pcs[t], Next(s, a).pcs[t];
      after == EnqDone(false) && before != EnqDone(false) ==>
        || s.tail - s.head - 1 == s.n - 2
        || (before.ELoadHead? && before.oldTail + 1 <= s.head && Slot(s.head, s.n) == Slot(before.oldTail + 1, s.n))
  {
    if Next(s, a).pcs[t] == EnqDone(false) && s.pcs[t] != EnqDone(false) { EnqueueFailsIff(s, t); }
  }

  predicate BeginsCall(a: Action, t: Tid) {
    (a.BeginEnqueue? || a.BeginDequeue?) && a.t == t
  }

  /** No step of the stretch begins another call of thread t. */
  predicate SameCall(actions: seq<Action>, t: Tid) {
    forall i | 0 <= i < |actions| :: !BeginsCall(actions[i], t)
  }

  /** The entries from n on that thread t made. */
  function OwnSince(made: seq<Tid>, n: nat, t: Tid): (r: set<nat>)
    ensures forall i :: i in r <==> n <= i < |made| && made[i] == t
  {
    set i | n <= i < |made| && made[i] == t
  }

  lemma OwnAppended(made: seq<Tid>, u: Tid, n: nat, t: Tid)
    requires n <= |made|
    ensures OwnSince(made + [u], n, t) == OwnSince(made, n, t) + if u == t then {|made|} else {}
  {
  }

  /** Since entry n, thread t has put `e` into the ring exactly once, nothing else, and it is committed. */
  predicate PutOnce(s: State, t: Tid, e: Element, n: nat) {
    exists i :: OwnSince(s.writer, n, t) == {i} && 0 <= i < |s.log| && s.log[i] == e && i + 1 < s.commit
  }

  /** Where a call Enqueue(e) of thread t stands that began when the log had n entries. */
  predicate Enqueuing(s: State, t: Tid, e: Element, n: nat) {
    && t in s.pcs && n <= |s.writer|
    && var own := OwnSince(s.writer, n, t);
       match s.pcs[t]
       case ELoadTail(x) => x == e && own == {}
       case ELoadHead(x, _) => x == e && own == {}
       case ECasTail(x, _) => x == e && own == {}
       case EWrite(x, oldTail, _) => x == e && oldTail >= 1 && own == {oldTail - 1}
       case ECommit(x, oldTail) => x == e && oldTail >= 1 && own == {oldTail - 1}
       case EnqDone(ok) => if ok then PutOnce(s, t, e, n) else own == {}
       case _ => false
  }

  /** What a step can do to the history and to a thread that does not take it. */
  predicate Adds(s: State, s': State, u: Tid, t: Tid) {
    && (s'.writer == s.writer || s'.writer == s.writer + [u]) && s.log <= s'.log
    && (s'.taker == s.taker || s'.taker == s.taker + [u]) && s.out <= s'.out
    && (u != t && t in s.pcs ==> t in s'.pcs && s'.pcs[t] == s.pcs[t])
  }

  lemma StepAdds(s: State, a: Action, t: Tid)
    requires Shape(s) && Enabled(s, a)
    ensures Adds(s, Next(s, a), a.t, t)
  {
  }

  lemma CommitGrows(s: State, a: Action)
    requires Shape(s) && Enabled(s, a)
    ensures s.commit <= Next(s, a).commit
  {
  }

  lemma EnqueuingNext(s: State, a: Action, t: Tid, e: Element, n: nat)
    requires Inv(s) && Enabled(s, a) && !BeginsCall(a, t) && Enqueuing(s, t, e, n)
    ensures Enqueuing(Next(s, a), t, e, n)
  {
    if a.t == t {
      if a.Step? { EnqueuingStep(s, t, e, n); } else { EnqueuingRetries(s, t, e, n); }
    } else {
      StepAdds(s, a, t);
      CommitGrows(s, a);
      EnqueuingOther(s, Next(s, a), a.t, t, e, n);
    }
  }

  lemma EnqueuingStep(s: State, t: Tid, e: Element, n: nat)
    requires Inv(s) && Enabled(s, Step(t)) && Enqueuing(s, t, e, n)
    ensures Enqueuing(Next(s, Step(t)), t, e, n)
  {
    var s' := Next(s, Step(t));
    assert ThreadOk(s, t, s.pcs[t]);
    if s.pcs[t].ECasTail? { OwnAppended(s.writer, t, n, t); }
    if s.pcs[t].ECommit? && s.commit == s.pcs[t].oldTail {
      var i := s.pcs[t].oldTail - 1;
      assert OwnSince(s'.writer, n, t) == {i} && s'.log[i] == e;
      assert PutOnce(s', t, e, n);
    }
  }

  lemma EnqueuingRetries(s: State, t: Tid, e: Element, n: nat)
    requires Shape(s) && Enabled(s, WeakFail(t)) && Enqueuing(s, t, e, n)
    ensures Enqueuing(Next(s, WeakFail(t)), t, e, n)
  {
  }

  lemma EnqueuingOther(s: State, s': State, u: Tid, t: Tid, e: Element, n: nat)
    requires Enqueuing(s, t, e, n) && Adds(s, s', u, t) && u != t && s.commit <= s'.commit
    ensures Enqueuing(s', t, e, n)
  {
    OwnAppended(s.writer, u, n, t);
    if s.pcs[t].EnqDone? && s.pcs[t].ok {
      var i :| OwnSince(s.writer, n, t) == {i} && 0 <= i < |s.log| && s.log[i] == e && i + 1 < s.commit;
      assert OwnSince(s'.writer, n, t) == {i} && s'.log[i] == e && i + 1 < s'.commit;
    }
  }

  lemma {:induction false} EnqueuingRun(s: State, actions: seq<Action>, t: Tid, e: Element, n: nat)
    requires Inv(s) && Run(s, actions) && SameCall(actions, t) && Enqueuing(s, t, e, n)
    ensures Enqueuing(Final(s, actions), t, e, n)
    decreases |actions|
  {
    if actions != [] {
      assert !BeginsCall(actions[0], t);
      NextInv(s, actions[0]);
      EnqueuingNext(s, actions[0], t, e, n);
      EnqueuingRun(Next(s, actions[0]), actions[1..], t, e, n);
    }
  }

  /** A whole call of Enqueue, over every run before it and whatever other threads do during it: when it
      returns true the element given to it has been put in exactly once and is committed, when it returns
      false nothing has been put in. */
  lemma EnqueueOutcome(s: State, e: Element, actions: seq<Action>, t: Tid)
    requires Inv(s) && Enabled(s, BeginEnqueue(t, e))
    requires Run(Next(s, BeginEnqueue(t, e)), actions) && SameCall(actions, t)
    ensures
      var s' := Final(Next(s, BeginEnqueue(t, e)), actions);
      t in s'.pcs && AtRest(s'.pcs[t]) ==>
        && s'.pcs[t].EnqDone?
        && if s'.pcs[t].ok then PutOnce(s', t, e, |s.log|) else OwnSince(s'.writer, |s.log|, t) == {}
  {
    NextInv(s, BeginEnqueue(t, e));
    EnqueuingRun(Next(s, BeginEnqueue(t, e)), actions, t, e, |s.log|);
  }

  /** Since hand-out n, thread t has taken exactly one element, `v`. */
  predicate TookOnce(s: State, t: Tid, v: Element, n: nat) {
    exists i :: OwnSince(s.taker, n, t) == {i} && 0 <= i < |s.out| && s.out[i] == v
  }

  predicate Dequeuing(s: State, t: Tid, n: nat) {
    && t in s.pcs && n <= |s.taker|
    && var own := OwnSince(s.taker, n, t);
       match s.pcs[t]
       case DLoadHead => own == {}
       case DLoadCommit(_) => own == {}
       case DRead(_, _) => own == {}
       case DCasHead(_, _) => own == {}
       case DeqDone(ok, v) => if ok then TookOnce(s, t, v, n) else own == {}
       case _ => false
  }

  lemma DequeuingNext(s: State, a: Action, t: Tid, n: nat)
    requires Inv(s) && Enabled(s, a) && !BeginsCall(a, t) && Dequeuing(s, t, n)
    ensures Dequeuing(Next(s, a), t, n)
  {
    if a.t == t {
      DequeuingStep(s, a, t, n);
    } else {
      StepAdds(s, a, t);
      DequeuingOther(s, Next(s, a), a.t, t, n);
    }
  }

  lemma DequeuingStep(s: State, a: Action, t: Tid, n: nat)
    requires Shape(s) && |s.taker| == |s.out| && Enabled(s, a) && a.t == t && !BeginsCall(a, t) && Dequeuing(s, t, n)
    ensures Dequeuing(Next(s, a), t, n)
  {
    var s' := Next(s, a);
    OwnAppended(s.taker, t, n, t);
    if s'.pcs[t].DeqDone? && s'.pcs[t].ok {
      var i := |s.taker|;
      assert OwnSince(s'.taker, n, t) == {i} && s'.out[i] == s'.pcs[t].value;
    }
  }

  lemma DequeuingOther(s: State, s': State, u: Tid, t: Tid, n: nat)
    requires Dequeuing(s, t, n) && Adds(s, s', u, t) && u != t
    ensures Dequeuing(s', t, n)
  {
    OwnAppended(s.taker, u, n, t);
    if s.pcs[t].DeqDone? && s.pcs[t].ok {
      var i :| OwnSince(s.taker, n, t) == {i} && 0 <= i < |s.out| && s.out[i] == s.pcs[t].value;
      assert OwnSince(s'.taker, n, t) == {i} && s'.out[i] == s.pcs[t].value;
    }
  }

  /** Nothing is committed in some state of the stretch. */
  ghost predicate EverEmpty(s: State, actions: seq<Action>)
    requires Shape(s) && Run(s, actions)
    decreases |actions|
  {
    NothingCommitted(s) || (actions != [] && EverEmpty(Next(s, actions[0]), actions[1..]))
  }

  predicate SaysEmpty(pc: Pc) {
    pc.DeqDone? && !pc.ok
  }

  lemma {:induction false} DequeuingRun(s: State, actions: seq<Action>, t: Tid, n: nat)
    requires Inv(s) && Run(s, actions) && SameCall(actions, t) && Dequeuing(s, t, n)
    ensures Dequeuing(Final(s, actions), t, n)
    ensures SaysEmpty(Final(s, actions).pcs[t]) && !SaysEmpty(s.pcs[t]) ==> EverEmpty(s, actions)
    decreases |actions|
  {
    if actions != [] {
      assert !BeginsCall(actions[0], t);
      NextInv(s, actions[0]);
      DequeuingNext(s, actions[0], t, n);
      EmptyReportedOnlyIfNothingCommitted(s, actions[0], t);
      DequeuingRun(Next(s, actions[0]), actions[1..], t, n);
    }
  }

  /** A whole call of Dequeue: when it returns true it has taken exactly one element, the one it hands out,
      when it returns false it has taken none and nothing was committed at some instant of the call. */
  lemma DequeueOutcome(s: State, actions: seq<Action>, t: Tid)
    requires Inv(s) && Enabled(s, BeginDequeue(t))
    requires Run(Next(s, BeginDequeue(t)), actions) && SameCall(actions, t)
    ensures
      var s1 := Next(s, BeginDequeue(t));
      var s' := Final(s1, actions);
      t in s'.pcs && AtRest(s'.pcs[t]) ==>
        && s'.pcs[t].DeqDone?
        && if s'.pcs[t].ok then TookOnce(s', t, s'.pcs[t].value, |s.out|)
           else OwnSince(s'.taker, |s.out|, t) == {} && EverEmpty(s1, actions)
  {
    NextInv(s, BeginDequeue(t));
    DequeuingRun(Next(s, BeginDequeue(t)), actions, t, |s.out|);
  }

  // ---------------------------------------------------------------- the stale tail at work

  ghost predicate Reaches(s: State, s': State)
    requires Shape(s)
  {
    exists actions :: Run(s, actions) && Final(s, actions) == s'
  }

  lemma {:induction false} Extend(s: State, actions: seq<Action>, a: Action)
    requires Shape(s) && Run(s, actions) && Shape(Final(s, actions)) && Enabled(Final(s, actions), a)
    ensures Run(s, actions + [a]) && Final(s, actions + [a]) == Next(Final(s, actions), a)
    decreases |actions|
  {
    if actions == [] {
      assert Run(Next(s, a), []);
    } else {
      Extend(Next(s, actions[0]), actions[1..], a);
      assert (actions + [a])[1..] == actions[1..] + [a];
    }
  }

  lemma ReachesNext(s: State, m: State, a: Action)
    requires Shape(s) && Reaches(s, m) && Shape(m) && Enabled(m, a)
    ensures Reaches(s, Next(m, a))
  {
    var actions :| Run(s, actions) && Final(s, actions) == m;
    Extend(s, actions, a);
  }

  /** An empty ring with one-word elements, with thread `u` at rest. */
  predicate Quiet(s: State, u: Tid) {
    Shape(s) && s.width == 1 && s.n >= 3 && s.tail == s.head + 1 == s.commit && u in s.pcs && AtRest(s.pcs[u])
  }

  predicate SameButFor(s: State, s': State, u: Tid) {
    s'.n == s.n && s'.width == s.width && s'.pcs.Keys == s.pcs.Keys && forall v | v in s.pcs && v != u :: s'.pcs[v] == s.pcs[v]
  }

  /** A step of thread `u` that changes nothing but its program counter. */
  lemma LocalStep(s0: State, s: State, u: Tid, pc: Pc, pc': Pc)
    requires Shape(s0) && Shape(s) && u in s.pcs && ShapePc(s, pc) && !AtRest(pc)
    requires Reaches(s0, Goto(s, u, pc)) && Shape(Goto(s, u, pc))
    requires Next(Goto(s, u, pc), Step(u)) == Goto(Goto(s, u, pc), u, pc')
    ensures Reaches(s0, Goto(s, u, pc')) && Shape(Goto(s, u, pc'))
  {
    ReachesNext(s0, Goto(s, u, pc), Step(u));
    GotoTwice(s, u, pc, pc');
  }

  lemma GotoTwice(s: State, u: Tid, pc: Pc, pc': Pc)
    ensures Goto(Goto(s, u, pc), u, pc') == Goto(s, u, pc')
  {
    assert s.pcs[u := pc][u := pc'] == s.pcs[u := pc'];
  }

  /** Three steps up to the tail CAS. */
  lemma EnqueueReserves(s0: State, s: State, u: Tid, w: Word) returns (s': State)
    requires Shape(s0) && Reaches(s0, s) && Quiet(s, u)
    ensures Reaches(s0, s') && Shape(s') && s' == Goto(s, u, ECasTail([w], s.tail))
  {
    SlotsDiffer(s.head, s.tail + 1, s.n);
    ReachesNext(s0, s, BeginEnqueue(u, [w]));
    LocalStep(s0, s, u, ELoadTail([w]), ELoadHead([w], s.tail));
    LocalStep(s0, s, u, ELoadHead([w], s.tail), ECasTail([w], s.tail));
    s' := Goto(s, u, ECasTail([w], s.tail));
  }

  lemma EnqueueWrites(s0: State, s: State, u: Tid, w: Word) returns (s': State)
    requires Shape(s0) && Reaches(s0, s) && Shape(s) && s.width == 1 && u in s.pcs
    requires s.pcs[u] == ECasTail([w], s.tail)
    ensures Reaches(s0, s') && Shape(s')
    ensures
      var i := Slot(s.tail, s.n);
      s' == Goto(s, u, ECommit([w], s.tail)).(
              tail := s.tail + 1, log := s.log + [[w]], writer := s.writer + [u], pool := s.pool[i := [w]])
  {
    ReachesNext(s0, s, Step(u));
    var s1 := Next(s, Step(u));
    assert s1 == Goto(s, u, EWrite([w], s.tail, 0)).(
                   tail := s.tail + 1, log := s.log + [[w]], writer := s.writer + [u]);
    ReachesNext(s0, s1, Step(u));
    WritesWord(s1, u, w, s.tail);
    s' := Next(s1, Step(u));
  }

  lemma WritesWord(s: State, u: Tid, w: Word, pos: nat)
    requires Shape(s) && s.width == 1 && u in s.pcs && s.pcs[u] == EWrite([w], pos, 0)
    ensures
      var i := Slot(pos, s.n);
      i < |s.pool| && Next(s, Step(u)) == Goto(s, u, ECommit([w], pos)).(pool := s.pool[i := [w]])
  {
    assert s.pool[Slot(pos, s.n)][0 := w] == [w];
  }

  lemma EnqueueAlone(s0: State, s: State, u: Tid, w: Word) returns (s': State)
    requires Shape(s0) && Reaches(s0, s) && Quiet(s, u)
    ensures Reaches(s0, s') && Shape(s') && SameButFor(s, s', u) && s'.pcs[u] == EnqDone(true)
    ensures s'.head == s.head && s'.tail == s'.commit == s.tail + 1 && s'.log == s.log + [[w]] && s'.out == s.out
    ensures s'.pool[Slot(s.tail, s.n)] == [w]
  {
    var s1 := EnqueueReserves(s0, s, u, w);
    var s2 := EnqueueWrites(s0, s1, u, w);
    ReachesNext(s0, s2, Step(u));
    s' := Next(s2, Step(u));
  }

  lemma DequeueLooks(s0: State, s: State, u: Tid) returns (s': State)
    requires Shape(s0) && Reaches(s0, s) && Shape(s) && u in s.pcs && AtRest(s.pcs[u]) && s.commit == s.head + 2
    ensures Reaches(s0, s') && Shape(s') && s' == Goto(s, u, DRead(s.head, []))
  {
    ReachesNext(s0, s, BeginDequeue(u));
    LocalStep(s0, s, u, DLoadHead, DLoadCommit(s.head));
    LocalStep(s0, s, u, DLoadCommit(s.head), DRead(s.head, []));
    s' := Goto(s, u, DRead(s.head, []));
  }

  lemma DequeueAlone(s0: State, s: State, u: Tid) returns (s': State)
    requires Shape(s0) && Reaches(s0, s) && Shape(s) && s.width == 1 && u in s.pcs && AtRest(s.pcs[u])
    requires s.tail == s.commit == s.head + 2
    ensures Reaches(s0, s') && Shape(s') && SameButFor(s, s', u) && AtRest(s'.pcs[u])
    ensures s'.head == s.head + 1 && s'.tail == s'.commit == s.tail && s'.log == s.log
    ensures s'.out == s.out + [s.pool[Slot(s.head + 1, s.n)]]
  {
    var s2 := DequeueCopies(s0, s, u);
    ReachesNext(s0, s2, Step(u));
    s' := Next(s2, Step(u));
  }

  lemma DequeueCopies(s0: State, s: State, u: Tid) returns (s': State)
    requires Shape(s0) && Reaches(s0, s) && Shape(s) && s.width == 1 && u in s.pcs && AtRest(s.pcs[u])
    requires s.commit == s.head + 2
    ensures Reaches(s0, s') && Shape(s') && s' == Goto(s, u, DCasHead(s.head, s.pool[Slot(s.head + 1, s.n)]))
  {
    var s1 := DequeueLooks(s0, s, u);
    var value := s.pool[Slot(s.head + 1, s.n)];
    assert [] + [value[0]] == value;
    LocalStep(s0, s, u, DRead(s.head, []), DCasHead(s.head, value));
    s' := Goto(s, u, DCasHead(s.head, value));
  }

  /** One element goes through the ring while everybody else stands still. */
  lemma PassOne(s0: State, s: State, u: Tid, w: Word) returns (s': State)
    requires Shape(s0) && Reaches(s0, s) && Quiet(s, u) && s.log == s.out
    ensures Reaches(s0, s') && Quiet(s', u) && SameButFor(s, s', u)
    ensures s'.head == s.head + 1 && s'.log == s'.out
  {
    var m := EnqueueAlone(s0, s, u, w);
    s' := DequeueAlone(s0, m, u);
  }

  /** The second way to fail is real: for every size at least 1, a producer that loaded the tail, slept
      while two elements passed through the ring and went on, reports "full" on an empty ring. */
  lemma FullReportedOnEmptyRing(s0: State, size: nat, t: Tid, u: Tid, w: Word) returns (s: State)
    requires Init(s0, size) && size >= 1 && s0.width == 1 && t in s0.pcs && u in s0.pcs && t != u
    ensures Reaches(s0, s) && t in s.pcs && s.pcs[t] == EnqDone(false) && s.log == s.out
  {
    var s2 := LoadsTail(s0, size, t, u, w);
    var s3 := PassOne(s0, s2, u, w);
    var s4 := PassOne(s0, s3, u, w);
    s := ReportsFull(s0, s4, t, w);
  }

  /** A producer starts and loads the tail. */
  lemma LoadsTail(s0: State, size: nat, t: Tid, u: Tid, w: Word) returns (s: State)
    requires Init(s0, size) && size >= 1 && s0.width == 1 && t in s0.pcs && u in s0.pcs && t != u
    ensures Shape(s0) && Reaches(s0, s) && Quiet(s, u) && s.log == s.out && s.head == 0
    ensures t in s.pcs && s.pcs[t] == ELoadHead([w], 1)
  {
    assert Run(s0, []) && Final(s0, []) == s0;
    ReachesNext(s0, s0, BeginEnqueue(t, [w]));
    var s1 := Next(s0, BeginEnqueue(t, [w]));
    ReachesNext(s0, s1, Step(t));
    s := Next(s1, Step(t));
  }

  lemma ReportsFull(s0: State, s: State, t: Tid, w: Word) returns (s': State)
    requires Shape(s0) && Reaches(s0, s) && Shape(s) && t in s.pcs && s.pcs[t] == ELoadHead([w], 1) && s.head == 2
    ensures Reaches(s0, s') && t in s'.pcs && s'.pcs[t] == EnqDone(false) && s'.log == s.log && s'.out == s.out
  {
    ReachesNext(s0, s, Step(t));
    s' := Next(s, Step(t));
  }
}
