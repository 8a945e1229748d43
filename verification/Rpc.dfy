/**
 Request and response over a network that loses, doubles and reorders: cyber/service/client.h and
 cyber/service/service.h. Any number of clients and one service. A packet that was ever sent can be
 delivered at any later time, any number of times, or never.
 */
module Rpc {

  type Id = string
  type Request = string
  type Response = string

  /** `MessageInfo`: the service answers with the info of the request, with itself as the sender. */
  datatype Info = Info(sender: Id, seqNum: nat, spare: Id)

  /** The n-th request of one client. */
  datatype Call = Call(client: nat, n: nat)

  // `origin` is history: which call a packet belongs to. No step of the code reads it.
  datatype RequestPacket = RequestPacket(info: Info, request: Request, origin: Call)
  datatype ResponsePacket = ResponsePacket(info: Info, response: Response, origin: Call)

  /** `sending`: some thread is inside AsyncSendRequest, has transmitted and not registered yet; it holds
      the mutex of the pending requests. */
  datatype Client = Client(writer: Id, seqNum: nat, pending: set<nat>, sending: bool, sent: seq<Request>)

  datatype Work = Idle | Handling(packet: RequestPacket)

  /** The service callback answered `request`, sent as `call`, with `response`. */
  datatype Computed = Computed(call: Call, request: Request, response: Response)

  datatype Resolution = Resolution(call: Call, response: Response)

  datatype State = State(
    clients: seq<Client>,
    service: Id,
    requests: set<RequestPacket>, responses: set<ResponsePacket>,
    tasks: seq<RequestPacket>, work: Work,
    computed: set<Computed>, resolutions: seq<Resolution>,
    received: seq<RequestPacket>, handled: seq<RequestPacket>, answers: seq<Computed>)
  // History of the service: the requests in the order of their arrival, those taken up, those answered.

  datatype Action =
    | Transmit(c: nat, request: Request)
    | Register(c: nat)
    | DeliverRequest(q: RequestPacket)
    | PopTask
    | Respond(response: Response)
    | HandleResponse(c: nat, r: ResponsePacket)

  predicate Enabled(s: State, a: Action) {
    match a
    case Transmit(c, _) => c < |s.clients| && !s.clients[c].sending
    case Register(c) => c < |s.clients| && s.clients[c].sending
    case DeliverRequest(q) => q in s.requests
    case PopTask => s.work.Idle? && s.tasks != []
    case Respond(_) => s.work.Handling?
    case HandleResponse(c, r) => c < |s.clients| && !s.clients[c].sending && r in s.responses
  }

  function Next(s: State, a: Action): State
    requires Enabled(s, a)
  {
    match a
    case Transmit(c, request) =>
      var k := s.clients[c];
      var n := k.seqNum + 1;
      s.(clients := s.clients[c := k.(seqNum := n, sending := true, sent := k.sent + [request])],
         requests := s.requests + {RequestPacket(Info(k.writer, n, k.writer), request, Call(c, n))})
    case Register(c) =>
      var k := s.clients[c];
      s.(clients := s.clients[c := k.(pending := k.pending + {k.seqNum}, sending := false)])
    case DeliverRequest(q) => s.(tasks := s.tasks + [q], received := s.received + [q])
    case PopTask =>
      s.(work := Handling(s.tasks[0]), tasks := s.tasks[1..], handled := s.handled + [s.tasks[0]])
    case Respond(response) =>
      var q := s.work.packet;
      s.(work := Idle,
         responses := s.responses + {ResponsePacket(q.info.(sender := s.service), response, q.origin)},
         computed := s.computed + {Computed(q.origin, q.request, response)},
         answers := s.answers + [Computed(q.origin, q.request, response)])
    case HandleResponse(c, r) =>
      var k := s.clients[c];
      if r.info.spare != k.writer || r.info.seqNum !in k.pending then s
      else s.(clients := s.clients[c := k.(pending := k.pending - {r.info.seqNum})],
              resolutions := s.resolutions + [Resolution(Call(c, r.info.seqNum), r.response)])
  }

  predicate UniqueWriters(clients: seq<Client>) {
    forall i, j | 0 <= i < j < |clients| :: clients[i].writer != clients[j].writer
  }

  predicate Init(s: State) {
    && (forall i | 0 <= i < |s.clients| ::
          s.clients[i].seqNum == 0 && s.clients[i].pending == {} && !s.clients[i].sending && s.clients[i].sent == [])
    && s.requests == {} && s.responses == {} && s.tasks == [] && s.work == Idle && s.computed == {} && s.resolutions == []
    && s.received == [] && s.handled == [] && s.answers == []
  }

  predicate Run(s: State, actions: seq<Action>)
    decreases |actions|
  {
    actions == [] || (Enabled(s, actions[0]) && Run(Next(s, actions[0]), actions[1..]))
  }

  function Final(s: State, actions: seq<Action>): State
    requires Run(s, actions)
    decreases |actions|
  {
    if actions == [] then s else Final(Next(s, actions[0]), actions[1..])
  }

  // ---------------------------------------------------------------- the invariant

  /** The call was made and this was its request. */
  predicate Made(clients: seq<Client>, call: Call, request: Request) {
    && call.client < |clients| && 1 <= call.n <= |clients[call.client].sent|
    && clients[call.client].sent[call.n - 1] == request
  }

  predicate RequestOk(clients: seq<Client>, q: RequestPacket) {
    && Made(clients, q.origin, q.request)
    && q.info.seqNum == q.origin.n && q.info.spare == clients[q.origin.client].writer
  }

  predicate Answered(computed: set<Computed>, clients: seq<Client>, call: Call, response: Response) {
    && call.client < |clients| && 1 <= call.n <= |clients[call.client].sent|
    && Computed(call, clients[call.client].sent[call.n - 1], response) in computed
  }

  predicate ResponseOk(s: State, r: ResponsePacket) {
    && Answered(s.computed, s.clients, r.origin, r.response)
    && r.info.seqNum == r.origin.n && r.info.spare == s.clients[r.origin.client].writer
  }

  predicate PacketsOk(s: State) {
    && (forall q | q in s.requests :: RequestOk(s.clients, q))
    && (forall i | 0 <= i < |s.tasks| :: s.tasks[i] in s.requests)
    && (s.work.Handling? ==> s.work.packet in s.requests)
    && (forall r | r in s.responses :: ResponseOk(s, r))
  }

  predicate Resolved(s: State, call: Call) {
    exists i :: 0 <= i < |s.resolutions| && s.resolutions[i].call == call
  }

  /** Every call is waiting, resolved, or about to be registered. */
  predicate Tracked(s: State, c: nat, n: nat)
    requires c < |s.clients|
  {
    var k := s.clients[c];
    if n in k.pending then !Resolved(s, Call(c, n)) && !(k.sending && n == k.seqNum)
    else Resolved(s, Call(c, n)) <==> !(k.sending && n == k.seqNum)
  }

  predicate ClientOk(s: State, c: nat)
    requires c < |s.clients|
  {
    var k := s.clients[c];
    && |k.sent| == k.seqNum
    && (k.sending ==> k.seqNum > 0)
    && (forall n | n in k.pending :: 1 <= n <= k.seqNum)
    && (forall n | 1 <= n <= k.seqNum :: Tracked(s, c, n))
  }

  predicate ResolutionsOk(s: State) {
    && (forall i | 0 <= i < |s.resolutions| ::
          && Answered(s.computed, s.clients, s.resolutions[i].call, s.resolutions[i].response))
    && (forall i, j | 0 <= i < j < |s.resolutions| :: s.resolutions[i].call != s.resolutions[j].call)
  }

  predicate Inv(s: State) {
    && UniqueWriters(s.clients) && PacketsOk(s) && ResolutionsOk(s)
    && forall c | 0 <= c < |s.clients| :: ClientOk(s, c)
  }

  lemma InitInv(s: State)
    requires Init(s) && UniqueWriters(s.clients)
    ensures Inv(s)
  {
  }

  /** `clients` only ever sends more; the writers stay. */
  predicate Extends(clients: seq<Client>, later: seq<Client>) {
    && |later| == |clients|
    && forall c | 0 <= c < |clients| :: later[c].writer == clients[c].writer && clients[c].sent <= later[c].sent
  }

  lemma PacketsKept(s: State, s': State)
    requires PacketsOk(s) && Extends(s.clients, s'.clients) && s.computed <= s'.computed
    requires s'.requests == s.requests && s'.responses == s.responses
    requires s'.tasks == s.tasks && s'.work == s.work
    ensures PacketsOk(s')
  {
    forall q | q in s'.requests ensures RequestOk(s'.clients, q) { assert RequestOk(s.clients, q); }
    forall r | r in s'.responses ensures ResponseOk(s', r) { assert ResponseOk(s, r); }
  }

  lemma ResolutionsKept(s: State, s': State)
    requires ResolutionsOk(s) && Extends(s.clients, s'.clients) && s.computed <= s'.computed
    requires s'.resolutions == s.resolutions
    ensures ResolutionsOk(s')
  {
    forall i | 0 <= i < |s'.resolutions|
      ensures Answered(s'.computed, s'.clients, s'.resolutions[i].call, s'.resolutions[i].response)
    {
      assert Answered(s.computed, s.clients, s.resolutions[i].call, s.resolutions[i].response);
    }
  }

  /** A client that a step does not touch keeps its bookkeeping, if its calls are resolved as before. */
  lemma ClientKept(s: State, s': State, c: nat)
    requires c < |s.clients| == |s'.clients| && s'.clients[c] == s.clients[c] && ClientOk(s, c)
    requires forall n: nat :: Resolved(s', Call(c, n)) <==> Resolved(s, Call(c, n))
    ensures ClientOk(s', c)
  {
    forall n | 1 <= n <= s.clients[c].seqNum ensures Tracked(s', c, n) { assert Tracked(s, c, n); }
  }

  lemma TransmitInv(s: State, c: nat, request: Request)
    requires Inv(s) && Enabled(s, Transmit(c, request))
    ensures Inv(Next(s, Transmit(c, request)))
  {
    var s' := Next(s, Transmit(c, request));
    var n := s.clients[c].seqNum + 1;
    var q := RequestPacket(Info(s.clients[c].writer, n, s.clients[c].writer), request, Call(c, n));
    assert ClientOk(s, c);
    PacketsKept(s, s'.(requests := s.requests));
    assert RequestOk(s'.clients, q);
    ResolutionsKept(s, s');
    assert !Resolved(s, Call(c, n)) by { NotAheadOfTime(s, c, n); }
    forall d | 0 <= d < |s.clients|
      ensures ClientOk(s', d)
    {
      assert ClientOk(s, d);
      if d != c {
        ClientKept(s, s', d);
      } else {
        forall m | 1 <= m <= n ensures Tracked(s', c, m) {
          if m < n { assert Tracked(s, c, m); }
          assert Resolved(s', Call(c, m)) <==> Resolved(s, Call(c, m));
        }
      }
    }
  }

  /** Only calls that were made are resolved. */
  lemma NotAheadOfTime(s: State, c: nat, n: nat)
    requires ResolutionsOk(s) && c < |s.clients| && n > |s.clients[c].sent|
    ensures !Resolved(s, Call(c, n))
  {
  }

  lemma RegisterInv(s: State, c: nat)
    requires Inv(s) && Enabled(s, Register(c))
    ensures Inv(Next(s, Register(c)))
  {
    var s' := Next(s, Register(c));
    assert ClientOk(s, c);
    PacketsKept(s, s');
    ResolutionsKept(s, s');
    forall d | 0 <= d < |s.clients|
      ensures ClientOk(s', d)
    {
      assert ClientOk(s, d);
      if d != c {
        ClientKept(s, s', d);
      } else {
        forall m | 1 <= m <= s.clients[c].seqNum ensures Tracked(s', c, m) {
          assert Tracked(s, c, m);
          assert Resolved(s', Call(c, m)) <==> Resolved(s, Call(c, m));
        }
      }
    }
  }

  lemma ServiceInv(s: State, a: Action)
    requires Inv(s) && Enabled(s, a) && (a.DeliverRequest? || a.PopTask? || a.Respond?)
    ensures Inv(Next(s, a))
  {
    var s' := Next(s, a);
    ResolutionsKept(s, s');
    forall d | 0 <= d < |s.clients| ensures ClientOk(s', d) {
      assert ClientOk(s, d);
      ClientKept(s, s', d);
    }
    if a.Respond? {
      PacketsKept(s, s'.(responses := s.responses, work := s.work));
      var q := s.work.packet;
      assert RequestOk(s.clients, q);
      assert ResponseOk(s', ResponsePacket(q.info.(sender := s.service), a.response, q.origin));
    } else {
      forall r | r in s'.responses ensures ResponseOk(s', r) { assert ResponseOk(s, r); }
    }
  }

  /** The filter on the writer id lets a client see only answers to its own calls. */
  lemma OwnResponse(s: State, c: nat, r: ResponsePacket)
    requires UniqueWriters(s.clients) && PacketsOk(s) && c < |s.clients| && r in s.responses
    requires r.info.spare == s.clients[c].writer
    ensures r.origin == Call(c, r.info.seqNum) && Answered(s.computed, s.clients, r.origin, r.response)
  {
    assert ResponseOk(s, r);
  }

  lemma HandleInv(s: State, c: nat, r: ResponsePacket)
    requires Inv(s) && Enabled(s, HandleResponse(c, r))
    ensures Inv(Next(s, HandleResponse(c, r)))
  {
    var s' := Next(s, HandleResponse(c, r));
    if s' != s {
      OwnResponse(s, c, r);
      assert ClientOk(s, c);
      assert Tracked(s, c, r.info.seqNum);
      PacketsKept(s, s');
      HandledResolutions(s, s', c, r);
      forall d | 0 <= d < |s.clients| ensures ClientOk(s', d) {
        assert ClientOk(s, d);
        if d != c {
          ClientKept(s, s', d);
        } else {
          forall m | 1 <= m <= s.clients[c].seqNum ensures Tracked(s', c, m) { assert Tracked(s, c, m); }
        }
      }
    }
  }

  lemma HandledResolutions(s: State, s': State, c: nat, r: ResponsePacket)
    requires ResolutionsOk(s) && Extends(s.clients, s'.clients) && s'.computed == s.computed
    requires s'.resolutions == s.resolutions + [Resolution(Call(c, r.info.seqNum), r.response)]
    requires !Resolved(s, Call(c, r.info.seqNum))
    requires Answered(s.computed, s.clients, Call(c, r.info.seqNum), r.response)
    ensures ResolutionsOk(s')
    ensures forall call :: Resolved(s', call) <==> Resolved(s, call) || call == Call(c, r.info.seqNum)
  {
    ResolutionsKept(s, s'.(resolutions := s.resolutions));
    var k := |s.resolutions|;
    forall call
      ensures Resolved(s', call) <==> Resolved(s, call) || call == Call(c, r.info.seqNum)
    {
      if Resolved(s, call) {
        var i :| 0 <= i < |s.resolutions| && s.resolutions[i].call == call;
        assert s'.resolutions[i].call == call;
      }
      assert s'.resolutions[k].call == Call(c, r.info.seqNum);
    }
  }

  lemma NextInv(s: State, a: Action)
    requires Inv(s) && Enabled(s, a)
    ensures Inv(Next(s, a))
  {
    match a
    case Transmit(c, request) => TransmitInv(s, c, request);
    case Register(c) => RegisterInv(s, c);
    case DeliverRequest(_) => ServiceInv(s, a);
    case PopTask => ServiceInv(s, a);
    case Respond(_) => ServiceInv(s, a);
    case HandleResponse(c, r) => HandleInv(s, c, r);
  }

  lemma {:induction false} RunInv(s: State, actions: seq<Action>)
    requires Inv(s) && Run(s, actions)
    ensures Inv(Final(s, actions))
    decreases |actions|
  {
    if actions != [] {
      NextInv(s, actions[0]);
      RunInv(Next(s, actions[0]), actions[1..]);
    }
  }

  // ---------------------------------------------------------------- the results

  /** Over every run each future resolves at most once, and only with a response that the service computed
      from the very request that was sent for it. */
  lemma ResolvedOnceWithOwnResponse(s: State, actions: seq<Action>)
    requires Init(s) && UniqueWriters(s.clients) && Run(s, actions)
    ensures ResolutionsOk(Final(s, actions))
  {
    InitInv(s);
    RunInv(s, actions);
  }

  /** A response that reaches its client resolves the future unless an earlier one did: transmitting before
      registering never makes a client miss it. */
  lemma FirstResponseIsNeverMissed(s0: State, actions: seq<Action>, c: nat, r: ResponsePacket)
    requires Init(s0) && UniqueWriters(s0.clients) && Run(s0, actions)
    requires var s := Final(s0, actions); Enabled(s, HandleResponse(c, r)) && r.info.spare == s.clients[c].writer
    ensures var s := Final(s0, actions);
            if Resolved(s, r.origin) then Next(s, HandleResponse(c, r)) == s
            else Next(s, HandleResponse(c, r)).resolutions == s.resolutions + [Resolution(r.origin, r.response)]
  {
    InitInv(s0);
    RunInv(s0, actions);
    var s := Final(s0, actions);
    OwnResponse(s, c, r);
    assert ClientOk(s, c);
    assert Tracked(s, c, r.info.seqNum);
  }

  // ---------------------------------------------------------------- the service

  /** The packet that answers request `q` with `response`. */
  function Reply(q: RequestPacket, response: Response, service: Id): ResponsePacket {
    ResponsePacket(q.info.(sender := service), response, q.origin)
  }

  predicate AnswerOk(s: State, i: nat)
    requires i < |s.answers| && i < |s.handled|
  {
    && s.answers[i].call == s.handled[i].origin && s.answers[i].request == s.handled[i].request
    && Reply(s.handled[i], s.answers[i].response, s.service) in s.responses
  }

  /** Requests are taken up in the order of arrival and the others stay queued; each one taken up is answered
      once, with a response to itself, except the one being handled. */
  predicate Serves(s: State) {
    && s.received == s.handled + s.tasks
    && |s.handled| == |s.answers| + (if s.work.Handling? then 1 else 0)
    && (s.work.Handling? ==> s.work.packet == s.handled[|s.handled| - 1])
    && forall i | 0 <= i < |s.answers| :: AnswerOk(s, i)
  }

  lemma ServesNext(s: State, a: Action)
    requires Serves(s) && Enabled(s, a)
    ensures Serves(Next(s, a))
  {
    var s' := Next(s, a);
    match a {
      case DeliverRequest(q) => assert s.handled + (s.tasks + [q]) == (s.handled + s.tasks) + [q];
      case PopTask =>
        assert s.tasks == [s.tasks[0]] + s.tasks[1..];
        assert s.handled + ([s.tasks[0]] + s.tasks[1..]) == (s.handled + [s.tasks[0]]) + s.tasks[1..];
      case Transmit(_, _) | Register(_) | Respond(_) | HandleResponse(_, _) =>
    }
    forall i | 0 <= i < |s'.answers| ensures AnswerOk(s', i) {
      if i < |s.answers| { assert AnswerOk(s, i); }
    }
  }

  /** Over every run the service serves in order, once each, and loses none of the requests that reached it. */
  lemma {:induction false} ServesOverEveryRun(s: State, actions: seq<Action>)
    requires Serves(s) && Run(s, actions)
    ensures Serves(Final(s, actions))
    decreases |actions|
  {
    if actions != [] {
      ServesNext(s, actions[0]);
      ServesOverEveryRun(Next(s, actions[0]), actions[1..]);
    }
  }

  /** What client c sends, and what reaches the service, in one step and in a run. */
  function SentIn(a: Action, c: nat): seq<Request> {
    if a.Transmit? && a.c == c then [a.request] else []
  }

  function SentBy(actions: seq<Action>, c: nat): seq<Request> {
    if actions == [] then [] else SentIn(actions[0], c) + SentBy(actions[1..], c)
  }

  function DeliveredIn(a: Action): seq<RequestPacket> {
    if a.DeliverRequest? then [a.q] else []
  }

  function Delivered(actions: seq<Action>): seq<RequestPacket> {
    if actions == [] then [] else DeliveredIn(actions[0]) + Delivered(actions[1..])
  }

  lemma StepIsRecorded(s: State, a: Action, c: nat)
    requires Enabled(s, a) && c < |s.clients|
    ensures |Next(s, a).clients| == |s.clients| && Next(s, a).clients[c].sent == s.clients[c].sent + SentIn(a, c)
    ensures Next(s, a).received == s.received + DeliveredIn(a)
  {
    assert s.clients[c].sent + [] == s.clients[c].sent && s.received + [] == s.received;
  }

  lemma Regroup<T>(a: seq<T>, b: seq<T>, c: seq<T>)
    ensures a + (b + c) == (a + b) + c && a + [] == a
  {
  }

  /** The histories are what the callers and the network did. */
  lemma {:induction false} HistoryIsRecorded(s: State, actions: seq<Action>, c: nat)
    requires Run(s, actions) && c < |s.clients|
    ensures |Final(s, actions).clients| == |s.clients|
    ensures Final(s, actions).clients[c].sent == s.clients[c].sent + SentBy(actions, c)
    ensures Final(s, actions).received == s.received + Delivered(actions)
    decreases |actions|
  {
    if actions == [] {
      Regroup(s.clients[c].sent, [], []);
      Regroup(s.received, [], []);
    } else {
      StepIsRecorded(s, actions[0], c);
      HistoryIsRecorded(Next(s, actions[0]), actions[1..], c);
      Regroup(s.clients[c].sent, SentIn(actions[0], c), SentBy(actions[1..], c));
      Regroup(s.received, DeliveredIn(actions[0]), Delivered(actions[1..]));
    }
  }

  lemma RunStep(s: State, a: Action, rest: seq<Action>)
    requires Enabled(s, a) && Run(Next(s, a), rest)
    ensures Run(s, [a] + rest) && Final(s, [a] + rest) == Final(Next(s, a), rest)
  {
    assert ([a] + rest)[1..] == rest;
  }

  /** With a shared writer id a client takes the answer to another client's request for its own. */
  lemma SharedWriterMismatch(s: State, i: nat, j: nat) returns (actions: seq<Action>)
    requires Init(s) && i < j < |s.clients| && s.clients[i].writer == s.clients[j].writer
    ensures Run(s, actions) && !ResolutionsOk(Final(s, actions))
  {
    var w := s.clients[i].writer;
    var q := RequestPacket(Info(w, 1, w), "a", Call(i, 1));
    var r := ResponsePacket(Info(s.service, 1, w), "x", Call(i, 1));
    var s1 := Next(s, Transmit(i, "a"));
    var s2 := Next(s1, Transmit(j, "b"));
    var s3 := Next(s2, Register(j));
    var s4 := Next(s3, DeliverRequest(q));
    var s5 := Next(s4, PopTask);
    var s6 := Next(s5, Respond("x"));
    var s7 := Next(s6, HandleResponse(j, r));
    assert s7.resolutions[0] == Resolution(Call(j, 1), "x");
    assert s7.computed == {Computed(Call(i, 1), "a", "x")};
    var a6 := [HandleResponse(j, r)] + [];
    RunStep(s6, HandleResponse(j, r), []);
    RunStep(s5, Respond("x"), a6);
    var a5 := [Respond("x")] + a6;
    RunStep(s4, PopTask, a5);
    var a4 := [PopTask] + a5;
    RunStep(s3, DeliverRequest(q), a4);
    var a3 := [DeliverRequest(q)] + a4;
    RunStep(s2, Register(j), a3);
    var a2 := [Register(j)] + a3;
    RunStep(s1, Transmit(j, "b"), a2);
    RunStep(s, Transmit(i, "a"), [Transmit(j, "b")] + a2);
    actions := [Transmit(i, "a")] + ([Transmit(j, "b")] + a2);
  }

  /** So unique writer ids are exactly what the matching needs. */
  lemma MatchingIffUniqueWriters(s: State)
    requires Init(s)
    ensures UniqueWriters(s.clients) <==> forall actions | Run(s, actions) :: ResolutionsOk(Final(s, actions))
  {
    if UniqueWriters(s.clients) {
      forall actions | Run(s, actions) ensures ResolutionsOk(Final(s, actions)) {
        ResolvedOnceWithOwnResponse(s, actions);
      }
    } else {
      var i, j :| 0 <= i < j < |s.clients| && s.clients[i].writer == s.clients[j].writer;
      var actions := SharedWriterMismatch(s, i, j);
    }
  }
}
