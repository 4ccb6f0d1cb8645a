/**
Request and reply over a broker, as the Pub/Sub and the SQS plugin do it: any number of clients, each with one
dispatcher and any number of concurrent calls, and any number of servers. The broker may delay, reorder,
duplicate and redeliver; it does not invent or alter messages. Each mutex section, network call or callback is
one step. Strangers may publish anything that does not use the correlation id of a call.
*/
module RpcProtocol {
  import opened Wrappers
  import opened Transport
  import PT = PendingTable

  // ----- the state -----

  datatype ClientConfig = ClientConfig(oneWay: bool, replyTo: string)

  /** What does not change during a run. Clients and servers are numbered. */
  datatype Setup = Setup(transport: Transport, client: nat -> ClientConfig, oneWayServer: nat -> bool)

  datatype CallResult = Returned(response: Payload) | Threw(error: string)

  datatype Phase = Sending | Waiting | Ended(result: CallResult)

  datatype Call = Call(client: nat, request: Payload, phase: Phase)

  /** A published request; an attribute that is missing reads as the empty string. */
  datatype Message = Message(correlationId: string, replyTo: string, body: string)

  datatype Reply = Reply(topic: string, correlationId: string, body: string)

  /** How far a server has got with the message it pulled. */
  datatype Worker =
    | Idle
    | Holding(message: nat)
    | Processed(message: nat, response: Payload)
    | Answered(message: nat, response: Payload)

  datatype Event =
    | Called(id: string, client: nat, request: Payload)
    | Published(message: nat, content: Message)
    | Ran(server: nat, message: nat, request: Payload, response: Payload)
    | Sent(server: nat, message: nat, reply: Reply)
    | Strayed(reply: Reply)
    | Acked(server: nat, message: nat)
    | Completed(client: nat, id: string, payload: Payload)
    | CameBack(id: string, response: Payload)

  /** calls by correlation id; every request and reply that ever reached the broker; requests not yet acknowledged. */
  datatype State = State(
    calls: map<string, Call>,
    tables: map<nat, PT.Table>,
    requests: map<nat, Message>,
    outstanding: set<nat>,
    replies: set<Reply>,
    workers: map<nat, Worker>,
    log: seq<Event>)

  const START := State(map[], map[], map[], {}, {}, map[], [])

  function Pending(s: State, client: nat): PT.Table {
    if client in s.tables then s.tables[client] else PT.EMPTY
  }

  function Doing(s: State, server: nat): Worker {
    if server in s.workers then s.workers[server] else Idle
  }

  // ----- the steps -----

  datatype SendOutcome = Accepted | Again | Refused(error: string)

  datatype Action =
    | Start(client: nat, id: string, request: Payload)
    | Send(id: string, message: nat, stored: bool, outcome: SendOutcome)
    | Abort(id: string, error: string)
    | Wake(id: string)
    | ForeignRequest(message: nat, content: Message)
    | ForeignReply(reply: Reply)
    | Pull(server: nat, message: nat)
    | Process(server: nat, response: Payload)
    | Answer(server: nat, reported: bool)
    | Acknowledge(server: nat)
    | Drop(server: nat)
    | Deliver(client: nat, reply: Reply)
    | FailOne(client: nat, id: string, error: string)
    | FailAll(client: nat, error: string)
    | CloseClient(client: nat, error: string)

  /** NewCorrelationId: an id that nobody has used. */
  predicate Fresh(s: State, id: string) {
    && id != "" && id !in s.calls
    && (forall n :: n in s.requests ==> s.requests[n].correlationId != id)
    && (forall r :: r in s.replies ==> r.correlationId != id)
  }

  function RequestOf(setup: Setup, id: string, call: Call): Message
    requires Encode(setup.transport, call.request).Ok?
  {
    var config := setup.client(call.client);
    Message(id, if config.oneWay then "" else config.replyTo, Encode(setup.transport, call.request).value)
  }

  function ReplyOf(setup: Setup, m: Message, response: Payload): Reply
    requires Encode(setup.transport, response).Ok?
  {
    Reply(m.replyTo, m.correlationId, Encode(setup.transport, response).value)
  }

  /** The test with which a server begins: in RPC mode a request must say whom to answer. */
  predicate Acceptable(setup: Setup, server: nat, m: Message) {
    setup.oneWayServer(server) || (m.correlationId != "" && AddressAccepted(setup.transport, m.replyTo))
  }

  predicate Enabled(setup: Setup, s: State, a: Action) {
    match a
    case Start(_, id, request) =>
      Fresh(s, id) && (setup.transport.PubSub? ==> Encode(setup.transport, request).Ok?)
    case Send(id, n, stored, outcome) =>
      && id in s.calls && s.calls[id].phase.Sending? && Encode(setup.transport, s.calls[id].request).Ok?
      && n !in s.requests && (outcome.Accepted? ==> stored) && (outcome.Again? ==> setup.transport.PubSub?)
    case Abort(id, _) => id in s.calls && s.calls[id].phase.Sending?
    case Wake(id) => id in s.calls && s.calls[id].phase.Waiting?
    case ForeignRequest(n, m) => n !in s.requests && m.correlationId !in s.calls
    case ForeignReply(r) => r.correlationId !in s.calls
    case Pull(w, n) => Doing(s, w).Idle? && n in s.requests
    case Process(w, _) =>
      && Doing(s, w).Holding? && Doing(s, w).message in s.requests
      && Acceptable(setup, w, s.requests[Doing(s, w).message])
      && Decode(setup.transport, s.requests[Doing(s, w).message].body).Ok?
    case Answer(w, _) =>
      && Doing(s, w).Processed? && !setup.oneWayServer(w) && Doing(s, w).message in s.requests
      && Encode(setup.transport, Doing(s, w).response).Ok?
    case Acknowledge(w) => Doing(s, w).Answered? || (Doing(s, w).Processed? && setup.oneWayServer(w))
    case Drop(_) => true
    case Deliver(c, r) =>
      && !setup.client(c).oneWay && r in s.replies && r.topic == setup.client(c).replyTo
      && Decode(setup.transport, r.body).Ok?
    case FailOne(_, _, _) => true
    case FailAll(_, _) => true
    case CloseClient(_, _) => true
  }

  function OnTable(s: State, client: nat, op: PT.Op): State {
    s.(tables := s.tables[client := PT.Step(Pending(s, client), op)])
  }

  function Log(s: State, e: Event): State {
    s.(log := s.log + [e])
  }

  function SetPhase(s: State, id: string, phase: Phase): State
    requires id in s.calls
  {
    s.(calls := s.calls[id := s.calls[id].(phase := phase)])
  }

  /** The call leaves: its ticket, if it has one, is destroyed. */
  function Leave(setup: Setup, s: State, id: string, result: CallResult): State
    requires id in s.calls
  {
    var client := s.calls[id].client;
    var left := SetPhase(s, id, Ended(result));
    if setup.client(client).oneWay then left else OnTable(left, client, PT.Remove(id))
  }

  function Work(s: State, server: nat, worker: Worker): State {
    s.(workers := s.workers[server := worker])
  }

  function Store(s: State, n: nat, m: Message): State {
    Log(s.(requests := s.requests[n := m], outstanding := s.outstanding + {n}), Published(n, m))
  }

  function Begin(setup: Setup, s: State, client: nat, id: string, request: Payload): State {
    var begun := Log(s.(calls := s.calls[id := Call(client, request, Sending)]), Called(id, client, request));
    var rejection := PT.Rejection(Pending(s, client), id);
    if setup.client(client).oneWay then begun
    else if rejection.Some? then SetPhase(begun, id, Ended(Threw(rejection.value)))
    else OnTable(begun, client, PT.Register(id))
  }

  function AfterSend(setup: Setup, s: State, id: string, outcome: SendOutcome): State
    requires id in s.calls
  {
    match outcome
    case Accepted => SetPhase(s, id, Waiting)
    case Again => s
    case Refused(error) => Leave(setup, s, id, Threw(error))
  }

  /** A one-way call returns at once; otherwise the slot is looked at when the wait ends. */
  function Outcome(setup: Setup, s: State, id: string): CallResult
    requires id in s.calls
  {
    var client := s.calls[id].client;
    if setup.client(client).oneWay then Returned([])
    else if id !in Pending(s, client).slots then Threw("no ticket")
    else
      match PT.Report(Pending(s, client).slots[id])
      case TimedOut => Threw("RPC timed out")
      case Threw(error) => CallResult.Threw(error)
      case Received(payload) => Returned(payload)
  }

  function Step(setup: Setup, s: State, a: Action): State
    requires Enabled(setup, s, a)
  {
    match a
    case Start(client, id, request) => Begin(setup, s, client, id, request)
    case Send(id, n, stored, outcome) =>
      AfterSend(setup, if stored then Store(s, n, RequestOf(setup, id, s.calls[id])) else s, id, outcome)
    case Abort(id, error) => Leave(setup, s, id, Threw(error))
    case Wake(id) =>
      var result := Outcome(setup, s, id);
      var left := Leave(setup, s, id, result);
      if result.Returned? then Log(left, CameBack(id, result.response)) else left
    case ForeignRequest(n, m) => Store(s, n, m)
    case ForeignReply(r) => Log(s.(replies := s.replies + {r}), Strayed(r))
    case Pull(w, n) => Work(s, w, Holding(n))
    case Process(w, response) =>
      var n := Doing(s, w).message;
      var request := Decode(setup.transport, s.requests[n].body).value;
      Log(Work(s, w, Processed(n, response)), Ran(w, n, request, response))
    case Answer(w, reported) =>
      var n, response := Doing(s, w).message, Doing(s, w).response;
      var reply := ReplyOf(setup, s.requests[n], response);
      Log(Work(s.(replies := s.replies + {reply}), w, if reported then Answered(n, response) else Idle), Sent(w, n, reply))
    case Acknowledge(w) =>
      var n := Doing(s, w).message;
      Log(Work(s.(outstanding := s.outstanding - {n}), w, Idle), Acked(w, n))
    case Drop(w) => Work(s, w, Idle)
    case Deliver(c, r) =>
      var payload := Decode(setup.transport, r.body).value;
      Log(OnTable(s, c, PT.Complete(r.correlationId, payload)), Completed(c, r.correlationId, payload))
    case FailOne(c, id, error) => OnTable(s, c, PT.Fail(id, error))
    case FailAll(c, error) => OnTable(s, c, PT.FailAll(error))
    case CloseClient(c, error) => OnTable(s, c, PT.Close(error))
  }

  predicate Possible(setup: Setup, s: State, actions: seq<Action>)
    decreases |actions|
  {
    actions == [] || (Enabled(setup, s, actions[0]) && Possible(setup, Step(setup, s, actions[0]), actions[1..]))
  }

  function After(setup: Setup, s: State, actions: seq<Action>): State
    requires Possible(setup, s, actions)
    decreases |actions|
  {
    if actions == [] then s else After(setup, Step(setup, s, actions[0]), actions[1..])
  }
}
