/**
What holds in every reachable state of RpcProtocol. The log tells what happened in order; each of its events is
justified by earlier ones, and the state says nothing that the log does not.
*/
module RpcSafety {
  import opened Wrappers
  import opened Transport
  import opened RpcProtocol
  import PT = PendingTable

  // ----- the log -----

  predicate Mentions(e: Event, id: string) {
    match e
    case Called(id', _, _) => id' == id
    case Published(_, m) => m.correlationId == id
    case Sent(_, _, r) => r.correlationId == id
    case Strayed(r) => r.correlationId == id
    case _ => false
  }

  /** The reply was published, by a server or by a stranger. */
  ghost predicate Arrived(past: seq<Event>, r: Reply) {
    Strayed(r) in past || exists w, n :: Sent(w, n, r) in past
  }

  /** The server processed the request with this response and, in RPC mode, answered it. */
  ghost predicate Settled(setup: Setup, past: seq<Event>, w: nat, n: nat, m: Message, response: Payload) {
    && Published(n, m) in past
    && (exists request :: Ran(w, n, request, response) in past)
    && (!setup.oneWayServer(w) ==>
          Encode(setup.transport, response).Ok? && Sent(w, n, ReplyOf(setup, m, response)) in past)
  }

  ghost predicate Justified(setup: Setup, past: seq<Event>, e: Event) {
    match e
    case Called(id, _, _) => forall e' :: e' in past ==> !Mentions(e', id)
    case Published(n, m) =>
      && (forall m' :: Published(n, m') !in past)
      && forall c, request :: Called(m.correlationId, c, request) in past ==>
           && Encode(setup.transport, request).Ok?
           && m == RequestOf(setup, m.correlationId, Call(c, request, Sending))
    case Ran(w, n, request, _) =>
      exists m :: Published(n, m) in past && Acceptable(setup, w, m) && Decode(setup.transport, m.body) == Ok(request)
    case Sent(w, n, reply) =>
      exists m, request, response ::
        && Published(n, m) in past && Ran(w, n, request, response) in past
        && Encode(setup.transport, response).Ok? && reply == ReplyOf(setup, m, response)
    case Strayed(r) => forall c, request :: Called(r.correlationId, c, request) !in past
    case Acked(w, n) => exists m, response :: Settled(setup, past, w, n, m, response)
    case Completed(c, id, payload) =>
      exists r :: Arrived(past, r) && r.topic == setup.client(c).replyTo && r.correlationId == id
                  && Decode(setup.transport, r.body) == Ok(payload)
    case CameBack(id, response) =>
      exists c, request :: Called(id, c, request) in past &&
        if setup.client(c).oneWay then response == [] else Completed(c, id, response) in past
  }

  ghost predicate JustifiedLog(setup: Setup, log: seq<Event>) {
    forall k :: 0 <= k < |log| ==> Justified(setup, log[..k], log[k])
  }

  // ----- the state and the log -----

  ghost predicate RequestsLogged(s: State) {
    forall n, m :: Published(n, m) in s.log <==> n in s.requests && s.requests[n] == m
  }

  ghost predicate CallsLogged(s: State) {
    forall id, c, request :: Called(id, c, request) in s.log <==>
      id in s.calls && s.calls[id].client == c && s.calls[id].request == request
  }

  ghost predicate RepliesLogged(s: State) {
    forall r :: r in s.replies <==> Arrived(s.log, r)
  }

  ghost predicate WorkerLogged(setup: Setup, s: State, w: nat) {
    match Doing(s, w)
    case Idle => true
    case Holding(n) => n in s.requests
    case Processed(n, response) => n in s.requests && exists request :: Ran(w, n, request, response) in s.log
    case Answered(n, response) => n in s.requests && Settled(setup, s.log, w, n, s.requests[n], response)
  }

  ghost predicate WorkersLogged(setup: Setup, s: State) {
    forall w :: WorkerLogged(setup, s, w)
  }

  ghost predicate SlotsLogged(s: State) {
    forall c, id :: id in Pending(s, c).slots && Pending(s, c).slots[id].Replied? ==>
      Completed(c, id, Pending(s, c).slots[id].payload) in s.log
  }

  /** A published request is still outstanding or was acknowledged. */
  ghost predicate NothingLost(s: State) {
    && s.outstanding <= s.requests.Keys
    && forall n :: n in s.requests ==> n in s.outstanding || exists w :: Acked(w, n) in s.log
  }

  /** The table of a client has a slot exactly for each of its two-way calls that has not ended. */
  ghost predicate TicketsHeld(setup: Setup, s: State) {
    forall c, id :: id in Pending(s, c).slots <==>
      id in s.calls && s.calls[id].client == c && !setup.client(c).oneWay && !s.calls[id].phase.Ended?
  }

  /** A call has returned only what the log says came back. */
  ghost predicate ResultsLogged(s: State) {
    forall id :: id in s.calls && s.calls[id].phase.Ended? && s.calls[id].phase.result.Returned? ==>
      CameBack(id, s.calls[id].phase.result.response) in s.log
  }

  ghost predicate Inv(setup: Setup, s: State) {
    && JustifiedLog(setup, s.log) && RequestsLogged(s) && CallsLogged(s) && RepliesLogged(s)
    && WorkersLogged(setup, s) && SlotsLogged(s) && NothingLost(s) && TicketsHeld(setup, s)
    && ResultsLogged(s)
  }

  // ----- what a step changes -----

  function EventOf(setup: Setup, s: State, a: Action): Option<Event>
    requires Enabled(setup, s, a)
  {
    match a
    case Start(client, id, request) => Some(Called(id, client, request))
    case Send(id, n, stored, _) => if stored then Some(Published(n, RequestOf(setup, id, s.calls[id]))) else None
    case Wake(id) =>
      var result := Outcome(setup, s, id);
      if result.Returned? then Some(CameBack(id, result.response)) else None
    case ForeignRequest(n, m) => Some(Published(n, m))
    case ForeignReply(r) => Some(Strayed(r))
    case Process(w, response) =>
      var n := Doing(s, w).message;
      Some(Ran(w, n, Decode(setup.transport, s.requests[n].body).value, response))
    case Answer(w, _) => Some(Sent(w, Doing(s, w).message, ReplyOf(setup, s.requests[Doing(s, w).message], Doing(s, w).response)))
    case Acknowledge(w) => Some(Acked(w, Doing(s, w).message))
    case Deliver(c, r) => Some(Completed(c, r.correlationId, Decode(setup.transport, r.body).value))
    case _ => None
  }

  /** What belongs to the broker, the servers and the log. */
  predicate SameOutside(s: State, t: State) {
    s.requests == t.requests && s.outstanding == t.outstanding && s.replies == t.replies && s.workers == t.workers && s.log == t.log
  }

  lemma LeaveOutside(setup: Setup, s: State, id: string, result: CallResult)
    requires id in s.calls
    ensures SameOutside(s, Leave(setup, s, id, result))
  {
    hide PT.Step;
  }

  lemma AfterSendOutside(setup: Setup, s: State, id: string, outcome: SendOutcome)
    requires id in s.calls
    ensures SameOutside(s, AfterSend(setup, s, id, outcome))
  {
    hide Leave;
    if outcome.Refused? {
      LeaveOutside(setup, s, id, Threw(outcome.error));
    }
  }

  lemma BeginOutside(setup: Setup, s: State, client: nat, id: string, request: Payload)
    ensures SameOutside(Log(s, Called(id, client, request)), Begin(setup, s, client, id, request))
  {
    hide PT.Step, PT.Rejection;
  }

  /** A step appends its event, and its event says what else it changes at the broker. */
  lemma {:induction false} StepOutside(setup: Setup, s: State, a: Action)
    requires Enabled(setup, s, a)
    ensures var (e, t) := (EventOf(setup, s, a), Step(setup, s, a));
            && t.log == (if e.Some? then s.log + [e.value] else s.log)
            && t.requests == (if e.Some? && e.value.Published? then s.requests[e.value.message := e.value.content] else s.requests)
            && t.replies == (if e.Some? && (e.value.Sent? || e.value.Strayed?) then s.replies + {e.value.reply} else s.replies)
            && t.outstanding == (if e.Some? && e.value.Published? then s.outstanding + {e.value.message}
                                 else if e.Some? && e.value.Acked? then s.outstanding - {e.value.message} else s.outstanding)
  {
    hide Encode, Decode, Acceptable, Outcome, RequestOf, ReplyOf, Fresh, Begin, AfterSend, Leave, OnTable;
    match a
    case Start(client, id, request) => BeginOutside(setup, s, client, id, request);
    case Send(id, n, stored, outcome) =>
      AfterSendOutside(setup, if stored then Store(s, n, RequestOf(setup, id, s.calls[id])) else s, id, outcome);
    case Abort(id, error) => LeaveOutside(setup, s, id, Threw(error));
    case Wake(id) => LeaveOutside(setup, s, id, Outcome(setup, s, id));
    case Deliver(c, r) => TableOutside(s, c, PT.Complete(r.correlationId, Decode(setup.transport, r.body).value));
    case FailOne(c, id, error) => TableOutside(s, c, PT.Fail(id, error));
    case FailAll(c, error) => TableOutside(s, c, PT.FailAll(error));
    case CloseClient(c, error) => TableOutside(s, c, PT.Close(error));
    case _ =>
  }

  lemma TableOutside(s: State, c: nat, op: PT.Op)
    ensures SameOutside(s, OnTable(s, c, op))
  {
    hide PT.Step;
  }

  ghost predicate SameCalls(before: map<string, Call>, after: map<string, Call>) {
    && before.Keys == after.Keys
    && forall id :: id in before ==> before[id].client == after[id].client && before[id].request == after[id].request
  }

  lemma SameAsItself(calls: map<string, Call>)
    ensures SameCalls(calls, calls)
  {
  }

  lemma LeaveCalls(setup: Setup, s: State, id: string, result: CallResult)
    requires id in s.calls
    ensures SameCalls(s.calls, Leave(setup, s, id, result).calls)
  {
    hide PT.Step;
  }

  lemma {:induction false} AfterSendCalls(setup: Setup, s: State, id: string, outcome: SendOutcome)
    requires id in s.calls
    ensures SameCalls(s.calls, AfterSend(setup, s, id, outcome).calls)
  {
    hide Leave;
    if outcome.Refused? {
      LeaveCalls(setup, s, id, Threw(outcome.error));
    }
  }

  lemma {:induction false} BeginCalls(setup: Setup, s: State, client: nat, id: string, request: Payload)
    requires id !in s.calls
    ensures SameCalls(s.calls[id := Call(client, request, Sending)], Begin(setup, s, client, id, request).calls)
  {
    hide PT.Step, PT.Rejection;
  }

  /** A call is added by its start; after that its client and request stay. */
  lemma {:induction false} StepCalls(setup: Setup, s: State, a: Action)
    requires Enabled(setup, s, a)
    ensures a.Start? ==>
              a.id !in s.calls && SameCalls(s.calls[a.id := Call(a.client, a.request, Sending)], Step(setup, s, a).calls)
    ensures !a.Start? ==> SameCalls(s.calls, Step(setup, s, a).calls)
  {
    hide Encode, Decode, Acceptable, RequestOf, ReplyOf, Begin, AfterSend, Leave, PT.Step, Outcome, SameCalls;
    SameAsItself(s.calls);
    match a
    case Start(client, id, request) => BeginCalls(setup, s, client, id, request);
    case Send(id, n, stored, outcome) =>
      AfterSendCalls(setup, if stored then Store(s, n, RequestOf(setup, id, s.calls[id])) else s, id, outcome);
    case Abort(id, error) => LeaveCalls(setup, s, id, Threw(error));
    case Wake(id) => LeaveCalls(setup, s, id, Outcome(setup, s, id));
    case _ =>
  }

  // ----- each event is justified -----

  lemma {:induction false} Extend(setup: Setup, log: seq<Event>, e: Event)
    requires JustifiedLog(setup, log) && Justified(setup, log, e)
    ensures JustifiedLog(setup, log + [e])
  {
    hide Justified;
    forall k | 0 <= k < |log + [e]|
      ensures Justified(setup, (log + [e])[..k], (log + [e])[k])
    {
      assert (log + [e])[..k] == log[..k];
      assert log[..|log|] == log;
    }
  }

  lemma {:induction false} CalledJustified(setup: Setup, s: State, client: nat, id: string, request: Payload)
    requires Inv(setup, s) && Fresh(s, id)
    ensures Justified(setup, s.log, Called(id, client, request))
  {
    forall e | e in s.log
      ensures !Mentions(e, id)
    {
      match e
      case Published(n, m) => assert n in s.requests && s.requests[n] == m;
      case Sent(w, n, r) => assert Arrived(s.log, r);
      case Strayed(r) => assert Arrived(s.log, r);
      case _ =>
    }
  }

  lemma {:induction false} PublishedJustified(setup: Setup, s: State, n: nat, m: Message)
    requires Inv(setup, s) && n !in s.requests
    requires m.correlationId in s.calls ==>
               && Encode(setup.transport, s.calls[m.correlationId].request).Ok?
               && m == RequestOf(setup, m.correlationId, s.calls[m.correlationId])
    ensures Justified(setup, s.log, Published(n, m))
  {
    hide Encode;
  }

  lemma {:induction false} RanJustified(setup: Setup, s: State, w: nat, response: Payload)
    requires Inv(setup, s) && Enabled(setup, s, Process(w, response))
    ensures Justified(setup, s.log, EventOf(setup, s, Process(w, response)).value)
  {
    hide Decode, Acceptable;
    var n := Doing(s, w).message;
    assert Published(n, s.requests[n]) in s.log;
  }

  lemma {:induction false} SentJustified(setup: Setup, s: State, w: nat, reported: bool)
    requires Inv(setup, s) && Enabled(setup, s, Answer(w, reported))
    ensures Justified(setup, s.log, EventOf(setup, s, Answer(w, reported)).value)
  {
    hide Encode, ReplyOf;
    var n := Doing(s, w).message;
    assert Published(n, s.requests[n]) in s.log;
    assert WorkerLogged(setup, s, w);
  }

  lemma {:induction false} AckedJustified(setup: Setup, s: State, w: nat)
    requires Inv(setup, s) && Enabled(setup, s, Acknowledge(w))
    ensures Justified(setup, s.log, EventOf(setup, s, Acknowledge(w)).value)
  {
    hide Encode, ReplyOf;
    var n := Doing(s, w).message;
    assert WorkerLogged(setup, s, w);
    assert Published(n, s.requests[n]) in s.log;
    assert Settled(setup, s.log, w, n, s.requests[n], Doing(s, w).response);
  }

  lemma {:induction false} CompletedJustified(setup: Setup, s: State, c: nat, r: Reply)
    requires Inv(setup, s) && Enabled(setup, s, Deliver(c, r))
    ensures Justified(setup, s.log, EventOf(setup, s, Deliver(c, r)).value)
  {
    hide Decode;
    assert Arrived(s.log, r);
  }

  lemma {:induction false} CameBackJustified(setup: Setup, s: State, id: string)
    requires Inv(setup, s) && Enabled(setup, s, Wake(id)) && EventOf(setup, s, Wake(id)).Some?
    ensures Justified(setup, s.log, EventOf(setup, s, Wake(id)).value)
  {
    var call := s.calls[id];
    assert Called(id, call.client, call.request) in s.log;
  }

  lemma {:induction false} EventJustified(setup: Setup, s: State, a: Action)
    requires Inv(setup, s) && Enabled(setup, s, a) && EventOf(setup, s, a).Some?
    ensures Justified(setup, s.log, EventOf(setup, s, a).value)
  {
    hide Inv, Justified, Fresh, Encode, Decode, Outcome, Acceptable, ReplyOf;
    match a
    case Start(client, id, request) => CalledJustified(setup, s, client, id, request);
    case Send(id, n, stored, outcome) => PublishedJustified(setup, s, n, RequestOf(setup, id, s.calls[id]));
    case Wake(id) => CameBackJustified(setup, s, id);
    case ForeignRequest(n, m) => PublishedJustified(setup, s, n, m);
    case ForeignReply(r) => StrayedJustified(setup, s, r);
    case Process(w, response) => RanJustified(setup, s, w, response);
    case Answer(w, reported) => SentJustified(setup, s, w, reported);
    case Acknowledge(w) => AckedJustified(setup, s, w);
    case Deliver(c, r) => CompletedJustified(setup, s, c, r);
    case _ =>
  }

  lemma {:induction false} StrayedJustified(setup: Setup, s: State, r: Reply)
    requires Inv(setup, s) && r.correlationId !in s.calls
    ensures Justified(setup, s.log, Strayed(r))
  {
  }

  // ----- the state keeps saying what the log says -----

  lemma {:induction false} KeepsRequests(setup: Setup, s: State, a: Action)
    requires RequestsLogged(s) && Enabled(setup, s, a)
    ensures RequestsLogged(Step(setup, s, a))
  {
    NewMessage(setup, s, a);
    hide Step, EventOf, Enabled;
    StepOutside(setup, s, a);
  }

  lemma {:induction false} NewMessage(setup: Setup, s: State, a: Action)
    requires Enabled(setup, s, a)
    ensures var e := EventOf(setup, s, a);
            e.Some? && e.value.Published? ==> e.value.message !in s.requests
  {
    hide Encode, Decode, Acceptable, RequestOf, ReplyOf, Outcome;
  }

  lemma {:induction false} KeepsCalls(setup: Setup, s: State, a: Action)
    requires CallsLogged(s) && Enabled(setup, s, a)
    ensures CallsLogged(Step(setup, s, a))
  {
    StepOutside(setup, s, a);
    StepCalls(setup, s, a);
    CallEvent(setup, s, a);
    hide Step, EventOf, Enabled;
  }

  lemma {:induction false} CallEvent(setup: Setup, s: State, a: Action)
    requires Enabled(setup, s, a)
    ensures var e := EventOf(setup, s, a);
            if a.Start? then e == Some(Called(a.id, a.client, a.request)) else e.Some? ==> !e.value.Called?
  {
    hide Encode, Decode, Acceptable, RequestOf, ReplyOf, Outcome;
  }

  lemma {:induction false} KeepsReplies(setup: Setup, s: State, a: Action)
    requires RepliesLogged(s) && Enabled(setup, s, a)
    ensures RepliesLogged(Step(setup, s, a))
  {
    StepOutside(setup, s, a);
    hide Step, EventOf, Enabled;
    var e, s' := EventOf(setup, s, a), Step(setup, s, a);
    forall r
      ensures r in s'.replies <==> Arrived(s'.log, r)
    {
      if Arrived(s'.log, r) && !Arrived(s.log, r) {
        assert e.Some? && (e.value.Sent? || e.value.Strayed?) && e.value.reply == r;
      }
      if e.Some? && e.value.Sent? {
        assert Sent(e.value.server, e.value.message, e.value.reply) in s'.log;
      }
    }
  }

  lemma {:induction false} KeepsNothingLost(setup: Setup, s: State, a: Action)
    requires NothingLost(s) && Enabled(setup, s, a)
    ensures NothingLost(Step(setup, s, a))
  {
    StepOutside(setup, s, a);
    hide Step, EventOf, Enabled;
    var e, s' := EventOf(setup, s, a), Step(setup, s, a);
    forall n | n in s'.requests
      ensures n in s'.outstanding || exists w :: Acked(w, n) in s'.log
    {
      if n in s.outstanding && n !in s'.outstanding {
        assert Acked(e.value.server, n) in s'.log;
      } else if n in s.requests && n !in s.outstanding {
        var w :| Acked(w, n) in s.log;
        assert Acked(w, n) in s'.log;
      }
    }
  }

  // ----- servers -----

  lemma {:induction false} WorkerStays(setup: Setup, s: State, s': State, w: nat)
    requires WorkerLogged(setup, s, w) && Doing(s', w) == Doing(s, w)
    requires forall e :: e in s.log ==> e in s'.log
    requires forall n :: n in s.requests ==> n in s'.requests && s'.requests[n] == s.requests[n]
    ensures WorkerLogged(setup, s', w)
  {
    hide Encode, ReplyOf;
    match Doing(s, w)
    case Processed(n, response) =>
      var request :| Ran(w, n, request, response) in s.log;
      assert Ran(w, n, request, response) in s'.log;
    case Answered(n, response) =>
      var request :| Ran(w, n, request, response) in s.log;
      assert Ran(w, n, request, response) in s'.log;
    case _ =>
  }

  /** A step changes what one server does, if any. */
  lemma {:induction false} StepWorkers(setup: Setup, s: State, a: Action, w: nat)
    requires Enabled(setup, s, a)
    ensures var s' := Step(setup, s, a);
            || Doing(s', w) == Doing(s, w)
            || Doing(s', w) == Idle
            || (a.Pull? && a.server == w && Doing(s', w) == Holding(a.message))
            || (a.Process? && a.server == w && Doing(s', w) == Processed(Doing(s, w).message, a.response))
            || (a.Answer? && a.server == w && Doing(s', w) == Answered(Doing(s, w).message, Doing(s, w).response))
  {
    hide Encode, Decode, Acceptable, RequestOf, ReplyOf, Outcome, PT.Step, Fresh, Begin, AfterSend;
    match a
    case Start(client, id, request) => BeginWorkers(setup, s, client, id, request);
    case Send(id, n, stored, outcome) =>
      AfterSendWorkers(setup, if stored then Store(s, n, RequestOf(setup, id, s.calls[id])) else s, id, outcome);
    case _ =>
  }

  lemma BeginWorkers(setup: Setup, s: State, client: nat, id: string, request: Payload)
    ensures Begin(setup, s, client, id, request).workers == s.workers
  {
    hide PT.Step, PT.Rejection;
  }

  lemma AfterSendWorkers(setup: Setup, s: State, id: string, outcome: SendOutcome)
    requires id in s.calls
    ensures AfterSend(setup, s, id, outcome).workers == s.workers
  {
    hide PT.Step;
  }

  lemma {:induction false} KeepsWorkers(setup: Setup, s: State, a: Action)
    requires RequestsLogged(s) && NothingLost(s) && WorkersLogged(setup, s) && Enabled(setup, s, a)
    ensures WorkersLogged(setup, Step(setup, s, a))
  {
    StepOutside(setup, s, a);
    NewMessage(setup, s, a);
    forall w
      ensures WorkerLogged(setup, Step(setup, s, a), w)
    {
      KeepsWorker(setup, s, a, w);
    }
  }

  lemma {:induction false} KeepsWorker(setup: Setup, s: State, a: Action, w: nat)
    requires RequestsLogged(s) && NothingLost(s) && WorkersLogged(setup, s) && Enabled(setup, s, a)
    ensures WorkerLogged(setup, Step(setup, s, a), w)
  {
    var s' := Step(setup, s, a);
    StepOutside(setup, s, a);
    NewMessage(setup, s, a);
    StepWorkers(setup, s, a, w);
    assert WorkerLogged(setup, s, w);
    if Doing(s', w) == Doing(s, w) {
      hide Step, EventOf, Enabled, WorkerLogged, RequestsLogged, WorkersLogged;
      WorkerStays(setup, s, s', w);
    } else if Doing(s', w) != Idle {
      WorkerMoves(setup, s, a, w);
    }
  }

  lemma {:induction false} WorkerMoves(setup: Setup, s: State, a: Action, w: nat)
    requires RequestsLogged(s) && NothingLost(s) && WorkersLogged(setup, s)
    requires Enabled(setup, s, a) && (a.Pull? || a.Process? || a.Answer?) && a.server == w
    ensures WorkerLogged(setup, Step(setup, s, a), w)
  {
    hide Encode, Decode, Acceptable, RequestOf, ReplyOf;
    assert WorkerLogged(setup, s, w);
    var s' := Step(setup, s, a);
    match a
    case Pull(_, n) =>
    case Process(_, response) =>
      assert s'.log[|s.log|].Ran? && s'.log[|s.log|] in s'.log;
    case Answer(_, reported) =>
      var n, response := Doing(s, w).message, Doing(s, w).response;
      var request :| Ran(w, n, request, response) in s.log;
      assert Ran(w, n, request, response) in s'.log;
      assert Published(n, s.requests[n]) in s.log;
  }

  // ----- tables -----

  /** The client whose table a step changes, and the operation on it. */
  function TableOp(setup: Setup, s: State, a: Action): Option<(nat, PT.Op)>
    requires Enabled(setup, s, a)
  {
    match a
    case Start(c, id, _) => if setup.client(c).oneWay then None else Some((c, PT.Register(id)))
    case Send(id, _, _, outcome) => if outcome.Refused? then Removal(setup, s, id) else None
    case Abort(id, _) => Removal(setup, s, id)
    case Wake(id) => Removal(setup, s, id)
    case Deliver(c, r) => Some((c, PT.Complete(r.correlationId, Decode(setup.transport, r.body).value)))
    case FailOne(c, id, error) => Some((c, PT.Fail(id, error)))
    case FailAll(c, error) => Some((c, PT.FailAll(error)))
    case CloseClient(c, error) => Some((c, PT.Close(error)))
    case _ => None
  }

  function Removal(setup: Setup, s: State, id: string): Option<(nat, PT.Op)>
    requires id in s.calls
  {
    var c := s.calls[id].client;
    if setup.client(c).oneWay then None else Some((c, PT.Remove(id)))
  }

  lemma {:induction false} StepTables(setup: Setup, s: State, a: Action, c: nat)
    requires Enabled(setup, s, a)
    ensures var op := TableOp(setup, s, a);
            Pending(Step(setup, s, a), c) ==
            if op.Some? && op.value.0 == c then PT.Step(Pending(s, c), op.value.1) else Pending(s, c)
  {
    hide Encode, Decode, Acceptable, RequestOf, ReplyOf, Outcome, PT.Step, Fresh, Begin, AfterSend;
    match a
    case Start(client, id, request) => BeginTable(setup, s, client, id, request, c);
    case Send(id, n, stored, outcome) =>
      AfterSendTable(setup, if stored then Store(s, n, RequestOf(setup, id, s.calls[id])) else s, id, outcome, c);
    case _ =>
  }

  lemma {:induction false} BeginTable(setup: Setup, s: State, client: nat, id: string, request: Payload, c: nat)
    ensures Pending(Begin(setup, s, client, id, request), c) ==
            if c == client && !setup.client(c).oneWay then PT.Step(Pending(s, c), PT.Register(id)) else Pending(s, c)
  {
  }

  lemma {:induction false} AfterSendTable(setup: Setup, s: State, id: string, outcome: SendOutcome, c: nat)
    requires id in s.calls
    ensures Pending(AfterSend(setup, s, id, outcome), c) ==
            if outcome.Refused? && c == s.calls[id].client && !setup.client(c).oneWay
            then PT.Step(Pending(s, c), PT.Remove(id)) else Pending(s, c)
  {
    hide PT.Step;
  }

  lemma {:induction false} KeepsSlots(setup: Setup, s: State, a: Action)
    requires SlotsLogged(s) && Enabled(setup, s, a)
    ensures SlotsLogged(Step(setup, s, a))
  {
    var s' := Step(setup, s, a);
    StepOutside(setup, s, a);
    forall c, id | id in Pending(s', c).slots && Pending(s', c).slots[id].Replied?
      ensures Completed(c, id, Pending(s', c).slots[id].payload) in s'.log
    {
      StepTables(setup, s, a, c);
      KeepsSlot(setup, s, a, c, id);
    }
  }

  lemma {:induction false} KeepsSlot(setup: Setup, s: State, a: Action, c: nat, id: string)
    requires SlotsLogged(s) && Enabled(setup, s, a)
    requires var slots := Pending(Step(setup, s, a), c).slots; id in slots && slots[id].Replied?
    ensures Completed(c, id, Pending(Step(setup, s, a), c).slots[id].payload) in Step(setup, s, a).log
  {
    StepOutside(setup, s, a);
    StepTables(setup, s, a, c);
    var op := TableOp(setup, s, a);
    if op.Some? && op.value.0 == c {
      TableEvent(setup, s, a);
      PT.OneReply(Pending(s, c), op.value.1, id);
    }
    hide Step, Enabled, EventOf, TableOp, PT.Step;
  }

  lemma {:induction false} TableEvent(setup: Setup, s: State, a: Action)
    requires Enabled(setup, s, a) && TableOp(setup, s, a).Some?
    ensures var (c, op) := TableOp(setup, s, a).value;
            && !op.Wait? && (op.Complete? ==> EventOf(setup, s, a) == Some(Completed(c, op.id, op.payload)))
  {
    hide Encode, Decode, Acceptable, RequestOf, ReplyOf, Outcome;
  }

  // ----- tickets -----

  predicate Ends(setup: Setup, s: State, a: Action, id: string) {
    match a
    case Send(id', _, _, outcome) => id' == id && outcome.Refused?
    case Abort(id', _) => id' == id
    case Wake(id') => id' == id
    case Start(c, id', _) => id' == id && !setup.client(c).oneWay && PT.Rejection(Pending(s, c), id).Some?
    case _ => false
  }

  lemma {:induction false} StepPhase(setup: Setup, s: State, a: Action, id: string)
    requires Enabled(setup, s, a) && id in Step(setup, s, a).calls
    ensures Step(setup, s, a).calls[id].phase.Ended? <==>
            Ends(setup, s, a, id) || (id in s.calls && s.calls[id].phase.Ended?)
  {
    hide Encode, Decode, Acceptable, RequestOf, ReplyOf, Outcome, PT.Step, PT.Rejection, Begin, AfterSend;
    match a
    case Start(client, id', request) => BeginPhase(setup, s, client, id', request, id);
    case Send(id', n, stored, outcome) =>
      AfterSendPhase(setup, if stored then Store(s, n, RequestOf(setup, id', s.calls[id'])) else s, id', outcome, id);
    case _ =>
  }

  lemma {:induction false} BeginPhase(setup: Setup, s: State, client: nat, id: string, request: Payload, other: string)
    requires id !in s.calls && other in Begin(setup, s, client, id, request).calls
    ensures Begin(setup, s, client, id, request).calls[other].phase.Ended? <==>
            Ends(setup, s, Start(client, id, request), other) || (other in s.calls && s.calls[other].phase.Ended?)
  {
    hide PT.Step, PT.Rejection;
  }

  lemma {:induction false} AfterSendPhase(setup: Setup, s: State, id: string, outcome: SendOutcome, other: string)
    requires id in s.calls && !s.calls[id].phase.Ended? && other in AfterSend(setup, s, id, outcome).calls
    ensures AfterSend(setup, s, id, outcome).calls[other].phase.Ended? <==>
            (other == id && outcome.Refused?) || (other in s.calls && s.calls[other].phase.Ended?)
  {
    hide PT.Step;
  }

  lemma {:induction false} KeepsTicket(setup: Setup, s: State, a: Action, c: nat, id: string)
    requires TicketsHeld(setup, s) && Enabled(setup, s, a)
    ensures var s' := Step(setup, s, a);
            id in Pending(s', c).slots <==>
            id in s'.calls && s'.calls[id].client == c && !setup.client(c).oneWay && !s'.calls[id].phase.Ended?
  {
    var s' := Step(setup, s, a);
    StepTables(setup, s, a, c);
    StepCalls(setup, s, a);
    if id in s'.calls {
      StepPhase(setup, s, a, id);
    }
    var op := TableOp(setup, s, a);
    if op.Some? && op.value.0 == c {
      PT.OneKey(Pending(s, c), op.value.1, id);
    }
    TicketOps(setup, s, a, c, id);
    hide Step, Enabled, TableOp, Ends, PT.Step, PT.Rejection;
  }

  lemma {:induction false} TicketOps(setup: Setup, s: State, a: Action, c: nat, id: string)
    requires Enabled(setup, s, a)
    ensures var op := TableOp(setup, s, a);
            && (op == Some((c, PT.Register(id))) <==> a.Start? && a.id == id && a.client == c && !setup.client(c).oneWay)
            && (op == Some((c, PT.Remove(id))) <==>
                  !a.Start? && Ends(setup, s, a, id) && id in s.calls && s.calls[id].client == c && !setup.client(c).oneWay)
            && (a.Start? && a.id == id && a.client == c && !setup.client(c).oneWay ==>
                  (Ends(setup, s, a, id) <==> PT.Rejection(Pending(s, c), id).Some?))
            && (a.Start? && Ends(setup, s, a, id) ==> a.id == id && !setup.client(a.client).oneWay)
            && (Ends(setup, s, a, id) && !a.Start? ==> id in s.calls)
  {
    hide Encode, Decode, Acceptable, RequestOf, ReplyOf, Outcome, PT.Rejection;
  }

  // ----- results -----

  predicate HasReturned(s: State, id: string, response: Payload) {
    id in s.calls && s.calls[id].phase == Ended(Returned(response))
  }

  lemma {:induction false} StepResult(setup: Setup, s: State, a: Action, id: string, response: Payload)
    requires Enabled(setup, s, a) && HasReturned(Step(setup, s, a), id, response)
    ensures HasReturned(s, id, response) || EventOf(setup, s, a) == Some(CameBack(id, response))
  {
    hide Encode, Decode, Acceptable, RequestOf, ReplyOf, Outcome, PT.Step, PT.Rejection, Fresh, Begin, AfterSend;
    match a
    case Start(client, id', request) => BeginResult(setup, s, client, id', request, id, response);
    case Send(id', n, stored, outcome) =>
      AfterSendResult(setup, if stored then Store(s, n, RequestOf(setup, id', s.calls[id'])) else s, id', outcome, id, response);
    case _ =>
  }

  lemma {:induction false} BeginResult(setup: Setup, s: State, client: nat, id: string, request: Payload, other: string, response: Payload)
    requires HasReturned(Begin(setup, s, client, id, request), other, response)
    ensures HasReturned(s, other, response)
  {
    hide PT.Step, PT.Rejection;
  }

  lemma {:induction false} AfterSendResult(setup: Setup, s: State, id: string, outcome: SendOutcome, other: string, response: Payload)
    requires id in s.calls && HasReturned(AfterSend(setup, s, id, outcome), other, response)
    ensures HasReturned(s, other, response)
  {
    hide PT.Step;
  }

  lemma {:induction false} KeepsResults(setup: Setup, s: State, a: Action)
    requires ResultsLogged(s) && Enabled(setup, s, a)
    ensures ResultsLogged(Step(setup, s, a))
  {
    hide Step, EventOf, Enabled;
    var s' := Step(setup, s, a);
    StepOutside(setup, s, a);
    forall id | id in s'.calls && s'.calls[id].phase.Ended? && s'.calls[id].phase.result.Returned?
      ensures CameBack(id, s'.calls[id].phase.result.response) in s'.log
    {
      StepResult(setup, s, a, id, s'.calls[id].phase.result.response);
    }
  }

  // ----- the invariant -----

  lemma StartInv(setup: Setup)
    ensures Inv(setup, START)
  {
  }

  lemma {:induction false} StepInv(setup: Setup, s: State, a: Action)
    requires Inv(setup, s) && Enabled(setup, s, a)
    ensures Inv(setup, Step(setup, s, a))
  {
    KeepsRequests(setup, s, a);
    KeepsCalls(setup, s, a);
    KeepsReplies(setup, s, a);
    KeepsWorkers(setup, s, a);
    KeepsSlots(setup, s, a);
    KeepsNothingLost(setup, s, a);
    KeepsLog(setup, s, a);
    KeepsTickets(setup, s, a);
    KeepsResults(setup, s, a);
    hide Step, Enabled, JustifiedLog, RequestsLogged, CallsLogged, RepliesLogged, WorkersLogged, NothingLost, SlotsLogged, TicketsHeld,
         ResultsLogged;
  }

  lemma {:induction false} KeepsLog(setup: Setup, s: State, a: Action)
    requires Inv(setup, s) && Enabled(setup, s, a)
    ensures JustifiedLog(setup, Step(setup, s, a).log)
  {
    hide Step, Enabled, EventOf, JustifiedLog;
    StepOutside(setup, s, a);
    if EventOf(setup, s, a).Some? {
      EventJustified(setup, s, a);
      Extend(setup, s.log, EventOf(setup, s, a).value);
    }
  }

  lemma {:induction false} KeepsTickets(setup: Setup, s: State, a: Action)
    requires TicketsHeld(setup, s) && Enabled(setup, s, a)
    ensures TicketsHeld(setup, Step(setup, s, a))
  {
    hide Step, Enabled;
    var s' := Step(setup, s, a);
    forall c: nat, id: string
      ensures id in Pending(s', c).slots <==>
              id in s'.calls && s'.calls[id].client == c && !setup.client(c).oneWay && !s'.calls[id].phase.Ended?
    {
      KeepsTicket(setup, s, a, c, id);
    }
  }

  lemma {:induction false} RunInv(setup: Setup, s: State, actions: seq<Action>)
    requires Inv(setup, s) && Possible(setup, s, actions)
    ensures Inv(setup, After(setup, s, actions))
    decreases |actions|
  {
    hide Inv, Step, Enabled;
    if actions != [] {
      StepInv(setup, s, actions[0]);
      RunInv(setup, Step(setup, s, actions[0]), actions[1..]);
    }
  }

  // ----- the main results -----

  /** The places in the log at which a call that came back was made, published, processed, answered and completed. */
  datatype Story = Story(called: nat, published: nat, ran: nat, sent: nat, completed: nat)

  /** Response p came back for call id at place k: it is what a server's run on the call's own request bytes wrote. */
  ghost predicate Tells(setup: Setup, log: seq<Event>, k: nat, id: string, p: Payload, story: Story) {
    && story.called < story.published < story.ran < story.sent < story.completed < k < |log|
    && log[k] == CameBack(id, p)
    && log[story.called].Called? && log[story.published].Published? && log[story.ran].Ran? && log[story.sent].Sent?
    && var (call, published, ran, sent) := (log[story.called], log[story.published], log[story.ran], log[story.sent]);
       && call.id == id && published.content.correlationId == id && published.content.replyTo == setup.client(call.client).replyTo
       && ran.message == published.message && ran.request == call.request && ran.response == p
       && sent.message == ran.message && sent.server == ran.server
       && sent.reply.correlationId == id && sent.reply.topic == setup.client(call.client).replyTo
       && log[story.completed] == Completed(call.client, id, p)
  }

  lemma {:induction false} Place(log: seq<Event>, k: nat, e: Event) returns (i: nat)
    requires k <= |log| && e in log[..k]
    ensures i < k && log[i] == e
  {
    i :| i < k && log[..k][i] == e;
  }

  /** A correlation id is new when its call is made. */
  lemma {:induction false} CalledFirst(setup: Setup, log: seq<Event>, a: nat)
    requires JustifiedLog(setup, log) && a < |log| && log[a].Called?
    ensures forall b :: 0 <= b < a ==> !Mentions(log[b], log[a].id)
  {
    assert Justified(setup, log[..a], log[a]);
    forall b | 0 <= b < a
      ensures !Mentions(log[b], log[a].id)
    {
      assert log[..a][b] == log[b];
    }
  }

  lemma {:induction false} CalledOnce(setup: Setup, log: seq<Event>, a: nat, b: nat)
    requires JustifiedLog(setup, log) && a < |log| && b < |log| && log[a].Called? && log[b].Called? && log[a].id == log[b].id
    ensures a == b
  {
    CalledFirst(setup, log, a);
    CalledFirst(setup, log, b);
    assert Mentions(log[a], log[b].id) && Mentions(log[b], log[a].id);
  }

  lemma {:induction false} PublishedFirst(setup: Setup, log: seq<Event>, b: nat)
    requires JustifiedLog(setup, log) && b < |log| && log[b].Published?
    ensures forall a :: 0 <= a < b && log[a].Published? ==> log[a].message != log[b].message
  {
    assert Justified(setup, log[..b], log[b]);
    forall a | 0 <= a < b && log[a].Published?
      ensures log[a].message != log[b].message
    {
      assert log[..b][a] == Published(log[a].message, log[a].content);
    }
  }

  /** Strangers' replies carry no call's id, neither before nor after the call was made. */
  lemma {:induction false} NoStray(setup: Setup, log: seq<Event>, a: nat)
    requires JustifiedLog(setup, log) && a < |log| && log[a].Called?
    ensures forall j :: 0 <= j < |log| && log[j].Strayed? ==> log[j].reply.correlationId != log[a].id
  {
    CalledFirst(setup, log, a);
    forall j | 0 <= j < |log| && log[j].Strayed?
      ensures log[j].reply.correlationId != log[a].id
    {
      if a < j {
        assert Justified(setup, log[..j], log[j]);
        assert log[..j][a] == Called(log[a].id, log[a].client, log[a].request);
      } else if j < a {
        assert !Mentions(log[j], log[a].id);
      }
    }
  }

  lemma {:induction false} Authentic(setup: Setup, log: seq<Event>, k: nat, id: string, p: Payload, a: nat)
    returns (story: Story)
    requires JustifiedLog(setup, log) && k < |log| && log[k] == CameBack(id, p)
    requires a < |log| && log[a].Called? && log[a].id == id && !setup.client(log[a].client).oneWay
    ensures Tells(setup, log, k, id, p, story)
  {
    hide Encode, Decode, JustifiedLog;
    var call := log[a];
    var f := CompletedPlace(setup, log, k, id, p, a);
    var e := SentPlace(setup, log, f, a);
    var d := RanPlace(setup, log, e, p);
    var b := PublishedPlace(setup, log, d, a, e);
    CalledFirst(setup, log, a);
    assert Mentions(log[b], id);
    story := Story(a, b, d, e, f);
  }

  lemma {:induction false} CompletedPlace(setup: Setup, log: seq<Event>, k: nat, id: string, p: Payload, a: nat) returns (f: nat)
    requires JustifiedLog(setup, log) && k < |log| && log[k] == CameBack(id, p)
    requires a < |log| && log[a].Called? && log[a].id == id && !setup.client(log[a].client).oneWay
    ensures f < k && log[f] == Completed(log[a].client, id, p)
  {
    assert Justified(setup, log[..k], log[k]);
    var c, request :| Called(id, c, request) in log[..k] &&
      if setup.client(c).oneWay then p == [] else Completed(c, id, p) in log[..k];
    var a' := Place(log, k, Called(id, c, request));
    CalledOnce(setup, log, a, a');
    f := Place(log, k, Completed(c, id, p));
  }

  /** A reply that completed a call was sent by a server. */
  lemma {:induction false} SentPlace(setup: Setup, log: seq<Event>, f: nat, a: nat) returns (e: nat)
    requires JustifiedLog(setup, log) && a < |log| && log[a].Called?
    requires f < |log| && log[f].Completed? && log[f].id == log[a].id && log[f].client == log[a].client
    ensures e < f && log[e].Sent? && log[e].reply.correlationId == log[a].id
    ensures log[e].reply.topic == setup.client(log[a].client).replyTo
    ensures Decode(setup.transport, log[e].reply.body) == Ok(log[f].payload)
  {
    hide Decode;
    var id := log[a].id;
    assert Justified(setup, log[..f], log[f]);
    var r :| Arrived(log[..f], r) && r.topic == setup.client(log[f].client).replyTo && r.correlationId == id
             && Decode(setup.transport, r.body) == Ok(log[f].payload);
    NoStray(setup, log, a);
    assert Strayed(r) !in log[..f];
    var w, n :| Sent(w, n, r) in log[..f];
    e := Place(log, f, Sent(w, n, r));
  }

  /** The bytes of a reply are what the same server's run on the same message wrote. */
  lemma {:induction false} RanPlace(setup: Setup, log: seq<Event>, e: nat, p: Payload) returns (d: nat)
    requires JustifiedLog(setup, log) && e < |log| && log[e].Sent? && Decode(setup.transport, log[e].reply.body) == Ok(p)
    ensures d < e && log[d].Ran? && log[d].server == log[e].server && log[d].message == log[e].message && log[d].response == p
  {
    hide Encode, Decode;
    assert Justified(setup, log[..e], log[e]);
    var m, request, response :| Published(log[e].message, m) in log[..e]
      && Ran(log[e].server, log[e].message, request, response) in log[..e]
      && Encode(setup.transport, response).Ok? && log[e].reply == ReplyOf(setup, m, response);
    WireRoundTrip(setup.transport, response);
    d := Place(log, e, Ran(log[e].server, log[e].message, request, response));
  }

  lemma {:induction false} RunMessage(setup: Setup, log: seq<Event>, d: nat) returns (b: nat)
    requires JustifiedLog(setup, log) && d < |log| && log[d].Ran?
    ensures b < d && log[b].Published? && log[b].message == log[d].message
    ensures Decode(setup.transport, log[b].content.body) == Ok(log[d].request)
  {
    hide Decode, Acceptable;
    assert Justified(setup, log[..d], log[d]);
    var m :| Published(log[d].message, m) in log[..d] && Decode(setup.transport, m.body) == Ok(log[d].request);
    b := Place(log, d, Published(log[d].message, m));
  }

  lemma {:induction false} SentMessage(setup: Setup, log: seq<Event>, e: nat) returns (b: nat)
    requires JustifiedLog(setup, log) && e < |log| && log[e].Sent?
    ensures b < e && log[b].Published? && log[b].message == log[e].message
    ensures log[b].content.correlationId == log[e].reply.correlationId
  {
    hide Encode;
    assert Justified(setup, log[..e], log[e]);
    var m, request, response :| Published(log[e].message, m) in log[..e]
      && Ran(log[e].server, log[e].message, request, response) in log[..e]
      && Encode(setup.transport, response).Ok? && log[e].reply == ReplyOf(setup, m, response);
    b := Place(log, e, Published(log[e].message, m));
  }

  /** Who publishes a call's id publishes the call's request. */
  lemma {:induction false} OwnMessage(setup: Setup, log: seq<Event>, a: nat, b: nat)
    requires JustifiedLog(setup, log) && a < |log| && log[a].Called? && !setup.client(log[a].client).oneWay
    requires b < |log| && log[b].Published? && log[b].content.correlationId == log[a].id
    ensures log[b].content.replyTo == setup.client(log[a].client).replyTo
    ensures Decode(setup.transport, log[b].content.body) == Ok(log[a].request)
  {
    hide Encode, Decode;
    CalledFirst(setup, log, a);
    assert Mentions(log[b], log[a].id);
    assert Justified(setup, log[..b], log[b]);
    assert log[..b][a] == Called(log[a].id, log[a].client, log[a].request);
    WireRoundTrip(setup.transport, log[a].request);
  }

  /** The message that was run is the call's own, so its bytes are the call's request. */
  lemma {:induction false} PublishedPlace(setup: Setup, log: seq<Event>, d: nat, a: nat, e: nat) returns (b: nat)
    requires JustifiedLog(setup, log) && a < |log| && log[a].Called? && !setup.client(log[a].client).oneWay
    requires d < e < |log| && log[d].Ran? && log[e].Sent? && log[d].message == log[e].message
    requires log[e].reply.correlationId == log[a].id
    ensures b < d && log[b].Published? && log[b].message == log[d].message && log[b].content.correlationId == log[a].id
    ensures log[b].content.replyTo == setup.client(log[a].client).replyTo
    ensures log[d].request == log[a].request
  {
    hide Decode, JustifiedLog;
    b := RunMessage(setup, log, d);
    var b' := SentMessage(setup, log, e);
    PublishedFirst(setup, log, b);
    PublishedFirst(setup, log, b');
    OwnMessage(setup, log, a, b);
  }

  /**
  Authenticity: in every run, a two-way call returns a response only if some server ran processMessage on that
  call's own request bytes, that run wrote the response, and the server sent it to the call's own reply address
  under the call's own correlation id, in this order.
  */
  lemma {:induction false} CallsReturnTheirOwnReplies(setup: Setup, actions: seq<Action>, id: string) returns (k: nat, story: Story)
    requires Possible(setup, START, actions)
    requires var s := After(setup, START, actions);
             && id in s.calls && s.calls[id].phase.Ended? && s.calls[id].phase.result.Returned?
             && !setup.client(s.calls[id].client).oneWay
    ensures var s := After(setup, START, actions);
            && Tells(setup, s.log, k, id, s.calls[id].phase.result.response, story)
            && s.log[story.called] == Called(id, s.calls[id].client, s.calls[id].request)
  {
    StartInv(setup);
    RunInv(setup, START, actions);
    hide Possible, After, JustifiedLog;
    var s := After(setup, START, actions);
    var p := s.calls[id].phase.result.response;
    assert s.log[..|s.log|] == s.log;
    k := Place(s.log, |s.log|, CameBack(id, p));
    var a := Place(s.log, |s.log|, Called(id, s.calls[id].client, s.calls[id].request));
    story := Authentic(setup, s.log, k, id, p, a);
    CalledOnce(setup, s.log, a, story.called);
  }

  /**
  No request is lost: every published request is still outstanding at the broker, or a server acknowledged it
  after it processed it successfully and, in RPC mode, after it sent the run's response to the request's own
  reply address under the request's own correlation id.
  */
  lemma {:induction false} NoRequestIsLost(setup: Setup, actions: seq<Action>, n: nat) returns (k: nat, response: Payload)
    requires Possible(setup, START, actions) && n in After(setup, START, actions).requests
    requires n !in After(setup, START, actions).outstanding
    ensures var s := After(setup, START, actions);
            && k < |s.log| && s.log[k].Acked? && s.log[k].message == n
            && Settled(setup, s.log[..k], s.log[k].server, n, s.requests[n], response)
  {
    StartInv(setup);
    RunInv(setup, START, actions);
    hide Possible, After, Settled;
    var s := After(setup, START, actions);
    assert s.log[..|s.log|] == s.log;
    var w :| Acked(w, n) in s.log;
    k := Place(s.log, |s.log|, Acked(w, n));
    assert Justified(setup, s.log[..k], s.log[k]);
    var m, response' :| Settled(setup, s.log[..k], w, n, m, response');
    response := response';
    assert m == s.requests[n] by {
      SettledMessage(setup, s.log[..k], w, n, m, response);
      assert Published(n, m) in s.log;
    }
  }

  lemma SettledMessage(setup: Setup, past: seq<Event>, w: nat, n: nat, m: Message, response: Payload)
    requires Settled(setup, past, w, n, m, response)
    ensures Published(n, m) in past
  {
  }

  /** Timed-out and failed calls leave nothing behind: when all calls of a client have ended, its table is empty. */
  lemma {:induction false} NothingIsLeftBehind(setup: Setup, actions: seq<Action>, c: nat)
    requires Possible(setup, START, actions)
    ensures var s := After(setup, START, actions);
            && (Pending(s, c).slots == map[] <==>
                  forall id :: id in s.calls && s.calls[id].client == c && !setup.client(c).oneWay ==> s.calls[id].phase.Ended?)
            && forall id :: id in s.calls && s.calls[id].phase.Waiting? && !setup.client(s.calls[id].client).oneWay ==>
                 id in Pending(s, s.calls[id].client).slots
  {
    StartInv(setup);
    RunInv(setup, START, actions);
    hide Possible, After;
    TableOfLiveCalls(setup, After(setup, START, actions), c);
  }

  lemma {:induction false} TableOfLiveCalls(setup: Setup, s: State, c: nat)
    requires TicketsHeld(setup, s)
    ensures Pending(s, c).slots == map[] <==>
              forall id :: id in s.calls && s.calls[id].client == c && !setup.client(c).oneWay ==> s.calls[id].phase.Ended?
    ensures forall id :: id in s.calls && s.calls[id].phase.Waiting? && !setup.client(s.calls[id].client).oneWay ==>
              id in Pending(s, s.calls[id].client).slots
  {
    hide Pending;
    if Pending(s, c).slots != map[] {
      var id :| id in Pending(s, c).slots;
      assert id in s.calls && s.calls[id].client == c && !setup.client(c).oneWay && !s.calls[id].phase.Ended?;
    } else {
      assert forall id :: id !in Pending(s, c).slots;
    }
  }

  /** In every run, a call that wakes ends with what its slot holds then, takes that slot away, and touches no other call. */
  lemma {:induction false} WakeReports(setup: Setup, actions: seq<Action>, id: string)
    requires Possible(setup, START, actions)
    requires var s := After(setup, START, actions); id in s.calls && s.calls[id].phase.Waiting?
    ensures var s := After(setup, START, actions);
            && Enabled(setup, s, Wake(id))
            && var (end, c) := (Step(setup, s, Wake(id)), s.calls[id].client);
               && end.calls.Keys == s.calls.Keys && (forall other :: other in s.calls && other != id ==> end.calls[other] == s.calls[other])
               && end.calls[id].phase.Ended?
               && if setup.client(c).oneWay then end.calls[id].phase.result == Returned([]) && end.tables == s.tables
                  else
                    && id in Pending(s, c).slots && id !in Pending(end, c).slots
                    && end.calls[id].phase.result ==
                       match Pending(s, c).slots[id] {
                         case Waiting => Threw("RPC timed out")
                         case Failed(error) => Threw(error)
                         case Replied(payload) => Returned(payload)
                       }
  {
    NothingIsLeftBehind(setup, actions, 0);
    hide Possible, After;
    WakeStep(setup, After(setup, START, actions), id);
  }

  lemma {:induction false} WakeStep(setup: Setup, s: State, id: string)
    requires id in s.calls && s.calls[id].phase.Waiting?
    requires !setup.client(s.calls[id].client).oneWay ==> id in Pending(s, s.calls[id].client).slots
    ensures var (end, c) := (Step(setup, s, Wake(id)), s.calls[id].client);
            && end.calls.Keys == s.calls.Keys && (forall other :: other in s.calls && other != id ==> end.calls[other] == s.calls[other])
            && end.calls[id].phase.Ended?
            && if setup.client(c).oneWay then end.calls[id].phase.result == Returned([]) && end.tables == s.tables
               else
                 && id !in Pending(end, c).slots
                 && end.calls[id].phase.result ==
                    match Pending(s, c).slots[id] {
                      case Waiting => Threw("RPC timed out")
                      case Failed(error) => Threw(error)
                      case Replied(payload) => Returned(payload)
                    }
  {
  }

  // ----- a call that returns -----

  /** One more step at the end of a run. */
  lemma {:induction false} Further(setup: Setup, s: State, actions: seq<Action>, a: Action)
    requires Possible(setup, s, actions) && Enabled(setup, After(setup, s, actions), a)
    ensures Possible(setup, s, actions + [a]) && After(setup, s, actions + [a]) == Step(setup, After(setup, s, actions), a)
    decreases |actions|
  {
    hide Step, Enabled;
    if actions == [] {
      assert [] + [a] == [a] && [a][1..] == [];
    } else {
      assert (actions + [a])[1..] == actions[1..] + [a];
      Further(setup, Step(setup, s, actions[0]), actions[1..], a);
    }
  }

  /** A client of this kind can be answered by a server of this kind. */
  predicate Conversing(setup: Setup, c: nat, w: nat, request: Payload, response: Payload) {
    && !setup.client(c).oneWay && !setup.oneWayServer(w) && AddressAccepted(setup.transport, setup.client(c).replyTo)
    && Encode(setup.transport, request).Ok? && Encode(setup.transport, response).Ok?
  }

  function Conversation(setup: Setup, c: nat, w: nat, id: string, request: Payload, response: Payload): seq<Action>
    requires Conversing(setup, c, w, request, response)
  {
    var m := RequestOf(setup, id, Call(c, request, Sending));
    [Start(c, id, request), Send(id, 0, true, Accepted), Pull(w, 0), Process(w, response), Answer(w, true), Acknowledge(w),
     Deliver(c, ReplyOf(setup, m, response)), Wake(id)]
  }

  /** The whole of a state in which there is one call, at most one request and one server at work. */
  predicate Alone(s: State, c: nat, w: nat, id: string, call: Call, slots: map<string, PT.Outcome>, requests: map<nat, Message>,
                  outstanding: set<nat>, replies: set<Reply>, worker: Worker)
  {
    && s.calls == map[id := call] && Pending(s, c) == PT.Table(slots, None) && s.requests == requests
    && s.outstanding == outstanding && s.replies == replies && Doing(s, w) == worker
  }

  lemma {:induction false} Asking(setup: Setup, c: nat, w: nat, id: string, request: Payload, response: Payload)
    requires Conversing(setup, c, w, request, response) && id != ""
    ensures var actions := Conversation(setup, c, w, id, request, response)[..2];
            var m := RequestOf(setup, id, Call(c, request, Sending));
            && Possible(setup, START, actions)
            && Alone(After(setup, START, actions), c, w, id, Call(c, request, Phase.Waiting), map[id := PT.Waiting], map[0 := m], {0}, {}, Idle)
  {
    hide Encode, AddressAccepted;
    var start, send := Start(c, id, request), Send(id, 0, true, Accepted);
    var s := Step(setup, START, start);
    assert Enabled(setup, START, start);
    assert Alone(s, c, w, id, Call(c, request, Sending), map[id := PT.Waiting], map[], {}, {}, Idle);
    assert Enabled(setup, s, send);
    var t := Step(setup, s, send);
    assert Conversation(setup, c, w, id, request, response)[..2] == [start, send];
    Further(setup, START, [], start);
    Further(setup, START, [start], send);
    assert [] + [start] == [start] && [start] + [send] == [start, send];
  }

  lemma {:induction false} Processing(setup: Setup, s: State, c: nat, w: nat, id: string, request: Payload, response: Payload)
    requires Conversing(setup, c, w, request, response)
    requires var m := RequestOf(setup, id, Call(c, request, Sending));
             id != "" && Alone(s, c, w, id, Call(c, request, Phase.Waiting), map[id := PT.Waiting], map[0 := m], {0}, {}, Idle)
    ensures var actions := Conversation(setup, c, w, id, request, response)[2..4];
            var m := RequestOf(setup, id, Call(c, request, Sending));
            && Possible(setup, s, actions)
            && Alone(After(setup, s, actions), c, w, id, Call(c, request, Phase.Waiting), map[id := PT.Waiting], map[0 := m], {0}, {},
                     Processed(0, response))
  {
    hide Encode, Decode, AddressAccepted;
    WireRoundTrip(setup.transport, request);
    var (pull, process) := (Action.Pull(w, 0), Process(w, response));
    assert Enabled(setup, s, pull);
    assert Enabled(setup, Step(setup, s, pull), process);
    Further(setup, s, [], pull);
    Further(setup, s, [pull], process);
    assert Conversation(setup, c, w, id, request, response)[2..4] == [pull, process];
    assert [] + [pull] == [pull] && [pull] + [process] == [pull, process];
  }

  lemma {:induction false} Answering(setup: Setup, s: State, c: nat, w: nat, id: string, request: Payload, response: Payload)
    requires Conversing(setup, c, w, request, response)
    requires var m := RequestOf(setup, id, Call(c, request, Sending));
             Alone(s, c, w, id, Call(c, request, Phase.Waiting), map[id := PT.Waiting], map[0 := m], {0}, {}, Processed(0, response))
    ensures var actions := Conversation(setup, c, w, id, request, response)[4..6];
            var m := RequestOf(setup, id, Call(c, request, Sending));
            && Possible(setup, s, actions)
            && Alone(After(setup, s, actions), c, w, id, Call(c, request, Phase.Waiting), map[id := PT.Waiting], map[0 := m], {},
                     {ReplyOf(setup, m, response)}, Idle)
  {
    hide Encode, Decode, AddressAccepted;
    var (answer, acknowledge) := (Answer(w, true), Acknowledge(w));
    assert Enabled(setup, s, answer);
    assert Enabled(setup, Step(setup, s, answer), acknowledge);
    Further(setup, s, [], answer);
    Further(setup, s, [answer], acknowledge);
    assert Conversation(setup, c, w, id, request, response)[4..6] == [answer, acknowledge];
    assert [] + [answer] == [answer] && [answer] + [acknowledge] == [answer, acknowledge];
  }

  lemma {:induction false} Returning(setup: Setup, s: State, c: nat, w: nat, id: string, request: Payload, response: Payload)
    requires Conversing(setup, c, w, request, response)
    requires var m := RequestOf(setup, id, Call(c, request, Sending));
             Alone(s, c, w, id, Call(c, request, Phase.Waiting), map[id := PT.Waiting], map[0 := m], {}, {ReplyOf(setup, m, response)}, Idle)
    ensures var actions := Conversation(setup, c, w, id, request, response)[6..];
            && Possible(setup, s, actions)
            && HasReturned(After(setup, s, actions), id, response)
            && After(setup, s, actions).outstanding == {} && Pending(After(setup, s, actions), c).slots == map[]
  {
    hide Encode, Decode, AddressAccepted;
    WireRoundTrip(setup.transport, response);
    var m := RequestOf(setup, id, Call(c, request, Sending));
    var (deliver, wake) := (Deliver(c, ReplyOf(setup, m, response)), Wake(id));
    assert Enabled(setup, s, deliver);
    var t := Step(setup, s, deliver);
    assert Pending(t, c).slots[id] == PT.Replied(response);
    assert Enabled(setup, t, wake);
    assert Outcome(setup, t, id) == Returned(response);
    Further(setup, s, [], deliver);
    Further(setup, s, [deliver], wake);
    assert Conversation(setup, c, w, id, request, response)[6..] == [deliver, wake];
    assert [] + [deliver] == [deliver] && [deliver] + [wake] == [deliver, wake];
  }

  /** Whatever a server writes can come back: for every request and response there is a run in which the call returns it. */
  lemma {:induction false} EveryResponseCanReturn(setup: Setup, c: nat, w: nat, id: string, request: Payload, response: Payload)
    requires Conversing(setup, c, w, request, response) && id != ""
    ensures var actions := Conversation(setup, c, w, id, request, response);
            && Possible(setup, START, actions)
            && var end := After(setup, START, actions);
               HasReturned(end, id, response) && end.outstanding == {} && Pending(end, c).slots == map[]
  {
    hide Conversing, Step, Enabled, Alone, RequestOf, ReplyOf;
    var actions := Conversation(setup, c, w, id, request, response);
    Asking(setup, c, w, id, request, response);
    var s := After(setup, START, actions[..2]);
    Processing(setup, s, c, w, id, request, response);
    Both(setup, START, actions[..2], actions[2..4]);
    var t := After(setup, s, actions[2..4]);
    Answering(setup, t, c, w, id, request, response);
    Both(setup, START, actions[..2] + actions[2..4], actions[4..6]);
    Returning(setup, After(setup, t, actions[4..6]), c, w, id, request, response);
    Both(setup, START, actions[..2] + actions[2..4] + actions[4..6], actions[6..]);
    assert actions[..2] + actions[2..4] + actions[4..6] + actions[6..] == actions;
  }

  lemma {:induction false} Both(setup: Setup, s: State, first: seq<Action>, second: seq<Action>)
    requires Possible(setup, s, first) && Possible(setup, After(setup, s, first), second)
    ensures Possible(setup, s, first + second) && After(setup, s, first + second) == After(setup, After(setup, s, first), second)
    decreases |first|
  {
    hide Step, Enabled;
    if first == [] {
      assert first + second == second;
    } else {
      assert (first + second)[1..] == first[1..] + second;
      Both(setup, Step(setup, s, first[0]), first[1..], second);
    }
  }
}
