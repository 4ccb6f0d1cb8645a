/**
The procedures of the two plugins that run between the steps of RpcProtocol: how a server handles one message, how
a client publishes a request, and one round of its dispatcher. Each is shown to take only steps of the protocol.
*/
module RpcEndpoints {
  import opened Wrappers
  import opened Transport
  import opened RpcProtocol
  import PT = PendingTable
  import PendingReplies

  // ----- a server handles one message -----

  datatype PulledMessage = PulledMessage(data: Payload, attributes: map<string, string>, ackId: string)

  const CORRELATION_ID := "correlationId"
  const REPLY_TO := "replyTo"

  function Attribute(attributes: map<string, string>, name: string): string {
    if name in attributes then attributes[name] else ""
  }

  /** What a session did for good: what it ran, what the broker stored, what the broker dropped. */
  datatype Effect =
    | Handled(request: Payload, response: Payload)
    | Stored(topic: string, body: string, attributes: map<string, string>)
    | Dropped(ackId: string)

  datatype ProcessResult = Done | ReturnedFalse | Exception

  /** What processMessage does with one request. */
  datatype Callback = Callback(result: ProcessResult, writes: seq<Option<Payload>>)

  /** The callback may write any number of times; null or empty data clears the response. */
  function Response(writes: seq<Option<Payload>>): Payload {
    if writes == [] then []
    else
      var last := writes[|writes| - 1];
      if last.None? then [] else last.value
  }

  /** How a publish ends: an exception does not mean that the broker did not store the message. */
  datatype Delivery = Refused | StoredButFailed | Delivered

  /** The message is stored unless it is too long or refused. */
  function StoredBy(transport: Transport, topic: string, data: Payload, attributes: map<string, string>, delivery: Delivery): seq<Effect> {
    var body := Encode(transport, data);
    if body.Err? || delivery.Refused? then [] else [Stored(topic, body.value, attributes)]
  }

  class Session {
    const transport: Transport
    var effects: seq<Effect>

    constructor (transport: Transport)
      ensures this.transport == transport && effects == []
    {
      this.transport := transport;
      effects := [];
    }

    method Publish(topic: string, data: Payload, attributes: map<string, string>, delivery: Delivery) returns (ok: bool)
      modifies this
      ensures ok == (delivery.Delivered? && Encode(transport, data).Ok?)
      ensures effects == old(effects) + StoredBy(transport, topic, data, attributes, delivery)
    {
      hide Encode;
      assert effects + [] == effects;
      var body := Encode(transport, data);
      if body.Err? || delivery.Refused? {
        return false;
      }
      effects := effects + [Stored(topic, body.value, attributes)];
      return delivery.Delivered?;
    }

    /** Whether the broker drops the request does not depend on what it reports. */
    method Acknowledge(ackId: string, dropped: bool)
      modifies this
      ensures effects == old(effects) + if dropped then [Dropped(ackId)] else []
    {
      assert effects + [] == effects;
      if dropped {
        effects := effects + [Dropped(ackId)];
      }
    }

    /** Runs the callback, which may do anything, and collects what it writes. */
    method ProcessMessage(request: Payload, callback: Callback) returns (response: Payload)
      modifies this
      ensures response == Response(callback.writes)
      ensures var n := |callback.writes|;
              response == if n > 0 && callback.writes[n - 1].Some? then callback.writes[n - 1].value else []
      ensures effects == old(effects) + if callback.result.Done? then [Handled(request, response)] else []
    {
      response := [];
      for i := 0 to |callback.writes|
        invariant response == Response(callback.writes[..i]) && effects == old(effects)
      {
        response := Write(callback.writes[i]);
        assert callback.writes[..i + 1][i] == callback.writes[i];
      }
      assert callback.writes[..|callback.writes|] == callback.writes;
      if callback.result.Done? {
        effects := effects + [Handled(request, response)];
      } else {
        assert effects + [] == effects;
      }
    }
  }

  method Write(data: Option<Payload>) returns (output: Payload)
    ensures output == Response([data])
  {
    if data.None? || |data.value| == 0 {
      return [];
    }
    return data.value;
  }

  /** Process, then reply, then acknowledge; every failure ends the handling there. */
  function FullTrace(transport: Transport, oneWay: bool, m: PulledMessage, response: Payload): seq<Effect> {
    var replyTo := if oneWay then "" else Attribute(m.attributes, REPLY_TO);
    var correlationId := Attribute(m.attributes, CORRELATION_ID);
    var body := Encode(transport, response);
    [Handled(m.data, response)] +
    if oneWay then [Dropped(m.ackId)]
    else if body.Err? then []
    else [Stored(replyTo, body.value, map[CORRELATION_ID := correlationId]), Dropped(m.ackId)]
  }

  predicate Answerable(transport: Transport, oneWay: bool, m: PulledMessage) {
    || oneWay
    || (Attribute(m.attributes, CORRELATION_ID) != "" && AddressAccepted(transport, Attribute(m.attributes, REPLY_TO)))
  }

  ghost predicate Allowed(transport: Transport, oneWay: bool, m: PulledMessage, trace: seq<Effect>) {
    || trace == []
    || (Answerable(transport, oneWay, m) && exists response :: trace <= FullTrace(transport, oneWay, m, response))
  }

  /** What happens from outside while a message is handled. */
  datatype Circumstances = Circumstances(callback: Callback, delivery: Delivery, dropped: bool)

  function Trace(transport: Transport, oneWay: bool, m: PulledMessage, c: Circumstances): seq<Effect> {
    var response := Response(c.callback.writes);
    var dropped := if m.ackId != "" && c.dropped then [Dropped(m.ackId)] else [];
    if !Answerable(transport, oneWay, m) || !c.callback.result.Done? then []
    else if oneWay then [Handled(m.data, response)] + dropped
    else
      var attributes := map[CORRELATION_ID := Attribute(m.attributes, CORRELATION_ID)];
      var stored := StoredBy(transport, Attribute(m.attributes, REPLY_TO), response, attributes, c.delivery);
      [Handled(m.data, response)] + stored + if stored != [] && c.delivery.Delivered? then dropped else []
  }

  /** Nothing, or a beginning of the full trace: never a reply before the run, nor an acknowledgement before the reply. */
  lemma TraceIsAllowed(transport: Transport, oneWay: bool, m: PulledMessage, c: Circumstances)
    ensures Allowed(transport, oneWay, m, Trace(transport, oneWay, m, c))
  {
    hide Encode, AddressAccepted, Response;
    var trace := Trace(transport, oneWay, m, c);
    var full := FullTrace(transport, oneWay, m, Response(c.callback.writes));
    assert trace != [] ==> trace == full[..|trace|];
  }

  method HandleMessage(session: Session, oneWay: bool, m: PulledMessage, c: Circumstances)
    modifies session
    ensures session.effects == old(session.effects) + Trace(session.transport, oneWay, m, c)
    ensures var writes := c.callback.writes;
            var response := if |writes| > 0 && writes[|writes| - 1].Some? then writes[|writes| - 1].value else [];
            var id := if "correlationId" in m.attributes then m.attributes["correlationId"] else "";
            var replyTo := if "replyTo" in m.attributes then m.attributes["replyTo"] else "";
            var body := Encode(session.transport, response);
            var handled := old(session.effects) + [Handled(m.data, response)];
            var dropped := if m.ackId != "" && c.dropped then [Dropped(m.ackId)] else [];
            if !c.callback.result.Done? then session.effects == old(session.effects)
            else if oneWay then session.effects == handled + dropped
            else if id == "" || !(if session.transport.Sqs? then replyTo != "" else IsValidResourceId(replyTo)) then
              session.effects == old(session.effects)
            else if body.Err? || c.delivery.Refused? then session.effects == handled
            else
              var answered := handled + [Stored(replyTo, body.value, map["correlationId" := id])];
              session.effects == if c.delivery.Delivered? then answered + dropped else answered
  {
    hide Encode, Response;
    var correlationId := Attribute(m.attributes, CORRELATION_ID);
    var replyTo := if oneWay then "" else Attribute(m.attributes, REPLY_TO);
    assert session.effects + [] == session.effects;
    if !oneWay && (correlationId == "" || !AddressAccepted(session.transport, replyTo)) {
      return;
    }
    var response := session.ProcessMessage(m.data, c.callback);
    if !c.callback.result.Done? {
      return;
    }
    if replyTo != "" {
      var sent := session.Publish(replyTo, response, map[CORRELATION_ID := correlationId], c.delivery);
      if !sent {
        return;
      }
    }
    if m.ackId == "" {
      return;
    }
    session.Acknowledge(m.ackId, c.dropped);
  }

  // ----- a handling is a run of the protocol -----

  function MessageOf(m: PulledMessage, body: string): Message {
    Message(Attribute(m.attributes, CORRELATION_ID), Attribute(m.attributes, REPLY_TO), body)
  }

  function EventOf(w: nat, n: nat, e: Effect): Event {
    match e
    case Handled(request, response) => Ran(w, n, request, response)
    case Stored(topic, body, attributes) => Sent(w, n, Reply(topic, Attribute(attributes, CORRELATION_ID), body))
    case Dropped(_) => Acked(w, n)
  }

  function EventsOf(w: nat, n: nat, trace: seq<Effect>): seq<Event> {
    seq(|trace|, i requires 0 <= i < |trace| => EventOf(w, n, trace[i]))
  }

  /** The steps that a server takes which leaves this trace. */
  function Steps(w: nat, trace: seq<Effect>): seq<Action> {
    if trace == [] then [Drop(w)]
    else
      var process := Process(w, if trace[0].Handled? then trace[0].response else []);
      if |trace| == 1 then [process, Drop(w)]
      else if trace[1].Dropped? then [process, Acknowledge(w)]
      else if |trace| == 2 then [process, Answer(w, false)]
      else [process, Answer(w, true), Acknowledge(w)]
  }

  /** Whatever HandleMessage does with a message it holds, it takes steps of the protocol that leave just that in the log. */
  lemma {:induction false} HandlingIsARun(setup: Setup, s: State, w: nat, n: nat, m: PulledMessage, trace: seq<Effect>)
    requires Doing(s, w) == Holding(n) && n in s.requests
    requires s.requests[n] == MessageOf(m, s.requests[n].body) && Decode(setup.transport, s.requests[n].body) == Ok(m.data)
    requires Allowed(setup.transport, setup.oneWayServer(w), m, trace)
    ensures Possible(setup, s, Steps(w, trace))
    ensures var end := After(setup, s, Steps(w, trace));
            && end.log == s.log + EventsOf(w, n, trace) && Doing(end, w) == Idle
            && end.outstanding == (if Dropped(m.ackId) in trace then s.outstanding - {n} else s.outstanding)
  {
    hide Encode, Decode, Step, Enabled, Possible, After, RpcProtocol.Acceptable;
    var actions, oneWay := Steps(w, trace), setup.oneWayServer(w);
    if trace == [] {
      DropStep(setup, s, w);
      OneStep(setup, s, actions);
      assert s.log + EventsOf(w, n, trace) == s.log;
    } else {
      var response :| trace <= FullTrace(setup.transport, oneWay, m, response);
      var process := Process(w, response);
      ProcessStep(setup, s, w, n, m, response);
      var t := Step(setup, s, process);
      if |trace| == 1 {
        DropStep(setup, t, w);
        TwoSteps(setup, s, actions);
        assert trace == [Handled(m.data, response)];
      } else if oneWay {
        AckStep(setup, t, w, n);
        TwoSteps(setup, s, actions);
        assert trace == [Handled(m.data, response), Dropped(m.ackId)];
      } else {
        var stored := FullTrace(setup.transport, oneWay, m, response)[1];
        AnswerStep(setup, t, w, n, response, |trace| == 3);
        if |trace| == 2 {
          TwoSteps(setup, s, actions);
          assert trace == [Handled(m.data, response), stored];
        } else {
          AckStep(setup, Step(setup, t, Answer(w, true)), w, n);
          ThreeSteps(setup, s, actions);
          assert trace == [Handled(m.data, response), stored, Dropped(m.ackId)];
        }
      }
    }
  }

  lemma DropStep(setup: Setup, s: State, w: nat)
    ensures Enabled(setup, s, Drop(w))
    ensures var t := Step(setup, s, Drop(w)); Doing(t, w) == Idle && t.log == s.log && t.outstanding == s.outstanding
  {
  }

  lemma ProcessStep(setup: Setup, s: State, w: nat, n: nat, m: PulledMessage, response: Payload)
    requires Doing(s, w) == Holding(n) && n in s.requests && Answerable(setup.transport, setup.oneWayServer(w), m)
    requires s.requests[n] == MessageOf(m, s.requests[n].body) && Decode(setup.transport, s.requests[n].body) == Ok(m.data)
    ensures Enabled(setup, s, Process(w, response))
    ensures var t := Step(setup, s, Process(w, response));
            && Doing(t, w) == Processed(n, response) && t.requests == s.requests && t.outstanding == s.outstanding
            && t.log == s.log + [Ran(w, n, m.data, response)]
  {
    hide Decode, AddressAccepted;
  }

  lemma AnswerStep(setup: Setup, t: State, w: nat, n: nat, response: Payload, reported: bool)
    requires Doing(t, w) == Processed(n, response) && n in t.requests && !setup.oneWayServer(w)
    requires Encode(setup.transport, response).Ok?
    ensures Enabled(setup, t, Answer(w, reported))
    ensures var u := Step(setup, t, Answer(w, reported));
            && Doing(u, w) == (if reported then Answered(n, response) else Idle) && u.outstanding == t.outstanding
            && u.log == t.log + [Sent(w, n, ReplyOf(setup, t.requests[n], response))]
  {
    hide Encode;
  }

  lemma AckStep(setup: Setup, u: State, w: nat, n: nat)
    requires (Doing(u, w).Answered? || (Doing(u, w).Processed? && setup.oneWayServer(w))) && Doing(u, w).message == n
    ensures Enabled(setup, u, Acknowledge(w))
    ensures var v := Step(setup, u, Acknowledge(w));
            Doing(v, w) == Idle && v.outstanding == u.outstanding - {n} && v.log == u.log + [Acked(w, n)]
  {
  }

  lemma {:induction false} OneStep(setup: Setup, s: State, actions: seq<Action>)
    requires |actions| == 1 && Enabled(setup, s, actions[0])
    ensures Possible(setup, s, actions) && After(setup, s, actions) == Step(setup, s, actions[0])
  {
    hide Step, Enabled;
    assert actions[1..] == [];
  }

  lemma {:induction false} TwoSteps(setup: Setup, s: State, actions: seq<Action>)
    requires |actions| == 2 && Enabled(setup, s, actions[0]) && Enabled(setup, Step(setup, s, actions[0]), actions[1])
    ensures Possible(setup, s, actions) && After(setup, s, actions) == Step(setup, Step(setup, s, actions[0]), actions[1])
  {
    hide Step, Enabled;
    OneStep(setup, Step(setup, s, actions[0]), actions[1..]);
  }

  lemma {:induction false} ThreeSteps(setup: Setup, s: State, actions: seq<Action>)
    requires |actions| == 3 && Enabled(setup, s, actions[0]) && Enabled(setup, Step(setup, s, actions[0]), actions[1])
    requires Enabled(setup, Step(setup, Step(setup, s, actions[0]), actions[1]), actions[2])
    ensures Possible(setup, s, actions)
    ensures After(setup, s, actions) == Step(setup, Step(setup, Step(setup, s, actions[0]), actions[1]), actions[2])
  {
    hide Step, Enabled;
    TwoSteps(setup, Step(setup, s, actions[0]), actions[1..]);
  }

  // ----- one round of a dispatcher -----

  datatype PullResult =
    | Batch(messages: seq<PulledMessage>)
    | HttpError(status: int, text: string)
    | OtherError(text: string)

  /** A message without a correlation id is passed over. */
  function BatchOps(messages: seq<PulledMessage>): seq<PT.Op> {
    if messages == [] then []
    else
      var n := |messages| - 1;
      var m := messages[n];
      BatchOps(messages[..n]) +
      if CORRELATION_ID in m.attributes then [PT.Complete(m.attributes[CORRELATION_ID], m.data)] else []
  }

  function PullOps(pull: PullResult): seq<PT.Op> {
    match pull
    case Batch(messages) => BatchOps(messages)
    case HttpError(status, text) => if status != 429 && status < 500 && status != 0 then [PT.FailAll(text)] else []
    case OtherError(text) => [PT.FailAll(text)]
  }

  /** Nothing is pulled while nobody waits. */
  function RoundOps(t: PT.Table, pull: PullResult): seq<PT.Op> {
    if t.closed.Some? || t.slots == map[] then [] else PullOps(pull)
  }

  lemma AllFailed(t: PT.Table, text: string, id: string)
    requires id in t.slots
    ensures var after := PT.Step(t, PT.FailAll(text));
            && after.closed == t.closed && after.slots.Keys == t.slots.Keys
            && after.slots[id] == if t.slots[id].Waiting? then PT.Failed(text) else t.slots[id]
  {
  }

  ghost predicate Carries(messages: seq<PulledMessage>, id: string, n: nat) {
    n < |messages| && ("correlationId", id) in messages[n].attributes.Items
  }

  ghost predicate FirstCarries(messages: seq<PulledMessage>, id: string, n: nat) {
    Carries(messages, id, n) && forall i: nat :: i < n ==> !Carries(messages, id, i)
  }

  lemma {:induction false} BatchSlots(t: PT.Table, messages: seq<PulledMessage>, id: string)
    requires id in t.slots
    ensures var after := PT.Run(t, BatchOps(messages));
            && after.closed == t.closed && after.slots.Keys == t.slots.Keys
            && ((forall i: nat :: i < |messages| ==> !Carries(messages, id, i)) ==> after.slots[id] == t.slots[id])
            && forall n: nat :: FirstCarries(messages, id, n) ==>
                 after.slots[id] == if t.slots[id].Waiting? then PT.Replied(messages[n].data) else t.slots[id]
    decreases |messages|
  {
    hide PT.Run, BatchOps, Carries;
    if messages == [] {
      NoBatch(messages);
      PT.NoRun(t);
      assert forall n: nat :: Carries(messages, id, n) ==> n < |messages| by { CarriesBound(messages, id); }
    } else {
      var last := |messages| - 1;
      BatchSlots(t, messages[..last], id);
      LastMessage(t, messages, id);
      CarriesBefore(messages, id);
      forall n: nat | FirstCarries(messages, id, n)
        ensures PT.Run(t, BatchOps(messages)).slots[id] ==
                if t.slots[id].Waiting? then PT.Replied(messages[n].data) else t.slots[id]
      {
        if n < last {
          assert FirstCarries(messages[..last], id, n);
        }
      }
    }
  }

  lemma CarriesBound(messages: seq<PulledMessage>, id: string)
    ensures forall n: nat :: Carries(messages, id, n) ==> n < |messages|
  {
  }

  lemma CarriesBefore(messages: seq<PulledMessage>, id: string)
    requires messages != []
    ensures var last := |messages| - 1;
            && (forall n: nat :: Carries(messages, id, n) ==> n <= last)
            && (forall n: nat :: n < last ==> Carries(messages[..last], id, n) == Carries(messages, id, n))
  {
  }

  lemma LastMessage(t: PT.Table, messages: seq<PulledMessage>, id: string)
    requires messages != [] && id in PT.Run(t, BatchOps(messages[..|messages| - 1])).slots
    ensures var last := |messages| - 1;
            var (before, after) := (PT.Run(t, BatchOps(messages[..last])), PT.Run(t, BatchOps(messages)));
            && after.closed == before.closed && after.slots.Keys == before.slots.Keys
            && after.slots[id] ==
               if before.slots[id].Waiting? && Carries(messages, id, last) then PT.Replied(messages[last].data) else before.slots[id]
  {
    hide PT.Run, BatchOps;
    var last := |messages| - 1;
    var m, ops := messages[last], BatchOps(messages[..last]);
    OneMessage(messages, last);
    assert messages[..last + 1] == messages;
    if CORRELATION_ID in m.attributes {
      var op := PT.Complete(m.attributes[CORRELATION_ID], m.data);
      PT.RunAppend(t, ops, [op]);
      PT.OneRun(PT.Run(t, ops), op);
    }
  }

  /**
  What a round does to a slot. A batch completes the waiting slots it has a message for, with the first one; a status of
  429, none, or 500 and more changes nothing; any other error fails all that wait.
  */
  lemma RoundSlots(t: PT.Table, pull: PullResult, id: string)
    requires id in t.slots && t.closed.None?
    ensures var (slot, after) := (t.slots[id], PT.Run(t, RoundOps(t, pull)));
            && after.closed == t.closed && after.slots.Keys == t.slots.Keys
            && match pull
               case Batch(messages) =>
                 && ((forall i :: 0 <= i < |messages| ==> ("correlationId", id) !in messages[i].attributes.Items) ==>
                       after.slots[id] == slot)
                 && forall n: nat | n < |messages| && ("correlationId", id) in messages[n].attributes.Items
                      && (forall i :: 0 <= i < n ==> ("correlationId", id) !in messages[i].attributes.Items) ::
                      after.slots[id] == if slot.Waiting? then PT.Replied(messages[n].data) else slot
               case HttpError(status, text) =>
                 after.slots[id] ==
                 if slot.Waiting? && status != 429 && status != 0 && status < 500 then PT.Failed(text) else slot
               case OtherError(text) => after.slots[id] == if slot.Waiting? then PT.Failed(text) else slot
  {
    hide PT.Run, PT.Step, BatchOps;
    match pull
    case Batch(messages) =>
      BatchSlots(t, messages, id);
      forall n: nat | n < |messages| && ("correlationId", id) in messages[n].attributes.Items
        && (forall i :: 0 <= i < n ==> ("correlationId", id) !in messages[i].attributes.Items)
        ensures FirstCarries(messages, id, n)
      {
      }
    case HttpError(_, text) =>
      PT.NoRun(t);
      PT.OneRun(t, PT.FailAll(text));
      AllFailed(t, text, id);
    case OtherError(text) =>
      PT.OneRun(t, PT.FailAll(text));
      AllFailed(t, text, id);
  }

  method DispatchRound(table: PendingReplies.Table, pull: PullResult)
    requires table.Valid()
    modifies table.slots.Values
    ensures table.Valid() && table.Abs() == PT.Run(old(table.Abs()), RoundOps(old(table.Abs()), pull))
    ensures table.Abs().closed == old(table.Abs()).closed && table.Abs().slots.Keys == old(table.Abs()).slots.Keys
    ensures old(table.Abs()).closed.Some? ==> table.Abs() == old(table.Abs())
    ensures forall id :: id in old(table.Abs()).slots && old(table.Abs()).closed.None? ==>
              var (slot, after) := (old(table.Abs()).slots[id], table.Abs().slots[id]);
              match pull
              case Batch(messages) =>
                && ((forall i :: 0 <= i < |messages| ==> ("correlationId", id) !in messages[i].attributes.Items) ==>
                      after == slot)
                && forall n: nat | n < |messages| && ("correlationId", id) in messages[n].attributes.Items
                     && (forall i :: 0 <= i < n ==> ("correlationId", id) !in messages[i].attributes.Items) ::
                     after == if slot.Waiting? then PT.Replied(messages[n].data) else slot
              case HttpError(status, text) =>
                after == if slot.Waiting? && status != 429 && status != 0 && status < 500 then PT.Failed(text) else slot
              case OtherError(text) => after == if slot.Waiting? then PT.Failed(text) else slot
  {
    hide PT.Run, PT.Step;
    ghost var before := table.Abs();
    PT.NoRun(before);
    forall id | id in before.slots && before.closed.None? {
      RoundSlots(before, pull, id);
    }
    PullAndFinish(table, pull);
  }

  /** The round, as operations on the table one after the other. */
  method PullAndFinish(table: PendingReplies.Table, pull: PullResult)
    requires table.Valid()
    modifies table.slots.Values
    ensures table.Valid() && table.Abs() == PT.Run(old(table.Abs()), RoundOps(old(table.Abs()), pull))
  {
    hide PT.Run, PT.Step;
    PT.NoRun(table.Abs());
    var pending := table.WaitForPending();
    if !pending {
      return;
    }
    match pull
    case HttpError(status, text) =>
      if status != 429 && status < 500 && status != 0 {
        PT.OneRun(table.Abs(), PT.FailAll(text));
        table.FailAll(text);
      }
    case OtherError(text) =>
      PT.OneRun(table.Abs(), PT.FailAll(text));
      table.FailAll(text);
    case Batch(messages) =>
      CompleteBatch(table, messages);
  }

  method CompleteBatch(table: PendingReplies.Table, messages: seq<PulledMessage>)
    requires table.Valid()
    modifies table.slots.Values
    ensures table.Valid() && table.Abs() == PT.Run(old(table.Abs()), BatchOps(messages))
  {
    hide PT.Run, PT.Step, BatchOps;
    PT.NoRun(table.Abs());
    NoBatch(messages);
    for i := 0 to |messages|
      invariant table.Valid() && table.Abs() == PT.Run(old(table.Abs()), BatchOps(messages[..i]))
    {
      OneMessage(messages, i);
      if CORRELATION_ID in messages[i].attributes {
        var op := PT.Complete(messages[i].attributes[CORRELATION_ID], messages[i].data);
        PT.RunAppend(old(table.Abs()), BatchOps(messages[..i]), [op]);
        PT.OneRun(table.Abs(), op);
        var _ := table.Complete(op.id, op.payload);
      }
    }
    assert messages[..|messages|] == messages;
  }

  lemma NoBatch(messages: seq<PulledMessage>)
    ensures BatchOps(messages[..0]) == []
  {
  }

  lemma OneMessage(messages: seq<PulledMessage>, i: nat)
    requires i < |messages|
    ensures var (m, ops) := (messages[i], BatchOps(messages[..i]));
            BatchOps(messages[..i + 1]) ==
            if CORRELATION_ID in m.attributes then ops + [PT.Complete(m.attributes[CORRELATION_ID], m.data)] else ops
  {
    assert messages[..i + 1][..i] == messages[..i];
    assert BatchOps(messages[..i]) + [] == BatchOps(messages[..i]);
  }

  /** A reply taken from an SQS queue, and the error of its deletion, if that failed. */
  datatype Received = Received(correlationId: string, body: string, deleteError: Option<string>)

  function ReceivedOp(m: Received): PT.Op {
    if m.deleteError.Some? then PT.Fail(m.correlationId, m.deleteError.value)
    else
      match Decode(Sqs, m.body)
      case Ok(payload) => PT.Complete(m.correlationId, payload)
      case Err(message) => PT.Fail(m.correlationId, message)
  }

  function ReceivedOps(messages: seq<Received>): seq<PT.Op> {
    seq(|messages|, i requires 0 <= i < |messages| => ReceivedOp(messages[i]))
  }

  function SqsRoundOps(t: PT.Table, received: Result<seq<Received>>): seq<PT.Op> {
    if t.closed.Some? || t.slots == map[] then []
    else if received.Err? then [PT.FailAll(received.message)]
    else ReceivedOps(received.value)
  }

  lemma {:induction false} FinishingKeeps(t: PT.Table, ops: seq<PT.Op>)
    requires forall i :: 0 <= i < |ops| ==> ops[i].Complete? || ops[i].Fail?
    ensures PT.Run(t, ops).closed == t.closed && PT.Run(t, ops).slots.Keys == t.slots.Keys
    decreases |ops|
  {
    hide PT.Run;
    if ops == [] {
      PT.NoRun(t);
    } else {
      PT.RunUnfold(t, ops);
      FinishingKeeps(PT.Step(t, ops[0]), ops[1..]);
    }
  }

  /** The first reply received for a waiting slot completes it, or fails it when it could not be deleted or decoded. */
  lemma SqsRoundSlots(t: PT.Table, received: Result<seq<Received>>, id: string)
    requires id in t.slots && t.closed.None?
    ensures var (slot, after) := (t.slots[id], PT.Run(t, SqsRoundOps(t, received)));
            && after.closed == t.closed && after.slots.Keys == t.slots.Keys
            && match received
               case Err(error) => after.slots[id] == if slot.Waiting? then PT.Failed(error) else slot
               case Ok(messages) =>
                 && ((forall i :: 0 <= i < |messages| ==> messages[i].correlationId != id) ==> after.slots[id] == slot)
                 && forall n: nat | n < |messages| && messages[n].correlationId == id
                      && (forall i :: 0 <= i < n ==> messages[i].correlationId != id) ::
                      after.slots[id] ==
                      if !slot.Waiting? then slot
                      else if messages[n].deleteError.Some? then PT.Failed(messages[n].deleteError.value)
                      else
                        match Decode(Sqs, messages[n].body)
                        case Ok(payload) => PT.Replied(payload)
                        case Err(error) => PT.Failed(error)
  {
    hide PT.Run, PT.Step, Decode;
    match received
    case Err(error) =>
      PT.OneRun(t, PT.FailAll(error));
      AllFailed(t, error, id);
    case Ok(messages) =>
      var ops := ReceivedOps(messages);
      FinishingKeeps(t, ops);
      PT.SlotHistory(t, id, ops);
      forall n: nat | n < |messages| && messages[n].correlationId == id
        && (forall i :: 0 <= i < n ==> messages[i].correlationId != id)
        ensures PT.FirstWrite(ops, id, n)
      {
      }
  }

  method DispatchSqsRound(table: PendingReplies.Table, received: Result<seq<Received>>)
    requires table.Valid()
    modifies table.slots.Values
    ensures table.Valid() && table.Abs() == PT.Run(old(table.Abs()), SqsRoundOps(old(table.Abs()), received))
    ensures table.Abs().closed == old(table.Abs()).closed && table.Abs().slots.Keys == old(table.Abs()).slots.Keys
    ensures old(table.Abs()).closed.Some? ==> table.Abs() == old(table.Abs())
    ensures forall id :: id in old(table.Abs()).slots && old(table.Abs()).closed.None? ==>
              var (slot, after) := (old(table.Abs()).slots[id], table.Abs().slots[id]);
              match received
              case Err(error) => after == if slot.Waiting? then PT.Failed(error) else slot
              case Ok(messages) =>
                && ((forall i :: 0 <= i < |messages| ==> messages[i].correlationId != id) ==> after == slot)
                && forall n: nat | n < |messages| && messages[n].correlationId == id
                     && (forall i :: 0 <= i < n ==> messages[i].correlationId != id) ::
                     after ==
                     if !slot.Waiting? then slot
                     else if messages[n].deleteError.Some? then PT.Failed(messages[n].deleteError.value)
                     else
                       match Decode(Sqs, messages[n].body)
                       case Ok(payload) => PT.Replied(payload)
                       case Err(error) => PT.Failed(error)
  {
    hide PT.Run, PT.Step, Decode, ReceivedOps;
    ghost var before := table.Abs();
    PT.NoRun(before);
    forall id | id in before.slots && before.closed.None? {
      SqsRoundSlots(before, received, id);
    }
    ReceiveAndFinish(table, received);
  }

  /** The round, as operations on the table one after the other. */
  method ReceiveAndFinish(table: PendingReplies.Table, received: Result<seq<Received>>)
    requires table.Valid()
    modifies table.slots.Values
    ensures table.Valid() && table.Abs() == PT.Run(old(table.Abs()), SqsRoundOps(old(table.Abs()), received))
  {
    hide PT.Run, PT.Step, ReceivedOps;
    PT.NoRun(table.Abs());
    var pending := table.WaitForPending();
    if !pending {
      return;
    }
    if received.Err? {
      PT.OneRun(table.Abs(), PT.FailAll(received.message));
      table.FailAll(received.message);
      return;
    }
    FinishReceived(table, received.value);
  }

  method FinishReceived(table: PendingReplies.Table, messages: seq<Received>)
    requires table.Valid()
    modifies table.slots.Values
    ensures table.Valid() && table.Abs() == PT.Run(old(table.Abs()), ReceivedOps(messages))
  {
    hide PT.Run, PT.Step, Decode;
    PT.NoRun(table.Abs());
    assert ReceivedOps(messages[..0]) == [];
    for i := 0 to |messages|
      invariant table.Valid() && table.Abs() == PT.Run(old(table.Abs()), ReceivedOps(messages[..i]))
    {
      var m := messages[i];
      assert ReceivedOps(messages[..i + 1]) == ReceivedOps(messages[..i]) + [ReceivedOp(m)];
      PT.RunAppend(old(table.Abs()), ReceivedOps(messages[..i]), [ReceivedOp(m)]);
      PT.OneRun(table.Abs(), ReceivedOp(m));
      if m.deleteError.Some? {
        var _ := table.Fail(m.correlationId, m.deleteError.value);
        continue;
      }
      match Decode(Sqs, m.body)
      case Ok(payload) =>
        var _ := table.Complete(m.correlationId, payload);
      case Err(message) =>
        var _ := table.Fail(m.correlationId, message);
    }
    assert messages[..|messages|] == messages;
  }

  // ----- a round is a run of the protocol -----

  /** The operation fails slots, or completes one with a reply that the client's broker has for it. */
  ghost predicate Legitimate(setup: Setup, replies: set<Reply>, c: nat, op: PT.Op) {
    match op
    case Fail(_, _) => true
    case FailAll(_) => true
    case Complete(id, payload) =>
      exists r :: r in replies && r.topic == setup.client(c).replyTo && r.correlationId == id
                  && Decode(setup.transport, r.body) == Ok(payload)
    case _ => false
  }

  /** The operations of a round are steps of the protocol and have the same effect on the client's table. */
  lemma {:induction false} RoundIsARun(setup: Setup, s: State, c: nat, ops: seq<PT.Op>) returns (actions: seq<Action>)
    requires !setup.client(c).oneWay && forall i :: 0 <= i < |ops| ==> Legitimate(setup, s.replies, c, ops[i])
    ensures Possible(setup, s, actions) && Pending(After(setup, s, actions), c) == PT.Run(Pending(s, c), ops)
    decreases |ops|
  {
    hide Step, Enabled, Legitimate, PT.Step;
    if ops == [] {
      actions := [];
    } else {
      var a := OpIsAStep(setup, s, c, ops[0]);
      var rest := RoundIsARun(setup, Step(setup, s, a), c, ops[1..]);
      actions := [a] + rest;
      assert actions[1..] == rest;
    }
  }

  lemma {:induction false} OpIsAStep(setup: Setup, s: State, c: nat, op: PT.Op) returns (a: Action)
    requires !setup.client(c).oneWay && Legitimate(setup, s.replies, c, op)
    ensures Enabled(setup, s, a)
    ensures Pending(Step(setup, s, a), c) == PT.Step(Pending(s, c), op) && Step(setup, s, a).replies == s.replies
  {
    hide Decode, PT.Step;
    match op
    case Fail(id, error) => a := FailOne(c, id, error);
    case FailAll(error) => a := RpcProtocol.FailAll(c, error);
    case Complete(id, payload) =>
      var r :| r in s.replies && r.topic == setup.client(c).replyTo && r.correlationId == id
               && Decode(setup.transport, r.body) == Ok(payload);
      a := Deliver(c, r);
  }

  /** The message is a reply that the broker has for the client. */
  ghost predicate PulledFrom(setup: Setup, replies: set<Reply>, c: nat, m: PulledMessage) {
    exists r :: r in replies && r.topic == setup.client(c).replyTo && Decode(setup.transport, r.body) == Ok(m.data)
                && r.correlationId == Attribute(m.attributes, CORRELATION_ID)
  }

  ghost predicate ReceivedFrom(setup: Setup, replies: set<Reply>, c: nat, m: Received) {
    exists r :: r in replies && r.topic == setup.client(c).replyTo && r.body == m.body && r.correlationId == m.correlationId
  }

  lemma {:induction false} BatchIsLegitimate(setup: Setup, replies: set<Reply>, c: nat, messages: seq<PulledMessage>)
    requires forall i :: 0 <= i < |messages| ==> PulledFrom(setup, replies, c, messages[i])
    ensures forall i :: 0 <= i < |BatchOps(messages)| ==> Legitimate(setup, replies, c, BatchOps(messages)[i])
    decreases |messages|
  {
    hide Decode;
    if messages != [] {
      var n := |messages| - 1;
      BatchIsLegitimate(setup, replies, c, messages[..n]);
      assert PulledFrom(setup, replies, c, messages[n]);
    }
  }

  lemma {:induction false} ReceivedIsLegitimate(setup: Setup, replies: set<Reply>, c: nat, messages: seq<Received>)
    requires setup.transport.Sqs? && forall i :: 0 <= i < |messages| ==> ReceivedFrom(setup, replies, c, messages[i])
    ensures forall i :: 0 <= i < |messages| ==> Legitimate(setup, replies, c, ReceivedOps(messages)[i])
  {
    hide Decode;
    forall i | 0 <= i < |messages|
      ensures Legitimate(setup, replies, c, ReceivedOps(messages)[i])
    {
      assert ReceivedFrom(setup, replies, c, messages[i]);
    }
  }

  /** What DispatchRound does with replies of the client's own subscription, the protocol can do. */
  lemma {:induction false} DispatchingIsARun(setup: Setup, s: State, c: nat, pull: PullResult) returns (actions: seq<Action>)
    requires !setup.client(c).oneWay
    requires pull.Batch? ==> forall i :: 0 <= i < |pull.messages| ==> PulledFrom(setup, s.replies, c, pull.messages[i])
    ensures Possible(setup, s, actions)
    ensures Pending(After(setup, s, actions), c) == PT.Run(Pending(s, c), RoundOps(Pending(s, c), pull))
  {
    hide Possible, After, BatchOps, PT.Run;
    if pull.Batch? {
      BatchIsLegitimate(setup, s.replies, c, pull.messages);
    }
    actions := RoundIsARun(setup, s, c, RoundOps(Pending(s, c), pull));
  }

  /** And so for DispatchSqsRound. */
  lemma {:induction false} SqsDispatchingIsARun(setup: Setup, s: State, c: nat, received: Result<seq<Received>>)
    returns (actions: seq<Action>)
    requires setup.transport.Sqs? && !setup.client(c).oneWay
    requires received.Ok? ==> forall i :: 0 <= i < |received.value| ==> ReceivedFrom(setup, s.replies, c, received.value[i])
    ensures Possible(setup, s, actions)
    ensures Pending(After(setup, s, actions), c) == PT.Run(Pending(s, c), SqsRoundOps(Pending(s, c), received))
  {
    hide Possible, After, ReceivedOps, PT.Run;
    if received.Ok? {
      ReceivedIsLegitimate(setup, s.replies, c, received.value);
      ReceivedLength(received.value);
    }
    actions := RoundIsARun(setup, s, c, SqsRoundOps(Pending(s, c), received));
  }

  lemma ReceivedLength(messages: seq<Received>)
    ensures |ReceivedOps(messages)| == |messages|
  {
  }

  // ----- a client publishes a request -----

  /** How the broker answers one publish: in time says whether the five seconds for retries have not passed. */
  datatype Answer = Taken | NotFound(stored: bool, inTime: bool) | Failed(stored: bool)

  predicate Retried(a: Answer) {
    a.NotFound? && a.inTime
  }

  function DeliveryOf(a: Answer): Delivery {
    if a.Taken? then Delivered else if a.stored then StoredButFailed else Delivery.Refused
  }

  /** What the broker stores until an answer ends the loop. */
  function Copies(copy: Effect, answers: seq<Answer>): seq<Effect> {
    if answers == [] then []
    else
      var a := answers[0];
      StoredOnce(copy, a) + if Retried(a) then Copies(copy, answers[1..]) else []
  }

  function Ending(answers: seq<Answer>): Option<Answer> {
    if answers == [] then None else if Retried(answers[0]) then Ending(answers[1..]) else Some(answers[0])
  }

  /** The first answer that is not a miss within the time ends the loop, and the broker holds one copy for each that stored. */
  lemma {:induction false} CopiesCounted(copy: Effect, answers: seq<Answer>, n: nat)
    requires n < |answers| && !(answers[n].NotFound? && answers[n].inTime)
    requires forall i :: 0 <= i < n ==> answers[i].NotFound? && answers[i].inTime
    ensures Ending(answers) == Some(answers[n])
    ensures |Copies(copy, answers)| == |set i | 0 <= i <= n && (answers[i].Taken? || answers[i].stored)|
    ensures forall k :: 0 <= k < |Copies(copy, answers)| ==> Copies(copy, answers)[k] == copy
  {
    CopiesFrom(copy, answers, 0, n);
    assert answers[0..] == answers;
  }

  lemma {:induction false} CopiesFrom(copy: Effect, answers: seq<Answer>, k: nat, n: nat)
    requires k <= n < |answers| && !Retried(answers[n]) && forall i :: 0 <= i < n ==> Retried(answers[i])
    ensures Ending(answers[k..]) == Some(answers[n])
    ensures |Copies(copy, answers[k..])| == |set i | k <= i <= n && (answers[i].Taken? || answers[i].stored)|
    ensures forall j :: 0 <= j < |Copies(copy, answers[k..])| ==> Copies(copy, answers[k..])[j] == copy
    decreases n - k
  {
    hide Copies, Ending;
    Unfolded(copy, answers, k);
    var stored := answers[k].Taken? || answers[k].stored;
    var all := set i | k <= i <= n && (answers[i].Taken? || answers[i].stored);
    if k == n {
      assert all == if stored then {n} else {};
    } else {
      CopiesFrom(copy, answers, k + 1, n);
      var rest := set i | k + 1 <= i <= n && (answers[i].Taken? || answers[i].stored);
      assert all == if stored then {k} + rest else rest;
    }
  }

  lemma {:induction false} Unfolded(copy: Effect, answers: seq<Answer>, k: nat)
    requires k < |answers|
    ensures Copies(copy, answers[k..]) ==
            (if answers[k].Taken? || answers[k].stored then [copy] else []) +
            (if Retried(answers[k]) then Copies(copy, answers[k + 1..]) else [])
    ensures Ending(answers[k..]) == if Retried(answers[k]) then Ending(answers[k + 1..]) else Some(answers[k])
  {
    assert answers[k..][0] == answers[k] && answers[k..][1..] == answers[k + 1..];
  }

  /** The loop of Call, for a request that is not too long: the answers go on until one is not retried. */
  method PublishRequest(session: Session, topic: string, data: Payload, attributes: map<string, string>, answers: seq<Answer>)
    returns (ok: bool)
    requires Encode(session.transport, data).Ok? && Ending(answers).Some?
    modifies session
    ensures ok == Ending(answers).value.Taken?
    ensures session.effects ==
            old(session.effects) + Copies(Stored(topic, Encode(session.transport, data).value, attributes), answers)
    ensures forall n: nat | n < |answers| && !(answers[n].NotFound? && answers[n].inTime)
              && (forall i :: 0 <= i < n ==> answers[i].NotFound? && answers[i].inTime) ::
              && ok == answers[n].Taken? && old(session.effects) <= session.effects
              && |session.effects| == |old(session.effects)| + |set i | 0 <= i <= n && (answers[i].Taken? || answers[i].stored)|
  {
    hide Encode, Copies, Ending;
    forall n: nat | n < |answers| && !Retried(answers[n]) && forall i :: 0 <= i < n ==> Retried(answers[i]) {
      CopiesCounted(Stored(topic, Encode(session.transport, data).value, attributes), answers, n);
    }
    ghost var copy := Stored(topic, Encode(session.transport, data).value, attributes);
    var k := 0;
    assert answers[0..] == answers;
    FirstAnswer(copy, answers, 0);
    while true
      invariant k < |answers| && Ending(answers[k..]).Some? && Ending(answers[k..]) == Ending(answers)
      invariant session.effects + Copies(copy, answers[k..]) == old(session.effects) + Copies(copy, answers)
      decreases |answers| - k
    {
      FirstAnswer(copy, answers, k);
      ghost var before := session.effects;
      ok := session.Publish(topic, data, attributes, DeliveryOf(answers[k]));
      if ok {
        return true;
      }
      if !Retried(answers[k]) {
        return false;
      }
      Shifted(before, StoredOnce(copy, answers[k]), Copies(copy, answers[k + 1..]));
      k := k + 1;
    }
  }

  function StoredOnce(copy: Effect, a: Answer): seq<Effect> {
    if DeliveryOf(a).Refused? then [] else [copy]
  }

  lemma Shifted(a: seq<Effect>, b: seq<Effect>, c: seq<Effect>)
    ensures a + (b + c) == a + b + c
  {
  }

  lemma {:induction false} FirstAnswer(copy: Effect, answers: seq<Answer>, k: nat)
    requires k <= |answers| && Ending(answers[k..]).Some?
    ensures k < |answers|
    ensures if Retried(answers[k]) then
              && k + 1 < |answers| && Ending(answers[k + 1..]) == Ending(answers[k..])
              && Copies(copy, answers[k..]) == StoredOnce(copy, answers[k]) + Copies(copy, answers[k + 1..])
            else Ending(answers[k..]) == Some(answers[k]) && Copies(copy, answers[k..]) == StoredOnce(copy, answers[k])
  {
    var a := answers[k..][0];
    assert answers[k..][1..] == answers[k + 1..] && a == answers[k];
    assert StoredOnce(copy, a) + [] == StoredOnce(copy, a);
  }

  // ----- publishing is a run of the protocol -----

  function AttributesOf(m: Message): map<string, string> {
    if m.replyTo == "" then map[CORRELATION_ID := m.correlationId]
    else map[CORRELATION_ID := m.correlationId, REPLY_TO := m.replyTo]
  }

  function SendOf(id: string, n: nat, a: Answer): Action {
    var outcome := if a.Taken? then Accepted else if Retried(a) then Again else SendOutcome.Refused("publish failed");
    Send(id, n, !DeliveryOf(a).Refused?, outcome)
  }

  function SendSteps(id: string, n: nat, answers: seq<Answer>): seq<Action>
    decreases |answers|
  {
    if answers == [] then []
    else [SendOf(id, n, answers[0])] + if Retried(answers[0]) then SendSteps(id, n + 1, answers[1..]) else []
  }

  /** The events say that the broker stored these copies, in this order, as new messages. */
  ghost predicate StoredAs(copies: seq<Effect>, events: seq<Event>, m: Message) {
    && |events| == |copies|
    && forall i :: 0 <= i < |copies| ==>
         && events[i].Published? && events[i].content == m
         && copies[i].Stored? && copies[i].body == m.body && copies[i].attributes == AttributesOf(m)
  }

  /** Whatever PublishRequest does for a call, the call does in the protocol: the same copies, and then it waits or has failed. */
  lemma {:induction false} PublishingIsARun(setup: Setup, s: State, id: string, n: nat, topic: string, answers: seq<Answer>)
    returns (events: seq<Event>)
    requires setup.transport.PubSub? && id in s.calls && s.calls[id].phase.Sending? && Encode(setup.transport, s.calls[id].request).Ok?
    requires Ending(answers).Some? && forall k: nat :: n <= k ==> k !in s.requests
    ensures var m := RequestOf(setup, id, s.calls[id]);
            var copy := Stored(topic, m.body, AttributesOf(m));
            && Possible(setup, s, SendSteps(id, n, answers))
            && var end := After(setup, s, SendSteps(id, n, answers));
               && end.log == s.log + events && StoredAs(Copies(copy, answers), events, m)
               && id in end.calls && end.calls[id].phase ==
                  if Ending(answers).value.Taken? then Waiting else Ended(Threw("publish failed"))
    decreases |answers|
  {
    hide Encode, Step, Enabled, Possible, After, RequestOf, AttributesOf, StoredAs, Copies, Ending, SendOf;
    FirstAnswer(Stored(topic, "", map[]), answers, 0);
    assert answers[0..] == answers;
    var steps, a := SendSteps(id, n, answers), answers[0];
    SendStep(setup, s, id, n, a);
    var t := Step(setup, s, steps[0]);
    var m := RequestOf(setup, id, s.calls[id]);
    var first := if DeliveryOf(a).Refused? then [] else [Published(n, m)];
    var copy := Stored(topic, m.body, AttributesOf(m));
    if Retried(a) {
      SameRequest(setup, id, s.calls[id], t.calls[id]);
      var rest := PublishingIsARun(setup, t, id, n + 1, topic, answers[1..]);
      events := first + rest;
      StepThen(setup, s, steps);
      assert steps[1..] == SendSteps(id, n + 1, answers[1..]);
      assert s.log + first + rest == s.log + (first + rest);
      StoredFirst(answers, copy, n, m, rest);
    } else {
      events := first;
      OneStep(setup, s, steps);
      StoredFirst(answers, copy, n, m, []);
      assert first + [] == first;
    }
  }

  lemma {:induction false} StoredFirst(answers: seq<Answer>, copy: Effect, n: nat, m: Message, rest: seq<Event>)
    requires answers != [] && copy.Stored? && copy.body == m.body && copy.attributes == AttributesOf(m)
    requires if Retried(answers[0]) then StoredAs(Copies(copy, answers[1..]), rest, m) else rest == []
    ensures StoredAs(Copies(copy, answers), (if DeliveryOf(answers[0]).Refused? then [] else [Published(n, m)]) + rest, m)
  {
    hide AttributesOf;
  }

  lemma {:induction false} StepThen(setup: Setup, s: State, actions: seq<Action>)
    requires actions != [] && Enabled(setup, s, actions[0]) && Possible(setup, Step(setup, s, actions[0]), actions[1..])
    ensures Possible(setup, s, actions) && After(setup, s, actions) == After(setup, Step(setup, s, actions[0]), actions[1..])
  {
    hide Step, Enabled;
  }

  lemma SameRequest(setup: Setup, id: string, a: Call, b: Call)
    requires Encode(setup.transport, a.request).Ok? && a.request == b.request && a.client == b.client
    ensures RequestOf(setup, id, a) == RequestOf(setup, id, b)
  {
    hide Encode;
  }

  lemma {:induction false} SendStep(setup: Setup, s: State, id: string, n: nat, a: Answer)
    requires setup.transport.PubSub? && id in s.calls && s.calls[id].phase.Sending? && Encode(setup.transport, s.calls[id].request).Ok?
    requires forall k: nat :: n <= k ==> k !in s.requests
    ensures var send := SendOf(id, n, a);
            && Enabled(setup, s, send)
            && var t := Step(setup, s, send);
               && t.log == s.log + (if DeliveryOf(a).Refused? then [] else [Published(n, RequestOf(setup, id, s.calls[id]))])
               && id in t.calls && t.calls[id].request == s.calls[id].request && t.calls[id].client == s.calls[id].client
               && (forall k: nat :: n + 1 <= k ==> k !in t.requests)
               && t.calls[id].phase ==
                  (if a.Taken? then Waiting else if Retried(a) then Sending else Ended(Threw("publish failed")))
  {
    hide Encode, RequestOf, PT.Step;
    assert s.log + [] == s.log;
  }
}
