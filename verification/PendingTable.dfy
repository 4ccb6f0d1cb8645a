/**
The state of a PendingReplies object as a value, its operations as steps on that value (each runs under the
object's one mutex), and what holds over whole runs of such steps.
*/
module PendingTable {
  import opened Wrappers

  type Payload = seq<bv8>

  /** A slot: not done, done with a payload, or done with an error. */
  datatype Outcome = Waiting | Replied(payload: Payload) | Failed(error: string)

  datatype Table = Table(slots: map<string, Outcome>, closed: Option<string>)

  const EMPTY := Table(map[], None)

  datatype Op =
    | Register(id: string)
    | Complete(id: string, payload: Payload)
    | Fail(id: string, error: string)
    | FailAll(error: string)
    | Close(error: string)
    | Wait(id: string)
    | Remove(id: string)

  /** Why a registration throws, if it does. */
  function Rejection(t: Table, id: string): Option<string> {
    if t.closed.Some? then t.closed
    else if id in t.slots then Some("duplicate correlation id " + id)
    else None
  }

  function MarkDone(slot: Outcome, outcome: Outcome): Outcome {
    if slot.Waiting? then outcome else slot
  }

  function MarkAllDone(slots: map<string, Outcome>, outcome: Outcome): map<string, Outcome> {
    map id | id in slots :: MarkDone(slots[id], outcome)
  }

  function Finish(t: Table, id: string, outcome: Outcome): Table {
    if id in t.slots then t.(slots := t.slots[id := MarkDone(t.slots[id], outcome)]) else t
  }

  /** A reply that was waited for is moved out of its slot. */
  function Taken(slot: Outcome): Outcome {
    if slot.Replied? then Replied([]) else slot
  }

  function Step(t: Table, op: Op): Table {
    match op
    case Register(id) => if Rejection(t, id).None? then t.(slots := t.slots[id := Waiting]) else t
    case Complete(id, payload) => Finish(t, id, Replied(payload))
    case Fail(id, error) => Finish(t, id, Failed(error))
    case FailAll(error) => t.(slots := MarkAllDone(t.slots, Failed(error)))
    case Close(error) => Table(MarkAllDone(t.slots, Failed(error)), Some(error))
    case Wait(id) => if id in t.slots then t.(slots := t.slots[id := Taken(t.slots[id])]) else t
    case Remove(id) => t.(slots := t.slots - {id})
  }

  function Run(t: Table, ops: seq<Op>): Table
    decreases |ops|
  {
    if ops == [] then t else Run(Step(t, ops[0]), ops[1..])
  }

  // ----- first writer wins -----

  /** What an operation would write to the slot of an id. */
  function Write(op: Op, id: string): Option<Outcome> {
    match op
    case Complete(other, payload) => if other == id then Some(Replied(payload)) else None
    case Fail(other, error) => if other == id then Some(Failed(error)) else None
    case FailAll(error) => Some(Failed(error))
    case Close(error) => Some(Failed(error))
    case _ => None
  }

  predicate FirstWrite(ops: seq<Op>, id: string, n: nat) {
    n < |ops| && Write(ops[n], id).Some? && forall i :: 0 <= i < n ==> Write(ops[i], id).None?
  }

  /** While a ticket is alive and has not been waited on, its slot holds the first write since its registration. */
  lemma {:induction false} FirstWriterWins(t: Table, id: string, ops: seq<Op>)
    requires Rejection(t, id).None?
    requires forall i :: 0 <= i < |ops| ==> ops[i] != Remove(id) && ops[i] != Wait(id)
    ensures var after := Run(Step(t, Register(id)), ops);
            && id in after.slots
            && (after.slots[id] == Waiting <==> forall i :: 0 <= i < |ops| ==> Write(ops[i], id).None?)
            && forall n: nat :: FirstWrite(ops, id, n) ==> Some(after.slots[id]) == Write(ops[n], id)
  {
    SlotHistory(Step(t, Register(id)), id, ops);
  }

  lemma {:induction false} SlotHistory(t: Table, id: string, ops: seq<Op>)
    requires id in t.slots
    requires forall i :: 0 <= i < |ops| ==> ops[i] != Remove(id) && ops[i] != Wait(id)
    ensures var after := Run(t, ops);
            && id in after.slots
            && (t.slots[id] != Waiting ==> after.slots[id] == t.slots[id])
            && (t.slots[id] == Waiting ==>
                  && (after.slots[id] == Waiting <==> forall i :: 0 <= i < |ops| ==> Write(ops[i], id).None?)
                  && forall n: nat :: FirstWrite(ops, id, n) ==> Some(after.slots[id]) == Write(ops[n], id))
    decreases |ops|
  {
    if ops != [] {
      hide Run;
      var next, rest := Step(t, ops[0]), ops[1..];
      RunUnfold(t, ops);
      OneWrite(t, id, ops[0]);
      SlotHistory(next, id, rest);
      hide Step, Write;
      if t.slots[id] == Waiting {
        Shift(ops, id);
        forall n: nat | FirstWrite(ops, id, n)
          ensures Some(Run(t, ops).slots[id]) == Write(ops[n], id)
        {
          if n > 0 {
            assert FirstWrite(rest, id, n - 1);
          }
        }
      }
    }
  }

  lemma {:induction false} RunUnfold(t: Table, ops: seq<Op>)
    requires ops != []
    ensures Run(t, ops) == Run(Step(t, ops[0]), ops[1..])
  {
  }

  lemma {:induction false} OneWrite(t: Table, id: string, op: Op)
    requires id in t.slots && op != Remove(id) && op != Wait(id)
    ensures id in Step(t, op).slots
    ensures Step(t, op).slots[id] ==
            if t.slots[id] == Waiting && Write(op, id).Some? then Write(op, id).value else t.slots[id]
    ensures Write(op, id) != Some(Waiting)
  {
  }

  lemma {:induction false} Shift(ops: seq<Op>, id: string)
    requires ops != []
    ensures (forall i :: 0 <= i < |ops| ==> Write(ops[i], id).None?) <==>
            Write(ops[0], id).None? && forall i :: 0 <= i < |ops[1..]| ==> Write(ops[1..][i], id).None?
    ensures forall n: nat :: 0 < n && FirstWrite(ops, id, n) ==> FirstWrite(ops[1..], id, n - 1)
  {
    hide Write;
    assert forall i :: 0 < i < |ops| ==> ops[i] == ops[1..][i - 1];
  }

  // ----- the single wait -----

  /** What Wait reports when it wakes: nothing within the timeout, the exception of a failed request, or the reply. */
  datatype WaitResult = TimedOut | Threw(error: string) | Received(payload: Payload)

  function Report(slot: Outcome): WaitResult {
    match slot
    case Waiting => TimedOut
    case Failed(error) => Threw(error)
    case Replied(payload) => Received(payload)
  }

  /** The single wait of a ticket reports the first write since its registration, and times out exactly when there is none. */
  lemma {:induction false} TheWaitReportsIt(t: Table, id: string, ops: seq<Op>)
    requires Rejection(t, id).None?
    requires forall i :: 0 <= i < |ops| ==> ops[i] != Remove(id) && ops[i] != Wait(id)
    ensures var woken := Run(t, [Register(id)] + ops);
            && id in woken.slots
            && (forall n: nat :: FirstWrite(ops, id, n) ==> Report(woken.slots[id]) == Report(Write(ops[n], id).value))
            && (Report(woken.slots[id]) == TimedOut <==> forall i :: 0 <= i < |ops| ==> Write(ops[i], id).None?)
            && Run(t, [Register(id)] + ops + [Wait(id)]) == woken.(slots := woken.slots[id := Taken(woken.slots[id])])
  {
    hide Run, Write, Rejection;
    var all := [Register(id)] + ops;
    RunUnfold(t, all);
    assert all[1..] == ops;
    FirstWriterWins(t, id, ops);
    RunAppend(t, all, [Wait(id)]);
    OneRun(Run(t, all), Wait(id));
  }

  // ----- closing -----

  predicate AllDone(t: Table) {
    forall id :: id in t.slots ==> t.slots[id] != Waiting
  }

  /** Once closed, every slot is done. */
  predicate ClosedIsDone(t: Table) {
    t.closed.Some? ==> AllDone(t)
  }

  lemma {:induction false} StepKeepsClosed(t: Table, op: Op)
    requires ClosedIsDone(t)
    ensures ClosedIsDone(Step(t, op))
    ensures t.closed.Some? ==> Step(t, op).closed.Some? && Step(t, op).slots.Keys <= t.slots.Keys
  {
  }

  /** After a Close nothing can be registered and no wait can block, whatever happened before and happens after. */
  lemma {:induction false} ClosedForGood(t: Table, before: seq<Op>, error: string, after: seq<Op>)
    requires ClosedIsDone(t)
    ensures var end := Run(t, before + [Close(error)] + after);
            && end.closed.Some? && AllDone(end)
            && (forall id :: id in end.slots ==> Report(end.slots[id]) != TimedOut)
            && forall id :: Rejection(end, id) == end.closed
  {
    RunKeepsClosed(t, before);
    RunKeepsClosed(Step(Run(t, before), Close(error)), after);
    RunAppend(t, before, [Close(error)] + after);
    assert before + [Close(error)] + after == before + ([Close(error)] + after);
    assert ([Close(error)] + after)[1..] == after;
  }

  lemma {:induction false} RunKeepsClosed(t: Table, ops: seq<Op>)
    requires ClosedIsDone(t)
    ensures ClosedIsDone(Run(t, ops)) && (t.closed.Some? ==> Run(t, ops).closed.Some?)
    decreases |ops|
  {
    hide ClosedIsDone, Step;
    if ops != [] {
      StepKeepsClosed(t, ops[0]);
      RunKeepsClosed(Step(t, ops[0]), ops[1..]);
    }
  }

  lemma {:induction false} RunAppend(t: Table, before: seq<Op>, after: seq<Op>)
    ensures Run(t, before + after) == Run(Run(t, before), after)
    decreases |before|
  {
    hide Step;
    if before == [] {
      assert before + after == after;
    } else {
      assert (before + after)[1..] == before[1..] + after;
      RunAppend(Step(t, before[0]), before[1..], after);
    }
  }

  // ----- who is in the table -----

  predicate Registered(t: Table, ops: seq<Op>, id: string, n: nat) {
    n < |ops| && ops[n] == Register(id) && Rejection(Run(t, ops[..n]), id).None?
  }

  /** An id is in the table exactly when a registration of it succeeded and its ticket has not been destroyed since. */
  lemma {:induction false} InTable(ops: seq<Op>, id: string)
    ensures id in Run(EMPTY, ops).slots <==>
            exists n: nat :: Registered(EMPTY, ops, id, n) && forall i :: n < i < |ops| ==> ops[i] != Remove(id)
    decreases |ops|
  {
    hide Run, Rejection;
    if ops == [] {
      NoRun(EMPTY);
    } else {
      var last := |ops| - 1;
      var before, op := ops[..last], ops[last];
      InTable(before, id);
      RunAppend(EMPTY, before, [op]);
      assert ops == before + [op];
      OneRun(Run(EMPTY, before), op);
      OneKey(Run(EMPTY, before), op, id);
      forall n: nat | n < last
        ensures Registered(EMPTY, ops, id, n) == Registered(EMPTY, before, id, n)
      {
        assert ops[..n] == before[..n];
      }
      assert Registered(EMPTY, ops, id, last) == (op == Register(id) && Rejection(Run(EMPTY, before), id).None?);
      if id in Run(EMPTY, ops).slots {
        if id in Run(EMPTY, before).slots {
          var n: nat :| Registered(EMPTY, before, id, n) && forall i :: n < i < |before| ==> before[i] != Remove(id);
          assert Registered(EMPTY, ops, id, n) && forall i :: n < i < |ops| ==> ops[i] != Remove(id);
        } else {
          assert Registered(EMPTY, ops, id, last);
        }
      }
      forall n: nat | Registered(EMPTY, ops, id, n) && forall i :: n < i < |ops| ==> ops[i] != Remove(id)
        ensures id in Run(EMPTY, ops).slots
      {
        if n < last {
          assert Registered(EMPTY, before, id, n) && forall i :: n < i < |before| ==> before[i] != Remove(id);
          assert ops[last] != Remove(id);
        }
      }
    }
  }

  lemma NoRun(t: Table)
    ensures Run(t, []) == t
  {
  }

  lemma {:induction false} OneRun(t: Table, op: Op)
    ensures Run(t, [op]) == Step(t, op)
  {
    assert [op][1..] == [];
  }

  lemma {:induction false} OneKey(t: Table, op: Op, id: string)
    ensures id in Step(t, op).slots <==>
            (id in t.slots && op != Remove(id)) || (op == Register(id) && Rejection(t, id).None?)
  {
  }

  /** A reply in a slot is one that was there or the one this operation completes it with. */
  lemma {:induction false} OneReply(t: Table, op: Op, id: string)
    requires !op.Wait? && id in Step(t, op).slots && Step(t, op).slots[id].Replied?
    ensures (id in t.slots && t.slots[id] == Step(t, op).slots[id]) || op == Complete(id, Step(t, op).slots[id].payload)
  {
  }
}
