/**
The objects of PendingReplies.h: a table of slots that callers and one consumer share, and the tickets that
remove their entries. Every method runs under the mutex, so it is one step of PendingTable.
*/
module PendingReplies {
  import opened Wrappers
  import opened PendingTable

  class Slot {
    /** The id it was made for: no two slots of a table are the same object. */
    ghost const key: string
    var done: bool
    var failed: bool
    var payload: Payload
    var error: string

    constructor (ghost key: string)
      ensures Value() == Waiting && this.key == key
    {
      this.key := key;
      done := false;
      failed := false;
      payload := [];
      error := "";
    }

    function Value(): Outcome
      reads this
    {
      if !done then Waiting else if failed then Failed(error) else Replied(payload)
    }

    method MarkDone(failed: bool, payload: Payload, error: string)
      modifies this
      ensures Value() == PendingTable.MarkDone(old(Value()), if failed then Failed(error) else Replied(payload))
      ensures if old(done) then unchanged(this)
              else done && this.failed == failed && this.payload == payload && this.error == error
    {
      if done {
        return;
      }
      this.done := true;
      this.failed := failed;
      this.payload := payload;
      this.error := error;
    }
  }

  class Ticket {
    var owner: Table?
    var id: string
    var slot: Slot?

    constructor (owner: Table, id: string, slot: Slot)
      ensures this.owner == owner && this.id == id && this.slot == slot
    {
      this.owner := owner;
      this.id := id;
      this.slot := slot;
    }
  }

  function Values(slots: map<string, Slot>): (values: map<string, Outcome>)
    reads slots.Values
    ensures values.Keys == slots.Keys
  {
    map id | id in slots :: slots[id].Value()
  }

  lemma ValuesAdd(slots: map<string, Slot>, id: string, slot: Slot)
    ensures Values(slots[id := slot]) == Values(slots)[id := slot.Value()]
  {
  }

  lemma ValuesRemove(slots: map<string, Slot>, id: string)
    ensures Values(slots - {id}) == Values(slots) - {id}
  {
  }

  lemma MarkedAll(before: map<string, Outcome>, after: map<string, Outcome>, outcome: Outcome)
    requires after.Keys == before.Keys && forall id :: id in before ==> after[id] == MarkDone(before[id], outcome)
    ensures after == MarkAllDone(before, outcome)
  {
  }

  lemma NoKeys<A, B>(a: map<string, A>, b: map<string, B>)
    requires a.Keys == b.Keys
    ensures |a| == 0 <==> b == map[]
  {
    assert |a| == |a.Keys| == |b.Keys|;
  }

  /** The PendingReplies object. holders has the live ticket of each id. */
  class Table {
    var slots: map<string, Slot>
    var closed: bool
    var closedError: string
    ghost var holders: map<string, Ticket>

    /** The keys are the ids of the live tickets, each of which shares the mapped slot with nobody else. */
    ghost predicate Valid()
      reads this, slots.Values, holders.Values
    {
      && slots.Keys == holders.Keys && Distinct()
      && forall id :: id in slots ==>
            && holders[id].owner == this && holders[id].id == id && holders[id].slot == slots[id]
    }

    ghost predicate Distinct()
      reads this
    {
      forall id :: id in slots ==> slots[id].key == id
    }

    ghost predicate Live(ticket: Ticket)
      reads this, ticket
    {
      ticket.id in holders && holders[ticket.id] == ticket
    }

    function Abs(): PendingTable.Table
      reads this, slots.Values
    {
      PendingTable.Table(Values(slots), if closed then Some(closedError) else None)
    }

    constructor ()
      ensures Valid() && Abs() == EMPTY && holders == map[]
    {
      slots := map[];
      closed := false;
      closedError := "";
      holders := map[];
    }

    method Register(id: string) returns (r: Result<Ticket>)
      requires Valid()
      modifies this
      ensures Valid() && Abs() == Step(old(Abs()), PendingTable.Register(id))
      ensures if old(closed) || id in old(slots) then
                && r == Err(if old(closed) then old(closedError) else "duplicate correlation id " + id)
                && holders == old(holders) && slots == old(slots)
              else
                && r.Ok? && fresh(r.value) && r.value.slot != null && fresh(r.value.slot) && r.value.id == id
                && holders == old(holders)[id := r.value] && slots == old(slots)[id := r.value.slot]
    {
      hide Values;
      var slot := new Slot(id);
      ValuesAdd(slots, id, slot);
      if closed {
        return Err(closedError);
      }
      if id in slots {
        return Err("duplicate correlation id " + id);
      }
      slots := slots[id := slot];
      var ticket := new Ticket(this, id, slot);
      holders := holders[id := ticket];
      r := Ok(ticket);
    }

    method Complete(id: string, payload: Payload) returns (found: bool)
      requires Valid()
      modifies slots.Values
      ensures Valid() && Abs() == Step(old(Abs()), PendingTable.Complete(id, payload)) && found == (id in slots)
    {
      found := Finish(id, false, payload, "");
    }

    method Fail(id: string, error: string) returns (found: bool)
      requires Valid()
      modifies slots.Values
      ensures Valid() && Abs() == Step(old(Abs()), PendingTable.Fail(id, error)) && found == (id in slots)
    {
      found := Finish(id, true, [], error);
    }

    method Finish(id: string, failed: bool, payload: Payload, error: string) returns (found: bool)
      requires Valid()
      modifies slots.Values
      ensures Valid() && found == (id in slots)
      ensures Abs() == PendingTable.Finish(old(Abs()), id, if failed then Failed(error) else Replied(payload))
    {
      if id !in slots {
        return false;
      }
      slots[id].MarkDone(failed, payload, error);
      return true;
    }

    method FailAll(error: string)
      requires Valid()
      modifies slots.Values
      ensures Valid() && Abs() == Step(old(Abs()), PendingTable.FailAll(error))
    {
      hide Values, MarkAllDone;
      FailEach(error);
    }

    /** The loop over the map, whose order is of no importance. */
    method FailEach(error: string)
      requires Distinct()
      modifies slots.Values
      ensures unchanged(this) && Values(slots) == MarkAllDone(old(Values(slots)), Failed(error))
    {
      hide PendingTable.MarkDone, MarkAllDone;
      ghost var before := Values(slots);
      var rest := slots.Keys;
      while rest != {}
        invariant rest <= slots.Keys
        invariant forall id :: id in rest ==> slots[id].Value() == before[id]
        invariant forall id :: id in slots && id !in rest ==> slots[id].Value() == PendingTable.MarkDone(before[id], Failed(error))
        decreases |rest|
      {
        var id :| id in rest;
        slots[id].MarkDone(true, [], error);
        rest := rest - {id};
      }
      MarkedAll(before, Values(slots), Failed(error));
    }

    method Close(error: string)
      requires Valid()
      modifies this, slots.Values
      ensures Valid() && Abs() == Step(old(Abs()), PendingTable.Close(error))
      ensures unchanged(`slots) && unchanged(`holders)
    {
      hide Values, MarkAllDone;
      closed := true;
      closedError := error;
      FailEach(error);
    }

    method Empty() returns (empty: bool)
      ensures empty == (Abs().slots == map[])
    {
      empty := |slots| == 0;
      NoKeys(slots, Abs().slots);
    }

    /** The predicate that the wait re-tests when it wakes; the result does not depend on the timeout. */
    method WaitForPending() returns (pending: bool)
      ensures pending == (Abs().closed.None? && Abs().slots != map[])
    {
      pending := !closed && |slots| > 0;
      NoKeys(slots, Abs().slots);
    }

    method Wait(ticket: Ticket) returns (r: WaitResult)
      requires Valid() && Live(ticket)
      modifies slots[ticket.id]
      ensures Valid() && Live(ticket)
      ensures r == Report(old(Abs()).slots[ticket.id])
      ensures Abs() == Step(old(Abs()), PendingTable.Wait(ticket.id))
      ensures match old(ticket.slot.Value())
              case Waiting => r == TimedOut && ticket.slot.Value() == Waiting
              case Failed(error) => r == Threw(error) && ticket.slot.Value() == Failed(error)
              case Replied(payload) => r == Received(payload) && ticket.slot.Value() == Replied([])
    {
      var slot := ticket.slot;
      if !slot.done {
        return TimedOut;
      }
      if slot.failed {
        return Threw(slot.error);
      }
      var response := slot.payload;
      slot.payload := [];
      return Received(response);
    }

    /** The move constructor: the new ticket takes over, the old one will remove nothing. */
    method Move(other: Ticket) returns (ticket: Ticket)
      requires Valid() && Live(other)
      modifies this`holders, other
      ensures Valid() && Abs() == old(Abs()) && fresh(ticket) && Live(ticket) && ticket.id == old(other.id)
      ensures other.owner == null && holders == old(holders)[old(other.id) := ticket]
    {
      hide Values;
      ticket := new Ticket(this, other.id, other.slot);
      other.owner := null;
      other.id := "";
      other.slot := null;
      holders := holders[ticket.id := ticket];
    }

    /** The destructor of a ticket of this table that was not moved from. */
    method Destroy(ticket: Ticket)
      requires Valid() && Live(ticket)
      modifies this
      ensures Valid() && Abs() == Step(old(Abs()), PendingTable.Remove(ticket.id))
      ensures holders == old(holders) - {ticket.id}
    {
      Remove(ticket.id);
    }

    method Remove(id: string)
      requires Valid()
      modifies this
      ensures Valid() && Abs() == Step(old(Abs()), PendingTable.Remove(id)) && holders == old(holders) - {id}
      ensures slots == old(slots) - {id} && closed == old(closed) && closedError == old(closedError)
    {
      hide Values;
      ValuesRemove(slots, id);
      slots := slots - {id};
      holders := holders - {id};
    }
  }
}
