/**
The cache of reply senders of the Service Bus server: one open link per reply entity, replaced when it was idle for
more than five minutes or when a send on it failed. Times are readings of the steady clock in milliseconds; what
the broker does with an open or a send is decided outside.
*/
module ReplySenderCache {
  import opened Wrappers

  const MAX_IDLE: int := 5 * 60 * 1000

  class MessageSender {
    const target: string
    const openedAt: int
    var closed: bool

    constructor (target: string, openedAt: int)
      ensures this.target == target && this.openedAt == openedAt && !closed
    {
      this.target := target;
      this.openedAt := openedAt;
      closed := false;
    }

    method Close()
      modifies this
      ensures closed
    {
      closed := true;
    }
  }

  /** A send: on which link, how long after its last use that was decided, whether and when it succeeded. */
  datatype Sending = Sending(sender: MessageSender, idle: int, ok: bool, at: int)

  /** When a link was opened or last sent on with success. */
  ghost function LastUse(sends: seq<Sending>, sender: MessageSender): int {
    if sends == [] then sender.openedAt
    else
      var last := sends[|sends| - 1];
      if last.sender == sender && last.ok then last.at else LastUse(sends[..|sends| - 1], sender)
  }

  /** How the making of a link ends; an exception there leaves publish. */
  datatype Opening = Opened | OpenFailed | Threw

  /** What happens from outside during one attempt: the clock when the cache is searched, the opening, the send. */
  datatype Attempt = Attempt(now: int, opening: Opening, openedAt: int, sendOk: bool, sentAt: int)

  class Cache {
    var senders: map<string, MessageSender>
    var lastUsed: map<string, int>
    ghost var sends: seq<Sending>
    ghost var evicted: set<MessageSender>

    /** The maps agree, each link is open and leads to its own entity, and its time is that of its last use. */
    ghost predicate Valid()
      reads this, senders.Values, evicted
    {
      && senders.Keys == lastUsed.Keys
      && (forall entity :: entity in senders ==>
            && senders[entity].target == entity && !senders[entity].closed
            && lastUsed[entity] == LastUse(sends, senders[entity]))
      && (forall sender :: sender in evicted ==> sender.closed)
      && (forall i :: 0 <= i < |sends| ==> sends[i].idle <= MAX_IDLE)
    }

    constructor ()
      ensures Valid() && senders == map[] && sends == []
    {
      senders := map[];
      lastUsed := map[];
      sends := [];
      evicted := {};
    }

    method Evict(entity: string)
      requires Valid()
      modifies this, senders.Values
      ensures Valid() && senders == old(senders) - {entity} && lastUsed == old(lastUsed) - {entity} && sends == old(sends)
      ensures evicted == old(evicted) + if entity in old(senders) then {old(senders)[entity]} else {}
    {
      if entity in senders {
        senders[entity].Close();
        evicted := evicted + {senders[entity]};
        senders := senders - {entity};
      }
      lastUsed := lastUsed - {entity};
    }

    /** There is a link that was opened or used within the idle limit. */
    predicate Usable(entity: string, now: int)
      reads this
    {
      entity in senders && entity in lastUsed && now - lastUsed[entity] <= MAX_IDLE
    }

    /** The sender to use: the cached one unless it is stale, else a new link, else none when that cannot be opened. */
    method Acquire(entity: string, attempt: Attempt) returns (sender: MessageSender?, threw: bool)
      requires Valid()
      modifies this, senders.Values
      ensures Valid() && sends == old(sends) && evicted >= old(evicted)
      ensures SameElsewhere(old(senders), senders, entity) && SameElsewhere(old(lastUsed), lastUsed, entity)
      ensures if sender == null then entity !in senders else entity in senders && senders[entity] == sender
      ensures entity in old(senders) && !old(Usable(entity, attempt.now)) ==> old(senders)[entity] in evicted
      ensures old(Usable(entity, attempt.now)) <==>
              entity in old(senders) && entity in old(lastUsed) && attempt.now - old(lastUsed)[entity] <= 300000
      ensures if old(Usable(entity, attempt.now)) then
                !threw && sender == old(senders)[entity] && lastUsed[entity] == old(lastUsed)[entity]
              else
                && threw == attempt.opening.Threw?
                && if attempt.opening.Opened? then sender != null && fresh(sender) && lastUsed[entity] == attempt.openedAt
                   else sender == null
    {
      if entity in senders {
        var stale := entity !in lastUsed || attempt.now - lastUsed[entity] > MAX_IDLE;
        if !stale {
          return senders[entity], false;
        }
        Evict(entity);
      }
      sender, threw := Open(entity, attempt);
    }

    method Open(entity: string, attempt: Attempt) returns (sender: MessageSender?, threw: bool)
      requires Valid() && entity !in senders
      modifies this
      ensures Valid() && sends == old(sends) && evicted == old(evicted)
      ensures SameElsewhere(old(senders), senders, entity) && SameElsewhere(old(lastUsed), lastUsed, entity)
      ensures (sender != null) == attempt.opening.Opened? && threw == attempt.opening.Threw?
      ensures if sender == null then senders == old(senders)
              else fresh(sender) && senders == old(senders)[entity := sender] && lastUsed[entity] == attempt.openedAt
    {
      if attempt.opening.Threw? {
        return null, true;
      }
      var link := new MessageSender(entity, attempt.openedAt);
      if attempt.opening.OpenFailed? {
        return null, false;
      }
      LastUseOfNew(sends, link);
      senders := senders[entity := link];
      lastUsed := lastUsed[entity := attempt.openedAt];
      return link, false;
    }

    method Send(sender: MessageSender, ghost idle: int, attempt: Attempt)
      requires Valid() && idle <= MAX_IDLE && sender.target in senders && senders[sender.target] == sender
      modifies this`sends, this`lastUsed
      ensures sends == old(sends) + [Sending(sender, idle, attempt.sendOk, attempt.sentAt)]
      ensures lastUsed == if attempt.sendOk then old(lastUsed)[sender.target := attempt.sentAt] else old(lastUsed)
      ensures Valid()
    {
      ghost var sending := Sending(sender, idle, attempt.sendOk, attempt.sentAt);
      forall entity | entity in senders
        ensures LastUse(sends + [sending], senders[entity]) ==
                if attempt.sendOk && entity == sender.target then attempt.sentAt else lastUsed[entity]
      {
        LastUseAfter(sends, sending, senders[entity]);
      }
      sends := sends + [sending];
      if attempt.sendOk {
        lastUsed := lastUsed[sender.target := attempt.sentAt];
      }
    }

    method CloseAll()
      requires Valid()
      modifies this, senders.Values
      ensures Valid() && senders == map[] && lastUsed == map[] && sends == old(sends)
      ensures forall entity :: entity in old(senders) ==> old(senders)[entity].closed
    {
      var rest := senders.Keys;
      while rest != {}
        modifies senders.Values
        invariant rest <= senders.Keys
        invariant forall entity :: entity in senders && entity !in rest ==> senders[entity].closed
        invariant forall sender :: sender in evicted ==> sender.closed
        decreases |rest|
      {
        var entity :| entity in rest;
        senders[entity].Close();
        rest := rest - {entity};
      }
      senders := map[];
      lastUsed := map[];
    }

    /** One round of Publish: acquire, send, and evict after a failure. Without a link nothing is sent. */
    method Try(entity: string, attempt: Attempt) returns (sent: bool, ok: bool, threw: bool)
      requires Valid()
      modifies this, senders.Values
      ensures Valid() && SameElsewhere(old(senders), senders, entity) && SameElsewhere(old(lastUsed), lastUsed, entity)
      ensures sent == (old(Usable(entity, attempt.now)) || attempt.opening.Opened?) && ok == (sent && attempt.sendOk)
      ensures threw == (!old(Usable(entity, attempt.now)) && attempt.opening.Threw?)
      ensures if !sent then sends == old(sends) && !ok && entity !in senders
              else
                && |sends| == |old(sends)| + 1 && sends[..|old(sends)|] == old(sends)
                && var last := sends[|old(sends)|];
                   && last.sender.target == entity && last.ok == ok && last.at == attempt.sentAt
                   && (if old(Usable(entity, attempt.now)) then last.sender == old(senders)[entity] else fresh(last.sender))
                   && if ok then entity in senders && senders[entity] == last.sender && lastUsed[entity] == last.at
                      else entity !in senders && last.sender.closed
      ensures forall e :: e in senders ==> senders[e] in old(senders.Values) || fresh(senders[e])
    {
      hide LastUse;
      ghost var cached := if entity in senders then Some(senders[entity]) else None;
      ghost var since := if entity in senders then lastUsed[entity] else 0;
      var sender;
      sender, threw := Acquire(entity, attempt);
      if sender == null {
        return false, false, threw;
      }
      ghost var senders', lastUsed' := senders, lastUsed;
      Send(sender, if cached == Some(sender) then attempt.now - since else 0, attempt);
      if !attempt.sendOk {
        Evict(entity);
      }
      SameTwice(old(senders), senders', senders, entity);
      SameTwice(old(lastUsed), lastUsed', lastUsed, entity);
      return true, attempt.sendOk, false;
    }

    /**
    At most two sends, each on an open link to the entity that was opened or used within the idle limit, the second
    on a new link and only after the first failed; the answer is whether the last of them succeeded. A failed entity
    is not cached.
    */
    method Publish(entity: string, attempts: seq<Attempt>) returns (ok: bool, threw: bool)
      requires Valid() && |attempts| == 2
      modifies this, senders.Values
      ensures Valid() && SameElsewhere(old(senders), senders, entity) && SameElsewhere(old(lastUsed), lastUsed, entity)
      ensures Tried(old(sends), sends, entity, ok)
      ensures var (first, second) := (attempts[0], attempts[1]);
              var usable := entity in old(senders) && entity in old(lastUsed) && first.now - old(lastUsed)[entity] <= 300000;
              var linked := usable || first.opening.Opened?;
              && ok == (linked && (first.sendOk || (second.opening.Opened? && second.sendOk)))
              && threw == (if linked then !first.sendOk && second.opening.Threw? else first.opening.Threw?)
              && |sends| == |old(sends)| + (if !linked then 0 else if first.sendOk || !second.opening.Opened? then 1 else 2)
              && (usable ==> sends[|old(sends)|].sender == old(senders)[entity])
              && (linked && !usable ==> fresh(sends[|old(sends)|].sender))
      ensures forall i :: |old(sends)| <= i < |sends| ==> sends[i].idle <= 300000
      ensures if ok then entity in senders && senders[entity] == sends[|sends| - 1].sender && lastUsed[entity] == sends[|sends| - 1].at
              else entity !in senders
    {
      hide SameElsewhere, LastUse, Tried;
      NotTried(sends, entity);
      SameAtFirst(senders, entity);
      SameAtFirst(lastUsed, entity);
      for i := 0 to 2
        invariant Valid() && SameElsewhere(old(senders), senders, entity) && SameElsewhere(old(lastUsed), lastUsed, entity)
        invariant Tried(old(sends), sends, entity, false) && |sends| == |old(sends)| + i
        invariant i == 2 ==> attempts[1].opening.Opened? && !attempts[1].sendOk
        invariant i == 0 ==> senders == old(senders) && lastUsed == old(lastUsed)
        invariant i > 0 ==>
                    && entity !in senders && (old(Usable(entity, attempts[0].now)) || attempts[0].opening.Opened?) && !attempts[0].sendOk
                    && (if old(Usable(entity, attempts[0].now)) then sends[|old(sends)|].sender == old(senders)[entity]
                        else fresh(sends[|old(sends)|].sender))
        invariant forall e :: e in senders ==> senders[e] in old(senders.Values) || fresh(senders[e])
      {
        ghost var senders', lastUsed', sends' := senders, lastUsed, sends;
        var sent, done, thrown := Try(entity, attempts[i]);
        if sent {
          assert sends[..|sends'|] == sends' && (i > 0 ==> sends[|old(sends)|] == sends'[|old(sends)|]);
          TriedAgain(old(sends), sends', sends, entity, i);
        }
        SameTwice(old(senders), senders', senders, entity);
        SameTwice(old(lastUsed), lastUsed', lastUsed, entity);
        if !sent || done {
          return done, thrown;
        }
      }
      return false, false;
    }
  }

  ghost predicate SameElsewhere<V>(before: map<string, V>, after: map<string, V>, entity: string) {
    forall e :: e != entity ==> (e in before <==> e in after) && (e in before ==> before[e] == after[e])
  }

  lemma SameTwice<V>(a: map<string, V>, b: map<string, V>, c: map<string, V>, entity: string)
    requires SameElsewhere(a, b, entity) && SameElsewhere(b, c, entity)
    ensures SameElsewhere(a, c, entity)
  {
  }

  lemma SameAtFirst<V>(a: map<string, V>, entity: string)
    ensures SameElsewhere(a, a, entity)
  {
  }

  ghost predicate Tried(before: seq<Sending>, after: seq<Sending>, entity: string, ok: bool) {
    && |before| <= |after| <= |before| + 2 && after[..|before|] == before
    && (forall i :: |before| <= i < |after| ==> after[i].sender.target == entity)
    && (forall i :: |before| <= i < |after| - 1 ==> !after[i].ok && after[i].sender != after[i + 1].sender)
    && (ok <==> |before| < |after| && after[|after| - 1].ok)
  }

  lemma NotTried(sends: seq<Sending>, entity: string)
    ensures Tried(sends, sends, entity, false)
  {
  }

  lemma TriedAgain(before: seq<Sending>, now: seq<Sending>, next: seq<Sending>, entity: string, i: nat)
    requires Tried(before, now, entity, false) && |now| == |before| + i && i < 2
    requires |next| == |now| + 1 && next[..|now|] == now && next[|now|].sender.target == entity
    requires i > 0 ==> next[|now|].sender != now[|now| - 1].sender
    ensures Tried(before, next, entity, next[|now|].ok)
  {
    assert forall j :: 0 <= j < |now| ==> next[j] == next[..|now|][j];
    assert next[..|before|] == now[..|before|];
  }

  lemma {:induction false} LastUseOfNew(sends: seq<Sending>, sender: MessageSender)
    requires forall i :: 0 <= i < |sends| ==> sends[i].sender != sender
    ensures LastUse(sends, sender) == sender.openedAt
  {
    if sends != [] {
      LastUseOfNew(sends[..|sends| - 1], sender);
    }
  }

  lemma {:induction false} LastUseAfter(sends: seq<Sending>, s: Sending, sender: MessageSender)
    ensures LastUse(sends + [s], sender) == if s.sender == sender && s.ok then s.at else LastUse(sends, sender)
  {
    assert (sends + [s])[..|sends|] == sends;
  }
}
