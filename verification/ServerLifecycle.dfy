/**
The start and stop of the Pub/Sub and SQS servers: any number of threads call start and stop on one server. Every
critical section, every read of the stop flag and every call to the broker is one step.
*/
module ServerLifecycle {
  import opened Wrappers

  /** The fields under the mutex. active is the SQS client that a stop may disable. */
  datatype Flags = Flags(running: bool, stopRequested: bool, active: Option<nat>)

  function Begin(f: Flags): Flags {
    if f.running then f else f.(running := true, stopRequested := false)
  }

  function Finish(f: Flags): Flags {
    f.(running := false, active := None)
  }

  function RequestStop(f: Flags): Flags {
    f.(stopRequested := true)
  }

  class Server {
    var running: bool
    var stopRequested: bool
    var active: Option<nat>
    /** The calls of start that are between their first and their last critical section. */
    ghost var inLoop: set<nat>

    /** running says whether there is such a call, and there is never more than one. */
    ghost predicate Valid()
      reads this
    {
      && (running <==> inLoop != {})
      && (forall t, t' :: t in inLoop && t' in inLoop ==> t == t')
      && (active.Some? ==> running)
    }

    function Abs(): Flags
      reads this
    {
      Flags(running, stopRequested, active)
    }

    constructor ()
      ensures Valid() && Abs() == Flags(false, false, None) && inLoop == {}
    {
      running := false;
      stopRequested := false;
      active := None;
      inLoop := {};
    }

    /** The first critical section of start: whether this call will run the loop. */
    method TryBegin(ghost t: nat) returns (begun: bool)
      requires Valid()
      modifies this
      ensures Valid() && Abs() == Begin(old(Abs())) && begun == (old(inLoop) == {})
      ensures inLoop == if begun then {t} else old(inLoop)
      ensures if old(running) then !begun && unchanged(this) else begun && running && !stopRequested && active == old(active)
    {
      if running {
        return false;
      }
      stopRequested := false;
      running := true;
      inLoop := {t};
      return true;
    }

    /** The critical section in which an SQS start publishes its client: whether a stop came before. */
    method PublishClient(ghost t: nat, client: nat) returns (disable: bool)
      requires Valid() && t in inLoop
      modifies this`active
      ensures Valid() && Abs() == old(Abs()).(active := Some(client)) && disable == stopRequested
    {
      active := Some(client);
      return stopRequested;
    }

    /** The last critical section of start. */
    method End(ghost t: nat)
      requires Valid() && t in inLoop
      modifies this
      ensures Valid() && Abs() == Finish(old(Abs())) && inLoop == {}
      ensures !running && active == None && stopRequested == old(stopRequested)
    {
      active := None;
      running := false;
      inLoop := {};
    }

    /** The first critical section of stop: the client to disable. */
    method Stop() returns (client: Option<nat>)
      requires Valid()
      modifies this`stopRequested
      ensures Valid() && Abs() == RequestStop(old(Abs())) && client == active
      ensures stopRequested && running == old(running) && active == old(active)
      ensures client.Some? ==> inLoop != {}
    {
      stopRequested := true;
      client := active;
    }

    /** Stop may return exactly when no call of start is in its loop. */
    method MayReturn() returns (stopped: bool)
      requires Valid()
      ensures stopped <==> inLoop == {}
    {
      stopped := !running;
    }
  }

  // ----- threads -----

  /** Where a call of start is. session says whether there is a session (or client) to pull with. */
  datatype Starter =
    | Outside
    | Configuring
    | SettingUp
    | Connecting
    | Publishing(client: nat)
    | Testing(session: bool)
    | Pulling(session: bool)
    | Handling(left: nat)
    | Ending

  /** Where a call of stop is. */
  datatype Stopper = Away | Disabling(client: Option<nat>) | Waiting

  datatype State = State(flags: Flags, starters: map<nat, Starter>, stoppers: map<nat, Stopper>, disabled: set<nat>, created: set<nat>)

  const INITIAL := State(Flags(false, false, None), map[], map[], {}, {})

  function At(s: State, t: nat): Starter {
    if t in s.starters then s.starters[t] else Outside
  }

  function Stopping(s: State, u: nat): Stopper {
    if u in s.stoppers then s.stoppers[u] else Away
  }

  function Go(s: State, t: nat, at: Starter): State {
    s.(starters := s.starters[t := at])
  }

  datatype Action =
    | Enter(t: nat)
    | Configure(t: nat, valid: bool)
    | TestSetup(t: nat)
    | Connect(t: nat, success: bool)
    | Create(t: nat, client: nat)
    | Publish(t: nat)
    | Test(t: nat)
    | Pull(t: nat, messages: nat)
    | Handle(t: nat)
    | Throw(t: nat, standard: bool)
    | Leave(t: nat)
    | Stop(u: nat)
    | Disable(u: nat)
    | Return(u: nat)

  predicate Enabled(sqs: bool, s: State, a: Action) {
    match a
    case Enter(t) => At(s, t).Outside?
    case Configure(t, _) => At(s, t).Configuring?
    case TestSetup(t) => At(s, t).SettingUp? && !sqs
    case Connect(t, _) => At(s, t).Connecting?
    case Create(t, client) => At(s, t).SettingUp? && sqs && client !in s.created
    case Publish(t) => At(s, t).Publishing?
    case Test(t) => At(s, t).Testing?
    case Pull(t, _) => At(s, t).Pulling?
    case Handle(t) => At(s, t).Handling?
    case Throw(t, _) => !At(s, t).Outside? && !At(s, t).Ending?
    case Leave(t) => At(s, t).Ending?
    case Stop(u) => Stopping(s, u).Away?
    case Disable(u) => Stopping(s, u).Disabling?
    case Return(u) => Stopping(s, u).Waiting? && !s.flags.running
  }

  function Step(sqs: bool, s: State, a: Action): State
    requires Enabled(sqs, s, a)
  {
    match a
    case Enter(t) =>
      if s.flags.running then s else Go(s.(flags := Begin(s.flags)), t, Configuring)
    case Configure(t, valid) => Go(s, t, if valid then SettingUp else Ending)
    // The setup loop goes on until there is a session or a stop is requested.
    case TestSetup(t) => Go(s, t, if s.flags.stopRequested then Testing(false) else Connecting)
    case Connect(t, success) => Go(s, t, if success then Testing(true) else SettingUp)
    case Create(t, client) => Go(s.(created := s.created + {client}), t, Publishing(client))
    case Publish(t) =>
      var client := At(s, t).client;
      var disabled := if s.flags.stopRequested then s.disabled + {client} else s.disabled;
      Go(s.(flags := s.flags.(active := Some(client)), disabled := disabled), t, Testing(true))
    // The receive loop ends when a stop is requested; otherwise it pulls next.
    case Test(t) => Go(s, t, if s.flags.stopRequested then Ending else Pulling(At(s, t).session))
    case Pull(t, messages) => Go(s, t, Handling(messages))
    case Handle(t) =>
      var left := At(s, t).left;
      Go(s, t, if left == 0 || s.flags.stopRequested then Testing(true) else Handling(left - 1))
    // A standard exception is caught in the Pub/Sub loop; the SQS loop has no handler around its pull.
    case Throw(t, standard) =>
      var at := At(s, t);
      if standard && !sqs && at.Pulling? then Go(s, t, Testing(at.session))
      else if standard && at.Handling? then Go(s, t, Testing(true))
      else Go(s, t, Ending)
    case Leave(t) => Go(s.(flags := Finish(s.flags)), t, Outside)
    case Stop(u) => s.(flags := RequestStop(s.flags), stoppers := s.stoppers[u := Disabling(s.flags.active)])
    case Disable(u) =>
      var client := Stopping(s, u).client;
      s.(disabled := if client.Some? then s.disabled + {client.value} else s.disabled, stoppers := s.stoppers[u := Waiting])
    case Return(u) => s.(stoppers := s.stoppers[u := Away])
  }

  predicate Possible(sqs: bool, s: State, actions: seq<Action>)
    decreases |actions|
  {
    actions == [] || (Enabled(sqs, s, actions[0]) && Possible(sqs, Step(sqs, s, actions[0]), actions[1..]))
  }

  function After(sqs: bool, s: State, actions: seq<Action>): State
    requires Possible(sqs, s, actions)
    decreases |actions|
  {
    if actions == [] then s else After(sqs, Step(sqs, s, actions[0]), actions[1..])
  }

  // ----- what every step keeps -----

  /** At most one call of start is past its first critical section, and then the server is running. */
  ghost predicate OneStarter(s: State) {
    && (forall t: nat, t': nat :: !At(s, t).Outside? && !At(s, t').Outside? ==> t == t')
    && (s.flags.running <==> exists t: nat :: !At(s, t).Outside?)
  }

  /** The loop is entered without a session only when a stop was requested, and nothing is pulled without one. */
  ghost predicate SessionForPull(s: State) {
    forall t: nat :: match At(s, t)
                case Testing(session) => session || s.flags.stopRequested
                case Pulling(session) => session
                case _ => true
  }

  /** A client that is active although a stop was requested is disabled, or some stop is about to disable it. */
  ghost predicate NoClientMissed(s: State) {
    && (s.flags.active.Some? ==> s.flags.running)
    && (s.flags.active.Some? && s.flags.stopRequested ==>
          s.flags.active.value in s.disabled || exists u: nat :: Stopping(s, u) == Disabling(s.flags.active))
  }

  ghost predicate Inv(s: State) {
    OneStarter(s) && SessionForPull(s) && NoClientMissed(s)
  }

  lemma {:induction false} StepInv(sqs: bool, s: State, a: Action)
    requires Inv(s) && Enabled(sqs, s, a)
    ensures Inv(Step(sqs, s, a))
  {
    StepOneStarter(sqs, s, a);
    StepSessionForPull(sqs, s, a);
    StepNoClientMissed(sqs, s, a);
  }

  /** Which call of start a step moves, if any. */
  function Mover(a: Action): Option<nat> {
    match a
    case Enter(t) => Some(t)
    case Configure(t, _) => Some(t)
    case TestSetup(t) => Some(t)
    case Connect(t, _) => Some(t)
    case Create(t, _) => Some(t)
    case Publish(t) => Some(t)
    case Test(t) => Some(t)
    case Pull(t, _) => Some(t)
    case Handle(t) => Some(t)
    case Throw(t, _) => Some(t)
    case Leave(t) => Some(t)
    case _ => None
  }

  lemma {:induction false} OthersStay(sqs: bool, s: State, a: Action, t: nat)
    requires Enabled(sqs, s, a) && Mover(a) != Some(t)
    ensures At(Step(sqs, s, a), t) == At(s, t)
  {
  }

  lemma {:induction false} StepOneStarter(sqs: bool, s: State, a: Action)
    requires OneStarter(s) && Enabled(sqs, s, a)
    ensures OneStarter(Step(sqs, s, a))
  {
    var s' := Step(sqs, s, a);
    forall t: nat | Mover(a) != Some(t)
      ensures At(s', t) == At(s, t)
    {
      OthersStay(sqs, s, a, t);
    }
    if Mover(a).Some? {
      var t := Mover(a).value;
      if a.Enter? && s.flags.running {
        assert s' == s;
      } else {
        assert a.Enter? == At(s, t).Outside? && a.Leave? == At(s', t).Outside?;
      }
    } else {
      assert forall t: nat :: At(s', t) == At(s, t);
    }
  }

  lemma {:induction false} StepSessionForPull(sqs: bool, s: State, a: Action)
    requires OneStarter(s) && SessionForPull(s) && Enabled(sqs, s, a)
    ensures SessionForPull(Step(sqs, s, a))
  {
    var s' := Step(sqs, s, a);
    forall t: nat
      ensures match At(s', t)
              case Testing(session) => session || s'.flags.stopRequested
              case Pulling(session) => session
              case _ => true
    {
      assert s.flags.running || At(s, t).Outside?;
      if Mover(a) != Some(t) {
        OthersStay(sqs, s, a, t);
      }
    }
  }

  lemma {:induction false} StepNoClientMissed(sqs: bool, s: State, a: Action)
    requires OneStarter(s) && NoClientMissed(s) && Enabled(sqs, s, a)
    ensures NoClientMissed(Step(sqs, s, a))
  {
    var s' := Step(sqs, s, a);
    if a.Publish? {
      assert !At(s, a.t).Outside?;
    }
    if s'.flags.active.Some? && s'.flags.stopRequested && s'.flags.active.value !in s'.disabled {
      if a.Stop? {
        assert Stopping(s', a.u) == Disabling(s'.flags.active);
      } else {
        var u: nat :| Stopping(s, u) == Disabling(s.flags.active);
        assert Stopping(s', u) == Disabling(s'.flags.active);
      }
    }
  }

  lemma {:induction false} RunInv(sqs: bool, s: State, actions: seq<Action>)
    requires Inv(s) && Possible(sqs, s, actions)
    ensures Inv(After(sqs, s, actions))
    decreases |actions|
  {
    hide Inv, Step, Enabled;
    if actions != [] {
      StepInv(sqs, s, actions[0]);
      RunInv(sqs, Step(sqs, s, actions[0]), actions[1..]);
    }
  }

  // ----- the main results -----

  /** In every reachable state: one start at most, no pull without a session, and no SQS client that every stop missed. */
  lemma {:induction false} AlwaysSafe(sqs: bool, actions: seq<Action>)
    requires Possible(sqs, INITIAL, actions)
    ensures Inv(After(sqs, INITIAL, actions))
  {
    RunInv(sqs, INITIAL, actions);
  }

  /** A stop returns only when no call of start is in its loop, whichever thread it was in. */
  lemma {:induction false} StopReturnsWhenStopped(sqs: bool, actions: seq<Action>, u: nat)
    requires Possible(sqs, INITIAL, actions) && Enabled(sqs, After(sqs, INITIAL, actions), Return(u))
    ensures forall t: nat :: At(After(sqs, INITIAL, actions), t).Outside?
  {
    hide Possible, After;
    AlwaysSafe(sqs, actions);
  }

  /** The server runs in every state of a run but perhaps the last. */
  ghost predicate KeepsRunning(sqs: bool, s: State, actions: seq<Action>)
    requires Possible(sqs, s, actions)
    decreases |actions|
  {
    s.flags.running && (actions != [] ==> KeepsRunning(sqs, Step(sqs, s, actions[0]), actions[1..]))
  }

  function Pulls(actions: seq<Action>): nat {
    if actions == [] then 0 else (if actions[0].Pull? then 1 else 0) + Pulls(actions[1..])
  }

  ghost function PullsDue(s: State): nat {
    if exists t: nat :: At(s, t).Pulling? then 1 else 0
  }

  /**
  A stop that finds the server running is not lost: as long as the server runs the flag stays set, and at most the
  one pull that was already due is still made.
  */
  lemma {:induction false} StopIsSeen(sqs: bool, s: State, actions: seq<Action>)
    requires Inv(s) && s.flags.stopRequested && Possible(sqs, s, actions) && KeepsRunning(sqs, s, actions)
    ensures After(sqs, s, actions).flags.stopRequested
    ensures Pulls(actions) + PullsDue(After(sqs, s, actions)) <= PullsDue(s) <= 1
    decreases |actions|
  {
    hide Inv, Step, Enabled;
    if actions != [] {
      StepInv(sqs, s, actions[0]);
      StepStopped(sqs, s, actions[0]);
      StopIsSeen(sqs, Step(sqs, s, actions[0]), actions[1..]);
    }
  }

  lemma {:induction false} StepStopped(sqs: bool, s: State, a: Action)
    requires Inv(s) && Enabled(sqs, s, a) && s.flags.running && s.flags.stopRequested && Step(sqs, s, a).flags.running
    ensures Step(sqs, s, a).flags.stopRequested
    ensures (if a.Pull? then 1 else 0) + PullsDue(Step(sqs, s, a)) <= PullsDue(s)
  {
    var s' := Step(sqs, s, a);
    forall t: nat | At(s', t).Pulling?
      ensures At(s, t).Pulling? && !a.Pull?
    {
      if Mover(a) != Some(t) {
        OthersStay(sqs, s, a, t);
      }
    }
    if a.Pull? {
      assert At(s, a.t).Pulling?;
    }
  }

  /** A stop that comes when the server does not run is forgotten by the next start, and only then. */
  lemma {:induction false} StopBeforeStartIsLost(sqs: bool, s: State, u: nat, t: nat)
    requires Inv(s) && Enabled(sqs, s, Stop(u)) && Enabled(sqs, s, Enter(t))
    ensures var stopped := Step(sqs, s, Stop(u));
            && Enabled(sqs, stopped, Enter(t))
            && Step(sqs, stopped, Enter(t)).flags.running
            && (Step(sqs, stopped, Enter(t)).flags.stopRequested <==> s.flags.running)
  {
  }

  // ----- nothing gets stuck -----

  lemma {:induction false} StepThen(sqs: bool, s: State, a: Action, rest: seq<Action>)
    requires Enabled(sqs, s, a) && Possible(sqs, Step(sqs, s, a), rest)
    ensures Possible(sqs, s, [a] + rest) && After(sqs, s, [a] + rest) == After(sqs, Step(sqs, s, a), rest)
  {
    hide Step, Enabled;
    assert ([a] + rest)[1..] == rest;
  }

  lemma {:induction false} RunThen(sqs: bool, s: State, actions: seq<Action>, more: seq<Action>)
    requires Possible(sqs, s, actions) && Possible(sqs, After(sqs, s, actions), more)
    ensures Possible(sqs, s, actions + more) && After(sqs, s, actions + more) == After(sqs, After(sqs, s, actions), more)
    decreases |actions|
  {
    hide Step, Enabled;
    if actions == [] {
      assert actions + more == more;
    } else {
      RunThen(sqs, Step(sqs, s, actions[0]), actions[1..], more);
      assert (actions + more)[1..] == actions[1..] + more;
    }
  }

  /** How far a call of start is from pulling. */
  function ToGo(at: Starter): nat {
    match at
    case Outside => 9
    case Configuring => 8
    case SettingUp => 7
    case Connecting => 6
    case Publishing(_) => 6
    case Handling(_) => 5
    case Testing(_) => 4
    case _ => 0
  }

  /**
  A call of start that finds the server not running, or that is under way on one that nobody has stopped, can get as
  far as pulling, in whatever state the server is, without an exception.
  */
  lemma {:induction false} CanPull(sqs: bool, s: State, t: nat) returns (actions: seq<Action>)
    requires Inv(s)
    requires if At(s, t).Outside? then !s.flags.running else !At(s, t).Ending? && !s.flags.stopRequested
    ensures Possible(sqs, s, actions) && At(After(sqs, s, actions), t) == Pulling(true)
    ensures forall a :: a in actions ==> Mover(a) == Some(t) && !a.Throw?
    decreases ToGo(At(s, t)), if At(s, t).Handling? then At(s, t).left else 0
  {
    if At(s, t).Pulling? {
      actions := [];
    } else {
      var client := Unused(s.created);
      var a :=
        match At(s, t)
        case Outside => Enter(t)
        case Configuring => Configure(t, true)
        case SettingUp => if sqs then Create(t, client) else TestSetup(t)
        case Connecting => Connect(t, true)
        case Publishing(_) => Publish(t)
        case Handling(_) => Handle(t)
        case _ => Test(t);
      StepInv(sqs, s, a);
      var rest := CanPull(sqs, Step(sqs, s, a), t);
      StepThen(sqs, s, a, rest);
      actions := [a] + rest;
    }
  }

  /** And so it can be sent any number of messages; while it handles them the same holds again. */
  lemma {:induction false} CanHandle(sqs: bool, s: State, t: nat, messages: nat) returns (actions: seq<Action>)
    requires Inv(s)
    requires if At(s, t).Outside? then !s.flags.running else !At(s, t).Ending? && !s.flags.stopRequested
    ensures Possible(sqs, s, actions + [Pull(t, messages)])
    ensures At(After(sqs, s, actions + [Pull(t, messages)]), t) == Handling(messages)
    ensures forall a :: a in actions ==> Mover(a) == Some(t) && !a.Throw?
  {
    hide Inv;
    actions := CanPull(sqs, s, t);
    var pull := [Pull(t, messages)];
    assert pull[1..] == [];
    RunThen(sqs, s, actions, pull);
  }

  /**
  A failed attempt to connect, an exception while a message is handled, and in Pub/Sub one while messages are pulled do
  not end the server: it can pull again. An exception of the SQS pull ends it.
  */
  lemma {:induction false} SurvivesExceptions(sqs: bool, s: State, t: nat, failure: Action) returns (actions: seq<Action>)
    requires Inv(s) && !s.flags.stopRequested && Enabled(sqs, s, failure)
    requires failure == Connect(t, false) || (failure == Throw(t, true) && (At(s, t).Handling? || At(s, t).Pulling?))
    ensures sqs && At(s, t).Pulling? ==> At(Step(sqs, s, failure), t) == Ending
    ensures !(sqs && At(s, t).Pulling?) ==>
              && Possible(sqs, s, [failure] + actions) && At(After(sqs, s, [failure] + actions), t) == Pulling(true)
              && forall a :: a in actions ==> Mover(a) == Some(t) && !a.Throw?
  {
    actions := [];
    if !(sqs && At(s, t).Pulling?) {
      StepInv(sqs, s, failure);
      actions := CanPull(sqs, Step(sqs, s, failure), t);
      StepThen(sqs, s, failure, actions);
    }
  }

  /** How far a call of start on a stopped server is from its end. */
  function ToEnd(at: Starter): nat {
    match at
    case Outside => 0
    case Ending => 1
    case Testing(_) => 2
    case Handling(_) => 3
    case Pulling(_) => 4
    case Connecting => 5
    case Publishing(_) => 5
    case SettingUp => 6
    case Configuring => 7
  }

  /** On a stopped server a call of start can go on to its end without an exception. */
  lemma {:induction false} CanEnd(sqs: bool, s: State, t: nat) returns (actions: seq<Action>)
    requires Inv(s) && s.flags.stopRequested && !At(s, t).Outside?
    ensures Possible(sqs, s, actions)
    ensures !After(sqs, s, actions).flags.running && After(sqs, s, actions).stoppers == s.stoppers
    ensures forall a :: a in actions ==> Mover(a) == Some(t) && !a.Throw?
    decreases ToEnd(At(s, t))
  {
    var client := Unused(s.created);
    var a :=
      match At(s, t)
      case Configuring => Configure(t, false)
      case SettingUp => if sqs then Create(t, client) else TestSetup(t)
      case Connecting => Connect(t, true)
      case Publishing(_) => Publish(t)
      case Pulling(_) => Pull(t, 0)
      case Handling(_) => Handle(t)
      case Ending => Leave(t)
      case _ => Test(t);
    StepInv(sqs, s, a);
    var rest: seq<Action> := [];
    if !a.Leave? {
      rest := CanEnd(sqs, Step(sqs, s, a), t);
    }
    StepThen(sqs, s, a, rest);
    actions := [a] + rest;
  }

  /** Whatever the server is doing, a stop that is called now can return, without an exception in any thread. */
  lemma {:induction false} EveryStopCanReturn(sqs: bool, s: State, u: nat) returns (actions: seq<Action>)
    requires Inv(s) && Stopping(s, u).Away?
    ensures Possible(sqs, s, [Stop(u)] + actions + [Return(u)])
    ensures Stopping(After(sqs, s, [Stop(u)] + actions + [Return(u)]), u).Away?
    ensures forall a :: a in actions ==> !a.Throw? && !a.Return? && !a.Stop?
  {
    hide *;
    StopSteps(sqs, s, u);
    var requested := Step(sqs, s, Stop(u));
    var waiting := Step(sqs, requested, Disable(u));
    var ending := CanEndIfRunning(sqs, waiting);
    var ended := After(sqs, waiting, ending);
    ReturnStep(sqs, ended, u);
    RunThen(sqs, waiting, ending, [Return(u)]);
    StepThen(sqs, requested, Disable(u), ending + [Return(u)]);
    StepThen(sqs, s, Stop(u), [Disable(u)] + (ending + [Return(u)]));
    actions := [Disable(u)] + ending;
    assert [Stop(u)] + actions + [Return(u)] == [Stop(u)] + ([Disable(u)] + (ending + [Return(u)]));
  }

  lemma {:induction false} StopSteps(sqs: bool, s: State, u: nat)
    requires Inv(s) && Stopping(s, u).Away?
    ensures Enabled(sqs, s, Stop(u)) && Enabled(sqs, Step(sqs, s, Stop(u)), Disable(u))
    ensures var waiting := Step(sqs, Step(sqs, s, Stop(u)), Disable(u));
            Inv(waiting) && waiting.flags.stopRequested && Stopping(waiting, u).Waiting?
  {
    StepInv(sqs, s, Stop(u));
    StepInv(sqs, Step(sqs, s, Stop(u)), Disable(u));
    hide Inv;
  }

  lemma {:induction false} CanEndIfRunning(sqs: bool, s: State) returns (actions: seq<Action>)
    requires Inv(s) && s.flags.stopRequested
    ensures Possible(sqs, s, actions)
    ensures !After(sqs, s, actions).flags.running && forall u :: Stopping(After(sqs, s, actions), u) == Stopping(s, u)
    ensures forall a :: a in actions ==> !a.Throw? && !a.Return? && !a.Stop?
  {
    actions := [];
    if s.flags.running {
      var t: nat :| !At(s, t).Outside?;
      actions := CanEnd(sqs, s, t);
      hide Possible, After, Inv;
    }
  }

  lemma {:induction false} ReturnStep(sqs: bool, s: State, u: nat)
    requires Stopping(s, u).Waiting? && !s.flags.running
    ensures Possible(sqs, s, [Return(u)]) && Stopping(After(sqs, s, [Return(u)]), u).Away?
  {
    assert [Return(u)][1..] == [];
  }

  lemma {:induction false} Unused(clients: set<nat>) returns (client: nat)
    ensures client !in clients
  {
    client := 0;
    var largest: nat := 0;
    var rest := clients;
    while rest != {}
      invariant rest <= clients && forall c :: c in clients && c !in rest ==> c <= largest
      decreases |rest|
    {
      var c :| c in rest;
      largest := if c > largest then c else largest;
      rest := rest - {c};
    }
    client := largest + 1;
  }
}
