/**
 * How one process becomes the primary instance of an application
 * (gio/gapplicationimpl-dbus.c): the steps one process takes, and the protocol
 * they make between any number of processes and the message bus.
 *
 * The bus follows the D-Bus Specification, section
 * "org.freedesktop.DBus.RequestName"; this client always says DO_NOT_QUEUE.
 */
module PrimaryElection {
  import opened Wrappers

  datatype Flags = Flags(launcher: bool, service: bool, allowReplacement: bool, replace: bool)

  datatype Message = RequestName(allowReplacement: bool, replace: bool) | ReleaseName

  const PRIMARY_OWNER := 1  // DBUS_REQUEST_NAME_REPLY_PRIMARY_OWNER
  const EXISTS := 3         // DBUS_REQUEST_NAME_REPLY_EXISTS

  /** The call of RequestName that a process makes. */
  function Asking(flags: Flags): Message { RequestName(flags.allowReplacement, flags.replace) }

  /** What the process takes the answer for. */
  predicate Wins(reply: nat) { reply != EXISTS }

  /** What a named process is on the bus: subscribed to NameLost, and the primary instance. */
  datatype Side = Side(subscribed: bool, primary: bool)

  const NO_SIDE := Side(false, false)

  /** While it waits for the answer to RequestName. */
  function Asked(flags: Flags): Side { Side(flags.allowReplacement, false) }

  /** With the answer, or when it has given up waiting for it. */
  function Answered(flags: Flags, reply: Option<nat>): Side
  {
    if reply.Some? && Wins(reply.value) then Side(flags.allowReplacement, true) else NO_SIDE
  }

  /** With a NameLost signal, which only a subscriber hears. */
  function Lost(side: Side): Side { if side.subscribed then NO_SIDE else side }

  /** What it says when it stops. */
  function Stopping(side: Side): seq<Message> { if side.primary then [ReleaseName] else [] }

  // ---------------------------------------------------------------- one process

  /** What the connection answers while the service side is set up; an id of 0 is a failure. */
  datatype Setup = Setup(objectId: nat, fdoObjectId: nat, actionsId: nat, hook: bool, nameLostSignal: nat)

  predicate SetUp(setup: Setup)
  {
    setup.objectId != 0 && setup.fdoObjectId != 0 && setup.actionsId != 0 && setup.hook
  }

  datatype Held = Object(id: nat) | FdoObject(id: nat) | Actions(id: nat) | Subscription(id: nat) | Hook

  datatype Registration = Failed | Primary | Remote | Standalone

  class GApplicationImpl {
    const flags: Flags
    const named: bool                 // whether there is a bus name: not so for non-unique applications
    var connected: bool
    var objectId: nat
    var fdoObjectId: nat
    var actionsId: nat
    var registered: bool
    var nameLostSignal: nat
    var primary: bool
    ghost var held: set<Held>         // what the connection and the application hold for this object
    ghost var sent: seq<Message>

    predicate Remembered(h: Held)
      reads this
    {
      match h
      case Object(id) => id == objectId && id != 0
      case FdoObject(id) => id == fdoObjectId && id != 0
      case Actions(id) => id == actionsId && id != 0
      case Subscription(id) => id == nameLostSignal && id != 0
      case Hook => registered
    }

    /** What is held is what the fields remember. */
    ghost predicate Valid()
      reads this
    {
      forall h :: h in held <==> Remembered(h)
    }

    ghost predicate Bare()
      reads this
    {
      objectId == fdoObjectId == actionsId == nameLostSignal == 0 && !registered && held == {}
    }

    function GetSide(): Side
      reads this
    {
      Side(nameLostSignal != 0, primary)
    }

    constructor (flags: Flags, named: bool)
      ensures this.flags == flags && this.named == named && Bare() && Valid() && !primary && !connected && sent == []
    {
      this.flags, this.named := flags, named;
      connected, primary, registered := false, false, false;
      objectId, fdoObjectId, actionsId, nameLostSignal := 0, 0, 0, 0;
      held, sent := {}, [];
    }

    /** The part of stop_primary that takes back the hook, the objects and the action group. */
    method StopService()
      requires Valid()
      modifies this`registered, this`objectId, this`fdoObjectId, this`actionsId, this`held
      ensures Valid() && !registered && objectId == fdoObjectId == actionsId == 0
    {
      if registered {
        registered, held := false, held - {Hook};
      }
      assert Valid();
      if objectId != 0 {
        held, objectId := held - {Object(objectId)}, 0;
      }
      assert Valid();
      if fdoObjectId != 0 {
        held, fdoObjectId := held - {FdoObject(fdoObjectId)}, 0;
      }
      assert Valid();
      if actionsId != 0 {
        held, actionsId := held - {Actions(actionsId)}, 0;
      }
    }

    /** Safe to call at any time; a primary with a bus name gives the name back. */
    method StopPrimary()
      requires Valid()
      modifies this
      ensures Valid() && Bare() && connected == old(connected)
      ensures primary == (old(primary) && !named)
      ensures named ==> GetSide() == NO_SIDE
      ensures sent == old(sent) + if named then Stopping(old(GetSide())) else []
      ensures sent == old(sent) + if old(primary) && named then [ReleaseName] else []
    {
      StopService();
      if nameLostSignal != 0 {
        held, nameLostSignal := held - {Subscription(nameLostSignal)}, 0;
      }
      if primary && named {
        sent, primary := sent + [ReleaseName], false;
      }
    }

    method NameLost()
      requires Valid()
      modifies this
      ensures Valid() && Bare() && !primary && sent == old(sent)
      ensures old(GetSide()).subscribed ==> GetSide() == Lost(old(GetSide()))
    {
      primary := false;
      StopPrimary();
    }

    /** The part of attempt_primary up to the call of RequestName. */
    method SetUpService(setup: Setup) returns (ok: bool)
      requires Valid() && Bare()
      modifies this`objectId, this`fdoObjectId, this`actionsId, this`registered, this`held
      ensures Valid() && nameLostSignal == 0
      ensures ok <==> SetUp(setup)
      ensures ok <==> setup.objectId != 0 && setup.fdoObjectId != 0 && setup.actionsId != 0 && setup.hook
      ensures ok ==> objectId == setup.objectId && fdoObjectId == setup.fdoObjectId && actionsId == setup.actionsId && registered
    {
      objectId := setup.objectId;
      if objectId == 0 {
        return false;
      }
      held := held + {Object(objectId)};
      fdoObjectId := setup.fdoObjectId;
      if fdoObjectId == 0 {
        return false;
      }
      held := held + {FdoObject(fdoObjectId)};
      actionsId := setup.actionsId;
      if actionsId == 0 {
        return false;
      }
      held := held + {Actions(actionsId)};
      registered, held := true, held + {Hook};
      ok := setup.hook;
    }

    /** `reply` is the bus's answer to RequestName; none when the call was cancelled or timed out. */
    method AttemptPrimary(setup: Setup, reply: Option<nat>) returns (ok: bool)
      requires Valid() && Bare() && !primary && setup.nameLostSignal != 0
      modifies this
      ensures Valid() && connected == old(connected)
      ensures ok <==> SetUp(setup) && (named ==> reply.Some?)
      ensures primary <==> ok && (named ==> reply.value != 3)
      ensures ok && !primary ==> nameLostSignal == 0
      ensures ok && named ==> GetSide() == Answered(flags, reply)
      ensures SetUp(setup) && named && reply.None? ==> GetSide() == Asked(flags)
      ensures primary ==>
        && objectId == setup.objectId && fdoObjectId == setup.fdoObjectId && actionsId == setup.actionsId && registered
        && nameLostSignal == (if named && flags.allowReplacement then setup.nameLostSignal else 0)
      ensures
        sent
        == old(sent)
           + if SetUp(setup) && named then [RequestName(flags.allowReplacement, flags.replace)] else []
    {
      ok := SetUpService(setup);
      if !ok {
        return;
      }
      if !named {
        primary := true;
        return;
      }
      if flags.allowReplacement {
        nameLostSignal, held := setup.nameLostSignal, held + {Subscription(setup.nameLostSignal)};
      }
      sent := sent + [Asking(flags)];
      if reply.None? {
        return false;
      }
      primary := Wins(reply.value);
      if !primary && nameLostSignal != 0 {
        held, nameLostSignal := held - {Subscription(nameLostSignal)}, 0;
      }
    }

    /**
     * Registration.  Unless it ends as the primary instance it leaves nothing
     * behind on the connection.  It gives the name back in no case: not even when
     * it sent RequestName and then did not wait for the answer.
     */
    method Register(bus: bool, setup: Setup, reply: Option<nat>, remoteExists: bool) returns (r: Registration)
      requires Valid() && Bare() && !primary && setup.nameLostSignal != 0
      modifies this
      ensures Valid()
      ensures r.Standalone? <==> !bus
      ensures
        r.Primary? <==>
          bus && !flags.launcher && SetUp(setup) && (named ==> reply.Some? && reply.value != 3)
      ensures
        r.Remote? <==>
          && bus && remoteExists
          && (flags.launcher || (SetUp(setup) && named && reply == Some(3) && !flags.service))
      ensures r.Primary? <==> primary
      ensures r.Primary? ==> objectId != 0 && fdoObjectId != 0 && actionsId != 0 && registered
      ensures r.Primary? ==> (nameLostSignal != 0 <==> named && flags.allowReplacement)
      ensures !r.Primary? ==> Bare()
      ensures bus && !flags.launcher && SetUp(setup) && named ==> GetSide() == Answered(flags, reply)
      ensures
        sent
        == old(sent)
           + if bus && !flags.launcher && SetUp(setup) && named
             then [RequestName(flags.allowReplacement, flags.replace)] else []
    {
      connected := bus;
      if !connected {
        return Standalone;
      }
      if !flags.launcher {
        var ok := AttemptPrimary(setup, reply);
        if !ok {
          StopPrimary();
          return Failed;
        }
        if primary {
          return Primary;
        }
        StopPrimary();
        if flags.service {
          StopPrimary();
          return Failed;
        }
      }
      if !remoteExists {
        StopPrimary();
        return Failed;
      }
      r := Remote;
    }
  }

  // ---------------------------------------------------------------- processes and the bus

  type Pid = nat

  datatype Signal = Reply(code: nat) | NameLost

  datatype Stage = Idle | Waiting | Done | Left

  /** A process that tries to own the name once; messages to and from the bus keep their order. */
  datatype Proc = Proc(
    flags: Flags,
    stage: Stage,
    subscribed: bool,
    primary: bool,
    toBus: seq<Message>,
    toProc: seq<Signal>)

  function GetSide(proc: Proc): Side { Side(proc.subscribed, proc.primary) }

  function With(proc: Proc, side: Side): Proc { proc.(subscribed := side.subscribed, primary := side.primary) }

  datatype Owner = Owner(pid: Pid, allowReplacement: bool)

  /** `abandoned`: the processes whose call of RequestName was cancelled or timed out. */
  datatype World = World(procs: map<Pid, Proc>, owner: Option<Owner>, abandoned: set<Pid>)

  datatype Event =
    | Request(p: Pid)
    | BusTakes(p: Pid)
    | Receive(p: Pid)
    | Abandon(p: Pid)
    | Stop(p: Pid)
    | Leave(p: Pid)     // the process's connection to the bus closes

  predicate Enabled(w: World, e: Event)
  {
    e.p in w.procs && OwnerKnown(w) &&
    var proc := w.procs[e.p];
    match e
    case Request(_) => proc.stage.Idle?
    case BusTakes(_) => proc.toBus != []
    case Receive(_) => proc.toProc != [] && (proc.stage.Waiting? ==> proc.toProc[0].Reply?)
    case Abandon(_) => proc.stage.Waiting?
    case Stop(_) => proc.stage.Done?
    case Leave(_) => !proc.stage.Left?
  }

  predicate OwnerKnown(w: World)
  {
    w.owner.Some? ==> w.owner.value.pid in w.procs
  }

  /** What the process does with the next message from the bus. */
  function Received(proc: Proc): Proc
    requires proc.toProc != []
  {
    var rest := proc.(toProc := proc.toProc[1..]);
    match proc.toProc[0]
    case Reply(code) =>
      if proc.stage.Waiting? then With(rest.(stage := Done), Answered(proc.flags, Some(code))) else rest
    case NameLost => With(rest, Lost(GetSide(proc)))
  }

  function Tell(w: World, p: Pid, s: Signal): World
    requires p in w.procs
  {
    w.(procs := w.procs[p := w.procs[p].(toProc := w.procs[p].toProc + [s])])
  }

  /** What the bus does with a RequestName of p. */
  function Requested(w: World, p: Pid, m: Message): World
    requires p in w.procs && m.RequestName? && OwnerKnown(w)
  {
    var granted := w.(owner := Some(Owner(p, m.allowReplacement)));
    match w.owner
    case None => Tell(granted, p, Reply(PRIMARY_OWNER))
    case Some(o) =>
      if m.replace && o.allowReplacement then Tell(Tell(granted, o.pid, NameLost), p, Reply(PRIMARY_OWNER))
      else Tell(w, p, Reply(EXISTS))
  }

  /** What the bus does with a ReleaseName of p. */
  function Released(w: World, p: Pid): World
    requires p in w.procs
  {
    if w.owner.Some? && w.owner.value.pid == p then Tell(w.(owner := None), p, NameLost) else w
  }

  function Step(w: World, e: Event): World
    requires Enabled(w, e)
  {
    var proc := w.procs[e.p];
    match e
    case Request(p) =>
      w.(procs := w.procs[p := With(proc.(stage := Waiting, toBus := [Asking(proc.flags)]), Asked(proc.flags))])
    case BusTakes(p) =>
      var taken := w.(procs := w.procs[p := proc.(toBus := proc.toBus[1..])]);
      if proc.toBus[0].RequestName? then Requested(taken, p, proc.toBus[0]) else Released(taken, p)
    case Receive(p) =>
      w.(procs := w.procs[p := Received(proc)])
    case Abandon(p) =>
      w.(procs := w.procs[p := With(proc.(stage := Done), Answered(proc.flags, None))],
         abandoned := w.abandoned + {p})
    case Stop(p) =>
      w.(procs := w.procs[p := With(proc.(toBus := proc.toBus + Stopping(GetSide(proc))), NO_SIDE)])
    case Leave(p) =>
      w.(procs := w.procs[p := Proc(proc.flags, Left, false, false, [], [])],
         owner := if Owns(w, p) then None else w.owner)
  }

  predicate Owns(w: World, p: Pid)
  {
    w.owner.Some? && w.owner.value.pid == p
  }

  /** Where a process can be, with its messages, given whether it owns the name and gave up on its request. */
  predicate Local(proc: Proc, owns: bool, abandoned: bool)
  {
    var request := [Asking(proc.flags)];
    match proc.stage
    case Idle =>
      !proc.subscribed && !proc.primary && proc.toBus == [] && proc.toProc == [] && !owns && !abandoned
    case Waiting =>
      && proc.subscribed == proc.flags.allowReplacement && !proc.primary && !abandoned
      && (|| (proc.toBus == request && proc.toProc == [] && !owns)
          || (proc.toBus == [] && proc.toProc == [Reply(PRIMARY_OWNER)] && owns)
          || (proc.toBus == [] && proc.toProc == [Reply(PRIMARY_OWNER), NameLost] && !owns && proc.flags.allowReplacement)
          || (proc.toBus == [] && proc.toProc == [Reply(EXISTS)] && !owns))
    case Done =>
      if proc.primary then
        && proc.subscribed == proc.flags.allowReplacement && proc.toBus == [] && !abandoned
        && (if owns then proc.toProc == [] else proc.toProc == [NameLost] && proc.subscribed)
      else if abandoned then
        && !proc.subscribed
        && (if owns then proc.toBus == [] && proc.toProc <= [Reply(PRIMARY_OWNER)]
            else proc.toBus == [] || (proc.toBus == request && proc.toProc == []))
      else
        && !proc.subscribed
        && (if owns then proc.toBus == [ReleaseName] && proc.toProc == [] else proc.toBus <= [ReleaseName])
    case Left =>
      !proc.subscribed && !proc.primary && proc.toBus == [] && proc.toProc == [] && !owns
  }

  ghost predicate Inv(w: World)
  {
    && (forall p :: p in w.procs ==> Local(w.procs[p], Owns(w, p), p in w.abandoned))
    && (w.owner.Some? ==>
          && w.owner.value.pid in w.procs
          && w.owner.value.allowReplacement == w.procs[w.owner.value.pid].flags.allowReplacement)
  }

  lemma RequestedKeepsInv(w: World, p: Pid)
    requires Inv(w) && p in w.procs && w.procs[p].toBus != []
    ensures Inv(Step(w, BusTakes(p)))
  {
    var v := Step(w, BusTakes(p));
    var proc := w.procs[p];
    forall q | q in v.procs
      ensures Local(v.procs[q], Owns(v, q), q in v.abandoned)
    {
      assert Local(w.procs[q], Owns(w, q), q in w.abandoned);
      if q == p {
      } else if Owns(w, q) {
      }
    }
  }

  lemma StepKeepsInv(w: World, e: Event)
    requires Inv(w) && Enabled(w, e)
    ensures Inv(Step(w, e))
  {
    if e.BusTakes? {
      RequestedKeepsInv(w, e.p);
    } else {
      var v := Step(w, e);
      forall q | q in v.procs
        ensures Local(v.procs[q], Owns(v, q), q in v.abandoned)
      {
        assert Local(w.procs[q], Owns(w, q), q in w.abandoned);
      }
    }
  }

  lemma StepKeepsProcs(w: World, e: Event)
    requires Inv(w) && Enabled(w, e)
    ensures Step(w, e).procs.Keys == w.procs.Keys
  {
  }

  // ---------------------------------------------------------------- whole runs

  ghost predicate Initial(w: World)
  {
    && w.owner.None? && w.abandoned == {}
    && forall p :: p in w.procs ==> w.procs[p] == Proc(w.procs[p].flags, Idle, false, false, [], [])
  }

  predicate ValidRun(w: World, events: seq<Event>)
    decreases |events|
  {
    events == [] || (Enabled(w, events[0]) && ValidRun(Step(w, events[0]), events[1..]))
  }

  function Exec(w: World, events: seq<Event>): World
    requires ValidRun(w, events)
    decreases |events|
  {
    if events == [] then w else Exec(Step(w, events[0]), events[1..])
  }

  lemma {:induction false} RunKeepsInv(w: World, events: seq<Event>)
    requires Inv(w) && ValidRun(w, events)
    ensures Inv(Exec(w, events)) && Exec(w, events).procs.Keys == w.procs.Keys
    decreases |events|
  {
    if events != [] {
      StepKeepsInv(w, events[0]);
      StepKeepsProcs(w, events[0]);
      RunKeepsInv(Step(w, events[0]), events[1..]);
    }
  }

  /** In every reachable state: */
  lemma Election(w: World, events: seq<Event>, p: Pid)
    requires Initial(w) && ValidRun(w, events) && p in w.procs
    ensures
      var v := Exec(w, events);
      && p in v.procs
      // a primary instance owns the name or has an undelivered NameLost it is subscribed to;
      && (v.procs[p].primary ==> Owns(v, p) || (v.procs[p].subscribed && v.procs[p].toProc == [NameLost]))
      // an owner is primary, will be with the reply it has yet to read, or is giving the name back, unless it
      // gave up on its request, and then it is none of these;
      && (Owns(v, p) ==>
            (p !in v.abandoned <==>
               || v.procs[p].primary
               || (v.procs[p].stage.Waiting? && v.procs[p].toProc == [Reply(PRIMARY_OWNER)])
               || v.procs[p].toBus == [ReleaseName]))
      // of the primary instances with nothing left to deliver to them, there is at most one.
      && (forall q ::
            q in v.procs && v.procs[p].primary && v.procs[q].primary && v.procs[p].toProc == v.procs[q].toProc == [] ==>
              p == q)
  {
    RunKeepsInv(w, events);
    var v := Exec(w, events);
    assert Local(v.procs[p], Owns(v, p), p in v.abandoned);
    forall q | q in v.procs && v.procs[p].primary && v.procs[q].primary && v.procs[p].toProc == v.procs[q].toProc == []
      ensures p == q
    {
      assert Local(v.procs[q], Owns(v, q), q in v.abandoned);
    }
  }

  /** Everything is delivered and nobody waits. */
  ghost predicate Settled(w: World)
  {
    forall p :: p in w.procs ==> w.procs[p].toBus == [] && w.procs[p].toProc == [] && !w.procs[p].stage.Waiting?
  }

  /** When all is delivered the primary instances are the owner and nobody else, unless it is an abandoned one. */
  lemma SettledPrimary(w: World, events: seq<Event>, p: Pid)
    requires Initial(w) && ValidRun(w, events) && Settled(Exec(w, events)) && p in w.procs
    ensures
      var v := Exec(w, events);
      p in v.procs && (v.procs[p].primary <==> Owns(v, p) && p !in v.abandoned)
  {
    RunKeepsInv(w, events);
    var v := Exec(w, events);
    assert Local(v.procs[p], Owns(v, p), p in v.abandoned);
  }

  /** Nobody gives up on a request, and the owner of the name neither stops nor leaves. */
  predicate Loyal(w: World, events: seq<Event>)
    requires ValidRun(w, events)
    decreases |events|
  {
    events == [] || (LoyalStep(w, events[0]) && Loyal(Step(w, events[0]), events[1..]))
  }

  predicate LoyalStep(w: World, e: Event)
  {
    !e.Abandon? && !((e.Stop? || e.Leave?) && Owns(w, e.p))
  }

  /** Then the owner releases nothing, and a request that was answered left an owner behind. */
  ghost predicate Contended(w: World)
  {
    && w.abandoned == {}
    && forall p :: p in w.procs ==>
      && (ReleaseName in w.procs[p].toBus ==> !Owns(w, p) && w.owner.Some?)
      && (w.procs[p].stage.Done? ==> w.owner.Some?)
      && (w.procs[p].toProc != [] ==> w.owner.Some?)
  }

  lemma StepKeepsContended(w: World, e: Event)
    requires Inv(w) && Contended(w) && Enabled(w, e) && LoyalStep(w, e)
    ensures Contended(Step(w, e))
  {
    assert Local(w.procs[e.p], Owns(w, e.p), e.p in w.abandoned);
    if e.BusTakes? {
      assert w.procs[e.p].toBus[0] in w.procs[e.p].toBus;
    }
  }

  lemma {:induction false} RunKeepsContended(w: World, events: seq<Event>)
    requires Inv(w) && Contended(w) && ValidRun(w, events) && Loyal(w, events)
    ensures Inv(Exec(w, events)) && Contended(Exec(w, events))
    decreases |events|
  {
    if events != [] {
      StepKeepsInv(w, events[0]);
      StepKeepsContended(w, events[0]);
      RunKeepsContended(Step(w, events[0]), events[1..]);
    }
  }

  /**
   * As long as nobody gives up on a request and the owner stays, a race in which
   * anybody got an answer has exactly one winner.
   */
  lemma OneWins(w: World, events: seq<Event>, p: Pid) returns (winner: Pid)
    requires Initial(w) && ValidRun(w, events) && Loyal(w, events) && Settled(Exec(w, events))
    requires p in Exec(w, events).procs && Exec(w, events).procs[p].stage.Done?
    ensures
      var v := Exec(w, events);
      winner in v.procs && forall q :: q in v.procs ==> (v.procs[q].primary <==> q == winner)
  {
    RunKeepsContended(w, events);
    RunKeepsInv(w, events);
    var v := Exec(w, events);
    winner := v.owner.value.pid;
    forall q | q in v.procs
      ensures v.procs[q].primary <==> q == winner
    {
      SettledPrimary(w, events, q);
    }
  }

  // ---------------------------------------------------------------- taking over

  /**
   * The bus takes a request: a free name is granted, an owner that allows it is
   * replaced by a process that asks for it, and every other owner stays.
   */
  lemma Takeover(w: World, p: Pid)
    requires Inv(w) && p in w.procs && w.procs[p].stage.Waiting? && w.procs[p].toBus != []
    ensures Enabled(w, BusTakes(p)) && !Owns(w, p)
    ensures
      var v, flags := Step(w, BusTakes(p)), w.procs[p].flags;
      && v.procs.Keys == w.procs.Keys && v.procs[p].toBus == []
      && (w.owner.None? ==>
            && v.owner == Some(Owner(p, flags.allowReplacement)) && v.procs[p].toProc == [Reply(1)]
            && v.procs == w.procs[p := v.procs[p]])
      && (w.owner.Some? ==>
            var o := w.owner.value.pid;
            && o in w.procs
            && if flags.replace && w.procs[o].flags.allowReplacement
               then
                 && v.owner == Some(Owner(p, flags.allowReplacement)) && v.procs[p].toProc == [Reply(1)]
                 && v.procs[o].toProc == w.procs[o].toProc + [NameLost]
                 && v.procs == w.procs[p := v.procs[p]][o := v.procs[o]]
               else
                 && v.owner == w.owner && v.procs[p].toProc == [Reply(3)]
                 && v.procs == w.procs[p := v.procs[p]])
  {
    assert Local(w.procs[p], Owns(w, p), p in w.abandoned);
  }

  /** The bus takes a release: the owner's makes the name free, anybody else's changes nothing. */
  lemma ReleaseTaken(w: World, p: Pid)
    requires Inv(w) && p in w.procs && w.procs[p].toBus != [] && w.procs[p].toBus[0] == ReleaseName
    ensures Enabled(w, BusTakes(p))
    ensures
      var v := Step(w, BusTakes(p));
      && v.owner == (if Owns(w, p) then None else w.owner)
      && v.procs == w.procs[p := v.procs[p]] && !v.procs[p].primary
      && v.procs[p].toProc == w.procs[p].toProc + if Owns(w, p) then [NameLost] else []
  {
    assert Local(w.procs[p], Owns(w, p), p in w.abandoned);
  }

  /** A primary instance that stops is none from then on, and its name is free when the bus hears of it. */
  lemma StoppingFreesTheName(w: World, p: Pid)
    requires Inv(w) && Enabled(w, Stop(p)) && w.procs[p].primary && w.procs[p].toProc == []
    ensures
      var v := Step(w, Stop(p));
      && !v.procs[p].primary && !v.procs[p].subscribed && v.procs[p].toBus == [ReleaseName]
      && Enabled(v, BusTakes(p)) && Step(v, BusTakes(p)).owner.None?
  {
    assert Local(w.procs[p], Owns(w, p), p in w.abandoned);
    StepKeepsInv(w, Stop(p));
    ReleaseTaken(Step(w, Stop(p)), p);
  }

  /** What was the primary instance is none once it has heard of it, and who took over is one with the reply. */
  lemma TakeoverCompletes(w: World, p: Pid)
    requires Inv(w) && p in w.procs && w.procs[p].stage.Waiting? && w.procs[p].toBus != [] && w.procs[p].flags.replace
    requires w.owner.Some? && w.procs[w.owner.value.pid].flags.allowReplacement && w.procs[w.owner.value.pid].primary
    ensures
      var o, v := w.owner.value.pid, Step(w, BusTakes(p));
      && Enabled(v, Receive(o)) && Enabled(Step(v, Receive(o)), Receive(p))
      && var u := Step(Step(v, Receive(o)), Receive(p));
         u.procs[p].primary && !u.procs[o].primary && Owns(u, p) && u.procs[o].toBus == []
  {
    assert Local(w.procs[p], Owns(w, p), p in w.abandoned);
    assert Local(w.procs[w.owner.value.pid], true, w.owner.value.pid in w.abandoned);
    Takeover(w, p);
  }

  // ---------------------------------------------------------------- giving up on the request

  /** The bus gave p the name, and p does not know and never will. */
  ghost predicate Orphaned(w: World, p: Pid)
  {
    Owns(w, p) && p in w.abandoned && !w.owner.value.allowReplacement
  }

  lemma StepKeepsOrphaned(w: World, e: Event, p: Pid)
    requires Inv(w) && Orphaned(w, p) && Enabled(w, e)
    ensures Orphaned(Step(w, e), p) <==> e != Leave(p)
    ensures e == Leave(p) ==> Step(w, e).procs[p].stage.Left? && Step(w, e).owner.None?
  {
    assert Local(w.procs[p], Owns(w, p), p in w.abandoned);
  }

  lemma StepKeepsLeft(w: World, e: Event, p: Pid)
    requires Inv(w) && Enabled(w, e) && p in w.procs && w.procs[p].stage.Left?
    ensures p in Step(w, e).procs && Step(w, e).procs[p].stage.Left?
  {
    assert Local(w.procs[p], Owns(w, p), p in w.abandoned);
  }

  lemma {:induction false} LeftForGood(w: World, events: seq<Event>, p: Pid)
    requires Inv(w) && ValidRun(w, events) && p in w.procs && w.procs[p].stage.Left?
    ensures !Owns(Exec(w, events), p)
    decreases |events|
  {
    assert Local(w.procs[p], Owns(w, p), p in w.abandoned);
    if events != [] {
      StepKeepsInv(w, events[0]);
      StepKeepsLeft(w, events[0], p);
      LeftForGood(Step(w, events[0]), events[1..], p);
    }
  }

  /**
   * An orphaned name that allows no replacement is lost to everybody exactly as long
   * as the process that has it does not leave the bus.
   */
  lemma {:induction false} OrphanedUntilLeft(w: World, events: seq<Event>, p: Pid)
    requires Inv(w) && Orphaned(w, p) && ValidRun(w, events)
    ensures Orphaned(Exec(w, events), p) <==> Leave(p) !in events
    ensures
      var v := Exec(w, events);
      Leave(p) !in events && Settled(v) ==> forall q :: q in v.procs ==> !v.procs[q].primary
    decreases |events|
  {
    if events == [] {
      forall q | q in w.procs && Settled(w)
        ensures !w.procs[q].primary
      {
        assert Local(w.procs[q], Owns(w, q), q in w.abandoned);
      }
    } else {
      StepKeepsInv(w, events[0]);
      StepKeepsOrphaned(w, events[0], p);
      if events[0] == Leave(p) {
        LeftForGood(Step(w, events[0]), events[1..], p);
      } else {
        OrphanedUntilLeft(Step(w, events[0]), events[1..], p);
      }
    }
  }

  /** When it leaves, the next to be heard gets the name. */
  lemma LeavingFreesTheName(w: World, p: Pid, q: Pid)
    requires Inv(w) && Orphaned(w, p) && q in w.procs && q != p && w.procs[q].stage.Waiting? && w.procs[q].toBus != []
    ensures
      && Enabled(w, Leave(p)) && Enabled(Step(w, Leave(p)), BusTakes(q))
      && Owns(Step(Step(w, Leave(p)), BusTakes(q)), q)
  {
    assert Local(w.procs[p], Owns(w, p), p in w.abandoned);
    assert Local(w.procs[q], Owns(w, q), q in w.abandoned);
  }

  /** One more step at the end of a run. */
  lemma {:induction false} Then(w: World, events: seq<Event>, e: Event)
    requires ValidRun(w, events) && Enabled(Exec(w, events), e)
    ensures ValidRun(w, events + [e]) && Exec(w, events + [e]) == Step(Exec(w, events), e)
    decreases |events|
  {
    if events == [] {
      assert ([] + [e])[1..] == [];
    } else {
      assert (events + [e])[1..] == events[1..] + [e];
      Then(Step(w, events[0]), events[1..], e);
    }
  }

  const PLAIN := Flags(false, false, false, false)

  function Client(stage: Stage, toBus: seq<Message>, toProc: seq<Signal>): Proc
  {
    Proc(PLAIN, stage, false, false, toBus, toProc)
  }

  const REQUEST := RequestName(false, false)

  const FIRST_OWNS := Some(Owner(1, false))

  const BOTH_IDLE := World(map[1 := Client(Idle, [], []), 2 := Client(Idle, [], [])], None, {})

  const GAVE_UP := World(map[1 := Client(Done, [], []), 2 := Client(Idle, [], [])], FIRST_OWNS, {1})

  predicate Leads(events: seq<Event>, v: World)
  {
    ValidRun(BOTH_IDLE, events) && Exec(BOTH_IDLE, events) == v
  }

  lemma FirstGivesUp() returns (events: seq<Event>)
    ensures Initial(BOTH_IDLE) && Leads(events, GAVE_UP)
    ensures events == [Request(1), BusTakes(1), Abandon(1), Receive(1)]
  {
    events := [];
    var asked := World(map[1 := Client(Waiting, [REQUEST], []), 2 := Client(Idle, [], [])], None, {});
    Then(BOTH_IDLE, events, Request(1));
    assert Step(BOTH_IDLE, Request(1)) == asked;
    events := events + [Request(1)];
    var granted := World(map[1 := Client(Waiting, [], [Reply(1)]), 2 := Client(Idle, [], [])], FIRST_OWNS, {});
    Then(BOTH_IDLE, events, BusTakes(1));
    assert [REQUEST][1..] == [] && [] + [Reply(1)] == [Reply(1)];
    assert Step(asked, BusTakes(1)) == granted;
    events := events + [BusTakes(1)];
    var unread := World(map[1 := Client(Done, [], [Reply(1)]), 2 := Client(Idle, [], [])], FIRST_OWNS, {1});
    Then(BOTH_IDLE, events, Abandon(1));
    assert Step(granted, Abandon(1)) == unread;
    events := events + [Abandon(1)];
    Then(BOTH_IDLE, events, Receive(1));
    assert [Reply(1)][1..] == [];
    assert Step(unread, Receive(1)) == GAVE_UP;
    events := events + [Receive(1)];
  }

  const REFUSED := World(map[1 := Client(Done, [], []), 2 := Client(Waiting, [], [Reply(3)])], FIRST_OWNS, {1})

  lemma SecondIsRefused() returns (events: seq<Event>)
    ensures Initial(BOTH_IDLE) && Leads(events, REFUSED)
    ensures events == [Request(1), BusTakes(1), Abandon(1), Receive(1), Request(2), BusTakes(2)]
  {
    events := FirstGivesUp();
    var asked := World(map[1 := Client(Done, [], []), 2 := Client(Waiting, [REQUEST], [])], FIRST_OWNS, {1});
    Then(BOTH_IDLE, events, Request(2));
    assert Step(GAVE_UP, Request(2)) == asked;
    events := events + [Request(2)];
    Then(BOTH_IDLE, events, BusTakes(2));
    assert [REQUEST][1..] == [] && [] + [Reply(3)] == [Reply(3)];
    assert Step(asked, BusTakes(2)) == REFUSED;
    events := events + [BusTakes(2)];
  }

  /** The second process finds the name taken, though no primary instance is left and nobody left the bus. */
  lemma AbandonedRequestWins() returns (events: seq<Event>)
    ensures Initial(BOTH_IDLE) && ValidRun(BOTH_IDLE, events)
    ensures
      var v := Exec(BOTH_IDLE, events);
      && Settled(v) && Orphaned(v, 1) && Request(2) in events && Stop(2) !in events && Abandon(2) !in events
      && v.procs.Keys == {1, 2} && forall p :: p in v.procs ==> v.procs[p].stage.Done? && !v.procs[p].primary
  {
    events := SecondIsRefused();
    var v := World(map[1 := Client(Done, [], []), 2 := Client(Done, [], [])], FIRST_OWNS, {1});
    Then(BOTH_IDLE, events, Receive(2));
    assert [Reply(3)][1..] == [];
    assert Step(REFUSED, Receive(2)) == v;
    events := events + [Receive(2)];
  }
}
