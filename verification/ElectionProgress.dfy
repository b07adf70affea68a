/**
 * Every race for the name is decided: as long as only messages are delivered, there
 * are only so many to deliver, and when none is left nobody waits.
 */
module ElectionProgress {
  import opened Wrappers
  import opened PrimaryElection

  datatype Direction = ToBus | ToProc

  function Length(proc: Proc, d: Direction): nat
  {
    match d
    case ToBus => |proc.toBus|
    case ToProc => |proc.toProc|
  }

  /** The messages under way in one direction, each by its process and its place. */
  function UnderWay(procs: map<Pid, Proc>, d: Direction): set<(Pid, nat)>
  {
    set p, i: nat | p in procs && 0 <= i < Length(procs[p], d) :: (p, i)
  }

  function Places(p: Pid, n: nat): set<(Pid, nat)> { set i: nat | 0 <= i < n :: (p, i) }

  lemma {:induction false} PlacesCount(p: Pid, n: nat)
    ensures |Places(p, n)| == n
  {
    if n > 0 {
      PlacesCount(p, n - 1);
      assert Places(p, n) == Places(p, n - 1) + {(p, n - 1)};
    }
  }

  lemma OfOthers(procs: map<Pid, Proc>, p: Pid, d: Direction)
    requires p in procs
    ensures |UnderWay(procs, d)| == |UnderWay(procs - {p}, d)| + Length(procs[p], d)
  {
    PlacesCount(p, Length(procs[p], d));
    assert UnderWay(procs, d) == UnderWay(procs - {p}, d) + Places(p, Length(procs[p], d));
  }

  lemma Replaced(procs: map<Pid, Proc>, p: Pid, proc: Proc, d: Direction)
    requires p in procs
    ensures |UnderWay(procs[p := proc], d)| == |UnderWay(procs, d)| - Length(procs[p], d) + Length(proc, d)
  {
    OfOthers(procs, p, d);
    OfOthers(procs[p := proc], p, d);
    assert procs[p := proc] - {p} == procs - {p};
  }

  /** A message to the bus makes at most two from it. */
  function Load(procs: map<Pid, Proc>): nat { 3 * |UnderWay(procs, ToBus)| + |UnderWay(procs, ToProc)| }

  lemma LoadReplaced(procs: map<Pid, Proc>, p: Pid, proc: Proc)
    requires p in procs
    ensures
      Load(procs[p := proc])
      == Load(procs) - 3 * |procs[p].toBus| - |procs[p].toProc| + 3 * |proc.toBus| + |proc.toProc|
  {
    Replaced(procs, p, proc, ToBus);
    Replaced(procs, p, proc, ToProc);
  }

  lemma TellLoad(w: World, p: Pid, s: Signal)
    requires p in w.procs
    ensures Load(Tell(w, p, s).procs) == Load(w.procs) + 1
  {
    LoadReplaced(w.procs, p, Tell(w, p, s).procs[p]);
  }

  lemma RequestedLoad(w: World, p: Pid, m: Message)
    requires p in w.procs && m.RequestName? && OwnerKnown(w)
    ensures Load(Requested(w, p, m).procs) <= Load(w.procs) + 2
  {
    var granted := w.(owner := Some(Owner(p, m.allowReplacement)));
    match w.owner
    case None => TellLoad(granted, p, Reply(PRIMARY_OWNER));
    case Some(o) =>
      if m.replace && o.allowReplacement {
        TellLoad(granted, o.pid, NameLost);
        TellLoad(Tell(granted, o.pid, NameLost), p, Reply(PRIMARY_OWNER));
      } else {
        TellLoad(w, p, Reply(EXISTS));
      }
  }

  lemma ReleasedLoad(w: World, p: Pid)
    requires p in w.procs
    ensures Load(Released(w, p).procs) <= Load(w.procs) + 1
  {
    TellLoad(w.(owner := None), p, NameLost);
  }

  predicate Delivers(e: Event) { e.BusTakes? || e.Receive? }

  lemma StepIsNearer(w: World, e: Event)
    requires Enabled(w, e) && Delivers(e)
    ensures Load(Step(w, e).procs) < Load(w.procs)
  {
    var proc := w.procs[e.p];
    if e.Receive? {
      LoadReplaced(w.procs, e.p, Received(proc));
    } else {
      var rest := proc.(toBus := proc.toBus[1..]);
      var taken := w.(procs := w.procs[e.p := rest]);
      LoadReplaced(w.procs, e.p, rest);
      if proc.toBus[0].RequestName? {
        RequestedLoad(taken, e.p, proc.toBus[0]);
      } else {
        ReleasedLoad(taken, e.p);
      }
    }
  }

  predicate AllDeliver(events: seq<Event>) { forall e :: e in events ==> Delivers(e) }

  /** In whatever order messages are delivered, there are no more than so many. */
  lemma {:induction false} NoEndlessDelivery(w: World, events: seq<Event>)
    requires ValidRun(w, events) && AllDeliver(events)
    ensures |events| + Load(Exec(w, events).procs) <= Load(w.procs)
    decreases |events|
  {
    if events != [] {
      StepIsNearer(w, events[0]);
      NoEndlessDelivery(Step(w, events[0]), events[1..]);
    }
  }

  /** As long as there is a message, or somebody who waits, one can be delivered. */
  lemma SomethingToDeliver(w: World) returns (e: Event)
    requires Inv(w) && !Settled(w)
    ensures Enabled(w, e) && Delivers(e)
  {
    var p :| p in w.procs && !(w.procs[p].toBus == [] && w.procs[p].toProc == [] && !w.procs[p].stage.Waiting?);
    assert Local(w.procs[p], Owns(w, p), p in w.abandoned);
    e := if w.procs[p].toBus != [] then BusTakes(p) else Receive(p);
  }

  /** From every state, all can be delivered. */
  lemma {:induction false} AllDelivered(w: World) returns (events: seq<Event>)
    requires Inv(w)
    ensures ValidRun(w, events) && AllDeliver(events) && |events| <= Load(w.procs) && Settled(Exec(w, events))
    decreases Load(w.procs)
  {
    if Settled(w) {
      events := [];
    } else {
      var e := SomethingToDeliver(w);
      StepKeepsInv(w, e);
      StepIsNearer(w, e);
      var rest := AllDelivered(Step(w, e));
      events := [e] + rest;
      assert events[1..] == rest;
    }
  }

  // ---------------------------------------------------------------- races

  /** It has asked for the name. */
  predicate Racing(w: World, p: Pid) { p in w.procs && (w.procs[p].stage.Waiting? || w.procs[p].stage.Done?) }

  lemma DeliveryKeepsRacing(w: World, e: Event, p: Pid)
    requires Enabled(w, e) && Delivers(e) && Racing(w, p)
    ensures Racing(Step(w, e), p) && LoyalStep(w, e)
  {
  }

  lemma {:induction false} StaysRacing(w: World, events: seq<Event>, p: Pid)
    requires ValidRun(w, events) && AllDeliver(events) && Racing(w, p)
    ensures Racing(Exec(w, events), p) && Loyal(w, events)
    decreases |events|
  {
    if events != [] {
      DeliveryKeepsRacing(w, events[0], p);
      StaysRacing(Step(w, events[0]), events[1..], p);
    }
  }

  lemma {:induction false} OneAfterTheOther(w: World, a: seq<Event>, b: seq<Event>)
    requires ValidRun(w, a) && Loyal(w, a) && ValidRun(Exec(w, a), b) && Loyal(Exec(w, a), b)
    ensures ValidRun(w, a + b) && Loyal(w, a + b) && Exec(w, a + b) == Exec(Exec(w, a), b)
    decreases |a|
  {
    if a == [] {
      assert a + b == b;
    } else {
      assert (a + b)[1..] == a[1..] + b;
      OneAfterTheOther(Step(w, a[0]), a[1..], b);
    }
  }

  /**
   * Wherever a race stands in which nobody gave up and the owner stayed: whichever
   * way the messages under way are delivered, and they can be, exactly one of its
   * processes comes out as the primary instance.
   */
  lemma EveryRaceIsWon(w: World, events: seq<Event>, more: seq<Event>, p: Pid) returns (winner: Pid)
    requires Initial(w) && ValidRun(w, events) && Loyal(w, events) && Racing(Exec(w, events), p)
    requires ValidRun(Exec(w, events), more) && AllDeliver(more) && Settled(Exec(Exec(w, events), more))
    ensures
      var v := Exec(Exec(w, events), more);
      winner in v.procs && forall q :: q in v.procs ==> (v.procs[q].primary <==> q == winner)
  {
    StaysRacing(Exec(w, events), more, p);
    OneAfterTheOther(w, events, more);
    winner := OneWins(w, events + more, p);
  }

  lemma EveryRaceEnds(w: World, events: seq<Event>) returns (more: seq<Event>)
    requires Initial(w) && ValidRun(w, events)
    ensures ValidRun(Exec(w, events), more) && AllDeliver(more) && Settled(Exec(Exec(w, events), more))
    ensures |more| <= Load(Exec(w, events).procs)
  {
    RunKeepsInv(w, events);
    more := AllDelivered(Exec(w, events));
  }
}
