/**
 * A client of the exported group catches up from wherever it is: with at most one
 * dispatch, at most one answer and the packets under way it holds the group.
 */
module ExporterProgress {
  import opened Wrappers
  import opened ActionGroupExporter

  // ---------------------------------------------------------------- whatever is pending can be reported

  lemma {:induction false} Listing<T>(expected: map<Name, T>) returns (entries: seq<(Name, T)>)
    ensures Lists(entries, expected)
    decreases |expected|
  {
    if n :| n in expected {
      var rest := Listing(expected - {n});
      AppendEntry(rest, n, expected[n]);
      entries := rest + [(n, expected[n])];
      assert (expected - {n})[n := expected[n]] == expected;
    } else {
      entries := [];
    }
  }

  lemma {:induction false} NamesOf(names: set<Name>) returns (s: seq<Name>)
    ensures forall n :: n in s <==> n in names
    decreases |names|
  {
    if n :| n in names {
      var rest := NamesOf(names - {n});
      s := rest + [n];
    } else {
      s := [];
    }
  }

  lemma SomeReport(pending: Pending, group: Group) returns (message: Changed)
    ensures Reports(message, pending, group)
  {
    var removals := NamesOf(Removals(pending));
    var enabledChanges := Listing(EnabledValues(pending, group));
    var stateChanges := Listing(StateValues(pending, group));
    var additions := Listing(Additions(pending, group));
    message := Changed(removals, enabledChanges, stateChanges, additions);
  }

  // ---------------------------------------------------------------- the packets arrive

  function Receives(n: nat): seq<Event> { seq(n, _ => Receive) }

  /** Receiving all there is on the wire makes the client what it was going to be. */
  lemma {:induction false} Drained(w: World)
    ensures ValidRun(w, Receives(|w.wire|))
    ensures Exec(w, Receives(|w.wire|)) == w.(client := View(w.client, w.wire), wire := [])
    decreases |w.wire|
  {
    if w.wire != [] {
      assert Receives(|w.wire|)[1..] == Receives(|w.wire| - 1);
      Drained(Step(w, Receive));
    }
  }

  lemma Cons(w: World, e: Event, rest: seq<Event>)
    requires Enabled(w, e) && ValidRun(Step(w, e), rest)
    ensures ValidRun(w, [e] + rest) && Exec(w, [e] + rest) == Exec(Step(w, e), rest)
  {
    assert ([e] + rest)[1..] == rest;
  }

  /** Nothing pending and asked: the packets under way are all that the client is missing. */
  lemma ReceivesGroup(w: World)
    requires Inv(w) && w.asked && !w.source
    ensures ValidRun(w, Receives(|w.wire|)) && Exec(w, Receives(|w.wire|)) == w.(client := Some(w.group), wire := [])
  {
    Drained(w);
    QuietMeansEqual(w);
  }

  lemma AnswerFirst(w: World) returns (events: seq<Event>)
    requires Inv(w) && !w.source
    ensures ValidRun(w, events) && Exec(w, events) == w.(client := Some(w.group), wire := [], asked := true)
    ensures |events| == |w.wire| + (if w.asked then 0 else 2)
    ensures forall e :: e in events ==> e.AnswerDescribeAll? || e.Receive?
  {
    if w.asked {
      events := Receives(|w.wire|);
      ReceivesGroup(w);
    } else {
      var entries := Listing(DescribedGroup(w.group));
      var e := AnswerDescribeAll(entries);
      StepKeepsInv(w, e);
      ReceivesGroup(Step(w, e));
      events := [e] + Receives(|w.wire| + 1);
      Cons(w, e, Receives(|w.wire| + 1));
    }
  }

  /**
   * From every state there is a run that makes the client hold the group, which
   * is not changed by it: a dispatch if something is pending, an answer if
   * the client has not asked yet, and as many packets as are then under way.
   */
  lemma ClientCatchesUp(w: World) returns (events: seq<Event>)
    requires Inv(w)
    ensures ValidRun(w, events)
    ensures
      var v := Exec(w, events);
      v.client == Some(w.group) && v.group == w.group && v.wire == [] && !v.source && v.asked
    ensures |events| == |w.wire| + (if w.source then 2 else 0) + (if w.asked then 0 else 2)
    ensures forall e :: e in events ==> e.Dispatch? || e.AnswerDescribeAll? || e.Receive?
  {
    if w.source {
      var message := SomeReport(w.pending, w.group);
      var e := Dispatch(message);
      StepKeepsInv(w, e);
      var rest := AnswerFirst(Step(w, e));
      Cons(w, e, rest);
      events := [e] + rest;
    } else {
      events := AnswerFirst(w);
    }
  }

  // ---------------------------------------------------------------- in whatever order

  /** How many dispatches, answers and packets are left. */
  function Remaining(w: World): nat
  {
    |w.wire| + (if w.source then 2 else 0) + if w.asked then 0 else 2
  }

  predicate Delivers(e: Event) { e.Dispatch? || e.AnswerDescribeAll? || e.Receive? }

  /** Every order of dispatching, answering and receiving takes equally long, */
  lemma {:induction false} OneNearerEach(w: World, events: seq<Event>)
    requires ValidRun(w, events) && forall e :: e in events ==> Delivers(e)
    ensures |events| + Remaining(Exec(w, events)) == Remaining(w) && Exec(w, events).group == w.group
    decreases |events|
  {
    if events != [] {
      assert Delivers(events[0]);
      OneNearerEach(Step(w, events[0]), events[1..]);
    }
  }

  /** and at its end, and only there, has the client asked and holds all there is. */
  lemma EveryOrderCatchesUp(w: World, events: seq<Event>)
    requires Inv(w) && ValidRun(w, events) && forall e :: e in events ==> Delivers(e)
    ensures |events| <= Remaining(w)
    ensures
      var v := Exec(w, events);
      |events| == Remaining(w) <==> v.asked && !v.source && v.wire == []
    ensures |events| == Remaining(w) ==> Exec(w, events).client == Some(w.group)
  {
    OneNearerEach(w, events);
    RunKeepsInv(w, events);
    var v := Exec(w, events);
    if v.asked && !v.source && v.wire == [] {
      QuietMeansEqual(v);
    }
  }
}
