/**
 * How long an application runs and when it says that it is busy: the counters,
 * the inactivity timer and the busy bindings of gio/gapplication.c, and the flag
 * that gio/gapplicationimpl-dbus.c publishes.
 */
module ApplicationLifetime {
  type Milliseconds = nat

  const SERVICE_TIMEOUT := 10000

  /** A boolean property of an object. */
  datatype Property = Property(object_: nat, name: string)

  /** What can be done to an application; a turn of the main loop does any number of these. */
  datatype Event =
    | Hold
    | Release
    | Expire
    | Quit
    | MarkBusy
    | UnmarkBusy
    | Bind(property: Property, value: bool)
    | Unbind(property: Property)
    | Notify(property: Property, value: bool)
    | SetInactivityTimeout(timeout: Milliseconds)

  /** The bindings whose property is TRUE. */
  function Busy(bindings: map<Property, bool>): set<Property>
  {
    set p | p in bindings && bindings[p]
  }

  function Others(bindings: map<Property, bool>, p: Property): set<Property>
  {
    set q | q in bindings && bindings[q] && q != p
  }

  lemma BusySplit(bindings: map<Property, bool>, p: Property)
    ensures |Busy(bindings)| == |Others(bindings, p)| + if p in bindings && bindings[p] then 1 else 0
  {
    assert Busy(bindings) == Others(bindings, p) + if p in bindings && bindings[p] then {p} else {};
  }

  lemma BusyAfter(bindings: map<Property, bool>, p: Property, value: bool)
    ensures
      |Busy(bindings[p := value])|
      == |Busy(bindings)| + (if value then 1 else 0) - if p in bindings && bindings[p] then 1 else 0
  {
    BusySplit(bindings, p);
    BusySplit(bindings[p := value], p);
    assert Others(bindings[p := value], p) == Others(bindings, p);
  }

  lemma BusyWithout(bindings: map<Property, bool>, p: Property)
    ensures
      |Busy(bindings - {p})| == |Busy(bindings)| - if p in bindings && bindings[p] then 1 else 0
  {
    BusySplit(bindings, p);
    BusySplit(bindings - {p}, p);
    assert Others(bindings - {p}, p) == Others(bindings, p);
  }

  // ---------------------------------------------------------------- what decides when the application ends

  /** What the holds and the timer are, whether to quit, the marks and the busy bindings. */
  datatype Life = Life(
    useCount: nat, timer: bool, timeout: Milliseconds, quit: bool, marks: nat, bindings: map<Property, bool>)

  predicate Ends(l: Life) { l.quit || (l.useCount == 0 && !l.timer) }

  function Next(l: Life, e: Event): Life
  {
    match e
    case Hold => l.(useCount := l.useCount + 1, timer := false)
    case Release =>
      if l.useCount == 0 then l
      else l.(useCount := l.useCount - 1, timer := l.timer || (l.useCount == 1 && l.timeout != 0))
    case Expire => l.(timer := false)
    case Quit => l.(quit := true)
    case SetInactivityTimeout(timeout) => l.(timeout := timeout)
    case MarkBusy => l.(marks := l.marks + 1)
    case UnmarkBusy => l.(marks := if l.marks > 0 then l.marks - 1 else 0)
    case Bind(p, value) => if p in l.bindings then l else l.(bindings := l.bindings[p := value])
    case Unbind(p) => l.(bindings := l.bindings - {p})
    case Notify(p, value) => if p in l.bindings then l.(bindings := l.bindings[p := value]) else l
  }

  function After(l: Life, events: seq<Event>): Life
    decreases |events|
  {
    if events == [] then l else After(Next(l, events[0]), events[1..])
  }

  /** An unmark_busy that takes away a mark of a binding, as there is no mark of its own. */
  predicate Unfair(l: Life, e: Event) { e.UnmarkBusy? && l.marks == 0 && Busy(l.bindings) != {} }

  predicate Fair(l: Life, events: seq<Event>)
    decreases |events|
  {
    events == [] || (!Unfair(l, events[0]) && Fair(Next(l, events[0]), events[1..]))
  }

  // ---------------------------------------------------------------- turns of the main loop

  type Turn = seq<Event>

  /** How many turns the main loop takes: it looks whether to go on only between two of them. */
  function Turns(l: Life, turns: seq<Turn>): (n: nat)
    ensures n <= |turns|
    decreases |turns|
  {
    if turns == [] || Ends(l) then 0 else 1 + Turns(After(l, turns[0]), turns[1..])
  }

  /** What they leave. */
  function Final(l: Life, turns: seq<Turn>): Life
    decreases |turns|
  {
    if turns == [] || Ends(l) then l else Final(After(l, turns[0]), turns[1..])
  }

  predicate FairTurns(l: Life, turns: seq<Turn>)
    decreases |turns|
  {
    turns == [] || Ends(l) || (Fair(l, turns[0]) && FairTurns(After(l, turns[0]), turns[1..]))
  }

  function Concat(turns: seq<Turn>): seq<Event>
  {
    if turns == [] then [] else turns[0] + Concat(turns[1..])
  }

  lemma {:induction false} AfterBoth(l: Life, a: seq<Event>, b: seq<Event>)
    ensures After(l, a + b) == After(After(l, a), b)
    decreases |a|
  {
    if a == [] {
      assert a + b == b;
    } else {
      assert (a + b)[1..] == a[1..] + b;
      AfterBoth(Next(l, a[0]), a[1..], b);
    }
  }

  /** The loop ends at the first end of a turn at which the application has ended, and not before. */
  lemma {:induction false} EndsBetweenTurns(l: Life, turns: seq<Turn>)
    ensures Final(l, turns) == After(l, Concat(turns[..Turns(l, turns)]))
    ensures Turns(l, turns) < |turns| ==> Ends(Final(l, turns))
    ensures forall k :: 0 <= k < Turns(l, turns) ==> !Ends(After(l, Concat(turns[..k])))
    decreases |turns|
  {
    var n := Turns(l, turns);
    if n > 0 {
      var rest := turns[1..];
      EndsBetweenTurns(After(l, turns[0]), rest);
      forall k | 0 < k <= n
        ensures After(l, Concat(turns[..k])) == After(After(l, turns[0]), Concat(rest[..k - 1]))
      {
        assert turns[..k][1..] == rest[..k - 1];
        AfterBoth(l, turns[0], Concat(rest[..k - 1]));
      }
    }
  }

  /** A release and a hold in one turn do not end the application; in two turns they do. */
  lemma OnlyBetweenTurns(l: Life)
    requires l.useCount == 1 && !l.timer && l.timeout == 0 && !l.quit
    ensures !Ends(Final(l, [[Release, Hold]])) && Ends(Final(l, [[Release], [Hold]]))
  {
    assert [Release, Hold][1..] == [Hold] && [Hold][1..] == [] && [Release][1..] == [];
    assert After(l, [Release, Hold]) == Next(Next(l, Release), Hold);
    assert After(l, [Release]) == Next(l, Release);
    assert [[Release, Hold]][1..] == [] && [[Release], [Hold]][1..] == [[Hold]];
  }

  function Releases(events: seq<Event>): nat
  {
    if events == [] then 0 else (if events[0].Release? then 1 else 0) + Releases(events[1..])
  }

  lemma {:induction false} ReleasesBoth(a: seq<Event>, b: seq<Event>)
    ensures Releases(a + b) == Releases(a) + Releases(b)
  {
    if a == [] {
      assert a + b == b;
    } else {
      assert (a + b)[1..] == a[1..] + b;
      ReleasesBoth(a[1..], b);
    }
  }

  lemma {:induction false} HoldsLeft(l: Life, events: seq<Event>)
    requires Quit !in events
    ensures After(l, events).useCount >= l.useCount - Releases(events) && After(l, events).quit == l.quit
    decreases |events|
  {
    if events != [] {
      HoldsLeft(Next(l, events[0]), events[1..]);
    }
  }

  /** A hold that is not released keeps the application running, whatever the timer does, until it is told to quit. */
  lemma {:induction false} HoldKeepsRunning(l: Life, turns: seq<Turn>)
    requires l.useCount > Releases(Concat(turns)) && !l.quit && Quit !in Concat(turns)
    ensures Turns(l, turns) == |turns| && !Ends(Final(l, turns))
    decreases |turns|
  {
    if turns != [] {
      ReleasesBoth(turns[0], Concat(turns[1..]));
      HoldsLeft(l, turns[0]);
      HoldKeepsRunning(After(l, turns[0]), turns[1..]);
    }
  }

  lemma {:induction false} NoMoreHolds(l: Life, events: seq<Event>)
    requires l.useCount == 0 && Hold !in events
    ensures After(l, events).useCount == 0
    ensures Ends(After(l, events)) <==> Ends(l) || Quit in events || Expire in events
    decreases |events|
  {
    if events != [] {
      NoMoreHolds(Next(l, events[0]), events[1..]);
    }
  }

  /** Where no hold is taken any more, the timer is not started again: it ends the application, or a quit does. */
  lemma {:induction false} TimerEndsIt(l: Life, turns: seq<Turn>)
    requires l.useCount == 0 && Hold !in Concat(turns)
    ensures Ends(Final(l, turns)) <==> Ends(l) || Quit in Concat(turns) || Expire in Concat(turns)
    decreases |turns|
  {
    if turns != [] {
      NoMoreHolds(l, turns[0]);
      TimerEndsIt(After(l, turns[0]), turns[1..]);
    }
  }

  /** Quitting is for good, whatever is held. */
  lemma {:induction false} QuitStays(l: Life, events: seq<Event>)
    ensures After(l, events).quit <==> l.quit || Quit in events
    decreases |events|
  {
    if events != [] {
      QuitStays(Next(l, events[0]), events[1..]);
    }
  }

  /** The loop comes back at the end of the first turn with a quit in it, if not before, with any holds and any timer. */
  lemma {:induction false} QuitEnds(l: Life, turns: seq<Turn>, k: nat)
    requires k < |turns| && Quit in turns[k]
    ensures Turns(l, turns) <= k + 1 && Ends(Final(l, turns))
    decreases |turns|
  {
    if !Ends(l) {
      QuitStays(l, turns[0]);
      if k == 0 {
        assert Turns(After(l, turns[0]), turns[1..]) == 0;
      } else {
        QuitEnds(After(l, turns[0]), turns[1..], k - 1);
      }
    }
  }

  // ---------------------------------------------------------------- what the events of a run come to

  function Holds(events: seq<Event>): nat
  {
    if events == [] then 0 else (if events[0].Hold? then 1 else 0) + Holds(events[1..])
  }

  function Marks(events: seq<Event>): nat
  {
    if events == [] then 0 else (if events[0].MarkBusy? then 1 else 0) + Marks(events[1..])
  }

  function Unmarks(events: seq<Event>): nat
  {
    if events == [] then 0 else (if events[0].UnmarkBusy? then 1 else 0) + Unmarks(events[1..])
  }

  lemma FirstOf(events: seq<Event>, k: nat)
    requires k < |events|
    ensures Holds(events[..k + 1]) == Holds(events[1..][..k]) + if events[0].Hold? then 1 else 0
    ensures Releases(events[..k + 1]) == Releases(events[1..][..k]) + if events[0].Release? then 1 else 0
    ensures Marks(events[..k + 1]) == Marks(events[1..][..k]) + if events[0].MarkBusy? then 1 else 0
    ensures Unmarks(events[..k + 1]) == Unmarks(events[1..][..k]) + if events[0].UnmarkBusy? then 1 else 0
  {
    assert events[..k + 1][1..] == events[1..][..k];
  }

  /** Where every release is for a hold, the count is what is left of them. */
  lemma {:induction false} CountsHolds(l: Life, events: seq<Event>)
    requires forall k :: 0 <= k <= |events| ==> Releases(events[..k]) <= l.useCount + Holds(events[..k])
    ensures After(l, events).useCount == l.useCount + Holds(events) - Releases(events)
    decreases |events|
  {
    if events != [] {
      FirstOf(events, 0);
      forall k | 0 <= k <= |events[1..]|
        ensures Releases(events[1..][..k]) <= Next(l, events[0]).useCount + Holds(events[1..][..k])
      {
        FirstOf(events, k);
        assert Releases(events[..k + 1]) <= l.useCount + Holds(events[..k + 1]);
        assert Releases(events[..1]) <= l.useCount + Holds(events[..1]);
      }
      CountsHolds(Next(l, events[0]), events[1..]);
    }
  }

  lemma {:induction false} CountsMarks(l: Life, events: seq<Event>)
    requires forall k :: 0 <= k <= |events| ==> Unmarks(events[..k]) <= l.marks + Marks(events[..k])
    ensures After(l, events).marks == l.marks + Marks(events) - Unmarks(events)
    decreases |events|
  {
    if events != [] {
      FirstOf(events, 0);
      forall k | 0 <= k <= |events[1..]|
        ensures Unmarks(events[1..][..k]) <= Next(l, events[0]).marks + Marks(events[1..][..k])
      {
        FirstOf(events, k);
        assert Unmarks(events[..k + 1]) <= l.marks + Marks(events[..k + 1]);
        assert Unmarks(events[..1]) <= l.marks + Marks(events[..1]);
      }
      CountsMarks(Next(l, events[0]), events[1..]);
    }
  }

  /** No release and no unmark beyond what there is takes anything away. */
  lemma NothingBelowZero(l: Life)
    ensures l.useCount == 0 ==> After(l, [Release]) == l
    ensures l.marks == 0 ==> After(l, [UnmarkBusy]) == l
  {
    assert [Release][1..] == [] && [UnmarkBusy][1..] == [];
    assert After(l, [Release]) == Next(l, Release) && After(l, [UnmarkBusy]) == Next(l, UnmarkBusy);
  }

  predicate SetsTimeout(events: seq<Event>) { exists i :: 0 <= i < |events| && events[i].SetInactivityTimeout? }

  predicate StopsTimer(events: seq<Event>) { Hold in events || Expire in events }

  lemma {:induction false} SameTimeout(l: Life, events: seq<Event>)
    requires !SetsTimeout(events)
    ensures After(l, events).timeout == l.timeout
    decreases |events|
  {
    if events != [] {
      assert !events[0].SetInactivityTimeout?;
      assert !SetsTimeout(events[1..]);
      SameTimeout(Next(l, events[0]), events[1..]);
    }
  }

  /** The timeout is the last that was set. */
  lemma LastTimeoutCounts(l: Life, before: seq<Event>, timeout: Milliseconds, after: seq<Event>)
    requires !SetsTimeout(after)
    ensures After(l, before + ([SetInactivityTimeout(timeout)] + after)).timeout == timeout
  {
    AfterBoth(l, before, [SetInactivityTimeout(timeout)] + after);
    AfterBoth(After(l, before), [SetInactivityTimeout(timeout)], after);
    assert [SetInactivityTimeout(timeout)][1..] == [];
    SameTimeout(After(After(l, before), [SetInactivityTimeout(timeout)]), after);
  }

  /** At k the last release of all comes, with a timeout, and nothing stops the timer after it. */
  predicate StartsTimer(l: Life, events: seq<Event>, k: nat)
    requires k < |events|
  {
    && events[k].Release? && After(l, events[..k]).useCount == 1 && After(l, events[..k]).timeout > 0
    && !StopsTimer(events[k + 1..])
  }

  /** When the inactivity timer is live: since the last release, or from the start, and not stopped since. */
  lemma {:induction false} TimerLive(l: Life, events: seq<Event>)
    ensures
      After(l, events).timer
      <==> (l.timer && !StopsTimer(events)) || exists k :: 0 <= k < |events| && StartsTimer(l, events, k)
    decreases |events|
  {
    if events != [] {
      var m, rest := Next(l, events[0]), events[1..];
      TimerLive(m, rest);
      forall k | 0 <= k < |rest|
        ensures StartsTimer(m, rest, k) <==> StartsTimer(l, events, k + 1)
      {
        assert events[..k + 1][1..] == rest[..k] && events[k + 1 + 1..] == rest[k + 1..];
      }
      assert StopsTimer(events) <==> events[0].Hold? || events[0].Expire? || StopsTimer(rest);
      assert StartsTimer(l, events, 0) <==> events[0].Release? && l.useCount == 1 && l.timeout > 0 && !StopsTimer(rest);
      if k :| 0 <= k < |events| && StartsTimer(l, events, k) {
        assert k > 0 ==> StartsTimer(m, rest, k - 1);
      }
    }
  }

  predicate ChangesBinding(events: seq<Event>, p: Property)
  {
    exists i :: 0 <= i < |events| && (events[i] == Unbind(p) || (events[i].Notify? && events[i].property == p))
  }

  lemma {:induction false} BindingStays(l: Life, events: seq<Event>, p: Property)
    requires p in l.bindings && !ChangesBinding(events, p)
    ensures p in After(l, events).bindings && After(l, events).bindings[p] == l.bindings[p]
    decreases |events|
  {
    if events != [] {
      assert events[0] != Unbind(p) && !(events[0].Notify? && events[0].property == p);
      assert !ChangesBinding(events[1..], p);
      BindingStays(Next(l, events[0]), events[1..], p);
    }
  }

  /** A bound property is what it was when it was bound, or when it last changed; another bind changes nothing. */
  lemma BoundValue(l: Life, before: seq<Event>, e: Event, after: seq<Event>)
    requires (e.Bind? && e.property !in After(l, before).bindings) || (e.Notify? && e.property in After(l, before).bindings)
    requires !ChangesBinding(after, e.property)
    ensures
      var v := After(l, before + ([e] + after));
      e.property in v.bindings && v.bindings[e.property] == e.value
  {
    AfterBoth(l, before, [e] + after);
    AfterBoth(After(l, before), [e], after);
    assert [e][1..] == [];
    BindingStays(After(After(l, before), [e]), after, e.property);
  }

  lemma {:induction false} UnboundStays(l: Life, events: seq<Event>, p: Property)
    requires p !in l.bindings && forall i :: 0 <= i < |events| ==> !(events[i].Bind? && events[i].property == p)
    ensures p !in After(l, events).bindings
    decreases |events|
  {
    if events != [] {
      UnboundStays(Next(l, events[0]), events[1..], p);
    }
  }

  /** And it is unbound for as long as it is not bound again. */
  lemma UnboundIsGone(l: Life, before: seq<Event>, p: Property, after: seq<Event>)
    requires forall i :: 0 <= i < |after| ==> !(after[i].Bind? && after[i].property == p)
    ensures p !in After(l, before + ([Unbind(p)] + after)).bindings
  {
    AfterBoth(l, before, [Unbind(p)] + after);
    AfterBoth(After(l, before), [Unbind(p)], after);
    assert [Unbind(p)][1..] == [];
    UnboundStays(After(After(l, before), [Unbind(p)]), after, p);
  }

  class GApplication {
    const service: bool
    var inactivityTimeout: Milliseconds
    var inactivityTimeoutId: nat
    var useCount: nat
    var mustQuitNow: bool
    var busyCount: nat
    var published: bool                      // the busy flag on the bus
    var announced: seq<bool>                 // the changes of it that were announced
    var bindings: map<Property, bool>        // is_busy of each binding
    var nextSource: nat
    ghost var timers: map<nat, Milliseconds> // the live inactivity timers, and how long each was set for
    ghost var marks: nat                     // mark_busy calls not yet cancelled by an unmark_busy
    ghost var balanced: bool                 // no unmark_busy took away what was not the caller's mark

    /** There is at most one live timer, it is remembered, and nothing holds the application meanwhile. */
    ghost predicate TimerValid()
      reads this
    {
      && timers.Keys == (if inactivityTimeoutId != 0 then {inactivityTimeoutId} else {})
      && (inactivityTimeoutId != 0 ==> useCount == 0)
      && nextSource > 0
    }

    /** The count is of marks and busy bindings, and it is what others are told, once for each change. */
    ghost predicate BusyValid()
      reads this
    {
      && (balanced ==> busyCount == marks + |Busy(bindings)|)
      && published == (busyCount > 0)
      && (|announced| % 2 == 1 <==> published)
      && forall i :: 0 <= i < |announced| ==> announced[i] == (i % 2 == 0)
    }

    constructor (service: bool, inactivityTimeout: Milliseconds)
      ensures TimerValid() && BusyValid() && this.service == service && this.inactivityTimeout == inactivityTimeout
      ensures useCount == 0 && inactivityTimeoutId == 0 && !mustQuitNow && busyCount == 0 && marks == 0 && balanced
    {
      this.service, this.inactivityTimeout := service, inactivityTimeout;
      inactivityTimeoutId, useCount, busyCount, nextSource := 0, 0, 0, 1;
      mustQuitNow, published, announced, bindings := false, false, [], map[];
      timers, marks, balanced := map[], 0, true;
    }

    // -------------------------------------------------------------- holds and the timer

    /** g_timeout_add, with inactivity_timeout_expired */
    method TimeoutAdd(interval: Milliseconds) returns (id: nat)
      requires nextSource > 0
      modifies this`nextSource, this`timers
      ensures id != 0 && timers == old(timers)[id := interval] && nextSource > 0
    {
      id := nextSource;
      nextSource := nextSource + 1;
      timers := timers[id := interval];
    }

    method HoldApplication()
      requires TimerValid()
      modifies this`inactivityTimeoutId, this`useCount, this`timers
      ensures TimerValid() && useCount == old(useCount) + 1 && timers == map[]
    {
      if inactivityTimeoutId != 0 {
        timers := timers - {inactivityTimeoutId};
        inactivityTimeoutId := 0;
      }
      useCount := useCount + 1;
    }

    /** One of the holds fewer; the last of them starts the timer, if there is a timeout. */
    method ReleaseApplication()
      requires TimerValid()
      modifies this`inactivityTimeoutId, this`useCount, this`timers, this`nextSource
      ensures TimerValid() && useCount == if old(useCount) > 0 then old(useCount) - 1 else 0
      ensures
        inactivityTimeoutId != 0 <==> old(inactivityTimeoutId) != 0 || (old(useCount) == 1 && inactivityTimeout != 0)
      ensures old(inactivityTimeoutId) != 0 ==> inactivityTimeoutId == old(inactivityTimeoutId)
      ensures
        timers
        == if old(useCount) == 1 && inactivityTimeout != 0 then map[inactivityTimeoutId := inactivityTimeout]
           else old(timers)
    {
      if useCount == 0 {
        return;
      }
      useCount := useCount - 1;
      if useCount == 0 && inactivityTimeout != 0 {
        inactivityTimeoutId := TimeoutAdd(inactivityTimeout);
      }
    }

    /** The live timer goes off, and is removed from the main context. */
    method InactivityTimeoutExpired()
      requires TimerValid() && timers != map[]
      modifies this`inactivityTimeoutId, this`timers
      ensures TimerValid() && inactivityTimeoutId == 0
    {
      timers := timers - {inactivityTimeoutId};
      inactivityTimeoutId := 0;
    }

    // -------------------------------------------------------------- busy

    /** g_application_impl_set_busy_state */
    method SetBusyState(busy: bool)
      modifies this`published, this`announced
      ensures published == busy
      ensures announced == old(announced) + if old(published) != busy then [busy] else []
    {
      if published != busy {
        published := busy;
        announced := announced + [busy];
      }
    }

    method CountUp()
      modifies this`busyCount, this`published, this`announced
      requires published == (busyCount > 0)
      ensures busyCount == old(busyCount) + 1 && published
      ensures announced == old(announced) + if old(busyCount) == 0 then [true] else []
    {
      var wasBusy := busyCount > 0;
      busyCount := busyCount + 1;
      if !wasBusy {
        SetBusyState(true);
      }
    }

    /** Does nothing when the count is 0. */
    method CountDown()
      modifies this`busyCount, this`published, this`announced
      requires published == (busyCount > 0)
      ensures busyCount == (if old(busyCount) > 0 then old(busyCount) - 1 else 0) && published == (busyCount > 0)
      ensures announced == old(announced) + if old(busyCount) == 1 then [false] else []
    {
      if busyCount == 0 {
        return;
      }
      busyCount := busyCount - 1;
      if busyCount == 0 {
        SetBusyState(false);
      }
    }

    /** g_application_mark_busy by the program */
    method Mark()
      requires BusyValid()
      modifies this`busyCount, this`published, this`announced, this`marks
      ensures BusyValid() && marks == old(marks) + 1 && published
    {
      CountUp();
      marks := marks + 1;
    }

    /** g_application_unmark_busy by the program; without a mark of its own it takes one of a binding. */
    method Unmark()
      requires BusyValid()
      modifies this`busyCount, this`published, this`announced, this`marks, this`balanced
      ensures BusyValid()
      ensures busyCount == if old(busyCount) > 0 then old(busyCount) - 1 else 0
      ensures marks == if old(marks) > 0 then old(marks) - 1 else 0
      ensures balanced <==> old(balanced) && (old(marks) > 0 || old(busyCount) == 0)
    {
      balanced := balanced && (marks > 0 || busyCount == 0);
      CountDown();
      marks := if marks > 0 then marks - 1 else 0;
    }

    /** g_application_notify_busy_binding */
    method NotifyBinding(property: Property, value: bool)
      requires BusyValid() && property in bindings
      modifies this`busyCount, this`published, this`announced, this`bindings
      ensures BusyValid() && bindings == old(bindings)[property := value]
    {
      BusyAfter(bindings, property, value);
      if value && !bindings[property] {
        CountUp();
      } else if !value && bindings[property] {
        CountDown();
      }
      bindings := bindings[property := value];
    }

    /** A property is bound once; `value` is what it is at the time. */
    method BindBusyProperty(property: Property, value: bool)
      requires BusyValid()
      modifies this`busyCount, this`published, this`announced, this`bindings
      ensures BusyValid()
      ensures bindings == if property in old(bindings) then old(bindings) else old(bindings)[property := value]
    {
      if property in bindings {
        return;
      }
      BusyAfter(bindings, property, false);
      bindings := bindings[property := false];
      NotifyBinding(property, value);
    }

    /** The handler is disconnected, or its object finalized, which destroys the binding. */
    method UnbindBusyProperty(property: Property)
      requires BusyValid()
      modifies this`busyCount, this`published, this`announced, this`bindings
      ensures BusyValid() && bindings == old(bindings) - {property}
    {
      if property !in bindings {
        assert bindings - {property} == bindings;
        return;
      }
      BusyWithout(bindings, property);
      if bindings[property] {
        CountDown();
      }
      bindings := bindings - {property};
    }

    // -------------------------------------------------------------- the main loop

    ghost function Alive(): Life
      reads this
    {
      Life(useCount, inactivityTimeoutId != 0, inactivityTimeout, mustQuitNow, marks, bindings)
    }

    predicate Possible(e: Event)
      reads this
    {
      match e
      case Expire => inactivityTimeoutId != 0
      case Notify(property, _) => property in bindings
      case _ => true
    }

    /** A hold, a release, the timer, its length, or the end. */
    method DispatchLifetime(e: Event)
      requires TimerValid() && Possible(e)
      requires e.Hold? || e.Release? || e.Expire? || e.Quit? || e.SetInactivityTimeout?
      modifies this`useCount, this`inactivityTimeoutId, this`timers, this`nextSource, this`mustQuitNow, this`inactivityTimeout
      ensures TimerValid()
      ensures Alive() == Next(old(Alive()), e)
    {
      match e
      case Hold => HoldApplication();
      case Release => ReleaseApplication();
      case Expire => InactivityTimeoutExpired();
      case Quit => mustQuitNow := true;
      case SetInactivityTimeout(timeout) => inactivityTimeout := timeout;
    }

    /** A mark or a binding. */
    method DispatchBusy(e: Event)
      requires BusyValid() && Possible(e)
      requires e.MarkBusy? || e.UnmarkBusy? || e.Bind? || e.Unbind? || e.Notify?
      modifies this`busyCount, this`published, this`announced, this`marks, this`balanced, this`bindings
      ensures BusyValid()
      ensures Alive() == Next(old(Alive()), e)
      ensures balanced <==> old(balanced) && !Unfair(old(Alive()), e)
    {
      match e
      case MarkBusy => Mark();
      case UnmarkBusy => Unmark();
      case Bind(property, value) => BindBusyProperty(property, value);
      case Unbind(property) => UnbindBusyProperty(property);
      case Notify(property, value) => NotifyBinding(property, value);
    }

    /** What cannot happen does nothing. */
    method Dispatch(e: Event)
      requires TimerValid() && BusyValid()
      modifies this
      ensures TimerValid() && BusyValid()
      ensures Alive() == Next(old(Alive()), e)
      ensures balanced <==> old(balanced) && !Unfair(old(Alive()), e)
    {
      if !Possible(e) {
        return;
      }
      if e.MarkBusy? || e.UnmarkBusy? || e.Bind? || e.Unbind? || e.Notify? {
        DispatchBusy(e);
      } else {
        DispatchLifetime(e);
      }
    }

    /** g_main_context_iteration: everything that is dispatched in one turn. */
    method Iterate(turn: Turn)
      requires TimerValid() && BusyValid()
      modifies this
      ensures TimerValid() && BusyValid()
      ensures Alive() == After(old(Alive()), turn)
      ensures balanced <==> old(balanced) && Fair(old(Alive()), turn)
    {
      ghost var start := Alive();
      for i := 0 to |turn|
        invariant TimerValid() && BusyValid()
        invariant After(start, turn) == After(Alive(), turn[i..])
        invariant balanced && Fair(Alive(), turn[i..]) <==> old(balanced) && Fair(start, turn)
      {
        assert turn[i..][0] == turn[i] && turn[i..][1..] == turn[i + 1..];
        Dispatch(turn[i]);
      }
    }

    /** A service that nothing holds and no timer keeps gets one. */
    method StartServiceTimer()
      requires TimerValid() && BusyValid()
      modifies this`inactivityTimeoutId, this`nextSource, this`timers
      ensures TimerValid() && BusyValid()
      ensures Alive() == if service && useCount == 0 then old(Alive()).(timer := true) else old(Alive())
      ensures
        timers
        == if service && useCount == 0 && old(timers) == map[] then map[inactivityTimeoutId := 10000] else old(timers)
    {
      if service && useCount == 0 && inactivityTimeoutId == 0 {
        inactivityTimeoutId := TimeoutAdd(SERVICE_TIMEOUT);
      }
    }

    /**
     * g_application_run from where the command line is done, with `turns` all that
     * will ever happen: it comes back only when the application has ended, and then
     * at the end of that turn.  The busy flag is the marks and the bound properties
     * that are TRUE, as long as every unmark_busy was for a mark_busy.
     */
    method Run(turns: seq<Turn>) returns (ended: bool, n: nat)
      requires TimerValid() && BusyValid()
      modifies this
      ensures TimerValid() && BusyValid()
      ensures ended <==> mustQuitNow || (useCount == 0 && timers == map[])
      ensures
        var start := if service && old(Alive()).useCount == 0 then old(Alive()).(timer := true) else old(Alive());
        && n == Turns(start, turns) && Alive() == Final(start, turns)
        && (balanced <==> old(balanced) && FairTurns(start, turns))
      ensures balanced ==> (published <==> marks > 0 || Busy(bindings) != {})
    {
      StartServiceTimer();
      ghost var start := Alive();
      n := 0;
      while useCount != 0 || inactivityTimeoutId != 0
        invariant TimerValid() && BusyValid() && n <= |turns|
        invariant Turns(start, turns) == n + Turns(Alive(), turns[n..])
        invariant Final(start, turns) == Final(Alive(), turns[n..])
        invariant balanced && FairTurns(Alive(), turns[n..]) <==> old(balanced) && FairTurns(start, turns)
        decreases |turns| - n
      {
        if mustQuitNow {
          break;
        }
        if n == |turns| {
          return false, n;
        }
        assert turns[n..][0] == turns[n] && turns[n..][1..] == turns[n + 1..];
        Iterate(turns[n]);
        n := n + 1;
      }
      ended := true;
    }
  }
}
