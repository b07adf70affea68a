/**
 * GCancellableSource (gio/gcancellable.c): a GSource that a "cancelled" signal
 * makes ready, while another thread may be dropping its last reference.
 *
 * The model has one source, one thread that may be inside cancel, one thread
 * that may be inside the unreference that brought the count to zero, and any
 * number of holders of ordinary references.  Every access to the reference
 * count is a step of its own, as in g_source_unref (glib/gmain.c): count down,
 * and at zero count up again, dispose, count down, and finalize if the count is
 * zero once more.
 */
module CancellableSource {
  import opened Wrappers

  datatype Source = Source(
    ref: nat,
    connected: bool,       // cancelled_handler != 0
    attached: bool,        // cancellable != NULL
    resurrected: bool,     // resurrected_during_cancellation
    ready: bool)           // the ready time is 0

  const CREATED := Source(1, false, true, false, false)

  /** The section of cancellable_source_cancelled. */
  function HandlerSection(s: Source): Source {
    if s.resurrected then s.(resurrected := false) else s.(ref := s.ref + 1)
  }

  /** The section of cancellable_source_dispose. */
  function DisposeSection(s: Source, running: bool): Source {
    if !s.attached then s
    else if running then s.(ref := s.ref + 1, resurrected := true, connected := false, attached := false)
    else s.(connected := false, attached := false)
  }

  class GCancellableSource {
    var refCount: nat
    var cancelledHandler: bool
    var cancellable: bool
    var resurrectedDuringCancellation: bool
    var readyTimeZero: bool

    function State(): Source
      reads this
    {
      Source(refCount, cancelledHandler, cancellable, resurrectedDuringCancellation, readyTimeZero)
    }

    constructor ()
      ensures State() == CREATED
    {
      refCount, cancelledHandler, cancellable := 1, false, true;
      resurrectedDuringCancellation, readyTimeZero := false, false;
    }

    /** Runs under the mutex; `drop` says that the caller must drop a reference and do nothing else. */
    method LockInHandler() returns (drop: bool)
      modifies this`refCount, this`resurrectedDuringCancellation
      ensures drop == old(resurrectedDuringCancellation) && !resurrectedDuringCancellation
      ensures refCount == old(refCount) + if drop then 0 else 1
      ensures State() == HandlerSection(old(State()))
    {
      drop := resurrectedDuringCancellation;
      if drop {
        resurrectedDuringCancellation := false;
        return;
      }
      refCount := refCount + 1;
    }

    method Dispose(cancelledRunning: bool)
      modifies this`refCount, this`cancelledHandler, this`cancellable, this`resurrectedDuringCancellation
      ensures refCount == old(refCount) + if old(cancellable) && cancelledRunning then 1 else 0
      ensures resurrectedDuringCancellation == (old(resurrectedDuringCancellation) || (old(cancellable) && cancelledRunning))
      ensures !cancellable && cancelledHandler == (old(cancelledHandler) && !old(cancellable))
      ensures State() == DisposeSection(old(State()), cancelledRunning)
    {
      if cancellable {
        if cancelledRunning {
          refCount := refCount + 1;
          resurrectedDuringCancellation := true;
        }
        cancelledHandler := false;
        cancellable := false;
      }
    }
  }

  // ---------------------------------------------------------------- threads

  /** Where a thread is in g_source_unref. */
  datatype Unref = CountDown | CountUp | Disposing | LastCountDown

  datatype Emission =
    | NoEmission
    | FlagUp                        // cancel has left its first section
    | Walking(included: bool)       // in g_signal_emit, not yet at this handler; was it connected at the start?
    | Committed                     // the handler is going to be called with the source
    | Holding                       // past the handler's section, with a reference of its own
    | Dropping(at: Unref)
    | Passed                        // this handler is done with, or was skipped

  datatype Creator = Connecting | Checking | Returned

  /** `external` counts the ordinary references; `told` is whether the cancel now in
   *  force has set the ready time, `served` whether the source was dispatched after that. */
  datatype World = World(
    s: Source, finalized: bool, external: nat,
    cancelled: bool, running: bool, told: bool, served: bool,
    creator: Creator, emission: Emission, releaser: Option<Unref>)

  datatype Event =
    | ConnectHandler
    | CheckFlag
    | LockCancel
    | StartEmission
    | ReachHandler
    | EnterHandler
    | SetReady
    | FinishCancel
    | ResetFlag
    | TakeReference
    | ReleaseReference
    | EmissionUnref
    | ReleaserUnref
    | DispatchSource

  predicate Enabled(w: World, e: Event) {
    match e
    case ConnectHandler => w.creator == Connecting
    case CheckFlag => w.creator == Checking
    case LockCancel => !w.cancelled && w.emission == NoEmission
    case StartEmission => w.emission == FlagUp
    case ReachHandler => w.emission.Walking?
    case EnterHandler => w.emission == Committed
    case SetReady => w.emission == Holding
    case FinishCancel => w.emission == Passed
    case ResetFlag => w.cancelled && !w.running
    case TakeReference => w.external > 0
    case ReleaseReference => w.external > 0 && w.s.ref > 0 && (w.creator != Returned ==> w.external > 1)
    case EmissionUnref => w.emission.Dropping? && UnrefEnabled(w, w.emission.at)
    case ReleaserUnref => w.releaser.Some? && UnrefEnabled(w, w.releaser.value)
    case DispatchSource => w.s.ready && w.external > 0
  }

  predicate UnrefEnabled(w: World, u: Unref) {
    u.CountDown? || u.LastCountDown? ==> w.s.ref > 0
  }

  /** One step inside g_source_unref. */
  function UnrefStep(w: World, u: Unref): World
    requires UnrefEnabled(w, u)
  {
    match u
    case CountDown => w.(s := w.s.(ref := w.s.ref - 1))
    case CountUp => w.(s := w.s.(ref := w.s.ref + 1))
    case Disposing => w.(s := DisposeSection(w.s, w.running))
    case LastCountDown => w.(s := w.s.(ref := w.s.ref - 1), finalized := w.finalized || w.s.ref == 1)
  }

  /** Where that leaves the thread; None is the return. */
  function UnrefNext(s: Source, u: Unref): Option<Unref> {
    match u
    case CountDown => if s.ref == 1 then Some(CountUp) else None
    case CountUp => Some(Disposing)
    case Disposing => Some(LastCountDown)
    case LastCountDown => None
  }

  function Step(w: World, e: Event): World
    requires Enabled(w, e)
  {
    match e
    case ConnectHandler => w.(s := w.s.(connected := true), creator := Checking)
    case CheckFlag =>
      w.(s := w.s.(ready := w.s.ready || w.cancelled), told := w.told || w.cancelled, creator := Returned)
    case LockCancel => w.(cancelled := true, running := true, told := false, served := false, emission := FlagUp)
    case StartEmission => w.(emission := Walking(w.s.connected))
    case ReachHandler => w.(emission := if w.emission.included && w.s.connected then Committed else Passed)
    case EnterHandler =>
      w.(s := HandlerSection(w.s), emission := if w.s.resurrected then Dropping(CountDown) else Holding)
    case SetReady => w.(s := w.s.(ready := true), told := true, emission := Dropping(CountDown))
    case FinishCancel => w.(running := false, emission := NoEmission)
    case ResetFlag => w.(cancelled := false)
    case TakeReference => w.(s := w.s.(ref := w.s.ref + 1), external := w.external + 1)
    case ReleaseReference =>
      UnrefStep(w, CountDown).(external := w.external - 1, releaser := UnrefNext(w.s, CountDown))
    case EmissionUnref =>
      var next := UnrefNext(w.s, w.emission.at);
      UnrefStep(w, w.emission.at).(emission := if next.Some? then Dropping(next.value) else Passed)
    case ReleaserUnref =>
      UnrefStep(w, w.releaser.value).(releaser := UnrefNext(w.s, w.releaser.value))
    case DispatchSource => w.(s := w.s.(ready := false), served := w.told)
  }

  const START := World(CREATED, false, 1, false, false, false, false, Connecting, NoEmission, None)

  // ---------------------------------------------------------------- the invariant

  function B(b: bool): nat { if b then 1 else 0 }

  /** The reference that a thread inside g_source_unref still has. */
  function Temporary(u: Option<Unref>): nat { B(u.Some? && !u.value.CountUp?) }

  function AtUnref(e: Emission): Option<Unref> { if e.Dropping? then Some(e.at) else None }

  predicate Undisposed(u: Option<Unref>) { u == Some(CountUp) || u == Some(Disposing) }

  /** Every reference is accounted for; the resurrecting one belongs to the flag. */
  predicate CountInv(w: World) {
    w.s.ref == w.external + B(w.emission == Holding) + Temporary(AtUnref(w.emission)) + Temporary(w.releaser) + B(w.s.resurrected)
  }

  predicate FlagInv(w: World) {
    && (w.running <==> w.emission != NoEmission) && (w.running ==> w.cancelled)
    && (w.s.connected ==> w.s.attached) && (w.s.resurrected ==> !w.s.attached)
    && (w.told ==> w.s.ready || w.served)
    && (w.creator != Returned ==> w.external > 0 && w.s.attached)
    && (w.creator != Connecting && w.s.attached ==> w.s.connected)
    && (w.cancelled && w.creator == Returned && w.s.attached ==>
          w.told || w.emission == FlagUp || w.emission == Walking(true) || w.emission == Committed || w.emission == Holding)
  }

  predicate LifeInv(w: World) {
    && (w.external > 0 ==> w.releaser.None? && w.s.attached && !Undisposed(AtUnref(w.emission)))
    && w.releaser != Some(CountDown)
    && (w.emission == Committed ==> w.s.attached || w.s.resurrected)
    && (w.emission == Dropping(LastCountDown) || w.releaser == Some(LastCountDown) ==> !w.s.attached)
    && (Undisposed(w.releaser) && !w.s.attached ==> w.s.resurrected && w.emission != Committed)
    && (Undisposed(AtUnref(w.emission)) && w.releaser == Some(LastCountDown) ==> w.s.resurrected)
    && (w.s.ref == 0 ==> w.finalized || w.releaser == Some(CountUp) || w.emission == Dropping(CountUp))
    && (w.finalized ==> w.s.ref == 0 && !w.s.attached && w.releaser.None? && w.emission != Committed && !w.emission.Dropping?)
  }

  predicate Inv(w: World) { CountInv(w) && FlagInv(w) && LifeInv(w) }

  predicate InUnref(e: Event) { e.EmissionUnref? || e.ReleaserUnref? || e.ReleaseReference? }

  lemma EmissionKeepsCount(w: World)
    requires Inv(w) && Enabled(w, EmissionUnref)
    ensures CountInv(Step(w, EmissionUnref))
  {
    UnrefTemporary(w, w.emission.at);
  }

  lemma ReleaserKeepsCount(w: World)
    requires Inv(w) && Enabled(w, ReleaserUnref)
    ensures CountInv(Step(w, ReleaserUnref))
  {
    UnrefTemporary(w, w.releaser.value);
  }

  lemma UnrefKeepsCount(w: World, e: Event)
    requires Inv(w) && Enabled(w, e) && InUnref(e)
    ensures CountInv(Step(w, e))
  {
    match e
    case EmissionUnref => EmissionKeepsCount(w);
    case ReleaserUnref => ReleaserKeepsCount(w);
    case ReleaseReference => UnrefTemporary(w, CountDown);
  }

  /** What a step inside g_source_unref does to the count, to the thread's own reference and to the flag's. */
  lemma UnrefTemporary(w: World, u: Unref)
    requires UnrefEnabled(w, u) && (w.s.resurrected ==> !w.s.attached)
    ensures UnrefStep(w, u).s.ref + Temporary(Some(u)) + B(w.s.resurrected)
         == w.s.ref + Temporary(UnrefNext(w.s, u)) + B(UnrefStep(w, u).s.resurrected)
  {
    match u
    case CountDown => assert Temporary(UnrefNext(w.s, u)) == 0;
    case CountUp =>
    case Disposing =>
    case LastCountDown =>
  }

  lemma OtherKeepsCount(w: World, e: Event)
    requires Inv(w) && Enabled(w, e) && !InUnref(e)
    ensures CountInv(Step(w, e))
  {
  }

  lemma EmissionKeepsFlags(w: World)
    requires Inv(w) && Enabled(w, EmissionUnref)
    ensures FlagInv(Step(w, EmissionUnref))
  {
  }

  lemma ReleaserKeepsFlags(w: World)
    requires Inv(w) && Enabled(w, ReleaserUnref)
    ensures FlagInv(Step(w, ReleaserUnref))
  {
  }

  lemma UnrefKeepsFlags(w: World, e: Event)
    requires Inv(w) && Enabled(w, e) && InUnref(e)
    ensures FlagInv(Step(w, e))
  {
    match e
    case EmissionUnref => EmissionKeepsFlags(w);
    case ReleaserUnref => ReleaserKeepsFlags(w);
    case ReleaseReference =>
  }

  lemma OtherKeepsFlags(w: World, e: Event)
    requires Inv(w) && Enabled(w, e) && !InUnref(e)
    ensures FlagInv(Step(w, e))
  {
  }

  lemma EmissionKeepsLife(w: World)
    requires Inv(w) && Enabled(w, EmissionUnref)
    ensures LifeInv(Step(w, EmissionUnref))
  {
    match w.emission.at
    case CountDown =>
    case CountUp =>
    case Disposing =>
    case LastCountDown =>
  }

  lemma ReleaserKeepsLife(w: World)
    requires Inv(w) && Enabled(w, ReleaserUnref)
    ensures LifeInv(Step(w, ReleaserUnref))
  {
    match w.releaser.value
    case CountDown =>
    case CountUp =>
    case Disposing =>
    case LastCountDown =>
  }

  lemma UnrefKeepsLife(w: World, e: Event)
    requires Inv(w) && Enabled(w, e) && InUnref(e)
    ensures LifeInv(Step(w, e))
  {
    match e
    case EmissionUnref => EmissionKeepsLife(w);
    case ReleaserUnref => ReleaserKeepsLife(w);
    case ReleaseReference =>
  }

  lemma OtherKeepsLife(w: World, e: Event)
    requires Inv(w) && Enabled(w, e) && !InUnref(e)
    ensures LifeInv(Step(w, e))
  {
  }

  lemma StepKeepsInv(w: World, e: Event)
    requires Inv(w) && Enabled(w, e)
    ensures Inv(Step(w, e))
  {
    if InUnref(e) {
      UnrefKeepsFlags(w, e);
      UnrefKeepsCount(w, e);
      UnrefKeepsLife(w, e);
    } else {
      OtherKeepsFlags(w, e);
      OtherKeepsCount(w, e);
      OtherKeepsLife(w, e);
    }
  }

  // ---------------------------------------------------------------- runs

  predicate ValidRun(w: World, events: seq<Event>)
    decreases |events|
  {
    events == [] || (Enabled(w, events[0]) && ValidRun(Step(w, events[0]), events[1..]))
  }

  function Exec(w: World, events: seq<Event>): World
    requires ValidRun(w, events)
    decreases |events|
  {
    if events == [] then w else Exec(Step(w, events[0]), events[1..])
  }

  lemma {:induction false} RunKeepsInv(w: World, events: seq<Event>)
    requires Inv(w) && ValidRun(w, events)
    ensures Inv(Exec(w, events))
    decreases |events|
  {
    if events != [] {
      StepKeepsInv(w, events[0]);
      RunKeepsInv(Step(w, events[0]), events[1..]);
    }
  }

  /** Some thread is going to touch the memory of the source. */
  predicate InUse(w: World) {
    || w.external > 0 || w.creator != Returned
    || w.emission == Committed || w.emission == Holding || w.emission.Dropping?
    || w.releaser.Some?
  }

  /** The handler, the disposer and every holder only ever work on a source that has not been finalized. */
  lemma NeverUsedAfterFinalize(events: seq<Event>)
    requires ValidRun(START, events)
    ensures InUse(Exec(START, events)) ==> !Exec(START, events).finalized
    ensures Exec(START, events).finalized ==> Exec(START, events).emission != Committed
  {
    RunKeepsInv(START, events);
  }

  /**
   * A source whose g_cancellable_source_new has returned never misses a cancel
   * that is still in force once its emission is over: the handler or the check
   * after the connect has set the ready time, and the source is ready until it is
   * dispatched, unless it is disposed.
   */
  lemma NeverMissesACancel(events: seq<Event>)
    requires ValidRun(START, events)
    ensures
      var w := Exec(START, events);
      w.cancelled && !w.running && w.creator == Returned && w.s.attached ==> w.told && (w.s.ready || w.served)
  {
    RunKeepsInv(START, events);
  }

  predicate Tells(e: Event) { e.SetReady? || e.CheckFlag? }

  lemma UnrefKeepsRest(w: World, u: Unref)
    requires UnrefEnabled(w, u)
    ensures UnrefStep(w, u).s.ready == w.s.ready && UnrefStep(w, u).external == w.external
  {
    match u
    case CountDown =>
    case CountUp =>
    case Disposing => DisposeKeepsReady(w.s, w.running);
    case LastCountDown =>
  }

  lemma DisposeKeepsReady(s: Source, running: bool)
    ensures DisposeSection(s, running).ready == s.ready
  {
  }

  lemma OnlyTellsMakeReady(w: World, e: Event)
    requires Enabled(w, e) && !w.s.ready && !Tells(e)
    ensures !e.DispatchSource? && !Step(w, e).s.ready
  {
    match e
    case EmissionUnref => UnrefKeepsRest(w, w.emission.at);
    case ReleaserUnref => UnrefKeepsRest(w, w.releaser.value);
    case ReleaseReference => UnrefKeepsRest(w, CountDown);
    case _ =>
  }

  /** A dispatch takes the ready time back, and the source is dispatched again only after it was told again. */
  lemma {:induction false} DispatchedOnce(w: World, events: seq<Event>)
    requires ValidRun(w, events) && !w.s.ready && forall e :: e in events ==> !Tells(e)
    ensures !Exec(w, events).s.ready && DispatchSource !in events
    decreases |events|
  {
    if events != [] {
      assert !Tells(events[0]);
      OnlyTellsMakeReady(w, events[0]);
      DispatchedOnce(Step(w, events[0]), events[1..]);
    }
  }

  lemma DispatchTakesReady(w: World, events: seq<Event>)
    requires Enabled(w, DispatchSource) && ValidRun(Step(w, DispatchSource), events)
    requires forall e :: e in events ==> !Tells(e)
    ensures DispatchSource !in events
  {
    DispatchedOnce(Step(w, DispatchSource), events);
  }

  /** A handler that finds the reference left for it drops that and does nothing else; else it takes one and goes on. */
  lemma HandlerDropsOrHolds(w: World)
    requires Enabled(w, EnterHandler)
    ensures
      var v := Step(w, EnterHandler);
      && v.s.ready == w.s.ready && v.told == w.told && !v.s.resurrected
      && if w.s.resurrected then v.s.ref == w.s.ref && v.emission == Dropping(CountDown)
         else v.s.ref == w.s.ref + 1 && v.emission == Holding
  {
  }

  function Taken(events: seq<Event>): nat
  {
    if events == [] then 0 else B(events[0].TakeReference?) + Taken(events[1..])
  }

  function GivenBack(events: seq<Event>): nat
  {
    if events == [] then 0 else B(events[0].ReleaseReference?) + GivenBack(events[1..])
  }

  lemma StepCountsHolders(w: World, e: Event)
    requires Enabled(w, e)
    ensures Step(w, e).external + B(e.ReleaseReference?) == w.external + B(e.TakeReference?)
  {
    match e
    case EmissionUnref => UnrefKeepsRest(w, w.emission.at);
    case ReleaserUnref => UnrefKeepsRest(w, w.releaser.value);
    case _ =>
  }

  /** Who holds a reference: the creator and whoever took one, but for those who gave theirs back. */
  lemma {:induction false} HoldersCounted(w: World, events: seq<Event>)
    requires ValidRun(w, events)
    ensures Exec(w, events).external + GivenBack(events) == w.external + Taken(events)
    decreases |events|
  {
    if events != [] {
      StepCountsHolders(w, events[0]);
      HoldersCounted(Step(w, events[0]), events[1..]);
    }
  }

  /** So the source outlives everybody who has not given a reference back. */
  lemma AliveForHolders(events: seq<Event>)
    requires ValidRun(START, events) && GivenBack(events) <= Taken(events)
    ensures !Exec(START, events).finalized
  {
    HoldersCounted(START, events);
    NeverUsedAfterFinalize(events);
  }

  /** After a reset the next cancel goes all the way again, and until then nobody is told of one. */
  lemma ResetStartsOver(w: World)
    requires Inv(w) && Enabled(w, ResetFlag)
    ensures
      var v := Step(w, ResetFlag);
      && Enabled(v, LockCancel) && Step(v, LockCancel).running && !Step(v, LockCancel).told
      && (Enabled(v, CheckFlag) ==> Step(v, CheckFlag).s == v.s)
  {
  }

  /**
   * A dispose that leaves its reference for a handler that is not going to pick it
   * up: a cancel is emitting, but it is not committed to calling the handler.
   */
  predicate TooLate(w: World, e: Event) {
    && ((e == ReleaserUnref && w.releaser == Some(Disposing)) || (e == EmissionUnref && w.emission == Dropping(Disposing)))
    && w.s.attached && w.running && w.emission != Committed
  }

  predicate NeverTooLate(w: World, events: seq<Event>)
    requires ValidRun(w, events)
    decreases |events|
  {
    events == [] || (!TooLate(w, events[0]) && NeverTooLate(Step(w, events[0]), events[1..]))
  }

  /** The flag keeps a reference, and no handler is going to drop it. */
  predicate Stranded(w: World) { w.s.resurrected && w.emission != Committed }

  lemma EmissionStrands(w: World)
    requires Inv(w) && Enabled(w, EmissionUnref)
    ensures Stranded(Step(w, EmissionUnref)) <==> Stranded(w) || TooLate(w, EmissionUnref)
  {
  }

  lemma ReleaserStrands(w: World)
    requires Inv(w) && Enabled(w, ReleaserUnref)
    ensures Stranded(Step(w, ReleaserUnref)) <==> Stranded(w) || TooLate(w, ReleaserUnref)
  {
  }

  lemma StepStrands(w: World, e: Event)
    requires Inv(w) && Enabled(w, e)
    ensures Stranded(Step(w, e)) <==> Stranded(w) || TooLate(w, e)
  {
    match e
    case EmissionUnref => EmissionStrands(w);
    case ReleaserUnref => ReleaserStrands(w);
    case _ =>
  }

  lemma {:induction false} RunStrands(w: World, events: seq<Event>)
    requires Inv(w) && ValidRun(w, events)
    ensures Stranded(Exec(w, events)) <==> Stranded(w) || !NeverTooLate(w, events)
    decreases |events|
  {
    if events != [] {
      StepKeepsInv(w, events[0]);
      StepStrands(w, events[0]);
      RunStrands(Step(w, events[0]), events[1..]);
    }
  }

  /**
   * Once the last reference is dropped and nobody is inside the source any more, it
   * is finalized exactly when no dispose of the run came too late.  The comment in
   * dispose expects the handler to drop the reference that dispose leaves: it does
   * so only where the emission was already committed to calling it.
   */
  lemma FinalizedUnlessTooLate(events: seq<Event>)
    requires ValidRun(START, events)
    ensures
      var w := Exec(START, events);
      w.external == 0 && w.releaser.None? && w.emission == NoEmission ==>
        (w.finalized <==> NeverTooLate(START, events)) && w.s.ref == B(!w.finalized)
  {
    RunKeepsInv(START, events);
    RunStrands(START, events);
  }

  /** One more step at the end of a run. */
  lemma {:induction false} Then(w: World, events: seq<Event>, e: Event) returns (longer: seq<Event>)
    requires ValidRun(w, events) && Enabled(Exec(w, events), e)
    ensures longer == events + [e] && ValidRun(w, longer) && Exec(w, longer) == Step(Exec(w, events), e)
    decreases |events|
  {
    longer := events + [e];
    if events != [] {
      var rest := Then(Step(w, events[0]), events[1..], e);
      assert longer[1..] == rest;
    } else {
      assert longer[1..] == [];
    }
  }

  const CANCELLING := World(Source(1, true, true, false, false), false, 1, true, true, false, false, Returned, FlagUp, None)
  const DISPOSED := World(Source(1, false, false, true, false), false, 0, true, true, false, false, Returned, FlagUp, None)
  const ORPHANED := World(Source(1, false, false, true, false), false, 0, true, false, false, false, Returned, NoEmission, None)

  lemma ReachCancelling() returns (run: seq<Event>)
    ensures ValidRun(START, run) && Exec(START, run) == CANCELLING
  {
    run := Then(START, [], ConnectHandler);
    run := Then(START, run, CheckFlag);
    run := Then(START, run, LockCancel);
  }

  lemma ReachDisposed() returns (run: seq<Event>)
    ensures ValidRun(START, run) && Exec(START, run) == DISPOSED
  {
    run := ReachCancelling();
    run := Then(START, run, ReleaseReference);
    run := Then(START, run, ReleaserUnref);
    run := Then(START, run, ReleaserUnref);
    run := Then(START, run, ReleaserUnref);
  }

  /** A run in which the flag stays up for good: dispose comes before the emission reaches the handler. */
  lemma ResurrectedForGood()
    ensures exists events :: ValidRun(START, events) && Exec(START, events) == ORPHANED
  {
    var run := ReachDisposed();
    run := Then(START, run, StartEmission);
    run := Then(START, run, ReachHandler);
    run := Then(START, run, FinishCancel);
  }

  /**
   * The handler can also have run: when its own reference is the last, it disposes
   * of the source itself while the cancel is still emitting, and leaves a reference
   * for a handler that has been.
   */
  lemma LeakedByTheHandler() returns (run: seq<Event>)
    ensures ValidRun(START, run) && Orphan(Exec(START, run)) && Exec(START, run).told
  {
    run := ReachCancelling();
    run := Then(START, run, StartEmission);
    run := Then(START, run, ReachHandler);
    run := Then(START, run, EnterHandler);
    run := Then(START, run, ReleaseReference);
    run := Then(START, run, SetReady);
    run := Then(START, run, EmissionUnref);
    run := Then(START, run, EmissionUnref);
    run := Then(START, run, EmissionUnref);
    run := Then(START, run, EmissionUnref);
    run := Then(START, run, FinishCancel);
  }

  /** Nobody is left who could drop the reference that the flag keeps. */
  predicate Orphan(w: World) {
    && w.external == 0 && w.creator == Returned && w.releaser.None?
    && w.emission != Committed && w.emission != Holding && !w.emission.Dropping?
    && !w.s.connected && w.s.resurrected && w.s.ref == 1 && !w.finalized
  }

  lemma {:induction false} OrphanForever(w: World, events: seq<Event>)
    requires Orphan(w) && ValidRun(w, events)
    ensures !Exec(w, events).finalized
    decreases |events|
  {
    if events != [] {
      OrphanForever(Step(w, events[0]), events[1..]);
    }
  }
}
