/**
 * The cancellation protocol of gio/gcancellable.c.
 *
 * `GCancellable` is the object: each of its methods is one critical section
 * under `cancellable_mutex`, and rewrites the private fields in place.  The
 * pure functions beside it say what each section does to the fields.
 * `World` runs those sections in any number of threads.  A thread is between
 * two sections whenever another thread may run; the atomic flag is also read
 * outside the mutex, and since every section writes it at most once, such a
 * read sees the value from before or from after the section.
 *
 * Callbacks run without the lock.  What a callback itself does to the
 * cancellable is an operation of some other thread of the model.
 */
module Cancellable {
  import opened Wrappers

  datatype Private = Private(
    cancelled: bool,
    running: bool, runningWaiting: bool,
    emissions: nat, emissionsWaiting: bool,
    fdRefcount: nat,
    wakeup: Option<bool>)   // Some(signalled)

  const FRESH := Private(false, false, false, 0, false, 0, None)

  function BeginCancel(p: Private): Private {
    if p.cancelled then p
    else p.(cancelled := true, running := true, wakeup := if p.wakeup.Some? then Some(true) else None)
  }

  function EndCancel(p: Private): Private { p.(running := false, runningWaiting := false) }

  function BeginDirect(p: Private): Private { p.(emissions := p.emissions + 1) }

  function EndDirect(p: Private): Private
    requires p.emissions > 0
  {
    p.(emissions := p.emissions - 1)
  }

  predicate MustWait(p: Private) { p.running || p.emissions > 0 }

  function MarkWaiting(p: Private): Private {
    p.(runningWaiting := p.running || p.runningWaiting, emissionsWaiting := p.emissions > 0 || p.emissionsWaiting)
  }

  function Cleared(p: Private): Private {
    if p.cancelled then p.(cancelled := false, wakeup := if p.wakeup.Some? then Some(false) else None) else p
  }

  function TakeFd(p: Private): Private {
    p.(fdRefcount := p.fdRefcount + 1, wakeup := if p.wakeup.None? then Some(p.cancelled) else p.wakeup)
  }

  function DropFd(p: Private): Private
    requires p.fdRefcount > 0
  {
    p.(fdRefcount := p.fdRefcount - 1, wakeup := if p.fdRefcount == 1 then None else p.wakeup)
  }

  class GCancellable {
    var cancelled: bool
    var cancelledRunning: bool
    var cancelledRunningWaiting: bool
    var cancelledEmissions: nat
    var cancelledEmissionsWaiting: bool
    var fdRefcount: nat
    var wakeup: Option<bool>

    function State(): Private
      reads this
    {
      Private(cancelled, cancelledRunning, cancelledRunningWaiting, cancelledEmissions, cancelledEmissionsWaiting,
              fdRefcount, wakeup)
    }

    constructor ()
      ensures State() == FRESH
    {
      cancelled, cancelledRunning, cancelledRunningWaiting := false, false, false;
      cancelledEmissions, cancelledEmissionsWaiting := 0, false;
      fdRefcount, wakeup := 0, None;
    }

    /** The first section of cancel; the caller emits the signal iff `emit`. */
    method LockAndCancel() returns (emit: bool)
      modifies this`cancelled, this`cancelledRunning, this`wakeup
      ensures emit == !old(cancelled) && cancelled && cancelledRunning == (emit || old(cancelledRunning))
      ensures wakeup == if emit && old(wakeup).Some? then Some(true) else old(wakeup)
      ensures State() == BeginCancel(old(State()))
    {
      var was := cancelled;
      cancelled := true;
      if was {
        return false;
      }
      cancelledRunning := true;
      if wakeup.Some? {
        wakeup := Some(true);
      }
      emit := true;
    }

    /** The section of cancel after the emission. */
    method FinishCancel() returns (broadcast: bool)
      modifies this`cancelledRunning, this`cancelledRunningWaiting
      ensures broadcast == old(cancelledRunningWaiting) && !cancelledRunning && !cancelledRunningWaiting
      ensures State() == EndCancel(old(State()))
    {
      cancelledRunning := false;
      broadcast := cancelledRunningWaiting;
      cancelledRunningWaiting := false;
    }

    /** The first section of connect; the caller runs its callback directly iff `direct`. */
    method LockAndConnect() returns (direct: bool)
      modifies this`cancelledEmissions
      ensures direct == cancelled && cancelledEmissions == old(cancelledEmissions) + B(direct)
      ensures State() == if direct then BeginDirect(old(State())) else old(State())
    {
      direct := cancelled;
      if direct {
        cancelledEmissions := cancelledEmissions + 1;
      }
    }

    /** The section of connect after a direct callback. */
    method FinishDirect() returns (broadcast: bool)
      requires cancelledEmissions > 0
      modifies this`cancelledEmissions
      ensures broadcast == cancelledEmissionsWaiting && cancelledEmissions == old(cancelledEmissions) - 1
      ensures State() == EndDirect(old(State()))
    {
      broadcast := cancelledEmissionsWaiting;
      cancelledEmissions := cancelledEmissions - 1;
    }

    /** One turn of the wait loop of reset and disconnect. */
    method TestWait() returns (wait: bool)
      modifies this`cancelledRunningWaiting, this`cancelledEmissionsWaiting
      ensures wait == (cancelledRunning || cancelledEmissions > 0) == MustWait(old(State()))
      ensures cancelledRunningWaiting == (old(cancelledRunningWaiting) || cancelledRunning)
      ensures cancelledEmissionsWaiting == (old(cancelledEmissionsWaiting) || cancelledEmissions > 0)
      ensures State() == if wait then MarkWaiting(old(State())) else old(State())
    {
      wait := cancelledRunning || cancelledEmissions > 0;
      if wait {
        if cancelledRunning {
          cancelledRunningWaiting := true;
        }
        if cancelledEmissions > 0 {
          cancelledEmissionsWaiting := true;
        }
      }
    }

    /** What reset does once nothing is running. */
    method ClearFlag()
      modifies this`cancelled, this`wakeup
      ensures !cancelled && wakeup == if old(cancelled) && old(wakeup).Some? then Some(false) else old(wakeup)
      ensures State() == Cleared(old(State()))
    {
      var was := cancelled;
      cancelled := false;
      if was && wakeup.Some? {
        wakeup := Some(false);
      }
    }

    method MakePollfd()
      modifies this`fdRefcount, this`wakeup
      ensures fdRefcount == old(fdRefcount) + 1
      ensures wakeup == if old(wakeup).Some? then old(wakeup) else Some(cancelled)
      ensures State() == TakeFd(old(State()))
    {
      fdRefcount := fdRefcount + 1;
      if wakeup.None? {
        wakeup := Some(false);
        if cancelled {
          wakeup := Some(true);
        }
      }
    }

    method ReleaseFd()
      requires fdRefcount > 0
      modifies this`fdRefcount, this`wakeup
      ensures fdRefcount == old(fdRefcount) - 1
      ensures wakeup == if fdRefcount > 0 then old(wakeup) else None
      ensures State() == DropFd(old(State()))
    {
      fdRefcount := fdRefcount - 1;
      if fdRefcount == 0 {
        wakeup := None;
      }
    }
  }

  // ---------------------------------------------------------------- threads

  type Tid = nat

  /** Every call of connect brings a callback of its own; it also stands for the handler id. */
  type Callback = nat

  datatype Waiter = WantReset | WantDisconnect(callback: Callback)

  datatype Pc =
    | Idle
    | Cancelling                                             // read the flag as FALSE, not yet in the mutex
    | Emitting(todo: set<Callback>, current: Option<Callback>)
    | Direct(callback: Callback, ran: bool)
    | Blocked(op: Waiter, asleep: bool)

  /**
   * `since` and what is below it are history: the epochs in which a handler was
   * connected and disconnected, how often the flag went up and down, how often a
   * callback was called, every callback ever given to connect, those whose
   * disconnect returned.
   */
  datatype World = World(
    p: Private, pc: map<Tid, Pc>, handlers: set<Callback>,
    since: map<Callback, nat>, until: map<Callback, nat>, epoch: nat, resets: nat,
    runs: map<Callback, nat>, known: set<Callback>, gone: set<Callback>)

  function Runs(w: World, cb: Callback): nat {
    if cb in w.runs then w.runs[cb] else 0
  }

  datatype Event =
    | CheckCancel(t: Tid)
    | LockCancel(t: Tid)
    | StartCallback(t: Tid, cb: Callback)
    | EndCallback(t: Tid)
    | FinishCancel(t: Tid)
    | Connect(t: Tid, cb: Callback)
    | RunDirect(t: Tid)
    | FinishDirect(t: Tid)
    | Disconnect(t: Tid, cb: Callback)
    | Reset(t: Tid)
    | Test(t: Tid)
    | SpuriousWake(t: Tid)
    | MakePollfd(t: Tid)
    | ReleaseFd(t: Tid)

  predicate Enabled(w: World, e: Event) {
    e.t in w.pc &&
    var pc := w.pc[e.t];
    match e
    case CheckCancel(_) => pc.Idle?
    case LockCancel(_) => pc.Cancelling?
    case StartCallback(_, cb) => pc.Emitting? && pc.current.None? && cb in pc.todo
    case EndCallback(_) => pc.Emitting? && pc.current.Some?
    case FinishCancel(_) => pc == Emitting({}, None)
    case Connect(_, cb) => pc.Idle? && cb !in w.known
    case RunDirect(_) => pc.Direct? && !pc.ran
    case FinishDirect(_) => pc.Direct? && pc.ran && w.p.emissions > 0
    case Disconnect(_, cb) => pc.Idle? && cb in w.handlers
    case Reset(_) => pc.Idle?
    case Test(_) => pc.Blocked? && !pc.asleep
    case SpuriousWake(_) => pc.Blocked? && pc.asleep
    case MakePollfd(_) => pc.Idle?
    case ReleaseFd(_) => pc.Idle? && w.p.fdRefcount > 0
  }

  /** g_cond_broadcast */
  function Woken(pc: map<Tid, Pc>): map<Tid, Pc> {
    map t | t in pc :: if pc[t].Blocked? then pc[t].(asleep := false) else pc[t]
  }

  predicate Broadcasts(w: World, e: Event) {
    (e.FinishCancel? && w.p.runningWaiting) || (e.FinishDirect? && w.p.emissionsWaiting)
  }

  function NextPrivate(w: World, e: Event): Private
    requires Enabled(w, e)
  {
    match e
    case LockCancel(_) => BeginCancel(w.p)
    case FinishCancel(_) => EndCancel(w.p)
    case Connect(_, _) => if w.p.cancelled then BeginDirect(w.p) else w.p
    case FinishDirect(_) => EndDirect(w.p)
    case Test(t) =>
      if MustWait(w.p) then MarkWaiting(w.p) else if w.pc[t].op.WantReset? then Cleared(w.p) else w.p
    case MakePollfd(_) => TakeFd(w.p)
    case ReleaseFd(_) => DropFd(w.p)
    case _ => w.p
  }

  function NextPc(w: World, e: Event): Pc
    requires Enabled(w, e)
  {
    var pc := w.pc[e.t];
    match e
    case CheckCancel(_) => if w.p.cancelled then Idle else Cancelling
    case LockCancel(_) => if w.p.cancelled then Idle else Emitting(w.handlers, None)
    case StartCallback(_, cb) => Emitting(pc.todo - {cb}, if cb in w.handlers then Some(cb) else None)
    case EndCallback(_) => Emitting(pc.todo, None)
    case FinishCancel(_) => Idle
    case Connect(_, cb) => if w.p.cancelled then Direct(cb, false) else Idle
    case RunDirect(_) => Direct(pc.callback, true)
    case FinishDirect(_) => Idle
    case Disconnect(_, cb) => Blocked(WantDisconnect(cb), false)
    case Reset(_) => Blocked(WantReset, false)
    case Test(_) => if MustWait(w.p) then pc.(asleep := true) else Idle
    case SpuriousWake(_) => pc.(asleep := false)
    case _ => pc
  }

  /** The handlers and the history. */
  function Recorded(w: World, e: Event): World
    requires Enabled(w, e)
  {
    match e
    case LockCancel(_) => if w.p.cancelled then w else w.(epoch := w.epoch + 1)
    case StartCallback(_, cb) => if cb in w.handlers then Called(w, cb) else w
    case Connect(_, cb) =>
      if w.p.cancelled then w.(known := w.known + {cb})
      else w.(handlers := w.handlers + {cb}, since := w.since[cb := w.epoch], known := w.known + {cb})
    case RunDirect(t) => Called(w, w.pc[t].callback)
    case Test(t) =>
      if MustWait(w.p) then w
      else if w.pc[t].op.WantReset? then w.(resets := if w.p.cancelled then w.resets + 1 else w.resets)
      else Disconnected(w, w.pc[t].op.callback)
    case _ => w
  }

  function Disconnected(w: World, cb: Callback): World {
    w.(handlers := w.handlers - {cb},
       gone := w.gone + {cb},
       until := if cb in w.handlers then w.until[cb := w.epoch] else w.until)
  }

  function Called(w: World, cb: Callback): World {
    w.(runs := w.runs[cb := Runs(w, cb) + 1])
  }

  function Step(w: World, e: Event): World
    requires Enabled(w, e)
  {
    var pc := if Broadcasts(w, e) then Woken(w.pc) else w.pc;
    Recorded(w, e).(p := NextPrivate(w, e), pc := pc[e.t := NextPc(w, e)])
  }

  predicate Initial(w: World) {
    && w.p == FRESH && (forall t :: t in w.pc ==> w.pc[t].Idle?) && w.handlers == {}
    && w.since == map[] && w.until == map[] && w.epoch == 0 && w.resets == 0
    && w.runs == map[] && w.known == {} && w.gone == {}
  }

  // ---------------------------------------------------------------- the invariant

  function Emitters(pc: map<Tid, Pc>): set<Tid> { set t | t in pc && pc[t].Emitting? }

  function Directs(pc: map<Tid, Pc>): set<Tid> { set t | t in pc && pc[t].Direct? }

  /** A sleeping thread has left its flag up for a condition that still holds. */
  predicate Flagged(p: Private) {
    (p.running && p.runningWaiting) || (p.emissions > 0 && p.emissionsWaiting)
  }

  ghost predicate ThreadInv(w: World) {
    && |Emitters(w.pc)| == B(w.p.running)
    && |Directs(w.pc)| == w.p.emissions
    && (w.p.runningWaiting ==> w.p.running)
    && (MustWait(w.p) ==> w.p.cancelled)
    && (forall t :: t in w.pc && w.pc[t].Blocked? && w.pc[t].asleep ==> Flagged(w.p))
    && w.epoch == w.resets + B(w.p.cancelled)
  }

  predicate FdInv(p: Private) {
    && (p.wakeup.Some? <==> p.fdRefcount > 0)
    && (p.wakeup.Some? ==> p.wakeup.value == p.cancelled)
  }

  /** Some emission has still to reach the handler. */
  ghost predicate Due(w: World, cb: Callback) {
    exists t :: t in w.pc && w.pc[t].Emitting? && cb in w.pc[t].todo
  }

  ghost predicate DirectFor(w: World, t: Tid, cb: Callback) {
    t in w.pc && w.pc[t].Direct? && w.pc[t].callback == cb
  }

  ghost predicate CallbackInv(w: World) {
    && w.handlers + w.gone <= w.known && w.handlers !! w.gone
    && w.runs.Keys <= w.known && w.since.Keys <= w.known && w.handlers <= w.since.Keys
    && (forall t :: t in w.pc && w.pc[t].Emitting? ==> w.pc[t].todo <= w.handlers)
    && (forall t :: t in w.pc && w.pc[t].Emitting? && w.pc[t].current.Some? ==> w.pc[t].current.value in w.handlers)
    && (forall t :: t in w.pc && w.pc[t].Blocked? && w.pc[t].op.WantDisconnect? ==>
          w.pc[t].op.callback in w.handlers + w.gone)
    && (forall cb :: cb in w.handlers ==> HandlerCount(w, cb))
    && (forall t, cb :: DirectFor(w, t, cb) ==>
          cb in w.known - w.handlers - w.gone && Runs(w, cb) == (if w.pc[t].ran then 1 else 0))
    && (forall t, u, cb :: DirectFor(w, t, cb) && DirectFor(w, u, cb) ==> t == u)
    && (forall cb :: cb in w.known - w.handlers - w.gone ==> Runs(w, cb) == 1 || exists t :: DirectFor(w, t, cb))
  }

  /** A connected handler has run in every emission since it was connected, but for the one it is still due in. */
  ghost predicate HandlerCount(w: World, cb: Callback)
    requires w.handlers <= w.since.Keys && cb in w.handlers
  {
    w.since[cb] + Runs(w, cb) + B(Due(w, cb)) == w.epoch
  }

  /** A handler is connected while the flag is down; a callback is called directly while it is up. */
  ghost predicate HistoryInv(w: World) {
    && (forall cb :: cb in w.since ==> w.since[cb] <= w.resets)
    && (w.epoch == 0 ==> w.known <= w.handlers + w.gone)
  }

  /** A disconnected handler has run in every emission while it was connected. */
  ghost predicate GoneInv(w: World) {
    && w.until.Keys == w.gone && w.since.Keys == w.handlers + w.gone
    && forall cb :: cb in w.gone ==> w.since[cb] + Runs(w, cb) == w.until[cb]
  }

  ghost predicate Inv(w: World) {
    ThreadInv(w) && FdInv(w.p) && CallbackInv(w) && HistoryInv(w) && GoneInv(w)
  }

  lemma MoveEmitter(pc: map<Tid, Pc>, t: Tid, next: Pc)
    requires t in pc
    ensures |Emitters(pc[t := next])| == |Emitters(pc)| - B(pc[t].Emitting?) + B(next.Emitting?)
  {
    var others := Emitters(pc) - {t};
    assert Emitters(pc) == others + if pc[t].Emitting? then {t} else {};
    assert Emitters(pc[t := next]) == others + if next.Emitting? then {t} else {};
  }

  lemma MoveDirect(pc: map<Tid, Pc>, t: Tid, next: Pc)
    requires t in pc
    ensures |Directs(pc[t := next])| == |Directs(pc)| - B(pc[t].Direct?) + B(next.Direct?)
  {
    var others := Directs(pc) - {t};
    assert Directs(pc) == others + if pc[t].Direct? then {t} else {};
    assert Directs(pc[t := next]) == others + if next.Direct? then {t} else {};
  }

  function B(b: bool): nat { if b then 1 else 0 }

  lemma WokenThreads(pc: map<Tid, Pc>)
    ensures Emitters(Woken(pc)) == Emitters(pc) && Directs(Woken(pc)) == Directs(pc)
  {
  }

  lemma OneEmitter(w: World, t: Tid, u: Tid)
    requires |Emitters(w.pc)| <= 1 && t in w.pc && u in w.pc && w.pc[t].Emitting? && w.pc[u].Emitting?
    ensures t == u
  {
    assert {t, u} <= Emitters(w.pc);
    assert Emitters(w.pc) == {t, u} + (Emitters(w.pc) - {t, u});
  }

  lemma StepKeepsFds(w: World, e: Event)
    requires FdInv(w.p) && Enabled(w, e)
    ensures FdInv(Step(w, e).p)
  {
  }

  lemma StepMoves(w: World, e: Event)
    requires Enabled(w, e)
    ensures |Emitters(Step(w, e).pc)| == |Emitters(w.pc)| - B(w.pc[e.t].Emitting?) + B(NextPc(w, e).Emitting?)
    ensures |Directs(Step(w, e).pc)| == |Directs(w.pc)| - B(w.pc[e.t].Direct?) + B(NextPc(w, e).Direct?)
  {
    WokenThreads(w.pc);
    MoveEmitter(if Broadcasts(w, e) then Woken(w.pc) else w.pc, e.t, NextPc(w, e));
    MoveDirect(if Broadcasts(w, e) then Woken(w.pc) else w.pc, e.t, NextPc(w, e));
  }

  /** running means exactly one emitter, and emissions counts the direct callbacks. */
  lemma StepKeepsCounts(w: World, e: Event)
    requires ThreadInv(w) && Enabled(w, e)
    ensures |Emitters(Step(w, e).pc)| == B(Step(w, e).p.running)
    ensures |Directs(Step(w, e).pc)| == Step(w, e).p.emissions
  {
    StepMoves(w, e);
  }

  /** Whoever sleeps has flagged a condition that still holds, so the end of it will broadcast. */
  lemma StepKeepsSleepers(w: World, e: Event)
    requires ThreadInv(w) && Enabled(w, e)
    ensures forall t :: t in Step(w, e).pc && Step(w, e).pc[t].Blocked? && Step(w, e).pc[t].asleep ==> Flagged(Step(w, e).p)
  {
    var w' := Step(w, e);
    forall t | t in w'.pc && w'.pc[t].Blocked? && w'.pc[t].asleep
      ensures Flagged(w'.p)
    {
      assert t in w.pc && (t != e.t ==> w.pc[t].Blocked? && w.pc[t].asleep);
    }
  }

  lemma StepKeepsThreads(w: World, e: Event)
    requires ThreadInv(w) && Enabled(w, e)
    ensures ThreadInv(Step(w, e))
  {
    StepKeepsCounts(w, e);
    StepKeepsSleepers(w, e);
  }

  /** The clauses of CallbackInv about which callback is where. */
  lemma StepKeepsKnown(w: World, e: Event)
    requires ThreadInv(w) && CallbackInv(w) && Enabled(w, e)
    ensures
      var w' := Step(w, e);
      && w'.handlers + w'.gone <= w'.known && w'.handlers !! w'.gone
      && w'.runs.Keys <= w'.known && w'.since.Keys <= w'.known && w'.handlers <= w'.since.Keys
  {
    if e.RunDirect? {
      assert DirectFor(w, e.t, w.pc[e.t].callback);
    }
  }

  lemma StepKeepsPlaces(w: World, e: Event)
    requires ThreadInv(w) && CallbackInv(w) && Enabled(w, e)
    ensures
      var w' := Step(w, e);
      forall t :: t in w'.pc && w'.pc[t].Emitting? ==> w'.pc[t].todo <= w'.handlers
  {
    if e.Test? && !MustWait(w.p) {
      NobodyIsEmitting(w);
    }
  }

  lemma StepKeepsCurrent(w: World, e: Event)
    requires ThreadInv(w) && CallbackInv(w) && Enabled(w, e)
    ensures
      var w' := Step(w, e);
      forall t :: t in w'.pc && w'.pc[t].Emitting? && w'.pc[t].current.Some? ==> w'.pc[t].current.value in w'.handlers
  {
    if e.Test? && !MustWait(w.p) {
      NobodyIsEmitting(w);
    }
  }

  lemma NobodyIsEmitting(w: World)
    requires ThreadInv(w) && !w.p.running
    ensures forall t :: t in w.pc ==> !w.pc[t].Emitting?
  {
    forall t | t in w.pc
      ensures !w.pc[t].Emitting?
    {
      assert t !in Emitters(w.pc);
    }
  }

  lemma StepKeepsWanted(w: World, e: Event)
    requires ThreadInv(w) && CallbackInv(w) && Enabled(w, e)
    ensures
      var w' := Step(w, e);
      forall t :: t in w'.pc && w'.pc[t].Blocked? && w'.pc[t].op.WantDisconnect? ==>
        w'.pc[t].op.callback in w'.handlers + w'.gone
  {
  }

  lemma SameDue(w: World, w': World, cb: Callback)
    requires w'.pc.Keys == w.pc.Keys
    requires forall t :: t in w.pc ==>
      (w.pc[t].Emitting? && cb in w.pc[t].todo <==> w'.pc[t].Emitting? && cb in w'.pc[t].todo)
    ensures Due(w, cb) == Due(w', cb)
  {
    if Due(w, cb) {
      var t :| t in w.pc && w.pc[t].Emitting? && cb in w.pc[t].todo;
      assert w'.pc[t].Emitting? && cb in w'.pc[t].todo;
    }
    if Due(w', cb) {
      var t :| t in w'.pc && w'.pc[t].Emitting? && cb in w'.pc[t].todo;
      assert w.pc[t].Emitting? && cb in w.pc[t].todo;
    }
  }

  lemma NobodyEmits(w: World, cb: Callback)
    requires ThreadInv(w) && !w.p.running
    ensures !Due(w, cb)
  {
    NobodyIsEmitting(w);
  }

  lemma BeginMakesDue(w: World, t: Tid, cb: Callback)
    requires ThreadInv(w) && Enabled(w, LockCancel(t)) && !w.p.cancelled && cb in w.handlers
    ensures !Due(w, cb) && Due(Step(w, LockCancel(t)), cb)
  {
    NobodyEmits(w, cb);
    var w' := Step(w, LockCancel(t));
    assert w'.pc[t].Emitting? && cb in w'.pc[t].todo;
  }

  lemma StartServes(w: World, t: Tid, cb: Callback)
    requires ThreadInv(w) && Enabled(w, StartCallback(t, cb))
    ensures Due(w, cb) && !Due(Step(w, StartCallback(t, cb)), cb)
  {
    var w' := Step(w, StartCallback(t, cb));
    assert w.pc[t].Emitting? && cb in w.pc[t].todo;
    forall u | u in w'.pc && w'.pc[u].Emitting?
      ensures cb !in w'.pc[u].todo
    {
      OneEmitter(w, t, u);
    }
  }

  lemma OtherKeepsDue(w: World, e: Event, cb: Callback)
    requires Enabled(w, e) && cb in w.handlers
    requires !(e.LockCancel? && !w.p.cancelled) && !(e.StartCallback? && e.cb == cb)
    ensures Due(Step(w, e), cb) == Due(w, cb)
  {
    SameDue(w, Step(w, e), cb);
  }

  /** Where a step leaves a handler: due in a new emission, served, or as it was. */
  lemma StepDue(w: World, e: Event, cb: Callback)
    requires ThreadInv(w) && CallbackInv(w) && Enabled(w, e) && cb in w.handlers
    ensures e.LockCancel? && !w.p.cancelled ==> !Due(w, cb) && Due(Step(w, e), cb)
    ensures e.StartCallback? && e.cb == cb ==> Due(w, cb) && !Due(Step(w, e), cb)
    ensures !(e.LockCancel? && !w.p.cancelled) && !(e.StartCallback? && e.cb == cb) ==> Due(Step(w, e), cb) == Due(w, cb)
  {
    if e.LockCancel? && !w.p.cancelled {
      BeginMakesDue(w, e.t, cb);
    } else if e.StartCallback? && e.cb == cb {
      StartServes(w, e.t, cb);
    } else {
      OtherKeepsDue(w, e, cb);
    }
  }

  /** How a step changes what a handler is counted by: once per emission begun, and once per call. */
  lemma StepRuns(w: World, e: Event, cb: Callback)
    requires CallbackInv(w) && Enabled(w, e) && cb in w.handlers
    ensures Runs(Step(w, e), cb) == Runs(w, cb) + B(e.StartCallback? && e.cb == cb)
    ensures Step(w, e).epoch == w.epoch + B(e.LockCancel? && !w.p.cancelled)
    ensures cb in Step(w, e).since && Step(w, e).since[cb] == w.since[cb]
  {
    if e.RunDirect? {
      assert DirectFor(w, e.t, w.pc[e.t].callback);
    }
  }

  /** A handler connected just now: the flag is down, and nobody emits. */
  lemma ConnectStartsCount(w: World, e: Event, cb: Callback)
    requires ThreadInv(w) && CallbackInv(w) && Enabled(w, e)
    requires cb !in w.handlers && cb in Step(w, e).handlers && cb in Step(w, e).since
    ensures Step(w, e).since[cb] + Runs(Step(w, e), cb) + B(Due(Step(w, e), cb)) == Step(w, e).epoch
  {
    StepKeepsThreads(w, e);
    NobodyEmits(Step(w, e), cb);
  }

  lemma StepKeepsHandlerCount(w: World, e: Event, cb: Callback)
    requires ThreadInv(w) && CallbackInv(w) && Enabled(w, e) && cb in Step(w, e).handlers && cb in Step(w, e).since
    ensures Step(w, e).since[cb] + Runs(Step(w, e), cb) + B(Due(Step(w, e), cb)) == Step(w, e).epoch
  {
    if cb in w.handlers {
      assert HandlerCount(w, cb);
      StepDue(w, e, cb);
      StepRuns(w, e, cb);
    } else {
      ConnectStartsCount(w, e, cb);
    }
  }

  /** Where a direct callback comes from. */
  lemma DirectBefore(w: World, e: Event, t: Tid, cb: Callback)
    requires Enabled(w, e) && DirectFor(Step(w, e), t, cb)
    ensures if t == e.t && e.Connect? then e.cb == cb && w.p.cancelled else DirectFor(w, t, cb)
  {
  }

  lemma StepKeepsDirect(w: World, e: Event, t: Tid, cb: Callback)
    requires CallbackInv(w) && Enabled(w, e) && DirectFor(Step(w, e), t, cb)
    ensures
      var w' := Step(w, e);
      cb in w'.known - w'.handlers - w'.gone && Runs(w', cb) == (if w'.pc[t].ran then 1 else 0)
  {
    DirectBefore(w, e, t, cb);
    if e.RunDirect? && t != e.t {
      assert DirectFor(w, e.t, w.pc[e.t].callback);
    }
  }

  lemma StepKeepsDirects(w: World, e: Event)
    requires ThreadInv(w) && CallbackInv(w) && Enabled(w, e)
    ensures
      var w' := Step(w, e);
      && (forall t, cb :: DirectFor(w', t, cb) ==>
            cb in w'.known - w'.handlers - w'.gone && Runs(w', cb) == (if w'.pc[t].ran then 1 else 0))
      && (forall t, u, cb :: DirectFor(w', t, cb) && DirectFor(w', u, cb) ==> t == u)
  {
    var w' := Step(w, e);
    forall t, cb | DirectFor(w', t, cb)
      ensures cb in w'.known - w'.handlers - w'.gone && Runs(w', cb) == (if w'.pc[t].ran then 1 else 0)
    {
      StepKeepsDirect(w, e, t, cb);
    }
    forall t, u, cb | DirectFor(w', t, cb) && DirectFor(w', u, cb)
      ensures t == u
    {
      DirectBefore(w, e, t, cb);
      DirectBefore(w, e, u, cb);
    }
  }

  lemma StepKeepsOwedTo(w: World, e: Event, cb: Callback)
    requires CallbackInv(w) && Enabled(w, e)
    requires cb in w.known - w.handlers - w.gone
    ensures Runs(Step(w, e), cb) == 1 || exists t :: DirectFor(Step(w, e), t, cb)
  {
    var w' := Step(w, e);
    if exists t :: DirectFor(w, t, cb) {
      var t :| DirectFor(w, t, cb);
      if t != e.t || !e.FinishDirect? {
        assert DirectFor(w', t, cb);
      }
    } else {
      assert Runs(w, cb) == 1;
      assert !DirectFor(w, e.t, cb);
    }
  }

  lemma StepKeepsOwed(w: World, e: Event)
    requires ThreadInv(w) && CallbackInv(w) && Enabled(w, e)
    ensures
      var w' := Step(w, e);
      forall cb :: cb in w'.known - w'.handlers - w'.gone ==> Runs(w', cb) == 1 || exists t :: DirectFor(w', t, cb)
  {
    var w' := Step(w, e);
    forall cb | cb in w'.known - w'.handlers - w'.gone
      ensures Runs(w', cb) == 1 || exists t :: DirectFor(w', t, cb)
    {
      if cb in w.known {
        StepKeepsOwedTo(w, e, cb);
      } else {
        assert DirectFor(w', e.t, cb);
      }
    }
  }

  lemma StepKeepsHistory(w: World, e: Event)
    requires Inv(w) && Enabled(w, e)
    ensures HistoryInv(Step(w, e))
  {
  }

  lemma DisconnectKeepsGone(w: World, t: Tid)
    requires Inv(w) && Enabled(w, Test(t)) && !MustWait(w.p) && w.pc[t].op.WantDisconnect?
    ensures GoneInv(Disconnected(w, w.pc[t].op.callback))
  {
    var cb := w.pc[t].op.callback;
    assert cb in w.handlers + w.gone;
    if cb in w.handlers {
      assert HandlerCount(w, cb);
      NobodyEmits(w, cb);
    }
  }

  lemma CallKeepsGone(w: World, cb: Callback)
    requires GoneInv(w) && cb !in w.gone
    ensures GoneInv(Called(w, cb))
  {
  }

  lemma ConnectKeepsGone(w: World, t: Tid, cb: Callback)
    requires GoneInv(w) && w.gone <= w.known && Enabled(w, Connect(t, cb))
    ensures GoneInv(Recorded(w, Connect(t, cb)))
  {
  }

  lemma RecordedKeepsGone(w: World, e: Event)
    requires Inv(w) && Enabled(w, e)
    ensures GoneInv(Recorded(w, e))
  {
    match e
    case StartCallback(_, cb) => if cb in w.handlers { CallKeepsGone(w, cb); }
    case Connect(t, cb) => ConnectKeepsGone(w, t, cb);
    case RunDirect(t) =>
      assert DirectFor(w, t, w.pc[t].callback);
      CallKeepsGone(w, w.pc[t].callback);
    case Test(t) => if !MustWait(w.p) && w.pc[t].op.WantDisconnect? { DisconnectKeepsGone(w, t); }
    case _ =>
  }

  lemma StepKeepsGone(w: World, e: Event)
    requires Inv(w) && Enabled(w, e)
    ensures GoneInv(Step(w, e))
  {
    RecordedKeepsGone(w, e);
  }

  lemma StepKeepsInv(w: World, e: Event)
    requires Inv(w) && Enabled(w, e)
    ensures Inv(Step(w, e))
  {
    StepKeepsGone(w, e);
    StepKeepsThreads(w, e);
    StepKeepsFds(w, e);
    StepKeepsKnown(w, e);
    StepKeepsPlaces(w, e);
    StepKeepsCurrent(w, e);
    StepKeepsWanted(w, e);
    StepKeepsDirects(w, e);
    StepKeepsOwed(w, e);
    StepKeepsHistory(w, e);
    forall cb | cb in Step(w, e).handlers
      ensures HandlerCount(Step(w, e), cb)
    {
      StepKeepsHandlerCount(w, e, cb);
    }
  }

  // ---------------------------------------------------------------- runs

  predicate ValidRun(w: World, events: seq<Event>)
    decreases |events|
  {
    events == [] || (Enabled(w, events[0]) && ValidRun(Step(w, events[0]), events[1..]))
  }

  function Exec(w: World, events: seq<Event>): World
    requires ValidRun(w, events)
    decreases |events|
  {
    if events == [] then w else Exec(Step(w, events[0]), events[1..])
  }

  lemma {:induction false} RunKeepsInv(w: World, events: seq<Event>)
    requires Inv(w) && ValidRun(w, events)
    ensures Inv(Exec(w, events))
    decreases |events|
  {
    if events != [] {
      StepKeepsInv(w, events[0]);
      RunKeepsInv(Step(w, events[0]), events[1..]);
    }
  }

  lemma InitialInv(w: World)
    requires Initial(w)
    ensures Inv(w)
  {
    assert Emitters(w.pc) == {} && Directs(w.pc) == {};
  }

  /** A thread is inside the callback, or committed to calling it directly. */
  ghost predicate Executing(w: World, cb: Callback) {
    exists t :: t in w.pc && (w.pc[t] == Direct(cb, false) || (w.pc[t].Emitting? && w.pc[t].current == Some(cb)))
  }

  /**
   * How often a callback has run, in every interleaving: once for a callback
   * that connect ran itself, and for a handler once for every time the flag went
   * up while it was connected.
   */
  lemma RunCounts(start: World, events: seq<Event>, cb: Callback)
    requires Initial(start) && ValidRun(start, events)
    requires cb in Exec(start, events).known
    ensures
      var w := Exec(start, events);
      && (cb in w.gone ==> cb in w.since && cb in w.until && w.since[cb] + Runs(w, cb) == w.until[cb])
      && (cb in w.handlers && !w.p.running ==> cb in w.since && w.since[cb] + Runs(w, cb) == w.epoch)
      && (cb !in w.handlers + w.gone ==> Runs(w, cb) <= 1 && (!Executing(w, cb) ==> Runs(w, cb) == 1))
  {
    InitialInv(start);
    RunKeepsInv(start, events);
    CountsOf(Exec(start, events), cb);
  }

  lemma CountsOf(w: World, cb: Callback)
    requires Inv(w) && cb in w.known
    ensures cb in w.handlers && !w.p.running ==> cb in w.since && w.since[cb] + Runs(w, cb) == w.epoch
    ensures cb !in w.handlers + w.gone ==> Runs(w, cb) <= 1 && (!Executing(w, cb) ==> Runs(w, cb) == 1)
  {
    if cb in w.handlers {
      assert HandlerCount(w, cb);
      if !w.p.running { NobodyEmits(w, cb); }
    } else if exists t :: DirectFor(w, t, cb) {
      var t :| DirectFor(w, t, cb);
      assert w.pc[t] == Direct(cb, w.pc[t].ran);
    }
  }

  /**
   * Without a reset that takes the flag down: at most one run ever, and exactly
   * one once a cancel has finished its emission and connect its direct call.
   */
  lemma ExactlyOnce(start: World, events: seq<Event>, cb: Callback)
    requires Initial(start) && ValidRun(start, events)
    requires cb in Exec(start, events).known - Exec(start, events).gone
    requires Exec(start, events).resets == 0
    ensures
      var w := Exec(start, events);
      && Runs(w, cb) <= 1
      && (w.p.cancelled && !w.p.running && !Executing(w, cb) ==> Runs(w, cb) == 1)
      && (!w.p.cancelled ==> Runs(w, cb) == 0)
  {
    InitialInv(start);
    RunKeepsInv(start, events);
    RunCounts(start, events, cb);
    var w := Exec(start, events);
    if cb in w.handlers {
      assert HandlerCount(w, cb);
    }
  }

  /** A handler whose disconnect has returned is nowhere about to be called, and a step does not call it. */
  lemma GoneStaysGone(w: World, e: Event, cb: Callback)
    requires Inv(w) && Enabled(w, e) && cb in w.gone
    ensures cb in Step(w, e).gone && Runs(Step(w, e), cb) == Runs(w, cb)
    ensures !Executing(w, cb)
  {
    if e.RunDirect? {
      assert DirectFor(w, e.t, w.pc[e.t].callback);
    }
    NotExecuting(w, cb);
  }

  lemma NotExecuting(w: World, cb: Callback)
    requires Inv(w) && cb in w.gone
    ensures !Executing(w, cb)
  {
    forall t | t in w.pc
      ensures w.pc[t] != Direct(cb, false)
      ensures !(w.pc[t].Emitting? && w.pc[t].current == Some(cb))
    {
      if w.pc[t].Direct? {
        assert DirectFor(w, t, w.pc[t].callback);
      }
    }
  }

  /**
   * After disconnect has returned the callback is not running and never runs
   * again, whatever follows, resets and further cancels included.
   */
  lemma {:induction false} NeverAfterDisconnect(w: World, events: seq<Event>, cb: Callback)
    requires Inv(w) && ValidRun(w, events) && cb in w.gone
    ensures Runs(Exec(w, events), cb) == Runs(w, cb)
    ensures !Executing(Exec(w, events), cb)
    decreases |events|
  {
    if events == [] {
      NotExecuting(w, cb);
    } else {
      GoneStaysGone(w, events[0], cb);
      StepKeepsInv(w, events[0]);
      NeverAfterDisconnect(Step(w, events[0]), events[1..], cb);
    }
  }

  /** Reset and disconnect return only with nothing running, and when they have done what they are for. */
  lemma ReturnsDone(w: World, t: Tid)
    requires Inv(w) && Enabled(w, Test(t)) && !Step(w, Test(t)).pc[t].Blocked?
    ensures
      var v := Step(w, Test(t));
      && !v.p.running && v.p.emissions == 0
      && (forall u :: u in v.pc ==> !v.pc[u].Emitting? && !v.pc[u].Direct?)
      && match w.pc[t].op
         case WantReset => !v.p.cancelled && v.handlers == w.handlers
         case WantDisconnect(cb) => cb in v.gone && v.handlers == w.handlers - {cb} && v.p.cancelled == w.p.cancelled
  {
    StepKeepsThreads(w, Test(t));
    var v := Step(w, Test(t));
    forall u | u in v.pc
      ensures !v.pc[u].Emitting? && !v.pc[u].Direct?
    {
      assert u !in Emitters(v.pc) && u !in Directs(v.pc);
    }
  }

  lemma DisconnectGoesOn(w: World, e: Event, t: Tid, cb: Callback)
    requires Inv(w) && Enabled(w, e) && t in w.pc && w.pc[t].Blocked? && w.pc[t].op == WantDisconnect(cb)
    ensures
      var v := Step(w, e);
      t in v.pc && (cb in v.gone || (v.pc[t].Blocked? && v.pc[t].op == WantDisconnect(cb)))
  {
  }

  /** A call of disconnect does not come back before its callback is gone, for good. */
  lemma {:induction false} DisconnectIsDone(w: World, events: seq<Event>, t: Tid, cb: Callback)
    requires Inv(w) && ValidRun(w, events) && t in w.pc
    requires cb in w.gone || (w.pc[t].Blocked? && w.pc[t].op == WantDisconnect(cb))
    ensures
      var v := Exec(w, events);
      t in v.pc && (cb in v.gone || (v.pc[t].Blocked? && v.pc[t].op == WantDisconnect(cb)))
    decreases |events|
  {
    if events != [] {
      StepKeepsInv(w, events[0]);
      if cb in w.gone {
        GoneStaysGone(w, events[0], cb);
      } else {
        DisconnectGoesOn(w, events[0], t, cb);
      }
      DisconnectIsDone(Step(w, events[0]), events[1..], t, cb);
    }
  }

  /** Cancel returns only with the flag up, and whoever put it up only when its emission has reached all handlers. */
  lemma CancelReturns(w: World, e: Event)
    requires Inv(w) && Enabled(w, e) && (e.CheckCancel? || e.LockCancel? || e.FinishCancel?)
    ensures
      var v := Step(w, e);
      && (v.pc[e.t].Idle? ==> v.p.cancelled)
      && (e.CheckCancel? && !w.p.cancelled ==> Enabled(v, LockCancel(e.t)))
      && (e.LockCancel? && !w.p.cancelled ==> v.pc[e.t].Emitting? && v.pc[e.t].todo == w.handlers && v.p.cancelled)
      && (e.FinishCancel? ==> forall cb :: cb in v.handlers ==> !Due(v, cb))
  {
    if e.FinishCancel? {
      StepKeepsThreads(w, e);
      assert e.t in Emitters(w.pc);
      forall cb | cb in w.handlers
        ensures !Due(Step(w, e), cb)
      {
        NobodyEmits(Step(w, e), cb);
      }
    }
  }

  /**
   * No lost wakeup: whenever a thread sleeps in reset or disconnect, what it
   * waits for is still true, and some other thread is inside the emission or
   * the direct call whose end will find the flag and broadcast.
   */
  lemma NoLostWakeup(start: World, events: seq<Event>, t: Tid)
    requires Initial(start) && ValidRun(start, events)
    requires
      var w := Exec(start, events);
      t in w.pc && w.pc[t].Blocked? && w.pc[t].asleep
    ensures
      var w := Exec(start, events);
      exists u :: u in w.pc && u != t &&
        ((w.pc[u].Emitting? && w.p.running && w.p.runningWaiting) ||
         (w.pc[u].Direct? && w.p.emissions > 0 && w.p.emissionsWaiting))
  {
    InitialInv(start);
    RunKeepsInv(start, events);
    var w := Exec(start, events);
    if w.p.running && w.p.runningWaiting {
      var u :| u in Emitters(w.pc);
      assert u in w.pc && u != t && w.pc[u].Emitting?;
    } else {
      var u :| u in Directs(w.pc);
      assert u in w.pc && u != t && w.pc[u].Direct?;
    }
  }

  /** When the last of those ends, every sleeper is awake. */
  lemma EndWakesSleepers(w: World, e: Event, t: Tid)
    requires Inv(w) && Enabled(w, e) && !MustWait(Step(w, e).p)
    requires t in Step(w, e).pc && Step(w, e).pc[t].Blocked?
    ensures !Step(w, e).pc[t].asleep
  {
    StepKeepsSleepers(w, e);
  }

  /** A wakeup without a broadcast makes no difference: the thread finds that it has to wait, and sleeps on. */
  lemma SpuriousWakeIsHarmless(w: World, t: Tid)
    requires Inv(w) && Enabled(w, SpuriousWake(t))
    ensures Enabled(Step(w, SpuriousWake(t)), Test(t))
    ensures
      var v := Step(Step(w, SpuriousWake(t)), Test(t));
      && v.pc == w.pc && v.handlers == w.handlers && v.gone == w.gone && v.runs == w.runs
      && v.p.cancelled == w.p.cancelled && v.p.running == w.p.running && v.p.emissions == w.p.emissions
  {
  }

  /** No deadlock: while a thread is inside an operation, some operation can go on without a spurious wakeup. */
  lemma SomebodyCanGoOn(w: World, t: Tid) returns (e: Event)
    requires Inv(w) && t in w.pc && !w.pc[t].Idle?
    ensures Enabled(w, e) && !e.SpuriousWake? && !w.pc[e.t].Idle?
    decreases if w.pc[t].Blocked? then 1 else 0
  {
    if w.pc[t].Blocked? && w.pc[t].asleep {
      var u :| u in Emitters(w.pc) + Directs(w.pc);
      e := SomebodyCanGoOn(w, u);
    } else {
      match w.pc[t]
      case Cancelling => e := LockCancel(t);
      case Emitting(todo, current) =>
        if current.Some? {
          e := EndCallback(t);
        } else if todo == {} {
          e := FinishCancel(t);
        } else {
          var cb :| cb in todo;
          e := StartCallback(t, cb);
        }
      case Direct(cb, ran) =>
        assert t in Directs(w.pc);
        e := if ran then FinishDirect(t) else RunDirect(t);
      case Blocked(_, _) => e := Test(t);
    }
  }

  function Made(events: seq<Event>): nat
  {
    if events == [] then 0 else B(events[0].MakePollfd?) + Made(events[1..])
  }

  function Released(events: seq<Event>): nat
  {
    if events == [] then 0 else B(events[0].ReleaseFd?) + Released(events[1..])
  }

  lemma {:induction false} FdsFrom(w: World, events: seq<Event>)
    requires ValidRun(w, events)
    ensures Exec(w, events).p.fdRefcount + Released(events) == w.p.fdRefcount + Made(events)
    decreases |events|
  {
    if events != [] {
      FdsFrom(Step(w, events[0]), events[1..]);
    }
  }

  /** Nobody loses the descriptor to somebody else: it is there as long as more were made than released. */
  lemma FdPerHolder(start: World, events: seq<Event>)
    requires Initial(start) && ValidRun(start, events)
    ensures
      var p := Exec(start, events).p;
      && p.fdRefcount == Made(events) - Released(events)
      && (p.wakeup.Some? <==> Made(events) > Released(events))
  {
    FdsFrom(start, events);
    FdTellsTheFlag(start, events);
  }

  /** With the mutex free, the wakeup exists iff somebody holds the fd, and is signalled iff cancelled. */
  lemma FdTellsTheFlag(start: World, events: seq<Event>)
    requires Initial(start) && ValidRun(start, events)
    ensures
      var p := Exec(start, events).p;
      && (p.wakeup.Some? <==> p.fdRefcount > 0)
      && (p.wakeup.Some? ==> p.wakeup.value == p.cancelled)
  {
    InitialInv(start);
    RunKeepsInv(start, events);
  }

  /** Up to when a callback was connected. */
  function Until(w: World, cb: Callback): nat { if cb in w.until then w.until[cb] else w.epoch }

  /**
   * The documentation of connect says that a callback is called at most once.
   * That holds of a callback that connect calls itself, and of a handler exactly
   * as long as the flag goes up at most once while it is connected, not counting an
   * emission that has yet to come to it; `RunTwice` is a run with a reset in which
   * it fails.
   */
  lemma AtMostOnceIff(start: World, events: seq<Event>, cb: Callback)
    requires Initial(start) && ValidRun(start, events)
    requires cb in Exec(start, events).known
    ensures
      var w := Exec(start, events);
      Runs(w, cb) <= 1 <==> (cb in w.since ==> Until(w, cb) <= w.since[cb] + 1 + B(cb in w.handlers && Due(w, cb)))
  {
    InitialInv(start);
    RunKeepsInv(start, events);
    RunCounts(start, events, cb);
    var w := Exec(start, events);
    if cb in w.handlers {
      assert HandlerCount(w, cb);
    }
    assert w.since.Keys == w.handlers + w.gone && w.until.Keys == w.gone;
  }

  const CANCEL_SEVEN := [CheckCancel(0), LockCancel(0), StartCallback(0, 7), EndCallback(0), FinishCancel(0)]

  lemma RunTwice(start: World)
    requires Initial(start) && start.pc == map[0 := Idle]
    ensures
      var events := [Connect(0, 7)] + (CANCEL_SEVEN + ([Reset(0)] + ([Test(0)] + CANCEL_SEVEN)));
      ValidRun(start, events) && Runs(Exec(start, events), 7) == 2
  {
    var w1 := Step(start, Connect(0, 7));
    CancelOnce(w1);
    var w2 := Exec(w1, CANCEL_SEVEN);
    var w3 := Step(w2, Reset(0));
    var w4 := Step(w3, Test(0));
    assert w4.pc == map[0 := Idle];
    CancelOnce(w4);
    Cons(w3, Test(0), CANCEL_SEVEN);
    Cons(w2, Reset(0), [Test(0)] + CANCEL_SEVEN);
    ExecAppend(w1, CANCEL_SEVEN, [Reset(0)] + ([Test(0)] + CANCEL_SEVEN));
    Cons(start, Connect(0, 7), CANCEL_SEVEN + ([Reset(0)] + ([Test(0)] + CANCEL_SEVEN)));
  }

  const CALL_SEVEN := [StartCallback(0, 7), EndCallback(0)]

  lemma FinishOnce(w: World)
    requires w.pc == map[0 := Emitting({}, None)] && w.p.running && !w.p.runningWaiting
    ensures ValidRun(w, [FinishCancel(0)])
    ensures
      var w' := Exec(w, [FinishCancel(0)]);
      w'.pc == map[0 := Idle] && w'.handlers == w.handlers && w'.p == EndCancel(w.p) && w'.runs == w.runs
  {
    assert Step(w, FinishCancel(0)).pc == map[0 := Idle];
    Cons(w, FinishCancel(0), []);
  }

  lemma CallOnce(w: World)
    requires w.pc == map[0 := Emitting({7}, None)] && w.handlers == {7}
    ensures ValidRun(w, CALL_SEVEN)
    ensures
      var w' := Exec(w, CALL_SEVEN);
      && w'.pc == map[0 := Emitting({}, None)] && w'.handlers == w.handlers && w'.p == w.p
      && Runs(w', 7) == Runs(w, 7) + 1
  {
    var w1 := Step(w, StartCallback(0, 7));
    assert {7} - {7} == {};
    assert w1.pc == map[0 := Emitting({}, Some(7))];
    Cons(w1, EndCallback(0), []);
    Cons(w, StartCallback(0, 7), [EndCallback(0)]);
    assert CALL_SEVEN == [StartCallback(0, 7)] + [EndCallback(0)];
  }

  const REST_OF_CANCEL := CALL_SEVEN + [FinishCancel(0)]

  lemma EmitOnce(w: World)
    requires w.pc == map[0 := Emitting({7}, None)] && w.handlers == {7} && w.p.running && !w.p.runningWaiting
    ensures ValidRun(w, REST_OF_CANCEL)
    ensures
      var w' := Exec(w, REST_OF_CANCEL);
      && w'.pc == map[0 := Idle] && w'.handlers == w.handlers && w'.p == EndCancel(w.p)
      && Runs(w', 7) == Runs(w, 7) + 1
  {
    CallOnce(w);
    FinishOnce(Exec(w, CALL_SEVEN));
    ExecAppend(w, CALL_SEVEN, [FinishCancel(0)]);
  }

  lemma CancelOnce(w: World)
    requires w.pc == map[0 := Idle] && !w.p.cancelled && w.handlers == {7} && !w.p.runningWaiting
    ensures ValidRun(w, CANCEL_SEVEN)
    ensures
      var w' := Exec(w, CANCEL_SEVEN);
      && w'.pc == w.pc && w'.handlers == w.handlers && w'.p == EndCancel(BeginCancel(w.p))
      && Runs(w', 7) == Runs(w, 7) + 1
  {
    var w1 := Step(w, CheckCancel(0));
    var w2 := Step(w1, LockCancel(0));
    assert w2.pc == map[0 := Emitting({7}, None)];
    EmitOnce(w2);
    Cons(w1, LockCancel(0), REST_OF_CANCEL);
    Cons(w, CheckCancel(0), [LockCancel(0)] + REST_OF_CANCEL);
    assert CANCEL_SEVEN == [CheckCancel(0)] + ([LockCancel(0)] + REST_OF_CANCEL);
  }

  lemma Cons(w: World, e: Event, rest: seq<Event>)
    requires Enabled(w, e) && ValidRun(Step(w, e), rest)
    ensures ValidRun(w, [e] + rest) && Exec(w, [e] + rest) == Exec(Step(w, e), rest)
  {
    assert ([e] + rest)[1..] == rest;
  }

  lemma {:induction false} ExecAppend(w: World, a: seq<Event>, b: seq<Event>)
    requires ValidRun(w, a) && ValidRun(Exec(w, a), b)
    ensures ValidRun(w, a + b) && Exec(w, a + b) == Exec(Exec(w, a), b)
    decreases |a|
  {
    if a == [] {
      assert a + b == b;
    } else {
      ExecAppend(Step(w, a[0]), a[1..], b);
      assert (a + b)[1..] == a[1..] + b;
    }
  }
}
