/**
 * Every operation on a cancellable ends: as long as no thread begins another one,
 * only so many steps can be taken, and when none is left no thread is inside any.
 */
module CancellableProgress {
  import opened Cancellable

  /** What a thread can be at. */
  datatype Kind = OnItsWay | InEmission | InCallback | InDirect | BeforeDirect | Waiting | AboutToTest

  predicate Is(pc: Pc, kind: Kind)
  {
    match kind
    case OnItsWay => pc.Cancelling?
    case InEmission => pc.Emitting?
    case InCallback => pc.Emitting? && pc.current.Some?
    case InDirect => pc.Direct?
    case BeforeDirect => pc.Direct? && !pc.ran
    case Waiting => pc.Blocked?
    case AboutToTest => pc.Blocked? && !pc.asleep
  }

  function At(pc: map<Tid, Pc>, kind: Kind): set<Tid> { set t | t in pc && Is(pc[t], kind) }

  lemma OneApart<T>(a: set<T>, b: set<T>, t: T)
    requires a - {t} == b - {t}
    ensures |b| == |a| - B(t in a) + B(t in b)
  {
    assert a == (a - {t}) + if t in a then {t} else {};
    assert b == (b - {t}) + if t in b then {t} else {};
  }

  /** A step changes where its own thread is; a broadcast changes only who is about to test again. */
  lemma StepAt(w: World, e: Event, kind: Kind)
    requires Enabled(w, e) && (kind.AboutToTest? ==> !Broadcasts(w, e))
    ensures |At(Step(w, e).pc, kind)| == |At(w.pc, kind)| - B(Is(w.pc[e.t], kind)) + B(Is(NextPc(w, e), kind))
  {
    var pc' := Step(w, e).pc;
    forall t | t in w.pc && t != e.t
      ensures Is(pc'[t], kind) <==> Is(w.pc[t], kind)
    {
    }
    assert At(w.pc, kind) - {e.t} == At(pc', kind) - {e.t};
    OneApart(At(w.pc, kind), At(pc', kind), e.t);
  }

  lemma AtMostAll(pc: map<Tid, Pc>, kind: Kind)
    ensures |At(pc, kind)| <= |pc|
  {
    assert pc.Keys == At(pc, kind) + (pc.Keys - At(pc, kind));
  }

  // ---------------------------------------------------------------- how much is left to do

  ghost function DueHandlers(w: World): set<Callback> { set cb | cb in w.handlers && Due(w, cb) }

  /** What the emission and the direct calls have still to do. */
  ghost function Calls(w: World): nat
  {
    2 * |DueHandlers(w)| + |At(w.pc, InCallback)| + |At(w.pc, InEmission)| + |At(w.pc, BeforeDirect)| + |At(w.pc, InDirect)|
  }

  /** A thread on its way into cancel can still begin an emission to every handler. */
  ghost function Work(w: World): nat { |At(w.pc, OnItsWay)| * (2 * |w.handlers| + 2) + Calls(w) }

  ghost function Waits(w: World): nat { 2 * |At(w.pc, Waiting)| + |At(w.pc, AboutToTest)| }

  ghost function Bound(w: World): nat { Work(w) * (|w.pc| + 1) + Waits(w) }

  /** A step of an operation under way, which is not a wakeup without a broadcast. */
  predicate Goes(w: World, e: Event) { Enabled(w, e) && !w.pc[e.t].Idle? && !e.SpuriousWake? }

  lemma NobodyDue(w: World)
    requires ThreadInv(w) && !w.p.running
    ensures DueHandlers(w) == {}
  {
    forall cb | cb in w.handlers
      ensures !Due(w, cb)
    {
      NobodyEmits(w, cb);
    }
  }

  /** How the due handlers change in a step that does not begin an emission. */
  lemma StepDueHandlers(w: World, e: Event)
    requires Inv(w) && Goes(w, e) && !e.LockCancel? && !e.Test?
    ensures DueHandlers(Step(w, e)) == if e.StartCallback? then DueHandlers(w) - {e.cb} else DueHandlers(w)
    ensures e.StartCallback? ==> e.cb in DueHandlers(w)
  {
    forall cb | cb in w.handlers
      ensures Due(Step(w, e), cb) == if e.StartCallback? && e.cb == cb then false else Due(w, cb)
      ensures e.StartCallback? && e.cb == cb ==> Due(w, cb)
    {
      StepDue(w, e, cb);
    }
  }

  /** All of that, in one step. */
  ghost function CallsAfter(w: World, e: Event, due: nat): int
    requires Enabled(w, e)
  {
    var pc, next := w.pc[e.t], NextPc(w, e);
    Calls(w) - 2 * |DueHandlers(w)| + 2 * due
      - B(Is(pc, InCallback)) + B(Is(next, InCallback)) - B(Is(pc, InEmission)) + B(Is(next, InEmission))
      - B(Is(pc, BeforeDirect)) + B(Is(next, BeforeDirect)) - B(Is(pc, InDirect)) + B(Is(next, InDirect))
  }

  lemma StepCalls(w: World, e: Event)
    requires Enabled(w, e)
    ensures Calls(Step(w, e)) == CallsAfter(w, e, |DueHandlers(Step(w, e))|)
  {
    StepAt(w, e, InCallback);
    StepAt(w, e, InEmission);
    StepAt(w, e, BeforeDirect);
    StepAt(w, e, InDirect);
  }

  lemma CallsLess(w: World, e: Event, due: nat)
    requires Goes(w, e) && !e.LockCancel? && !e.Test?
    requires due == |DueHandlers(w)| - B(e.StartCallback?) && (e.StartCallback? ==> e.cb in w.handlers)
    ensures CallsAfter(w, e, due) < Calls(w)
  {
  }

  lemma StepKeepsHandlers(w: World, e: Event)
    requires Goes(w, e) && !e.Test?
    ensures Step(w, e).handlers == w.handlers
  {
  }

  /** How work goes on where no thread begins anything, and no handler goes. */
  lemma LessWork(w: World, e: Event)
    requires Enabled(w, e) && Step(w, e).handlers == w.handlers
    requires |At(Step(w, e).pc, OnItsWay)| == |At(w.pc, OnItsWay)| && Calls(Step(w, e)) < Calls(w)
    ensures Work(Step(w, e)) < Work(w)
  {
  }

  lemma NotOnItsWay(w: World, e: Event)
    requires Goes(w, e) && !e.LockCancel?
    ensures |At(Step(w, e).pc, OnItsWay)| == |At(w.pc, OnItsWay)|
  {
    StepAt(w, e, OnItsWay);
  }

  lemma DueLess(w: World, e: Event)
    requires Inv(w) && Goes(w, e) && !e.LockCancel? && !e.Test?
    ensures |DueHandlers(Step(w, e))| == |DueHandlers(w)| - B(e.StartCallback?)
    ensures e.StartCallback? ==> e.cb in w.handlers
  {
    StepDueHandlers(w, e);
  }

  lemma CallsStep(w: World, e: Event)
    requires Goes(w, e) && !e.LockCancel? && !e.Test?
    requires |DueHandlers(Step(w, e))| == |DueHandlers(w)| - B(e.StartCallback?) && (e.StartCallback? ==> e.cb in w.handlers)
    ensures Work(Step(w, e)) < Work(w)
  {
    StepCalls(w, e);
    CallsLess(w, e, |DueHandlers(Step(w, e))|);
    NotOnItsWay(w, e);
    StepKeepsHandlers(w, e);
    LessWork(w, e);
  }

  lemma AtMostHandlers(w: World)
    ensures |DueHandlers(w)| <= |w.handlers|
  {
    assert w.handlers == DueHandlers(w) + (w.handlers - DueHandlers(w));
  }

  /** A thread that finds the flag up returns, and else the emission is to no more than all handlers. */
  lemma LockKeepsDue(w: World, t: Tid)
    requires Inv(w) && Goes(w, LockCancel(t)) && w.p.cancelled
    ensures DueHandlers(Step(w, LockCancel(t))) == DueHandlers(w)
  {
    forall cb | cb in w.handlers
      ensures Due(Step(w, LockCancel(t)), cb) == Due(w, cb)
    {
      StepDue(w, LockCancel(t), cb);
    }
  }

  lemma LockAdds(w: World, t: Tid, due: nat)
    requires Goes(w, LockCancel(t)) && due <= |w.handlers| && (w.p.cancelled ==> due == |DueHandlers(w)|)
    ensures CallsAfter(w, LockCancel(t), due) <= Calls(w) + 2 * |w.handlers| + 1
  {
  }

  lemma LockDue(w: World, t: Tid)
    requires Inv(w) && Goes(w, LockCancel(t))
    ensures |DueHandlers(Step(w, LockCancel(t)))| <= |w.handlers|
    ensures w.p.cancelled ==> |DueHandlers(Step(w, LockCancel(t)))| == |DueHandlers(w)|
  {
    if w.p.cancelled {
      LockKeepsDue(w, t);
    }
    AtMostHandlers(Step(w, LockCancel(t)));
    StepKeepsHandlers(w, LockCancel(t));
  }

  lemma LockStep(w: World, t: Tid)
    requires Goes(w, LockCancel(t)) && |DueHandlers(Step(w, LockCancel(t)))| <= |w.handlers|
    requires w.p.cancelled ==> |DueHandlers(Step(w, LockCancel(t)))| == |DueHandlers(w)|
    ensures Work(Step(w, LockCancel(t))) < Work(w)
  {
    var e := LockCancel(t);
    StepKeepsHandlers(w, e);
    StepCalls(w, e);
    LockAdds(w, t, |DueHandlers(Step(w, e))|);
    StepAt(w, e, OnItsWay);
    LockWork(w, Step(w, e));
  }

  lemma LockWork(w: World, w': World)
    requires w'.handlers == w.handlers && |At(w'.pc, OnItsWay)| == |At(w.pc, OnItsWay)| - 1
    requires Calls(w') <= Calls(w) + 2 * |w.handlers| + 1
    ensures Work(w') < Work(w)
  {
    OneLess(|At(w.pc, OnItsWay)|, |At(w'.pc, OnItsWay)|, 2 * |w.handlers| + 2);
  }

  lemma OneLess(n: nat, m: int, k: nat)
    requires m == n - 1
    ensures m * k == n * k - k
  {
  }

  lemma TestKeepsDue(w: World, t: Tid)
    requires Inv(w) && Goes(w, Test(t))
    ensures |DueHandlers(Step(w, Test(t)))| == |DueHandlers(w)|
  {
    var w' := Step(w, Test(t));
    if MustWait(w.p) {
      forall cb | cb in w.handlers
        ensures Due(w', cb) == Due(w, cb)
      {
        StepDue(w, Test(t), cb);
      }
      assert w'.handlers == w.handlers;
      assert DueHandlers(w') == DueHandlers(w);
    } else {
      StepKeepsThreads(w, Test(t));
      NobodyDue(w);
      NobodyDue(w');
    }
  }

  lemma TestDropsHandlers(w: World, t: Tid)
    requires Goes(w, Test(t))
    ensures |Step(w, Test(t)).handlers| <= |w.handlers|
  {
    var kept := Step(w, Test(t)).handlers;
    assert w.handlers == kept + (w.handlers - kept);
  }

  lemma TestWaits(w: World, t: Tid)
    requires Goes(w, Test(t))
    ensures Waits(Step(w, Test(t))) < Waits(w)
    ensures CallsAfter(w, Test(t), |DueHandlers(w)|) == Calls(w)
  {
    StepAt(w, Test(t), Waiting);
    StepAt(w, Test(t), AboutToTest);
  }

  lemma TestStep(w: World, t: Tid)
    requires Goes(w, Test(t)) && |DueHandlers(Step(w, Test(t)))| == |DueHandlers(w)|
    ensures Work(Step(w, Test(t))) <= Work(w)
  {
    TestWaits(w, t);
    StepCalls(w, Test(t));
    NotOnItsWay(w, Test(t));
    TestDropsHandlers(w, t);
    TestWork(w, Step(w, Test(t)));
  }

  lemma TestWork(w: World, w': World)
    requires |w'.handlers| <= |w.handlers| && |At(w'.pc, OnItsWay)| == |At(w.pc, OnItsWay)| && Calls(w') == Calls(w)
    ensures Work(w') <= Work(w)
  {
    FewerHandlers(|At(w.pc, OnItsWay)|, |w'.handlers|, |w.handlers|);
  }

  lemma FewerHandlers(n: nat, a: nat, b: nat)
    requires a <= b
    ensures n * (2 * a + 2) <= n * (2 * b + 2)
  {
  }

  /** Less work outweighs all the waiting there can be. */
  lemma {:induction false} Outweighs(less: nat, more: nat, k: nat)
    requires less < more
    ensures less * k + k <= more * k
    decreases more
  {
    OneLess(more, more - 1, k);
    if less + 1 < more {
      Outweighs(less, more - 1, k);
    }
  }

  lemma AtLeast(less: nat, more: nat, k: nat)
    requires less <= more
    ensures less * k <= more * k
  {
  }

  /** Where no test is made, the waiting threads are the same, though a broadcast may wake all of them. */
  lemma OtherWaits(w: World, e: Event)
    requires Goes(w, e) && !e.Test?
    ensures Waits(Step(w, e)) <= Waits(w) + |w.pc|
  {
    StepAt(w, e, Waiting);
    AtMostAll(Step(w, e).pc, AboutToTest);
    assert Step(w, e).pc.Keys == w.pc.Keys;
    assert |Step(w, e).pc| == |Step(w, e).pc.Keys| && |w.pc| == |w.pc.Keys|;
  }

  lemma SameThreads(w: World, e: Event)
    requires Enabled(w, e)
    ensures |Step(w, e).pc| == |w.pc|
  {
    assert Step(w, e).pc.Keys == w.pc.Keys;
    assert |Step(w, e).pc| == |Step(w, e).pc.Keys| && |w.pc| == |w.pc.Keys|;
  }

  lemma StepIsNearer(w: World, e: Event)
    requires Inv(w) && Goes(w, e)
    ensures Bound(Step(w, e)) < Bound(w)
  {
    var w' := Step(w, e);
    SameThreads(w, e);
    if e.Test? {
      TestKeepsDue(w, e.t);
      TestStep(w, e.t);
      TestWaits(w, e.t);
      AtLeast(Work(w'), Work(w), |w.pc| + 1);
    } else {
      if e.LockCancel? {
        LockDue(w, e.t);
        LockStep(w, e.t);
      } else {
        DueLess(w, e);
        CallsStep(w, e);
      }
      OtherWaits(w, e);
      Outweighs(Work(w'), Work(w), |w.pc| + 1);
    }
  }

  // ---------------------------------------------------------------- runs

  predicate AllGo(w: World, events: seq<Event>)
    requires ValidRun(w, events)
    decreases |events|
  {
    events == [] || (Goes(w, events[0]) && AllGo(Step(w, events[0]), events[1..]))
  }

  /** However the threads are scheduled, no more than so many steps can be taken. */
  lemma {:induction false} NoEndlessRun(w: World, events: seq<Event>)
    requires Inv(w) && ValidRun(w, events) && AllGo(w, events)
    ensures |events| + Bound(Exec(w, events)) <= Bound(w)
    decreases |events|
  {
    if events != [] {
      StepKeepsInv(w, events[0]);
      StepIsNearer(w, events[0]);
      NoEndlessRun(Step(w, events[0]), events[1..]);
    }
  }

  /** And as long as a thread is inside an operation there is a step to take, so that in the end all have returned. */
  lemma {:induction false} AllReturn(w: World) returns (events: seq<Event>)
    requires Inv(w)
    ensures ValidRun(w, events) && AllGo(w, events) && |events| <= Bound(w)
    ensures forall t :: t in Exec(w, events).pc ==> Exec(w, events).pc[t].Idle?
    decreases Bound(w)
  {
    if t :| t in w.pc && !w.pc[t].Idle? {
      var e := SomebodyCanGoOn(w, t);
      StepKeepsInv(w, e);
      StepIsNearer(w, e);
      var rest := AllReturn(Step(w, e));
      events := [e] + rest;
      assert events[1..] == rest;
    } else {
      events := [];
    }
  }
}
