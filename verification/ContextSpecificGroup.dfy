/**
 * GContextSpecificGroup (gio/gcontextspecificgroup.c): one instance per main
 * context, a start function to be called by a worker when the first instance
 * appears and a stop function when the last one is gone, and for every context
 * a queue of signals that are still to be emitted there.
 */
module ContextSpecificGroup {
  import opened Wrappers

  type Context(==, !new)
  type SignalId = nat

  // ---------------------------------------------------------------- pending signals

  predicate NoDup(q: seq<SignalId>) {
    forall i, j :: 0 <= i < j < |q| ==> q[i] != q[j]
  }

  /** g_queue_remove: drops the first occurrence. */
  function Without(q: seq<SignalId>, id: SignalId): (r: seq<SignalId>)
    ensures |r| == if Place(q, id) < |q| then |q| - 1 else |q|
    ensures forall i :: 0 <= i < |r| ==> r[i] == q[if i < Place(q, id) then i else i + 1]
  {
    if q == [] then [] else if q[0] == id then q[1..] else [q[0]] + Without(q[1..], id)
  }

  /** The place of the first occurrence, or |q| if there is none. */
  function Place(q: seq<SignalId>, id: SignalId): (k: nat)
    ensures k <= |q| && (k < |q| ==> q[k] == id) && (forall i :: 0 <= i < k ==> q[i] != id)
  {
    if q == [] || q[0] == id then 0 else 1 + Place(q[1..], id)
  }

  lemma FirstPlace(q: seq<SignalId>, id: SignalId, i: nat)
    requires i <= |q| && (forall k :: 0 <= k < i ==> q[k] != id) && (i < |q| ==> q[i] == id)
    ensures Place(q, id) == i
    ensures Without(q, id) == if i < |q| then q[..i] + q[i + 1..] else q
  {
    var at := Place(q, id);
    assert at >= i && at <= i;
  }

  lemma WithoutNoDup(q: seq<SignalId>, id: SignalId)
    requires NoDup(q)
    ensures NoDup(Without(q, id)) && id !in Without(q, id)
  {
  }

  function Requeue(q: seq<SignalId>, id: SignalId): seq<SignalId> {
    Without(q, id) + [id]
  }

  class ContextSpecificSource {
    var pending: seq<SignalId>
    var readyTime: int

    ghost predicate Valid()
      reads this
    {
      NoDup(pending) && readyTime == if pending == [] then -1 else 0
    }

    constructor ()
      ensures Valid() && pending == []
    {
      pending := [];
      readyTime := -1;
    }

    /** The locked part of dispatch; the caller emits `id`. */
    method PopPending() returns (id: SignalId)
      requires Valid() && readyTime == 0
      modifies this
      ensures Valid()
      ensures old(pending) == [id] + pending
    {
      assert pending != [];
      id := pending[0];
      pending := pending[1..];
      if pending == [] {
        readyTime := -1;
      }
    }

    /** g_queue_remove */
    method RemovePending(id: SignalId)
      modifies this`pending
      ensures pending == Without(old(pending), id)
    {
      var i := 0;
      while i < |pending| && pending[i] != id
        invariant 0 <= i <= |pending|
        invariant forall k :: 0 <= k < i ==> pending[k] != id
      {
        i := i + 1;
      }
      FirstPlace(pending, id, i);
      if i < |pending| {
        pending := pending[..i] + pending[i + 1..];
      }
    }

    /** What emit does to one source. */
    method PushPending(id: SignalId)
      requires Valid()
      modifies this
      ensures Valid() && pending != [] && pending[|pending| - 1] == id
      ensures id !in old(pending) ==> pending == old(pending) + [id]
      ensures pending == Requeue(old(pending), id)
    {
      WithoutNoDup(pending, id);
      RemovePending(id);
      pending := pending + [id];
      readyTime := 0;
    }
  }

  datatype QueueEvent = Emit(id: SignalId) | Deliver(id: SignalId)

  /** The queue after a history of emits and deliveries; every delivery is of the head. */
  function QueueAfter(history: seq<QueueEvent>): Option<seq<SignalId>> {
    if history == [] then Some([])
    else
      var e := history[|history| - 1];
      match QueueAfter(history[..|history| - 1])
      case None => None
      case Some(q) =>
        if e.Emit? then Some(Requeue(q, e.id))
        else if q != [] && q[0] == e.id then Some(q[1..])
        else None
  }

  function LastOf(history: seq<QueueEvent>, e: QueueEvent): int {
    if history == [] then -1
    else if history[|history| - 1] == e then |history| - 1
    else LastOf(history[..|history| - 1], e)
  }

  predicate Owed(history: seq<QueueEvent>, id: SignalId) {
    LastOf(history, Emit(id)) > LastOf(history, Deliver(id))
  }

  predicate InEmitOrder(history: seq<QueueEvent>, q: seq<SignalId>) {
    forall i, j :: 0 <= i < j < |q| ==> LastOf(history, Emit(q[i])) < LastOf(history, Emit(q[j]))
  }

  lemma {:induction false} LastOfBound(history: seq<QueueEvent>, e: QueueEvent)
    ensures -1 <= LastOf(history, e) < |history|
  {
    if history != [] && history[|history| - 1] != e {
      LastOfBound(history[..|history| - 1], e);
    }
  }

  lemma LastOfNext(past: seq<QueueEvent>, e: QueueEvent, x: QueueEvent)
    ensures LastOf(past + [e], x) == if x == e then |past| else LastOf(past, x)
  {
    assert (past + [e])[..|past|] == past;
  }

  /** Where two of the others were. */
  lemma WithoutIndices(p: seq<SignalId>, id: SignalId, i: nat, j: nat) returns (a: nat, b: nat)
    requires i < j < |Without(p, id)|
    ensures a < b < |p| && p[a] == Without(p, id)[i] && p[b] == Without(p, id)[j]
  {
    var k := Place(p, id);
    a := if i < k then i else i + 1;
    b := if j < k then j else j + 1;
  }

  lemma WithoutKeepsMembers(p: seq<SignalId>, id: SignalId, x: SignalId)
    requires NoDup(p)
    ensures x in Without(p, id) <==> x in p && x != id
  {
    var k := Place(p, id);
    var r := Without(p, id);
    if x in p && x != id {
      var i :| 0 <= i < |p| && p[i] == x;
      assert r[if i < k then i else i - 1] == x;
    }
    if x in r {
      var i :| 0 <= i < |r| && r[i] == x;
      assert p[if i < k then i else i + 1] == x;
    }
  }

  /** Removing `id` keeps the others and their order. */
  lemma WithoutKeeps(past: seq<QueueEvent>, p: seq<SignalId>, id: SignalId)
    requires NoDup(p) && InEmitOrder(past, p)
    ensures NoDup(Without(p, id)) && InEmitOrder(past, Without(p, id))
    ensures forall x :: x in Without(p, id) <==> x in p && x != id
  {
    var r := Without(p, id);
    forall i, j | 0 <= i < j < |r|
      ensures r[i] != r[j] && LastOf(past, Emit(r[i])) < LastOf(past, Emit(r[j]))
    {
      var a, b := WithoutIndices(p, id, i, j);
    }
    forall x
      ensures x in r <==> x in p && x != id
    {
      WithoutKeepsMembers(p, id, x);
    }
  }

  lemma EmitKeepsOwed(past: seq<QueueEvent>, id: SignalId)
    requires QueueAfter(past).Some? && HoldsOwed(past, QueueAfter(past).value)
    ensures HoldsOwed(past + [Emit(id)], Requeue(QueueAfter(past).value, id))
  {
    var p, now := QueueAfter(past).value, past + [Emit(id)];
    var r, q := Without(p, id), Requeue(p, id);
    WithoutKeeps(past, p, id);
    forall x: SignalId
      ensures x != id ==> LastOf(now, Emit(x)) == LastOf(past, Emit(x)) < |past|
      ensures x in q <==> Owed(now, x)
    {
      LastOfNext(past, Emit(id), Emit(x));
      LastOfNext(past, Emit(id), Deliver(x));
      LastOfBound(past, Emit(x));
      LastOfBound(past, Deliver(x));
    }
    LastOfNext(past, Emit(id), Emit(id));
    forall i, j | 0 <= i < j < |q|
      ensures q[i] != q[j] && LastOf(now, Emit(q[i])) < LastOf(now, Emit(q[j]))
    {
      assert q[i] == r[i] && q[i] in r;
      if j < |r| {
        assert q[j] == r[j] && q[j] in r;
      }
    }
  }

  lemma DeliverKeepsOwed(past: seq<QueueEvent>, id: SignalId)
    requires QueueAfter(past).Some? && HoldsOwed(past, QueueAfter(past).value)
    requires QueueAfter(past).value != [] && QueueAfter(past).value[0] == id
    ensures HoldsOwed(past + [Deliver(id)], QueueAfter(past).value[1..])
  {
    var p, now := QueueAfter(past).value, past + [Deliver(id)];
    var q := p[1..];
    assert p == [id] + q;
    forall x: SignalId
      ensures LastOf(now, Emit(x)) == LastOf(past, Emit(x)) < |past|
      ensures x in q <==> Owed(now, x)
    {
      LastOfNext(past, Deliver(id), Emit(x));
      LastOfNext(past, Deliver(id), Deliver(x));
      LastOfBound(past, Emit(x));
      LastOfBound(past, Deliver(x));
      assert x in p <==> x in q || x == id;
    }
  }

  /**
   * The queue holds exactly the signals emitted since their last delivery, each
   * once, and in the order of their latest emits.
   */
  lemma {:induction false} QueueIsOwed(history: seq<QueueEvent>)
    requires QueueAfter(history).Some?
    ensures HoldsOwed(history, QueueAfter(history).value)
  {
    if history != [] {
      var past, e := history[..|history| - 1], history[|history| - 1];
      QueueIsOwed(past);
      if e.Emit? {
        EmitKeepsOwed(past, e.id);
      } else {
        DeliverKeepsOwed(past, e.id);
      }
      assert history == past + [e];
    }
  }

  ghost predicate HoldsOwed(history: seq<QueueEvent>, q: seq<SignalId>) {
    NoDup(q) && (forall id :: id in q <==> Owed(history, id)) && InEmitOrder(history, q)
  }

  function Deliveries(more: seq<QueueEvent>): nat {
    if more == [] then 0
    else Deliveries(more[..|more| - 1]) + if more[|more| - 1].Deliver? then 1 else 0
  }

  lemma PlaceWithout(p: seq<SignalId>, id: SignalId, place: nat) returns (now: nat)
    requires place < |p| && p[place] != id
    ensures now <= place && now < |Without(p, id)| && Without(p, id)[now] == p[place] == Requeue(p, id)[now]
  {
    var k := Place(p, id);
    now := if place < k then place else place - 1;
  }

  /** While `id` is not emitted again, every delivery brings it one place nearer to the head. */
  lemma {:induction false} MovesUp(history: seq<QueueEvent>, more: seq<QueueEvent>, id: SignalId, place: nat)
    returns (now: nat)
    requires QueueAfter(history + more).Some? && Emit(id) !in more && Deliver(id) !in more
    requires QueueAfter(history).Some? ==> place < |QueueAfter(history).value| && QueueAfter(history).value[place] == id
    ensures QueueAfter(history).Some?
    ensures now < |QueueAfter(history + more).value| && QueueAfter(history + more).value[now] == id
    ensures now + Deliveries(more) <= place
    decreases |more|
  {
    if more == [] {
      assert history + more == history;
      now := place;
    } else {
      var fore, e := more[..|more| - 1], more[|more| - 1];
      assert (history + more)[..|history + more| - 1] == history + fore;
      var before := MovesUp(history, fore, id, place);
      var p := QueueAfter(history + fore).value;
      if e.Deliver? {
        now := before - 1;
      } else {
        now := PlaceWithout(p, e.id, before);
      }
    }
  }

  /**
   * A signal is delivered within as many deliveries as there are signals up to
   * and including it in the queue, provided it is not emitted again meanwhile.
   */
  lemma DeliveredInTime(history: seq<QueueEvent>, more: seq<QueueEvent>, id: SignalId, place: nat)
    requires QueueAfter(history).Some? && QueueAfter(history + more).Some?
    requires place < |QueueAfter(history).value| && QueueAfter(history).value[place] == id
    requires Emit(id) !in more && Deliveries(more) > place
    ensures Deliver(id) in more
  {
    if Deliver(id) !in more {
      var now := MovesUp(history, more, id, place);
    }
  }

  /** At i the signal is in the queue, and up to j it is not emitted again and its turn comes. */
  ghost predicate Window(history: seq<QueueEvent>, more: seq<QueueEvent>, id: SignalId, i: int, j: int) {
    && 0 <= i <= j <= |more| && QueueAfter(history + more[..i]).Some?
    && var q := QueueAfter(history + more[..i]).value;
       id in q && Emit(id) !in more[i..j] && Deliveries(more[i..j]) > Place(q, id)
  }

  lemma {:induction false} PrefixIsValid(history: seq<QueueEvent>, more: seq<QueueEvent>, i: nat)
    requires QueueAfter(history + more).Some? && i <= |more|
    ensures QueueAfter(history + more[..i]).Some?
    decreases |more|
  {
    if i == |more| {
      assert more[..i] == more;
    } else {
      var fore := more[..|more| - 1];
      assert (history + more)[..|history + more| - 1] == history + fore;
      assert fore[..i] == more[..i];
      PrefixIsValid(history, fore, i);
    }
  }

  lemma Parts(history: seq<QueueEvent>, more: seq<QueueEvent>, i: nat, j: nat)
    requires i <= j <= |more|
    ensures history + more[..j] == (history + more[..i]) + more[i..j]
  {
    assert more[..j] == more[..i] + more[i..j];
  }

  lemma Rejoined(history: seq<QueueEvent>, more: seq<QueueEvent>, i: nat, j: nat)
    requires QueueAfter(history + more).Some? && i <= j <= |more|
    ensures QueueAfter((history + more[..i]) + more[i..j]).Some?
  {
    PrefixIsValid(history, more, j);
    Parts(history, more, i, j);
  }

  /** Where a signal is delivered it was at the head. */
  lemma DeliveredFromHead(past: seq<QueueEvent>, id: SignalId)
    requires QueueAfter(past).Some? && QueueAfter(past + [Deliver(id)]).Some?
    ensures id in QueueAfter(past).value && Place(QueueAfter(past).value, id) == 0
  {
    Extends(past, Deliver(id));
  }

  lemma DeliveryIsWindow(history: seq<QueueEvent>, more: seq<QueueEvent>, id: SignalId, k: nat)
    requires QueueAfter(history + more).Some? && k < |more| && more[k] == Deliver(id)
    ensures Window(history, more, id, k, k + 1)
  {
    PrefixIsValid(history, more, k);
    Rejoined(history, more, k, k + 1);
    assert more[k..k + 1] == [Deliver(id)];
    DeliveredFromHead(history + more[..k], id);
  }

  lemma Within(more: seq<QueueEvent>, i: nat, j: nat, e: QueueEvent)
    requires i <= j <= |more| && e in more[i..j]
    ensures e in more
  {
  }

  lemma WindowDelivers(history: seq<QueueEvent>, more: seq<QueueEvent>, id: SignalId, i: nat, j: nat)
    requires QueueAfter(history + more).Some? && Window(history, more, id, i, j)
    ensures Deliver(id) in more
  {
    var past, part := history + more[..i], more[i..j];
    Rejoined(history, more, i, j);
    DeliveredInTime(past, part, id, Place(QueueAfter(past).value, id));
    Within(more, i, j, Deliver(id));
  }

  /**
   * A signal is delivered exactly when, at some time that it is in the queue, there
   * come as many deliveries as there are signals up to it before it is emitted again.
   */
  lemma DeliveredIff(history: seq<QueueEvent>, more: seq<QueueEvent>, id: SignalId)
    requires QueueAfter(history + more).Some?
    ensures Deliver(id) in more <==> exists i, j :: Window(history, more, id, i, j)
  {
    if Deliver(id) in more {
      var k :| 0 <= k < |more| && more[k] == Deliver(id);
      DeliveryIsWindow(history, more, id, k);
    }
    if i, j :| Window(history, more, id, i, j) {
      WindowDelivers(history, more, id, i, j);
    }
  }

  /** The proviso is needed: a signal that is emitted again and again can be overtaken for ever. */
  function Overtaking(rounds: nat): seq<QueueEvent> {
    if rounds == 0 then [Emit(1)]
    else Overtaking(rounds - 1) + [Emit(2)] + [Emit(1)] + [Deliver(2)]
  }

  lemma {:induction false} NeverDelivered(rounds: nat)
    ensures QueueAfter(Overtaking(rounds)) == Some([1])
    ensures Deliver(1) !in Overtaking(rounds) && |Overtaking(rounds)| == 3 * rounds + 1
  {
    if rounds == 0 {
      Extends([], Emit(1));
      assert Overtaking(rounds) == [] + [Emit(1)];
      assert Requeue([], 1) == [1];
    } else {
      NeverDelivered(rounds - 1);
      OneRound(Overtaking(rounds - 1));
    }
  }

  lemma OneRound(h: seq<QueueEvent>)
    requires QueueAfter(h) == Some([1])
    ensures QueueAfter(h + [Emit(2)] + [Emit(1)] + [Deliver(2)]) == Some([1])
  {
    Extends(h, Emit(2));
    assert Requeue([1], 2) == [1, 2];
    Extends(h + [Emit(2)], Emit(1));
    assert Requeue([1, 2], 1) == [2, 1];
    Extends(h + [Emit(2)] + [Emit(1)], Deliver(2));
  }

  lemma Extends(past: seq<QueueEvent>, e: QueueEvent)
    requires QueueAfter(past).Some?
    ensures
      var q := QueueAfter(past).value;
      QueueAfter(past + [e]) ==
        if e.Emit? then Some(Requeue(q, e.id)) else if q != [] && q[0] == e.id then Some(q[1..]) else None
  {
    assert (past + [e])[..|past|] == past;
  }

  // ---------------------------------------------------------------- starting and stopping

  datatype Func = Start | Stop

  datatype State = State(requested: bool, effective: bool, func: Option<Func>, queued: nat)

  const IDLE := State(false, false, None, 0)

  /** g_context_specific_group_request_state up to its wait loop. */
  function Request(s: State, want: bool, func: Func): State {
    if want == s.requested then s
    else if s.effective != s.requested then s.(requested := want, func := None)
    else s.(requested := want, func := Some(func), queued := s.queued + 1)
  }

  class GContextSpecificGroup {
    var table: map<Context, ContextSpecificSource>
    var requestedState: bool
    var effectiveState: bool
    var requestedFunc: Option<Func>
    var queuedCalls: nat           // change_state calls handed to the worker context
    var calls: seq<Func>           // the start and stop functions called so far

    function GetState(): State
      reads this
    {
      State(requestedState, effectiveState, requestedFunc, queuedCalls)
    }

    ghost predicate Valid()
      reads this, table.Values
    {
      && (forall c :: c in table ==> table[c].Valid())
      && (forall c, d :: c in table && d in table && c != d ==> table[c] != table[d])
    }

    constructor ()
      ensures Valid() && table == map[] && GetState() == IDLE && calls == []
    {
      table := map[];
      requestedState, effectiveState, requestedFunc, queuedCalls := false, false, None, 0;
      calls := [];
    }

    method RequestState(want: bool, func: Func)
      modifies this`requestedState, this`requestedFunc, this`queuedCalls
      ensures GetState() == Request(old(GetState()), want, func)
      ensures requestedState == want
      ensures want == old(requestedState) ==> requestedFunc == old(requestedFunc) && queuedCalls == old(queuedCalls)
      ensures
        want != old(requestedState) ==>
          if effectiveState != old(requestedState) then requestedFunc == None && queuedCalls == old(queuedCalls)
          else requestedFunc == Some(func) && queuedCalls == old(queuedCalls) + 1
    {
      if want != requestedState {
        if effectiveState != requestedState {
          assert effectiveState == want;
          requestedState := want;
          requestedFunc := None;
        } else {
          requestedState := want;
          requestedFunc := Some(func);
          queuedCalls := queuedCalls + 1;
        }
      }
    }

    /** get up to its wait loop: the caller waits while the requested state is not effective. */
    method Get(context: Context, startFunc: bool) returns (css: ContextSpecificSource)
      requires Valid()
      modifies this`table, this`requestedState, this`requestedFunc, this`queuedCalls
      ensures Valid()
      ensures context in old(table) ==> table == old(table)
      ensures context !in old(table) ==> fresh(css) && css.pending == [] && table == old(table)[context := css]
      ensures context in table && css == table[context]
      ensures GetState() == if startFunc then Request(old(GetState()), true, Start) else old(GetState())
    {
      if context !in table {
        css := new ContextSpecificSource();
        table := table[context := css];
      } else {
        css := table[context];
      }
      if startFunc {
        RequestState(true, Start);
      }
    }

    method Remove(context: Context, stopFunc: bool)
      requires Valid() && context in table
      modifies this`table, this`requestedState, this`requestedFunc, this`queuedCalls
      ensures Valid()
      ensures table == old(table) - {context}
      ensures GetState() == if stopFunc && table == map[] then Request(old(GetState()), false, Stop) else old(GetState())
    {
      table := table - {context};
      if stopFunc && |table| == 0 {
        RequestState(false, Stop);
      }
    }

    /** One run of change_state in the worker. */
    method ChangeState() returns (broadcast: bool)
      requires queuedCalls > 0
      requires requestedState != effectiveState ==> requestedFunc.Some?
      modifies this`effectiveState, this`requestedFunc, this`queuedCalls, this`calls
      ensures broadcast == old(requestedState != effectiveState)
      ensures effectiveState == requestedState && queuedCalls == old(queuedCalls) - 1
      ensures requestedFunc == if broadcast then None else old(requestedFunc)
      ensures GetState() == Changed(old(GetState()))
      ensures calls == if broadcast then old(calls) + [old(requestedFunc).value] else old(calls)
    {
      queuedCalls := queuedCalls - 1;
      broadcast := requestedState != effectiveState;
      if broadcast {
        calls := calls + [requestedFunc.value];
        effectiveState := requestedState;
        requestedFunc := None;
      }
    }

    /** One of the sources gets the signal. */
    method EmitTo(c: Context, id: SignalId)
      requires Valid() && c in table
      modifies table[c]
      ensures Valid() && table[c].pending == Requeue(old(table[c].pending), id)
      ensures forall d :: d in table && d != c ==> table[d].pending == old(table[d].pending)
    {
      table[c].PushPending(id);
    }

    /** Every source of the group gets the signal at the end of its queue. */
    method EmitSignal(id: SignalId)
      requires Valid()
      modifies table.Values
      ensures Valid()
      ensures forall c :: c in table ==> table[c].pending == Requeue(old(table[c].pending), id)
    {
      ghost var was := map c | c in table :: table[c].pending;
      var todo := table.Keys;
      while todo != {}
        invariant todo <= table.Keys && Valid()
        invariant forall c :: c in todo ==> table[c].pending == was[c]
        invariant forall c :: c in table && c !in todo ==> table[c].pending == Requeue(was[c], id)
        decreases |todo|
      {
        var c :| c in todo;
        EmitTo(c, id);
        todo := todo - {c};
      }
    }
  }

  function Changed(s: State): State
    requires s.queued > 0
  {
    if s.requested != s.effective then s.(effective := s.requested, func := None, queued := s.queued - 1)
    else s.(queued := s.queued - 1)
  }

  // ---------------------------------------------------------------- threads

  type Tid = nat

  /** A thread that is blocked in get for the instance of its context. */
  datatype Waiter = Waiter(context: Context, asleep: bool)

  datatype World = World(s: State, contexts: set<Context>, waiting: map<Tid, Waiter>, calls: seq<Func>)

  const EMPTY := World(IDLE, {}, map[], [])

  datatype Event =
    | GetInstance(t: Tid, context: Context)
    | TestAgain(t: Tid)                  // one turn of the wait loop
    | SpuriousWake(t: Tid)
    | RemoveInstance(context: Context)
    | Work                               // the worker runs one queued change_state

  /** An instance is removed by its finalizer, so not while a thread still waits to return it. */
  predicate Enabled(w: World, e: Event) {
    match e
    case GetInstance(t, _) => t !in w.waiting
    case TestAgain(t) => t in w.waiting && !w.waiting[t].asleep
    case SpuriousWake(t) => t in w.waiting && w.waiting[t].asleep
    case RemoveInstance(c) => c in w.contexts && forall t :: t in w.waiting ==> w.waiting[t].context != c
    case Work => w.s.queued > 0 && (w.s.requested != w.s.effective ==> w.s.func.Some?)
  }

  function AllAwake(waiting: map<Tid, Waiter>): map<Tid, Waiter> {
    map t | t in waiting :: waiting[t].(asleep := false)
  }

  function Step(w: World, e: Event): World
    requires Enabled(w, e)
  {
    match e
    case GetInstance(t, c) =>
      var s := Request(w.s, true, Start);
      w.(s := s, contexts := w.contexts + {c},
         waiting := if s.requested != s.effective then w.waiting[t := Waiter(c, true)] else w.waiting)
    case TestAgain(t) =>
      w.(waiting := if w.s.requested != w.s.effective then w.waiting[t := w.waiting[t].(asleep := true)] else w.waiting - {t})
    case SpuriousWake(t) => w.(waiting := w.waiting[t := w.waiting[t].(asleep := false)])
    case RemoveInstance(c) =>
      w.(contexts := w.contexts - {c}, s := if w.contexts == {c} then Request(w.s, false, Stop) else w.s)
    case Work =>
      var broadcast := w.s.requested != w.s.effective;
      w.(s := Changed(w.s), calls := if broadcast then w.calls + [w.s.func.value] else w.calls,
         waiting := if broadcast then AllAwake(w.waiting) else w.waiting)
  }

  /** start, stop, start, ... */
  predicate Alternating(calls: seq<Func>) {
    forall i :: 0 <= i < |calls| ==> calls[i] == if i % 2 == 0 then Start else Stop
  }

  predicate Inv(w: World) {
    && (w.s.requested <==> w.contexts != {})
    && (w.s.requested == w.s.effective ==> w.s.func.None?)
    && (w.s.requested != w.s.effective ==>
          w.s.queued > 0 && w.s.func == Some(if w.s.requested then Start else Stop))
    && Alternating(w.calls) && w.s.effective == (|w.calls| % 2 == 1)
    && (forall t :: t in w.waiting ==> w.waiting[t].context in w.contexts)
    && (forall t :: t in w.waiting && w.waiting[t].asleep ==> w.s.requested != w.s.effective)
  }

  lemma StepKeepsInv(w: World, e: Event)
    requires Inv(w) && Enabled(w, e)
    ensures Inv(Step(w, e))
  {
    match e
    case GetInstance(t, c) =>
    case TestAgain(t) =>
    case SpuriousWake(t) =>
    case RemoveInstance(c) => assert w.contexts - {c} == {} <==> w.contexts == {c};
    case Work =>
  }

  predicate ValidRun(w: World, events: seq<Event>)
    decreases |events|
  {
    events == [] || (Enabled(w, events[0]) && ValidRun(Step(w, events[0]), events[1..]))
  }

  function Exec(w: World, events: seq<Event>): World
    requires ValidRun(w, events)
    decreases |events|
  {
    if events == [] then w else Exec(Step(w, events[0]), events[1..])
  }

  lemma {:induction false} RunKeepsInv(w: World, events: seq<Event>)
    requires Inv(w) && ValidRun(w, events)
    ensures Inv(Exec(w, events))
    decreases |events|
  {
    if events != [] {
      StepKeepsInv(w, events[0]);
      RunKeepsInv(Step(w, events[0]), events[1..]);
    }
  }

  /** The start and stop functions are called in turn, and what is in effect is the last one called. */
  lemma StartsAndStopsAlternate(events: seq<Event>)
    requires ValidRun(EMPTY, events)
    ensures
      var w := Exec(EMPTY, events);
      && Alternating(w.calls)
      && (w.s.effective <==> w.calls != [] && w.calls[|w.calls| - 1] == Start)
      && (w.s.requested <==> w.contexts != {})
      && (w.s.requested != w.s.effective <==> w.s.func.Some?)
      && (w.s.queued == 0 ==> (w.s.effective <==> w.contexts != {}))
      && (w.s.queued > 0 ==> Enabled(w, Work))   // the worker never calls a NULL function
  {
    RunKeepsInv(EMPTY, events);
  }

  /** The assertion at the end of get: a thread that leaves the wait loop finds the start function called. */
  lemma GetReturnsStarted(events: seq<Event>, e: Event)
    requires ValidRun(EMPTY, events) && Enabled(Exec(EMPTY, events), e) && (e.GetInstance? || e.TestAgain?)
    ensures
      var w := Step(Exec(EMPTY, events), e);
      e.t !in w.waiting ==> w.s.effective
  {
    RunKeepsInv(EMPTY, events);
  }

  /** A sleeper is never left behind: a worker call is queued, and the next one runs start and wakes everybody. */
  lemma SleeperIsServed(events: seq<Event>, t: Tid)
    requires ValidRun(EMPTY, events)
    requires t in Exec(EMPTY, events).waiting && Exec(EMPTY, events).waiting[t].asleep
    ensures
      var w := Exec(EMPTY, events);
      && Enabled(w, Work) && Step(w, Work).s.effective && Step(w, Work).calls == w.calls + [Start]
      && forall u :: u in w.waiting ==> u in Step(w, Work).waiting && !Step(w, Work).waiting[u].asleep
  {
    RunKeepsInv(EMPTY, events);
  }

  /** A wakeup without a broadcast makes no difference: the thread finds that it has to wait, and sleeps on. */
  lemma SpuriousWakeIsHarmless(w: World, t: Tid)
    requires Inv(w) && Enabled(w, SpuriousWake(t))
    ensures Enabled(Step(w, SpuriousWake(t)), TestAgain(t))
    ensures Step(Step(w, SpuriousWake(t)), TestAgain(t)) == w
  {
  }

  lemma ServedStep(w: World, e: Event, t: Tid)
    requires Inv(w) && t in w.waiting && w.s.effective && Enabled(w, e) && e != TestAgain(t)
    ensures t in Step(w, e).waiting && Step(w, e).s.effective
  {
  }

  /** Once the start function is called, a blocked thread returns whenever it tests again, whoever runs before it. */
  lemma {:induction false} ServedReturns(w: World, events: seq<Event>, t: Tid)
    requires Inv(w) && t in w.waiting && w.s.effective && ValidRun(w, events) && TestAgain(t) !in events
    ensures
      var v := Exec(w, events);
      && v.s.requested && v.s.effective && Enabled(v, TestAgain(t))
      && t !in Step(v, TestAgain(t)).waiting
    decreases |events|
  {
    if events != [] {
      StepKeepsInv(w, events[0]);
      ServedStep(w, events[0], t);
      ServedReturns(Step(w, events[0]), events[1..], t);
    }
  }

  // ---------------------------------------------------------------- how long a thread can be blocked

  function Awake(w: World): set<Tid> { set t | t in w.waiting && !w.waiting[t].asleep }

  /** What the worker and the blocked threads have still to do. */
  function Bound(w: World): nat { w.s.queued * (|w.waiting.Keys| + 1) + |Awake(w)| }

  predicate Goes(e: Event) { e.Work? || e.TestAgain? }

  lemma WorkIsNearer(w: World)
    requires Enabled(w, Work)
    ensures Step(w, Work).waiting.Keys == w.waiting.Keys && |Awake(Step(w, Work))| <= |w.waiting.Keys|
  {
    var v := Step(w, Work);
    assert v.waiting.Keys == w.waiting.Keys;
    assert w.waiting.Keys == Awake(v) + (w.waiting.Keys - Awake(v));
  }

  lemma TestIsNearer(w: World, t: Tid)
    requires Enabled(w, TestAgain(t))
    ensures |Awake(Step(w, TestAgain(t)))| == |Awake(w)| - 1
    ensures |Step(w, TestAgain(t)).waiting.Keys| <= |w.waiting.Keys|
  {
    var v := Step(w, TestAgain(t));
    assert Awake(v) == Awake(w) - {t};
    assert w.waiting.Keys == v.waiting.Keys + (w.waiting.Keys - v.waiting.Keys);
  }

  lemma OneLess(n: nat, k: nat)
    requires n > 0
    ensures n * k == (n - 1) * k + k
  {
  }

  lemma StepIsNearer(w: World, e: Event)
    requires Enabled(w, e) && Goes(e)
    ensures Bound(Step(w, e)) < Bound(w)
  {
    if e.Work? {
      WorkIsNearer(w);
      OneLess(w.s.queued, |w.waiting.Keys| + 1);
    } else {
      TestIsNearer(w, e.t);
      NoMore(w.s.queued, |Step(w, e).waiting.Keys| + 1, |w.waiting.Keys| + 1);
    }
  }

  lemma NoMore(n: nat, a: nat, b: nat)
    requires a <= b
    ensures n * a <= n * b
  {
  }

  /** However they are scheduled, the worker and the blocked threads take no more than so many steps. */
  lemma {:induction false} NoEndlessWait(w: World, events: seq<Event>)
    requires ValidRun(w, events) && forall e :: e in events ==> Goes(e)
    ensures |events| + Bound(Exec(w, events)) <= Bound(w)
    decreases |events|
  {
    if events != [] {
      StepIsNearer(w, events[0]);
      NoEndlessWait(Step(w, events[0]), events[1..]);
    }
  }

  /** As long as a thread is blocked, the worker or a blocked thread can go on. */
  lemma SomebodyCanGoOn(w: World, t: Tid) returns (e: Event)
    requires Inv(w) && t in w.waiting
    ensures Enabled(w, e) && Goes(e) && (e == TestAgain(t) ==> t !in Step(w, e).waiting)
    ensures e == if w.s.effective then TestAgain(t) else Work
  {
    e := if w.s.effective then TestAgain(t) else Work;
  }

  lemma FewerToGo(w: World, e: Event)
    requires Inv(w) && Enabled(w, e) && (if w.s.effective then e.TestAgain? else e.Work?)
    ensures
      Step(w, e).s.queued + |Step(w, e).waiting.Keys| < w.s.queued + |w.waiting.Keys|
  {
    var v := Step(w, e);
    if e.Work? {
      assert v.waiting.Keys == w.waiting.Keys;
    } else {
      assert v.waiting.Keys == w.waiting.Keys - {e.t};
    }
  }

  /** So every blocked get returns: with the queued worker calls and one test for each thread they are all gone. */
  lemma {:induction false} AllReturn(w: World) returns (events: seq<Event>)
    requires Inv(w)
    ensures ValidRun(w, events) && (forall e :: e in events ==> Goes(e))
    ensures |events| <= w.s.queued + |w.waiting.Keys| && Exec(w, events).waiting == map[]
    decreases w.s.queued + |w.waiting.Keys|
  {
    if t :| t in w.waiting {
      var e := SomebodyCanGoOn(w, t);
      StepKeepsInv(w, e);
      FewerToGo(w, e);
      var rest := AllReturn(Step(w, e));
      events := [e] + rest;
      assert events[1..] == rest;
    } else {
      events := [];
    }
  }

  /** The worker catches up: running its queue empty makes the requested state effective with at most one call. */
  lemma {:induction false} WorkerCatchesUp(w: World) returns (events: seq<Event>)
    requires Inv(w)
    ensures ValidRun(w, events) && Exec(w, events).s.queued == 0 && |events| == w.s.queued
    ensures Exec(w, events).s.effective == (w.contexts != {}) && |Exec(w, events).calls| <= |w.calls| + 1
    ensures w.s.requested == w.s.effective ==> Exec(w, events).calls == w.calls
    decreases w.s.queued
  {
    if w.s.queued == 0 {
      events := [];
    } else {
      StepKeepsInv(w, Work);
      var rest := WorkerCatchesUp(Step(w, Work));
      events := [Work] + rest;
      assert events[1..] == rest;
    }
  }
}
