/**
 * The executions of one process: registration in `add`, the handler that runs when an execution
 * settles, stopping, finalizing, and the capacity each of them holds.
 *
 * `add` has several awaits. Each stretch between two awaits is one event of the state machine
 * below, so calls of `add`, settle handlers and everything else interleave freely. An execution
 * that is resumed in the same process is registered again under the same id; each registration
 * is an incarnation, identified by the call of `add` that made it.
 */
module ActiveExecutions {
  import opened ConcurrencyQueue

  type ExecutionId = string
  type CallId = Ticket

  datatype Status = New | Running | Waiting | Ended

  /** Where a call of `add` has got to; `Held` is past `reserve` and before the database answers. */
  datatype Phase = Creating | Reserving | Held

  /** `pooled`: the reservation went through the capacity queue (limited mode, control enabled). */
  datatype Call = Call(executionId: ExecutionId, resuming: bool, limited: bool, phase: Phase, pooled: bool)

  /** A registration. `settled`: its post-execute promise is settled. `handled`: the handler has run. */
  datatype Incarnation = Incarnation(
    executionId: ExecutionId, startedAt: int, status: Status, pooled: bool, settled: bool, handled: bool)

  datatype State = State(
    active: map<ExecutionId, CallId>,
    responseModes: map<ExecutionId, string>,
    calls: map<CallId, Call>,
    incs: map<CallId, Incarnation>,
    nextCall: CallId,
    pool: Pool,
    enabled: bool,
    released: seq<CallId>)

  datatype Event =
    | BeginNew(executionId: ExecutionId, limited: bool)
    | BeginResume(executionId: ExecutionId, limited: bool)
    | Created(call: CallId)
    | CreateFailed(call: CallId)
    | Reserved(call: CallId)
    | Registered(call: CallId, now: int)
    | Rejected(call: CallId)
    | SetStatus(executionId: ExecutionId, status: Status)
    | Finalize(executionId: ExecutionId)
    | Stop(executionId: ExecutionId)
    | SettleHandler(call: CallId)
    | SetResponseMode(executionId: ExecutionId, mode: string)
    | RemoveQueued(executionId: ExecutionId)
    | Disable
    | DropIdle(executionId: ExecutionId)

  predicate InPhase(s: State, c: CallId, phase: Phase) {
    c in s.calls && s.calls[c].phase == phase
  }

  predicate Allowed(s: State, e: Event) {
    match e
    case Created(c) => InPhase(s, c, Creating)
    case CreateFailed(c) => InPhase(s, c, Creating)
    // The promise of `throttle` has been resolved.
    case Reserved(c) => InPhase(s, c, Reserving) && (s.calls[c].pooled ==> c in s.pool.running)
    case Registered(c, _) => InPhase(s, c, Held)
    case Rejected(c) => InPhase(s, c, Held)
    case SetStatus(x, _) => x in s.active
    case SettleHandler(c) => c in s.incs && s.incs[c].settled && !s.incs[c].handled
    case DropIdle(x) => x in s.active && s.active[x] in s.incs && s.incs[s.active[x]].status in {Waiting, New}
    case _ => true
  }

  /** `reserve`: enqueues right away; the call continues once it is let through. */
  function Reserve(s: State, c: CallId, call: Call): State {
    var pooled := call.limited && s.enabled;
    s.(calls := s.calls[c := call.(phase := Reserving, pooled := pooled)],
       pool := if pooled then Enqueue(s.pool, call.executionId, c) else s.pool)
  }

  /** `release`: gives a unit back if this reservation took one. */
  function Release(s: State, c: CallId, pooled: bool): State {
    if pooled && s.enabled then s.(pool := Dequeue(s.pool, c), released := s.released + [c]) else s
  }

  function WithIncarnation(s: State, x: ExecutionId, inc: Incarnation): State
    requires x in s.active
  {
    s.(incs := s.incs[s.active[x] := inc])
  }

  function Unregister(s: State, x: ExecutionId): State {
    s.(active := s.active - {x}, responseModes := s.responseModes - {x})
  }

  function Apply(s: State, e: Event): State
    requires Allowed(s, e)
  {
    match e
    case BeginNew(x, limited) =>
      s.(calls := s.calls[s.nextCall := Call(x, false, limited, Creating, false)], nextCall := s.nextCall + 1)
    case BeginResume(x, limited) =>
      Reserve(s.(nextCall := s.nextCall + 1), s.nextCall, Call(x, true, limited, Reserving, false))
    case Created(c) => Reserve(s, c, s.calls[c])
    case CreateFailed(c) => s.(calls := s.calls - {c})
    case Reserved(c) => s.(calls := s.calls[c := s.calls[c].(phase := Held)])
    case Registered(c, now) =>
      var x := s.calls[c].executionId;
      var startedAt := if x in s.active && s.active[x] in s.incs then s.incs[s.active[x]].startedAt else now;
      s.(calls := s.calls - {c},
         incs := s.incs[c := Incarnation(x, startedAt, Running, s.calls[c].pooled, false, false)],
         active := s.active[x := c])
    case Rejected(c) => Release(s.(calls := s.calls - {c}), c, s.calls[c].pooled)
    case SetStatus(x, status) =>
      if s.active[x] in s.incs then WithIncarnation(s, x, s.incs[s.active[x]].(status := status)) else s
    case Finalize(x) =>
      if x in s.active && s.active[x] in s.incs then WithIncarnation(s, x, s.incs[s.active[x]].(settled := true)) else s
    case Stop(x) =>
      if x !in s.active || s.active[x] !in s.incs then s
      else if s.incs[s.active[x]].status == Waiting then Unregister(s, x)
      else WithIncarnation(s, x, s.incs[s.active[x]].(settled := true))
    case SettleHandler(c) =>
      var inc := s.incs[c];
      var s' := Release(s.(incs := s.incs[c := inc.(handled := true)]), c, inc.pooled);
      if inc.status == Waiting then s' else Unregister(s', inc.executionId)
    case SetResponseMode(x, mode) => s.(responseModes := s.responseModes[x := mode])
    case RemoveQueued(x) => if s.enabled then s.(pool := Remove(s.pool, x)) else s
    case Disable => s.(enabled := false)
    case DropIdle(x) => s.(active := s.active - {x})
  }

  function Initial(limit: nat): State {
    State(map[], map[], map[], map[], 0, Fresh(limit), true, [])
  }

  // ---------------------------------------------------------------------------
  // What each event does to the registry
  // ---------------------------------------------------------------------------

  predicate HasEntry(s: State, x: ExecutionId) {
    x in s.active && s.active[x] in s.incs
  }

  /** Nothing but entries, response modes and records changes. */
  predicate OnlyRegistry(s: State, s': State) {
    s' == s.(active := s'.active, responseModes := s'.responseModes, incs := s'.incs)
  }

  /**
   * Stopping a waiting execution takes its entry and its response mode away, finalized or not; any other
   * keeps both and is settled. No other execution is concerned.
   */
  lemma StopOutcome(s: State, x: ExecutionId, y: ExecutionId)
    requires HasEntry(s, x)
    ensures var (s', c) := (Apply(s, Stop(x)), s.active[x]);
      && OnlyRegistry(s, s')
      && (s.incs[c].status == Waiting ==> x !in s'.active && x !in s'.responseModes && s'.incs == s.incs)
      && (s.incs[c].status != Waiting ==>
            && s'.active == s.active && s'.responseModes == s.responseModes
            && s'.incs == s.incs[c := s.incs[c].(settled := true)])
      && (y != x ==> (y in s'.active <==> y in s.active) && (y in s'.responseModes <==> y in s.responseModes))
      && (y != x && y in s.active ==> s'.active[y] == s.active[y])
      && (y != x && y in s.responseModes ==> s'.responseModes[y] == s.responseModes[y])
  {
  }

  /** A status goes to the registered record alone; finalizing settles that record and keeps its status. */
  lemma RecordOutcome(s: State, x: ExecutionId, status: Status)
    requires HasEntry(s, x)
    ensures var c := s.active[x];
      && Apply(s, SetStatus(x, status)) == s.(incs := s.incs[c := s.incs[c].(status := status)])
      && Apply(s, Finalize(x)) == s.(incs := s.incs[c := s.incs[c].(settled := true)])
  {
  }

  /** Stopping or finalizing what is not registered does nothing. */
  lemma NothingToStop(s: State, x: ExecutionId)
    requires x !in s.active
    ensures Apply(s, Stop(x)) == s && Apply(s, Finalize(x)) == s
  {
  }

  /**
   * The handler of an incarnation that is waiting leaves entry and response mode of its execution;
   * any other takes both away. In either case the unit it took is given back, once.
   */
  lemma HandlerOutcome(s: State, c: CallId)
    requires Registry(s) && Allowed(s, SettleHandler(c))
    ensures var (s', inc) := (Apply(s, SettleHandler(c)), s.incs[c]);
      && s'.calls == s.calls && s'.incs == s.incs[c := inc.(handled := true)]
      && (inc.status == Waiting ==> s'.active == s.active && s'.responseModes == s.responseModes)
      && (inc.status != Waiting ==>
            && inc.executionId !in s'.active && inc.executionId !in s'.responseModes
            && s'.active == s.active - {inc.executionId} && s'.responseModes == s.responseModes - {inc.executionId})
      && (inc.pooled && s.enabled ==> s'.released == s.released + [c] && s'.pool == Dequeue(s.pool, c))
      && (!inc.pooled || !s.enabled ==> s'.released == s.released && s'.pool == s.pool)
  {
  }

  /** A call that reaches its end is registered as running and unsettled, in place of what was there. */
  lemma RegistrationOutcome(s: State, c: CallId, now: int)
    requires Registry(s) && InPhase(s, c, Held)
    ensures var (s', call) := (Apply(s, Registered(c, now)), s.calls[c]);
      && c !in s'.calls && s'.active == s.active[call.executionId := c] && s'.responseModes == s.responseModes
      && c in s'.incs && s'.incs[c].status == Running && !s'.incs[c].settled && !s'.incs[c].handled
      && s'.incs[c].executionId == call.executionId && s'.incs[c].pooled == call.pooled
      && (call.executionId !in s.active ==> s'.incs[c].startedAt == now)
      && s'.pool == s.pool && s'.released == s.released
  {
  }

  /** The two events that touch entries or response modes alone. */
  lemma EntryOutcome(s: State, x: ExecutionId, mode: string)
    ensures Apply(s, SetResponseMode(x, mode)) == s.(responseModes := s.responseModes[x := mode])
    ensures Allowed(s, DropIdle(x)) ==>
      var s' := Apply(s, DropIdle(x));
      x !in s'.active && s.active == s'.active[x := s.active[x]] && s' == s.(active := s'.active)
  {
  }

  /** Failing to create the row of a new execution leaves nothing of the call. */
  lemma FailedCallLeavesNothing(s: State, x: ExecutionId, limited: bool)
    requires s.nextCall !in s.calls
    ensures var (c, s1) := (s.nextCall, Apply(s, BeginNew(x, limited)));
      && InPhase(s1, c, Creating) && Apply(s1, CreateFailed(c)) == s.(nextCall := c + 1)
  {
    assert (s.calls[s.nextCall := Call(x, false, limited, Creating, false)]) - {s.nextCall} == s.calls;
  }

  /** A resume that the database refuses leaves nothing either: what it took from the pool goes back. */
  lemma RejectedResumeLeavesNothing(s: State, x: ExecutionId, limited: bool)
    requires s.nextCall !in s.calls && s.nextCall !in s.pool.running && s.pool.queue == [] && s.pool.capacity > 0
    ensures var (c, s1) := (s.nextCall, Apply(s, BeginResume(x, limited)));
      && Allowed(s1, Reserved(c)) && Allowed(Apply(s1, Reserved(c)), Rejected(c))
      && s1.pool.capacity == s.pool.capacity - (if limited && s.enabled then 1 else 0)
      && var s3 := Apply(Apply(s1, Reserved(c)), Rejected(c));
         s3 == s.(nextCall := c + 1, released := s3.released)
  {
    var c, s1 := s.nextCall, Apply(s, BeginResume(x, limited));
    var s3 := Apply(Apply(s1, Reserved(c)), Rejected(c));
    assert s3.calls == s.calls && s3.pool.running == s.pool.running;
  }

  /** A new execution goes the same way once its row is there. */
  lemma CreatedIsLikeResume(s: State, x: ExecutionId, limited: bool)
    ensures var (c, s1) := (s.nextCall, Apply(s, BeginNew(x, limited)));
      var (created, resumed) := (Apply(s1, Created(c)), Apply(s, BeginResume(x, limited)));
      created == resumed.(calls := resumed.calls[c := resumed.calls[c].(resuming := false)])
  {
  }

  /** Without capacity control nothing moves the pool, and nothing switches it on again. */
  lemma DisabledKeepsPool(s: State, e: Event)
    requires !s.enabled && Allowed(s, e)
    ensures Apply(s, e).pool == s.pool && Apply(s, e).released == s.released && !Apply(s, e).enabled
  {
  }

  lemma ControlOutcome(s: State, x: ExecutionId)
    ensures Apply(s, Disable).enabled == false && Apply(s, Disable).(enabled := s.enabled) == s
    ensures s.enabled ==> Apply(s, RemoveQueued(x)).pool == Remove(s.pool, x)
    ensures Apply(s, RemoveQueued(x)).(pool := s.pool) == s
  {
  }

  // ---------------------------------------------------------------------------
  // Runs
  // ---------------------------------------------------------------------------

  ghost predicate Runs(s: State, events: seq<Event>)
    decreases |events|
  {
    events == [] || (Allowed(s, events[0]) && Runs(Apply(s, events[0]), events[1..]))
  }

  ghost function After(s: State, events: seq<Event>): State
    requires Runs(s, events)
    decreases |events|
  {
    if events == [] then s else After(Apply(s, events[0]), events[1..])
  }

  // ---------------------------------------------------------------------------
  // Accounting
  // ---------------------------------------------------------------------------

  /** Calls past `reserve` that are not registered yet. */
  function HeldCalls(s: State): set<CallId> {
    set c | c in s.calls && s.calls[c].pooled && s.calls[c].phase == Held
  }

  /** Calls that are waiting for a unit, or have been let through and have not continued yet. */
  function PendingCalls(s: State): set<CallId> {
    set c | c in s.calls && s.calls[c].pooled && s.calls[c].phase == Reserving
  }

  /** Registered incarnations whose settle handler has not run. */
  function OpenIncarnations(s: State): set<CallId> {
    set c | c in s.incs && s.incs[c].pooled && !s.incs[c].handled
  }

  ghost predicate Registry(s: State) {
    && s.calls.Keys !! s.incs.Keys
    && (forall c :: c in s.calls || c in s.incs ==> c < s.nextCall)
    && (forall x :: x in s.active ==> s.active[x] in s.incs && s.incs[s.active[x]].executionId == x)
    && (forall c :: c in s.incs && s.incs[c].handled ==> s.incs[c].settled)
    && (forall c :: InPhase(s, c, Creating) ==> !s.calls[c].pooled)
  }

  ghost predicate Units(s: State, limit: nat) {
    Fits(s.pool, limit, HeldCalls(s) + OpenIncarnations(s), PendingCalls(s))
  }

  /** Every release is of a distinct reservation, and none of those released is held or waiting. */
  ghost predicate ReleasedOnce(s: State) {
    && (forall i, j :: 0 <= i < j < |s.released| ==> s.released[i] != s.released[j])
    && (forall c :: c in s.released ==> c < s.nextCall && c !in s.calls && (c in s.incs ==> s.incs[c].handled))
  }

  ghost predicate Inv(s: State, limit: nat) {
    Registry(s) && ReleasedOnce(s) && (s.enabled ==> Units(s, limit))
  }

  lemma RegistryKeptByCalls(s: State, e: Event)
    requires Registry(s) && Allowed(s, e)
    requires e.BeginNew? || e.BeginResume? || e.Created? || e.CreateFailed? || e.Reserved? || e.Rejected?
    ensures Registry(Apply(s, e))
  {
    var s' := Apply(s, e);
    assert s'.incs == s.incs && s'.active == s.active && s'.nextCall >= s.nextCall;
    assert s'.calls.Keys <= s.calls.Keys + {s.nextCall};
  }

  lemma RegistryKeptByHandler(s: State, c: CallId)
    requires Registry(s) && Allowed(s, SettleHandler(c))
    ensures Registry(Apply(s, SettleHandler(c)))
  {
    var s' := Apply(s, SettleHandler(c));
    assert s'.calls == s.calls && s'.nextCall == s.nextCall;
    assert s'.incs == s.incs[c := s.incs[c].(handled := true)];
    assert forall x :: x in s'.active ==> x in s.active && s'.active[x] == s.active[x];
  }

  lemma RegistryKeptByRegistration(s: State, c: CallId, now: int)
    requires Registry(s) && Allowed(s, Registered(c, now))
    ensures Registry(Apply(s, Registered(c, now)))
  {
  }

  predicate SettledAtMost(inc: Incarnation, inc': Incarnation) {
    inc'.executionId == inc.executionId && inc'.handled == inc.handled && (inc.settled ==> inc'.settled)
  }

  /** Entries may go; records keep their execution and are settled at most. */
  lemma RegistryShrinks(s: State, s': State)
    requires Registry(s) && s'.calls == s.calls && s'.nextCall == s.nextCall && s'.incs.Keys == s.incs.Keys
    requires forall c :: c in s.incs ==> SettledAtMost(s.incs[c], s'.incs[c])
    requires forall x :: x in s'.active ==> x in s.active && s'.active[x] == s.active[x]
    ensures Registry(s')
  {
  }

  lemma RegistryKeptByEntry(s: State, e: Event)
    requires Registry(s) && Allowed(s, e)
    requires e.SetStatus? || e.Finalize? || e.Stop? || e.SetResponseMode? || e.RemoveQueued? || e.Disable?
             || e.DropIdle?
    ensures Registry(Apply(s, e))
  {
    RegistryShrinks(s, Apply(s, e));
  }

  lemma RegistryKept(s: State, e: Event)
    requires Registry(s) && Allowed(s, e)
    ensures Registry(Apply(s, e))
  {
    match e
    case BeginNew(_, _) => RegistryKeptByCalls(s, e);
    case BeginResume(_, _) => RegistryKeptByCalls(s, e);
    case Created(_) => RegistryKeptByCalls(s, e);
    case CreateFailed(_) => RegistryKeptByCalls(s, e);
    case Reserved(_) => RegistryKeptByCalls(s, e);
    case Rejected(_) => RegistryKeptByCalls(s, e);
    case SettleHandler(c) => RegistryKeptByHandler(s, c);
    case Registered(c, now) => RegistryKeptByRegistration(s, c, now);
    case _ => RegistryKeptByEntry(s, e);
  }

  lemma ReleasedKeptByRejection(s: State, c: CallId)
    requires Registry(s) && ReleasedOnce(s) && Allowed(s, Rejected(c))
    ensures ReleasedOnce(Apply(s, Rejected(c)))
  {
    var s' := Apply(s, Rejected(c));
    assert c !in s.released;
    assert s'.released == s.released || s'.released == s.released + [c];
    assert s'.calls == s.calls - {c} && s'.incs == s.incs && s'.nextCall == s.nextCall;
  }

  lemma ReleasedKeptByHandler(s: State, c: CallId)
    requires Registry(s) && ReleasedOnce(s) && Allowed(s, SettleHandler(c))
    ensures ReleasedOnce(Apply(s, SettleHandler(c)))
  {
    var s' := Apply(s, SettleHandler(c));
    assert c !in s.released;
    assert s'.released == s.released || s'.released == s.released + [c];
    assert s'.calls == s.calls && s'.nextCall == s.nextCall && s'.incs == s.incs[c := s.incs[c].(handled := true)];
  }

  lemma ReleasedKept(s: State, e: Event)
    requires Registry(s) && ReleasedOnce(s) && Allowed(s, e)
    ensures ReleasedOnce(Apply(s, e))
  {
    if e.Rejected? {
      ReleasedKeptByRejection(s, e.call);
    } else if e.SettleHandler? {
      ReleasedKeptByHandler(s, e.call);
    } else {
      var s' := Apply(s, e);
      assert s'.released == s.released && s'.nextCall >= s.nextCall;
      assert forall c :: c in s'.calls ==> c in s.calls || c == s.nextCall;
      assert forall c :: c in s'.incs ==> c in s.calls || (c in s.incs && s'.incs[c].handled == s.incs[c].handled);
    }
  }

  /** The event leaves the users of the pool as they were. */
  lemma SameUsers(s: State, s': State, limit: nat)
    requires Units(s, limit) && s'.pool == s.pool
    requires s'.calls == s.calls
    requires s'.incs.Keys == s.incs.Keys
    requires forall c :: c in s.incs ==> s'.incs[c].pooled == s.incs[c].pooled
    requires forall c :: c in s.incs ==> s'.incs[c].handled == s.incs[c].handled
    ensures Units(s', limit)
  {
    assert HeldCalls(s') == HeldCalls(s) && PendingCalls(s') == PendingCalls(s);
    assert OpenIncarnations(s') == OpenIncarnations(s);
  }

  lemma ReserveKeepsUnits(s: State, limit: nat, c: CallId, call: Call)
    requires Units(s, limit) && s.enabled
    requires c !in s.incs && (c in s.calls ==> !s.calls[c].pooled)
    ensures Units(Reserve(s, c, call), limit)
  {
    var s' := Reserve(s, c, call);
    assert HeldCalls(s') == HeldCalls(s) && OpenIncarnations(s') == OpenIncarnations(s);
    if call.limited {
      EnqueueFits(s.pool, limit, HeldCalls(s) + OpenIncarnations(s), PendingCalls(s), call.executionId, c);
      assert PendingCalls(s') == PendingCalls(s) + {c};
    } else {
      assert PendingCalls(s') == PendingCalls(s);
    }
  }

  lemma CallStepKeepsUnits(s: State, limit: nat, e: Event)
    requires Registry(s) && Units(s, limit) && s.enabled && Allowed(s, e)
    requires e.BeginNew? || e.BeginResume? || e.Created? || e.CreateFailed? || e.Reserved?
    ensures Units(Apply(s, e), limit)
  {
    var s' := Apply(s, e);
    match e
    case BeginNew(x, limited) =>
      assert HeldCalls(s') == HeldCalls(s) && PendingCalls(s') == PendingCalls(s);
      assert OpenIncarnations(s') == OpenIncarnations(s);
    case BeginResume(x, limited) =>
      var s1 := s.(nextCall := s.nextCall + 1);
      SameUsers(s, s1, limit);
      ReserveKeepsUnits(s1, limit, s.nextCall, Call(x, true, limited, Reserving, false));
    case Created(c) => ReserveKeepsUnits(s, limit, c, s.calls[c]);
    case CreateFailed(c) =>
      assert HeldCalls(s') == HeldCalls(s) && PendingCalls(s') == PendingCalls(s);
      assert OpenIncarnations(s') == OpenIncarnations(s);
    case Reserved(c) =>
      assert OpenIncarnations(s') == OpenIncarnations(s);
      if s.calls[c].pooled {
        AdmitFits(s.pool, limit, HeldCalls(s) + OpenIncarnations(s), PendingCalls(s), c);
        assert HeldCalls(s') == HeldCalls(s) + {c} && PendingCalls(s') == PendingCalls(s) - {c};
        assert HeldCalls(s') + OpenIncarnations(s) == HeldCalls(s) + OpenIncarnations(s) + {c};
      } else {
        assert HeldCalls(s') == HeldCalls(s) && PendingCalls(s') == PendingCalls(s);
      }
  }

  lemma RegisteredKeepsUnits(s: State, limit: nat, c: CallId, now: int)
    requires Registry(s) && Units(s, limit) && InPhase(s, c, Held)
    ensures Units(Apply(s, Registered(c, now)), limit)
  {
    var s' := Apply(s, Registered(c, now));
    assert PendingCalls(s') == PendingCalls(s);
    assert HeldCalls(s') + OpenIncarnations(s') == HeldCalls(s) + OpenIncarnations(s);
  }

  lemma RejectedKeepsUnits(s: State, limit: nat, c: CallId)
    requires Registry(s) && Units(s, limit) && s.enabled && InPhase(s, c, Held)
    ensures Units(Apply(s, Rejected(c)), limit)
  {
    var s' := Apply(s, Rejected(c));
    var pooled := s.calls[c].pooled;
    assert s'.calls == s.calls - {c} && s'.incs == s.incs;
    assert s'.pool == if pooled then Dequeue(s.pool, c) else s.pool;
    UsersAfterRejection(s, s', c);
    if pooled {
      DequeueFits(s.pool, limit, HeldCalls(s) + OpenIncarnations(s), PendingCalls(s), c);
    }
  }

  lemma UsersAfterRejection(s: State, s': State, c: CallId)
    requires Registry(s) && InPhase(s, c, Held) && s'.calls == s.calls - {c} && s'.incs == s.incs
    ensures PendingCalls(s') == PendingCalls(s)
    ensures HeldCalls(s') + OpenIncarnations(s')
         == HeldCalls(s) + OpenIncarnations(s) - if s.calls[c].pooled then {c} else {}
  {
    assert OpenIncarnations(s') == OpenIncarnations(s);
    assert HeldCalls(s') == HeldCalls(s) - {c};
    assert c !in OpenIncarnations(s);
  }

  lemma SettleHandlerKeepsUnits(s: State, limit: nat, c: CallId)
    requires Registry(s) && Units(s, limit) && s.enabled && Allowed(s, SettleHandler(c))
    ensures Units(Apply(s, SettleHandler(c)), limit)
  {
    var inc := s.incs[c];
    var s1 := s.(incs := s.incs[c := inc.(handled := true)]);
    var s' := Apply(s, SettleHandler(c));
    var holders := HeldCalls(s) + OpenIncarnations(s);
    assert s'.calls == s.calls && s'.incs == s1.incs;
    assert s'.pool == if inc.pooled then Dequeue(s.pool, c) else s.pool;
    UsersAfterHandler(s, s', c);
    if inc.pooled {
      DequeueFits(s.pool, limit, holders, PendingCalls(s), c);
    }
  }

  lemma UsersAfterHandler(s: State, s': State, c: CallId)
    requires Registry(s) && c in s.incs && !s.incs[c].handled
    requires s'.calls == s.calls && s'.incs == s.incs[c := s.incs[c].(handled := true)]
    ensures PendingCalls(s') == PendingCalls(s)
    ensures HeldCalls(s') + OpenIncarnations(s')
         == HeldCalls(s) + OpenIncarnations(s) - if s.incs[c].pooled then {c} else {}
  {
    assert HeldCalls(s') == HeldCalls(s);
    assert OpenIncarnations(s') == OpenIncarnations(s) - if s.incs[c].pooled then {c} else {};
  }

  lemma StepKeepsInv(s: State, limit: nat, e: Event)
    requires Inv(s, limit) && Allowed(s, e)
    ensures Inv(Apply(s, e), limit)
  {
    RegistryKept(s, e);
    ReleasedKept(s, e);
    if s.enabled {
      match e
      case Registered(c, now) => RegisteredKeepsUnits(s, limit, c, now);
      case Rejected(c) => RejectedKeepsUnits(s, limit, c);
      case SettleHandler(c) => SettleHandlerKeepsUnits(s, limit, c);
      case RemoveQueued(x) =>
        var s' := Apply(s, e);
        RemoveFits(s.pool, limit, HeldCalls(s) + OpenIncarnations(s), PendingCalls(s), x);
        assert HeldCalls(s') == HeldCalls(s) && PendingCalls(s') == PendingCalls(s);
        assert OpenIncarnations(s') == OpenIncarnations(s);
      case BeginNew(_, _) => CallStepKeepsUnits(s, limit, e);
      case BeginResume(_, _) => CallStepKeepsUnits(s, limit, e);
      case Created(_) => CallStepKeepsUnits(s, limit, e);
      case CreateFailed(_) => CallStepKeepsUnits(s, limit, e);
      case Reserved(_) => CallStepKeepsUnits(s, limit, e);
      case _ => SameUsers(s, Apply(s, e), limit);
    }
  }

  lemma {:induction false} RunKeepsInv(s: State, limit: nat, events: seq<Event>)
    requires Inv(s, limit) && Runs(s, events)
    ensures Inv(After(s, events), limit)
    decreases |events|
  {
    if events != [] {
      StepKeepsInv(s, limit, events[0]);
      RunKeepsInv(Apply(s, events[0]), limit, events[1..]);
    }
  }

  /**
   * In every reachable state, while control is enabled: the units taken are those of calls past
   * `reserve`, of calls let through on their way there, and of incarnations whose handler has not
   * run; with the free and the owed ones they make up the limit, and no slot idles while a call
   * is queued. At any time, no reservation has been released twice.
   */
  lemma UnitsHeld(limit: nat, events: seq<Event>)
    requires Runs(Initial(limit), events)
    ensures var s := After(Initial(limit), events);
      && ReleasedOnce(s)
      && (s.enabled ==> UnitsAddUp(s, limit))
  {
    RunKeepsInv(Initial(limit), limit, events);
    var s := After(Initial(limit), events);
    if s.enabled {
      UnitsMean(s, limit);
    }
  }

  ghost predicate UnitsAddUp(s: State, limit: nat) {
    var admitted := PendingCalls(s) * s.pool.running;
    var taken := |HeldCalls(s)| + |admitted| + |OpenIncarnations(s)|;
    && s.pool.running == HeldCalls(s) + admitted + OpenIncarnations(s)
    && s.pool.capacity + |s.pool.queue| + taken == limit
    && (s.pool.queue != [] ==> taken >= limit)
  }

  lemma UnitsMean(s: State, limit: nat)
    requires Registry(s) && Units(s, limit)
    ensures UnitsAddUp(s, limit)
  {
    var held, open, running := HeldCalls(s), OpenIncarnations(s), s.pool.running;
    var admitted := PendingCalls(s) * running;
    AccountsMeans(s.pool, limit);
    assert held !! open;
    SizeOfThree(held, open, admitted, running);
  }

  lemma SizeOfThree(a: set<CallId>, b: set<CallId>, c: set<CallId>, all: set<CallId>)
    requires a !! b && (a + b) !! c && all == a + b + c
    ensures all == a + c + b && |all| == |a| + |b| + |c|
  {
    assert |a + b| == |a| + |b|;
    assert |(a + b) + c| == |a + b| + |c|;
  }
}
