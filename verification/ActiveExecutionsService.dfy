/**
 * The methods of the active-executions service, against the state machine of its events. An incarnation
 * record is shared by the registry and by the settle handler of the `add` that made it; its call
 * identifies it in `incs`.
 */
module ActiveExecutionsService {
  import opened ActiveExecutions
  import Queue = ConcurrencyQueue

  lemma {:induction false} RunsConcat(s: State, events: seq<Event>, more: seq<Event>)
    requires Runs(s, events) && Runs(After(s, events), more)
    ensures Runs(s, events + more) && After(s, events + more) == After(After(s, events), more)
    decreases |events|
  {
    var all := events + more;
    if events == [] {
      assert all == more;
    } else {
      assert all[0] == events[0] && all[1..] == events[1..] + more;
      RunsConcat(Apply(s, events[0]), events[1..], more);
    }
  }

  lemma RunsAppend(s: State, events: seq<Event>, e: Event)
    requires Runs(s, events) && Allowed(After(s, events), e)
    ensures Runs(s, events + [e]) && After(s, events + [e]) == Apply(After(s, events), e)
  {
    var s' := After(s, events);
    assert [e][0] == e && [e][1..] == [] && Runs(Apply(s', e), []);
    RunsConcat(s, events, [e]);
  }

  /** The ids registered, each once. */
  ghost predicate Lists(ids: seq<ExecutionId>, s: State) {
    (forall x :: x in ids <==> x in s.active) && forall i, j :: 0 <= i < j < |ids| ==> ids[i] != ids[j]
  }

  ghost predicate Busy(s: State, x: ExecutionId) {
    x in s.active && s.active[x] in s.incs && s.incs[s.active[x]].status !in {Waiting, New}
  }

  ghost predicate NotWaiting(s: State, x: ExecutionId) {
    x in s.active && s.active[x] in s.incs && s.incs[s.active[x]].status != Waiting
  }

  /** The incarnation registered under `x` has been told to end, or is not registered any more. */
  ghost predicate Ending(s: State, x: ExecutionId) {
    x in s.active && s.active[x] in s.incs ==> s.incs[s.active[x]].settled
  }

  lemma StopEnds(s: State, x: ExecutionId, y: ExecutionId)
    requires Registry(s)
    ensures Ending(Apply(s, Stop(x)), x) && (Ending(s, y) ==> Ending(Apply(s, Stop(x)), y))
  {
  }

  // Stopping one execution after another.

  function Stops(ids: seq<ExecutionId>): seq<Event> {
    seq(|ids|, i requires 0 <= i < |ids| => Stop(ids[i]))
  }

  /** The stops of `ids` have happened: none of these is waiting any more, and all that are left are ending. */
  ghost predicate Stopped(s: State, s': State, ids: seq<ExecutionId>) {
    && Registry(s') && s'.enabled == s.enabled
    && (forall x :: x in s'.active <==> x in s.active && (x in ids ==> NotWaiting(s, x)))
    && (forall x :: x in s'.active ==> s'.active[x] == s.active[x] && (x in ids ==> Ending(s', x)))
    && s'.incs.Keys == s.incs.Keys && forall c :: c in s.incs ==> s'.incs[c].status == s.incs[c].status
  }

  lemma StoppedOneMore(s: State, s': State, ids: seq<ExecutionId>, x: ExecutionId)
    requires Registry(s) && Stopped(s, s', ids) && x in s'.active && x !in ids
    ensures Stopped(s, Apply(s', Stop(x)), ids + [x])
  {
    var s'' := Apply(s', Stop(x));
    RegistryKept(s', Stop(x));
    StopOutcome(s', x, x);
    forall y ensures y in s''.active <==> y in s.active && (y in ids + [x] ==> NotWaiting(s, y)) {
      if y != x { StopOutcome(s', x, y); }
    }
    forall y | y in s''.active ensures s''.active[y] == s.active[y] && (y in ids + [x] ==> Ending(s'', y)) {
      StopEnds(s', x, y);
      if y != x { StopOutcome(s', x, y); }
    }
  }

  lemma StopNext(s: State, before: seq<ExecutionId>, x: ExecutionId)
    requires Runs(s, Stops(before))
    ensures Runs(s, Stops(before + [x]))
    ensures After(s, Stops(before + [x])) == Apply(After(s, Stops(before)), Stop(x))
  {
    RunsAppend(s, Stops(before), Stop(x));
    assert Stops(before + [x]) == Stops(before) + [Stop(x)];
  }

  lemma {:induction false} StopsRun(s: State, ids: seq<ExecutionId>)
    requires Registry(s) && forall x :: x in ids ==> x in s.active
    requires forall i, j :: 0 <= i < j < |ids| ==> ids[i] != ids[j]
    ensures Runs(s, Stops(ids)) && Stopped(s, After(s, Stops(ids)), ids)
  {
    if ids == [] {
      assert Stops(ids) == [];
    } else {
      var before, x := ids[..|ids| - 1], ids[|ids| - 1];
      assert ids == before + [x] && x in s.active && x !in before;
      StopsRun(s, before);
      StopNext(s, before, x);
      StoppedSnoc(s, After(s, Stops(before)), After(s, Stops(ids)), before, x);
    }
  }

  lemma StoppedSnoc(s: State, s1: State, s2: State, before: seq<ExecutionId>, x: ExecutionId)
    requires Registry(s) && Stopped(s, s1, before) && x in s.active && x !in before && s2 == Apply(s1, Stop(x))
    ensures Stopped(s, s2, before + [x])
  {
    StoppedOneMore(s, s1, before, x);
  }

  class Service {
    var activeExecutions: map<ExecutionId, CallId>
    var responseModes: map<ExecutionId, string>
    var calls: map<CallId, Call>
    var incs: map<CallId, Incarnation>
    var nextCall: CallId
    var pool: Queue.Pool
    var enabled: bool
    ghost var released: seq<CallId>

    ghost function View(): State
      reads this
    {
      State(activeExecutions, responseModes, calls, incs, nextCall, pool, enabled, released)
    }

    constructor (limit: nat)
      ensures View() == Initial(limit) && Inv(View(), limit)
    {
      activeExecutions, responseModes, calls, incs, nextCall := map[], map[], map[], map[], 0;
      pool, enabled, released := Queue.Fresh(limit), true, [];
      new;
      assert HeldCalls(View()) + OpenIncarnations(View()) == {} && PendingCalls(View()) == {};
    }

    /** The end of `add`, from the answer of the database on. */
    method Register(call: CallId, now: int)
      requires InPhase(View(), call, Held)
      modifies this
      ensures View() == Apply(old(View()), Registered(call, now))
    {
      var executionId := calls[call].executionId;
      var startedAt := now;
      if executionId in activeExecutions && activeExecutions[executionId] in incs {
        startedAt := incs[activeExecutions[executionId]].startedAt;
      }
      incs := incs[call := Incarnation(executionId, startedAt, Running, calls[call].pooled, false, false)];
      calls := calls - {call};
      activeExecutions := activeExecutions[executionId := call];
    }

    /** The handler that `add` attaches to the post-execute promise. */
    method OnSettled(call: CallId)
      requires Allowed(View(), SettleHandler(call))
      modifies this
      ensures View() == Apply(old(View()), SettleHandler(call))
    {
      var execution := incs[call];
      incs := incs[call := execution.(handled := true)];
      ReleaseCapacity(call, execution.pooled);
      if execution.status != Waiting {
        activeExecutions := activeExecutions - {execution.executionId};
        responseModes := responseModes - {execution.executionId};
      }
    }

    method ReleaseCapacity(call: CallId, pooled: bool)
      modifies this`pool, this`released
      ensures View() == Release(old(View()), call, pooled)
    {
      if pooled && enabled {
        pool := Queue.Dequeue(pool, call);
        released := released + [call];
      }
    }

    method StopExecution(executionId: ExecutionId)
      modifies this
      ensures View() == Apply(old(View()), Stop(executionId))
    {
      if executionId !in activeExecutions || activeExecutions[executionId] !in incs {
        return;
      }
      var execution := incs[activeExecutions[executionId]];
      if execution.status == Waiting {
        activeExecutions := activeExecutions - {executionId};
        responseModes := responseModes - {executionId};
      } else {
        incs := incs[activeExecutions[executionId] := execution.(settled := true)];
      }
    }

    method FinalizeExecution(executionId: ExecutionId)
      modifies this
      ensures View() == Apply(old(View()), Finalize(executionId))
    {
      if executionId !in activeExecutions || activeExecutions[executionId] !in incs { return; }
      incs := incs[activeExecutions[executionId] := incs[activeExecutions[executionId]].(settled := true)];
    }

    /** Throws when there is no such execution. */
    method SetExecutionStatus(executionId: ExecutionId, status: Status) returns (ok: bool)
      modifies this
      ensures ok <==> executionId in old(activeExecutions)
      ensures View() == if ok then Apply(old(View()), SetStatus(executionId, status)) else old(View())
    {
      if executionId !in activeExecutions { return false; }
      if activeExecutions[executionId] in incs {
        incs := incs[activeExecutions[executionId] := incs[activeExecutions[executionId]].(status := status)];
      }
      return true;
    }

    /** Disables concurrency control in regular mode, and then one loop over the registered ids. */
    method Shutdown(ids: seq<ExecutionId>, regular: bool, cancelAll: bool)
      returns (ghost events: seq<Event>, toCancel: seq<ExecutionId>)
      requires Registry(View()) && Lists(ids, View())
      modifies this
      ensures Runs(old(View()), events) && View() == After(old(View()), events)
      ensures toCancel == if regular && cancelAll then ids else []
      ensures enabled == (old(enabled) && !regular)
      ensures regular && cancelAll ==> forall x :: x in activeExecutions ==> Ending(View(), x)
      ensures regular && cancelAll ==>
        forall x :: x in activeExecutions <==> x in old(activeExecutions) && NotWaiting(old(View()), x)
      ensures !(regular && cancelAll) ==>
        forall x :: x in activeExecutions <==> x in old(activeExecutions) && Busy(old(View()), x)
    {
      ghost var before := View();
      ghost var more;
      events, toCancel := [], [];
      if regular {
        RunsAppend(before, [], Disable);
        enabled := false;
        events := [Disable];
      }
      if regular && cancelAll {
        more := StopAll(ids);
        toCancel := ids;
      } else {
        more := DropIdleOnes(ids);
      }
      RunsConcat(before, events, more);
      events := events + more;
    }

    method StopAll(ids: seq<ExecutionId>) returns (ghost events: seq<Event>)
      requires Registry(View()) && Lists(ids, View())
      modifies this
      ensures Runs(old(View()), events) && View() == After(old(View()), events) && enabled == old(enabled)
      ensures Stopped(old(View()), View(), ids)
    {
      assert Stops(ids[..0]) == [];
      for i := 0 to |ids|
        invariant Runs(old(View()), Stops(ids[..i])) && View() == After(old(View()), Stops(ids[..i]))
      {
        StopNext(old(View()), ids[..i], ids[i]);
        assert ids[..i + 1] == ids[..i] + [ids[i]];
        StopExecution(ids[i]);
      }
      assert ids[..|ids|] == ids;
      StopsRun(old(View()), ids);
      events := Stops(ids);
    }

    method DropIdleOnes(ids: seq<ExecutionId>) returns (ghost events: seq<Event>)
      requires Registry(View()) && Lists(ids, View())
      modifies this`activeExecutions
      ensures Runs(old(View()), events) && View() == After(old(View()), events)
      ensures forall x :: x in activeExecutions <==> x in old(activeExecutions) && Busy(old(View()), x)
    {
      events := [];
      for i := 0 to |ids|
        invariant Runs(old(View()), events) && View() == After(old(View()), events)
        invariant forall x :: x in activeExecutions ==>
          x in old(activeExecutions) && activeExecutions[x] == old(activeExecutions)[x]
        invariant forall j :: i <= j < |ids| ==> ids[j] in activeExecutions
        invariant forall j :: 0 <= j < i ==> (ids[j] in activeExecutions <==> Busy(old(View()), ids[j]))
      {
        if incs[activeExecutions[ids[i]]].status in {Waiting, New} {
          RunsAppend(old(View()), events, DropIdle(ids[i]));
          activeExecutions := activeExecutions - {ids[i]};
          events := events + [DropIdle(ids[i])];
        }
      }
    }
  }
}
