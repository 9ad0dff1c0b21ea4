/**
 * What a resumed execution and the incarnation it replaced can do to each other.
 *
 * Whatever happens later, an incarnation that is no longer the registered one is frozen: its
 * status cannot change and its promise cannot be settled any more. From this follow when a late
 * settle handler is harmless, and when a unit of capacity is lost for good.
 */
module Incarnations {
  import opened ActiveExecutions

  /** The incarnation is the one its execution id is registered with. */
  predicate Current(s: State, c: CallId) {
    c in s.incs && s.incs[c].executionId in s.active && s.active[s.incs[c].executionId] == c
  }

  ghost predicate Superseded(s: State, c: CallId) {
    c in s.incs && !Current(s, c)
  }

  lemma StepKeepsSuperseded(s: State, c: CallId, e: Event)
    requires Registry(s) && Superseded(s, c) && Allowed(s, e)
    ensures Superseded(Apply(s, e), c)
    ensures var s' := Apply(s, e);
      s'.incs[c] == s.incs[c] || (e == SettleHandler(c) && s'.incs[c] == s.incs[c].(handled := true))
  {
    if e.SettleHandler? {
      HandlerKeepsSuperseded(s, c, e.call);
    }
  }

  lemma HandlerKeepsSuperseded(s: State, c: CallId, d: CallId)
    requires Superseded(s, c) && Allowed(s, SettleHandler(d))
    ensures var s' := Apply(s, SettleHandler(d));
      Superseded(s', c) && s'.incs[c] == if d == c then s.incs[c].(handled := true) else s.incs[c]
  {
  }

  /** Once superseded, always superseded, with the same status and the same settled flag. */
  lemma {:induction false} SupersededIsFrozen(s: State, c: CallId, events: seq<Event>)
    requires Registry(s) && Superseded(s, c) && Runs(s, events)
    ensures var s' := After(s, events);
      Registry(s') && Superseded(s', c) && s'.incs[c] == s.incs[c].(handled := s'.incs[c].handled)
    decreases |events|
  {
    if events != [] {
      RegistryKept(s, events[0]);
      StepKeepsSuperseded(s, c, events[0]);
      SupersededIsFrozen(Apply(s, events[0]), c, events[1..]);
    }
  }

  /**
   * However late it runs, the settle handler of a replaced incarnation leaves every entry and
   * response mode alone exactly when that incarnation was waiting when it was replaced, or the
   * id has neither left to lose.
   */
  lemma LateHandlerIsHarmlessIff(s: State, c: CallId, events: seq<Event>)
    requires Registry(s) && Superseded(s, c) && Runs(s, events)
    requires Allowed(After(s, events), SettleHandler(c))
    ensures var s1 := After(s, events);
      var s2 := Apply(s1, SettleHandler(c));
      var x := s.incs[c].executionId;
      s2.active == s1.active && s2.responseModes == s1.responseModes
      <==> s.incs[c].status == Waiting || (x !in s1.active && x !in s1.responseModes)
  {
    SupersededIsFrozen(s, c, events);
    var s1 := After(s, events);
    var s2 := Apply(s1, SettleHandler(c));
    var x := s.incs[c].executionId;
    if s.incs[c].status != Waiting {
      assert s2.active == s1.active - {x} && s2.responseModes == s1.responseModes - {x};
      assert x !in s2.active && x !in s2.responseModes;
    }
  }

  /** Registering an execution again supersedes the incarnation it replaces and keeps its start time. */
  lemma ResumeSupersedes(s: State, c: CallId, now: int)
    requires Registry(s) && InPhase(s, c, Held) && s.calls[c].executionId in s.active
    ensures var x := s.calls[c].executionId;
      var s' := Apply(s, Registered(c, now));
      && Superseded(s', s.active[x]) && Current(s', c)
      && s'.incs[s.active[x]] == s.incs[s.active[x]]
      && s'.incs[c].startedAt == s.incs[s.active[x]].startedAt
  {
  }

  // ---------------------------------------------------------------------------
  // Start time
  // ---------------------------------------------------------------------------

  /** `x` is registered in every state of the run. */
  ghost predicate KeptThroughout(s: State, events: seq<Event>, x: ExecutionId)
    requires Runs(s, events)
    decreases |events|
  {
    x in s.active && (events == [] || KeptThroughout(Apply(s, events[0]), events[1..], x))
  }

  /** As long as the entry is there, its start time is that of the first incarnation, through any number of resumes. */
  lemma {:induction false} StartTimeIsKept(s: State, events: seq<Event>, x: ExecutionId)
    requires Registry(s) && Runs(s, events) && KeptThroughout(s, events, x)
    ensures var s' := After(s, events);
      x in s'.active && s'.active[x] in s'.incs && s'.incs[s'.active[x]].startedAt == s.incs[s.active[x]].startedAt
    decreases |events|
  {
    if events != [] {
      RegistryKept(s, events[0]);
      assert x in Apply(s, events[0]).active;
      StartTimeStep(s, events[0], x);
      StartTimeIsKept(Apply(s, events[0]), events[1..], x);
    }
  }

  lemma StartTimeStep(s: State, e: Event, x: ExecutionId)
    requires Registry(s) && Allowed(s, e) && x in s.active && x in Apply(s, e).active
    ensures var s' := Apply(s, e);
      s'.active[x] in s'.incs && s'.incs[s'.active[x]].startedAt == s.incs[s.active[x]].startedAt
  {
    if e.Registered? {
      RegistrationKeepsStartTime(s, e.call, e.now, x);
    } else {
      RecordsKeepStartTime(s, e);
    }
  }

  lemma RegistrationKeepsStartTime(s: State, c: CallId, now: int, x: ExecutionId)
    requires Registry(s) && InPhase(s, c, Held) && x in s.active
    ensures var s' := Apply(s, Registered(c, now));
      s'.active[x] in s'.incs && s'.incs[s'.active[x]].startedAt == s.incs[s.active[x]].startedAt
  {
  }

  /** Without a registration, entries stay as they are or go, and no record changes its start time. */
  lemma RecordsKeepStartTime(s: State, e: Event)
    requires Registry(s) && Allowed(s, e) && !e.Registered?
    ensures var s' := Apply(s, e);
      && (forall x :: x in s'.active ==> x in s.active && s'.active[x] == s.active[x])
      && (forall c :: c in s.incs ==> c in s'.incs && s'.incs[c].startedAt == s.incs[c].startedAt)
  {
    if e.SettleHandler? {
      HandlerKeepsStartTimes(s, e.call);
    }
  }

  lemma HandlerKeepsStartTimes(s: State, d: CallId)
    requires Allowed(s, SettleHandler(d))
    ensures var s' := Apply(s, SettleHandler(d));
      && s'.active.Keys <= s.active.Keys
      && (forall x :: x in s'.active ==> s'.active[x] == s.active[x])
      && s'.incs == s.incs[d := s.incs[d].(handled := true)]
  {
  }

  // ---------------------------------------------------------------------------
  // Lost units
  // ---------------------------------------------------------------------------

  /** Some continuation runs the settle handler of `c`. */
  ghost predicate CanBeHandled(s: State, c: CallId) {
    exists events :: Runs(s, events) && c in After(s, events).incs && After(s, events).incs[c].handled
  }

  /**
   * A registered incarnation can still give its unit back exactly when its promise is settled or
   * it is still the registered one. Every other unsettled incarnation keeps its unit for ever.
   */
  lemma ReleasableIff(s: State, c: CallId)
    requires Registry(s) && c in s.incs && !s.incs[c].handled
    ensures CanBeHandled(s, c) <==> s.incs[c].settled || Current(s, c)
  {
    if s.incs[c].settled {
      HandlerRun(s, c);
    } else if Current(s, c) {
      var x := s.incs[c].executionId;
      var s1 := Apply(s, Finalize(x));
      RegistryKept(s, Finalize(x));
      HandlerRun(s1, c);
      var events :| Runs(s1, events) && c in After(s1, events).incs && After(s1, events).incs[c].handled;
      var all := [Finalize(x)] + events;
      assert all[0] == Finalize(x) && all[1..] == events;
      assert Runs(s, all) && After(s, all) == After(s1, events);
    } else {
      forall events | Runs(s, events) ensures c in After(s, events).incs && !After(s, events).incs[c].handled {
        SupersededIsFrozen(s, c, events);
        RegistryAfter(s, events);
      }
    }
  }

  lemma HandlerRun(s: State, c: CallId)
    requires Registry(s) && c in s.incs && s.incs[c].settled && !s.incs[c].handled
    ensures CanBeHandled(s, c)
  {
    var events := [SettleHandler(c)];
    assert events[0] == SettleHandler(c) && events[1..] == [];
    assert Runs(Apply(s, events[0]), []);
    assert After(s, events) == Apply(s, SettleHandler(c));
  }

  lemma {:induction false} RegistryAfter(s: State, events: seq<Event>)
    requires Registry(s) && Runs(s, events)
    ensures Registry(After(s, events))
    decreases |events|
  {
    if events != [] {
      RegistryKept(s, events[0]);
      RegistryAfter(Apply(s, events[0]), events[1..]);
    }
  }

  /** Stopping an execution whose status is already waiting, before it is finalized, is one way to lose a unit. */
  lemma StopWhileWaitingLosesUnit(s: State, x: ExecutionId)
    requires Registry(s) && x in s.active
    requires var inc := s.incs[s.active[x]]; !inc.settled && !inc.handled
    ensures CanBeHandled(Apply(s, Stop(x)), s.active[x]) <==> s.incs[s.active[x]].status != Waiting
  {
    RegistryKept(s, Stop(x));
    ReleasableIff(Apply(s, Stop(x)), s.active[x]);
  }

  // ---------------------------------------------------------------------------
  // Finalizing goes by the id
  // ---------------------------------------------------------------------------

  /** Finalizing the execution of an incarnation settles it exactly when it is the registered one. */
  lemma FinalizeSettlesIff(s: State, c: CallId)
    requires Registry(s) && c in s.incs && !s.incs[c].settled
    ensures Apply(s, Finalize(s.incs[c].executionId)).incs[c].settled <==> Current(s, c)
  {
  }

  /**
   * A run finalizes its execution, and the handler of what that settled runs: the id loses its entry
   * exactly when the registered incarnation was not waiting, whosever run that is; and the incarnation
   * of the run itself can give its unit back exactly when it was the registered one.
   */
  lemma FinalizeThenHandler(s: State, c: CallId)
    requires Registry(s) && c in s.incs && !s.incs[c].settled && s.incs[c].executionId in s.active
    requires !s.incs[s.active[s.incs[c].executionId]].handled
    ensures var x := s.incs[c].executionId;
      var d := s.active[x];
      var events := [Finalize(x), SettleHandler(d)];
      && Runs(s, events)
      && (x !in After(s, events).active <==> s.incs[d].status != Waiting)
      && (CanBeHandled(After(s, events), c) <==> d == c)
  {
    var x := s.incs[c].executionId;
    var d := s.active[x];
    var s1 := Apply(s, Finalize(x));
    var s2 := Apply(s1, SettleHandler(d));
    RegistryKept(s, Finalize(x));
    RegistryKept(s1, SettleHandler(d));
    RunStep(s1, SettleHandler(d), []);
    RunStep(s, Finalize(x), [SettleHandler(d)]);
    assert [Finalize(x)] + [SettleHandler(d)] == [Finalize(x), SettleHandler(d)];
    if c == d {
      assert Runs(s2, []) && After(s2, []) == s2;
    } else {
      StepKeepsSuperseded(s, c, Finalize(x));
      StepKeepsSuperseded(s1, c, SettleHandler(d));
      ReleasableIff(s2, c);
    }
  }

  /** From a fresh process: a new execution goes to wait, is stopped, and its unit stays taken for ever. */
  lemma StoppedWaiterKeepsUnit(limit: nat, x: ExecutionId, now: int)
    requires limit > 0
    ensures var events :=
      [BeginNew(x, true), Created(0), Reserved(0), Registered(0, now), SetStatus(x, Waiting), Stop(x)];
      && Runs(Initial(limit), events)
      && var s := After(Initial(limit), events); 0 in s.pool.running && !CanBeHandled(s, 0)
  {
    var s0 := Initial(limit);
    var s1 := Apply(s0, BeginNew(x, true));
    var s2 := Apply(s1, Created(0));
    var s3 := Apply(s2, Reserved(0));
    var s4 := Apply(s3, Registered(0, now));
    var s5 := Apply(s4, SetStatus(x, Waiting));
    var s6 := Apply(s5, Stop(x));
    RunStep(s5, Stop(x), []);
    RunStep(s4, SetStatus(x, Waiting), [Stop(x)]);
    RunStep(s3, Registered(0, now), [SetStatus(x, Waiting), Stop(x)]);
    RunStep(s2, Reserved(0), [Registered(0, now), SetStatus(x, Waiting), Stop(x)]);
    RunStep(s1, Created(0), [Reserved(0), Registered(0, now), SetStatus(x, Waiting), Stop(x)]);
    RunStep(s0, BeginNew(x, true), [Created(0), Reserved(0), Registered(0, now), SetStatus(x, Waiting), Stop(x)]);
    assert s5.incs == map[0 := Incarnation(x, now, Waiting, true, false, false)] && s5.active == map[x := 0];
    assert Registry(s5);
    StopWhileWaitingLosesUnit(s5, x);
  }

  lemma RunStep(s: State, e: Event, rest: seq<Event>)
    requires Allowed(s, e) && Runs(Apply(s, e), rest)
    ensures Runs(s, [e] + rest) && After(s, [e] + rest) == After(Apply(s, e), rest)
  {
    assert ([e] + rest)[1..] == rest;
  }
}
