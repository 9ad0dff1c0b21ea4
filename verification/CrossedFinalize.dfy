/**
 * A run that settles its successor. When an execution goes to wait, its row is saved before its run is
 * finalized, and finalizing goes by the id of the execution. A resume that wins the compare-and-set in
 * between registers a new incarnation, and it is that one which the first run then settles.
 */
module CrossedFinalize {
  import opened ActiveExecutions
  import opened ResumeProtocol
  import opened ConcurrencyQueue
  import opened Incarnations
  import P = ActiveExecutions
  import R = ResumeProtocol

  /** One process with nothing but the execution `x`. */
  function Only(
    pool: Pool, active: map<ExecutionId, CallId>, calls: map<CallId, Call>, incs: map<CallId, Incarnation>,
    next: CallId)
    : State
  {
    P.Initial(0).(active := active, calls := calls, incs := incs, nextCall := next, pool := pool)
  }

  function OneProcess(s: State, db: map<ExecutionId, DbStatus>): System {
    System(db, [s], {}, map[], map[], map[], {})
  }

  lemma Stepped(y: System, s: State, e: P.Event)
    requires y.processes == [s] && P.Allowed(s, e)
    ensures InProcess(y, 0, e) == y.(processes := [P.Apply(s, e)])
  {
  }

  lemma Overwritten<K, V>(k: K, v: V, v': V)
    ensures map[k := v][k := v'] == map[k := v']
  {
  }

  // The first run, up to its registration.

  function Starter(x: ExecutionId, phase: Phase): Call {
    Call(x, false, true, phase, phase != Creating)
  }

  /** The calls in `running` hold a slot each. */
  function Taken(limit: nat, running: set<Ticket>): Pool {
    Pool(limit - |running|, [], running)
  }

  function Creator(limit: nat, x: ExecutionId, phase: Phase): State {
    Only(Taken(limit, if phase == Creating then {} else {0}), map[], map[0 := Starter(x, phase)], map[], 1)
  }

  lemma FirstCall(limit: nat, x: ExecutionId)
    requires limit >= 1
    ensures P.Apply(P.Initial(limit), BeginNew(x, true)) == Creator(limit, x, Creating)
    ensures P.Apply(Creator(limit, x, Creating), Created(0)) == Creator(limit, x, P.Reserving)
    ensures P.Allowed(Creator(limit, x, P.Reserving), Reserved(0))
    ensures P.Apply(Creator(limit, x, P.Reserving), Reserved(0)) == Creator(limit, x, Held)
  {
    Overwritten(0, Starter(x, Creating), Starter(x, P.Reserving));
    Overwritten(0, Starter(x, P.Reserving), Starter(x, Held));
    assert {} + {0} == {0} && |{0}| == 1;
  }

  function AfterStart(limit: nat, x: ExecutionId, now: int): System {
    OneProcess(FirstIn(limit, x, now, Running), map[x := DbRunning])
  }

  /** The first incarnation is registered, with this status. */
  function FirstIn(limit: nat, x: ExecutionId, now: int, status: Status): State {
    Only(Taken(limit, {0}), map[x := 0], map[], map[0 := Incarnation(x, now, status, true, false, false)], 1)
  }

  lemma FirstRegistration(limit: nat, x: ExecutionId, now: int)
    requires limit >= 1
    ensures var y := OneProcess(Creator(limit, x, Held), map[x := DbNew]);
      Possible(y, StartNew(0, 0, now, true)) && Next(y, StartNew(0, 0, now, true)) == AfterStart(limit, x, now)
  {
    var s := Creator(limit, x, Held);
    Overwritten(x, DbNew, DbRunning);
    Stepped(OneProcess(s, map[x := DbRunning]), s, Registered(0, now));
    assert map[0 := Starter(x, Held)] - {0} == map[];
  }

  lemma FirstRun(limit: nat, x: ExecutionId, now: int, rest: seq<SystemEvent>)
    requires limit >= 1 && Possibles(AfterStart(limit, x, now), rest)
    ensures var events :=
      [Local(0, BeginNew(x, true)), CreateRow(0, 0), Local(0, Reserved(0)), StartNew(0, 0, now, true)] + rest;
      Possibles(Start([limit]), events)
      && Afterwards(Start([limit]), events) == Afterwards(AfterStart(limit, x, now), rest)
  {
    var y0 := OneProcess(P.Initial(limit), map[]);
    var s1, s2, s3 := Creator(limit, x, Creating), Creator(limit, x, P.Reserving), Creator(limit, x, Held);
    assert Start([limit]) == y0;
    FirstCall(limit, x);
    Stepped(y0, P.Initial(limit), BeginNew(x, true));
    Stepped(OneProcess(s1, map[x := DbNew]), s1, Created(0));
    Stepped(OneProcess(s2, map[x := DbNew]), s2, Reserved(0));
    FirstRegistration(limit, x, now);
    var tail := [StartNew(0, 0, now, true)] + rest;
    SystemStep(OneProcess(s3, map[x := DbNew]), StartNew(0, 0, now, true), rest);
    SystemStep(OneProcess(s2, map[x := DbNew]), Local(0, Reserved(0)), tail);
    SystemStep(OneProcess(s1, map[]), CreateRow(0, 0), [Local(0, Reserved(0))] + tail);
    SystemStep(y0, Local(0, BeginNew(x, true)), [CreateRow(0, 0)] + ([Local(0, Reserved(0))] + tail));
    assert [Local(0, BeginNew(x, true))] + ([CreateRow(0, 0)] + ([Local(0, Reserved(0))] + tail))
        == [Local(0, BeginNew(x, true)), CreateRow(0, 0), Local(0, Reserved(0)), StartNew(0, 0, now, true)] + rest;
  }

  // It goes to wait: the status of the incarnation first, then the row.

  function AfterSave(limit: nat, x: ExecutionId, now: int): System {
    System(map[x := DbWaiting], [FirstIn(limit, x, now, Waiting)], {Runner(0, 0)}, map[], map[x := 1], map[], {})
  }

  lemma GoesToWait(limit: nat, x: ExecutionId, now: int, rest: seq<SystemEvent>)
    requires Possibles(AfterSave(limit, x, now), rest)
    ensures var y := AfterStart(limit, x, now);
      var events := [Local(0, SetStatus(x, Waiting)), SaveRow(0, 0, DbWaiting)] + rest;
      Possibles(y, events) && Afterwards(y, events) == Afterwards(AfterSave(limit, x, now), rest)
  {
    var y, s := AfterStart(limit, x, now), FirstIn(limit, x, now, Running);
    var y1 := OneProcess(FirstIn(limit, x, now, Waiting), map[x := DbRunning]);
    Overwritten(0, s.incs[0], s.incs[0].(status := Waiting));
    Stepped(y, s, SetStatus(x, Waiting));
    assert Next(y, Local(0, SetStatus(x, Waiting))) == y1;
    Overwritten(x, DbRunning, DbWaiting);
    assert Next(y1, SaveRow(0, 0, DbWaiting)) == AfterSave(limit, x, now);
    SystemStep(y1, SaveRow(0, 0, DbWaiting), rest);
    SystemStep(y, Local(0, SetStatus(x, Waiting)), [SaveRow(0, 0, DbWaiting)] + rest);
    assert [Local(0, SetStatus(x, Waiting))] + ([SaveRow(0, 0, DbWaiting)] + rest)
        == [Local(0, SetStatus(x, Waiting)), SaveRow(0, 0, DbWaiting)] + rest;
  }

  // It is resumed in the same process, before its first run is finalized.

  function Resumer(limit: nat, x: ExecutionId, now: int, phase: Phase): State {
    var first := Incarnation(x, now, Waiting, true, false, false);
    Only(Taken(limit, {0, 1}), map[x := 0], map[1 := Call(x, true, true, phase, true)], map[0 := first], 2)
  }

  lemma ResumeCall(limit: nat, x: ExecutionId, now: int)
    requires limit >= 2
    ensures P.Apply(FirstIn(limit, x, now, Waiting), BeginResume(x, true)) == Resumer(limit, x, now, P.Reserving)
    ensures P.Allowed(Resumer(limit, x, now, P.Reserving), Reserved(1))
    ensures P.Apply(Resumer(limit, x, now, P.Reserving), Reserved(1)) == Resumer(limit, x, now, Held)
  {
    assert {0} + {1} == {0, 1} && |{0}| == 1 && |{0, 1}| == 2;
    Overwritten(1, Call(x, true, true, P.Reserving, true), Call(x, true, true, Held, true));
  }

  /** Two incarnations: the one that waits, not yet finalized, and the one registered now. */
  function BothIn(limit: nat, x: ExecutionId, now: int): State {
    var incs := map[
      0 := Incarnation(x, now, Waiting, true, false, false),
      1 := Incarnation(x, now, Running, true, false, false)];
    Only(Taken(limit, {0, 1}), map[x := 1], map[], incs, 2)
  }

  function AfterResume(limit: nat, x: ExecutionId, now: int): System {
    System(map[x := DbRunning], [BothIn(limit, x, now)], {Runner(0, 0)}, map[x := 1], map[x := 1], map[], {})
  }

  lemma SecondRegistration(limit: nat, x: ExecutionId, now: int)
    requires limit >= 2
    ensures var y := AfterSave(limit, x, now).(processes := [Resumer(limit, x, now, Held)]);
      Possible(y, CompareAndSet(0, 1, now)) && Next(y, CompareAndSet(0, 1, now)) == AfterResume(limit, x, now)
  {
    var s := Resumer(limit, x, now, Held);
    var y := AfterSave(limit, x, now).(processes := [s]);
    Overwritten(x, DbWaiting, DbRunning);
    Stepped(y.(db := map[x := DbRunning], resumed := map[x := 1]), s, Registered(1, now));
    assert s.calls - {1} == map[];
    Overwritten(x, 0, 1);
    assert P.Apply(s, Registered(1, now)) == BothIn(limit, x, now);
  }

  lemma IsResumed(limit: nat, x: ExecutionId, now: int, rest: seq<SystemEvent>)
    requires limit >= 2 && Possibles(AfterResume(limit, x, now), rest)
    ensures var y := AfterSave(limit, x, now);
      var events := [Local(0, BeginResume(x, true)), Local(0, Reserved(1)), CompareAndSet(0, 1, now)] + rest;
      Possibles(y, events) && Afterwards(y, events) == Afterwards(AfterResume(limit, x, now), rest)
  {
    var y := AfterSave(limit, x, now);
    var begin, reserved := Local(0, BeginResume(x, true)), Local(0, Reserved(1));
    var s, s1 := FirstIn(limit, x, now, Waiting), Resumer(limit, x, now, P.Reserving);
    var y1, y2 := y.(processes := [s1]), y.(processes := [Resumer(limit, x, now, Held)]);
    ResumeCall(limit, x, now);
    Stepped(y, s, BeginResume(x, true));
    Stepped(y1, s1, Reserved(1));
    assert Next(y, begin) == y1 && Next(y1, reserved) == y2;
    SecondRegistration(limit, x, now);
    var tail := [CompareAndSet(0, 1, now)] + rest;
    SystemStep(y2, CompareAndSet(0, 1, now), rest);
    SystemStep(y1, reserved, tail);
    SystemStep(y, begin, [reserved] + tail);
    assert [begin] + ([reserved] + tail) == [begin, reserved, CompareAndSet(0, 1, now)] + rest;
  }

  /** The first run finalizes its execution, and the handler of the second incarnation runs. */
  lemma FirstRunFinalizes(limit: nat, x: ExecutionId, now: int)
    requires limit >= 2
    ensures var y := AfterResume(limit, x, now);
      var events := [Local(0, Finalize(x)), Local(0, SettleHandler(1))];
      Possibles(y, events) && Crossed(Afterwards(y, events), x)
  {
    var y, s := AfterResume(limit, x, now), BothIn(limit, x, now);
    var s1 := P.Apply(s, Finalize(x));
    var s2 := P.Apply(s1, SettleHandler(1));
    assert Registry(s);
    FinalizeThenHandler(s, 0);
    RunStep(s1, SettleHandler(1), []);
    RunStep(s, Finalize(x), [SettleHandler(1)]);
    assert P.After(s, [Finalize(x), SettleHandler(1)]) == s2;
    Stepped(y, s, Finalize(x));
    Stepped(y.(processes := [s1]), s1, SettleHandler(1));
    SystemStep(y.(processes := [s1]), Local(0, SettleHandler(1)), []);
    SystemStep(y, Local(0, Finalize(x)), [Local(0, SettleHandler(1))]);
    assert [Local(0, Finalize(x))] + [Local(0, SettleHandler(1))]
        == [Local(0, Finalize(x)), Local(0, SettleHandler(1))];
    assert s2.pool == Dequeue(Taken(limit, {0, 1}), 1);
  }

  /** The second run goes on unregistered, and the unit of the first, still taken, can never be given back. */
  ghost predicate Crossed(y: System, x: ExecutionId) {
    && |y.processes| == 1 && R.Runs(y, Runner(0, 1), x)
    && var s := y.processes[0]; x !in s.active && 0 in s.pool.running && !CanBeHandled(s, 0)
  }

  /** From the start of a process with two slots or more. */
  lemma FinalizeDropsNewRun(limit: nat, x: ExecutionId, now: int)
    requires limit >= 2
    ensures var events :=
      [Local(0, BeginNew(x, true)), CreateRow(0, 0), Local(0, Reserved(0)), StartNew(0, 0, now, true)]
      + ([Local(0, SetStatus(x, Waiting)), SaveRow(0, 0, DbWaiting)]
         + ([Local(0, BeginResume(x, true)), Local(0, Reserved(1)), CompareAndSet(0, 1, now)]
            + [Local(0, Finalize(x)), Local(0, SettleHandler(1))]));
      Possibles(Start([limit]), events) && Crossed(Afterwards(Start([limit]), events), x)
  {
    var end := [Local(0, Finalize(x)), Local(0, SettleHandler(1))];
    var resume := [Local(0, BeginResume(x, true)), Local(0, Reserved(1)), CompareAndSet(0, 1, now)];
    FirstRunFinalizes(limit, x, now);
    IsResumed(limit, x, now, end);
    GoesToWait(limit, x, now, resume + end);
    FirstRun(limit, x, now, [Local(0, SetStatus(x, Waiting)), SaveRow(0, 0, DbWaiting)] + (resume + end));
  }
}
