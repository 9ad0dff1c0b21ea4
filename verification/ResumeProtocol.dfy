/**
 * Any number of processes over one executions table.
 *
 * Timers, polls, webhooks and finished children may each start resuming an execution, in any
 * process, at any time and any number of times: that is a `BeginResume` anywhere. What stands
 * between them and a double run is the conditional update in `add`, which only succeeds on a
 * row whose status is waiting.
 */
module ResumeProtocol {
  import opened ActiveExecutions

  datatype DbStatus = DbNew | DbRunning | DbWaiting | DbEnded

  /** A registration in some process. */
  datatype Runner = Runner(process: nat, call: CallId)

  /**
   * `parked`: runners that have written their final row, waiting or ended. The three counters
   * record, per execution, successful resumes, entries into waiting, and waiting rows that
   * something else overwrote. `reopened`: executions whose row was made waiting by something else
   * while they had a runner.
   */
  datatype System = System(
    db: map<ExecutionId, DbStatus>,
    processes: seq<State>,
    parked: set<Runner>,
    resumed: map<ExecutionId, nat>,
    entered: map<ExecutionId, nat>,
    overwritten: map<ExecutionId, nat>,
    reopened: set<ExecutionId>)

  datatype SystemEvent =
    /** A stretch of code that does not touch the row. */
    | Local(process: nat, event: Event)
    /** `executionPersistence.create` answers with a new row. */
    | CreateRow(process: nat, call: CallId)
    /** `setRunning` of a new execution answers. */
    | StartNew(process: nat, call: CallId, now: int, ok: bool)
    /** The update that requires the row to be waiting answers. */
    | CompareAndSet(process: nat, call: CallId, now: int)
    /** `setRunning` in `runMainProcess`. */
    | SetRowRunning(process: nat, call: CallId)
    /** The runner saves its final row. */
    | SaveRow(process: nat, call: CallId, status: DbStatus)
    /** Anything else that writes the status, cancelling and crash recovery among it; whatever it writes. */
    | OverwriteRow(executionId: ExecutionId, status: DbStatus)

  function Count(m: map<ExecutionId, nat>, x: ExecutionId): nat {
    if x in m then m[x] else 0
  }

  function Bump(m: map<ExecutionId, nat>, x: ExecutionId): map<ExecutionId, nat> {
    m[x := Count(m, x) + 1]
  }

  /** Registered and not through with its row. */
  predicate Live(y: System, r: Runner) {
    r.process < |y.processes| && r.call in y.processes[r.process].incs && r !in y.parked
  }

  /** A call of `add` that has created its row and will register it. */
  predicate Starting(y: System, r: Runner) {
    && r.process < |y.processes| && r.call in y.processes[r.process].calls
    && HasRow(y.processes[r.process].calls[r.call])
  }

  /** `r` is running `x`, or is about to as its creator. */
  predicate Runs(y: System, r: Runner, x: ExecutionId) {
    || (Live(y, r) && y.processes[r.process].incs[r.call].executionId == x)
    || (Starting(y, r) && y.processes[r.process].calls[r.call].executionId == x)
  }

  predicate LocalEvent(s: State, e: Event) {
    match e
    case Created(_) => false
    case Registered(_, _) => false
    case Rejected(_) => false
    case _ => Allowed(s, e)
  }

  predicate Possible(y: System, e: SystemEvent) {
    match e
    case Local(p, event) => p < |y.processes| && LocalEvent(y.processes[p], event)
    case CreateRow(p, c) =>
      p < |y.processes| && InPhase(y.processes[p], c, Creating) && y.processes[p].calls[c].executionId !in y.db
    case StartNew(p, c, _, _) =>
      p < |y.processes| && InPhase(y.processes[p], c, Held) && !y.processes[p].calls[c].resuming
    case CompareAndSet(p, c, _) =>
      p < |y.processes| && InPhase(y.processes[p], c, Held) && y.processes[p].calls[c].resuming
    case SetRowRunning(p, c) => Live(y, Runner(p, c))
    case SaveRow(p, c, status) => Live(y, Runner(p, c)) && status in {DbWaiting, DbEnded}
    case OverwriteRow(x, _) => x in y.db
  }

  function InProcess(y: System, p: nat, e: Event): System
    requires p < |y.processes| && Allowed(y.processes[p], e)
  {
    y.(processes := y.processes[p := Apply(y.processes[p], e)])
  }

  /** A write of a row that is there, other than by the compare-and-set. */
  function WithRow(y: System, x: ExecutionId, status: DbStatus): System {
    y.(db := y.db[x := status],
       entered := if !RowWaits(y, x) && status == DbWaiting then Bump(y.entered, x) else y.entered,
       overwritten := if RowWaits(y, x) && status != DbWaiting then Bump(y.overwritten, x) else y.overwritten)
  }

  predicate RowWaits(y: System, x: ExecutionId) {
    x in y.db && y.db[x] == DbWaiting
  }

  ghost predicate HasRunner(y: System, x: ExecutionId) {
    exists r :: Runs(y, r, x)
  }

  ghost function Next(y: System, e: SystemEvent): System
    requires Possible(y, e)
  {
    match e
    case Local(p, event) => InProcess(y, p, event)
    case CreateRow(p, c) =>
      InProcess(y.(db := y.db[y.processes[p].calls[c].executionId := DbNew]), p, Created(c))
    case StartNew(p, c, now, ok) =>
      if ok then InProcess(WithRow(y, y.processes[p].calls[c].executionId, DbRunning), p, Registered(c, now))
      else InProcess(y, p, Rejected(c))
    case CompareAndSet(p, c, now) =>
      var x := y.processes[p].calls[c].executionId;
      if RowWaits(y, x) then
        InProcess(y.(db := y.db[x := DbRunning], resumed := Bump(y.resumed, x)), p, Registered(c, now))
      else InProcess(y, p, Rejected(c))
    case SetRowRunning(p, c) =>
      WithRow(y, y.processes[p].incs[c].executionId, DbRunning)
    case SaveRow(p, c, status) =>
      WithRow(y, y.processes[p].incs[c].executionId, status).(parked := y.parked + {Runner(p, c)})
    case OverwriteRow(x, status) =>
      WithRow(y, x, status).(reopened :=
        if status == DbWaiting && HasRunner(y, x) then y.reopened + {x} else y.reopened)
  }

  function Start(limits: seq<nat>): System {
    System(map[], seq(|limits|, i requires 0 <= i < |limits| => Initial(limits[i])), {}, map[], map[], map[], {})
  }

  ghost predicate Possibles(y: System, events: seq<SystemEvent>)
    decreases |events|
  {
    events == [] || (Possible(y, events[0]) && Possibles(Next(y, events[0]), events[1..]))
  }

  ghost function Afterwards(y: System, events: seq<SystemEvent>): System
    requires Possibles(y, events)
    decreases |events|
  {
    if events == [] then y else Afterwards(Next(y, events[0]), events[1..])
  }

  // ---------------------------------------------------------------------------
  // The invariant
  // ---------------------------------------------------------------------------

  /** At most one runner per execution, and none while the row says waiting, unless it was reopened. */
  ghost predicate OneRunner(y: System) {
    && (forall r, r', x :: Runs(y, r, x) && Runs(y, r', x) && x !in y.reopened ==> r == r')
    && (forall r, x :: Runs(y, r, x) ==> x in y.db && (x !in y.reopened ==> y.db[x] != DbWaiting))
  }

  /** Every entry into waiting is still there, was used up by one resume, or was overwritten. */
  ghost predicate Balanced(y: System) {
    forall x :: Count(y.entered, x)
      == Count(y.resumed, x) + Count(y.overwritten, x) + if RowWaits(y, x) then 1 else 0
  }

  ghost predicate ProcessesOk(y: System, limits: seq<nat>) {
    && |limits| == |y.processes|
    && (forall p :: 0 <= p < |limits| ==> ActiveExecutions.Inv(y.processes[p], limits[p]))
  }

  /** Parked runners are registrations of the past. */
  ghost predicate ParkedOk(y: System) {
    forall r :: r in y.parked ==> r.process < |y.processes|
                                  && r.call < y.processes[r.process].nextCall && r.call !in y.processes[r.process].calls
  }

  ghost predicate SystemInv(y: System, limits: seq<nat>) {
    ProcessesOk(y, limits) && ParkedOk(y) && OneRunner(y) && Balanced(y)
  }

  lemma InProcessKeepsProcesses(y: System, limits: seq<nat>, p: nat, e: Event)
    requires ProcessesOk(y, limits) && ParkedOk(y) && p < |y.processes| && Allowed(y.processes[p], e)
    ensures ProcessesOk(InProcess(y, p, e), limits) && ParkedOk(InProcess(y, p, e))
  {
    StepKeepsInv(y.processes[p], limits[p], e);
    CallsOnlyGrowAtTheEnd(y.processes[p], e);
  }

  lemma CallsOnlyGrowAtTheEnd(s: State, e: Event)
    requires Allowed(s, e)
    ensures Apply(s, e).nextCall >= s.nextCall
    ensures forall c :: c in Apply(s, e).calls && c !in s.calls ==> c == s.nextCall
  {
  }

  /** The call is that of a new execution whose row exists. */
  predicate HasRow(call: Call) {
    !call.resuming && call.phase != Creating
  }

  lemma LocalCallMakesNoRunner(s: State, e: Event)
    requires Registry(s) && LocalEvent(s, e)
    ensures forall c :: c in Apply(s, e).calls && HasRow(Apply(s, e).calls[c]) ==>
      c in s.calls && HasRow(s.calls[c]) && s.calls[c].executionId == Apply(s, e).calls[c].executionId
  {
  }

  lemma LocalKeepsRegistrations(s: State, e: Event)
    requires Registry(s) && LocalEvent(s, e)
    ensures Apply(s, e).incs.Keys == s.incs.Keys
    ensures forall c :: c in s.incs ==> Apply(s, e).incs[c].executionId == s.incs[c].executionId
  {
    if !(e.SetStatus? || e.Finalize? || e.Stop? || e.SettleHandler?) {
      OthersKeepRecords(s, e);
    }
  }

  lemma OthersKeepRecords(s: State, e: Event)
    requires LocalEvent(s, e) && !(e.SetStatus? || e.Finalize? || e.Stop? || e.SettleHandler?)
    ensures Apply(s, e).incs == s.incs
  {
  }

  lemma LocalKeepsInv(y: System, limits: seq<nat>, p: nat, event: Event)
    requires SystemInv(y, limits) && p < |y.processes| && LocalEvent(y.processes[p], event)
    ensures SystemInv(InProcess(y, p, event), limits)
  {
    InProcessKeepsProcesses(y, limits, p, event);
    LocalMakesNoRunner(y, p, event);
  }

  lemma LocalMakesNoRunner(y: System, p: nat, event: Event)
    requires p < |y.processes| && LocalEvent(y.processes[p], event) && Registry(y.processes[p])
    ensures forall r, x :: Runs(InProcess(y, p, event), r, x) ==> Runs(y, r, x)
  {
    LocalCallMakesNoRunner(y.processes[p], event);
    LocalKeepsRegistrations(y.processes[p], event);
  }

  /** A process step after which `r` is the only new runner, of `x`. */
  lemma OneMoreRunner(y: System, y': System, r: Runner, x: ExecutionId)
    requires OneRunner(y)
    requires forall r', x' :: Runs(y', r', x') ==> Runs(y, r', x') || (r' == r && x' == x)
    requires x !in y.reopened ==> forall r' :: Runs(y, r', x) ==> r' == r
    requires y'.reopened == y.reopened
    requires y'.db.Keys >= y.db.Keys && x in y'.db && y'.db[x] != DbWaiting
    requires forall x' :: x' in y.db && x' != x ==> y'.db[x'] == y.db[x']
    ensures OneRunner(y')
  {
  }

  lemma CreateRowKeepsInv(y: System, limits: seq<nat>, p: nat, c: CallId)
    requires SystemInv(y, limits) && Possible(y, CreateRow(p, c))
    ensures SystemInv(Next(y, CreateRow(p, c)), limits)
  {
    var x := y.processes[p].calls[c].executionId;
    var y1 := y.(db := y.db[x := DbNew]);
    InProcessKeepsProcesses(y1, limits, p, Created(c));
    var y' := Next(y, CreateRow(p, c));
    OneMoreRunner(y, y', Runner(p, c), x);
  }

  lemma RegisterKeepsInv(y: System, y1: System, limits: seq<nat>, p: nat, c: CallId, now: int)
    requires SystemInv(y, limits) && p < |y.processes| && InPhase(y.processes[p], c, Held)
    requires var x := y.processes[p].calls[c].executionId;
      y1 == y.(db := y.db[x := DbRunning], resumed := y1.resumed, overwritten := y1.overwritten)
      && (x !in y.reopened ==> forall r :: Runs(y, r, x) ==> r == Runner(p, c))
      && Balanced(y1)
    ensures SystemInv(InProcess(y1, p, Registered(c, now)), limits)
  {
    InProcessKeepsProcesses(y1, limits, p, Registered(c, now));
    var y' := InProcess(y1, p, Registered(c, now));
    OneMoreRunner(y, y', Runner(p, c), y.processes[p].calls[c].executionId);
  }

  lemma RejectKeepsInv(y: System, limits: seq<nat>, p: nat, c: CallId)
    requires SystemInv(y, limits) && p < |y.processes| && InPhase(y.processes[p], c, Held)
    ensures SystemInv(InProcess(y, p, Rejected(c)), limits)
  {
    InProcessKeepsProcesses(y, limits, p, Rejected(c));
    var y' := InProcess(y, p, Rejected(c));
    assert forall r, x :: Runs(y', r, x) ==> Runs(y, r, x);
  }

  lemma WithRowBalanced(y: System, x: ExecutionId, status: DbStatus)
    requires Balanced(y)
    ensures Balanced(WithRow(y, x, status))
  {
    var y' := WithRow(y, x, status);
    forall x' ensures Count(y'.entered, x')
      == Count(y'.resumed, x') + Count(y'.overwritten, x') + if RowWaits(y', x') then 1 else 0
    {
      assert Count(y.entered, x') == Count(y.resumed, x') + Count(y.overwritten, x') + if RowWaits(y, x') then 1 else 0;
    }
  }

  lemma SaveRowKeepsInv(y: System, limits: seq<nat>, p: nat, c: CallId, status: DbStatus)
    requires SystemInv(y, limits) && Possible(y, SaveRow(p, c, status))
    ensures SystemInv(Next(y, SaveRow(p, c, status)), limits)
  {
    var x := y.processes[p].incs[c].executionId;
    var y' := Next(y, SaveRow(p, c, status));
    WithRowBalanced(y, x, status);
    assert Runs(y, Runner(p, c), x);
    forall r, x' | Runs(y', r, x') ensures Runs(y, r, x') && (x' == x ==> x in y.reopened) {
      assert Runs(y, r, x');
      assert r != Runner(p, c);
    }
  }

  /** A write to one row alone; making it waiting while it has a runner reopens it. */
  lemma RowKeepsInv(y: System, y': System, limits: seq<nat>, x: ExecutionId, status: DbStatus)
    requires SystemInv(y, limits) && x in y.db
    requires y' == WithRow(y, x, status).(reopened := y'.reopened) && y.reopened <= y'.reopened
    requires status == DbWaiting && HasRunner(y, x) ==> x in y'.reopened
    ensures SystemInv(y', limits)
  {
    WithRowBalanced(y, x, status);
    assert forall r, x' :: Runs(y', r, x') <==> Runs(y, r, x');
  }

  lemma StartNewKeepsInv(y: System, limits: seq<nat>, p: nat, c: CallId, now: int, ok: bool)
    requires SystemInv(y, limits) && Possible(y, StartNew(p, c, now, ok))
    ensures SystemInv(Next(y, StartNew(p, c, now, ok)), limits)
  {
    if ok {
      var x := y.processes[p].calls[c].executionId;
      assert Runs(y, Runner(p, c), x);
      WithRowBalanced(y, x, DbRunning);
      RegisterKeepsInv(y, WithRow(y, x, DbRunning), limits, p, c, now);
    } else {
      RejectKeepsInv(y, limits, p, c);
    }
  }

  lemma CompareAndSetKeepsInv(y: System, limits: seq<nat>, p: nat, c: CallId, now: int)
    requires SystemInv(y, limits) && Possible(y, CompareAndSet(p, c, now))
    ensures SystemInv(Next(y, CompareAndSet(p, c, now)), limits)
  {
    var x := y.processes[p].calls[c].executionId;
    if RowWaits(y, x) {
      RegisterKeepsInv(y, y.(db := y.db[x := DbRunning], resumed := Bump(y.resumed, x)), limits, p, c, now);
    } else {
      RejectKeepsInv(y, limits, p, c);
    }
  }

  lemma SetRowRunningKeepsInv(y: System, limits: seq<nat>, p: nat, c: CallId)
    requires SystemInv(y, limits) && Possible(y, SetRowRunning(p, c))
    ensures SystemInv(Next(y, SetRowRunning(p, c)), limits)
  {
    assert Runs(y, Runner(p, c), y.processes[p].incs[c].executionId);
    RowKeepsInv(y, Next(y, SetRowRunning(p, c)), limits, y.processes[p].incs[c].executionId, DbRunning);
  }

  lemma NextKeepsInv(y: System, limits: seq<nat>, e: SystemEvent)
    requires SystemInv(y, limits) && Possible(y, e)
    ensures SystemInv(Next(y, e), limits)
  {
    match e {
      case Local(p, event) => LocalKeepsInv(y, limits, p, event);
      case CreateRow(p, c) => CreateRowKeepsInv(y, limits, p, c);
      case StartNew(p, c, now, ok) => StartNewKeepsInv(y, limits, p, c, now, ok);
      case CompareAndSet(p, c, now) => CompareAndSetKeepsInv(y, limits, p, c, now);
      case SetRowRunning(p, c) => SetRowRunningKeepsInv(y, limits, p, c);
      case SaveRow(p, c, status) => SaveRowKeepsInv(y, limits, p, c, status);
      case OverwriteRow(x, status) => RowKeepsInv(y, Next(y, e), limits, x, status);
    }
  }

  lemma {:induction false} SystemInvAfter(y: System, limits: seq<nat>, events: seq<SystemEvent>)
    requires SystemInv(y, limits) && Possibles(y, events)
    ensures SystemInv(Afterwards(y, events), limits)
    decreases |events|
  {
    if events != [] {
      NextKeepsInv(y, limits, events[0]);
      SystemInvAfter(Next(y, events[0]), limits, events[1..]);
    }
  }

  /**
   * Over every run of any number of processes: unless something other than its runner made its row
   * waiting while it ran, no execution is run by two registrations at once, and none is run while its
   * row says waiting. In any case successful resumes are balanced by entries into waiting, so there are
   * never more of them.
   */
  lemma NoDoubleRun(limits: seq<nat>, events: seq<SystemEvent>, r: Runner, r': Runner, x: ExecutionId)
    requires Possibles(Start(limits), events)
    ensures var y := Afterwards(Start(limits), events);
      && (Runs(y, r, x) && Runs(y, r', x) && x !in y.reopened ==> r == r')
      && (Runs(y, r, x) && x !in y.reopened ==> x in y.db && y.db[x] != DbWaiting)
      && Count(y.resumed, x) + Count(y.overwritten, x) <= Count(y.entered, x)
      && Count(y.entered, x) <= Count(y.resumed, x) + Count(y.overwritten, x) + 1
  {
    SystemInvAfter(Start(limits), limits, events);
  }

  // What each answer of the database makes of a call.

  /** After `e` the row of `x` says `status`, every other row what it said, and `r` runs `x` if and only if `runs`. */
  ghost predicate Leaves(y: System, e: SystemEvent, x: ExecutionId, status: DbStatus, r: Runner, runs: bool)
    requires Possible(y, e)
  {
    && Next(y, e).db == y.db[x := status] && (Runs(Next(y, e), r, x) <==> runs)
  }

  /** A new row is new, and its creator runs it. */
  lemma CreatorRuns(y: System, p: nat, c: CallId)
    requires Possible(y, CreateRow(p, c)) && !y.processes[p].calls[c].resuming
    ensures Leaves(y, CreateRow(p, c), y.processes[p].calls[c].executionId, DbNew, Runner(p, c), true)
  {
  }

  /** It goes on doing so if and only if setting the row running succeeds. */
  lemma StartDecides(y: System, p: nat, c: CallId, now: int, ok: bool)
    requires Possible(y, StartNew(p, c, now, ok)) && Registry(y.processes[p]) && Runner(p, c) !in y.parked
    requires y.processes[p].calls[c].executionId in y.db
    ensures var x := y.processes[p].calls[c].executionId;
      Leaves(y, StartNew(p, c, now, ok), x, if ok then DbRunning else y.db[x], Runner(p, c), ok)
  {
  }

  /** A resume runs if and only if the row says waiting, which it then says no longer. */
  lemma CompareAndSetDecides(y: System, p: nat, c: CallId, now: int)
    requires Possible(y, CompareAndSet(p, c, now)) && Registry(y.processes[p]) && Runner(p, c) !in y.parked
    requires y.processes[p].calls[c].executionId in y.db
    ensures var x := y.processes[p].calls[c].executionId;
      Leaves(y, CompareAndSet(p, c, now), x, if y.db[x] == DbWaiting then DbRunning else y.db[x], Runner(p, c),
             y.db[x] == DbWaiting)
  {
  }

  /** Either way the call is over; one that was refused is registered nowhere and gives its unit back. */
  lemma RefusedGivesBack(y: System, p: nat, c: CallId, now: int)
    requires Possible(y, CompareAndSet(p, c, now)) && Registry(y.processes[p])
    ensures var (s, s', x) := (y.processes[p], Next(y, CompareAndSet(p, c, now)).processes[p],
                               y.processes[p].calls[c].executionId);
      && c !in s'.calls
      && (!RowWaits(y, x) ==>
            && s'.active == s.active && s'.incs == s.incs && c !in s'.incs
            && (s.calls[c].pooled && s.enabled ==> s'.released == s.released + [c])
            && (!s.calls[c].pooled || !s.enabled ==> s'.pool == s.pool))
  {
  }

  /** The runner sets the row running as it goes on. */
  lemma RunnerGoesOn(y: System, p: nat, c: CallId)
    requires Live(y, Runner(p, c)) && c !in y.processes[p].calls
    ensures Leaves(y, SetRowRunning(p, c), y.processes[p].incs[c].executionId, DbRunning, Runner(p, c), true)
  {
  }

  /** And stops running with the row it saves. */
  lemma RunnerSaves(y: System, p: nat, c: CallId, status: DbStatus)
    requires Possible(y, SaveRow(p, c, status)) && c !in y.processes[p].calls
    ensures Leaves(y, SaveRow(p, c, status), y.processes[p].incs[c].executionId, status, Runner(p, c), false)
  {
  }

  predicate Resumes(y: System, e: SystemEvent, x: ExecutionId)
    requires Possible(y, e)
  {
    e.CompareAndSet? && y.processes[e.process].calls[e.call].executionId == x && RowWaits(y, x)
  }

  /** What counts as a resume, and what reopens an execution. */
  lemma ResumesAreCounted(y: System, e: SystemEvent, x: ExecutionId)
    requires Possible(y, e)
    ensures Count(Next(y, e).resumed, x) == Count(y.resumed, x) + if Resumes(y, e, x) then 1 else 0
    ensures x in Next(y, e).reopened <==> x in y.reopened || (e == OverwriteRow(x, DbWaiting) && HasRunner(y, x))
  {
  }

  /** What counts as an entry into waiting. */
  lemma EntriesAreCounted(y: System, e: SystemEvent, x: ExecutionId)
    requires Possible(y, e)
    ensures var enters := !RowWaits(y, x) && RowWaits(Next(y, e), x);
      Count(Next(y, e).entered, x) == Count(y.entered, x) + if enters then 1 else 0
  {
  }

  /** And as the end of it by something else than a resume. */
  lemma OverwritesAreCounted(y: System, e: SystemEvent, x: ExecutionId)
    requires Possible(y, e)
    ensures var leaves := RowWaits(y, x) && !RowWaits(Next(y, e), x) && !Resumes(y, e, x);
      Count(Next(y, e).overwritten, x) == Count(y.overwritten, x) + if leaves then 1 else 0
  {
  }

  /** A resume without limit, as far as the compare-and-set. */
  function Resuming(s: State, x: ExecutionId): State {
    s.(nextCall := s.nextCall + 1, calls := s.calls[s.nextCall := Call(x, true, false, Held, false)])
  }

  lemma ResumeBegins(y: System, p: nat, x: ExecutionId)
    requires p < |y.processes|
    ensures var c := y.processes[p].nextCall;
      var (begin, reserved) := (Local(p, BeginResume(x, false)), Local(p, Reserved(c)));
      && Possible(y, begin) && Possible(Next(y, begin), reserved)
      && Next(Next(y, begin), reserved) == y.(processes := y.processes[p := Resuming(y.processes[p], x)])
  {
    var s, c := y.processes[p], y.processes[p].nextCall;
    var s1 := Apply(s, BeginResume(x, false));
    assert s1 == s.(nextCall := c + 1, calls := s.calls[c := Call(x, true, false, Reserving, false)]);
    assert Apply(s1, Reserved(c)).calls == Resuming(s, x).calls;
  }

  lemma SecondRunner(y: System, r: Runner, x: ExecutionId)
    requires RowWaits(y, x) && Runs(y, r, x) && ParkedOk(y) && Registry(y.processes[r.process])
    ensures var (p, c) := (r.process, y.processes[r.process].nextCall);
      var y2 := y.(processes := y.processes[p := Resuming(y.processes[p], x)]);
      Possible(y2, CompareAndSet(p, c, 0))
      && Runs(Next(y2, CompareAndSet(p, c, 0)), r, x) && Runs(Next(y2, CompareAndSet(p, c, 0)), Runner(p, c), x)
  {
    var p, c := r.process, y.processes[r.process].nextCall;
    assert r.call < c && Runner(p, c) !in y.parked;
  }

  /** While a row is waiting, whoever runs its execution may be joined by a second runner. */
  lemma WaitingRowAdmitsSecond(y: System, limits: seq<nat>, r: Runner, x: ExecutionId)
    requires SystemInv(y, limits) && RowWaits(y, x) && Runs(y, r, x)
    ensures exists events, r' :: Possibles(y, events) && Runs(Afterwards(y, events), r, x)
                                 && Runs(Afterwards(y, events), r', x) && r' != r
  {
    var p, c := r.process, y.processes[r.process].nextCall;
    var begin, reserved, last := Local(p, BeginResume(x, false)), Local(p, Reserved(c)), CompareAndSet(p, c, 0);
    ResumeBegins(y, p, x);
    SecondRunner(y, r, x);
    SystemStep(Next(Next(y, begin), reserved), last, []);
    SystemStep(Next(y, begin), reserved, [last]);
    SystemStep(y, begin, [reserved] + [last]);
    assert Runs(Afterwards(y, [begin] + ([reserved] + [last])), Runner(p, c), x);
  }

  lemma SystemStep(y: System, e: SystemEvent, rest: seq<SystemEvent>)
    requires Possible(y, e) && Possibles(Next(y, e), rest)
    ensures Possibles(y, [e] + rest) && Afterwards(y, [e] + rest) == Afterwards(Next(y, e), rest)
  {
    assert ([e] + rest)[1..] == rest;
  }

  /** Every process keeps its capacity accounting, whatever the others and the database do. */
  lemma UnitsHeldEverywhere(limits: seq<nat>, events: seq<SystemEvent>, p: nat)
    requires Possibles(Start(limits), events) && p < |limits|
    ensures var y := Afterwards(Start(limits), events);
      |y.processes| == |limits| && ReleasedOnce(y.processes[p])
      && (y.processes[p].enabled ==> UnitsAddUp(y.processes[p], limits[p]))
  {
    SystemInvAfter(Start(limits), limits, events);
    var s := Afterwards(Start(limits), events).processes[p];
    if s.enabled {
      UnitsMean(s, limits[p]);
    }
  }
}
