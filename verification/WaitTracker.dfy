/**
 * The timers of the wait tracker in one process. Polls await the database, so one may answer after
 * tracking has stopped; an execution may be started by others than its timer.
 */
module WaitTracker {
  import opened Sets

  type ExecutionId = string

  /**
   * The timer each tracked execution was given, armed or not; the armed timers of the event loop;
   * whether the poll interval was ever set and whether it runs; and the polls awaiting their answer.
   */
  datatype State = State(
    waiting: map<ExecutionId, nat>, timers: map<nat, ExecutionId>, next: nat,
    everTracked: bool, polling: bool, polls: nat)

  const EMPTY := State(map[], map[], 0, false, false, 0)

  datatype Event =
    | StartTracking
    | Tick                             // of the poll interval
    | Polled(ids: seq<ExecutionId>)    // a poll is answered
    | Fire(timer: nat)
    | Start(executionId: ExecutionId)  // by a finished child
    | Stop(executionId: ExecutionId)
    | StopTracking

  predicate Allowed(s: State, e: Event) {
    match e
    case Tick => s.polling
    case Polled(_) => s.polls > 0
    case Fire(t) => t in s.timers
    case _ => true
  }

  function Track(s: State, x: ExecutionId): State {
    if x in s.waiting then s
    else s.(waiting := s.waiting[x := s.next], timers := s.timers[s.next := x], next := s.next + 1)
  }

  function TrackAll(s: State, ids: seq<ExecutionId>): State {
    if ids == [] then s else Track(TrackAll(s, ids[..|ids| - 1]), ids[|ids| - 1])
  }

  /** `startExecution` forgets the timer without clearing it. */
  function Started(s: State, x: ExecutionId): State {
    s.(waiting := s.waiting - {x})
  }

  function Apply(s: State, e: Event): State
    requires Allowed(s, e)
  {
    match e
    case StartTracking => s.(everTracked := true, polling := true, polls := s.polls + 1)
    case Tick => s.(polls := s.polls + 1)
    case Polled(ids) => TrackAll(s.(polls := s.polls - 1), ids)
    case Fire(t) => Started(s.(timers := s.timers - {t}), s.timers[t])
    case Start(x) => Started(s, x)
    case Stop(x) =>
      if x in s.waiting then s.(waiting := s.waiting - {x}, timers := s.timers - {s.waiting[x]}) else s
    case StopTracking =>
      if s.everTracked then
        s.(polling := false, timers := map t | t in s.timers && t !in s.waiting.Values :: s.timers[t])
      else s
  }

  function Run(events: seq<Event>): State {
    if events == [] then EMPTY
    else
      var s, e := Run(events[..|events| - 1]), events[|events| - 1];
      if Allowed(s, e) then Apply(s, e) else s
  }

  ghost predicate Inv(s: State) {
    && (forall t :: t in s.timers ==> t < s.next)
    && (forall x :: x in s.waiting ==> s.waiting[x] < s.next)
    && (forall x :: x in s.waiting && s.waiting[x] in s.timers ==> s.timers[s.waiting[x]] == x)
    && (forall x, y :: x in s.waiting && y in s.waiting && s.waiting[x] == s.waiting[y] ==> x == y)
  }

  /** Armed timers of `x` that the tracker has lost sight of. */
  ghost function Strays(s: State, x: ExecutionId): set<nat> {
    set t | t in s.timers && s.timers[t] == x && (x in s.waiting ==> s.waiting[x] != t)
  }

  ghost function TimersOf(s: State, x: ExecutionId): set<nat> {
    set t | t in s.timers && s.timers[t] == x
  }

  /** Tracked, and nothing will ever fire for it. */
  predicate Dead(s: State, x: ExecutionId) {
    x in s.waiting && s.waiting[x] !in s.timers
  }

  /** Started while its own timer is armed, not by that timer. */
  predicate Orphans(s: State, e: Event, x: ExecutionId) {
    e == Start(x) && x in s.waiting && s.waiting[x] in s.timers
  }

  lemma TrackKeepsInv(s: State, y: ExecutionId)
    requires Inv(s)
    ensures Inv(Track(s, y))
  {
  }

  lemma TrackKeepsStrays(s: State, y: ExecutionId, x: ExecutionId)
    requires Inv(s)
    ensures Strays(Track(s, y), x) == Strays(s, x)
  {
    var s' := Track(s, y);
    if y !in s.waiting {
      forall t ensures t in Strays(s', x) <==> t in Strays(s, x) {
        assert t != s.next ==> (t in s'.timers <==> t in s.timers);
      }
    }
  }

  lemma TrackedTimers(s: State, y: ExecutionId, x: ExecutionId)
    requires s.next !in s.timers
    ensures TimersOf(Track(s, y), x) == if y == x && x !in s.waiting then TimersOf(s, x) + {s.next} else TimersOf(s, x)
  {
  }

  lemma {:induction false} TrackAllKeeps(s: State, ids: seq<ExecutionId>, x: ExecutionId)
    requires Inv(s)
    ensures var s' := TrackAll(s, ids);
      && Inv(s') && Strays(s', x) == Strays(s, x)
      && (x in s.waiting ==> x in s'.waiting && s'.waiting[x] == s.waiting[x] && TimersOf(s', x) == TimersOf(s, x))
      && (Dead(s', x) ==> Dead(s, x))
  {
    if ids != [] {
      TrackAllKeeps(s, ids[..|ids| - 1], x);
      var before, y := TrackAll(s, ids[..|ids| - 1]), ids[|ids| - 1];
      TrackKeepsInv(before, y);
      TrackKeepsStrays(before, y, x);
      TrackedTimers(before, y, x);
    }
  }

  /** A stray that fires makes a stray of the timer its execution was tracked with, in its own place. */
  lemma FireCounts(s: State, t: nat, x: ExecutionId)
    requires Inv(s) && t in s.timers
    ensures |Strays(Apply(s, Fire(t)), x)| <= |Strays(s, x)|
  {
    var s' := Apply(s, Fire(t));
    if s.timers[t] == x && x in s.waiting && s.waiting[x] != t {
      assert t in Strays(s, x);
      OneMore(Strays(s', x), Strays(s, x) - {t}, s.waiting[x]);
    } else {
      SubsetSize(Strays(s', x), Strays(s, x));
    }
  }

  lemma ApplyCounts(s: State, e: Event, x: ExecutionId)
    requires Inv(s) && Allowed(s, e)
    ensures Inv(Apply(s, e))
    ensures |Strays(Apply(s, e), x)| <= |Strays(s, x)| + if Orphans(s, e, x) then 1 else 0
  {
    match e
    case Polled(ids) =>
      assert Strays(s.(polls := s.polls - 1), x) == Strays(s, x);
      TrackAllKeeps(s.(polls := s.polls - 1), ids, x);
    case Fire(t) => FireCounts(s, t, x);
    case Start(y) =>
      if Orphans(s, e, x) {
        OneMore(Strays(Apply(s, e), x), Strays(s, x), s.waiting[x]);
      } else {
        SubsetSize(Strays(Apply(s, e), x), Strays(s, x));
      }
    case _ => SubsetSize(Strays(Apply(s, e), x), Strays(s, x));
  }

  function Orphanings(events: seq<Event>, x: ExecutionId): nat {
    if events == [] then 0
    else
      var before, e := events[..|events| - 1], events[|events| - 1];
      Orphanings(before, x) + if Orphans(Run(before), e, x) then 1 else 0
  }

  lemma {:induction false} RunCounts(events: seq<Event>, x: ExecutionId)
    ensures Inv(Run(events)) && |Strays(Run(events), x)| <= Orphanings(events, x)
  {
    if events == [] {
      assert Strays(EMPTY, x) == {};
    } else {
      var before, e := events[..|events| - 1], events[|events| - 1];
      RunCounts(before, x);
      if Allowed(Run(before), e) {
        ApplyCounts(Run(before), e, x);
      }
    }
  }

  /**
   * Over every run of polls, firings, starts, stops, takeovers and stepdowns, an execution has at most one
   * armed timer more than it was started by others while its own timer was armed.
   */
  lemma ArmedAtMostOncePlusOrphanings(events: seq<Event>, x: ExecutionId)
    ensures |TimersOf(Run(events), x)| <= 1 + Orphanings(events, x)
  {
    var s := Run(events);
    RunCounts(events, x);
    if x in s.waiting {
      OneMore(TimersOf(s, x), Strays(s, x), s.waiting[x]);
    } else {
      SubsetSize(TimersOf(s, x), Strays(s, x));
    }
  }

  predicate HasArmed(s: State, x: ExecutionId) {
    exists t :: t in s.timers && s.timers[t] == x
  }

  /** A poll finds an execution that has no entry and does have an armed timer. */
  predicate ArmsSecond(s: State, e: Event, x: ExecutionId) {
    e.Polled? && x in e.ids && x !in s.waiting && HasArmed(s, x)
  }

  lemma TrackArms(s: State, y: ExecutionId, x: ExecutionId)
    requires s.next !in s.timers
    ensures |TimersOf(Track(s, y), x)| == |TimersOf(s, x)| + if y == x && x !in s.waiting then 1 else 0
  {
    TrackedTimers(s, y, x);
    assert s.next !in TimersOf(s, x);
  }

  lemma {:induction false} TrackAllWaiting(s: State, ids: seq<ExecutionId>, x: ExecutionId)
    ensures x in TrackAll(s, ids).waiting <==> x in s.waiting || x in ids
  {
    if ids != [] {
      TrackAllWaiting(s, ids[..|ids| - 1], x);
      assert ids == ids[..|ids| - 1] + [ids[|ids| - 1]];
    }
  }

  lemma {:induction false} TrackAllArms(s: State, ids: seq<ExecutionId>, x: ExecutionId)
    requires Inv(s)
    ensures |TimersOf(TrackAll(s, ids), x)| == |TimersOf(s, x)| + if x in ids && x !in s.waiting then 1 else 0
  {
    if ids != [] {
      var earlier, y := ids[..|ids| - 1], ids[|ids| - 1];
      TrackAllArms(s, earlier, x);
      assert Inv(TrackAll(s, earlier)) by { TrackAllKeeps(s, earlier, x); }
      TrackAllWaiting(s, earlier, x);
      TrackArms(TrackAll(s, earlier), y, x);
      assert x in ids <==> x in earlier || x == y;
    }
  }

  /** An event gives an execution a second armed timer exactly when it is such a poll. */
  lemma ArmsSecondIff(s: State, e: Event, x: ExecutionId)
    requires Inv(s) && Allowed(s, e) && |TimersOf(s, x)| <= 1
    ensures |TimersOf(Apply(s, e), x)| > 1 <==> ArmsSecond(s, e, x)
  {
    if e.Polled? {
      var s1 := s.(polls := s.polls - 1);
      assert TimersOf(s1, x) == TimersOf(s, x);
      TrackAllArms(s1, e.ids, x);
      if HasArmed(s, x) {
        var t :| t in s.timers && s.timers[t] == x;
        assert t in TimersOf(s, x);
      } else {
        assert TimersOf(s, x) == {};
      }
    } else {
      SubsetSize(TimersOf(Apply(s, e), x), TimersOf(s, x));
    }
  }

  ghost predicate AtMostOneThroughout(events: seq<Event>, x: ExecutionId) {
    |TimersOf(Run(events), x)| <= 1 && (events == [] || AtMostOneThroughout(events[..|events| - 1], x))
  }

  predicate NeverArmsSecond(events: seq<Event>, x: ExecutionId) {
    events == []
    || (var before, e := events[..|events| - 1], events[|events| - 1];
        NeverArmsSecond(before, x) && !(Allowed(Run(before), e) && ArmsSecond(Run(before), e, x)))
  }

  /** An execution has at most one armed timer throughout a run if and only if no event of it is such a poll. */
  lemma {:induction false} AtMostOneThroughoutIff(events: seq<Event>, x: ExecutionId)
    ensures AtMostOneThroughout(events, x) <==> NeverArmsSecond(events, x)
  {
    if events == [] {
      assert TimersOf(EMPTY, x) == {};
    } else {
      var before, e := events[..|events| - 1], events[|events| - 1];
      AtMostOneThroughoutIff(before, x);
      RunCounts(before, x);
      if AtMostOneThroughout(before, x) && Allowed(Run(before), e) {
        ArmsSecondIff(Run(before), e, x);
      }
    }
  }

  /** Started by a child and then polled again, an execution that waits again has two armed timers. */
  lemma StartedByChildArmsTwo(x: ExecutionId)
    ensures TimersOf(Run([StartTracking, Polled([x]), Start(x), Tick, Polled([x])]), x) == {0, 1}
  {
    var e1 := [StartTracking];
    var e2 := [StartTracking, Polled([x])];
    var e3 := [StartTracking, Polled([x]), Start(x)];
    var e4 := [StartTracking, Polled([x]), Start(x), Tick];
    var e5 := [StartTracking, Polled([x]), Start(x), Tick, Polled([x])];
    assert e1[..0] == [] && e2[..1] == e1 && e3[..2] == e2 && e4[..3] == e3 && e5[..4] == e4;
    var s1 := State(map[], map[], 0, true, true, 1);
    TrackOne(s1.(polls := 0), x);
    var s2 := State(map[x := 0], map[0 := x], 1, true, true, 0);
    assert Run(e1) == s1 && Run(e2) == s2;
    var s3 := s2.(waiting := map[]);
    assert Apply(s2, Start(x)) == s3;
    TrackOne(s3, x);
    assert Run(e4) == s3.(polls := 1);
  }

  lemma TrackOne(s: State, x: ExecutionId)
    ensures TrackAll(s, [x]) == Track(s, x)
  {
    assert [x][..0] == [];
  }

  // What each event does.

  /** `y` is tracked, and has timers armed, as before. */
  ghost predicate SameFor(s: State, s': State, y: ExecutionId) {
    && (y in s'.waiting <==> y in s.waiting) && (y in s.waiting ==> s'.waiting[y] == s.waiting[y])
    && TimersOf(s', y) == TimersOf(s, y)
  }

  /** A stopped execution is not tracked, and of its timers only strays are armed; no other is concerned. */
  lemma StopOutcome(s: State, x: ExecutionId, y: ExecutionId)
    requires Inv(s)
    ensures var s' := Apply(s, Stop(x));
      x !in s'.waiting && TimersOf(s', x) == Strays(s, x) && (y != x ==> SameFor(s, s', y))
  {
  }

  /** Started by a child, it is not tracked either, but keeps every timer. */
  lemma StartOutcome(s: State, x: ExecutionId, y: ExecutionId)
    ensures var s' := Apply(s, Start(x));
      x !in s'.waiting && TimersOf(s', x) == TimersOf(s, x) && (y != x ==> SameFor(s, s', y))
  {
  }

  /** A timer that fires is gone, and its execution is not tracked any more. */
  lemma FireOutcome(s: State, t: nat, y: ExecutionId)
    requires t in s.timers
    ensures var (s', x) := (Apply(s, Fire(t)), s.timers[t]);
      x !in s'.waiting && TimersOf(s', x) == TimersOf(s, x) - {t} && (y != x ==> SameFor(s, s', y))
  {
  }

  /** A poll's answer tracks what it lists; what it newly tracks has its timer armed, the rest is as before. */
  lemma PolledOutcome(s: State, ids: seq<ExecutionId>, y: ExecutionId)
    requires Inv(s) && s.polls > 0
    ensures var s' := Apply(s, Polled(ids));
      && (y in s'.waiting <==> y in s.waiting || y in ids)
      && (y in ids && y !in s.waiting ==> s'.waiting[y] in s'.timers && s'.timers[s'.waiting[y]] == y)
      && (y in s.waiting || y !in ids ==> SameFor(s, s', y))
  {
    var s1 := s.(polls := s.polls - 1);
    TrackAllWaiting(s1, ids, y);
    TrackAllOne(s1, ids, y);
  }

  lemma {:induction false} TrackAllOne(s: State, ids: seq<ExecutionId>, y: ExecutionId)
    requires Inv(s)
    ensures var s' := TrackAll(s, ids);
      && (y in s.waiting || y !in ids ==> SameFor(s, s', y))
      && (y in ids && y !in s.waiting ==>
            y in s'.waiting && s'.waiting[y] in s'.timers && s'.timers[s'.waiting[y]] == y)
  {
    if ids != [] {
      var earlier, x := ids[..|ids| - 1], ids[|ids| - 1];
      var before := TrackAll(s, earlier);
      TrackAllOne(s, earlier, y);
      TrackAllWaiting(s, earlier, y);
      assert Inv(before) by { TrackAllKeeps(s, earlier, y); }
      TrackedTimers(before, x, y);
      assert y in ids <==> y in earlier || y == x;
    }
  }

  /** When tracking stops, entries stay and strays are all that is left armed. */
  lemma StopTrackingOutcome(s: State, y: ExecutionId)
    requires Inv(s)
    ensures s.everTracked ==>
      var s' := Apply(s, StopTracking);
      !s'.polling && s'.waiting == s.waiting && TimersOf(s', y) == Strays(s, y)
    ensures !s.everTracked ==> Apply(s, StopTracking) == s
  {
    if s.everTracked {
      var s' := Apply(s, StopTracking);
      forall t ensures t in TimersOf(s', y) <==> t in Strays(s, y) {
        if t in s.timers && s.timers[t] == y && t in s.waiting.Values {
          var x :| x in s.waiting && s.waiting[x] == t;
          assert x == y;
        }
      }
    }
  }

  /** After any run that ends in a stop of it, an execution has at most as many timers as orphanings. */
  lemma StoppedHasOnlyStrays(events: seq<Event>, x: ExecutionId)
    ensures |TimersOf(Run(events + [Stop(x)]), x)| <= Orphanings(events, x)
  {
    assert (events + [Stop(x)])[..|events|] == events;
    RunCounts(events, x);
    StopOutcome(Run(events), x, x);
  }

  // Tracking that stops.

  /** Entries lose their timers only when tracking stops. */
  lemma {:induction false} DeadOnlyAfterStop(events: seq<Event>, x: ExecutionId)
    requires StopTracking !in events
    ensures Inv(Run(events)) && !Dead(Run(events), x)
  {
    if events != [] {
      var before, e := events[..|events| - 1], events[|events| - 1];
      assert e in events;
      DeadOnlyAfterStop(before, x);
      RunCounts(events, x);
      if e.Polled? && Allowed(Run(before), e) {
        TrackAllKeeps(Run(before).(polls := Run(before).polls - 1), e.ids, x);
      }
    }
  }

  /** Stopping leaves every tracked execution dead, still tracked. */
  lemma StopLeavesDead(s: State, x: ExecutionId)
    requires s.everTracked && x in s.waiting
    ensures Dead(Apply(s, StopTracking), x)
  {
  }

  function After(s: State, events: seq<Event>): State
    decreases |events|
  {
    if events == [] then s else After(if Allowed(s, events[0]) then Apply(s, events[0]) else s, events[1..])
  }

  /** The event is for `x`: its start, its stop, or the firing of a timer of its. */
  predicate Concerns(s: State, e: Event, x: ExecutionId) {
    e == Start(x) || e == Stop(x) || (e.Fire? && e.timer in s.timers && s.timers[e.timer] == x)
  }

  ghost predicate LeftAlone(s: State, events: seq<Event>, x: ExecutionId)
    decreases |events|
  {
    events == []
    || (!Concerns(s, events[0], x)
        && LeftAlone(if Allowed(s, events[0]) then Apply(s, events[0]) else s, events[1..], x))
  }

  lemma DeadStep(s: State, e: Event, x: ExecutionId)
    requires Inv(s) && Dead(s, x) && Allowed(s, e) && !Concerns(s, e, x)
    ensures Dead(Apply(s, e), x) && TimersOf(Apply(s, e), x) <= TimersOf(s, x)
  {
    if e.Polled? {
      var s1 := s.(polls := s.polls - 1);
      TrackAllKeeps(s1, e.ids, x);
      DeadStaysUnarmed(s1, e.ids, x);
      assert TimersOf(s1, x) == TimersOf(s, x);
    }
  }

  lemma {:induction false} DeadStaysUnarmed(s: State, ids: seq<ExecutionId>, x: ExecutionId)
    requires Inv(s) && Dead(s, x)
    ensures Dead(TrackAll(s, ids), x)
  {
    if ids != [] {
      TrackAllKeeps(s, ids[..|ids| - 1], x);
      DeadStaysUnarmed(s, ids[..|ids| - 1], x);
    }
  }

  /** A stop of tracking alone leaves a tracked execution without a timer, until something concerns it. */
  lemma DeadIff(s: State, e: Event, x: ExecutionId)
    requires Inv(s) && Allowed(s, e)
    ensures Dead(Apply(s, e), x)
       <==> (e.StopTracking? && s.everTracked && x in s.waiting) || (Dead(s, x) && !Concerns(s, e, x))
  {
    if e.Polled? {
      TrackAllKeeps(s.(polls := s.polls - 1), e.ids, x);
    }
    if Dead(s, x) && !Concerns(s, e, x) {
      DeadStep(s, e, x);
    }
  }

  /**
   * A tracked execution whose timer was cleared by a stepdown is never armed again, through any number of
   * takeovers and polls, until something else starts or stops it.
   */
  lemma {:induction false} DeadIsNeverRearmed(s: State, events: seq<Event>, x: ExecutionId)
    requires Inv(s) && Dead(s, x) && LeftAlone(s, events, x)
    ensures Dead(After(s, events), x) && TimersOf(After(s, events), x) <= TimersOf(s, x)
    decreases |events|
  {
    if events != [] {
      var s' := if Allowed(s, events[0]) then Apply(s, events[0]) else s;
      if Allowed(s, events[0]) {
        DeadStep(s, events[0], x);
        ApplyCounts(s, events[0], x);
      }
      DeadIsNeverRearmed(s', events[1..], x);
    }
  }

  /** A stepdown, a takeover and a poll that finds it again: a waiting execution without any timer. */
  lemma StepdownLosesTimer(x: ExecutionId)
    ensures var s := Run([StartTracking, Polled([x]), StopTracking, StartTracking, Polled([x])]);
      s.polling && Dead(s, x) && TimersOf(s, x) == {}
  {
    var e1 := [StartTracking];
    var e2 := [StartTracking, Polled([x])];
    var e3 := [StartTracking, Polled([x]), StopTracking];
    var e4 := [StartTracking, Polled([x]), StopTracking, StartTracking];
    var e5 := [StartTracking, Polled([x]), StopTracking, StartTracking, Polled([x])];
    assert e1[..0] == [] && e2[..1] == e1 && e3[..2] == e2 && e4[..3] == e3 && e5[..4] == e4;
    var s1 := State(map[], map[], 0, true, true, 1);
    TrackOne(s1.(polls := 0), x);
    var s2 := State(map[x := 0], map[0 := x], 1, true, true, 0);
    assert Run(e1) == s1 && Run(e2) == s2;
    var s3 := State(map[x := 0], map[], 1, true, false, 0);
    assert Apply(s2, StopTracking) == s3;
    TrackOne(s3.(polling := true), x);
    assert Run(e4) == s3.(polling := true, polls := 1);
  }

  class Tracker {
    var waitingExecutions: map<ExecutionId, nat>
    var mainTimer: bool
    /** The event loop's: armed timers, the next handle, whether the interval runs, answers awaited. */
    var timers: map<nat, ExecutionId>
    var next: nat
    var polling: bool
    var polls: nat

    ghost function View(): State
      reads this
    {
      State(waitingExecutions, timers, next, mainTimer, polling, polls)
    }

    constructor ()
      ensures View() == EMPTY
    {
      waitingExecutions, timers, next, mainTimer, polling, polls := map[], map[], 0, false, false, 0;
    }

    method StartTrackingNow()
      modifies this
      ensures View() == Apply(old(View()), StartTracking)
    {
      mainTimer, polling := true, true;
      polls := polls + 1;
    }

    /** The rest of `getWaitingExecutions`, once the database has answered. */
    method SetTimers(executions: seq<ExecutionId>)
      requires polls > 0
      modifies this
      ensures View() == Apply(old(View()), Polled(executions))
    {
      polls := polls - 1;
      ghost var before := View();
      for i := 0 to |executions|
        invariant View() == TrackAll(before, executions[..i])
      {
        assert executions[..i + 1][..i] == executions[..i];
        var executionId := executions[i];
        if executionId !in waitingExecutions {
          waitingExecutions := waitingExecutions[executionId := next];
          timers := timers[next := executionId];
          next := next + 1;
        }
      }
      assert executions[..|executions|] == executions;
    }

    method StopExecution(executionId: ExecutionId)
      modifies this
      ensures View() == Apply(old(View()), Stop(executionId))
    {
      if executionId !in waitingExecutions { return; }
      timers := timers - {waitingExecutions[executionId]};
      waitingExecutions := waitingExecutions - {executionId};
    }

    /** `startExecution` up to its first await. */
    method StartExecution(executionId: ExecutionId)
      modifies this
      ensures View() == Apply(old(View()), Start(executionId))
    {
      waitingExecutions := waitingExecutions - {executionId};
    }

    /** Clears the interval and the timer of each tracked execution, and keeps the entries. */
    method StopTrackingNow()
      modifies this
      ensures View() == Apply(old(View()), StopTracking)
    {
      if !mainTimer { return; }
      polling := false;
      var rest := waitingExecutions.Keys;
      ghost var before := timers;
      while rest != {}
        invariant rest <= waitingExecutions.Keys
        invariant View() == old(View()).(polling := false, timers := timers)
        invariant forall t :: t in timers ==> t in before && timers[t] == before[t]
        invariant forall t :: t in before ==>
          (t in timers <==> forall x :: x in waitingExecutions && x !in rest ==> waitingExecutions[x] != t)
      {
        var executionId :| executionId in rest;
        timers := timers - {waitingExecutions[executionId]};
        rest := rest - {executionId};
      }
      assert timers == map t | t in before && t !in waitingExecutions.Values :: before[t];
    }
  }
}
