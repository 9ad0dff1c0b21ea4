/**
 * Execution timeouts: the deadline nested sub-workflows inherit, and the hard stop of an execution that
 * waits and resumes. Instants are epoch milliseconds, limits are seconds.
 */
module Deadlines {
  import opened Wrappers
  import opened Integers

  const MAX_SAFE_INTEGER := 9007199254740991

  /** A sub-workflow: when it starts and the limit in its settings. */
  datatype Level = Level(start: int, limit: Option<int>)

  predicate Limits(l: Level) {
    l.limit.Some? && l.limit.value > 0
  }

  /** What the level sets for itself. */
  function Instant(l: Level): int
    requires Limits(l)
  {
    l.start + l.limit.value * 1000
  }

  /** A deadline of 0 reads as none. */
  function OrNone(parent: Option<int>): int {
    if parent.None? || parent.value == 0 then MAX_SAFE_INTEGER else parent.value
  }

  function Child(parent: Option<int>, l: Level): Option<int> {
    if Limits(l) then Some(Min(OrNone(parent), Instant(l))) else parent
  }

  /** The deadline of the innermost of a chain of sub-workflows, outermost first. */
  function Nested(root: Option<int>, chain: seq<Level>): Option<int> {
    if chain == [] then root else Child(Nested(root, chain[..|chain| - 1]), chain[|chain| - 1])
  }

  method SubworkflowTimeout(parent: Option<int>, l: Level) returns (subworkflowTimeout: Option<int>)
    ensures subworkflowTimeout == Child(parent, l)
  {
    subworkflowTimeout := parent;
    if l.limit.Some? && l.limit.value > 0 {
      var inherited := if parent.None? || parent.value == 0 then MAX_SAFE_INTEGER else parent.value;
      subworkflowTimeout := Some(Min(inherited, l.start + l.limit.value * 1000));
    }
  }

  /** Every deadline set along the chain, the root's first. */
  function AllSet(root: Option<int>, chain: seq<Level>): seq<int> {
    if chain == [] then (if root.Some? then [root.value] else [])
    else AllSet(root, chain[..|chain| - 1]) + if Limits(chain[|chain| - 1]) then [Instant(chain[|chain| - 1])] else []
  }

  /** `m` is the least of `xs`. */
  predicate IsLeast(m: int, xs: seq<int>) {
    m in xs && forall x :: x in xs ==> m <= x
  }

  predicate Ordinary(xs: seq<int>) {
    forall x :: x in xs ==> 0 < x <= MAX_SAFE_INTEGER
  }

  /** At any depth the deadline is the least of all those set along the chain, and there is none where none is set. */
  lemma {:induction false} DeadlineIsLeast(root: Option<int>, chain: seq<Level>)
    requires Ordinary(AllSet(root, chain))
    ensures Nested(root, chain).None? <==> AllSet(root, chain) == []
    ensures Nested(root, chain).Some? ==> IsLeast(Nested(root, chain).value, AllSet(root, chain))
  {
    if chain != [] {
      var before, l := chain[..|chain| - 1], chain[|chain| - 1];
      var outer, all := AllSet(root, before), AllSet(root, chain);
      assert forall x :: x in outer ==> x in all;
      DeadlineIsLeast(root, before);
      if Limits(l) {
        assert all == outer + [Instant(l)] && Instant(l) in all;
      }
    }
  }

  /**
   * One level: without a limit of its own the parent's deadline, be there one or none; with one the
   * earlier of the two, where a parent's deadline of 0 is none, and never beyond the safe integers.
   */
  lemma OneLevel(parent: Option<int>, l: Level)
    ensures (l.limit.None? || l.limit.value <= 0) ==> Child(parent, l) == parent
    ensures l.limit.Some? && l.limit.value > 0 ==>
      var outer := if parent in {None, Some(0)} then 9007199254740991 else parent.value;
      Child(parent, l).Some? && IsLeast(Child(parent, l).value, [outer, l.start + 1000 * l.limit.value])
  {
    if l.limit.Some? && l.limit.value > 0 {
      var outer, own := if parent in {None, Some(0)} then 9007199254740991 else parent.value, Instant(l);
      assert [outer, own][0] == outer && [outer, own][1] == own;
    }
  }

  lemma {:induction false} AllSetGrows(root: Option<int>, chain: seq<Level>, k: nat)
    requires k <= |chain|
    ensures forall x :: x in AllSet(root, chain[..k]) ==> x in AllSet(root, chain)
  {
    if k < |chain| {
      AllSetGrows(root, chain[..|chain| - 1], k);
      assert chain[..|chain| - 1][..k] == chain[..k];
    } else {
      assert chain[..k] == chain;
    }
  }

  /** No sub-workflow outlives the deadline of one it is nested in. */
  lemma ChildNeverOutlivesAncestor(root: Option<int>, chain: seq<Level>, k: nat)
    requires Ordinary(AllSet(root, chain)) && k <= |chain| && Nested(root, chain[..k]).Some?
    ensures Nested(root, chain).Some? && Nested(root, chain).value <= Nested(root, chain[..k]).value
  {
    AllSetGrows(root, chain, k);
    DeadlineIsLeast(root, chain[..k]);
    DeadlineIsLeast(root, chain);
  }

  // One execution, run once and resumed any number of times.

  /** The timeout in force, in seconds; none where it is not positive. */
  function WorkflowTimeout(setting: Option<int>, default: int, maxTimeout: int): int {
    var t := if setting.Some? then setting.value else default;
    if t > 0 then Min(t, maxTimeout) else t
  }

  /** The instants at which a run stops after its current node, and is stopped outright. */
  datatype Stops = Stops(soft: Option<int>, hard: Option<int>)

  /** The first clock is read before the run is prepared, the second when its timer is set. */
  function Schedule(
    setting: Option<int>, default: int, maxTimeout: int, prepared: int, armed: int, startedAt: Option<int>): Stops
  {
    var t := WorkflowTimeout(setting, default, maxTimeout);
    if t <= 0 then Stops(None, None)
    else
      var hard := if startedAt.Some? then Max(armed, startedAt.value + t * 1000) else armed + t * 1000;
      Stops(Some(prepared + t * 1000), Some(hard))
  }

  /**
   * What is in force lasts as long as the setting, or the default where there is none, or the maximum,
   * whichever is less; measured from the preparation for the soft stop and, for the hard one, from the
   * start time where one is carried, though never before the timer is set.
   */
  lemma LeastOfLimitAndMaximum(
    setting: Option<int>, default: int, maxTimeout: int, prepared: int, armed: int, startedAt: Option<int>)
    ensures var stops := Schedule(setting, default, maxTimeout, prepared, armed, startedAt);
      var limit := if setting.Some? then setting.value else default;
      && (stops.soft.Some? <==> limit > 0 && maxTimeout > 0) && (stops.hard.Some? <==> stops.soft.Some?)
      && (stops.soft.Some? ==>
            var lasts := stops.soft.value - prepared;
            && IsLeast(lasts, [limit * 1000, maxTimeout * 1000])
            && (startedAt.None? ==> stops.hard.value == armed + lasts)
            && (startedAt.Some? ==> armed <= stops.hard.value
                                    && stops.hard.value == Max(armed, startedAt.value + lasts)))
  {
    var limit := if setting.Some? then setting.value else default;
    var ends := [limit * 1000, maxTimeout * 1000];
    assert ends[0] in ends && ends[1] in ends;
  }

  /** As `runMainProcess` arrives at it; a stop with no time left is made at once. */
  method ScheduleTimeout(
    setting: Option<int>, default: int, maxTimeout: int, prepared: int, armed: int, startedAt: Option<int>)
    returns (stops: Stops)
    ensures stops == Schedule(setting, default, maxTimeout, prepared, armed, startedAt)
  {
    var workflowTimeout := if setting.Some? then setting.value else default;
    if workflowTimeout > 0 {
      workflowTimeout := Min(workflowTimeout, maxTimeout);
    }
    stops := Stops(if workflowTimeout <= 0 then None else Some(prepared + workflowTimeout * 1000), None);
    if workflowTimeout > 0 {
      var timeout := Min(workflowTimeout, maxTimeout) * 1000;
      if startedAt.Some? {
        timeout := Max(timeout - (armed - startedAt.value), 0);
      }
      stops := stops.(hard := Some(armed + timeout));
    }
  }

  /**
   * A run of the execution. In between the two clock readings the row gets a new start time. A resume
   * by a timer or a child carries the start time it has read from the row, one by a webhook does not.
   */
  datatype Run = Run(prepared: int, started: int, armed: int, carries: bool)

  predicate InOrder(runs: seq<Run>) {
    && (forall i :: 0 <= i < |runs| ==> runs[i].prepared <= runs[i].started <= runs[i].armed)
    && (forall i :: 0 < i < |runs| ==> runs[i - 1].armed <= runs[i].prepared)
  }

  function StopsOf(setting: Option<int>, default: int, maxTimeout: int, runs: seq<Run>, k: nat): Stops
    requires k < |runs|
  {
    var carried := if k > 0 && runs[k].carries then Some(runs[k - 1].started) else None;
    Schedule(setting, default, maxTimeout, runs[k].prepared, runs[k].armed, carried)
  }

  /**
   * A resume that carries a start time is stopped when the timeout has passed since the start of the
   * run before it, or at once. It lies at or before the soft stop unless preparing the run took longer
   * than the timeout.
   */
  lemma CarriedHardStop(setting: Option<int>, default: int, maxTimeout: int, runs: seq<Run>, k: nat)
    requires 0 < k < |runs| && InOrder(runs) && runs[k].carries && WorkflowTimeout(setting, default, maxTimeout) > 0
    ensures var t := WorkflowTimeout(setting, default, maxTimeout) * 1000;
      var stops := StopsOf(setting, default, maxTimeout, runs, k);
      && stops.hard == Some(Max(runs[k].armed, runs[k - 1].started + t)) && stops.soft == Some(runs[k].prepared + t)
      && (stops.hard.value <= stops.soft.value <==> runs[k].armed - runs[k].prepared <= t)
  {
    assert runs[k - 1].armed <= runs[k].prepared;
  }

  /**
   * A resume moves the hard stop past both the present and the stop of the run before, if it carries a
   * start time, exactly when the run before carried one too, and started after the run before that, and
   * its timeout has not passed: each run gives the row a new start time. The first resume never does.
   */
  lemma CarryingResumeMovesHardStopIff(
    setting: Option<int>, default: int, maxTimeout: int, runs: seq<Run>, k: nat)
    requires 0 < k < |runs| && InOrder(runs) && runs[k].carries && WorkflowTimeout(setting, default, maxTimeout) > 0
    ensures MovesHardStop(setting, default, maxTimeout, runs, k) <==>
      && k > 1 && runs[k - 1].carries
      && runs[k].armed < runs[k - 1].started + WorkflowTimeout(setting, default, maxTimeout) * 1000
      && runs[k - 2].started < runs[k - 1].started
  {
    assert runs[k - 1].armed <= runs[k].prepared && (k > 1 ==> runs[k - 2].armed <= runs[k - 1].prepared);
  }

  /** The first resume never moves the hard stop later, if it carries a start time. */
  lemma FirstResumeKeepsHardStop(setting: Option<int>, default: int, maxTimeout: int, runs: seq<Run>)
    requires |runs| > 1 && InOrder(runs) && runs[1].carries && WorkflowTimeout(setting, default, maxTimeout) > 0
    ensures var first, second :=
        StopsOf(setting, default, maxTimeout, runs, 0), StopsOf(setting, default, maxTimeout, runs, 1);
      first.hard.Some? && second.hard.Some? && second.hard.value <= Max(runs[1].armed, first.hard.value)
  {
    CarryingResumeMovesHardStopIff(setting, default, maxTimeout, runs, 1);
  }

  /** If it carries none, it does so as soon as any time has passed at all. */
  lemma FreshResumeMovesHardStopIff(setting: Option<int>, default: int, maxTimeout: int, runs: seq<Run>, k: nat)
    requires 0 < k < |runs| && InOrder(runs) && !runs[k].carries && WorkflowTimeout(setting, default, maxTimeout) > 0
    ensures MovesHardStop(setting, default, maxTimeout, runs, k) <==>
      || runs[k - 1].armed < runs[k].armed
      || (k > 1 && runs[k - 1].carries && runs[k - 2].started < runs[k].armed)
  {
    assert runs[k - 1].armed <= runs[k].prepared && (k > 1 ==> runs[k - 2].armed <= runs[k - 1].prepared);
  }

  /** Run `k` is stopped later than the run before it, and not just because it comes later. */
  predicate MovesHardStop(setting: Option<int>, default: int, maxTimeout: int, runs: seq<Run>, k: nat)
    requires 0 < k < |runs|
  {
    var before, now :=
      StopsOf(setting, default, maxTimeout, runs, k - 1), StopsOf(setting, default, maxTimeout, runs, k);
    before.hard.Some? && now.hard.Some? && now.hard.value > Max(runs[k].armed, before.hard.value)
  }

  /** With ten seconds, a start, and resumes after five and six: to be stopped at ten, at ten, at fifteen. */
  lemma SecondResumeMovesHardStop()
    ensures var runs := [Run(0, 0, 0, false), Run(5000, 5000, 5000, true), Run(6000, 6000, 6000, true)];
      && InOrder(runs)
      && StopsOf(Some(10), -1, 3600, runs, 0).hard == Some(10_000)
      && StopsOf(Some(10), -1, 3600, runs, 1).hard == Some(10_000)
      && StopsOf(Some(10), -1, 3600, runs, 2).hard == Some(15_000)
  {
  }

  /** Timeouts are in force exactly when both the limit and the configured maximum are positive. */
  lemma TimeoutInForceIff(
    setting: Option<int>, default: int, maxTimeout: int, prepared: int, armed: int, startedAt: Option<int>)
    ensures Schedule(setting, default, maxTimeout, prepared, armed, startedAt).hard.Some?
       <==> maxTimeout > 0 && (if setting.Some? then setting.value > 0 else default > 0)
  {
  }

  /**
   * However deep the nesting and however often the main execution has been resumed, its sub-workflows
   * have no deadline after its soft stop.
   */
  lemma NestedWithinSoftStop(
    setting: Option<int>, default: int, maxTimeout: int, runs: seq<Run>, k: nat, chain: seq<Level>)
    requires k < |runs| && WorkflowTimeout(setting, default, maxTimeout) > 0
    requires Ordinary(AllSet(StopsOf(setting, default, maxTimeout, runs, k).soft, chain))
    ensures var soft := StopsOf(setting, default, maxTimeout, runs, k).soft;
      soft.Some? && Nested(soft, chain).Some? && Nested(soft, chain).value <= soft.value
  {
    var soft := StopsOf(setting, default, maxTimeout, runs, k).soft;
    assert chain[..0] == [] && Nested(soft, chain[..0]) == soft;
    ChildNeverOutlivesAncestor(soft, chain, 0);
  }
}
