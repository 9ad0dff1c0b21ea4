/**
 * The scaling engine of the SLVSS loop: streaks over the recent history, growth, decay, boost.
 */
module ScalingEngine {
  import opened FixedPoint

  datatype Status = Running | Passed | Failed | Scaled

  /** The maximum, like every scale here, is in units of 0.0001: what four decimals can tell apart. */
  datatype Policy = Policy(
    growthFactor: real, maxScale: real, minPassStreak: nat, decayOnFailure: bool, decayFactor: real)

  /** The policy `SLVSSRunner` constructs. */
  const LOOP_POLICY := Policy(1.25, 10_240_000.0, 2, true, 0.9)

  const ONE := 10_000

  datatype Engine = Engine(scale: int, passStreak: nat, failStreak: nat)

  const FRESH := Engine(ONE, 0, 0)

  predicate Passing(s: Status) {
    s == Passed || s == Scaled
  }

  predicate Failing(s: Status) {
    s == Failed
  }

  /** How many of the most recent entries satisfy `p` without interruption. */
  function RecentRun(window: seq<Status>, p: Status -> bool): (n: nat)
    ensures n <= |window|
  {
    if window == [] || !p(window[|window| - 1]) then 0 else 1 + RecentRun(window[..|window| - 1], p)
  }

  /** The last ten entries, or all where there are fewer. */
  function Window(history: seq<Status>): seq<Status> {
    if |history| <= 10 then history else history[|history| - 10..]
  }

  function WithStreaks(e: Engine, history: seq<Status>): Engine {
    if history == [] then e
    else e.(passStreak := RecentRun(Window(history), Passing), failStreak := RecentRun(Window(history), Failing))
  }

  /** Rounded, and at most the maximum. */
  function Capped(policy: Policy, x: real): int {
    Nearest(Min(x, policy.maxScale))
  }

  function Grown(policy: Policy, scale: int): int {
    Capped(policy, scale as real * policy.growthFactor)
  }

  function Decayed(policy: Policy, scale: int): int {
    Nearest(Max(scale as real * policy.decayFactor, ONE as real))
  }

  function Boosted(policy: Policy, scale: int): int {
    Capped(policy, scale as real * 1.5)
  }

  /** `scale(input)`: the engine afterwards, and whether it scaled. */
  function ScaleStep(policy: Policy, e: Engine, score: real, iteration: int, history: seq<Status>): (Engine, bool) {
    var e := WithStreaks(e, history);
    if e.passStreak >= policy.minPassStreak && score >= 0.85 && e.scale as real < policy.maxScale then
      (e.(scale := Grown(policy, e.scale), passStreak := 0), true)
    else if policy.decayOnFailure && e.failStreak >= 3 && e.scale > ONE then
      (e.(scale := Decayed(policy, e.scale), failStreak := 0), true)
    else if iteration > 0 && iteration % 10 == 0 && score >= 0.95 then
      (e.(scale := Boosted(policy, e.scale)), true)
    else (e, false)
  }

  /** Growth does not shrink, decay does not grow, and the maximum `m` survives rounding. */
  predicate Sane(policy: Policy, m: int) {
    policy.growthFactor >= 1.0 && 0.0 < policy.decayFactor <= 1.0 && policy.maxScale == m as real && m >= ONE
  }

  lemma GrowsOrStays(s: real, g: real)
    requires s >= 0.0 && g >= 1.0
    ensures s * g >= s
  {
    assert s * (g - 1.0) >= 0.0;
  }

  lemma GrownWithin(policy: Policy, m: int, scale: int)
    requires Sane(policy, m) && ONE <= scale
    ensures ONE <= Grown(policy, scale) <= m
  {
    GrowsOrStays(scale as real, policy.growthFactor);
    NearestBetween(ONE, m, Min(scale as real * policy.growthFactor, policy.maxScale));
  }

  lemma DecayedWithin(policy: Policy, m: int, scale: int)
    requires Sane(policy, m) && ONE <= scale <= m
    ensures ONE <= Decayed(policy, scale) <= m
  {
    ProductBounds(scale as real, policy.decayFactor);
    NearestBetween(ONE, m, Max(scale as real * policy.decayFactor, ONE as real));
  }

  /** Scale stays between 1 and the maximum, whatever it is fed. */
  lemma ScaleStaysBounded(policy: Policy, m: int, e: Engine, score: real, iteration: int, history: seq<Status>)
    requires Sane(policy, m) && ONE <= e.scale <= m
    ensures ONE <= ScaleStep(policy, e, score, iteration, history).0.scale <= m
  {
    GrownWithin(policy, m, e.scale);
    DecayedWithin(policy, m, e.scale);
    NearestBetween(ONE, m, Min(e.scale as real * 1.5, policy.maxScale));
  }

  datatype Input = Input(score: real, iteration: int, history: seq<Status>)

  function ScaleAll(policy: Policy, e: Engine, inputs: seq<Input>): Engine
    decreases |inputs|
  {
    if inputs == [] then e
    else
      var i := inputs[0];
      ScaleAll(policy, ScaleStep(policy, e, i.score, i.iteration, i.history).0, inputs[1..])
  }

  /** Over any call sequence. */
  lemma {:induction false} ScaleBoundedOverRuns(policy: Policy, m: int, e: Engine, inputs: seq<Input>)
    requires Sane(policy, m) && ONE <= e.scale <= m
    ensures ONE <= ScaleAll(policy, e, inputs).scale <= m
    decreases |inputs|
  {
    if inputs != [] {
      var i := inputs[0];
      ScaleStaysBounded(policy, m, e, i.score, i.iteration, i.history);
      ScaleBoundedOverRuns(policy, m, ScaleStep(policy, e, i.score, i.iteration, i.history).0, inputs[1..]);
    }
  }

  /** With history, what the engine does depends on the last ten entries of it and on no earlier streak. */
  lemma OnlyRecentHistoryCounts(
    policy: Policy, e: Engine, e': Engine, score: real, iteration: int, history: seq<Status>, history': seq<Status>)
    requires history != [] && history' != [] && Window(history) == Window(history') && e.scale == e'.scale
    ensures ScaleStep(policy, e, score, iteration, history) == ScaleStep(policy, e', score, iteration, history')
  {
    assert WithStreaks(e, history) == WithStreaks(e', history');
  }

  // What the history decides, read off its last entries.

  /** There are `k` last entries, and all of them passed. */
  ghost predicate LastPassed(history: seq<Status>, k: nat) {
    k <= |history| && forall i :: |history| - k <= i < |history| ==> history[i] in {Passed, Scaled}
  }

  ghost predicate LastFailed(history: seq<Status>, k: nat) {
    k <= |history| && forall i :: |history| - k <= i < |history| ==> history[i] == Failed
  }

  lemma {:induction false} RecentRunIff(window: seq<Status>, p: Status -> bool, k: nat)
    ensures k <= RecentRun(window, p)
       <==> k <= |window| && forall i :: |window| - k <= i < |window| ==> p(window[i])
  {
    if k > 0 && window != [] {
      var before := window[..|window| - 1];
      assert forall i :: 0 <= i < |before| ==> window[i] == before[i];
      RecentRunIff(before, p, k - 1);
      if k <= |window| && forall i :: |window| - k <= i < |window| ==> p(window[i]) {
        assert p(window[|window| - 1]);
      }
    }
  }

  /** A streak counts the last entries of its kind, ten at most. */
  lemma StreaksCount(e: Engine, history: seq<Status>, k: nat)
    requires history != []
    ensures k <= WithStreaks(e, history).passStreak <==> k <= 10 && LastPassed(history, k)
    ensures k <= WithStreaks(e, history).failStreak <==> k <= 10 && LastFailed(history, k)
  {
    var window := Window(history);
    assert forall i :: 0 <= i < |window| ==> window[i] == history[|history| - |window| + i];
    assert forall i :: |history| - |window| <= i < |history| ==> history[i] == window[i - (|history| - |window|)];
    RecentRunIff(window, Passing, k);
    RecentRunIff(window, Failing, k);
  }

  ghost predicate Grows(policy: Policy, scale: int, score: real, history: seq<Status>) {
    && policy.minPassStreak <= 10 && LastPassed(history, policy.minPassStreak)
    && score >= 0.85 && scale as real < policy.maxScale
  }

  ghost predicate Decays(policy: Policy, scale: int, history: seq<Status>) {
    policy.decayOnFailure && LastFailed(history, 3) && scale > ONE
  }

  predicate Boosts(score: real, iteration: int) {
    iteration > 0 && iteration % 10 == 0 && score >= 0.95
  }

  /**
   * With history: enough passes last and a score of 0.85 below the maximum grow the scale; else three
   * failures last make it decay; else every tenth iteration with 0.95 boosts it; else it stays.
   */
  lemma HistoryDecides(policy: Policy, e: Engine, score: real, iteration: int, history: seq<Status>)
    requires history != []
    ensures var (e', scaled) := ScaleStep(policy, e, score, iteration, history);
      var grows, decays := Grows(policy, e.scale, score, history), Decays(policy, e.scale, history);
      && (scaled <==> grows || decays || Boosts(score, iteration))
      && e'.scale == (if grows then Grown(policy, e.scale) else if decays then Decayed(policy, e.scale)
                      else if Boosts(score, iteration) then Boosted(policy, e.scale) else e.scale)
      && (e'.passStreak > 0 <==> !grows && LastPassed(history, 1))
      && (e'.failStreak > 0 <==> (grows || !decays) && LastFailed(history, 1))
  {
    StreaksCount(e, history, policy.minPassStreak);
    StreaksCount(e, history, 3);
    StreaksCount(e, history, 1);
  }

  /** Without history the streaks of before count. */
  lemma WithoutHistory(policy: Policy, e: Engine, score: real, iteration: int)
    requires e.passStreak < policy.minPassStreak && e.failStreak < 3
    ensures ScaleStep(policy, e, score, iteration, []).1 <==> Boosts(score, iteration)
    ensures !Boosts(score, iteration) ==> ScaleStep(policy, e, score, iteration, []).0 == e
  {
  }

  /** `n` is `x` rounded, kept between 10000 and 10240000. */
  predicate IsUnits(n: int, x: real) {
    n == if x < 10_000.0 then 10_000 else if x > 10_240_000.0 then 10_240_000 else (x + 0.5).Floor
  }

  /** In the loop two passes make a quarter more, three failures a tenth less, a boost half more; from 1 to 1024. */
  lemma LoopScales(e: Engine, score: real, iteration: int, history: seq<Status>)
    requires history != [] && 10_000 <= e.scale <= 10_240_000
    ensures var (e', scaled) := ScaleStep(LOOP_POLICY, e, score, iteration, history);
      if LastPassed(history, 2) && score >= 0.85 && e.scale < 10_240_000 then
        scaled && IsUnits(e'.scale, e.scale as real * 1.25)
      else if LastFailed(history, 3) && e.scale > 10_000 then scaled && IsUnits(e'.scale, e.scale as real * 0.9)
      else if Boosts(score, iteration) then scaled && IsUnits(e'.scale, e.scale as real * 1.5)
      else !scaled && e'.scale == e.scale
  {
    HistoryDecides(LOOP_POLICY, e, score, iteration, history);
  }

  class ScalingEngineService {
    const policy: Policy
    var currentScale: int
    var passStreak: nat
    var failStreak: nat

    ghost function View(): Engine
      reads this
    {
      Engine(currentScale, passStreak, failStreak)
    }

    constructor (policy: Policy)
      ensures this.policy == policy && View() == FRESH
    {
      this.policy := policy;
      currentScale, passStreak, failStreak := ONE, 0, 0;
    }

    method Scale(score: real, iteration: int, history: seq<Status>) returns (scaled: bool)
      modifies this
      ensures View() == ScaleStep(policy, old(View()), score, iteration, history).0
      ensures scaled == ScaleStep(policy, old(View()), score, iteration, history).1
    {
      ghost var before := View();
      scaled := false;
      UpdateStreaks(history);
      ghost var e := View();
      assert e == WithStreaks(before, history);
      if passStreak >= policy.minPassStreak && score >= 0.85 && currentScale as real < policy.maxScale {
        currentScale := Grown(policy, currentScale);
        scaled := true;
        passStreak := 0;
      } else if policy.decayOnFailure && failStreak >= 3 && currentScale > ONE {
        currentScale := Decayed(policy, currentScale);
        scaled := true;
        failStreak := 0;
      } else if iteration > 0 && iteration % 10 == 0 && score >= 0.95 {
        currentScale := Boosted(policy, currentScale);
        scaled := true;
      }
    }

    /** Counts from the most recent entry backwards until the kind changes. */
    method UpdateStreaks(history: seq<Status>)
      modifies this`passStreak, this`failStreak
      ensures View() == WithStreaks(old(View()), history)
    {
      if |history| == 0 {
        return;
      }
      var window := Window(history);
      var pass, fail := 0, 0;
      var i := |window|;
      assert window[..i] == window;
      while i > 0
        invariant 0 <= i <= |window|
        invariant pass == 0 || fail == 0
        invariant pass + fail == |window| - i
        invariant fail == 0 ==> RecentRun(window, Passing) == pass + RecentRun(window[..i], Passing)
        invariant pass == 0 ==> RecentRun(window, Failing) == fail + RecentRun(window[..i], Failing)
        invariant pass > 0 ==> RecentRun(window, Failing) == 0
        invariant fail > 0 ==> RecentRun(window, Passing) == 0
      {
        var status := window[i - 1];
        assert window[..i][..i - 1] == window[..i - 1];
        if Passing(status) {
          if fail != 0 { break; }
          pass := pass + 1;
        } else if status == Failed {
          if pass != 0 { break; }
          fail := fail + 1;
        } else {
          break;
        }
        i := i - 1;
      }
      passStreak, failStreak := pass, fail;
    }
  }
}
