/**
 * The perpetual loop: each tick verifies a summary of the loop's own past, and the verdict is
 * added to the averages that the next tick will verify.
 */
module SLVSSRunner {
  import opened Wrappers
  import opened FixedPoint
  import V = Veri3fy
  import S = ScalingEngine

  datatype Config = Config(
    maxIterations: int, threshold: real, autoScale: bool, autoGenerate: bool, learnFromFailures: bool, stages: int)

  const DEFAULT := Config(0, 0.85, true, true, true, 3)

  datatype Loop = Loop(
    running: bool, iteration: nat, passed: nat, failed: nat, generated: nat,
    confidenceSum: real, roiSum: real, engine: S.Engine, ingested: nat, history: seq<S.Status>)

  const FRESH := Loop(true, 0, 0, 0, 0, 0.0, 0.0, S.FRESH, 0, [])

  /** The phases of a tick, in order. */
  datatype Phase = Verifying | Scaling | Generating | Learning | Reporting

  /**
   * What a tick meets: when its payload was stamped and when it was checked, the return on
   * investment computed for it, the artifacts generated, and the phase in which it threw, if it did.
   */
  datatype Env = Env(timestamp: int, now: int, roi: real, artifacts: nat, thrown: Option<Phase>)

  function Order(p: Phase): nat {
    match p
    case Verifying => 0
    case Scaling => 1
    case Generating => 2
    case Learning => 3
    case Reporting => 4
  }

  /** The tick gets to the end of phase `p`. */
  predicate Completes(env: Env, p: Phase) {
    env.thrown.None? || Order(p) < Order(env.thrown.value)
  }

  // The learner's version string.

  function Decimal(n: nat): string
    decreases n
  {
    var digit := ['0' + (n % 10) as char];
    if n < 10 then digit else Decimal(n / 10) + digit
  }

  function Version(ingested: nat): string {
    Decimal(ingested / 100 + 1) + "." + Decimal(ingested % 100 / 10)
  }

  lemma {:induction false} DecimalIsDigits(n: nat)
    ensures |Decimal(n)| > 0 && forall i :: 0 <= i < |Decimal(n)| ==> V.Digit(Decimal(n)[i])
  {
    if n >= 10 { DecimalIsDigits(n / 10); }
  }

  lemma VersionIsVersioned(ingested: nat)
    ensures V.Versioned(Version(ingested))
  {
    var major, minor := Decimal(ingested / 100 + 1), Decimal(ingested % 100 / 10);
    DecimalIsDigits(ingested / 100 + 1);
    DecimalIsDigits(ingested % 100 / 10);
    var v := Version(ingested);
    assert v == major + ['.'] + minor;
    assert v[|major| - 1] == major[|major| - 1] && v[|major|] == '.' && v[|major| + 1] == minor[0];
  }

  /** The number that digits spell. */
  function Number(digits: string): int {
    if digits == "" then 0 else 10 * Number(digits[..|digits| - 1]) + (digits[|digits| - 1] as int - '0' as int)
  }

  lemma NumberSnoc(digits: string, c: char)
    ensures Number(digits + [c]) == 10 * Number(digits) + (c as int - '0' as int)
  {
    assert (digits + [c])[..|digits|] == digits;
  }

  lemma {:induction false} DecimalReads(n: nat)
    ensures Number(Decimal(n)) == n
  {
    var digit := '0' + (n % 10) as char;
    assert digit as int - '0' as int == n % 10;
    if n < 10 {
      NumberSnoc("", digit);
      assert "" + [digit] == Decimal(n);
    } else {
      DecimalReads(n / 10);
      NumberSnoc(Decimal(n / 10), digit);
    }
  }

  lemma TensDigit(n: nat)
    ensures n % 100 / 10 == n / 10 % 10 && 0 <= n / 10 % 10 < 10
  {
  }

  predicate Spells(version: string, major: string, minor: string, ingested: nat) {
    && version == major + "." + minor && |minor| == 1
    && Number(major) == ingested / 100 + 1 && Number(minor) == ingested / 10 % 10
  }

  /** The major version counts hundreds of ingests, from one, and the minor one tens, in one digit. */
  lemma VersionReads(ingested: nat)
    ensures exists major, minor :: Spells(Version(ingested), major, minor, ingested)
  {
    var major, minor := Decimal(ingested / 100 + 1), Decimal(ingested % 100 / 10);
    assert Number(major) == ingested / 100 + 1 by { DecimalReads(ingested / 100 + 1); }
    assert Number(minor) == ingested / 10 % 10 by {
      DecimalReads(ingested % 100 / 10);
      TensDigit(ingested);
    }
    assert |minor| == 1 && Version(ingested) == major + "." + minor by { TensDigit(ingested); }
    assert Spells(Version(ingested), major, minor, ingested);
  }

  // One tick.

  const NODE := "SLVSS-ARK95X-v2"

  function Average(x: real, n: nat): real {
    if n > 0 then x / n as real else 0.0
  }

  function BuildPayload(l: Loop, timestamp: int): V.Payload {
    V.Payload(
      l.iteration, l.engine.scale as real / 10000.0, Version(l.ingested),
      Average(l.passed as real, l.iteration), Average(l.confidenceSum, l.iteration), Average(l.roiSum, l.iteration),
      timestamp, NODE)
  }

  function VerifierConfig(config: Config): V.Config {
    V.Config(config.stages, config.threshold, true)
  }

  predicate Exhausted(config: Config, l: Loop) {
    config.maxIterations > 0 && l.iteration >= config.maxIterations
  }

  /** The verdict of a tick that has counted its iteration. */
  function Verdict(config: Config, l: Loop, env: Env): V.Verdict {
    V.Judge(VerifierConfig(config), BuildPayload(l, env.timestamp), env.now)
  }

  function NextVerdict(config: Config, l: Loop, env: Env): V.Verdict {
    Verdict(config, l.(iteration := l.iteration + 1), env)
  }

  /** After a failed verdict. */
  function OnFail(config: Config, l: Loop, env: Env): Loop {
    l.(failed := l.failed + if env.thrown.Some? then 2 else 1,
       ingested := l.ingested + if config.learnFromFailures && Completes(env, Learning) then 1 else 0)
  }

  /** After a passed verdict with this score. */
  function OnPass(config: Config, l: Loop, env: Env, score: real): (Loop, S.Status) {
    var scales := config.autoScale && Completes(env, Scaling);
    var (engine, scaled) :=
      if scales then S.ScaleStep(S.LOOP_POLICY, l.engine, score, l.iteration, l.history) else (l.engine, false);
    var generates := config.autoGenerate && Completes(env, Generating);
    var l' := l.(
      passed := l.passed + 1,
      failed := l.failed + if env.thrown.Some? then 1 else 0,
      engine := engine,
      roiSum := l.roiSum + if generates then env.roi else 0.0,
      generated := l.generated + if generates then env.artifacts else 0,
      ingested := l.ingested + if Completes(env, Learning) then 1 else 0);
    (l', if env.thrown.Some? then S.Failed else if scaled then S.Scaled else S.Passed)
  }

  function Remember(history: seq<S.Status>, s: S.Status): seq<S.Status> {
    var h := history + [s];
    if |h| > 100 then h[1..] else h
  }

  /** The guarded part of a tick that has counted its iteration: its effect and its status. */
  function Attempt(config: Config, l: Loop, env: Env): (Loop, S.Status) {
    if !Completes(env, Verifying) then (l.(failed := l.failed + 1), S.Failed)
    else
      var v := Verdict(config, l, env);
      var judged := l.(confidenceSum := l.confidenceSum + v.score);
      if v.passed then OnPass(config, judged, env, v.score) else (OnFail(config, judged, env), S.Failed)
  }

  function Step(config: Config, l: Loop, env: Env): Loop {
    if !l.running then l
    else if Exhausted(config, l) then l.(running := false)
    else
      var (done, status) := Attempt(config, l.(iteration := l.iteration + 1), env);
      done.(history := Remember(l.history, status))
  }

  function Run(config: Config, l: Loop, envs: seq<Env>): Loop {
    if envs == [] then l
    else Step(config, Run(config, l, envs[..|envs| - 1]), envs[|envs| - 1])
  }

  /** What the payload says, times the iterations, is what the loop has counted. */
  lemma PayloadAverages(l: Loop, timestamp: int)
    ensures var p := BuildPayload(l, timestamp);
      && p.iteration == l.iteration && p.timestamp == timestamp && p.node == "SLVSS-ARK95X-v2"
      && p.scale * 10000.0 == l.engine.scale as real
      && (l.iteration > 0 ==>
            && p.successRate * l.iteration as real == l.passed as real
            && p.avgConfidence * l.iteration as real == l.confidenceSum
            && p.avgROI * l.iteration as real == l.roiSum)
      && (l.iteration == 0 ==> p.successRate == p.avgConfidence == p.avgROI == 0.0)
  {
    if l.iteration > 0 {
      AverageTimes(l.passed as real, l.iteration);
      AverageTimes(l.confidenceSum, l.iteration);
      AverageTimes(l.roiSum, l.iteration);
    }
  }

  lemma AverageTimes(x: real, n: nat)
    requires n > 0
    ensures Average(x, n) * n as real == x
  {
  }

  /** With a limit the loop makes so many ticks and stops at the next; without one it never stops. */
  lemma {:induction false} LimitHolds(config: Config, envs: seq<Env>)
    ensures var (l, m) := (Run(config, FRESH, envs), config.maxIterations);
      && l.iteration == (if m <= 0 || |envs| <= m then |envs| else m)
      && (l.running <==> m <= 0 || |envs| <= m)
  {
    if envs != [] { LimitHolds(config, envs[..|envs| - 1]); }
  }

  /** What is switched off never happens. */
  lemma {:induction false} SwitchedOff(config: Config, envs: seq<Env>)
    ensures var l := Run(config, FRESH, envs);
      && (!config.autoScale ==> l.engine == S.Engine(10_000, 0, 0))
      && (!config.autoGenerate ==> l.generated == 0 && l.roiSum == 0.0)
      && (!config.learnFromFailures ==> l.ingested <= l.passed)
  {
    if envs != [] { SwitchedOff(config, envs[..|envs| - 1]); }
  }

  /** The tick throws nothing, or what it throws comes after generation. */
  predicate PastGenerating(env: Env) {
    env.thrown in {None, Some(Learning), Some(Reporting)}
  }

  /** What one tick counts, by its verdict and by where it throws. */
  lemma TickCounts(config: Config, l: Loop, env: Env)
    requires l.running && (config.maxIterations <= 0 || l.iteration < config.maxIterations)
    ensures var (l', v, t) := (Step(config, l, env), NextVerdict(config, l, env), env.thrown);
      if t == Some(Verifying) then
        l' == l.(iteration := l.iteration + 1, failed := l.failed + 1, history := l'.history)
      else
        && l'.confidenceSum == l.confidenceSum + v.score
        && l'.passed == l.passed + (if v.passed then 1 else 0)
        && l'.failed == l.failed + (if v.passed then 0 else 1) + (if t == None then 0 else 1)
        && l'.ingested == l.ingested + (if t in {None, Some(Reporting)} && (v.passed || config.learnFromFailures)
                                        then 1 else 0)
        && l'.generated == l.generated + (if v.passed && config.autoGenerate && PastGenerating(env)
                                          then env.artifacts else 0)
        && l'.roiSum == l.roiSum + (if v.passed && config.autoGenerate && PastGenerating(env) then env.roi else 0.0)
        && (l'.engine != l.engine ==> v.passed && config.autoScale && t != Some(Scaling))
  {
  }

  /** Each record goes to the end, and from a hundred on the oldest makes room. */
  lemma RememberedLast(h: seq<S.Status>, s: S.Status)
    ensures |h| < 100 ==> Remember(h, s) == h + [s]
    ensures |h| >= 100 ==> [h[0]] + Remember(h, s) == h + [s]
  {
  }

  /** The status a tick records: failed unless its verdict passed and nothing was thrown. */
  lemma TickRecords(config: Config, l: Loop, env: Env)
    requires l.running && (config.maxIterations <= 0 || l.iteration < config.maxIterations)
    ensures exists status ::
      && Step(config, l, env).history == Remember(l.history, status)
      && var v := NextVerdict(config, l, env);
         && (status == S.Failed <==> !v.passed || env.thrown != None)
         && (status == S.Scaled <==>
               && v.passed && env.thrown == None && config.autoScale
               && S.ScaleStep(S.LOOP_POLICY, l.engine, v.score, l.iteration + 1, l.history).1)
         && (status == S.Passed || status == S.Failed || status == S.Scaled)
  {
    var status := Attempt(config, l.(iteration := l.iteration + 1), env).1;
    assert Step(config, l, env).history == Remember(l.history, status);
  }

  // Facts about every run.

  ghost predicate Averaging(l: Loop) {
    l.passed <= l.iteration && 0.0 <= l.confidenceSum <= l.iteration as real
  }

  ghost predicate ScaleInRange(l: Loop) {
    S.ONE <= l.engine.scale <= 10_240_000
  }

  ghost predicate Remembering(l: Loop) {
    |l.history| == if l.iteration <= 100 then l.iteration else 100
  }

  ghost predicate Scored(l: Loop) {
    Averaging(l) && ScaleInRange(l) && Remembering(l)
  }

  /** One pass and one verdict at most are counted. */
  lemma StepKeepsAveraging(config: Config, l: Loop, env: Env)
    requires Averaging(l)
    ensures Averaging(Step(config, l, env))
  {
    V.ScoreIsPoints(
      VerifierConfig(config), BuildPayload(l.(iteration := l.iteration + 1), env.timestamp), env.now);
  }

  lemma StepKeepsScaleInRange(config: Config, l: Loop, env: Env)
    requires ScaleInRange(l)
    ensures ScaleInRange(Step(config, l, env))
  {
    var score := NextVerdict(config, l, env).score;
    S.ScaleStaysBounded(S.LOOP_POLICY, 10_240_000, l.engine, score, l.iteration + 1, l.history);
  }

  lemma StepKeepsRemembering(config: Config, l: Loop, env: Env)
    requires Remembering(l)
    ensures Remembering(Step(config, l, env))
  {
  }

  lemma StepKeepsScored(config: Config, l: Loop, env: Env)
    requires Scored(l)
    ensures Scored(Step(config, l, env))
  {
    StepKeepsAveraging(config, l, env);
    StepKeepsScaleInRange(config, l, env);
    StepKeepsRemembering(config, l, env);
  }

  /** Every run keeps its averages in [0, 1], its scale in [1, 1024] and its last hundred records. */
  lemma {:induction false} RunKeepsScored(config: Config, envs: seq<Env>)
    ensures Scored(Run(config, FRESH, envs))
  {
    if envs != [] {
      RunKeepsScored(config, envs[..|envs| - 1]);
      StepKeepsScored(config, Run(config, FRESH, envs[..|envs| - 1]), envs[|envs| - 1]);
    }
  }

  /** The tick throws although its verdict has been counted. */
  predicate ThrowsLate(config: Config, l: Loop, env: Env) {
    l.running && !Exhausted(config, l) && env.thrown.Some? && env.thrown != Some(Verifying)
  }

  function LateExceptions(config: Config, envs: seq<Env>): nat {
    if envs == [] then 0
    else
      var before := envs[..|envs| - 1];
      LateExceptions(config, before)
      + if ThrowsLate(config, Run(config, FRESH, before), envs[|envs| - 1]) then 1 else 0
  }

  /** Passes and failures count the iterations, plus once more each tick that throws after its verdict. */
  lemma {:induction false} CountsAddUp(config: Config, envs: seq<Env>)
    ensures var l := Run(config, FRESH, envs);
      l.passed + l.failed == l.iteration + LateExceptions(config, envs)
  {
    if envs != [] {
      CountsAddUp(config, envs[..|envs| - 1]);
    }
  }

  // Lock-out.

  /** The average the next tick reports is under 0.70 and the warm-up is over. */
  ghost predicate Locked(l: Loop) {
    l.iteration >= 5 && l.confidenceSum < 0.70 * (l.iteration + 1) as real
  }

  lemma AverageBelow(x: real, n: nat, bound: real)
    requires n > 0
    ensures Average(x, n) < bound <==> x < bound * n as real
  {
    QuotientBelow(x, n as real, bound);
  }

  /** A locked loop's next verdict is a failure with a score of 0.65 at most, whatever it meets. */
  lemma LockedVerdict(config: Config, l: Loop, env: Env)
    requires config.stages >= 3 && Locked(l)
    ensures !NextVerdict(config, l, env).passed && NextVerdict(config, l, env).score <= 0.65
  {
    var p := BuildPayload(l.(iteration := l.iteration + 1), env.timestamp);
    AverageBelow(l.confidenceSum, l.iteration + 1, 0.70);
    V.UnsureFails(VerifierConfig(config), p, env.now);
  }

  /** Lock-out is for ever: no pass is counted and the scale does not move again. */
  lemma {:induction false} LockOutIsAbsorbing(config: Config, l: Loop, envs: seq<Env>)
    requires config.stages >= 3 && Locked(l)
    ensures var l' := Run(config, l, envs);
      Locked(l') && l'.passed == l.passed && l'.engine == l.engine
  {
    if envs != [] {
      var before := Run(config, l, envs[..|envs| - 1]);
      LockOutIsAbsorbing(config, l, envs[..|envs| - 1]);
      LockedVerdict(config, before, envs[|envs| - 1]);
    }
  }

  // With the default configuration.

  /** No exception, and a stamp that is a positive instant. */
  predicate Quiet(env: Env) {
    env.thrown.None? && env.timestamp > 0
  }

  predicate Stale(env: Env) {
    env.now - env.timestamp > 60_000
  }

  lemma AverageInRange(x: real, n: nat)
    requires 0.0 <= x <= n as real
    ensures 0.0 <= Average(x, n) <= 1.0
  {
    if n > 0 { QuotientBounds(x, n as real); }
  }

  lemma NodeIsOurs()
    ensures V.Includes(NODE, "ARK95X") && exists n :: n in V.VALID_NODES && V.Includes(NODE, n)
  {
    assert "ARK95X" <= NODE[6..];
    assert "SLVSS" <= NODE[0..];
    assert V.VALID_NODES[0] == "SLVSS" && V.Includes(NODE, "SLVSS");
  }

  lemma QuietSyntax(l: Loop, env: Env)
    requires Scored(l) && Quiet(env)
    ensures V.Syntax(BuildPayload(l.(iteration := l.iteration + 1), env.timestamp))
  {
    NodeIsOurs();
  }

  lemma QuietLogic(l: Loop, env: Env)
    requires Scored(l)
    ensures V.Logic(BuildPayload(l.(iteration := l.iteration + 1), env.timestamp), env.now) <==> !Stale(env)
  {
    AverageInRange(l.passed as real, l.iteration + 1);
    AverageInRange(l.confidenceSum, l.iteration + 1);
  }

  lemma SovereignUnlessUnsure(p: V.Payload)
    requires p.node == NODE && p.scale >= 1.0 && V.Versioned(p.learnerVersion)
    ensures V.Sovereign(p) <==> p.iteration <= 5 || p.avgConfidence >= 0.70
  {
    NodeIsOurs();
  }

  lemma QuietSovereign(l: Loop, env: Env)
    requires Scored(l)
    ensures V.Sovereign(BuildPayload(l.(iteration := l.iteration + 1), env.timestamp)) <==> !Locked(l)
  {
    VersionIsVersioned(l.ingested);
    SovereignUnlessUnsure(BuildPayload(l.(iteration := l.iteration + 1), env.timestamp));
    AverageBelow(l.confidenceSum, l.iteration + 1, 0.70);
  }

  /** The verdict of the next quiet tick of a loop in good order: only age and lock-out matter. */
  lemma QuietVerdict(l: Loop, env: Env)
    requires Scored(l) && Quiet(env)
    ensures NextVerdict(DEFAULT, l, env).passed <==> !Stale(env) && !Locked(l)
    ensures NextVerdict(DEFAULT, l, env).score == V.Points(true, !Stale(env), !Locked(l))
  {
    var p := BuildPayload(l.(iteration := l.iteration + 1), env.timestamp);
    assert V.Syntax(p) by { QuietSyntax(l, env); }
    assert V.Logic(p, env.now) <==> !Stale(env) by { QuietLogic(l, env); }
    assert V.Sovereign(p) <==> !Locked(l) by { QuietSovereign(l, env); }
    assert NextVerdict(DEFAULT, l, env) == V.Judge(V.DEFAULT, p, env.now);
    V.DefaultVerdict(p, env.now);
  }

  ghost predicate AllQuiet(envs: seq<Env>) {
    forall i :: 0 <= i < |envs| ==> Quiet(envs[i])
  }

  ghost predicate AllTimely(envs: seq<Env>) {
    forall i :: 0 <= i < |envs| ==> Quiet(envs[i]) && !Stale(envs[i])
  }

  /** Ready to go on for ever. */
  ghost predicate Healthy(l: Loop) {
    l.running && Scored(l) && !Locked(l)
  }

  /** A timely tick of a healthy loop passes with score 1 and leaves it healthy, provided the warm-up does. */
  lemma HealthyStep(l: Loop, env: Env)
    requires Healthy(l) && Quiet(env) && !Stale(env)
    requires l.iteration >= 5 || l.confidenceSum == l.iteration as real
    ensures var l' := Step(DEFAULT, l, env);
      && Healthy(l') && l'.iteration == l.iteration + 1 && l'.passed == l.passed + 1 && l'.failed == l.failed
      && l'.confidenceSum == l.confidenceSum + 1.0
  {
    QuietVerdict(l, env);
    StepKeepsScored(DEFAULT, l, env);
  }

  /** A fresh loop that never throws and never dawdles passes every tick with score 1. */
  lemma {:induction false} AllPass(envs: seq<Env>)
    requires AllTimely(envs)
    ensures var l := Run(DEFAULT, FRESH, envs);
      && Healthy(l) && l.iteration == l.passed == |envs| && l.failed == 0
      && l.confidenceSum == |envs| as real
  {
    if envs != [] {
      var before := envs[..|envs| - 1];
      AllPass(before);
      HealthyStep(Run(DEFAULT, FRESH, before), envs[|envs| - 1]);
    }
  }

  function Artifacts(envs: seq<Env>): nat {
    if envs == [] then 0 else Artifacts(envs[..|envs| - 1]) + envs[|envs| - 1].artifacts
  }

  function Returns(envs: seq<Env>): real {
    if envs == [] then 0.0 else Returns(envs[..|envs| - 1]) + envs[|envs| - 1].roi
  }

  /** All its artifacts and returns have been added up, and every tick has been learned from. */
  lemma {:induction false} AllPassAddsUp(envs: seq<Env>)
    requires AllTimely(envs)
    ensures var l := Run(DEFAULT, FRESH, envs);
      l.ingested == |envs| && l.generated == Artifacts(envs) && l.roiSum == Returns(envs)
  {
    if envs != [] {
      var before := envs[..|envs| - 1];
      AllPassAddsUp(before);
      AllPass(before);
      QuietVerdict(Run(DEFAULT, FRESH, before), envs[|envs| - 1]);
    }
  }

  function StaleCount(envs: seq<Env>): nat {
    if envs == [] then 0 else StaleCount(envs[..|envs| - 1]) + if Stale(envs[|envs| - 1]) then 1 else 0
  }

  /** Past the warm-up a quiet tick passes unless it is stale or the loop locked, and locks or unlocks nothing. */
  lemma SettledStep(l: Loop, env: Env)
    requires Scored(l) && l.running && l.iteration >= 5 && Quiet(env)
    ensures var l' := Step(DEFAULT, l, env);
      && l'.running && l'.iteration == l.iteration + 1 && (Locked(l') <==> Locked(l))
      && l'.passed == l.passed + if Locked(l) || Stale(env) then 0 else 1
  {
    QuietVerdict(l, env);
  }

  /**
   * Once the warm-up is over the loop has made up its mind: locked, no quiet tick passes, and
   * otherwise every one does that is not stale; and that does not change any more.
   */
  lemma {:induction false} Bistable(l: Loop, envs: seq<Env>)
    requires Scored(l) && l.running && l.iteration >= 5 && AllQuiet(envs)
    ensures var l' := Run(DEFAULT, l, envs);
      && Scored(l') && l'.running && l'.iteration == l.iteration + |envs| && (Locked(l') <==> Locked(l))
      && l'.passed == l.passed + if Locked(l) then 0 else |envs| - StaleCount(envs)
  {
    if envs != [] {
      var before := envs[..|envs| - 1];
      Bistable(l, before);
      SettledStep(Run(DEFAULT, l, before), envs[|envs| - 1]);
      StepKeepsScored(DEFAULT, Run(DEFAULT, l, before), envs[|envs| - 1]);
    }
  }

  /** During the warm-up a timely tick passes with score 1 and a stale one fails with 0.70. */
  lemma {:induction false} WarmUpSum(envs: seq<Env>)
    requires AllQuiet(envs) && |envs| <= 5
    ensures var l := Run(DEFAULT, FRESH, envs);
      && Scored(l) && l.running && l.iteration == |envs| && l.passed == |envs| - StaleCount(envs)
      && l.confidenceSum == |envs| as real - 0.30 * StaleCount(envs) as real
  {
    if envs != [] {
      var before := envs[..|envs| - 1];
      WarmUpSum(before);
      QuietVerdict(Run(DEFAULT, FRESH, before), envs[|envs| - 1]);
      StepKeepsScored(DEFAULT, Run(DEFAULT, FRESH, before), envs[|envs| - 1]);
    }
  }

  lemma {:induction false} RunConcat(config: Config, l: Loop, a: seq<Env>, b: seq<Env>)
    ensures Run(config, l, a + b) == Run(config, Run(config, l, a), b)
  {
    if b == [] {
      assert a + b == a;
    } else {
      RunConcat(config, l, a, b[..|b| - 1]);
      assert (a + b)[..|a + b| - 1] == a + b[..|b| - 1];
    }
  }

  lemma {:induction false} StaleConcat(a: seq<Env>, b: seq<Env>)
    ensures StaleCount(a + b) == StaleCount(a) + StaleCount(b)
  {
    if b == [] {
      assert a + b == a;
    } else {
      StaleConcat(a, b[..|b| - 1]);
      assert (a + b)[..|a + b| - 1] == a + b[..|b| - 1];
    }
  }

  /**
   * A run of five quiet ticks or more ends locked out exactly when three or more of the first five were
   * stale; then nothing has passed since, and otherwise every tick has that was not stale.
   */
  lemma WarmUpDecides(envs: seq<Env>)
    requires AllQuiet(envs) && |envs| >= 5
    ensures var (l, early) := (Run(DEFAULT, FRESH, envs), StaleCount(envs[..5]));
      && (Locked(l) <==> early >= 3)
      && l.passed == if early >= 3 then 5 - early else |envs| - StaleCount(envs)
  {
    var warmUp, rest := envs[..5], envs[5..];
    assert envs == warmUp + rest;
    WarmUpSum(warmUp);
    RunConcat(DEFAULT, FRESH, warmUp, rest);
    StaleConcat(warmUp, rest);
    Bistable(Run(DEFAULT, FRESH, warmUp), rest);
  }

  /** Without exceptions, every tick of a fresh run passes if and only if none is stale. */
  lemma AllPassIffNoneStale(envs: seq<Env>)
    requires AllQuiet(envs)
    ensures Run(DEFAULT, FRESH, envs).passed == |envs| <==> StaleCount(envs) == 0
  {
    if |envs| <= 5 {
      WarmUpSum(envs);
    } else {
      WarmUpDecides(envs);
      assert envs == envs[..5] + envs[5..];
      StaleConcat(envs[..5], envs[5..]);
    }
  }

  // The scale of a fresh all-pass run.

  /** In units of 0.0001, after `n` ticks. */
  function Curve(n: nat): nat {
    if n <= 2 then 10_000 else Climb(Curve(n - 1))
  }

  /** A quarter more, rounded, and at most 1024. */
  function Climb(u: nat): nat {
    var v := (5 * u + 2) / 4;
    if v <= 10_240_000 then v else 10_240_000
  }

  ghost predicate AllPassing(history: seq<S.Status>) {
    forall i :: 0 <= i < |history| ==> S.Passing(history[i])
  }

  lemma {:induction false} PassingRun(window: seq<S.Status>)
    requires AllPassing(window)
    ensures S.RecentRun(window, S.Passing) == |window|
  {
    if window != [] { PassingRun(window[..|window| - 1]); }
  }

  lemma GrowthOfUnits(u: nat)
    ensures S.Grown(S.LOOP_POLICY, u) == Climb(u)
  {
    var x := u as real * 1.25;
    assert 4.0 * (x + 0.5) == (5 * u + 2) as real;
    var v := (5 * u + 2) / 4;
    assert v as real <= x + 0.5 < (v + 1) as real;
  }

  /** What scaling does in tick `n + 1` when everything before it passed. */
  lemma ScaleOnPass(l: Loop, n: nat)
    requires AllPassing(l.history) && |l.history| == (if n <= 100 then n else 100) && l.engine.scale == Curve(n)
    requires l.iteration == n + 1 && Curve(n) <= 10_240_000 && (n == 0 ==> l.engine == S.FRESH)
    ensures S.ScaleStep(S.LOOP_POLICY, l.engine, 1.0, l.iteration, l.history).0.scale == Curve(n + 1)
  {
    if n > 0 {
      var window := S.Window(l.history);
      PassingRun(window);
      assert S.RecentRun(window, S.Failing) == 0;
      GrowthOfUnits(Curve(n));
      assert S.Boosted(S.LOOP_POLICY, 10_240_000) == 10_240_000;
    }
  }

  lemma {:induction false} CurveBounds(n: nat)
    ensures 10_000 <= Curve(n) <= 10_240_000
  {
    if n > 2 { CurveBounds(n - 1); }
  }

  ghost predicate OnCurve(l: Loop, n: nat) {
    && Healthy(l) && l.iteration == n && l.confidenceSum == n as real
    && l.engine.scale == Curve(n) && AllPassing(l.history) && (n == 0 ==> l == FRESH)
  }

  lemma PassedStep(l: Loop, env: Env)
    requires l.running && env.thrown.None? && NextVerdict(DEFAULT, l, env).passed
    ensures var v := NextVerdict(DEFAULT, l, env);
      var (engine, scaled) := S.ScaleStep(S.LOOP_POLICY, l.engine, v.score, l.iteration + 1, l.history);
      && Step(DEFAULT, l, env).engine == engine
      && Step(DEFAULT, l, env).history == Remember(l.history, if scaled then S.Scaled else S.Passed)
  {
  }

  /** What a timely tick of a healthy loop does to scale and history. */
  lemma QuietStep(l: Loop, env: Env)
    requires Healthy(l) && Quiet(env) && !Stale(env)
    ensures var (engine, scaled) := S.ScaleStep(S.LOOP_POLICY, l.engine, 1.0, l.iteration + 1, l.history);
      && Step(DEFAULT, l, env).engine == engine
      && Step(DEFAULT, l, env).history == Remember(l.history, if scaled then S.Scaled else S.Passed)
  {
    assert NextVerdict(DEFAULT, l, env).passed && NextVerdict(DEFAULT, l, env).score == 1.0 by {
      QuietVerdict(l, env);
    }
    PassedStep(l, env);
  }

  lemma RememberPassing(history: seq<S.Status>, s: S.Status)
    requires AllPassing(history) && S.Passing(s)
    ensures AllPassing(Remember(history, s))
  {
  }

  lemma StaysOnCurve(l: Loop, n: nat, env: Env)
    requires OnCurve(l, n) && Quiet(env) && !Stale(env)
    ensures OnCurve(Step(DEFAULT, l, env), n + 1)
  {
    HealthyStep(l, env);
    QuietStep(l, env);
    CurveBounds(n);
    ScaleOnPass(l.(iteration := n + 1), n);
    RememberPassing(l.history, S.Scaled);
    RememberPassing(l.history, S.Passed);
  }

  /** The scale follows the curve. */
  lemma {:induction false} ScaleFollowsCurve(envs: seq<Env>)
    requires AllTimely(envs)
    ensures OnCurve(Run(DEFAULT, FRESH, envs), |envs|)
  {
    if envs == [] {
      assert OnCurve(FRESH, 0);
    } else {
      var before := envs[..|envs| - 1];
      var l := Run(DEFAULT, FRESH, before);
      assert OnCurve(l, |before|) by { ScaleFollowsCurve(before); }
      assert OnCurve(Step(DEFAULT, l, envs[|envs| - 1]), |envs|) by { StaysOnCurve(l, |before|, envs[|envs| - 1]); }
    }
  }

  lemma CurveTurns()
    ensures Curve(33) < 10_240_000 && Curve(34) == 10_240_000
  {
    assert Curve(3) == 12_500 && Curve(4) == 15_625 && Curve(5) == 19_531 && Curve(6) == 24_414;
    assert Curve(7) == 30_518 && Curve(8) == 38_148 && Curve(9) == 47_685 && Curve(10) == 59_606;
    assert Curve(11) == 74_508 && Curve(12) == 93_135 && Curve(13) == 116_419 && Curve(14) == 145_524;
    assert Curve(15) == 181_905 && Curve(16) == 227_381 && Curve(17) == 284_226 && Curve(18) == 355_283;
    assert Curve(19) == 444_104 && Curve(20) == 555_130 && Curve(21) == 693_913 && Curve(22) == 867_391;
    assert Curve(23) == 1_084_239 && Curve(24) == 1_355_299 && Curve(25) == 1_694_124 && Curve(26) == 2_117_655;
    assert Curve(27) == 2_647_069 && Curve(28) == 3_308_836 && Curve(29) == 4_136_045 && Curve(30) == 5_170_056;
    assert Curve(31) == 6_462_570 && Curve(32) == 8_078_213 && Curve(33) == 10_097_766 && Curve(34) == 10_240_000;
  }

  /** It rises strictly from the third tick, is 1024 first at the thirty-fourth, and stays there. */
  lemma {:induction false} CurveShape(n: nat)
    ensures n < 2 ==> Curve(n + 1) == Curve(n) == 10_000
    ensures 2 <= n < 34 ==> Curve(n) < Curve(n + 1)
    ensures Curve(n) == 10_240_000 <==> n >= 34
  {
    CurveTurns();
    CurveBounds(n);
    if n >= 34 {
      CurveMonotone(34, n);
    } else {
      CurveMonotone(n, 33);
      if n >= 2 { CurveIncreases(n); }
    }
  }

  lemma CurveIncreases(n: nat)
    requires Curve(n) < 10_240_000 && n >= 2
    ensures Curve(n) < Curve(n + 1)
  {
    CurveBounds(n);
  }

  lemma {:induction false} CurveMonotone(m: nat, n: nat)
    requires m <= n
    ensures Curve(m) <= Curve(n)
    decreases n
  {
    if m < n {
      CurveMonotone(m, n - 1);
      CurveBounds(n - 1);
    }
  }

  class Runner {
    const config: Config
    const verifier: V.Verifier
    const scaling: S.ScalingEngineService
    var running: bool
    var iteration: nat
    var totalPassed: nat
    var totalFailed: nat
    var totalGenerated: nat
    var confidenceSum: real
    var roiSum: real
    var ingested: nat
    var history: seq<S.Status>

    ghost predicate Valid()
      reads this, verifier, scaling
    {
      verifier.config == VerifierConfig(config) && scaling.policy == S.LOOP_POLICY
    }

    ghost function View(): Loop
      reads this, scaling
    {
      Loop(running, iteration, totalPassed, totalFailed, totalGenerated, confidenceSum, roiSum,
           scaling.View(), ingested, history)
    }

    constructor (config: Config)
      ensures Valid() && this.config == config && View() == FRESH.(running := false)
      ensures fresh(verifier) && fresh(scaling)
    {
      this.config := config;
      verifier := new V.Verifier(VerifierConfig(config));
      scaling := new S.ScalingEngineService(S.LOOP_POLICY);
      running, iteration, totalPassed, totalFailed, totalGenerated := false, 0, 0, 0, 0;
      confidenceSum, roiSum, ingested, history := 0.0, 0.0, 0, [];
    }

    method Tick(env: Env)
      requires Valid()
      modifies this, verifier, scaling
      ensures Valid() && View() == Step(config, old(View()), env)
    {
      if !running { return; }
      if config.maxIterations > 0 && iteration >= config.maxIterations {
        running := false;
        return;
      }
      iteration := iteration + 1;
      var status := Guarded(env);
      history := history + [status];
      if |history| > 100 { history := history[1..]; }
    }

    /** The body of the tick's `try`, and its `catch`. */
    method Guarded(env: Env) returns (status: S.Status)
      requires Valid()
      modifies this, verifier, scaling
      ensures Valid() && View() == Attempt(config, old(View()), env).0
      ensures status == Attempt(config, old(View()), env).1
    {
      if !Completes(env, Verifying) {
        totalFailed := totalFailed + 1;
        return S.Failed;
      }
      var payload := BuiltPayload(env.timestamp);
      var v := verifier.Verify(payload, env.now);
      confidenceSum := confidenceSum + v.score;
      if !v.passed {
        status := AfterFail(env);
      } else {
        status := AfterPass(env, v.score);
      }
      if env.thrown.Some? {
        status, totalFailed := S.Failed, totalFailed + 1;
      }
    }

    method BuiltPayload(timestamp: int) returns (p: V.Payload)
      ensures p == BuildPayload(View(), timestamp)
    {
      p := V.Payload(
        iteration, scaling.currentScale as real / 10000.0, Version(ingested),
        Average(totalPassed as real, iteration), Average(confidenceSum, iteration), Average(roiSum, iteration),
        timestamp, NODE);
    }

    method AfterFail(env: Env) returns (status: S.Status)
      requires Valid()
      modifies this
      ensures Valid() && status == S.Failed
      ensures View() == OnFail(config, old(View()), env).(failed := old(totalFailed) + 1)
    {
      status, totalFailed := S.Failed, totalFailed + 1;
      if config.learnFromFailures && Completes(env, Learning) { ingested := ingested + 1; }
    }

    /** Scaling, generation and learning, as far as the tick gets. */
    method AfterPass(env: Env, score: real) returns (status: S.Status)
      requires Valid()
      modifies this, scaling
      ensures Valid()
      ensures var (l, s) := OnPass(config, old(View()), env, score);
        && View() == (if env.thrown.Some? then l.(failed := old(totalFailed)) else l)
        && (env.thrown.None? ==> status == s)
    {
      status := S.Running;
      totalPassed := totalPassed + 1;
      if config.autoScale && Completes(env, Scaling) {
        var scaled := scaling.Scale(score, iteration, history);
        if scaled { status := S.Scaled; }
      }
      if config.autoGenerate && Completes(env, Generating) {
        roiSum, totalGenerated := roiSum + env.roi, totalGenerated + env.artifacts;
      }
      if Completes(env, Learning) { ingested := ingested + 1; }
      if status == S.Running { status := S.Passed; }
    }
  }
}
