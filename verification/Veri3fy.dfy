/**
 * The three-stage verifier of the SLVSS loop.
 */
module Veri3fy {
  import opened FixedPoint

  /** A well-typed payload, as `buildPayload` assembles it; instants are epoch milliseconds. */
  datatype Payload = Payload(
    iteration: int, scale: real, learnerVersion: string, successRate: real,
    avgConfidence: real, avgROI: real, timestamp: int, node: string)

  datatype Config = Config(stages: int, threshold: real, strictMode: bool)

  datatype Issue =
    | NegativeIteration | ScaleBelowOne | ForeignNode | BadTimestamp
    | SuccessRateRange | ConfidenceRange | NegativeROI | Stale | BackwardIteration
    | NonSovereignNode | LowConfidence | ScaleRegression | BadVersion

  datatype Verdict = Verdict(
    syntax: bool, logic: bool, sovereignty: bool, passed: bool, score: real, errors: seq<Issue>)

  predicate Includes(s: string, sub: string) {
    exists i :: 0 <= i <= |s| && sub <= s[i..]
  }

  predicate Digit(c: char) {
    '0' <= c <= '9'
  }

  /** Matches digits, a point and digits somewhere. */
  predicate Versioned(s: string) {
    exists i :: 0 < i < |s| - 1 && s[i] == '.' && Digit(s[i - 1]) && Digit(s[i + 1])
  }

  /** The first part of each name in `validNodes`. */
  const VALID_NODES := ["SLVSS", "PAXRuntime", "SovereignExtraction", "AutomationAPI"]

  // What each stage demands.

  predicate Syntax(p: Payload) {
    p.iteration >= 0 && p.scale >= 1.0 && Includes(p.node, "ARK95X") && p.timestamp > 0
  }

  predicate Logic(p: Payload, now: int) {
    && 0.0 <= p.successRate <= 1.0 && 0.0 <= p.avgConfidence <= 1.0
    && now - p.timestamp <= 60_000 && p.iteration >= 0
  }

  predicate Sovereign(p: Payload) {
    && (exists n :: n in VALID_NODES && Includes(p.node, n))
    && !(p.iteration > 5 && p.avgConfidence < 0.70)
    && !(p.iteration > 10 && p.scale < 1.0)
    && Versioned(p.learnerVersion)
  }

  function Points(s1: bool, s2: bool, s3: bool): real {
    (if s1 then 0.35 else 0.0) + (if s2 then 0.30 else 0.0) + (if s3 then 0.35 else 0.0)
  }

  /** The verdict, errors aside, of a payload that meets these stages. */
  function Weigh(config: Config, s1: bool, s2: bool, s3: bool): Verdict {
    if config.stages < 2 then
      var score := Points(s1, false, false);
      Verdict(s1, false, false, s1 && score >= config.threshold * 0.35, score, [])
    else if config.stages < 3 then
      var score := Points(s1, s2, false);
      Verdict(s1, s2, false, s1 && s2 && score >= config.threshold * 0.65, score, [])
    else
      var score := Round4(Points(s1, s2, s3));
      Verdict(s1, s2, s3, (config.strictMode ==> s1 && s2 && s3) && score >= config.threshold, score, [])
  }

  function Judge(config: Config, p: Payload, now: int): Verdict {
    Weigh(config, Syntax(p), Logic(p, now), Sovereign(p))
  }

  const DEFAULT := Config(3, 0.85, true)

  lemma PointsAreRepresentable(s1: bool, s2: bool, s3: bool)
    ensures Round4(Points(s1, s2, s3)) == Points(s1, s2, s3)
  {
    var n := (if s1 then 3500 else 0) + (if s2 then 3000 else 0) + (if s3 then 3500 else 0);
    assert Points(s1, s2, s3) * 10000.0 == n as real;
    Round4Fixes(Points(s1, s2, s3));
  }

  /** The score adds up the stages that were run and met; rounding does not touch it. */
  lemma ScoreIsPoints(config: Config, p: Payload, now: int)
    ensures var v := Judge(config, p, now);
      && v.score == (if v.syntax then 0.35 else 0.0) + (if v.logic then 0.30 else 0.0)
                    + (if v.sovereignty then 0.35 else 0.0)
      && v.syntax == Syntax(p) && v.logic == (config.stages >= 2 && Logic(p, now))
      && v.sovereignty == (config.stages >= 3 && Sovereign(p))
  {
    PointsAreRepresentable(Syntax(p), Logic(p, now), Sovereign(p));
  }

  /** A strict verdict, or one without the third stage, is a pass when every stage it ran is met and 1 suffices. */
  lemma StrictPassesIff(config: Config, p: Payload, now: int)
    requires config.strictMode || config.stages < 3
    ensures Judge(config, p, now).passed <==>
      && Syntax(p) && (config.stages >= 2 ==> Logic(p, now)) && (config.stages >= 3 ==> Sovereign(p))
      && config.threshold <= 1.0
  {
    PointsAreRepresentable(Syntax(p), Logic(p, now), Sovereign(p));
  }

  /** A lenient one, for a threshold over 0.35 and up to 0.65, when two of the three are. */
  lemma LenientPassesIff(config: Config, p: Payload, now: int)
    requires !config.strictMode && config.stages >= 3 && 0.35 < config.threshold <= 0.65
    ensures Judge(config, p, now).passed <==>
      (Syntax(p) && Logic(p, now)) || (Syntax(p) && Sovereign(p)) || (Logic(p, now) && Sovereign(p))
  {
    PointsAreRepresentable(Syntax(p), Logic(p, now), Sovereign(p));
  }

  /** Past the warm-up, a low average is a failure with 0.65 at most, whatever else holds. */
  lemma UnsureFails(config: Config, p: Payload, now: int)
    requires config.stages >= 3 && config.strictMode && p.iteration > 5 && p.avgConfidence < 0.70
    ensures !Judge(config, p, now).passed && Judge(config, p, now).score <= 0.65
  {
    ScoreIsPoints(config, p, now);
  }

  /**
   * With the default configuration a payload passes exactly when its score is 1; the threshold 0.85
   * cannot be reached with a stage missing.
   */
  lemma DefaultVerdict(p: Payload, now: int)
    ensures var v := Judge(DEFAULT, p, now);
      && v.score == Points(Syntax(p), Logic(p, now), Sovereign(p))
      && (v.passed <==> Syntax(p) && Logic(p, now) && Sovereign(p))
      && (v.passed <==> v.score == 1.0)
      && (!v.passed ==> v.score <= 0.70)
      && (!Sovereign(p) ==> v.score <= 0.65)
  {
    PointsAreRepresentable(Syntax(p), Logic(p, now), Sovereign(p));
  }

  // What is wrong with a payload.

  /** The issue is for stage `n` to find, and it is there. */
  predicate Found(n: int, p: Payload, now: int, x: Issue) {
    match x
    case NegativeIteration => n == 1 && p.iteration < 0
    case ScaleBelowOne => n == 1 && p.scale < 1.0
    case ForeignNode => n == 1 && !Includes(p.node, "ARK95X")
    case BadTimestamp => n == 1 && p.timestamp <= 0
    case SuccessRateRange => n == 2 && (p.successRate < 0.0 || p.successRate > 1.0)
    case ConfidenceRange => n == 2 && (p.avgConfidence < 0.0 || p.avgConfidence > 1.0)
    case NegativeROI => n == 2 && p.avgROI < 0.0
    case Stale => n == 2 && now > p.timestamp + 60_000
    case BackwardIteration => n == 2 && p.iteration < 0
    case NonSovereignNode =>
      n == 3 && !(|| Includes(p.node, "SLVSS") || Includes(p.node, "PAXRuntime")
                  || Includes(p.node, "SovereignExtraction") || Includes(p.node, "AutomationAPI"))
    case LowConfidence => n == 3 && p.iteration > 5 && p.avgConfidence < 0.70
    case ScaleRegression => n == 3 && p.iteration > 10 && p.scale < 1.0
    case BadVersion => n == 3 && !Versioned(p.learnerVersion)
  }

  /** A stage is met when it finds nothing wrong; a negative return is a warning. */
  lemma MetIffNothingFound(p: Payload, now: int)
    ensures Syntax(p) <==> forall x :: !Found(1, p, now, x)
    ensures Logic(p, now) <==> forall x :: Found(2, p, now, x) ==> x == NegativeROI
    ensures Sovereign(p) <==> forall x :: !Found(3, p, now, x)
  {
    SyntaxFound(p, now);
    LogicFound(p, now);
    SovereigntyFound(p, now);
  }

  lemma SyntaxFound(p: Payload, now: int)
    ensures Syntax(p) <==> forall x :: !Found(1, p, now, x)
  {
    if forall x :: !Found(1, p, now, x) {
      assert !Found(1, p, now, NegativeIteration) && !Found(1, p, now, ScaleBelowOne);
      assert !Found(1, p, now, ForeignNode) && !Found(1, p, now, BadTimestamp);
    }
  }

  lemma LogicFound(p: Payload, now: int)
    ensures Logic(p, now) <==> forall x :: Found(2, p, now, x) ==> x == NegativeROI
  {
    if forall x :: Found(2, p, now, x) ==> x == NegativeROI {
      assert !Found(2, p, now, SuccessRateRange) && !Found(2, p, now, ConfidenceRange);
      assert !Found(2, p, now, Stale) && !Found(2, p, now, BackwardIteration);
    }
  }

  lemma SovereigntyFound(p: Payload, now: int)
    ensures Sovereign(p) <==> forall x :: !Found(3, p, now, x)
  {
    assert forall n :: n in VALID_NODES <==> n in {"SLVSS", "PAXRuntime", "SovereignExtraction", "AutomationAPI"};
    if forall x :: !Found(3, p, now, x) {
      assert !Found(3, p, now, NonSovereignNode) && !Found(3, p, now, LowConfidence);
      assert !Found(3, p, now, ScaleRegression) && !Found(3, p, now, BadVersion);
    }
  }

  /** Text that has `sub` in it, and no other, includes it. */
  lemma IncludesIff(s: string, sub: string)
    ensures Includes(s, sub) <==> exists before, after :: s == before + sub + after
  {
    if Includes(s, sub) {
      var i :| 0 <= i <= |s| && sub <= s[i..];
      assert s == s[..i] + sub + s[i + |sub|..];
    }
    if before, after :| s == before + sub + after {
      assert sub <= s[|before|..];
    }
  }

  /** `s` is `before`, a digit, a point, a digit, `after`. */
  predicate Splits(s: string, before: string, d: char, e: char, after: string) {
    s == before + [d, '.', e] + after && '0' <= d <= '9' && '0' <= e <= '9'
  }

  lemma VersionedSplits(s: string)
    requires Versioned(s)
    ensures exists before, d, e, after :: Splits(s, before, d, e, after)
  {
    var i :| 0 < i < |s| - 1 && s[i] == '.' && Digit(s[i - 1]) && Digit(s[i + 1]);
    assert s == s[..i - 1] + [s[i - 1], '.', s[i + 1]] + s[i + 2..];
    assert Splits(s, s[..i - 1], s[i - 1], s[i + 1], s[i + 2..]);
  }

  lemma SplitIsVersioned(s: string, before: string, d: char, e: char, after: string)
    requires Splits(s, before, d, e, after)
    ensures Versioned(s)
  {
    assert s[|before| + 1] == '.' && s[|before|] == d && s[|before| + 2] == e;
  }

  lemma VersionedIff(s: string)
    ensures Versioned(s) <==> exists before, d, e, after :: Splits(s, before, d, e, after)
  {
    if Versioned(s) { VersionedSplits(s); }
    if before, d, e, after :| Splits(s, before, d, e, after) { SplitIsVersioned(s, before, d, e, after); }
  }

  /** What stage `n` found has been added. */
  ghost predicate Adds(n: int, p: Payload, now: int, errors: seq<Issue>, errors': seq<Issue>) {
    forall x :: x in errors' <==> x in errors || Found(n, p, now, x)
  }

  class Verifier {
    const config: Config
    var verifyCount: nat
    var passCount: nat

    constructor (config: Config)
      ensures this.config == config && verifyCount == 0 && passCount == 0
    {
      this.config := config;
      verifyCount, passCount := 0, 0;
    }

    method Verify(p: Payload, now: int) returns (v: Verdict)
      modifies this
      ensures v.(errors := []) == Judge(config, p, now)
      ensures verifyCount == old(verifyCount) + 1
      ensures passCount == old(passCount) + if v.passed then 1 else 0
      ensures forall x :: x in v.errors <==>
        || Found(1, p, now, x) || (config.stages >= 2 && Found(2, p, now, x))
        || (config.stages >= 3 && Found(3, p, now, x))
    {
      verifyCount := verifyCount + 1;
      var errors: seq<Issue> := [];
      var s1, s2, s3 := false, false, false;
      s1, errors := Stage1(p, errors);
      assert Adds(1, p, now, [], errors);
      var stage1Score := if s1 then 0.35 else 0.0;
      if config.stages < 2 {
        var passed := s1 && stage1Score >= config.threshold * 0.35;
        if passed { passCount := passCount + 1; }
        return Verdict(s1, false, false, passed, stage1Score, errors);
      }
      s2, errors := Stage2(p, now, errors);
      var stage2Score := if s2 then 0.30 else 0.0;
      if config.stages < 3 {
        var score := stage1Score + stage2Score;
        var passed := s1 && s2 && score >= config.threshold * 0.65;
        if passed { passCount := passCount + 1; }
        return Verdict(s1, s2, false, passed, score, errors);
      }
      ghost var found := errors;
      s3, errors := Stage3(p, errors);
      assert Adds(3, p, now, found, errors);
      var stage3Score := if s3 then 0.35 else 0.0;
      var score := Round4(stage1Score + stage2Score + stage3Score);
      var passed :=
        if config.strictMode then s1 && s2 && s3 && score >= config.threshold else score >= config.threshold;
      if passed { passCount := passCount + 1; }
      return Verdict(s1, s2, s3, passed, score, errors);
    }

    /** The required fields are all present in a well-typed payload. */
    static method Stage1(p: Payload, errors: seq<Issue>) returns (ok: bool, errors': seq<Issue>)
      ensures ok <==> Syntax(p)
      ensures forall now :: Adds(1, p, now, errors, errors')
    {
      ok, errors' := true, errors;
      if p.iteration < 0 { ok, errors' := false, errors' + [NegativeIteration]; }
      if p.scale < 1.0 { ok, errors' := false, errors' + [ScaleBelowOne]; }
      if !Includes(p.node, "ARK95X") { ok, errors' := false, errors' + [ForeignNode]; }
      if p.timestamp <= 0 { ok, errors' := false, errors' + [BadTimestamp]; }
    }

    static method Stage2(p: Payload, now: int, errors: seq<Issue>) returns (ok: bool, errors': seq<Issue>)
      ensures ok <==> Logic(p, now)
      ensures Adds(2, p, now, errors, errors')
    {
      ok, errors' := true, errors;
      if p.successRate < 0.0 || p.successRate > 1.0 { ok, errors' := false, errors' + [SuccessRateRange]; }
      if p.avgConfidence < 0.0 || p.avgConfidence > 1.0 { ok, errors' := false, errors' + [ConfidenceRange]; }
      if p.avgROI < 0.0 { errors' := errors' + [NegativeROI]; }
      if now - p.timestamp > 60_000 { ok, errors' := false, errors' + [Stale]; }
      if p.iteration < 0 { ok, errors' := false, errors' + [BackwardIteration]; }
    }

    static method Stage3(p: Payload, errors: seq<Issue>) returns (ok: bool, errors': seq<Issue>)
      ensures ok <==> Sovereign(p)
      ensures forall now :: Adds(3, p, now, errors, errors')
    {
      ok, errors' := true, errors;
      var nodeValid := exists n :: n in VALID_NODES && Includes(p.node, n);
      if !nodeValid { ok, errors' := false, errors' + [NonSovereignNode]; }
      if p.iteration > 5 && p.avgConfidence < 0.70 { ok, errors' := false, errors' + [LowConfidence]; }
      if p.iteration > 10 && p.scale < 1.0 { ok, errors' := false, errors' + [ScaleRegression]; }
      if !Versioned(p.learnerVersion) { ok, errors' := false, errors' + [BadVersion]; }
    }
  }
}
