/**
 * The pattern memory of the SLVSS loop. Weights are in units of 0.000001, what six decimals can
 * tell apart; the pattern hash is an input, so that any collision is covered.
 */
module LearningCore {
  import opened FixedPoint
  import opened Sequences

  datatype Kind = Success | Failure

  datatype Pattern = Pattern(kind: Kind, features: seq<string>, weight: int, seen: nat)

  /** The entries of the `patterns` map, in insertion order. */
  datatype Entry = Entry(id: string, pattern: Pattern)

  /** Boosts are in the units of the weights. */
  datatype Config = Config(memorySize: nat, decayRate: real, successBoost: real, failurePenalty: real)

  datatype Core = Core(patterns: seq<Entry>, ingests: nat, successes: nat, failures: nat, improvement: int)

  const FRESH := Core([], 0, 0, 0, 0)

  const ONE := 1_000_000

  ghost predicate Sane(config: Config) {
    && config.memorySize >= 10 && 0.0 <= config.decayRate <= 1.0
    && config.successBoost >= 0.0 && config.failurePenalty >= 0.0
  }

  function Weight(e: Entry): int {
    e.pattern.weight
  }

  ghost predicate Distinct(es: seq<Entry>) {
    forall i, j :: 0 <= i < j < |es| ==> es[i].id != es[j].id
  }

  ghost predicate Has(es: seq<Entry>, id: string) {
    exists i :: 0 <= i < |es| && es[i].id == id
  }

  /** Where `id` is, or the length. */
  function EntryIndex(es: seq<Entry>, id: string): (n: nat)
    ensures n <= |es|
    ensures n < |es| ==> es[n].id == id
    ensures n == |es| <==> !Has(es, id)
  {
    IndexWhere(es, (e: Entry) => e.id == id)
  }

  // Decay, boost, prune.

  function Decayed(config: Config, weight: int): int {
    Nearest(weight as real * config.decayRate)
  }

  function Fade(config: Config, e: Entry): Entry {
    e.(pattern := e.pattern.(weight := Decayed(config, e.pattern.weight)))
  }

  function Decay(config: Config, es: seq<Entry>): seq<Entry> {
    seq(|es|, i requires 0 <= i < |es| => Fade(config, es[i]))
  }

  function Boosted(config: Config, weight: int, kind: Kind): int {
    Nearest(Min(weight as real + if kind == Success then config.successBoost else config.failurePenalty, ONE as real))
  }

  function Insert(e: Entry, es: seq<Entry>): seq<Entry> {
    if es == [] then [e]
    else if Weight(e) < Weight(es[0]) then [e] + es
    else [es[0]] + Insert(e, es[1..])
  }

  /** By weight, the order of equal weights kept. */
  function Sorted(es: seq<Entry>): seq<Entry> {
    if es == [] then [] else Insert(es[|es| - 1], Sorted(es[..|es| - 1]))
  }

  function Delete(es: seq<Entry>, id: string): seq<Entry> {
    if es == [] then []
    else if es[0].id == id then es[1..]
    else [es[0]] + Delete(es[1..], id)
  }

  function DeleteAll(es: seq<Entry>, gone: seq<Entry>): seq<Entry> {
    if gone == [] then es else Delete(DeleteAll(es, gone[..|gone| - 1]), gone[|gone| - 1].id)
  }

  /** The tenth of the memory that goes. */
  function Weakest(config: Config, es: seq<Entry>): seq<Entry> {
    var k := config.memorySize / 10;
    var sorted := Sorted(es);
    if k <= |sorted| then sorted[..k] else sorted
  }

  /** A pattern seen again: the memory and the improvement. */
  function Reinforce(config: Config, es: seq<Entry>, i: nat, kind: Kind): (seq<Entry>, int)
    requires i < |es|
  {
    var p := es[i].pattern;
    var weight := Boosted(config, p.weight, kind);
    (es[i := Entry(es[i].id, p.(weight := weight, seen := p.seen + 1))], weight - p.weight)
  }

  function Novel(kind: Kind, id: string, features: seq<string>): Entry {
    Entry(id, Pattern(kind, features, if kind == Success then 600_000 else 400_000, 1))
  }

  /** A new pattern: the memory, and the entries pruned from it. */
  function Admit(config: Config, es: seq<Entry>, e: Entry): (seq<Entry>, seq<Entry>) {
    if |es| + 1 > config.memorySize then
      var gone := Weakest(config, es + [e]);
      (DeleteAll(es + [e], gone), gone)
    else (es + [e], [])
  }

  /** After an ingest: the memory, the entries that were pruned, and the improvement. */
  function Remember(config: Config, es: seq<Entry>, kind: Kind, id: string, features: seq<string>)
    : (seq<Entry>, seq<Entry>, int)
  {
    var faded := Decay(config, es);
    var i := EntryIndex(faded, id);
    if i < |faded| then
      var (es', delta) := Reinforce(config, faded, i, kind);
      (es', [], delta)
    else
      var e := Novel(kind, id, features);
      var (es', gone) := Admit(config, faded, e);
      (es', gone, Weight(e))
  }

  function Ingested(config: Config, core: Core, kind: Kind, id: string, features: seq<string>): Core {
    var (patterns, _, delta) := Remember(config, core.patterns, kind, id, features);
    Core(patterns, core.ingests + 1,
         core.successes + (if kind == Success then 1 else 0), core.failures + (if kind == Failure then 1 else 0),
         core.improvement + delta)
  }

  // What pruning removes.

  function Seen(es: seq<Entry>): nat {
    if es == [] then 0 else Seen(es[..|es| - 1]) + es[|es| - 1].pattern.seen
  }

  lemma {:induction false} SeenConcat(a: seq<Entry>, b: seq<Entry>)
    ensures Seen(a + b) == Seen(a) + Seen(b)
  {
    if b == [] {
      assert a + b == a;
    } else {
      SeenConcat(a, b[..|b| - 1]);
      assert (a + b)[..|a + b| - 1] == a + b[..|b| - 1];
    }
  }

  /** Deleting an entry that is there takes away it alone. */
  lemma {:induction false} DeleteTakesOne(es: seq<Entry>, i: nat)
    requires Distinct(es) && i < |es|
    ensures Delete(es, es[i].id) == es[..i] + es[i + 1..]
  {
    if i > 0 {
      assert es[1..][i - 1] == es[i];
      DeleteTakesOne(es[1..], i - 1);
      assert [es[0]] + (es[1..][..i - 1] + es[1..][i..]) == es[..i] + es[i + 1..];
    }
  }

  /** What is left of `es` without the entries `gone`. */
  ghost predicate Without(left: seq<Entry>, es: seq<Entry>, gone: seq<Entry>) {
    && Distinct(left) && |left| == |es| - |gone| && Seen(left) + Seen(gone) == Seen(es)
    && forall e :: e in left <==> e in es && e !in gone
  }

  lemma SeenAt(es: seq<Entry>, i: nat)
    requires i < |es|
    ensures Seen(es) == Seen(es[..i]) + es[i].pattern.seen + Seen(es[i + 1..])
  {
    assert es == es[..i + 1] + es[i + 1..];
    SeenConcat(es[..i + 1], es[i + 1..]);
    assert es[..i + 1][..i] == es[..i];
  }

  lemma DeleteCounts(es: seq<Entry>, i: nat)
    requires Distinct(es) && i < |es|
    ensures Seen(Delete(es, es[i].id)) + es[i].pattern.seen == Seen(es)
  {
    DeleteTakesOne(es, i);
    SeenAt(es, i);
    SeenConcat(es[..i], es[i + 1..]);
  }

  lemma DeleteMembers(es: seq<Entry>, i: nat)
    requires Distinct(es) && i < |es|
    ensures var es' := Delete(es, es[i].id);
      Distinct(es') && |es'| == |es| - 1 && forall e :: e in es' <==> e in es && e != es[i]
  {
    DeleteTakesOne(es, i);
    forall e ensures e in es[..i] + es[i + 1..] <==> e in es && e != es[i] {
      if e in es && e != es[i] {
        var j :| 0 <= j < |es| && es[j] == e;
        assert if j < i then es[..i][j] == e else es[i + 1..][j - i - 1] == e;
      }
    }
  }

  lemma WithoutOneMore(left: seq<Entry>, es: seq<Entry>, gone: seq<Entry>, e: Entry)
    requires Without(left, es, gone) && e in es && e !in gone
    ensures Without(Delete(left, e.id), es, gone + [e])
  {
    var i :| 0 <= i < |left| && left[i] == e;
    DeleteCounts(left, i);
    DeleteMembers(left, i);
    SeenConcat(gone, [e]);
    assert [e][..0] == [];
  }

  lemma {:induction false} DeleteAllWithout(es: seq<Entry>, gone: seq<Entry>)
    requires Distinct(es) && Distinct(gone) && forall e :: e in gone ==> e in es
    ensures Without(DeleteAll(es, gone), es, gone)
  {
    if gone != [] {
      var before, e := gone[..|gone| - 1], gone[|gone| - 1];
      DeleteAllWithout(es, before);
      assert gone == before + [e];
      WithoutOneMore(DeleteAll(es, before), es, before, e);
    }
  }

  ghost predicate Ascending(es: seq<Entry>) {
    forall i, j :: 0 <= i < j < |es| ==> Weight(es[i]) <= Weight(es[j])
  }

  lemma {:induction false} InsertKeeps(e: Entry, es: seq<Entry>)
    requires Ascending(es) && Distinct(es) && !Has(es, e.id)
    ensures Ascending(Insert(e, es)) && Distinct(Insert(e, es)) && |Insert(e, es)| == |es| + 1
    ensures forall x :: x in Insert(e, es) <==> x == e || x in es
  {
    if es != [] && Weight(e) >= Weight(es[0]) {
      var rest := es[1..];
      assert forall i :: 0 <= i < |rest| ==> rest[i] == es[i + 1];
      InsertKeeps(e, rest);
      var r := Insert(e, rest);
      assert forall x :: x in es <==> x == es[0] || x in rest;
      forall i | 0 <= i < |r| ensures Weight(es[0]) <= Weight(r[i]) && es[0].id != r[i].id {
        assert r[i] in r;
        assert r[i] == e || r[i] in rest;
      }
    }
  }

  lemma {:induction false} SortedSorts(es: seq<Entry>)
    requires Distinct(es)
    ensures Ascending(Sorted(es)) && Distinct(Sorted(es)) && |Sorted(es)| == |es|
    ensures forall x :: x in Sorted(es) <==> x in es
  {
    if es != [] {
      var before, e := es[..|es| - 1], es[|es| - 1];
      SortedSorts(before);
      assert es == before + [e];
      assert !Has(Sorted(before), e.id) by {
        forall i | 0 <= i < |Sorted(before)| ensures Sorted(before)[i].id != e.id {
          assert Sorted(before)[i] in before;
        }
      }
      InsertKeeps(e, Sorted(before));
    }
  }

  ghost predicate Before(es: seq<Entry>, x: Entry, y: Entry) {
    exists i, j :: 0 <= i < j < |es| && es[i] == x && es[j] == y
  }

  /** Equal weights are in the order of `es`. */
  ghost predicate OldestFirst(sorted: seq<Entry>, es: seq<Entry>) {
    forall i, j :: 0 <= i < j < |sorted| && Weight(sorted[i]) == Weight(sorted[j]) ==> Before(es, sorted[i], sorted[j])
  }

  lemma BeforeStays(es: seq<Entry>, e: Entry)
    ensures forall x, y :: Before(es, x, y) ==> Before(es + [e], x, y)
    ensures forall x :: x in es ==> Before(es + [e], x, e)
  {
    var longer := es + [e];
    assert longer[|es|] == e;
    forall x, y | Before(es, x, y) ensures Before(longer, x, y) {
      var i, j :| 0 <= i < j < |es| && es[i] == x && es[j] == y;
      assert longer[i] == x && longer[j] == y;
    }
    forall x | x in es ensures Before(longer, x, e) {
      var i :| 0 <= i < |es| && es[i] == x;
      assert longer[i] == x;
    }
  }

  lemma {:induction false} InsertIsStable(e: Entry, sorted: seq<Entry>, es: seq<Entry>)
    requires Ascending(sorted) && OldestFirst(sorted, es) && forall x :: x in sorted ==> x in es
    ensures OldestFirst(Insert(e, sorted), es + [e])
    ensures forall x :: x in Insert(e, sorted) ==> x == e || x in sorted
  {
    BeforeStays(es, e);
    if sorted != [] && Weight(e) >= Weight(sorted[0]) {
      var rest := sorted[1..];
      assert forall i :: 0 <= i < |rest| ==> rest[i] == sorted[i + 1];
      InsertIsStable(e, rest, es);
      var r := Insert(e, rest);
      forall j | 0 <= j < |r| && Weight(sorted[0]) == Weight(r[j]) ensures Before(es + [e], sorted[0], r[j]) {
        assert r[j] in r;
        if r[j] != e {
          var i :| 0 <= i < |rest| && rest[i] == r[j];
          assert Before(es, sorted[0], sorted[i + 1]);
        }
      }
    }
  }

  /** Sorting keeps the order of equal weights. */
  lemma {:induction false} SortedIsStable(es: seq<Entry>)
    requires Distinct(es)
    ensures OldestFirst(Sorted(es), es)
  {
    if es != [] {
      var before, e := es[..|es| - 1], es[|es| - 1];
      SortedIsStable(before);
      SortedSorts(before);
      assert es == before + [e];
      InsertIsStable(e, Sorted(before), before);
    }
  }

  /** Among equal weights the pruned patterns are the oldest. */
  lemma PruneTakesOldest(config: Config, es: seq<Entry>, e: Entry, f: Entry)
    requires Distinct(es) && |es| > config.memorySize && Weight(e) == Weight(f)
    requires e in Weakest(config, es) && f in DeleteAll(es, Weakest(config, es))
    ensures Before(es, e, f)
  {
    PruneTakesWeakest(config, es);
    SortedSorts(es);
    SortedIsStable(es);
    var sorted, gone := Sorted(es), Weakest(config, es);
    var i :| 0 <= i < |gone| && gone[i] == e;
    assert f in sorted && f !in gone;
    var j :| 0 <= j < |sorted| && sorted[j] == f;
    assert forall k :: 0 <= k < |gone| ==> sorted[k] in gone;
  }

  /** Pruning takes the weakest tenth, and takes it alone. */
  lemma PruneTakesWeakest(config: Config, es: seq<Entry>)
    requires Distinct(es) && |es| > config.memorySize
    ensures var gone := Weakest(config, es);
      && |gone| == config.memorySize / 10
      && Without(DeleteAll(es, gone), es, gone)
      && forall e, f :: e in gone && f in DeleteAll(es, gone) ==> Weight(e) <= Weight(f)
  {
    SortedSorts(es);
    var sorted, gone := Sorted(es), Weakest(config, es);
    DeleteAllWithout(es, gone);
    forall e, f | e in gone && f in DeleteAll(es, gone) ensures Weight(e) <= Weight(f) {
      var i :| 0 <= i < |gone| && gone[i] == e;
      assert f in sorted && f !in gone;
      var j :| 0 <= j < |sorted| && sorted[j] == f;
      assert forall k :: 0 <= k < |gone| ==> sorted[k] in gone;
    }
  }

  // What every ingest keeps.

  ghost predicate WellFormed(es: seq<Entry>) {
    Distinct(es) && forall e :: e in es ==> 0 <= Weight(e) <= ONE && e.pattern.features != []
  }

  lemma NearestOfPart(n: int, w: real, part: real)
    requires w == n as real && n >= 0 && 0.0 <= part <= 1.0
    ensures 0 <= Nearest(w * part) <= n
  {
    ProductBounds(w, part);
    NearestBetween(0, n, w * part);
  }

  lemma DecayedWithin(config: Config, weight: int)
    requires 0 <= weight <= ONE && 0.0 <= config.decayRate <= 1.0
    ensures 0 <= Decayed(config, weight) <= weight
  {
    NearestOfPart(weight, weight as real, config.decayRate);
  }

  lemma BoostedWithin(config: Config, weight: int, kind: Kind)
    requires 0 <= weight <= ONE && Sane(config)
    ensures weight <= Boosted(config, weight, kind) <= ONE
  {
    var boost := if kind == Success then config.successBoost else config.failurePenalty;
    NearestBetween(weight, ONE, Min(weight as real + boost, ONE as real));
  }

  lemma {:induction false} DecayKeepsSeen(config: Config, es: seq<Entry>)
    ensures Seen(Decay(config, es)) == Seen(es)
  {
    if es != [] {
      DecayKeepsSeen(config, es[..|es| - 1]);
      assert Decay(config, es)[..|es| - 1] == Decay(config, es[..|es| - 1]);
    }
  }

  lemma DecayKeepsWellFormed(config: Config, es: seq<Entry>)
    requires WellFormed(es) && Sane(config)
    ensures WellFormed(Decay(config, es))
  {
    var faded := Decay(config, es);
    forall e | e in faded ensures 0 <= Weight(e) <= ONE && e.pattern.features != [] {
      var i :| 0 <= i < |faded| && faded[i] == e;
      assert es[i] in es;
      DecayedWithin(config, Weight(es[i]));
    }
  }

  lemma SeenUpdate(es: seq<Entry>, i: nat, e: Entry)
    requires i < |es|
    ensures Seen(es[i := e]) == Seen(es) - es[i].pattern.seen + e.pattern.seen
    decreases |es|
  {
    if i == |es| - 1 {
      assert es[i := e][..i] == es[..i];
    } else {
      SeenUpdate(es[..|es| - 1], i, e);
      assert es[i := e][..|es| - 1] == es[..|es| - 1][i := e];
    }
  }

  lemma ReinforceKeeps(config: Config, es: seq<Entry>, i: nat, kind: Kind)
    requires Sane(config) && WellFormed(es) && i < |es|
    ensures var (es', delta) := Reinforce(config, es, i, kind);
      WellFormed(es') && |es'| == |es| && Seen(es') == Seen(es) + 1 && 0 <= delta <= ONE
  {
    var p := es[i].pattern;
    assert es[i] in es;
    BoostedWithin(config, p.weight, kind);
    SeenUpdate(es, i, Entry(es[i].id, p.(weight := Boosted(config, p.weight, kind), seen := p.seen + 1)));
    var es' := Reinforce(config, es, i, kind).0;
    forall e | e in es' ensures e == es'[i] || e in es {
    }
  }

  lemma GrownIsWellFormed(es: seq<Entry>, e: Entry)
    requires WellFormed(es) && WellFormed([e]) && !Has(es, e.id)
    ensures WellFormed(es + [e]) && Seen(es + [e]) == Seen(es) + e.pattern.seen
  {
    SeenConcat(es, [e]);
    assert [e][..0] == [];
    assert e in [e];
  }

  lemma WithoutIsWellFormed(left: seq<Entry>, es: seq<Entry>, gone: seq<Entry>)
    requires WellFormed(es) && Without(left, es, gone)
    ensures WellFormed(left)
  {
  }

  lemma AdmitKeeps(config: Config, es: seq<Entry>, e: Entry)
    requires Sane(config) && WellFormed(es) && |es| <= config.memorySize && WellFormed([e]) && !Has(es, e.id)
    ensures var (es', gone) := Admit(config, es, e);
      WellFormed(es') && |es'| <= config.memorySize && Seen(es') + Seen(gone) == Seen(es) + e.pattern.seen
  {
    GrownIsWellFormed(es, e);
    if |es| + 1 > config.memorySize {
      var gone := Weakest(config, es + [e]);
      PruneTakesWeakest(config, es + [e]);
      WithoutIsWellFormed(DeleteAll(es + [e], gone), es + [e], gone);
    }
  }

  /**
   * One ingest: the memory stays within its size and well formed, one sighting is added and none is
   * lost but with what is pruned, and the improvement is never negative.
   */
  lemma IngestKeeps(config: Config, es: seq<Entry>, kind: Kind, id: string, features: seq<string>)
    requires Sane(config) && WellFormed(es) && |es| <= config.memorySize && features != []
    ensures var (es', gone, delta) := Remember(config, es, kind, id, features);
      && WellFormed(es') && |es'| <= config.memorySize
      && Seen(es') + Seen(gone) == Seen(es) + 1
      && 0 <= delta <= ONE
  {
    var faded := Decay(config, es);
    assert WellFormed(faded) && Seen(faded) == Seen(es) by {
      DecayKeepsWellFormed(config, es);
      DecayKeepsSeen(config, es);
    }
    var i := EntryIndex(faded, id);
    if i < |faded| {
      ReinforceKeeps(config, faded, i, kind);
    } else {
      NovelIsWellFormed(kind, id, features);
      AdmitKeeps(config, faded, Novel(kind, id, features));
    }
  }

  lemma NovelIsWellFormed(kind: Kind, id: string, features: seq<string>)
    requires features != []
    ensures WellFormed([Novel(kind, id, features)])
  {
  }

  datatype Input = Input(kind: Kind, id: string, features: seq<string>)

  /** The core after these inputs, and the sightings pruned on the way. */
  function Run(config: Config, inputs: seq<Input>): (Core, nat) {
    if inputs == [] then (FRESH, 0)
    else
      var (core, pruned) := Run(config, inputs[..|inputs| - 1]);
      var i := inputs[|inputs| - 1];
      (Ingested(config, core, i.kind, i.id, i.features),
       pruned + Seen(Remember(config, core.patterns, i.kind, i.id, i.features).1))
  }

  /** Over every run: live and pruned sightings add up to the ingests, and the memory is bounded. */
  lemma {:induction false} SightingsAddUp(config: Config, inputs: seq<Input>)
    requires Sane(config) && forall i :: i in inputs ==> i.features != []
    ensures var (core, pruned) := Run(config, inputs);
      && WellFormed(core.patterns) && |core.patterns| <= config.memorySize
      && Seen(core.patterns) + pruned == core.ingests == |inputs|
      && core.successes + core.failures == core.ingests
      && 0 <= core.improvement <= ONE * |inputs|
  {
    if inputs != [] {
      var before, i := inputs[..|inputs| - 1], inputs[|inputs| - 1];
      SightingsAddUp(config, before);
      IngestKeeps(config, Run(config, before).0.patterns, i.kind, i.id, i.features);
    }
  }

  /** A full memory that meets a new pattern stays within its size exactly when a tenth of it is not nothing. */
  lemma FullMemoryBoundedIff(config: Config, es: seq<Entry>, kind: Kind, id: string, features: seq<string>)
    requires Distinct(es) && !Has(es, id) && |es| == config.memorySize
    ensures |Remember(config, es, kind, id, features).0| <= config.memorySize <==> config.memorySize >= 10
  {
    var faded := Decay(config, es);
    assert !Has(faded, id) by {
      forall i | 0 <= i < |faded| ensures faded[i].id != id { assert faded[i].id == es[i].id; }
    }
    var e := Novel(kind, id, features);
    assert Distinct(faded + [e]);
    PruneTakesWeakest(config, faded + [e]);
  }

  predicate DistinctIds(inputs: seq<Input>) {
    forall i, j :: 0 <= i < j < |inputs| ==> inputs[i].id != inputs[j].id
  }

  /** A memory smaller than ten takes a new pattern in and gives none up. */
  lemma SmallMemoryAdmits(config: Config, es: seq<Entry>, kind: Kind, id: string, features: seq<string>)
    requires config.memorySize < 10 && !Has(es, id)
    ensures Remember(config, es, kind, id, features).0 == Decay(config, es) + [Novel(kind, id, features)]
  {
    var faded := Decay(config, es);
    assert !Has(faded, id) by {
      forall i | 0 <= i < |faded| ensures faded[i].id != id { assert faded[i].id == es[i].id; }
    }
    assert Weakest(config, faded + [Novel(kind, id, features)]) == [];
  }

  lemma OneMoreIn(config: Config, es: seq<Entry>, input: Input, es': seq<Entry>)
    requires config.memorySize < 10 && !Has(es, input.id)
    requires es' == Remember(config, es, input.kind, input.id, input.features).0
    ensures |es'| == |es| + 1 && es'[|es|].id == input.id && forall i :: 0 <= i < |es| ==> es'[i].id == es[i].id
  {
    SmallMemoryAdmits(config, es, input.kind, input.id, input.features);
  }

  lemma NewToMemory(es: seq<Entry>, inputs: seq<Input>)
    requires inputs != [] && DistinctIds(inputs) && |es| == |inputs| - 1
    requires forall i :: 0 <= i < |es| ==> es[i].id == inputs[i].id
    ensures !Has(es, inputs[|inputs| - 1].id)
  {
  }

  /** So it grows by every new pattern, whatever its size. */
  lemma {:induction false} SmallMemoryGrows(config: Config, inputs: seq<Input>)
    requires config.memorySize < 10 && DistinctIds(inputs)
    ensures var es := Run(config, inputs).0.patterns;
      |es| == |inputs| && forall i :: 0 <= i < |es| ==> es[i].id == inputs[i].id
  {
    if inputs != [] {
      var before, input := inputs[..|inputs| - 1], inputs[|inputs| - 1];
      var es := Run(config, before).0.patterns;
      assert |es| == |before| && forall i :: 0 <= i < |es| ==> es[i].id == inputs[i].id by {
        SmallMemoryGrows(config, before);
      }
      assert !Has(es, input.id) by { NewToMemory(es, inputs); }
      OneMoreIn(config, es, input, Run(config, inputs).0.patterns) by { RunSnoc(config, inputs); }
    }
  }

  // What a pattern's weight is.

  function Sightings(inputs: seq<Input>, id: string): nat {
    if inputs == [] then 0
    else Sightings(inputs[..|inputs| - 1], id) + if inputs[|inputs| - 1].id == id then 1 else 0
  }

  predicate OneKind(inputs: seq<Input>, id: string, kind: Kind) {
    forall i :: 0 <= i < |inputs| && inputs[i].id == id ==> inputs[i].kind == kind
  }

  /** Nothing fades, and the boost of this kind is `boost` whole units. */
  predicate Steady(config: Config, kind: Kind, boost: nat) {
    && config.decayRate == 1.0
    && match kind
       case Success => config.successBoost == boost as real
       case Failure => config.failurePenalty == boost as real
  }

  /** What is known of `id` after it was seen `n` times. */
  ghost predicate Knows(es: seq<Entry>, id: string, kind: Kind, boost: nat, n: nat) {
    if n == 0 then !Has(es, id)
    else exists i :: 0 <= i < |es| && KnownAt(es[i], id, kind, boost, n)
  }

  /** A success weighs 0.6 at first and a failure 0.4; each further sighting adds the boost, up to 1. */
  predicate KnownAt(e: Entry, id: string, kind: Kind, boost: nat, n: nat)
    requires n > 0
  {
    && e.id == id && e.pattern.kind == kind && e.pattern.seen == n
    && var grown := (if kind == Success then 600_000 else 400_000) + (n - 1) * boost;
       e.pattern.weight == if grown <= 1_000_000 then grown else 1_000_000
  }

  lemma NothingFades(config: Config, es: seq<Entry>)
    requires config.decayRate == 1.0
    ensures Decay(config, es) == es
  {
    forall i | 0 <= i < |es| ensures Fade(config, es[i]) == es[i] {
      NearestBetween(es[i].pattern.weight, es[i].pattern.weight, es[i].pattern.weight as real * config.decayRate);
    }
  }

  lemma WholeBoost(config: Config, weight: int, kind: Kind, boost: nat)
    requires Steady(config, kind, boost)
    ensures Boosted(config, weight, kind) == if weight + boost <= 1_000_000 then weight + boost else 1_000_000
  {
    var n := if weight + boost <= 1_000_000 then weight + boost else 1_000_000;
    NearestBetween(n, n, Min(weight as real + boost as real, ONE as real));
  }

  lemma SeenAgain(config: Config, es: seq<Entry>, id: string, kind: Kind, features: seq<string>, boost: nat, n: nat)
    requires Distinct(es) && |es| < config.memorySize && Steady(config, kind, boost) && Knows(es, id, kind, boost, n)
    ensures var es' := Remember(config, es, kind, id, features).0;
      Distinct(es') && |es'| <= |es| + 1 && Knows(es', id, kind, boost, n + 1)
  {
    NothingFades(config, es);
    var es' := Remember(config, es, kind, id, features).0;
    if n == 0 {
      assert KnownAt(es'[|es|], id, kind, boost, 1);
    } else {
      var i :| 0 <= i < |es| && KnownAt(es[i], id, kind, boost, n);
      assert EntryIndex(es, id) == i;
      WholeBoost(config, es[i].pattern.weight, kind, boost);
      assert n * boost == (n - 1) * boost + boost;
      assert KnownAt(es'[i], id, kind, boost, n + 1);
    }
  }

  lemma OtherSeen(config: Config, es: seq<Entry>, input: Input, id: string, kind: Kind, boost: nat, n: nat)
    requires Distinct(es) && |es| < config.memorySize && config.decayRate == 1.0 && input.id != id
    requires Knows(es, id, kind, boost, n)
    ensures var es' := Remember(config, es, input.kind, input.id, input.features).0;
      Distinct(es') && |es'| <= |es| + 1 && Knows(es', id, kind, boost, n)
  {
    NothingFades(config, es);
    var es' := Remember(config, es, input.kind, input.id, input.features).0;
    var j := EntryIndex(es, input.id);
    assert forall i :: 0 <= i < |es| && i != j ==> es'[i] == es[i];
    if n == 0 {
      assert !Has(es', id);
    } else {
      var i :| 0 <= i < |es| && KnownAt(es[i], id, kind, boost, n);
      assert KnownAt(es'[i], id, kind, boost, n);
    }
  }

  /**
   * Over every run in which nothing fades and nothing is pruned: a success pattern seen n times weighs
   * 0.6 and n - 1 success boosts, a failure pattern 0.4 and n - 1 penalties, and neither more than 1.
   */
  lemma {:induction false} WeightOfSightings(config: Config, inputs: seq<Input>, id: string, kind: Kind, boost: nat)
    requires Steady(config, kind, boost) && |inputs| <= config.memorySize && OneKind(inputs, id, kind)
    ensures var es := Run(config, inputs).0.patterns;
      Distinct(es) && |es| <= |inputs| && Knows(es, id, kind, boost, Sightings(inputs, id))
  {
    if inputs != [] {
      var before, input, n := inputs[..|inputs| - 1], inputs[|inputs| - 1], Sightings(inputs[..|inputs| - 1], id);
      var es, es' := Run(config, before).0.patterns, Run(config, inputs).0.patterns;
      assert OneKind(before, id, kind) && (input.id == id ==> input.kind == kind) by {
        assert forall i :: 0 <= i < |before| ==> before[i] == inputs[i];
      }
      assert Distinct(es) && |es| <= |before| && Knows(es, id, kind, boost, n) by {
        WeightOfSightings(config, before, id, kind, boost);
      }
      assert Distinct(es') && |es'| <= |es| + 1
          && Knows(es', id, kind, boost, if input.id == id then n + 1 else n) by {
        RunSnoc(config, inputs);
        OneMoreSighting(config, es, input, id, kind, boost, n);
      }
    }
  }

  lemma RunSnoc(config: Config, inputs: seq<Input>)
    requires inputs != []
    ensures var (before, input) := (Run(config, inputs[..|inputs| - 1]).0, inputs[|inputs| - 1]);
      Run(config, inputs).0.patterns == Remember(config, before.patterns, input.kind, input.id, input.features).0
  {
  }

  lemma OneMoreSighting(config: Config, es: seq<Entry>, input: Input, id: string, kind: Kind, boost: nat, n: nat)
    requires Distinct(es) && |es| < config.memorySize && Steady(config, kind, boost)
    requires (input.id == id ==> input.kind == kind) && Knows(es, id, kind, boost, n)
    ensures var es' := Remember(config, es, input.kind, input.id, input.features).0;
      Distinct(es') && |es'| <= |es| + 1 && Knows(es', id, kind, boost, if input.id == id then n + 1 else n)
  {
    if input.id == id {
      SeenAgain(config, es, id, kind, input.features, boost, n);
    } else {
      OtherSeen(config, es, input, id, kind, boost, n);
    }
  }

  /** The weight after `m` ingests of other patterns. */
  function Faded(config: Config, weight: int, m: nat): int {
    if m == 0 then weight else Decayed(config, Faded(config, weight, m - 1))
  }

  /** The same without rounding: the weight, times the decay rate to the power of `m`. */
  function Exact(rate: real, weight: real, m: nat): real {
    if m == 0 then weight else Exact(rate, weight, m - 1) * rate
  }

  predicate Near(x: real, y: real, error: real) {
    y - error <= x <= y + error
  }

  /** Weights fall geometrically, but for half a unit of rounding each time. */
  lemma {:induction false} FadesGeometrically(config: Config, weight: int, m: nat)
    requires 0.0 <= config.decayRate <= 1.0
    ensures Near(Faded(config, weight, m) as real, Exact(config.decayRate, weight as real, m), 0.5 * m as real)
  {
    if m > 0 {
      FadesGeometrically(config, weight, m - 1);
      var faded, exact := Faded(config, weight, m - 1) as real, Exact(config.decayRate, weight as real, m - 1);
      ProductNear(faded, exact, config.decayRate, 0.5 * (m - 1) as real);
      RoundedNear(faded * config.decayRate, exact * config.decayRate, 0.5 * (m - 1) as real);
    }
  }

  lemma RoundedNear(x: real, y: real, error: real)
    requires Near(x, y, error)
    ensures Near(Nearest(x) as real, y, error + 0.5)
  {
    NearestBounds(x);
  }

  lemma Difference(x: real, y: real, z: real, difference: real)
    requires difference == (x - y) * z
    ensures difference == x * z - y * z
  {
    assert (x - y) * z == x * z - y * z;
  }

  lemma ProductNear(x: real, y: real, rate: real, error: real)
    requires 0.0 <= rate <= 1.0 && Near(x, y, error)
    ensures Near(x * rate, y * rate, error)
  {
    var more := x - y;
    Difference(x, y, rate, more * rate);
    if more >= 0.0 {
      ProductBounds(more, rate);
    } else {
      ProductBounds(-more, rate);
      assert (-more) * rate == -(more * rate);
    }
  }

  /** An ingest fades every other pattern once, as long as none is pruned. */
  lemma OthersFadeOnce(config: Config, es: seq<Entry>, input: Input, i: nat)
    requires i < |es| < config.memorySize && es[i].id != input.id
    ensures var es' := Remember(config, es, input.kind, input.id, input.features).0;
      i < |es'| && es'[i] == es[i].(pattern := es[i].pattern.(weight := Faded(config, es[i].pattern.weight, 1)))
  {
    var faded := Decay(config, es);
    assert faded[i].id == es[i].id && Faded(config, es[i].pattern.weight, 0) == es[i].pattern.weight;
  }

  /** The improvement is the weight of a new pattern, and of one seen before what it has risen since it faded. */
  lemma ImprovementOfIngest(config: Config, es: seq<Entry>, input: Input)
    ensures !Has(es, input.id) ==> Remember(config, es, input.kind, input.id, input.features).2
                                   == if input.kind == Success then 600_000 else 400_000
    ensures forall i :: 0 <= i < |es| && es[i].id == input.id && Distinct(es) ==>
      var (es', _, delta) := Remember(config, es, input.kind, input.id, input.features);
      |es'| == |es| && delta == es'[i].pattern.weight - Faded(config, es[i].pattern.weight, 1)
  {
    var faded := Decay(config, es);
    assert |faded| == |es| && forall i :: 0 <= i < |es| ==> faded[i].id == es[i].id;
    assert Has(faded, input.id) <==> Has(es, input.id) by {
      assert forall i :: 0 <= i < |es| && es[i].id == input.id ==> faded[i].id == input.id;
    }
    forall i | 0 <= i < |es| && es[i].id == input.id && Distinct(es)
      ensures var (es', _, delta) := Remember(config, es, input.kind, input.id, input.features);
        |es'| == |es| && delta == es'[i].pattern.weight - Faded(config, es[i].pattern.weight, 1)
    {
      assert faded[i].id == input.id && EntryIndex(faded, input.id) == i;
      assert Faded(config, es[i].pattern.weight, 0) == es[i].pattern.weight;
    }
  }

  function Of(inputs: seq<Input>, kind: Kind): nat {
    if inputs == [] then 0
    else Of(inputs[..|inputs| - 1], kind) + if inputs[|inputs| - 1].kind == kind then 1 else 0
  }

  /** Successes and failures are counted apart. */
  lemma {:induction false} KindsAreCounted(config: Config, inputs: seq<Input>)
    ensures Run(config, inputs).0.successes == Of(inputs, Success)
    ensures Run(config, inputs).0.failures == Of(inputs, Failure)
  {
    if inputs != [] { KindsAreCounted(config, inputs[..|inputs| - 1]); }
  }

  function Weights(es: seq<Entry>): int {
    if es == [] then 0 else Weights(es[..|es| - 1]) + Weight(es[|es| - 1])
  }

  lemma {:induction false} WeightsUpdate(es: seq<Entry>, i: nat, e: Entry)
    requires i < |es|
    ensures Weights(es[i := e]) == Weights(es) - Weight(es[i]) + Weight(e)
    decreases |es|
  {
    var n := |es| - 1;
    if i == n {
      assert es[i := e][..n] == es[..n];
    } else {
      WeightsUpdate(es[..n], i, e);
      assert es[i := e][..n] == es[..n][i := e];
    }
  }

  /** While nothing fades and nothing is pruned, the improvements add up to the weights. */
  lemma {:induction false} ImprovementIsWeight(config: Config, inputs: seq<Input>)
    requires config.decayRate == 1.0 && |inputs| <= config.memorySize
    ensures var core := Run(config, inputs).0;
      |core.patterns| <= |inputs| && core.improvement == Weights(core.patterns)
  {
    if inputs != [] {
      var before, input := inputs[..|inputs| - 1], inputs[|inputs| - 1];
      ImprovementIsWeight(config, before);
      var es := Run(config, before).0.patterns;
      NothingFades(config, es);
      var i := EntryIndex(es, input.id);
      var es' := Remember(config, es, input.kind, input.id, input.features).0;
      if i < |es| {
        WeightsUpdate(es, i, es'[i]);
      } else {
        assert es'[..|es|] == es;
      }
    }
  }

  // Prediction.

  function Overlap(mine: seq<string>, theirs: set<string>): (n: nat)
    ensures n <= |mine|
  {
    if mine == [] then 0 else Overlap(mine[..|mine| - 1], theirs) + if mine[|mine| - 1] in theirs then 1 else 0
  }

  function Similarity(mine: seq<string>, features: seq<string>): real
    requires mine != []
  {
    var theirs := set f | f in features;
    Overlap(mine, theirs) as real / (if |mine| >= |features| then |mine| else |features|) as real
  }

  /** What a pattern contributes: failures count half, and against. */
  function Pull(p: Pattern, features: seq<string>): real
    requires p.features != []
  {
    var w := p.weight as real / 1_000_000.0;
    Signed(p.kind, w * Similarity(p.features, features))
  }

  function Signed(kind: Kind, x: real): real {
    if kind == Success then x else -(x * 0.5)
  }

  ghost predicate Featured(es: seq<Entry>) {
    forall e :: e in es ==> e.pattern.features != []
  }

  function Match(es: seq<Entry>, features: seq<string>): real
    requires Featured(es)
  {
    if es == [] then 0.0 else Match(es[..|es| - 1], features) + Pull(es[|es| - 1].pattern, features)
  }

  function Total(es: seq<Entry>): real {
    if es == [] then 0.0 else Total(es[..|es| - 1]) + Weight(es[|es| - 1]) as real / 1_000_000.0
  }

  /** Without the clamp at 0. */
  function Prediction(es: seq<Entry>, features: seq<string>): real
    requires Featured(es)
  {
    if es == [] then 0.5
    else
      var base := if Total(es) > 0.0 then Match(es, features) / Total(es) else 0.5;
      Round4(Min(1.0, base + 0.5))
  }

  lemma SimilarityBounds(mine: seq<string>, features: seq<string>)
    requires mine != []
    ensures 0.0 <= Similarity(mine, features) <= 1.0
  {
    var n := Overlap(mine, set f | f in features) as real;
    var d := (if |mine| >= |features| then |mine| else |features|) as real;
    QuotientBounds(n, d);
  }

  lemma SignedBounds(kind: Kind, x: real, w: real)
    requires 0.0 <= x <= w
    ensures -0.5 * w <= Signed(kind, x) <= w
  {
  }

  lemma PullBounds(p: Pattern, features: seq<string>)
    requires p.features != [] && p.weight >= 0
    ensures var w := p.weight as real / 1_000_000.0;
      -0.5 * w <= Pull(p, features) <= w
  {
    var w, similarity := p.weight as real / 1_000_000.0, Similarity(p.features, features);
    assert 0.0 <= similarity <= 1.0 by { SimilarityBounds(p.features, features); }
    assert 0.0 <= w * similarity <= w by { ProductBounds(w, similarity); }
    SignedBounds(p.kind, w * similarity, w);
  }

  lemma {:induction false} MatchBounds(es: seq<Entry>, features: seq<string>)
    requires WellFormed(es)
    ensures Total(es) >= 0.0 && -0.5 * Total(es) <= Match(es, features) <= Total(es)
  {
    if es != [] {
      var before, e := es[..|es| - 1], es[|es| - 1];
      assert e in es;
      MatchBounds(before, features);
      PullBounds(e.pattern, features);
    }
  }

  lemma RatioAtLeast(x: real, d: real)
    requires d > 0.0 && x >= -0.5 * d
    ensures x / d >= -0.5
  {
    QuotientBelow(x, d, -0.5);
  }

  /** The clamp at 0 is never needed, and the prediction is a probability. */
  lemma PredictionInRange(es: seq<Entry>, features: seq<string>)
    requires WellFormed(es)
    ensures es != [] && Total(es) > 0.0 ==> Match(es, features) / Total(es) + 0.5 >= 0.0
    ensures 0.0 <= Prediction(es, features) <= 1.0
  {
    MatchBounds(es, features);
    if es != [] {
      if Total(es) > 0.0 { RatioAtLeast(Match(es, features), Total(es)); }
      var base := if Total(es) > 0.0 then Match(es, features) / Total(es) else 0.5;
      RoundedProbability(Min(1.0, base + 0.5));
    }
  }

  /** Features all known make a similarity of one, none known of nothing, if there are no others. */
  lemma {:induction false} OverlapExtremes(mine: seq<string>, theirs: set<string>)
    ensures (forall f :: f in mine ==> f in theirs) ==> Overlap(mine, theirs) == |mine|
    ensures (forall f :: f in mine ==> f !in theirs) ==> Overlap(mine, theirs) == 0
  {
    if mine != [] {
      var before := mine[..|mine| - 1];
      OverlapExtremes(before, theirs);
      assert forall f :: f in before ==> f in mine;
      assert mine[|mine| - 1] in mine;
    }
  }

  /** Each feature of the pattern that is among the others counts once, repeated ones repeatedly. */
  lemma {:induction false} OverlapAddsUp(a: seq<string>, b: seq<string>, theirs: set<string>)
    ensures Overlap(a + b, theirs) == Overlap(a, theirs) + Overlap(b, theirs)
  {
    if b == [] {
      assert a + b == a;
    } else {
      OverlapAddsUp(a, b[..|b| - 1], theirs);
      assert (a + b)[..|a + b| - 1] == a + b[..|b| - 1];
    }
  }

  /** The similarity, times the number of the longer list, is the overlap. */
  lemma SimilarityMeans(mine: seq<string>, features: seq<string>) returns (longer: nat)
    requires mine != []
    ensures longer in {|mine|, |features|} && longer >= |mine| && longer >= |features|
    ensures Similarity(mine, features) * longer as real == Overlap(mine, set f | f in features) as real
  {
    longer := if |mine| >= |features| then |mine| else |features|;
    var q, x, d := Similarity(mine, features), Overlap(mine, set f | f in features) as real, longer as real;
    assert d > 0.0 && q == x / d;
    QuotientTimes(q, x, d);
  }

  lemma QuotientTimes(q: real, x: real, d: real)
    requires d > 0.0 && q == x / d
    ensures q * d == x
  {
  }

  /** Weights and pulls add up. */
  lemma {:induction false} TotalsAddUp(a: seq<Entry>, b: seq<Entry>, features: seq<string>)
    requires Featured(a + b)
    ensures Featured(a) && Featured(b)
    ensures Total(a + b) == Total(a) + Total(b) && Match(a + b, features) == Match(a, features) + Match(b, features)
  {
    assert forall e :: e in a || e in b ==> e in a + b;
    if b == [] {
      assert a + b == a;
    } else {
      assert (a + b)[..|a + b| - 1] == a + b[..|b| - 1];
      assert forall e :: e in a + b[..|b| - 1] ==> e in a + b;
      TotalsAddUp(a, b[..|b| - 1], features);
    }
  }

  /** Without patterns the prediction is a half, and with patterns that have all faded it is one. */
  lemma PredictionWithoutWeight(es: seq<Entry>, features: seq<string>)
    requires WellFormed(es) && Total(es) == 0.0
    ensures Prediction(es, features) == if es == [] then 0.5 else 1.0
  {
    if es != [] { assert Nearest(10000.0) == 10000; }
  }

  /** One pattern predicts a half, and its similarity more if it is a success, half of that less if a failure. */
  lemma OnePatternPredicts(e: Entry, features: seq<string>)
    requires e.pattern.features != [] && e.pattern.weight > 0
    ensures Featured([e])
    ensures var similarity := Similarity(e.pattern.features, features);
      Prediction([e], features)
      == Round4(Min(1.0, 0.5 + if e.pattern.kind == Success then similarity else -0.5 * similarity))
  {
    var w, similarity := e.pattern.weight as real / 1_000_000.0, Similarity(e.pattern.features, features);
    assert [e][..0] == [] && Featured([e]);
    assert Total([e]) == w && w > 0.0;
    var x := if e.pattern.kind == Success then similarity else -0.5 * similarity;
    assert Match([e], features) == w * x;
    QuotientOfProduct(w, x);
  }

  lemma QuotientOfProduct(w: real, x: real)
    requires w > 0.0
    ensures w * x / w == x
  {
  }

  lemma RoundedProbability(x: real)
    requires 0.0 <= x <= 1.0
    ensures 0.0 <= Round4(x) <= 1.0
  {
    NearestBetween(0, 10000, x * 10000.0);
  }

  class LearningCoreService {
    const config: Config
    var patterns: seq<Entry>
    var ingestCount: nat
    var successCount: nat
    var failureCount: nat
    var totalImprovement: int

    ghost predicate Valid()
      reads this
    {
      Sane(config) && WellFormed(patterns) && |patterns| <= config.memorySize
    }

    ghost function View(): Core
      reads this
    {
      Core(patterns, ingestCount, successCount, failureCount, totalImprovement)
    }

    constructor (config: Config)
      requires Sane(config)
      ensures Valid() && this.config == config && View() == FRESH
    {
      this.config := config;
      patterns, ingestCount, successCount, failureCount, totalImprovement := [], 0, 0, 0, 0;
    }

    method Ingest(kind: Kind, id: string, features: seq<string>) returns (improvement: int)
      requires Valid() && features != []
      modifies this
      ensures Valid() && improvement >= 0
      ensures View() == Ingested(config, old(View()), kind, id, features)
    {
      ghost var result := Remember(config, patterns, kind, id, features);
      assert WellFormed(result.0) && |result.0| <= config.memorySize && result.2 >= 0 by {
        IngestKeeps(config, patterns, kind, id, features);
      }
      ingestCount := ingestCount + 1;
      improvement := UpdatePatterns(kind, id, features);
      assert patterns == result.0 && improvement == result.2;
      if kind == Success { successCount := successCount + 1; } else { failureCount := failureCount + 1; }
      totalImprovement := totalImprovement + improvement;
    }

    method UpdatePatterns(kind: Kind, id: string, features: seq<string>) returns (improvement: int)
      modifies this`patterns
      ensures patterns == Remember(config, old(patterns), kind, id, features).0
      ensures improvement == Remember(config, old(patterns), kind, id, features).2
    {
      DecayPatterns();
      var i := EntryIndex(patterns, id);
      if i < |patterns| {
        var p := patterns[i].pattern;
        var weight := Boosted(config, p.weight, kind);
        patterns := patterns[i := Entry(id, p.(weight := weight, seen := p.seen + 1))];
        improvement := weight - p.weight;
      } else {
        improvement := if kind == Success then 600_000 else 400_000;
        patterns := patterns + [Entry(id, Pattern(kind, features, improvement, 1))];
        if |patterns| > config.memorySize {
          PruneWeakPatterns();
        }
      }
    }

    method DecayPatterns()
      modifies this`patterns
      ensures patterns == Decay(config, old(patterns))
    {
      var i := 0;
      while i < |patterns|
        invariant 0 <= i <= |patterns| == |old(patterns)|
        invariant forall j :: 0 <= j < i ==> patterns[j] == Fade(config, old(patterns)[j])
        invariant forall j :: i <= j < |patterns| ==> patterns[j] == old(patterns)[j]
      {
        patterns := patterns[i := Fade(config, patterns[i])];
        i := i + 1;
      }
    }

    method PruneWeakPatterns()
      modifies this`patterns
      ensures patterns == DeleteAll(old(patterns), Weakest(config, old(patterns)))
    {
      var toRemove := Weakest(config, patterns);
      var i := 0;
      while i < |toRemove|
        invariant 0 <= i <= |toRemove|
        invariant patterns == DeleteAll(old(patterns), toRemove[..i])
      {
        assert toRemove[..i + 1][..i] == toRemove[..i];
        patterns := Delete(patterns, toRemove[i].id);
        i := i + 1;
      }
      assert toRemove[..i] == toRemove;
    }

    /** With both clamps, as written; the lower one changes nothing. */
    method Predict(features: seq<string>) returns (prediction: real)
      requires Valid()
      ensures prediction == Prediction(patterns, features)
      ensures 0.0 <= prediction <= 1.0
    {
      PredictionInRange(patterns, features);
      if |patterns| == 0 { return 0.5; }
      var totalWeight, matchWeight := 0.0, 0.0;
      var i := 0;
      while i < |patterns|
        invariant 0 <= i <= |patterns|
        invariant totalWeight == Total(patterns[..i]) && matchWeight == Match(patterns[..i], features)
      {
        assert patterns[..i + 1][..i] == patterns[..i];
        assert patterns[i] in patterns;
        matchWeight := matchWeight + Pull(patterns[i].pattern, features);
        totalWeight := totalWeight + Weight(patterns[i]) as real / 1_000_000.0;
        i := i + 1;
      }
      assert patterns[..i] == patterns;
      var base := if totalWeight > 0.0 then matchWeight / totalWeight else 0.5;
      var clamped := Min(1.0, base + 0.5);
      return Round4(if clamped <= 0.0 then 0.0 else clamped);
    }
  }
}
