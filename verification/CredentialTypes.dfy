/**
 * The credential-type registry and `getParentTypes`.
 *
 * `getParentTypes` copies the `extends` array of a type and then appends to that copy while a
 * for-of loop walks it, so the elements it appends are visited too. The specification function
 * `ParentTypes` describes the resulting array level by level; the method below is the loop.
 */
module CredentialTypes {
  import opened Wrappers

  type TypeName = string

  /**
   * The types the registry recognises, each with its `extends` property (`None` when that
   * property is undefined). A parent may be a name that the registry does not recognise.
   */
  datatype Registry = Registry(types: map<TypeName, Option<seq<TypeName>>>)

  /** The types a known type extends; none for an unknown one. */
  function Extends(reg: Registry, t: TypeName): seq<TypeName> {
    if t in reg.types && reg.types[t].Some? then reg.types[t].value else []
  }

  /** Every parent ranks strictly below its child. */
  ghost predicate RankedBy(reg: Registry, rank: TypeName -> nat) {
    forall t, p :: p in Extends(reg, t) ==> rank(p) < rank(t)
  }

  /** No type inherits from itself, directly or not. */
  ghost predicate Acyclic(reg: Registry) {
    exists rank: TypeName -> nat :: RankedBy(reg, rank)
  }

  /** The extends relation is a forest: at most one parent each. */
  ghost predicate SingleInheritance(reg: Registry) {
    forall t :: |Extends(reg, t)| <= 1
  }

  ghost function Ranking(reg: Registry): (rank: TypeName -> nat)
    requires Acyclic(reg)
    ensures RankedBy(reg, rank)
  {
    var rank: TypeName -> nat :| RankedBy(reg, rank);
    rank
  }

  ghost function Rank(reg: Registry, t: TypeName): nat
    requires Acyclic(reg)
  {
    Ranking(reg)(t)
  }

  ghost predicate Below(reg: Registry, r: nat, ts: seq<TypeName>)
    requires Acyclic(reg)
  {
    forall x :: x in ts ==> Rank(reg, x) < r
  }

  /** The array `getParentTypes` returns. */
  ghost function ParentTypes(reg: Registry, t: TypeName): (ps: seq<TypeName>)
    requires Acyclic(reg)
    ensures Below(reg, Rank(reg, t), ps)
    decreases Rank(reg, t), 2, 0
  {
    Levels(reg, Rank(reg, t), Extends(reg, t))
  }

  /** The elements pushed while a stretch of the array is walked, then those pushed while they are walked, ... */
  ghost function Levels(reg: Registry, r: nat, level: seq<TypeName>): (ps: seq<TypeName>)
    requires Acyclic(reg) && Below(reg, r, level)
    ensures Below(reg, r, ps)
    decreases r, 1, 0
  {
    if r == 0 then [] else level + Levels(reg, r - 1, Pushed(reg, r, level))
  }

  /** What walking `level` pushes; `r` bounds the ranks and serves termination only. */
  ghost function Pushed(reg: Registry, r: nat, level: seq<TypeName>): (ps: seq<TypeName>)
    requires Acyclic(reg) && Below(reg, r, level)
    ensures r == 0 ==> ps == []
    ensures r > 0 ==> Below(reg, r - 1, ps)
    decreases r, 0, |level|
  {
    if level == [] then []
    else
      assert level[0] in level;
      ParentTypes(reg, level[0]) + Pushed(reg, r, level[1..])
  }

  /** The parent types of each element of `ts`, one after another. */
  ghost function Expand(reg: Registry, ts: seq<TypeName>): seq<TypeName>
    requires Acyclic(reg)
  {
    if ts == [] then [] else ParentTypes(reg, ts[0]) + Expand(reg, ts[1..])
  }

  lemma {:induction false} PushedIsExpand(reg: Registry, r: nat, level: seq<TypeName>)
    requires Acyclic(reg) && Below(reg, r, level)
    ensures Pushed(reg, r, level) == Expand(reg, level)
    decreases |level|
  {
    if level != [] {
      PushedIsExpand(reg, r, level[1..]);
    }
  }

  lemma {:induction false} ExpandConcat(reg: Registry, a: seq<TypeName>, b: seq<TypeName>)
    requires Acyclic(reg)
    ensures Expand(reg, a + b) == Expand(reg, a) + Expand(reg, b)
    decreases |a|
  {
    if a == [] {
      assert a + b == b;
    } else {
      assert (a + b)[0] == a[0] && (a + b)[1..] == a[1..] + b;
      ExpandConcat(reg, a[1..], b);
    }
  }

  // ---------------------------------------------------------------------------
  // Termination of the self-extending loop
  // ---------------------------------------------------------------------------

  /** One more than the weight of everything that walking `t` would push. */
  ghost function Weight(reg: Registry, t: TypeName): nat
    requires Acyclic(reg)
    decreases Rank(reg, t), 1, 0
  {
    1 + WeightOf(reg, Rank(reg, t), ParentTypes(reg, t))
  }

  ghost function WeightOf(reg: Registry, r: nat, ts: seq<TypeName>): nat
    requires Acyclic(reg) && Below(reg, r, ts)
    decreases r, 0, |ts|
  {
    if ts == [] then 0
    else
      assert ts[0] in ts;
      Weight(reg, ts[0]) + WeightOf(reg, r, ts[1..])
  }

  ghost function TotalWeight(reg: Registry, ts: seq<TypeName>): nat
    requires Acyclic(reg)
  {
    if ts == [] then 0 else Weight(reg, ts[0]) + TotalWeight(reg, ts[1..])
  }

  lemma {:induction false} WeightOfIsTotal(reg: Registry, r: nat, ts: seq<TypeName>)
    requires Acyclic(reg) && Below(reg, r, ts)
    ensures WeightOf(reg, r, ts) == TotalWeight(reg, ts)
    decreases |ts|
  {
    if ts != [] {
      WeightOfIsTotal(reg, r, ts[1..]);
    }
  }

  lemma {:induction false} TotalWeightConcat(reg: Registry, a: seq<TypeName>, b: seq<TypeName>)
    requires Acyclic(reg)
    ensures TotalWeight(reg, a + b) == TotalWeight(reg, a) + TotalWeight(reg, b)
    decreases |a|
  {
    if a == [] {
      assert a + b == b;
    } else {
      assert (a + b)[0] == a[0] && (a + b)[1..] == a[1..] + b;
      TotalWeightConcat(reg, a[1..], b);
    }
  }

  /** Walking a stretch pushes strictly less weight than it consumes. */
  lemma {:induction false} ExpandLosesWeight(reg: Registry, ts: seq<TypeName>)
    requires Acyclic(reg)
    ensures TotalWeight(reg, Expand(reg, ts)) == TotalWeight(reg, ts) - |ts|
    decreases |ts|
  {
    if ts != [] {
      var ps := ParentTypes(reg, ts[0]);
      ExpandLosesWeight(reg, ts[1..]);
      WeightOfIsTotal(reg, Rank(reg, ts[0]), ps);
      TotalWeightConcat(reg, ps, Expand(reg, ts[1..]));
    }
  }

  // ---------------------------------------------------------------------------
  // The array is the only solution of "extends, then what walking me pushes"
  // ---------------------------------------------------------------------------

  lemma NothingBelowZero(reg: Registry, ts: seq<TypeName>)
    requires Acyclic(reg)
    ensures Below(reg, 0, ts) ==> ts == []
  {
    if ts != [] {
      assert ts[0] in ts;
    }
  }

  lemma {:induction false} LevelsSolve(reg: Registry, r: nat, level: seq<TypeName>)
    requires Acyclic(reg) && Below(reg, r, level)
    ensures Levels(reg, r, level) == level + Expand(reg, Levels(reg, r, level))
    decreases r
  {
    if r == 0 {
      NothingBelowZero(reg, level);
    } else {
      PushedIsExpand(reg, r, level);
      var rest := Levels(reg, r - 1, Expand(reg, level));
      LevelsSolve(reg, r - 1, Expand(reg, level));
      ExpandConcat(reg, level, rest);
    }
  }

  lemma {:induction false} SolutionIsLevels(reg: Registry, r: nat, level: seq<TypeName>, arr: seq<TypeName>)
    requires Acyclic(reg) && Below(reg, r, level)
    requires arr == level + Expand(reg, arr)
    ensures arr == Levels(reg, r, level)
    decreases r
  {
    var rest := Expand(reg, arr);
    ExpandConcat(reg, level, rest);
    if r == 0 {
      NothingBelowZero(reg, level);
      assert level + rest == rest;
      ExpandLosesWeight(reg, arr);
    } else {
      PushedIsExpand(reg, r, level);
      SolutionIsLevels(reg, r - 1, Expand(reg, level), rest);
    }
  }

  /**
   * The array is determined by an equation that mentions no levels: it is the `extends` array
   * followed by the parent types of its own elements, in order, appended ones included.
   */
  lemma ParentTypesFixpoint(reg: Registry, t: TypeName, arr: seq<TypeName>)
    requires Acyclic(reg)
    ensures arr == ParentTypes(reg, t) <==> arr == Extends(reg, t) + Expand(reg, arr)
  {
    LevelsSolve(reg, Rank(reg, t), Extends(reg, t));
    if arr == Extends(reg, t) + Expand(reg, arr) {
      SolutionIsLevels(reg, Rank(reg, t), Extends(reg, t), arr);
    }
  }

  /** One turn of the loop: element `i` is consumed and its parent types are appended. */
  lemma WalkStep(reg: Registry, arr: seq<TypeName>, i: nat)
    requires Acyclic(reg) && i < |arr|
    ensures var arr' := arr + ParentTypes(reg, arr[i]);
      && arr'[..i + 1] == arr[..i] + [arr[i]]
      && Expand(reg, arr'[..i + 1]) == Expand(reg, arr[..i]) + ParentTypes(reg, arr[i])
      && TotalWeight(reg, arr'[i + 1..]) == TotalWeight(reg, arr[i..]) - 1
  {
    var x := arr[i];
    var pushed := ParentTypes(reg, x);
    var arr' := arr + pushed;
    assert arr'[..i + 1] == arr[..i] + [x];
    ExpandConcat(reg, arr[..i], [x]);
    assert Expand(reg, [x]) == pushed + Expand(reg, []) == pushed;
    assert arr'[i + 1..] == arr[i + 1..] + pushed;
    TotalWeightConcat(reg, arr[i + 1..], pushed);
    WeightOfIsTotal(reg, Rank(reg, x), pushed);
    assert arr[i..][0] == x && arr[i..][1..] == arr[i + 1..];
  }

  /** What the turn does to the loop's invariant and to what is left to walk. */
  lemma TurnKeeps(reg: Registry, t: TypeName, arr: seq<TypeName>, i: nat)
    requires Acyclic(reg) && i < |arr| && Walked(reg, t, arr, i)
    ensures var arr' := arr + ParentTypes(reg, arr[i]);
      Walked(reg, t, arr', i + 1) && TotalWeight(reg, arr'[i + 1..]) < TotalWeight(reg, arr[i..])
  {
    WalkStep(reg, arr, i);
    assert Below(reg, Rank(reg, arr[i]), ParentTypes(reg, arr[i]));
    assert arr[i] in arr;
  }

  /** The loop has consumed the first `i` elements of the array it has got to. */
  ghost predicate Walked(reg: Registry, t: TypeName, arr: seq<TypeName>, i: nat)
    requires Acyclic(reg) && i <= |arr|
  {
    arr == Extends(reg, t) + Expand(reg, arr[..i]) && Below(reg, Rank(reg, t), arr)
  }

  lemma WalkStarts(reg: Registry, t: TypeName)
    requires Acyclic(reg)
    ensures Walked(reg, t, Extends(reg, t), 0)
  {
    assert Extends(reg, t)[..0] == [];
  }

  lemma WalkEnds(reg: Registry, t: TypeName, arr: seq<TypeName>)
    requires Acyclic(reg) && Walked(reg, t, arr, |arr|)
    ensures arr == ParentTypes(reg, t)
  {
    assert arr[..|arr|] == arr;
    ParentTypesFixpoint(reg, t, arr);
  }

  lemma NoParents(reg: Registry, t: TypeName)
    requires Acyclic(reg) && Extends(reg, t) == []
    ensures ParentTypes(reg, t) == []
  {
    ParentTypesFixpoint(reg, t, []);
  }

  /** The worklist: each element consumed appends its own parent types. */
  method GetParentTypes(reg: Registry, typeName: TypeName) returns (extendsArrCopy: seq<TypeName>)
    requires Acyclic(reg)
    ensures extendsArrCopy == ParentTypes(reg, typeName)
    decreases Rank(reg, typeName)
  {
    var extendsArr := Extends(reg, typeName);
    if |extendsArr| == 0 {
      NoParents(reg, typeName);
      return [];
    }
    extendsArrCopy := extendsArr;
    var i := 0;
    WalkStarts(reg, typeName);
    while i < |extendsArrCopy|
      invariant 0 <= i <= |extendsArrCopy|
      invariant Walked(reg, typeName, extendsArrCopy, i)
      decreases TotalWeight(reg, extendsArrCopy[i..])
    {
      assert extendsArrCopy[i] in extendsArrCopy;
      var pushed := GetParentTypes(reg, extendsArrCopy[i]);
      TurnKeeps(reg, typeName, extendsArrCopy, i);
      extendsArrCopy := extendsArrCopy + pushed;
      i := i + 1;
    }
    WalkEnds(reg, typeName, extendsArrCopy);
  }

  // ---------------------------------------------------------------------------
  // The set of returned names is the transitive closure of extends
  // ---------------------------------------------------------------------------

  /** `a` is a parent of `t`, or an ancestor of one. */
  ghost predicate Ancestor(reg: Registry, t: TypeName, a: TypeName)
    requires Acyclic(reg)
    decreases Rank(reg, t)
  {
    exists p :: p in Extends(reg, t) && (p == a || Ancestor(reg, p, a))
  }

  lemma {:induction false} AncestorTransitive(reg: Registry, t: TypeName, a: TypeName, b: TypeName)
    requires Acyclic(reg) && Ancestor(reg, t, a) && Ancestor(reg, a, b)
    ensures Ancestor(reg, t, b)
    decreases Rank(reg, t)
  {
    var p :| p in Extends(reg, t) && (p == a || Ancestor(reg, p, a));
    if p != a {
      AncestorTransitive(reg, p, a, b);
    }
  }

  lemma {:induction false} ExpandMembers(reg: Registry, ts: seq<TypeName>, a: TypeName)
    requires Acyclic(reg)
    ensures a in Expand(reg, ts) <==> exists x :: x in ts && a in ParentTypes(reg, x)
    decreases |ts|
  {
    if ts != [] {
      ExpandMembers(reg, ts[1..], a);
      if x :| x in ts && a in ParentTypes(reg, x) {
        assert x == ts[0] || x in ts[1..];
      }
      assert ts[0] in ts;
    }
  }

  lemma {:induction false} ParentTypesAreAncestors(reg: Registry, t: TypeName, a: TypeName)
    requires Acyclic(reg)
    ensures a in ParentTypes(reg, t) <==> Ancestor(reg, t, a)
    decreases Rank(reg, t), 1, 0
  {
    LevelsSolve(reg, Rank(reg, t), Extends(reg, t));
    var arr := ParentTypes(reg, t);
    if Ancestor(reg, t, a) {
      var p :| p in Extends(reg, t) && (p == a || Ancestor(reg, p, a));
      if p != a {
        ParentTypesAreAncestors(reg, p, a);
        ExpandMembers(reg, arr, a);
        assert p in arr;
      }
    }
    if a in arr {
      LevelsAreAncestors(reg, t, Rank(reg, t), Extends(reg, t), a);
    }
  }

  lemma {:induction false} LevelsAreAncestors(reg: Registry, t: TypeName, r: nat, level: seq<TypeName>, a: TypeName)
    requires Acyclic(reg) && r <= Rank(reg, t) && Below(reg, r, level)
    requires forall x :: x in level ==> Ancestor(reg, t, x)
    requires a in Levels(reg, r, level)
    ensures Ancestor(reg, t, a)
    decreases Rank(reg, t), 0, r
  {
    if a !in level {
      PushedIsExpand(reg, r, level);
      var next := Expand(reg, level);
      forall x | x in next ensures Ancestor(reg, t, x) {
        ExpandMembers(reg, level, x);
        var y :| y in level && x in ParentTypes(reg, y);
        ParentTypesAreAncestors(reg, y, x);
        AncestorTransitive(reg, t, y, x);
      }
      LevelsAreAncestors(reg, t, r - 1, next, a);
    }
  }

  // ---------------------------------------------------------------------------
  // Order of the array: a name comes after the names that stand between it and the start
  // ---------------------------------------------------------------------------

  /** Some way up from `t` to `a` passes, strictly in between, only types outside `stop`. */
  ghost predicate Unblocked(reg: Registry, stop: set<TypeName>, t: TypeName, a: TypeName)
    requires Acyclic(reg)
    decreases Rank(reg, t)
  {
    exists p :: p in Extends(reg, t) && (p == a || (p !in stop && Unblocked(reg, stop, p, a)))
  }

  lemma {:induction false} UnblockedTransitive(
    reg: Registry, stop: set<TypeName>, t: TypeName, a: TypeName, b: TypeName)
    requires Acyclic(reg) && a !in stop
    requires Unblocked(reg, stop, t, a) && Unblocked(reg, stop, a, b)
    ensures Unblocked(reg, stop, t, b)
    decreases Rank(reg, t)
  {
    var p :| p in Extends(reg, t) && (p == a || (p !in stop && Unblocked(reg, stop, p, a)));
    if p != a {
      UnblockedTransitive(reg, stop, p, a, b);
    }
  }

  /** When none of `ts[..j]` is in `stop`, the walk from `t` reaches `ts[j]` without crossing `stop`. */
  ghost predicate ReachedInOrder(reg: Registry, stop: set<TypeName>, t: TypeName, ts: seq<TypeName>)
    requires Acyclic(reg)
  {
    forall j :: 0 <= j < |ts| && (forall x :: x in ts[..j] ==> x !in stop) ==> Unblocked(reg, stop, t, ts[j])
  }

  lemma {:induction false} ParentTypesInOrder(reg: Registry, stop: set<TypeName>, t: TypeName)
    requires Acyclic(reg)
    ensures ReachedInOrder(reg, stop, t, ParentTypes(reg, t))
    decreases Rank(reg, t), 2, 0
  {
    var es := Extends(reg, t);
    forall j | 0 <= j < |es| ensures Unblocked(reg, stop, t, es[j]) {
      assert es[j] in es;
    }
    LevelsInOrder(reg, stop, t, Rank(reg, t), es);
  }

  ghost predicate Avoids(ts: seq<TypeName>, stop: set<TypeName>) {
    forall x :: x in ts ==> x !in stop
  }

  lemma InOrderConcat(reg: Registry, stop: set<TypeName>, t: TypeName, xs: seq<TypeName>, ys: seq<TypeName>)
    requires Acyclic(reg) && ReachedInOrder(reg, stop, t, xs)
    requires Avoids(xs, stop) ==> ReachedInOrder(reg, stop, t, ys)
    ensures ReachedInOrder(reg, stop, t, xs + ys)
  {
    var arr := xs + ys;
    forall j | 0 <= j < |arr| && (forall x :: x in arr[..j] ==> x !in stop)
      ensures Unblocked(reg, stop, t, arr[j])
    {
      if j < |xs| {
        assert arr[..j] == xs[..j];
      } else {
        assert arr[..j] == xs + ys[..j - |xs|];
      }
    }
  }

  lemma {:induction false} LevelsInOrder(reg: Registry, stop: set<TypeName>, t: TypeName, r: nat, level: seq<TypeName>)
    requires Acyclic(reg) && r <= Rank(reg, t) && Below(reg, r, level)
    requires ReachedInOrder(reg, stop, t, level)
    ensures ReachedInOrder(reg, stop, t, Levels(reg, r, level))
    decreases Rank(reg, t), 1, r
  {
    if r > 0 {
      PushedIsExpand(reg, r, level);
      var next := Expand(reg, level);
      if Avoids(level, stop) {
        AllReached(reg, stop, t, level);
        ExpandInOrder(reg, stop, t, level);
        LevelsInOrder(reg, stop, t, r - 1, next);
      }
      InOrderConcat(reg, stop, t, level, Levels(reg, r - 1, next));
    }
  }

  lemma AllReached(reg: Registry, stop: set<TypeName>, t: TypeName, ts: seq<TypeName>)
    requires Acyclic(reg) && ReachedInOrder(reg, stop, t, ts) && Avoids(ts, stop)
    ensures forall x :: x in ts ==> Unblocked(reg, stop, t, x)
  {
    forall x | x in ts ensures Unblocked(reg, stop, t, x) {
      var j :| 0 <= j < |ts| && ts[j] == x;
      assert forall y :: y in ts[..j] ==> y in ts;
    }
  }

  lemma {:induction false} ExpandInOrder(reg: Registry, stop: set<TypeName>, t: TypeName, ts: seq<TypeName>)
    requires Acyclic(reg) && Below(reg, Rank(reg, t), ts)
    requires Avoids(ts, stop) && forall x :: x in ts ==> Unblocked(reg, stop, t, x)
    ensures ReachedInOrder(reg, stop, t, Expand(reg, ts))
    decreases Rank(reg, t), 0, |ts|
  {
    if ts != [] {
      var x, rest := ts[0], ts[1..];
      assert x in ts;
      ParentTypesInOrder(reg, stop, x);
      ReachedBeyond(reg, stop, t, x, ParentTypes(reg, x));
      ExpandInOrder(reg, stop, t, rest);
      InOrderConcat(reg, stop, t, ParentTypes(reg, x), Expand(reg, rest));
    }
  }

  lemma ReachedBeyond(reg: Registry, stop: set<TypeName>, t: TypeName, x: TypeName, ts: seq<TypeName>)
    requires Acyclic(reg) && x !in stop && Unblocked(reg, stop, t, x) && ReachedInOrder(reg, stop, x, ts)
    ensures ReachedInOrder(reg, stop, t, ts)
  {
    forall j | 0 <= j < |ts| && (forall y :: y in ts[..j] ==> y !in stop) ensures Unblocked(reg, stop, t, ts[j]) {
      UnblockedTransitive(reg, stop, t, x, ts[j]);
    }
  }

  /**
   * A name that can be reached only through `a` never comes before the first `a`. On a chain
   * this says that first occurrences come nearest first.
   */
  lemma ReachedOnlyThroughComesLater(reg: Registry, t: TypeName, a: TypeName, j: nat)
    requires Acyclic(reg) && j < |ParentTypes(reg, t)|
    requires !Unblocked(reg, {a}, t, ParentTypes(reg, t)[j])
    ensures a in ParentTypes(reg, t)[..j]
  {
    ParentTypesInOrder(reg, {a}, t);
  }
}
