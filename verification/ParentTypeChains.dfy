/**
 * `getParentTypes` on a chain of types, each extending one parent: nearer ancestors come first,
 * and farther ones are repeated. The ancestor at distance d occurs as often as the Catalan
 * number with index d - 1 says.
 */
module ParentTypeChains {
  import opened Wrappers
  import opened CredentialTypes

  /** The number of ancestors above `t`. */
  ghost function Height(reg: Registry, t: TypeName): nat
    requires Acyclic(reg)
    decreases Rank(reg, t)
  {
    if Extends(reg, t) == [] then 0 else
      assert Extends(reg, t)[0] in Extends(reg, t);
      1 + Height(reg, Extends(reg, t)[0])
  }

  /** The ancestor `d` steps above `t`. */
  ghost function Up(reg: Registry, t: TypeName, d: nat): TypeName
    requires Acyclic(reg) && d <= Height(reg, t)
    decreases d
  {
    if d == 0 then t else Up(reg, Extends(reg, t)[0], d - 1)
  }

  ghost function Catalan(n: nat): nat
    decreases n, 1, 0
  {
    if n == 0 then 1 else CatalanSum(n, n)
  }

  /** The first `k` terms of the recurrence for `Catalan(n)`. */
  ghost function CatalanSum(n: nat, k: nat): nat
    requires k <= n
    decreases n, 0, k
  {
    if k == 0 then 0 else CatalanSum(n, k - 1) + Catalan(k - 1) * Catalan(n - k)
  }

  lemma {:induction false} UpUp(reg: Registry, t: TypeName, i: nat, d: nat)
    requires Acyclic(reg) && i + d <= Height(reg, t)
    ensures Height(reg, Up(reg, t, i)) == Height(reg, t) - i
    ensures Up(reg, Up(reg, t, i), d) == Up(reg, t, i + d)
    decreases i
  {
    if i > 0 {
      UpUp(reg, Extends(reg, t)[0], i - 1, d);
    }
  }

  lemma {:induction false} UpRanksLower(reg: Registry, t: TypeName, d: nat)
    requires Acyclic(reg) && 0 < d <= Height(reg, t)
    ensures Rank(reg, Up(reg, t, d)) < Rank(reg, t)
    decreases d
  {
    var p := Extends(reg, t)[0];
    assert p in Extends(reg, t);
    if d > 1 {
      UpRanksLower(reg, p, d - 1);
    }
  }

  lemma UpDistinct(reg: Registry, t: TypeName, i: nat, j: nat)
    requires Acyclic(reg) && i < j <= Height(reg, t)
    ensures Rank(reg, Up(reg, t, j)) < Rank(reg, Up(reg, t, i))
  {
    UpUp(reg, t, i, j - i);
    UpRanksLower(reg, Up(reg, t, i), j - i);
  }

  /** On a chain the ancestors are exactly the types above. */
  lemma {:induction false} AncestorIsUp(reg: Registry, t: TypeName, a: TypeName) returns (d: nat)
    requires Acyclic(reg) && SingleInheritance(reg) && Ancestor(reg, t, a)
    ensures 0 < d <= Height(reg, t) && Up(reg, t, d) == a
    decreases Rank(reg, t)
  {
    var p :| p in Extends(reg, t) && (p == a || Ancestor(reg, p, a));
    assert p == Extends(reg, t)[0];
    if p == a {
      d := 1;
      assert Up(reg, t, 1) == Up(reg, p, 0);
    } else {
      var e := AncestorIsUp(reg, p, a);
      d := e + 1;
    }
  }

  lemma {:induction false} UpIsAncestor(reg: Registry, t: TypeName, d: nat)
    requires Acyclic(reg) && 0 < d <= Height(reg, t)
    ensures Ancestor(reg, t, Up(reg, t, d))
    decreases d
  {
    var p := Extends(reg, t)[0];
    var a := Up(reg, t, d);
    assert a == Up(reg, p, d - 1);
    if d > 1 {
      UpIsAncestor(reg, p, d - 1);
    }
    assert p in Extends(reg, t) && (p == a || Ancestor(reg, p, a));
  }

  lemma {:induction false} NoWayAround(reg: Registry, t: TypeName, i: nat, d: nat)
    requires Acyclic(reg) && SingleInheritance(reg) && 0 < i < d <= Height(reg, t)
    ensures !Unblocked(reg, {Up(reg, t, i)}, t, Up(reg, t, d))
    decreases i
  {
    var a, b, p := Up(reg, t, i), Up(reg, t, d), Extends(reg, t)[0];
    assert p == Up(reg, p, 0) == Up(reg, t, 1);
    UpDistinct(reg, t, 1, d);
    if i > 1 {
      NoWayAround(reg, p, i - 1, d - 1);
    }
  }

  /** Nearest first: every occurrence of the ancestor at distance `d` follows one of each nearer ancestor. */
  lemma NearestFirst(reg: Registry, t: TypeName, i: nat, d: nat, j: nat)
    requires Acyclic(reg) && SingleInheritance(reg) && 0 < i < d <= Height(reg, t)
    requires j < |ParentTypes(reg, t)| && ParentTypes(reg, t)[j] == Up(reg, t, d)
    ensures Up(reg, t, i) in ParentTypes(reg, t)[..j]
  {
    NoWayAround(reg, t, i, d);
    ReachedOnlyThroughComesLater(reg, t, Up(reg, t, i), j);
  }

  ghost function Occurrences(ts: seq<TypeName>, a: TypeName): nat {
    multiset(ts)[a]
  }

  /** Occurrences of `u` that walking the elements of `ts` at distances 1 to `n` pushes. */
  ghost function PushedByDistance(reg: Registry, t: TypeName, ts: seq<TypeName>, u: TypeName, n: nat): nat
    requires Acyclic(reg) && n <= Height(reg, t)
  {
    if n == 0 then 0
    else PushedByDistance(reg, t, ts, u, n - 1)
         + Occurrences(ts, Up(reg, t, n)) * Occurrences(ParentTypes(reg, Up(reg, t, n)), u)
  }

  lemma OneMoreOccurrence(x: TypeName, ts: seq<TypeName>, y: TypeName, c: nat)
    ensures Occurrences([x] + ts, y) * c == Occurrences(ts, y) * c + if x == y then c else 0
  {
    assert multiset([x] + ts) == multiset{x} + multiset(ts);
    assert Occurrences([x] + ts, y) == Occurrences(ts, y) + if x == y then 1 else 0;
  }

  lemma {:induction false} PushedByDistanceCons(
    reg: Registry, t: TypeName, d: nat, ts: seq<TypeName>, u: TypeName, n: nat)
    requires Acyclic(reg) && n <= Height(reg, t) && 0 < d <= Height(reg, t)
    ensures PushedByDistance(reg, t, [Up(reg, t, d)] + ts, u, n)
         == PushedByDistance(reg, t, ts, u, n)
            + if d <= n then Occurrences(ParentTypes(reg, Up(reg, t, d)), u) else 0
    decreases n
  {
    var x := Up(reg, t, d);
    if n > 0 {
      PushedByDistanceCons(reg, t, d, ts, u, n - 1);
      var y := Up(reg, t, n);
      if d < n { UpDistinct(reg, t, d, n); }
      if n < d { UpDistinct(reg, t, n, d); }
      OneMoreOccurrence(x, ts, y, Occurrences(ParentTypes(reg, y), u));
    }
  }

  lemma {:induction false} ExpandByDistance(reg: Registry, t: TypeName, ts: seq<TypeName>, u: TypeName)
    requires Acyclic(reg) && SingleInheritance(reg)
    requires forall x :: x in ts ==> Ancestor(reg, t, x)
    ensures Occurrences(Expand(reg, ts), u) == PushedByDistance(reg, t, ts, u, Height(reg, t))
    decreases |ts|
  {
    if ts == [] {
      NothingPushed(reg, t, u, Height(reg, t));
    } else {
      assert ts[0] in ts;
      var d := AncestorIsUp(reg, t, ts[0]);
      assert ts == [ts[0]] + ts[1..];
      PushedByDistanceCons(reg, t, d, ts[1..], u, Height(reg, t));
      ExpandByDistance(reg, t, ts[1..], u);
      assert multiset(Expand(reg, ts)) == multiset(ParentTypes(reg, ts[0])) + multiset(Expand(reg, ts[1..]));
    }
  }

  lemma {:induction false} NothingPushed(reg: Registry, t: TypeName, u: TypeName, n: nat)
    requires Acyclic(reg) && n <= Height(reg, t)
    ensures PushedByDistance(reg, t, [], u, n) == 0
    decreases n
  {
    if n > 0 {
      NothingPushed(reg, t, u, n - 1);
    }
  }

  /** The exact size of the repetition: distance d occurs Catalan(d - 1) times. */
  lemma {:induction false} CatalanOccurrences(reg: Registry, t: TypeName, d: nat)
    requires Acyclic(reg) && SingleInheritance(reg) && 0 < d <= Height(reg, t)
    ensures Occurrences(ParentTypes(reg, t), Up(reg, t, d)) == Catalan(d - 1)
    decreases Rank(reg, t), d, 1, 0
  {
    var arr, u, p := ParentTypes(reg, t), Up(reg, t, d), Extends(reg, t)[0];
    ParentTypesFixpoint(reg, t, arr);
    assert Extends(reg, t) == [p];
    assert multiset(arr) == multiset{p} + multiset(Expand(reg, arr));
    forall x | x in arr ensures Ancestor(reg, t, x) {
      ParentTypesAreAncestors(reg, t, x);
    }
    ExpandByDistance(reg, t, arr, u);
    PushedTerms(reg, t, d, Height(reg, t));
    assert Up(reg, t, 1) == Up(reg, p, 0) == p;
    if d > 1 {
      UpDistinct(reg, t, 1, d);
    }
  }

  /** The terms of `PushedByDistance` for the ancestor at distance `d` are those of the Catalan recurrence. */
  lemma {:induction false} PushedTerms(reg: Registry, t: TypeName, d: nat, n: nat)
    requires Acyclic(reg) && SingleInheritance(reg) && 0 < d <= Height(reg, t) && n <= Height(reg, t)
    ensures PushedByDistance(reg, t, ParentTypes(reg, t), Up(reg, t, d), n)
         == CatalanSum(d - 1, if n < d then n else d - 1)
    decreases Rank(reg, t), d, 0, n
  {
    if n > 0 {
      PushedTerms(reg, t, d, n - 1);
      if n < d {
        CatalanOccurrences(reg, t, n);
        PushedTerm(reg, t, d, n);
      } else {
        NotPushedFromAbove(reg, t, d, n);
      }
    }
  }

  lemma {:induction false} PushedTerm(reg: Registry, t: TypeName, d: nat, n: nat)
    requires Acyclic(reg) && SingleInheritance(reg) && 0 < n < d <= Height(reg, t)
    ensures Occurrences(ParentTypes(reg, Up(reg, t, n)), Up(reg, t, d)) == Catalan(d - 1 - n)
    decreases Rank(reg, t), n, 2, 0
  {
    UpRanksLower(reg, t, n);
    UpUp(reg, t, n, d - n);
    CatalanOccurrences(reg, Up(reg, t, n), d - n);
  }

  /** A type is not among the parent types of itself or of a type above it. */
  lemma NotPushedFromAbove(reg: Registry, t: TypeName, d: nat, n: nat)
    requires Acyclic(reg) && d <= n <= Height(reg, t)
    ensures Occurrences(ParentTypes(reg, Up(reg, t, n)), Up(reg, t, d)) == 0
  {
    if d < n {
      UpDistinct(reg, t, d, n);
    }
    assert Below(reg, Rank(reg, Up(reg, t, n)), ParentTypes(reg, Up(reg, t, n)));
  }
}
