/**
 * Limits of the overwrite scheme: the stored table depends on the iteration order, and with
 * several disagreeing parents the precedence is not consistent. Where the ways up agree, it is.
 */
module CredentialPrecedence {
  import opened Wrappers
  import opened CredentialTypes
  import opened CredentialsOverwrites

  /** All ways up agree on `key`. */
  ghost predicate Unambiguous(reg: Registry, raw: Table, t: TypeName, key: string)
    requires Acyclic(reg)
  {
    forall v, w :: Candidate(reg, raw, t, key, v) && Candidate(reg, raw, t, key, w) ==> v == w
  }

  /** Several parents are no obstacle where the ways up agree: order and reloads leave the value alone. */
  lemma UnambiguousIsStable(
    reg: Registry, raw: Table, order1: seq<TypeName>, order2: seq<TypeName>, orders: seq<seq<TypeName>>,
    t: TypeName, key: string)
    requires Acyclic(reg) && Unambiguous(reg, raw, t, key)
    requires Enumerates(order1, raw.Keys) && Enumerates(order2, raw.Keys)
    requires forall o :: o in orders ==> Enumerates(o, raw.Keys)
    ensures var g1 := Get(reg, Stored(reg, raw, order1), t);
      var g2 := Get(reg, Reloaded(reg, Stored(reg, raw, order2), orders), t);
      (key in g1 <==> key in g2) && (key in g1 ==> g1[key] == g2[key])
  {
    StoredBetween(reg, raw, order1);
    StoredBetween(reg, raw, order2);
    var table1, table2 := Stored(reg, raw, order1), Reloaded(reg, Stored(reg, raw, order2), orders);
    ReloadedBetween(reg, raw, Stored(reg, raw, order2), orders);
    GetDefinesExactly(reg, raw, table1, t, key);
    GetDefinesExactly(reg, raw, table2, t, key);
    if key in Get(reg, table1, t) {
      GetIsCandidate(reg, raw, table1, t, key);
      GetIsCandidate(reg, raw, table2, t, key);
    }
  }

  /**
   * The stored table, unlike `get`, depends on the iteration order: on a chain a, b, c, starting
   * with the child freezes the raw entry of b, starting with b stores b's entry merged with c's. The
   * two differ if and only if c defines a key that b does not.
   */
  lemma StoredDependsOnOrder(
    reg: Registry, raw: Table, childFirst: seq<TypeName>, parentFirst: seq<TypeName>,
    a: TypeName, b: TypeName, c: TypeName)
    requires Acyclic(reg) && {a, b, c} <= reg.types.Keys && {a, b, c} <= raw.Keys
    requires reg.types[a] == Some([b]) && reg.types[b] == Some([c]) && reg.types[c] == None
    requires |childFirst| > 0 && childFirst[0] == a && |parentFirst| > 0 && parentFirst[0] == b
    ensures {a, b} <= Stored(reg, raw, childFirst).Keys && b in Stored(reg, raw, parentFirst)
    ensures Stored(reg, raw, childFirst)[b] == raw[b]
    ensures Stored(reg, raw, parentFirst)[b] == raw[c] + raw[b]
    ensures Stored(reg, raw, childFirst)[b] != Stored(reg, raw, parentFirst)[b]
       <==> exists key :: key in raw[c] && key !in raw[b]
  {
    assert b in Extends(reg, a) && c in Extends(reg, b);
    ResolveParentsMemo(reg, raw, [], Rank(reg, a), [b], map[]);
    FirstStepFreezes(reg, raw, childFirst, b);
    FirstStepFreezes(reg, raw, childFirst, a);
    ResolveOneParent(reg, raw, [], b, c);
    FirstStepFreezes(reg, raw, parentFirst, b);
    if key :| key in raw[c] && key !in raw[b] {
      assert key in raw[c] + raw[b];
    } else {
      assert raw[c] + raw[b] == raw[b];
    }
  }

  /** What the loop body does to the table in its first turn, for a type that turn has memoised. */
  lemma FirstStepFreezes(reg: Registry, raw: Table, order: seq<TypeName>, t: TypeName)
    requires Acyclic(reg) && order != [] && t in raw && t in Resolve(reg, raw, [], order[0]).1
    ensures var e := Resolve(reg, raw, [], order[0]).0;
      t in Stored(reg, raw, order)
      && Stored(reg, raw, order)[t] == if t == order[0] && e.Some? && e.value != map[] then e.value else raw[t]
  {
    var (e, memo) := Resolve(reg, raw, [], order[0]);
    var table := if e.Some? && e.value != map[] then raw[order[0] := e.value] else raw;
    MemoisedIsFrozen(reg, table, memo, order[1..], t);
  }

  lemma ResolveOneParent(reg: Registry, table: Table, resolved: seq<TypeName>, t: TypeName, p: TypeName)
    requires Acyclic(reg) && t !in resolved && t in reg.types && reg.types[t] == Some([p])
    ensures var (e, memo) := Resolve(reg, table, resolved, p);
      Resolve(reg, table, resolved, t)
      == (Some((if e.Some? then e.value else map[]) + Own(table, t)), memo + [t])
  {
    assert p in Extends(reg, t);
    var (e, memo) := Resolve(reg, table, resolved, p);
    var acc: Entry := if e.Some? then map[] + e.value else map[];
    assert [p][1..] == [];
    assert ResolveParents(reg, table, resolved, Rank(reg, t), [p], map[])
        == ResolveParents(reg, table, memo, Rank(reg, t), [], acc) == (acc, memo);
    assert e.Some? ==> map[] + e.value == e.value;
  }

  lemma {:induction false} ResolveMemo(reg: Registry, table: Table, resolved: seq<TypeName>, t: TypeName)
    requires Acyclic(reg)
    ensures resolved <= Resolve(reg, table, resolved, t).1
    ensures t in reg.types ==> t in Resolve(reg, table, resolved, t).1
    decreases Rank(reg, t), 1, 0
  {
    if t !in resolved && t in reg.types && reg.types[t].Some? {
      ResolveParentsMemo(reg, table, resolved, Rank(reg, t), Extends(reg, t), map[]);
    }
  }

  lemma {:induction false} ResolveParentsMemo(
    reg: Registry, table: Table, resolved: seq<TypeName>, r: nat, ps: seq<TypeName>, acc: Entry)
    requires Acyclic(reg) && Below(reg, r, ps)
    ensures resolved <= ResolveParents(reg, table, resolved, r, ps, acc).1
    ensures forall p :: p in ps && p in reg.types ==> p in ResolveParents(reg, table, resolved, r, ps, acc).1
    decreases r, 0, |ps|
  {
    if ps != [] {
      assert ps[0] in ps;
      ResolveMemo(reg, table, resolved, ps[0]);
      var (e, resolved') := Resolve(reg, table, resolved, ps[0]);
      ResolveParentsMemo(reg, table, resolved', r, ps[1..], if e.Some? then acc + e.value else acc);
    }
  }

  /** Once a type is memoised, `setPlainData` no longer improves its entry. */
  lemma {:induction false} MemoisedIsFrozen(
    reg: Registry, table: Table, resolved: seq<TypeName>, order: seq<TypeName>, t: TypeName)
    requires Acyclic(reg) && t in resolved && t in table
    ensures t in SetPlain(reg, table, resolved, order).0
    ensures SetPlain(reg, table, resolved, order).0[t] == table[t]
    decreases |order|
  {
    if order != [] {
      ResolveMemo(reg, table, resolved, order[0]);
      var (e, resolved') := Resolve(reg, table, resolved, order[0]);
      var table' := if e.Some? && e.value != map[] then table[order[0] := e.value] else table;
      MemoisedIsFrozen(reg, table', resolved', order[1..], t);
    }
  }

  /** `get(t)` shows `v` for `key`. */
  ghost predicate Shows(reg: Registry, table: Table, t: TypeName, key: string, v: Value)
    requires Acyclic(reg)
  {
    key in Get(reg, table, t) && Get(reg, table, t)[key] == v
  }

  /**
   * With several parents even `get` depends on the iteration order of one and the same table: `s` has
   * no entry and extends p and q, the key is defined by q and by p's parent. Whether p's parent is seen
   * through p turns on whether p, or a child of p, is resolved first.
   */
  lemma GetDependsOnOrder(
    reg: Registry, raw: Table, childFirst: seq<TypeName>, parentFirst: seq<TypeName>,
    s: TypeName, t: TypeName, p: TypeName, pp: TypeName, q: TypeName, key: string)
    requires Acyclic(reg) && {s, t, p, pp} <= reg.types.Keys && {t, p, pp, q} <= raw.Keys && s !in raw
    requires reg.types[s] == Some([p, q]) && reg.types[t] == Some([p]) && reg.types[p] == Some([pp])
    requires reg.types[pp] == None && key in raw[pp] && key in raw[q] && key !in raw[p]
    requires Enumerates(childFirst, raw.Keys) && childFirst[0] == t
    requires Enumerates(parentFirst, raw.Keys) && parentFirst[0] == p
    ensures Shows(reg, Stored(reg, raw, childFirst), s, key, raw[q][key])
    ensures Shows(reg, Stored(reg, raw, parentFirst), s, key, raw[pp][key])
  {
    StoredDependsOnOrder(reg, raw, childFirst, parentFirst, t, p, pp);
    StoredBetween(reg, raw, childFirst);
    StoredBetween(reg, raw, parentFirst);
    var table1, table2 := Stored(reg, raw, childFirst), Stored(reg, raw, parentFirst);
    assert Extends(reg, s) == [p, q];
    KeepsOwnValue(reg, raw, table1, q, key);
    ShowsParent(reg, table1, s, key, 1);
    ShowsParent(reg, table2, s, key, 0);
  }

  lemma KeepsOwnValue(reg: Registry, raw: Table, table: Table, t: TypeName, key: string)
    requires Acyclic(reg) && TableBetween(reg, raw, table) && t in raw && key in raw[t]
    ensures t in table && key in table[t] && table[t][key] == raw[t][key]
  {
    assert EntryBetween(reg, raw, t, table[t]);
    assert Candidate(reg, raw, t, key, table[t][key]);
  }

  /** A key the type does not have is that of its first parent that has it. */
  lemma ShowsParent(reg: Registry, table: Table, t: TypeName, key: string, i: nat)
    requires Acyclic(reg) && i < |Extends(reg, t)| && key !in Own(table, t)
    requires key in Own(table, Extends(reg, t)[i])
    requires forall j :: 0 <= j < i ==> key !in Own(table, Extends(reg, t)[j])
    ensures Shows(reg, table, t, key, Own(table, Extends(reg, t)[i])[key])
  {
    var ts, es := [t] + ParentTypes(reg, t), Extends(reg, t);
    LevelsSolve(reg, Rank(reg, t), es);
    assert forall j :: 0 <= j < |es| ==> ts[j + 1] == es[j];
    MergeLooksUpFirst(table, ts, key);
    assert forall j :: 0 < j < i + 1 ==> ts[j] == es[j - 1];
    assert FirstWith(table, ts, key, i + 1);
  }

  /**
   * With two parents that disagree, precedence is not consistent: `get` prefers the first parent,
   * while `getOverwrites` prefers the last. Which of them is seen flips when the child gets an
   * entry of its own, even one about other keys.
   */
  lemma TwoParentsFlip(
    reg: Registry, raw: Table, order: seq<TypeName>, own: Entry, order': seq<TypeName>,
    t: TypeName, p: TypeName, q: TypeName, key: string)
    requires Acyclic(reg) && {t, p, q} <= reg.types.Keys && p != q
    requires reg.types[t] == Some([p, q]) && reg.types[p] == reg.types[q] == None
    requires t !in raw && p in raw && q in raw && key in raw[p] && key in raw[q] && key !in own
    requires Enumerates(order, raw.Keys)
    requires Enumerates(order', raw.Keys + {t}) && order' != [] && order'[0] == t
    ensures Shows(reg, Stored(reg, raw, order), t, key, raw[p][key])
    ensures Shows(reg, Stored(reg, raw[t := own], order'), t, key, raw[q][key])
  {
    FirstParentShows(reg, raw, order, t, p, key);
    LastParentShows(reg, raw[t := own], order', t, p, q, key);
  }

  /**
   * The converse fails: two parents disagree, and still every order shows the first one's value, as
   * long as the child has no entry.
   */
  lemma StableThoughAmbiguous(
    reg: Registry, raw: Table, order: seq<TypeName>, t: TypeName, p: TypeName, q: TypeName, key: string)
    requires Acyclic(reg) && t in reg.types && reg.types[t] == Some([p, q]) && Enumerates(order, raw.Keys)
    requires t !in raw && p in raw && q in raw && key in raw[p] && key in raw[q] && raw[p][key] != raw[q][key]
    ensures !Unambiguous(reg, raw, t, key) && Shows(reg, Stored(reg, raw, order), t, key, raw[p][key])
  {
    assert p in Extends(reg, t) && q in Extends(reg, t);
    assert Candidate(reg, raw, p, key, raw[p][key]) && Candidate(reg, raw, q, key, raw[q][key]);
    assert Candidate(reg, raw, t, key, raw[p][key]) && Candidate(reg, raw, t, key, raw[q][key]);
    FirstParentShows(reg, raw, order, t, p, key);
  }

  lemma FirstParentShows(reg: Registry, raw: Table, order: seq<TypeName>, t: TypeName, p: TypeName, key: string)
    requires Acyclic(reg) && Enumerates(order, raw.Keys)
    requires t !in raw && p in raw && key in raw[p] && Extends(reg, t) != [] && Extends(reg, t)[0] == p
    ensures Shows(reg, Stored(reg, raw, order), t, key, raw[p][key])
  {
    StoredBetween(reg, raw, order);
    KeepsOwnValue(reg, raw, Stored(reg, raw, order), p, key);
    ShowsParent(reg, Stored(reg, raw, order), t, key, 0);
  }

  lemma LastParentShows(
    reg: Registry, raw: Table, order: seq<TypeName>, t: TypeName, p: TypeName, q: TypeName, key: string)
    requires Acyclic(reg) && {t, p, q} <= reg.types.Keys && p != q && {t, p, q} <= raw.Keys
    requires reg.types[t] == Some([p, q]) && reg.types[p] == reg.types[q] == None
    requires key in raw[q] && key !in raw[t]
    requires order != [] && order[0] == t
    ensures Shows(reg, Stored(reg, raw, order), t, key, raw[q][key])
  {
    var table, ts := Stored(reg, raw, order), [t] + ParentTypes(reg, t);
    ResolveTwoParents(reg, raw, t, p, q);
    FirstStepFreezes(reg, raw, order, t);
    MergeLooksUpFirst(table, ts, key);
    assert FirstWith(table, ts, key, 0);
  }

  lemma ResolveTwoParents(reg: Registry, table: Table, t: TypeName, p: TypeName, q: TypeName)
    requires Acyclic(reg) && {t, p, q} <= reg.types.Keys && p != q && {t, p, q} <= table.Keys
    requires reg.types[t] == Some([p, q]) && reg.types[p] == reg.types[q] == None
    ensures Resolve(reg, table, [], t) == (Some(table[p] + table[q] + table[t]), [p] + [q] + [t])
  {
    var ps, r := [p, q], Rank(reg, t);
    assert Extends(reg, t) == ps && p in ps && q in ps;
    assert Resolve(reg, table, [], p) == (Some(table[p]), [] + [p]);
    assert Resolve(reg, table, [p], q) == (Some(table[q]), [p] + [q]);
    assert ps[1..] == [q] && [q][1..] == [] && [] + [p] == [p];
    var none: Entry := map[];
    assert none + table[p] == table[p];
    assert ResolveParents(reg, table, [], r, ps, none) == ResolveParents(reg, table, [p], r, [q], table[p]);
    assert ResolveParents(reg, table, [p], r, [q], table[p])
        == ResolveParents(reg, table, [p] + [q], r, [], table[p] + table[q]);
  }
}
