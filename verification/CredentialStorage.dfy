/**
 * What `setPlainData` stores, for every iteration order, with one parent per type. A type that one of its
 * descendants has reached before its own turn keeps its original entry; any other is merged with what its
 * ancestors contribute, up to the first one that has been reached before, which contributes what is
 * stored for it.
 */
module CredentialStorage {
  import opened Wrappers
  import opened CredentialTypes
  import opened CredentialsOverwrites
  import CredentialPrecedence

  /** A recognised type that is among these, or an ancestor of one of them. */
  ghost predicate Reached(reg: Registry, earlier: seq<TypeName>, u: TypeName)
    requires Acyclic(reg)
  {
    u in reg.types && exists t :: t in earlier && (t == u || Ancestor(reg, t, u))
  }

  /** What `u` adds to a type below it, when the types `earlier` have had their turn. */
  ghost function Contribution(
    reg: Registry, raw: Table, stored: Table, earlier: seq<TypeName>, u: TypeName): Entry
    requires Acyclic(reg)
    decreases Rank(reg, u)
  {
    if u !in reg.types then map[]
    else if Reached(reg, earlier, u) then Own(stored, u)
    else if Extends(reg, u) == [] then Own(raw, u)
    else
      assert Extends(reg, u)[0] in Extends(reg, u);
      Contribution(reg, raw, stored, earlier, Extends(reg, u)[0]) + Own(raw, u)
  }

  // The memo.

  ghost predicate MemoIs(reg: Registry, memo: seq<TypeName>, earlier: seq<TypeName>)
    requires Acyclic(reg)
  {
    forall u :: u in memo <==> Reached(reg, earlier, u)
  }

  lemma ReachedUpwards(reg: Registry, earlier: seq<TypeName>, u: TypeName, a: TypeName)
    requires Acyclic(reg) && Reached(reg, earlier, u) && Ancestor(reg, u, a) && a in reg.types
    ensures Reached(reg, earlier, a)
  {
    var t :| t in earlier && (t == u || Ancestor(reg, t, u));
    if t != u { AncestorTransitive(reg, t, u, a); }
  }

  lemma ReachedSnoc(reg: Registry, earlier: seq<TypeName>, t: TypeName, u: TypeName)
    requires Acyclic(reg)
    ensures Reached(reg, earlier + [t], u)
       <==> Reached(reg, earlier, u) || (u in reg.types && (u == t || Ancestor(reg, t, u)))
  {
    assert t in earlier + [t];
    assert forall x :: x in earlier ==> x in earlier + [t];
  }

  lemma AncestorThroughParent(reg: Registry, t: TypeName, p: TypeName, u: TypeName)
    requires Acyclic(reg) && Extends(reg, t) == [p]
    ensures Ancestor(reg, t, u) <==> u == p || Ancestor(reg, p, u)
  {
    assert p in Extends(reg, t);
  }

  /** Resolving reaches the type and its ancestors, and nothing else. */
  lemma {:induction false} ResolveReaches(
    reg: Registry, table: Table, memo: seq<TypeName>, earlier: seq<TypeName>, t: TypeName)
    requires Acyclic(reg) && SingleInheritance(reg) && MemoIs(reg, memo, earlier)
    ensures MemoIs(reg, Resolve(reg, table, memo, t).1, earlier + [t])
    decreases Rank(reg, t)
  {
    var memo' := Resolve(reg, table, memo, t).1;
    if t !in memo && Extends(reg, t) != [] {
      var p := Extends(reg, t)[0];
      assert Extends(reg, t) == [p] && p in Extends(reg, t);
      ResolveReaches(reg, table, memo, earlier, p);
      CredentialPrecedence.ResolveOneParent(reg, table, memo, t, p);
      forall u ensures u in memo' <==> Reached(reg, earlier + [t], u) {
        ReachedSnoc(reg, earlier, t, u);
        ReachedSnoc(reg, earlier, p, u);
        AncestorThroughParent(reg, t, p, u);
      }
    } else {
      forall u ensures u in memo' <==> Reached(reg, earlier + [t], u) {
        ReachedSnoc(reg, earlier, t, u);
        if t in memo && u in reg.types && Ancestor(reg, t, u) {
          ReachedUpwards(reg, earlier, t, u);
        }
        if t !in memo && t in reg.types { NoAncestors(reg, t, u); }
        if t !in reg.types { NoAncestors(reg, t, u); }
      }
    }
  }

  lemma NoAncestors(reg: Registry, t: TypeName, u: TypeName)
    requires Acyclic(reg)
    ensures Extends(reg, t) == [] ==> !Ancestor(reg, t, u)
  {
  }

  // The value.

  function Value(e: Option<Entry>): Entry {
    if e.Some? then e.value else map[]
  }

  /** Types that no turn has reached are as they were. */
  ghost predicate Untouched(reg: Registry, raw: Table, table: Table, earlier: seq<TypeName>)
    requires Acyclic(reg)
  {
    forall u :: !Reached(reg, earlier, u) ==> Own(table, u) == Own(raw, u)
  }

  lemma {:induction false} ResolveContributes(
    reg: Registry, raw: Table, table: Table, memo: seq<TypeName>, earlier: seq<TypeName>, t: TypeName)
    requires Acyclic(reg) && SingleInheritance(reg) && MemoIs(reg, memo, earlier)
    requires Untouched(reg, raw, table, earlier)
    ensures Value(Resolve(reg, table, memo, t).0) == Contribution(reg, raw, table, earlier, t)
    decreases Rank(reg, t)
  {
    if t in reg.types && t !in memo && Extends(reg, t) != [] {
      var p := Extends(reg, t)[0];
      assert Extends(reg, t) == [p] && p in Extends(reg, t);
      ResolveContributes(reg, raw, table, memo, earlier, p);
      CredentialPrecedence.ResolveOneParent(reg, table, memo, t, p);
    }
  }

  /** Only what is stored for reached types matters. */
  lemma {:induction false} ContributionDependsOnReached(
    reg: Registry, raw: Table, table: Table, table': Table, earlier: seq<TypeName>, t: TypeName)
    requires Acyclic(reg) && forall u :: Reached(reg, earlier, u) ==> Own(table, u) == Own(table', u)
    ensures Contribution(reg, raw, table, earlier, t) == Contribution(reg, raw, table', earlier, t)
    decreases Rank(reg, t)
  {
    if t in reg.types && !Reached(reg, earlier, t) && Extends(reg, t) != [] {
      assert Extends(reg, t)[0] in Extends(reg, t);
      ContributionDependsOnReached(reg, raw, table, table', earlier, Extends(reg, t)[0]);
    }
  }

  // The loop.

  lemma {:induction false} SetPlainConcat(
    reg: Registry, table: Table, memo: seq<TypeName>, a: seq<TypeName>, b: seq<TypeName>)
    requires Acyclic(reg)
    ensures var (table', memo') := SetPlain(reg, table, memo, a);
      SetPlain(reg, table, memo, a + b) == SetPlain(reg, table', memo', b)
    decreases |a|
  {
    if a == [] {
      assert a + b == b;
    } else {
      assert (a + b)[0] == a[0] && (a + b)[1..] == a[1..] + b;
      var (e, memo') := Resolve(reg, table, memo, a[0]);
      var table' := if e.Some? && e.value != map[] then table[a[0] := e.value] else table;
      SetPlainConcat(reg, table', memo', a[1..], b);
    }
  }

  lemma {:induction false} SetPlainKeeps(
    reg: Registry, table: Table, memo: seq<TypeName>, order: seq<TypeName>, t: TypeName)
    requires Acyclic(reg) && forall u :: u in order ==> u in table
    ensures var table' := SetPlain(reg, table, memo, order).0;
      table'.Keys == table.Keys && (t !in order || t in memo ==> Own(table', t) == Own(table, t))
    decreases |order|
  {
    if order != [] {
      assert order[0] in order;
      var (e, memo') := Resolve(reg, table, memo, order[0]);
      var table' := if e.Some? && e.value != map[] then table[order[0] := e.value] else table;
      CredentialPrecedence.ResolveMemo(reg, table, memo, order[0]);
      assert table'.Keys == table.Keys;
      SetPlainKeeps(reg, table', memo', order[1..], t);
    }
  }

  /** Before turn `i` of the loop. */
  lemma {:induction false} BeforeTurn(reg: Registry, raw: Table, order: seq<TypeName>, i: nat)
    requires Acyclic(reg) && SingleInheritance(reg) && Enumerates(order, raw.Keys) && i <= |order|
    ensures var (table, memo) := SetPlain(reg, raw, [], order[..i]);
      && table.Keys == raw.Keys && MemoIs(reg, memo, order[..i]) && Untouched(reg, raw, table, order[..i])
      && (forall u :: u !in order[..i] ==> Own(table, u) == Own(raw, u))
    decreases i
  {
    if i == 0 {
      assert order[..i] == [];
    } else {
      var earlier, t := order[..i - 1], order[i - 1];
      BeforeTurn(reg, raw, order, i - 1);
      assert order[..i] == earlier + [t];
      SetPlainConcat(reg, raw, [], earlier, [t]);
      var (table, memo) := SetPlain(reg, raw, [], earlier);
      var (table', memo') := SetPlain(reg, raw, [], order[..i]);
      OneTurn(reg, table, memo, t);
      ResolveReaches(reg, table, memo, earlier, t);
      forall u | !Reached(reg, order[..i], u) ensures Own(table', u) == Own(raw, u) {
        ReachedSnoc(reg, earlier, t, u);
      }
    }
  }

  lemma OneTurn(reg: Registry, table: Table, memo: seq<TypeName>, t: TypeName)
    requires Acyclic(reg) && t in table && (t in memo ==> t in reg.types)
    ensures var (e, memo') := Resolve(reg, table, memo, t);
      && SetPlain(reg, table, memo, [t])
         == (if e.Some? && e.value != map[] then table[t := e.value] else table, memo')
      && (t !in reg.types ==> e.None?)
  {
    assert [t][1..] == [];
  }

  /** What has been reached when turn `i` comes does not change any more. */
  lemma ReachedStays(reg: Registry, raw: Table, order: seq<TypeName>, i: nat, u: TypeName)
    requires Acyclic(reg) && SingleInheritance(reg) && Enumerates(order, raw.Keys) && i <= |order|
    ensures Reached(reg, order[..i], u) ==>
      Own(SetPlain(reg, raw, [], order[..i]).0, u) == Own(Stored(reg, raw, order), u)
  {
    var (table, memo) := SetPlain(reg, raw, [], order[..i]);
    BeforeTurn(reg, raw, order, i);
    assert order == order[..i] + order[i..];
    SetPlainConcat(reg, raw, [], order[..i], order[i..]);
    assert forall v :: v in order[i..] ==> v in order;
    SetPlainKeeps(reg, table, memo, order[i..], u);
  }

  /** What turn `i` leaves for its type. */
  lemma AfterTurn(reg: Registry, raw: Table, order: seq<TypeName>, i: nat)
    requires Acyclic(reg) && SingleInheritance(reg) && Enumerates(order, raw.Keys) && i < |order|
    ensures var (table, memo) := SetPlain(reg, raw, [], order[..i]);
      var (e, stored) := (Resolve(reg, table, memo, order[i]).0, Stored(reg, raw, order));
      && order[i] in stored
      && stored[order[i]] == (if e.Some? && e.value != map[] then e.value else Own(table, order[i]))
  {
    var earlier, t, rest := order[..i], order[i], order[i + 1..];
    var (table, memo) := SetPlain(reg, raw, [], earlier);
    BeforeTurn(reg, raw, order, i);
    assert t in order && t !in rest;
    assert order == earlier + ([t] + rest);
    SetPlainConcat(reg, raw, [], earlier, [t] + rest);
    SetPlainConcat(reg, table, memo, [t], rest);
    OneTurn(reg, table, memo, t);
    assert forall u :: u in rest ==> u in order;
    var (table', memo') := SetPlain(reg, table, memo, [t]);
    SetPlainKeeps(reg, table', memo', rest, t);
  }

  /**
   * The stored table, for any iteration order: a type keeps its original entry if it is not recognised
   * or a descendant of it has had its turn before, and is otherwise merged with what it inherits then.
   */
  lemma StoredExactly(reg: Registry, raw: Table, order: seq<TypeName>, i: nat)
    requires Acyclic(reg) && SingleInheritance(reg) && Enumerates(order, raw.Keys) && i < |order|
    ensures var (t, stored) := (order[i], Stored(reg, raw, order));
      && t in stored
      && stored[t] == if t in reg.types && !Reached(reg, order[..i], t)
                      then Contribution(reg, raw, stored, order[..i], t)
                      else raw[t]
  {
    var earlier, t, stored := order[..i], order[i], Stored(reg, raw, order);
    var (table, memo) := SetPlain(reg, raw, [], earlier);
    assert table.Keys == raw.Keys && MemoIs(reg, memo, earlier) && t in table && table[t] == raw[t] by {
      BeforeTurn(reg, raw, order, i);
      assert t in order && t !in earlier && Own(table, t) == Own(raw, t);
    }
    AfterTurn(reg, raw, order, i);
    if t in reg.types && !Reached(reg, earlier, t) {
      assert Value(Resolve(reg, table, memo, t).0) == Contribution(reg, raw, stored, earlier, t) by {
        BeforeTurn(reg, raw, order, i);
        ResolveContributes(reg, raw, table, memo, earlier, t);
        forall u | Reached(reg, earlier, u) ensures Own(table, u) == Own(stored, u) {
          ReachedStays(reg, raw, order, i, u);
        }
        ContributionDependsOnReached(reg, raw, table, stored, earlier, t);
      }
      OwnIsContributed(reg, raw, stored, earlier, t);
    }
  }

  lemma OwnIsContributed(reg: Registry, raw: Table, stored: Table, earlier: seq<TypeName>, t: TypeName)
    requires Acyclic(reg) && t in reg.types && !Reached(reg, earlier, t)
    ensures Contribution(reg, raw, stored, earlier, t) == map[] ==> Own(raw, t) == map[]
  {
    if Own(raw, t) != map[] {
      var key :| key in Own(raw, t);
      assert key in Contribution(reg, raw, stored, earlier, t);
    }
  }

  /** Every type and every ancestor of one has an entry, and is recognised. */
  ghost predicate Complete(reg: Registry, raw: Table)
    requires Acyclic(reg)
  {
    raw.Keys <= reg.types.Keys && forall t, a :: t in raw && Ancestor(reg, t, a) ==> a in raw
  }

  ghost predicate ParentsFirst(reg: Registry, order: seq<TypeName>) {
    forall i, j :: 0 <= i < |order| && 0 <= j < |order| && order[j] in Extends(reg, order[i]) ==> j < i
  }

  lemma {:induction false} AncestorsFirst(reg: Registry, raw: Table, order: seq<TypeName>, i: nat, j: nat)
    requires Acyclic(reg) && Enumerates(order, raw.Keys) && Complete(reg, raw) && ParentsFirst(reg, order)
    requires i < |order| && j < |order| && Ancestor(reg, order[j], order[i])
    ensures i < j
    decreases j
  {
    var p :| p in Extends(reg, order[j]) && (p == order[i] || Ancestor(reg, p, order[i]));
    assert order[j] in order && Ancestor(reg, order[j], p);
    var k :| 0 <= k < |order| && order[k] == p;
    if p != order[i] { AncestorsFirst(reg, raw, order, i, k); }
  }

  /** Where parents come before children, every type is stored fully merged. */
  lemma {:induction false} ParentsFirstStoresNearest(reg: Registry, raw: Table, order: seq<TypeName>, i: nat)
    requires Acyclic(reg) && SingleInheritance(reg) && Enumerates(order, raw.Keys)
    requires Complete(reg, raw) && ParentsFirst(reg, order) && i < |order|
    ensures order[i] in Stored(reg, raw, order)
    ensures Stored(reg, raw, order)[order[i]] == Nearest(reg, raw, order[i])
    decreases i
  {
    var t, earlier := order[i], order[..i];
    StoredExactly(reg, raw, order, i);
    assert t in order;
    if Reached(reg, earlier, t) {
      var d :| d in earlier && (d == t || Ancestor(reg, d, t));
      var j :| 0 <= j < i && order[j] == d;
      if d != t { AncestorsFirst(reg, raw, order, i, j); }
      assert false;
    }
    if Extends(reg, t) != [] {
      var p := Extends(reg, t)[0];
      assert p in Extends(reg, t) && Ancestor(reg, t, p) && p in raw;
      var k :| 0 <= k < |order| && order[k] == p;
      assert k < i && earlier[k] == p && p in earlier;
      ParentsFirstStoresNearest(reg, raw, order, k);
      assert Reached(reg, earlier, p);
    }
  }

  /** Once the table is stored, `getOverwrites` returns of each recognised type what is stored. */
  lemma ResolvedIsStored(reg: Registry, raw: Table, order: seq<TypeName>, t: TypeName)
    requires Acyclic(reg) && SingleInheritance(reg) && Enumerates(order, raw.Keys) && t in raw && t in reg.types
    ensures var (stored, memo) := SetPlain(reg, raw, [], order);
      t in stored && Resolve(reg, stored, memo, t) == (Some(stored[t]), memo)
  {
    BeforeTurn(reg, raw, order, |order|);
    assert order[..|order|] == order && t in order;
    assert Reached(reg, order, t);
  }
}
