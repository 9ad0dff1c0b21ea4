/**
 * Credential overwrites and their inheritance.
 *
 * `setPlainData` resolves inheritance in place while it iterates the table. A parent reached by
 * recursion is memoised as resolved, but only the entry being iterated is stored, so what the
 * table holds afterwards depends on the iteration order. What callers observe goes through
 * `get`, which merges the table again along `getParentTypes`; that is what is characterised here.
 */
module CredentialsOverwrites {
  import opened Wrappers
  import opened CredentialTypes

  datatype Value = Null | Undefined | Str(text: string) | Json(text: string)

  type Entry = map<string, Value>
  type Table = map<TypeName, Entry>

  function Own(table: Table, t: TypeName): Entry {
    if t in table then table[t] else map[]
  }

  function Lookup(table: Table, t: TypeName): Option<Entry> {
    if t in table then Some(table[t]) else None
  }

  // ---------------------------------------------------------------------------
  // What an overwrite means, independently of any resolution algorithm
  // ---------------------------------------------------------------------------

  /**
   * `v` is the value of `key` at the first definer met on some way up from `t`: its own value
   * when it has one, otherwise a candidate of one of its parents.
   */
  ghost predicate Candidate(reg: Registry, raw: Table, t: TypeName, key: string, v: Value)
    requires Acyclic(reg)
    decreases Rank(reg, t), 1
  {
    if key in Own(raw, t) then v == Own(raw, t)[key] else Inherited(reg, raw, t, key, v)
  }

  ghost predicate Inherited(reg: Registry, raw: Table, t: TypeName, key: string, v: Value)
    requires Acyclic(reg)
    decreases Rank(reg, t), 0
  {
    exists p :: p in Extends(reg, t) && Candidate(reg, raw, p, key, v)
  }

  /** `t` or one of its ancestors has an entry for `key`. */
  ghost predicate Defined(reg: Registry, raw: Table, t: TypeName, key: string)
    requires Acyclic(reg)
  {
    key in Own(raw, t) || exists a :: Ancestor(reg, t, a) && key in Own(raw, a)
  }

  /** With one parent per type: the parent's overwrites, then one's own on top. */
  ghost function Nearest(reg: Registry, raw: Table, t: TypeName): Entry
    requires Acyclic(reg)
    decreases Rank(reg, t)
  {
    if Extends(reg, t) == [] then Own(raw, t) else
      assert Extends(reg, t)[0] in Extends(reg, t);
      Nearest(reg, raw, Extends(reg, t)[0]) + Own(raw, t)
  }

  // ---------------------------------------------------------------------------
  // `getOverwrites` and `setPlainData`
  // ---------------------------------------------------------------------------

  /** Result and memo of `getOverwrites(t)` with memo `resolved`. */
  ghost function Resolve(reg: Registry, table: Table, resolved: seq<TypeName>, t: TypeName)
    : (Option<Entry>, seq<TypeName>)
    requires Acyclic(reg)
    decreases Rank(reg, t), 1, 0
  {
    if t in resolved then (Lookup(table, t), resolved)
    else if t !in reg.types then (None, resolved)
    else if reg.types[t].None? then (Lookup(table, t), resolved + [t])
    else
      var (inherited, resolved') := ResolveParents(reg, table, resolved, Rank(reg, t), Extends(reg, t), map[]);
      (Some(inherited + Own(table, t)), resolved' + [t])
  }

  /** The loop over `extends`, from accumulator `acc` on. */
  ghost function ResolveParents(
    reg: Registry, table: Table, resolved: seq<TypeName>, r: nat, ps: seq<TypeName>, acc: Entry)
    : (Entry, seq<TypeName>)
    requires Acyclic(reg) && Below(reg, r, ps)
    decreases r, 0, |ps|
  {
    if ps == [] then (acc, resolved)
    else
      assert ps[0] in ps;
      var (e, resolved') := Resolve(reg, table, resolved, ps[0]);
      ResolveParents(reg, table, resolved', r, ps[1..], if e.Some? then acc + e.value else acc)
  }

  /** The loop of `setPlainData` over the keys still to come. */
  ghost function SetPlain(reg: Registry, table: Table, resolved: seq<TypeName>, order: seq<TypeName>)
    : (Table, seq<TypeName>)
    requires Acyclic(reg)
    decreases |order|
  {
    if order == [] then (table, resolved)
    else
      var (e, resolved') := Resolve(reg, table, resolved, order[0]);
      var table' := if e.Some? && e.value != map[] then table[order[0] := e.value] else table;
      SetPlain(reg, table', resolved', order[1..])
  }

  /** `order` lists every key once: an iteration order of the table. */
  ghost predicate Enumerates(order: seq<TypeName>, keys: set<TypeName>) {
    && (forall t :: t in order <==> t in keys)
    && (forall i, j :: 0 <= i < j < |order| ==> order[i] != order[j])
  }

  /** The table after `setPlainData(raw)` with iteration order `order`. */
  ghost function Stored(reg: Registry, raw: Table, order: seq<TypeName>): Table
    requires Acyclic(reg)
  {
    SetPlain(reg, raw, [], order).0
  }

  /** The entry keeps what `raw` gives the type and adds only candidates. */
  ghost predicate EntryBetween(reg: Registry, raw: Table, t: TypeName, e: Entry)
    requires Acyclic(reg)
  {
    && Own(raw, t).Keys <= e.Keys
    && (forall key :: key in e ==> Candidate(reg, raw, t, key, e[key]))
  }

  ghost predicate TableBetween(reg: Registry, raw: Table, table: Table)
    requires Acyclic(reg)
  {
    table.Keys == raw.Keys && (forall t :: t in table ==> EntryBetween(reg, raw, t, table[t]))
  }

  ghost predicate AllInherited(reg: Registry, raw: Table, t: TypeName, e: Entry)
    requires Acyclic(reg)
  {
    forall key :: key in e ==> Inherited(reg, raw, t, key, e[key])
  }

  /** Whatever the memo says, resolution returns an entry between the raw one and the full one. */
  lemma {:induction false} ResolveBetween(reg: Registry, raw: Table, table: Table, resolved: seq<TypeName>, t: TypeName)
    requires Acyclic(reg) && TableBetween(reg, raw, table)
    ensures var e := Resolve(reg, table, resolved, t).0; e.Some? ==> EntryBetween(reg, raw, t, e.value)
    decreases Rank(reg, t), 1, 0
  {
    if t in resolved || t !in reg.types || reg.types[t].None? {
    } else {
      ResolveParentsBetween(reg, raw, table, resolved, t, Extends(reg, t), map[]);
      var inherited := ResolveParents(reg, table, resolved, Rank(reg, t), Extends(reg, t), map[]).0;
      var e := inherited + Own(table, t);
      forall key | key in e ensures Candidate(reg, raw, t, key, e[key]) {
        if key in Own(table, t) {
          assert EntryBetween(reg, raw, t, table[t]);
        } else {
          assert key !in Own(raw, t) && Inherited(reg, raw, t, key, inherited[key]);
        }
      }
    }
  }

  lemma {:induction false} ResolveParentsBetween(
    reg: Registry, raw: Table, table: Table, resolved: seq<TypeName>, t: TypeName, ps: seq<TypeName>, acc: Entry)
    requires Acyclic(reg) && TableBetween(reg, raw, table)
    requires forall p :: p in ps ==> p in Extends(reg, t)
    requires AllInherited(reg, raw, t, acc)
    ensures AllInherited(reg, raw, t, ResolveParents(reg, table, resolved, Rank(reg, t), ps, acc).0)
    decreases Rank(reg, t), 0, |ps|
  {
    if ps != [] {
      assert ps[0] in ps;
      ResolveBetween(reg, raw, table, resolved, ps[0]);
      var (e, resolved') := Resolve(reg, table, resolved, ps[0]);
      var acc' := if e.Some? then acc + e.value else acc;
      forall key | key in acc' ensures Inherited(reg, raw, t, key, acc'[key]) {
        if e.Some? && key in e.value {
          assert Candidate(reg, raw, ps[0], key, acc'[key]);
        } else {
          assert acc'[key] == acc[key];
        }
      }
      assert AllInherited(reg, raw, t, acc');
      ResolveParentsBetween(reg, raw, table, resolved', t, ps[1..], acc');
    }
  }

  lemma {:induction false} SetPlainBetween(
    reg: Registry, raw: Table, table: Table, resolved: seq<TypeName>, order: seq<TypeName>)
    requires Acyclic(reg) && TableBetween(reg, raw, table)
    requires forall t :: t in order ==> t in raw
    ensures TableBetween(reg, raw, SetPlain(reg, table, resolved, order).0)
    decreases |order|
  {
    if order != [] {
      assert order[0] in order;
      ResolveBetween(reg, raw, table, resolved, order[0]);
      var (e, resolved') := Resolve(reg, table, resolved, order[0]);
      var table' := if e.Some? && e.value != map[] then table[order[0] := e.value] else table;
      SetPlainBetween(reg, raw, table', resolved', order[1..]);
    }
  }

  /** The invariant of the whole scheme: raw ⊆ stored ⊆ candidates, for every iteration order. */
  lemma StoredBetween(reg: Registry, raw: Table, order: seq<TypeName>)
    requires Acyclic(reg) && Enumerates(order, raw.Keys)
    ensures TableBetween(reg, raw, Stored(reg, raw, order))
  {
    SetPlainBetween(reg, raw, raw, [], order);
  }

  // ---------------------------------------------------------------------------
  // `get`
  // ---------------------------------------------------------------------------

  function Reverse<T>(s: seq<T>): seq<T> {
    if s == [] then [] else Reverse(s[1..]) + [s[0]]
  }

  /** The entries the listed types have in the table, in the order of the list. */
  function Present(table: Table, ts: seq<TypeName>): seq<Entry> {
    if ts == [] then []
    else (if ts[0] in table then [table[ts[0]]] else []) + Present(table, ts[1..])
  }

  /** Merged from the left, a later entry winning. */
  function AssignAll(acc: Entry, es: seq<Entry>): Entry
    decreases |es|
  {
    if es == [] then acc else AssignAll(acc + es[0], es[1..])
  }

  /** The merge of the entries of `ts`, earlier types overriding later ones. */
  function MergeReversed(table: Table, ts: seq<TypeName>): Entry {
    AssignAll(map[], Present(table, Reverse(ts)))
  }

  ghost function Get(reg: Registry, table: Table, name: TypeName): Entry
    requires Acyclic(reg)
  {
    MergeReversed(table, [name] + ParentTypes(reg, name))
  }

  lemma {:induction false} PresentConcat(table: Table, a: seq<TypeName>, b: seq<TypeName>)
    ensures Present(table, a + b) == Present(table, a) + Present(table, b)
    decreases |a|
  {
    if a == [] {
      assert a + b == b;
    } else {
      assert (a + b)[0] == a[0] && (a + b)[1..] == a[1..] + b;
      PresentConcat(table, a[1..], b);
    }
  }

  lemma {:induction false} AssignAllSnoc(acc: Entry, es: seq<Entry>, e: Entry)
    ensures AssignAll(acc, es + [e]) == AssignAll(acc, es) + e
    decreases |es|
  {
    if es == [] {
      assert es + [e] == [e];
    } else {
      assert (es + [e])[0] == es[0] && (es + [e])[1..] == es[1..] + [e];
      AssignAllSnoc(acc + es[0], es[1..], e);
    }
  }

  lemma MergeReversedCons(table: Table, t: TypeName, ts: seq<TypeName>)
    ensures MergeReversed(table, [t] + ts) == MergeReversed(table, ts) + Own(table, t)
  {
    assert ([t] + ts)[1..] == ts;
    PresentConcat(table, Reverse(ts), [t]);
    assert Present(table, []) == [];
    if t in table {
      assert Present(table, [t]) == [table[t]] + [] == [table[t]];
      AssignAllSnoc(map[], Present(table, Reverse(ts)), table[t]);
    } else {
      assert Present(table, Reverse([t] + ts)) == Present(table, Reverse(ts)) + [] == Present(table, Reverse(ts));
    }
  }

  /** `ts[i]` is the first type of the list with an entry for `key`. */
  predicate FirstWith(table: Table, ts: seq<TypeName>, key: string, i: nat)
    requires i < |ts|
  {
    key in Own(table, ts[i]) && (forall j :: 0 <= j < i ==> key !in Own(table, ts[j]))
  }

  /** A merged key comes from the first type of the list that has it; repetitions play no part. */
  lemma {:induction false} MergeLooksUpFirst(table: Table, ts: seq<TypeName>, key: string)
    ensures key in MergeReversed(table, ts) <==> exists i :: 0 <= i < |ts| && key in Own(table, ts[i])
    ensures forall i :: 0 <= i < |ts| && FirstWith(table, ts, key, i)
                        ==> MergeReversed(table, ts)[key] == Own(table, ts[i])[key]
    decreases |ts|
  {
    if ts != [] {
      var t, rest := ts[0], ts[1..];
      assert ts == [t] + rest;
      MergeReversedCons(table, t, rest);
      MergeLooksUpFirst(table, rest, key);
      forall i | 0 <= i < |ts| && key in Own(table, ts[i])
        ensures key in MergeReversed(table, ts)
        ensures FirstWith(table, ts, key, i) ==> MergeReversed(table, ts)[key] == Own(table, ts[i])[key]
      {
        if i > 0 {
          assert ts[i] == rest[i - 1];
          if FirstWith(table, ts, key, i) {
            assert forall j :: 0 <= j < i - 1 ==> rest[j] == ts[j + 1];
            assert FirstWith(table, rest, key, i - 1);
            assert key !in Own(table, ts[0]);
          }
        }
      }
      if key in MergeReversed(table, rest) {
        var i :| 0 <= i < |rest| && key in Own(table, rest[i]);
        assert ts[i + 1] == rest[i];
      }
    }
  }

  lemma {:induction false} FirstDefiner(table: Table, ts: seq<TypeName>, key: string) returns (i: nat)
    requires exists j :: 0 <= j < |ts| && key in Own(table, ts[j])
    ensures i < |ts| && FirstWith(table, ts, key, i)
    decreases |ts|
  {
    if key in Own(table, ts[0]) {
      i := 0;
    } else {
      var j :| 0 <= j < |ts| && key in Own(table, ts[j]);
      assert ts[1..][j - 1] == ts[j];
      var k := FirstDefiner(table, ts[1..], key);
      i := k + 1;
      forall j | 0 <= j < i ensures key !in Own(table, ts[j]) {
        if j > 0 { assert ts[j] == ts[1..][j - 1]; }
      }
    }
  }

  lemma {:induction false} CandidateFromAbove(
    reg: Registry, raw: Table, stop: set<TypeName>, t: TypeName, a: TypeName, key: string, v: Value)
    requires Acyclic(reg) && Candidate(reg, raw, a, key, v)
    requires Unblocked(reg, stop, t, a)
    requires forall x :: key in Own(raw, x) ==> x in stop
    requires key !in Own(raw, t)
    ensures Candidate(reg, raw, t, key, v)
    decreases Rank(reg, t)
  {
    var p :| p in Extends(reg, t) && (p == a || (p !in stop && Unblocked(reg, stop, p, a)));
    if p != a {
      CandidateFromAbove(reg, raw, stop, p, a, key, v);
    }
  }

  /** For any acyclic inheritance, `get` yields for each key a nearest definer along some way up. */
  lemma GetIsCandidate(reg: Registry, raw: Table, table: Table, t: TypeName, key: string)
    requires Acyclic(reg) && TableBetween(reg, raw, table) && key in Get(reg, table, t)
    ensures Candidate(reg, raw, t, key, Get(reg, table, t)[key])
  {
    var ts := [t] + ParentTypes(reg, t);
    MergeLooksUpFirst(table, ts, key);
    var i := FirstDefiner(table, ts, key);
    if i > 0 {
      var stop := set x | x in table && key in table[x];
      ParentTypesInOrder(reg, stop, t);
      assert ts[i] == ParentTypes(reg, t)[i - 1];
      forall x | x in ParentTypes(reg, t)[..i - 1] ensures x !in stop {
        var j :| 0 <= j < i - 1 && ParentTypes(reg, t)[j] == x;
        assert ts[j + 1] == x;
      }
      assert key !in Own(table, ts[0]);
      CandidateFromAbove(reg, raw, stop, t, ts[i], key, Own(table, ts[i])[key]);
    }
  }

  lemma {:induction false} CandidateIsDefined(reg: Registry, raw: Table, t: TypeName, key: string, v: Value)
    requires Acyclic(reg) && Candidate(reg, raw, t, key, v)
    ensures Defined(reg, raw, t, key)
    decreases Rank(reg, t)
  {
    if key !in Own(raw, t) {
      var p :| p in Extends(reg, t) && Candidate(reg, raw, p, key, v);
      CandidateIsDefined(reg, raw, p, key, v);
      if key in Own(raw, p) {
        assert Ancestor(reg, t, p);
      } else {
        var a :| Ancestor(reg, p, a) && key in Own(raw, a);
        assert Ancestor(reg, t, a);
      }
    }
  }

  /** The keys `get` returns are exactly those defined by the type or an ancestor. */
  lemma GetDefinesExactly(reg: Registry, raw: Table, table: Table, t: TypeName, key: string)
    requires Acyclic(reg) && TableBetween(reg, raw, table)
    ensures key in Get(reg, table, t) <==> Defined(reg, raw, t, key)
  {
    if key in Get(reg, table, t) {
      GetIsCandidate(reg, raw, table, t, key);
      CandidateIsDefined(reg, raw, t, key, Get(reg, table, t)[key]);
    }
    if Defined(reg, raw, t, key) {
      DefinedIsGot(reg, raw, table, t, key);
    }
  }

  lemma DefinedIsGot(reg: Registry, raw: Table, table: Table, t: TypeName, key: string)
    requires Acyclic(reg) && TableBetween(reg, raw, table) && Defined(reg, raw, t, key)
    ensures key in Get(reg, table, t)
  {
    var ts := [t] + ParentTypes(reg, t);
    MergeLooksUpFirst(table, ts, key);
    if key in Own(raw, t) {
      assert ts[0] == t && EntryBetween(reg, raw, t, table[t]);
    } else {
      var a :| Ancestor(reg, t, a) && key in Own(raw, a);
      assert EntryBetween(reg, raw, a, table[a]);
      ParentTypesAreAncestors(reg, t, a);
      var j :| 0 <= j < |ParentTypes(reg, t)| && ParentTypes(reg, t)[j] == a;
      assert ts[j + 1] == a;
    }
  }

  lemma {:induction false} SoleCandidateIsNearest(reg: Registry, raw: Table, t: TypeName, key: string, v: Value)
    requires Acyclic(reg) && SingleInheritance(reg)
    ensures Candidate(reg, raw, t, key, v) <==> key in Nearest(reg, raw, t) && Nearest(reg, raw, t)[key] == v
    decreases Rank(reg, t)
  {
    if key !in Own(raw, t) && Extends(reg, t) != [] {
      var p := Extends(reg, t)[0];
      assert p in Extends(reg, t);
      assert forall q :: q in Extends(reg, t) ==> q == p;
      SoleCandidateIsNearest(reg, raw, p, key, v);
    }
  }

  /** One parent per type: `get` is "the nearest ancestor that defines the key wins". */
  lemma GetIsNearest(reg: Registry, raw: Table, table: Table, t: TypeName)
    requires Acyclic(reg) && SingleInheritance(reg) && TableBetween(reg, raw, table)
    ensures Get(reg, table, t) == Nearest(reg, raw, t)
  {
    var g, n := Get(reg, table, t), Nearest(reg, raw, t);
    forall key | key in g ensures key in n && g[key] == n[key] {
      GetIsCandidate(reg, raw, table, t, key);
      SoleCandidateIsNearest(reg, raw, t, key, g[key]);
    }
    forall key | key in n ensures key in g {
      SoleCandidateIsNearest(reg, raw, t, key, n[key]);
      CandidateIsDefined(reg, raw, t, key, n[key]);
      GetDefinesExactly(reg, raw, table, t, key);
    }
  }

  /** The observable result does not depend on the iteration order. */
  lemma OrderDoesNotMatter(reg: Registry, raw: Table, order1: seq<TypeName>, order2: seq<TypeName>, t: TypeName)
    requires Acyclic(reg) && SingleInheritance(reg)
    requires Enumerates(order1, raw.Keys) && Enumerates(order2, raw.Keys)
    ensures Get(reg, Stored(reg, raw, order1), t) == Get(reg, Stored(reg, raw, order2), t) == Nearest(reg, raw, t)
  {
    StoredBetween(reg, raw, order1);
    StoredBetween(reg, raw, order2);
    GetIsNearest(reg, raw, Stored(reg, raw, order1), t);
    GetIsNearest(reg, raw, Stored(reg, raw, order2), t);
  }

  // ---------------------------------------------------------------------------
  // Saving the table that was mutated, and loading it again
  // ---------------------------------------------------------------------------

  lemma {:induction false} CandidateOfStored(
    reg: Registry, raw: Table, table: Table, t: TypeName, key: string, v: Value)
    requires Acyclic(reg) && TableBetween(reg, raw, table) && Candidate(reg, table, t, key, v)
    ensures Candidate(reg, raw, t, key, v)
    decreases Rank(reg, t)
  {
    if key !in Own(table, t) {
      var p :| p in Extends(reg, t) && Candidate(reg, table, p, key, v);
      CandidateOfStored(reg, raw, table, p, key, v);
    }
  }

  lemma BetweenTransitive(reg: Registry, raw: Table, table: Table, table': Table)
    requires Acyclic(reg) && TableBetween(reg, raw, table) && TableBetween(reg, table, table')
    ensures TableBetween(reg, raw, table')
  {
    forall t | t in table' ensures EntryBetween(reg, raw, t, table'[t]) {
      assert EntryBetween(reg, table, t, table'[t]);
      assert EntryBetween(reg, raw, t, table[t]);
      forall key | key in table'[t] ensures Candidate(reg, raw, t, key, table'[t][key]) {
        CandidateOfStored(reg, raw, table, t, key, table'[t][key]);
      }
    }
  }

  /** The table after one `setPlainData` per element of `orders`, each fed what the previous one left. */
  ghost function Reloaded(reg: Registry, table: Table, orders: seq<seq<TypeName>>): Table
    requires Acyclic(reg)
    decreases |orders|
  {
    if orders == [] then table else Reloaded(reg, Stored(reg, table, orders[0]), orders[1..])
  }

  lemma {:induction false} ReloadedBetween(reg: Registry, raw: Table, table: Table, orders: seq<seq<TypeName>>)
    requires Acyclic(reg) && TableBetween(reg, raw, table)
    requires forall order :: order in orders ==> Enumerates(order, raw.Keys)
    ensures TableBetween(reg, raw, Reloaded(reg, table, orders))
    decreases |orders|
  {
    if orders != [] {
      assert orders[0] in orders;
      StoredBetween(reg, table, orders[0]);
      BetweenTransitive(reg, raw, table, Stored(reg, table, orders[0]));
      ReloadedBetween(reg, raw, Stored(reg, table, orders[0]), orders[1..]);
    }
  }

  /** Any number of save/reload cycles leaves every `get` as it was, whatever orders they iterate in. */
  lemma ReloadsPreserveGet(reg: Registry, raw: Table, order: seq<TypeName>, orders: seq<seq<TypeName>>, t: TypeName)
    requires Acyclic(reg) && SingleInheritance(reg) && Enumerates(order, raw.Keys)
    requires forall o :: o in orders ==> Enumerates(o, raw.Keys)
    ensures Get(reg, Reloaded(reg, Stored(reg, raw, order), orders), t) == Get(reg, Stored(reg, raw, order), t)
  {
    StoredBetween(reg, raw, order);
    ReloadedBetween(reg, raw, Stored(reg, raw, order), orders);
    GetIsNearest(reg, raw, Stored(reg, raw, order), t);
    GetIsNearest(reg, raw, Reloaded(reg, Stored(reg, raw, order), orders), t);
  }

  // ---------------------------------------------------------------------------
  // `applyOverwrite`
  // ---------------------------------------------------------------------------

  /** Missing, null or empty: free to be filled. */
  predicate Unset(data: Entry, key: string) {
    key !in data || data[key] == Null || data[key] == Undefined || data[key] == Str("")
  }

  /** The overwrites fill the fields that hold nothing and touch no other. */
  function Filled(data: Entry, overwrites: Entry): Entry {
    map key | key in data.Keys + overwrites.Keys ::
      if key in overwrites && Unset(data, key) then overwrites[key] else data[key]
  }

  lemma FillingTwiceIsFillingOnce(data: Entry, overwrites: Entry)
    ensures Filled(Filled(data, overwrites), overwrites) == Filled(data, overwrites)
  {
    var once := Filled(data, overwrites);
    assert once.Keys + overwrites.Keys == once.Keys;
  }

  /** A field that is missing, null, undefined or the empty text is filled; any other text or value stays. */
  lemma FillsOnlyWhatIsEmpty(data: Entry, overwrites: Entry, key: string)
    ensures Filled(data, overwrites).Keys == data.Keys + overwrites.Keys
    ensures key in overwrites && key !in data ==> Filled(data, overwrites)[key] == overwrites[key]
    ensures key in overwrites && key in data && data[key] in {Null, Undefined, Str("")} ==>
      Filled(data, overwrites)[key] == overwrites[key]
    ensures key in data && (key !in overwrites || data[key].Json? || (data[key].Str? && |data[key].text| > 0)) ==>
      Filled(data, overwrites)[key] == data[key]
  {
  }

  function Only(overwrites: Entry, visited: seq<string>): Entry {
    map key | key in overwrites && key in visited :: overwrites[key]
  }

  lemma FillOne(data: Entry, overwrites: Entry, visited: seq<string>, key: string)
    requires key in overwrites && key !in visited
    ensures var before := Filled(data, Only(overwrites, visited));
      Filled(data, Only(overwrites, visited + [key]))
      == if Unset(before, key) then before[key := overwrites[key]] else before
  {
    var before, after := Filled(data, Only(overwrites, visited)), Filled(data, Only(overwrites, visited + [key]));
    assert Only(overwrites, visited + [key]) == Only(overwrites, visited)[key := overwrites[key]];
    assert Unset(before, key) == Unset(data, key);
    assert after.Keys == before.Keys + {key};
  }

  /** Where the loop has got to when it has visited `visited`. */
  ghost predicate FilledSoFar(data: Entry, overwrites: Entry, visited: seq<string>, e: Entry) {
    e == Filled(data, Only(overwrites, visited))
  }

  lemma FillBegins(data: Entry, overwrites: Entry)
    ensures FilledSoFar(data, overwrites, [], data)
  {
  }

  lemma FillEnds(data: Entry, overwrites: Entry, order: seq<string>, e: Entry)
    requires Enumerates(order, overwrites.Keys) && FilledSoFar(data, overwrites, order, e)
    ensures e == Filled(data, overwrites)
  {
    assert Only(overwrites, order) == overwrites;
  }

  lemma FillNext(data: Entry, overwrites: Entry, order: seq<string>, i: nat, before: Entry)
    requires Enumerates(order, overwrites.Keys) && i < |order| && FilledSoFar(data, overwrites, order[..i], before)
    ensures order[i] in overwrites
    ensures Unset(before, order[i]) ==>
      FilledSoFar(data, overwrites, order[..i + 1], before[order[i] := overwrites[order[i]]])
    ensures !Unset(before, order[i]) ==> FilledSoFar(data, overwrites, order[..i + 1], before)
  {
    var key := order[i];
    assert key in order && key !in order[..i];
    assert order[..i + 1] == order[..i] + [key];
    FillOne(data, overwrites, order[..i], key);
  }

  /** The loop of `applyOverwrite` over the keys of the overwrites. */
  method FillUnset(data: Entry, overwrites: Entry, order: seq<string>) returns (returnData: Entry)
    requires Enumerates(order, overwrites.Keys)
    ensures returnData == Filled(data, overwrites)
  {
    returnData := data;
    FillBegins(data, overwrites);
    var i := 0;
    assert order[..i] == [];
    while i < |order|
      invariant 0 <= i <= |order|
      invariant FilledSoFar(data, overwrites, order[..i], returnData)
    {
      FillNext(data, overwrites, order, i, returnData);
      var key := order[i];
      if Unset(returnData, key) {
        returnData := returnData[key := overwrites[key]];
      }
      i := i + 1;
    }
    assert order[..i] == order;
    FillEnds(data, overwrites, order, returnData);
  }

  // ---------------------------------------------------------------------------
  // The service
  // ---------------------------------------------------------------------------

  class CredentialsOverwritesService {
    const reg: Registry
    const persistence: bool
    var overwriteData: Table
    var resolvedTypes: seq<TypeName>
    /** The decrypted settings row. */
    var setting: Option<Table>

    constructor (reg: Registry, persistence: bool)
      ensures this.reg == reg && this.persistence == persistence
      ensures overwriteData == map[] && resolvedTypes == [] && setting == None
    {
      this.reg := reg;
      this.persistence := persistence;
      overwriteData := map[];
      resolvedTypes := [];
      setting := None;
    }

    method GetOverwrites(t: TypeName) returns (r: Option<Entry>)
      requires Acyclic(reg)
      modifies this`resolvedTypes
      ensures (r, resolvedTypes) == Resolve(reg, overwriteData, old(resolvedTypes), t)
      decreases Rank(reg, t)
    {
      if t in resolvedTypes {
        return Lookup(overwriteData, t);
      }
      if t !in reg.types {
        return None;
      }
      if reg.types[t].None? {
        resolvedTypes := resolvedTypes + [t];
        return Lookup(overwriteData, t);
      }
      var parents := reg.types[t].value;
      var overwrites: Entry := map[];
      var i := 0;
      while i < |parents|
        invariant 0 <= i <= |parents|
        invariant ResolveParents(reg, overwriteData, old(resolvedTypes), Rank(reg, t), parents, map[])
               == ResolveParents(reg, overwriteData, resolvedTypes, Rank(reg, t), parents[i..], overwrites)
      {
        assert parents[i] in parents;
        var inherited := GetOverwrites(parents[i]);
        if inherited.Some? {
          overwrites := overwrites + inherited.value;
        }
        i := i + 1;
      }
      assert parents[i..] == [] && overwrites + map[] == overwrites;
      if t in overwriteData {
        overwrites := overwrites + overwriteData[t];
      }
      resolvedTypes := resolvedTypes + [t];
      return Some(overwrites);
    }

    /**
     * `setPlainData(data)` with `order` as the iteration order of for-in. The object passed in is
     * kept and mutated: `overwriteData` is also what the caller holds afterwards.
     */
    method SetPlainData(data: Table, order: seq<TypeName>)
      requires Acyclic(reg) && Enumerates(order, data.Keys)
      modifies this`overwriteData, this`resolvedTypes
      ensures overwriteData == Stored(reg, data, order)
      ensures forall t, key :: key in Get(reg, overwriteData, t) <==> Defined(reg, data, t, key)
      ensures forall t, key :: key in Get(reg, overwriteData, t)
                               ==> Candidate(reg, data, t, key, Get(reg, overwriteData, t)[key])
      ensures SingleInheritance(reg) ==> forall t :: Get(reg, overwriteData, t) == Nearest(reg, data, t)
    {
      resolvedTypes := [];
      overwriteData := data;
      var i := 0;
      while i < |order|
        invariant 0 <= i <= |order|
        invariant SetPlain(reg, data, [], order) == SetPlain(reg, overwriteData, resolvedTypes, order[i..])
      {
        var overwrites := GetOverwrites(order[i]);
        if overwrites.Some? && overwrites.value != map[] {
          overwriteData := overwriteData[order[i] := overwrites.value];
        }
        i := i + 1;
      }
      StoredBetween(reg, data, order);
      forall t, key ensures key in Get(reg, overwriteData, t) <==> Defined(reg, data, t, key) {
        GetDefinesExactly(reg, data, overwriteData, t, key);
      }
      forall t, key | key in Get(reg, overwriteData, t)
        ensures Candidate(reg, data, t, key, Get(reg, overwriteData, t)[key])
      {
        GetIsCandidate(reg, data, overwriteData, t, key);
      }
      if SingleInheritance(reg) {
        forall t ensures Get(reg, overwriteData, t) == Nearest(reg, data, t) {
          GetIsNearest(reg, data, overwriteData, t);
        }
      }
    }

    /** `setData`: what goes to the database is the table that `setPlainData` has mutated. */
    method SetData(data: Table, order: seq<TypeName>, storeInDb: bool)
      requires Acyclic(reg) && Enumerates(order, data.Keys)
      modifies this
      ensures overwriteData == Stored(reg, data, order)
      ensures setting == if storeInDb && persistence then Some(overwriteData) else old(setting)
    {
      SetPlainData(data, order);
      if storeInDb && persistence {
        setting := Some(overwriteData);
      }
    }

    /** Resolves the saved table anew; nothing happens when none was saved. */
    method LoadOverwriteDataFromDB(order: seq<TypeName>)
      requires Acyclic(reg)
      requires setting.Some? ==> Enumerates(order, setting.value.Keys)
      modifies this
      ensures setting == old(setting)
      ensures setting.None? ==> overwriteData == old(overwriteData)
      ensures setting.Some? ==> overwriteData == Stored(reg, setting.value, order)
    {
      if setting.Some? {
        SetData(setting.value, order, false);
      }
    }

    /** `applyOverwrite(type, data)`; `order` is the order in which the keys are visited. */
    method ApplyOverwrite(t: TypeName, data: Entry, order: seq<string>) returns (returnData: Entry)
      requires Acyclic(reg)
      requires Enumerates(order, Get(reg, overwriteData, t).Keys)
      ensures returnData == Filled(data, Get(reg, overwriteData, t))
    {
      var parents := GetParentTypes(reg, t);
      var overwrites := MergeReversed(overwriteData, [t] + parents);
      returnData := FillUnset(data, overwrites, order);
    }
  }
}
