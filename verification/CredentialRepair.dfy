/**
 * `replaceInvalidCredentials`: one pass over all nodes of a workflow that repairs credential
 * references against the database, with two caches to spare queries.
 *
 * The pass is compared with a resolver that looks at one reference alone and has no cache.
 */
module CredentialRepair {
  import opened Wrappers

  /** A row of the credentials table. */
  datatype Credential = Credential(id: string, credType: string, name: string)

  type Database = seq<Credential>

  /** A node's reference to a credential: the old style is a bare name. */
  datatype Reference = Bare(text: string) | Details(id: Option<string>, name: string)

  /** The entry of a node's credentials for one type. */
  type TypedReference = (string, Reference)

  datatype Node = Node(credentials: Option<seq<TypedReference>>, disabled: bool)

  /** The queries sent, by the branch that sends them. */
  datatype Query =
    | NullIdByName(credType: string, name: string)
    | ById(credType: string, id: string)
    | FallbackByName(credType: string, name: string)

  datatype Caches = Caches(
    byName: map<(string, string), Reference>,
    byId: map<(string, string), Reference>,
    log: seq<Query>)

  const NO_CACHES := Caches(map[], map[], [])

  /** `id` is the primary key. */
  ghost predicate UniqueIds(db: Database) {
    forall i, j :: 0 <= i < j < |db| ==> db[i].id != db[j].id
  }

  /** The row with that id and type. */
  function FindById(db: Database, credType: string, id: string): Option<Credential> {
    if db == [] then None
    else if db[0].id == id && db[0].credType == credType then Some(db[0])
    else FindById(db[1..], credType, id)
  }

  /** The rows with that name and type. */
  function FindByName(db: Database, credType: string, name: string): seq<Credential> {
    if db == [] then []
    else
      (if db[0].name == name && db[0].credType == credType then [db[0]] else [])
      + FindByName(db[1..], credType, name)
  }

  /** The credential with that name and type, when there is exactly one. */
  function Unique(db: Database, credType: string, name: string): Option<Credential> {
    var found := FindByName(db, credType, name);
    if |found| == 1 then Some(found[0]) else None
  }

  function Found(c: Credential): Reference {
    Details(Some(c.id), c.name)
  }

  predicate OldStyle(ref: Reference) {
    ref.Bare? || ref.id.None?
  }

  function NameOf(ref: Reference): string {
    if ref.Bare? then ref.text else ref.name
  }

  /** A bare name reads as a reference without id. */
  function Read(ref: Reference): Reference {
    if ref.Bare? then Details(None, ref.text) else ref
  }

  // ---------------------------------------------------------------------------
  // One reference alone
  // ---------------------------------------------------------------------------

  /** The repair of a single reference, no cache involved. */
  function Resolve(db: Database, credType: string, ref: Reference): Reference {
    if OldStyle(ref) then
      var unique := Unique(db, credType, NameOf(ref));
      if unique.Some? then Found(unique.value) else ref
    else
      var byId := FindById(db, credType, ref.id.value);
      var unique := Unique(db, credType, ref.name);
      if byId.Some? then Found(byId.value)
      else if unique.Some? then Found(unique.value)
      else ref
  }

  predicate Matches(c: Credential, credType: string, name: string) {
    c.credType == credType && c.name == name
  }

  /** Row `i` has that type and name, and no other row has. */
  ghost predicate OnlyMatch(db: Database, credType: string, name: string, i: nat) {
    i < |db| && Matches(db[i], credType, name) && forall j :: 0 <= j < |db| && Matches(db[j], credType, name) ==> j == i
  }

  lemma {:induction false} NoMatch(db: Database, credType: string, name: string)
    ensures FindByName(db, credType, name) == [] <==> forall j :: 0 <= j < |db| ==> !Matches(db[j], credType, name)
    decreases |db|
  {
    if db != [] {
      NoMatch(db[1..], credType, name);
      assert forall j :: 0 < j < |db| ==> db[j] == db[1..][j - 1];
    }
  }

  /** A name identifies a row exactly when it is the only one of its type with that name. */
  lemma {:induction false} UniqueIsOnlyMatch(db: Database, credType: string, name: string, i: nat)
    ensures OnlyMatch(db, credType, name, i) ==> Unique(db, credType, name) == Some(db[i])
    ensures (forall j: nat :: !OnlyMatch(db, credType, name, j)) ==> Unique(db, credType, name).None?
    decreases |db|
  {
    if db != [] {
      var rest := db[1..];
      NoMatch(rest, credType, name);
      assert forall j :: 0 < j < |db| ==> db[j] == rest[j - 1];
      if Matches(db[0], credType, name) {
        if FindByName(rest, credType, name) == [] {
          assert OnlyMatch(db, credType, name, 0);
        }
      } else {
        UniqueIsOnlyMatch(rest, credType, name, if i > 0 then i - 1 else 0);
        if i > 0 { OnlyMatchMoves(db, credType, name, i - 1); }
        forall j: nat ensures OnlyMatch(rest, credType, name, j) <==> OnlyMatch(db, credType, name, j + 1) {
          OnlyMatchMoves(db, credType, name, j);
        }
      }
    }
  }

  lemma OnlyMatchMoves(db: Database, credType: string, name: string, j: nat)
    requires db != [] && !Matches(db[0], credType, name)
    ensures OnlyMatch(db[1..], credType, name, j) <==> OnlyMatch(db, credType, name, j + 1)
  {
    assert forall k :: 0 < k < |db| ==> db[k] == db[1..][k - 1];
    if OnlyMatch(db, credType, name, j + 1) {
      forall k | 0 <= k < |db[1..]| && Matches(db[1..][k], credType, name) ensures k == j {
        assert db[k + 1] == db[1..][k];
      }
    }
  }

  /** A bare name, or one without id, becomes the row it identifies, and otherwise stays as it is. */
  lemma OldStyleMeans(db: Database, credType: string, name: string, i: nat)
    ensures OnlyMatch(db, credType, name, i) ==>
      && Resolve(db, credType, Bare(name)) == Details(Some(db[i].id), name)
      && Resolve(db, credType, Details(None, name)) == Details(Some(db[i].id), name)
    ensures (forall j: nat :: !OnlyMatch(db, credType, name, j)) ==>
      && Resolve(db, credType, Bare(name)) == Bare(name)
      && Resolve(db, credType, Details(None, name)) == Details(None, name)
  {
    UniqueIsOnlyMatch(db, credType, name, i);
  }

  ghost predicate NoSuchId(db: Database, credType: string, id: string) {
    forall j :: 0 <= j < |db| && db[j].id == id ==> db[j].credType != credType
  }

  /** An id of that type wins; without one the name decides, as for a reference without id. */
  lemma NewStyleMeans(db: Database, credType: string, id: string, name: string, i: nat)
    requires UniqueIds(db)
    ensures i < |db| && db[i].id == id && db[i].credType == credType ==>
      Resolve(db, credType, Details(Some(id), name)) == Details(Some(id), db[i].name)
    ensures NoSuchId(db, credType, id) && OnlyMatch(db, credType, name, i) ==>
      Resolve(db, credType, Details(Some(id), name)) == Details(Some(db[i].id), name)
    ensures NoSuchId(db, credType, id) && (forall j: nat :: !OnlyMatch(db, credType, name, j)) ==>
      Resolve(db, credType, Details(Some(id), name)) == Details(Some(id), name)
  {
    FoundById(db, credType, id);
    FoundExists(db, credType, id, i);
    UniqueIsOnlyMatch(db, credType, name, i);
  }

  lemma {:induction false} FoundExists(db: Database, credType: string, id: string, i: nat)
    requires UniqueIds(db)
    ensures i < |db| && db[i].id == id && db[i].credType == credType ==> FindById(db, credType, id) == Some(db[i])
    decreases |db|
  {
    if 0 < i < |db| {
      assert db[1..][i - 1] == db[i];
      assert forall j :: 0 < j < |db| ==> db[j] == db[1..][j - 1];
      FoundExists(db[1..], credType, id, i - 1);
    }
  }

  // ---------------------------------------------------------------------------
  // The pass
  // ---------------------------------------------------------------------------

  /** The loop body for one reference. */
  function Step(db: Database, caches: Caches, credType: string, ref: Reference): (Caches, Reference) {
    if OldStyle(ref) then
      var key := (credType, NameOf(ref));
      if key in caches.byName then (caches, caches.byName[key])
      else
        var log := caches.log + [NullIdByName(credType, NameOf(ref))];
        var unique := Unique(db, credType, NameOf(ref));
        if unique.Some? then
          (caches.(byName := caches.byName[key := Found(unique.value)], log := log), Found(unique.value))
        else
          (caches.(byName := caches.byName[key := Details(None, NameOf(ref))], log := log), ref)
    else
      var key := (credType, ref.id.value);
      if key in caches.byId then (caches, caches.byId[key])
      else
        var log := caches.log + [ById(credType, ref.id.value)];
        var byId := FindById(db, credType, ref.id.value);
        if byId.Some? then
          (caches.(byId := caches.byId[key := Found(byId.value)], log := log), Found(byId.value))
        else
          var log' := log + [FallbackByName(credType, ref.name)];
          var unique := Unique(db, credType, ref.name);
          if unique.Some? then
            // Cached under the id that was found, not under the one that was asked for.
            (caches.(byId := caches.byId[(credType, unique.value.id) := Found(unique.value)], log := log'),
             Found(unique.value))
          else
            (caches.(byId := caches.byId[key := ref], log := log'), ref)
  }

  function Run(db: Database, caches: Caches, refs: seq<TypedReference>): (r: (Caches, seq<TypedReference>))
    ensures |r.1| == |refs|
    decreases |refs|
  {
    if refs == [] then (caches, [])
    else
      var (caches', ref) := Step(db, caches, refs[0].0, refs[0].1);
      var (caches'', rest) := Run(db, caches', refs[1..]);
      (caches'', [(refs[0].0, ref)] + rest)
  }

  predicate Skipped(node: Node) {
    node.credentials.None? || node.disabled
  }

  function RunNodes(db: Database, caches: Caches, nodes: seq<Node>): (r: (Caches, seq<Node>))
    ensures |r.1| == |nodes|
    decreases |nodes|
  {
    if nodes == [] then (caches, [])
    else if Skipped(nodes[0]) then
      var (caches', rest) := RunNodes(db, caches, nodes[1..]);
      (caches', [nodes[0]] + rest)
    else
      var (caches', refs) := Run(db, caches, nodes[0].credentials.value);
      var (caches'', rest) := RunNodes(db, caches', nodes[1..]);
      (caches'', [nodes[0].(credentials := Some(refs))] + rest)
  }

  function Repaired(db: Database, nodes: seq<Node>): seq<Node> {
    RunNodes(db, NO_CACHES, nodes).1
  }

  /** The references the pass visits, in order. */
  function Visited(nodes: seq<Node>): seq<TypedReference> {
    if nodes == [] then []
    else (if Skipped(nodes[0]) then [] else nodes[0].credentials.value) + Visited(nodes[1..])
  }

  // ---------------------------------------------------------------------------
  // What the caches can contain, in terms of the references already visited
  // ---------------------------------------------------------------------------

  /** The reference asks for that id, the id is not in the database, and the name does not identify one either. */
  predicate Unresolvable(db: Database, e: TypedReference, credType: string, id: string) {
    && e.0 == credType && !OldStyle(e.1) && e.1.id == Some(id)
    && FindById(db, credType, id).None? && Unique(db, credType, e.1.name).None?
  }

  /** The name in the first such reference. */
  function FirstUnresolvable(db: Database, seen: seq<TypedReference>, credType: string, id: string): Option<string> {
    if seen == [] then None
    else if Unresolvable(db, seen[0], credType, id) then Some(seen[0].1.name)
    else FirstUnresolvable(db, seen[1..], credType, id)
  }

  predicate AskedByName(seen: seq<TypedReference>, credType: string, name: string) {
    exists i :: 0 <= i < |seen| && seen[i].0 == credType && OldStyle(seen[i].1) && NameOf(seen[i].1) == name
  }

  /** The repair of a reference after `seen`, caches eliminated. */
  function Expected(db: Database, seen: seq<TypedReference>, credType: string, ref: Reference): Reference {
    if OldStyle(ref) then
      if AskedByName(seen, credType, NameOf(ref)) then Resolve(db, credType, Read(ref)) else Resolve(db, credType, ref)
    else
      var first := FirstUnresolvable(db, seen, credType, ref.id.value);
      if first.Some? then Details(ref.id, first.value) else Resolve(db, credType, ref)
  }

  /** A name is cached exactly when it was asked for, with what resolving it alone gives. */
  ghost predicate NameSlot(db: Database, seen: seq<TypedReference>, caches: Caches, credType: string, name: string) {
    && ((credType, name) in caches.byName <==> AskedByName(seen, credType, name))
    && ((credType, name) in caches.byName ==>
          caches.byName[(credType, name)] == Resolve(db, credType, Details(None, name)))
  }

  /** An id is cached with its row, or with the first reference that could not be resolved. */
  ghost predicate IdSlot(db: Database, seen: seq<TypedReference>, caches: Caches, credType: string, id: string) {
    var first := FirstUnresolvable(db, seen, credType, id);
    && (first.Some? ==> (credType, id) in caches.byId && caches.byId[(credType, id)] == Details(Some(id), first.value))
    && (first.None? && (credType, id) in caches.byId ==>
          FindById(db, credType, id).Some? && caches.byId[(credType, id)] == Found(FindById(db, credType, id).value))
  }

  ghost predicate CachesMatch(db: Database, seen: seq<TypedReference>, caches: Caches) {
    && (forall t, x :: NameSlot(db, seen, caches, t, x))
    && (forall t, x :: IdSlot(db, seen, caches, t, x))
  }

  lemma {:induction false} FirstUnresolvableSnoc(
    db: Database, seen: seq<TypedReference>, e: TypedReference, credType: string, id: string)
    ensures FirstUnresolvable(db, seen + [e], credType, id)
         == if FirstUnresolvable(db, seen, credType, id).Some? then FirstUnresolvable(db, seen, credType, id)
            else if Unresolvable(db, e, credType, id) then Some(e.1.name)
            else None
    decreases |seen|
  {
    if seen == [] {
      assert seen + [e] == [e];
    } else {
      assert (seen + [e])[0] == seen[0] && (seen + [e])[1..] == seen[1..] + [e];
      FirstUnresolvableSnoc(db, seen[1..], e, credType, id);
    }
  }

  lemma {:induction false} UnresolvableIsAbsent(db: Database, seen: seq<TypedReference>, credType: string, id: string)
    ensures FirstUnresolvable(db, seen, credType, id).Some? ==>
      FindById(db, credType, id).None? && Unique(db, credType, FirstUnresolvable(db, seen, credType, id).value).None?
    decreases |seen|
  {
    if seen != [] {
      UnresolvableIsAbsent(db, seen[1..], credType, id);
    }
  }

  lemma AskedByNameSnoc(seen: seq<TypedReference>, e: TypedReference, credType: string, name: string)
    ensures AskedByName(seen + [e], credType, name)
       <==> AskedByName(seen, credType, name) || (e.0 == credType && OldStyle(e.1) && NameOf(e.1) == name)
  {
    var seen' := seen + [e];
    if e.0 == credType && OldStyle(e.1) && NameOf(e.1) == name {
      assert seen'[|seen|] == e;
    }
    if AskedByName(seen, credType, name) {
      var i :| 0 <= i < |seen| && seen[i].0 == credType && OldStyle(seen[i].1) && NameOf(seen[i].1) == name;
      assert seen'[i] == seen[i];
    }
  }

  /** A row found by name is the row with its id. */
  lemma {:induction false} FoundByNameIsFoundById(db: Database, credType: string, name: string, c: Credential)
    requires UniqueIds(db) && c in FindByName(db, credType, name)
    ensures c in db && c.name == name && c.credType == credType
    ensures FindById(db, credType, c.id) == Some(c)
    decreases |db|
  {
    if c in FindByName(db[1..], credType, name) {
      FoundByNameIsFoundById(db[1..], credType, name, c);
      assert db[1..][..] == db[1..];
    }
  }

  lemma {:induction false} FoundById(db: Database, credType: string, id: string)
    ensures FindById(db, credType, id).Some? ==>
      var c := FindById(db, credType, id).value; c in db && c.id == id && c.credType == credType
    decreases |db|
  {
    if db != [] {
      FoundById(db[1..], credType, id);
    }
  }

  /** One loop turn: the result is the cache-free expectation, and the caches keep matching. */
  lemma StepExpected(db: Database, seen: seq<TypedReference>, caches: Caches, credType: string, ref: Reference)
    requires UniqueIds(db) && CachesMatch(db, seen, caches)
    ensures var (caches', ref') := Step(db, caches, credType, ref);
      ref' == Expected(db, seen, credType, ref) && CachesMatch(db, seen + [(credType, ref)], caches')
  {
    var e := (credType, ref);
    var (caches', ref') := Step(db, caches, credType, ref);
    assert NameSlot(db, seen, caches, credType, NameOf(ref));
    if !OldStyle(ref) {
      assert IdSlot(db, seen, caches, credType, ref.id.value);
    }
    var found := FindByName(db, credType, NameOf(ref));
    if |found| == 1 {
      FoundByNameIsFoundById(db, credType, NameOf(ref), found[0]);
    }
    forall t, x ensures NameSlot(db, seen + [e], caches', t, x) {
      assert NameSlot(db, seen, caches, t, x);
      AskedByNameSnoc(seen, e, t, x);
    }
    forall t, x ensures IdSlot(db, seen + [e], caches', t, x) {
      assert IdSlot(db, seen, caches, t, x);
      FirstUnresolvableSnoc(db, seen, e, t, x);
      UnresolvableIsAbsent(db, seen, t, x);
      FoundById(db, t, x);
    }
  }

  /** The results of the pass over `refs` after `seen`, caches eliminated. */
  function ExpectedRun(db: Database, seen: seq<TypedReference>, refs: seq<TypedReference>): (rs: seq<TypedReference>)
    ensures |rs| == |refs|
    decreases |refs|
  {
    if refs == [] then []
    else [(refs[0].0, Expected(db, seen, refs[0].0, refs[0].1))] + ExpectedRun(db, seen + [refs[0]], refs[1..])
  }

  lemma {:induction false} RunExpected(
    db: Database, seen: seq<TypedReference>, caches: Caches, refs: seq<TypedReference>)
    requires UniqueIds(db) && CachesMatch(db, seen, caches)
    ensures Run(db, caches, refs).1 == ExpectedRun(db, seen, refs)
    ensures CachesMatch(db, seen + refs, Run(db, caches, refs).0)
    decreases |refs|
  {
    if refs == [] {
      assert seen + refs == seen;
    } else {
      StepExpected(db, seen, caches, refs[0].0, refs[0].1);
      assert refs[0] == (refs[0].0, refs[0].1);
      RunExpected(db, seen + [refs[0]], Step(db, caches, refs[0].0, refs[0].1).0, refs[1..]);
      assert seen + [refs[0]] + refs[1..] == seen + refs;
    }
  }

  lemma {:induction false} ExpectedRunAt(db: Database, seen: seq<TypedReference>, refs: seq<TypedReference>, i: nat)
    requires i < |refs|
    ensures ExpectedRun(db, seen, refs)[i] == (refs[i].0, Expected(db, seen + refs[..i], refs[i].0, refs[i].1))
    decreases |refs|
  {
    if i == 0 {
      assert seen + refs[..0] == seen;
    } else {
      HeadMoves(seen, refs, i);
      ExpectedRunAt(db, seen + [refs[0]], refs[1..], i - 1);
      assert refs[1..][i - 1] == refs[i];
    }
  }

  lemma HeadMoves<T>(seen: seq<T>, s: seq<T>, i: nat)
    requires 0 < i < |s|
    ensures seen + [s[0]] + s[1..][..i - 1] == seen + s[..i]
  {
  }

  lemma TakeOneMore<T>(s: seq<T>, i: nat)
    requires 0 < i <= |s|
    ensures s[..i] == s[..i - 1] + [s[i - 1]]
  {
  }

  /** What the pass makes of reference `i`: a function of the database and the references before it. */
  lemma RunAt(db: Database, refs: seq<TypedReference>, i: nat)
    requires UniqueIds(db) && i < |refs|
    ensures Run(db, NO_CACHES, refs).1[i] == (refs[i].0, Expected(db, refs[..i], refs[i].0, refs[i].1))
  {
    RunExpected(db, [], NO_CACHES, refs);
    ExpectedRunAt(db, [], refs, i);
    assert [] + refs[..i] == refs[..i];
  }

  // ---------------------------------------------------------------------------
  // When the pass agrees with resolving every reference alone
  // ---------------------------------------------------------------------------

  /** After a reference that cannot be resolved, every reference to the same type and id has the same name. */
  ghost predicate ConsistentIds(db: Database, refs: seq<TypedReference>) {
    forall i, j :: 0 <= i < j < |refs| && !OldStyle(refs[j].1)
                   && Unresolvable(db, refs[i], refs[j].0, refs[j].1.id.value)
                   ==> refs[j].1.name == refs[i].1.name
  }

  ghost predicate Agrees(db: Database, refs: seq<TypedReference>, i: nat)
    requires i < |refs|
  {
    Read(Run(db, NO_CACHES, refs).1[i].1) == Read(Resolve(db, refs[i].0, refs[i].1))
  }

  lemma {:induction false} FirstUnresolvableIsFirst(
    db: Database, seen: seq<TypedReference>, credType: string, id: string)
    returns (i: nat)
    requires exists j :: 0 <= j < |seen| && Unresolvable(db, seen[j], credType, id)
    ensures i < |seen| && Unresolvable(db, seen[i], credType, id)
    ensures forall j :: 0 <= j < i ==> !Unresolvable(db, seen[j], credType, id)
    ensures FirstUnresolvable(db, seen, credType, id) == Some(seen[i].1.name)
    decreases |seen|
  {
    if Unresolvable(db, seen[0], credType, id) {
      i := 0;
    } else {
      var j :| 0 <= j < |seen| && Unresolvable(db, seen[j], credType, id);
      assert seen[1..][j - 1] == seen[j];
      var k := FirstUnresolvableIsFirst(db, seen[1..], credType, id);
      i := k + 1;
      assert forall j :: 0 < j < i ==> seen[j] == seen[1..][j - 1];
    }
  }

  lemma {:induction false} NoneUnresolvable(db: Database, seen: seq<TypedReference>, credType: string, id: string)
    requires forall j :: 0 <= j < |seen| ==> !Unresolvable(db, seen[j], credType, id)
    ensures FirstUnresolvable(db, seen, credType, id) == None
    decreases |seen|
  {
    if seen != [] {
      assert forall j :: 0 <= j < |seen| - 1 ==> seen[1..][j] == seen[j + 1];
      NoneUnresolvable(db, seen[1..], credType, id);
    }
  }

  /** Agreement at one reference, given the first unresolvable one before it. */
  lemma AgreesAt(db: Database, refs: seq<TypedReference>, j: nat)
    requires UniqueIds(db) && j < |refs|
    ensures Agrees(db, refs, j) <==>
      (!OldStyle(refs[j].1) ==>
        var first := FirstUnresolvable(db, refs[..j], refs[j].0, refs[j].1.id.value);
        first.Some? ==> refs[j].1.name == first.value)
  {
    var (t, ref) := refs[j];
    RunAt(db, refs, j);
    if !OldStyle(ref) {
      UnresolvableIsAbsent(db, refs[..j], t, ref.id.value);
      var found := FindByName(db, t, ref.name);
      if |found| == 1 {
        FoundByNameIsFoundById(db, t, ref.name, found[0]);
      }
    }
  }

  /** The cached pass and the cache-free resolver agree everywhere exactly when the ids are used consistently. */
  lemma RunAgreesIff(db: Database, refs: seq<TypedReference>)
    requires UniqueIds(db)
    ensures (forall i :: 0 <= i < |refs| ==> Agrees(db, refs, i)) <==> ConsistentIds(db, refs)
  {
    if ConsistentIds(db, refs) {
      forall j | 0 <= j < |refs| ensures Agrees(db, refs, j) {
        AgreesAt(db, refs, j);
        if !OldStyle(refs[j].1) {
          var t, id := refs[j].0, refs[j].1.id.value;
          if exists i :: 0 <= i < j && Unresolvable(db, refs[..j][i], t, id) {
            var i := FirstUnresolvableIsFirst(db, refs[..j], t, id);
            assert Unresolvable(db, refs[i], t, id);
          } else {
            NoneUnresolvable(db, refs[..j], t, id);
          }
        }
      }
    }
    if forall i :: 0 <= i < |refs| ==> Agrees(db, refs, i) {
      forall i, j | 0 <= i < j < |refs| && !OldStyle(refs[j].1)
                    && Unresolvable(db, refs[i], refs[j].0, refs[j].1.id.value)
        ensures refs[j].1.name == refs[i].1.name
      {
        var t, id := refs[j].0, refs[j].1.id.value;
        assert refs[..j][i] == refs[i];
        var k := FirstUnresolvableIsFirst(db, refs[..j], t, id);
        AgreesAt(db, refs, j);
        if k < i {
          assert refs[..i][k] == refs[k];
          var k' := FirstUnresolvableIsFirst(db, refs[..i], t, id);
          assert refs[..j][k'] == refs[k'];
          AgreesAt(db, refs, i);
        }
      }
    }
  }

  predicate SameId(e: TypedReference, e': TypedReference) {
    e.0 == e'.0 && !OldStyle(e.1) && !OldStyle(e'.1) && e.1.id == e'.1.id
  }

  /** Sharing one name per type and id is enough. */
  lemma OneNamePerIdIsConsistent(db: Database, refs: seq<TypedReference>)
    requires forall i, j :: 0 <= i < j < |refs| && SameId(refs[i], refs[j]) ==> refs[i].1.name == refs[j].1.name
    ensures ConsistentIds(db, refs)
  {
  }

  // ---------------------------------------------------------------------------
  // A second pass changes nothing
  // ---------------------------------------------------------------------------

  /** The first unresolvable reference to an id is left as it is, and no other kind of result is unresolvable. */
  lemma FirstStaysFirst(
    db: Database, seen: seq<TypedReference>, e: TypedReference, credType: string, id: string)
    requires UniqueIds(db)
    ensures var e' := (e.0, Expected(db, seen, e.0, e.1));
      FirstUnresolvable(db, seen, credType, id).None? ==>
        (Unresolvable(db, e', credType, id) <==> Unresolvable(db, e, credType, id))
        && (Unresolvable(db, e, credType, id) ==> e' == e)
  {
    ExpectedIsSettled(db, seen, e.0, e.1);
    if FirstUnresolvable(db, seen, credType, id).None? && !OldStyle(e.1) && e.0 == credType && e.1.id == Some(id) {
      assert Expected(db, seen, e.0, e.1) == Resolve(db, credType, e.1);
      var found := FindByName(db, credType, e.1.name);
      if |found| == 1 {
        FoundByNameIsFoundById(db, credType, e.1.name, found[0]);
      }
    }
  }

  /** The results leave the same ids unresolved, under the same names. */
  lemma {:induction false} SameUnresolvable(
    db: Database, refs: seq<TypedReference>, i: nat, credType: string, id: string)
    requires UniqueIds(db) && i <= |refs|
    ensures FirstUnresolvable(db, Run(db, NO_CACHES, refs).1[..i], credType, id)
         == FirstUnresolvable(db, refs[..i], credType, id)
    decreases i
  {
    var rs := Run(db, NO_CACHES, refs).1;
    if i > 0 {
      var e := refs[i - 1];
      SameUnresolvable(db, refs, i - 1, credType, id);
      RunAt(db, refs, i - 1);
      TakeOneMore(rs, i);
      TakeOneMore(refs, i);
      FirstUnresolvableSnoc(db, rs[..i - 1], rs[i - 1], credType, id);
      FirstUnresolvableSnoc(db, refs[..i - 1], e, credType, id);
      FirstStaysFirst(db, refs[..i - 1], e, credType, id);
    }
  }

  /** A result is a row of the database, or a reference that resolving alone would leave as it is. */
  lemma ExpectedIsSettled(db: Database, seen: seq<TypedReference>, credType: string, ref: Reference)
    requires UniqueIds(db)
    ensures var r := Expected(db, seen, credType, ref);
      || (!OldStyle(r) && FindById(db, credType, r.id.value).Some?
          && r == Found(FindById(db, credType, r.id.value).value))
      || (Resolve(db, credType, r) == r && Unique(db, credType, NameOf(r)).None? && OldStyle(r) == OldStyle(ref)
          && (OldStyle(r) ==> NameOf(r) == NameOf(ref))
          && (!OldStyle(r) ==> r.id == ref.id && FindById(db, credType, r.id.value).None?))
  {
    var found := FindByName(db, credType, NameOf(ref));
    if |found| == 1 {
      FoundByNameIsFoundById(db, credType, NameOf(ref), found[0]);
    }
    if !OldStyle(ref) {
      UnresolvableIsAbsent(db, seen, credType, ref.id.value);
      FoundById(db, credType, ref.id.value);
    }
  }

  lemma AskedInResults(db: Database, refs: seq<TypedReference>, i: nat, credType: string, name: string)
    requires UniqueIds(db) && i <= |refs|
    ensures AskedByName(Run(db, NO_CACHES, refs).1[..i], credType, name) ==> AskedByName(refs[..i], credType, name)
  {
    var rs := Run(db, NO_CACHES, refs).1[..i];
    if AskedByName(rs, credType, name) {
      var k :| 0 <= k < i && rs[k].0 == credType && OldStyle(rs[k].1) && NameOf(rs[k].1) == name;
      RunAt(db, refs, k);
      ExpectedIsSettled(db, refs[..k], refs[k].0, refs[k].1);
      assert refs[..i][k] == refs[k];
    }
  }

  lemma SecondPassAt(db: Database, refs: seq<TypedReference>, i: nat)
    requires UniqueIds(db) && i < |refs|
    ensures var rs := Run(db, NO_CACHES, refs).1; Run(db, NO_CACHES, rs).1[i] == rs[i]
  {
    var rs := Run(db, NO_CACHES, refs).1;
    var (t, ref) := refs[i];
    RunAt(db, refs, i);
    RunAt(db, rs, i);
    ExpectedIsSettled(db, refs[..i], t, ref);
    if OldStyle(rs[i].1) {
      AskedInResults(db, refs, i, t, NameOf(ref));
    } else {
      SameUnresolvable(db, refs, i, t, rs[i].1.id.value);
      UnresolvableIsAbsent(db, refs[..i], t, rs[i].1.id.value);
    }
  }

  // ---------------------------------------------------------------------------
  // Queries
  // ---------------------------------------------------------------------------

  ghost predicate LogMatches(caches: Caches) {
    forall t, n :: multiset(caches.log)[NullIdByName(t, n)] == if (t, n) in caches.byName then 1 else 0
  }

  lemma {:induction false} RunLog(db: Database, caches: Caches, refs: seq<TypedReference>)
    requires LogMatches(caches)
    ensures LogMatches(Run(db, caches, refs).0)
    decreases |refs|
  {
    if refs != [] {
      RunLog(db, Step(db, caches, refs[0].0, refs[0].1).0, refs[1..]);
    }
  }

  // ---------------------------------------------------------------------------
  // Whole workflows
  // ---------------------------------------------------------------------------

  /** `nodes` with the visited references replaced by `refs`. */
  function Rebuild(nodes: seq<Node>, refs: seq<TypedReference>): (rs: seq<Node>)
    requires |refs| == |Visited(nodes)|
    ensures |rs| == |nodes|
    decreases |nodes|
  {
    if nodes == [] then []
    else if Skipped(nodes[0]) then [nodes[0]] + Rebuild(nodes[1..], refs)
    else
      var n := |nodes[0].credentials.value|;
      [nodes[0].(credentials := Some(refs[..n]))] + Rebuild(nodes[1..], refs[n..])
  }

  lemma {:induction false} VisitedRebuilt(nodes: seq<Node>, refs: seq<TypedReference>)
    requires |refs| == |Visited(nodes)|
    ensures Visited(Rebuild(nodes, refs)) == refs
    decreases |nodes|
  {
    if nodes != [] {
      var n := if Skipped(nodes[0]) then 0 else |nodes[0].credentials.value|;
      VisitedRebuilt(nodes[1..], refs[n..]);
      assert refs[0..] == refs && refs[..n] + refs[n..] == refs;
    }
  }

  lemma {:induction false} RunConcat(db: Database, caches: Caches, a: seq<TypedReference>, b: seq<TypedReference>)
    ensures var (caches', rs) := Run(db, caches, a);
      Run(db, caches, a + b) == (Run(db, caches', b).0, rs + Run(db, caches', b).1)
    decreases |a|
  {
    if a == [] {
      assert a + b == b && [] + Run(db, caches, b).1 == Run(db, caches, b).1;
    } else {
      assert (a + b)[0] == a[0] && (a + b)[1..] == a[1..] + b;
      var (caches', ref) := Step(db, caches, a[0].0, a[0].1);
      RunConcat(db, caches', a[1..], b);
      var (caches'', rs) := Run(db, caches', a[1..]);
      var tail := Run(db, caches'', b).1;
      assert [(a[0].0, ref)] + (rs + tail) == [(a[0].0, ref)] + rs + tail;
    }
  }

  /** The nested loops are the pass over the visited references; nothing else changes. */
  lemma {:induction false} RunNodesIsRun(db: Database, caches: Caches, nodes: seq<Node>)
    ensures RunNodes(db, caches, nodes)
         == (Run(db, caches, Visited(nodes)).0, Rebuild(nodes, Run(db, caches, Visited(nodes)).1))
    decreases |nodes|
  {
    if nodes != [] {
      var refs := if Skipped(nodes[0]) then [] else nodes[0].credentials.value;
      var rest := Visited(nodes[1..]);
      if Skipped(nodes[0]) {
        assert Visited(nodes) == rest;
        RunNodesIsRun(db, caches, nodes[1..]);
      } else {
        RunConcat(db, caches, refs, rest);
        var (caches', rs) := Run(db, caches, refs);
        RunNodesIsRun(db, caches', nodes[1..]);
        var all := Run(db, caches, refs + rest).1;
        assert all[..|refs|] == rs && all[|refs|..] == Run(db, caches', rest).1;
      }
    }
  }

  function ReadAll(refs: seq<TypedReference>): (rs: seq<TypedReference>)
    ensures |rs| == |refs|
  {
    seq(|refs|, i requires 0 <= i < |refs| => (refs[i].0, Read(refs[i].1)))
  }

  function ResolveAll(db: Database, refs: seq<TypedReference>): (rs: seq<TypedReference>)
    ensures |rs| == |refs|
  {
    seq(|refs|, i requires 0 <= i < |refs| => (refs[i].0, Resolve(db, refs[i].0, refs[i].1)))
  }

  /** `nodes` with every visited reference resolved alone. */
  function ResolvedAlone(db: Database, nodes: seq<Node>): seq<Node> {
    Rebuild(nodes, ResolveAll(db, Visited(nodes)))
  }

  /** The two differ at most in writing a bare name as a reference without id. */
  ghost predicate SameReading(nodes: seq<Node>, nodes': seq<Node>) {
    && |Visited(nodes)| == |Visited(nodes')|
    && Rebuild(nodes, ReadAll(Visited(nodes))) == Rebuild(nodes', ReadAll(Visited(nodes')))
  }

  lemma {:induction false} RebuildRebuilt(nodes: seq<Node>, refs: seq<TypedReference>, refs': seq<TypedReference>)
    requires |refs| == |refs'| == |Visited(nodes)|
    ensures |Visited(Rebuild(nodes, refs))| == |refs|
    ensures Rebuild(Rebuild(nodes, refs), refs') == Rebuild(nodes, refs')
    decreases |nodes|
  {
    VisitedRebuilt(nodes, refs);
    if nodes != [] {
      var n := if Skipped(nodes[0]) then 0 else |nodes[0].credentials.value|;
      assert refs[0..] == refs && refs'[0..] == refs';
      RebuildRebuilt(nodes[1..], refs[n..], refs'[n..]);
    }
  }

  /** Main result: the cached pass over a workflow does what resolving alone does iff ids are used consistently. */
  lemma RepairAgreesIff(db: Database, nodes: seq<Node>)
    requires UniqueIds(db)
    ensures SameReading(Repaired(db, nodes), ResolvedAlone(db, nodes)) <==> ConsistentIds(db, Visited(nodes))
  {
    var refs := Visited(nodes);
    var rs, alone := Run(db, NO_CACHES, refs).1, ResolveAll(db, refs);
    RunNodesIsRun(db, NO_CACHES, nodes);
    SameReadingIsFlat(nodes, rs, alone);
    RunAgreesIff(db, refs);
    forall i | 0 <= i < |refs| ensures ReadAll(rs)[i] == ReadAll(alone)[i] <==> Agrees(db, refs, i) {
      RunAt(db, refs, i);
    }
  }

  lemma SameReadingIsFlat(nodes: seq<Node>, refs: seq<TypedReference>, refs': seq<TypedReference>)
    requires |refs| == |refs'| == |Visited(nodes)|
    ensures SameReading(Rebuild(nodes, refs), Rebuild(nodes, refs')) <==> ReadAll(refs) == ReadAll(refs')
  {
    VisitedRebuilt(nodes, refs);
    VisitedRebuilt(nodes, refs');
    RebuildRebuilt(nodes, refs, ReadAll(refs));
    RebuildRebuilt(nodes, refs', ReadAll(refs'));
    VisitedRebuilt(nodes, ReadAll(refs));
    VisitedRebuilt(nodes, ReadAll(refs'));
  }

  /** Repairing a repaired workflow changes nothing, consistent ids or not. */
  lemma RepairIsIdempotent(db: Database, nodes: seq<Node>)
    requires UniqueIds(db)
    ensures Repaired(db, Repaired(db, nodes)) == Repaired(db, nodes)
  {
    var refs := Visited(nodes);
    var rs := Run(db, NO_CACHES, refs).1;
    RunNodesIsRun(db, NO_CACHES, nodes);
    RunNodesIsRun(db, NO_CACHES, Repaired(db, nodes));
    VisitedRebuilt(nodes, rs);
    forall i | 0 <= i < |refs| ensures Run(db, NO_CACHES, rs).1[i] == rs[i] {
      SecondPassAt(db, refs, i);
    }
    assert Run(db, NO_CACHES, rs).1 == rs;
    RebuildRebuilt(nodes, rs, rs);
  }

  // ---------------------------------------------------------------------------
  // Node by node
  // ---------------------------------------------------------------------------

  /** The pass leaves each node in its place; it touches the references of an enabled one, and nothing else. */
  lemma {:induction false} RunNodesAt(db: Database, caches: Caches, nodes: seq<Node>, i: nat)
    requires i < |nodes|
    ensures var node := RunNodes(db, caches, nodes).1[i];
      && node.disabled == nodes[i].disabled
      && (nodes[i].disabled || nodes[i].credentials.None? ==> node == nodes[i])
      && (!nodes[i].disabled && nodes[i].credentials.Some? ==>
            && node.credentials.Some? && |node.credentials.value| == |nodes[i].credentials.value|
            && forall k :: 0 <= k < |node.credentials.value| ==>
                 node.credentials.value[k].0 == nodes[i].credentials.value[k].0)
    decreases |nodes|
  {
    if i > 0 {
      var caches' := if Skipped(nodes[0]) then caches else Run(db, caches, nodes[0].credentials.value).0;
      RunNodesAt(db, caches', nodes[1..], i - 1);
    } else if !Skipped(nodes[0]) {
      RunKeepsTypes(db, caches, nodes[0].credentials.value);
    }
  }

  lemma {:induction false} RunKeepsTypes(db: Database, caches: Caches, refs: seq<TypedReference>)
    ensures forall k :: 0 <= k < |refs| ==> Run(db, caches, refs).1[k].0 == refs[k].0
    decreases |refs|
  {
    if refs != [] {
      RunKeepsTypes(db, Step(db, caches, refs[0].0, refs[0].1).0, refs[1..]);
    }
  }

  function FirstVisited(nodes: seq<Node>): nat
    requires nodes != []
  {
    if Skipped(nodes[0]) then 0 else |nodes[0].credentials.value|
  }

  lemma RebuildTail(nodes: seq<Node>, refs: seq<TypedReference>, i: nat)
    requires 0 < i < |nodes| && |refs| == |Visited(nodes)|
    ensures var n := FirstVisited(nodes);
      && n <= |refs| && Visited(nodes)[n..] == Visited(nodes[1..])
      && Rebuild(nodes, refs)[i] == Rebuild(nodes[1..], refs[n..])[i - 1]
  {
    assert refs[0..] == refs;
  }

  /** Where the references of an enabled node are among those visited. */
  lemma {:induction false} VisitedAt(nodes: seq<Node>, refs: seq<TypedReference>, i: nat) returns (o: nat)
    requires i < |nodes| && !nodes[i].disabled && nodes[i].credentials.Some? && |refs| == |Visited(nodes)|
    ensures var n := |nodes[i].credentials.value|;
      && o + n <= |refs| && Visited(nodes)[o..o + n] == nodes[i].credentials.value
      && Rebuild(nodes, refs)[i].credentials == Some(refs[o..o + n])
    decreases |nodes|
  {
    var n := FirstVisited(nodes);
    if i == 0 {
      o := 0;
    } else {
      RebuildTail(nodes, refs, i);
      var rest := nodes[1..];
      assert rest[i - 1] == nodes[i];
      var o' := VisitedAt(rest, refs[n..], i - 1);
      o := n + o';
      var m := |nodes[i].credentials.value|;
      SliceOfRest(Visited(nodes), n, o', o' + m);
      SliceOfRest(refs, n, o', o' + m);
    }
  }

  lemma SliceOfRest<T>(s: seq<T>, n: nat, a: nat, b: nat)
    requires a <= b && n + b <= |s|
    ensures s[n..][a..b] == s[n + a..n + b]
  {
  }

  /** What reference `k` of node `i` reads as after the pass. */
  ghost predicate ReadsResolved(db: Database, nodes: seq<Node>, i: nat, k: nat)
    requires i < |nodes| && !nodes[i].disabled && nodes[i].credentials.Some? && k < |nodes[i].credentials.value|
  {
    var (credType, ref) := nodes[i].credentials.value[k];
    var node := Repaired(db, nodes)[i];
    node.credentials.Some? && k < |node.credentials.value|
    && Read(node.credentials.value[k].1) == Read(Resolve(db, credType, ref))
  }

  /** No two references of enabled nodes share type and id under different names. */
  ghost predicate OneNamePerId(nodes: seq<Node>) {
    forall i, j, a, b ::
      && 0 <= i < |nodes| && !nodes[i].disabled && nodes[i].credentials.Some?
      && 0 <= j < |nodes| && !nodes[j].disabled && nodes[j].credentials.Some?
      && 0 <= a < |nodes[i].credentials.value| && 0 <= b < |nodes[j].credentials.value|
      && SameId(nodes[i].credentials.value[a], nodes[j].credentials.value[b])
      ==> nodes[i].credentials.value[a].1.name == nodes[j].credentials.value[b].1.name
  }

  /** With ids used consistently, each reference of an enabled node reads as it resolves alone. */
  lemma {:induction false} EnabledNodesAreRepaired(db: Database, nodes: seq<Node>, i: nat, k: nat)
    requires UniqueIds(db) && ConsistentIds(db, Visited(nodes))
    requires i < |nodes| && !nodes[i].disabled && nodes[i].credentials.Some? && k < |nodes[i].credentials.value|
    ensures ReadsResolved(db, nodes, i, k)
  {
    var refs := Visited(nodes);
    var rs := Run(db, NO_CACHES, refs).1;
    RunNodesIsRun(db, NO_CACHES, nodes);
    var o := VisitedAt(nodes, rs, i);
    RunAgreesIff(db, refs);
    assert Agrees(db, refs, o + k);
    assert refs[o + k] == nodes[i].credentials.value[k];
  }

  /** It is enough that no two references of enabled nodes share an id under different names. */
  lemma {:induction false} OneNamePerIdIsEnough(db: Database, nodes: seq<Node>, i: nat, k: nat)
    requires UniqueIds(db) && OneNamePerId(nodes)
    requires i < |nodes| && !nodes[i].disabled && nodes[i].credentials.Some? && k < |nodes[i].credentials.value|
    ensures ReadsResolved(db, nodes, i, k)
  {
    var refs := Visited(nodes);
    forall a, b | 0 <= a < b < |refs| && SameId(refs[a], refs[b]) ensures refs[a].1.name == refs[b].1.name {
      var at := VisitedFrom(nodes, a);
      var bt := VisitedFrom(nodes, b);
    }
    OneNamePerIdIsConsistent(db, refs);
    EnabledNodesAreRepaired(db, nodes, i, k);
  }

  /** A visited reference is one of a repairable node. */
  lemma {:induction false} VisitedFrom(nodes: seq<Node>, a: nat) returns (at: (nat, nat))
    requires a < |Visited(nodes)|
    ensures at.0 < |nodes| && !nodes[at.0].disabled && nodes[at.0].credentials.Some?
    ensures at.1 < |nodes[at.0].credentials.value|
    ensures Visited(nodes)[a] == nodes[at.0].credentials.value[at.1]
    decreases |nodes|
  {
    var n := if Skipped(nodes[0]) then 0 else |nodes[0].credentials.value|;
    if a < n {
      at := (0, a);
    } else {
      var rest := VisitedFrom(nodes[1..], a - n);
      at := (rest.0 + 1, rest.1);
    }
  }

  /** No old-style name is looked up twice for the same type. */
  lemma OldStyleLookedUpOnce(db: Database, nodes: seq<Node>, credType: string, name: string)
    ensures multiset(RunNodes(db, NO_CACHES, nodes).0.log)[NullIdByName(credType, name)] <= 1
  {
    RunNodesIsRun(db, NO_CACHES, nodes);
    RunLog(db, NO_CACHES, Visited(nodes));
  }

  // ---------------------------------------------------------------------------
  // The loops
  // ---------------------------------------------------------------------------

  /** One turn of the inner loop. */
  lemma RunTurn(
    db: Database, start: Caches, all: seq<TypedReference>, done: seq<TypedReference>,
    caches: Caches, todo: seq<TypedReference>)
    requires todo != []
    requires Run(db, start, all) == (Run(db, caches, todo).0, done + Run(db, caches, todo).1)
    ensures var (caches', ref) := Step(db, caches, todo[0].0, todo[0].1);
      Run(db, start, all)
      == (Run(db, caches', todo[1..]).0, done + [(todo[0].0, ref)] + Run(db, caches', todo[1..]).1)
  {
    var (caches', ref) := Step(db, caches, todo[0].0, todo[0].1);
    var tail := Run(db, caches', todo[1..]).1;
    assert done + ([(todo[0].0, ref)] + tail) == done + [(todo[0].0, ref)] + tail;
  }

  /** The body of the inner loop: `ref` is the reference to look at, the result what the node holds afterwards. */
  method RepairReference(db: Database, caches: Caches, credType: string, ref: Reference)
    returns (caches': Caches, ref': Reference)
    ensures (caches', ref') == Step(db, caches, credType, ref)
  {
    var credentialsByName, credentialsById, log := caches.byName, caches.byId, caches.log;
    ref' := ref;
    if ref.Bare? || ref.id.None? {
      var name := if ref.Bare? then ref.text else ref.name;
      if (credType, name) !in credentialsByName {
        var credentials := FindByName(db, credType, name);
        log := log + [NullIdByName(credType, name)];
        if |credentials| == 1 {
          var found := Details(Some(credentials[0].id), credentials[0].name);
          credentialsByName := credentialsByName[(credType, name) := found];
          ref' := credentialsByName[(credType, name)];
        } else {
          credentialsByName := credentialsByName[(credType, name) := Details(None, name)];
        }
      } else {
        ref' := credentialsByName[(credType, name)];
      }
    } else {
      var id := ref.id.value;
      if (credType, id) !in credentialsById {
        var credential := FindById(db, credType, id);
        log := log + [ById(credType, id)];
        if credential.Some? {
          var found := Details(Some(credential.value.id), credential.value.name);
          credentialsById := credentialsById[(credType, id) := found];
          ref' := credentialsById[(credType, id)];
        } else {
          var credsByName := FindByName(db, credType, ref.name);
          log := log + [FallbackByName(credType, ref.name)];
          if |credsByName| == 1 {
            var found := credsByName[0];
            credentialsById := credentialsById[(credType, found.id) := Details(Some(found.id), found.name)];
            ref' := credentialsById[(credType, found.id)];
          } else {
            credentialsById := credentialsById[(credType, id) := ref];
          }
        }
      } else {
        ref' := credentialsById[(credType, id)];
      }
    }
    caches' := Caches(credentialsByName, credentialsById, log);
  }

  method RepairReferences(db: Database, caches: Caches, all: seq<TypedReference>)
    returns (caches': Caches, refs: seq<TypedReference>)
    ensures (caches', refs) == Run(db, caches, all)
  {
    caches', refs := caches, all;
    var j := 0;
    assert all[..0] + Run(db, caches, all[0..]).1 == Run(db, caches, all).1 && all[0..] == all;
    while j < |refs|
      invariant 0 <= j <= |refs| == |all|
      invariant refs[j..] == all[j..]
      invariant Run(db, caches, all) == (Run(db, caches', all[j..]).0, refs[..j] + Run(db, caches', all[j..]).1)
    {
      RunTurn(db, caches, all, refs[..j], caches', all[j..]);
      var ref;
      ghost var done := refs[..j];
      assert all[j..][0] == refs[j..][0] && all[j..][1..] == all[j + 1..];
      caches', ref := RepairReference(db, caches', refs[j].0, refs[j].1);
      refs := refs[j := (refs[j].0, ref)];
      j := j + 1;
      assert refs[..j] == done + [(all[j - 1].0, ref)];
    }
    assert refs[..j] + [] == refs;
  }

  /** One turn of the outer loop. */
  lemma NodeTurn(db: Database, caches: Caches, done: seq<Node>, todo: seq<Node>, caches': Caches, node: Node)
    requires todo != []
    requires RunNodes(db, caches, todo)
          == (RunNodes(db, caches', todo[1..]).0, [node] + RunNodes(db, caches', todo[1..]).1)
    ensures done + RunNodes(db, caches, todo).1 == (done + [node]) + RunNodes(db, caches', todo[1..]).1
  {
  }

  /** `replaceInvalidCredentials`: the nodes are repaired in place. */
  method ReplaceInvalidCredentials(db: Database, nodes: array<Node>) returns (caches: Caches)
    requires UniqueIds(db)
    modifies nodes
    ensures nodes[..] == Repaired(db, old(nodes[..]))
    ensures caches == RunNodes(db, NO_CACHES, old(nodes[..])).0
    ensures ConsistentIds(db, Visited(old(nodes[..]))) ==> SameReading(nodes[..], ResolvedAlone(db, old(nodes[..])))
  {
    caches := NO_CACHES;
    var i := 0;
    ghost var all := nodes[..];
    assert all[0..] == all && nodes[..0] + RunNodes(db, caches, all[0..]).1 == RunNodes(db, caches, all).1;
    while i < nodes.Length
      invariant 0 <= i <= nodes.Length == |all|
      invariant nodes[i..] == all[i..]
      invariant RunNodes(db, NO_CACHES, all)
             == (RunNodes(db, caches, all[i..]).0, nodes[..i] + RunNodes(db, caches, all[i..]).1)
    {
      var node := nodes[i];
      ghost var before, done := caches, nodes[..i];
      assert all[i..][0] == nodes[i..][0] == node && all[i..][1..] == all[i + 1..];
      if !(node.credentials.None? || node.disabled) {
        var refs;
        caches, refs := RepairReferences(db, caches, node.credentials.value);
        node := node.(credentials := Some(refs));
      }
      NodeTurn(db, before, done, all[i..], caches, node);
      nodes[i] := node;
      i := i + 1;
      assert nodes[..i] == done + [node];
    }
    assert nodes[..i] + [] == nodes[..];
    RepairAgreesIff(db, all);
  }
}
