/**
 * The caches of the credential repair are plain objects, and a plain object answers for the keys of its
 * prototype before anything is put into it. A reference whose name, or id, is such a key is never looked
 * up: its node gets a member of the prototype.
 */
module CredentialCacheKeys {
  import opened Wrappers
  import opened CredentialRepair

  const PROTOTYPE_KEYS := {
    "constructor", "toString", "toLocaleString", "valueOf", "hasOwnProperty", "isPrototypeOf", "propertyIsEnumerable",
    "__proto__", "__defineGetter__", "__defineSetter__", "__lookupGetter__", "__lookupSetter__"}

  /** What a node holds after the pass. */
  datatype Held = Own(ref: Reference) | Member(key: string)

  /** The key under which the reference is looked for in its cache. */
  function Key(ref: Reference): string {
    if OldStyle(ref) then NameOf(ref) else ref.id.value
  }

  predicate Cached(caches: Caches, credType: string, ref: Reference) {
    (credType, Key(ref)) in if OldStyle(ref) then caches.byName else caches.byId
  }

  function ObjectStep(db: Database, caches: Caches, credType: string, ref: Reference): (Caches, Held) {
    if !Cached(caches, credType, ref) && Key(ref) in PROTOTYPE_KEYS then (caches, Member(Key(ref)))
    else
      var (caches', ref') := Step(db, caches, credType, ref);
      (caches', Own(ref'))
  }

  function ObjectRun(db: Database, caches: Caches, refs: seq<TypedReference>): (r: (Caches, seq<Held>))
    ensures |r.1| == |refs|
    decreases |refs|
  {
    if refs == [] then (caches, [])
    else
      var (caches', held) := ObjectStep(db, caches, refs[0].0, refs[0].1);
      var (caches'', rest) := ObjectRun(db, caches', refs[1..]);
      (caches'', [held] + rest)
  }

  predicate OrdinaryKeys(refs: seq<TypedReference>) {
    forall i :: 0 <= i < |refs| ==> Key(refs[i].1) !in PROTOTYPE_KEYS
  }

  /** Ids of rows are generated, and are none of these keys. */
  predicate OrdinaryIds(db: Database) {
    forall i :: 0 <= i < |db| ==> db[i].id !in PROTOTYPE_KEYS
  }

  ghost predicate OrdinaryCaches(caches: Caches) {
    && (forall t, x :: (t, x) in caches.byName ==> x !in PROTOTYPE_KEYS)
    && (forall t, x :: (t, x) in caches.byId ==> x !in PROTOTYPE_KEYS)
  }

  /** With ordinary keys the objects behave as maps. */
  lemma {:induction false} ObjectsAreMaps(db: Database, caches: Caches, refs: seq<TypedReference>)
    requires OrdinaryKeys(refs)
    ensures forall i :: 0 <= i < |refs| ==> ObjectRun(db, caches, refs).1[i] == Own(Run(db, caches, refs).1[i].1)
    decreases |refs|
  {
    if refs != [] {
      ObjectsAreMaps(db, Step(db, caches, refs[0].0, refs[0].1).0, refs[1..]);
    }
  }

  lemma StepKeepsOrdinary(db: Database, caches: Caches, credType: string, ref: Reference)
    requires UniqueIds(db) && OrdinaryIds(db) && OrdinaryCaches(caches)
    ensures OrdinaryCaches(ObjectStep(db, caches, credType, ref).0)
  {
    var found := FindByName(db, credType, NameOf(ref));
    if |found| == 1 {
      FoundByNameIsFoundById(db, credType, NameOf(ref), found[0]);
    }
  }

  /** A node gets a member of the prototype exactly when its reference has such a key. */
  lemma {:induction false} MemberIffKey(db: Database, caches: Caches, refs: seq<TypedReference>, i: nat)
    requires UniqueIds(db) && OrdinaryIds(db) && OrdinaryCaches(caches) && i < |refs|
    ensures ObjectRun(db, caches, refs).1[i].Member? <==> Key(refs[i].1) in PROTOTYPE_KEYS
    decreases |refs|
  {
    if i > 0 {
      StepKeepsOrdinary(db, caches, refs[0].0, refs[0].1);
      MemberIffKey(db, ObjectStep(db, caches, refs[0].0, refs[0].1).0, refs[1..], i - 1);
    }
  }

  /** What the node holds reads as the reference resolved alone. */
  ghost predicate HoldsResolved(db: Database, refs: seq<TypedReference>, i: nat)
    requires i < |refs|
  {
    var held := ObjectRun(db, NO_CACHES, refs).1[i];
    held.Own? && Read(held.ref) == Read(CredentialRepair.Resolve(db, refs[i].0, refs[i].1))
  }

  /**
   * With caches that are objects, every node holds what resolving its references alone gives if and
   * only if ids are used consistently and no name or id looked up is a key of the object prototype.
   */
  lemma ObjectCachesAgreeIff(db: Database, nodes: seq<Node>)
    requires UniqueIds(db) && OrdinaryIds(db)
    ensures var refs := Visited(nodes);
      (forall i :: 0 <= i < |refs| ==> HoldsResolved(db, refs, i)) <==> ConsistentIds(db, refs) && OrdinaryKeys(refs)
  {
    var refs := Visited(nodes);
    if OrdinaryKeys(refs) {
      ObjectsAreMaps(db, NO_CACHES, refs);
      RunAgreesIff(db, refs);
      assert forall i :: 0 <= i < |refs| ==> (HoldsResolved(db, refs, i) <==> Agrees(db, refs, i));
    } else {
      var i :| 0 <= i < |refs| && Key(refs[i].1) in PROTOTYPE_KEYS;
      MemberIffKey(db, NO_CACHES, refs, i);
      assert !HoldsResolved(db, refs, i);
    }
  }

  /** A node that names its credential "constructor" gets the member of that name, whatever the database holds. */
  lemma ConstructorIsNotResolved(db: Database, credType: string)
    ensures ObjectRun(db, NO_CACHES, [(credType, Bare("constructor"))]).1 == [Member("constructor")]
  {
  }
}
