/**
 * Secondary indexes of src/superior-indexed.js: what a bucketed index file set stands for, and that a query planned on
 * an index finds the records a full scan finds, also after a crash in the middle of an event's bucket writes.
 */
module SecondaryIndex {
  import opened Basics
  import opened Json
  import opened CanonicalKeys
  import opened Documents
  import opened Transactions
  import opened StorageCore
  import opened CommitLog

  datatype Definition = Definition(name: string, fields: seq<string>, sparse: bool)

  /** One bucket: index keys with the ids filed under them. */
  type Bucket = map<string, set<string>>
  type Files = map<string, Bucket>

  function ValuesOf(fields: seq<string>, r: Record): (values: seq<Json>)
    ensures |values| == |fields|
    ensures forall i :: 0 <= i < |fields| ==> values[i] == FirstPathValue(r.AsJson(), fields[i])
  {
    if fields == [] then [] else [FirstPathValue(r.AsJson(), fields[0])] + ValuesOf(fields[1..], r)
  }

  /** The key a record is filed under; a sparse index leaves out a record that lacks an indexed value. */
  function KeyOf(d: Definition, r: Record): Option<string> {
    var values := ValuesOf(d.fields, r);
    if d.sparse && Undefined in values then None else Some(StableKey(values))
  }

  function BucketAt(files: Files, name: string): Bucket {
    if name in files then files[name] else map[]
  }

  function IdsIn(bucket: Bucket, key: string): set<string> {
    if key in bucket then bucket[key] else {}
  }

  /** `find` by key. */
  function Ids(files: Files, bucketOf: string -> string, key: string): set<string> {
    IdsIn(BucketAt(files, bucketOf(key)), key)
  }

  function Added(bucket: Bucket, key: string, id: string): Bucket {
    bucket[key := IdsIn(bucket, key) + {id}]
  }

  function Removed(bucket: Bucket, key: string, id: string): Bucket {
    var rest := IdsIn(bucket, key) - {id};
    if rest == {} then bucket - {key} else bucket[key := rest]
  }

  /** `addToBucket`. */
  function Add(files: Files, bucketOf: string -> string, key: Option<string>, id: string): Files {
    if key.None? then files
    else files[bucketOf(key.value) := Added(BucketAt(files, bucketOf(key.value)), key.value, id)]
  }

  /** `removeFromBucket`. */
  function Remove(files: Files, bucketOf: string -> string, key: Option<string>, id: string): Files {
    if key.None? then files
    else files[bucketOf(key.value) := Removed(BucketAt(files, bucketOf(key.value)), key.value, id)]
  }

  function Keyed(d: Definition, r: Option<Record>): Option<string> {
    if r.None? then None else KeyOf(d, r.value)
  }

  /** The bucket files after `apply` of one event. */
  function Apply(files: Files, bucketOf: string -> string, d: Definition, id: string, before: Option<Record>,
                 after: Option<Record>): Files {
    Add(Remove(files, bucketOf, Keyed(d, before), id), bucketOf, Keyed(d, after), id)
  }

  /** The events of collection c applied in order: the rest of the log is not the index's concern. */
  function ApplyEvents(files: Files, bucketOf: string -> string, d: Definition, c: string, es: seq<Event>): Files {
    if es == [] then files
    else
      var rest := ApplyEvents(files, bucketOf, d, c, es[..|es| - 1]);
      var e := es[|es| - 1];
      if e.key.collection == c then Apply(rest, bucketOf, d, e.key.id, e.before, e.record) else rest
  }

  /** The index holds exactly the ids of the collection's records, each under its record's key. */
  ghost predicate Right(files: Files, bucketOf: string -> string, d: Definition, c: string, s: Content) {
    forall key, id :: id in Ids(files, bucketOf, key) <==> Key(c, id) in s && KeyOf(d, s[Key(c, id)]) == Some(key)
  }

  /** Two file sets that answer every lookup alike. */
  ghost predicate Alike(f: Files, g: Files, bucketOf: string -> string) {
    forall key :: Ids(f, bucketOf, key) == Ids(g, bucketOf, key)
  }

  lemma AddAt(files: Files, bucketOf: string -> string, key: Option<string>, id: string, k: string)
    ensures Ids(Add(files, bucketOf, key, id), bucketOf, k) ==
      if key == Some(k) then Ids(files, bucketOf, k) + {id} else Ids(files, bucketOf, k)
  {
  }

  lemma RemoveAt(files: Files, bucketOf: string -> string, key: Option<string>, id: string, k: string)
    ensures Ids(Remove(files, bucketOf, key, id), bucketOf, k) ==
      if key == Some(k) then Ids(files, bucketOf, k) - {id} else Ids(files, bucketOf, k)
  {
  }

  lemma ApplyAt(files: Files, bucketOf: string -> string, d: Definition, id: string, before: Option<Record>,
                after: Option<Record>, k: string)
    ensures Ids(Apply(files, bucketOf, d, id, before, after), bucketOf, k) ==
      Ids(files, bucketOf, k) - (if Keyed(d, before) == Some(k) then {id} else {}) +
        (if Keyed(d, after) == Some(k) then {id} else {})
  {
    hide Add, Remove, Ids;
    RemoveAt(files, bucketOf, Keyed(d, before), id, k);
    AddAt(Remove(files, bucketOf, Keyed(d, before), id), bucketOf, Keyed(d, after), id, k);
  }

  /** An event whose before-image is true keeps the index right. */
  lemma ApplyRight(files: Files, bucketOf: string -> string, d: Definition, c: string, s: Content, e: Event)
    requires Right(files, bucketOf, d, c, s) && e.before == Lookup(s, e.key)
    ensures Right(if e.key.collection == c then Apply(files, bucketOf, d, e.key.id, e.before, e.record) else files,
                  bucketOf, d, c, StorageCore.Apply(s, e))
  {
    hide Ids, KeyOf;
    var after := StorageCore.Apply(s, e);
    if e.key.collection == c {
      var g := Apply(files, bucketOf, d, e.key.id, e.before, e.record);
      forall key, id
        ensures id in Ids(g, bucketOf, key) <==> Key(c, id) in after && KeyOf(d, after[Key(c, id)]) == Some(key)
      {
        ApplyAt(files, bucketOf, d, e.key.id, e.before, e.record, key);
        assert Key(c, e.key.id) == e.key;
        assert id in Ids(files, bucketOf, key) <==> Key(c, id) in s && KeyOf(d, s[Key(c, id)]) == Some(key);
      }
    }
  }

  lemma {:induction false} ApplyEventsRight(files: Files, bucketOf: string -> string, d: Definition, c: string,
                                            s: Content, es: seq<Event>)
    requires Right(files, bucketOf, d, c, s)
    requires TrueBefores(s, es)
    ensures Right(ApplyEvents(files, bucketOf, d, c, es), bucketOf, d, c, Fold(s, es))
  {
    hide Right, Apply, StorageCore.Apply;
    if es != [] {
      var init := es[..|es| - 1];
      TrueBeforesInit(s, es);
      ApplyEventsRight(files, bucketOf, d, c, s, init);
      ApplyRight(ApplyEvents(files, bucketOf, d, c, init), bucketOf, d, c, Fold(s, init), es[|es| - 1]);
    }
  }

  // ---------------------------------------------------------------- a crash among the bucket writes of one event

  /** Some buckets of f are as before the event, the others as after it. */
  ghost predicate Between(f: Files, before: Files, after: Files) {
    forall name :: BucketAt(f, name) == BucketAt(before, name) || BucketAt(f, name) == BucketAt(after, name)
  }

  lemma BetweenIds(f: Files, before: Files, after: Files, bucketOf: string -> string, k: string)
    requires Between(f, before, after)
    ensures Ids(f, bucketOf, k) == Ids(before, bucketOf, k) || Ids(f, bucketOf, k) == Ids(after, bucketOf, k)
  {
  }

  /** Applying the interrupted event again completes it. */
  lemma ReapplyCompletes(f: Files, before: Files, bucketOf: string -> string, d: Definition, e: Event)
    requires Between(f, before, Apply(before, bucketOf, d, e.key.id, e.before, e.record))
    ensures Alike(Apply(f, bucketOf, d, e.key.id, e.before, e.record),
      Apply(before, bucketOf, d, e.key.id, e.before, e.record), bucketOf)
  {
    hide Ids, Apply, Between;
    forall k ensures Ids(Apply(f, bucketOf, d, e.key.id, e.before, e.record), bucketOf, k)
      == Ids(Apply(before, bucketOf, d, e.key.id, e.before, e.record), bucketOf, k)
    {
      BetweenIds(f, before, Apply(before, bucketOf, d, e.key.id, e.before, e.record), bucketOf, k);
      ApplyAt(f, bucketOf, d, e.key.id, e.before, e.record, k);
      ApplyAt(before, bucketOf, d, e.key.id, e.before, e.record, k);
    }
  }

  lemma ApplyAlike(f: Files, g: Files, bucketOf: string -> string, d: Definition, e: Event)
    requires Alike(f, g, bucketOf)
    ensures Alike(Apply(f, bucketOf, d, e.key.id, e.before, e.record),
      Apply(g, bucketOf, d, e.key.id, e.before, e.record), bucketOf)
  {
    hide Ids, Apply;
    forall k ensures Ids(Apply(f, bucketOf, d, e.key.id, e.before, e.record), bucketOf, k)
      == Ids(Apply(g, bucketOf, d, e.key.id, e.before, e.record), bucketOf, k)
    {
      ApplyAt(f, bucketOf, d, e.key.id, e.before, e.record, k);
      ApplyAt(g, bucketOf, d, e.key.id, e.before, e.record, k);
      assert Ids(f, bucketOf, k) == Ids(g, bucketOf, k);
    }
  }

  /** The first event of the collection, the one whose bucket writes a crash may have interrupted. */
  ghost predicate First(es: seq<Event>, c: string, n: nat) {
    n < |es| && es[n].key.collection == c && forall i :: 0 <= i < n ==> es[i].key.collection != c
  }

  lemma {:induction false} NoneApplies(f: Files, bucketOf: string -> string, d: Definition, c: string, es: seq<Event>)
    requires forall i :: 0 <= i < |es| ==> es[i].key.collection != c
    ensures ApplyEvents(f, bucketOf, d, c, es) == f
  {
    if es != [] {
      NoneApplies(f, bucketOf, d, c, es[..|es| - 1]);
    }
  }

  lemma {:induction false} ApplyEventsAppend(f: Files, bucketOf: string -> string, d: Definition, c: string,
                                             a: seq<Event>, b: seq<Event>)
    ensures ApplyEvents(f, bucketOf, d, c, a + b) == ApplyEvents(ApplyEvents(f, bucketOf, d, c, a), bucketOf, d, c, b)
  {
    hide Apply;
    if b == [] {
      assert a + b == a;
    } else {
      assert (a + b)[..|a + b| - 1] == a + b[..|b| - 1];
      ApplyEventsAppend(f, bucketOf, d, c, a, b[..|b| - 1]);
    }
  }

  lemma {:induction false} EventsAlike(f: Files, g: Files, bucketOf: string -> string, d: Definition, c: string,
                                       es: seq<Event>)
    requires Alike(f, g, bucketOf)
    ensures Alike(ApplyEvents(f, bucketOf, d, c, es), ApplyEvents(g, bucketOf, d, c, es), bucketOf)
  {
    hide Apply, Alike;
    if es != [] {
      EventsAlike(f, g, bucketOf, d, c, es[..|es| - 1]);
      ApplyAlike(ApplyEvents(f, bucketOf, d, c, es[..|es| - 1]), ApplyEvents(g, bucketOf, d, c, es[..|es| - 1]),
        bucketOf, d, es[|es| - 1]);
    }
  }

  /** Catching up from a half-written event ends where catching up from before it would. */
  lemma CatchUpFromBetween(f: Files, before: Files, bucketOf: string -> string, d: Definition, c: string,
                           es: seq<Event>, n: nat)
    requires First(es, c, n) && Between(f, before, Apply(before, bucketOf, d, es[n].key.id, es[n].before, es[n].record))
    ensures Alike(ApplyEvents(f, bucketOf, d, c, es), ApplyEvents(before, bucketOf, d, c, es), bucketOf)
  {
    hide Apply, Alike, Between;
    var a, b := es[..n + 1], es[n + 1..];
    assert es == a + b;
    assert a[..n] == es[..n];
    NoneApplies(f, bucketOf, d, c, es[..n]);
    NoneApplies(before, bucketOf, d, c, es[..n]);
    ReapplyCompletes(f, before, bucketOf, d, es[n]);
    ApplyEventsAppend(f, bucketOf, d, c, a, b);
    ApplyEventsAppend(before, bucketOf, d, c, a, b);
    EventsAlike(ApplyEvents(f, bucketOf, d, c, a), ApplyEvents(before, bucketOf, d, c, a), bucketOf, d, c, b);
  }

  // ---------------------------------------------------------------- planning

  /** The first entry of the query for this path. */
  function ConditionOn(clauses: seq<Clause>, path: string): Option<Condition> {
    if clauses == [] then None
    else if clauses[0].Field? && clauses[0].path == path then Some(clauses[0].condition)
    else ConditionOn(clauses[1..], path)
  }

  /** `simpleEquality`. */
  predicate Nameable(x: Json) {
    !x.Undefined? && !x.Obj?
  }

  /** `simpleEquality(where[path])`. */
  predicate Simple(q: Query, path: string) {
    var c := ConditionOn(q.clauses, path);
    c.Some? && c.value.Equals? && Nameable(c.value.value)
  }

  predicate Candidate(d: Definition, q: Query) {
    forall i :: 0 <= i < |d.fields| ==> Simple(q, d.fields[i])
  }

  function Wanted(q: Query, path: string): Json
    requires Simple(q, path)
  {
    ConditionOn(q.clauses, path).value.value
  }

  predicate AtMost(defs: seq<Definition>, q: Query, n: nat) {
    forall i :: 0 <= i < |defs| && Candidate(defs[i], q) ==> |defs[i].fields| <= n
  }

  /** A candidate with more fields than each one before it, and no fewer than each one after it. */
  ghost predicate Earliest(defs: seq<Definition>, q: Query, n: nat) {
    && n < |defs| && Candidate(defs[n], q)
    && (forall i :: 0 <= i < n && Candidate(defs[i], q) ==> |defs[i].fields| < |defs[n].fields|)
    && AtMost(defs, q, |defs[n].fields|)
  }

  predicate Preferred(d: Definition, q: Query, other: Definition) {
    Candidate(d, q) && |d.fields| >= |other.fields|
  }

  lemma EarliestNext(defs: seq<Definition>, q: Query)
    requires defs != []
    ensures forall n: nat ::
      Earliest(defs[1..], q, n) && !Preferred(defs[0], q, defs[1..][n]) ==>
        Earliest(defs, q, n + 1) && defs[n + 1] == defs[1..][n]
    ensures Candidate(defs[0], q) && AtMost(defs[1..], q, |defs[0].fields|) ==> Earliest(defs, q, 0)
  {
    hide Candidate;
    var rest := defs[1..];
    assert forall i :: 0 < i < |defs| ==> defs[i] == rest[i - 1];
    assert forall i :: 0 <= i < |rest| ==> rest[i] == defs[i + 1];
  }

  /** `explainQuery`: a candidate with the most fields, the earliest of those. */
  function Plan(defs: seq<Definition>, q: Query): (r: Option<Definition>)
    ensures r.Some? ==> r.value in defs && Candidate(r.value, q)
    ensures forall i :: 0 <= i < |defs| && Candidate(defs[i], q) ==> r.Some? && |r.value.fields| >= |defs[i].fields|
    ensures r.Some? ==> AtMost(defs, q, |r.value.fields|)
    ensures r.Some? ==> exists n: nat :: Earliest(defs, q, n) && r.value == defs[n]
  {
    if defs == [] then None
    else
      EarliestNext(defs, q);
      var rest := Plan(defs[1..], q);
      if Candidate(defs[0], q) && (rest.None? || Preferred(defs[0], q, rest.value)) then Some(defs[0]) else rest
  }

  function PlannedValues(fields: seq<string>, q: Query): (r: seq<Json>)
    requires forall i :: 0 <= i < |fields| ==> Simple(q, fields[i])
    ensures |r| == |fields|
    ensures forall i :: 0 <= i < |fields| ==> r[i] == Wanted(q, fields[i]) && !r[i].Undefined?
  {
    if fields == [] then [] else [Wanted(q, fields[0])] + PlannedValues(fields[1..], q)
  }

  /** `find`. */
  function Find(files: Files, bucketOf: string -> string, d: Definition, values: seq<Json>): set<string> {
    if d.sparse && Undefined in values then {} else Ids(files, bucketOf, StableKey(values))
  }

  predicate Shows(s: Content, c: string, id: string, q: Query) {
    Key(c, id) in s && Matches(s[Key(c, id)].AsJson(), q) == Yes
  }

  /** The values an equality condition on the path can name so that the document meets it. */
  function Named(doc: Json, path: string): set<Json> {
    (set x | x in GetPath(doc, path) && Nameable(x))
    + (set v, x | v in GetPath(doc, path) && v.Arr? && x in v.items && !x.Arr? && Nameable(x) :: x)
  }

  /**
   * One indexed path can be met by no condition at all, or every indexed path only by one that names its first value.
   */
  ghost predicate FirstsDecide(doc: Json, fields: seq<string>) {
    || (exists i :: 0 <= i < |fields| && Named(doc, fields[i]) == {})
    || (forall i :: 0 <= i < |fields| ==> Named(doc, fields[i]) <= {FirstPathValue(doc, fields[i])})
  }

  ghost predicate Decided(s: Content, c: string, d: Definition) {
    forall k :: k in s && k.collection == c ==> FirstsDecide(s[k].AsJson(), d.fields)
  }

  lemma NamedIff(doc: Json, path: string, x: Json)
    requires path != "" && Nameable(x)
    ensures Holds(doc, Field(path, Equals(x))) == Yes <==> x in Named(doc, path)
  {
    hide Split, Resolve;
    var values := GetPath(doc, path);
    assert Holds(doc, Field(path, Equals(x))) == Yes <==> exists i :: 0 <= i < |values| && Equal(values[i], x);
    if x in Named(doc, path) {
      var v :| v in values && Equal(v, x);
      var i :| 0 <= i < |values| && values[i] == v;
    }
  }

  /** Without arrays on the indexed paths the first values decide. */
  lemma NoArraysDecide(doc: Json, fields: seq<string>)
    requires forall i :: 0 <= i < |fields| ==> NoArrays(doc, Split(fields[i]))
    ensures FirstsDecide(doc, fields)
  {
    hide Split, NoArrays, Resolve;
    forall i, x | 0 <= i < |fields| && x in Named(doc, fields[i]) ensures x == FirstPathValue(doc, fields[i]) {
      OneValue(doc, Split(fields[i]));
    }
  }

  lemma {:induction false} ConditionHolds(doc: Json, clauses: seq<Clause>, path: string)
    requires Every(doc, clauses) == Yes && ConditionOn(clauses, path).Some?
    ensures Holds(doc, Field(path, ConditionOn(clauses, path).value)) == Yes
  {
    hide Holds;
    if !(clauses[0].Field? && clauses[0].path == path) {
      ConditionHolds(doc, clauses[1..], path);
    }
  }

  /** A record that matches the query is filed under the key the plan looks up. */
  lemma MatchIsFiled(r: Record, d: Definition, q: Query)
    requires Candidate(d, q) && Matches(r.AsJson(), q) == Yes && FirstsDecide(r.AsJson(), d.fields)
    requires "" !in d.fields
    ensures ValuesOf(d.fields, r) == PlannedValues(d.fields, q)
  {
    hide Named, FirstPathValue, Holds, ConditionOn, ValuesOf, PlannedValues;
    forall i | 0 <= i < |d.fields| ensures Wanted(q, d.fields[i]) in Named(r.AsJson(), d.fields[i]) {
      assert Simple(q, d.fields[i]);
      ConditionHolds(r.AsJson(), q.clauses, d.fields[i]);
      NamedIff(r.AsJson(), d.fields[i], Wanted(q, d.fields[i]));
    }
    assert forall i :: 0 <= i < |d.fields| ==> ValuesOf(d.fields, r)[i] == PlannedValues(d.fields, q)[i];
  }

  /** The lookup is exact: two different lists of values never share a key. */
  lemma FindExact(files: Files, bucketOf: string -> string, d: Definition, c: string, s: Content, values: seq<Json>,
                  id: string)
    requires Right(files, bucketOf, d, c, s)
    ensures id in Find(files, bucketOf, d, values) <==>
      Key(c, id) in s && ValuesOf(d.fields, s[Key(c, id)]) == values && !(d.sparse && Undefined in values)
  {
    hide Ids, StableKey, ValuesOf;
    assert id in Ids(files, bucketOf, StableKey(values)) <==>
      Key(c, id) in s && KeyOf(d, s[Key(c, id)]) == Some(StableKey(values));
    if Key(c, id) in s {
      StableKeyInjective(ValuesOf(d.fields, s[Key(c, id)]), values);
    }
  }

  /** A query planned on a right index shows exactly the records a scan shows. */
  lemma IndexEqualsScan(files: Files, bucketOf: string -> string, d: Definition, c: string, s: Content, q: Query)
    requires Right(files, bucketOf, d, c, s) && Candidate(d, q) && Decided(s, c, d) && "" !in d.fields
    ensures forall id :: id in Find(files, bucketOf, d, PlannedValues(d.fields, q)) && Shows(s, c, id, q) <==>
      Shows(s, c, id, q)
    ensures forall id :: id in Find(files, bucketOf, d, PlannedValues(d.fields, q)) ==> Key(c, id) in s
  {
    hide FirstsDecide, Matches, ConditionOn, ValuesOf, PlannedValues, Find, Right;
    var values := PlannedValues(d.fields, q);
    forall id ensures Shows(s, c, id, q) ==> id in Find(files, bucketOf, d, values)
              ensures id in Find(files, bucketOf, d, values) ==> Key(c, id) in s {
      FindExact(files, bucketOf, d, c, s, values, id);
      if Shows(s, c, id, q) {
        MatchIsFiled(s[Key(c, id)], d, q);
      }
    }
  }

  // ---------------------------------------------------------------- exactly when planning on the index is safe

  /** A query planned on the index misses no record it should show. */
  predicate Complete(files: Files, bucketOf: string -> string, d: Definition, c: string, s: Content, q: Query) {
    Candidate(d, q) ==> forall k ::
      k in s && k.collection == c && Shows(s, c, k.id, q) ==>
        k.id in Find(files, bucketOf, d, PlannedValues(d.fields, q))
  }

  function EqualTo(fields: seq<string>, values: seq<Json>): (clauses: seq<Clause>)
    requires |fields| == |values|
    ensures |clauses| == |fields| && forall i :: 0 <= i < |fields| ==> clauses[i] == Field(fields[i], Equals(values[i]))
  {
    seq(|fields|, i requires 0 <= i < |fields| => Field(fields[i], Equals(values[i])))
  }

  lemma {:induction false} ConditionAt(clauses: seq<Clause>, i: nat)
    requires i < |clauses| && clauses[i].Field?
    requires forall j :: 0 <= j < i ==> clauses[j].Field? && clauses[j].path != clauses[i].path
    ensures ConditionOn(clauses, clauses[i].path) == Some(clauses[i].condition)
  {
    if i > 0 {
      ConditionAt(clauses[1..], i - 1);
    }
  }

  /** A choice of one value per field, the j-th of them given. */
  ghost function Choice(doc: Json, fields: seq<string>, j: nat, x: Json): (values: seq<Json>)
    requires j < |fields| && x in Named(doc, fields[j]) && forall i :: 0 <= i < |fields| ==> Named(doc, fields[i]) != {}
    ensures |values| == |fields| && values[j] == x
    ensures forall i :: 0 <= i < |fields| ==> values[i] in Named(doc, fields[i])
  {
    seq(|fields|, i requires 0 <= i < |fields| => if i == j then x else (var y :| y in Named(doc, fields[i]); y))
  }

  /** The query that names one value for every field plans exactly those values. */
  lemma PlansValues(d: Definition, values: seq<Json>)
    requires |values| == |d.fields| && forall i :: 0 <= i < |values| ==> Nameable(values[i])
    requires forall i, j :: 0 <= i < j < |d.fields| ==> d.fields[i] != d.fields[j]
    ensures Candidate(d, Query(EqualTo(d.fields, values)))
    ensures PlannedValues(d.fields, Query(EqualTo(d.fields, values))) == values
  {
    hide ConditionOn, EqualTo;
    var q := Query(EqualTo(d.fields, values));
    forall i | 0 <= i < |d.fields| ensures Simple(q, d.fields[i]) && Wanted(q, d.fields[i]) == values[i] {
      ConditionAt(q.clauses, i);
    }
  }

  lemma MeetsNamed(doc: Json, fields: seq<string>, values: seq<Json>)
    requires |values| == |fields| && "" !in fields
    requires forall i :: 0 <= i < |fields| ==> values[i] in Named(doc, fields[i])
    ensures Matches(doc, Query(EqualTo(fields, values))) == Yes
  {
    hide Named, Holds, EqualTo;
    var clauses := EqualTo(fields, values);
    forall i | 0 <= i < |fields| ensures Holds(doc, clauses[i]) == Yes {
      NamedNameable(doc, fields[i], values[i]);
      NamedIff(doc, fields[i], values[i]);
    }
    EveryIff(doc, clauses);
  }

  /** A record that is met by a value other than its first one is missed by the query naming that value. */
  lemma MissedByPlan(files: Files, bucketOf: string -> string, d: Definition, c: string, s: Content, k: Key)
    returns (q: Query)
    requires Right(files, bucketOf, d, c, s) && "" !in d.fields
    requires forall i, j :: 0 <= i < j < |d.fields| ==> d.fields[i] != d.fields[j]
    requires k in s && k.collection == c && !FirstsDecide(s[k].AsJson(), d.fields)
    ensures !Complete(files, bucketOf, d, c, s, q)
  {
    hide Named, FirstPathValue, Right, Find, Matches, Candidate, PlannedValues, EqualTo, Choice;
    var doc := s[k].AsJson();
    var j :| 0 <= j < |d.fields| && !(Named(doc, d.fields[j]) <= {FirstPathValue(doc, d.fields[j])});
    var x :| x in Named(doc, d.fields[j]) && x != FirstPathValue(doc, d.fields[j]);
    var values := Choice(doc, d.fields, j, x);
    forall i | 0 <= i < |values| ensures Nameable(values[i]) {
      NamedNameable(doc, d.fields[i], values[i]);
    }
    q := Query(EqualTo(d.fields, values));
    PlansValues(d, values);
    MeetsNamed(doc, d.fields, values);
    NotFound(files, bucketOf, d, c, s, k, values, j);
  }

  lemma NotFound(files: Files, bucketOf: string -> string, d: Definition, c: string, s: Content, k: Key,
                 values: seq<Json>, j: nat)
    requires Right(files, bucketOf, d, c, s) && k in s && k.collection == c
    requires j < |d.fields| == |values| && values[j] != FirstPathValue(s[k].AsJson(), d.fields[j])
    ensures Key(c, k.id) == k && k.id !in Find(files, bucketOf, d, values)
  {
    hide FirstPathValue, Right, Find;
    FindExact(files, bucketOf, d, c, s, values, k.id);
    assert ValuesOf(d.fields, s[k])[j] != values[j];
  }

  lemma NamedNameable(doc: Json, path: string, x: Json)
    requires x in Named(doc, path)
    ensures Nameable(x)
  {
  }

  /** Planning on a right index is safe for every query exactly when first values decide in every record. */
  lemma PlanCompleteIff(files: Files, bucketOf: string -> string, d: Definition, c: string, s: Content)
    requires Right(files, bucketOf, d, c, s) && "" !in d.fields
    requires forall i, j :: 0 <= i < j < |d.fields| ==> d.fields[i] != d.fields[j]
    ensures (forall q :: Complete(files, bucketOf, d, c, s, q)) <==> Decided(s, c, d)
  {
    hide FirstsDecide, Right, Find, Matches, PlannedValues;
    if Decided(s, c, d) {
      forall q ensures Complete(files, bucketOf, d, c, s, q) {
        if Candidate(d, q) {
          IndexEqualsScan(files, bucketOf, d, c, s, q);
        }
      }
    } else {
      var k :| k in s && k.collection == c && !FirstsDecide(s[k].AsJson(), d.fields);
      var q := MissedByPlan(files, bucketOf, d, c, s, k);
    }
  }
}
