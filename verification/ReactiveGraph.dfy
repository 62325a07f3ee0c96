/**
 * `ReactiveQueryGraph` of src/reactive.js as an object: its maps, and what one commit does to every registered query.
 */
module ReactiveGraph {
  import opened Basics
  import opened Json
  import opened Documents
  import opened QueryMeaning
  import opened Reactive

  /** A registered query; `incremental` is `isIncrementalSafe`: no order, limit, offset or projection. */
  datatype Entry = Entry(collection: string, where: Query, deps: seq<string>, incremental: bool, rows: Rows)

  /** One mutation of `applyIncremental`; None when the query is refused on the record. */
  function Fold1(rows: Rows, where: Query, m: Mutation): Option<Rows> {
    var rest := rows - {m.key.id};
    if m.record.None? then Some(rest)
    else
      match Matches(m.record.value.AsJson(), where)
      case Refused => None
      case Yes => Some(rest[m.record.value.id := m.record.value])
      case No => Some(rest)
  }

  function ApplyIncremental(rows: Rows, where: Query, ms: seq<Mutation>): Option<Rows> {
    if ms == [] then Some(rows)
    else
      var init := ApplyIncremental(rows, where, ms[..|ms| - 1]);
      if init.None? then None else Fold1(init.value, where, ms[|ms| - 1])
  }

  function Own(ms: seq<Mutation>, c: string): seq<Mutation> {
    Filter(ms, (m: Mutation) => m.key.collection == c)
  }

  predicate Affected(deps: seq<string>, ms: seq<Mutation>) {
    exists i :: 0 <= i < |ms| && MayAffect(deps, ms[i].fields)
  }

  /** The query's rows after a commit: a refused query or too many rows leave them as they were. */
  function NextRows(e: Entry, own: seq<Mutation>, max: nat, recomputed: Rows): Rows {
    if !Affected(e.deps, own) then e.rows
    else
      var next := if e.incremental then ApplyIncremental(e.rows, e.where, own) else Some(recomputed);
      if next.None? || |next.value| > max then e.rows else next.value
  }

  function After(e: Entry, ms: seq<Mutation>, max: nat, recomputed: Rows): Entry {
    e.(rows := NextRows(e, Own(ms, e.collection), max, recomputed))
  }

  /** The task of one query throws: its query is refused on a record, or too many rows match. */
  predicate Fails(e: Entry, ms: seq<Mutation>, max: nat, recomputed: Rows) {
    var own := Own(ms, e.collection);
    var next := if e.incremental then ApplyIncremental(e.rows, e.where, own) else Some(recomputed);
    Affected(e.deps, own) && (next.None? || |next.value| > max)
  }

  /** The queries whose rows this commit changed, with their new rows. */
  function Told(queries: map<string, Entry>, ids: set<string>, ms: seq<Mutation>, max: nat,
                recomputed: map<string, Rows>):
    map<string, Rows>
    requires queries.Keys <= recomputed.Keys
  {
    map id | id in ids && id in queries && After(queries[id], ms, max, recomputed[id]).rows != queries[id].rows ::
      After(queries[id], ms, max, recomputed[id]).rows
  }

  predicate SomeFails(queries: map<string, Entry>, ids: set<string>, ms: seq<Mutation>, max: nat,
                      recomputed: map<string, Rows>)
    requires queries.Keys <= recomputed.Keys
  {
    exists id :: id in ids && id in queries && Fails(queries[id], ms, max, recomputed[id])
  }

  /** These queries have been updated by the commit, the others have not. */
  ghost predicate Updated(before: map<string, Entry>, queries: map<string, Entry>, ids: set<string>, ms: seq<Mutation>,
                          max: nat, recomputed: map<string, Rows>) {
    && queries.Keys == before.Keys && before.Keys <= recomputed.Keys
    && forall id :: id in queries ==>
         queries[id] == if id in ids then After(before[id], ms, max, recomputed[id]) else before[id]
  }

  /** A registered query that is kept up to date by applying commits to its rows. */
  ghost predicate Watching(e: Entry) {
    e.incremental && Compiled(e.deps, e.where) && Covered(e.where)
  }

  function Registered(collection: string, where: Query, nested: seq<string>, shaped: bool, initial: Rows): Entry {
    Entry(collection, where, CompileDependencies(where) + nested, !shaped, initial)
  }

  /** Every id listed under a collection is a query of that collection. */
  ghost predicate Known(queries: map<string, Entry>, byCollection: map<string, set<string>>) {
    forall c, id :: c in byCollection && id in byCollection[c] ==> id in queries && queries[id].collection == c
  }

  /** Every query is listed under its collection. */
  ghost predicate Indexed(queries: map<string, Entry>, byCollection: map<string, set<string>>) {
    forall id :: id in queries ==> queries[id].collection in byCollection && id in byCollection[queries[id].collection]
  }

  /**
   * Registering keeps every query listed under its collection. Nothing else is listed there exactly when the id is new
   * or stays in its collection: the listing under a former collection is not taken back.
   */
  lemma RegisterKeeps(queries: map<string, Entry>, byCollection: map<string, set<string>>, id: string, e: Entry,
                      ids: set<string>)
    requires Known(queries, byCollection) && Indexed(queries, byCollection)
    requires ids == if e.collection in byCollection then byCollection[e.collection] else {}
    ensures Indexed(queries[id := e], byCollection[e.collection := ids + {id}])
    ensures Known(queries[id := e], byCollection[e.collection := ids + {id}]) <==>
      id !in queries || queries[id].collection == e.collection
  {
    var queries', by' := queries[id := e], byCollection[e.collection := ids + {id}];
    if id in queries && queries[id].collection != e.collection {
      assert id in by'[queries[id].collection] && queries'[id].collection != queries[id].collection;
    }
  }

  // ---------------------------------------------------------------- what one commit does to one query

  /** The mutation stores record x, and x satisfies the query. */
  ghost predicate PutsRow(where: Query, m: Mutation, x: string) {
    m.record.Some? && m.record.value.id == x && Satisfies(m.record.value.AsJson(), where)
  }

  /** The mutation concerns row x: it stores it, or is about record x and does not. */
  ghost predicate About(where: Query, c: string, m: Mutation, x: string) {
    m.key.collection == c && (PutsRow(where, m, x) || m.key.id == x)
  }

  /** The last of the mutations that concern row x. */
  ghost predicate LastAbout(where: Query, c: string, ms: seq<Mutation>, x: string, i: nat) {
    i < |ms| && About(where, c, ms[i], x) && forall j :: i < j < |ms| ==> !About(where, c, ms[j], x)
  }

  /** The rows follow the mutations: what the last one about a row says of it, and no other row changes. */
  ghost predicate Followed(rows: Rows, where: Query, c: string, ms: seq<Mutation>, rows': Rows) {
    && (forall x, i: nat :: LastAbout(where, c, ms, x, i) ==>
          Lookup(rows', x) == if PutsRow(where, ms[i], x) then ms[i].record else None)
    && (forall x :: (forall i :: 0 <= i < |ms| ==> !About(where, c, ms[i], x)) ==> Lookup(rows', x) == Lookup(rows, x))
  }

  /** Some mutation of the query's collection may change what the query depends on. */
  ghost predicate Concerned(e: Entry, ms: seq<Mutation>) {
    exists i :: 0 <= i < |ms| && ms[i].key.collection == e.collection && MayAffect(e.deps, ms[i].fields)
  }

  /** The query is refused on a record that the commit stores in its collection. */
  ghost predicate RefusedOn(e: Entry, ms: seq<Mutation>) {
    exists i :: 0 <= i < |ms| && RefusedBy(e, ms[i])
  }

  predicate RefusedBy(e: Entry, m: Mutation) {
    m.key.collection == e.collection && m.record.Some? && Matches(m.record.value.AsJson(), e.where) == Refused
  }

  /** What a commit makes of a registered query, `again` being what its own evaluation returns. */
  ghost predicate Refreshed(e: Entry, e': Entry, ms: seq<Mutation>, max: nat, again: Rows) {
    && e' == e.(rows := e'.rows)
    && (!Concerned(e, ms) ==> e'.rows == e.rows)
    && (Concerned(e, ms) && !e.incremental ==> e'.rows == if |again| <= max then again else e.rows)
    && (Concerned(e, ms) && e.incremental && RefusedOn(e, ms) ==> e'.rows == e.rows)
    && (Concerned(e, ms) && e.incremental && !RefusedOn(e, ms) ==>
          exists next :: Followed(e.rows, e.where, e.collection, ms, next) &&
                         e'.rows == if |next| <= max then next else e.rows)
  }

  /** Its task throws: the query is refused on a record, or too many rows match. */
  ghost predicate Broken(e: Entry, ms: seq<Mutation>, max: nat, again: Rows) {
    && Concerned(e, ms)
    && if !e.incremental then |again| > max
       else RefusedOn(e, ms) || exists next :: Followed(e.rows, e.where, e.collection, ms, next) && |next| > max
  }

  /** The queries whose rows changed, and nothing else, with the rows they have now. */
  ghost predicate TellsChanged(before: map<string, Entry>, after: map<string, Entry>, told: map<string, Rows>)
    requires after.Keys == before.Keys
  {
    forall id ::
      Lookup(told, id) == if id in before && after[id].rows != before[id].rows then Some(after[id].rows) else None
  }

  lemma OwnNext(ms: seq<Mutation>, c: string)
    requires ms != []
    ensures var init, m := ms[..|ms| - 1], ms[|ms| - 1];
      Own(ms, c) == if m.key.collection == c then Own(init, c) + [m] else Own(init, c)
  {
    var init, m := ms[..|ms| - 1], ms[|ms| - 1];
    assert ms == init + [m];
    FilterAppend(init, [m], (m: Mutation) => m.key.collection == c);
    assert [m][1..] == [];
    assert Own(init, c) + [] == Own(init, c);
  }

  lemma {:induction false} OwnConcerned(deps: seq<string>, ms: seq<Mutation>, c: string)
    ensures Affected(deps, Own(ms, c)) <==>
      exists i :: 0 <= i < |ms| && ms[i].key.collection == c && MayAffect(deps, ms[i].fields)
  {
    hide MayAffect, Own;
    if ms == [] {
      assert Own(ms, c) == [] by { OwnNone(c); }
    } else {
      var init, m := ms[..|ms| - 1], ms[|ms| - 1];
      OwnNext(ms, c);
      OwnConcerned(deps, init, c);
      var own := Own(ms, c);
      assert m.key.collection == c ==> own == Own(init, c) + [m] && own[|own| - 1] == m;
      assert forall i :: 0 <= i < |init| ==> ms[i] == init[i];
      assert forall i :: 0 <= i < |Own(init, c)| ==> own[i] == Own(init, c)[i];
    }
  }

  lemma OwnNone(c: string)
    ensures Own([], c) == []
  {
  }

  ghost function RowBy(rows: Rows, where: Query, c: string, m: Mutation, x: string): Option<Record> {
    if !About(where, c, m, x) then Lookup(rows, x) else if PutsRow(where, m, x) then m.record else None
  }

  /** Adding one mutation moves the last word on the rows that it concerns, and on no other. */
  lemma FollowsNext(rows: Rows, where: Query, c: string, init: seq<Mutation>, m: Mutation, mid: Rows, rows': Rows)
    requires Followed(rows, where, c, init, mid)
    requires forall x :: Lookup(rows', x) == RowBy(mid, where, c, m, x)
    ensures Followed(rows, where, c, init + [m], rows')
  {
    hide About, PutsRow;
    var ms := init + [m];
    forall x, i: nat | LastAbout(where, c, ms, x, i)
      ensures Lookup(rows', x) == if PutsRow(where, ms[i], x) then ms[i].record else None
    {
      if i < |init| {
        assert ms[i] == init[i] && forall j :: i < j < |init| ==> ms[j] == init[j];
        assert ms[|init|] == m;
        assert LastAbout(where, c, init, x, i);
      }
    }
    forall x | forall i :: 0 <= i < |ms| ==> !About(where, c, ms[i], x) ensures Lookup(rows', x) == Lookup(rows, x) {
      assert ms[|init|] == m;
      assert forall i :: 0 <= i < |init| ==> ms[i] == init[i];
    }
  }

  /** One mutation of the collection that is not refused. */
  lemma FoldMeans(rows: Rows, where: Query, c: string, m: Mutation)
    requires m.key.collection == c
    ensures Fold1(rows, where, m).None? <==>
      m.record.Some? && Matches(m.record.value.AsJson(), where) == Refused
    ensures Fold1(rows, where, m).Some? ==>
      forall x :: Lookup(Fold1(rows, where, m).value, x) == RowBy(rows, where, c, m, x)
  {
    hide Matches, Satisfies;
    if m.record.Some? {
      MatchesIff(m.record.value.AsJson(), where);
    }
  }

  lemma {:induction false} IncrementalMeans(rows: Rows, where: Query, c: string, ms: seq<Mutation>, e: Entry)
    requires e.where == where && e.collection == c
    ensures ApplyIncremental(rows, where, Own(ms, c)).None? <==> RefusedOn(e, ms)
    ensures !RefusedOn(e, ms) ==> Followed(rows, where, c, ms, ApplyIncremental(rows, where, Own(ms, c)).value)
  {
    hide Own, Fold1, Matches, Followed, About, PutsRow;
    if ms == [] {
      OwnNone(c);
      FollowedNone(rows, where, c);
    } else {
      var init, m := ms[..|ms| - 1], ms[|ms| - 1];
      assert ms == init + [m];
      IncrementalMeans(rows, where, c, init, e);
      OwnNext(ms, c);
      assert RefusedOn(e, ms) <==> RefusedOn(e, init) || RefusedBy(e, m) by {
        assert forall i :: 0 <= i < |init| ==> ms[i] == init[i];
      }
      var mid := ApplyIncremental(rows, where, Own(init, c));
      if m.key.collection == c {
        assert (Own(init, c) + [m])[..|Own(ms, c)| - 1] == Own(init, c);
        if mid.Some? {
          FoldMeans(mid.value, where, c, m);
        }
      }
      if !RefusedOn(e, ms) {
        if m.key.collection != c {
          NotAbout(where, c, m);
        }
        FollowsNext(rows, where, c, init, m, mid.value, ApplyIncremental(rows, where, Own(ms, c)).value);
      }
    }
  }

  lemma NotAbout(where: Query, c: string, m: Mutation)
    requires m.key.collection != c
    ensures forall x :: !About(where, c, m, x)
  {
  }

  lemma FollowedNone(rows: Rows, where: Query, c: string)
    ensures Followed(rows, where, c, [], rows)
  {
  }

  /** The mutations determine the rows. */
  lemma FollowedOnce(rows: Rows, where: Query, c: string, ms: seq<Mutation>, a: Rows, b: Rows)
    requires Followed(rows, where, c, ms, a) && Followed(rows, where, c, ms, b)
    ensures a == b
  {
    hide About, PutsRow;
    forall x ensures Lookup(a, x) == Lookup(b, x) {
      if i: nat :| i < |ms| && About(where, c, ms[i], x) {
        var last := LastOne(where, c, ms, x, i);
      }
    }
    SameRows(a, b);
  }

  lemma LastOne(where: Query, c: string, ms: seq<Mutation>, x: string, i: nat) returns (last: nat)
    requires i < |ms| && About(where, c, ms[i], x)
    ensures LastAbout(where, c, ms, x, last)
    decreases |ms| - i
  {
    hide About;
    if j :| i < j < |ms| && About(where, c, ms[j], x) {
      last := LastOne(where, c, ms, x, j);
    } else {
      last := i;
    }
  }

  /** What the updated entry and a failing task are, without naming how they are computed. */
  lemma AfterMeans(e: Entry, ms: seq<Mutation>, max: nat, again: Rows)
    ensures Refreshed(e, After(e, ms, max, again), ms, max, again)
    ensures Fails(e, ms, max, again) <==> Broken(e, ms, max, again)
  {
    hide Own, ApplyIncremental, Followed, RefusedOn, MayAffect, Affected;
    OwnConcerned(e.deps, ms, e.collection);
    IncrementalMeans(e.rows, e.where, e.collection, ms, e);
    var next := ApplyIncremental(e.rows, e.where, Own(ms, e.collection));
    if next.Some? {
      forall other | Followed(e.rows, e.where, e.collection, ms, other) ensures other == next.value {
        FollowedOnce(e.rows, e.where, e.collection, ms, other, next.value);
      }
    }
  }

  lemma CommitMeans(before: map<string, Entry>, after: map<string, Entry>, ms: seq<Mutation>, max: nat,
                    recomputed: map<string, Rows>)
    requires after.Keys == before.Keys <= recomputed.Keys
    requires forall id :: id in after ==> after[id] == After(before[id], ms, max, recomputed[id])
    ensures forall id :: id in after ==> Refreshed(before[id], after[id], ms, max, recomputed[id])
    ensures SomeFails(before, before.Keys, ms, max, recomputed) <==>
      exists id :: id in before && Broken(before[id], ms, max, recomputed[id])
    ensures TellsChanged(before, after, Told(before, before.Keys, ms, max, recomputed))
  {
    hide After, Fails, Refreshed, Broken;
    forall id | id in before
      ensures Refreshed(before[id], after[id], ms, max, recomputed[id])
      ensures Fails(before[id], ms, max, recomputed[id]) <==> Broken(before[id], ms, max, recomputed[id])
    {
      AfterMeans(before[id], ms, max, recomputed[id]);
    }
  }

  class ReactiveQueryGraph {
    const maxDependencies: nat
    const maxRows: nat
    var queries: map<string, Entry>
    var byCollection: map<string, set<string>>

    ghost predicate Valid()
      reads this
    {
      Known(queries, byCollection)
    }

    ghost predicate Listed()
      reads this
    {
      Indexed(queries, byCollection)
    }

    constructor (maxDependencies: nat, maxRows: nat)
      ensures Valid() && Listed() && queries == map[] && this.maxRows == maxRows &&
        this.maxDependencies == maxDependencies
    {
      this.maxDependencies, this.maxRows := maxDependencies, maxRows;
      queries, byCollection := map[], map[];
    }

    /**
     * `register`; false when it throws. `nested` are the paths found inside conditions. An id may be registered again,
     * but under another collection it stays listed under the former one, too.
     */
    method Register(id: string, collection: string, where: Query, nested: seq<string>, shaped: bool, initial: Rows)
      returns (ok: bool)
      requires Valid() && Listed() && Nested(where, nested)
      modifies this
      ensures Listed()
      ensures Valid() <==> !ok || id !in old(queries) || old(queries)[id].collection == collection
      ensures ok <==> |CompileDependencies(where) + nested| <= maxDependencies && |initial| <= maxRows
      ensures ok ==>
        queries == old(queries)[id := Entry(collection, where, CompileDependencies(where) + nested, !shaped, initial)]
      ensures ok && !shaped && Covered(where) ==> Watching(queries[id])
      ensures !ok ==> queries == old(queries)
    {
      hide CompileDependencies, Nested, Known, Indexed, Covered, Compiled;
      var e := Registered(collection, where, nested, shaped, initial);
      if |e.deps| > maxDependencies || |initial| > maxRows {
        return false;
      }
      var ids := if collection in byCollection then byCollection[collection] else {};
      RegisterKeeps(queries, byCollection, id, e, ids);
      CompiledWith(where, nested);
      queries := queries[id := e];
      byCollection := byCollection[collection := ids + {id}];
      ok := true;
    }

    /** `remove`. */
    method Remove(id: string) returns (ok: bool)
      requires Valid() && Listed()
      modifies this
      ensures Valid() && Listed()
      ensures ok <==> id in old(queries)
      ensures queries == old(queries) - {id}
    {
      if id !in queries {
        return false;
      }
      var c := queries[id].collection;
      queries := queries - {id};
      if c in byCollection {
        byCollection := byCollection[c := byCollection[c] - {id}];
      }
      ok := true;
    }

    /**
     * `applyCommit`; `recomputed` is what each query's own evaluation would return now. Every query of a changed
     * collection is updated. The result tells the queries whose rows this call changed; when the task of one query
     * throws, the others are updated all the same and nothing is told.
     */
    method ApplyCommit(ms: seq<Mutation>, recomputed: map<string, Rows>) returns (results: Option<map<string, Rows>>)
      requires Valid() && Listed() && queries.Keys <= recomputed.Keys
      modifies this`queries
      ensures Valid() && Listed() && queries.Keys == old(queries.Keys)
      ensures forall id :: id in queries ==>
        Refreshed(old(queries)[id], queries[id], ms, maxRows, recomputed[id])
      ensures results.None? <==>
        exists id :: id in old(queries) && Broken(old(queries)[id], ms, maxRows, recomputed[id])
      ensures results.Some? ==> TellsChanged(old(queries), queries, results.value)
      ensures forall id :: id in queries ==> queries[id] == After(old(queries)[id], ms, maxRows, recomputed[id])
      ensures results ==
        if SomeFails(old(queries), old(queries).Keys, ms, maxRows, recomputed) then None
        else Some(Told(old(queries), old(queries).Keys, ms, maxRows, recomputed))
    {
      hide After, Fails, Known, Indexed, Told, SomeFails, Updated, Refreshed, Broken, TellsChanged;
      ghost var before, done := queries, {};
      var changed := set i | 0 <= i < |ms| :: ms[i].key.collection;
      var todo, told, failed := changed, map[], false;
      NothingYet(before, ms, maxRows, recomputed);
      while todo != {}
        invariant todo <= changed && Valid() && Listed()
        invariant done == set id | id in before && before[id].collection in changed - todo
        invariant Updated(before, queries, done, ms, maxRows, recomputed)
        invariant told == Told(before, done, ms, maxRows, recomputed)
        invariant failed == SomeFails(before, done, ms, maxRows, recomputed)
        decreases todo
      {
        var c :| c in todo;
        ListedUnder(before, queries, byCollection, done, ms, maxRows, recomputed, c);
        if c in byCollection {
          told, failed := Refresh(c, byCollection[c], ms, recomputed, told, failed, before, done);
          done := done + byCollection[c];
        }
        todo := todo - {c};
      }
      AllUpdated(before, queries, done, ms, maxRows, recomputed);
      CommitMeans(before, queries, ms, maxRows, recomputed);
      results := if failed then None else Some(told);
    }

    /** The queries of one changed collection. */
    method Refresh(c: string, ids: set<string>, ms: seq<Mutation>, recomputed: map<string, Rows>,
                   soFar: map<string, Rows>, failedSoFar: bool, ghost before: map<string, Entry>,
                   ghost done: set<string>)
      returns (told: map<string, Rows>, failed: bool)
      requires Valid() && Listed() && c in byCollection && ids == byCollection[c] && ids !! done
      requires before.Keys <= recomputed.Keys
      requires Updated(before, queries, done, ms, maxRows, recomputed)
      requires soFar == Told(before, done, ms, maxRows, recomputed)
      requires failedSoFar == SomeFails(before, done, ms, maxRows, recomputed)
      modifies this`queries
      ensures Valid() && Listed()
      ensures Updated(before, queries, done + ids, ms, maxRows, recomputed)
      ensures told == Told(before, done + ids, ms, maxRows, recomputed)
      ensures failed == SomeFails(before, done + ids, ms, maxRows, recomputed)
    {
      hide NextRows, Own, Fails, Told, SomeFails, Indexed, Known, Updated;
      var todo := ids;
      told, failed := soFar, failedSoFar;
      assert done + (ids - todo) == done;
      while todo != {}
        invariant todo <= ids && Valid() && Listed()
        invariant Updated(before, queries, done + (ids - todo), ms, maxRows, recomputed)
        invariant told == Told(before, done + (ids - todo), ms, maxRows, recomputed)
        invariant failed == SomeFails(before, done + (ids - todo), ms, maxRows, recomputed)
        decreases todo
      {
        var id :| id in todo;
        OneListed(queries, byCollection, c, id);
        UpdateOne(before, queries, byCollection, done + (ids - todo), ms, maxRows, recomputed, id);
        var e := queries[id];
        var own := Own(ms, c);
        var next := NextRows(e, own, maxRows, recomputed[id]);
        if Fails(e, ms, maxRows, recomputed[id]) {
          failed := true;
        }
        if next != e.rows {
          told := told[id := next];
        }
        queries := queries[id := e.(rows := next)];
        assert done + (ids - todo) + {id} == done + (ids - (todo - {id}));
        todo := todo - {id};
      }
      assert ids - {} == ids;
    }
  }

  lemma OneListed(queries: map<string, Entry>, byCollection: map<string, set<string>>, c: string, id: string)
    requires Known(queries, byCollection) && c in byCollection && id in byCollection[c]
    ensures id in queries && queries[id].collection == c
  {
  }

  lemma NothingYet(before: map<string, Entry>, ms: seq<Mutation>, max: nat, recomputed: map<string, Rows>)
    requires before.Keys <= recomputed.Keys
    ensures Updated(before, before, {}, ms, max, recomputed)
    ensures Told(before, {}, ms, max, recomputed) == map[] && !SomeFails(before, {}, ms, max, recomputed)
  {
    hide After, Fails;
  }

  /** The ids listed under a collection are its queries, and none of them has been updated before. */
  lemma ListedUnder(before: map<string, Entry>, queries: map<string, Entry>, byCollection: map<string, set<string>>,
                    done: set<string>, ms: seq<Mutation>, max: nat, recomputed: map<string, Rows>, c: string)
    requires Known(queries, byCollection) && Indexed(queries, byCollection)
    requires Updated(before, queries, done, ms, max, recomputed)
    requires forall id :: id in done ==> id in before && before[id].collection != c
    ensures forall id :: id in before ==> queries[id].collection == before[id].collection
    ensures if c in byCollection then
        (forall id :: id in byCollection[c] <==> id in before && before[id].collection == c) && byCollection[c] !! done
      else forall id :: id in before ==> before[id].collection != c
  {
  }

  lemma UpdateOne(before: map<string, Entry>, queries: map<string, Entry>, byCollection: map<string, set<string>>,
                  done: set<string>, ms: seq<Mutation>, max: nat, recomputed: map<string, Rows>, id: string)
    requires Updated(before, queries, done, ms, max, recomputed) && id in queries && id !in done
    requires Known(queries, byCollection) && Indexed(queries, byCollection)
    ensures id in recomputed && queries[id] == before[id]
    ensures var next := After(before[id], ms, max, recomputed[id]);
      && Known(queries[id := next], byCollection) && Indexed(queries[id := next], byCollection)
      && Updated(before, queries[id := next], done + {id}, ms, max, recomputed)
      && Told(before, done + {id}, ms, max, recomputed) ==
           (if next.rows != before[id].rows then Told(before, done, ms, max, recomputed)[id := next.rows]
            else Told(before, done, ms, max, recomputed))
      && (SomeFails(before, done + {id}, ms, max, recomputed) <==>
           SomeFails(before, done, ms, max, recomputed) || Fails(before[id], ms, max, recomputed[id]))
  {
    hide NextRows, Own, Fails;
  }

  /** A query of a collection that the commit does not touch is up to date. */
  lemma AllUpdated(before: map<string, Entry>, queries: map<string, Entry>, done: set<string>, ms: seq<Mutation>,
                   max: nat,
                   recomputed: map<string, Rows>)
    requires Updated(before, queries, done, ms, max, recomputed)
    requires done == set id | id in before && exists i :: 0 <= i < |ms| && ms[i].key.collection == before[id].collection
    ensures queries.Keys == before.Keys
    ensures forall id :: id in queries ==> queries[id] == After(before[id], ms, max, recomputed[id])
    ensures Told(before, before.Keys, ms, max, recomputed) == Told(before, done, ms, max, recomputed)
    ensures SomeFails(before, before.Keys, ms, max, recomputed) == SomeFails(before, done, ms, max, recomputed)
  {
    hide After, Fails;
    forall id | id in before && id !in done
      ensures After(before[id], ms, max, recomputed[id]) == before[id] && !Fails(before[id], ms, max, recomputed[id])
    {
      NothingOwn(before[id], ms, max, recomputed[id]);
    }
  }

  /** What `register` stores is what `walk` collects for the query. */
  lemma CompiledWith(where: Query, nested: seq<string>)
    requires Nested(where, nested)
    ensures Compiled(CompileDependencies(where) + nested, where)
  {
    hide CompileDependencies, Nested;
    assert (CompileDependencies(where) + nested)[|CompileDependencies(where)|..] == nested;
  }

  lemma NothingOwn(e: Entry, ms: seq<Mutation>, max: nat, recomputed: Rows)
    requires forall i :: 0 <= i < |ms| ==> ms[i].key.collection != e.collection
    ensures After(e, ms, max, recomputed) == e && !Fails(e, ms, max, recomputed)
  {
    assert forall m :: m in ms ==> m.key.collection != e.collection;
    FilterNone(ms, (m: Mutation) => m.key.collection == e.collection);
  }

  // ---------------------------------------------------------------- the same commit again

  /** What one mutation makes of the row of an id, if it touches it. */
  function Effect(where: Query, m: Mutation, id: string): Option<Option<Record>> {
    if m.record.Some? && Matches(m.record.value.AsJson(), where) == Yes && m.record.value.id == id then Some(m.record)
    else if m.key.id == id then Some(None)
    else None
  }

  /** The last word of a list of mutations on an id. */
  function LastEffect(where: Query, ms: seq<Mutation>, id: string): Option<Option<Record>> {
    if ms == [] then None
    else if Effect(where, ms[|ms| - 1], id).Some? then Effect(where, ms[|ms| - 1], id)
    else LastEffect(where, ms[..|ms| - 1], id)
  }

  lemma {:induction false} LastWord(rows: Rows, where: Query, ms: seq<Mutation>, id: string)
    requires ApplyIncremental(rows, where, ms).Some?
    ensures Lookup(ApplyIncremental(rows, where, ms).value, id) ==
      if LastEffect(where, ms, id).Some? then LastEffect(where, ms, id).value else Lookup(rows, id)
  {
    hide Matches;
    if ms != [] {
      LastWord(rows, where, ms[..|ms| - 1], id);
    }
  }

  /** Whether the query is refused does not depend on the rows. */
  lemma {:induction false} RefusedAlike(a: Rows, b: Rows, where: Query, ms: seq<Mutation>)
    ensures ApplyIncremental(a, where, ms).Some? == ApplyIncremental(b, where, ms).Some?
  {
    hide Matches;
    if ms != [] {
      RefusedAlike(a, b, where, ms[..|ms| - 1]);
    }
  }

  /** Applying the same mutations again changes no row. */
  lemma AppliedTwice(rows: Rows, where: Query, ms: seq<Mutation>)
    requires ApplyIncremental(rows, where, ms).Some?
    ensures ApplyIncremental(ApplyIncremental(rows, where, ms).value, where, ms) == ApplyIncremental(rows, where, ms)
  {
    hide ApplyIncremental, LastEffect;
    var once := ApplyIncremental(rows, where, ms).value;
    RefusedAlike(rows, once, where, ms);
    var twice := ApplyIncremental(once, where, ms).value;
    forall id ensures Lookup(twice, id) == Lookup(once, id) {
      LastWord(rows, where, ms, id);
      LastWord(once, where, ms, id);
    }
    SameRows(twice, once);
  }

  lemma SameRows(a: Rows, b: Rows)
    requires forall id :: Lookup(a, id) == Lookup(b, id)
    ensures a == b
  {
    forall id ensures id in a <==> id in b {
      assert Lookup(a, id) == Lookup(b, id);
    }
    forall id | id in a ensures a[id] == b[id] {
      assert Lookup(a, id) == Lookup(b, id);
    }
  }

  /** Rows kept by applying mutations are not changed by applying them again, whatever an evaluation would give. */
  lemma AfterTwice(e: Entry, ms: seq<Mutation>, max: nat, recomputed: Rows, again: Rows)
    requires e.incremental
    ensures After(After(e, ms, max, recomputed), ms, max, again) == After(e, ms, max, recomputed)
  {
    hide ApplyIncremental, Own, Affected;
    var own := Own(ms, e.collection);
    if ApplyIncremental(e.rows, e.where, own).Some? {
      AppliedTwice(e.rows, e.where, own);
    }
  }

  /** A query that is evaluated anew gets other rows: the commit may affect it, and they are not too many. */
  predicate Reevaluated(e: Entry, ms: seq<Mutation>, max: nat, again: Rows) {
    !e.incremental && Affected(e.deps, Own(ms, e.collection)) && |again| <= max && again != e.rows
  }

  /**
   * What a second application of one commit tells, exactly: a query kept by applying mutations is never told again, and
   * one that is evaluated is told again exactly when the evaluation now gives other rows, as it does once the database
   * has moved on.
   */
  lemma ToldAgainIff(before: map<string, Entry>, after: map<string, Entry>, ms: seq<Mutation>, max: nat,
                     recomputed: map<string, Rows>, again: map<string, Rows>, id: string)
    requires Updated(before, after, before.Keys, ms, max, recomputed) && after.Keys <= again.Keys
    ensures id in Told(after, after.Keys, ms, max, again) <==> id in after && Reevaluated(after[id], ms, max, again[id])
  {
    hide Own, ApplyIncremental, Affected;
    if id in after && before[id].incremental {
      AfterTwice(before[id], ms, max, recomputed[id], again[id]);
    }
  }

  // ---------------------------------------------------------------- several subscriptions

  /**
   * What the listener of one subscription is passed: the rows of its own query, when they are told and nothing threw.
   */
  function Passed(queries: map<string, Entry>, id: string, ms: seq<Mutation>, max: nat, recomputed: map<string, Rows>):
    Option<Rows>
    requires queries.Keys <= recomputed.Keys
  {
    if SomeFails(queries, queries.Keys, ms, max, recomputed) then None
    else
      var told := Told(queries, queries.Keys, ms, max, recomputed);
      if id in told then Some(told[id]) else None
  }

  /**
   * Subscriptions handle one commit in turn. Each applies it to the whole graph, with what its queries evaluate to at
   * that moment, and passes on the rows of its own query.
   */
  ghost predicate Handled(states: seq<map<string, Entry>>, subscriptions: seq<string>, ms: seq<Mutation>, max: nat,
                          recomputed: seq<map<string, Rows>>, passed: seq<Option<Rows>>) {
    && |states| == |subscriptions| + 1 && |recomputed| == |subscriptions| && |passed| == |subscriptions|
    && forall i :: 0 <= i < |subscriptions| ==>
         && Updated(states[i], states[i + 1], states[i].Keys, ms, max, recomputed[i])
         && passed[i] == Passed(states[i], subscriptions[i], ms, max, recomputed[i])
  }

  /**
   * Only the first of several subscriptions is passed the changes of a query kept by applying mutations. A later one
   * hears of a commit exactly when its query is evaluated anew, the evaluation gives other rows than those its
   * predecessor left, and no query throws.
   */
  lemma LaterToldIff(states: seq<map<string, Entry>>, subscriptions: seq<string>, ms: seq<Mutation>, max: nat,
                     recomputed: seq<map<string, Rows>>, passed: seq<Option<Rows>>, i: nat)
    requires Handled(states, subscriptions, ms, max, recomputed, passed) && 0 < i < |subscriptions|
    ensures states[i].Keys <= recomputed[i].Keys
    ensures passed[i].Some? <==>
      && subscriptions[i] in states[i]
      && Reevaluated(states[i][subscriptions[i]], ms, max, recomputed[i][subscriptions[i]])
      && !SomeFails(states[i], states[i].Keys, ms, max, recomputed[i])
  {
    hide Told, SomeFails, Reevaluated;
    assert Updated(states[i - 1], states[i - 1 + 1], states[i - 1].Keys, ms, max, recomputed[i - 1]);
    assert Updated(states[i], states[i + 1], states[i].Keys, ms, max, recomputed[i]);
    ToldAgainIff(states[i - 1], states[i], ms, max, recomputed[i - 1], recomputed[i], subscriptions[i]);
  }
}
