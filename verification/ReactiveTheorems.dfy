/** Incremental maintenance equals recomputation: over one commit, and over every history of the commit engine. */
module ReactiveTheorems {
  import opened Basics
  import opened Json
  import opened Documents
  import opened Transactions
  import opened Reactive
  import opened ReactiveGraph
  import StorageCore
  import CommitLog
  import StorageRecovery
  import EventLog
  import CommitFabric

  function Matching(where: Query, c: string, s: Content): set<string> {
    set k | k in s && k.collection == c && Matches(s[k].AsJson(), where) == Yes :: k.id
  }

  lemma MatchingIs(where: Query, c: string, s: Content, id: string)
    ensures id in Matching(where, c, s) <==> Key(c, id) in s && Matches(s[Key(c, id)].AsJson(), where) == Yes
  {
    hide Matches;
    forall k | k in s && k.collection == c && k.id == id ensures k == Key(c, id) {
    }
    assert Key(c, id).id == id;
  }

  /**
   * Row id is right: it is present exactly for a matching record, and agrees with it on every field the query looks at.
   */
  ghost predicate RowRight(rows: Rows, where: Query, c: string, s: Content, id: string) {
    && (id in rows <==> Key(c, id) in s && Matches(s[Key(c, id)].AsJson(), where) == Yes)
    && (id in rows && Key(c, id) in s ==>
         rows[id].id == id && Agree(rows[id].Fields(), s[Key(c, id)].Fields(), HeadsQuery(where)))
  }

  ghost predicate Maintained(rows: Rows, where: Query, c: string, s: Content) {
    forall id :: RowRight(rows, where, c, s, id)
  }

  ghost predicate DistinctTargets(ms: seq<Mutation>) {
    forall i, j :: 0 <= i < j < |ms| ==> ms[i].key != ms[j].key
  }

  ghost predicate MutationFits(s: Content, m: Mutation) {
    && m.fields == ChangedFields(Lookup(s, m.key), m.record)
    && (m.record.Some? ==> m.record.value.id == m.key.id)
    && (m.key in s ==> s[m.key].id == m.key.id)
  }

  /** A commit as the engine announces it: each record once, with the fields it changed. */
  ghost predicate Fits(s: Content, ms: seq<Mutation>) {
    DistinctTargets(ms) && forall m :: m in ms ==> MutationFits(s, m)
  }

  function ApplyOne(s: Content, m: Mutation): Content {
    if m.record.Some? then s[m.key := m.record.value] else s - {m.key}
  }

  function ApplyMutations(s: Content, ms: seq<Mutation>): Content {
    if ms == [] then s else ApplyOne(ApplyMutations(s, ms[..|ms| - 1]), ms[|ms| - 1])
  }

  lemma {:induction false} UntouchedKey(s: Content, ms: seq<Mutation>, k: Key)
    requires forall m :: m in ms ==> m.key != k
    ensures Lookup(ApplyMutations(s, ms), k) == Lookup(s, k)
  {
    if ms != [] {
      UntouchedKey(s, ms[..|ms| - 1], k);
    }
  }

  lemma {:induction false} TouchedKey(s: Content, ms: seq<Mutation>, i: nat)
    requires DistinctTargets(ms) && i < |ms|
    ensures Lookup(ApplyMutations(s, ms), ms[i].key) == ms[i].record
  {
    if i < |ms| - 1 {
      TouchedKey(s, ms[..|ms| - 1], i);
    }
  }

  ghost predicate DistinctIds(ms: seq<Mutation>) {
    forall i, j :: 0 <= i < j < |ms| ==> ms[i].key.id != ms[j].key.id
  }

  ghost predicate KeyedRecords(ms: seq<Mutation>) {
    forall i :: 0 <= i < |ms| && ms[i].record.Some? ==> ms[i].record.value.id == ms[i].key.id
  }

  lemma {:induction false} UntouchedRow(rows: Rows, where: Query, ms: seq<Mutation>, id: string)
    requires ApplyIncremental(rows, where, ms).Some? && KeyedRecords(ms)
    requires forall i :: 0 <= i < |ms| ==> ms[i].key.id != id
    ensures Lookup(ApplyIncremental(rows, where, ms).value, id) == Lookup(rows, id)
  {
    hide Matches;
    if ms != [] {
      UntouchedRow(rows, where, ms[..|ms| - 1], id);
    }
  }

  lemma {:induction false} TouchedRow(rows: Rows, where: Query, ms: seq<Mutation>, i: nat)
    requires ApplyIncremental(rows, where, ms).Some? && KeyedRecords(ms) && DistinctIds(ms) && i < |ms|
    ensures Lookup(ApplyIncremental(rows, where, ms).value, ms[i].key.id) ==
      if ms[i].record.Some? && Matches(ms[i].record.value.AsJson(), where) == Yes then ms[i].record else None
  {
    hide Matches;
    if i < |ms| - 1 {
      TouchedRow(rows, where, ms[..|ms| - 1], i);
    }
  }

  lemma {:induction false} OwnFacts(ms: seq<Mutation>, c: string)
    ensures forall m :: m in Own(ms, c) <==> m in ms && m.key.collection == c
    ensures DistinctTargets(ms) ==> DistinctIds(Own(ms, c))
  {
    if ms != [] {
      var rest := ms[1..];
      OwnFacts(rest, c);
      assert ms == [ms[0]] + rest;
      if DistinctTargets(ms) {
        assert DistinctTargets(rest);
        var own := Own(rest, c);
        forall j | 0 <= j < |own| && ms[0].key.collection == c ensures own[j].key.id != ms[0].key.id {
          assert own[j] in rest;
          var i :| 0 <= i < |rest| && rest[i] == own[j];
          assert ms[i + 1] == own[j];
        }
      }
    }
  }

  ghost predicate Shown(where: Query, c: string, s: Content, id: string) {
    Key(c, id) in s && Matches(s[Key(c, id)].AsJson(), where) == Yes
  }

  /** A commit that the query may skip changes no verdict, and no field the query looks at. */
  lemma SkippedVerdict(e: Entry, s: Content, ms: seq<Mutation>, id: string)
    requires Watching(e) && Fits(s, ms) && !Affected(e.deps, Own(ms, e.collection))
    ensures var s', k := ApplyMutations(s, ms), Key(e.collection, id);
      && (Shown(e.where, e.collection, s', id) <==> Shown(e.where, e.collection, s, id))
      && (k in s <==> k in s')
      && (k in s ==> Agree(s[k].Fields(), s'[k].Fields(), HeadsQuery(e.where)))
  {
    hide Covered, CompileDependencies, MayAffect, Matches, HeadsQuery, ApplyMutations, Compiled;
    var k := Key(e.collection, id);
    if i: nat :| i < |ms| && ms[i].key == k {
      TouchedKey(s, ms, i);
      OwnFacts(ms, e.collection);
      var m := ms[i];
      assert m in Own(ms, e.collection) && MutationFits(s, m);
      assert !MayAffect(e.deps, m.fields);
      EntriesDecide(e.deps, e.where, m.fields);
      DepsSome(e.where, m.fields);
      var before, after := Lookup(s, k), m.record;
      SkippedAgrees(e.where, before.value, after.value);
      MatchesAgrees(before.value.Fields(), after.value.Fields(), e.where);
    } else {
      UntouchedKey(s, ms, k);
    }
  }

  /** One row after the mutations of a commit: the new record if it matches, or no change at all. */
  lemma IncrementedRow(e: Entry, s: Content, ms: seq<Mutation>, id: string)
    requires Fits(s, ms) && ApplyIncremental(e.rows, e.where, Own(ms, e.collection)).Some?
    ensures var next := ApplyIncremental(e.rows, e.where, Own(ms, e.collection)).value;
      var s', k := ApplyMutations(s, ms), Key(e.collection, id);
      || (Lookup(next, id) == Lookup(e.rows, id) && Lookup(s', k) == Lookup(s, k))
      || (Lookup(next, id) == (if Shown(e.where, e.collection, s', id) then Some(s'[k]) else None) &&
           (k in s' ==> s'[k].id == id))
  {
    hide Matches, HeadsQuery, ApplyMutations, ApplyIncremental, Own;
    var own, k := Own(ms, e.collection), Key(e.collection, id);
    OwnFacts(ms, e.collection);
    assert KeyedRecords(own) by {
      forall i | 0 <= i < |own| && own[i].record.Some? ensures own[i].record.value.id == own[i].key.id {
        assert own[i] in ms;
        assert MutationFits(s, own[i]);
      }
    }
    if i: nat :| i < |ms| && ms[i].key == k {
      TouchedKey(s, ms, i);
      assert ms[i] in own && MutationFits(s, ms[i]);
      var j: nat :| j < |own| && own[j] == ms[i];
      TouchedRow(e.rows, e.where, own, j);
    } else {
      UntouchedKey(s, ms, k);
      forall j | 0 <= j < |own| ensures own[j].key.id != id {
        assert own[j] in ms && own[j].key.collection == e.collection;
        assert own[j].key == Key(own[j].key.collection, own[j].key.id);
      }
      UntouchedRow(e.rows, e.where, own, id);
    }
  }

  /** The graph gives up on this commit: the query is refused on a stored record, or too many rows would match. */
  predicate Rejected(e: Entry, ms: seq<Mutation>, max: nat) {
    var next := ApplyIncremental(e.rows, e.where, Own(ms, e.collection));
    Affected(e.deps, Own(ms, e.collection)) && (next.None? || |next.value| > max)
  }

  /** The rows after one commit that is not rejected list exactly the matching documents, if they did before. */
  lemma AcceptedIds(e: Entry, s: Content, ms: seq<Mutation>, max: nat, recomputed: Rows)
    requires Watching(e) && Fits(s, ms) && e.rows.Keys == Matching(e.where, e.collection, s)
    requires !Rejected(e, ms, max)
    ensures After(e, ms, max, recomputed).rows.Keys == Matching(e.where, e.collection, ApplyMutations(s, ms))
  {
    hide Fits, Matches, ApplyMutations, ApplyIncremental, Own, Affected, Matching, Compiled, Covered;
    var s', next := ApplyMutations(s, ms), After(e, ms, max, recomputed).rows;
    forall id ensures id in next <==> id in Matching(e.where, e.collection, s') {
      MatchingIs(e.where, e.collection, s, id);
      MatchingIs(e.where, e.collection, s', id);
      assert id in e.rows <==> id in e.rows.Keys;
      if Affected(e.deps, Own(ms, e.collection)) {
        IncrementedRow(e, s, ms, id);
      } else {
        SkippedVerdict(e, s, ms, id);
      }
    }
    assert forall id :: id in next <==> id in next.Keys;
  }

  /**
   * One commit, exactly: the rows list the matching documents again if and only if the commit is not rejected, or
   * changed nothing about which documents match. After a rejected commit the rows are those from before it.
   */
  lemma CommitIdsIff(e: Entry, s: Content, ms: seq<Mutation>, max: nat, recomputed: Rows)
    requires Watching(e) && Fits(s, ms) && e.rows.Keys == Matching(e.where, e.collection, s)
    ensures var next, s' := After(e, ms, max, recomputed).rows, ApplyMutations(s, ms);
      && (Rejected(e, ms, max) ==> next == e.rows)
      && (next.Keys == Matching(e.where, e.collection, s') <==>
           (Rejected(e, ms, max) ==> Matching(e.where, e.collection, s') == Matching(e.where, e.collection, s)))
  {
    hide Fits, ApplyMutations, ApplyIncremental, Own, Affected, Matching, Compiled, Covered;
    if !Rejected(e, ms, max) {
      AcceptedIds(e, s, ms, max, recomputed);
    }
  }

  /** What the query is asked about some record the commit stores, it refuses. */
  ghost predicate AsksRefused(where: Query, c: string, ms: seq<Mutation>) {
    exists i :: 0 <= i < |ms| && ms[i].key.collection == c && ms[i].record.Some?
      && Matches(ms[i].record.value.AsJson(), where) == Refused
  }

  /** When rows that were right meet a commit that may affect them, it is rejected exactly in these two cases. */
  lemma RejectedIff(e: Entry, s: Content, ms: seq<Mutation>, max: nat)
    requires Watching(e) && Fits(s, ms) && e.rows.Keys == Matching(e.where, e.collection, s)
    requires Affected(e.deps, Own(ms, e.collection))
    ensures Rejected(e, ms, max) <==>
      AsksRefused(e.where, e.collection, ms) || |Matching(e.where, e.collection, ApplyMutations(s, ms))| > max
  {
    hide Fits, Matches, ApplyMutations, ApplyIncremental, Own, Affected, Matching, Compiled, Covered;
    var own := Own(ms, e.collection);
    OwnFacts(ms, e.collection);
    RefusedIff(e.rows, e.where, own);
    if AsksRefused(e.where, e.collection, ms) {
      var i :| 0 <= i < |ms| && ms[i].key.collection == e.collection && ms[i].record.Some?
        && Matches(ms[i].record.value.AsJson(), e.where) == Refused;
      assert ms[i] in own;
      var j :| 0 <= j < |own| && own[j] == ms[i];
    } else {
      forall j | 0 <= j < |own| && own[j].record.Some?
        ensures Matches(own[j].record.value.AsJson(), e.where) != Refused
      {
        assert own[j] in own;
        var i :| 0 <= i < |ms| && ms[i] == own[j];
      }
      var next := ApplyIncremental(e.rows, e.where, own).value;
      AcceptedIds(e, s, ms, |next|, map[]);
      assert |next| == |next.Keys|;
    }
  }

  /** The incremental pass is refused exactly when the query is refused on one of the records. */
  lemma {:induction false} RefusedIff(rows: Rows, where: Query, ms: seq<Mutation>)
    ensures ApplyIncremental(rows, where, ms).None? <==>
      exists i :: 0 <= i < |ms| && ms[i].record.Some? && Matches(ms[i].record.value.AsJson(), where) == Refused
  {
    hide Matches;
    if ms != [] {
      var init := ms[..|ms| - 1];
      RefusedIff(rows, where, init);
      if i :| 0 <= i < |ms| && ms[i].record.Some? && Matches(ms[i].record.value.AsJson(), where) == Refused {
        assert i < |init| ==> init[i] == ms[i];
      }
      if i :| 0 <= i < |init| && init[i].record.Some? && Matches(init[i].record.value.AsJson(), where) == Refused {
        assert ms[i] == init[i];
      }
    }
  }

  /** One commit that is not rejected: the rows agree with a recomputation again on all the query looks at. */
  lemma CommitKeepsRows(e: Entry, s: Content, ms: seq<Mutation>, max: nat, recomputed: Rows)
    requires Watching(e) && Maintained(e.rows, e.where, e.collection, s) && Fits(s, ms)
    requires !Rejected(e, ms, max)
    ensures Maintained(After(e, ms, max, recomputed).rows, e.where, e.collection, ApplyMutations(s, ms))
    ensures After(e, ms, max, recomputed).rows.Keys == Matching(e.where, e.collection, ApplyMutations(s, ms))
  {
    hide Fits, Matches, ApplyMutations, ApplyIncremental, Own, Affected, Matching, Compiled, Covered, HeadsQuery;
    var s', next := ApplyMutations(s, ms), After(e, ms, max, recomputed).rows;
    forall id ensures RowRight(next, e.where, e.collection, s', id) {
      assert RowRight(e.rows, e.where, e.collection, s, id);
      if Affected(e.deps, Own(ms, e.collection)) {
        IncrementedRow(e, s, ms, id);
      } else {
        SkippedVerdict(e, s, ms, id);
      }
    }
    KeysRight(next, e.where, e.collection, s');
  }

  lemma KeysRight(rows: Rows, where: Query, c: string, s: Content)
    requires Maintained(rows, where, c, s)
    ensures rows.Keys == Matching(where, c, s)
  {
    hide Matches, Matching, Agree;
    forall id ensures id in rows <==> id in Matching(where, c, s) {
      assert RowRight(rows, where, c, s, id);
      MatchingIs(where, c, s, id);
    }
  }

  // ---------------------------------------------------------------- the engine's commits

  lemma {:induction false} FoldMutations(s: Content, es: seq<StorageCore.Event>)
    ensures ApplyMutations(s, StorageCore.MutationsOfEvents(es)) == StorageCore.Fold(s, es)
  {
    var ms := StorageCore.MutationsOfEvents(es);
    if es != [] {
      var init := es[..|es| - 1];
      FoldMutations(s, init);
      assert StorageCore.MutationsOfEvents(init) == ms[..|ms| - 1];
    }
  }

  /** What a commit of any history announces fits the state before it and leads to the state after it. */
  lemma EngineCommitFits(config: StorageCore.Config, h: seq<StorageCore.Commit>, i: nat)
    requires StorageRecovery.HistoryOk(config, h) && i < |h|
    ensures var ms, s := StorageCore.MutationsOfEvents(h[i].entry.events), CommitLog.State(h[..i]);
      Fits(s, ms) && ApplyMutations(s, ms) == CommitLog.State(h[..i + 1])
  {
    hide StorageRecovery.HistoryOk, StorageCore.VerifyEntry, CommitLog.State, StorageCore.Fold, ApplyMutations,
      Transactions.Writes;
    hide Transactions.TraceOk, Transactions.LastReadsCurrent, StorageRecovery.Store, ChangedFields,
      EventLog.ContentKeyed;
    StorageRecovery.HistoryPrefix(config, h, i);
    EventLog.LogKeyed(config, h[..i]);
    var es, s := h[i].entry.events, CommitLog.State(h[..i]);
    var ms := StorageCore.MutationsOfEvents(es);
    EventLog.CommitKeyed(s, h[i]);
    assert forall k :: k in s ==> s[k].id == k.id by { EventLog.KeyedContent(s); }
    StorageRecovery.HistoryExtends(config, h[..i], h[i]);
    assert h[..i] + [h[i]] == h[..i + 1];
    FoldMutations(s, es);
    forall m | m in ms ensures MutationFits(s, m) {
      var j :| 0 <= j < |ms| && ms[j] == m;
      assert es[j] in es && StorageRecovery.Labelled(es[j]) && EventLog.EventKeyed(es[j]);
      assert m == StorageCore.MutationOfEvent(es[j]);
    }
    assert DistinctTargets(ms);
  }

  /** The rows after the commits from `first` to `last` of a history have been delivered one after another. */
  function Delivered(e: Entry, h: seq<StorageCore.Commit>, first: nat, last: nat, max: nat): Rows
    requires first <= last <= |h|
    decreases last
  {
    if first == last then e.rows
    else
      var rows := Delivered(e, h, first, last - 1, max);
      After(e.(rows := rows), StorageCore.MutationsOfEvents(h[last - 1].entry.events), max, map[]).rows
  }

  /** The rows as they stand before the i-th commit make the graph reject it. */
  predicate RejectedAt(e: Entry, h: seq<StorageCore.Commit>, first: nat, i: nat, max: nat)
    requires first <= i < |h|
  {
    Rejected(e.(rows := Delivered(e, h, first, i, max)), StorageCore.MutationsOfEvents(h[i].entry.events), max)
  }

  /**
   * For every history of the commit engine: a query registered with the rows of a recomputation, and delivered each
   * later commit, agrees with a recomputation at every point, as long as no commit is rejected.
   */
  lemma {:induction false} IncrementalEqualsRecompute(config: StorageCore.Config, h: seq<StorageCore.Commit>, e: Entry,
                                                      first: nat, last: nat, max: nat)
    requires StorageRecovery.HistoryOk(config, h) && first <= last <= |h|
    requires Watching(e) && Maintained(e.rows, e.where, e.collection, CommitLog.State(h[..first]))
    requires forall i :: first <= i < last ==> !RejectedAt(e, h, first, i, max)
    ensures Delivered(e, h, first, last, max).Keys == Matching(e.where, e.collection, CommitLog.State(h[..last]))
    ensures Maintained(Delivered(e, h, first, last, max), e.where, e.collection, CommitLog.State(h[..last]))
    decreases last
  {
    hide StorageRecovery.HistoryOk, CommitLog.State, Maintained, Compiled, Covered, Matching, Fits;
    hide StorageCore.MutationsOfEvents, NextRows, Rejected;
    if first == last {
      KeysRight(e.rows, e.where, e.collection, CommitLog.State(h[..first]));
    } else {
      var i := last - 1;
      IncrementalEqualsRecompute(config, h, e, first, i, max);
      assert !RejectedAt(e, h, first, i, max);
      EngineCommitFits(config, h, i);
      var current := e.(rows := Delivered(e, h, first, i, max));
      CommitKeepsRows(current, CommitLog.State(h[..i]), StorageCore.MutationsOfEvents(h[i].entry.events), max, map[]);
    }
  }

  /** The i-th commit is not rejected, or leaves the matching documents as they are. */
  ghost predicate Harmless(e: Entry, h: seq<StorageCore.Commit>, first: nat, i: nat, max: nat)
    requires first <= i < |h|
  {
    RejectedAt(e, h, first, i, max) ==>
      Matching(e.where, e.collection, CommitLog.State(h[..i + 1])) ==
        Matching(e.where, e.collection, CommitLog.State(h[..i]))
  }

  ghost predicate IdsRight(e: Entry, h: seq<StorageCore.Commit>, first: nat, n: nat, max: nat)
    requires first <= n <= |h|
  {
    Delivered(e, h, first, n, max).Keys == Matching(e.where, e.collection, CommitLog.State(h[..n]))
  }

  /**
   * Exactly when the rows list the matching documents at every point of a history: if and only if every rejected commit
   * changed nothing about which documents match.
   */
  lemma {:induction false} DeliveredIdsIff(config: StorageCore.Config, h: seq<StorageCore.Commit>, e: Entry,
                                           first: nat, last: nat, max: nat)
    requires StorageRecovery.HistoryOk(config, h) && first <= last <= |h|
    requires Watching(e) && IdsRight(e, h, first, first, max)
    ensures (forall n :: first <= n <= last ==> IdsRight(e, h, first, n, max))
      <==> (forall i :: first <= i < last ==> Harmless(e, h, first, i, max))
    decreases last
  {
    hide StorageRecovery.HistoryOk, CommitLog.State, Compiled, Covered, Matching, Fits;
    hide StorageCore.MutationsOfEvents, NextRows, Rejected, IdsRight, Harmless;
    if first < last {
      var i := last - 1;
      DeliveredIdsIff(config, h, e, first, i, max);
      if IdsRight(e, h, first, i, max) {
        DeliveredOneIff(config, h, e, first, i, max);
      }
    }
  }

  lemma DeliveredOneIff(config: StorageCore.Config, h: seq<StorageCore.Commit>, e: Entry, first: nat, i: nat, max: nat)
    requires StorageRecovery.HistoryOk(config, h) && first <= i < |h|
    requires Watching(e) && IdsRight(e, h, first, i, max)
    ensures IdsRight(e, h, first, i + 1, max) <==> Harmless(e, h, first, i, max)
  {
    hide StorageRecovery.HistoryOk, CommitLog.State, Compiled, Covered, Matching, Fits;
    hide StorageCore.MutationsOfEvents, NextRows, Rejected;
    EngineCommitFits(config, h, i);
    var current := e.(rows := Delivered(e, h, first, i, max));
    CommitIdsIff(current, CommitLog.State(h[..i]), StorageCore.MutationsOfEvents(h[i].entry.events), max, map[]);
  }

  /** A query of every document with room for no row: after the first insert the rows stay without it. */
  lemma RowLimitLosesInsert(r: Record)
    ensures var e := Entry("c", Query([]), CompileDependencies(Query([])), true, map[]);
      var m := CommitFabric.Mutation(true, Key("c", r.id), {"*"}, Some(r));
      && Watching(e) && Rejected(e, [m], 0)
      && After(e, [m], 0, map[]).rows == map[]
      && r.id in Matching(e.where, "c", ApplyMutations(map[], [m]))
  {
    var q := Query([]);
    var e := Entry("c", q, CompileDependencies(q), true, map[]);
    var m := CommitFabric.Mutation(true, Key("c", r.id), {"*"}, Some(r));
    assert CompileDependencies(q) == ["*"];
    assert Compiled(e.deps, q) && "*" in e.deps;
    OwnFacts([m], "c");
    assert [m][0] == m && [m][1..] == [];
    assert Own([], "c") == [] && Own([m], "c") == [m];
    assert [m][..0] == [];
    assert ApplyMutations(map[], []) == map[] && ApplyIncremental(map[], q, []) == Some(map[]);
    assert MayAffect(e.deps, [m][0].fields);
    MatchingIs(q, "c", ApplyMutations(map[], [m]), r.id);
    assert ApplyIncremental(map[], q, [m]).value == map[r.id := r];
    assert |map[r.id := r]| == 1;
  }

  /**
   * A field that occurs only inside an array of branches is not watched: after a commit that changes it, the rows still
   * list a record that no longer matches.
   */
  lemma UnwatchedBranch()
    ensures var q :=
      Query([Field("a", Equals(Bool(true))), Or(Array([Object(Query([Field("b", Equals(Bool(true)))]))]))]);
      var r, r' :=
        Record("x", map["a" := Bool(true), "b" := Bool(true)]), Record("x", map["a" := Bool(true), "b" := Bool(false)]);
      var e := Entry("c", q, CompileDependencies(q), true, map["x" := r]);
      var m := CommitFabric.Mutation(true, Key("c", "x"), ChangedFields(Some(r), Some(r')), Some(r'));
      && !Covered(q)
      && "x" in After(e, [m], 100, map[]).rows
      && Matches(r.AsJson(), q) == Yes && Matches(r'.AsJson(), q) == No
  {
    var inner := Query([Field("b", Equals(Bool(true)))]);
    var q := Query([Field("a", Equals(Bool(true))), Or(Array([Object(inner)]))]);
    var r, r' :=
      Record("x", map["a" := Bool(true), "b" := Bool(true)]), Record("x", map["a" := Bool(true), "b" := Bool(false)]);
    OnlyB(r, r');
    OnlyA(q, inner);
    var m := CommitFabric.Mutation(true, Key("c", "x"), {"b"}, Some(r'));
    NotAffected(q, m);
    BranchVerdicts(q, inner, r, r');
  }

  lemma OnlyB(r: Record, r': Record)
    requires r == Record("x", map["a" := Bool(true), "b" := Bool(true)]) &&
      r' == Record("x", map["a" := Bool(true), "b" := Bool(false)])
    ensures ChangedFields(Some(r), Some(r')) == {"b"}
  {
    var b, a := r.Fields(), r'.Fields();
    assert Lookup(b, "b") != Lookup(a, "b") && Lookup(b, "a") == Lookup(a, "a") && Lookup(b, "id") == Lookup(a, "id");
    assert b.Keys + a.Keys == {"a", "b", "id"};
    assert (set f | f in b.Keys + a.Keys && Lookup(b, f) != Lookup(a, f)) == {"b"};
  }

  lemma OnlyA(q: Query, inner: Query)
    requires inner == Query([Field("b", Equals(Bool(true)))])
    requires q == Query([Field("a", Equals(Bool(true))), Or(Array([Object(inner)]))])
    ensures WalkQuery(q) == ["a"] && !Covered(q)
  {
    var or := q.clauses[1];
    SplitPlain("a");
    SplitPlain("b");
    assert q.clauses[1..] == [or] && [or][1..] == [];
    assert Walk([or]) == [];
    assert Walk(q.clauses) == ["a"];
    assert inner.clauses[1..] == [] && Heads(inner.clauses) == {"b"};
    assert HeadsIn(Object(inner)) == {"b"};
    assert [Object(inner)][1..] == [] && HeadsAll([Object(inner)]) == {"b"};
    assert HeadsOf(or) == {"b"};
    assert Heads([or]) == {"b"};
    assert "b" in HeadsQuery(q);
    UncoveredB(q);
  }

  lemma UncoveredB(q: Query)
    requires WalkQuery(q) == ["a"] && Split("a") == ["a"] && "b" in HeadsQuery(q)
    ensures !Covered(q)
  {
    hide WalkQuery, HeadsQuery, Split;
    assert CompileDependencies(q) == ["a"];
    assert "a"[0] != "b"[0] && "a"[0] != "*"[0];
  }

  lemma NotAffected(q: Query, m: Mutation)
    requires WalkQuery(q) == ["a"] && m.key.collection == "c" && m.fields == {"b"}
    ensures !Affected(CompileDependencies(q), Own([m], "c"))
  {
    OwnFacts([m], "c");
    var own := Own([m], "c");
    assert forall i :: 0 <= i < |own| ==> own[i] in own && own[i] == m;
    var deps := CompileDependencies(q);
    assert forall d :: d in deps ==> d == "a";
    assert |"a" + "."| == 2 && |"b" + "."| == 2 && "a"[0] != "b"[0];
  }

  lemma BranchVerdicts(q: Query, inner: Query, r: Record, r': Record)
    requires inner == Query([Field("b", Equals(Bool(true)))])
    requires q == Query([Field("a", Equals(Bool(true))), Or(Array([Object(inner)]))])
    requires r == Record("x", map["a" := Bool(true), "b" := Bool(true)]) &&
      r' == Record("x", map["a" := Bool(true), "b" := Bool(false)])
    ensures Matches(r.AsJson(), q) == Yes && Matches(r'.AsJson(), q) == No
  {
    hide Holds, GetPath, Meets, Every, Split;
    SplitPlain("a");
    SplitPlain("b");
    FieldVerdict(r, "a", true);
    FieldVerdict(r', "a", true);
    FieldVerdict(r, "b", true);
    FieldVerdict(r', "b", false);
    EveryTwo(r.AsJson(), q);
    EveryTwo(r'.AsJson(), q);
    OrOne(r.AsJson(), inner);
    OrOne(r'.AsJson(), inner);
  }

  lemma FieldVerdict(r: Record, f: string, b: bool)
    requires f != "" && Split(f) == [f] && f in r.body && f != "id" && r.body[f] == Bool(b)
    ensures Holds(r.AsJson(), Field(f, Equals(Bool(true)))) == if b then Yes else No
  {
    hide Split;
    var values := GetPath(r.AsJson(), f);
    assert [f][1..] == [];
    assert Resolve(Bool(b), []) == [Bool(b)];
    assert values == [Bool(b)];
    assert Equal(values[0], Bool(true)) <==> b;
  }

  lemma EveryOne(doc: Json, clauses: seq<Clause>)
    requires |clauses| == 1
    ensures Every(doc, clauses) == Holds(doc, clauses[0])
  {
    hide Holds;
    assert clauses[1..] == [];
    assert Every(doc, []) == Yes;
  }

  lemma EveryTwo(doc: Json, q: Query)
    requires |q.clauses| == 2
    ensures Matches(doc, q) ==
      if Holds(doc, q.clauses[0]) != Yes then Holds(doc, q.clauses[0]) else Holds(doc, q.clauses[1])
  {
    hide Holds;
    EveryOne(doc, q.clauses[1..]);
  }

  lemma OrOne(doc: Json, inner: Query)
    requires |inner.clauses| == 1
    ensures Holds(doc, Or(Array([Object(inner)]))) == Holds(doc, inner.clauses[0])
  {
    EveryOne(doc, inner.clauses);
    var bs := [Object(inner)];
    assert bs[1..] == [];
    assert AnyOf(doc, []) == No;
    assert MatchesBranch(doc, bs[0]) == Matches(doc, inner);
    assert AnyOf(doc, bs) == Matches(doc, inner);
  }
}
