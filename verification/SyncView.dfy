/** Sync views of src/storage-core.js: the changes served after a cursor take a client's copy to the current view. */
module SyncView {
  import opened Basics
  import opened Json
  import opened Documents
  import opened QueryMeaning
  import opened Transactions
  import opened StorageCore
  import opened CommitLog
  import opened StorageRecovery
  import opened EventLog

  datatype View = View(collection: string, where: Query, maxDocuments: nat)

  datatype Delta = PutRow(key: Key, record: Record) | RemoveRow(key: Key)

  /** What a call answers: the stream has expired, the query is refused, or the rows or changes. */
  datatype Reply<T> = Expired | Malformed | TooLarge | Answer(value: T)

  function Verdict(v: View, r: Option<Record>): Documents.Verdict {
    if r.None? then No else Matches(r.value.AsJson(), v.where)
  }

  /** The rows of the view over content s. */
  function Rows(v: View, s: Content): Content {
    map k | k in s && k.collection == v.collection && Matches(s[k].AsJson(), v.where) == Yes :: s[k]
  }

  function DeltaOf(v: View, e: Event): seq<Delta> {
    if Verdict(v, e.record) == Yes then [PutRow(e.key, e.record.value)]
    else if Verdict(v, e.before) == Yes then [RemoveRow(e.key)]
    else []
  }

  /** Some condition of the view is refused on a record of the event. */
  predicate Breaks(v: View, e: Event) {
    e.key.collection == v.collection && (Verdict(v, e.before) == Refused || Verdict(v, e.record) == Refused)
  }

  function Deltas(v: View, es: seq<Event>): seq<Delta> {
    if es == [] then []
    else
      var e := es[|es| - 1];
      Deltas(v, es[..|es| - 1]) + (if e.key.collection == v.collection then DeltaOf(v, e) else [])
  }

  /** A client applies a change to its copy. */
  function Patch(rows: Content, d: Delta): Content {
    match d
    case PutRow(k, r) => rows[k := r]
    case RemoveRow(k) => rows - {k}
  }

  function PatchAll(rows: Content, ds: seq<Delta>): Content {
    if ds == [] then rows else Patch(PatchAll(rows, ds[..|ds| - 1]), ds[|ds| - 1])
  }

  lemma DeltasNext(v: View, es: seq<Event>, i: nat)
    requires i < |es|
    ensures Deltas(v, es[..i + 1]) ==
      Deltas(v, es[..i]) + (if es[i].key.collection == v.collection then DeltaOf(v, es[i]) else [])
  {
    assert es[..i + 1][..i] == es[..i];
  }

  // ---------------------------------------------------------------- what the calls answer

  /** There is a record, of the view's collection, and it satisfies the query. */
  ghost predicate Wanted(v: View, k: Key, r: Option<Record>) {
    r.Some? && k.collection == v.collection && Satisfies(r.value.AsJson(), v.where)
  }

  /** The view over content s: its collection's records that satisfy the query. */
  ghost function ViewOf(v: View, s: Content): Content {
    map k | k in s && Wanted(v, k, Some(s[k])) :: s[k]
  }

  /** The delta says what the event did to the view: the record it put there, or that it took the record away. */
  ghost predicate Tells(v: View, d: Delta, e: Event) {
    match d
    case PutRow(k, r) => k == e.key && e.record == Some(r) && Wanted(v, k, e.record)
    case RemoveRow(k) => k == e.key && !Wanted(v, k, e.record) && Wanted(v, k, e.before)
  }

  /** The record was not in the view before the event and is not in it after. */
  ghost predicate Outside(v: View, e: Event) {
    !Wanted(v, e.key, e.record) && !Wanted(v, e.key, e.before)
  }

  /**
   * The deltas are told by the events at these places, in order, and the events at other places do not touch the view.
   */
  ghost predicate ToldAt(v: View, ds: seq<Delta>, es: seq<Event>, at: seq<nat>) {
    && |at| == |ds|
    && (forall i :: 0 <= i < |at| ==> at[i] < |es| && Tells(v, ds[i], es[at[i]]))
    && (forall i, j :: 0 <= i < j < |at| ==> at[i] < at[j])
    && forall j: nat :: j < |es| && j !in at ==> Outside(v, es[j])
  }

  /** One delta for each event that touches the view, in the order of the events. */
  ghost predicate Serves(v: View, ds: seq<Delta>, es: seq<Event>) {
    exists at: seq<nat> :: ToldAt(v, ds, es, at)
  }

  lemma VerdictIs(v: View, k: Key, r: Option<Record>)
    requires Verdict(v, r) != Refused && k.collection == v.collection
    ensures Verdict(v, r) == Yes <==> Wanted(v, k, r)
  {
    hide Matches, Satisfies;
    if r.Some? {
      MatchesIff(r.value.AsJson(), v.where);
    }
  }

  lemma ToldNext(v: View, ds: seq<Delta>, es: seq<Event>, at: seq<nat>, e: Event)
    requires ToldAt(v, ds, es, at) && !Breaks(v, e)
    ensures e.key.collection != v.collection ==> ToldAt(v, ds, es + [e], at)
    ensures e.key.collection == v.collection ==>
      var d := DeltaOf(v, e);
      if d == [] then ToldAt(v, ds, es + [e], at) else ToldAt(v, ds + d, es + [e], at + [|es|])
  {
    hide Verdict, Satisfies;
    if e.key.collection == v.collection {
      VerdictIs(v, e.key, e.record);
      VerdictIs(v, e.key, e.before);
      assert Verdict(v, e.record) == Yes ==> e.record.Some?;
      assert DeltaOf(v, e) == [] ==> Outside(v, e);
      assert DeltaOf(v, e) != [] ==> |DeltaOf(v, e)| == 1 && Tells(v, DeltaOf(v, e)[0], e);
    }
    hide Tells, Outside, DeltaOf;
  }

  /** `syncViewChanges`. */
  method SyncViewChanges(v: View, changes: seq<Event>, sequence: nat, after: nat) returns (reply: Reply<seq<Delta>>)
    ensures reply.Expired? <==> !Resumable(changes, sequence, after)
    ensures reply.Malformed? <==> !reply.Expired? && exists e :: e in ChangesSince(changes, after) && Breaks(v, e)
    ensures !reply.TooLarge?
    ensures reply.Answer? ==>
      && Serves(v, reply.value, ChangesSince(changes, after))
      && reply.value == Deltas(v, ChangesSince(changes, after))
  {
    hide *;
    if !Resumable(changes, sequence, after) {
      return Expired;
    }
    var events := ChangesSince(changes, after);
    reply := Collect(v, events);
  }

  method Collect(v: View, events: seq<Event>) returns (reply: Reply<seq<Delta>>)
    ensures reply.Malformed? <==> exists e :: e in events && Breaks(v, e)
    ensures reply.Malformed? || reply == Answer(Deltas(v, events))
    ensures reply.Answer? ==> Serves(v, reply.value, events)
  {
    hide Breaks, DeltaOf, Deltas, ToldAt;
    var deltas := [];
    ghost var at: seq<nat> := [];
    DeltasNone(v);
    ToldNone(v);
    for i := 0 to |events|
      invariant deltas == Deltas(v, events[..i]) && ToldAt(v, deltas, events[..i], at)
      invariant forall j :: 0 <= j < i ==> !Breaks(v, events[j])
    {
      var e := events[i];
      DeltasNext(v, events, i);
      if Breaks(v, e) {
        return Malformed;
      }
      ToldNext(v, deltas, events[..i], at, e);
      assert events[..i] + [e] == events[..i + 1] && |events[..i]| == i;
      assert deltas + [] == deltas;
      if e.key.collection == v.collection {
        deltas := deltas + DeltaOf(v, e);
        at := if DeltaOf(v, e) == [] then at else at + [i];
      }
    }
    assert events[..|events|] == events;
    return Answer(deltas);
  }

  lemma ToldNone(v: View)
    ensures ToldAt(v, [], [], [])
  {
  }

  lemma DeltasNone(v: View)
    ensures Deltas(v, []) == []
  {
  }

  predicate Refuses(v: View, s: Content, k: Key) {
    k in s && k.collection == v.collection && Matches(s[k].AsJson(), v.where) == Refused
  }

  predicate InView(v: View, s: Content, k: Key) {
    k in s && k.collection == v.collection && Matches(s[k].AsJson(), v.where) == Yes
  }

  lemma RowsStep(v: View, s: Content, todo: set<Key>, k: Key)
    requires k in todo && k in s
    ensures Rows(v, s) - (todo - {k}) == if InView(v, s, k) then (Rows(v, s) - todo)[k := s[k]] else Rows(v, s) - todo
  {
    hide Matches;
  }

  lemma RowsEnds(v: View, s: Content)
    ensures Rows(v, s) - s.Keys == map[] && Rows(v, s) - {} == Rows(v, s)
  {
    hide Matches;
  }

  /** Unless a record is refused, the rows are the view. */
  lemma RowsAre(v: View, s: Content)
    requires forall k :: !Refuses(v, s, k)
    ensures Rows(v, s) == ViewOf(v, s)
  {
    hide Matches, Satisfies;
    forall k | k in s && k.collection == v.collection
      ensures Matches(s[k].AsJson(), v.where) == Yes <==> Wanted(v, k, Some(s[k]))
    {
      assert !Refuses(v, s, k);
      MatchesIff(s[k].AsJson(), v.where);
    }
  }

  /** `materializeSyncView`. */
  method Materialize(v: View, s: Content) returns (reply: Reply<Content>)
    ensures reply.Malformed? <==> exists k :: Refuses(v, s, k)
    ensures reply.TooLarge? <==> !reply.Malformed? && |ViewOf(v, s)| > v.maxDocuments
    ensures !reply.Expired? && (reply.Answer? ==> reply.value == ViewOf(v, s) == Rows(v, s))
  {
    hide Matches, Rows, ViewOf;
    RowsEnds(v, s);
    var todo, rows: Content := s.Keys, map[];
    while todo != {}
      invariant todo <= s.Keys
      invariant rows == Rows(v, s) - todo
      invariant forall k :: k in s && k !in todo ==> !Refuses(v, s, k)
      decreases todo
    {
      var k :| k in todo;
      RowsStep(v, s, todo, k);
      if Refuses(v, s, k) {
        return Malformed;
      }
      if InView(v, s, k) {
        rows := rows[k := s[k]];
      }
      todo := todo - {k};
    }
    RowsAre(v, s);
    return if |rows| > v.maxDocuments then TooLarge else Answer(rows);
  }

  lemma PatchAppend(rows: Content, a: seq<Delta>, b: seq<Delta>)
    requires |b| <= 1
    ensures PatchAll(rows, a + b) == if b == [] then PatchAll(rows, a) else Patch(PatchAll(rows, a), b[0])
  {
    if b == [] {
      assert a + b == a;
    } else {
      assert (a + b)[..|a|] == a;
    }
  }

  /** One event with a true before-image takes the view to the view of the next content. */
  lemma PatchOne(v: View, s: Content, e: Event)
    requires e.before == Lookup(s, e.key) && !Breaks(v, e)
    ensures var ds := if e.key.collection == v.collection then DeltaOf(v, e) else [];
      Rows(v, StorageCore.Apply(s, e)) == if ds == [] then Rows(v, s) else Patch(Rows(v, s), ds[0])
  {
    hide Matches;
  }

  lemma {:induction false} PatchEvents(v: View, s: Content, es: seq<Event>)
    requires TrueBefores(s, es) && forall e :: e in es ==> !Breaks(v, e)
    ensures PatchAll(Rows(v, s), Deltas(v, es)) == Rows(v, Fold(s, es))
  {
    hide Rows, DeltaOf, Breaks, StorageCore.Apply;
    if es != [] {
      var init, e := es[..|es| - 1], es[|es| - 1];
      TrueBeforesInit(s, es);
      PatchEvents(v, s, init);
      PatchOne(v, Fold(s, init), e);
      var ds := if e.key.collection == v.collection then DeltaOf(v, e) else [];
      DeltaShort(v, e);
      PatchAppend(Rows(v, s), Deltas(v, init), ds);
    }
  }

  lemma DeltaShort(v: View, e: Event)
    ensures |DeltaOf(v, e)| <= 1
  {
  }

  /**
   * Applying the changes served after `after`, in order, to the view as it was at `after` gives the view now, for every
   * history and every cursor the call accepts that is not ahead of the database.
   */
  lemma SyncExact(config: Config, h: seq<Commit>, v: View, after: nat)
    requires HistoryOk(config, h) && config.retention >= 1 && after <= |Log(h)|
    requires Resumable(MetaOf(config, h).changes, MetaOf(config, h).sequence, after)
    requires forall e :: e in Log(h)[after..] ==> !Breaks(v, e)
    ensures PatchAll(Rows(v, Fold(map[], Log(h)[..after])),
      Deltas(v, ChangesSince(MetaOf(config, h).changes, after))) == Rows(v, State(h))
  {
    hide HistoryOk, Log, Fold, Rows, Breaks, Deltas, Numbered, Resumable, ChangesSince, LastN, MetaOf;
    MetaLog(config, h);
    ResumableIff(Log(h), config.retention, after);
    LaterBefores(Log(h), after);
    PatchEvents(v, Fold(map[], Log(h)[..after]), Log(h)[after..]);
  }
}
