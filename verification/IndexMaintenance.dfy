/**
 * `PersistentDocumentIndex` and the catch-up of `SuperiorIndexedSyncioDatabase` in src/superior-indexed.js: the bucket
 * cache, the dirty buckets of one event, rebuilding, and what an index shows after any restart.
 */
module IndexMaintenance {
  import opened Basics
  import opened Json
  import opened CanonicalKeys
  import opened Documents
  import opened QueryMeaning
  import opened Transactions
  import opened StorageCore
  import opened CommitLog
  import opened StorageRecovery
  import opened EventLog
  import S = SecondaryIndex

  type Files = S.Files

  class PersistentDocumentIndex {
    const definition: S.Definition
    const bucketOf: string -> string
    var files: Files
    var cache: Files
    var sequence: nat

    ghost predicate Valid()
      reads this
    {
      forall n :: n in cache ==> cache[n] == S.BucketAt(files, n)
    }

    constructor (definition: S.Definition, bucketOf: string -> string, files: Files, sequence: nat)
      ensures Valid() && this.definition == definition && this.bucketOf == bucketOf && this.files == files &&
        this.sequence == sequence
    {
      this.definition, this.bucketOf, this.files, this.sequence := definition, bucketOf, files, sequence;
      cache := map[];
    }

    /** `loadBucket`; which other buckets stay cached is left open. */
    method LoadBucket(name: string) returns (bucket: S.Bucket)
      requires Valid()
      modifies this`cache
      ensures Valid() && bucket == S.BucketAt(files, name)
    {
      bucket := if name in cache then cache[name] else if name in files then files[name] else map[];
      var kept: set<string> := *;
      cache := map n | n in cache[name := bucket] && (n == name || n in kept) :: cache[name := bucket][n];
    }

    method AddToBucket(record: Record, dirty: Files) returns (dirty': Files)
      requires Valid()
      modifies this`cache
      ensures Valid() && files + dirty' == S.Add(files + dirty, bucketOf, S.KeyOf(definition, record), record.id)
    {
      hide S.KeyOf;
      var key := S.KeyOf(definition, record);
      if key.None? {
        return dirty;
      }
      var name := bucketOf(key.value);
      var bucket: S.Bucket;
      if name in dirty {
        bucket := dirty[name];
      } else {
        bucket := LoadBucket(name);
      }
      dirty' := dirty[name := S.Added(bucket, key.value, record.id)];
    }

    method RemoveFromBucket(record: Record, dirty: Files) returns (dirty': Files)
      requires Valid()
      modifies this`cache
      ensures Valid() && files + dirty' == S.Remove(files + dirty, bucketOf, S.KeyOf(definition, record), record.id)
    {
      hide S.KeyOf;
      var key := S.KeyOf(definition, record);
      if key.None? {
        return dirty;
      }
      var name := bucketOf(key.value);
      var bucket: S.Bucket;
      if name in dirty {
        bucket := dirty[name];
      } else {
        bucket := LoadBucket(name);
      }
      dirty' := dirty[name := S.Removed(bucket, key.value, record.id)];
    }

    /** One file per dirty bucket; a crash in between leaves some of them written. */
    method PersistBuckets(dirty: Files)
      requires Valid()
      modifies this`files, this`cache
      ensures Valid() && files == old(files) + dirty
    {
      var todo := dirty.Keys;
      ghost var before := files;
      while todo != {}
        invariant Valid() && todo <= dirty.Keys
        invariant files == before + (dirty - todo)
        invariant S.Between(files, before, before + dirty)
        decreases todo
      {
        var n :| n in todo;
        WriteOne(before, dirty, todo, n);
        files, cache := files[n := dirty[n]], cache[n := dirty[n]];
        todo := todo - {n};
      }
      assert dirty - {} == dirty;
    }

    /** `apply`. */
    method Apply(id: string, before: Option<Record>, after: Option<Record>, at: nat)
      requires Valid()
      requires (before.Some? ==> before.value.id == id) && (after.Some? ==> after.value.id == id)
      modifies this
      ensures Valid()
      ensures files == S.Apply(old(files), bucketOf, definition, id, before, after)
      ensures sequence == if at > old(sequence) then at else old(sequence)
    {
      hide S.Add, S.Remove, S.KeyOf;
      var dirty: Files := map[];
      assert files + dirty == files;
      if before.Some? {
        dirty := RemoveFromBucket(before.value, dirty);
      } else {
        NothingFiled(files, bucketOf, id);
      }
      if after.Some? {
        dirty := AddToBucket(after.value, dirty);
      } else {
        NothingFiled(files + dirty, bucketOf, id);
      }
      PersistBuckets(dirty);
      sequence := if at > sequence then at else sequence;
    }

    /** `rebuild`, from the records of a scan. */
    method Rebuild(c: string, records: map<string, Record>, at: nat)
      requires forall id :: id in records ==> records[id].id == id
      modifies this
      ensures Valid() && sequence == at
      ensures S.Right(files, bucketOf, definition, c, AsContent(c, records))
    {
      files, cache := map[], map[];
      var dirty: Files := map[];
      var todo := records.Keys;
      RebuildNone(bucketOf, definition, c, records, files + dirty);
      hide S.Right, S.Add, Valid;
      assert Valid() by { Empty(); }
      while todo != {}
        invariant Valid() && files == map[] && todo <= records.Keys
        invariant S.Right(files + dirty, bucketOf, definition, c, Slice(c, records, todo))
        decreases todo
      {
        var id :| id in todo;
        RebuildOne(files + dirty, bucketOf, definition, c, records, todo, id);
        dirty := AddToBucket(records[id], dirty);
        todo := todo - {id};
      }
      RebuildAll(c, records);
      PersistBuckets(dirty);
      sequence := at;
    }

    /** `find`. */
    method Find(values: seq<Json>) returns (ids: set<string>)
      requires Valid()
      modifies this`cache
      ensures Valid() && ids == S.Find(files, bucketOf, definition, values)
    {
      hide StableKey;
      if definition.sparse && Undefined in values {
        return {};
      }
      var key := StableKey(values);
      var bucket := LoadBucket(bucketOf(key));
      ids := S.IdsIn(bucket, key);
    }

    lemma Empty()
      requires cache == map[]
      ensures Valid()
    {
    }
  }

  lemma WriteOne(before: Files, dirty: Files, todo: set<string>, n: string)
    requires n in todo && n in dirty
    ensures (before + (dirty - todo))[n := dirty[n]] == before + (dirty - (todo - {n}))
  {
  }

  lemma NothingFiled(files: Files, bucketOf: string -> string, id: string)
    ensures S.Remove(files, bucketOf, None, id) == files && S.Add(files, bucketOf, None, id) == files
  {
  }

  /** A listing of collection c as content. */
  function AsContent(c: string, records: map<string, Record>): Content {
    map id | id in records :: Key(c, id) := records[id]
  }

  /** The records of c already filed by a rebuild. */
  function Slice(c: string, records: map<string, Record>, todo: set<string>): Content {
    map id | id in records && id !in todo :: Key(c, id) := records[id]
  }

  lemma RebuildNone(bucketOf: string -> string, d: S.Definition, c: string, records: map<string, Record>, files: Files)
    requires files == map[]
    ensures S.Right(files, bucketOf, d, c, Slice(c, records, records.Keys))
  {
  }

  lemma RebuildAll(c: string, records: map<string, Record>)
    ensures Slice(c, records, {}) == AsContent(c, records)
  {
  }

  lemma RebuildOne(files: Files, bucketOf: string -> string, d: S.Definition, c: string, records: map<string, Record>,
                   todo: set<string>, id: string)
    requires S.Right(files, bucketOf, d, c, Slice(c, records, todo)) && id in todo && id in records
    ensures S.Right(S.Add(files, bucketOf, S.KeyOf(d, records[id]), id), bucketOf, d, c, Slice(c, records, todo - {id}))
  {
    hide S.Ids, S.KeyOf, S.Add;
    var s, t := Slice(c, records, todo), Slice(c, records, todo - {id});
    var g := S.Add(files, bucketOf, S.KeyOf(d, records[id]), id);
    forall key, x ensures x in S.Ids(g, bucketOf, key) <==> Key(c, x) in t && S.KeyOf(d, t[Key(c, x)]) == Some(key) {
      S.AddAt(files, bucketOf, S.KeyOf(d, records[id]), id, key);
      assert x in S.Ids(files, bucketOf, key) <==> Key(c, x) in s && S.KeyOf(d, s[Key(c, x)]) == Some(key);
      assert Key(c, x) in s <==> x in records && x !in todo;
      assert Key(c, x) in t <==> x in records && x !in todo - {id};
    }
  }

  // ---------------------------------------------------------------- restarting

  /**
   * What a restart can find: the index was right at the sequence in its manifest, and some of the bucket writes of the
   * collection's next event may have reached the disk.
   */
  ghost predicate Interrupted(files: Files, bucketOf: string -> string, d: S.Definition, c: string, es: seq<Event>,
                              at: nat) {
    at <= |es| && exists before: Files ::
      S.Right(before, bucketOf, d, c, Fold(map[], es[..at])) &&
        (files == before || MidEvent(files, before, bucketOf, d, c, es[at..]))
  }

  ghost predicate MidEvent(files: Files, before: Files, bucketOf: string -> string, d: S.Definition, c: string,
                           es: seq<Event>) {
    exists n: nat ::
      S.First(es, c, n) &&
      S.Between(files, before, S.Apply(before, bucketOf, d, es[n].key.id, es[n].before, es[n].record))
  }

  lemma RightAlike(f: Files, g: Files, bucketOf: string -> string, d: S.Definition, c: string, s: Content)
    requires S.Right(g, bucketOf, d, c, s) && S.Alike(f, g, bucketOf)
    ensures S.Right(f, bucketOf, d, c, s)
  {
    hide S.Ids, S.KeyOf;
    forall key, id
      ensures id in S.Ids(f, bucketOf, key) <==> Key(c, id) in s && S.KeyOf(d, s[Key(c, id)]) == Some(key)
    {
      assert S.Ids(f, bucketOf, key) == S.Ids(g, bucketOf, key);
    }
  }

  /** Applying every later event makes an interrupted index right for the whole log. */
  lemma CaughtUp(files: Files, bucketOf: string -> string, d: S.Definition, c: string, es: seq<Event>, at: nat)
    requires Interrupted(files, bucketOf, d, c, es, at) && TrueBefores(map[], es)
    ensures S.Right(S.ApplyEvents(files, bucketOf, d, c, es[at..]), bucketOf, d, c, Fold(map[], es))
  {
    hide S.Right, S.Apply, S.Alike, S.Between, Fold, S.ApplyEvents;
    var before: Files :| S.Right(before, bucketOf, d, c, Fold(map[], es[..at]))
      && (files == before || MidEvent(files, before, bucketOf, d, c, es[at..]));
    var later := es[at..];
    assert es == es[..at] + later;
    LaterBefores(es, at);
    S.ApplyEventsRight(before, bucketOf, d, c, Fold(map[], es[..at]), later);
    if files != before {
      var n: nat :|
        S.First(later, c, n) &&
        S.Between(files, before, S.Apply(before, bucketOf, d, later[n].key.id, later[n].before, later[n].record));
      S.CatchUpFromBetween(files, before, bucketOf, d, c, later, n);
      RightAlike(S.ApplyEvents(files, bucketOf, d, c, later), S.ApplyEvents(before, bucketOf, d, c, later), bucketOf, d,
        c, Fold(map[], es));
    }
  }

  /** The records of one collection, as `scan` lists them. */
  function Scan(s: Content, c: string): map<string, Record>
    requires ContentKeyed(s)
  {
    map k | k in s && k.collection == c :: k.id := s[k]
  }

  lemma ScanIs(s: Content, c: string)
    requires ContentKeyed(s)
    ensures forall id :: id in Scan(s, c) <==> Key(c, id) in s
    ensures forall id :: id in Scan(s, c) ==> Scan(s, c)[id] == s[Key(c, id)] && Scan(s, c)[id].id == id
  {
    assert forall k :: k in s && k.collection == c ==> k == Key(c, k.id);
  }

  /** The loop of `catchUpIndex` over the events of one collection. */
  method ApplyChanges(index: PersistentDocumentIndex, c: string, changes: seq<Event>)
    requires index.Valid()
    requires forall e :: e in changes ==> EventKeyed(e) && (e.before.Some? ==> e.before.value.id == e.key.id)
    modifies index
    ensures index.Valid()
    ensures index.files == S.ApplyEvents(old(index.files), index.bucketOf, index.definition, c, changes)
  {
    hide S.Apply;
    for i := 0 to |changes|
      invariant index.Valid()
      invariant index.files == S.ApplyEvents(old(index.files), index.bucketOf, index.definition, c, changes[..i])
    {
      var e := changes[i];
      assert changes[..i + 1][..i] == changes[..i];
      assert e in changes;
      if e.key.collection == c {
        index.Apply(e.key.id, e.before, e.record, e.sequence);
      }
    }
    assert changes[..|changes|] == changes;
  }

  /**
   * `catchUpIndex`: an index left behind by any restart, even among the bucket writes of an event, ends right for the
   * committed state, by the retained changes when they reach back far enough and by a rebuild when they do not. Of an
   * index whose manifest is too old for the retained changes, or ahead of them, nothing is asked at all.
   */
  method CatchUp(index: PersistentDocumentIndex, c: string, changes: seq<Event>, sequence: nat,
                 records: map<string, Record>,
                 ghost config: Config, ghost h: seq<Commit>)
    requires index.Valid() && HistoryOk(config, h) && config.retention >= 1
    requires sequence == MetaOf(config, h).sequence && changes == MetaOf(config, h).changes
    requires ContentKeyed(State(h)) && records == Scan(State(h), c)
    requires index.sequence <= sequence && Resumable(changes, sequence, index.sequence) ==>
      Interrupted(index.files, index.bucketOf, index.definition, c, Log(h), index.sequence)
    modifies index
    ensures index.Valid() && index.sequence == sequence
    ensures S.Right(index.files, index.bucketOf, index.definition, c, State(h))
  {
    hide HistoryOk, MetaOf, S.Right, Interrupted, S.ApplyEvents, Log, State, ContentKeyed, Scan, Resumable,
      ChangesSince, SameIn;
    MetaLog(config, h);
    ScanOf(h, c, records);
    if index.sequence == sequence {
      ResumableAtEnd(changes, sequence);
      UpToDate(index.files, index.bucketOf, index.definition, c, h, sequence);
    } else if index.sequence > sequence || !Resumable(changes, sequence, index.sequence) {
      index.Rebuild(c, records, sequence);
      RightIn(index.files, index.bucketOf, index.definition, c, AsContent(c, records), State(h));
    } else {
      SinceAt(config, h, changes, sequence, index.sequence);
      CaughtUpTo(index.files, index.bucketOf, index.definition, c, h, index.sequence);
      ApplyChanges(index, c, ChangesSince(changes, index.sequence));
      index.sequence := sequence;
    }
  }

  lemma ResumableAtEnd(changes: seq<Event>, sequence: nat)
    ensures Resumable(changes, sequence, sequence)
  {
  }

  lemma ScanOf(h: seq<Commit>, c: string, records: map<string, Record>)
    requires ContentKeyed(State(h)) && records == Scan(State(h), c)
    ensures forall id :: id in records ==> records[id].id == id
    ensures SameIn(AsContent(c, records), State(h), c)
  {
    hide State;
    ScanIs(State(h), c);
  }

  ghost predicate SameIn(s: Content, t: Content, c: string) {
    forall id :: Lookup(s, Key(c, id)) == Lookup(t, Key(c, id))
  }

  lemma RightIn(files: Files, bucketOf: string -> string, d: S.Definition, c: string, s: Content, t: Content)
    requires S.Right(files, bucketOf, d, c, s) && SameIn(s, t, c)
    ensures S.Right(files, bucketOf, d, c, t)
  {
    hide S.Ids, S.KeyOf;
    forall key, id
      ensures id in S.Ids(files, bucketOf, key) <==> Key(c, id) in t && S.KeyOf(d, t[Key(c, id)]) == Some(key)
    {
      assert Lookup(s, Key(c, id)) == Lookup(t, Key(c, id));
    }
  }

  lemma UpToDate(files: Files, bucketOf: string -> string, d: S.Definition, c: string, h: seq<Commit>, sequence: nat)
    requires sequence == |Log(h)| && Interrupted(files, bucketOf, d, c, Log(h), sequence)
    ensures S.Right(files, bucketOf, d, c, State(h))
  {
    hide S.Right, Log, S.Apply, S.Between;
    assert Log(h)[..sequence] == Log(h);
    assert Log(h)[sequence..] == [];
  }

  lemma CaughtUpTo(files: Files, bucketOf: string -> string, d: S.Definition, c: string, h: seq<Commit>, at: nat)
    requires Interrupted(files, bucketOf, d, c, Log(h), at) && TrueBefores(map[], Log(h))
    ensures at <= |Log(h)| && S.Right(S.ApplyEvents(files, bucketOf, d, c, Log(h)[at..]), bucketOf, d, c, State(h))
  {
    hide S.Right, Log, MidEvent, S.ApplyEvents, TrueBefores;
    CaughtUp(files, bucketOf, d, c, Log(h), at);
  }

  lemma SinceAt(config: Config, h: seq<Commit>, changes: seq<Event>, sequence: nat, at: nat)
    requires HistoryOk(config, h) && config.retention >= 1 && at <= sequence == |Log(h)| &&
      changes == LastN(Log(h), config.retention)
    requires Numbered(Log(h), 0) && TrueBefores(map[], Log(h)) && Resumable(changes, sequence, at)
    ensures ChangesSince(changes, at) == Log(h)[at..]
    ensures forall e :: e in Log(h)[at..] ==> EventKeyed(e) && (e.before.Some? ==> e.before.value.id == e.key.id)
  {
    hide HistoryOk, Log, LastN, EventKeyed, Fold, Numbered, Resumable, ChangesSince;
    ResumableIff(Log(h), config.retention, at);
    LogKeyed(config, h);
    forall e | e in Log(h)[at..] ensures EventKeyed(e) && (e.before.Some? ==> e.before.value.id == e.key.id) {
      var i: nat :| i < |Log(h)| && Log(h)[i] == e;
      BeforeKeyed(Log(h), i);
    }
  }

  lemma BeforeKeyed(es: seq<Event>, i: nat)
    requires i < |es| && TrueBefores(map[], es) && forall e :: e in es ==> EventKeyed(e)
    ensures es[i].before.Some? ==> es[i].before.value.id == es[i].key.id
  {
    hide Fold, LastOn;
    assert TrueBefore(map[], es, i);
    FoldAt(map[], es[..i], es[i].key);
    LastOnSome(es[..i], es[i].key);
    var last := LastOn(es[..i], es[i].key);
    if last.Some? {
      assert last.value in es;
      assert EventKeyed(last.value);
    }
  }

  /** Keeps the ids of those candidates whose records match, as `queryRecords` does. */
  method Filtered(c: string, s: Content, candidates: set<string>, q: Query) returns (ids: set<string>)
    ensures forall id :: id in ids <==> id in candidates && S.Shows(s, c, id, q)
  {
    hide Matches;
    var todo := candidates;
    ids := {};
    while todo != {}
      invariant todo <= candidates
      invariant forall id :: id in ids <==> id in candidates - todo && S.Shows(s, c, id, q)
      decreases todo
    {
      var id :| id in todo;
      if S.Shows(s, c, id, q) {
        ids := ids + {id};
      }
      todo := todo - {id};
    }
  }

  /** `query` without order or limits: on the planned index or by a scan, the same records. */
  method RunQuery(index: PersistentDocumentIndex, defs: seq<S.Definition>, c: string, s: Content, q: Query)
    returns (ids: set<string>)
    requires index.Valid() && ContentKeyed(s)
    requires S.Plan(defs, q).Some? ==> S.Plan(defs, q).value == index.definition
    requires S.Right(index.files, index.bucketOf, index.definition, c, s) && S.Decided(s, c, index.definition)
    requires "" !in index.definition.fields
    modifies index`cache
    ensures forall id :: id in ids <==> S.Shows(s, c, id, q)
    ensures forall id :: Key(c, id) !in s ==> id !in ids
    ensures forall id :: Key(c, id) in s && Matches(s[Key(c, id)].AsJson(), q) != Refused ==>
      (id in ids <==> Satisfies(s[Key(c, id)].AsJson(), q))
  {
    hide S.Right, S.Find, S.Decided, Matches, S.Simple;
    var plan := S.Plan(defs, q);
    if plan.Some? {
      S.IndexEqualsScan(index.files, index.bucketOf, index.definition, c, s, q);
      var found := index.Find(S.PlannedValues(index.definition.fields, q));
      ids := Filtered(c, s, found, q);
    } else {
      ScanIs(s, c);
      ids := Filtered(c, s, Scan(s, c).Keys, q);
    }
    hide Satisfies;
    forall id | Key(c, id) in s && Matches(s[Key(c, id)].AsJson(), q) != Refused
      ensures S.Shows(s, c, id, q) <==> Satisfies(s[Key(c, id)].AsJson(), q)
    {
      MatchesIff(s[Key(c, id)].AsJson(), q);
    }
  }

  // ---------------------------------------------------------------- one commit larger than the retained log

  ghost predicate BeforesFrom(s: Content, es: seq<Event>) {
    DistinctKeys(es) && forall e :: e in es ==> e.before == Lookup(s, e.key)
  }

  /**
   * After one commit's events, an id is filed under its last record if an event reached it, and as before if none did.
   */
  lemma {:induction false} FiledAfter(f: Files, bucketOf: string -> string, d: S.Definition, c: string, s: Content,
                                      es: seq<Event>, k: string, id: string)
    requires S.Right(f, bucketOf, d, c, s) && BeforesFrom(s, es)
    ensures id in S.Ids(S.ApplyEvents(f, bucketOf, d, c, es), bucketOf, k) <==>
      var last := LastOn(es, Key(c, id));
      if last.Some? then S.Keyed(d, last.value.record) == Some(k) else id in S.Ids(f, bucketOf, k)
  {
    hide S.Apply, S.Ids, S.KeyOf;
    if es != [] {
      var init, e := es[..|es| - 1], es[|es| - 1];
      assert es == init + [e];
      FiledAfter(f, bucketOf, d, c, s, init, k, id);
      if e.key == Key(c, id) {
        LastOnSome(init, e.key);
        S.ApplyAt(S.ApplyEvents(f, bucketOf, d, c, init), bucketOf, d, id, e.before, e.record, k);
        assert e in es;
        assert id in S.Ids(f, bucketOf, k) <==> Key(c, id) in s && S.KeyOf(d, s[Key(c, id)]) == Some(k);
      } else if e.key.collection == c {
        S.ApplyAt(S.ApplyEvents(f, bucketOf, d, c, init), bucketOf, d, e.key.id, e.before, e.record, k);
        assert Key(c, e.key.id) == e.key;
      }
    }
  }

  /** A dropped event does not matter to the index when it leaves its record under the same key. */
  ghost predicate Harmless(d: S.Definition, c: string, e: Event) {
    e.key.collection == c ==> S.Keyed(d, e.before) == S.Keyed(d, e.record)
  }

  /**
   * `applyCommittedIndexChanges` after one commit reads the commit's events from the retained log, which may already
   * have dropped the first n of them. Exactly when the index is right all the same.
   */
  lemma TrimmedCommitIndexedIff(f: Files, bucketOf: string -> string, d: S.Definition, c: string, s: Content,
                                es: seq<Event>, n: nat)
    requires S.Right(f, bucketOf, d, c, s) && BeforesFrom(s, es) && n <= |es|
    ensures S.Right(S.ApplyEvents(f, bucketOf, d, c, es[n..]), bucketOf, d, c, Fold(s, es)) <==>
      forall i :: 0 <= i < n ==> Harmless(d, c, es[i])
  {
    hide S.Apply, S.ApplyEvents, S.Ids, S.KeyOf, Fold, LastOn;
    var g := S.ApplyEvents(f, bucketOf, d, c, es[n..]);
    var t := Fold(s, es);
    if S.Right(g, bucketOf, d, c, t) {
      forall i | 0 <= i < n ensures Harmless(d, c, es[i]) {
        if es[i].key.collection == c {
          DroppedIsHarmless(f, g, bucketOf, d, c, s, es, n, i);
        }
      }
    }
    if forall i :: 0 <= i < n ==> Harmless(d, c, es[i]) {
      forall k, id ensures id in S.Ids(g, bucketOf, k) <==> Key(c, id) in t && S.KeyOf(d, t[Key(c, id)]) == Some(k) {
        HarmlessFiled(f, bucketOf, d, c, s, es, n, k, id);
      }
    }
  }

  lemma SuffixBefores(s: Content, es: seq<Event>, n: nat)
    requires BeforesFrom(s, es) && n <= |es|
    ensures BeforesFrom(s, es[n..])
  {
    assert forall e :: e in es[n..] ==> e in es;
  }

  lemma DroppedIsHarmless(f: Files, g: Files, bucketOf: string -> string, d: S.Definition, c: string, s: Content,
                          es: seq<Event>, n: nat, i: nat)
    requires S.Right(f, bucketOf, d, c, s) && BeforesFrom(s, es) && i < n <= |es| && es[i].key.collection == c
    requires g == S.ApplyEvents(f, bucketOf, d, c, es[n..]) && S.Right(g, bucketOf, d, c, Fold(s, es))
    ensures S.Keyed(d, es[i].before) == S.Keyed(d, es[i].record)
  {
    hide S.ApplyEvents, S.Ids, S.KeyOf, Fold, LastOn;
    var e, id := es[i], es[i].key.id;
    assert e in es && Key(c, id) == e.key;
    SuffixBefores(s, es, n);
    LastOnSome(es[n..], e.key);
    LastOnSome(es, e.key);
    FoldAt(s, es, e.key);
    OnlyOne(es, i, LastOn(es, e.key).value);
    forall k ensures S.Keyed(d, e.before) == Some(k) <==> S.Keyed(d, e.record) == Some(k) {
      FiledAfter(f, bucketOf, d, c, s, es[n..], k, id);
      assert id in S.Ids(f, bucketOf, k) <==> Key(c, id) in s && S.KeyOf(d, s[Key(c, id)]) == Some(k);
      assert id in S.Ids(g, bucketOf, k) <==>
        Key(c, id) in Fold(s, es) && S.KeyOf(d, Fold(s, es)[Key(c, id)]) == Some(k);
    }
    SameKeys(S.Keyed(d, e.before), S.Keyed(d, e.record));
  }

  lemma SameKeys(a: Option<string>, b: Option<string>)
    requires forall k :: a == Some(k) <==> b == Some(k)
    ensures a == b
  {
    assert a.Some? ==> b == Some(a.value);
    assert b.Some? ==> a == Some(b.value);
  }

  lemma OnlyOne(es: seq<Event>, i: nat, e: Event)
    requires DistinctKeys(es) && i < |es| && e in es && e.key == es[i].key
    ensures e == es[i]
  {
  }

  lemma HarmlessFiled(f: Files, bucketOf: string -> string, d: S.Definition, c: string, s: Content, es: seq<Event>,
                      n: nat, k: string, id: string)
    requires S.Right(f, bucketOf, d, c, s) && BeforesFrom(s, es) && n <= |es|
    requires forall i :: 0 <= i < n ==> Harmless(d, c, es[i])
    ensures var t := Fold(s, es);
      id in S.Ids(S.ApplyEvents(f, bucketOf, d, c, es[n..]), bucketOf, k) <==>
        Key(c, id) in t && S.KeyOf(d, t[Key(c, id)]) == Some(k)
  {
    hide S.ApplyEvents, S.Ids, S.KeyOf, Fold, LastOn;
    SuffixBefores(s, es, n);
    FiledAfter(f, bucketOf, d, c, s, es[n..], k, id);
    FoldAt(s, es, Key(c, id));
    assert es == es[..n] + es[n..];
    LastOnAppend(es[..n], es[n..], Key(c, id));
    LastOnSome(es[..n], Key(c, id));
    assert id in S.Ids(f, bucketOf, k) <==> Key(c, id) in s && S.KeyOf(d, s[Key(c, id)]) == Some(k);
    var dropped := LastOn(es[..n], Key(c, id));
    if dropped.Some? {
      assert dropped.value in es;
      var i: nat :| i < n && es[i] == dropped.value;
      assert Harmless(d, c, es[i]);
    }
  }
}
