/** What commitTransaction writes to the log, and that opening the database restores exactly what the log records. */
module StorageRecovery {
  import opened Basics
  import opened Json
  import opened Transactions
  import opened StorageCore
  import opened CommitLog
  import CommitFabric
  import Ordering

  /** The content after a write set is stored in one go. */
  function Store(s: Content, ws: WriteSet): Content {
    (s - ws.writes.Keys) + (map k | k in ws.writes && ws.writes[k].after.Some? :: ws.writes[k].after.value)
  }

  ghost predicate DistinctKeys(es: seq<Event>) {
    forall i, j :: 0 <= i < j < |es| ==> es[i].key != es[j].key
  }

  /** An entry numbered to follow history h. */
  ghost predicate EntryOk(config: Config, h: seq<Commit>, e: Entry) {
    && e.databaseId == config.databaseId
    && e.base == |Log(h)|
    && e.result == |Log(h)| + |e.events|
    && e.events != []
    && Numbered(e.events, |Log(h)|)
  }

  /** The event says which fields its write changed, and whether it removes, inserts or replaces a record. */
  ghost predicate Labelled(e: Event) {
    && e.fields == ChangedFields(e.before, e.record)
    && (e.kind.Deleted? <==> e.record.None?)
    && (e.kind.Inserted? <==> e.record.Some? && e.before.None?)
    && (e.kind.Upserted? <==> e.record.Some? && e.before.Some?)
  }

  /** The keys whose record the write set changes, each with its new record, in the order of the write set. */
  ghost predicate Lists(es: seq<Event>, ws: WriteSet) {
    && (forall k :: (exists i :: 0 <= i < |es| && es[i].key == k) <==>
         k in ws.writes && ws.writes[k].before != ws.writes[k].after)
    && (forall i :: 0 <= i < |es| ==> es[i].key in ws.writes && es[i].record == ws.writes[es[i].key].after)
    && (forall i, j, a, b ::
          0 <= i < j < |es| && 0 <= a < |ws.order| && 0 <= b < |ws.order|
          && ws.order[a] == es[i].key && ws.order[b] == es[j].key
          ==> a < b)
  }

  /** A commit whose before-images, effect and reads are those of the committed content s. */
  ghost predicate EffectOk(s: Content, c: Commit) {
    && DistinctKeys(c.entry.events)
    && (forall e :: e in c.entry.events ==> e.before == Lookup(s, e.key) && Labelled(e))
    && Fold(s, c.entry.events) == Store(s, c.ws)
    && TraceOk(c.trace)
    && c.ws == Writes(c.trace) && Lists(c.entry.events, c.ws)
    && LastReadsCurrent(s, c.trace)
  }

  ghost predicate CommitOk(config: Config, h: seq<Commit>, c: Commit) {
    && EntryOk(config, h, c.entry) && EffectOk(State(h), c)
    && (VerifyEntry(config, c.entry) <==> NamedEntry(c.entry))
  }

  ghost predicate HistoryOk(config: Config, h: seq<Commit>) {
    h != [] ==> HistoryOk(config, h[..|h| - 1]) && CommitOk(config, h[..|h| - 1], h[|h| - 1])
  }

  lemma {:induction false} HistoryPrefix(config: Config, h: seq<Commit>, i: nat)
    requires HistoryOk(config, h) && i <= |h|
    ensures HistoryOk(config, h[..i])
    ensures i < |h| ==> CommitOk(config, h[..i], h[i])
  {
    hide CommitOk;
    if i == |h| {
      assert h[..i] == h;
    } else if i < |h| - 1 {
      HistoryPrefix(config, h[..|h| - 1], i);
      assert h[..|h| - 1][..i] == h[..i];
    }
  }

  // ---------------------------------------------------------------- building an entry

  /** Each write's before-image is the record of the validated state. */
  lemma {:induction false} BeforeImages(s: Content, trace: seq<Observation>, n: nat)
    requires TraceOk(trace) && LastReadsCurrent(s, trace) && n <= |trace|
    ensures forall k :: k in Writes(trace[..n]).writes ==> Writes(trace[..n]).writes[k].before == Lookup(s, k)
  {
    if n > 0 {
      var i := n - 1;
      BeforeImages(s, trace, i);
      TraceOkAt(trace, i);
      if TouchAt(trace, i).Some? && (trace[i].op.Put? || trace[i].result == Removed(true)) {
        WriterIsCurrent(s, trace, i, TouchAt(trace, i).value);
      }
    }
  }

  lemma ChangedDistinct(ws: WriteSet, order: seq<Key>)
    requires forall i, j :: 0 <= i < j < |order| ==> order[i] != order[j]
    ensures forall i, j :: 0 <= i < j < |Changed(ws, order)| ==> Changed(ws, order)[i] != Changed(ws, order)[j]
  {
    if order != [] {
      ChangedDistinct(ws, order[1..]);
      ChangedIn(ws, order[1..]);
    }
  }

  lemma ChangedStep(ws: WriteSet, order: seq<Key>)
    requires order != []
    ensures Changed(ws, order) == Changed(ws, order[1..]) || Changed(ws, order) == [order[0]] + Changed(ws, order[1..])
  {
    assert [] + Changed(ws, order[1..]) == Changed(ws, order[1..]);
  }

  lemma {:induction false} ChangedInOrder(ws: WriteSet, order: seq<Key>, i: nat, j: nat, a: nat, b: nat)
    requires forall i, j :: 0 <= i < j < |order| ==> order[i] != order[j]
    requires i < j < |Changed(ws, order)| && a < |order| && b < |order|
    requires order[a] == Changed(ws, order)[i] && order[b] == Changed(ws, order)[j]
    ensures a < b
  {
    hide Changed;
    var rest := order[1..];
    ChangedIn(ws, rest);
    ChangedStep(ws, order);
    var shift := |Changed(ws, order)| - |Changed(ws, rest)|;
    assert Changed(ws, order)[j] == Changed(ws, rest)[j - shift];
    assert Changed(ws, rest)[j - shift] in rest;
    if i >= shift {
      assert Changed(ws, rest)[i - shift] in rest;
      ChangedInOrder(ws, rest, i - shift, j - shift, a - 1, b - 1);
    }
  }

  /** The events of a write set list what it changes. */
  lemma EventsList(ws: WriteSet, base: nat, f: CommitFabric.Fabric)
    requires ws.Ok() && forall k :: k in Changed(ws, ws.order) ==> k in ws.writes
    ensures Lists(Events(ws, Changed(ws, ws.order), base, f), ws)
  {
    hide Events, Changed;
    ChangedIn(ws, ws.order);
    ChangedDistinct(ws, ws.order);
    var keys := Changed(ws, ws.order);
    var es := Events(ws, keys, base, f);
    forall i | 0 <= i < |es| ensures es[i].key == keys[i] && es[i].record == ws.writes[keys[i]].after {
      EventAt(ws, keys, base, f, i);
    }
    forall k ensures (exists i :: 0 <= i < |es| && es[i].key == k) <==> k in keys {
      if k in keys {
        var i :| 0 <= i < |keys| && keys[i] == k;
        assert es[i].key == k;
      }
    }
    forall i, j, a, b | 0 <= i < j < |es| && 0 <= a < |ws.order| && 0 <= b < |ws.order| &&
      ws.order[a] == es[i].key && ws.order[b] == es[j].key
      ensures a < b
    {
      ChangedInOrder(ws, ws.order, i, j, a, b);
    }
  }

  /** The entry of a write set, numbered from base and made in context c. */
  ghost predicate Says(e: Entry, config: Config, base: nat, ws: WriteSet, c: CommitFabric.Context) {
    && e.databaseId == config.databaseId && e.base == base && e.result == base + |e.events| && e.events != []
    && Numbered(e.events, base) && Lists(e.events, ws) && DistinctKeys(e.events)
    && (forall i :: 0 <= i < |e.events| ==>
         && Labelled(e.events[i]) && e.events[i].before == ws.writes[e.events[i].key].before
         && Stamped(e.events[i], c) && e.events[i].commitId == e.events[0].commitId)
  }

  /** The event names where its commit comes from. */
  ghost predicate Stamped(e: Event, c: CommitFabric.Context) {
    && e.origin == c.origin && e.partitionId == c.partitionId && e.transactionId == c.transactionId
    && e.logicalTime == c.logicalTime && (forall x :: x in e.causalParents <==> x in c.causalParents)
  }

  /** `commitTransaction` writes such an entry exactly when some record is changed. */
  lemma EntrySays(config: Config, base: nat, ws: WriteSet, c: CommitFabric.Context)
    requires ws.Ok() && config.databaseId != ""
    ensures var e := BuildEntry(config, base, ws, c);
      && (e.Some? <==> exists k :: k in ws.writes && ws.writes[k].before != ws.writes[k].after)
      && (e.Some? ==> Says(e.value, config, base, ws, c))
  {
    hide Events, Changed, Mutations, Says, CommitFabric.Describes, CommitFabric.Verify, Ordering.Sorted;
    ChangedIn(ws, ws.order);
    var keys := Changed(ws, ws.order);
    if keys != [] {
      assert keys[0] in keys;
      EventsSay(config, base, ws, c,
        CommitFabric.Create(config.databaseId, base + |keys|, Mutations(ws, keys), c).value);
    }
  }

  lemma EventsSay(config: Config, base: nat, ws: WriteSet, c: CommitFabric.Context, f: CommitFabric.Fabric)
    requires ws.Ok() && Changed(ws, ws.order) != [] && forall k :: k in Changed(ws, ws.order) ==> k in ws.writes
    requires f.body.origin == c.origin && f.body.partitionId == c.partitionId && f.body.logicalTime == c.logicalTime
    requires f.body.transactionId == c.transactionId && f.body.causalParents == Ordering.Sorted(c.causalParents)
    ensures var keys := Changed(ws, ws.order);
      Says(Entry(config.databaseId, base, base + |keys|, Events(ws, keys, base, f)), config, base, ws, c)
  {
    hide Events, Changed, Lists, Labelled, ChangedFields, EventOf;
    ChangedIn(ws, ws.order);
    ChangedDistinct(ws, ws.order);
    EventsList(ws, base, f);
    var keys := Changed(ws, ws.order);
    var es := Events(ws, keys, base, f);
    forall i | 0 <= i < |keys|
      ensures es[i].key == keys[i] && es[i].before == ws.writes[keys[i]].before && es[i].sequence == base + i + 1
      ensures es[i].commitId == f.commitId && Stamped(es[i], c) && Labelled(es[i])
    {
      EventAt(ws, keys, base, f, i);
      assert keys[i] in keys;
      EventLabelled(keys[i], ws.writes[keys[i]], base + i + 1, f, c);
    }
  }

  lemma EventLabelled(k: Key, w: Write, sequence: nat, f: CommitFabric.Fabric, c: CommitFabric.Context)
    requires w.before != w.after
    requires f.body.origin == c.origin && f.body.partitionId == c.partitionId && f.body.logicalTime == c.logicalTime
    requires f.body.transactionId == c.transactionId && f.body.causalParents == Ordering.Sorted(c.causalParents)
    ensures var e := EventOf(k, w, sequence, f);
      && Labelled(e) && Stamped(e, c) && e.key == k && e.before == w.before && e.sequence == sequence
      && e.commitId == f.commitId
  {
    hide ChangedFields;
  }

  /** The stores after a batch: every event's record is visible under its key, and no other key is touched. */
  ghost predicate Stores(cells: Cells, es: seq<Event>, after: Cells) {
    && (forall i :: 0 <= i < |es| ==> Lookup(Live(after), es[i].key) == es[i].record)
    && (forall k :: (forall i :: 0 <= i < |es| ==> es[i].key != k) ==> Lookup(after, k) == Lookup(cells, k))
  }

  lemma {:induction false} UntouchedCell(cells: Cells, counters: map<string, nat>, es: seq<Event>, k: Key)
    requires LastOn(es, k).None?
    ensures Lookup(ApplyCells(cells, counters, es).0, k) == Lookup(cells, k)
  {
    if es != [] {
      UntouchedCell(cells, counters, es[..|es| - 1], k);
    }
  }

  /** Applying the events of one commit, grouped by collection, stores each of them. */
  lemma GroupedStores(cells: Cells, counters: map<string, nat>, es: seq<Event>)
    requires DistinctKeys(es)
    ensures Stores(cells, es, ApplyCells(cells, counters, Grouped(es)).0)
  {
    hide Grouped, ApplyCells, Live, Fold, LastOn;
    var after := ApplyCells(cells, counters, Grouped(es)).0;
    ApplyCellsLive(cells, counters, Grouped(es));
    forall i | 0 <= i < |es| ensures Lookup(Live(after), es[i].key) == es[i].record {
      FoldAt(Live(cells), Grouped(es), es[i].key);
      GroupedLast(es, es[i].key);
      LastOnSome(es, es[i].key);
      assert es[i] in es;
      var j :| 0 <= j < |es| && es[j] == LastOn(es, es[i].key).value;
      assert i == j;
    }
    forall k | forall i :: 0 <= i < |es| ==> es[i].key != k ensures Lookup(after, k) == Lookup(cells, k) {
      LastOnSome(es, k);
      GroupedLast(es, k);
      UntouchedCell(cells, counters, Grouped(es), k);
    }
  }

  lemma {:induction false} OfCommitAll(es: seq<Event>, id: CommitFabric.CommitId)
    requires forall i :: 0 <= i < |es| ==> es[i].commitId == id
    ensures OfCommit(es, id) == es
  {
    if es != [] {
      OfCommitAll(es[1..], id);
    }
  }

  lemma EventAt(ws: WriteSet, keys: seq<Key>, base: nat, f: CommitFabric.Fabric, i: nat)
    requires (forall k :: k in keys ==> k in ws.writes) && i < |keys|
    ensures Events(ws, keys, base, f)[i] == EventOf(keys[i], ws.writes[keys[i]], base + i + 1, f)
  {
  }

  lemma MutationsRebuilt(ws: WriteSet, keys: seq<Key>, base: nat, f: CommitFabric.Fabric)
    requires forall k :: k in keys ==> k in ws.writes
    ensures MutationsOfEvents(Events(ws, keys, base, f)) == Mutations(ws, keys)
  {
    hide Events;
    var es := Events(ws, keys, base, f);
    forall i | 0 <= i < |keys| ensures MutationsOfEvents(es)[i] == Mutations(ws, keys)[i] {
      EventAt(ws, keys, base, f, i);
    }
  }

  lemma EventsOneCommit(ws: WriteSet, keys: seq<Key>, base: nat, f: CommitFabric.Fabric)
    requires forall k :: k in keys ==> k in ws.writes
    ensures OfCommit(Events(ws, keys, base, f), f.commitId) == Events(ws, keys, base, f)
    ensures forall i :: 0 <= i < |keys| ==> Events(ws, keys, base, f)[i].commitId == f.commitId
  {
    hide Events, OfCommit;
    var es := Events(ws, keys, base, f);
    forall i | 0 <= i < |es| ensures es[i].commitId == f.commitId {
      EventAt(ws, keys, base, f, i);
    }
    OfCommitAll(es, f.commitId);
  }

  lemma OneCommitVerifies(config: Config, entry: Entry, id: CommitFabric.CommitId)
    requires entry.events != [] && OfCommit(entry.events, id) == entry.events
    requires forall i :: 0 <= i < |entry.events| ==> entry.events[i].commitId == id
    ensures VerifyEntry(config, entry) <==> CommitFabric.Verify(Rebuilt(config, entry, entry.events))
  {
    assert entry.events[0].commitId == id;
    hide OfCommit, Rebuilt;
  }

  /**
   * A self-written entry passes `verifyEntryFabric` exactly when its transaction was not given null for its origin or
   * its partition: both are rebuilt from a default when the log holds null.
   */
  lemma BuiltEntryVerifies(config: Config, base: nat, ws: WriteSet, c: CommitFabric.Context)
    requires BuildEntry(config, base, ws, c).Some?
    ensures VerifyEntry(config, BuildEntry(config, base, ws, c).value) <==> c.Named()
    ensures NamedEntry(BuildEntry(config, base, ws, c).value) <==> c.Named()
  {
    hide Events, OfCommit, Mutations, MutationsOfEvents, Changed, VerifyEntry;
    ChangedIn(ws, ws.order);
    var keys := Changed(ws, ws.order);
    var fabric := CommitFabric.Create(config.databaseId, base + |keys|, Mutations(ws, keys), c).value;
    var es := Events(ws, keys, base, fabric);
    var entry := Entry(config.databaseId, base, base + |keys|, es);
    MutationsRebuilt(ws, keys, base, fabric);
    EventsOneCommit(ws, keys, base, fabric);
    EventAt(ws, keys, base, fabric, 0);
    assert c.Named() ==> Rebuilt(config, entry, es) == fabric;
    OneCommitVerifies(config, entry, fabric.commitId);
    forall i | 0 <= i < |keys| ensures es[i].origin == c.origin && es[i].partitionId == c.partitionId {
      EventAt(ws, keys, base, fabric, i);
    }
  }

  /** Storing the events of a write set in order is storing the write set in one go. */
  lemma EventsStore(s: Content, base: nat, ws: WriteSet, keys: seq<Key>, f: CommitFabric.Fabric)
    requires forall k :: k in ws.writes ==> ws.writes[k].before == Lookup(s, k)
    requires forall k :: k in keys <==> k in ws.writes && ws.writes[k].before != ws.writes[k].after
    requires forall i, j :: 0 <= i < j < |keys| ==> keys[i] != keys[j]
    ensures var es := Events(ws, keys, base, f);
      && Numbered(es, base)
      && DistinctKeys(es)
      && (forall e :: e in es ==> e.before == Lookup(s, e.key) && Labelled(e))
      && Fold(s, es) == Store(s, ws)
  {
    hide Events, Fold, ChangedFields, Store, LastOn;
    var es := Events(ws, keys, base, f);
    forall i | 0 <= i < |es| ensures
      && es[i].key == keys[i] && es[i].before == ws.writes[keys[i]].before
      && es[i].record == ws.writes[keys[i]].after && es[i].sequence == base + i + 1 && Labelled(es[i])
    {
      EventAt(ws, keys, base, f, i);
    }
    forall k ensures Lookup(Fold(s, es), k) == Lookup(Store(s, ws), k) {
      FoldAt(s, es, k);
      StoredAt(s, ws, keys, es, k);
    }
    SameContent(Fold(s, es), Store(s, ws));
  }

  lemma StoredAt(s: Content, ws: WriteSet, keys: seq<Key>, es: seq<Event>, k: Key)
    requires forall k :: k in ws.writes ==> ws.writes[k].before == Lookup(s, k)
    requires forall k :: k in keys <==> k in ws.writes && ws.writes[k].before != ws.writes[k].after
    requires |es| == |keys|
    requires forall i :: 0 <= i < |es| ==> es[i].key == keys[i] && es[i].record == ws.writes[keys[i]].after
    ensures (if LastOn(es, k).Some? then LastOn(es, k).value.record else Lookup(s, k)) == Lookup(Store(s, ws), k)
  {
    hide LastOn;
    LastOnSome(es, k);
    if k in keys {
      var i :| 0 <= i < |keys| && keys[i] == k;
      assert es[i] in es && es[i].key == k;
    }
  }

  /** A write set without operations changes nothing. */
  lemma NothingToStore(config: Config, s: Content, base: nat, ws: WriteSet, c: CommitFabric.Context)
    requires ws.Ok() && config.databaseId != "" && BuildEntry(config, base, ws, c).None?
    requires forall k :: k in ws.writes ==> ws.writes[k].before == Lookup(s, k)
    ensures Store(s, ws) == s
  {
    ChangedIn(ws, ws.order);
    forall k ensures Lookup(Store(s, ws), k) == Lookup(s, k) {
      assert k in ws.writes ==> k !in Changed(ws, ws.order);
    }
    SameContent(Store(s, ws), s);
  }

  /** The entry built from a validated body is a commit that follows h. */
  lemma BuiltCommitOk(config: Config, h: seq<Commit>, trace: seq<Observation>, ws: WriteSet, c: CommitFabric.Context)
    requires TraceOk(trace) && ws == Writes(trace) && LastReadsCurrent(State(h), trace)
    requires BuildEntry(config, |Log(h)|, ws, c).Some?
    ensures CommitOk(config, h, Commit(trace, ws, BuildEntry(config, |Log(h)|, ws, c).value))
  {
    hide VerifyEntry, Events, Mutations, Changed, LastReadsCurrent, TraceOk, DistinctKeys, Fold, Writes, Labelled,
      Lists,
      Log, CommitFabric.Describes, CommitFabric.Verify, Ordering.Sorted;
    assert trace[..|trace|] == trace;
    BeforeImages(State(h), trace, |trace|);
    WritesOk(trace);
    BuiltEntryVerifies(config, |Log(h)|, ws, c);
    ChangedIn(ws, ws.order);
    ChangedDistinct(ws, ws.order);
    var keys := Changed(ws, ws.order);
    var fabric := CommitFabric.Create(config.databaseId, |Log(h)| + |keys|, Mutations(ws, keys), c).value;
    EventsStore(State(h), |Log(h)|, ws, keys, fabric);
    EventsList(ws, |Log(h)|, fabric);
  }

  lemma HistoryExtends(config: Config, h: seq<Commit>, c: Commit)
    requires HistoryOk(config, h) && CommitOk(config, h, c)
    ensures HistoryOk(config, h + [c])
    ensures State(h + [c]) == Fold(State(h), c.entry.events)
    ensures |Log(h + [c])| == c.entry.result
  {
    assert (h + [c])[..|h|] == h;
    FoldAppend(map[], Log(h), c.entry.events);
  }

  // ---------------------------------------------------------------- metadata of a history

  lemma {:induction false} LogNumbered(config: Config, h: seq<Commit>)
    requires HistoryOk(config, h)
    ensures Numbered(Log(h), 0)
  {
    if h != [] {
      LogNumbered(config, h[..|h| - 1]);
    }
  }

  /** Event i is the last one in its collection. */
  ghost predicate LastIn(es: seq<Event>, i: nat) {
    i < |es| && forall j :: i < j < |es| ==> es[j].key.collection != es[i].key.collection
  }

  /** The newest n events. */
  ghost predicate Newest(kept: seq<Event>, es: seq<Event>, n: nat) {
    if |es| <= n then kept == es else kept == es[|es| - n..]
  }

  /** Some event is in the collection. */
  ghost predicate Touches(es: seq<Event>, c: string) {
    exists i :: 0 <= i < |es| && es[i].key.collection == c
  }

  /**
   * What metadata n records after m and these events: where the log now ends, the commit that ended it, the collections
   * ever written to, the last sequence in each, and the newest events.
   */
  ghost predicate Advances(m: Meta, es: seq<Event>, n: Meta, retention: nat) {
    && n.sequence == (if es == [] then m.sequence else es[|es| - 1].sequence)
    && n.lastCommitId == (if es == [] then m.lastCommitId else Some(es[|es| - 1].commitId))
    && (forall c :: c in n.collections <==> c in m.collections || Touches(es, c))
    && (forall i: nat :: LastIn(es, i) ==> Lookup(n.versions, es[i].key.collection) == Some(es[i].sequence))
    && (forall c :: !Touches(es, c) ==> Lookup(n.versions, c) == Lookup(m.versions, c))
    && Newest(n.changes, m.changes + es, retention)
  }

  lemma AbsorbAdvances(m: Meta, es: seq<Event>, retention: nat)
    ensures Advances(m, es, Trim(AbsorbAll(m, es), retention), retention)
  {
    AbsorbChanges(m, m, es);
    hide LastN, Touches, LastIn, Newest;
    forall c ensures c in AbsorbAll(m, es).collections <==> c in m.collections || Touches(es, c) {
      AbsorbCollection(m, es, c);
    }
    forall c | !Touches(es, c) ensures Lookup(AbsorbAll(m, es).versions, c) == Lookup(m.versions, c) {
      AbsorbElsewhere(m, es, c);
    }
    forall i: nat | LastIn(es, i)
      ensures Lookup(AbsorbAll(m, es).versions, es[i].key.collection) == Some(es[i].sequence)
    {
      AbsorbVersion(m, es, i);
    }
    TrimNewest(AbsorbAll(m, es), retention);
  }

  lemma TrimNewest(m: Meta, n: nat)
    ensures Newest(Trim(m, n).changes, m.changes, n)
    ensures Trim(m, n) == m.(changes := Trim(m, n).changes)
  {
  }

  lemma TouchesLast(es: seq<Event>, c: string)
    requires es != []
    ensures Touches(es, c) <==> es[|es| - 1].key.collection == c || Touches(es[..|es| - 1], c)
  {
    var init := es[..|es| - 1];
    if i :| 0 <= i < |es| && es[i].key.collection == c {
      assert i < |init| ==> init[i] == es[i];
    }
    if i :| 0 <= i < |init| && init[i].key.collection == c {
      assert es[i].key.collection == c;
    }
  }

  lemma {:induction false} AbsorbCollection(m: Meta, es: seq<Event>, c: string)
    ensures c in AbsorbAll(m, es).collections <==> c in m.collections || Touches(es, c)
  {
    if es != [] {
      AbsorbCollection(m, es[..|es| - 1], c);
      TouchesLast(es, c);
    }
  }

  lemma {:induction false} AbsorbElsewhere(m: Meta, es: seq<Event>, c: string)
    requires !Touches(es, c)
    ensures Lookup(AbsorbAll(m, es).versions, c) == Lookup(m.versions, c)
  {
    hide Touches;
    if es != [] {
      TouchesLast(es, c);
      AbsorbElsewhere(m, es[..|es| - 1], c);
    }
  }

  lemma {:induction false} AbsorbVersion(m: Meta, es: seq<Event>, i: nat)
    requires LastIn(es, i)
    ensures Lookup(AbsorbAll(m, es).versions, es[i].key.collection) == Some(es[i].sequence)
  {
    var init := es[..|es| - 1];
    if i < |init| {
      assert LastIn(init, i);
      AbsorbVersion(m, init, i);
    }
  }

  /** The metadata of a history records its log. */
  lemma MetaRecords(config: Config, h: seq<Commit>)
    ensures Advances(FRESH, Log(h), MetaOf(config, h), config.retention)
  {
    hide Advances, Log;
    AbsorbAdvances(FRESH, Log(h), config.retention);
  }

  lemma MetaSequence(config: Config, h: seq<Commit>)
    requires HistoryOk(config, h)
    ensures MetaOf(config, h).sequence == |Log(h)|
    ensures forall c :: Count(MetaOf(config, h).versions, c) <= |Log(h)|
  {
    LogNumbered(config, h);
    AbsorbNumbered(FRESH, Log(h));
  }

  /** Finishing a commit takes the metadata of the shorter history to that of the longer one. */
  lemma MetaExtends(config: Config, h: seq<Commit>, c: Commit, m: Meta)
    requires HistoryOk(config, h) && CommitOk(config, h, c)
    requires Trim(m, config.retention) == MetaOf(config, h)
    ensures Trim(AbsorbAll(m, c.entry.events).(sequence := c.entry.result), config.retention) == MetaOf(config, h + [c])
    ensures AbsorbAll(m, c.entry.events).sequence == c.entry.result
    ensures Advances(FRESH, Log(h) + c.entry.events, MetaOf(config, h + [c]), config.retention)
  {
    hide VerifyEntry, EffectOk, AbsorbAll, HistoryOk, LastN, Advances;
    MetaRecords(config, h + [c]);
    assert (h + [c])[..|h|] == h;
    var full := AbsorbAll(FRESH, Log(h));
    AbsorbAppend(FRESH, Log(h), c.entry.events);
    TrimAbsorb(full, c.entry.events, config.retention);
    TrimAbsorb(m, c.entry.events, config.retention);
    assert Trim(full, config.retention) == Trim(m, config.retention);
    MetaSequence(config, h);
    AbsorbNumbered(m, c.entry.events);
  }

  /** Finishing a commit advances the version of exactly the collections it touched. */
  lemma VersionsExtend(config: Config, h: seq<Commit>, c: Commit, m: Meta, x: string)
    requires HistoryOk(config, h) && CommitOk(config, h, c)
    requires Trim(m, config.retention) == MetaOf(config, h)
    ensures Count(m.versions, x) <= m.sequence == |Log(h)|
    ensures var n := AbsorbAll(m, c.entry.events);
      if OfCollection(c.entry.events, x, true) != []
      then Count(n.versions, x) > m.sequence
      else Count(n.versions, x) == Count(m.versions, x)
  {
    hide VerifyEntry, EffectOk, AbsorbAll, Log, HistoryOk;
    MetaSequence(config, h);
    VersionAdvances(m, c.entry.events, x);
  }

  // ---------------------------------------------------------------- opening

  lemma {:induction false} LogGrows(config: Config, h: seq<Commit>, i: nat, j: nat)
    requires HistoryOk(config, h) && i <= j <= |h|
    ensures |Log(h[..i])| <= |Log(h[..j])|
    ensures i < j ==> |Log(h[..i])| < |Log(h[..j])|
  {
    hide VerifyEntry, EffectOk, Log, HistoryOk;
    if i < j {
      LogGrows(config, h, i, j - 1);
      LogNext(h, j - 1);
      HistoryPrefix(config, h, j - 1);
    }
  }

  lemma ResultAt(config: Config, h: seq<Commit>, i: nat)
    requires HistoryOk(config, h) && i < |h|
    ensures h[i].entry.result == |Log(h[..i + 1])|
  {
    hide VerifyEntry, EffectOk, Log, HistoryOk;
    HistoryPrefix(config, h, i);
    LogNext(h, i);
  }

  lemma AfterSplit(entries: seq<Entry>, sequence: nat, n: nat)
    requires n <= |entries|
    requires forall i :: 0 <= i < n ==> entries[i].result <= sequence
    requires forall i :: n <= i < |entries| ==> entries[i].result > sequence
    ensures After(entries, sequence) == entries[n..]
  {
    if entries != [] {
      AfterSplit(entries[1..], sequence, if n == 0 then 0 else n - 1);
    }
  }

  /** The entries after a checkpoint's sequence are those of the commits after it. */
  lemma AfterCheckpoint(config: Config, h: seq<Commit>, w: nat, c: nat)
    requires HistoryOk(config, h) && w <= c <= |h|
    ensures After(Entries(h[w..]), |Log(h[..c])|) == Entries(h[c..])
  {
    hide Log, HistoryOk, After, Entries;
    var es := Entries(h[w..]);
    forall i | 0 <= i < |es|
      ensures if i < c - w then es[i].result <= |Log(h[..c])| else es[i].result > |Log(h[..c])|
    {
      ResultAt(config, h, w + i);
      if i < c - w {
        LogGrows(config, h, w + i + 1, c);
      } else {
        LogGrows(config, h, c, w + i + 1);
      }
    }
    AfterSplit(es, |Log(h[..c])|, c - w);
    assert es[c - w..] == Entries(h[c..]);
  }

  /** Every key the log does not touch from commit i on already holds its final record. */
  ghost predicate RightBut(h: seq<Commit>, cells: Cells, i: nat)
    requires i <= |h|
  {
    forall k :: LastOn(Log(h[i..]), k).None? ==> Lookup(Live(cells), k) == Lookup(State(h), k)
  }

  lemma RightButAll(h: seq<Commit>, cells: Cells)
    requires RightBut(h, cells, |h|)
    ensures Live(cells) == State(h)
  {
    assert h[|h|..] == [];
    SameContent(Live(cells), State(h));
  }

  lemma RightButLess(h: seq<Commit>, cells: Cells, i: nat, j: nat)
    requires i <= j <= |h| && RightBut(h, cells, j)
    ensures RightBut(h, cells, i)
  {
    forall k | LastOn(Log(h[i..]), k).None? ensures LastOn(Log(h[j..]), k).None? {
      assert h[i..][j - i..] == h[j..];
      LogSplit(h[i..], j - i);
      LastOnAppend(Log(h[i..][..j - i]), Log(h[j..]), k);
    }
  }

  lemma MergedLookup(old_: Cells, new_: Cells, persisted: set<Key>, k: Key)
    requires persisted <= new_.Keys
    ensures Lookup(Live(Merged(old_, new_, persisted)), k)
      == if k in persisted then Lookup(Live(new_), k) else Lookup(Live(old_), k)
  {
  }

  /**
   * Replaying part of one commit, with any of its applied keys written, disturbs only keys the log touches from there
   * on.
   */
  lemma PartialReplay(h: seq<Commit>, i: nat, cells: Cells, counters: map<string, nat>, n: nat, persisted: set<Key>)
    requires i < |h| && RightBut(h, cells, i) && n <= |Grouped(h[i].entry.events)|
    requires persisted <= (set e | e in Grouped(h[i].entry.events)[..n] :: e.key)
    requires persisted <= ApplyCells(cells, counters, Grouped(h[i].entry.events)[..n]).0.Keys
    ensures RightBut(h, Merged(cells, ApplyCells(cells, counters, Grouped(h[i].entry.events)[..n]).0, persisted), i)
  {
    hide Live, ApplyCells, Merged, LastOn, Grouped;
    var applied := ApplyCells(cells, counters, Grouped(h[i].entry.events)[..n]).0;
    var merged := Merged(cells, applied, persisted);
    forall k | LastOn(Log(h[i..]), k).None? ensures Lookup(Live(merged), k) == Lookup(State(h), k) {
      LogNext(h, i);
      LastOnAppend(h[i].entry.events, Log(h[i + 1..]), k);
      NotAmong(h[i].entry.events, n, k);
      MergedLookup(cells, applied, persisted, k);
    }
  }

  lemma NotAmong(es: seq<Event>, n: nat, k: Key)
    requires LastOn(es, k).None? && n <= |Grouped(es)|
    ensures k !in (set e | e in Grouped(es)[..n] :: e.key)
  {
    hide Grouped, LastOn;
    GroupedLast(es, k);
    LastOnSome(Grouped(es), k);
    assert forall e :: e in Grouped(es)[..n] ==> e in Grouped(es);
  }

  /** Replaying one whole commit settles its keys, whatever the segments already held of the suffix. */
  lemma ReplayCommit(config: Config, h: seq<Commit>, i: nat, cells: Cells, counters: map<string, nat>)
    requires HistoryOk(config, h) && i < |h| && RightBut(h, cells, i)
    ensures RightBut(h, ApplyCells(cells, counters, Grouped(h[i].entry.events)).0, i + 1)
  {
    var es := Grouped(h[i].entry.events);
    var (c, _) := ApplyCells(cells, counters, es);
    ApplyCellsLive(cells, counters, es);
    forall k | LastOn(Log(h[i + 1..]), k).None? ensures Lookup(Live(c), k) == Lookup(State(h), k) {
      LogNext(h, i);
      LastOnAppend(h[i].entry.events, Log(h[i + 1..]), k);
      GroupedLast(h[i].entry.events, k);
      FoldAt(Live(cells), es, k);
      LogSplit(h, i);
      FoldAt(map[], Log(h), k);
      LastOnAppend(Log(h[..i]), Log(h[i..]), k);
    }
  }

  /** A replay that has reached commit i. */
  ghost predicate ReplayedTo(config: Config, h: seq<Commit>, r: Recovered, i: nat) {
    && i <= |h|
    && r.Recovered?
    && RightBut(h, r.cells, i)
    && Trim(r.meta, config.retention) == MetaOf(config, h[..i])
    && CoversVersions(r.cells, r.counters)
  }

  /** What `replayWal` does with one accepted entry. */
  function ReplayOne(r: Recovered, e: Entry): Recovered
    requires r.Recovered?
  {
    var (cells, counters) := ApplyCells(r.cells, r.counters, Grouped(e.events));
    Recovered(AbsorbAll(r.meta, e.events).(sequence := e.result), cells, counters)
  }

  lemma ReplayStep(config: Config, h: seq<Commit>, r: Recovered, i: nat)
    requires HistoryOk(config, h) && i < |h| && ReplayedTo(config, h, r, i)
    ensures h[i].entry.databaseId == config.databaseId
    ensures h[i].entry.base == r.meta.sequence
    ensures VerifyEntry(config, h[i].entry) <==> NamedEntry(h[i].entry)
    ensures ReplayedTo(config, h, ReplayOne(r, h[i].entry), i + 1)
  {
    hide VerifyEntry, Log, HistoryOk, AbsorbAll, ApplyCells, Grouped, RightBut, Trim, MetaOf, CoversVersions,
      NamedEntry;
    ReplayMeta(config, h, i, r.meta);
    ReplayCommit(config, h, i, r.cells, r.counters);
    ApplyCellsLive(r.cells, r.counters, Grouped(h[i].entry.events));
  }

  lemma ReplayMeta(config: Config, h: seq<Commit>, i: nat, m: Meta)
    requires HistoryOk(config, h) && i < |h| && Trim(m, config.retention) == MetaOf(config, h[..i])
    ensures h[i].entry.databaseId == config.databaseId
    ensures h[i].entry.base == m.sequence
    ensures VerifyEntry(config, h[i].entry) <==> NamedEntry(h[i].entry)
    ensures Trim(AbsorbAll(m, h[i].entry.events).(sequence := h[i].entry.result), config.retention) ==
      MetaOf(config, h[..i + 1])
  {
    hide VerifyEntry, EffectOk, Log, HistoryOk, AbsorbAll, MetaOf, NamedEntry, Advances, LastN;
    HistoryPrefix(config, h, i);
    MetaSequence(config, h[..i]);
    MetaExtends(config, h[..i], h[i], m);
    assert h[..i] + [h[i]] == h[..i + 1];
  }

  /** The commits from c to n say where they come from. */
  ghost predicate NamedBetween(h: seq<Commit>, c: nat, n: nat)
    requires c <= n <= |h|
  {
    forall i :: c <= i < n ==> NamedEntry(h[i].entry)
  }

  /**
   * `replayWal` from commit c on accepts every entry exactly when all of them say where they come from, and then ends
   * in the state and metadata of the whole history.
   */
  lemma {:induction false} ReplayRestores(config: Config, h: seq<Commit>, c: nat, r: Recovered, n: nat)
    requires HistoryOk(config, h) && c <= n <= |h| && ReplayedTo(config, h, r, c)
    ensures NamedBetween(h, c, n) ==> ReplayedTo(config, h, ReplayEntries(config, r, Entries(h[c..n])), n)
    ensures !NamedBetween(h, c, n) ==> ReplayEntries(config, r, Entries(h[c..n])).Corrupt?
    decreases n - c
  {
    hide ReplayedTo, HistoryOk, VerifyEntry, AbsorbAll, ApplyCells, Grouped, NamedEntry;
    if c < n {
      assert h[c..n] == [h[c]] + h[c + 1..n];
      assert r.Recovered? by { Replaying(config, h, r, c); }
      ReplayStep(config, h, r, c);
      ReplayRestores(config, h, c + 1, ReplayOne(r, h[c].entry), n);
    }
  }

  lemma Replaying(config: Config, h: seq<Commit>, r: Recovered, c: nat)
    requires ReplayedTo(config, h, r, c)
    ensures r.Recovered?
  {
  }
}
