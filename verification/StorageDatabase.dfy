/**
 * `WriteSetTransaction` and the commit, replay and checkpoint code of `StorageBackedSyncioDatabase` in
 * src/storage-core.js as objects: their Maps, loops and field updates, proved to do what the machine of StorageCore
 * does.
 */
module StorageDatabase {
  import opened Basics
  import opened Json
  import opened Transactions
  import opened TransactionCalls
  import opened StorageCore
  import opened StorageRecovery
  import CommitFabric

  // ---------------------------------------------------------------- a transaction body

  /** The version numbers that the `reads` and `scans` Maps hold. */
  function Versions<K>(recorded: map<K, Recorded>): map<K, nat> {
    map k | k in recorded :: recorded[k].version
  }

  class WriteSetTransaction {
    var readVersions: map<Key, nat>
    var scanVersions: map<string, nat>
    var writes: WriteSet
    ghost var made: StorageCore.Tx

    /** The transaction as the machine keeps it. */
    ghost function Tx(): StorageCore.Tx
      reads this
    {
      made
    }

    /** The calls made so far. */
    ghost function Calls(): seq<Observation>
      reads this
    {
      made.trace
    }

    /** The Maps hold what the machine holds, and the write set is that of the calls made. */
    ghost predicate Valid()
      reads this
    {
      && writes == made.ws && readVersions == Versions(made.readAt) && scanVersions == Versions(made.scanAt)
      && TxMade(made)
    }

    constructor ()
      ensures Valid() && Tx() == Begin()
    {
      readVersions, scanVersions, writes := map[], map[], NO_WRITES;
      made := Begin();
    }

    /** `get`: its own write, or the database's record, whose version is recorded anew. */
    method Get(db: StorageDatabase, k: Key) returns (r: Option<Record>)
      requires Valid()
      modifies this
      ensures Valid() && Tx() == Work(db.Db(), old(Tx()), Op.Get(k))
      ensures r == Sees(old(Calls()), Live(db.cells), k)
      ensures Calls() == old(Calls()) + [Observation(Op.Get(k), Found(r), Live(db.cells))] && writes == old(writes)
      ensures readVersions ==
        if Own(old(Calls()), k).Some? then old(readVersions) else old(readVersions)[k := Version(db.cells, k)]
      ensures scanVersions == old(scanVersions)
    {
      hide Own, TxMade, Work, Versions, Live, Version;
      WorkGet(db.Db(), made, k);
      if k in writes.writes {
        r := writes.writes[k].after;
      } else {
        r := db.ReadRecord(k);
        readVersions := readVersions[k := Version(db.cells, k)];
      }
      made := Work(db.Db(), made, Op.Get(k));
    }

    /** `put`: buffers the record; the version noted at the first call on the key stays recorded. */
    method Put(db: StorageDatabase, c: string, record: Record)
      requires Valid()
      modifies this
      ensures Valid() && Tx() == Work(db.Db(), old(Tx()), Op.Put(c, record))
      ensures Calls() == old(Calls()) + [Observation(Op.Put(c, record), Done, Live(db.cells))]
      ensures Buffers(writes, Calls()) &&
        OneWritten(old(writes), writes, Key(c, record.id), Some(record), Live(db.cells))
      ensures readVersions == map[Key(c, record.id) := Version(db.cells, Key(c, record.id))] + old(readVersions)
      ensures scanVersions == old(scanVersions)
    {
      hide Own, TxMade, Work, Versions, Live, Version, Buffers;
      WorkPut(db.Db(), made, c, record);
      var k := Key(c, record.id);
      if k !in readVersions {
        readVersions := readVersions[k := Version(db.cells, k)];
      }
      var prior: Option<Record>;
      if k in writes.writes {
        prior := writes.writes[k].before;
      } else {
        prior := db.ReadRecord(k);
      }
      made := Work(db.Db(), made, Op.Put(c, record));
      writes := writes.Set(k, Write(prior, Some(record)));
    }

    /** `remove`: true for a record the body sees, which is then buffered as removed; otherwise nothing is buffered. */
    method Remove(db: StorageDatabase, k: Key) returns (existed: bool)
      requires Valid()
      modifies this
      ensures Valid() && Tx() == Work(db.Db(), old(Tx()), Op.Remove(k))
      ensures existed <==> Sees(old(Calls()), Live(db.cells), k).Some?
      ensures Calls() == old(Calls()) + [Observation(Op.Remove(k), Removed(existed), Live(db.cells))]
      ensures Buffers(writes, Calls())
      ensures if existed then OneWritten(old(writes), writes, k, None, Live(db.cells)) else writes == old(writes)
      ensures readVersions == map[k := Version(db.cells, k)] + old(readVersions) && scanVersions == old(scanVersions)
    {
      hide Own, TxMade, Work, Versions, Live, Version, Buffers;
      WorkRemove(db.Db(), made, k);
      if k !in readVersions {
        readVersions := readVersions[k := Version(db.cells, k)];
      }
      var current: Option<Record>;
      if k in writes.writes {
        current := writes.writes[k].after;
      } else {
        current := db.ReadRecord(k);
      }
      made := Work(db.Db(), made, Op.Remove(k));
      if current.None? {
        return false;
      }
      var held := if k in writes.writes then writes.writes[k].before else current;
      writes := writes.Set(k, Write(held, None));
      existed := true;
    }

    /** `all`: the database's records of the collection, overlaid with the transaction's own writes. */
    method All(db: StorageDatabase, c: string) returns (rows: Content)
      requires Valid()
      modifies this
      ensures Valid() && Tx() == Work(db.Db(), old(Tx()), Op.All(c))
      ensures forall k ::
        Lookup(rows, k) == if k.collection == c then Sees(old(Calls()), Live(db.cells), k) else None
      ensures Calls() == old(Calls()) + [Observation(Op.All(c), Rows(rows), Live(db.cells))] && writes == old(writes)
      ensures readVersions == old(readVersions)
      ensures scanVersions == old(scanVersions)[c := Count(db.meta.versions, c)]
    {
      hide Own, TxMade, Work, Versions, Live, Sees;
      WorkAll(db.Db(), made, c);
      scanVersions := scanVersions[c := Count(db.meta.versions, c)];
      rows := Overlay(InCollection(Live(db.cells), c), c);
      made := Work(db.Db(), made, Op.All(c));
    }

    method Overlay(base: Content, c: string) returns (rows: Content)
      requires forall k :: k in base ==> k.collection == c
      ensures rows == (base - writes.writes.Keys) + OwnRows(writes, c)
    {
      rows := base;
      var todo := writes.writes.Keys;
      while todo != {}
        invariant todo <= writes.writes.Keys
        invariant rows == (base - (writes.writes.Keys - todo)) + (OwnRows(writes, c) - todo)
        decreases todo
      {
        var k :| k in todo;
        OverlayOne(base, writes, c, todo, k);
        if k.collection == c {
          rows := if writes.writes[k].after.Some? then rows[k := writes.writes[k].after.value] else rows - {k};
        }
        todo := todo - {k};
      }
      assert writes.writes.Keys - {} == writes.writes.Keys && OwnRows(writes, c) - {} == OwnRows(writes, c);
    }

    /** `validate`: every recorded version is still the current one. */
    method Validate(db: StorageDatabase) returns (ok: bool)
      requires Valid()
      ensures ok <==> StorageCore.Valid(db.Db(), Tx())
      ensures ok <==>
        && (forall k :: k in readVersions ==> Version(db.cells, k) == readVersions[k])
        && (forall c :: c in scanVersions ==> Count(db.meta.versions, c) == scanVersions[c])
    {
      hide TxMade, Version;
      var keys := readVersions.Keys;
      while keys != {}
        invariant keys <= readVersions.Keys
        invariant forall k :: k in readVersions && k !in keys ==> Version(db.cells, k) == readVersions[k]
        decreases keys
      {
        var k :| k in keys;
        if Version(db.cells, k) != readVersions[k] {
          return false;
        }
        keys := keys - {k};
      }
      var names := scanVersions.Keys;
      while names != {}
        invariant names <= scanVersions.Keys
        invariant forall c :: c in scanVersions && c !in names ==> Count(db.meta.versions, c) == scanVersions[c]
        decreases names
      {
        var c :| c in names;
        if Count(db.meta.versions, c) != scanVersions[c] {
          return false;
        }
        names := names - {c};
      }
      ok := true;
    }
  }

  /** The entry a write set gives, and what storing it does. */
  lemma CommitMeans(config: Config, cells: Cells, counters: map<string, nat>, meta: Meta, ws: WriteSet,
                    c: CommitFabric.Context)
    requires ws.Ok() && config.databaseId != ""
    ensures var e := BuildEntry(config, meta.sequence, ws, c);
      && (e.Some? <==> exists k :: k in ws.writes && ws.writes[k].before != ws.writes[k].after)
      && (e.Some? ==>
           && Says(e.value, config, meta.sequence, ws, c)
           && Stores(cells, e.value.events, ApplyCells(cells, counters, Grouped(e.value.events)).0)
           && Advances(meta, e.value.events,
                Trim(AbsorbAll(meta, e.value.events).(sequence := e.value.result), config.retention), config.retention))
  {
    hide BuildEntry, Grouped, ApplyCells, AbsorbAll, Stores, Advances, Labelled, Lists, LastN;
    EntrySays(config, meta.sequence, ws, c);
    var e := BuildEntry(config, meta.sequence, ws, c);
    if e.Some? {
      var es := e.value.events;
      GroupedStores(cells, counters, es);
      AbsorbAdvances(meta, es, config.retention);
      LastSequence(meta, es);
      assert AbsorbAll(meta, es).(sequence := e.value.result) == AbsorbAll(meta, es);
    }
  }

  lemma LastSequence(m: Meta, es: seq<Event>)
    requires es != []
    ensures AbsorbAll(m, es).sequence == es[|es| - 1].sequence
  {
  }

  /** The machine's transaction has made its calls as recorded. */
  ghost predicate TxMade(tx: StorageCore.Tx) {
    TraceOk(tx.trace) && tx.ws == Writes(tx.trace)
  }

  /** One key is written: its new record, the one it had when it was first written, and no other key touched. */
  ghost predicate OneWritten(before: WriteSet, after: WriteSet, k: Key, record: Option<Record>, content: Content) {
    && after.writes == before.writes[k := Write(
         if k in before.writes then before.writes[k].before else Lookup(content, k), record)]
    && after.order == if k in before.writes then before.order else before.order + [k]
  }

  lemma CallMade(db: StorageCore.Db, tx: StorageCore.Tx, op: Op)
    requires db.Up? && TxMade(tx)
    ensures var tx', s := Work(db, tx, op), Live(db.cells);
      && TxMade(tx') && Buffers(tx.ws, tx.trace) && Buffers(tx'.ws, tx'.trace)
      && tx'.trace == tx.trace + [Observation(op, Exec(s, tx.ws, op).0, s)] && tx'.ws == Exec(s, tx.ws, op).1
      && Told(tx.trace, s, op, Exec(s, tx.ws, op).0)
  {
    hide Exec, Live, Told, Buffers;
    var o := Observation(op, Exec(Live(db.cells), tx.ws, op).0, Live(db.cells));
    assert (tx.trace + [o])[..|tx.trace + [o]| - 1] == tx.trace;
    TraceOkIff(tx.trace);
    TraceOkIff(tx.trace + [o]);
    CallIs(tx.trace, tx.ws, Live(db.cells), op);
  }

  lemma WorkGet(db: StorageCore.Db, tx: StorageCore.Tx, k: Key)
    requires db.Up? && TxMade(tx)
    ensures var tx', s := Work(db, tx, Op.Get(k)), Live(db.cells);
      && TxMade(tx') && tx'.ws == tx.ws && (k in tx.ws.writes <==> Own(tx.trace, k).Some?)
      && Sees(tx.trace, s, k) == (if k in tx.ws.writes then tx.ws.writes[k].after else Lookup(s, k))
      && tx'.trace == tx.trace + [Observation(Op.Get(k), Found(Sees(tx.trace, s, k)), s)]
      && Versions(tx'.readAt) ==
           (if k in tx.ws.writes then Versions(tx.readAt) else Versions(tx.readAt)[k := Version(db.cells, k)])
      && tx'.scanAt == tx.scanAt
  {
    hide Own, TxMade, Live, Told;
    CallMade(db, tx, Op.Get(k));
    BuffersSees(tx.trace, tx.ws, Live(db.cells), k);
  }

  lemma WorkPut(db: StorageCore.Db, tx: StorageCore.Tx, c: string, record: Record)
    requires db.Up? && TxMade(tx)
    ensures var tx', s, k := Work(db, tx, Op.Put(c, record)), Live(db.cells), Key(c, record.id);
      && TxMade(tx') && Buffers(tx'.ws, tx'.trace) && OneWritten(tx.ws, tx'.ws, k, Some(record), s)
      && tx'.trace == tx.trace + [Observation(Op.Put(c, record), Done, s)]
      && Versions(tx'.readAt) == map[k := Version(db.cells, k)] + Versions(tx.readAt)
      && tx'.scanAt == tx.scanAt
  {
    hide Own, TxMade, Live, Buffers, Told;
    CallMade(db, tx, Op.Put(c, record));
  }

  lemma WorkRemove(db: StorageCore.Db, tx: StorageCore.Tx, k: Key)
    requires db.Up? && TxMade(tx)
    ensures var tx', s := Work(db, tx, Op.Remove(k)), Live(db.cells);
      && TxMade(tx') && Buffers(tx'.ws, tx'.trace)
      && Sees(tx.trace, s, k) == (if k in tx.ws.writes then tx.ws.writes[k].after else Lookup(s, k))
      && (if Sees(tx.trace, s, k).Some? then OneWritten(tx.ws, tx'.ws, k, None, s) else tx'.ws == tx.ws)
      && tx'.trace == tx.trace + [Observation(Op.Remove(k), Removed(Sees(tx.trace, s, k).Some?), s)]
      && Versions(tx'.readAt) == map[k := Version(db.cells, k)] + Versions(tx.readAt)
      && tx'.scanAt == tx.scanAt
  {
    hide Own, TxMade, Live, Buffers, Told, Sees;
    CallMade(db, tx, Op.Remove(k));
    BuffersSees(tx.trace, tx.ws, Live(db.cells), k);
  }

  lemma WorkAll(db: StorageCore.Db, tx: StorageCore.Tx, c: string)
    requires db.Up? && TxMade(tx)
    ensures var tx', s := Work(db, tx, Op.All(c)), Live(db.cells);
      var rows := (InCollection(s, c) - tx.ws.writes.Keys) + OwnRows(tx.ws, c);
      && TxMade(tx') && tx'.ws == tx.ws && tx'.readAt == tx.readAt
      && (forall k :: Lookup(rows, k) == if k.collection == c then Sees(tx.trace, s, k) else None)
      && tx'.trace == tx.trace + [Observation(Op.All(c), Rows(rows), s)]
      && Versions(tx'.scanAt) == Versions(tx.scanAt)[c := Count(db.meta.versions, c)]
  {
    CallMade(db, tx, Op.All(c));
    hide Own, TxMade, Live, Sees, Buffers;
  }

  lemma BuffersSees(trace: seq<Observation>, ws: WriteSet, s: Content, k: Key)
    requires Buffers(ws, trace)
    ensures Sees(trace, s, k) == if k in ws.writes then ws.writes[k].after else Lookup(s, k)
  {
    hide Own;
  }

  lemma OverlayOne(base: Content, ws: WriteSet, c: string, todo: set<Key>, k: Key)
    requires k in todo && k in ws.writes && forall x :: x in base ==> x.collection == c
    ensures var rows := (base - (ws.writes.Keys - todo)) + (OwnRows(ws, c) - todo);
      (base - (ws.writes.Keys - (todo - {k}))) + (OwnRows(ws, c) - (todo - {k})) ==
        (if k.collection != c then rows
         else if ws.writes[k].after.Some? then rows[k := ws.writes[k].after.value] else rows - {k})
  {
  }

  // ---------------------------------------------------------------- grouping events by collection

  /** The collections in the order of their first events. */
  function Names(es: seq<Event>): seq<string>
    decreases |es|
  {
    if es == [] then []
    else
      var c := es[0].key.collection;
      OfCollectionShorter(es, c, false);
      [c] + Names(OfCollection(es, c, false))
  }

  /** The batches of these collections one after another. */
  function Batches(names: seq<string>, es: seq<Event>): seq<Event> {
    if names == [] then [] else OfCollection(es, names[0], true) + Batches(names[1..], es)
  }

  lemma {:induction false} OthersOf(es: seq<Event>, c: string, n: string)
    ensures n != c ==> OfCollection(OfCollection(es, c, false), n, true) == OfCollection(es, n, true)
    ensures OfCollection(OfCollection(es, c, false), c, true) == []
  {
    if es != [] {
      OthersOf(es[1..], c, n);
      var head := if (es[0].key.collection == c) == false then [es[0]] else [];
      var rest := OfCollection(es[1..], c, false);
      if head != [] {
        assert (head + rest)[0] == es[0] && (head + rest)[1..] == rest;
      } else {
        assert head + rest == rest;
      }
    }
  }

  lemma {:induction false} NamesIn(es: seq<Event>, n: string)
    ensures n in Names(es) <==> OfCollection(es, n, true) != []
    decreases |es|
  {
    if es != [] {
      var c := es[0].key.collection;
      OfCollectionShorter(es, c, false);
      NamesIn(OfCollection(es, c, false), n);
      OthersOf(es, c, n);
    }
  }

  lemma {:induction false} BatchesOthers(names: seq<string>, es: seq<Event>, c: string)
    requires c !in names
    ensures Batches(names, OfCollection(es, c, false)) == Batches(names, es)
  {
    if names != [] {
      OthersOf(es, c, names[0]);
      BatchesOthers(names[1..], es, c);
    }
  }

  /** The batches by first appearance are the groups of `applyEvents`. */
  lemma {:induction false} GroupedBatches(es: seq<Event>)
    ensures Grouped(es) == Batches(Names(es), es)
    decreases |es|
  {
    hide OfCollection;
    if es != [] {
      var c := es[0].key.collection;
      OfCollectionShorter(es, c, false);
      var rest := OfCollection(es, c, false);
      GroupedBatches(rest);
      NamesIn(rest, c);
      OthersOf(es, c, c);
      BatchesOthers(Names(rest), es, c);
      assert ([c] + Names(rest))[1..] == Names(rest);
    }
  }

  lemma {:induction false} OfSnoc(es: seq<Event>, e: Event, c: string, yes: bool)
    ensures OfCollection(es + [e], c, yes) == OfCollection(es, c, yes) +
      if (e.key.collection == c) == yes then [e] else []
  {
    if es == [] {
      assert es + [e] == [e];
      assert [e][1..] == [];
    } else {
      OfSnoc(es[1..], e, c, yes);
      assert (es + [e])[1..] == es[1..] + [e];
    }
  }

  lemma {:induction false} NamesSnoc(es: seq<Event>, e: Event)
    ensures Names(es + [e]) == Names(es) + if e.key.collection in Names(es) then [] else [e.key.collection]
    decreases |es|
  {
    hide OfCollection;
    var all := es + [e];
    if es == [] {
      assert all == [e];
      OfCollectionOne(e);
    } else {
      var c := es[0].key.collection;
      OfCollectionShorter(es, c, false);
      OfSnoc(es, e, c, false);
      var rest := OfCollection(es, c, false);
      assert all[0] == es[0];
      if e.key.collection == c {
        assert OfCollection(all, c, false) == rest;
      } else {
        NamesSnoc(rest, e);
        assert [c] + (Names(rest) + [e.key.collection]) == [c] + Names(rest) + [e.key.collection];
      }
    }
  }

  lemma OfCollectionOne(e: Event)
    ensures Names([e]) == [e.key.collection]
  {
    assert [e][1..] == [];
    assert OfCollection([e], e.key.collection, false) == [];
    assert Names([]) == [];
  }

  // ---------------------------------------------------------------- the database

  /** The commits of a list of events, by first appearance. */
  function CommitIds(es: seq<Event>): seq<CommitFabric.CommitId> {
    if es == [] then []
    else
      var ids, id := CommitIds(es[..|es| - 1]), es[|es| - 1].commitId;
      if id in ids then ids else ids + [id]
  }

  lemma NoCommits()
    ensures CommitIds([]) == []
  {
  }

  lemma CommitIdsSnoc(es: seq<Event>, e: Event)
    ensures CommitIds(es + [e]) == if e.commitId in CommitIds(es) then CommitIds(es) else CommitIds(es) + [e.commitId]
  {
    assert (es + [e])[..|es|] == es;
  }

  lemma {:induction false} OfCommitSnoc(es: seq<Event>, e: Event, id: CommitFabric.CommitId)
    ensures OfCommit(es + [e], id) == OfCommit(es, id) + if e.commitId == id then [e] else []
  {
    if es == [] {
      assert es + [e] == [e];
      assert [e][1..] == [];
    } else {
      OfCommitSnoc(es[1..], e, id);
      assert (es + [e])[1..] == es[1..] + [e];
      var first, last := if es[0].commitId == id then [es[0]] else [], if e.commitId == id then [e] else [];
      assert first + (OfCommit(es[1..], id) + last) == first + OfCommit(es[1..], id) + last;
    }
  }

  /** A commit that is not listed has no events. */
  lemma {:induction false} CommitIdIn(es: seq<Event>, id: CommitFabric.CommitId)
    ensures id in CommitIds(es) <==> OfCommit(es, id) != []
    ensures id in CommitIds(es) <==> exists k :: 0 <= k < |es| && es[k].commitId == id
  {
    if es != [] {
      var init, e := es[..|es| - 1], es[|es| - 1];
      CommitIdIn(init, id);
      OfCommitSnoc(init, e, id);
      assert es == init + [e];
      if k :| 0 <= k < |init| && init[k].commitId == id {
        assert es[k].commitId == id;
      }
      if k :| 0 <= k < |es| && es[k].commitId == id {
        assert k < |init| ==> init[k].commitId == id;
      }
    }
  }

  lemma CommitsOf(es: seq<Event>)
    ensures forall id :: id in CommitIds(es) ==>
      OfCommit(es, id) != [] && exists k :: 0 <= k < |es| && es[k].commitId == id
    ensures forall k :: 0 <= k < |es| ==> es[k].commitId in CommitIds(es)
  {
    hide CommitIds, OfCommit;
    forall id | id in CommitIds(es)
      ensures OfCommit(es, id) != [] && exists k :: 0 <= k < |es| && es[k].commitId == id
    {
      CommitIdIn(es, id);
    }
    forall k | 0 <= k < |es| ensures es[k].commitId in CommitIds(es) {
      CommitIdIn(es, es[k].commitId);
    }
  }

  class StorageDatabase {
    const config: Config
    var meta: Meta
    var cells: Cells
    var counters: map<string, nat>
    var wal: seq<Entry>
    var disk: Disk
    ghost var history: seq<Commit>
    ghost var acked: nat

    /** The machine state between two commits, without the running bodies. */
    ghost function Db(): StorageCore.Db
      reads this
    {
      Up(meta, cells, counters, map[], Idle, wal, disk, history, acked)
    }

    /** `readRecord`. */
    method ReadRecord(k: Key) returns (r: Option<Record>)
      ensures r == Lookup(Live(cells), k)
    {
      r := if k in cells then cells[k].record else None;
    }

    /** `applyEvents`: group the events by collection, then apply each collection's batch. */
    method ApplyEvents(events: seq<Event>)
      modifies this`cells, this`counters
      ensures (cells, counters) == ApplyCells(old(cells), old(counters), Grouped(events))
    {
      hide Grouped, OfCollection, Names, ApplyCells;
      var names, groups := GroupEvents(events);
      GroupedBatches(events);
      ApplyGroups(names, groups, events);
    }

    /** The Map of batches `applyEvents` builds, in insertion order. */
    method GroupEvents(events: seq<Event>) returns (names: seq<string>, groups: map<string, seq<Event>>)
      ensures names == Names(events)
      ensures forall n :: n in names ==> n in groups && groups[n] == OfCollection(events, n, true)
    {
      hide OfCollection, Names;
      names, groups := [], map[];
      NamesNone();
      for i := 0 to |events|
        invariant names == Names(events[..i])
        invariant forall n :: n in groups <==> n in names
        invariant forall n :: n in groups ==> groups[n] == OfCollection(events[..i], n, true)
      {
        var e := events[i];
        var c := e.key.collection;
        assert events[..i + 1] == events[..i] + [e];
        NamesSnoc(events[..i], e);
        NamesIn(events[..i], c);
        forall n ensures OfCollection(events[..i + 1], n, true) == OfCollection(events[..i], n, true) +
          if c == n then [e] else [] {
          OfSnoc(events[..i], e, n, true);
        }
        groups := groups[c := (if c in groups then groups[c] else []) + [e]];
        if c !in names {
          names := names + [c];
        }
      }
      assert events[..|events|] == events;
    }

    method ApplyGroups(names: seq<string>, groups: map<string, seq<Event>>, ghost events: seq<Event>)
      requires forall n :: n in names ==> n in groups && groups[n] == OfCollection(events, n, true)
      modifies this`cells, this`counters
      ensures (cells, counters) == ApplyCells(old(cells), old(counters), Batches(names, events))
    {
      hide OfCollection, ApplyCells;
      ApplyNone(cells, counters);
      ghost var done: seq<Event> := [];
      for i := 0 to |names|
        invariant (cells, counters) == ApplyCells(old(cells), old(counters), done)
        invariant done + Batches(names[i..], events) == Batches(names, events)
      {
        assert names[i..][0] == names[i] && names[i..][1..] == names[i + 1..];
        assert names[i] in names;
        ghost var before := done;
        ApplyBatch(groups[names[i]]);
        ApplyAppend(old(cells), old(counters), before, groups[names[i]]);
        done := done + groups[names[i]];
        assert before + (groups[names[i]] + Batches(names[i + 1..], events)) == done + Batches(names[i + 1..], events);
      }
      assert done + [] == done;
    }

    /** `applyBatch` of one collection's store, as DocumentStore proves it. */
    method ApplyBatch(batch: seq<Event>)
      modifies this`cells, this`counters
      ensures (cells, counters) == ApplyCells(old(cells), old(counters), batch)
    {
      hide ApplyCell;
      for i := 0 to |batch|
        invariant (cells, counters) == ApplyCells(old(cells), old(counters), batch[..i])
      {
        assert batch[..i + 1][..i] == batch[..i];
        var (c, n) := ApplyCell(cells, counters, batch[i]);
        cells, counters := c, n;
      }
      assert batch[..|batch|] == batch;
    }

    /** The metadata loop shared by commit and replay. */
    method AbsorbEvents(events: seq<Event>)
      modifies this`meta
      ensures meta == AbsorbAll(old(meta), events)
    {
      for i := 0 to |events|
        invariant meta == AbsorbAll(old(meta), events[..i])
      {
        assert events[..i + 1][..i] == events[..i];
        meta := Absorb(meta, events[i]);
      }
      assert events[..|events|] == events;
    }

    /**
     * `commitTransaction` of a transaction with writes: validate, ask the scheduler, build, log, apply, finish.
     * `admitted` is the scheduler's answer; it is asked only when there is something to write.
     */
    method CommitTransaction(tx: WriteSetTransaction, context: CommitFabric.Context, admitted: bool)
      returns (entry: Option<Entry>)
      requires tx.Valid()
      modifies this
      ensures entry ==
        if StorageCore.Valid(old(Db()), tx.Tx()) && admitted then
          BuildEntry(config, old(meta).sequence, tx.writes, context)
        else None
      ensures if entry.None? then Db() == old(Db()) else
        && (cells, counters) == ApplyCells(old(cells), old(counters), Grouped(entry.value.events))
        && meta == Trim(AbsorbAll(old(meta), entry.value.events).(sequence := entry.value.result), config.retention)
        && wal == old(wal) + [entry.value]
        && disk == old(disk).(wal := old(disk).wal + [entry.value], tail :=
             if old(disk).tail.Clean? then Clean else Spoiled, cells := cells)
        && history == old(history) + [Commit(tx.Calls(), tx.writes, entry.value)] && acked == |history|
      ensures config.databaseId != "" ==> (entry.Some? <==>
        && admitted
        && (forall k :: k in tx.readVersions ==> Version(old(cells), k) == tx.readVersions[k])
        && (forall c :: c in tx.scanVersions ==> Count(old(meta).versions, c) == tx.scanVersions[c])
        && exists k :: k in tx.writes.writes && tx.writes.writes[k].before != tx.writes.writes[k].after)
      ensures config.databaseId != "" && entry.Some? ==>
        && Says(entry.value, config, old(meta).sequence, tx.writes, context)
        && Stores(old(cells), entry.value.events, cells)
        && Advances(old(meta), entry.value.events, meta, config.retention)
      ensures Buffers(tx.writes, tx.Calls())
    {
      hide StorageCore.Valid, BuildEntry, Grouped, ApplyCells, AbsorbAll, Says, Stores, Advances, Buffers, Version,
        Trim,
        TraceOk, Writes;
      TraceOkIff(tx.Calls());
      WritesOk(tx.Calls());
      if config.databaseId != "" {
        CommitMeans(config, cells, counters, meta, tx.writes, context);
      }
      entry := None;
      var ok := tx.Validate(this);
      if !ok {
        return;
      }
      entry := BuildEntry(config, meta.sequence, tx.writes, context);
      if entry.None? || !admitted {
        entry := None;
        return;
      }
      var e := entry.value;
      wal, history := wal + [e], history + [Commit(tx.Calls(), tx.writes, e)];
      disk := disk.(wal := disk.wal + [e], tail := if disk.tail.Clean? then Clean else Spoiled);
      ApplyEvents(e.events);
      AbsorbEvents(e.events);
      meta := Trim(meta.(sequence := e.result), config.retention);
      disk, acked := disk.(cells := cells), |history|;
    }

    /** The Map of groups `verifyEntryFabric` builds: the commits by first appearance, each with its events in order. */
    method GroupCommits(events: seq<Event>)
      returns (ids: seq<CommitFabric.CommitId>, groups: map<CommitFabric.CommitId, seq<Event>>)
      ensures ids == CommitIds(events)
      ensures forall id :: id in ids ==> id in groups && groups[id] == OfCommit(events, id)
    {
      hide OfCommit;
      ids, groups := [], map[];
      NoCommits();
      for i := 0 to |events|
        invariant ids == CommitIds(events[..i])
        invariant forall id :: id in groups <==> id in ids
        invariant forall id :: id in groups ==> groups[id] == OfCommit(events[..i], id)
      {
        var e := events[i];
        assert events[..i + 1] == events[..i] + [e];
        CommitIdsSnoc(events[..i], e);
        CommitIdIn(events[..i], e.commitId);
        forall id ensures OfCommit(events[..i + 1], id) == OfCommit(events[..i], id) +
          if e.commitId == id then [e] else [] {
          OfCommitSnoc(events[..i], e, id);
        }
        groups := groups[e.commitId := (if e.commitId in groups then groups[e.commitId] else []) + [e]];
        if e.commitId !in ids {
          ids := ids + [e.commitId];
        }
      }
      assert events[..|events|] == events;
    }

    /** `verifyEntryFabric`: the groups are checked by first appearance; the first mismatch ends it. */
    method VerifyEntryFabric(entry: Entry) returns (ok: bool)
      ensures ok == VerifyEntry(config, entry)
    {
      hide OfCommit, CommitIds, Rebuilt, CommitFabric.Verify;
      var ids, groups := GroupCommits(entry.events);
      CommitsOf(entry.events);
      for i := 0 to |ids|
        invariant forall j :: 0 <= j < i ==>
          OfCommit(entry.events, ids[j]) != [] &&
            CommitFabric.Verify(Rebuilt(config, entry, OfCommit(entry.events, ids[j])))
      {
        var es := groups[ids[i]];
        assert ids[i] in ids;
        if !CommitFabric.Verify(Rebuilt(config, entry, es)) {
          var k :| 0 <= k < |entry.events| && entry.events[k].commitId == ids[i];
          return false;
        }
      }
      ok := true;
    }

    /**
     * `replayWal`: the entries after the checkpoint, each checked, applied and absorbed; false when the log is refused.
     */
    method ReplayWal(entries: seq<Entry>) returns (ok: bool)
      modifies this`meta, this`cells, this`counters
      ensures ok <==> ReplayEntries(config, Recovered(old(meta), old(cells), old(counters)), entries).Recovered?
      ensures ok ==>
        ReplayEntries(config, Recovered(old(meta), old(cells), old(counters)), entries) ==
          Recovered(meta, cells, counters)
    {
      hide VerifyEntry, Grouped, ApplyCells, AbsorbAll;
      for i := 0 to |entries|
        invariant ReplayEntries(config, Recovered(old(meta), old(cells), old(counters)), entries) ==
          ReplayEntries(config, Recovered(meta, cells, counters), entries[i..])
      {
        var e := entries[i];
        assert entries[i..][0] == e && entries[i..][1..] == entries[i + 1..];
        var verified := VerifyEntryFabric(e);
        if e.databaseId != config.databaseId || e.base != meta.sequence || !verified {
          CorruptStays(config, entries[i + 1..]);
          return false;
        }
        ApplyEvents(e.events);
        AbsorbEvents(e.events);
        meta := meta.(sequence := e.result);
      }
      ok := true;
    }

    /** `checkpointNow`: checkpoint, backup, compaction, each durable before the next. */
    method CheckpointNow()
      modifies this
      ensures Enabled(config, old(Db()), WritePrimary(true))
      ensures Enabled(config, Next(config, old(Db()), WritePrimary(true)), WriteBackup)
      ensures Enabled(config, Next(config, Next(config, old(Db()), WritePrimary(true)), WriteBackup), Compact)
      ensures Db() == Next(config, Next(config, Next(config, old(Db()), WritePrimary(true)), WriteBackup), Compact)
    {
      hide After, Grouped, ReplayEntries, Open, BuildEntry, ApplyCells, ApplyCell, AbsorbAll, StorageCore.Valid, Work;
      disk := disk.(primary := Some(meta));
      disk := disk.(backup := meta);
      wal := After(wal, meta.sequence);
      disk := disk.(wal := wal, tail := Clean);
    }
  }

  lemma NamesNone()
    ensures Names([]) == []
  {
  }

  lemma ApplyNone(cells: Cells, counters: map<string, nat>)
    ensures ApplyCells(cells, counters, []) == (cells, counters)
  {
  }

  lemma {:induction false} ApplyAppend(cells: Cells, counters: map<string, nat>, a: seq<Event>, b: seq<Event>)
    ensures ApplyCells(cells, counters, a + b) == var (c, n) := ApplyCells(cells, counters, a); ApplyCells(c, n, b)
  {
    hide ApplyCell;
    if b == [] {
      assert a + b == a;
    } else {
      assert (a + b)[..|a + b| - 1] == a + b[..|b| - 1];
      ApplyAppend(cells, counters, a, b[..|b| - 1]);
    }
  }

  lemma CorruptStays(config: Config, entries: seq<Entry>)
    ensures ReplayEntries(config, Corrupt, entries) == Corrupt
  {
  }

  // ---------------------------------------------------------------- a commit is a run of the machine

  /** The machine after the first n operations of a logged commit have been applied. */
  ghost function Applied(config: Config, db: StorageCore.Db, n: nat): StorageCore.Db {
    if n == 0 then db
    else
      var before := Applied(config, db, n - 1);
      if Enabled(config, before, ApplyOne) then Next(config, before, ApplyOne) else before
  }

  lemma {:induction false} AppliedIs(config: Config, db: StorageCore.Db, n: nat)
    requires db.Up? && db.phase.Applying? && db.phase.done == 0 && n <= |Grouped(db.phase.pending.entry.events)|
    ensures var es := Grouped(db.phase.pending.entry.events)[..n];
      Applied(config, db, n) == db.(
        cells := ApplyCells(db.cells, db.counters, es).0, counters := ApplyCells(db.cells, db.counters, es).1,
        phase := Applying(db.phase.pending, n))
  {
    hide Grouped, BuildEntry, StorageCore.Valid, Work, ReplayEntries, Open, After, ApplyCell, AbsorbAll;
    if n > 0 {
      AppliedIs(config, db, n - 1);
      var es := Grouped(db.phase.pending.entry.events);
      assert es[..n][..n - 1] == es[..n - 1];
    }
  }

  /** What `CommitTransaction` does is validate, log, apply each operation and finish. */
  lemma CommitIsRun(config: Config, db: StorageCore.Db, t: nat, context: CommitFabric.Context)
    requires db.Up? && db.phase.Idle? && t in db.txs && db.txs[t].ws.writes != map[]
    requires StorageCore.Valid(db, db.txs[t]) && BuildEntry(config, db.meta.sequence, db.txs[t].ws, context).Some?
    ensures var e := BuildEntry(config, db.meta.sequence, db.txs[t].ws, context).value;
      var logged := Next(config, Next(config, db, ValidateTx(t, context)), AppendWal);
      var applied := Applied(config, logged, |Grouped(e.events)|);
      && Enabled(config, applied, Finish)
      && var (cells, counters) := ApplyCells(db.cells, db.counters, Grouped(e.events));
        Next(config, applied, Finish) == Up(
          Trim(AbsorbAll(db.meta, e.events).(sequence := e.result), config.retention), cells, counters, db.txs - {t},
            Idle, db.wal + [e],
          db.disk.(wal := db.disk.wal + [e], tail := if db.disk.tail.Clean? then Clean else Spoiled, cells := cells),
          db.history + [Commit(db.txs[t].trace, db.txs[t].ws, e)], |db.history| + 1)
  {
    hide Grouped, BuildEntry, StorageCore.Valid, Work, ReplayEntries, Open, After, AbsorbAll, ApplyCells, ApplyCell;
    var e := BuildEntry(config, db.meta.sequence, db.txs[t].ws, context).value;
    assert Grouped(e.events)[..|Grouped(e.events)|] == Grouped(e.events);
    AppliedIs(config, Next(config, Next(config, db, ValidateTx(t, context)), AppendWal), |Grouped(e.events)|);
  }
}
