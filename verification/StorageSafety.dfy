/**
 * The two halves of the commit engine's invariant: what a disk guarantees to the next opening, and what the recorded
 * versions of a transaction say about a database that is only half way through applying another one.
 */
module StorageSafety {
  import opened Basics
  import opened Json
  import opened Transactions
  import opened StorageCore
  import opened CommitLog
  import opened StorageRecovery

  // ---------------------------------------------------------------- the durable half

  /**
   * The files against history h: the log holds the commits from w on, the checkpoints describe the first b and p
   * commits, and the segments are right except for keys the log touches from q on.
   */
  ghost predicate DurableAt(config: Config, d: Disk, h: seq<Commit>, w: nat, b: nat, p: nat, q: nat) {
    && w <= b <= q <= |h|
    && d.wal == Entries(h[w..])
    && d.backup == MetaOf(config, h[..b])
    && (d.primary.Some? ==> b <= p <= q && d.primary.value == MetaOf(config, h[..p]))
    && RightBut(h, d.cells, q)
  }

  ghost predicate Durable(config: Config, d: Disk, h: seq<Commit>) {
    exists w: nat, b: nat, p: nat, q: nat :: DurableAt(config, d, h, w, b, p, q)
  }

  lemma DurableWitness(config: Config, d: Disk, h: seq<Commit>, w: nat, b: nat, p: nat, q: nat)
    requires DurableAt(config, d, h, w, b, p, q)
    ensures Durable(config, d, h)
  {
  }

  lemma DurablePositions(config: Config, d: Disk, h: seq<Commit>) returns (w: nat, b: nat, p: nat, q: nat)
    requires Durable(config, d, h)
    ensures DurableAt(config, d, h, w, b, p, q)
  {
    w, b, p, q :| DurableAt(config, d, h, w, b, p, q);
  }

  /** Segments that show the whole history are right at every position. */
  lemma RightEverywhere(h: seq<Commit>, cells: Cells, q: nat)
    requires Live(cells) == State(h) && q <= |h|
    ensures RightBut(h, cells, q)
  {
  }

  /** The commit the checkpoint that will be read describes. */
  function Position(d: Disk, b: nat, p: nat): nat {
    if d.primary.Some? then p else b
  }

  /** The entries after that checkpoint are the commits after it, and the segments are ready to be replayed from it. */
  lemma OpenPosition(config: Config, d: Disk, h: seq<Commit>, counters: map<string, nat>, w: nat, b: nat, p: nat,
                     q: nat)
    requires HistoryOk(config, h) && DurableAt(config, d, h, w, b, p, q) && CoversVersions(d.cells, counters)
    ensures b <= Position(d, b, p) <= |h|
    ensures After(d.wal, Checkpoint(d).sequence) == Entries(h[Position(d, b, p)..])
    ensures ReplayedTo(config, h, Recovered(Checkpoint(d), d.cells, counters), Position(d, b, p))
  {
    hide HistoryOk, Log, LastN, RightBut, Live, AbsorbAll;
    var c := Position(d, b, p);
    HistoryPrefix(config, h, c);
    MetaSequence(config, h[..c]);
    AfterCheckpoint(config, h, w, c);
    RightButLess(h, d.cells, c, q);
    TrimTwice(config, h[..c]);
  }

  lemma TrimTwice(config: Config, h: seq<Commit>)
    ensures Trim(MetaOf(config, h), config.retention) == MetaOf(config, h)
  {
  }

  /** A commit whose transaction was given null for its origin or its partition lies after the checkpoint. */
  predicate UnnamedPending(d: Disk) {
    exists e :: e in After(d.wal, Checkpoint(d).sequence) && !NamedEntry(e)
  }

  lemma NamedPending(h: seq<Commit>, c: nat)
    requires c <= |h|
    ensures NamedBetween(h, c, |h|) <==> forall e :: e in Entries(h[c..]) ==> NamedEntry(e)
  {
    hide NamedEntry;
    forall i | c <= i < |h| ensures h[i].entry in Entries(h[c..]) {
      assert Entries(h[c..])[i - c] == h[i].entry;
    }
    forall e | e in Entries(h[c..]) ensures exists i :: c <= i < |h| && h[i].entry == e {
      var j :| 0 <= j < |Entries(h[c..])| && Entries(h[c..])[j] == e;
      assert h[c + j].entry == e;
    }
  }

  /**
   * Opening after a crash: unless a log line was spoiled, or a commit made without an origin or a partition lies after
   * the checkpoint, it restores exactly the fold of every durable commit and the metadata of the whole history.
   */
  lemma OpenRestores(config: Config, d: Disk, h: seq<Commit>, counters: map<string, nat>)
    requires HistoryOk(config, h) && Durable(config, d, h) && CoversVersions(d.cells, counters)
    ensures var r := Open(config, d, counters);
      && (r.Corrupt? <==> d.tail.Spoiled? || UnnamedPending(d))
      && (r.Recovered? ==>
            && Live(r.cells) == State(h)
            && r.meta == MetaOf(config, h) && Advances(FRESH, Log(h), r.meta, config.retention)
            && CoversVersions(r.cells, r.counters))
  {
    hide HistoryOk, Log, LastN, Live, AbsorbAll, Durable, ReplayEntries, After, Advances;
    MetaRecords(config, h);
    if !d.tail.Spoiled? {
      var w, b, p, q := DurablePositions(config, d, h);
      OpenPosition(config, d, h, counters, w, b, p, q);
      var c := Position(d, b, p);
      ReplayRestores(config, h, c, Recovered(Checkpoint(d), d.cells, counters), |h|);
      NamedPending(h, c);
      assert h[c..|h|] == h[c..] && h[..|h|] == h;
      var r := ReplayEntries(config, Recovered(Checkpoint(d), d.cells, counters), Entries(h[c..]));
      if NamedBetween(h, c, |h|) {
        RightButAll(h, r.cells);
      }
    }
  }

  // ---------------------------------------------------------------- running transactions

  /** What a running transaction's bookkeeping is compared with. */
  datatype View = View(cells: Cells, versions: map<string, nat>, applied: seq<Event>)

  function ViewOf(db: Db): View
    requires db.Up?
  {
    View(db.cells, db.meta.versions,
         if db.phase.Applying? && db.phase.done <= |Grouped(db.phase.pending.entry.events)|
         then Grouped(db.phase.pending.entry.events)[..db.phase.done] else [])
  }

  /** A recorded version that is still current vouches for every later look at the key. */
  ghost predicate ReadOk(v: View, tx: Tx, k: Key)
    requires k in tx.readAt
  {
    var r := tx.readAt[k];
    && r.at < |tx.trace|
    && r.version <= Version(v.cells, k)
    && (r.version == Version(v.cells, k) ==>
          forall i :: r.at <= i < |tx.trace| ==> Lookup(tx.trace[i].content, k) == Lookup(Live(v.cells), k))
  }

  /** Likewise for a scan, unless the batch being applied has already reached the collection. */
  ghost predicate ScanOk(v: View, tx: Tx, c: string)
    requires c in tx.scanAt
  {
    var r := tx.scanAt[c];
    && r.at < |tx.trace|
    && tx.trace[r.at].op == All(c)
    && r.version <= Count(v.versions, c)
    && (r.version == Count(v.versions, c) && OfCollection(v.applied, c, true) == [] ==>
          InCollection(tx.trace[r.at].content, c) == InCollection(Live(v.cells), c))
  }

  ghost predicate Recorded(tx: Tx, i: nat)
    requires i < |tx.trace|
  {
    && (TouchAt(tx.trace, i).Some? ==>
          var k := TouchAt(tx.trace, i).value;
          k in tx.readAt && tx.readAt[k].at < |tx.trace| &&
          (tx.readAt[k].at <= i ||
            (tx.trace[tx.readAt[k].at].op == Get(k) && TouchAt(tx.trace, tx.readAt[k].at) == Some(k))))
    && (tx.trace[i].op.All? ==>
          tx.trace[i].op.collection in tx.scanAt && i <= tx.scanAt[tx.trace[i].op.collection].at)
  }

  ghost predicate TxOk(v: View, tx: Tx) {
    && TraceOk(tx.trace)
    && tx.ws == Writes(tx.trace)
    && (forall k :: k in tx.readAt ==> ReadOk(v, tx, k))
    && (forall c :: c in tx.scanAt ==> ScanOk(v, tx, c))
    && (forall i :: 0 <= i < |tx.trace| ==> Recorded(tx, i))
  }

  lemma PrefixStable(trace: seq<Observation>, o: Observation, i: nat)
    requires i < |trace|
    ensures (trace + [o])[i] == trace[i]
    ensures TouchAt(trace + [o], i) == TouchAt(trace, i)
  {
    assert (trace + [o])[..i] == trace[..i];
  }

  lemma LastTouch(trace: seq<Observation>, o: Observation)
    ensures TouchAt(trace + [o], |trace|) == Touch(Writes(trace), o.op)
    ensures TraceOk(trace) && o.result == Exec(o.content, Writes(trace), o.op).0 ==> TraceOk(trace + [o])
    ensures Writes(trace + [o]) == Exec(o.content, Writes(trace), o.op).1
  {
    assert (trace + [o])[..|trace|] == trace;
  }

  /** One more call keeps the bookkeeping exact, in whatever half-applied state the database is. */
  lemma WorkKeepsTx(db: Db, tx: Tx, op: Op)
    requires db.Up? && TxOk(ViewOf(db), tx)
    ensures TxOk(ViewOf(db), Work(db, tx, op))
  {
    hide Writes, TraceOk, OfCollection, Grouped, InCollection, Exec;
    var v, tx' := ViewOf(db), Work(db, tx, op);
    var o := tx'.trace[|tx.trace|];
    assert tx'.trace == tx.trace + [o];
    LastTouch(tx.trace, o);
    forall k | k in tx'.readAt ensures ReadOk(v, tx', k) {
      WorkKeepsRead(db, tx, op, k);
    }
    forall c | c in tx'.scanAt ensures ScanOk(v, tx', c) {
      if c in tx.scanAt && tx'.scanAt[c] == tx.scanAt[c] {
        assert ScanOk(v, tx, c);
      }
    }
    forall i | 0 <= i < |tx'.trace| ensures Recorded(tx', i) {
      WorkRecords(db, tx, op, i);
    }
  }

  lemma WorkKeepsRead(db: Db, tx: Tx, op: Op, k: Key)
    requires db.Up? && TxOk(ViewOf(db), tx) && k in Work(db, tx, op).readAt
    ensures ReadOk(ViewOf(db), Work(db, tx, op), k)
  {
    hide Writes, TraceOk, OfCollection, Grouped, InCollection, Exec, Recorded, ScanOk;
    var tx' := Work(db, tx, op);
    if tx'.readAt[k].at < |tx.trace| {
      assert tx'.readAt[k] == tx.readAt[k];
      assert ReadOk(ViewOf(db), tx, k);
    }
  }

  lemma WorkRecords(db: Db, tx: Tx, op: Op, i: nat)
    requires db.Up? && TxOk(ViewOf(db), tx) && i < |Work(db, tx, op).trace|
    ensures Recorded(Work(db, tx, op), i)
  {
    hide Writes, TraceOk, OfCollection, Grouped, InCollection, Exec, ViewOf, Live, ReadOk, ScanOk, TouchAt;
    var tx' := Work(db, tx, op);
    var o := tx'.trace[|tx.trace|];
    LastTouch(tx.trace, o);
    if i < |tx.trace| {
      PrefixStable(tx.trace, o, i);
      assert Recorded(tx, i);
      if TouchAt(tx.trace, i).Some? {
        PrefixStable(tx.trace, o, tx.readAt[TouchAt(tx.trace, i).value].at);
      }
    } else if TouchAt(tx'.trace, i).Some? && TouchAt(tx'.trace, i).value in tx.readAt {
      ReadPosition(ViewOf(db), tx, TouchAt(tx'.trace, i).value);
    }
  }

  lemma ReadPosition(v: View, tx: Tx, k: Key)
    requires TxOk(v, tx) && k in tx.readAt
    ensures tx.readAt[k].at < |tx.trace|
  {
    assert ReadOk(v, tx, k);
  }

  /** Applying one operation of the batch makes every recorded version of its key stale. */
  lemma ApplyKeepsTx(v: View, w: View, tx: Tx, e: Event, counters: map<string, nat>)
    requires TxOk(v, tx) && CoversVersions(v.cells, counters)
    requires w.cells == ApplyCell(v.cells, counters, e).0 && w.versions == v.versions && w.applied == v.applied + [e]
    ensures TxOk(w, tx)
  {
    hide Writes, TraceOk, Recorded, ReadOk, ScanOk, ApplyCell;
    forall k | k in tx.readAt ensures ReadOk(w, tx, k) {
      ApplyKeepsRead(v, w, tx, e, counters, k);
    }
    forall c | c in tx.scanAt ensures ScanOk(w, tx, c) {
      ApplyKeepsScan(v, w, tx, e, counters, c);
    }
  }

  lemma ApplyKeepsRead(v: View, w: View, tx: Tx, e: Event, counters: map<string, nat>, k: Key)
    requires k in tx.readAt && ReadOk(v, tx, k) && CoversVersions(v.cells, counters)
    requires w.cells == ApplyCell(v.cells, counters, e).0
    ensures ReadOk(w, tx, k)
  {
    ApplyCellAt(v.cells, counters, e, k);
    hide ApplyCell, Live, CoversVersions;
  }

  /** A store operation either raises the version of k or leaves k alone. */
  lemma ApplyCellAt(cells: Cells, counters: map<string, nat>, e: Event, k: Key)
    requires CoversVersions(cells, counters)
    ensures var c := ApplyCell(cells, counters, e).0;
      || Version(c, k) > Version(cells, k)
      || (Version(c, k) == Version(cells, k) && Lookup(Live(c), k) == Lookup(Live(cells), k))
  {
  }

  lemma ApplyKeepsScan(v: View, w: View, tx: Tx, e: Event, counters: map<string, nat>, c: string)
    requires c in tx.scanAt && ScanOk(v, tx, c)
    requires w.cells == ApplyCell(v.cells, counters, e).0 && w.versions == v.versions && w.applied == v.applied + [e]
    ensures ScanOk(w, tx, c)
  {
    OfCollectionSnoc(v.applied, e, c);
    ApplyCellLive(v.cells, counters, e);
    hide ApplyCell, Live, OfCollection;
    if e.key.collection != c {
      assert InCollection(Live(w.cells), c) == InCollection(Live(v.cells), c);
    }
  }

  /** Finishing makes every recorded version of a touched collection stale. */
  lemma FinishKeepsTx(v: View, w: View, tx: Tx)
    requires TxOk(v, tx)
    requires w.cells == v.cells && w.applied == []
    requires forall c :: Count(v.versions, c) <= Count(w.versions, c)
    requires forall c :: OfCollection(v.applied, c, true) != [] ==> Count(v.versions, c) < Count(w.versions, c)
    ensures TxOk(w, tx)
  {
    hide Writes, TraceOk, Recorded, InCollection, Live, OfCollection;
    forall k | k in tx.readAt ensures ReadOk(w, tx, k) {
      assert ReadOk(v, tx, k);
    }
    forall c | c in tx.scanAt ensures ScanOk(w, tx, c) {
      assert ScanOk(v, tx, c);
    }
  }

  /** A validated body's last look at everything it depends on was at the content it commits against. */
  lemma ValidatedReads(db: Db, tx: Tx)
    requires db.Up? && db.phase.Idle? && TxOk(ViewOf(db), tx) && Valid(db, tx)
    ensures LastReadsCurrent(Live(db.cells), tx.trace)
  {
    hide Writes, TraceOk, InCollection, Live;
    var s := Live(db.cells);
    forall i | 0 <= i < |tx.trace|
      ensures Current(s, tx.trace, i) || exists j ::
        i < j < |tx.trace| && Rereads(tx.trace, i, j) && Current(s, tx.trace, j)
    {
      ValidatedRead(db, tx, i);
    }
  }

  lemma ValidatedRead(db: Db, tx: Tx, i: nat)
    requires db.Up? && db.phase.Idle? && TxOk(ViewOf(db), tx) && Valid(db, tx) && i < |tx.trace|
    ensures Current(Live(db.cells), tx.trace, i)
      || exists j :: i < j < |tx.trace| && Rereads(tx.trace, i, j) && Current(Live(db.cells), tx.trace, j)
  {
    hide Writes, TraceOk, InCollection, Live;
    assert Recorded(tx, i);
    if TouchAt(tx.trace, i).Some? {
      var k := TouchAt(tx.trace, i).value;
      assert ReadOk(ViewOf(db), tx, k);
      var j := tx.readAt[k].at;
      if i < j {
        assert Rereads(tx.trace, i, j) && Current(Live(db.cells), tx.trace, j);
      }
    } else if tx.trace[i].op.All? {
      var c := tx.trace[i].op.collection;
      assert ScanOk(ViewOf(db), tx, c);
      var j := tx.scanAt[c].at;
      if i < j {
        assert Rereads(tx.trace, i, j) && Current(Live(db.cells), tx.trace, j);
      }
    }
  }
}
