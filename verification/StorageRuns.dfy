/** The invariant of the commit engine, and that every step keeps it. */
module StorageRuns {
  import opened Basics
  import opened Json
  import opened Transactions
  import opened StorageCore
  import opened CommitLog
  import opened StorageRecovery
  import opened StorageSafety
  import CommitFabric

  /** Memory and segments both show the whole history. */
  ghost predicate Settled(config: Config, db: Db)
    requires db.Up?
  {
    && Live(db.cells) == State(db.history)
    && Live(db.disk.cells) == State(db.history)
    && db.meta == MetaOf(config, db.history)
  }

  /** A batch being applied: memory is ahead of the shorter history by the operations done, the segments are not. */
  ghost predicate HalfApplied(config: Config, db: Db, c: Commit, done: nat)
    requires db.Up?
  {
    && db.history != []
    && db.history[|db.history| - 1] == c
    && done <= |Grouped(c.entry.events)|
    && var before := db.history[..|db.history| - 1];
      && Live(db.cells) == Fold(State(before), Grouped(c.entry.events)[..done])
      && Live(db.disk.cells) == State(before)
      && db.meta == MetaOf(config, before)
  }

  ghost predicate Memory(config: Config, db: Db)
    requires db.Up?
  {
    match db.phase
    case Idle => Settled(config, db)
    case NeedsCheckpoint => Settled(config, db)
    case Logging(c) => Settled(config, db) && CommitOk(config, db.history, c)
    case Applying(c, done) => HalfApplied(config, db, c, done)
    case PrimaryWritten(_) => Settled(config, db) && db.disk.primary == Some(db.meta)
    case BackupWritten(_) => Settled(config, db) && db.disk.primary == Some(db.meta) && db.disk.backup == db.meta
  }

  ghost predicate Inv(config: Config, db: Db) {
    && HistoryOk(config, db.history)
    && db.acked <= |db.history|
    && Durable(config, db.disk, db.history)
    && (db.Up? ==>
          && db.wal == db.disk.wal
          && CoversVersions(db.cells, db.counters)
          && Memory(config, db)
          && forall t :: t in db.txs ==> TxOk(ViewOf(db), db.txs[t]))
  }

  lemma InvStart(config: Config)
    ensures Inv(config, Start())
  {
    var db := Start();
    assert Live(map[]) == map[];
    assert DurableAt(config, db.disk, [], 0, 0, 0, 0);
    DurableWitness(config, db.disk, [], 0, 0, 0, 0);
  }

  lemma KeepTransactions(config: Config, db: Db, step: Step)
    requires Inv(config, db) && Enabled(config, db, step)
    requires step.BeginTx? || step.WorkTx? || step.AbandonTx?
    ensures Inv(config, Next(config, db, step))
  {
    hide HistoryOk, Durable, CoversVersions, CommitOk, TxOk, Work, State, Live, MetaOf, Grouped, Fold;
    var next := Next(config, db, step);
    assert ViewOf(next) == ViewOf(db);
    assert Memory(config, next);
    match step
    case BeginTx(t) => NewTx(ViewOf(db));
    case WorkTx(t, op) => WorkKeepsTx(db, db.txs[t], op);
    case AbandonTx(t) =>
  }

  lemma NewTx(v: View)
    ensures TxOk(v, Begin())
  {
  }

  lemma KeepValidate(config: Config, db: Db, t: nat, context: CommitFabric.Context)
    requires Inv(config, db) && Enabled(config, db, ValidateTx(t, context))
    ensures Inv(config, Next(config, db, ValidateTx(t, context)))
  {
    hide HistoryOk, Durable, CoversVersions, CommitOk, HalfApplied, BuildEntry;
    var tx, next := db.txs[t], Next(config, db, ValidateTx(t, context));
    assert ViewOf(next) == ViewOf(db);
    if next.phase.Logging? {
      ValidatedReads(db, tx);
      MetaSequence(config, db.history);
      BuiltCommitOk(config, db.history, tx.trace, tx.ws, context);
    }
    hide TxOk;
  }

  lemma EntriesSnoc(h: seq<Commit>, c: Commit, w: nat)
    requires w <= |h|
    ensures Entries((h + [c])[w..]) == Entries(h[w..]) + [c.entry]
  {
    assert (h + [c])[w..] == h[w..] + [c];
  }

  /** A durable commit that has not reached the segments leaves them right except for its own keys. */
  lemma AppendDurable(config: Config, d: Disk, h: seq<Commit>, c: Commit, tail: Tail)
    requires Durable(config, d, h) && Live(d.cells) == State(h)
    ensures Durable(config, d.(wal := d.wal + [c.entry], tail := tail), h + [c])
  {
    hide MetaOf, Entries, Live;
    var w, b, p, q := DurablePositions(config, d, h);
    EntriesSnoc(h, c, w);
    var longer, d' := h + [c], d.(wal := d.wal + [c.entry], tail := tail);
    assert longer[..b] == h[..b] && (p <= |h| ==> longer[..p] == h[..p]);
    assert RightBut(longer, d'.cells, |h|) by {
      assert longer[..|h|] == h && longer[|h|..] == [c];
      LogNext(longer, |h|);
      assert Log(longer[|h| + 1..]) == [];
      LogSplit(longer, |h|);
      forall k | LastOn(Log(longer[|h|..]), k).None? ensures Lookup(Live(d'.cells), k) == Lookup(State(longer), k) {
        FoldAt(map[], Log(h), k);
        FoldAt(map[], Log(longer), k);
        LastOnAppend(Log(h), Log(longer[|h|..]), k);
      }
    }
    assert DurableAt(config, d', longer, w, b, p, |h|);
    DurableWitness(config, d', longer, w, b, p, |h|);
  }

  lemma KeepAppend(config: Config, db: Db)
    requires Inv(config, db) && Enabled(config, db, AppendWal)
    ensures Inv(config, Next(config, db, AppendWal))
  {
    hide HistoryOk, Durable, CoversVersions, CommitOk, TxOk, Grouped, MetaOf;
    var c, next := db.phase.pending, Next(config, db, AppendWal);
    HistoryExtends(config, db.history, c);
    AppendDurable(config, db.disk, db.history, c, next.disk.tail);
    assert next.history[..|db.history|] == db.history;
    assert Grouped(c.entry.events)[..0] == [];
    assert ViewOf(next) == ViewOf(db);
  }

  lemma KeepApply(config: Config, db: Db)
    requires Inv(config, db) && Enabled(config, db, ApplyOne)
    ensures Inv(config, Next(config, db, ApplyOne))
  {
    hide HistoryOk, Durable, CommitOk, TxOk, Grouped, MetaOf, ApplyCell, CoversVersions;
    var next := Next(config, db, ApplyOne);
    var es, done := Grouped(db.phase.pending.entry.events), db.phase.done;
    assert es[..done + 1] == es[..done] + [es[done]];
    assert es[..done + 1][..done] == es[..done];
    ApplyCellLive(db.cells, db.counters, es[done]);
    forall t | t in next.txs ensures TxOk(ViewOf(next), next.txs[t]) {
      ApplyKeepsTx(ViewOf(db), ViewOf(next), db.txs[t], es[done], db.counters);
    }
  }

  lemma {:induction false} OfCollectionAppend(a: seq<Event>, b: seq<Event>, c: string)
    ensures OfCollection(a + b, c, true) == OfCollection(a, c, true) + OfCollection(b, c, true)
  {
    if a == [] {
      assert a + b == b;
    } else {
      assert (a + b)[1..] == a[1..] + b && (a + b)[0] == a[0];
      OfCollectionAppend(a[1..], b, c);
      var first := if a[0].key.collection == c then [a[0]] else [];
      var middle, last := OfCollection(a[1..], c, true), OfCollection(b, c, true);
      assert OfCollection(a + b, c, true) == first + (middle + last);
      assert first + (middle + last) == (first + middle) + last;
    }
  }

  lemma {:induction false} OfCollectionTwice(es: seq<Event>, x: string, yes: bool, c: string)
    ensures OfCollection(OfCollection(es, x, yes), c, true) == if (c == x) == yes then OfCollection(es, c, true) else []
  {
    if es != [] {
      OfCollectionTwice(es[1..], x, yes, c);
      var first := if (es[0].key.collection == x) == yes then [es[0]] else [];
      OfCollectionAppend(first, OfCollection(es[1..], x, yes), c);
    }
  }

  /** Grouping keeps each collection's events in their order. */
  lemma {:induction false} GroupedKeepsOrder(es: seq<Event>, c: string)
    ensures OfCollection(Grouped(es), c, true) == OfCollection(es, c, true)
    decreases |es|
  {
    if es != [] {
      var x := es[0].key.collection;
      OfCollectionShorter(es, x, false);
      var rest := OfCollection(es, x, false);
      GroupedKeepsOrder(rest, c);
      OfCollectionAppend(OfCollection(es, x, true), Grouped(rest), c);
      OfCollectionTwice(es, x, true, c);
      OfCollectionTwice(es, x, false, c);
    }
  }

  lemma KeepFinish(config: Config, db: Db)
    requires Inv(config, db) && Enabled(config, db, Finish)
    ensures Inv(config, Next(config, db, Finish))
  {
    hide Durable, CommitOk, TxOk, Grouped, MetaOf, CoversVersions, HistoryOk, AbsorbAll, Fold, DurableAt;
    var c, next := db.phase.pending, Next(config, db, Finish);
    var before := db.history[..|db.history| - 1];
    HistoryPrefix(config, db.history, |before|);
    assert before + [c] == db.history;
    HistoryExtends(config, before, c);
    assert Grouped(c.entry.events)[..db.phase.done] == Grouped(c.entry.events);
    FoldGrouped(State(before), c.entry.events);
    TrimTwice(config, before);
    MetaExtends(config, before, c, db.meta);
    SettleDurable(config, db.disk, db.cells, db.history);
    forall t | t in next.txs ensures TxOk(ViewOf(next), next.txs[t]) {
      FinishVersions(config, before, c, db.meta);
      FinishKeepsTx(ViewOf(db), ViewOf(next), db.txs[t]);
    }
  }

  lemma FinishVersions(config: Config, before: seq<Commit>, c: Commit, m: Meta)
    requires HistoryOk(config, before) && CommitOk(config, before, c) && m == MetaOf(config, before)
    ensures var n := AbsorbAll(m, c.entry.events);
      forall x ::
        && Count(m.versions, x) <= Count(n.versions, x)
        && (OfCollection(Grouped(c.entry.events), x, true) != [] ==> Count(m.versions, x) < Count(n.versions, x))
  {
    hide CommitOk, HistoryOk, AbsorbAll, OfCollection, Grouped, MetaOf;
    TrimTwice(config, before);
    forall x ensures
      && Count(m.versions, x) <= Count(AbsorbAll(m, c.entry.events).versions, x)
      && (OfCollection(Grouped(c.entry.events), x, true) != []
          ==> Count(m.versions, x) < Count(AbsorbAll(m, c.entry.events).versions, x))
    {
      VersionsExtend(config, before, c, m, x);
      GroupedKeepsOrder(c.entry.events, x);
    }
  }

  /** Segments that show the whole history are durable with whatever logs and checkpoints there are. */
  lemma SettleDurable(config: Config, d: Disk, cells: Cells, h: seq<Commit>)
    requires Durable(config, d, h) && Live(cells) == State(h)
    ensures Durable(config, d.(cells := cells), h)
  {
    hide MetaOf, Entries, RightBut;
    var w, b, p, q := DurablePositions(config, d, h);
    RightEverywhere(h, cells, |h|);
    assert DurableAt(config, d.(cells := cells), h, w, b, p, |h|);
    DurableWitness(config, d.(cells := cells), h, w, b, p, |h|);
  }

  lemma KeepCheckpoint(config: Config, db: Db, step: Step)
    requires Inv(config, db) && Enabled(config, db, step)
    requires step.WritePrimary? || step.WriteBackup? || step.Compact? || step.EndSave?
    ensures Inv(config, Next(config, db, step))
  {
    hide HistoryOk, CoversVersions, CommitOk, TxOk, MetaOf, HalfApplied, State, Grouped, Entries, After, Open, Work,
      ReplayEntries, BuildEntry, Valid, ApplyCell, ApplyCells, AbsorbAll, Trim;
    var h, next := db.history, Next(config, db, step);
    var n := |h|;
    var w, b, p, q := DurablePositions(config, db.disk, h);
    assert h[..n] == h;
    RightEverywhere(h, db.disk.cells, n);
    hide RightBut, Live;
    match step
    case WritePrimary(_) =>
      assert DurableAt(config, next.disk, h, w, b, n, n);
      DurableWitness(config, next.disk, h, w, b, n, n);
    case WriteBackup =>
      assert DurableAt(config, next.disk, h, w, n, n, n);
      DurableWitness(config, next.disk, h, w, n, n, n);
    case Compact =>
      MetaSequence(config, h);
      AfterCheckpoint(config, h, w, n);
      assert DurableAt(config, next.disk, h, n, n, n, n);
      DurableWitness(config, next.disk, h, n, n, n, n);
    case EndSave =>
    assert ViewOf(next) == ViewOf(db);
  }

  lemma {:induction false} GroupedMember(es: seq<Event>, e: Event)
    requires e in Grouped(es)
    ensures e in es
    decreases |es|
  {
    if es != [] {
      var c := es[0].key.collection;
      OfCollectionShorter(es, c, false);
      if e in OfCollection(es, c, true) {
        OfCollectionMember(es, c, true, e);
      } else {
        GroupedMember(OfCollection(es, c, false), e);
        OfCollectionMember(es, c, false, e);
      }
    }
  }

  lemma {:induction false} OfCollectionMember(es: seq<Event>, c: string, yes: bool, e: Event)
    requires e in OfCollection(es, c, yes)
    ensures e in es
  {
    if es != [] && e != es[0] {
      OfCollectionMember(es[1..], c, yes, e);
    }
  }

  /** Once an operation of the batch has been applied, its key holds the batch's final record. */
  lemma AppliedIsFinal(s: Content, es: seq<Event>, done: nat, k: Key)
    requires DistinctKeys(es) && done <= |Grouped(es)|
    requires exists e :: e in Grouped(es)[..done] && e.key == k
    ensures Lookup(Fold(s, Grouped(es)[..done]), k) == Lookup(Fold(s, es), k)
  {
    hide Grouped, Fold;
    var g := Grouped(es);
    FoldAt(s, g[..done], k);
    FoldAt(s, es, k);
    LastOnSome(g[..done], k);
    var e := LastOn(g[..done], k).value;
    assert e in g;
    GroupedMember(es, e);
    LastOnSome(es, k);
    var f := LastOn(es, k).value;
    var i :| 0 <= i < |es| && es[i] == e;
    var j :| 0 <= j < |es| && es[j] == f;
  }

  /**
   * Whichever of the applied operations reached the segments before a crash, those keys are final and the rest are
   * untouched.
   */
  lemma CrashedSegments(config: Config, db: Db, persisted: set<Key>, q: nat)
    requires Inv(config, db) && db.Up? && db.phase.Applying? && q <= |db.history|
    requires persisted <= (set e | e in Grouped(db.phase.pending.entry.events)[..db.phase.done] :: e.key)
    requires persisted <= db.cells.Keys && RightBut(db.history, db.disk.cells, q)
    ensures RightBut(db.history, Merged(db.disk.cells, db.cells, persisted), q)
  {
    hide Live, Merged, Durable, TxOk, CoversVersions, Grouped, MetaOf, Fold, VerifyEntry, LastReadsCurrent, TraceOk,
      Lists, Labelled, Writes, Store, NamedEntry;
    var c, h := db.phase.pending, db.history;
    var before := h[..|h| - 1];
    HistoryPrefix(config, h, |before|);
    assert before + [c] == h;
    HistoryExtends(config, before, c);
    var cells := Merged(db.disk.cells, db.cells, persisted);
    forall k | LastOn(Log(h[q..]), k).None? ensures Lookup(Live(cells), k) == Lookup(State(h), k) {
      MergedLookup(db.disk.cells, db.cells, persisted, k);
      if k in persisted {
        AppliedIsFinal(State(before), c.entry.events, db.phase.done, k);
      }
    }
  }

  lemma KeepCrash(config: Config, db: Db, persisted: set<Key>, torn: bool)
    requires Inv(config, db) && Enabled(config, db, Crash(persisted, torn))
    ensures Inv(config, Next(config, db, Crash(persisted, torn)))
  {
    hide MetaOf, Entries, RightBut, TxOk, CoversVersions, HistoryOk, Live, Settled, HalfApplied, Grouped;
    var next := Next(config, db, Crash(persisted, torn));
    var w, b, p, q := DurablePositions(config, db.disk, db.history);
    if db.phase.Applying? {
      PersistedApplied(config, db, persisted, torn);
      CrashedSegments(config, db, persisted, q);
    } else {
      assert Merged(db.disk.cells, db.cells, persisted) == db.disk.cells;
    }
    assert DurableAt(config, next.disk, db.history, w, b, p, q);
    DurableWitness(config, next.disk, db.history, w, b, p, q);
  }

  lemma PersistedApplied(config: Config, db: Db, persisted: set<Key>, torn: bool)
    requires Inv(config, db) && Enabled(config, db, Crash(persisted, torn)) && db.phase.Applying?
    ensures db.phase.done <= |Grouped(db.phase.pending.entry.events)|
    ensures persisted <= (set e | e in Grouped(db.phase.pending.entry.events)[..db.phase.done] :: e.key)
  {
    hide Durable, TxOk, CoversVersions, HistoryOk, Live, Grouped, ViewOf, Fold, State, MetaOf;
  }

  lemma KeepReopen(config: Config, db: Db, counters: map<string, nat>)
    requires Inv(config, db) && Enabled(config, db, Reopen(counters))
    ensures Inv(config, Next(config, db, Reopen(counters)))
  {
    hide HistoryOk, Durable, CoversVersions, MetaOf, Live, TxOk, Open;
    OpenRestores(config, db.disk, db.history, counters);
    var r := Open(config, db.disk, counters);
    if r.Recovered? {
      SettleDurable(config, db.disk, r.cells, db.history);
    }
  }

  lemma KeepReplayCrash(config: Config, db: Db, counters: map<string, nat>, entries: nat, events: nat,
                        persisted: set<Key>)
    requires Inv(config, db) && Enabled(config, db, CrashInReplay(counters, entries, events, persisted))
    ensures Inv(config, Next(config, db, CrashInReplay(counters, entries, events, persisted)))
  {
    hide HistoryOk, CoversVersions, MetaOf, Live, RightBut, After, ReplayEntries, ApplyCells, Grouped, VerifyEntry,
      Entries, Checkpoint, Merged;
    var d, h, next := db.disk, db.history, Next(config, db, CrashInReplay(counters, entries, events, persisted));
    var w, b, p, q := DurablePositions(config, d, h);
    OpenPosition(config, d, h, counters, w, b, p, q);
    var c := Position(d, b, p);
    ReplayCrashRight(config, h, c, Recovered(Checkpoint(d), d.cells, counters), entries, events, persisted);
    assert DurableAt(config, next.disk, h, w, b, p, c + entries);
    DurableWitness(config, next.disk, h, w, b, p, c + entries);
  }

  /** A replay cut short leaves the segments right except for keys the log touches from the interrupted commit on. */
  lemma ReplayCrashRight(config: Config, h: seq<Commit>, c: nat, start: Recovered, entries: nat, events: nat,
                         persisted: set<Key>)
    requires HistoryOk(config, h) && c <= |h| && ReplayedTo(config, h, start, c)
    requires entries < |Entries(h[c..])| && events <= |Grouped(Entries(h[c..])[entries].events)|
    requires persisted <= (set e | e in Grouped(Entries(h[c..])[entries].events)[..events] :: e.key)
    requires var r := ReplayEntries(config, start, Entries(h[c..])[..entries]);
      r.Recovered? &&
        persisted <= ApplyCells(r.cells, r.counters, Grouped(Entries(h[c..])[entries].events)[..events]).0.Keys
    ensures c + entries < |h|
    ensures var r := ReplayEntries(config, start, Entries(h[c..])[..entries]);
      && RightBut(h,
           Merged(r.cells, ApplyCells(r.cells, r.counters, Grouped(Entries(h[c..])[entries].events)[..events]).0,
             persisted), c + entries)
  {
    hide *;
    EntriesSlice(h, c, entries);
    ReplayRestores(config, h, c, start, c + entries);
    var r := ReplayEntries(config, start, Entries(h[c..])[..entries]);
    ReplayedRight(config, h, r, c + entries);
    PartialReplay(h, c + entries, r.cells, r.counters, events, persisted);
  }

  lemma EntriesSlice(h: seq<Commit>, c: nat, n: nat)
    requires c <= |h| && n < |Entries(h[c..])|
    ensures c + n < |h|
    ensures Entries(h[c..])[..n] == Entries(h[c..c + n])
    ensures Entries(h[c..])[n] == h[c + n].entry
  {
    assert h[c..c + n] == h[c..][..n];
  }

  lemma ReplayedRight(config: Config, h: seq<Commit>, r: Recovered, i: nat)
    requires ReplayedTo(config, h, r, i)
    ensures i <= |h| && r.Recovered? && RightBut(h, r.cells, i)
  {
  }

  lemma KeepLosePrimary(config: Config, db: Db)
    requires Inv(config, db) && Enabled(config, db, LosePrimary)
    ensures Inv(config, Next(config, db, LosePrimary))
  {
    hide MetaOf, Entries, RightBut, HistoryOk, Memory, CoversVersions, TxOk, Grouped;
    var next := Next(config, db, LosePrimary);
    var w, b, p, q := DurablePositions(config, db.disk, db.history);
    assert DurableAt(config, next.disk, db.history, w, b, p, q);
    DurableWitness(config, next.disk, db.history, w, b, p, q);
  }

  /** Every step of the engine keeps the invariant. */
  lemma InvStep(config: Config, db: Db, step: Step)
    requires Inv(config, db) && Enabled(config, db, step)
    ensures Inv(config, Next(config, db, step))
  {
    hide Inv, Enabled, Next;
    match step
    case BeginTx(_) => KeepTransactions(config, db, step);
    case WorkTx(_, _) => KeepTransactions(config, db, step);
    case AbandonTx(_) => KeepTransactions(config, db, step);
    case ValidateTx(t, context) => KeepValidate(config, db, t, context);
    case AppendWal => KeepAppend(config, db);
    case ApplyOne => KeepApply(config, db);
    case Finish => KeepFinish(config, db);
    case WritePrimary(_) => KeepCheckpoint(config, db, step);
    case WriteBackup => KeepCheckpoint(config, db, step);
    case Compact => KeepCheckpoint(config, db, step);
    case EndSave => KeepCheckpoint(config, db, step);
    case Crash(persisted, torn) => KeepCrash(config, db, persisted, torn);
    case LosePrimary => KeepLosePrimary(config, db);
    case Reopen(counters) => KeepReopen(config, db, counters);
    case CrashInReplay(counters, entries, events, persisted) =>
      KeepReplayCrash(config, db, counters, entries, events, persisted);
  }

  lemma {:induction false} InvRun(config: Config, states: seq<Db>, steps: seq<Step>, n: nat)
    requires Run(config, states, steps) && n <= |steps|
    ensures Inv(config, states[n])
  {
    hide Inv, Next, Enabled;
    if n == 0 {
      InvStart(config);
    } else {
      InvRun(config, states, steps, n - 1);
      InvStep(config, states[n - 1], steps[n - 1]);
    }
  }
}
