/** Serializability, crash recovery and log-tail safety of whole runs, and the two runs that show where they stop. */
module StorageTheorems {
  import opened Basics
  import opened Json
  import opened Transactions
  import opened TransactionCalls
  import opened StorageCore
  import opened CommitLog
  import opened StorageRecovery
  import opened StorageSafety
  import opened StorageRuns
  import CommitFabric

  /**
   * Serializability under torn applies. In every interleaving the i-th commit takes the state of the commits before it
   * to exactly what its body sees over that state: the record it put last under a key, none where it last removed one,
   * and elsewhere what was there. Its events announce exactly these changes, with the true prior records. A body that
   * scans each collection at most once was told at every call what it would have been told alone on that state, its own
   * writes first, if and only if its repeated reads repeated; running alone it would have written the same.
   */
  lemma Serializable(config: Config, states: seq<Db>, steps: seq<Step>, n: nat, i: nat)
    requires Run(config, states, steps) && n < |states| && i < |states[n].history|
    ensures var h := states[n].history;
      var s, c := State(h[..i]), h[i];
      && (forall k :: Lookup(State(h[..i + 1]), k) == Sees(c.trace, s, k))
      && Announced(c.entry.events, |Log(h[..i])|, s, c.trace)
      && (ScansOnce(c.trace) ==> (ToldAlone(s, c.trace) <==> Repeatable(c.trace)))
      && ToldThen(c.trace) && Buffers(c.ws, c.trace)
      && (ScansOnce(c.trace) && Repeatable(c.trace) ==> Buffers(c.ws, On(s, c.trace)))
  {
    hide Next, Enabled, Durable, Memory, Repeatable, AloneWrites, State, ScansOnce, HistoryOk, Told, Buffers, Own,
      Announced, Log;
    InvRun(config, states, steps, n);
    CommitFacts(config, states[n].history, i);
  }

  lemma CommitFacts(config: Config, h: seq<Commit>, i: nat)
    requires HistoryOk(config, h) && i < |h|
    ensures var s, c := State(h[..i]), h[i];
      && (forall k :: Lookup(State(h[..i + 1]), k) == Sees(c.trace, s, k))
      && Announced(c.entry.events, |Log(h[..i])|, s, c.trace)
      && (ScansOnce(c.trace) ==> (ToldAlone(s, c.trace) <==> Repeatable(c.trace)))
      && ToldThen(c.trace) && Buffers(c.ws, c.trace)
      && (ScansOnce(c.trace) && Repeatable(c.trace) ==> Buffers(c.ws, On(s, c.trace)))
  {
    hide VerifyEntry, Serial, Repeatable, AloneWrites, LastReadsCurrent, TraceOk, State, Store, Writes, ScansOnce,
      HistoryOk, Fold, Told, Buffers, Own, ToldThen, ToldAlone, Sees, Announced, Log, Lists, Labelled;
    HistoryPrefix(config, h, i);
    TraceOkIff(h[i].trace);
    SerialIff(State(h[..i]), h[i].trace);
    StoredIsSeen(State(h[..i]), h[i].ws, h[i].trace);
    BeforeImages(State(h[..i]), h[i].trace, |h[i].trace|);
    assert h[i].trace[..|h[i].trace|] == h[i].trace;
    ListsAnnounced(State(h[..i]), h[i], |Log(h[..i])|);
    HistoryExtends(config, h[..i], h[i]);
    assert h[..i] + [h[i]] == h[..i + 1];
    if ScansOnce(h[i].trace) {
      SerialIffRepeatable(State(h[..i]), h[i].trace);
    }
  }

  /**
   * The events of a commit whose body made these calls and took effect on s: one for each key whose record it changes,
   * in the order in which the body first wrote them, numbered from base, with the record before and after.
   */
  ghost predicate Announced(es: seq<Event>, base: nat, s: Content, trace: seq<Observation>) {
    && (forall k :: (exists i :: 0 <= i < |es| && es[i].key == k) <==> Sees(trace, s, k) != Lookup(s, k))
    && (forall i :: 0 <= i < |es| ==>
         && es[i].record == Sees(trace, s, es[i].key) && es[i].before == Lookup(s, es[i].key)
         && es[i].sequence == base + i + 1
         && es[i].kind == (if es[i].record.None? then Deleted else if es[i].before.None? then Inserted else Upserted)
         && es[i].fields == ChangedFields(es[i].before, es[i].record))
    && (forall i, j, a: nat, b: nat ::
          0 <= i < j < |es| && FirstTo(trace, es[i].key, a) && FirstTo(trace, es[j].key, b) ==> a < b)
  }

  lemma ListsAnnounced(s: Content, c: Commit, base: nat)
    requires EffectOk(s, c) && Buffers(c.ws, c.trace) && Numbered(c.entry.events, base)
    requires forall k :: Lookup(Store(s, c.ws), k) == Sees(c.trace, s, k)
    requires forall k :: k in c.ws.writes ==> c.ws.writes[k].before == Lookup(s, k)
    ensures Announced(c.entry.events, base, s, c.trace)
  {
    hide Own, Fold, TraceOk, Writes, LastReadsCurrent, ChangedFields, Store, FirstTo, Sees, Buffers;
    var es := c.entry.events;
    forall k ensures k in c.ws.writes && c.ws.writes[k].before != c.ws.writes[k].after <==>
      Sees(c.trace, s, k) != Lookup(s, k) {
      WrittenSeen(s, c.ws, c.trace, k);
    }
    forall i | 0 <= i < |es|
      ensures es[i] in es && es[i].record == Sees(c.trace, s, es[i].key)
      ensures es[i].kind == if es[i].record.None? then Deleted else if es[i].before.None? then Inserted else Upserted
    {
      WrittenSeen(s, c.ws, c.trace, es[i].key);
      assert Labelled(es[i]);
      assert es[i].kind == Deleted || es[i].kind == Inserted || es[i].kind == Upserted;
    }
    forall i, j, a: nat, b: nat | 0 <= i < j < |es| && FirstTo(c.trace, es[i].key, a) && FirstTo(c.trace, es[j].key, b)
      ensures a < b
    {
      InOrderFirst(c.ws, c.trace, es, i, j, a, b);
    }
  }

  lemma WrittenSeen(s: Content, ws: WriteSet, trace: seq<Observation>, k: Key)
    requires Buffers(ws, trace)
    ensures Sees(trace, s, k) == if k in ws.writes then ws.writes[k].after else Lookup(s, k)
  {
    hide Own;
  }

  lemma InOrderFirst(ws: WriteSet, trace: seq<Observation>, es: seq<Event>, i: nat, j: nat, a: nat, b: nat)
    requires Buffers(ws, trace) && Lists(es, ws) && i < j < |es|
    requires FirstTo(trace, es[i].key, a) && FirstTo(trace, es[j].key, b)
    ensures a < b
  {
    hide Own, FirstTo;
    assert es[i].key in ws.order && es[j].key in ws.order;
    var x :| 0 <= x < |ws.order| && ws.order[x] == es[i].key;
    var y :| 0 <= y < |ws.order| && ws.order[y] == es[j].key;
    assert x < y;
  }

  lemma StoredIsSeen(s: Content, ws: WriteSet, trace: seq<Observation>)
    requires Buffers(ws, trace)
    ensures forall k :: Lookup(Store(s, ws), k) == Sees(trace, s, k)
  {
    hide Own;
  }

  /** At rest the records shown are the committed ones; so they are whenever a body is validated. */
  lemma CommittedAtRest(config: Config, states: seq<Db>, steps: seq<Step>, n: nat)
    requires Run(config, states, steps) && n <= |steps| && states[n].Up? && !states[n].phase.Applying?
    ensures Live(states[n].cells) == State(states[n].history)
    ensures Advances(FRESH, Log(states[n].history), states[n].meta, config.retention)
  {
    hide Advances, Next, Enabled, Run, Durable, HistoryOk, TxOk, CoversVersions, MetaOf, State, Live;
    RunShape(config, states, steps);
    MetaRecords(config, states[n].history);
    InvRun(config, states, steps, n);
  }

  /** Commits are only ever added. */
  lemma {:induction false} HistoryGrows(config: Config, states: seq<Db>, steps: seq<Step>, m: nat, n: nat)
    requires Run(config, states, steps) && m <= n <= |steps|
    ensures states[m].history <= states[n].history
    ensures states[m].acked <= |states[n].history|
  {
    hide Next, Enabled, Inv;
    if m == n {
      InvRun(config, states, steps, n);
      AckedInHistory(config, states[n]);
    } else {
      HistoryGrows(config, states, steps, m, n - 1);
      StepGrows(config, states[n - 1], steps[n - 1]);
    }
  }

  lemma AckedInHistory(config: Config, db: Db)
    requires Inv(config, db)
    ensures db.acked <= |db.history|
  {
    hide HistoryOk, Durable, Memory, TxOk;
  }

  lemma StepGrows(config: Config, db: Db, step: Step)
    requires Enabled(config, db, step)
    ensures db.history <= Next(config, db, step).history
  {
    hide Grouped, ReplayEntries, Open, BuildEntry, Work, ApplyCells, ApplyCell, AbsorbAll, Valid, After;
  }

  /**
   * Crash recovery. Wherever the run stopped (before or after a log append, in the middle of an apply, between primary,
   * backup and compaction, with the primary lost, or inside an earlier recovery), opening restores exactly the fold of
   * every durable commit with the metadata of the whole history, and every commit acknowledged at any earlier time is
   * among them. It fails exactly when a log line was spoiled, or when a commit whose transaction was given null for its
   * origin or its partition lies after the checkpoint.
   */
  lemma Recovery(config: Config, states: seq<Db>, steps: seq<Step>, n: nat, m: nat, counters: map<string, nat>)
    requires Run(config, states, steps) && m <= n <= |steps|
    requires states[n].Down? && CoversVersions(states[n].disk.cells, counters)
    ensures var db, r := states[n], Open(config, states[n].disk, counters);
      && (r.Corrupt? <==> db.disk.tail.Spoiled? || UnnamedPending(db.disk))
      && (r.Recovered? ==>
            && Live(r.cells) == State(db.history)
            && Advances(FRESH, Log(db.history), r.meta, config.retention)
            && states[m].acked <= |db.history| && states[m].history <= db.history)
  {
    hide Next, Enabled, Memory, Durable, HistoryOk, Open, MetaOf, CoversVersions, Live, State, TxOk, Advances;
    InvRun(config, states, steps, n);
    HistoryGrows(config, states, steps, m, n);
    OpenRestores(config, states[n].disk, states[n].history, counters);
  }

  // ---------------------------------------------------------------- the log's tail

  /** An append found a torn last line, and no compaction has rewritten the file since. */
  ghost predicate TornAppend(states: seq<Db>, steps: seq<Step>, n: nat)
    requires |states| == |steps| + 1 && n <= |steps|
  {
    exists i :: 0 <= i < n && steps[i] == AppendWal && !states[i].disk.tail.Clean? && NoCompact(steps, i, n)
  }

  ghost predicate NoCompact(steps: seq<Step>, i: nat, n: nat)
    requires n <= |steps|
  {
    forall j :: i < j < n ==> steps[j] != Compact
  }

  lemma StepTail(config: Config, db: Db, step: Step)
    requires Enabled(config, db, step)
    ensures Next(config, db, step).disk.tail.Spoiled? <==>
      step != Compact && (db.disk.tail.Spoiled? || (step == AppendWal && !db.disk.tail.Clean?))
  {
    hide Grouped, ReplayEntries, Open, BuildEntry, Work, ApplyCells, ApplyCell, AbsorbAll, Valid, After;
  }

  /** Exactly when a database can no longer be opened. */
  lemma {:induction false} SpoiledIffTornAppend(config: Config, states: seq<Db>, steps: seq<Step>, n: nat)
    requires Run(config, states, steps) && n <= |steps|
    ensures states[n].disk.tail.Spoiled? <==> TornAppend(states, steps, n)
  {
    hide Next, Enabled;
    if n > 0 {
      SpoiledIffTornAppend(config, states, steps, n - 1);
      StepTail(config, states[n - 1], steps[n - 1]);
      if TornAppend(states, steps, n - 1) && steps[n - 1] != Compact {
        var i :| 0 <= i < n - 1 && steps[i] == AppendWal && !states[i].disk.tail.Clean? && NoCompact(steps, i, n - 1);
        assert NoCompact(steps, i, n);
      }
      if steps[n - 1] == AppendWal && !states[n - 1].disk.tail.Clean? {
        assert NoCompact(steps, n - 1, n);
      }
      if TornAppend(states, steps, n) {
        var i :| 0 <= i < n && steps[i] == AppendWal && !states[i].disk.tail.Clean? && NoCompact(steps, i, n);
        if i < n - 1 {
          assert NoCompact(steps, i, n - 1);
        }
      }
    }
  }

  // ---------------------------------------------------------------- where the properties stop

  lemma RunExtends(config: Config, states: seq<Db>, steps: seq<Step>, step: Step)
    requires Run(config, states, steps) && Enabled(config, states[|steps|], step)
    ensures Run(config, states + [Next(config, states[|steps|], step)], steps + [step])
  {
    hide Enabled, Next;
    var states', steps' := states + [Next(config, states[|steps|], step)], steps + [step];
    forall i | 0 <= i < |steps'|
      ensures Enabled(config, states'[i], steps'[i]) && states'[i + 1] == Next(config, states'[i], steps'[i])
    {
      if i < |steps| {
        assert states'[i] == states[i] && states'[i + 1] == states[i + 1];
      }
    }
  }

  const CONTEXT := CommitFabric.Context(Some("local"), 0, "t", Some("local"), {})

  /** The last steps of a transaction t that has just put a new record: validated, and on its way to the log. */
  lemma ValidatePut(config: Config, db: Db, t: nat, k: Key, r: Record, context: CommitFabric.Context)
    requires db.Up? && db.phase.Idle? && t in db.txs && config.databaseId != ""
    requires db.txs[t].ws == WriteSet(map[k := Write(None, Some(r))], [k])
    requires Valid(db, db.txs[t])
    ensures Enabled(config, db, ValidateTx(t, context))
    ensures var next := Next(config, db, ValidateTx(t, context));
      && next.Up? && next.phase.Logging?
      && next.phase.pending.trace == db.txs[t].trace
      && |next.phase.pending.entry.events| == 1
      && next.phase.pending.entry.events[0].key == k
      && next.phase.pending.entry.events[0].record == Some(r)
      && next.phase.pending.entry.result == db.meta.sequence + 1
      && (NamedEntry(next.phase.pending.entry) <==> context.Named())
      && next == db.(txs := db.txs - {t}, phase := next.phase)
  {
    var ws := db.txs[t].ws;
    ChangedIn(ws, ws.order);
    assert Changed(ws, ws.order) == [k];
    var next := Next(config, db, ValidateTx(t, context));
    var e := next.phase.pending.entry.events[0];
    assert next.phase.pending.entry.events == [e];
    assert e.origin == context.origin && e.partitionId == context.partitionId;
  }

  lemma GroupedOne(e: Event)
    ensures Grouped([e]) == [e]
  {
    var c := e.key.collection;
    assert OfCollection([e], c, true) == [e] && OfCollection([e], c, false) == [];
  }

  /** A fresh transaction t that puts the new record r and is validated: from rest to the brink of the log append. */
  lemma PutToLog(config: Config, states: seq<Db>, steps: seq<Step>, t: nat, c: string, r: Record,
                 context: CommitFabric.Context)
    returns (states': seq<Db>, steps': seq<Step>)
    requires Run(config, states, steps) && config.databaseId != ""
    requires var db := states[|steps|];
      db.Up? && db.phase.Idle? && t !in db.txs && Lookup(Live(db.cells), Key(c, r.id)).None?
    ensures Run(config, states', steps')
    ensures var db, next := states[|steps|], states'[|steps'|];
      && next.Up? && next.phase.Logging?
      && |next.phase.pending.entry.events| == 1
      && next.phase.pending.entry.events[0].key == Key(c, r.id)
      && next.phase.pending.entry.events[0].record == Some(r)
      && next.phase.pending.entry.result == db.meta.sequence + 1
      && (NamedEntry(next.phase.pending.entry) <==> context.Named())
      && next == db.(phase := next.phase)
  {
    var k := Key(c, r.id);
    var s0 := states[|steps|];
    var b := BeginTx(t);
    RunExtends(config, states, steps, b);
    var s1 := Next(config, s0, b);
    var w := WorkTx(t, Put(c, r));
    RunExtends(config, states + [s1], steps + [b], w);
    var s2 := Next(config, s1, w);
    assert s2.txs[t].ws == WriteSet(map[k := Write(None, Some(r))], [k]);
    assert s2.txs[t].readAt == map[k := Recorded(Version(s0.cells, k), 0)];
    ValidatePut(config, s2, t, k, r, context);
    var v := ValidateTx(t, context);
    RunExtends(config, states + [s1] + [s2], steps + [b] + [w], v);
    assert s2.txs - {t} == s0.txs;
    states', steps' := states + [s1] + [s2] + [Next(config, s2, v)], steps + [b] + [w] + [v];
  }

  /** From the brink of the append of a single put to rest: the commit is acknowledged and its record shown. */
  lemma LogToRest(config: Config, states: seq<Db>, steps: seq<Step>) returns (states': seq<Db>, steps': seq<Step>)
    requires Run(config, states, steps)
    requires var db := states[|steps|];
      db.Up? && db.phase.Logging? && |db.phase.pending.entry.events| == 1 &&
        db.phase.pending.entry.events[0].record.Some?
    ensures Run(config, states', steps')
    ensures var db, next := states[|steps|], states'[|steps'|];
      var e := db.phase.pending.entry.events[0];
      && next.Up? && next.phase.Idle? && next.txs == db.txs
      && next.cells == ApplyCell(db.cells, db.counters, e).0
      && next.history == db.history + [db.phase.pending]
      && next.acked == |next.history|
      && next.disk == db.disk.(cells := next.cells, wal := db.disk.wal + [db.phase.pending.entry],
                               tail := if db.disk.tail.Clean? then Clean else Spoiled)
  {
    var s0 := states[|steps|];
    var es := s0.phase.pending.entry.events;
    assert es == [es[0]];
    GroupedOne(es[0]);
    RunExtends(config, states, steps, AppendWal);
    var s1 := Next(config, s0, AppendWal);
    RunExtends(config, states + [s1], steps + [AppendWal], ApplyOne);
    var s2 := Next(config, s1, ApplyOne);
    RunExtends(config, states + [s1] + [s2], steps + [AppendWal] + [ApplyOne], Finish);
    states' := states + [s1] + [s2] + [Next(config, s2, Finish)];
    steps' := steps + [AppendWal] + [ApplyOne] + [Finish];
  }

  /**
   * The first append of a database is torn by a crash; the reopening has nothing to replay and leaves the file as it
   * is.
   */
  lemma TornReopen(config: Config, states: seq<Db>, steps: seq<Step>) returns (states': seq<Db>, steps': seq<Step>)
    requires Run(config, states, steps)
    requires var db := states[|steps|]; db.Up? && db.phase.Logging? && db == Start().(phase := db.phase)
    ensures Run(config, states', steps')
    ensures states'[|steps'|] ==
      Up(FRESH, map[], map[], map[], Idle, [], Disk(map[], [], Torn, Some(FRESH), FRESH), [], 0)
  {
    var torn, reopen := Crash({}, true), Reopen(map[]);
    RunExtends(config, states, steps, torn);
    var s1 := Next(config, states[|steps|], torn);
    assert s1 == Down(Disk(map[], [], Torn, Some(FRESH), FRESH), [], 0);
    RunExtends(config, states + [s1], steps + [torn], reopen);
    var s2 := Next(config, s1, reopen);
    assert Open(config, s1.disk, map[]) == Recovered(FRESH, map[], map[]);
    states', steps' := states + [s1] + [s2], steps + [torn] + [reopen];
  }

  /**
   * A torn append, a reopening that had nothing to replay (so it did not rewrite the file), one acknowledged commit and
   * a second crash: the database no longer opens.
   */
  lemma TornTailLosesCommit() returns (config: Config, states: seq<Db>, steps: seq<Step>)
    ensures Run(config, states, steps)
    ensures var last := states[|steps|];
      last.Down? && last.acked == 1 && Open(config, last.disk, map[]).Corrupt?
  {
    hide Next, Enabled;
    config := Config("db", 10);
    states, steps := [Start()], [];
    assert Live(map[]) == map[];
    states, steps := PutToLog(config, states, steps, 0, "c", Record("a", map[]), CONTEXT);
    states, steps := TornReopen(config, states, steps);
    states, steps := PutToLog(config, states, steps, 0, "c", Record("b", map[]), CONTEXT);
    states, steps := LogToRest(config, states, steps);
    states, steps := CrashAtRest(config, states, steps);
  }

  /**
   * One commit of a transaction that was given null for its origin or its partition, acknowledged, and a crash: the
   * database no longer opens.
   */
  lemma NullOriginLosesCommit(context: CommitFabric.Context)
    returns (config: Config, states: seq<Db>, steps: seq<Step>)
    requires !context.Named()
    ensures Run(config, states, steps)
    ensures var last := states[|steps|];
      && last.Down? && last.acked == 1 && last.disk.tail.Clean?
      && forall counters :: CoversVersions(last.disk.cells, counters) ==> Open(config, last.disk, counters).Corrupt?
  {
    hide Next, Enabled, Open, After, NamedEntry, Run;
    config := Config("db", 10);
    states, steps := [Start()], [];
    assert Live(map[]) == map[];
    assert Run(config, states, steps) by { RunStart(config); }
    states, steps := PutToLog(config, states, steps, 0, "c", Record("a", map[]), context);
    RunShape(config, states, steps);
    var entry := states[|steps|].phase.pending.entry;
    states, steps := LogToRest(config, states, steps);
    RunShape(config, states, steps);
    states, steps := CrashAtRest(config, states, steps);
    RunShape(config, states, steps);
    var last := states[|steps|];
    assert last.disk.wal == [entry] && Checkpoint(last.disk).sequence == 0;
    OnlyPending(entry);
    assert UnnamedPending(last.disk);
    InvRun(config, states, steps, |steps|);
    hide *;
    forall counters | CoversVersions(last.disk.cells, counters) ensures Open(config, last.disk, counters).Corrupt? {
      OpensOrNot(config, last, counters);
    }
  }

  lemma OpensOrNot(config: Config, db: Db, counters: map<string, nat>)
    requires Inv(config, db) && db.Down? && CoversVersions(db.disk.cells, counters)
    ensures Open(config, db.disk, counters).Corrupt? <==> db.disk.tail.Spoiled? || UnnamedPending(db.disk)
  {
    hide Open, HistoryOk, Durable, CoversVersions, UnnamedPending;
    OpenRestores(config, db.disk, db.history, counters);
  }

  lemma RunStart(config: Config)
    ensures Run(config, [Start()], [])
  {
  }

  lemma OnlyPending(e: Entry)
    requires e.result > 0
    ensures After([e], 0) == [e]
  {
  }

  lemma CrashAtRest(config: Config, states: seq<Db>, steps: seq<Step>) returns (states': seq<Db>, steps': seq<Step>)
    requires Run(config, states, steps) && states[|steps|].Up?
    ensures Run(config, states', steps')
    ensures var db, next := states[|steps|], states'[|steps'|];
      next.Down? && next.acked == db.acked && next.disk.wal == db.disk.wal && next.disk.tail == db.disk.tail &&
        next.disk.primary == db.disk.primary
  {
    var crash := Crash({}, false);
    RunExtends(config, states, steps, crash);
    states', steps' := states + [Next(config, states[|steps|], crash)], steps + [crash];
  }

  /** Transaction 0 asks for a key of the empty database. */
  lemma EarlyRead(config: Config, k: Key) returns (states: seq<Db>, steps: seq<Step>)
    ensures Run(config, states, steps)
    ensures states[|steps|] ==
      Start().(txs := map[0 := Tx(NO_WRITES, map[k := Recorded(0, 0)], map[],
        [Observation(Get(k), Found(None), map[])])])
  {
    states, steps := [Start()], [];
    RunExtends(config, states, steps, BeginTx(0));
    var s1 := Next(config, Start(), BeginTx(0));
    var get := WorkTx(0, Get(k));
    RunExtends(config, states + [s1], steps + [BeginTx(0)], get);
    var s2 := Next(config, s1, get);
    assert Live(map[]) == map[];
    assert s1.txs[0] == Begin();
    assert s2.txs[0].trace == [Observation(Get(k), Found(None), map[])];
    assert s2.txs[0].readAt == map[k := Recorded(0, 0)];
    assert s2.txs[0].scanAt == map[] && s2.txs[0].ws == NO_WRITES;
    assert s2.txs == map[0 := s2.txs[0]];
    assert s2 == Start().(txs := s2.txs);
    states, steps := [Start()] + [s1] + [s2], [] + [BeginTx(0)] + [get];
  }

  /** It asks again, puts another record and is validated, although the key has changed in between. */
  lemma LateRead(config: Config, states: seq<Db>, steps: seq<Step>, k: Key, q: Key, r: Record, y: Record,
                 early: Observation)
    returns (states': seq<Db>, steps': seq<Step>)
    requires Run(config, states, steps) && config.databaseId != "" && q != k && q.id == y.id
    requires var db := states[|steps|];
      && db.Up? && db.phase.Idle? && db.cells == map[k := Cell(1, Some(r))]
      && 0 in db.txs && db.txs[0] == Tx(NO_WRITES, map[k := Recorded(0, 0)], map[], [early])
    ensures Run(config, states', steps')
    ensures var db, next := states[|steps|], states'[|steps'|];
      && next.Up? && next.phase.Logging? && next.history == db.history
      && |next.phase.pending.entry.events| == 1 && next.phase.pending.entry.events[0].record.Some?
      && next.phase.pending.trace == [early, Observation(Get(k), Found(Some(r)), map[k := r]),
                                      Observation(Put(q.collection, y), Done, map[k := r])]
  {
    hide Next, Enabled;
    var s0 := states[|steps|];
    var get, put := WorkTx(0, Get(k)), WorkTx(0, Put(q.collection, y));
    var late := Observation(Get(k), Found(Some(r)), map[k := r]);
    LateGet(config, s0, k, r, early);
    RunExtends(config, states, steps, get);
    var s1 := Next(config, s0, get);
    LatePut(config, s1, k, q, r, y, [early, late]);
    RunExtends(config, states + [s1], steps + [get], put);
    var s2 := Next(config, s1, put);
    assert [early, late] + [Observation(Put(q.collection, y), Done, map[k := r])] ==
      [early, late, Observation(Put(q.collection, y), Done, map[k := r])];
    ValidatePut(config, s2, 0, q, y, CONTEXT);
    var validate := ValidateTx(0, CONTEXT);
    RunExtends(config, states + [s1] + [s2], steps + [get] + [put], validate);
    states' := states + [s1] + [s2] + [Next(config, s2, validate)];
    steps' := steps + [get] + [put] + [validate];
  }

  lemma LateGet(config: Config, db: Db, k: Key, r: Record, early: Observation)
    requires db.Up? && db.phase.Idle? && db.cells == map[k := Cell(1, Some(r))]
    requires 0 in db.txs && db.txs[0] == Tx(NO_WRITES, map[k := Recorded(0, 0)], map[], [early])
    ensures var get, late := WorkTx(0, Get(k)), Observation(Get(k), Found(Some(r)), map[k := r]);
      && Enabled(config, db, get)
      && Next(config, db, get) ==
           db.(txs := db.txs[0 := Tx(NO_WRITES, map[k := Recorded(1, 1)], map[], [early, late])])
  {
    assert Live(db.cells) == map[k := r];
    assert map[k := Recorded(0, 0)][k := Recorded(1, 1)] == map[k := Recorded(1, 1)];
    assert [early] + [Observation(Get(k), Found(Some(r)), map[k := r])] ==
      [early, Observation(Get(k), Found(Some(r)), map[k := r])];
  }

  lemma LatePut(config: Config, db: Db, k: Key, q: Key, r: Record, y: Record, trace: seq<Observation>)
    requires db.Up? && db.phase.Idle? && db.cells == map[k := Cell(1, Some(r))] && q != k && q.id == y.id &&
      |trace| == 2
    requires 0 in db.txs && db.txs[0] == Tx(NO_WRITES, map[k := Recorded(1, 1)], map[], trace)
    ensures var put := WorkTx(0, Put(q.collection, y));
      && Enabled(config, db, put)
      && Next(config, db, put) ==
           db.(txs := db.txs[0 := Tx(WriteSet(map[q := Write(None, Some(y))], [q]),
                                     map[k := Recorded(1, 1), q := Recorded(0, 2)], map[],
                                     trace + [Observation(Put(q.collection, y), Done, map[k := r])])])
  {
    assert Live(db.cells) == map[k := r];
    assert Key(q.collection, y.id) == q;
    assert map[k := Recorded(1, 1)][q := Recorded(0, 2)] == map[k := Recorded(1, 1), q := Recorded(0, 2)];
    assert NO_WRITES.writes[q := Write(None, Some(y))] == map[q := Write(None, Some(y))];
    assert NO_WRITES.order + [q] == [q];
  }

  /**
   * A body that reads a key, lets another commit change it, reads it again and then commits saw two different states.
   */
  lemma RereadIsNotSerial() returns (config: Config, states: seq<Db>, steps: seq<Step>)
    ensures Run(config, states, steps)
    ensures var h := states[|steps|].history;
      |h| == 2 && ScansOnce(h[1].trace) && !ToldAlone(State(h[..1]), h[1].trace)
  {
    hide Next, Enabled, Run, ToldAlone, Repeatable;
    config := Config("db", 10);
    var k, r := Key("c", "x"), Record("x", map[]);
    var q, y := Key("d", "y"), Record("y", map[]);
    var early := Observation(Get(k), Found(None), map[]);
    states, steps := EarlyRead(config, k);
    assert Live(map[]) == map[];
    RunShape(config, states, steps);
    states, steps := PutToLog(config, states, steps, 1, "c", r, CONTEXT);
    RunShape(config, states, steps);
    states, steps := LogToRest(config, states, steps);
    RunShape(config, states, steps);
    states, steps := LateRead(config, states, steps, k, q, r, y, early);
    RunShape(config, states, steps);
    var trace := states[|steps|].phase.pending.trace;
    states, steps := LogToRest(config, states, steps);
    RunShape(config, states, steps);
    assert states[|steps|].history[1].trace == trace;
    NotRepeatable(trace, k);
    Serializable(config, states, steps, |steps|, 1);
  }

  lemma RunShape(config: Config, states: seq<Db>, steps: seq<Step>)
    requires Run(config, states, steps)
    ensures |states| == |steps| + 1
  {
  }

  lemma NotRepeatable(trace: seq<Observation>, k: Key)
    requires |trace| >= 2 && trace[0].op == Get(k) && trace[1].op == Get(k)
    requires Answer(trace[0]) != Answer(trace[1])
    ensures !Repeatable(trace)
  {
    assert trace[..0] == [];
    assert Writes(trace[..1]) == NO_WRITES by { assert trace[..1][..0] == []; }
    assert TouchAt(trace, 0) == Some(k) && TouchAt(trace, 1) == Some(k);
  }
}
