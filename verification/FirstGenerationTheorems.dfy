/**
 * What every run of the first-generation engine of src/index.js keeps, and exactly when recovery agrees with memory.
 */
module FirstGenerationTheorems {
  import opened Basics
  import opened Json
  import opened FirstGeneration
  import opened FirstGenerationRuns

  lemma InvStart(retention: nat)
    ensures Inv(Start(), retention)
  {
    var db := Start();
    assert DurableAt(db.disk, db.history, retention, 0, 0, 0);
  }

  lemma StatesSnoc(h: seq<Entry>, e: Entry, retention: nat)
    ensures (h + [e])[..|h|] == h
    ensures StateOf(h, retention).Some? ==>
      StateOf(h + [e], retention) == ReplayEntry(StateOf(h, retention).value, e, retention)
  {
    hide ReplayEntry;
    assert (h + [e])[..|h|] == h;
  }

  lemma AppendDurable(d: Disk, h: seq<Entry>, e: Entry, tail: Tail, retention: nat)
    requires Durable(d, h, retention)
    ensures Durable(d.(wal := d.wal + [e], tail := tail), h + [e], retention)
  {
    hide StateOf;
    var w: nat, b: nat, p: nat :| DurableAt(d, h, retention, w, b, p);
    assert (h + [e])[w..] == h[w..] + [e];
    assert (h + [e])[..b] == h[..b];
    if d.primary.Some? {
      assert (h + [e])[..p] == h[..p];
    }
    assert DurableAt(d.(wal := d.wal + [e], tail := tail), h + [e], retention, w, b, p);
  }

  lemma HistoryExtends(h: seq<Entry>, e: Entry, s: State, draft: State, retention: nat)
    requires HistoryOk(h, retention) && Some(s) == StateOf(h, retention) && ReplayEntry(s, e, retention) == Some(draft)
    requires Good(draft, retention) && e.base == s.sequence < e.result == draft.sequence
    ensures HistoryOk(h + [e], retention) && StateOf(h + [e], retention) == Some(draft)
  {
    hide ReplayEntry, StateOf, Good;
    StateSome(h, retention);
    StatesSnoc(h, e, retention);
  }

  lemma KeepWrite(db: Db, w: Write, retention: nat)
    requires Inv(db, retention) && Enabled(db, Write(w), retention) && Recoverable(db, Write(w), retention)
    ensures Inv(Next(db, Write(w), retention), retention)
  {
    hide StateOf, Durable, ReplayEntry, Good, Draft, EffectOf, Honest, Faithful, HistoryOk, Open, After, EventsOf;
    var e := EffectOf(db.state, w);
    if e.changes != [] {
      var entry, draft := EntryOf(db.state, e), Draft(db.state, e, retention);
      StateSome(db.history, retention);
      ReplaysIffFaithful(db.state, e, retention);
      HistoryExtends(db.history, entry, db.state, draft, retention);
      AppendDurable(db.disk, db.history, entry, if db.disk.tail.Clean? then Clean else Spoiled, retention);
      assert (db.history + [entry])[..|db.history|] == db.history;
    }
  }

  lemma CheckpointDurable(d: Disk, h: seq<Entry>, s: State, retention: nat)
    requires HistoryOk(h, retention) && Durable(d, h, retention) && Some(s) == StateOf(h, retention)
    ensures Durable(d.(primary := Some(s)), h, retention)
    ensures d.primary == Some(s) ==> Durable(d.(backup := s), h, retention)
    ensures d.primary == Some(s) && d.backup == s ==>
      Durable(d.(wal := After(d.wal, s.sequence), tail := Clean), h, retention)
  {
    hide StateOf, HistoryOk, After;
    var w: nat, b: nat, p: nat :| DurableAt(d, h, retention, w, b, p);
    assert h[..|h|] == h;
    assert DurableAt(d.(primary := Some(s)), h, retention, w, b, |h|);
    if d.primary == Some(s) {
      assert DurableAt(d.(backup := s), h, retention, w, |h|, |h|);
      if d.backup == s {
        AfterCheckpoint(h, retention, w, |h|);
        assert DurableAt(d.(wal := After(d.wal, s.sequence), tail := Clean), h, retention, |h|, |h|, |h|);
      }
    }
  }

  lemma KeepCheckpoint(db: Db, step: Step, retention: nat)
    requires Inv(db, retention) && Enabled(db, step, retention) &&
      (step.WritePrimary? || step.WriteBackup? || step.Compact?)
    ensures Inv(Next(db, step, retention), retention)
  {
    hide StateOf, HistoryOk, After, Durable, EffectOf, Draft, Honest, EntryOf, Open, RereadState, Tidy, PlainContent,
      PlainEvents;
    CheckpointDurable(db.disk, db.history, db.state, retention);
    StateSome(db.history, retention);
    if db.phase.Idle? || db.phase.PrimaryWritten? {
      RereadPlainState(db.state);
    }
  }

  lemma DownDurable(d: Disk, h: seq<Entry>, tail: Tail, retention: nat)
    requires Durable(d, h, retention)
    ensures Durable(d.(tail := tail), h, retention) && Durable(d.(primary := None), h, retention)
  {
    hide StateOf;
    var w: nat, b: nat, p: nat :| DurableAt(d, h, retention, w, b, p);
    assert DurableAt(d.(tail := tail), h, retention, w, b, p);
    assert DurableAt(d.(primary := None), h, retention, w, b, p);
  }

  lemma KeepDown(db: Db, step: Step, retention: nat)
    requires Inv(db, retention) && Enabled(db, step, retention) && (step.Crash? || step.LosePrimary? || step.Reopen?)
    ensures Inv(Next(db, step, retention), retention)
  {
    hide StateOf, HistoryOk, After, Durable, EffectOf, Draft, Honest, EntryOf, Open;
    DownDurable(db.disk, db.history,
      if step.Crash? && step.torn && db.disk.tail.Clean? then Torn else db.disk.tail, retention);
    if step.Reopen? {
      if db.disk.tail.Spoiled? {
        SpoiledFails(db.disk, retention);
      } else {
        OpenRestores(db.disk, db.history, retention);
      }
    }
  }

  lemma SpoiledFails(d: Disk, retention: nat)
    requires d.tail.Spoiled?
    ensures Open(d, retention).None?
  {
  }

  lemma Keep(db: Db, step: Step, retention: nat)
    requires Inv(db, retention) && Enabled(db, step, retention) && Recoverable(db, step, retention)
    ensures Inv(Next(db, step, retention), retention)
  {
    hide StateOf, HistoryOk, Durable, Next, Recoverable;
    match step
    case Write(w) => KeepWrite(db, w, retention);
    case Adopt => KeepAdopt(db, retention);
    case WritePrimary => KeepCheckpoint(db, step, retention);
    case WriteBackup => KeepCheckpoint(db, step, retention);
    case Compact => KeepCheckpoint(db, step, retention);
    case _ => KeepDown(db, step, retention);
  }

  lemma KeepAdopt(db: Db, retention: nat)
    requires Inv(db, retention) && Enabled(db, Adopt, retention)
    ensures Inv(Next(db, Adopt, retention), retention)
  {
    hide StateOf, HistoryOk, Durable;
  }

  lemma {:induction false} InvRun(states: seq<Db>, steps: seq<Step>, retention: nat, n: nat)
    requires Run(states, steps, retention) && RecoverableRun(states, steps, retention) && n <= |steps|
    ensures Inv(states[n], retention)
  {
    hide Next, Enabled, Inv, Recoverable, Start;
    if n == 0 {
      InvStart(retention);
    } else {
      InvRun(states, steps, retention, n - 1);
      Keep(states[n - 1], steps[n - 1], retention);
    }
  }

  /**
   * Recovery. In every state of every run whose writes are recoverable, replaying the checkpoint and the log gives the
   * state of the whole durable history: its content, its sequence, its retained changes and its applied ids. At rest
   * that is the state in memory, and it always includes every acknowledged write. It fails only when a line was
   * spoiled.
   */
  lemma RecoveryAgrees(states: seq<Db>, steps: seq<Step>, retention: nat, n: nat)
    requires Run(states, steps, retention) && RecoverableRun(states, steps, retention) && n <= |steps|
    ensures var db := states[n];
      && StateOf(db.history, retention).Some?
      && (Open(db.disk, retention).None? <==> db.disk.tail.Spoiled?)
      && (!db.disk.tail.Spoiled? ==> Open(db.disk, retention) == StateOf(db.history, retention))
      && (db.Up? && !db.phase.Logged? ==> Some(db.state) == StateOf(db.history, retention))
      && Tidy(StateOf(db.history, retention).value)
      && db.acked <= |db.history|
  {
    hide Next, Enabled, Recoverable, Start, StateOf, HistoryOk, Durable, Open, Tidy;
    InvRun(states, steps, retention, n);
    var db := states[n];
    StateSome(db.history, retention);
    if db.disk.tail.Spoiled? {
      SpoiledFails(db.disk, retention);
    } else {
      OpenRestores(db.disk, db.history, retention);
    }
  }

  /** A write found a torn last line, and no compaction has rewritten the file since. */
  ghost predicate TornWrite(states: seq<Db>, steps: seq<Step>, n: nat)
    requires |states| == |steps| + 1 && n <= |steps|
  {
    exists i :: 0 <= i < n && Glues(states[i], steps[i]) && NoCompact(steps, i, n)
  }

  /** The step appends a line to a file that ends in the middle of one. */
  ghost predicate Glues(db: Db, step: Step) {
    step.Write? && db.Up? && EffectOf(db.state, step.w).changes != [] && !db.disk.tail.Clean?
  }

  ghost predicate NoCompact(steps: seq<Step>, i: nat, n: nat)
    requires n <= |steps|
  {
    forall j :: i < j < n ==> steps[j] != Compact
  }

  lemma StepTail(db: Db, step: Step, retention: nat)
    requires Enabled(db, step, retention)
    ensures Next(db, step, retention).disk.tail.Spoiled? <==>
      step != Compact && (db.disk.tail.Spoiled? || Glues(db, step))
  {
    hide EffectOf, Draft, Open, After, Honest;
  }

  /** Exactly which runs end with a log that cannot be read: some write followed a torn one and no compaction since. */
  lemma {:induction false} SpoiledIffTornWrite(states: seq<Db>, steps: seq<Step>, retention: nat, n: nat)
    requires Run(states, steps, retention) && n <= |steps|
    ensures states[n].disk.tail.Spoiled? <==> TornWrite(states, steps, n)
  {
    hide Next, Enabled, Glues, Start;
    if n == 0 {
      assert !Start().disk.tail.Spoiled? by { StartClean(); }
    } else {
      SpoiledIffTornWrite(states, steps, retention, n - 1);
      StepTail(states[n - 1], steps[n - 1], retention);
      assert states[n - 1 + 1] == Next(states[n - 1], steps[n - 1], retention);
      if TornWrite(states, steps, n - 1) && steps[n - 1] != Compact {
        var i :| 0 <= i < n - 1 && Glues(states[i], steps[i]) && NoCompact(steps, i, n - 1);
        assert NoCompact(steps, i, n);
      }
      if Glues(states[n - 1], steps[n - 1]) {
        assert NoCompact(steps, n - 1, n);
      }
      if TornWrite(states, steps, n) {
        var i :| 0 <= i < n && Glues(states[i], steps[i]) && NoCompact(steps, i, n);
        GluesWrites(states[i], steps[i]);
        if i < n - 1 {
          assert NoCompact(steps, i, n - 1);
        }
      }
    }
  }

  lemma GluesWrites(db: Db, step: Step)
    requires Glues(db, step)
    ensures step.Write?
  {
  }

  lemma StartClean()
    ensures Start().disk.tail.Clean?
  {
  }

  /**
   * A crash during the first append, reopening with nothing to replay, one acknowledged write: from then on the
   * database cannot be opened.
   */
  lemma TornTailLosesWrite(record: Record, id: string, retention: nat) returns (states: seq<Db>, steps: seq<Step>)
    requires retention > 0
    ensures Run(states, steps, retention) && (PlainRecord(record) ==> RecoverableRun(states, steps, retention))
    ensures var db := states[|steps|];
      db.Down? && db.acked == 1 && |db.history| == 1 && Open(db.disk, retention).None?
  {
    var w := InsertRecord("c", record, id);
    var torn := Down(Disk(Some(EMPTY), EMPTY, [], Torn), [], 0);
    var again := Up(EMPTY, [], Idle, Disk(Some(EMPTY), EMPTY, [], Torn), [], 0);
    ReopenedTorn(retention);
    var e := EffectOf(EMPTY, w);
    assert e.changes != [] && e.Valid();
    FaithfulIff(EMPTY, w, retention);
    hide EffectOf, Draft, Open, After, Faithful;
    var logged := Next(again, Write(w), retention);
    var adopted := Next(logged, Adopt, retention);
    states := [Start(), torn, again, logged, adopted, Next(adopted, Crash(false), retention)];
    steps := [Crash(true), Reopen, Write(w), Adopt, Crash(false)];
    SpoiledFails(states[5].disk, retention);
    forall i | 0 <= i < |steps|
      ensures Enabled(states[i], steps[i], retention) && states[i + 1] == Next(states[i], steps[i], retention)
      ensures PlainRecord(record) ==> Recoverable(states[i], steps[i], retention)
    {
      assert i == 0 || i == 1 || i == 2 || i == 3 || i == 4;
    }
  }

  lemma ReopenedTorn(retention: nat)
    ensures Open(Disk(Some(EMPTY), EMPTY, [], Torn), retention) == Some(EMPTY)
  {
  }

  /** The history, acknowledged part included, only grows. */
  lemma {:induction false} HistoryGrows(states: seq<Db>, steps: seq<Step>, retention: nat, m: nat, n: nat)
    requires Run(states, steps, retention) && m <= n <= |steps|
    ensures states[m].history <= states[n].history
  {
    hide Next, Enabled, Start;
    if m < n {
      HistoryGrows(states, steps, retention, m, n - 1);
      StepGrows(states[n - 1], steps[n - 1], retention);
    }
  }

  lemma StepGrows(db: Db, step: Step, retention: nat)
    requires Enabled(db, step, retention)
    ensures db.history <= Next(db, step, retention).history
  {
    hide EffectOf, Draft, Open, After, Honest;
  }

  /**
   * Exactly when a write survives a crash as it was: from a state that recovery agrees with, and with an intact log,
   * the draft that is adopted is what opening restores if and only if every record it logs reads back from JSON text as
   * it is, and the write is local, a transaction, a replicated removal, or a replicated record of a known type that
   * agrees with its resolution. Of the values a record may hold only negative zero does not read back.
   */
  lemma WriteRecoveredIff(db: Db, w: Write, retention: nat)
    requires Inv(db, retention) && Enabled(db, Write(w), retention) && db.disk.tail.Clean? &&
      EffectOf(db.state, w).changes != [] && retention > 0
    ensures var next := Next(db, Write(w), retention);
      Open(next.disk, retention) == Some(next.phase.draft) <==>
        && PlainChanges(EffectOf(db.state, w).changes)
        && (w.Replicate? && !w.change.kind.Remove? ==> !w.change.kind.Other? && Agreed(db.state, w))
  {
    hide StateOf, HistoryOk, ReplayEntry, Good, Draft, Faithful, Open, Honest, Agreed;
    var e := EffectOf(db.state, w);
    StateSome(db.history, retention);
    FaithfulIff(db.state, w, retention);
    hide EffectOf;
    ReplaysIffFaithful(db.state, e, retention);
    OpenAfterAppend(db.disk, db.history, EntryOf(db.state, e), retention);
  }

  lemma OpenAfterAppend(d: Disk, h: seq<Entry>, e: Entry, retention: nat)
    requires HistoryOk(h, retention) && Durable(d, h, retention) && d.tail.Clean? && StateOf(h, retention).Some?
    requires e.base == StateOf(h, retention).value.sequence < e.result
    ensures Open(d.(wal := d.wal + [e]), retention) == ReplayEntry(StateOf(h, retention).value, e, retention)
  {
    hide HistoryOk, After, ReplayEntry, StateOf;
    var w: nat, b: nat, p: nat :| DurableAt(d, h, retention, w, b, p);
    var c := if d.primary.Some? then p else b;
    AfterCheckpoint(h, retention, w, c);
    SequenceGrows(h, retention, c, |h|);
    assert h[..|h|] == h;
    AfterSnoc(h[w..], e, StateOf(h[..c], retention).value.sequence);
    StateOpens(h, e, c, retention);
  }

  lemma StateOpens(h: seq<Entry>, e: Entry, c: nat, retention: nat)
    requires c <= |h| && StateOf(h[..c], retention).Some? && StateOf(h, retention).Some?
    ensures Replay(StateOf(h[..c], retention).value, h[c..] + [e], retention) ==
      ReplayEntry(StateOf(h, retention).value, e, retention)
  {
    hide ReplayEntry;
    ReplayAppend(EMPTY, h[..c], h[c..] + [e], retention);
    assert h[..c] + (h[c..] + [e]) == h + [e];
    StatesSnoc(h, e, retention);
  }

  lemma AfterSnoc(entries: seq<Entry>, e: Entry, sequence: nat)
    requires e.result > sequence
    ensures After(entries + [e], sequence) == After(entries, sequence) + [e]
  {
    var p := (x: Entry) => x.result > sequence;
    FilterAppend(entries, [e], p);
    AfterIs(entries + [e], sequence, p);
    AfterIs(entries, sequence, p);
    FilterAll([e], p);
  }

  // ---------------------------------------------------------------- three writes that are not recovered as they were

  const INCOMING := Record("1", map[])
  const RESOLVED := Record("1", map["by" := Str("resolver")])

  lemma PlainIncoming()
    ensures RereadRecord(INCOMING) == INCOMING
  {
    RereadRecordIff(INCOMING);
  }

  /** What opening finds after the very first write. */
  lemma FirstWrite(w: Write, retention: nat)
    requires Enabled(Start(), Write(w), retention) && EffectOf(EMPTY, w).Valid() && |EffectOf(EMPTY, w).changes| == 1
    ensures var next, e := Next(Start(), Write(w), retention), EffectOf(EMPTY, w);
      && next.Up? && next.phase == Logged(Draft(EMPTY, e, retention))
      && Open(next.disk, retention) == ReplayEntry(EMPTY, EntryOf(EMPTY, e), retention)
  {
    hide EffectOf, Draft, ReplayEntry, Open, Durable;
    var db := Start();
    assert Durable(db.disk, [], retention) by { InvStart(retention); }
    OpenAfterAppend(db.disk, [], EntryOf(EMPTY, EffectOf(EMPTY, w)), retention);
  }

  /**
   * A first replicated record, resolved to another one: the live state holds the resolution, a restart the incoming
   * record.
   */
  lemma ResolutionLost(retention: nat)
    ensures var w := Replicate(Change(Upsert, "c", "1", Some(INCOMING)), "x", RESOLVED);
      && Enabled(Start(), Write(w), retention)
      && var next := Next(Start(), Write(w), retention);
        && next.Up? && next.phase.Logged? && next.phase.draft.content == map[Key("c", "1") := RESOLVED]
        && Open(next.disk, retention).Some? &&
             Open(next.disk, retention).value.content == map[Key("c", "1") := INCOMING]
  {
    hide Open, Draft, ReplayEntry, RereadRecord, EntryOf, After;
    PlainIncoming();
    var change := Change(Upsert, "c", "1", Some(INCOMING));
    var w := Replicate(change, "x", RESOLVED);
    var e := EffectOf(EMPTY, w);
    assert e == Effect(map[Key("c", "1") := RESOLVED], [change], ["x"]);
    FirstWrite(w, retention);
    OneReplayed(e.content, change, "x", retention);
    assert RereadChange(change) == change;
  }

  /** A first replicated change of an unknown type is stored and logged, and the log is refused from then on. */
  lemma UnknownTypeUnreplayable(retention: nat)
    ensures var w := Replicate(Change(Other("rename"), "c", "1", Some(INCOMING)), "x", INCOMING);
      && Enabled(Start(), Write(w), retention)
      && var next := Next(Start(), Write(w), retention);
        && next.Up? && next.phase.Logged? && next.phase.draft.content == map[Key("c", "1") := INCOMING]
        && Open(next.disk, retention).None?
  {
    hide Open, Prune, Draft, ReplayEntry, Reread, RereadRecord;
    PlainIncoming();
    var change := Change(Other("rename"), "c", "1", Some(INCOMING));
    var w := Replicate(change, "x", INCOMING);
    var e := EffectOf(EMPTY, w);
    assert e == Effect(map[Key("c", "1") := INCOMING], [change], ["x"]);
    FirstWrite(w, retention);
    OneReplayed(e.content, change, "x", retention);
  }

  /** A first record holding negative zero: the live state keeps the sign, a restart finds zero. */
  lemma NegativeZeroLost(retention: nat)
    ensures var zero := (n: Number) => Record("1", map["n" := Num(n)]);
      var w := UpsertRecord("c", zero(NegativeZero), "x");
      && Enabled(Start(), Write(w), retention)
      && var next := Next(Start(), Write(w), retention);
        && next.Up? && next.phase.Logged? && next.phase.draft.content == map[Key("c", "1") := zero(NegativeZero)]
        && Open(next.disk, retention).Some? &&
             Open(next.disk, retention).value.content == map[Key("c", "1") := zero(Finite(0))]
  {
    hide Open, Prune, Draft, ReplayEntry;
    var r := Record("1", map["n" := Num(NegativeZero)]);
    var change := Change(Upsert, "c", "1", Some(r));
    var w := UpsertRecord("c", r, "x");
    var e := EffectOf(EMPTY, w);
    assert e == Effect(map[Key("c", "1") := r], [change], ["x"]);
    FirstWrite(w, retention);
    OneReplayed(e.content, change, "x", retention);
    assert Reread(Obj(r.body)) == Obj(map["n" := Num(Finite(0))]);
  }

  lemma OneReplayed(content: Content, change: Change, id: string, retention: nat)
    ensures Draft(EMPTY, Effect(content, [change], [id]), retention).content == content
    ensures var r := ReplayEntry(EMPTY, EntryOf(EMPTY, Effect(content, [change], [id])), retention);
      var applied := ApplyChange(map[], RereadChange(change));
      if applied.None? then r.None? else r.Some? && r.value.content == applied.value
  {
    hide Prune, ApplyChange, ApplyEvents, RecordAll, Draft, ReplayEntry, EntryOf, ReadBack, Newest, RereadChange, LastN;
    var e := Effect(content, [change], [id]);
    GoodEmpty(retention);
    DraftIs(EMPTY, e, retention);
    EntryReplays(EMPTY, e, retention);
    ReadOne(e, change, id);
    OneChange(map[], RereadChange(change), id, 0);
  }

  lemma GoodEmpty(retention: nat)
    ensures Good(EMPTY, retention)
  {
  }

  lemma ReadOne(e: Effect, change: Change, id: string)
    requires e.changes == [change] && e.ids == [id]
    ensures ReadBack(EMPTY, e) == EventsOf([RereadChange(change)], [id], 0)
  {
    hide RereadChange;
    var es := EventsOf([change], [id], 0);
    assert es == [Event(change, id, 1)];
  }
}
