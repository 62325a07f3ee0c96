/**
 * The commit engine of src/storage-core.js over the durable log of src/wal.js, as a machine whose
 * steps are the stretches between two awaits.
 *
 * `history` and `acked` are history variables: every WAL-durable commit, and how many were acknowledged.
 */
module StorageCore {
  import opened Basics
  import opened Json
  import opened Transactions
  import CommitFabric

  /** An index entry with its record: the segmented store as TieredStore shows it to its callers. */
  datatype Cell = Cell(version: nat, record: Option<Record>)
  type Cells = map<Key, Cell>

  datatype Kind = Inserted | Upserted | Deleted

  datatype Event = Event(
    kind: Kind,
    key: Key,
    record: Option<Record>,
    before: Option<Record>,
    fields: set<string>,
    sequence: nat,
    commitId: CommitFabric.CommitId,
    checksum: CommitFabric.Digest,
    origin: Option<string>,
    partitionId: Option<string>,
    transactionId: string,
    logicalTime: int,
    causalParents: seq<string>)

  /** One WAL line. */
  datatype Entry = Entry(databaseId: string, base: nat, result: nat, events: seq<Event>)

  /** The checkpointed metadata. */
  datatype Meta = Meta(
    sequence: nat,
    lastCommitId: Option<CommitFabric.CommitId>,
    collections: set<string>,
    changes: seq<Event>,
    versions: map<string, nat>)

  const FRESH := Meta(0, None, {}, [], map[])

  /** How the WAL file ends: whole lines, a torn last line, or a line appended onto a torn one. */
  datatype Tail = Clean | Torn | Spoiled

  datatype Disk = Disk(cells: Cells, wal: seq<Entry>, tail: Tail, primary: Option<Meta>, backup: Meta)

  datatype Config = Config(databaseId: string, retention: nat)

  datatype Recorded = Recorded(version: nat, at: nat)

  /** A WriteSetTransaction: its three Maps and the calls made so far. */
  datatype Tx = Tx(ws: WriteSet, readAt: map<Key, Recorded>, scanAt: map<string, Recorded>, trace: seq<Observation>)

  datatype Commit = Commit(trace: seq<Observation>, ws: WriteSet, entry: Entry)

  datatype Phase =
    | Idle
    | Logging(pending: Commit)
    | Applying(pending: Commit, done: nat)
    | NeedsCheckpoint
    | PrimaryWritten(compacting: bool)
    | BackupWritten(compacting: bool)

  datatype Db =
    | Up(meta: Meta, cells: Cells, counters: map<string, nat>, txs: map<nat, Tx>, phase: Phase, wal: seq<Entry>,
         disk: Disk, history: seq<Commit>, acked: nat)
    | Down(disk: Disk, history: seq<Commit>, acked: nat)

  function Live(cells: Cells): Content {
    map k | k in cells && cells[k].record.Some? :: cells[k].record.value
  }

  function Version(cells: Cells, k: Key): nat {
    if k in cells then cells[k].version else 0
  }

  function Count(counters: map<string, nat>, c: string): nat {
    if c in counters then counters[c] else 0
  }

  function Apply(s: Content, e: Event): Content {
    if e.record.Some? then s[e.key := e.record.value] else s - {e.key}
  }

  function Fold(s: Content, es: seq<Event>): Content {
    if es == [] then s else Apply(Fold(s, es[..|es| - 1]), es[|es| - 1])
  }

  /** One operation of `applyBatch`: a removal of an absent record writes nothing. */
  function ApplyCell(cells: Cells, counters: map<string, nat>, e: Event): (Cells, map<string, nat>) {
    if e.record.None? && (e.key !in cells || cells[e.key].record.None?) then (cells, counters)
    else
      var n := Count(counters, e.key.collection) + 1;
      (cells[e.key := Cell(n, e.record)], counters[e.key.collection := n])
  }

  function ApplyCells(cells: Cells, counters: map<string, nat>, es: seq<Event>): (Cells, map<string, nat>) {
    if es == [] then (cells, counters)
    else
      var (c, n) := ApplyCells(cells, counters, es[..|es| - 1]);
      ApplyCell(c, n, es[|es| - 1])
  }

  function OfCollection(es: seq<Event>, c: string, yes: bool): seq<Event> {
    if es == [] then []
    else (if (es[0].key.collection == c) == yes then [es[0]] else []) + OfCollection(es[1..], c, yes)
  }

  lemma OfCollectionShorter(es: seq<Event>, c: string, yes: bool)
    ensures |OfCollection(es, c, yes)| <= |es|
    ensures es != [] && (es[0].key.collection == c) != yes ==> |OfCollection(es, c, yes)| < |es|
  {
  }

  /** `applyEvents`: one batch per collection, collections by first appearance. */
  function Grouped(es: seq<Event>): seq<Event>
    decreases |es|
  {
    if es == [] then []
    else
      var c := es[0].key.collection;
      OfCollectionShorter(es, c, false);
      OfCollection(es, c, true) + Grouped(OfCollection(es, c, false))
  }

  function Absorb(m: Meta, e: Event): Meta {
    Meta(e.sequence, Some(e.commitId), m.collections + {e.key.collection}, m.changes + [e],
         m.versions[e.key.collection := e.sequence])
  }

  function AbsorbAll(m: Meta, es: seq<Event>): Meta {
    if es == [] then m else Absorb(AbsorbAll(m, es[..|es| - 1]), es[|es| - 1])
  }

  function Trim(m: Meta, n: nat): Meta {
    m.(changes := LastN(m.changes, n))
  }

  // ---------------------------------------------------------------- transactions

  function Begin(): Tx {
    Tx(NO_WRITES, map[], map[], [])
  }

  function Work(db: Db, tx: Tx, op: Op): Tx
    requires db.Up?
  {
    var content := Live(db.cells);
    var (result, ws) := Exec(content, tx.ws, op);
    var n := |tx.trace|;
    var readAt :=
      match op
      case Get(k) =>
        if k in tx.ws.writes then tx.readAt else tx.readAt[k := Recorded(Version(db.cells, k), n)]
      case Put(c, r) =>
        var k := Key(c, r.id);
        if k in tx.readAt then tx.readAt else tx.readAt[k := Recorded(Version(db.cells, k), n)]
      case Remove(k) =>
        if k in tx.readAt then tx.readAt else tx.readAt[k := Recorded(Version(db.cells, k), n)]
      case All(_) => tx.readAt;
    var scanAt :=
      if op.All? then tx.scanAt[op.collection := Recorded(Count(db.meta.versions, op.collection), n)] else tx.scanAt;
    Tx(ws, readAt, scanAt, tx.trace + [Observation(op, result, content)])
  }

  /** `validate`. */
  ghost predicate Valid(db: Db, tx: Tx)
    requires db.Up?
  {
    && (forall k :: k in tx.readAt ==> Version(db.cells, k) == tx.readAt[k].version)
    && (forall c :: c in tx.scanAt ==> Count(db.meta.versions, c) == tx.scanAt[c].version)
  }

  /** `operations`: the writes that change their record, in insertion order. */
  function Changed(ws: WriteSet, order: seq<Key>): seq<Key> {
    if order == [] then []
    else
      (if order[0] in ws.writes && ws.writes[order[0]].before != ws.writes[order[0]].after then [order[0]] else [])
      + Changed(ws, order[1..])
  }

  lemma ChangedIn(ws: WriteSet, order: seq<Key>)
    ensures forall k :: k in Changed(ws, order) <==>
      k in order && k in ws.writes && ws.writes[k].before != ws.writes[k].after
  {
  }

  function MutationOf(k: Key, w: Write): CommitFabric.Mutation {
    CommitFabric.Mutation(w.after.Some?, k, ChangedFields(w.before, w.after), w.after)
  }

  function Mutations(ws: WriteSet, keys: seq<Key>): (r: seq<CommitFabric.Mutation>)
    requires forall k :: k in keys ==> k in ws.writes
    ensures |r| == |keys|
    ensures forall i :: 0 <= i < |keys| ==> r[i] == MutationOf(keys[i], ws.writes[keys[i]])
  {
    if keys == [] then [] else [MutationOf(keys[0], ws.writes[keys[0]])] + Mutations(ws, keys[1..])
  }

  function EventOf(k: Key, w: Write, sequence: nat, f: CommitFabric.Fabric): Event {
    Event(if w.after.None? then Deleted else if w.before.Some? then Upserted else Inserted,
          k, w.after, w.before, ChangedFields(w.before, w.after), sequence, f.commitId, f.checksum,
          f.body.origin, f.body.partitionId, f.body.transactionId, f.body.logicalTime, f.body.causalParents)
  }

  function Events(ws: WriteSet, keys: seq<Key>, base: nat, f: CommitFabric.Fabric): (r: seq<Event>)
    requires forall k :: k in keys ==> k in ws.writes
    ensures |r| == |keys|
    ensures forall i :: 0 <= i < |keys| ==> r[i] == EventOf(keys[i], ws.writes[keys[i]], base + i + 1, f)
  {
    if keys == [] then []
    else
      var init := keys[..|keys| - 1];
      Events(ws, init, base, f) + [EventOf(keys[|keys| - 1], ws.writes[keys[|keys| - 1]], base + |keys|, f)]
  }

  /** The WAL entry `commitTransaction` builds for a validated write set; None when no operation remains. */
  function BuildEntry(config: Config, base: nat, ws: WriteSet, c: CommitFabric.Context): Option<Entry> {
    ChangedIn(ws, ws.order);
    var keys := Changed(ws, ws.order);
    var fabric := CommitFabric.Create(config.databaseId, base + |keys|, Mutations(ws, keys), c);
    if keys == [] || fabric.None? then None
    else Some(Entry(config.databaseId, base, base + |keys|, Events(ws, keys, base, fabric.value)))
  }

  function MutationOfEvent(e: Event): CommitFabric.Mutation {
    CommitFabric.Mutation(!e.kind.Deleted?, e.key, e.fields, e.record)
  }

  function MutationsOfEvents(es: seq<Event>): (r: seq<CommitFabric.Mutation>)
    ensures |r| == |es|
    ensures forall i :: 0 <= i < |es| ==> r[i] == MutationOfEvent(es[i])
  {
    if es == [] then [] else [MutationOfEvent(es[0])] + MutationsOfEvents(es[1..])
  }

  function OfCommit(es: seq<Event>, id: CommitFabric.CommitId): seq<Event> {
    if es == [] then []
    else (if es[0].commitId == id then [es[0]] else []) + OfCommit(es[1..], id)
  }

  /** `??`: what is logged, or a default for null. */
  function OrElse(logged: Option<string>, otherwise: string): Option<string> {
    if logged.Some? then logged else Some(otherwise)
  }

  /** The envelope `verifyEntryFabric` rebuilds from the events of one commit. */
  function Rebuilt(config: Config, entry: Entry, es: seq<Event>): CommitFabric.Fabric
    requires es != []
  {
    CommitFabric.Fabric(
      CommitFabric.Body(1, config.databaseId, OrElse(es[0].partitionId, "local"), entry.result, es[0].logicalTime,
                        es[0].transactionId, OrElse(es[0].origin, entry.databaseId), MutationsOfEvents(es), 1, 1,
                        es[0].causalParents),
      es[0].commitId, es[0].checksum)
  }

  /** `verifyEntryFabric`: every commit found among the events verifies. */
  ghost predicate VerifyEntry(config: Config, entry: Entry) {
    forall i :: 0 <= i < |entry.events| ==>
      var es := OfCommit(entry.events, entry.events[i].commitId);
      es != [] && CommitFabric.Verify(Rebuilt(config, entry, es))
  }

  /** Every event of the entry says where its commit comes from. */
  predicate NamedEntry(entry: Entry) {
    forall e :: e in entry.events ==> e.origin.Some? && e.partitionId.Some?
  }

  // ---------------------------------------------------------------- recovery

  datatype Recovered = Recovered(meta: Meta, cells: Cells, counters: map<string, nat>) | Corrupt

  /** `replayWal` over the entries after the checkpoint; trimming is left to the caller. */
  ghost function ReplayEntries(config: Config, r: Recovered, entries: seq<Entry>): Recovered
    decreases |entries|
  {
    if entries == [] || r.Corrupt? then r
    else
      var e := entries[0];
      if e.databaseId != config.databaseId || e.base != r.meta.sequence || !VerifyEntry(config, e) then Corrupt
      else
        var (cells, counters) := ApplyCells(r.cells, r.counters, Grouped(e.events));
        ReplayEntries(config, Recovered(AbsorbAll(r.meta, e.events).(sequence := e.result), cells, counters),
          entries[1..])
  }

  function After(entries: seq<Entry>, sequence: nat): seq<Entry> {
    if entries == [] then []
    else (if entries[0].result > sequence then [entries[0]] else []) + After(entries[1..], sequence)
  }

  /** `readCheckpoint`: the backup is read when the primary cannot be. */
  function Checkpoint(disk: Disk): Meta {
    if disk.primary.Some? then disk.primary.value else disk.backup
  }

  /** `open`: the checkpoint that could be read, then the log after it. An unreadable line is corruption. */
  ghost function Open(config: Config, disk: Disk, counters: map<string, nat>): Recovered {
    var meta := Checkpoint(disk);
    if disk.tail.Spoiled? then Corrupt
    else
      match ReplayEntries(config, Recovered(meta, disk.cells, counters), After(disk.wal, meta.sequence))
      case Corrupt => Corrupt
      case Recovered(m, cells, n) => Recovered(Trim(m, config.retention), cells, n)
  }

  // ---------------------------------------------------------------- steps

  datatype Step =
    | BeginTx(t: nat)
    | WorkTx(t: nat, op: Op)
    | AbandonTx(t: nat)
    | ValidateTx(t: nat, context: CommitFabric.Context)
    | AppendWal
    | ApplyOne
    | Finish
    | WritePrimary(compacting: bool)
    | WriteBackup
    | Compact
    | EndSave
    | Crash(persisted: set<Key>, torn: bool)
    | LosePrimary
    | Reopen(counters: map<string, nat>)
    | CrashInReplay(counters: map<string, nat>, entries: nat, events: nat, persisted: set<Key>)

  /** What the segments hold after a crash that let some of the applied keys through. */
  function Merged(old_: Cells, new_: Cells, persisted: set<Key>): Cells
    requires persisted <= new_.Keys
  {
    old_ + (map k | k in persisted :: new_[k])
  }

  ghost predicate CoversVersions(cells: Cells, counters: map<string, nat>) {
    forall k :: k in cells ==> cells[k].version <= Count(counters, k.collection)
  }

  ghost predicate Enabled(config: Config, db: Db, step: Step) {
    match step
    case BeginTx(t) => db.Up? && t !in db.txs
    case WorkTx(t, _) => db.Up? && t in db.txs
    case AbandonTx(t) => db.Up? && t in db.txs
    case ValidateTx(t, _) => db.Up? && db.phase.Idle? && t in db.txs && db.txs[t].ws.writes != map[]
    case AppendWal => db.Up? && db.phase.Logging?
    case ApplyOne => db.Up? && db.phase.Applying? && db.phase.done < |Grouped(db.phase.pending.entry.events)|
    case Finish => db.Up? && db.phase.Applying? && db.phase.done == |Grouped(db.phase.pending.entry.events)|
    case WritePrimary(compacting) => db.Up? && (db.phase.Idle? || (db.phase.NeedsCheckpoint? && compacting))
    case WriteBackup => db.Up? && db.phase.PrimaryWritten?
    case Compact => db.Up? && db.phase.BackupWritten? && db.phase.compacting
    case EndSave => db.Up? && db.phase.BackupWritten? && !db.phase.compacting
    case Crash(persisted, torn) =>
      && db.Up?
      && persisted <= (if db.phase.Applying? && db.phase.done <= |Grouped(db.phase.pending.entry.events)|
                       then (set e | e in Grouped(db.phase.pending.entry.events)[..db.phase.done] :: e.key) else {})
      && persisted <= db.cells.Keys
      && (torn ==> db.phase.Logging?)
    case LosePrimary => db.Down?
    case Reopen(counters) => db.Down? && CoversVersions(db.disk.cells, counters)
    case CrashInReplay(counters, entries, events, persisted) =>
      var meta := Checkpoint(db.disk);
      var todo := After(db.disk.wal, meta.sequence);
      && db.Down? && CoversVersions(db.disk.cells, counters) && entries < |todo| &&
           events <= |Grouped(todo[entries].events)|
      && !db.disk.tail.Spoiled? && VerifyEntry(config, todo[entries])
      && var r := ReplayEntries(config, Recovered(meta, db.disk.cells, counters), todo[..entries]);
        && r.Recovered?
        && persisted <= (set e | e in Grouped(todo[entries].events)[..events] :: e.key)
        && persisted <= ApplyCells(r.cells, r.counters, Grouped(todo[entries].events)[..events]).0.Keys
  }

  ghost function Next(config: Config, db: Db, step: Step): Db
    requires Enabled(config, db, step)
  {
    match step
    case BeginTx(t) => db.(txs := db.txs[t := Begin()])
    case WorkTx(t, op) => db.(txs := db.txs[t := Work(db, db.txs[t], op)])
    case AbandonTx(t) => db.(txs := db.txs - {t})
    case ValidateTx(t, context) =>
      var tx := db.txs[t];
      var rest := db.(txs := db.txs - {t});
      var entry := BuildEntry(config, db.meta.sequence, tx.ws, context);
      if !Valid(db, tx) || entry.None? then rest
      else rest.(phase := Logging(Commit(tx.trace, tx.ws, entry.value)))
    case AppendWal =>
      var commit := db.phase.pending;
      db.(phase := Applying(commit, 0), wal := db.wal + [commit.entry], history := db.history + [commit],
          disk := db.disk.(wal := db.disk.wal + [commit.entry], tail := if db.disk.tail.Clean? then Clean else Spoiled))
    case ApplyOne =>
      var e := Grouped(db.phase.pending.entry.events)[db.phase.done];
      var (cells, counters) := ApplyCell(db.cells, db.counters, e);
      db.(cells := cells, counters := counters, phase := Applying(db.phase.pending, db.phase.done + 1))
    case Finish =>
      var entry := db.phase.pending.entry;
      db.(meta := Trim(AbsorbAll(db.meta, entry.events).(sequence := entry.result), config.retention), phase := Idle,
          disk := db.disk.(cells := db.cells), acked := |db.history|)
    case WritePrimary(compacting) =>
      db.(disk := db.disk.(primary := Some(db.meta)), phase := PrimaryWritten(compacting))
    case WriteBackup => db.(disk := db.disk.(backup := db.meta), phase := BackupWritten(db.phase.compacting))
    case Compact =>
      var rest := After(db.wal, db.meta.sequence);
      db.(wal := rest, disk := db.disk.(wal := rest, tail := Clean), phase := Idle)
    case EndSave => db.(phase := Idle)
    case Crash(persisted, torn) =>
      var cells := Merged(db.disk.cells, db.cells, persisted);
      Down(db.disk.(cells := cells, tail := if torn && db.disk.tail.Clean? then Torn else db.disk.tail), db.history,
        db.acked)
    case LosePrimary => db.(disk := db.disk.(primary := None))
    case Reopen(counters) =>
      var meta := Checkpoint(db.disk);
      (match Open(config, db.disk, counters)
       case Corrupt => db
       case Recovered(m, cells, n) =>
         Up(m, cells, n, map[],
            if db.disk.primary.None? || After(db.disk.wal, meta.sequence) != [] then NeedsCheckpoint else Idle,
            db.disk.wal, db.disk.(cells := cells), db.history, db.acked))
    case CrashInReplay(counters, entries, events, persisted) =>
      var meta := Checkpoint(db.disk);
      var todo := After(db.disk.wal, meta.sequence);
      var r := ReplayEntries(config, Recovered(meta, db.disk.cells, counters), todo[..entries]);
      var (cells, _) := ApplyCells(r.cells, r.counters, Grouped(todo[entries].events)[..events]);
      db.(disk := db.disk.(cells := Merged(r.cells, cells, persisted)))
  }

  function Start(): Db {
    Up(FRESH, map[], map[], map[], Idle, [], Disk(map[], [], Clean, Some(FRESH), FRESH), [], 0)
  }

  /** A run: the states a newly created database goes through under a sequence of enabled steps. */
  ghost predicate Run(config: Config, states: seq<Db>, steps: seq<Step>) {
    && |states| == |steps| + 1
    && states[0] == Start()
    && forall i ::
         0 <= i < |steps| ==> Enabled(config, states[i], steps[i]) && states[i + 1] == Next(config, states[i], steps[i])
  }
}
