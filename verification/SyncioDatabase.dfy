/**
 * `SyncioDatabase` of src/index.js as an object: its loops over changes, events and log entries, and its write path.
 */
module SyncioDatabase {
  import opened Basics
  import opened Json
  import opened Ordering
  import opened FirstGeneration
  import opened FirstGenerationRuns

  /** `pruneChangeMetadata`. */
  method PruneChangeMetadata(s: State, retention: nat) returns (r: State)
    ensures r == Prune(s, retention)
  {
    if |s.changes| <= retention {
      ForgetNothing(s, retention);
      return s;
    }
    var removed, applied := s.changes[..|s.changes| - retention], s.applied;
    for i := 0 to |removed|
      invariant Forget(s.applied, removed) == Forget(applied, removed[i..])
    {
      var e := removed[i];
      assert removed[i..][0] == e && removed[i..][1..] == removed[i + 1..];
      if e.changeId in applied && applied[e.changeId] == e.sequence {
        applied := applied - {e.changeId};
      }
    }
    r := s.(changes := LastN(s.changes, retention), applied := applied);
  }

  /** The events of one entry, applied and recorded one by one; None when an event is rejected. */
  method ReplayEvents(s: State, e: Entry) returns (r: Option<State>)
    requires s.sequence == e.base
    ensures r.Some? <==> InSequence(e.events, e.base) && ApplyEvents(s.content, e.events).Some?
    ensures r.Some? ==> r.value == RecordAll(s.(content := ApplyEvents(s.content, e.events).value), e.events)
  {
    hide ApplyChange;
    var t, expected := s, e.base;
    for i := 0 to |e.events|
      invariant expected == e.base + i && InSequence(e.events[..i], e.base)
      invariant ApplyEvents(s.content, e.events[..i]) == Some(t.content)
      invariant t == RecordAll(s.(content := t.content), e.events[..i])
    {
      var event := e.events[i];
      expected := expected + 1;
      assert e.events[..i + 1][..i] == e.events[..i];
      if event.sequence != expected {
        return None;
      }
      var content := ApplyChange(t.content, event.change);
      if content.None? {
        RejectedEvent(s.content, e.events, i);
        return None;
      }
      RecordContent(s, e.events[..i], content.value, t.content);
      t := Record1(t.(content := content.value), event);
    }
    assert e.events[..|e.events|] == e.events;
    r := Some(t);
  }

  lemma {:induction false} RejectedEvent(content: Content, es: seq<Event>, i: nat)
    requires i < |es| && ApplyEvents(content, es[..i + 1]).None?
    ensures ApplyEvents(content, es).None?
    decreases |es|
  {
    hide ApplyChange;
    if i + 1 < |es| {
      var init := es[..|es| - 1];
      assert init[..i + 1] == es[..i + 1];
      RejectedEvent(content, init, i);
    } else {
      assert es[..i + 1] == es;
    }
  }

  /** `replayWal`. */
  method ReplayWal(initial: State, entries: seq<Entry>, retention: nat) returns (r: Option<State>)
    ensures r == Replay(initial, entries, retention)
  {
    hide ReplayEntry;
    var s := initial;
    for i := 0 to |entries|
      invariant Replay(initial, entries[..i], retention) == Some(s)
    {
      assert entries[..i + 1][..i] == entries[..i];
      var next := ReplayOne(s, entries[i], retention);
      if next.None? {
        RejectedEntry(initial, entries, i, retention);
        return None;
      }
      s := next.value;
    }
    assert entries[..|entries|] == entries;
    r := Some(s);
  }

  method ReplayOne(s: State, e: Entry, retention: nat) returns (r: Option<State>)
    ensures r == ReplayEntry(s, e, retention)
  {
    hide ApplyEvents, RecordAll, Prune;
    if e.result <= s.sequence {
      return Some(s);
    }
    if e.base != s.sequence {
      return None;
    }
    var t := ReplayEvents(s, e);
    if t.None? || e.base + |e.events| != e.result {
      return None;
    }
    var pruned := PruneChangeMetadata(t.value.(sequence := e.result), retention);
    r := Some(pruned);
  }

  lemma {:induction false} RejectedEntry(s: State, entries: seq<Entry>, i: nat, retention: nat)
    requires i < |entries| && Replay(s, entries[..i + 1], retention).None?
    ensures Replay(s, entries, retention).None?
    decreases |entries|
  {
    hide ReplayEntry;
    if i + 1 < |entries| {
      var init := entries[..|entries| - 1];
      assert init[..i + 1] == entries[..i + 1];
      RejectedEntry(s, init, i, retention);
    } else {
      assert entries[..i + 1] == entries;
    }
  }

  // ---------------------------------------------------------------- the difference of two contents

  ghost predicate Keyed(content: Content) {
    forall k :: k in content ==> content[k].id == k.id
  }

  /** The changes of the keys looked at so far. */
  ghost predicate PartDiff(before: Content, after: Content, changes: seq<Change>, done: set<Key>) {
    && (forall i, j :: 0 <= i < j < |changes| ==> Target(changes[i]) != Target(changes[j]))
    && (forall k :: Hits(changes, |changes|, k) <==> k in done && Lookup(before, k) != Lookup(after, k))
    && (forall i :: 0 <= i < |changes| ==> Describes(before, after, changes[i]))
  }

  /** The change that turns before into after at one key, if they differ there. */
  function ChangeAt(before: Content, after: Content, k: Key): Option<Change> {
    if Lookup(before, k) == Lookup(after, k) then None
    else Some(Change(if k !in after then Remove else if k !in before then Insert
      else Upsert, k.collection, k.id, Lookup(after, k)))
  }

  lemma PartNext(before: Content, after: Content, changes: seq<Change>, done: set<Key>, k: Key)
    requires PartDiff(before, after, changes, done) && Keyed(after) && k !in done
    ensures var c := ChangeAt(before, after, k);
      PartDiff(before, after, if c.Some? then changes + [c.value] else changes, done + {k})
  {
    var c := ChangeAt(before, after, k);
    if c.Some? {
      var next := changes + [c.value];
      forall x ensures Hits(next, |next|, x) <==> Hits(changes, |changes|, x) || x == k {
        if Hits(changes, |changes|, x) {
          var i :| 0 <= i < |changes| && Target(changes[i]) == x;
          assert Target(next[i]) == x;
        }
        assert Target(next[|changes|]) == k;
      }
      forall i | 0 <= i < |changes| ensures Target(changes[i]) != k {
        assert Hits(changes, |changes|, Target(changes[i]));
      }
    }
  }

  lemma PartAll(before: Content, after: Content, changes: seq<Change>, done: set<Key>)
    requires PartDiff(before, after, changes, done) && before.Keys + after.Keys <= done
    ensures IsDiff(before, after, changes)
  {
    forall k ensures (exists i :: 0 <= i < |changes| && Target(changes[i]) == k) <==>
      Lookup(before, k) != Lookup(after, k) {
      assert Hits(changes, |changes|, k) <==> exists i :: 0 <= i < |changes| && Target(changes[i]) == k;
    }
  }

  ghost predicate KeyLess(a: Key, b: Key) {
    Less(a.collection, b.collection) || (a.collection == b.collection && Less(a.id, b.id))
  }

  /** By collection, and by id within one. */
  ghost predicate InOrder(changes: seq<Change>) {
    forall i, j :: 0 <= i < j < |changes| ==> KeyLess(Target(changes[i]), Target(changes[j]))
  }

  /** Every key looked at so far comes before these. */
  ghost predicate AllBefore(done: set<Key>, k: Key) {
    forall x :: x in done ==> KeyLess(x, k)
  }

  lemma OrderNext(before: Content, after: Content, changes: seq<Change>, done: set<Key>, k: Key)
    requires PartDiff(before, after, changes, done) && InOrder(changes) && AllBefore(done, k)
    ensures var c := ChangeAt(before, after, k);
      InOrder(if c.Some? then changes + [c.value] else changes)
  {
    hide Less;
    forall i | 0 <= i < |changes| ensures KeyLess(Target(changes[i]), k) {
      assert Hits(changes, |changes|, Target(changes[i]));
    }
  }

  /** `diffCollections`: collections and then ids in sorted order. */
  method DiffCollections(before: Content, after: Content) returns (changes: seq<Change>)
    requires Keyed(after)
    ensures IsDiff(before, after, changes) && InOrder(changes)
  {
    hide PartDiff, Sorted, IsDiff, InOrder, Less;
    changes := [];
    ghost var done: set<Key> := {};
    PartNone(before, after);
    var keys := before.Keys + after.Keys;
    var names := Sorted(set k | k in keys :: k.collection);
    for i := 0 to |names|
      invariant PartDiff(before, after, changes, done) && InOrder(changes)
      invariant forall k :: k in done ==> k.collection in names[..i]
      invariant forall k :: k in keys && k.collection in names[..i] ==> k in done
    {
      NotBefore(names, i);
      changes, done := DiffCollection(before, after, names[i], changes, done);
      assert names[..i + 1] == names[..i] + [names[i]];
    }
    assert names[..|names|] == names;
    PartAll(before, after, changes, done) by {
      forall k | k in keys ensures k in done {
        assert k.collection in names;
      }
    }
  }

  lemma PartNone(before: Content, after: Content)
    ensures PartDiff(before, after, [], {}) && InOrder([])
  {
  }

  lemma NotBefore(names: seq<string>, i: nat)
    requires StrictlySorted(names) && i < |names|
    ensures names[i] !in names[..i]
    ensures forall x :: x in names[..i] ==> Less(x, names[i])
  {
    forall j | 0 <= j < i ensures names[j] != names[i] {
      LessIrreflexive(names[j]);
    }
  }

  method DiffCollection(before: Content, after: Content, c: string, soFar: seq<Change>, ghost done: set<Key>)
    returns (changes: seq<Change>, ghost done': set<Key>)
    requires Keyed(after) && PartDiff(before, after, soFar, done) && InOrder(soFar)
    requires forall k :: k in done ==> k.collection != c && Less(k.collection, c)
    ensures PartDiff(before, after, changes, done') && InOrder(changes)
    ensures done' == done + (set k | k in before.Keys + after.Keys && k.collection == c)
  {
    hide PartDiff, Sorted, Keyed, InOrder, Less;
    var keys := set k | k in before.Keys + after.Keys && k.collection == c;
    var ids := Sorted(set k | k in keys :: k.id);
    changes, done' := soFar, done;
    for j := 0 to |ids|
      invariant PartDiff(before, after, changes, done') && InOrder(changes)
      invariant forall k :: k in done' <==> k in done || (k.collection == c && k.id in ids[..j])
    {
      var k := Key(c, ids[j]);
      NotBefore(ids, j);
      assert AllBefore(done', k);
      OrderNext(before, after, changes, done', k);
      PartNext(before, after, changes, done', k);
      var change := ChangeAt(before, after, k);
      if change.Some? {
        changes := changes + [change.value];
      }
      done' := done' + {k};
      assert ids[..j + 1] == ids[..j] + [ids[j]];
    }
    assert ids[..|ids|] == ids;
    KeysOfIds(keys, c, ids);
  }

  lemma KeysOfIds(keys: set<Key>, c: string, ids: seq<string>)
    requires forall k :: k in keys ==> k.collection == c
    requires forall x :: x in ids <==> x in set k | k in keys :: k.id
    ensures forall k :: k in keys <==> k.collection == c && k.id in ids
  {
    forall k ensures k in keys <==> k.collection == c && k.id in ids {
      if k.collection == c && k.id in ids {
        var x :| x in keys && x.id == k.id;
        assert x == k;
      }
    }
  }

  // ---------------------------------------------------------------- what a write leaves

  /** One event for each change, numbered from base. */
  ghost predicate Announces(events: seq<Event>, changes: seq<Change>, ids: seq<string>, base: nat) {
    && |events| == |changes| == |ids|
    && forall i :: 0 <= i < |events| ==> events[i] == Event(changes[i], ids[i], base + i + 1)
  }

  /**
   * After a write: this content, the sequence advanced by one for each change, and the newest of all changes retained,
   * with exactly their ids as applied.
   */
  ghost predicate Logs(before: State, after: State, content: Content, changes: seq<Change>, ids: seq<string>,
                       retention: nat) {
    && after.content == content && after.sequence == before.sequence + |changes|
    && (exists events :: Announces(events, changes, ids, before.sequence)
          && var all := before.changes + events;
            after.changes == if |all| <= retention then all else all[|all| - retention..])
    && (Tidy(before) ==> forall id ::
          id in after.applied <==> exists i :: 0 <= i < |after.changes| && after.changes[i].changeId == id)
    && (Tidy(before) ==> Tidy(after))
  }

  lemma {:induction false} PrunedChanges(s: State, es: seq<Event>, retention: nat)
    requires es != []
    ensures RecordPruning(s, es, retention).changes == LastN(s.changes + es, retention)
    ensures RecordPruning(s, es, retention).content == s.content
  {
    hide Forget;
    var init, e := es[..|es| - 1], es[|es| - 1];
    if init == [] {
      assert es == [e];
    } else {
      PrunedChanges(s, init, retention);
      LastNAppend(s.changes + init, [e], retention);
      assert s.changes + init + [e] == s.changes + es;
    }
  }

  lemma {:induction false} PrunedTidy(s: State, es: seq<Event>, retention: nat)
    requires Tidy(s) && Numbered(es, s.sequence)
    ensures Tidy(RecordPruning(s, es, retention)) && RecordPruning(s, es, retention).sequence == s.sequence + |es|
  {
    hide Tidy, Forget, Newest;
    if es != [] {
      var init, e := es[..|es| - 1], es[|es| - 1];
      PrunedTidy(s, init, retention);
      var t := RecordPruning(s, init, retention);
      RecordTidy(t, e);
      PruneTidy(Record1(t, e), retention);
    }
  }

  lemma TidyIds(s: State)
    requires Tidy(s)
    ensures forall id :: id in s.applied <==> exists i :: 0 <= i < |s.changes| && s.changes[i].changeId == id
  {
    forall id ensures id in s.applied <==> exists i :: 0 <= i < |s.changes| && s.changes[i].changeId == id {
      NewestIn(s.changes, id);
      if e :| e in s.changes && e.changeId == id {
        var i :| 0 <= i < |s.changes| && s.changes[i] == e;
      }
      if i :| 0 <= i < |s.changes| && s.changes[i].changeId == id {
        assert s.changes[i] in s.changes;
      }
    }
  }

  /** The draft of a write is such a state. */
  lemma DraftLogs(s: State, e: Effect, retention: nat)
    requires e.Valid() && e.changes != []
    ensures Logs(s, Draft(s, e, retention), e.content, e.changes, e.ids, retention)
    ensures Announces(EventsIn(s, e), e.changes, e.ids, s.sequence)
  {
    hide Tidy, RecordPruning, Newest, EventsOf;
    var es, t, draft := EventsOf(e.changes, e.ids, s.sequence), s.(content := e.content), Draft(s, e, retention);
    assert Announces(es, e.changes, e.ids, s.sequence);
    PrunedChanges(t, es, retention);
    PrunedSequence(t, es, retention);
    if Tidy(s) {
      TidyContent(s, e.content);
      assert Numbered(es, t.sequence);
      PrunedTidy(t, es, retention);
      TidyIds(draft);
    }
  }

  lemma {:induction false} PrunedSequence(s: State, es: seq<Event>, retention: nat)
    ensures RecordPruning(s, es, retention).sequence == if es == [] then s.sequence else es[|es| - 1].sequence
  {
  }

  /** The line a write appends to the log, as it reads back. */
  ghost predicate LineOf(e: Entry, base: nat, changes: seq<Change>, ids: seq<string>) {
    && e.base == base && e.result == base + |changes| && |e.events| == |changes| == |ids|
    && forall i :: 0 <= i < |e.events| ==> e.events[i] == Event(RereadChange(changes[i]), ids[i], base + i + 1)
  }

  // ---------------------------------------------------------------- the database object

  class SyncioDatabase {
    const retention: nat
    const checkpointEvery: nat
    var commitsSinceCheckpoint: nat
    var state: State
    var wal: seq<Entry>
    var disk: Disk
    ghost var history: seq<Entry>
    ghost var acked: nat

    /** The machine state between two writes. */
    ghost function Db(): FirstGenerationRuns.Db
      reads this
    {
      Up(state, wal, Idle, disk, history, acked)
    }

    /** `open`, on a log that reads; `replayed` is the number of entries replayed. */
    constructor (disk: Disk, retention: nat, checkpointEvery: nat, state: State, replayed: nat,
                 ghost history: seq<Entry>,
                 ghost acked: nat)
      requires Open(disk, retention) == Some(state)
      requires replayed == |After(disk.wal, (if disk.primary.Some? then disk.primary.value else disk.backup).sequence)|
      ensures this.retention == retention && this.checkpointEvery == checkpointEvery
      ensures Db() == Up(state, disk.wal, Idle, disk, history, acked) && commitsSinceCheckpoint == replayed
    {
      this.retention, this.checkpointEvery, commitsSinceCheckpoint := retention, checkpointEvery, replayed;
      this.state, this.wal, this.disk := state, disk.wal, disk;
      this.history, this.acked := history, acked;
    }

    /** `#appendChange` for each change of a draft. */
    method AppendChanges(content: Content, changes: seq<Change>, ids: seq<string>)
      returns (draft: State, events: seq<Event>)
      requires |ids| == |changes|
      ensures var e := Effect(content, changes, ids);
        draft == Draft(state, e, retention) && events == EventsIn(state, e)
      ensures draft.sequence == state.sequence + |changes|
    {
      hide Prune;
      draft, events := state.(content := content), [];
      ghost var all := EventsOf(changes, ids, state.sequence);
      for i := 0 to |changes|
        invariant events == all[..i] && draft.sequence == state.sequence + i
        invariant draft == RecordPruning(state.(content := content), all[..i], retention)
      {
        var event := Event(changes[i], ids[i], draft.sequence + 1);
        assert all[..i + 1][..i] == all[..i] && all[i] == event;
        PruneSequence(Record1(draft, event), retention);
        draft := PruneChangeMetadata(Record1(draft, event), retention);
        events := events + [event];
      }
      assert all[..|changes|] == all;
    }

    /** Every `checkpointEvery`-th commit takes a checkpoint. */
    ghost predicate Due()
      reads this
    {
      commitsSinceCheckpoint + 1 >= checkpointEvery
    }

    /** `#commitDraft` up to its checkpoint: log the events, then adopt the draft. */
    method AdoptDraft(draft: State, events: seq<Event>)
      modifies this
      ensures var entry := Entry(old(state.sequence), draft.sequence, RereadEvents(events));
        && state == draft && wal == old(wal) + [entry]
        && disk == old(disk).(wal := old(disk).wal + [entry], tail := if old(disk).tail.Clean? then Clean else Spoiled)
        && history == old(history) + [entry] && acked == |history|
      ensures commitsSinceCheckpoint == old(commitsSinceCheckpoint) + 1
    {
      var entry := Entry(state.sequence, draft.sequence, RereadEvents(events));
      disk := disk.(wal := disk.wal + [entry], tail := if disk.tail.Clean? then Clean else Spoiled);
      wal, history := wal + [entry], history + [entry];
      state, acked := draft, |history|;
      commitsSinceCheckpoint := commitsSinceCheckpoint + 1;
    }

    /**
     * These changes have been logged since `before`, and the state is the one that has them. When a checkpoint was due,
     * it holds that state and the log nothing up to it.
     */
    ghost predicate Committed(before: FirstGenerationRuns.Db, due: bool, content: Content, changes: seq<Change>,
                              ids: seq<string>)
      requires before.Up?
      reads this
    {
      && Logs(before.state, state, content, changes, ids, retention)
      && (due ==>
            && disk.primary == Some(RereadState(state)) && disk.backup == RereadState(state) && disk.wal == wal
            && forall e :: e in wal ==> e.result > state.sequence)
      && (!due ==>
            && |wal| == |before.wal| + 1 && wal[..|before.wal|] == before.wal
            && LineOf(wal[|before.wal|], before.state.sequence, changes, ids)
            && disk.wal == before.disk.wal + [wal[|before.wal|]])
    }

    /** A write that logs its changes: two steps of the machine, and those of a checkpoint when one is due. */
    method Commit(e: Effect, ghost w: Write)
      requires e.Valid() && e.changes != [] && e == EffectOf(state, w) && Honest(state, w)
      modifies this
      ensures Committed(old(Db()), old(Due()), e.content, e.changes, e.ids)
      ensures Db() ==
        if old(Due()) then Saved(Written(old(Db()), w, retention), retention) else Written(old(Db()), w, retention)
      ensures commitsSinceCheckpoint == if old(Due()) then |wal| else old(commitsSinceCheckpoint) + 1
    {
      hide Written, Saved, LineOf, Logs;
      LogAndAdopt(e, w);
      if commitsSinceCheckpoint >= checkpointEvery {
        var saved := Checkpoint();
      }
    }

    method LogAndAdopt(e: Effect, ghost w: Write)
      requires e.Valid() && e.changes != [] && e == EffectOf(state, w) && Honest(state, w)
      modifies this
      ensures Db() == Written(old(Db()), w, retention)
      ensures commitsSinceCheckpoint == old(commitsSinceCheckpoint) + 1
      ensures Logs(old(state), state, e.content, e.changes, e.ids, retention)
      ensures |wal| == |old(wal)| + 1 && wal[..|old(wal)|] == old(wal)
      ensures LineOf(wal[|old(wal)|], old(state).sequence, e.changes, e.ids)
      ensures disk.wal == old(disk).wal + [wal[|old(wal)|]]
    {
      hide Draft, Open, After, Honest, EffectOf, Logs;
      DraftLogs(state, e, retention);
      var draft, events := AppendChanges(e.content, e.changes, e.ids);
      AdoptDraft(draft, events);
    }

    /** `insert`, `upsert` and `remove` of a collection; false when nothing is logged. */
    method Mutate(w: Write) returns (logged: bool)
      requires w.InsertRecord? || w.UpsertRecord? || w.RemoveRecord?
      modifies this
      ensures logged <==> (
        !(w.InsertRecord? && Key(w.collection, w.record.id) in old(state.content))
        && !(w.RemoveRecord? && Key(w.collection, w.id) !in old(state.content)))
      ensures !logged ==> state == old(state) && wal == old(wal) && disk == old(disk)
      ensures logged ==>
        match w
        case InsertRecord(c, r, id) => (
          var content := old(state.content)[Key(c, r.id) := r];
          Committed(old(Db()), old(Due()), content, [Change(Insert, c, r.id, Some(r))], [id]))
        case UpsertRecord(c, r, id) => (
          var content := old(state.content)[Key(c, r.id) := r];
          Committed(old(Db()), old(Due()), content, [Change(Upsert, c, r.id, Some(r))], [id]))
        case RemoveRecord(c, x, id) => (
          var content := old(state.content) - {Key(c, x)};
          Committed(old(Db()), old(Due()), content, [Change(Remove, c, x, None)], [id]))
        case _ => true
      ensures Db() ==
        if !logged then old(Db())
        else if old(Due()) then Saved(Written(old(Db()), w, retention), retention)
        else Written(old(Db()), w, retention)
    {
      hide Written, Saved, Logs, LineOf;
      var e := EffectOf(state, w);
      logged := e.changes != [];
      if logged {
        Commit(e, w);
      }
    }

    /** `transaction`, whose body turned the content into `after`; `ids` are fresh change ids. */
    method Transact(after: Content, ids: nat -> string) returns (changes: seq<Change>)
      requires Keyed(after)
      modifies this
      ensures IsDiff(old(state.content), after, changes)
      ensures changes == [] ==> Db() == old(Db()) && after == old(state.content)
      ensures changes != [] ==> Committed(old(Db()), old(Due()), after, changes, seq(|changes|, ids))
      ensures changes != [] ==> var w := Transaction(after, changes, seq(|changes|, ids));
        Db() ==
          if old(Due()) then Saved(Written(old(Db()), w, retention), retention) else Written(old(Db()), w, retention)
    {
      hide Written, Saved, IsDiff, Logs, LineOf;
      changes := DiffCollections(state.content, after);
      if changes != [] {
        Commit(Effect(after, changes, seq(|changes|, ids)), Transaction(after, changes, seq(|changes|, ids)));
      } else {
        NoDiff(state.content, after);
      }
    }

    /**
     * `applyReplicationChange` of a change its resolver turned into `resolved`; false for a duplicate or a refused
     * record.
     */
    method ApplyReplicationChange(change: Change, changeId: string, resolved: Record) returns (applied: bool)
      modifies this
      ensures applied <==> changeId !in old(state.applied) && (change.kind.Remove? || change.record.Some?)
      ensures !applied ==> state == old(state) && wal == old(wal) && disk == old(disk)
      ensures applied ==>
        var content := if change.kind.Remove? then old(state.content) - {Key(change.collection, change.id)}
          else old(state.content)[Key(change.collection, resolved.id) := resolved];
        Committed(old(Db()), old(Due()), content, [change], [changeId])
      ensures var w := Replicate(change, changeId, resolved);
        Db() ==
          if !applied then old(Db())
          else if old(Due()) then Saved(Written(old(Db()), w, retention), retention)
          else Written(old(Db()), w, retention)
    {
      hide Written, Saved, Logs, LineOf;
      ghost var w := Replicate(change, changeId, resolved);
      if changeId in state.applied || (!change.kind.Remove? && change.record.None?) {
        return false;
      }
      var k := if change.kind.Remove? then Key(change.collection, change.id) else Key(change.collection, resolved.id);
      var content := if change.kind.Remove? then state.content - {k} else state.content[k := resolved];
      Commit(Effect(content, [change], [changeId]), w);
      applied := true;
    }

    /** `#checkpointNow`: checkpoint, backup, compaction; nothing when nothing was committed since the last one. */
    method Checkpoint() returns (saved: bool)
      modifies this
      ensures saved <==> old(commitsSinceCheckpoint) > 0
      ensures state == old(state) && (!saved ==> wal == old(wal) && disk == old(disk))
      ensures saved ==>
        && disk.primary == Some(RereadState(state)) && disk.backup == RereadState(state) && disk.wal == wal
        && disk.tail.Clean? && forall e :: e in wal <==> e in old(wal) && e.result > state.sequence
      ensures Db() == if saved then Saved(old(Db()), retention) else old(Db())
      ensures commitsSinceCheckpoint == if saved then |wal| else 0
    {
      hide Open, Draft, EffectOf, Honest;
      if commitsSinceCheckpoint == 0 {
        return false;
      }
      disk := disk.(primary := Some(RereadState(state)));
      disk := disk.(backup := RereadState(state));
      AfterHas(wal, state.sequence);
      wal := After(wal, state.sequence);
      disk := disk.(wal := wal, tail := Clean);
      commitsSinceCheckpoint := |wal|;
      saved := true;
    }
  }

  lemma AfterHas(entries: seq<Entry>, sequence: nat)
    ensures forall e :: e in After(entries, sequence) <==> e in entries && e.result > sequence
  {
    FilterHas(entries, (e: Entry) => e.result > sequence);
  }

  lemma {:induction false} FilterHas(entries: seq<Entry>, p: Entry -> bool)
    ensures forall e :: e in Filter(entries, p) <==> e in entries && p(e)
  {
    if entries != [] {
      FilterHas(entries[1..], p);
      assert entries == [entries[0]] + entries[1..];
    }
  }

  lemma PruneSequence(s: State, retention: nat)
    ensures Prune(s, retention).sequence == s.sequence
  {
  }

  lemma NoDiff(before: Content, after: Content)
    requires IsDiff(before, after, [])
    ensures before == after
  {
    forall k ensures Lookup(before, k) == Lookup(after, k) {
    }
    SameContent(before, after);
  }
}
