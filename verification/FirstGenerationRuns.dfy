/**
 * Runs of the first-generation engine of src/index.js over its checkpoint, backup and log, and what reopening restores.
 */
module FirstGenerationRuns {
  import opened Basics
  import opened Json
  import opened FirstGeneration

  // ---------------------------------------------------------------- what JSON text keeps

  function RereadRecord(r: Record): Record {
    r.(body := Reread(Obj(r.body)).fields)
  }

  function RereadChange(c: Change): Change {
    c.(record := if c.record.None? then None else Some(RereadRecord(c.record.value)))
  }

  /** Events as they come back from the log. */
  function RereadEvents(es: seq<Event>): (r: seq<Event>)
    ensures |r| == |es|
    ensures forall i :: 0 <= i < |es| ==> r[i] == es[i].(change := RereadChange(es[i].change))
  {
    if es == [] then []
    else
      var e := es[|es| - 1];
      RereadEvents(es[..|es| - 1]) + [e.(change := RereadChange(e.change))]
  }

  /** A state as it comes back from a checkpoint. */
  function RereadState(s: State): State {
    s.(content := map k | k in s.content :: RereadRecord(s.content[k]), changes := RereadEvents(s.changes))
  }

  predicate PlainRecord(r: Record) {
    Plain(Obj(r.body))
  }

  /** The change carries no record, or one that JSON text keeps as it is. */
  predicate PlainChange(c: Change) {
    c.record.Some? ==> PlainRecord(c.record.value)
  }

  ghost predicate PlainEvents(es: seq<Event>) {
    forall i :: 0 <= i < |es| ==> PlainChange(es[i].change)
  }

  ghost predicate PlainContent(content: Content) {
    forall k :: k in content ==> PlainRecord(content[k])
  }

  lemma RereadRecordIff(r: Record)
    ensures RereadRecord(r) == r <==> PlainRecord(r)
    ensures PlainRecord(RereadRecord(r)) && RereadRecord(r).id == r.id
  {
    RereadIff(Obj(r.body));
    hide Reread, Plain;
    var read := Reread(Obj(r.body));
    assert read.Obj? by { RereadObj(r.body); }
    assert Obj(RereadRecord(r).body) == read;
  }

  lemma RereadObj(fields: map<string, Json>)
    ensures Reread(Obj(fields)).Obj?
  {
  }

  lemma RereadChangeIff(c: Change)
    ensures RereadChange(c) == c <==> PlainChange(c)
    ensures PlainChange(RereadChange(c))
    ensures RereadChange(c).kind == c.kind && RereadChange(c).collection == c.collection && RereadChange(c).id == c.id
  {
    hide RereadRecord, PlainRecord;
    if c.record.Some? {
      RereadRecordIff(c.record.value);
    }
  }

  lemma RereadEventsIff(es: seq<Event>)
    ensures RereadEvents(es) == es <==> PlainEvents(es)
    ensures PlainEvents(RereadEvents(es))
  {
    hide RereadChange, PlainChange, RereadEvents;
    forall i | 0 <= i < |es|
      ensures RereadEvents(es)[i] == es[i] <==> PlainChange(es[i].change)
      ensures PlainChange(RereadEvents(es)[i].change)
    {
      RereadChangeIff(es[i].change);
    }
  }

  /** Nothing changes in a state without special numbers when it is written and read back. */
  lemma RereadPlainState(s: State)
    requires PlainContent(s.content) && PlainEvents(s.changes)
    ensures RereadState(s) == s
  {
    hide RereadRecord, PlainRecord, RereadEvents, PlainEvents;
    RereadEventsIff(s.changes);
    forall k | k in s.content ensures RereadRecord(s.content[k]) == s.content[k] {
      RereadRecordIff(s.content[k]);
    }
  }

  lemma {:induction false} PlainApplied(content: Content, es: seq<Event>)
    requires PlainContent(content) && PlainEvents(es) && ApplyEvents(content, es).Some?
    ensures PlainContent(ApplyEvents(content, es).value)
  {
    hide PlainRecord;
    if es != [] {
      PlainApplied(content, es[..|es| - 1]);
    }
  }

  // ---------------------------------------------------------------- replay

  /** One entry of `replayWal`; None when it throws. */
  function ReplayEntry(s: State, e: Entry, retention: nat): Option<State> {
    if e.result <= s.sequence then Some(s)
    else if e.base != s.sequence then None
    else
      var content := ApplyEvents(s.content, e.events);
      if !InSequence(e.events, e.base) || content.None? || e.base + |e.events| != e.result then None
      else Some(Prune(RecordAll(s.(content := content.value), e.events).(sequence := e.result), retention))
  }

  predicate InSequence(es: seq<Event>, base: nat) {
    forall i :: 0 <= i < |es| ==> es[i].sequence == base + i + 1
  }

  function Replay(s: State, entries: seq<Entry>, retention: nat): Option<State> {
    if entries == [] then Some(s)
    else
      var init := Replay(s, entries[..|entries| - 1], retention);
      if init.None? then None else ReplayEntry(init.value, entries[|entries| - 1], retention)
  }

  // ---------------------------------------------------------------- writes

  /** `diffCollections`: each record that differs, once, by collection and id. */
  ghost predicate IsDiff(before: Content, after: Content, changes: seq<Change>) {
    && (forall i, j :: 0 <= i < j < |changes| ==> Target(changes[i]) != Target(changes[j]))
    && (forall k :: (exists i :: 0 <= i < |changes| && Target(changes[i]) == k) <==>
         Lookup(before, k) != Lookup(after, k))
    && (forall i :: 0 <= i < |changes| ==> Describes(before, after, changes[i]))
  }

  function Target(c: Change): Key {
    Key(c.collection, c.id)
  }

  ghost predicate Describes(before: Content, after: Content, c: Change) {
    var k := Target(c);
    && c.record == Lookup(after, k)
    && (c.record.Some? ==> c.record.value.id == c.id)
    && c.kind == (if k !in after then Remove else if k !in before then Insert else Upsert)
  }

  function EventsOf(changes: seq<Change>, ids: seq<string>, base: nat): (es: seq<Event>)
    requires |ids| == |changes|
    ensures |es| == |changes|
    ensures forall i :: 0 <= i < |es| ==> es[i] == Event(changes[i], ids[i], base + i + 1)
  {
    if changes == [] then []
    else
      var n := |changes| - 1;
      EventsOf(changes[..n], ids[..n], base) + [Event(changes[n], ids[n], base + n + 1)]
  }

  /** What one write puts into its draft: the new content, and the changes it logs. */
  datatype Effect = Effect(content: Content, changes: seq<Change>, ids: seq<string>) {
    predicate Valid() {
      |ids| == |changes|
    }
  }

  const NOTHING := Effect(map[], [], [])

  datatype Write =
    | InsertRecord(collection: string, record: Record, changeId: string)
    | UpsertRecord(collection: string, record: Record, changeId: string)
    | RemoveRecord(collection: string, id: string, changeId: string)
    | Transaction(after: Content, changes: seq<Change>, ids: seq<string>)
    | Replicate(change: Change, changeId: string, resolved: Record)

  /** The effect of a write on the current state; no changes when it is refused or has nothing to log. */
  function EffectOf(s: State, w: Write): Effect {
    match w
    case InsertRecord(c, r, id) =>
      if Key(c, r.id) in s.content then NOTHING
      else Effect(s.content[Key(c, r.id) := r], [Change(Insert, c, r.id, Some(r))], [id])
    case UpsertRecord(c, r, id) => Effect(s.content[Key(c, r.id) := r], [Change(Upsert, c, r.id, Some(r))], [id])
    case RemoveRecord(c, x, id) =>
      if Key(c, x) in s.content then Effect(s.content - {Key(c, x)}, [Change(Remove, c, x, None)], [id]) else NOTHING
    case Transaction(after, changes, ids) => Effect(after, changes, ids)
    case Replicate(change, id, resolved) =>
      if id in s.applied then NOTHING
      else if change.kind.Remove? then Effect(s.content - {Target(change)}, [change], [id])
      else if change.record.None? then NOTHING
      else Effect(s.content[Key(change.collection, resolved.id) := resolved], [change], [id])
  }

  /** `#appendChange` for each change on a draft with the new content. */
  function Draft(s: State, e: Effect, retention: nat): State
    requires e.Valid()
  {
    RecordPruning(s.(content := e.content), EventsOf(e.changes, e.ids, s.sequence), retention)
  }

  /** The events of a write, and what the log gives back of them. */
  function EventsIn(s: State, e: Effect): (es: seq<Event>)
    requires e.Valid()
    ensures |es| == |e.changes|
  {
    EventsOf(e.changes, e.ids, s.sequence)
  }

  function ReadBack(s: State, e: Effect): (es: seq<Event>)
    requires e.Valid()
    ensures |es| == |e.changes|
  {
    RereadEvents(EventsIn(s, e))
  }

  /** What applying them gives. */
  function Reapplied(s: State, e: Effect): Option<Content>
    requires e.Valid()
  {
    ApplyEvents(s.content, ReadBack(s, e))
  }

  /** The logged line, as it reads back. */
  function EntryOf(s: State, e: Effect): Entry
    requires e.Valid()
  {
    Entry(s.sequence, s.sequence + |e.changes|, ReadBack(s, e))
  }

  /** The last n of both are the same. */
  predicate SameWindow(a: seq<Event>, b: seq<Event>, n: nat) {
    LastN(a, n) == LastN(b, n)
  }

  /** The logged changes, read back, produce the content that the draft stores and the changes that it keeps. */
  predicate Faithful(s: State, e: Effect, retention: nat)
    requires e.Valid()
  {
    Reapplied(s, e) == Some(e.content) && SameWindow(ReadBack(s, e), EventsIn(s, e), retention)
  }

  ghost predicate Good(s: State, retention: nat) {
    Tidy(s) && |s.changes| <= retention && PlainContent(s.content) && PlainEvents(s.changes)
  }

  /**
   * An entry replays to the draft that was adopted live exactly when its logged changes, read back, produce the draft's
   * content and changes.
   */
  lemma ReplaysIffFaithful(s: State, e: Effect, retention: nat)
    requires Good(s, retention) && e.Valid() && e.changes != []
    ensures ReplayEntry(s, EntryOf(s, e), retention) == Some(Draft(s, e, retention)) <==> Faithful(s, e, retention)
    ensures Draft(s, e, retention).sequence == s.sequence + |e.changes|
    ensures Faithful(s, e, retention) ==> Good(Draft(s, e, retention), retention)
  {
    hide Good, ReplayEntry, EntryOf, Draft, Kept, EventsIn, ReadBack, Reapplied, SameWindow;
    DraftIs(s, e, retention);
    EntryReplays(s, e, retention);
    SameEnds(s.changes, ReadBack(s, e), EventsIn(s, e), retention);
    SameOutcome(ReplayEntry(s, EntryOf(s, e), retention), Draft(s, e, retention), Reapplied(s, e), e.content,
                s.sequence + |e.changes|, s.changes + ReadBack(s, e), s.changes + EventsIn(s, e), retention);
    if Faithful(s, e, retention) {
      FaithfulGood(s, e, retention);
    }
  }

  /** The state of this content, with the retained ones of these changes and the ids applied in them. */
  function Kept(content: Content, sequence: nat, changes: seq<Event>, retention: nat): State {
    State(content, sequence, LastN(changes, retention), Newest(LastN(changes, retention)))
  }

  lemma SameOutcome(replayed: Option<State>, draft: State, applied: Option<Content>, content: Content, sequence: nat,
                    changes: seq<Event>, changes': seq<Event>, retention: nat)
    requires replayed == if applied.None? then None else Some(Kept(applied.value, sequence, changes, retention))
    requires draft == Kept(content, sequence, changes', retention)
    ensures replayed == Some(draft) <==> applied == Some(content) && SameWindow(changes, changes', retention)
  {
    hide Newest, LastN;
  }

  lemma FaithfulGood(s: State, e: Effect, retention: nat)
    requires Good(s, retention) && e.Valid() && Faithful(s, e, retention)
    ensures Good(Draft(s, e, retention), retention)
  {
    hide Tidy, Draft, ApplyEvents, PlainContent, PlainEvents, Newest, RereadEvents, EventsIn;
    DraftIs(s, e, retention);
    RereadEventsIff(EventsIn(s, e));
    PlainApplied(s.content, ReadBack(s, e));
    SameEnds(s.changes, ReadBack(s, e), EventsIn(s, e), retention);
    PlainEnds(s.changes, ReadBack(s, e), retention);
  }

  /** The entry of a write follows the state it was made in, so only its changes can be refused. */
  lemma EntryReplays(s: State, e: Effect, retention: nat)
    requires Good(s, retention) && e.Valid() && e.changes != []
    ensures ReplayEntry(s, EntryOf(s, e), retention) ==
      if Reapplied(s, e).None? then None
      else Some(Kept(Reapplied(s, e).value, s.sequence + |e.changes|, s.changes + ReadBack(s, e), retention))
  {
    hide ApplyEvents, RecordAll, Prune, RereadChange, Kept, Tidy, PlainContent, PlainEvents, LastN;
    assert Numbered(ReadBack(s, e), s.sequence);
    if Reapplied(s, e).Some? {
      ReplayIs(s, ReadBack(s, e), Reapplied(s, e).value, retention);
    }
  }

  lemma DraftIs(s: State, e: Effect, retention: nat)
    requires Good(s, retention) && e.Valid()
    ensures Tidy(Draft(s, e, retention)) && Draft(s, e, retention).sequence == s.sequence + |e.changes|
    ensures Draft(s, e, retention) ==
      Kept(e.content, s.sequence + |e.changes|, s.changes + EventsIn(s, e), retention)
  {
    hide Tidy, RecordPruning, Newest, Prune, RecordAll, LastN;
    var es, t := EventsOf(e.changes, e.ids, s.sequence), s.(content := e.content);
    TidyContent(s, e.content);
    assert Numbered(es, s.sequence);
    PruneOnce(t, es, retention);
    RecordAllIs(t, es);
    PruneTidy(RecordAll(t, es), retention);
  }

  lemma ReplayIs(s: State, es: seq<Event>, content: Content, retention: nat)
    requires Good(s, retention) && Numbered(es, s.sequence)
    ensures Prune(RecordAll(s.(content := content), es).(sequence := s.sequence + |es|), retention) ==
      Kept(content, s.sequence + |es|, s.changes + es, retention)
  {
    hide Tidy, Newest, Prune, RecordAll, LastN, PlainContent, PlainEvents;
    var u := s.(content := content);
    TidyContent(s, content);
    RecordAllIs(u, es);
    var t := RecordAll(u, es);
    assert t.(sequence := s.sequence + |es|) == t;
    PruneTidy(t, retention);
  }

  /** The retained windows agree exactly when the ends of what was added do. */
  lemma SameEnds(kept: seq<Event>, a: seq<Event>, b: seq<Event>, n: nat)
    requires |a| == |b|
    ensures SameWindow(kept + a, kept + b, n) <==> SameWindow(a, b, n)
  {
    if |a| < n {
      var k := |LastN(kept + a, n)| - |a|;
      assert LastN(kept + a, n)[k..] == a && LastN(kept + b, n)[k..] == b;
    } else {
      LastNTail(kept, a, n);
      LastNTail(kept, b, n);
    }
  }

  lemma PlainEnds(kept: seq<Event>, es: seq<Event>, n: nat)
    requires PlainEvents(kept) && PlainEvents(es)
    ensures PlainEvents(LastN(kept + es, n))
  {
    hide PlainChange;
    var all := kept + es;
    forall i | 0 <= i < |LastN(all, n)| ensures PlainChange(LastN(all, n)[i].change) {
      assert LastN(all, n)[i] == all[|all| - |LastN(all, n)| + i];
    }
  }

  lemma TidyContent(s: State, content: Content)
    requires Tidy(s)
    ensures Tidy(s.(content := content))
  {
  }

  lemma {:induction false} RecordContent(s: State, es: seq<Event>, a: Content, b: Content)
    ensures RecordAll(s.(content := a), es) == RecordAll(s.(content := b), es).(content := a)
  {
    if es != [] {
      RecordContent(s, es[..|es| - 1], a, b);
    }
  }

  // ---------------------------------------------------------------- which writes are faithful

  lemma OneChange(content: Content, c: Change, id: string, base: nat)
    ensures ApplyEvents(content, EventsOf([c], [id], base)) == ApplyChange(content, c)
  {
    var es := EventsOf([c], [id], base);
    assert es == [Event(c, id, base + 1)];
    assert es[..0] == [];
    assert ApplyEvents(content, es[..0]) == Some(content);
  }

  ghost predicate Hits(changes: seq<Change>, n: nat, k: Key)
    requires n <= |changes|
  {
    exists i :: 0 <= i < n && Target(changes[i]) == k
  }

  /** The content between before and after once the first n changes are applied. */
  ghost predicate Halfway(before: Content, after: Content, changes: seq<Change>, n: nat, content: Content)
    requires n <= |changes|
  {
    forall k :: Lookup(content, k) == if Hits(changes, n, k) then Lookup(after, k) else Lookup(before, k)
  }

  lemma HalfwayNext(before: Content, after: Content, changes: seq<Change>, n: nat, content: Content)
    requires IsDiff(before, after, changes) && n < |changes| && Halfway(before, after, changes, n, content)
    ensures ApplyChange(content, changes[n]).Some?
    ensures Halfway(before, after, changes, n + 1, ApplyChange(content, changes[n]).value)
  {
    var c := changes[n];
    assert Describes(before, after, c);
    var next := ApplyChange(content, c).value;
    forall k ensures Lookup(next, k) == if Hits(changes, n + 1, k) then Lookup(after, k) else Lookup(before, k) {
      assert Hits(changes, n + 1, k) <==> Hits(changes, n, k) || k == Target(c);
    }
  }

  lemma {:induction false} DiffApplied(before: Content, after: Content, changes: seq<Change>, ids: seq<string>,
                                       base: nat, n: nat)
    requires IsDiff(before, after, changes) && |ids| == |changes| && n <= |changes|
    ensures ApplyEvents(before, EventsOf(changes, ids, base)[..n]).Some?
    ensures Halfway(before, after, changes, n, ApplyEvents(before, EventsOf(changes, ids, base)[..n]).value)
  {
    hide EventsOf, IsDiff, Halfway, ApplyChange;
    var es := EventsOf(changes, ids, base);
    if n == 0 {
      assert Halfway(before, after, changes, 0, before) by { NoneApplied(before, after, changes); }
    } else {
      DiffApplied(before, after, changes, ids, base, n - 1);
      assert es[..n][..n - 1] == es[..n - 1];
      assert es[n - 1].change == changes[n - 1];
      HalfwayNext(before, after, changes, n - 1, ApplyEvents(before, es[..n - 1]).value);
    }
  }

  lemma NoneApplied(before: Content, after: Content, changes: seq<Change>)
    ensures Halfway(before, after, changes, 0, before)
  {
  }

  /** Applying the changes between two contents to the first gives the second. */
  lemma DiffFaithful(before: Content, after: Content, changes: seq<Change>, ids: seq<string>, base: nat)
    requires IsDiff(before, after, changes) && |ids| == |changes|
    ensures ApplyEvents(before, EventsOf(changes, ids, base)) == Some(after)
  {
    hide ApplyEvents;
    var es := EventsOf(changes, ids, base);
    DiffApplied(before, after, changes, ids, base, |changes|);
    assert es[..|changes|] == es;
    var result := ApplyEvents(before, es).value;
    forall k ensures Lookup(result, k) == Lookup(after, k) {
      assert Hits(changes, |changes|, k) <==> Lookup(before, k) != Lookup(after, k);
    }
    SameContent(result, after);
  }

  lemma SameContent(a: Content, b: Content)
    requires forall k :: Lookup(a, k) == Lookup(b, k)
    ensures a == b
  {
    forall k ensures k in a <==> k in b {
      assert Lookup(a, k) == Lookup(b, k);
    }
    forall k | k in a ensures a[k] == b[k] {
      assert Lookup(a, k) == Lookup(b, k);
    }
  }

  /** The rule of the write's own kind: a transaction logs the difference it made. */
  ghost predicate Honest(s: State, w: Write) {
    match w
    case Transaction(after, changes, ids) => IsDiff(s.content, after, changes) && |ids| == |changes|
    case _ => true
  }

  /** A replicated change is harmless when what is stored is what is logged, or both are stored already. */
  predicate Agreed(s: State, w: Write)
    requires w.Replicate? && w.change.record.Some?
  {
    var incoming, k := w.change.record.value, Key(w.change.collection, w.resolved.id);
    || w.resolved == incoming
    || (Lookup(s.content, k) == Some(w.resolved) &&
         Lookup(s.content, Key(w.change.collection, incoming.id)) == Some(incoming))
  }

  ghost predicate PlainChanges(changes: seq<Change>) {
    forall i :: 0 <= i < |changes| ==> PlainChange(changes[i])
  }

  /** Events that store records under their own ids, each at another key. */
  ghost predicate Apart(es: seq<Event>) {
    && (forall i, j :: 0 <= i < j < |es| ==> Target(es[i].change) != Target(es[j].change))
    && (forall i :: 0 <= i < |es| ==> es[i].change.record.Some? ==>
         es[i].change.record.value.id == es[i].change.id && !es[i].change.kind.Remove?)
  }

  /** Each of them is found again after all have been applied. */
  lemma {:induction false} AppliedAt(content: Content, es: seq<Event>, i: nat)
    requires Apart(es) && i < |es| && ApplyEvents(content, es).Some? && es[i].change.record.Some?
    ensures Lookup(ApplyEvents(content, es).value, Target(es[i].change)) == es[i].change.record
    decreases |es|
  {
    var init, last := es[..|es| - 1], es[|es| - 1].change;
    if i < |init| {
      AppliedAt(content, init, i);
      assert Target(es[i].change) != Target(last);
    }
  }

  /** A transaction's log reads back to its content only if every record it stores reads back as it is. */
  lemma DiffPlain(s: State, after: Content, changes: seq<Change>, ids: seq<string>)
    requires IsDiff(s.content, after, changes) && |ids| == |changes|
    requires ApplyEvents(s.content, RereadEvents(EventsOf(changes, ids, s.sequence))) == Some(after)
    ensures PlainChanges(changes)
  {
    hide EventsOf, ApplyEvents, RereadEvents, RereadChange, PlainChange;
    var es := EventsOf(changes, ids, s.sequence);
    var read := RereadEvents(es);
    forall i | 0 <= i < |changes|
      ensures read[i].change == RereadChange(changes[i]) && Target(read[i].change) == Target(changes[i])
      ensures read[i].change.record.Some? <==> changes[i].record.Some?
      ensures read[i].change.record.Some? ==>
        read[i].change.record.value.id == read[i].change.id && !read[i].change.kind.Remove?
    {
      assert Describes(s.content, after, changes[i]);
      RereadChangeIff(changes[i]);
      RereadKeeps(changes[i]);
    }
    assert Apart(read);
    forall i | 0 <= i < |changes| ensures PlainChange(changes[i]) {
      assert Describes(s.content, after, changes[i]);
      RereadChangeIff(changes[i]);
      if changes[i].record.Some? {
        AppliedAt(s.content, read, i);
        assert read[i].change == changes[i];
      } else {
        NoRecord(changes[i]);
      }
    }
  }

  lemma DiffRecovered(s: State, e: Effect, retention: nat)
    requires e.Valid() && IsDiff(s.content, e.content, e.changes)
    ensures Faithful(s, e, retention) <==> PlainChanges(e.changes)
  {
    hide EventsOf, ApplyEvents, RereadEvents, PlainChange, LastN, IsDiff;
    DiffFaithful(s.content, e.content, e.changes, e.ids, s.sequence);
    if Reapplied(s, e) == Some(e.content) {
      DiffPlain(s, e.content, e.changes, e.ids);
    }
    RereadEventsIff(EventsIn(s, e));
  }

  lemma RereadKeeps(c: Change)
    ensures RereadChange(c).record.Some? <==> c.record.Some?
    ensures c.record.Some? ==> RereadChange(c).record.value.id == c.record.value.id
  {
    hide Reread;
  }

  lemma NoRecord(c: Change)
    requires c.record.None?
    ensures PlainChange(c)
  {
  }

  lemma OneEvent(s: State, e: Effect)
    requires |e.changes| == 1 && |e.ids| == 1
    ensures EventsIn(s, e) == [Event(e.changes[0], e.ids[0], s.sequence + 1)]
    ensures ReadBack(s, e) == EventsOf([RereadChange(e.changes[0])], e.ids, s.sequence)
    ensures ReadBack(s, e) == [Event(RereadChange(e.changes[0]), e.ids[0], s.sequence + 1)]
  {
    hide RereadChange;
    assert e.changes == [e.changes[0]] && e.ids == [e.ids[0]];
  }

  lemma SameOne(a: Event, b: Event, retention: nat)
    requires retention > 0
    ensures SameWindow([a], [b], retention) <==> a == b
  {
    assert LastN([a], retention) == [a] && LastN([b], retention) == [b];
  }

  /** The log of a single change. */
  lemma OneLogged(s: State, e: Effect, retention: nat)
    requires retention > 0 && |e.changes| == 1 && |e.ids| == 1
    ensures Faithful(s, e, retention) <==>
      ApplyChange(s.content, e.changes[0]) == Some(e.content) && PlainChange(e.changes[0])
  {
    hide ApplyChange, RereadChange, PlainChange, EventsOf, EventsIn, ReadBack, SameWindow, ApplyEvents;
    var c, id := e.changes[0], e.ids[0];
    assert e.ids == [id];
    OneEvent(s, e);
    SameOne(Event(RereadChange(c), id, s.sequence + 1), Event(c, id, s.sequence + 1), retention);
    OneChange(s.content, RereadChange(c), id, s.sequence);
    RereadChangeIff(c);
  }

  /**
   * Exactly which writes can be recovered: every logged record has to read back from JSON text as it is, and a
   * replicated record must be of a known type and resolved to itself, unless both records are stored already. Local
   * writes, transactions and replicated removals need nothing else.
   */
  lemma FaithfulIff(s: State, w: Write, retention: nat)
    requires Honest(s, w) && EffectOf(s, w).changes != [] && retention > 0
    ensures EffectOf(s, w).Valid()
    ensures Faithful(s, EffectOf(s, w), retention) <==>
      && PlainChanges(EffectOf(s, w).changes)
      && (w.Replicate? && !w.change.kind.Remove? ==> !w.change.kind.Other? && Agreed(s, w))
  {
    hide EventsOf, ApplyEvents, PlainChange, Faithful, RereadEvents;
    var e := EffectOf(s, w);
    match w
    case Transaction(after, changes, ids) => DiffRecovered(s, e, retention);
    case Replicate(change, id, resolved) =>
      OneLogged(s, e, retention);
      if !change.kind.Remove? && !change.kind.Other? {
        SamePut(s.content, change.collection, change.record.value, resolved);
      }
    case _ => OneLogged(s, e, retention);
  }

  /** Storing one record or the other gives the same content when they are the same, or both are there already. */
  lemma SamePut(content: Content, c: string, incoming: Record, resolved: Record)
    ensures content[Key(c, incoming.id) := incoming] == content[Key(c, resolved.id) := resolved] <==>
      resolved == incoming ||
      (Lookup(content, Key(c, resolved.id)) == Some(resolved) && Lookup(content, Key(c, incoming.id)) == Some(incoming))
  {
    var a, b := content[Key(c, incoming.id) := incoming], content[Key(c, resolved.id) := resolved];
    if a == b {
      assert Lookup(a, Key(c, resolved.id)) == Lookup(b, Key(c, resolved.id));
      assert Lookup(b, Key(c, incoming.id)) == Lookup(a, Key(c, incoming.id));
    }
  }

  // ---------------------------------------------------------------- the machine

  /** How the log file ends: whole lines, a torn last line, or a line appended onto a torn one. */
  datatype Tail = Clean | Torn | Spoiled

  /** The checkpoint file, None when it cannot be read, its backup, and the log. */
  datatype Disk = Disk(primary: Option<State>, backup: State, wal: seq<Entry>, tail: Tail)

  datatype Phase = Idle | Logged(draft: State) | PrimaryWritten | BackupWritten

  /** `history` and `acked` are history variables: every durable entry, and how many were acknowledged. */
  datatype Db =
    | Up(state: State, wal: seq<Entry>, phase: Phase, disk: Disk, history: seq<Entry>, acked: nat)
    | Down(disk: Disk, history: seq<Entry>, acked: nat)

  datatype Step =
    | Write(w: Write)
    | Adopt
    | WritePrimary
    | WriteBackup
    | Compact
    | Crash(torn: bool)
    | LosePrimary
    | Reopen

  function After(entries: seq<Entry>, sequence: nat): seq<Entry> {
    Filter(entries, (e: Entry) => e.result > sequence)
  }

  /** `open`: the checkpoint or its backup, then the log. */
  function Open(disk: Disk, retention: nat): Option<State> {
    var checkpoint := if disk.primary.Some? then disk.primary.value else disk.backup;
    if disk.tail.Spoiled? then None else Replay(checkpoint, After(disk.wal, checkpoint.sequence), retention)
  }

  ghost predicate Enabled(db: Db, step: Step, retention: nat) {
    match step
    case Write(w) => db.Up? && db.phase.Idle? && Honest(db.state, w)
    case Adopt => db.Up? && db.phase.Logged?
    case WritePrimary => db.Up? && db.phase.Idle?
    case WriteBackup => db.Up? && db.phase.PrimaryWritten?
    case Compact => db.Up? && db.phase.BackupWritten?
    case Crash(torn) => db.Up? && (torn ==> db.phase.Idle?)
    case LosePrimary => db.Down?
    case Reopen => db.Down?
  }

  ghost function Next(db: Db, step: Step, retention: nat): Db
    requires Enabled(db, step, retention)
  {
    match step
    case Write(w) =>
      var e := EffectOf(db.state, w);
      if e.changes == [] then db
      else
        var entry := EntryOf(db.state, e);
        db.(phase := Logged(Draft(db.state, e, retention)), wal := db.wal + [entry], history := db.history + [entry],
            disk := db.disk.(wal := db.disk.wal + [entry], tail := if db.disk.tail.Clean? then Clean else Spoiled))
    case Adopt => db.(state := db.phase.draft, phase := Idle, acked := |db.history|)
    case WritePrimary => db.(disk := db.disk.(primary := Some(RereadState(db.state))), phase := PrimaryWritten)
    case WriteBackup => db.(disk := db.disk.(backup := RereadState(db.state)), phase := BackupWritten)
    case Compact =>
      var rest := After(db.wal, db.state.sequence);
      db.(wal := rest, disk := db.disk.(wal := rest, tail := Clean), phase := Idle)
    case Crash(torn) =>
      Down(db.disk.(tail := if torn && db.disk.tail.Clean? then Torn else db.disk.tail), db.history, db.acked)
    case LosePrimary => db.(disk := db.disk.(primary := None))
    case Reopen =>
      var s := Open(db.disk, retention);
      if s.None? then db else Up(s.value, db.disk.wal, Idle, db.disk, db.history, db.acked)
  }

  /** A write that logs something, logged and adopted. */
  ghost function Written(db: Db, w: Write, retention: nat): (next: Db)
    requires db.Up? && db.phase.Idle? && Honest(db.state, w) && EffectOf(db.state, w).changes != []
    ensures next.Up? && next.phase.Idle?
  {
    Next(Next(db, Write(w), retention), Adopt, retention)
  }

  /** A checkpoint: primary, backup, compaction. */
  ghost function Saved(db: Db, retention: nat): (next: Db)
    requires db.Up? && db.phase.Idle?
    ensures next.Up? && next.phase.Idle?
  {
    Next(Next(Next(db, WritePrimary, retention), WriteBackup, retention), Compact, retention)
  }

  function Start(): Db {
    Up(EMPTY, [], Idle, Disk(Some(EMPTY), EMPTY, [], Clean), [], 0)
  }

  ghost predicate Run(states: seq<Db>, steps: seq<Step>, retention: nat) {
    && |states| == |steps| + 1 && states[0] == Start()
    && forall i ::
         0 <= i < |steps| ==>
           Enabled(states[i], steps[i], retention) && states[i + 1] == Next(states[i], steps[i], retention)
  }

  /** The write, if the step is one that logs something, can be recovered; `FaithfulIff` says which can. */
  ghost predicate Recoverable(db: Db, step: Step, retention: nat)
    requires step.Write? ==> db.Up? && Honest(db.state, step.w)
  {
    step.Write? && EffectOf(db.state, step.w).changes != [] ==>
      EffectOf(db.state, step.w).Valid() && Faithful(db.state, EffectOf(db.state, step.w), retention)
  }

  ghost predicate RecoverableRun(states: seq<Db>, steps: seq<Step>, retention: nat)
    requires Run(states, steps, retention)
  {
    forall i :: 0 <= i < |steps| ==> Recoverable(states[i], steps[i], retention)
  }

  // ---------------------------------------------------------------- the invariant

  /** The state after every entry of the history. */
  function StateOf(h: seq<Entry>, retention: nat): Option<State> {
    Replay(EMPTY, h, retention)
  }

  /** Entries follow one another without gap, and replay. */
  ghost predicate HistoryOk(h: seq<Entry>, retention: nat) {
    h != [] ==>
      var init, e := h[..|h| - 1], h[|h| - 1];
      && HistoryOk(init, retention) && StateOf(init, retention).Some? && Good(StateOf(init, retention).value, retention)
      && e.base == StateOf(init, retention).value.sequence < e.result
      && StateOf(h, retention).Some? && Good(StateOf(h, retention).value, retention) &&
           StateOf(h, retention).value.sequence == e.result
  }

  ghost predicate DurableAt(d: Disk, h: seq<Entry>, retention: nat, w: nat, b: nat, p: nat) {
    && w <= b <= |h| && d.wal == h[w..]
    && Some(d.backup) == StateOf(h[..b], retention)
    && (d.primary.Some? ==> b <= p <= |h| && d.primary == StateOf(h[..p], retention))
  }

  ghost predicate Durable(d: Disk, h: seq<Entry>, retention: nat) {
    exists w: nat, b: nat, p: nat :: DurableAt(d, h, retention, w, b, p)
  }

  ghost predicate Memory(db: Db, retention: nat)
    requires db.Up?
  {
    match db.phase
    case Logged(draft) =>
      db.history != [] && Some(draft) == StateOf(db.history, retention)
      && Some(db.state) == StateOf(db.history[..|db.history| - 1], retention)
    case Idle => Some(db.state) == StateOf(db.history, retention)
    case PrimaryWritten => Some(db.state) == StateOf(db.history, retention) && db.disk.primary == Some(db.state)
    case BackupWritten =>
      Some(db.state) == StateOf(db.history, retention) && db.disk.primary == Some(db.state) &&
        db.disk.backup == db.state
  }

  ghost predicate Inv(db: Db, retention: nat) {
    && HistoryOk(db.history, retention) && db.acked <= |db.history|
    && Durable(db.disk, db.history, retention)
    && (db.Up? ==> db.wal == db.disk.wal && Memory(db, retention))
  }

  lemma {:induction false} HistoryPrefix(h: seq<Entry>, retention: nat, i: nat)
    requires HistoryOk(h, retention) && i <= |h|
    ensures HistoryOk(h[..i], retention)
    ensures i < |h| ==> StateOf(h[..i + 1], retention).Some? && StateOf(h[..i], retention).Some?
    ensures i < |h| ==> h[i].base == StateOf(h[..i], retention).value.sequence < h[i].result
    ensures i < |h| ==> h[i].result == StateOf(h[..i + 1], retention).value.sequence
    decreases |h|
  {
    hide StateOf;
    if i == |h| {
      assert h[..i] == h;
    } else if i == |h| - 1 {
      assert h[..i + 1] == h;
    } else {
      HistoryPrefix(h[..|h| - 1], retention, i);
      assert h[..|h| - 1][..i] == h[..i] && h[..|h| - 1][..i + 1] == h[..i + 1];
    }
  }

  lemma StateSome(h: seq<Entry>, retention: nat)
    requires HistoryOk(h, retention)
    ensures StateOf(h, retention).Some? && Good(StateOf(h, retention).value, retention)
  {
  }

  lemma {:induction false} SequenceGrows(h: seq<Entry>, retention: nat, i: nat, j: nat)
    requires HistoryOk(h, retention) && i <= j <= |h|
    ensures StateOf(h[..i], retention).Some? && StateOf(h[..j], retention).Some?
    ensures StateOf(h[..i], retention).value.sequence <= StateOf(h[..j], retention).value.sequence
    ensures i < j ==> StateOf(h[..i], retention).value.sequence < h[j - 1].result
  {
    hide StateOf, HistoryOk;
    HistoryPrefix(h, retention, i);
    StateSome(h[..i], retention);
    if i < j {
      SequenceGrows(h, retention, i, j - 1);
      HistoryPrefix(h, retention, j - 1);
    }
  }

  /** A checkpoint of the first c entries lies between them and the others. */
  lemma CheckpointAt(h: seq<Entry>, retention: nat, c: nat, i: nat)
    requires HistoryOk(h, retention) && c <= |h| && i < |h|
    ensures StateOf(h[..c], retention).Some?
    ensures h[i].result > StateOf(h[..c], retention).value.sequence <==> i >= c
  {
    hide StateOf, HistoryOk;
    HistoryPrefix(h, retention, i);
    if i < c {
      SequenceGrows(h, retention, i + 1, c);
    } else {
      SequenceGrows(h, retention, c, i + 1);
    }
  }

  /** The entries after a checkpoint of the first c entries are those from c on. */
  lemma AfterCheckpoint(h: seq<Entry>, retention: nat, w: nat, c: nat)
    requires HistoryOk(h, retention) && w <= c <= |h|
    ensures StateOf(h[..c], retention).Some?
    ensures After(h[w..], StateOf(h[..c], retention).value.sequence) == h[c..]
  {
    hide StateOf, HistoryOk, Filter, After;
    HistoryPrefix(h, retention, c);
    StateSome(h[..c], retention);
    var sequence := StateOf(h[..c], retention).value.sequence;
    forall i | 0 <= i < |h| ensures h[i].result > sequence <==> i >= c {
      CheckpointAt(h, retention, c, i);
    }
    SplitAfter(h, sequence, w, c);
  }

  lemma SplitAfter(h: seq<Entry>, sequence: nat, w: nat, c: nat)
    requires w <= c <= |h| && forall i :: 0 <= i < |h| ==> (h[i].result > sequence <==> i >= c)
    ensures After(h[w..], sequence) == h[c..]
  {
    hide After, Filter;
    var p := (e: Entry) => e.result > sequence;
    FilterNone(h[w..c], p);
    FilterAll(h[c..], p);
    FilterAppend(h[w..c], h[c..], p);
    assert h[w..] == h[w..c] + h[c..];
    AfterIs(h[w..], sequence, p);
  }

  lemma {:induction false} AfterIs(entries: seq<Entry>, sequence: nat, p: Entry -> bool)
    requires forall e :: p(e) <==> e.result > sequence
    ensures After(entries, sequence) == Filter(entries, p)
  {
    if entries != [] {
      AfterIs(entries[1..], sequence, p);
    }
  }

  lemma {:induction false} ReplayAppend(s: State, a: seq<Entry>, b: seq<Entry>, retention: nat)
    requires Replay(s, a, retention).Some?
    ensures Replay(s, a + b, retention) == Replay(Replay(s, a, retention).value, b, retention)
  {
    hide ReplayEntry;
    if b == [] {
      assert a + b == a;
    } else {
      assert (a + b)[..|a + b| - 1] == a + b[..|b| - 1];
      ReplayAppend(s, a, b[..|b| - 1], retention);
    }
  }

  /** Opening restores the state of the whole durable history. */
  lemma OpenRestores(d: Disk, h: seq<Entry>, retention: nat)
    requires HistoryOk(h, retention) && Durable(d, h, retention) && !d.tail.Spoiled?
    ensures Open(d, retention) == StateOf(h, retention)
  {
    hide HistoryOk, After, ReplayEntry;
    var w: nat, b: nat, p: nat :| DurableAt(d, h, retention, w, b, p);
    var c := if d.primary.Some? then p else b;
    AfterCheckpoint(h, retention, w, c);
    ReplayAppend(EMPTY, h[..c], h[c..], retention);
    assert h == h[..c] + h[c..];
  }
}
