/**
 * The first-generation engine of src/index.js: whole-state drafts, change events, the retention window and the ids
 * applied in it, and what a checkpoint with the log after it replays to.
 */
module FirstGeneration {
  import opened Basics
  import opened Json

  type Content = map<Key, Record>

  /** Event types; a replicated change may carry any other type. */
  datatype Kind = Insert | Upsert | Remove | Other(name: string)

  /** A change before it is numbered. A stored record goes under its own id. */
  datatype Change = Change(kind: Kind, collection: string, id: string, record: Option<Record>)

  datatype Event = Event(change: Change, changeId: string, sequence: nat)

  datatype State = State(content: Content, sequence: nat, changes: seq<Event>, applied: map<string, nat>)

  const EMPTY := State(map[], 0, [], map[])

  /** One WAL line. */
  datatype Entry = Entry(base: nat, result: nat, events: seq<Event>)

  /** `applyEventToState`; None when it throws. */
  function ApplyChange(content: Content, c: Change): Option<Content> {
    match c.kind
    case Remove => Some(content - {Key(c.collection, c.id)})
    case Other(_) => None
    case _ => if c.record.None? then None else Some(content[Key(c.collection, c.record.value.id) := c.record.value])
  }

  /** `pruneChangeMetadata`: an id is forgotten with the newest change that carried it. */
  function Forget(applied: map<string, nat>, removed: seq<Event>): map<string, nat> {
    if removed == [] then applied
    else
      var e := removed[0];
      Forget(if e.changeId in applied && applied[e.changeId] == e.sequence then applied - {e.changeId}
        else applied, removed[1..])
  }

  function Prune(s: State, retention: nat): State {
    var kept := LastN(s.changes, retention);
    s.(changes := kept, applied := Forget(s.applied, s.changes[..|s.changes| - |kept|]))
  }

  function Record1(s: State, e: Event): State {
    s.(changes := s.changes + [e], applied := s.applied[e.changeId := e.sequence], sequence := e.sequence)
  }

  function RecordAll(s: State, es: seq<Event>): State {
    if es == [] then s else Record1(RecordAll(s, es[..|es| - 1]), es[|es| - 1])
  }

  /** Pruning after every event, as the live engine does. */
  function RecordPruning(s: State, es: seq<Event>, retention: nat): State {
    if es == [] then s else Prune(Record1(RecordPruning(s, es[..|es| - 1], retention), es[|es| - 1]), retention)
  }

  function ApplyEvents(content: Content, es: seq<Event>): Option<Content> {
    if es == [] then Some(content)
    else
      var init := ApplyEvents(content, es[..|es| - 1]);
      if init.None? then None else ApplyChange(init.value, es[|es| - 1].change)
  }

  // ---------------------------------------------------------------- the applied ids are those of the retained window

  /** For each id, the sequence of the newest change that carries it. */
  function Newest(changes: seq<Event>): map<string, nat> {
    if changes == [] then map[]
    else
      var e := changes[|changes| - 1];
      Newest(changes[..|changes| - 1])[e.changeId := e.sequence]
  }

  ghost predicate Increasing(changes: seq<Event>) {
    forall i, j :: 0 <= i < j < |changes| ==> changes[i].sequence < changes[j].sequence
  }

  /** The metadata invariant: `appliedChangeIds` lists exactly the ids of the retained changes. */
  ghost predicate Tidy(s: State) {
    && Increasing(s.changes)
    && (forall e :: e in s.changes ==> e.sequence <= s.sequence)
    && s.applied == Newest(s.changes)
  }

  lemma {:induction false} NewestIn(changes: seq<Event>, id: string)
    ensures id in Newest(changes) <==> exists e :: e in changes && e.changeId == id
    ensures id in Newest(changes) ==> exists e :: e in changes && e.changeId == id && e.sequence == Newest(changes)[id]
  {
    if changes != [] {
      var init, last := changes[..|changes| - 1], changes[|changes| - 1];
      NewestIn(init, id);
      assert changes == init + [last];
      assert last in changes;
    }
  }

  lemma {:induction false} NewestTail(changes: seq<Event>, id: string)
    requires changes != [] && Increasing(changes)
    ensures var e, rest := changes[0], changes[1..];
      Lookup(Newest(changes), id) ==
        if id in Newest(rest) then Some(Newest(rest)[id]) else if id == e.changeId then Some(e.sequence) else None
  {
    if |changes| > 1 {
      var init := changes[..|changes| - 1];
      NewestTail(init, id);
      assert changes[1..][..|changes[1..]| - 1] == init[1..];
    } else {
      assert changes[..0] == [] && changes[1..] == [];
    }
  }

  /** Forgetting one change leaves the newest sequences of the rest. */
  lemma ForgetOne(changes: seq<Event>)
    requires changes != [] && Increasing(changes)
    ensures var e, a := changes[0], Newest(changes);
      (if e.changeId in a && a[e.changeId] == e.sequence then a - {e.changeId} else a) == Newest(changes[1..])
  {
    var e, a, rest := changes[0], Newest(changes), changes[1..];
    var b := if e.changeId in a && a[e.changeId] == e.sequence then a - {e.changeId} else a;
    forall id ensures Lookup(b, id) == Lookup(Newest(rest), id) {
      NewestTail(changes, id);
      NewestIn(rest, id);
      if id in Newest(rest) {
        var x :| x in rest && x.changeId == id && x.sequence == Newest(rest)[id];
        var j :| 0 <= j < |rest| && rest[j] == x;
        assert changes[j + 1] == x;
      }
    }
    SameMap(b, Newest(rest));
  }

  lemma SameMap<V>(a: map<string, V>, b: map<string, V>)
    requires forall id :: Lookup(a, id) == Lookup(b, id)
    ensures a == b
  {
    forall id ensures id in a <==> id in b {
      assert Lookup(a, id) == Lookup(b, id);
    }
    forall id | id in a ensures a[id] == b[id] {
      assert Lookup(a, id) == Lookup(b, id);
    }
  }

  lemma {:induction false} ForgetPrefix(changes: seq<Event>, n: nat)
    requires Increasing(changes) && n <= |changes|
    ensures Forget(Newest(changes), changes[..n]) == Newest(changes[n..])
  {
    hide Newest;
    if n == 0 {
      assert changes[0..] == changes && changes[..0] == [];
    } else {
      ForgetOne(changes);
      ForgetPrefix(changes[1..], n - 1);
      assert changes[1..][..n - 1] == changes[..n][1..];
      assert changes[1..][n - 1..] == changes[n..];
      assert changes[..n][0] == changes[0];
    }
  }

  lemma RecordTidy(s: State, e: Event)
    requires Tidy(s) && e.sequence == s.sequence + 1
    ensures Tidy(Record1(s, e))
  {
    var changes := s.changes + [e];
    assert changes[..|changes| - 1] == s.changes;
    forall i, j | 0 <= i < j < |changes| ensures changes[i].sequence < changes[j].sequence {
      assert changes[i] in s.changes;
    }
  }

  /** Pruning a tidy state keeps exactly the newest window, with exactly its ids. */
  lemma PruneTidy(s: State, retention: nat)
    requires Tidy(s)
    ensures Tidy(Prune(s, retention))
    ensures Prune(s, retention) ==
      s.(changes := LastN(s.changes, retention), applied := Newest(LastN(s.changes, retention)))
  {
    hide Newest, Forget;
    var kept := LastN(s.changes, retention);
    var n := |s.changes| - |kept|;
    assert s.changes[n..] == kept;
    ForgetPrefix(s.changes, n);
    forall i, j | 0 <= i < j < |kept| ensures kept[i].sequence < kept[j].sequence {
      assert kept[i] == s.changes[n + i] && kept[j] == s.changes[n + j];
    }
  }

  ghost predicate Numbered(es: seq<Event>, base: nat) {
    forall i :: 0 <= i < |es| ==> es[i].sequence == base + i + 1
  }

  lemma {:induction false} RecordAllIs(s: State, es: seq<Event>)
    requires Tidy(s) && Numbered(es, s.sequence)
    ensures var t := RecordAll(s, es);
      Tidy(t) && t.changes == s.changes + es && t.sequence == s.sequence + |es| && t.content == s.content
  {
    hide Tidy;
    if es == [] {
      assert s.changes + [] == s.changes;
    } else {
      var init, e := es[..|es| - 1], es[|es| - 1];
      RecordAllIs(s, init);
      RecordTidy(RecordAll(s, init), e);
      assert s.changes + init + [e] == s.changes + es;
    }
  }

  /** Pruning once at the end of an entry is pruning after each of its events. */
  lemma {:induction false} PruneOnce(s: State, es: seq<Event>, retention: nat)
    requires Tidy(s) && |s.changes| <= retention && Numbered(es, s.sequence)
    ensures RecordPruning(s, es, retention) == Prune(RecordAll(s, es), retention)
    ensures Tidy(RecordPruning(s, es, retention)) && |RecordPruning(s, es, retention).changes| <= retention
    ensures RecordPruning(s, es, retention).sequence == s.sequence + |es|
  {
    hide Tidy, Newest, Forget;
    RecordAllIs(s, es);
    PruneTidy(RecordAll(s, es), retention);
    if es == [] {
      ForgetNothing(s, retention);
    } else {
      var init, e := es[..|es| - 1], es[|es| - 1];
      PruneOnce(s, init, retention);
      RecordAllIs(s, init);
      PruneTidy(RecordAll(s, init), retention);
      var t := RecordPruning(s, init, retention);
      RecordTidy(t, e);
      PruneTidy(Record1(t, e), retention);
      assert s.changes + init + [e] == s.changes + es;
      LastNAppend(s.changes + init, [e], retention);
    }
  }

  lemma ForgetNothing(s: State, retention: nat)
    requires |s.changes| <= retention
    ensures Prune(s, retention) == s
  {
    assert s.changes[..0] == [];
  }
}
