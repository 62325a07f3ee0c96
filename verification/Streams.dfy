/**
 * Resumable change streams: the synchronous watchers of src/storage-core.js and the queued ones of src/index.js. Each
 * is compared with the plain specification: the matching committed events after the cursor, in order, once each.
 */
module Streams {
  import opened Basics

  /** What a watcher is told of an event. */
  datatype Notice<T> = Notice(sequence: nat, collection: string, payload: T)

  /** The events a watcher of this collection, or of all, asks for. */
  function Wanted<T>(es: seq<Notice<T>>, collection: Option<string>): seq<Notice<T>> {
    if es == [] then []
    else Wanted(es[..|es| - 1], collection) + (if Matches(es[|es| - 1], collection) then [es[|es| - 1]] else [])
  }

  predicate Matches<T>(e: Notice<T>, collection: Option<string>) {
    collection.None? || e.collection == collection.value
  }

  ghost predicate Numbered<T>(es: seq<Notice<T>>) {
    forall i :: 0 <= i < |es| ==> es[i].sequence == i + 1
  }

  lemma {:induction false} WantedAppend<T>(a: seq<Notice<T>>, b: seq<Notice<T>>, collection: Option<string>)
    ensures Wanted(a + b, collection) == Wanted(a, collection) + Wanted(b, collection)
  {
    if b == [] {
      assert a + b == a;
    } else {
      assert (a + b)[..|a + b| - 1] == a + b[..|b| - 1];
      WantedAppend(a, b[..|b| - 1], collection);
    }
  }

  /** The wanted events numbered above `after`, up to `upTo`. */
  function Between<T>(es: seq<Notice<T>>, collection: Option<string>, after: nat, upTo: nat): seq<Notice<T>>
    requires upTo <= |es|
  {
    if after >= upTo then [] else Wanted(es[after..upTo], collection)
  }

  lemma BetweenSplit<T>(es: seq<Notice<T>>, collection: Option<string>, a: nat, b: nat, c: nat)
    requires a <= b <= c <= |es|
    ensures Between(es, collection, a, c) == Between(es, collection, a, b) + Between(es, collection, b, c)
  {
    hide Wanted;
    if a < b < c {
      assert es[a..c] == es[a..b] + es[b..c];
      WantedAppend(es[a..b], es[b..c], collection);
    }
  }

  lemma BetweenGrows<T>(es: seq<Notice<T>>, more: seq<Notice<T>>, collection: Option<string>, a: nat, b: nat)
    requires b <= |es|
    ensures Between(es + more, collection, a, b) == Between(es, collection, a, b)
  {
    hide Wanted;
    if a < b {
      assert (es + more)[a..b] == es[a..b];
    }
  }

  lemma BetweenOne<T>(es: seq<Notice<T>>, collection: Option<string>, i: nat)
    requires i < |es|
    ensures Between(es, collection, i, i + 1) == if Matches(es[i], collection) then [es[i]] else []
  {
    var one := es[i..i + 1];
    assert one == [es[i]] && one[..0] == [];
    assert Wanted(one[..0], collection) == [];
  }

  /** The watcher asks for all collections, or for this one. */
  predicate Asked<T>(e: Notice<T>, collection: Option<string>) {
    collection.Some? ==> e.collection == collection.value
  }

  /**
   * The delivered events are events of the log numbered above `low` and up to `high` that were asked for, with rising
   * numbers, and no such event is missing.
   */
  ghost predicate Picked<T>(delivered: seq<Notice<T>>, es: seq<Notice<T>>, collection: Option<string>, low: nat,
                            high: nat) {
    && high <= |es|
    && (forall e :: e in delivered ==> e in es && low < e.sequence <= high && Asked(e, collection))
    && (forall i, j :: 0 <= i < j < |delivered| ==> delivered[i].sequence < delivered[j].sequence)
    && forall k :: low <= k < high && Asked(es[k], collection) ==> es[k] in delivered
  }

  lemma BetweenLast<T>(es: seq<Notice<T>>, collection: Option<string>, low: nat, high: nat)
    requires low < high <= |es|
    ensures Between(es, collection, low, high) == Between(es, collection, low, high - 1) +
      (if Asked(es[high - 1], collection) then [es[high - 1]] else [])
  {
    hide Between;
    BetweenSplit(es, collection, low, high - 1, high);
    BetweenOne(es, collection, high - 1);
  }

  lemma NoneFrom<T>(es: seq<Notice<T>>, collection: Option<string>, low: nat, high: nat)
    requires high <= low && high <= |es|
    ensures Between(es, collection, low, high) == []
  {
  }

  lemma NumberAt<T>(es: seq<Notice<T>>, i: nat)
    requires Numbered(es) && i < |es|
    ensures es[i].sequence == i + 1
  {
  }

  lemma PickedNext<T>(delivered: seq<Notice<T>>, es: seq<Notice<T>>, collection: Option<string>, low: nat, high: nat)
    requires low < high <= |es| && Picked(delivered, es, collection, low, high - 1) && es[high - 1].sequence == high
    ensures Asked(es[high - 1], collection) ==> Picked(delivered + [es[high - 1]], es, collection, low, high)
    ensures !Asked(es[high - 1], collection) ==> Picked(delivered, es, collection, low, high)
  {
    hide Asked;
    var last := es[high - 1];
    var more := delivered + [last];
    assert forall e :: e in more <==> e in delivered || e == last;
    forall i, j | 0 <= i < j < |more| ensures more[i].sequence < more[j].sequence {
      assert more[i] in delivered;
    }
  }

  lemma {:induction false} BetweenPicked<T>(es: seq<Notice<T>>, collection: Option<string>, low: nat, high: nat)
    requires Numbered(es) && high <= |es|
    ensures Picked(Between(es, collection, low, high), es, collection, low, high)
    decreases high
  {
    hide Between, Asked, Numbered;
    if low >= high {
      NoneFrom(es, collection, low, high);
    } else {
      BetweenPicked(es, collection, low, high - 1);
      BetweenLast(es, collection, low, high);
      assert es[high - 1].sequence == high by { NumberAt(es, high - 1); }
      PickedNext(Between(es, collection, low, high - 1), es, collection, low, high);
      assert Between(es, collection, low, high - 1) + [] == Between(es, collection, low, high - 1);
    }
  }

  lemma SomeMember<T>(s: seq<T>)
    requires s != []
    ensures exists x :: x in s
  {
    assert s[0] in s;
  }

  /** The event with the highest number comes last. */
  lemma PickedLast<T>(delivered: seq<Notice<T>>, es: seq<Notice<T>>, collection: Option<string>, low: nat, high: nat)
    requires Numbered(es) && Picked(delivered, es, collection, low, high) && low < high
    requires Asked(es[high - 1], collection)
    ensures delivered != [] && delivered[|delivered| - 1] == es[high - 1]
    ensures Picked(delivered[..|delivered| - 1], es, collection, low, high - 1)
  {
    hide Asked;
    assert es[high - 1] in delivered;
    var n := |delivered| - 1;
    assert delivered[n] in delivered;
    var init := delivered[..n];
    assert forall i :: 0 <= i < n ==> init[i] == delivered[i] && delivered[i] in delivered;
    forall k | low <= k < high - 1 && Asked(es[k], collection) ensures es[k] in init {
      var i :| 0 <= i < |delivered| && delivered[i] == es[k];
      assert i < n ==> init[i] == es[k];
    }
  }

  lemma {:induction false} PickedIs<T>(delivered: seq<Notice<T>>, es: seq<Notice<T>>, collection: Option<string>,
                                       low: nat, high: nat)
    requires Numbered(es) && Picked(delivered, es, collection, low, high)
    ensures delivered == Between(es, collection, low, high)
    decreases high
  {
    hide Between, Asked;
    if low >= high {
      NoneFrom(es, collection, low, high);
      if delivered != [] {
        SomeMember(delivered);
      }
    } else {
      BetweenLast(es, collection, low, high);
      if Asked(es[high - 1], collection) {
        PickedLast(delivered, es, collection, low, high);
        var n := |delivered| - 1;
        PickedIs(delivered[..n], es, collection, low, high - 1);
        assert delivered == delivered[..n] + [es[high - 1]];
      } else {
        assert forall e :: e in delivered ==> e.sequence != high;
        PickedIs(delivered, es, collection, low, high - 1);
        assert delivered + [] == delivered;
      }
    }
  }

  /** What `Between` selects, and that nothing else does. */
  lemma BetweenPicks<T>(delivered: seq<Notice<T>>, es: seq<Notice<T>>, collection: Option<string>, low: nat, high: nat)
    requires Numbered(es) && high <= |es|
    ensures delivered == Between(es, collection, low, high) <==> Picked(delivered, es, collection, low, high)
  {
    hide Between, Picked, Numbered;
    BetweenPicked(es, collection, low, high);
    if Picked(delivered, es, collection, low, high) {
      PickedIs(delivered, es, collection, low, high);
    }
  }

  /** The retained events after a cursor. */
  function Since<T>(changes: seq<Notice<T>>, after: nat): seq<Notice<T>> {
    if changes == [] then []
      else (if changes[0].sequence > after then [changes[0]] else []) + Since(changes[1..], after)
  }

  /** The cursor reaches back no further than the retained window. */
  predicate Reaches<T>(changes: seq<Notice<T>>, sequence: nat, after: nat) {
    after + 1 >= if changes == [] then sequence + 1 else changes[0].sequence
  }

  lemma {:induction false} SinceOf<T>(es: seq<Notice<T>>, base: nat, after: nat)
    requires forall i :: 0 <= i < |es| ==> es[i].sequence == base + i + 1
    ensures Since(es, after) == if after <= base then es else if after - base <= |es| then es[after - base..] else []
  {
    if es != [] {
      var rest := es[1..];
      assert forall i :: 0 <= i < |rest| ==> rest[i] == es[i + 1];
      SinceOf(rest, base + 1, after);
    }
  }

  /** From a cursor that reaches, the retained window still holds every later event. */
  lemma RetainedSince<T>(es: seq<Notice<T>>, retention: nat, after: nat)
    requires Numbered(es) && retention >= 1 && (after == |es| || Reaches(LastN(es, retention), |es|, after))
    ensures Since(LastN(es, retention), after) == if after <= |es| then es[after..] else []
  {
    var kept := LastN(es, retention);
    var base := |es| - |kept|;
    assert kept == es[base..];
    assert forall i :: 0 <= i < |kept| ==> kept[i] == es[base + i];
    SinceOf(kept, base, after);
    if base <= after <= |es| {
      assert kept[after - base..] == es[after..];
    }
  }

  // ---------------------------------------------------------------- src/storage-core.js

  /** A watcher of the storage engine: its `cursor`, and what its listener has been given. */
  class ChangeWatcher<T(==)> {
    const collection: Option<string>
    var cursor: nat
    var delivered: seq<Notice<T>>

    /** Replays the retained changes after the cursor; the caller has checked that it can be resumed. */
    constructor (collection: Option<string>, after: nat, changes: seq<Notice<T>>, ghost es: seq<Notice<T>>)
      requires Numbered(es) && (after <= |es| ==> changes == es[after..]) && (after > |es| ==> changes == [])
      ensures this.collection == collection
      ensures cursor == if after <= |es| then |es| else after
      ensures Picked(delivered, es, collection, after, |es|)
      ensures delivered == Between(es, collection, after, |es|)
    {
      this.collection, cursor, delivered := collection, after, [];
      new;
      for i := 0 to |changes|
        invariant cursor == after + i && delivered == Wanted(changes[..i], collection)
      {
        var event := changes[i];
        assert changes[..i + 1][..i] == changes[..i];
        cursor := event.sequence;
        if Matches(event, collection) {
          delivered := delivered + [event];
        }
      }
      assert changes[..|changes|] == changes;
      assert after < |es| ==> es[after..|es|] == es[after..];
      BetweenPicks(delivered, es, collection, after, |es|);
    }

    /** The handler of an emitted event: those at or below the cursor were delivered already. */
    method Handle(event: Notice<T>)
      modifies this
      ensures cursor == if event.sequence <= old(cursor) then old(cursor) else event.sequence
      ensures delivered == old(delivered) +
        if event.sequence > old(cursor) && Asked(event, collection) then [event] else []
    {
      if event.sequence > cursor {
        cursor := event.sequence;
        if Matches(event, collection) {
          delivered := delivered + [event];
        }
      }
    }
  }

  /** A watcher as a value, opened at `after`. */
  datatype Watch<T> = Watch(collection: Option<string>, after: nat, cursor: nat, delivered: seq<Notice<T>>)

  /** The log, how many of its events are retained, how many have been emitted, and one watcher once it is open. */
  datatype Feed<T> = Feed(es: seq<Notice<T>>, retention: nat, emitted: nat, watch: Option<Watch<T>>)

  /**
   * A commit appends its events and then emits them one by one; a watcher may open at any time, from a listener too.
   */
  datatype FeedStep<T> = Append(more: seq<Notice<T>>) | Emit | Open(collection: Option<string>, after: nat)

  ghost predicate FeedEnabled<T>(f: Feed<T>, s: FeedStep<T>) {
    match s
    case Append(more) => forall i :: 0 <= i < |more| ==> more[i].sequence == |f.es| + i + 1
    case Emit => f.emitted < |f.es|
    case Open(_, after) => f.watch.None? && (after == |f.es| || Reaches(LastN(f.es, f.retention), |f.es|, after))
  }

  function Handled<T>(w: Watch<T>, e: Notice<T>): Watch<T> {
    if e.sequence <= w.cursor then w
    else w.(cursor := e.sequence, delivered := w.delivered + if Matches(e, w.collection) then [e] else [])
  }

  function Opened<T>(f: Feed<T>, collection: Option<string>, after: nat): Watch<T> {
    var replayed := Since(LastN(f.es, f.retention), after);
    Watch(collection, after,
      if replayed == [] then after else replayed[|replayed| - 1].sequence, Wanted(replayed, collection))
  }

  function FeedNext<T>(f: Feed<T>, s: FeedStep<T>): Feed<T>
    requires s.Emit? ==> f.emitted < |f.es|
  {
    match s
    case Append(more) => f.(es := f.es + more)
    case Emit =>
      f.(emitted := f.emitted + 1, watch :=
        if f.watch.None? then None else Some(Handled(f.watch.value, f.es[f.emitted])))
    case Open(collection, after) => f.(watch := Some(Opened(f, collection, after)))
  }

  /** What the watcher has been given: every wanted event after its cursor at opening, up to where it stands now. */
  ghost predicate WatchOk<T>(f: Feed<T>) {
    && Numbered(f.es) && f.emitted <= |f.es| && f.retention >= 1
    && (f.watch.Some? ==>
          var w := f.watch.value;
          && f.emitted <= w.cursor && w.after <= w.cursor
          && (w.cursor <= |f.es| ==> w.delivered == Between(f.es, w.collection, w.after, w.cursor))
          && (w.cursor > |f.es| ==> w.cursor == w.after && w.delivered == []))
  }

  lemma FeedKeeps<T>(f: Feed<T>, s: FeedStep<T>)
    requires WatchOk(f) && FeedEnabled(f, s)
    ensures WatchOk(FeedNext(f, s))
  {
    hide Between, Matches, Since, LastN, Reaches;
    var g := FeedNext(f, s);
    if f.watch.Some? {
      var w := f.watch.value;
      match s
      case Append(more) =>
        if w.cursor <= |f.es| {
          BetweenGrows(f.es, more, w.collection, w.after, w.cursor);
        } else {
          NothingBetween(g.es, w.collection, w.after);
        }
      case Emit =>
        if f.emitted + 1 > w.cursor {
          BetweenSplit(f.es, w.collection, w.after, w.cursor, w.cursor + 1);
          BetweenOne(f.es, w.collection, w.cursor);
        }
      case Open(_, _) =>
    } else if s.Open? {
      RetainedSince(f.es, f.retention, s.after);
      NothingBetween(f.es, s.collection, s.after);
      WholeBetween(f.es, s.collection, s.after);
    }
  }

  lemma WholeBetween<T>(es: seq<Notice<T>>, collection: Option<string>, after: nat)
    ensures after <= |es| ==> Between(es, collection, after, |es|) == Wanted(es[after..], collection)
    ensures Wanted<T>([], collection) == []
  {
    if after <= |es| {
      assert es[after..|es|] == es[after..];
    }
  }

  lemma NothingBetween<T>(es: seq<Notice<T>>, collection: Option<string>, after: nat)
    ensures after <= |es| ==> Between(es, collection, after, after) == []
  {
  }

  lemma PastEnd<T>(es: seq<Notice<T>>, collection: Option<string>, after: nat)
    ensures after >= |es| ==> Between(es, collection, after, |es|) == []
  {
  }

  ghost predicate FeedRun<T>(states: seq<Feed<T>>, steps: seq<FeedStep<T>>) {
    && |states| == |steps| + 1 && states[0].es == [] && states[0].retention >= 1 && states[0].emitted == 0 &&
         states[0].watch.None?
    && forall i ::
         0 <= i < |steps| ==> FeedEnabled(states[i], steps[i]) && states[i + 1] == FeedNext(states[i], steps[i])
  }

  /**
   * Exactly once, storage engine: in every run, a watcher opened at any cursor has been given, once every event is
   * emitted, precisely the wanted events numbered above that cursor, in order.
   */
  lemma {:induction false} ExactlyOnce<T>(states: seq<Feed<T>>, steps: seq<FeedStep<T>>, n: nat)
    requires FeedRun(states, steps) && n <= |steps|
    ensures WatchOk(states[n])
    ensures states[n].watch.Some? && states[n].emitted == |states[n].es| ==>
      var es, w := states[n].es, states[n].watch.value;
      Picked(w.delivered, es, w.collection, w.after, |es|) && w.delivered == Between(es, w.collection, w.after, |es|)
  {
    hide FeedNext, FeedEnabled, Between, Picked;
    if n > 0 {
      ExactlyOnce(states, steps, n - 1);
      FeedKeeps(states[n - 1], steps[n - 1]);
    }
    if states[n].watch.Some? {
      var es, w := states[n].es, states[n].watch.value;
      PastEnd(es, w.collection, w.after);
      BetweenPicks(w.delivered, es, w.collection, w.after, |es|);
    }
  }
}
