/**
 * The watchers of src/index.js: a replay of at most 10000 retained events on opening, then deliveries through the
 * microtask queue, with events that were adopted but not yet published when the watcher opened.
 */
module QueuedStreams {
  import opened Basics
  import opened Streams

  const REPLAY_LIMIT := 10000

  function Take<T>(s: seq<T>, n: nat): seq<T> {
    if |s| <= n then s else s[..n]
  }

  /** A watcher: `last` is `lastSequence`, `queue` the microtasks pending for it, and how much of the log
      was adopted and published when it opened. */
  datatype Subscription<T> = Subscription(collection: Option<string>, after: nat, last: nat, delivered: seq<Notice<T>>,
                                          queue: seq<Notice<T>>,
                            adopted: nat, published: nat)

  /** The adopted events, how many are retained, how many have been published, and one watcher once it is open. */
  datatype Feed<T> = Feed(es: seq<Notice<T>>, retention: nat, published: nat, watch: Option<Subscription<T>>)

  datatype Step<T> = Adopt(more: seq<Notice<T>>) | Publish | Subscribe(collection: Option<string>, after: nat) | Deliver

  ghost predicate Enabled<T>(f: Feed<T>, s: Step<T>) {
    match s
    case Adopt(more) => forall i :: 0 <= i < |more| ==> more[i].sequence == |f.es| + i + 1
    case Publish => f.published < |f.es|
    case Subscribe(_, after) => f.watch.None? && after <= |f.es| && Reaches(LastN(f.es, f.retention), |f.es|, after)
    case Deliver => f.watch.Some? && f.watch.value.queue != []
  }

  /** `changesSince(after, { limit, collection })`. */
  function ChangesSince<T>(changes: seq<Notice<T>>, after: nat, collection: Option<string>): seq<Notice<T>> {
    Take(Wanted(Since(changes, after), collection), REPLAY_LIMIT)
  }

  function Opened<T>(f: Feed<T>, collection: Option<string>, after: nat): Subscription<T> {
    var replay := ChangesSince(LastN(f.es, f.retention), after, collection);
    Subscription(collection, after,
      if replay == [] then after else replay[|replay| - 1].sequence, replay, [], |f.es|, f.published)
  }

  /** A microtask of the watcher's listener. */
  function Delivered<T>(w: Subscription<T>): Subscription<T>
    requires w.queue != []
  {
    var e := w.queue[0];
    var rest := w.(queue := w.queue[1..]);
    if e.sequence <= w.last || !Matches(e, w.collection) then rest
    else rest.(last := e.sequence, delivered := w.delivered + [e])
  }

  ghost function Next<T>(f: Feed<T>, s: Step<T>): Feed<T>
    requires Enabled(f, s)
  {
    match s
    case Adopt(more) => f.(es := f.es + more)
    case Publish =>
      f.(published := f.published + 1,
         watch := if f.watch.None? then None
           else Some(f.watch.value.(queue := f.watch.value.queue + [f.es[f.published]])))
    case Subscribe(collection, after) => f.(watch := Some(Opened(f, collection, after)))
    case Deliver => f.(watch := Some(Delivered(f.watch.value)))
  }

  /** Where the replay stopped: the cursor itself, or the last event replayed. */
  ghost function Stop<T>(es: seq<Notice<T>>, w: Subscription<T>): nat
    requires w.adopted <= |es|
  {
    var replay := Take(Between(es, w.collection, w.after, w.adopted), REPLAY_LIMIT);
    if replay == [] then w.after else replay[|replay| - 1].sequence
  }

  function Max(a: nat, b: nat): nat {
    if a < b then b else a
  }

  /**
   * A watcher whose queue has been worked off up to `handled`: it has been given the replay, and then every wanted
   * event published after it opened that lies beyond the replay.
   */
  ghost predicate WatchAt<T>(f: Feed<T>, w: Subscription<T>, handled: nat) {
    && w.published <= handled <= f.published <= |f.es| && w.published <= w.adopted <= |f.es| && w.after <= w.adopted
    && w.queue == f.es[handled..f.published]
    && var stop := Stop(f.es, w);
      && w.after <= stop <= w.adopted
      && Take(Between(f.es, w.collection, w.after, w.adopted), REPLAY_LIMIT) ==
           Between(f.es, w.collection, w.after, stop)
      && w.delivered ==
           Between(f.es, w.collection, w.after, stop) + Between(f.es, w.collection, Max(stop, w.published), handled)
      && LastOf(f.es, w, stop, handled)
  }

  /**
   * `lastSequence` has passed every delivered event, and nothing wanted between it and the handled position is missing.
   */
  ghost predicate LastOf<T>(es: seq<Notice<T>>, w: Subscription<T>, stop: nat, handled: nat)
    requires handled <= |es|
  {
    && stop <= w.last
    && w.last <= Max(stop, handled)
  }

  ghost predicate Inv<T>(f: Feed<T>) {
    && Numbered(f.es) && f.published <= |f.es| && f.retention >= 1
    && (f.watch.Some? ==> exists handled: nat :: WatchAt(f, f.watch.value, handled))
  }

  ghost function LastSequence<T>(taken: seq<Notice<T>>, after: nat): nat {
    if taken == [] then after else taken[|taken| - 1].sequence
  }

  /** Between the last wanted event and the end nothing is wanted. */
  lemma {:induction false} LastWanted<T>(es: seq<Notice<T>>, collection: Option<string>, after: nat, upTo: nat)
    requires Numbered(es) && after <= upTo <= |es|
    ensures var stop := LastSequence(Between(es, collection, after, upTo), after);
      after <= stop <= upTo && Between(es, collection, after, upTo) == Between(es, collection, after, stop)
    ensures Between(es, collection, LastSequence(Between(es, collection, after, upTo), after), upTo) == []
    decreases upTo
  {
    hide Between, Matches;
    AtMost(es, collection, upTo, upTo);
    if after < upTo {
      var init := Between(es, collection, after, upTo - 1);
      LastWanted(es, collection, after, upTo - 1);
      BetweenSplit(es, collection, after, upTo - 1, upTo);
      BetweenOne(es, collection, upTo - 1);
      if !Matches(es[upTo - 1], collection) {
        assert Between(es, collection, after, upTo) == init;
        BetweenSplit(es, collection, LastSequence(init, after), upTo - 1, upTo);
      }
    } else {
      AtMost(es, collection, after, upTo);
    }
  }

  /** The first wanted events are those up to the last one taken. */
  lemma {:induction false} TakeBetween<T>(es: seq<Notice<T>>, collection: Option<string>, after: nat, upTo: nat, n: nat)
    requires Numbered(es) && after <= upTo <= |es|
    ensures var taken := Take(Between(es, collection, after, upTo), n);
      after <= LastSequence(taken, after) <= upTo && taken == Between(es, collection, after, LastSequence(taken, after))
    decreases upTo
  {
    hide Between, Matches;
    var all := Between(es, collection, after, upTo);
    if |all| <= n {
      LastWanted(es, collection, after, upTo);
    } else if after < upTo {
      var init := Between(es, collection, after, upTo - 1);
      BetweenSplit(es, collection, after, upTo - 1, upTo);
      BetweenOne(es, collection, upTo - 1);
      assert all[..n] == Take(init, n);
      TakeBetween(es, collection, after, upTo - 1, n);
    } else {
      AtMost(es, collection, after, upTo);
    }
  }

  lemma AtMost<T>(es: seq<Notice<T>>, collection: Option<string>, a: nat, b: nat)
    requires b <= |es|
    ensures a >= b ==> Between(es, collection, a, b) == []
  {
  }

  lemma KeepAdopt<T>(f: Feed<T>, more: seq<Notice<T>>)
    requires Inv(f) && Enabled(f, Adopt(more))
    ensures Inv(Next(f, Adopt(more)))
  {
    hide Between, Matches, Take;
    if f.watch.Some? {
      var w := f.watch.value;
      var handled: nat :| WatchAt(f, w, handled);
      var stop := Stop(f.es, w);
      BetweenGrows(f.es, more, w.collection, w.after, w.adopted);
      BetweenGrows(f.es, more, w.collection, w.after, stop);
      BetweenGrows(f.es, more, w.collection, Max(stop, w.published), handled);
      assert (f.es + more)[handled..f.published] == f.es[handled..f.published];
      assert WatchAt(Next(f, Adopt(more)), w, handled);
    }
  }

  lemma KeepPublish<T>(f: Feed<T>)
    requires Inv(f) && Enabled(f, Publish)
    ensures Inv(Next(f, Publish))
  {
    hide Between, Matches, Take;
    if f.watch.Some? {
      var w := f.watch.value;
      var handled: nat :| WatchAt(f, w, handled);
      var g := Next(f, Publish);
      assert f.es[handled..f.published + 1] == f.es[handled..f.published] + [f.es[f.published]];
      assert WatchAt(g, g.watch.value, handled);
    }
  }

  lemma KeepOpen<T>(f: Feed<T>, collection: Option<string>, after: nat)
    requires Inv(f) && Enabled(f, Subscribe(collection, after))
    ensures Inv(Next(f, Subscribe(collection, after)))
  {
    hide Between, Matches, Take, Since, LastN, Wanted, Reaches;
    var w := Opened(f, collection, after);
    RetainedSince(f.es, f.retention, after);
    WholeBetween(f.es, collection, after);
    TakeBetween(f.es, collection, after, |f.es|, REPLAY_LIMIT);
    AtMost(f.es, collection, Max(Stop(f.es, w), w.published), f.published);
    assert WatchAt(Next(f, Subscribe(collection, after)), w, f.published);
  }

  /** One microtask: an event at or below the replay's end is dropped, a later wanted one is delivered. */
  lemma DeliverOne<T>(es: seq<Notice<T>>, w: Subscription<T>, stop: nat, handled: nat)
    requires Numbered(es) && handled < |es| && w.published <= handled && w.queue != [] && w.queue[0] == es[handled]
    requires stop <= |es| && LastOf(es, w, stop, handled)
    requires w.delivered ==
      Between(es, w.collection, w.after, stop) + Between(es, w.collection, Max(stop, w.published), handled)
    ensures var v := Delivered(w);
      && v.delivered ==
           Between(es, w.collection, w.after, stop) + Between(es, w.collection, Max(stop, w.published), handled + 1)
      && LastOf(es, v, stop, handled + 1)
  {
    hide Between, Matches;
    var low := Max(stop, w.published);
    if handled + 1 <= stop {
      AtMost(es, w.collection, low, handled);
      AtMost(es, w.collection, low, handled + 1);
    } else {
      BetweenSplit(es, w.collection, low, handled, handled + 1);
      BetweenOne(es, w.collection, handled);
    }
  }

  lemma KeepDeliver<T>(f: Feed<T>)
    requires Inv(f) && Enabled(f, Deliver)
    ensures Inv(Next(f, Deliver))
  {
    hide Between, Matches, Take, LastOf, Numbered;
    var w := f.watch.value;
    var handled: nat :| WatchAt(f, w, handled);
    assert w.queue[0] == f.es[handled] && w.queue[1..] == f.es[handled + 1..f.published];
    DeliverOne(f.es, w, Stop(f.es, w), handled);
    var v := Delivered(w);
    assert Stop(f.es, v) == Stop(f.es, w);
    assert WatchAt(Next(f, Deliver), v, handled + 1);
  }

  ghost predicate Run<T>(states: seq<Feed<T>>, steps: seq<Step<T>>) {
    && |states| == |steps| + 1
    && states[0].es == [] && states[0].retention >= 1 && states[0].published == 0 && states[0].watch.None?
    && forall i :: 0 <= i < |steps| ==> Enabled(states[i], steps[i]) && states[i + 1] == Next(states[i], steps[i])
  }

  lemma {:induction false} InvRun<T>(states: seq<Feed<T>>, steps: seq<Step<T>>, n: nat)
    requires Run(states, steps) && n <= |steps|
    ensures Inv(states[n])
  {
    hide Next, Enabled, WatchAt;
    if n > 0 {
      InvRun(states, steps, n - 1);
      match steps[n - 1]
      case Adopt(more) => KeepAdopt(states[n - 1], more);
      case Publish => KeepPublish(states[n - 1]);
      case Subscribe(collection, after) => KeepOpen(states[n - 1], collection, after);
      case Deliver => KeepDeliver(states[n - 1]);
    }
  }

  /** Every event has been published and every microtask has run. */
  ghost predicate Drained<T>(f: Feed<T>) {
    f.watch.Some? && f.published == |f.es| && f.watch.value.queue == []
  }

  /**
   * Exactly once, first-generation engine: once everything is delivered, a watcher has been given precisely the wanted
   * events after its cursor, in order, if and only if at most 10000 of them had been published when it opened. Events
   * that were adopted but not yet published at that moment are never missed and never doubled.
   */
  lemma ExactlyOnceIff<T>(states: seq<Feed<T>>, steps: seq<Step<T>>, n: nat)
    requires Run(states, steps) && n <= |steps| && Drained(states[n])
    ensures var f, w := states[n], states[n].watch.value;
      && w.published <= |f.es|
      && (Picked(w.delivered, f.es, w.collection, w.after, |f.es|) <==>
            |Between(f.es, w.collection, w.after, w.published)| <= REPLAY_LIMIT)
  {
    hide Next, Enabled, Between, Take, Picked;
    InvRun(states, steps, n);
    var f, w := states[n], states[n].watch.value;
    var handled: nat :| WatchAt(f, w, handled);
    assert handled == |f.es|;
    DeliveredIff(f.es, w.collection, w.after, Stop(f.es, w), w.published, w.adopted);
    BetweenPicks(w.delivered, f.es, w.collection, w.after, |f.es|);
  }

  lemma DeliveredIff<T>(es: seq<Notice<T>>, collection: Option<string>, after: nat, stop: nat, published: nat,
                        adopted: nat)
    requires published <= adopted <= |es| && after <= stop <= adopted
    requires Take(Between(es, collection, after, adopted), REPLAY_LIMIT) == Between(es, collection, after, stop)
    ensures Between(es, collection, after, stop) + Between(es, collection, Max(stop, published), |es|) ==
      Between(es, collection, after, |es|)
      <==> |Between(es, collection, after, published)| <= REPLAY_LIMIT
  {
    hide Between;
    BetweenSplit(es, collection, after, stop, |es|);
    BetweenSplit(es, collection, after, stop, adopted);
    if stop < published {
      BetweenSplit(es, collection, stop, published, |es|);
      BetweenSplit(es, collection, after, stop, published);
      BetweenSplit(es, collection, stop, published, adopted);
    } else if after <= published {
      BetweenSplit(es, collection, after, published, stop);
    } else {
      AtMost(es, collection, after, published);
    }
  }

  // ---------------------------------------------------------------- a watcher too far behind

  function Numbers(n: nat): (es: seq<Notice<int>>)
    ensures |es| == n && forall i :: 0 <= i < n ==> es[i] == Notice(i + 1, "c", i)
  {
    seq(n, i requires 0 <= i < n => Notice(i + 1, "c", i))
  }

  lemma {:induction false} AllWanted(es: seq<Notice<int>>)
    ensures Wanted(es, None) == es
  {
    if es != [] {
      AllWanted(es[..|es| - 1]);
    }
  }

  /**
   * Whatever is retained: a watcher that opens at zero after more than 10000 published events is not given all of them.
   */
  lemma LongReplayMissesEvents(n: nat) returns (states: seq<Feed<int>>, steps: seq<Step<int>>)
    requires n > REPLAY_LIMIT
    ensures Run(states, steps)
    ensures var f := states[|steps|];
      && Drained(f) && f.es == Numbers(n) && f.watch.value.after == 0
      && !Picked(f.watch.value.delivered, f.es, None, 0, n)
  {
    hide Opened, Between;
    var es := Numbers(n);
    var published := seq(n + 1, k requires 0 <= k <= n => Feed.Feed(es, n, k, None));
    var start := Feed.Feed([], n, 0, None);
    var end := Feed.Feed(es, n, n, Some(Opened(published[n], None, 0)));
    states := [start] + published + [end];
    steps := [Adopt(es)] + seq(n, k => Publish) + [Subscribe(None, 0)];
    assert LastN(es, n) == es;
    forall i | 0 <= i < |steps| ensures Enabled(states[i], steps[i]) && states[i + 1] == Next(states[i], steps[i]) {
      if i == 0 {
        assert states[1] == published[0];
      } else if i <= n {
        assert states[i] == published[i - 1] && states[i + 1] == published[i] && steps[i] == Publish;
      } else {
        assert states[i] == published[n] && states[i + 1] == end;
      }
    }
    assert states[|steps|] == end;
    OpenedShape(published[n]);
    ExactlyOnceIff(states, steps, |steps|);
    WholeIs(es);
  }

  lemma OpenedShape(f: Feed<int>)
    ensures var w := Opened(f, None, 0);
      w.collection == None && w.after == 0 && w.queue == [] && w.published == f.published
  {
  }

  lemma WholeIs(es: seq<Notice<int>>)
    ensures Between(es, None, 0, |es|) == es
  {
    AllWanted(es);
    assert es[0..|es|] == es;
  }
}
