/** Facts about the committed log: what a fold of events leaves at one key, and what the metadata records of it. */
module CommitLog {
  import opened Basics
  import opened Json
  import opened Transactions
  import opened StorageCore

  /** The committed events, oldest first. */
  function Log(h: seq<Commit>): seq<Event> {
    if h == [] then [] else Log(h[..|h| - 1]) + h[|h| - 1].entry.events
  }

  function Entries(h: seq<Commit>): (r: seq<Entry>)
    ensures |r| == |h|
    ensures forall i :: 0 <= i < |h| ==> r[i] == h[i].entry
  {
    if h == [] then [] else [h[0].entry] + Entries(h[1..])
  }

  /** The committed content: the events applied one after another to the empty database. */
  function State(h: seq<Commit>): Content {
    Fold(map[], Log(h))
  }

  function MetaOf(config: Config, h: seq<Commit>): Meta {
    Trim(AbsorbAll(FRESH, Log(h)), config.retention)
  }

  /** The last event on k. */
  function LastOn(es: seq<Event>, k: Key): Option<Event> {
    if es == [] then None
    else if es[|es| - 1].key == k then Some(es[|es| - 1])
    else LastOn(es[..|es| - 1], k)
  }

  lemma LogAppend(a: seq<Commit>, b: seq<Commit>)
    ensures Log(a + b) == Log(a) + Log(b)
  {
    if b == [] {
      assert a + b == a;
    } else {
      assert (a + b)[..|a + b| - 1] == a + b[..|b| - 1];
      LogAppend(a, b[..|b| - 1]);
    }
  }

  lemma LogSplit(h: seq<Commit>, i: nat)
    requires i <= |h|
    ensures Log(h) == Log(h[..i]) + Log(h[i..])
  {
    assert h == h[..i] + h[i..];
    LogAppend(h[..i], h[i..]);
  }

  lemma LogNext(h: seq<Commit>, i: nat)
    requires i < |h|
    ensures Log(h[..i + 1]) == Log(h[..i]) + h[i].entry.events
    ensures Log(h[i..]) == h[i].entry.events + Log(h[i + 1..])
  {
    assert h[..i + 1][..i] == h[..i];
    assert h[i..] == [h[i]] + h[i + 1..];
    LogAppend([h[i]], h[i + 1..]);
    assert Log([h[i]]) == Log([]) + h[i].entry.events by { assert [h[i]][..0] == []; }
  }

  lemma FoldAppend(s: Content, a: seq<Event>, b: seq<Event>)
    ensures Fold(s, a + b) == Fold(Fold(s, a), b)
  {
    if b == [] {
      assert a + b == a;
    } else {
      assert (a + b)[..|a + b| - 1] == a + b[..|b| - 1];
      FoldAppend(s, a, b[..|b| - 1]);
    }
  }

  lemma LastOnAppend(a: seq<Event>, b: seq<Event>, k: Key)
    ensures LastOn(a + b, k) == if LastOn(b, k).Some? then LastOn(b, k) else LastOn(a, k)
  {
    if b == [] {
      assert a + b == a;
    } else {
      assert (a + b)[..|a + b| - 1] == a + b[..|b| - 1];
      LastOnAppend(a, b[..|b| - 1], k);
    }
  }

  lemma LastOnSome(es: seq<Event>, k: Key)
    ensures LastOn(es, k).Some? <==> exists e :: e in es && e.key == k
    ensures LastOn(es, k).Some? ==> LastOn(es, k).value in es && LastOn(es, k).value.key == k
  {
    if es != [] {
      assert es == es[..|es| - 1] + [es[|es| - 1]];
      LastOnSome(es[..|es| - 1], k);
    }
  }

  /** A key's content after a fold is decided by the last event on it. */
  lemma {:induction false} FoldAt(s: Content, es: seq<Event>, k: Key)
    ensures Lookup(Fold(s, es), k) == if LastOn(es, k).Some? then LastOn(es, k).value.record else Lookup(s, k)
  {
    if es != [] {
      FoldAt(s, es[..|es| - 1], k);
    }
  }

  lemma OfCollectionLast(es: seq<Event>, c: string, yes: bool, k: Key)
    ensures LastOn(OfCollection(es, c, yes), k) == if (k.collection == c) == yes then LastOn(es, k) else None
  {
    if es != [] {
      OfCollectionLast(es[1..], c, yes, k);
      assert es == [es[0]] + es[1..];
      LastOnAppend([es[0]], es[1..], k);
      LastOnAppend(if (es[0].key.collection == c) == yes then [es[0]] else [], OfCollection(es[1..], c, yes), k);
    }
  }

  /** Grouping by collection keeps the last event on every key. */
  lemma {:induction false} GroupedLast(es: seq<Event>, k: Key)
    ensures LastOn(Grouped(es), k) == LastOn(es, k)
    decreases |es|
  {
    if es != [] {
      var c := es[0].key.collection;
      OfCollectionShorter(es, c, false);
      GroupedLast(OfCollection(es, c, false), k);
      OfCollectionLast(es, c, true, k);
      OfCollectionLast(es, c, false, k);
      LastOnAppend(OfCollection(es, c, true), Grouped(OfCollection(es, c, false)), k);
    }
  }

  lemma SameContent(s: Content, t: Content)
    requires forall k :: Lookup(s, k) == Lookup(t, k)
    ensures s == t
  {
    forall k ensures k in s <==> k in t {
      assert Lookup(s, k) == Lookup(t, k);
    }
    forall k | k in s ensures s[k] == t[k] {
      assert Lookup(s, k) == Lookup(t, k);
    }
  }

  lemma FoldGrouped(s: Content, es: seq<Event>)
    ensures Fold(s, Grouped(es)) == Fold(s, es)
  {
    forall k ensures Lookup(Fold(s, Grouped(es)), k) == Lookup(Fold(s, es), k) {
      GroupedLast(es, k);
      FoldAt(s, Grouped(es), k);
      FoldAt(s, es, k);
    }
    SameContent(Fold(s, Grouped(es)), Fold(s, es));
  }

  /** A store operation does to the visible content what its event does, and keeps versions within the counters. */
  lemma ApplyCellLive(cells: Cells, counters: map<string, nat>, e: Event)
    ensures var (c, n) := ApplyCell(cells, counters, e);
      && Live(c) == Apply(Live(cells), e)
      && (CoversVersions(cells, counters) ==> CoversVersions(c, n))
  {
    var (c, n) := ApplyCell(cells, counters, e);
    forall k ensures Lookup(Live(c), k) == Lookup(Apply(Live(cells), e), k) {
    }
    SameContent(Live(c), Apply(Live(cells), e));
  }

  lemma {:induction false} ApplyCellsLive(cells: Cells, counters: map<string, nat>, es: seq<Event>)
    ensures var (c, n) := ApplyCells(cells, counters, es);
      && Live(c) == Fold(Live(cells), es)
      && (CoversVersions(cells, counters) ==> CoversVersions(c, n))
  {
    if es != [] {
      ApplyCellsLive(cells, counters, es[..|es| - 1]);
      var (c, n) := ApplyCells(cells, counters, es[..|es| - 1]);
      ApplyCellLive(c, n, es[|es| - 1]);
    }
  }

  lemma AbsorbAppend(m: Meta, a: seq<Event>, b: seq<Event>)
    ensures AbsorbAll(m, a + b) == AbsorbAll(AbsorbAll(m, a), b)
  {
    if b == [] {
      assert a + b == a;
    } else {
      assert (a + b)[..|a + b| - 1] == a + b[..|b| - 1];
      AbsorbAppend(m, a, b[..|b| - 1]);
    }
  }

  /** Absorbing commutes with forgetting retained changes. */
  lemma {:induction false} AbsorbChanges(m: Meta, n: Meta, es: seq<Event>)
    requires n == m.(changes := n.changes)
    ensures AbsorbAll(m, es).changes == m.changes + es
    ensures AbsorbAll(n, es) == AbsorbAll(m, es).(changes := n.changes + es)
  {
    if es == [] {
      assert m.changes + es == m.changes && n.changes + es == n.changes;
    } else {
      var init := es[..|es| - 1];
      AbsorbChanges(m, n, init);
      assert es == init + [es[|es| - 1]];
      assert m.changes + es == m.changes + init + [es[|es| - 1]];
      assert n.changes + es == n.changes + init + [es[|es| - 1]];
    }
  }

  lemma TrimAbsorb(m: Meta, es: seq<Event>, n: nat)
    ensures Trim(AbsorbAll(Trim(m, n), es), n) == Trim(AbsorbAll(m, es), n)
  {
    AbsorbChanges(m, Trim(m, n), es);
    LastNAppend(m.changes, es, n);
  }

  /** The event at i records the record it replaced. */
  predicate TrueBefore(s: Content, es: seq<Event>, i: nat)
    requires i < |es|
  {
    es[i].before == Lookup(Fold(s, es[..i]), es[i].key)
  }

  /** Every event records the record it replaced. */
  ghost predicate TrueBefores(s: Content, es: seq<Event>) {
    forall i :: 0 <= i < |es| ==> TrueBefore(s, es, i)
  }

  lemma TrueBeforesInit(s: Content, es: seq<Event>)
    requires es != [] && TrueBefores(s, es)
    ensures TrueBefores(s, es[..|es| - 1]) && TrueBefore(s, es, |es| - 1)
  {
    hide Fold;
    var init := es[..|es| - 1];
    forall i | 0 <= i < |init| ensures TrueBefore(s, init, i) {
      assert TrueBefore(s, es, i) && init[..i] == es[..i];
    }
  }

  /** Events carry their position in the log. */
  ghost predicate Numbered(es: seq<Event>, base: nat) {
    forall i :: 0 <= i < |es| ==> es[i].sequence == base + i + 1
  }

  lemma {:induction false} AbsorbNumbered(m: Meta, es: seq<Event>)
    requires Numbered(es, m.sequence)
    requires forall c :: Count(m.versions, c) <= m.sequence
    ensures AbsorbAll(m, es).sequence == m.sequence + |es|
    ensures forall c :: Count(AbsorbAll(m, es).versions, c) <= m.sequence + |es|
  {
    if es != [] {
      var init, e := es[..|es| - 1], es[|es| - 1];
      AbsorbNumbered(m, init);
      assert e.sequence == m.sequence + |es|;
      var n := AbsorbAll(m, init);
      forall c ensures Count(Absorb(n, e).versions, c) <= m.sequence + |es| {
        assert Count(n.versions, c) <= m.sequence + |init|;
      }
    }
  }

  /** Numbered events advance the version of exactly the collections they touch. */
  lemma {:induction false} VersionAdvances(m: Meta, es: seq<Event>, c: string)
    requires Numbered(es, m.sequence)
    ensures if OfCollection(es, c, true) != []
      then Count(AbsorbAll(m, es).versions, c) > m.sequence
      else Count(AbsorbAll(m, es).versions, c) == Count(m.versions, c)
  {
    if es != [] {
      var init, e := es[..|es| - 1], es[|es| - 1];
      VersionAdvances(m, init, c);
      OfCollectionSnoc(init, e, c);
      assert es == init + [e];
    }
  }

  lemma {:induction false} OfCollectionSnoc(es: seq<Event>, e: Event, c: string)
    ensures OfCollection(es + [e], c, true) == OfCollection(es, c, true) + if e.key.collection == c then [e] else []
  {
    if es == [] {
      assert es + [e] == [e];
    } else {
      assert (es + [e])[1..] == es[1..] + [e];
      OfCollectionSnoc(es[1..], e, c);
    }
  }
}
