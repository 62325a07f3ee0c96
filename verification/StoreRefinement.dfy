/**
 * Where the layers meet: one operation of a segmented store is one cell update of the commit engine, and the engine's
 * log is a stream its watchers can number.
 */
module StoreRefinement {
  import opened Basics
  import opened Json
  import opened StorageCore
  import opened CommitLog
  import opened StorageRecovery
  import D = DocumentStore
  import T = TieredStore
  import B = BucketCache
  import Streams

  /** The cells of one collection, as its store's index and records show them. */
  function CellsOf(c: string, truth: map<string, B.Entry>, docs: T.Docs): Cells {
    map id | id in truth :: Key(c, id) := Cell(truth[id].sequence, Lookup(docs, id))
  }

  function OperationOf(e: Event): T.Operation {
    if e.record.Some? then T.Put(e.record.value) else T.Remove(e.key.id)
  }

  lemma CellAt(c: string, truth: map<string, B.Entry>, docs: T.Docs, k: Key)
    ensures k in CellsOf(c, truth, docs) <==> k.collection == c && k.id in truth
    ensures k in CellsOf(c, truth, docs) ==>
      CellsOf(c, truth, docs)[k] == Cell(truth[k.id].sequence, Lookup(docs, k.id))
  {
    assert k == Key(k.collection, k.id);
  }

  /** The index knows every record it shows, and every version it gives is positive. */
  ghost predicate Indexed(truth: map<string, B.Entry>, docs: T.Docs) {
    && docs.Keys <= truth.Keys
    && forall id :: id in truth <==> D.V(truth, id) > 0
  }

  /**
   * One operation of a store's batch is one `ApplyCell` of the engine, with the store's own sequence as the counter.
   */
  lemma StepIsApplyCell(truth0: map<string, B.Entry>, docs0: T.Docs, sequence0: nat, truth: map<string, B.Entry>,
                        docs: T.Docs,
                        sequence: nat, e: Event, did: bool, counters: map<string, nat>)
    requires Indexed(truth0, docs0) && Indexed(truth, docs)
    requires e.record.Some? ==> e.record.value.id == e.key.id
    requires Count(counters, e.key.collection) == sequence0
    requires D.Stepped(truth0, docs0, sequence0, truth, docs, sequence, OperationOf(e), did)
    ensures var (cells, next) := ApplyCell(CellsOf(e.key.collection, truth0, docs0), counters, e);
      && cells == CellsOf(e.key.collection, truth, docs)
      && Count(next, e.key.collection) == sequence
  {
    var c := e.key.collection;
    var before, after := CellsOf(c, truth0, docs0), CellsOf(c, truth, docs);
    var (cells, next) := ApplyCell(before, counters, e);
    hide CellsOf;
    CellAt(c, truth0, docs0, e.key);
    forall k ensures Lookup(cells, k) == Lookup(after, k) {
      CellAt(c, truth0, docs0, k);
      CellAt(c, truth, docs, k);
      assert k.id in truth <==> D.V(truth, k.id) > 0;
      assert k.id in truth0 <==> D.V(truth0, k.id) > 0;
      assert k == Key(k.collection, k.id);
    }
    SameCells(cells, after);
  }

  lemma SameCells(a: Cells, b: Cells)
    requires forall k :: Lookup(a, k) == Lookup(b, k)
    ensures a == b
  {
    forall k ensures k in a <==> k in b {
      assert Lookup(a, k) == Lookup(b, k);
    }
    forall k | k in a ensures a[k] == b[k] {
      assert Lookup(a, k) == Lookup(b, k);
    }
  }

  // ---------------------------------------------------------------- the log as a stream

  function Notices(es: seq<Event>): (r: seq<Streams.Notice<Event>>)
    ensures |r| == |es|
    ensures forall i :: 0 <= i < |es| ==> r[i] == Streams.Notice(es[i].sequence, es[i].key.collection, es[i])
  {
    if es == [] then [] else [Streams.Notice(es[0].sequence, es[0].key.collection, es[0])] + Notices(es[1..])
  }

  lemma NoticesAppend(a: seq<Event>, b: seq<Event>)
    ensures Notices(a + b) == Notices(a) + Notices(b)
  {
    hide Notices;
  }

  lemma NoticesNumbered(es: seq<Event>, base: nat)
    requires Numbered(es, base)
    ensures forall i :: 0 <= i < |Notices(es)| ==> Notices(es)[i].sequence == base + i + 1
  {
    hide Notices;
  }

  /** Every committed history is a numbered stream, and every further commit appends to it as a stream step. */
  lemma LogIsStream(config: Config, h: seq<Commit>, c: Commit, f: Streams.Feed<Event>)
    requires HistoryOk(config, h) && CommitOk(config, h, c) && f.es == Notices(Log(h))
    ensures Streams.Numbered(Notices(Log(h)))
    ensures Streams.FeedEnabled(f, Streams.Append(Notices(c.entry.events)))
    ensures Notices(Log(h + [c])) == f.es + Notices(c.entry.events)
  {
    hide HistoryOk, VerifyEntry, EffectOk, Notices, Numbered;
    LogNumbered(config, h);
    NoticesNumbered(Log(h), 0);
    assert (h + [c])[..|h|] == h;
    NoticesNumbered(c.entry.events, |Log(h)|);
    NoticesAppend(Log(h), c.entry.events);
  }
}
