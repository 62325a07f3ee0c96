/** Runs of batches and reopenings of a segment store of src/tiered-store.js: a version stands for one record only. */
module StoreRuns {
  import opened Json
  import opened BucketCache
  import opened TieredStore
  import opened DocumentStore

  /** A store between two calls: its index entries, the plain map it stands for and its sequence counter. */
  datatype Moment = Moment(truth: map<string, Entry>, docs: Docs, sequence: nat)

  /** What `SegmentedDocumentStore.ApplyBatch` and `SegmentedDocumentStore.Reopen` ensure of one call. */
  ghost predicate Moved(s: Moment, t: Moment) {
    || s == t
    || exists ops, others, changed, seen ::
         BatchDone(s.truth, s.docs, s.sequence, t.truth, t.docs, t.sequence, ops, others, changed, seen)
  }

  ghost predicate Trail(run: seq<Moment>) {
    && |run| > 0
    && (forall id :: V(run[0].truth, id) <= run[0].sequence)
    && (forall i :: 0 <= i < |run| - 1 ==> Moved(run[i], run[i + 1]))
  }

  /** From one moment to a later one: the id kept its version and its record, or got a version nothing ever had. */
  ghost predicate Later(s: Moment, t: Moment, id: string) {
    && s.sequence <= t.sequence
    && V(t.truth, id) <= t.sequence
    && (V(t.truth, id) == V(s.truth, id) ==> Lookup(t.docs, id) == Lookup(s.docs, id))
    && (V(t.truth, id) != V(s.truth, id) ==> V(t.truth, id) > s.sequence)
  }

  lemma MovedLater(s: Moment, t: Moment, id: string)
    requires Moved(s, t) && V(s.truth, id) <= s.sequence
    ensures Later(s, t, id)
  {
    if s != t {
      var ops, others, changed, seen :|
        BatchDone(s.truth, s.docs, s.sequence, t.truth, t.docs, t.sequence, ops, others, changed, seen);
      hide Written, ApplyAll, Answers;
      assert VersionMoves(s.truth, s.docs, s.sequence, t.truth, t.docs, t.sequence, Written(changed, ops, id), id);
    }
  }

  /**
   * Versions never repeat: over any run of batches and reopenings, an id has the same version at two moments only with
   * the same record, and a version that changed lies beyond every version given out before.
   */
  lemma {:induction false} VersionsNeverRepeat(run: seq<Moment>, i: nat, j: nat, id: string)
    requires Trail(run) && i <= j < |run|
    ensures V(run[i].truth, id) <= run[i].sequence && Later(run[i], run[j], id)
    decreases j
  {
    hide Moved, V;
    if j > 0 {
      VersionsNeverRepeat(run, if i < j then i else j - 1, j - 1, id);
      VersionsNeverRepeat(run, j - 1, j - 1, id);
      MovedLater(run[j - 1], run[j], id);
      assert Moved(run[j - 1], run[j - 1 + 1]);
    }
  }
}
