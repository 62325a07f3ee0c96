/**
 * `BucketedOffsetIndex` of src/tiered-store.js during one batch: buckets are loaded through the bounded cache, changed
 * buckets are written to disk only at the end, and reads may come in between.
 */
module BucketIndex {
  import opened BucketCache

  /** The bucket files, the cached buckets with their recency order, and the batch's `dirty` map. */
  datatype Index = Index(disk: map<string, Bucket>, cache: map<string, Bucket>, order: seq<string>,
                         dirty: map<string, Bucket>)

  ghost predicate Shape(x: Index, max: nat) {
    max >= 1 && Distinct(x.order) && Names(x.order) == x.cache.Keys && |x.order| <= max
  }

  /** A missing bucket file reads as an empty bucket. */
  function OnDisk(x: Index, name: string): Bucket {
    if name in x.disk then x.disk[name] else map[]
  }

  /** The bucket that `load` would return now. */
  function Current(x: Index, name: string): Bucket {
    if name in x.cache then x.cache[name] else OnDisk(x, name)
  }

  function Load(x: Index, max: nat, name: string): Index {
    var order := Touch(x.order, name, max);
    var cache := x.cache[name := Current(x, name)];
    x.(order := order, cache := map n | n in order && n in cache :: cache[n])
  }

  function Set(x: Index, max: nat, name: string, id: string, e: Entry): Index {
    var y := Load(x, max, name);
    var bucket := Current(x, name)[id := e];
    y.(cache := y.cache[name := bucket], dirty := y.dirty[name := bucket])
  }

  function Persist(x: Index): Index {
    x.(disk := x.disk + x.dirty, dirty := map[])
  }

  lemma LoadShape(x: Index, max: nat, name: string)
    requires Shape(x, max)
    ensures Shape(Load(x, max, name), max)
    ensures name in Load(x, max, name).cache && Load(x, max, name).cache[name] == Current(x, name)
  {
    hide Touch;
    TouchFacts(x.order, name, max);
  }

  /** Loading a bucket evicts others at most: a bucket reads as before, or as its file. */
  lemma LoadElsewhere(x: Index, max: nat, name: string, other: string)
    requires Shape(x, max)
    ensures var y := Load(x, max, name);
      && OnDisk(y, other) == OnDisk(x, other)
      && (other in y.cache ==> Current(y, other) == Current(x, other))
      && (other !in y.cache ==> Current(y, other) == OnDisk(x, other))
  {
    hide Touch;
    TouchFacts(x.order, name, max);
  }

  /** The entries of the plain index that belong in one bucket. */
  function Slice(truth: map<string, Entry>, bucketOf: string -> string, name: string): Bucket {
    map id | id in truth && bucketOf(id) == name :: truth[id]
  }

  /** Every lookup through the cache answers as the plain index would. */
  ghost predicate Shows(x: Index, truth: map<string, Entry>, bucketOf: string -> string) {
    forall name :: Current(x, name) == Slice(truth, bucketOf, name)
  }

  /** Outside the dirty buckets the files are exact, and the dirty map holds what is still to be written. */
  ghost predicate Pending(x: Index, truth: map<string, Entry>, bucketOf: string -> string) {
    && (forall name :: name !in x.dirty ==> OnDisk(x, name) == Slice(truth, bucketOf, name))
    && (forall name :: name in x.dirty ==> x.dirty[name] == Slice(truth, bucketOf, name))
  }

  // ---------------------------------------------------------------- one batch with interleaved reads

  datatype Step = Look(id: string) | Write(id: string, entry: Entry)

  function Perform(x: Index, max: nat, bucketOf: string -> string, s: Step): Index {
    match s
    case Look(id) => Load(x, max, bucketOf(id))
    case Write(id, e) => Set(x, max, bucketOf(id), id, e)
  }

  function Runs(x: Index, max: nat, bucketOf: string -> string, steps: seq<Step>): Index {
    if steps == [] then x
    else Perform(Runs(x, max, bucketOf, steps[..|steps| - 1]), max, bucketOf, steps[|steps| - 1])
  }

  function Applied(truth: map<string, Entry>, s: Step): map<string, Entry> {
    if s.Write? then truth[s.id := s.entry] else truth
  }

  function Plain(truth: map<string, Entry>, steps: seq<Step>): map<string, Entry> {
    if steps == [] then truth
    else
      var t := Plain(truth, steps[..|steps| - 1]);
      Applied(t, steps[|steps| - 1])
  }

  function Accesses(bucketOf: string -> string, steps: seq<Step>): (r: seq<string>)
    ensures |r| == |steps|
  {
    if steps == [] then [] else Accesses(bucketOf, steps[..|steps| - 1]) + [bucketOf(steps[|steps| - 1].id)]
  }

  /** The batch stamps its entries with sequence numbers above everything stored before it. */
  ghost predicate Stamped(x: Index, steps: seq<Step>, base: nat) {
    && (forall name, id :: id in OnDisk(x, name) ==> OnDisk(x, name)[id].sequence <= base)
    && (forall i :: 0 <= i < |steps| && steps[i].Write? ==> steps[i].entry.sequence > base)
  }

  lemma {:induction false} RunsShape(x: Index, max: nat, bucketOf: string -> string, steps: seq<Step>)
    requires Shape(x, max) && x.dirty == map[]
    ensures var y := Runs(x, max, bucketOf, steps);
      && Shape(y, max) && y.disk == x.disk
      && y.order == Touches(x.order, Accesses(bucketOf, steps), max)
      && (forall name :: name in y.dirty ==> name in Accesses(bucketOf, steps))
  {
    if steps != [] {
      var init, s := steps[..|steps| - 1], steps[|steps| - 1];
      RunsShape(x, max, bucketOf, init);
      var y := Runs(x, max, bucketOf, init);
      LoadShape(y, max, bucketOf(s.id));
      var acc := Accesses(bucketOf, steps);
      assert acc[..|acc| - 1] == Accesses(bucketOf, init);
      hide Touch, Load;
    }
  }

  /** A dirty bucket holds an entry of this batch, which no file holds yet. */
  lemma {:induction false} DirtyIsNew(x: Index, max: nat, bucketOf: string -> string, steps: seq<Step>,
                                      truth: map<string, Entry>, base: nat, name: string)
    requires Shape(x, max) && x.dirty == map[] && Stamped(x, steps, base)
    requires name in Runs(x, max, bucketOf, steps).dirty
    ensures exists id ::
      id in Slice(Plain(truth, steps), bucketOf, name) && Slice(Plain(truth, steps), bucketOf, name)[id].sequence > base
  {
    if steps != [] {
      var init, s := steps[..|steps| - 1], steps[|steps| - 1];
      var y := Runs(x, max, bucketOf, init);
      if s.Write? && bucketOf(s.id) == name {
        assert steps[|steps| - 1].entry.sequence > base;
        assert s.id in Slice(Plain(truth, steps), bucketOf, name);
      } else {
        assert name in y.dirty;
        DirtyIsNew(x, max, bucketOf, init, truth, base, name);
        var id :| id in Slice(Plain(truth, init), bucketOf, name) &&
          Slice(Plain(truth, init), bucketOf, name)[id].sequence > base;
        assert id in Slice(Plain(truth, steps), bucketOf, name);
        assert Slice(Plain(truth, steps), bucketOf, name)[id] == Slice(Plain(truth, init), bucketOf, name)[id];
      }
    }
  }

  lemma PerformPending(x: Index, max: nat, bucketOf: string -> string, truth: map<string, Entry>, s: Step)
    requires Shape(x, max) && Shows(x, truth, bucketOf) && Pending(x, truth, bucketOf)
    ensures Pending(Perform(x, max, bucketOf, s), Applied(truth, s), bucketOf)
  {
    hide Load, Slice, Current, Touch;
    var n := bucketOf(s.id);
    var y, t := Perform(x, max, bucketOf, s), Applied(truth, s);
    assert Current(x, n) == Slice(truth, bucketOf, n);
    LoadDirty(x, max, n);
    forall name ensures name !in y.dirty ==> OnDisk(y, name) == Slice(t, bucketOf, name) {
      SliceUpdate(truth, bucketOf, s, name);
    }
    forall name | name in y.dirty ensures y.dirty[name] == Slice(t, bucketOf, name) {
      SliceUpdate(truth, bucketOf, s, name);
    }
  }

  /** While no dirty bucket has been evicted, one more step keeps every answer right. */
  lemma PerformShows(x: Index, max: nat, bucketOf: string -> string, truth: map<string, Entry>, s: Step)
    requires Shape(x, max) && Shows(x, truth, bucketOf) && Pending(x, truth, bucketOf)
    requires Perform(x, max, bucketOf, s).dirty.Keys <= Perform(x, max, bucketOf, s).cache.Keys
    ensures Shows(Perform(x, max, bucketOf, s), Applied(truth, s), bucketOf)
  {
    hide Load, Slice;
    var n := bucketOf(s.id);
    LoadShape(x, max, n);
    LoadDirty(x, max, n);
    var y, t := Perform(x, max, bucketOf, s), Applied(truth, s);
    forall name ensures Current(y, name) == Slice(t, bucketOf, name) {
      assert Current(x, name) == Slice(truth, bucketOf, name);
      LoadElsewhere(x, max, n, name);
      SliceUpdate(truth, bucketOf, s, name);
    }
  }

  lemma LoadDirty(x: Index, max: nat, name: string)
    ensures Load(x, max, name).dirty == x.dirty && Load(x, max, name).disk == x.disk
  {
  }

  lemma SliceUpdate(truth: map<string, Entry>, bucketOf: string -> string, s: Step, name: string)
    ensures Slice(Applied(truth, s), bucketOf, name) ==
      if s.Write? && name == bucketOf(s.id) then Slice(truth, bucketOf, name)[s.id := s.entry]
        else Slice(truth, bucketOf, name)
  {
  }

  /** Every read at every moment of the batch answers as the plain index would. */
  ghost predicate AlwaysShows(x: Index, max: nat, bucketOf: string -> string, truth: map<string, Entry>,
                              steps: seq<Step>) {
    forall n :: 0 <= n <= |steps| ==> Shows(Runs(x, max, bucketOf, steps[..n]), Plain(truth, steps[..n]), bucketOf)
  }

  ghost predicate DirtyRecent(x: Index, max: nat, bucketOf: string -> string, steps: seq<Step>) {
    forall name :: name in Runs(x, max, bucketOf, steps).dirty ==> |Since(Accesses(bucketOf, steps), name)| < max
  }

  /** Whenever a bucket is dirty, fewer than `max` other buckets were touched since it was last touched. */
  ghost predicate AlwaysRecent(x: Index, max: nat, bucketOf: string -> string, steps: seq<Step>) {
    forall n :: 0 <= n <= |steps| ==> DirtyRecent(x, max, bucketOf, steps[..n])
  }

  /** Exactly when every read during and after a batch is right. */
  lemma BatchReadsRightIff(x: Index, max: nat, bucketOf: string -> string, truth: map<string, Entry>, steps: seq<Step>,
                           base: nat)
    requires Shape(x, max) && x.dirty == map[] && Shows(x, truth, bucketOf) && Pending(x, truth, bucketOf)
    requires Stamped(x, steps, base)
    ensures AlwaysShows(x, max, bucketOf, truth, steps) <==> AlwaysRecent(x, max, bucketOf, steps)
  {
    hide Shape, Shows, Pending, Since, Accesses, Runs, Plain, OnDisk;
    if AlwaysShows(x, max, bucketOf, truth, steps) {
      forall n | 0 <= n <= |steps| ensures DirtyRecent(x, max, bucketOf, steps[..n]) {
        forall name | name in Runs(x, max, bucketOf, steps[..n]).dirty
          ensures |Since(Accesses(bucketOf, steps[..n]), name)| < max
        {
          DirtyStaysCached(x, max, bucketOf, truth, steps[..n], base, name);
        }
      }
    }
    if AlwaysRecent(x, max, bucketOf, steps) {
      forall n | 0 <= n <= |steps|
        ensures Shows(Runs(x, max, bucketOf, steps[..n]), Plain(truth, steps[..n]), bucketOf)
      {
        RecentShows(x, max, bucketOf, truth, steps, n);
      }
    }
  }

  lemma DirtyStaysCached(x: Index, max: nat, bucketOf: string -> string, truth: map<string, Entry>, steps: seq<Step>,
                         base: nat, name: string)
    requires Shape(x, max) && x.dirty == map[] && Stamped(x, steps, base)
    requires Shows(Runs(x, max, bucketOf, steps), Plain(truth, steps), bucketOf)
    requires name in Runs(x, max, bucketOf, steps).dirty
    ensures |Since(Accesses(bucketOf, steps), name)| < max
  {
    hide Since, Touches, Accesses, Plain, Runs, Slice;
    RunsShape(x, max, bucketOf, steps);
    var y := Runs(x, max, bucketOf, steps);
    DirtyIsNew(x, max, bucketOf, steps, truth, base, name);
    var id :| id in Slice(Plain(truth, steps), bucketOf, name) &&
      Slice(Plain(truth, steps), bucketOf, name)[id].sequence > base;
    assert Current(y, name) == Slice(Plain(truth, steps), bucketOf, name);
    assert OnDisk(y, name) == OnDisk(x, name);
    assert name in y.cache.Keys;
    KeptIffRecent(x.order, Accesses(bucketOf, steps), max, name);
  }

  lemma {:induction false} RecentShows(x: Index, max: nat, bucketOf: string -> string, truth: map<string, Entry>,
                                       steps: seq<Step>, n: nat)
    requires Shape(x, max) && x.dirty == map[] && Shows(x, truth, bucketOf) && Pending(x, truth, bucketOf) &&
      n <= |steps|
    requires forall m :: 0 <= m <= n ==> DirtyRecent(x, max, bucketOf, steps[..m])
    ensures Shows(Runs(x, max, bucketOf, steps[..n]), Plain(truth, steps[..n]), bucketOf)
    ensures Pending(Runs(x, max, bucketOf, steps[..n]), Plain(truth, steps[..n]), bucketOf)
  {
    hide Since, Touches, Accesses, Shows, Pending, Perform;
    if n > 0 {
      RecentShows(x, max, bucketOf, truth, steps, n - 1);
      assert steps[..n][..n - 1] == steps[..n - 1];
      var y := Runs(x, max, bucketOf, steps[..n - 1]);
      RunsShape(x, max, bucketOf, steps[..n - 1]);
      PerformPending(y, max, bucketOf, Plain(truth, steps[..n - 1]), steps[n - 1]);
      RunsShape(x, max, bucketOf, steps[..n]);
      var z := Runs(x, max, bucketOf, steps[..n]);
      assert DirtyRecent(x, max, bucketOf, steps[..n]);
      forall name | name in z.dirty ensures name in z.cache {
        KeptIffRecent(x.order, Accesses(bucketOf, steps[..n]), max, name);
        assert name in Names(z.order);
      }
      PerformShows(y, max, bucketOf, Plain(truth, steps[..n - 1]), steps[n - 1]);
    }
  }

  /**
   * The bound of the configuration suffices: a batch that, with its interleaved reads, touches at most `max` buckets.
   */
  lemma BatchWithinBound(x: Index, max: nat, bucketOf: string -> string, truth: map<string, Entry>, steps: seq<Step>)
    requires Shape(x, max) && x.dirty == map[] && Shows(x, truth, bucketOf) && Pending(x, truth, bucketOf)
    requires |Names(Accesses(bucketOf, steps))| <= max
    ensures Shows(Runs(x, max, bucketOf, steps), Plain(truth, steps), bucketOf)
    ensures Pending(Runs(x, max, bucketOf, steps), Plain(truth, steps), bucketOf)
  {
    hide Shows, Pending, Since, Accesses, Runs, Plain;
    forall m | 0 <= m <= |steps| ensures DirtyRecent(x, max, bucketOf, steps[..m]) {
      RunsShape(x, max, bucketOf, steps[..m]);
      AccessesPrefix(bucketOf, steps, m);
      forall name | name in Runs(x, max, bucketOf, steps[..m]).dirty
        ensures |Since(Accesses(bucketOf, steps[..m]), name)| < max
      {
        SinceBound(Accesses(bucketOf, steps[..m]), name);
        SubsetCount(Since(Accesses(bucketOf, steps[..m]), name), Names(Accesses(bucketOf, steps)) - {name});
      }
    }
    assert steps[..|steps|] == steps;
    RecentShows(x, max, bucketOf, truth, steps, |steps|);
  }

  lemma {:induction false} AccessesPrefix(bucketOf: string -> string, steps: seq<Step>, m: nat)
    requires m <= |steps|
    ensures Accesses(bucketOf, steps[..m]) == Accesses(bucketOf, steps)[..m]
  {
    if m == |steps| {
      assert steps[..m] == steps;
    } else {
      var init := steps[..|steps| - 1];
      AccessesPrefix(bucketOf, init, m);
      assert init[..m] == steps[..m];
    }
  }

  /** Writing the dirty buckets makes the files exact. */
  lemma PersistSettles(x: Index, max: nat, truth: map<string, Entry>, bucketOf: string -> string)
    requires Shape(x, max) && Shows(x, truth, bucketOf) && Pending(x, truth, bucketOf)
    ensures Shape(Persist(x), max) && Shows(Persist(x), truth, bucketOf) && Pending(Persist(x), truth, bucketOf)
    ensures forall name :: OnDisk(Persist(x), name) == Slice(truth, bucketOf, name)
  {
    forall name ensures OnDisk(Persist(x), name) == Slice(truth, bucketOf, name) {
    }
    forall name ensures Current(Persist(x), name) == Slice(truth, bucketOf, name) {
      assert Current(x, name) == Slice(truth, bucketOf, name);
    }
  }

  // ---------------------------------------------------------------- what reaches the files

  /** The k-th access finds its bucket evicted: `max` others have been touched since it was last touched. */
  ghost predicate Evicted(max: nat, bucketOf: string -> string, steps: seq<Step>, k: nat)
    requires k < |steps|
  {
    |Since(Accesses(bucketOf, steps[..k]), bucketOf(steps[k].id))| >= max
  }

  /** The k-th access reads the bucket n from its file again. */
  ghost predicate Reloads(max: nat, bucketOf: string -> string, steps: seq<Step>, n: string, k: nat)
    requires k < |steps|
  {
    bucketOf(steps[k].id) == n && Evicted(max, bucketOf, steps, k)
  }

  ghost predicate Reloaded(max: nat, bucketOf: string -> string, steps: seq<Step>, n: string, j: nat, m: nat)
    requires m <= |steps|
  {
    exists k :: j < k < m && Reloads(max, bucketOf, steps, n, k)
  }

  ghost predicate WritesTo(bucketOf: string -> string, steps: seq<Step>, n: string, i: nat)
    requires i < |steps|
  {
    steps[i].Write? && bucketOf(steps[i].id) == n
  }

  /** After the j-th step its bucket is read from the file again, and then or later written to. */
  ghost predicate Overwritten(max: nat, bucketOf: string -> string, steps: seq<Step>, n: string, j: nat, m: nat)
    requires m <= |steps|
  {
    exists k, i :: j < k <= i < m && Reloads(max, bucketOf, steps, n, k) && WritesTo(bucketOf, steps, n, i)
  }

  /** The j-th step is the last one of the batch that writes its id. */
  ghost predicate LastWrite(steps: seq<Step>, j: nat) {
    && j < |steps| && steps[j].Write?
    && forall i :: j < i < |steps| && steps[i].Write? ==> steps[i].id != steps[j].id
  }

  /** The entry of the j-th step, in the bucket as cached and as it is to be written, after m steps. */
  ghost predicate EntryAt(x: Index, max: nat, bucketOf: string -> string, steps: seq<Step>, j: nat, m: nat)
    requires j < m <= |steps| && steps[j].Write?
  {
    var y, n, id, e := Runs(x, max, bucketOf, steps[..m]), bucketOf(steps[j].id), steps[j].id, steps[j].entry;
    && n in y.dirty
    && ((id in y.dirty[n] && y.dirty[n][id] == e) <==> !Overwritten(max, bucketOf, steps, n, j, m))
    && (n in y.cache ==> ((id in y.cache[n] && y.cache[n][id] == e) <==> !Reloaded(max, bucketOf, steps, n, j, m)))
  }

  lemma {:induction false} EntryFollowed(x: Index, max: nat, bucketOf: string -> string, steps: seq<Step>, base: nat,
                                         j: nat, m: nat)
    requires Shape(x, max) && x.dirty == map[] && Stamped(x, steps, base) && LastWrite(steps, j) && j < m <= |steps|
    ensures EntryAt(x, max, bucketOf, steps, j, m)
    decreases m
  {
    hide Runs, Accesses, Since, Touches, Perform, Overwritten, Reloaded, Stamped;
    var y := Runs(x, max, bucketOf, steps[..m - 1]);
    RunsShape(x, max, bucketOf, steps[..m - 1]);
    RunsNext(x, max, bucketOf, steps, m - 1);
    var n := bucketOf(steps[j].id);
    if m == j + 1 {
      FreshEntry(y, max, n, steps[j].id, steps[j].entry);
      assert Perform(y, max, bucketOf, steps[j]) ==
        Set(y, max, n, steps[j].id, steps[j].entry) by { PerformIs(y, max, bucketOf, steps[j]); }
      NothingSince(max, bucketOf, steps, n, j);
    } else {
      EntryFollowed(x, max, bucketOf, steps, base, j, m - 1);
      InAccesses(bucketOf, steps, j, m - 1);
      KeptIffRecent(x.order, Accesses(bucketOf, steps[..m - 1]), max, n);
      CachedIff(y, n);
      OneMore(max, bucketOf, steps, n, j, m - 1);
      StaleFile(x, y, steps, base, j, n);
      EntryStep(x, y, max, bucketOf, steps, j, m - 1);
    }
  }

  lemma RunsNext(x: Index, max: nat, bucketOf: string -> string, steps: seq<Step>, m: nat)
    requires m < |steps|
    ensures Runs(x, max, bucketOf, steps[..m + 1]) ==
      Perform(Runs(x, max, bucketOf, steps[..m]), max, bucketOf, steps[m])
  {
    assert steps[..m + 1][..m] == steps[..m];
  }

  lemma PerformIs(x: Index, max: nat, bucketOf: string -> string, s: Step)
    ensures s.Write? ==> Perform(x, max, bucketOf, s) == Set(x, max, bucketOf(s.id), s.id, s.entry)
    ensures s.Look? ==> Perform(x, max, bucketOf, s) == Load(x, max, bucketOf(s.id))
  {
  }

  lemma FreshEntry(x: Index, max: nat, n: string, id: string, e: Entry)
    requires Shape(x, max)
    ensures var y := Set(x, max, n, id, e);
      && n in y.dirty && id in y.dirty[n] && y.dirty[n][id] == e
      && n in y.cache && id in y.cache[n] && y.cache[n][id] == e
  {
  }

  lemma NothingSince(max: nat, bucketOf: string -> string, steps: seq<Step>, n: string, j: nat)
    requires j < |steps|
    ensures !Reloaded(max, bucketOf, steps, n, j, j + 1) && !Overwritten(max, bucketOf, steps, n, j, j + 1)
  {
    hide Evicted;
  }

  lemma {:induction false} InAccesses(bucketOf: string -> string, steps: seq<Step>, j: nat, m: nat)
    requires j < m <= |steps|
    ensures bucketOf(steps[j].id) in Accesses(bucketOf, steps[..m])
  {
    var init := steps[..m][..m - 1];
    assert init == steps[..m - 1];
    if j < m - 1 {
      InAccesses(bucketOf, steps, j, m - 1);
    }
  }

  lemma CachedIff(x: Index, n: string)
    requires Names(x.order) == x.cache.Keys
    ensures n in x.cache <==> n in x.order
  {
    assert n in x.cache <==> n in Names(x.order);
  }

  /** One more step is a new access of the bucket, a new write to it, or neither. */
  lemma OneMore(max: nat, bucketOf: string -> string, steps: seq<Step>, n: string, j: nat, m: nat)
    requires j < m < |steps|
    ensures Reloaded(max, bucketOf, steps, n, j, m + 1) <==>
      Reloaded(max, bucketOf, steps, n, j, m) || Reloads(max, bucketOf, steps, n, m)
    ensures Overwritten(max, bucketOf, steps, n, j, m + 1) <==>
      Overwritten(max, bucketOf, steps, n, j, m) ||
      (WritesTo(bucketOf, steps, n, m) && Reloaded(max, bucketOf, steps, n, j, m + 1))
    ensures Overwritten(max, bucketOf, steps, n, j, m) ==> Reloaded(max, bucketOf, steps, n, j, m)
  {
    hide Reloads, WritesTo;
    if WritesTo(bucketOf, steps, n, m) && Reloaded(max, bucketOf, steps, n, j, m + 1) {
      var k :| j < k < m + 1 && Reloads(max, bucketOf, steps, n, k);
      assert j < k <= m < m + 1;
    }
    if k, i :| j < k <= i < m + 1 && Reloads(max, bucketOf, steps, n, k) && WritesTo(bucketOf, steps, n, i) {
      assert i < m ==> k < m;
    }
  }

  /** The files do not hold the entry: it is newer than anything in them. */
  lemma StaleFile(x: Index, y: Index, steps: seq<Step>, base: nat, j: nat, n: string)
    requires Stamped(x, steps, base) && j < |steps| && steps[j].Write? && y.disk == x.disk
    ensures steps[j].id in OnDisk(y, n) ==> OnDisk(y, n)[steps[j].id] != steps[j].entry
  {
    assert OnDisk(y, n) == OnDisk(x, n);
    assert steps[j].entry.sequence > base;
  }

  lemma LoadKeys(x: Index, max: nat, name: string)
    ensures Load(x, max, name).cache.Keys <= x.cache.Keys + {name}
  {
    hide Touch;
  }

  lemma EntryStep(x: Index, y: Index, max: nat, bucketOf: string -> string, steps: seq<Step>, j: nat, m: nat)
    requires j < m < |steps| && LastWrite(steps, j) && Shape(y, max) && y == Runs(x, max, bucketOf, steps[..m])
    requires Runs(x, max, bucketOf, steps[..m + 1]) == Perform(y, max, bucketOf, steps[m])
    requires EntryAt(x, max, bucketOf, steps, j, m)
    requires var n := bucketOf(steps[j].id);
      && (n in y.cache <==> |Since(Accesses(bucketOf, steps[..m]), n)| < max)
      && (steps[j].id in OnDisk(y, n) ==> OnDisk(y, n)[steps[j].id] != steps[j].entry)
      && (Reloaded(max, bucketOf, steps, n, j, m + 1) <==>
           Reloaded(max, bucketOf, steps, n, j, m) || Reloads(max, bucketOf, steps, n, m))
      && (Overwritten(max, bucketOf, steps, n, j, m + 1) <==>
           Overwritten(max, bucketOf, steps, n, j, m) ||
           (WritesTo(bucketOf, steps, n, m) && Reloaded(max, bucketOf, steps, n, j, m + 1)))
      && (Overwritten(max, bucketOf, steps, n, j, m) ==> Reloaded(max, bucketOf, steps, n, j, m))
    ensures EntryAt(x, max, bucketOf, steps, j, m + 1)
  {
    hide Runs, Accesses, Since, Shape, Overwritten, Reloaded, Touch, Load, OnDisk;
    var n, at := bucketOf(steps[j].id), bucketOf(steps[m].id);
    LoadShape(y, max, at);
    LoadDirty(y, max, at);
    LoadElsewhere(y, max, at, n);
    LoadKeys(y, max, at);
    assert steps[m].Write? ==> steps[m].id != steps[j].id;
  }

  /**
   * Which written entry reaches its file, exactly: the entry a batch leaves for an id is missing from the files after
   * `persist` if and only if its bucket was evicted and read again after that entry was set, and then written to.
   */
  lemma EntryPersistedIff(x: Index, max: nat, bucketOf: string -> string, truth: map<string, Entry>, steps: seq<Step>,
                          base: nat, j: nat)
    requires Shape(x, max) && x.dirty == map[] && Stamped(x, steps, base) && LastWrite(steps, j)
    ensures var id, n := steps[j].id, bucketOf(steps[j].id);
      var file := OnDisk(Persist(Runs(x, max, bucketOf, steps)), n);
      && id in Plain(truth, steps) && Plain(truth, steps)[id] == steps[j].entry
      && ((id in file && file[id] == steps[j].entry) <==> !Overwritten(max, bucketOf, steps, n, j, |steps|))
  {
    hide Runs, Shape, Overwritten, Reloaded, Stamped;
    EntryFollowed(x, max, bucketOf, steps, base, j, |steps|);
    assert steps[..|steps|] == steps;
    PlainLast(truth, steps, j, |steps|);
  }

  lemma {:induction false} PlainLast(truth: map<string, Entry>, steps: seq<Step>, j: nat, m: nat)
    requires LastWrite(steps, j) && j < m <= |steps|
    ensures steps[j].id in Plain(truth, steps[..m]) && Plain(truth, steps[..m])[steps[j].id] == steps[j].entry
  {
    assert steps[..m][..m - 1] == steps[..m - 1];
    if m > j + 1 {
      PlainLast(truth, steps, j, m - 1);
    }
  }

  predicate SameEntry(a: map<string, Entry>, b: map<string, Entry>, id: string) {
    (id in a <==> id in b) && (id in a ==> a[id] == b[id])
  }

  /** Cache, file and dirty map agree with the plain index on one id. */
  ghost predicate Kept(y: Index, truth: map<string, Entry>, n: string, id: string) {
    && SameEntry(Current(y, n), truth, id) && SameEntry(OnDisk(y, n), truth, id)
    && (n in y.dirty ==> SameEntry(y.dirty[n], truth, id))
  }

  lemma KeptStep(y: Index, max: nat, bucketOf: string -> string, truth: map<string, Entry>, s: Step, n: string,
                 id: string)
    requires Shape(y, max) && Kept(y, truth, n, id) && (s.Write? ==> s.id != id)
    ensures Shape(Perform(y, max, bucketOf, s), max) && Kept(Perform(y, max, bucketOf, s), truth, n, id)
  {
    hide Load, Shape, Kept, Set;
    PerformShape(y, max, bucketOf, s);
    KeptLoad(y, max, truth, bucketOf(s.id), n, id);
    if s.Write? {
      KeptWrite(y, max, truth, bucketOf(s.id), s, n, id);
    }
  }

  lemma KeptLoad(y: Index, max: nat, truth: map<string, Entry>, at: string, n: string, id: string)
    requires Shape(y, max) && Kept(y, truth, n, id)
    ensures Kept(Load(y, max, at), truth, n, id)
  {
    LoadShape(y, max, at);
    LoadDirty(y, max, at);
    LoadElsewhere(y, max, at, n);
    hide Load, Shape;
  }

  lemma KeptWrite(y: Index, max: nat, truth: map<string, Entry>, at: string, s: Step, n: string, id: string)
    requires s.Write? && s.id != id && Kept(y, truth, n, id) && Kept(Load(y, max, at), truth, n, id)
    ensures Kept(Set(y, max, at, s.id, s.entry), truth, n, id)
  {
    hide Load;
    var z := Load(y, max, at);
    assert OnDisk(Set(y, max, at, s.id, s.entry), n) == OnDisk(z, n);
  }

  lemma KeptFile(y: Index, truth: map<string, Entry>, n: string, id: string)
    requires Kept(y, truth, n, id)
    ensures SameEntry(OnDisk(Persist(y), n), truth, id)
  {
  }

  lemma KeptFirst(x: Index, bucketOf: string -> string, truth: map<string, Entry>, id: string)
    requires x.dirty == map[] && Shows(x, truth, bucketOf) && Pending(x, truth, bucketOf)
    ensures Kept(x, truth, bucketOf(id), id)
  {
    var n := bucketOf(id);
    assert Current(x, n) == Slice(truth, bucketOf, n) && OnDisk(x, n) == Slice(truth, bucketOf, n);
  }

  lemma {:induction false} KeptRun(x: Index, max: nat, bucketOf: string -> string, truth: map<string, Entry>,
                                   steps: seq<Step>, id: string)
    requires Shape(x, max) && Kept(x, truth, bucketOf(id), id)
    requires forall i :: 0 <= i < |steps| && steps[i].Write? ==> steps[i].id != id
    ensures Shape(Runs(x, max, bucketOf, steps), max) && Kept(Runs(x, max, bucketOf, steps), truth, bucketOf(id), id)
    ensures SameEntry(Plain(truth, steps), truth, id)
  {
    hide Shape, Kept, Perform;
    if steps != [] {
      var init, s := steps[..|steps| - 1], steps[|steps| - 1];
      KeptRun(x, max, bucketOf, truth, init, id);
      KeptStep(Runs(x, max, bucketOf, init), max, bucketOf, truth, s, bucketOf(id), id);
    }
  }

  /** An id that the batch does not write keeps its entry in the files, whatever is evicted. */
  lemma UnwrittenPersists(x: Index, max: nat, bucketOf: string -> string, truth: map<string, Entry>, steps: seq<Step>,
                          id: string)
    requires Shape(x, max) && x.dirty == map[] && Shows(x, truth, bucketOf) && Pending(x, truth, bucketOf)
    requires forall i :: 0 <= i < |steps| && steps[i].Write? ==> steps[i].id != id
    ensures SameEntry(OnDisk(Persist(Runs(x, max, bucketOf, steps)), bucketOf(id)), Plain(truth, steps), id)
  {
    hide Shape, Shows, Pending, Kept, Runs, Plain, OnDisk, Persist;
    KeptFirst(x, bucketOf, truth, id);
    KeptRun(x, max, bucketOf, truth, steps, id);
    KeptFile(Runs(x, max, bucketOf, steps), truth, bucketOf(id), id);
  }

  /**
   * One bucket too many: with room for a single bucket, a batch that writes a to one bucket, b to another and then c to
   * the first loses a when it is persisted.
   */
  lemma EvictedDirtyBucketLosesEntry(bucketOf: string -> string, e1: Entry, e2: Entry, e3: Entry)
    requires bucketOf("a") == "1" && bucketOf("b") == "2" && bucketOf("c") == "1"
    ensures var steps := [Write("a", e1)] + [Write("b", e2)] + [Write("c", e3)];
      var x := Persist(Runs(Index(map[], map[], [], map[]), 1, bucketOf, steps));
      "a" in Plain(map[], steps) && OnDisk(x, "1") == map["c" := e3]
  {
    var x0 := Index(map[], map[], [], map[]);
    var w1, w2, w3 := Write("a", e1), Write("b", e2), Write("c", e3);
    assert [] + [w1] == [w1];
    RunsSnoc(x0, 1, bucketOf, map[], [], w1);
    RunsSnoc(x0, 1, bucketOf, map[], [w1], w2);
    RunsSnoc(x0, 1, bucketOf, map[], [w1] + [w2], w3);
    hide Runs, Plain, Set, Persist, OnDisk;
    FirstSet(x0, e1);
    SecondSet(Set(x0, 1, "1", "a", e1), e1, e2);
    ThirdSet(Set(Set(x0, 1, "1", "a", e1), 1, "2", "b", e2), e1, e2, e3);
  }

  lemma RunsSnoc(x: Index, max: nat, bucketOf: string -> string, truth: map<string, Entry>, steps: seq<Step>, s: Step)
    ensures Runs(x, max, bucketOf, steps + [s]) == Perform(Runs(x, max, bucketOf, steps), max, bucketOf, s)
    ensures Plain(truth, steps + [s]) == Applied(Plain(truth, steps), s)
    ensures Runs(x, max, bucketOf, []) == x && Plain(truth, []) == truth
  {
    assert (steps + [s])[..|steps|] == steps;
  }

  lemma FirstSet(x: Index, e: Entry)
    requires x == Index(map[], map[], [], map[])
    ensures Set(x, 1, "1", "a", e) == Index(map[], map["1" := map["a" := e]], ["1"], map["1" := map["a" := e]])
  {
    assert Touch([], "1", 1) == ["1"];
  }

  lemma SecondSet(x: Index, e1: Entry, e2: Entry)
    requires x == Index(map[], map["1" := map["a" := e1]], ["1"], map["1" := map["a" := e1]])
    ensures Set(x, 1, "2", "b", e2)
      == Index(map[], map["2" := map["b" := e2]], ["2"], map["1" := map["a" := e1], "2" := map["b" := e2]])
  {
    WithoutAbsent(["1"], "2");
    assert (["1"] + ["2"])[1..] == ["2"];
    assert Touch(["1"], "2", 1) == ["2"];
  }

  lemma ThirdSet(x: Index, e1: Entry, e2: Entry, e3: Entry)
    requires x == Index(map[], map["2" := map["b" := e2]], ["2"], map["1" := map["a" := e1], "2" := map["b" := e2]])
    ensures OnDisk(Persist(Set(x, 1, "1", "c", e3)), "1") == map["c" := e3]
  {
    assert Current(x, "1") == map[];
    assert Load(x, 1, "1").dirty == x.dirty;
  }

  // ---------------------------------------------------------------- the invariant a batch in progress keeps

  /** An index whose accesses since `start` fit the cache: nothing touched is lost, and every answer is right. */
  ghost predicate Bounded(x: Index, max: nat, bucketOf: string -> string, truth: map<string, Entry>, start: seq<string>,
                          accesses: seq<string>) {
    && Shape(x, max)
    && Shows(x, truth, bucketOf)
    && Pending(x, truth, bucketOf)
    && Distinct(start) && |start| <= max
    && x.order == Touches(start, accesses, max)
    && x.dirty.Keys <= Names(accesses)
    && |Names(accesses)| <= max
  }

  lemma BoundedStep(x: Index, max: nat, bucketOf: string -> string, truth: map<string, Entry>, start: seq<string>,
                    accesses: seq<string>, s: Step)
    requires Bounded(x, max, bucketOf, truth, start, accesses)
    requires |Names(accesses + [bucketOf(s.id)])| <= max
    ensures Bounded(Perform(x, max, bucketOf, s), max, bucketOf, Applied(truth, s), start, accesses + [bucketOf(s.id)])
    ensures Perform(x, max, bucketOf, s).disk == x.disk
  {
    hide Perform, Touch, Touches, Pending, Shape, Shows, Names, Distinct;
    PerformShape(x, max, bucketOf, s);
    PerformPending(x, max, bucketOf, truth, s);
    LongerAccesses(start, accesses, bucketOf(s.id), max);
    DirtyCached(x, max, bucketOf, start, accesses, s);
    PerformShows(x, max, bucketOf, truth, s);
  }

  lemma LongerAccesses(start: seq<string>, accesses: seq<string>, n: string, max: nat)
    ensures Touches(start, accesses + [n], max) == Touch(Touches(start, accesses, max), n, max)
    ensures Names(accesses + [n]) == Names(accesses) + {n}
  {
    var longer := accesses + [n];
    assert longer[..|accesses|] == accesses && longer[|accesses|] == n;
  }

  lemma DirtyCached(x: Index, max: nat, bucketOf: string -> string, start: seq<string>, accesses: seq<string>, s: Step)
    requires Shape(x, max) && Distinct(start) && |start| <= max
    requires x.order == Touches(start, accesses, max) && x.dirty.Keys <= Names(accesses)
    requires |Names(accesses + [bucketOf(s.id)])| <= max
    ensures Perform(x, max, bucketOf, s).dirty.Keys <= Perform(x, max, bucketOf, s).cache.Keys
  {
    hide Perform, Touch, Touches, Names, Distinct;
    PerformShape(x, max, bucketOf, s);
    LongerAccesses(start, accesses, bucketOf(s.id), max);
    KeptWithinBound(start, accesses + [bucketOf(s.id)], max);
  }

  lemma PerformShape(x: Index, max: nat, bucketOf: string -> string, s: Step)
    requires Shape(x, max)
    ensures var y, n := Perform(x, max, bucketOf, s), bucketOf(s.id);
      && Shape(y, max) && y.disk == x.disk && y.order == Touch(x.order, n, max)
      && y.dirty.Keys <= x.dirty.Keys + {n}
  {
    LoadShape(x, max, bucketOf(s.id));
    hide Touch;
  }

  /** A lookup through the cache answers as the plain index. */
  lemma BoundedLookup(x: Index, max: nat, bucketOf: string -> string, truth: map<string, Entry>, start: seq<string>,
                      accesses: seq<string>, id: string)
    requires Bounded(x, max, bucketOf, truth, start, accesses)
    ensures var bucket := Current(x.(dirty := map[]), bucketOf(id));
      (id in bucket <==> id in truth) && (id in truth ==> bucket[id] == truth[id])
  {
    assert Current(x, bucketOf(id)) == Slice(truth, bucketOf, bucketOf(id));
  }

  /** Without dirty buckets the accounting can start afresh. */
  lemma BoundedRestart(x: Index, max: nat, bucketOf: string -> string, truth: map<string, Entry>, start: seq<string>,
                       accesses: seq<string>)
    requires Bounded(x, max, bucketOf, truth, start, accesses) && x.dirty == map[]
    ensures Bounded(x, max, bucketOf, truth, x.order, [])
    ensures forall n :: |Names([] + [n])| <= max
  {
    assert Names([]) == {};
    forall n ensures |Names([] + [n])| <= max {
      assert Names([] + [n]) == {n};
    }
  }

  function Part(dirty: map<string, Bucket>, some: set<string>): map<string, Bucket> {
    map n | n in dirty && n in some :: dirty[n]
  }

  function PersistSome(x: Index, some: set<string>): Index {
    x.(disk := x.disk + Part(x.dirty, some), dirty := x.dirty - some)
  }

  lemma OnDiskSome(x: Index, some: set<string>, name: string)
    ensures OnDisk(PersistSome(x, some), name) ==
      if name in x.dirty && name in some then x.dirty[name] else OnDisk(x, name)
  {
  }

  lemma SomeShape(x: Index, max: nat, some: set<string>)
    requires Shape(x, max)
    ensures Shape(PersistSome(x, some), max) && PersistSome(x, some).order == x.order
  {
  }

  lemma SomeAt(x: Index, some: set<string>, name: string, bucket: Bucket)
    requires Current(x, name) == bucket &&
      if name in x.dirty then x.dirty[name] == bucket else OnDisk(x, name) == bucket
    ensures var y := PersistSome(x, some);
      Current(y, name) == bucket && if name in y.dirty then y.dirty[name] == bucket else OnDisk(y, name) == bucket
  {
    OnDiskSome(x, some, name);
    hide OnDisk;
  }

  lemma SomeShows(x: Index, some: set<string>, bucketOf: string -> string, truth: map<string, Entry>)
    requires Shows(x, truth, bucketOf) && Pending(x, truth, bucketOf)
    ensures Shows(PersistSome(x, some), truth, bucketOf) && Pending(PersistSome(x, some), truth, bucketOf)
  {
    var y := PersistSome(x, some);
    hide Slice, OnDisk, Current, PersistSome;
    forall name ensures Current(y, name) == Slice(truth, bucketOf, name)
      ensures if name in y.dirty then y.dirty[name] == Slice(truth, bucketOf, name)
              else OnDisk(y, name) == Slice(truth, bucketOf, name)
    {
      assert Current(x, name) == Slice(truth, bucketOf, name);
      SomeAt(x, some, name, Slice(truth, bucketOf, name));
    }
  }

  /** Part of the dirty buckets reach their files: every answer stays right, the others are still to be written. */
  lemma BoundedPersistSome(x: Index, max: nat, bucketOf: string -> string, truth: map<string, Entry>,
                           start: seq<string>, accesses: seq<string>, some: set<string>)
    requires Bounded(x, max, bucketOf, truth, start, accesses)
    ensures Bounded(PersistSome(x, some), max, bucketOf, truth, start, accesses)
  {
    assert PersistSome(x, some).dirty.Keys == x.dirty.Keys - some;
    hide Shows, Pending, Shape, Touches, Names, Distinct, PersistSome;
    SomeShape(x, max, some);
    SomeShows(x, some, bucketOf, truth);
  }

  /** Between batches any bucket may be loaded. */
  lemma LoadAtRest(x: Index, max: nat, bucketOf: string -> string, truth: map<string, Entry>, start: seq<string>,
                   accesses: seq<string>, name: string)
    requires Bounded(x, max, bucketOf, truth, start, accesses) && x.dirty == map[]
    ensures var y := Load(x, max, name);
      Bounded(y, max, bucketOf, truth, y.order, []) && y.dirty == map[] &&
        Current(x, name) == Slice(truth, bucketOf, name)
  {
    hide Load, Slice, Touch, Touches;
    var y := Load(x, max, name);
    LoadShape(x, max, name);
    LoadDirty(x, max, name);
    forall n ensures Current(y, n) == Slice(truth, bucketOf, n) && OnDisk(y, n) == Slice(truth, bucketOf, n) {
      assert Current(x, n) == Slice(truth, bucketOf, n);
      LoadElsewhere(x, max, name, n);
    }
    assert Names([]) == {};
    assert Touches(y.order, [], max) == y.order by { TouchesNothing(y.order, max); }
  }

  lemma TouchesNothing(order: seq<string>, max: nat)
    ensures Touches(order, [], max) == order
  {
  }

  /** Only buckets with a file hold entries. */
  lemma FilesCover(x: Index, max: nat, bucketOf: string -> string, truth: map<string, Entry>, start: seq<string>,
                   accesses: seq<string>)
    requires Bounded(x, max, bucketOf, truth, start, accesses) && x.dirty == map[]
    ensures forall id :: id in truth ==> bucketOf(id) in x.disk
  {
    forall id | id in truth ensures bucketOf(id) in x.disk {
      assert id in Slice(truth, bucketOf, bucketOf(id));
      assert OnDisk(x, bucketOf(id)) == Slice(truth, bucketOf, bucketOf(id));
    }
  }

  /** Between batches the cache may be dropped. */
  lemma ClearedAtRest(x: Index, max: nat, bucketOf: string -> string, truth: map<string, Entry>, start: seq<string>,
                      accesses: seq<string>)
    requires Bounded(x, max, bucketOf, truth, start, accesses) && x.dirty == map[]
    ensures Bounded(x.(cache := map[], order := []), max, bucketOf, truth, [], [])
  {
    hide Slice, Touch;
    assert Names([]) == {};
  }
}
