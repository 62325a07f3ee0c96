/**
 * Runs of one persistent index of src/superior-indexed.js beside its database: commits, the bucket and manifest writes
 * of each event, rebuilding, and a stop of the process between any two of them.
 */
module IndexRuns {
  import opened Basics
  import opened Json
  import opened Documents
  import opened Transactions
  import opened StorageCore
  import opened CommitLog
  import opened StorageRecovery
  import opened EventLog
  import opened IndexMaintenance
  import CommitFabric
  import S = SecondaryIndex

  /** The database, the index and the collection it is on. */
  datatype Setup = Setup(config: Config, bucketOf: string -> string, d: S.Definition, c: string)

  /**
   * What the process does with the index. Following the log, `pos` is its next event and `dirty` the buckets to write.
   */
  datatype Mem =
    | Stopped
    | Following(pos: nat, dirty: Option<Files>)
    | Clearing
    | Refilling(rest: Files)

  /** `manifest` is the sequence on disk. */
  datatype World = World(h: seq<Commit>, files: Files, manifest: nat, mem: Mem)

  datatype Step =
    | CommitNext(commit: Commit)
    | TakeEvent(changed: Files)
    | WriteBucket(name: string)
    | WriteManifest
    | SetSequence
    | Clear(gone: set<string>)
    | StartRefill(all: Files)
    | FinishRefill
    | Stop
    | Restart

  function Applied(x: Setup, files: Files, e: Event): Files {
    S.Apply(files, x.bucketOf, x.d, e.key.id, e.before, e.record)
  }

  /** The index shows exactly content s. */
  ghost predicate Shown(x: Setup, files: Files, s: Content) {
    S.Right(files, x.bucketOf, x.d, x.c, s)
  }

  /** Whether the retained changes reach back to the manifest's sequence. */
  ghost predicate Reaches(x: Setup, h: seq<Commit>, manifest: nat) {
    manifest <= |Log(h)| && Resumable(MetaOf(x.config, h).changes, |Log(h)|, manifest)
  }

  ghost predicate Enabled(x: Setup, w: World, step: Step) {
    match step
    case CommitNext(commit) => (
      && w.mem.Following? && w.mem.dirty.None? && w.mem.pos == |Log(w.h)|
      && CommitOk(x.config, w.h, commit) && |commit.entry.events| <= x.config.retention)
    case TakeEvent(changed) => (
      && w.mem.Following? && w.mem.dirty.None? && w.mem.pos < |Log(w.h)|
      && var e := Log(w.h)[w.mem.pos]; e.key.collection == x.c ==> w.files + changed == Applied(x, w.files, e))
    case WriteBucket(name) => (
      || (w.mem.Following? && w.mem.dirty.Some? && name in w.mem.dirty.value)
      || (w.mem.Refilling? && name in w.mem.rest))
    case WriteManifest => w.mem.Following? && w.mem.dirty == Some(map[]) && w.mem.pos < |Log(w.h)|
    case SetSequence => w.mem.Following? && w.mem.dirty.None? && w.mem.pos == |Log(w.h)|
    case Clear(_) => w.mem.Clearing?
    case StartRefill(all) => w.mem.Clearing? && w.files == map[] && Shown(x, all, State(w.h))
    case FinishRefill => w.mem.Refilling? && w.mem.rest == map[]
    case Stop => !w.mem.Stopped?
    case Restart => w.mem.Stopped?
  }

  ghost function Next(x: Setup, w: World, step: Step): World
    requires Enabled(x, w, step)
  {
    match step
    case CommitNext(commit) => w.(h := w.h + [commit])
    case TakeEvent(changed) =>
      if Log(w.h)[w.mem.pos].key.collection == x.c then w.(mem := Following(w.mem.pos, Some(changed)))
      else w.(mem := Following(w.mem.pos + 1, None))
    case WriteBucket(name) =>
      if w.mem.Following? then
        var dirty := w.mem.dirty.value;
        w.(files := w.files[name := dirty[name]], mem := Following(w.mem.pos, Some(dirty - {name})))
      else w.(files := w.files[name := w.mem.rest[name]], mem := Refilling(w.mem.rest - {name}))
    case WriteManifest => w.(manifest := w.mem.pos + 1, mem := Following(w.mem.pos + 1, None))
    case SetSequence => w.(manifest := |Log(w.h)|)
    case Clear(gone) => w.(files := w.files - gone)
    case StartRefill(all) => w.(mem := Refilling(all))
    case FinishRefill => w.(manifest := |Log(w.h)|, mem := Following(|Log(w.h)|, None))
    case Stop => w.(mem := Stopped)
    case Restart => w.(mem := if Reaches(x, w.h, w.manifest) then Following(w.manifest, None) else Clearing)
  }

  /** A new index, built for the state the database is in. */
  ghost predicate Initial(x: Setup, w: World) {
    && HistoryOk(x.config, w.h) && Shown(x, w.files, State(w.h))
    && w.manifest == |Log(w.h)| && w.mem == Following(|Log(w.h)|, None)
  }

  ghost predicate Run(x: Setup, states: seq<World>, steps: seq<Step>) {
    && |states| == |steps| + 1 && Initial(x, states[0])
    && (forall i ::
         0 <= i < |steps| ==> Enabled(x, states[i], steps[i]) && states[i + 1] == Next(x, states[i], steps[i]))
  }

  // ---------------------------------------------------------------- the invariant

  /** No event on the collection lies between two positions of the log. */
  ghost predicate NoneBetween(x: Setup, es: seq<Event>, low: nat, high: nat)
    requires low <= high <= |es|
  {
    forall i :: low <= i < high ==> es[i].key.collection != x.c
  }

  /** The event's buckets, some written and the others in `dirty`. */
  ghost predicate Half(x: Setup, files: Files, before: Files, e: Event, dirty: Files) {
    && S.Between(files, before, Applied(x, before, e))
    && forall n :: S.BucketAt(files + dirty, n) == S.BucketAt(Applied(x, before, e), n)
  }

  ghost predicate Midway(x: Setup, files: Files, es: seq<Event>, pos: nat, dirty: Files) {
    && pos < |es| && es[pos].key.collection == x.c
    && exists before: Files :: Shown(x, before, Fold(map[], es[..pos])) && Half(x, files, before, es[pos], dirty)
  }

  ghost predicate MemOk(x: Setup, w: World) {
    var es := Log(w.h);
    match w.mem
    case Stopped => Reaches(x, w.h, w.manifest) ==> Interrupted(w.files, x.bucketOf, x.d, x.c, es, w.manifest)
    case Following(pos, None) => (
      w.manifest <= pos <= |es| && NoneBetween(x, es, w.manifest, pos) &&
        Interrupted(w.files, x.bucketOf, x.d, x.c, es, pos))
    case Following(pos, Some(dirty)) => (
      w.manifest <= pos <= |es| && NoneBetween(x, es, w.manifest, pos) && Midway(x, w.files, es, pos, dirty))
    case Clearing => !Reaches(x, w.h, w.manifest)
    case Refilling(rest) => !Reaches(x, w.h, w.manifest) && Shown(x, w.files + rest, State(w.h))
  }

  ghost predicate Inv(x: Setup, w: World) {
    HistoryOk(x.config, w.h) && MemOk(x, w)
  }

  /** Events of other collections do not concern the index. */
  lemma {:induction false} SameBetween(x: Setup, es: seq<Event>, low: nat, high: nat)
    requires low <= high <= |es| && NoneBetween(x, es, low, high)
    ensures SameIn(Fold(map[], es[..low]), Fold(map[], es[..high]), x.c)
    decreases high
  {
    if low < high {
      SameBetween(x, es, low, high - 1);
      assert es[..high][..high - 1] == es[..high - 1];
    }
  }

  lemma ShownElsewhere(x: Setup, files: Files, es: seq<Event>, low: nat, high: nat)
    requires low <= high <= |es| && NoneBetween(x, es, low, high)
    ensures Shown(x, files, Fold(map[], es[..low])) <==> Shown(x, files, Fold(map[], es[..high]))
  {
    hide S.Right, Fold, NoneBetween;
    SameBetween(x, es, low, high);
    if Shown(x, files, Fold(map[], es[..low])) {
      RightIn(files, x.bucketOf, x.d, x.c, Fold(map[], es[..low]), Fold(map[], es[..high]));
    }
    if Shown(x, files, Fold(map[], es[..high])) {
      RightIn(files, x.bucketOf, x.d, x.c, Fold(map[], es[..high]), Fold(map[], es[..low]));
    }
  }

  /** The event at n is the next one on the collection from a position on. */
  ghost predicate NextAt(x: Setup, es: seq<Event>, at: nat, n: nat) {
    at <= n < |es| && es[n].key.collection == x.c && NoneBetween(x, es, at, n)
  }

  /** What a restart can find, taken apart: the files before the interrupted event, and where it is. */
  lemma TakeApart(x: Setup, files: Files, es: seq<Event>, at: nat) returns (before: Files, n: nat)
    requires Interrupted(files, x.bucketOf, x.d, x.c, es, at)
    ensures at <= |es| && Shown(x, before, Fold(map[], es[..at]))
    ensures files == before || (NextAt(x, es, at, n) && HalfDone(x, files, before, es[n]))
  {
    hide S.Right, S.Between, S.Apply, Fold;
    before :| Shown(x, before, Fold(map[], es[..at])) &&
      (files == before || MidEvent(files, before, x.bucketOf, x.d, x.c, es[at..]));
    n := 0;
    if files != before {
      var m := MidEventAt(x, files, before, es[at..]);
      n := at + m;
      assert es[at..][m] == es[n];
      forall i | at <= i < n ensures es[i].key.collection != x.c {
        assert es[at..][i - at] == es[i];
      }
    }
  }

  lemma MidEventAt(x: Setup, files: Files, before: Files, later: seq<Event>) returns (m: nat)
    requires MidEvent(files, before, x.bucketOf, x.d, x.c, later)
    ensures S.First(later, x.c, m) && HalfDone(x, files, before, later[m])
  {
    hide S.Between, S.Apply;
    m :| S.First(later, x.c, m)
      && S.Between(files, before, S.Apply(before, x.bucketOf, x.d, later[m].key.id, later[m].before, later[m].record));
  }

  lemma PutTogether(x: Setup, files: Files, es: seq<Event>, at: nat, before: Files, n: nat)
    requires at <= |es| && Shown(x, before, Fold(map[], es[..at]))
    requires files == before || (NextAt(x, es, at, n) && HalfDone(x, files, before, es[n]))
    ensures Interrupted(files, x.bucketOf, x.d, x.c, es, at)
  {
    hide S.Right, S.Between, S.Apply, Fold;
    if files != before {
      FirstAt(x, es, at, n);
      assert es[at..][n - at] == es[n];
      assert MidEvent(files, before, x.bucketOf, x.d, x.c, es[at..]);
    }
  }

  /** What a restart can find at one position it can find at another, with no event of the collection in between. */
  lemma InterruptedElsewhere(x: Setup, files: Files, es: seq<Event>, low: nat, high: nat)
    requires low <= high <= |es| && NoneBetween(x, es, low, high)
    ensures Interrupted(files, x.bucketOf, x.d, x.c, es, low) <==> Interrupted(files, x.bucketOf, x.d, x.c, es, high)
  {
    hide Interrupted, Shown, HalfDone, Fold;
    if Interrupted(files, x.bucketOf, x.d, x.c, es, low) {
      var before, n := TakeApart(x, files, es, low);
      ShownElsewhere(x, before, es, low, high);
      PutTogether(x, files, es, high, before, n);
    }
    if Interrupted(files, x.bucketOf, x.d, x.c, es, high) {
      var before, n := TakeApart(x, files, es, high);
      ShownElsewhere(x, before, es, low, high);
      PutTogether(x, files, es, low, before, n);
    }
  }

  ghost predicate HalfDone(x: Setup, files: Files, before: Files, e: Event) {
    S.Between(files, before, Applied(x, before, e))
  }

  lemma FirstAt(x: Setup, es: seq<Event>, at: nat, n: nat)
    requires at <= n < |es| && es[n].key.collection == x.c && forall i :: at <= i < n ==> es[i].key.collection != x.c
    ensures S.First(es[at..], x.c, n - at)
  {
    assert forall i :: 0 <= i < |es[at..]| ==> es[at..][i] == es[at + i];
  }

  // ---------------------------------------------------------------- buckets of one event

  /**
   * Applying an event again to whatever of its buckets had been written gives exactly the buckets of one application.
   */
  lemma ReapplyBuckets(x: Setup, files: Files, before: Files, e: Event)
    requires HalfDone(x, files, before, e)
    ensures forall n :: S.BucketAt(Applied(x, files, e), n) == S.BucketAt(Applied(x, before, e), n)
  {
    hide S.KeyOf;
    var gone, come := S.Keyed(x.d, e.before), S.Keyed(x.d, e.record);
    var after := Applied(x, before, e);
    forall n ensures S.BucketAt(Applied(x, files, e), n) == S.BucketAt(after, n) {
      assert S.BucketAt(files, n) == S.BucketAt(before, n) || S.BucketAt(files, n) == S.BucketAt(after, n);
      RewriteIs(x, files, e, n);
      RewriteIs(x, before, e, n);
      RewriteTwice(x, S.BucketAt(before, n), n, gone, come, e.key.id);
    }
  }

  /** What an application does to one bucket. */
  function Rewrite(x: Setup, b: S.Bucket, n: string, gone: Option<string>, come: Option<string>, id: string): S.Bucket {
    var removed := if gone.Some? && x.bucketOf(gone.value) == n then S.Removed(b, gone.value, id) else b;
    if come.Some? && x.bucketOf(come.value) == n then S.Added(removed, come.value, id) else removed
  }

  lemma RewriteIs(x: Setup, files: Files, e: Event, n: string)
    ensures S.BucketAt(Applied(x, files, e), n)
      == Rewrite(x, S.BucketAt(files, n), n, S.Keyed(x.d, e.before), S.Keyed(x.d, e.record), e.key.id)
  {
    hide S.KeyOf;
  }

  lemma RewriteTwice(x: Setup, b: S.Bucket, n: string, gone: Option<string>, come: Option<string>, id: string)
    ensures var once := Rewrite(x, b, n, gone, come, id); Rewrite(x, once, n, gone, come, id) == once
  {
    if gone.Some? && x.bucketOf(gone.value) == n {
      RemovedTwice(b, gone.value, id);
      if come.Some? && x.bucketOf(come.value) == n {
        RemovedAdded(S.Removed(b, gone.value, id), gone.value, come.value, id);
      }
    }
    if come.Some? && x.bucketOf(come.value) == n {
      AddedTwice(if gone.Some? && x.bucketOf(gone.value) == n then S.Removed(b, gone.value, id) else b, come.value, id);
    }
  }

  lemma RemovedTwice(b: S.Bucket, key: string, id: string)
    ensures S.Removed(S.Removed(b, key, id), key, id) == S.Removed(b, key, id)
    ensures id !in S.IdsIn(S.Removed(b, key, id), key)
  {
    var rest, once := S.IdsIn(b, key) - {id}, S.Removed(b, key, id);
    assert S.IdsIn(once, key) == rest && rest - {id} == rest;
    if rest == {} {
      assert once - {key} == once;
    } else {
      assert once[key := rest] == once;
    }
  }

  lemma AddedTwice(b: S.Bucket, key: string, id: string)
    ensures S.Added(S.Added(b, key, id), key, id) == S.Added(b, key, id)
  {
  }

  /** Removing what has been removed from a bucket, then adding what has been added. */
  lemma RemovedAdded(b: S.Bucket, gone: string, come: string, id: string)
    requires S.Removed(b, gone, id) == b && id !in S.IdsIn(b, gone)
    ensures S.Added(S.Removed(S.Added(b, come, id), gone, id), come, id) == S.Added(b, come, id)
  {
    if gone == come {
      assert S.IdsIn(b, gone) + {id} - {id} == S.IdsIn(b, gone);
    } else {
      assert S.IdsIn(S.Added(b, come, id), gone) == S.IdsIn(b, gone);
      assert S.IdsIn(b, gone) - {id} == S.IdsIn(b, gone);
    }
  }

  /** One more bucket written. */
  lemma HalfMore(x: Setup, files: Files, before: Files, e: Event, dirty: Files, name: string)
    requires Half(x, files, before, e, dirty) && name in dirty
    ensures Half(x, files[name := dirty[name]], before, e, dirty - {name})
  {
    var after := Applied(x, before, e);
    hide Applied;
    var next := files[name := dirty[name]];
    assert S.BucketAt(files + dirty, name) == dirty[name];
    forall n ensures S.BucketAt(next, n) == S.BucketAt(before, n) || S.BucketAt(next, n) == S.BucketAt(after, n) {
      assert S.BucketAt(files, n) == S.BucketAt(before, n) || S.BucketAt(files, n) == S.BucketAt(after, n);
      assert S.BucketAt(files + dirty, n) == S.BucketAt(after, n);
    }
    assert next + (dirty - {name}) == files + dirty;
  }

  /** All buckets written. */
  lemma HalfAll(x: Setup, files: Files, before: Files, e: Event, s: Content)
    requires Half(x, files, before, e, map[]) && Shown(x, Applied(x, before, e), s)
    ensures Shown(x, files, s)
  {
    hide Applied;
    assert files + map[] == files;
    SameBuckets(x, files, Applied(x, before, e), s);
  }

  lemma SameBuckets(x: Setup, f: Files, g: Files, s: Content)
    requires Shown(x, g, s) && forall n :: S.BucketAt(f, n) == S.BucketAt(g, n)
    ensures Shown(x, f, s)
  {
    hide S.KeyOf, S.BucketAt;
    forall key, id
      ensures id in S.Ids(f, x.bucketOf, key) <==> Key(x.c, id) in s && S.KeyOf(x.d, s[Key(x.c, id)]) == Some(key)
    {
      assert S.Ids(f, x.bucketOf, key) == S.Ids(g, x.bucketOf, key);
    }
  }

  lemma Reflexive(files: Files, after: Files)
    ensures S.Between(files, files, after)
  {
  }

  lemma NextRight(x: Setup, before: Files, es: seq<Event>, pos: nat)
    requires pos < |es| && es[pos].key.collection == x.c && TrueBefore(map[], es, pos) &&
      Shown(x, before, Fold(map[], es[..pos]))
    ensures Shown(x, Applied(x, before, es[pos]), Fold(map[], es[..pos + 1]))
  {
    hide S.Right, S.Apply;
    S.ApplyRight(before, x.bucketOf, x.d, x.c, Fold(map[], es[..pos]), es[pos]);
    assert es[..pos + 1][..pos] == es[..pos];
  }

  // ---------------------------------------------------------------- every step keeps it

  lemma ShownInterrupted(x: Setup, files: Files, es: seq<Event>, at: nat)
    requires at <= |es| && Shown(x, files, Fold(map[], es[..at]))
    ensures Interrupted(files, x.bucketOf, x.d, x.c, es, at)
  {
    hide S.Right, Fold;
  }

  lemma AtEnd(x: Setup, files: Files, es: seq<Event>)
    requires Interrupted(files, x.bucketOf, x.d, x.c, es, |es|)
    ensures Shown(x, files, Fold(map[], es))
  {
    hide S.Right, Fold, S.Between;
    assert es[..|es|] == es && es[|es|..] == [];
  }

  lemma OneLog(h: seq<Commit>, commit: Commit)
    ensures Log(h + [commit]) == Log(h) + commit.entry.events
  {
    assert (h + [commit])[..|h|] == h;
  }

  lemma KeepCommit(x: Setup, w: World, commit: Commit)
    requires Inv(x, w) && Enabled(x, w, CommitNext(commit))
    ensures Inv(x, Next(x, w, CommitNext(commit)))
  {
    hide CommitOk, Shown, Fold, Log, MetaOf, Interrupted;
    var es, more := Log(w.h), Log(w.h + [commit]);
    HistoryExtends(x.config, w.h, commit);
    hide HistoryOk;
    OneLog(w.h, commit);
    assert more[..|es|] == es && forall i :: 0 <= i < |es| ==> more[i] == es[i];
    AtEnd(x, w.files, es);
    ShownInterrupted(x, w.files, more, |es|);
  }

  lemma KeepTake(x: Setup, w: World, changed: Files)
    requires Inv(x, w) && Enabled(x, w, TakeEvent(changed))
    ensures Inv(x, Next(x, w, TakeEvent(changed)))
  {
    hide HistoryOk, Log, MetaOf, Fold;
    var es, pos := Log(w.h), w.mem.pos;
    if es[pos].key.collection == x.c {
      TakenHalf(x, w.files, es, pos, changed);
    } else {
      hide Interrupted;
      assert NoneBetween(x, es, pos, pos + 1);
      InterruptedElsewhere(x, w.files, es, pos, pos + 1);
    }
  }

  lemma TakenHalf(x: Setup, files: Files, es: seq<Event>, pos: nat, changed: Files)
    requires pos < |es| && es[pos].key.collection == x.c && Interrupted(files, x.bucketOf, x.d, x.c, es, pos)
    requires files + changed == Applied(x, files, es[pos])
    ensures Midway(x, files, es, pos, changed)
  {
    hide S.Right, Applied, S.Apply, S.BucketAt, Fold, Interrupted, S.Between;
    var before, n := TakeApart(x, files, es, pos);
    if files == before {
      Reflexive(files, Applied(x, files, es[pos]));
    } else {
      assert n == pos;
    }
    assert HalfDone(x, files, before, es[pos]);
    ReapplyBuckets(x, files, before, es[pos]);
    assert Half(x, files, before, es[pos], changed);
  }

  lemma KeepBucket(x: Setup, w: World, name: string)
    requires Inv(x, w) && Enabled(x, w, WriteBucket(name))
    ensures Inv(x, Next(x, w, WriteBucket(name)))
  {
    hide HistoryOk, Log, Shown, Fold, MetaOf, Half, Interrupted;
    if w.mem.Following? {
      var es, pos, dirty := Log(w.h), w.mem.pos, w.mem.dirty.value;
      var before: Files :| Shown(x, before, Fold(map[], es[..pos])) && Half(x, w.files, before, es[pos], dirty);
      HalfMore(x, w.files, before, es[pos], dirty, name);
    } else {
      var rest := w.mem.rest;
      assert w.files[name := rest[name]] + (rest - {name}) == w.files + rest;
    }
  }

  lemma KeepManifest(x: Setup, w: World)
    requires Inv(x, w) && Enabled(x, w, WriteManifest)
    ensures Inv(x, Next(x, w, WriteManifest))
  {
    hide HistoryOk, Log, Shown, Applied, Half, Fold, MetaOf, TrueBefore, Interrupted;
    var es, pos := Log(w.h), w.mem.pos;
    var before: Files :| Shown(x, before, Fold(map[], es[..pos])) && Half(x, w.files, before, es[pos], map[]);
    MetaLog(x.config, w.h);
    assert TrueBefore(map[], es, pos);
    NextRight(x, before, es, pos);
    HalfAll(x, w.files, before, es[pos], Fold(map[], es[..pos + 1]));
    ShownInterrupted(x, w.files, es, pos + 1);
  }

  lemma KeepSequence(x: Setup, w: World)
    requires Inv(x, w) && Enabled(x, w, SetSequence)
    ensures Inv(x, Next(x, w, SetSequence))
  {
    hide HistoryOk, Log, Interrupted, MetaOf;
  }

  lemma KeepRefill(x: Setup, w: World, step: Step)
    requires Inv(x, w) && Enabled(x, w, step) && (step.Clear? || step.StartRefill? || step.FinishRefill?)
    ensures Inv(x, Next(x, w, step))
  {
    hide HistoryOk, Log, Interrupted, MetaOf, Shown, Resumable, Fold;
    if step.StartRefill? {
      assert w.files + step.all == step.all;
    } else if step.FinishRefill? {
      assert w.files + map[] == w.files;
      assert Log(w.h)[..|Log(w.h)|] == Log(w.h);
      ShownInterrupted(x, w.files, Log(w.h), |Log(w.h)|);
    }
  }

  /** Whatever the process was doing, stopping it leaves what a restart can find. */
  lemma KeepStop(x: Setup, w: World)
    requires Inv(x, w) && Enabled(x, w, Stop)
    ensures Inv(x, Next(x, w, Stop))
  {
    hide HistoryOk, Log, Interrupted, MetaOf, Shown, Resumable, Fold;
    if w.mem.Following? {
      var es, pos := Log(w.h), w.mem.pos;
      if w.mem.dirty.Some? {
        MidwayInterrupted(x, w.files, es, pos, w.mem.dirty.value);
      }
      InterruptedElsewhere(x, w.files, es, w.manifest, pos);
    }
  }

  lemma MidwayInterrupted(x: Setup, files: Files, es: seq<Event>, pos: nat, dirty: Files)
    requires Midway(x, files, es, pos, dirty)
    ensures Interrupted(files, x.bucketOf, x.d, x.c, es, pos)
  {
    hide S.Right, Fold, S.Between, S.Apply, S.BucketAt;
    var before: Files :| Shown(x, before, Fold(map[], es[..pos])) && Half(x, files, before, es[pos], dirty);
    PutTogether(x, files, es, pos, before, pos);
  }

  lemma KeepRestart(x: Setup, w: World)
    requires Inv(x, w) && Enabled(x, w, Restart)
    ensures Inv(x, Next(x, w, Restart))
  {
    hide HistoryOk, Log, Interrupted, MetaOf, Resumable;
  }

  lemma Keep(x: Setup, w: World, step: Step)
    requires Inv(x, w) && Enabled(x, w, step)
    ensures Inv(x, Next(x, w, step))
  {
    hide *;
    match step
    case CommitNext(commit) => KeepCommit(x, w, commit);
    case TakeEvent(changed) => KeepTake(x, w, changed);
    case WriteBucket(name) => KeepBucket(x, w, name);
    case WriteManifest => KeepManifest(x, w);
    case SetSequence => KeepSequence(x, w);
    case Clear(_) => KeepRefill(x, w, step);
    case StartRefill(_) => KeepRefill(x, w, step);
    case FinishRefill => KeepRefill(x, w, step);
    case Stop => KeepStop(x, w);
    case Restart => KeepRestart(x, w);
  }

  lemma {:induction false} InvRun(x: Setup, states: seq<World>, steps: seq<Step>, n: nat)
    requires Run(x, states, steps) && n <= |steps|
    ensures Inv(x, states[n])
  {
    hide Next, Enabled, MemOk, HistoryOk;
    if n == 0 {
      InvInitial(x, states[0]);
    } else {
      InvRun(x, states, steps, n - 1);
      Keep(x, states[n - 1], steps[n - 1]);
    }
  }

  lemma InvInitial(x: Setup, w: World)
    requires Initial(x, w)
    ensures Inv(x, w)
  {
    hide Interrupted, Log, Shown, HistoryOk, MetaOf;
    assert Log(w.h)[..|Log(w.h)|] == Log(w.h);
    ShownInterrupted(x, w.files, Log(w.h), |Log(w.h)|);
  }

  /**
   * In every run, with stops anywhere among commits, bucket writes, manifest writes and rebuilds: an index that has
   * followed the log to its end shows exactly the committed state, and a stopped one meets what `catchUpIndex` asks of
   * it.
   */
  lemma IndexFollows(x: Setup, states: seq<World>, steps: seq<Step>, n: nat)
    requires Run(x, states, steps) && n <= |steps|
    ensures var w := states[n];
      && (w.mem.Following? && w.mem.dirty.None? && w.mem.pos == |Log(w.h)| ==> Shown(x, w.files, State(w.h)))
      && (w.mem.Stopped? && Reaches(x, w.h, w.manifest) ==>
           Interrupted(w.files, x.bucketOf, x.d, x.c, Log(w.h), w.manifest))
  {
    hide Next, Enabled, HistoryOk, Log, Interrupted, MetaOf, Resumable, Fold, Shown, Initial;
    InvRun(x, states, steps, n);
    var w := states[n];
    if w.mem.Following? && w.mem.dirty.None? && w.mem.pos == |Log(w.h)| {
      AtEnd(x, w.files, Log(w.h));
    }
  }

  // ---------------------------------------------------------------- what a commit leaves in the retained log

  /** How many events of a commit the retained log has dropped by the time the index reads them back. */
  function Dropped(retention: nat, es: seq<Event>): nat {
    if |es| > retention then |es| - retention else 0
  }

  /** `changesSince` the sequence before a commit returns its events without those dropped. */
  lemma CommitReadBack(config: Config, h: seq<Commit>, k: Commit)
    requires HistoryOk(config, h) && CommitOk(config, h, k)
    ensures var es := k.entry.events;
      ChangesSince(MetaOf(config, h + [k]).changes, |Log(h)|) == es[Dropped(config.retention, es)..]
  {
    hide CommitOk, HistoryOk, Log, MetaOf, ChangesSince;
    HistoryExtends(config, h, k);
    OneLog(h, k);
    MetaLog(config, h + [k]);
    TailSince(Log(h), k.entry.events, config.retention);
  }

  lemma TailSince(before: seq<Event>, es: seq<Event>, retention: nat)
    requires Numbered(before + es, 0)
    ensures ChangesSince(LastN(before + es, retention), |before|) == es[Dropped(retention, es)..]
  {
    hide ChangesSince;
    var all := before + es;
    var kept := LastN(all, retention);
    var base := |all| - |kept|;
    assert kept == all[base..];
    assert Numbered(kept, base) by {
      assert forall i :: 0 <= i < |kept| ==> kept[i] == all[base + i];
    }
    SinceOf(kept, base, |before|);
    if |before| >= base {
      assert kept[|before| - base..] == es;
    } else {
      assert kept == es[|es| - retention..];
    }
  }

  /**
   * `applyCommittedIndexChanges` leaves the index showing exactly the new state if and only if each event of the commit
   * that the retained log has already dropped left its record under the same key.
   */
  lemma CommitIndexedIff(x: Setup, h: seq<Commit>, k: Commit, files: Files)
    requires HistoryOk(x.config, h) && CommitOk(x.config, h, k) && Shown(x, files, State(h))
    ensures var es := k.entry.events;
      Shown(x, S.ApplyEvents(files, x.bucketOf, x.d, x.c, ChangesSince(MetaOf(x.config, h + [k]).changes, |Log(h)|)),
        State(h + [k]))
      <==> forall i :: 0 <= i < Dropped(x.config.retention, es) ==> Harmless(x.d, x.c, es[i])
  {
    hide S.Right, S.ApplyEvents, Log, MetaOf, ChangesSince, Fold, VerifyEntry, Store, TraceOk, LastReadsCurrent, Writes,
      Harmless;
    var es := k.entry.events;
    assert BeforesFrom(State(h), es);
    CommitReadBack(x.config, h, k);
    HistoryExtends(x.config, h, k);
    TrimmedCommitIndexedIff(files, x.bucketOf, x.d, x.c, State(h), es, Dropped(x.config.retention, es));
  }

  // ---------------------------------------------------------------- two inputs at which an index loses a record

  const FIRST := Record("1", map["f" := Str("a")])
  const SECOND := Record("2", map["f" := Str("b")])
  const BYF := S.Definition("f", ["f"], false)

  /** With a retained log of one event, a commit of two new records leaves the first one out of the index. */
  lemma LargeCommitLosesRecord(bucketOf: string -> string) returns (x: Setup, k: Commit)
    ensures x.config.retention == 1 && x.bucketOf == bucketOf && HistoryOk(x.config, [k])
    ensures Shown(x, map[], State([]))
    ensures !Shown(x, S.ApplyEvents(map[], bucketOf, x.d, x.c, ChangesSince(MetaOf(x.config, [k]).changes, |Log([])|)),
      State([k]))
  {
    hide S.Right, S.ApplyEvents, MetaOf, ChangesSince, VerifyEntry, EffectOk;
    x := Setup(Config("db", 1), bucketOf, BYF, "c");
    k := TwoInserts(x.config);
    assert [] + [k] == [k] && [k][..0] == [];
    assert Shown(x, map[], State([])) by { Nothing(x); }
    CommitIndexedIff(x, [], k, map[]);
    assert !Harmless(x.d, x.c, k.entry.events[0]);
  }

  lemma Nothing(x: Setup)
    ensures Shown(x, map[], State([]))
  {
  }

  lemma TwoInserts(config: Config) returns (k: Commit)
    requires config.databaseId != ""
    ensures CommitOk(config, [], k) && HistoryOk(config, [])
    ensures var es := k.entry.events;
      |es| == 2 && es[0].key == Key("c", "1") && es[0].before == None && es[0].record == Some(FIRST)
  {
    hide VerifyEntry, CommitFabric.Verify;
    var trace := [Observation(Op.Put("c", FIRST), Done, map[])] + [Observation(Op.Put("c", SECOND), Done, map[])];
    var first, second := Key("c", "1"), Key("c", "2");
    var ws := WriteSet(map[first := Write(None, Some(FIRST)), second := Write(None, Some(SECOND))], [first, second]);
    TwoPuts(trace, ws);
    var context := CommitFabric.Context(Some("local"), 0, "t", Some("local"), {});
    ChangedBoth(ws, first, second);
    var entry := BuildEntry(config, 0, ws, context);
    BuiltCommitOk(config, [], trace, ws, context);
    k := Commit(trace, ws, entry.value);
  }

  lemma ChangedBoth(ws: WriteSet, first: Key, second: Key)
    requires ws.order == [first, second] && first in ws.writes && second in ws.writes
    requires ws.writes[first].before != ws.writes[first].after && ws.writes[second].before != ws.writes[second].after
    ensures Changed(ws, ws.order) == [first, second]
  {
    assert ws.order[1..] == [second] && [second][1..] == [];
    assert Changed(ws, [second]) == [second];
  }

  lemma TwoPuts(trace: seq<Observation>, ws: WriteSet)
    requires trace == [Observation(Op.Put("c", FIRST), Done, map[])] + [Observation(Op.Put("c", SECOND), Done, map[])]
    requires var first, second := Key("c", "1"), Key("c", "2");
      ws == WriteSet(map[first := Write(None, Some(FIRST)), second := Write(None, Some(SECOND))], [first, second])
    ensures TraceOk(trace) && Writes(trace) == ws && LastReadsCurrent(map[], trace)
  {
    var one := [trace[0]];
    assert trace[..1] == one && one[..0] == [];
    assert Writes(one) == WriteSet(map[Key("c", "1") := Write(None, Some(FIRST))], [Key("c", "1")]);
    forall i | 0 <= i < |trace| ensures Current(map[], trace, i) {
    }
  }

  // ---------------------------------------------------------------- an array on an indexed path

  const TAGGED := Record("1", map["tags" := Arr([Str("x"), Str("y")])])
  const BYTAGS := S.Definition("tags", ["tags"], false)

  /** A record tagged x and y is shown by a scan for y, and missed by the query planned on the index of the tags. */
  lemma TaggedRecordMissed(bucketOf: string -> string)
    ensures var s, q := map[Key("c", "1") := TAGGED], Query([Field("tags", Equals(Str("y")))]);
      var files := S.Add(map[], bucketOf, S.KeyOf(BYTAGS, TAGGED), "1");
      && S.Right(files, bucketOf, BYTAGS, "c", s) && S.Candidate(BYTAGS, q) && S.Shows(s, "c", "1", q)
      && "1" !in S.Find(files, bucketOf, BYTAGS, S.PlannedValues(BYTAGS.fields, q))
  {
    var s, q := map[Key("c", "1") := TAGGED], Query([Field("tags", Equals(Str("y")))]);
    var files := S.Add(map[], bucketOf, S.KeyOf(BYTAGS, TAGGED), "1");
    var tags := Arr([Str("x"), Str("y")]);
    TagsOf(tags);
    FiledOnce(bucketOf, s, files);
    assert S.ConditionOn(q.clauses, "tags") == Some(Equals(Str("y")));
    assert S.Candidate(BYTAGS, q);
    hide S.Right, S.Find, S.KeyOf, S.Add, Split;
    S.FindExact(files, bucketOf, BYTAGS, "c", s, S.PlannedValues(BYTAGS.fields, q), "1");
    assert S.ValuesOf(BYTAGS.fields, TAGGED)[0] == tags;
    assert S.PlannedValues(BYTAGS.fields, q)[0] == Str("y");
  }

  lemma TagsOf(tags: Json)
    requires tags == Arr([Str("x"), Str("y")])
    ensures FirstPathValue(TAGGED.AsJson(), "tags") == tags
    ensures Matches(TAGGED.AsJson(), Query([Field("tags", Equals(Str("y")))])) == Yes
  {
    hide GetPath, Equal, Split;
    TagValues(tags);
    TagListed(tags);
    var clause := Field("tags", Equals(Str("y")));
    assert Equal(GetPath(TAGGED.AsJson(), "tags")[0], Str("y"));
    assert Holds(TAGGED.AsJson(), clause) == Yes;
    EveryIff(TAGGED.AsJson(), [clause]);
  }

  lemma TagValues(tags: Json)
    requires tags == Arr([Str("x"), Str("y")])
    ensures GetPath(TAGGED.AsJson(), "tags") == [tags]
  {
    SplitPlain("tags");
    assert ["tags"][1..] == [];
    assert TAGGED.Fields()["tags"] == tags;
    hide Split;
    assert Resolve(tags, []) == [tags];
  }

  lemma TagListed(tags: Json)
    requires tags == Arr([Str("x"), Str("y")])
    ensures Equal(tags, Str("y"))
  {
    assert tags.items[1] == Str("y");
  }

  lemma FiledOnce(bucketOf: string -> string, s: Content, files: Files)
    requires s == map[Key("c", "1") := TAGGED] && files == S.Add(map[], bucketOf, S.KeyOf(BYTAGS, TAGGED), "1")
    ensures S.Right(files, bucketOf, BYTAGS, "c", s)
  {
    hide S.Add, S.KeyOf, S.Ids;
    forall key, id
      ensures id in S.Ids(files, bucketOf, key) <==> Key("c", id) in s && S.KeyOf(BYTAGS, s[Key("c", id)]) == Some(key)
    {
      S.AddAt(map[], bucketOf, S.KeyOf(BYTAGS, TAGGED), "1", key);
      NothingIn(bucketOf, key);
    }
  }

  lemma NothingIn(bucketOf: string -> string, key: string)
    ensures S.Ids(map[], bucketOf, key) == {}
  {
  }
}
