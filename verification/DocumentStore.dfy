/**
 * `SegmentedDocumentStore` of src/tiered-store.js: segment files, bucketed index and hot-record cache as one plain map.
 */
module DocumentStore {
  import opened Basics
  import opened Json
  import opened BucketCache
  import opened Ordering
  import opened TieredStore
  import B = BucketIndex

  type Location = (nat, nat)

  ghost predicate Before(at: Location, segment: nat, bytes: nat) {
    at.0 < segment || (at.0 == segment && at.1 < bytes)
  }

  /** Every index entry points at the envelope it was made from, and nothing lies at or beyond the write position. */
  ghost predicate Located(truth: map<string, Entry>, segments: map<Location, Envelope>, segment: nat, bytes: nat,
                          sequence: nat) {
    && (forall at :: at in segments ==> Before(at, segment, bytes))
    && (forall id :: id in truth ==> LocatedAt(truth[id], id, segments, sequence))
  }

  ghost predicate LocatedAt(e: Entry, id: string, segments: map<Location, Envelope>, sequence: nat) {
    var at := (e.segment, e.offset);
    && at in segments
    && segments[at].id == id && segments[at].sequence == e.sequence
    && (e.deleted <==> segments[at].record.None?)
    && (segments[at].record.Some? ==> segments[at].record.value.id == id)
    && 1 <= e.sequence <= sequence
  }

  function Ids(truth: map<string, Entry>, deleted: bool): set<string> {
    set id | id in truth && truth[id].deleted == deleted
  }

  /** The records a plain map with this index would hold. */
  ghost function DocsOf(truth: map<string, Entry>, segments: map<Location, Envelope>): Docs {
    map id | id in truth && (truth[id].segment, truth[id].offset) in segments
             && segments[(truth[id].segment, truth[id].offset)].record.Some?
      :: segments[(truth[id].segment, truth[id].offset)].record.value
  }

  /** Appending an envelope and indexing it changes exactly that id. */
  lemma AppendDocs(truth: map<string, Entry>, segments: map<Location, Envelope>, segment: nat, bytes: nat,
                   sequence: nat,
                   id: string, e: Entry, env: Envelope, segment': nat, bytes': nat)
    requires Located(truth, segments, segment, bytes, sequence)
    requires !Before((e.segment, e.offset), segment, bytes)
    requires env.id == id && env.sequence == e.sequence == sequence + 1 && (e.deleted <==> env.record.None?)
    requires env.record.Some? ==> env.record.value.id == id
    requires forall at :: Before(at, segment, bytes) || at == (e.segment, e.offset) ==> Before(at, segment', bytes')
    ensures var truth', segments' := truth[id := e], segments[(e.segment, e.offset) := env];
      && Located(truth', segments', segment', bytes', sequence + 1)
      && DocsOf(truth', segments') ==
           (if env.record.Some? then DocsOf(truth, segments)[id := env.record.value]
             else DocsOf(truth, segments) - {id})
  {
    var truth', segments' := truth[id := e], segments[(e.segment, e.offset) := env];
    forall x | x in truth' ensures LocatedAt(truth'[x], x, segments', sequence + 1) {
      if x != id {
        assert LocatedAt(truth[x], x, segments, sequence);
      }
    }
    forall x | x in truth && x != id ensures (truth[x].segment, truth[x].offset) in segments
      && (truth[x].segment, truth[x].offset) != (e.segment, e.offset)
    {
      assert LocatedAt(truth[x], x, segments, sequence);
    }
  }

  lemma IdsUpdate(truth: map<string, Entry>, id: string, e: Entry)
    ensures Ids(truth[id := e], e.deleted) == Ids(truth, e.deleted) + {id}
    ensures Ids(truth[id := e], !e.deleted) == Ids(truth, !e.deleted) - {id}
  {
  }

  /** The buckets a batch and the reads in between touch. */
  function Touched(bucketOf: string -> string, ops: seq<Operation>, others: seq<seq<string>>): set<string> {
    (set i | 0 <= i < |ops| :: bucketOf(ops[i].Id())) +
      (set i, j | 0 <= i < |others| && 0 <= j < |others[i]| :: bucketOf(others[i][j]))
  }

  /** These reads were answered from this content. */
  ghost predicate SeesAll(seen: seq<Option<Record>>, docs: Docs, ids: seq<string>) {
    |seen| == |ids| && forall i :: 0 <= i < |ids| ==> seen[i] == Lookup(docs, ids[i])
  }

  /** Some operation of the batch wrote id. */
  ghost predicate Written(changed: seq<bool>, ops: seq<Operation>, id: string) {
    exists i: nat :: i < |ops| && i < |changed| && changed[i] && ops[i].Id() == id
  }

  /** The newest sequence of these entries, zero without any. */
  ghost predicate IsNewest(newest: nat, entries: map<string, Entry>) {
    && (forall id :: id in entries ==> entries[id].sequence <= newest)
    && (newest > 0 ==> exists id :: id in entries && entries[id].sequence == newest)
  }

  function Max(a: nat, b: nat): nat {
    if a < b then b else a
  }

  method Newest(bucket: Bucket) returns (newest: nat)
    ensures IsNewest(newest, bucket)
  {
    newest := 0;
    var todo := bucket.Keys;
    ghost var at := "";
    while todo != {}
      invariant todo <= bucket.Keys
      invariant forall id :: id in bucket && id !in todo ==> bucket[id].sequence <= newest
      invariant newest > 0 ==> at in bucket && bucket[at].sequence == newest
      decreases todo
    {
      var id :| id in todo;
      if newest < bucket[id].sequence {
        newest, at := bucket[id].sequence, id;
      }
      todo := todo - {id};
    }
  }

  /** The entries outside these buckets. */
  ghost function Seen(truth: map<string, Entry>, bucketOf: string -> string, todo: set<string>): map<string, Entry> {
    map id | id in truth && bucketOf(id) !in todo :: truth[id]
  }

  /** The ids in buckets other than these. */
  function Outside(ids: set<string>, bucketOf: string -> string, buckets: set<string>): set<string> {
    set id | id in ids && bucketOf(id) !in buckets
  }

  datatype Manifest = Manifest(activeSegment: nat, activeBytes: nat, sequence: nat, recordCount: int, tombstones: int)

  class SegmentedDocumentStore {
    const segmentBytes: nat
    const sizeOf: Envelope -> nat
    var index: BucketedOffsetIndex
    var segments: map<Location, Envelope>
    var state: Manifest
    var hot: Docs
    var dirty: map<string, Bucket>
    ghost var truth: map<string, Entry>
    ghost var start: seq<string>
    ghost var accesses: seq<string>

    ghost function Index(): B.Index
      reads this`index, this`dirty, index
    {
      index.With(dirty)
    }

    /** The plain map the store stands for. */
    ghost function Contents(): Docs
      reads this`truth, this`segments
    {
      DocsOf(truth, segments)
    }

    /** A record's version, zero when it was never written. */
    ghost function VersionOf(id: string): nat
      reads this`truth
    {
      V(truth, id)
    }

    ghost predicate IndexOk()
      reads this`index, this`dirty, this`truth, this`start, this`accesses, index
    {
      B.Bounded(Index(), index.max, index.bucketOf, truth, start, accesses)
    }

    ghost predicate HotOk()
      reads this`hot, this`truth, this`segments
    {
      forall id :: id in hot ==> id in Contents() && hot[id] == Contents()[id]
    }

    ghost predicate Valid()
      reads this, index
    {
      && IndexOk()
      && HotOk()
      && Located(truth, segments, state.activeSegment, state.activeBytes, state.sequence)
      && state.recordCount == |Ids(truth, false)|
      && state.tombstones == |Ids(truth, true)|
    }

    /** The bucket of id may be touched: no batch is open, or the touched buckets still fit the cache. */
    ghost predicate Fits(id: string)
      reads this, index
    {
      dirty == map[] || |Names(accesses + [index.bucketOf(id)])| <= index.max
    }

    lemma HasRoom()
      requires IndexOk()
      ensures index.max >= 1
    {
    }

    constructor (max: nat, bucketOf: string -> string, segmentBytes: nat, sizeOf: Envelope -> nat)
      requires max >= 1
      ensures Valid() && fresh(index) && index.max == max && index.bucketOf == bucketOf
      ensures this.segmentBytes == segmentBytes && this.sizeOf == sizeOf
      ensures Contents() == map[] && dirty == map[] && state.sequence == 0 && truth == map[]
    {
      index := new BucketedOffsetIndex(max, bucketOf);
      this.segmentBytes, this.sizeOf := segmentBytes, sizeOf;
      segments, state, hot, dirty := map[], Manifest(1, 0, 0, 0, 0), map[], map[];
      truth, start, accesses := map[], [], [];
      new;
      assert Ids(truth, false) == {} && Ids(truth, true) == {};
      assert Names([]) == {};
    }

    /** Outside a batch nothing is owed to the files, so the accounting of touched buckets starts afresh. */
    ghost method Settle()
      requires IndexOk()
      modifies this`start, this`accesses
      ensures IndexOk()
      ensures if dirty == map[] then accesses == [] && forall n :: |Names([] + [n])| <= index.max
              else start == old(start) && accesses == old(accesses)
    {
      hide B.Bounded, Names;
      if dirty == map[] {
        B.BoundedRestart(Index(), index.max, index.bucketOf, truth, start, accesses);
        start, accesses := index.order, [];
      }
    }

    /** The bucket of id is loaded and searched. */
    method Search(id: string) returns (e: Option<Entry>)
      requires IndexOk() && |Names(accesses + [index.bucketOf(id)])| <= index.max
      modifies index, this`accesses
      ensures IndexOk() && e == Lookup(truth, id)
      ensures accesses == old(accesses) + [index.bucketOf(id)]
    {
      hide B.Bounded, Names, B.Load, B.Perform;
      ghost var x := Index();
      B.BoundedStep(x, index.max, index.bucketOf, truth, start, accesses, B.Look(id));
      BoundedShape(x, index.max, index.bucketOf, truth, start, accesses);
      B.BoundedLookup(x, index.max, index.bucketOf, truth, start, accesses, id);
      e := index.Get(id);
      LookStep(x, Index(), index.max, index.bucketOf, id);
      accesses := accesses + [index.bucketOf(id)];
    }

    /** The index entry of id, whether or not a batch is open. */
    method Locate(id: string) returns (e: Option<Entry>)
      requires Valid() && Fits(id)
      modifies index, this`start, this`accesses
      ensures Valid() && e == Lookup(truth, id)
      ensures dirty != map[] ==> start == old(start) && accesses == old(accesses) + [index.bucketOf(id)]
      ensures dirty == map[] ==> accesses == []
    {
      hide IndexOk, HotOk, Located, Ids;
      Settle();
      e := Search(id);
      Settle();
    }

    /** `getSync`. */
    method Get(id: string) returns (r: Option<Record>)
      requires Valid() && Fits(id)
      modifies index, this`start, this`accesses, this`hot
      ensures Valid() && r == Lookup(Contents(), id)
      ensures r.Some? ==> r.value.id == id
      ensures dirty != map[] ==> start == old(start) && accesses <= old(accesses) + [index.bucketOf(id)]
    {
      if id in hot {
        RecordId(truth, segments, state.activeSegment, state.activeBytes, state.sequence, id);
        r := Some(hot[id]);
      } else {
        var e := Locate(id);
        if e.None? || e.value.deleted {
          assert id in truth ==> LocatedAt(truth[id], id, segments, state.sequence);
          r := None;
        } else {
          assert LocatedAt(truth[id], id, segments, state.sequence);
          var envelope := segments[(e.value.segment, e.value.offset)];
          r := envelope.record;
          Remember(r.value);
        }
      }
    }

    /** `version`. */
    method Version(id: string) returns (v: nat)
      requires Valid() && Fits(id)
      modifies index, this`start, this`accesses
      ensures Valid() && v == VersionOf(id)
    {
      var e := Locate(id);
      v := if e.Some? then e.value.sequence else 0;
    }

    /** `HotRecordCache.set` keeps the record, when it fits, and whatever else its budget allows. */
    method Remember(r: Record)
      requires r.id in Contents() && Contents()[r.id] == r
      requires forall id :: id in hot && id != r.id ==> id in Contents() && hot[id] == Contents()[id]
      modifies this`hot
      ensures HotOk()
    {
      var kept: set<string> := *;
      hot := map id | id in hot[r.id := r] && id in kept :: hot[r.id := r][id];
    }

    /** `#appendEnvelope`: the write position moves past the envelope, to a new segment when the active one is full. */
    method Append(envelope: Envelope) returns (e: Entry)
      requires sizeOf(envelope) > 0
      requires forall at :: at in segments ==> Before(at, state.activeSegment, state.activeBytes)
      modifies this`segments, this`state
      ensures state == old(state).(activeSegment := state.activeSegment, activeBytes := state.activeBytes)
      ensures !Before((e.segment, e.offset), old(state.activeSegment), old(state.activeBytes))
      ensures segments == old(segments)[(e.segment, e.offset) := envelope]
      ensures e.sequence == envelope.sequence && e.deleted == envelope.record.None?
      ensures forall at ::
        Before(at, old(state.activeSegment), old(state.activeBytes)) || at == (e.segment, e.offset) ==>
        Before(at, state.activeSegment, state.activeBytes)
    {
      var length := sizeOf(envelope);
      if state.activeBytes > 0 && state.activeBytes + length > segmentBytes {
        state := state.(activeSegment := state.activeSegment + 1, activeBytes := 0);
      }
      e := Entry(state.activeSegment, state.activeBytes, length, envelope.sequence, envelope.record.None?);
      segments := segments[(state.activeSegment, state.activeBytes) := envelope];
      state := state.(activeBytes := state.activeBytes + length);
    }

    /** Points the index at an envelope; the bucket it touches joins the dirty map. */
    method Enter(id: string, e: Entry)
      requires IndexOk() && |Names(accesses + [index.bucketOf(id)])| <= index.max
      modifies this`dirty, this`truth, this`accesses, index
      ensures IndexOk()
      ensures truth == old(truth)[id := e]
      ensures accesses == old(accesses) + [index.bucketOf(id)]
    {
      hide B.Bounded, Names, B.Set, B.Perform, B.Load;
      ghost var x := Index();
      BoundedShape(x, index.max, index.bucketOf, truth, start, accesses);
      B.BoundedStep(x, index.max, index.bucketOf, truth, start, accesses, B.Write(id, e));
      var bucketName, bucket := index.Set(id, e, dirty);
      dirty := dirty[bucketName := bucket];
      WriteStep(x, Index(), index.max, index.bucketOf, id, e);
      accesses := accesses + [index.bucketOf(id)];
      truth := truth[id := e];
    }

    /** Writes the next version of id. */
    method Stamp(id: string, record: Option<Record>)
      requires IndexOk() && Located(truth, segments, state.activeSegment, state.activeBytes, state.sequence)
      requires forall envelope :: sizeOf(envelope) > 0
      requires record.Some? ==> record.value.id == id
      requires |Names(accesses + [index.bucketOf(id)])| <= index.max
      modifies this`segments, this`state, this`dirty, this`truth, this`accesses, index
      ensures IndexOk() && Located(truth, segments, state.activeSegment, state.activeBytes, state.sequence)
      ensures state.sequence == old(state.sequence) + 1
      ensures state.recordCount == old(state.recordCount) && state.tombstones == old(state.tombstones)
      ensures id in truth && truth[id].sequence == state.sequence && truth[id].deleted == record.None?
      ensures truth == old(truth)[id := truth[id]]
      ensures Contents() == if record.Some? then old(Contents())[id := record.value] else old(Contents()) - {id}
      ensures accesses == old(accesses) + [index.bucketOf(id)]
    {
      hide IndexOk, Located, DocsOf, Names;
      LocatedBefore(truth, segments, state.activeSegment, state.activeBytes, state.sequence);
      state := state.(sequence := state.sequence + 1);
      var envelope := Envelope(state.sequence, id, record);
      var e := Append(envelope);
      AppendDocs(truth, old(segments), old(state.activeSegment), old(state.activeBytes), old(state.sequence), id, e,
        envelope, state.activeSegment, state.activeBytes);
      Enter(id, e);
    }

    /** One operation of a batch that does write. */
    method Write(op: Operation, previous: Option<Entry>)
      requires Valid() && previous == Lookup(truth, op.Id())
      requires op.Put? || (previous.Some? && !previous.value.deleted)
      requires |Names(accesses + [index.bucketOf(op.Id())])| <= index.max
      requires forall envelope :: sizeOf(envelope) > 0
      modifies index, this`accesses, this`hot, this`dirty, this`truth
      modifies this`segments, this`state
      ensures Valid()
      ensures Contents() == Apply(old(Contents()), op)
      ensures state.sequence == old(state.sequence) + 1
      ensures op.Id() in truth && truth[op.Id()].sequence == state.sequence
      ensures truth == old(truth)[op.Id() := truth[op.Id()]]
      ensures accesses == old(accesses) + [index.bucketOf(op.Id())]
    {
      hide B.Bounded, Located, DocsOf, Names, Ids;
      var id := op.Id();
      var record := if op.Put? then Some(op.record) else None;
      Stamp(id, record);
      IdsCount(old(truth), id, truth[id]);
      if op.Put? {
        if previous.None? || previous.value.deleted {
          state := state.(recordCount := state.recordCount + 1);
        }
        if previous.Some? && previous.value.deleted {
          state := state.(tombstones := if state.tombstones - 1 > 0 then state.tombstones - 1 else 0);
        }
        Remember(op.record);
      } else {
        state := state.(recordCount := state.recordCount - 1, tombstones := state.tombstones + 1);
        hot := hot - {id};
      }
    }

    /** Other callers' reads that come in while a batch awaits a write. */
    method Serve(ids: seq<string>, ghost room: set<string>) returns (seen: seq<Option<Record>>)
      requires Valid() && |room| <= index.max
      requires forall id :: id in ids ==> index.bucketOf(id) in room
      requires dirty == map[] || Names(accesses) <= room
      modifies index, this`start, this`accesses, this`hot
      ensures Valid() && (dirty == map[] || Names(accesses) <= room)
      ensures SeesAll(seen, Contents(), ids)
    {
      hide B.Bounded, Located, HotOk, DocsOf, Names, Ids;
      seen := [];
      for i := 0 to |ids|
        invariant Valid() && (dirty == map[] || Names(accesses) <= room)
        invariant |seen| == i && forall j :: 0 <= j < i ==> seen[j] == Lookup(Contents(), ids[j])
      {
        RoomFits(accesses, index.bucketOf(ids[i]), room, index.max);
        ghost var before := accesses;
        var r := Get(ids[i]);
        PrefixNames(accesses, before, index.bucketOf(ids[i]));
        seen := seen + [r];
      }
    }

    /**
     * One operation of a batch. Other callers' reads come in while its envelope is written, before the index knows of
     * it.
     */
    method Perform(op: Operation, during: seq<string>, ghost room: set<string>)
      returns (changed: bool, seen: seq<Option<Record>>)
      requires Valid() && |room| <= index.max
      requires index.bucketOf(op.Id()) in room && forall id :: id in during ==> index.bucketOf(id) in room
      requires dirty == map[] || Names(accesses) <= room
      requires forall envelope :: sizeOf(envelope) > 0
      modifies index, this`start, this`accesses, this`hot, this`dirty, this`truth
      modifies this`segments, this`state
      ensures Valid() && (dirty == map[] || Names(accesses) <= room)
      ensures Stepped(old(truth), old(Contents()), old(state.sequence), truth, Contents(), state.sequence, op, changed)
      ensures SeesAll(seen, old(Contents()), if changed then during else [])
    {
      hide B.Bounded, Located, HotOk, DocsOf, Names, Ids, SeesAll;
      var id := op.Id();
      RoomFits(accesses, index.bucketOf(id), room, index.max);
      var previous := Locate(id);
      RoomNext(old(accesses), index.bucketOf(id), room);
      TruthDocs(truth, segments, state.activeSegment, state.activeBytes, state.sequence, id);
      changed := op.Put? || (previous.Some? && !previous.value.deleted);
      seen := [];
      SeesNothing(Contents());
      if changed {
        seen := Serve(during, room);
        Settle();
        RoomFits(accesses, index.bucketOf(id), room, index.max);
        RoomNext(accesses, index.bucketOf(id), room);
        RoomNext([], index.bucketOf(id), room);
        Write(op, previous);
      }
    }

    /**
     * Writes the dirty buckets, however many at a time: other callers' reads come in whenever a file is being written.
     */
    method Persist(last: seq<string>, ghost room: set<string>) returns (seen: seq<Option<Record>>)
      requires Valid() && |room| <= index.max
      requires forall id :: id in last ==> index.bucketOf(id) in room
      requires dirty == map[] || Names(accesses) <= room
      modifies index, this`start, this`accesses, this`dirty, this`hot
      ensures Valid() && dirty == map[]
      ensures SeesAll(seen, Contents(), last)
    {
      hide B.Bounded, Located, HotOk, DocsOf, Names, Ids, SeesAll;
      seen := [];
      SeesNothing(Contents());
      while dirty != map[]
        invariant Valid() && (dirty == map[] || Names(accesses) <= room)
        invariant |seen| <= |last| && SeesAll(seen, Contents(), last[..|seen|])
        decreases |dirty|
      {
        WriteSome();
        var k: nat := *;
        k := if k < |seen| then |seen| else if k > |last| then |last| else k;
        var answers := Serve(last[|seen|..k], room);
        SeesMore(seen, answers, Contents(), last, k);
        seen := seen + answers;
      }
      var answers := Serve(last[|seen|..|last|], room);
      SeesMore(seen, answers, Contents(), last, |last|);
      seen := seen + answers;
      assert last[..|last|] == last;
    }

    /** Some of the buckets still to be written reach their files. */
    method WriteSome()
      requires Valid() && dirty != map[]
      modifies index`disk, this`dirty
      ensures Valid() && dirty.Keys < old(dirty.Keys) && |dirty| < |old(dirty)|
    {
      hide B.Bounded, B.Persist, B.PersistSome, B.Part, Located, HotOk, Ids, Names;
      var some: set<string> := *;
      if some * dirty.Keys == {} {
        some := dirty.Keys;
      }
      FewerKeys(dirty, some);
      ghost var x := Index();
      B.BoundedPersistSome(x, index.max, index.bucketOf, truth, start, accesses, some);
      index.Persist(B.Part(dirty, some));
      dirty := dirty - some;
      PartPersisted(x, index.With(map[]), some, dirty);
    }

    /**
     * `applyBatch`: the operations one by one, other callers' reads in between, dirty buckets written at the end. Every
     * read sees exactly the operations before it, and an id keeps its version exactly while nothing is written to it.
     * `others[i]` comes in while the envelope of operation i is written, `last` while buckets and manifest are.
     */
    method ApplyBatch(ops: seq<Operation>, others: seq<seq<string>>, last: seq<string>)
      returns (changed: seq<bool>, seen: seq<seq<Option<Record>>>, seenLast: seq<Option<Record>>)
      requires Valid() && dirty == map[] && |others| == |ops|
      requires |Touched(index.bucketOf, ops, others + [last])| <= index.max
      requires forall envelope :: sizeOf(envelope) > 0
      modifies index, this`start, this`accesses, this`hot, this`dirty, this`truth
      modifies this`segments, this`state
      ensures Valid() && dirty == map[]
      ensures BatchDone(old(truth), old(Contents()), old(state.sequence), truth, Contents(), state.sequence,
                        ops, others, changed, seen)
      ensures SeesAll(seenLast, Contents(), last)
    {
      hide B.Bounded, Located, HotOk, DocsOf, Names, Ids, Touched, BatchDone, Stepped, SeesAll;
      changed, seen := [], [];
      ghost var room := Touched(index.bucketOf, ops, others + [last]);
      BatchStart(truth, Contents(), segments, state.activeSegment, state.activeBytes, state.sequence);
      for i := 0 to |ops|
        invariant Valid() && (dirty == map[] || Names(accesses) <= room)
        invariant BatchDone(old(truth), old(Contents()), old(state.sequence), truth, Contents(), state.sequence,
                            ops[..i], others[..i], changed, seen)
      {
        TouchedHas(index.bucketOf, ops, others, last, i);
        ghost var truth1, docs1, sequence1 := truth, Contents(), state.sequence;
        var did, answers := Perform(ops[i], others[i], room);
        BatchNext(old(truth), old(Contents()), old(state.sequence), truth1, docs1, sequence1,
                  truth, Contents(), state.sequence,
                  ops[..i], others[..i], changed, seen, ops[i], others[i], did, answers);
        assert ops[..i] + [ops[i]] == ops[..i + 1] && others[..i] + [others[i]] == others[..i + 1];
        changed, seen := changed + [did], seen + [answers];
      }
      assert ops[..|ops|] == ops && others[..|ops|] == others;
      TouchedLast(index.bucketOf, ops, others, last);
      seenLast := Persist(last, room);
    }

    /** One bucket of `entryIterator`, between batches. */
    method Open(name: string) returns (bucket: Bucket)
      requires IndexOk() && dirty == map[]
      modifies index, this`start, this`accesses
      ensures IndexOk() && index.disk == old(index.disk) && bucket == B.Slice(truth, index.bucketOf, name)
    {
      hide B.Bounded, B.Load, Names, B.Slice;
      ghost var x := Index();
      BoundedShape(x, index.max, index.bucketOf, truth, start, accesses);
      B.LoadAtRest(x, index.max, index.bucketOf, truth, start, accesses, name);
      B.LoadDirty(x, index.max, name);
      bucket := index.Load(name);
      start, accesses := index.order, [];
    }

    /** `entryIterator` to its end: the ids of live and of deleted records and the newest sequence. */
    method Scan() returns (live: set<string>, deleted: set<string>, newest: nat)
      requires IndexOk() && dirty == map[]
      modifies index, this`start, this`accesses
      ensures IndexOk()
      ensures live == Ids(truth, false) && deleted == Ids(truth, true) && IsNewest(newest, truth)
    {
      ScanCovers(Index(), index.max, index.bucketOf, truth, start, accesses);
      hide IndexOk, B.Bounded, B.Slice;
      var todo := index.disk.Keys;
      live, deleted, newest := {}, {}, 0;
      while todo != {}
        invariant IndexOk() && index.disk == old(index.disk)
        invariant live == Outside(Ids(truth, false), index.bucketOf, todo)
        invariant deleted == Outside(Ids(truth, true), index.bucketOf, todo)
        invariant IsNewest(newest, Seen(truth, index.bucketOf, todo))
        decreases todo
      {
        var name :| name in todo;
        var bucket := Open(name);
        var last := Newest(bucket);
        ScanNext(truth, index.bucketOf, bucket, name, todo);
        NewestNext(truth, index.bucketOf, bucket, name, todo, newest, last);
        live := live + Ids(bucket, false);
        deleted := deleted + Ids(bucket, true);
        newest := Max(newest, last);
        todo := todo - {name};
      }
    }

    method DropCaches()
      requires IndexOk() && dirty == map[]
      modifies index`cache, index`order, this`start, this`accesses, this`hot
      ensures IndexOk() && hot == map[]
    {
      hide B.Bounded;
      B.ClearedAtRest(Index(), index.max, index.bucketOf, truth, start, accesses);
      index.ClearCache();
      hot, start, accesses := map[], [], [];
    }

    /**
     * Closing and opening again: caches start empty, counts and sequence are taken from the index. They are what they
     * were, so nothing of the store changes.
     */
    method Reopen()
      requires Valid() && dirty == map[]
      modifies index, this`start, this`accesses, this`hot, this`state
      ensures Valid() && state == old(state)
    {
      hide IndexOk, Located, Ids, IsNewest;
      DropCaches();
      var live, deleted, newest := Scan();
      NewestStamp(truth, segments, state.activeSegment, state.activeBytes, state.sequence, newest);
      state := state.(recordCount := |live|, tombstones := |deleted|,
        sequence := Max(state.sequence, newest));
    }

    /** `put`. */
    method PutRecord(record: Record)
      requires Valid() && dirty == map[]
      requires forall envelope :: sizeOf(envelope) > 0
      modifies index, this`start, this`accesses, this`hot, this`dirty, this`truth
      modifies this`segments, this`state
      ensures Valid() && dirty == map[]
      ensures Contents() == old(Contents())[record.id := record]
      ensures truth.Keys == old(truth.Keys) + {record.id}
    {
      hide IndexOk, Located, HotOk, DocsOf, Touched, BatchDone, Ids, V;
      HasRoom();
      VersionKeys(truth, segments, state.activeSegment, state.activeBytes, state.sequence);
      OneBucket(index.bucketOf, record);
      ghost var truth0, docs0, sequence0 := truth, Contents(), state.sequence;
      var changed, seen, seenLast := ApplyBatch([Put(record)], [[]], []);
      OnePut(truth0, docs0, sequence0, truth, Contents(), state.sequence, record, changed, seen);
      VersionKeys(truth, segments, state.activeSegment, state.activeBytes, state.sequence);
    }

    /** Puts one live record into another store. */
    method CopyOne(id: string, replacement: SegmentedDocumentStore)
      requires Valid() && dirty == map[] && id in Contents()
      requires replacement.Valid() && replacement.dirty == map[] && replacement != this && replacement.index != index
      requires forall envelope :: replacement.sizeOf(envelope) > 0
      modifies index, this`start, this`accesses, this`hot
      modifies replacement.index, replacement`start, replacement`accesses, replacement`hot, replacement`dirty,
        replacement`truth
      modifies replacement`segments, replacement`state
      ensures Valid() && replacement.Valid() && replacement.dirty == map[]
      ensures replacement.Contents() == old(replacement.Contents())[id := Contents()[id]]
      ensures replacement.truth.Keys == old(replacement.truth.Keys) + {id}
    {
      hide Valid, DocsOf;
      var record := Get(id);
      replacement.PutRecord(record.value);
    }

    /** What `scanSync` runs over. */
    method LiveSet() returns (live: set<string>)
      requires Valid() && dirty == map[]
      modifies index, this`start, this`accesses
      ensures Valid() && live == Contents().Keys
    {
      hide IndexOk, Located, HotOk, DocsOf, Ids;
      LiveAre(truth, segments, state.activeSegment, state.activeBytes, state.sequence);
      var deleted, newest;
      live, deleted, newest := Scan();
    }

    /** `ids`. */
    method LiveIds() returns (ids: seq<string>)
      requires Valid() && dirty == map[]
      modifies index, this`start, this`accesses
      ensures Valid() && ids == Sorted(Contents().Keys)
    {
      var live := LiveSet();
      ids := Sorted(live);
    }

    /** Puts every live record into another store. */
    method CopyTo(replacement: SegmentedDocumentStore)
      requires Valid() && dirty == map[]
      requires replacement.Valid() && replacement.dirty == map[] && replacement.truth == map[] &&
        replacement.Contents() == map[]
      requires replacement != this && replacement.index != index
      requires forall envelope :: replacement.sizeOf(envelope) > 0
      modifies index, this`start, this`accesses, this`hot
      modifies replacement.index, replacement`start, replacement`accesses, replacement`hot, replacement`dirty,
        replacement`truth
      modifies replacement`segments, replacement`state
      ensures replacement.Valid() && replacement.dirty == map[]
      ensures replacement.Contents() == old(Contents())
      ensures replacement.truth.Keys == old(Contents().Keys)
    {
      hide *;
      ghost var docs := Contents();
      var todo := LiveSet();
      while todo != {}
        invariant Valid() && todo <= docs.Keys
        invariant replacement.Valid() && replacement.dirty == map[]
        invariant replacement.Contents() == docs - todo
        invariant replacement.truth.Keys == docs.Keys - todo
        decreases todo
      {
        var id :| id in todo;
        CopyOne(id, replacement);
        CopiedOne(docs, todo, id);
        todo := todo - {id};
      }
      assert docs - {} == docs;
    }

    method TakeOver(replacement: SegmentedDocumentStore)
      requires replacement.Valid() && replacement.dirty == map[]
      modifies this
      ensures Valid() && dirty == map[] && truth == replacement.truth && segments == replacement.segments
    {
      hide B.Bounded, Located, Ids;
      index, segments, state := replacement.index, replacement.segments, replacement.state;
      hot, dirty, truth, start, accesses := map[], map[], replacement.truth, replacement.start, replacement.accesses;
    }

    /**
     * `compact`: every live record is put into a fresh store, which takes over. The plain map stays, every tombstone
     * goes, and so does the version of every id without a record.
     */
    method Compact()
      requires Valid() && dirty == map[]
      requires forall envelope :: sizeOf(envelope) > 0
      modifies this, index
      ensures Valid() && dirty == map[]
      ensures Contents() == old(Contents())
      ensures state.tombstones == 0 && state.recordCount == |Contents()|
      ensures forall id :: VersionOf(id) > 0 <==> id in Contents()
    {
      hide IndexOk, Located, HotOk, DocsOf, Ids;
      HasRoom();
      var replacement := new SegmentedDocumentStore(index.max, index.bucketOf, segmentBytes, sizeOf);
      CopyTo(replacement);
      replacement.Reopen();
      TakeOver(replacement);
      VersionKeys(truth, segments, state.activeSegment, state.activeBytes, state.sequence);
      NoTombstones(truth, segments, state.activeSegment, state.activeBytes, state.sequence);
    }
  }

  ghost function V(truth: map<string, Entry>, id: string): nat {
    if id in truth then truth[id].sequence else 0
  }

  /**
   * What `applyBatch` has done once the operations `ops` have run: the plain map after them, every result and every
   * read in between as that map has it, and a version that moved, past every earlier one, exactly for the ids written.
   */
  ghost predicate BatchDone(truth0: map<string, Entry>, docs0: Docs, sequence0: nat, truth: map<string, Entry>,
                            docs: Docs, sequence: nat,
                            ops: seq<Operation>, others: seq<seq<string>>, changed: seq<bool>,
                            seen: seq<seq<Option<Record>>>) {
    && docs == ApplyAll(docs0, ops)
    && Answers(docs0, ops, others, changed, seen)
    && sequence0 <= sequence
    && (forall id :: V(truth0, id) <= sequence0)
    && (forall id :: VersionMoves(truth0, docs0, sequence0, truth, docs, sequence, Written(changed, ops, id), id))
  }

  ghost predicate Answers(docs0: Docs, ops: seq<Operation>, others: seq<seq<string>>, changed: seq<bool>,
                          seen: seq<seq<Option<Record>>>) {
    && |ops| == |others| == |changed| == |seen|
    && (forall i :: 0 <= i < |ops| ==> changed[i] == Changes(ApplyAll(docs0, ops[..i]), ops[i]))
    && (forall i ::
         0 <= i < |ops| ==> SeesAll(seen[i], ApplyAll(docs0, ops[..i]), if changed[i] then others[i] else []))
  }

  ghost predicate VersionMoves(truth0: map<string, Entry>, docs0: Docs, sequence0: nat, truth: map<string, Entry>,
                               docs: Docs, sequence: nat,
                               written: bool, id: string) {
    if written then sequence0 < V(truth, id) <= sequence
    else V(truth, id) == V(truth0, id) && Lookup(docs, id) == Lookup(docs0, id)
  }

  /** Whether an operation does anything: a removal of an absent record does not. */
  predicate Changes(docs: Docs, op: Operation) {
    op.Put? || op.id in docs
  }

  ghost predicate Stepped(truth0: map<string, Entry>, docs0: Docs, sequence0: nat, truth: map<string, Entry>,
                          docs: Docs, sequence: nat,
                          op: Operation, did: bool) {
    && docs == Apply(docs0, op)
    && did == Changes(docs0, op)
    && sequence == sequence0 + (if did then 1 else 0)
    && (forall id :: V(truth, id) == if did && id == op.Id() then sequence else V(truth0, id))
  }

  lemma BatchStart(truth: map<string, Entry>, docs: Docs, segments: map<Location, Envelope>, segment: nat, bytes: nat,
                   sequence: nat)
    requires Located(truth, segments, segment, bytes, sequence)
    ensures BatchDone(truth, docs, sequence, truth, docs, sequence, [], [], [], [])
  {
    forall id ensures V(truth, id) <= sequence {
      assert id in truth ==> LocatedAt(truth[id], id, segments, sequence);
    }
  }

  lemma BatchNext(truth0: map<string, Entry>, docs0: Docs, sequence0: nat, truth1: map<string, Entry>, docs1: Docs,
                  sequence1: nat,
                  truth: map<string, Entry>, docs: Docs, sequence: nat, ops: seq<Operation>, others: seq<seq<string>>,
                  changed: seq<bool>,
                  seen: seq<seq<Option<Record>>>, op: Operation, other: seq<string>, did: bool,
                  answers: seq<Option<Record>>)
    requires BatchDone(truth0, docs0, sequence0, truth1, docs1, sequence1, ops, others, changed, seen)
    requires Stepped(truth1, docs1, sequence1, truth, docs, sequence, op, did)
    requires SeesAll(answers, docs1, if did then other else [])
    ensures BatchDone(truth0, docs0, sequence0, truth, docs, sequence, ops + [op], others + [other], changed + [did],
      seen + [answers])
  {
    hide Written, SeesAll, ApplyAll, Answers, VersionMoves;
    AnswersNext(docs0, ops, others, changed, seen, op, other, did, answers);
    ApplyAllNext(docs0, ops, op);
    forall id ensures VersionMoves(truth0, docs0, sequence0, truth, docs, sequence,
      Written(changed + [did], ops + [op], id), id) {
      WrittenNext(changed, ops, op, did, id);
      VersionNext(truth0, docs0, sequence0, truth1, docs1, sequence1, truth, docs, sequence, Written(changed, ops, id),
        op, did, id);
    }
  }

  lemma ApplyAllNext(docs: Docs, ops: seq<Operation>, op: Operation)
    ensures ApplyAll(docs, ops + [op]) == Apply(ApplyAll(docs, ops), op)
  {
    assert (ops + [op])[..|ops|] == ops;
  }

  lemma AnswersNext(docs0: Docs, ops: seq<Operation>, others: seq<seq<string>>, changed: seq<bool>,
                    seen: seq<seq<Option<Record>>>,
                    op: Operation, other: seq<string>, did: bool, answers: seq<Option<Record>>)
    requires Answers(docs0, ops, others, changed, seen)
    requires did == Changes(ApplyAll(docs0, ops), op)
    requires SeesAll(answers, ApplyAll(docs0, ops), if did then other else [])
    ensures Answers(docs0, ops + [op], others + [other], changed + [did], seen + [answers])
    ensures |changed| == |ops|
  {
    hide SeesAll, ApplyAll, Changes;
    var ops', others', changed', seen' := ops + [op], others + [other], changed + [did], seen + [answers];
    assert ops'[..|ops|] == ops;
    forall i | 0 <= i < |ops'| ensures changed'[i] == Changes(ApplyAll(docs0, ops'[..i]), ops'[i]) {
      assert i < |ops| ==> ops'[..i] == ops[..i];
    }
    forall i | 0 <= i < |ops'|
      ensures SeesAll(seen'[i], ApplyAll(docs0, ops'[..i]), if changed'[i] then others'[i] else [])
    {
      assert i < |ops| ==> ops'[..i] == ops[..i];
    }
  }

  lemma VersionNext(truth0: map<string, Entry>, docs0: Docs, sequence0: nat, truth1: map<string, Entry>, docs1: Docs,
                    sequence1: nat,
                    truth: map<string, Entry>, docs: Docs, sequence: nat, written: bool, op: Operation, did: bool,
                    id: string)
    requires sequence0 <= sequence1 && VersionMoves(truth0, docs0, sequence0, truth1, docs1, sequence1, written, id)
    requires Stepped(truth1, docs1, sequence1, truth, docs, sequence, op, did)
    ensures VersionMoves(truth0, docs0, sequence0, truth, docs, sequence, written || (did && op.Id() == id), id)
  {
  }

  lemma NamesSnoc(s: seq<string>, n: string)
    ensures Names(s + [n]) == Names(s) + {n}
  {
    assert n in s + [n];
  }

  /** An id shows a record exactly when its index entry is live. */
  lemma TruthDocs(truth: map<string, Entry>, segments: map<Location, Envelope>, segment: nat, bytes: nat, sequence: nat,
                  id: string)
    requires Located(truth, segments, segment, bytes, sequence)
    ensures id in DocsOf(truth, segments) <==> id in truth && !truth[id].deleted
  {
    assert id in truth ==> LocatedAt(truth[id], id, segments, sequence);
  }

  lemma IdsCount(truth: map<string, Entry>, id: string, e: Entry)
    ensures |Ids(truth[id := e], e.deleted)| == |Ids(truth, e.deleted)| +
      if id in truth && truth[id].deleted == e.deleted then 0 else 1
    ensures |Ids(truth[id := e], !e.deleted)| == |Ids(truth, !e.deleted)| -
      if id in truth && truth[id].deleted == !e.deleted then 1 else 0
  {
    IdsUpdate(truth, id, e);
    if id in Ids(truth, e.deleted) {
      assert Ids(truth, e.deleted) + {id} == Ids(truth, e.deleted);
    }
    if id !in Ids(truth, !e.deleted) {
      assert Ids(truth, !e.deleted) - {id} == Ids(truth, !e.deleted);
    }
  }

  lemma LookStep(x: B.Index, y: B.Index, max: nat, bucketOf: string -> string, id: string)
    requires y.(dirty := map[]) == B.Load(x.(dirty := map[]), max, bucketOf(id)) && y.dirty == x.dirty
    ensures y == B.Perform(x, max, bucketOf, B.Look(id))
  {
  }

  lemma WriteStep(x: B.Index, y: B.Index, max: nat, bucketOf: string -> string, id: string, e: Entry)
    requires y == B.Set(x, max, bucketOf(id), id, e)
    ensures y == B.Perform(x, max, bucketOf, B.Write(id, e))
  {
  }

  lemma BoundedShape(x: B.Index, max: nat, bucketOf: string -> string, truth: map<string, Entry>, start: seq<string>,
                     accesses: seq<string>)
    requires B.Bounded(x, max, bucketOf, truth, start, accesses)
    ensures B.Shape(x, max) && x.dirty.Keys <= Names(accesses)
  {
  }

  lemma LocatedBefore(truth: map<string, Entry>, segments: map<Location, Envelope>, segment: nat, bytes: nat,
                      sequence: nat)
    requires Located(truth, segments, segment, bytes, sequence)
    ensures forall at :: at in segments ==> Before(at, segment, bytes)
  {
  }

  lemma TouchedHas(bucketOf: string -> string, ops: seq<Operation>, others: seq<seq<string>>, last: seq<string>, i: nat)
    requires i < |ops| == |others|
    ensures bucketOf(ops[i].Id()) in Touched(bucketOf, ops, others + [last])
    ensures forall id :: id in others[i] ==> bucketOf(id) in Touched(bucketOf, ops, others + [last])
  {
    assert (others + [last])[i] == others[i];
  }

  lemma TouchedLast(bucketOf: string -> string, ops: seq<Operation>, others: seq<seq<string>>, last: seq<string>)
    ensures forall id :: id in last ==> bucketOf(id) in Touched(bucketOf, ops, others + [last])
  {
    assert (others + [last])[|others|] == last;
  }

  lemma SeesNothing(docs: Docs)
    ensures SeesAll([], docs, [])
  {
  }

  lemma SeesMore(seen: seq<Option<Record>>, answers: seq<Option<Record>>, docs: Docs, ids: seq<string>, k: nat)
    requires |seen| <= k <= |ids| && SeesAll(seen, docs, ids[..|seen|]) && SeesAll(answers, docs, ids[|seen|..k])
    ensures |seen + answers| == k && SeesAll(seen + answers, docs, ids[..k])
  {
  }

  lemma PartPersisted(x: B.Index, y: B.Index, some: set<string>, dirty: map<string, Bucket>)
    requires y == B.Persist(x.(dirty := B.Part(x.dirty, some))) && dirty == x.dirty - some
    ensures y.(dirty := dirty) == B.PersistSome(x, some)
  {
  }

  lemma FewerKeys(dirty: map<string, Bucket>, some: set<string>)
    requires dirty != map[] && (some * dirty.Keys != {} || some == dirty.Keys)
    ensures (dirty - some).Keys < dirty.Keys && |dirty - some| < |dirty|
  {
    assert (dirty - some).Keys == dirty.Keys - some;
    assert some == dirty.Keys ==> some * dirty.Keys == dirty.Keys;
    var n :| n in some * dirty.Keys;
    SubsetCount((dirty - some).Keys, dirty.Keys - {n});
  }

  lemma RoomNext(accesses: seq<string>, n: string, room: set<string>)
    requires n in room
    ensures Names(accesses) <= room ==> Names(accesses + [n]) <= room
    ensures Names([]) == {}
  {
    NamesSnoc(accesses, n);
  }

  lemma RoomFits(accesses: seq<string>, n: string, room: set<string>, max: nat)
    requires n in room && |room| <= max
    ensures Names(accesses) <= room ==> |Names(accesses + [n])| <= max
  {
    NamesSnoc(accesses, n);
    if Names(accesses) <= room {
      SubsetCount(Names(accesses + [n]), room);
    }
  }

  lemma PrefixNames(after: seq<string>, before: seq<string>, n: string)
    ensures after <= before + [n] ==> Names(after) <= Names(before) + {n}
  {
    if after <= before + [n] {
      assert forall x :: x in after ==> x in before + [n];
    }
  }

  lemma WrittenNext(changed: seq<bool>, ops: seq<Operation>, op: Operation, did: bool, id: string)
    requires |changed| == |ops|
    ensures Written(changed + [did], ops + [op], id) <==> Written(changed, ops, id) || (did && op.Id() == id)
  {
    var changed', ops' := changed + [did], ops + [op];
    if Written(changed, ops, id) {
      var j: nat :| j < |ops| && j < |changed| && changed[j] && ops[j].Id() == id;
      assert changed'[j] && ops'[j].Id() == id;
    }
    if did && op.Id() == id {
      assert changed'[|ops|] && ops'[|ops|].Id() == id;
    }
  }

  lemma ScanCovers(x: B.Index, max: nat, bucketOf: string -> string, truth: map<string, Entry>, start: seq<string>,
                   accesses: seq<string>)
    requires B.Bounded(x, max, bucketOf, truth, start, accesses) && x.dirty == map[]
    ensures forall deleted :: Outside(Ids(truth, deleted), bucketOf, x.disk.Keys) == {}
    ensures forall deleted :: Outside(Ids(truth, deleted), bucketOf, {}) == Ids(truth, deleted)
    ensures Seen(truth, bucketOf, x.disk.Keys) == map[] && Seen(truth, bucketOf, {}) == truth
  {
    B.FilesCover(x, max, bucketOf, truth, start, accesses);
  }

  lemma ScanNext(truth: map<string, Entry>, bucketOf: string -> string, bucket: Bucket, name: string, todo: set<string>)
    requires bucket == B.Slice(truth, bucketOf, name) && name in todo
    ensures forall deleted ::
      Outside(Ids(truth, deleted), bucketOf, todo) + Ids(bucket, deleted) ==
        Outside(Ids(truth, deleted), bucketOf, todo - {name})
  {
  }

  lemma NewestNext(truth: map<string, Entry>, bucketOf: string -> string, bucket: Bucket, name: string,
                   todo: set<string>,
                   newest: nat, last: nat)
    requires bucket == B.Slice(truth, bucketOf, name) && name in todo
    requires IsNewest(newest, Seen(truth, bucketOf, todo)) && IsNewest(last, bucket)
    ensures IsNewest(Max(newest, last), Seen(truth, bucketOf, todo - {name}))
  {
    var before, after := Seen(truth, bucketOf, todo), Seen(truth, bucketOf, todo - {name});
    assert forall id :: id in before ==> id in after && after[id] == before[id];
    assert forall id :: id in bucket ==> id in after && after[id] == bucket[id];
    assert forall id :: id in after ==> id in before || id in bucket;
  }

  lemma NewestStamp(truth: map<string, Entry>, segments: map<Location, Envelope>, segment: nat, bytes: nat,
                    sequence: nat, newest: nat)
    requires Located(truth, segments, segment, bytes, sequence) && IsNewest(newest, truth)
    ensures newest <= sequence
  {
    if newest > 0 {
      var id :| id in truth && truth[id].sequence == newest;
      assert LocatedAt(truth[id], id, segments, sequence);
    }
  }

  lemma OneBucket(bucketOf: string -> string, record: Record)
    ensures |Touched(bucketOf, [Put(record)], [[]] + [[]])| == 1
  {
    assert [Put(record)][0].Id() == record.id;
    assert Touched(bucketOf, [Put(record)], [[]] + [[]]) == {bucketOf(record.id)};
  }

  lemma OnePut(truth0: map<string, Entry>, docs0: Docs, sequence0: nat, truth: map<string, Entry>, docs: Docs,
               sequence: nat,
               record: Record, changed: seq<bool>, seen: seq<seq<Option<Record>>>)
    requires BatchDone(truth0, docs0, sequence0, truth, docs, sequence, [Put(record)], [[]], changed, seen)
    ensures docs == docs0[record.id := record]
    ensures forall id :: V(truth, id) > 0 <==> V(truth0, id) > 0 || id == record.id
  {
    assert [Put(record)] == [] + [Put(record)];
    ApplyAllNext(docs0, [], Put(record));
    assert changed[0] && [Put(record)][0].Id() == record.id;
    forall id ensures V(truth, id) > 0 <==> V(truth0, id) > 0 || id == record.id {
      assert VersionMoves(truth0, docs0, sequence0, truth, docs, sequence, Written(changed, [Put(record)], id), id);
    }
  }

  lemma LiveAre(truth: map<string, Entry>, segments: map<Location, Envelope>, segment: nat, bytes: nat, sequence: nat)
    requires Located(truth, segments, segment, bytes, sequence)
    ensures Ids(truth, false) == DocsOf(truth, segments).Keys
  {
    forall id ensures id in Ids(truth, false) <==> id in DocsOf(truth, segments) {
      TruthDocs(truth, segments, segment, bytes, sequence, id);
    }
  }

  lemma RecordId(truth: map<string, Entry>, segments: map<Location, Envelope>, segment: nat, bytes: nat, sequence: nat,
                 id: string)
    requires Located(truth, segments, segment, bytes, sequence) && id in DocsOf(truth, segments)
    ensures DocsOf(truth, segments)[id].id == id
  {
    assert LocatedAt(truth[id], id, segments, sequence);
  }

  lemma NoTombstones(truth: map<string, Entry>, segments: map<Location, Envelope>, segment: nat, bytes: nat,
                     sequence: nat)
    requires Located(truth, segments, segment, bytes, sequence)
    requires truth.Keys == DocsOf(truth, segments).Keys
    ensures Ids(truth, true) == {} && |Ids(truth, false)| == |DocsOf(truth, segments)|
  {
    LiveAre(truth, segments, segment, bytes, sequence);
    forall id | id in truth ensures !truth[id].deleted {
      assert LocatedAt(truth[id], id, segments, sequence);
      TruthDocs(truth, segments, segment, bytes, sequence, id);
    }
  }

  lemma CopiedOne(docs: Docs, todo: set<string>, id: string)
    requires id in todo && id in docs
    ensures (docs - todo)[id := docs[id]] == docs - (todo - {id})
  {
  }

  lemma VersionKeys(truth: map<string, Entry>, segments: map<Location, Envelope>, segment: nat, bytes: nat,
                    sequence: nat)
    requires Located(truth, segments, segment, bytes, sequence)
    ensures forall id :: V(truth, id) > 0 <==> id in truth
  {
    forall id | id in truth ensures V(truth, id) > 0 {
      assert LocatedAt(truth[id], id, segments, sequence);
    }
  }
}
