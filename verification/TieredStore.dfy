/**
 * The operations of a segment store of src/tiered-store.js on the plain map it stands for, and `BucketedOffsetIndex` as
 * a class whose loops do what the functions of BucketIndex say.
 */
module TieredStore {
  import opened Basics
  import opened Json
  import opened BucketCache
  import B = BucketIndex

  /** One line of a segment file. */
  datatype Envelope = Envelope(sequence: nat, id: string, record: Option<Record>)

  datatype Operation = Put(record: Record) | Remove(id: string) {
    function Id(): string {
      if Put? then record.id else id
    }
  }

  type Docs = map<string, Record>

  /** What one operation of a batch means for a plain map. */
  function Apply(docs: Docs, op: Operation): Docs {
    match op
    case Put(r) => docs[r.id := r]
    case Remove(id) => docs - {id}
  }

  function ApplyAll(docs: Docs, ops: seq<Operation>): Docs {
    if ops == [] then docs else Apply(ApplyAll(docs, ops[..|ops| - 1]), ops[|ops| - 1])
  }

  class BucketedOffsetIndex {
    const max: nat
    const bucketOf: string -> string
    var disk: map<string, Bucket>
    var cache: map<string, Bucket>
    var order: seq<string>

    constructor (max: nat, bucketOf: string -> string)
      ensures this.max == max && this.bucketOf == bucketOf
      ensures disk == map[] && cache == map[] && order == []
    {
      this.max, this.bucketOf := max, bucketOf;
      disk, cache, order := map[], map[], [];
    }

    ghost function With(dirty: map<string, Bucket>): B.Index
      reads this
    {
      B.Index(disk, cache, order, dirty)
    }

    /** Evicts from the old end while there are too many buckets. */
    method Evict()
      requires Distinct(order)
      modifies this`order, this`cache
      ensures order == LastN(old(order), max)
      ensures cache == Restrict(old(cache), order, old(order))
    {
      ghost var all, loaded := order, cache;
      ghost var cut := 0;
      while |order| > max
        invariant 0 <= cut <= |all| && order == all[cut..]
        invariant |all| > max ==> |order| >= max
        invariant |all| <= max ==> cut == 0
        invariant cache == Restrict(loaded, order, all)
      {
        RestrictNext(loaded, all, cut);
        cache := cache - {order[0]};
        order := order[1..];
        cut := cut + 1;
      }
    }

    /** A hit moves the bucket to the recent end; a miss reads its file and makes room. */
    method Load(name: string) returns (bucket: Bucket)
      requires B.Shape(With(map[]), max)
      modifies this
      ensures With(map[]) == B.Load(old(With(map[])), max, name)
      ensures bucket == B.Current(old(With(map[])), name)
    {
      ghost var before := With(map[]);
      if name in cache {
        bucket := cache[name];
        HitLoad(before, max, name);
        order := Without(order, name) + [name];
      } else {
        bucket := if name in disk then disk[name] else map[];
        MissLoad(before, max, name);
        cache := cache[name := bucket];
        order := order + [name];
        Evict();
      }
    }

    method Get(id: string) returns (e: Option<Entry>)
      requires B.Shape(With(map[]), max)
      modifies this
      ensures With(map[]) == B.Load(old(With(map[])), max, bucketOf(id))
      ensures e == Lookup(B.Current(old(With(map[])), bucketOf(id)), id)
    {
      var bucket := Load(bucketOf(id));
      e := if id in bucket then Some(bucket[id]) else None;
    }

    method Set(id: string, e: Entry, ghost dirty: map<string, Bucket>) returns (name: string, bucket: Bucket)
      requires B.Shape(With(map[]), max)
      modifies this
      ensures name == bucketOf(id) && bucket == B.Current(old(With(map[])), name)[id := e]
      ensures With(dirty[name := bucket]) == B.Set(old(With(dirty)), max, name, id, e)
    {
      name := bucketOf(id);
      bucket := Load(name);
      bucket := bucket[id := e];
      cache := cache[name := bucket];
    }

    method ClearCache()
      modifies this`cache, this`order
      ensures cache == map[] && order == []
    {
      cache, order := map[], [];
    }

    /** One file per dirty bucket. */
    method Persist(dirty: map<string, Bucket>)
      modifies this`disk
      ensures With(map[]) == B.Persist(old(With(dirty)))
    {
      var todo := dirty.Keys;
      ghost var before := disk;
      while todo != {}
        invariant todo <= dirty.Keys
        invariant disk == before + (dirty - todo)
        decreases todo
      {
        var n :| n in todo;
        PersistOne(before, dirty, todo, n);
        disk := disk[n := dirty[n]];
        todo := todo - {n};
      }
      assert dirty - {} == dirty;
    }
  }

  lemma PersistOne(disk: map<string, Bucket>, dirty: map<string, Bucket>, todo: set<string>, n: string)
    requires n in todo && n in dirty
    ensures (disk + (dirty - todo))[n := dirty[n]] == disk + (dirty - (todo - {n}))
  {
  }

  /** The cached buckets whose names are still in the recency order. */
  ghost function Restrict(cache: map<string, Bucket>, order: seq<string>, all: seq<string>): map<string, Bucket> {
    map n | n in cache && (n in order || n !in all) :: cache[n]
  }

  lemma RestrictNext(cache: map<string, Bucket>, all: seq<string>, cut: nat)
    requires Distinct(all) && cut < |all|
    ensures Restrict(cache, all[cut..], all) - {all[cut]} == Restrict(cache, all[cut + 1..], all)
  {
    assert all[cut..] == [all[cut]] + all[cut + 1..];
  }

  lemma HitLoad(x: B.Index, max: nat, name: string)
    requires B.Shape(x, max) && name in x.cache
    ensures B.Load(x, max, name) == x.(order := Without(x.order, name) + [name])
  {
    hide Without;
    assert name in Names(x.order);
    var i :| 0 <= i < |x.order| && x.order[i] == name;
    WithoutAt(x.order, i);
    HitKeys(x.order, x.cache, name);
  }

  lemma HitKeys(order: seq<string>, cache: map<string, Bucket>, name: string)
    requires Names(order) == cache.Keys && name in cache
    ensures var moved := Without(order, name) + [name];
      cache[name := cache[name]] == cache && cache == map n | n in moved && n in cache :: cache[n]
  {
    hide Without;
    var moved := Without(order, name) + [name];
    forall n | n in cache ensures n in moved {
      assert n in Names(order);
      WithoutMember(order, name, n);
    }
  }

  lemma MissLoad(x: B.Index, max: nat, name: string)
    requires B.Shape(x, max) && name !in x.cache
    ensures Distinct(x.order + [name])
    ensures var order, loaded := LastN(x.order + [name], max), x.cache[name := B.OnDisk(x, name)];
      B.Load(x, max, name) == x.(order := order, cache := Restrict(loaded, order, x.order + [name]))
  {
    hide Without, LastN, B.OnDisk;
    assert name !in Names(x.order);
    WithoutAbsent(x.order, name);
    assert B.Current(x, name) == B.OnDisk(x, name);
    var order, loaded := LastN(x.order + [name], max), x.cache[name := B.OnDisk(x, name)];
    MissKeys(x.order, x.cache, loaded, name);
    RestrictListed(loaded, order, x.order + [name]);
  }

  lemma MissKeys(order: seq<string>, cache: map<string, Bucket>, loaded: map<string, Bucket>, name: string)
    requires Names(order) == cache.Keys && loaded.Keys == cache.Keys + {name}
    ensures forall n :: n in loaded ==> n in order + [name]
  {
    assert (order + [name])[|order|] == name;
    forall n | n in loaded ensures n in order + [name] {
      assert n != name ==> n in Names(order);
    }
  }

  lemma RestrictListed(cache: map<string, Bucket>, order: seq<string>, all: seq<string>)
    requires forall n :: n in cache ==> n in all
    ensures Restrict(cache, order, all) == map n | n in order && n in cache :: cache[n]
  {
  }
}
