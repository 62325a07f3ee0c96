/** `ConsistentHashRing` of src/sharding.js: building the ring, the binary search, and what moves when shards change. */
module HashRing {
  import opened Basics
  import opened Ordering
  import opened CanonicalKeys

  datatype Point = Point(hash: nat, shardId: string)

  /** The comparator of the ring's sort: by hash, then by shard. */
  predicate Below(a: Point, b: Point) {
    a.hash < b.hash || (a.hash == b.hash && Less(a.shardId, b.shardId))
  }

  ghost predicate Ascending(points: seq<Point>) {
    forall i, j :: 0 <= i < j < |points| ==> !Below(points[j], points[i])
  }

  function Label(shardId: string, i: nat): string {
    shardId + ":" + Decimal(i)
  }

  /** The points of the ring: `virtualNodes` for each shard. */
  function Points(shardIds: set<string>, virtualNodes: nat, hash: string -> nat): set<Point> {
    set id, i | id in shardIds && 0 <= i < virtualNodes :: Point(hash(Label(id, i)), id)
  }

  // ---------------------------------------------------------------- the specification

  /** Going round from h, a comes before b: points at or after h first, each part by the comparator. */
  predicate Sooner(h: nat, a: Point, b: Point) {
    if (a.hash >= h) != (b.hash >= h) then a.hash >= h else Below(a, b)
  }

  /** p is the first of the points going round from h. */
  ghost predicate FirstFrom(points: set<Point>, h: nat, p: Point) {
    p in points && forall q :: q in points ==> q == p || Sooner(h, p, q)
  }

  lemma SoonerAsymmetric(h: nat, a: Point, b: Point)
    ensures !(Sooner(h, a, b) && Sooner(h, b, a))
  {
    if Less(a.shardId, b.shardId) && Less(b.shardId, a.shardId) {
      LessTransitive(a.shardId, b.shardId, a.shardId);
      LessIrreflexive(a.shardId);
    }
  }

  lemma BelowTotal(a: Point, b: Point)
    ensures a == b || Below(a, b) || Below(b, a)
  {
    LessTotal(a.shardId, b.shardId);
  }

  lemma FirstUnique(points: set<Point>, h: nat, p: Point, q: Point)
    requires FirstFrom(points, h, p) && FirstFrom(points, h, q)
    ensures p == q
  {
    SoonerAsymmetric(h, p, q);
  }

  /** Shard s owns hash h: some point of s is the first going round from h. */
  ghost predicate Owns(points: set<Point>, h: nat, s: string) {
    exists p :: FirstFrom(points, h, p) && p.shardId == s
  }

  lemma OneOwner(points: set<Point>, h: nat, s: string, t: string)
    requires Owns(points, h, s) && Owns(points, h, t)
    ensures s == t
  {
    var p :| FirstFrom(points, h, p) && p.shardId == s;
    var q :| FirstFrom(points, h, q) && q.shardId == t;
    FirstUnique(points, h, p, q);
  }

  // ---------------------------------------------------------------- building the ring

  function IdsOf(ids: seq<string>): set<string> {
    set id | id in ids
  }

  function InsertPoint(p: Point, points: seq<Point>): seq<Point> {
    if points == [] then [p]
    else if Below(p, points[0]) then [p] + points
    else [points[0]] + InsertPoint(p, points[1..])
  }

  lemma NotBelowTransitive(a: Point, b: Point, c: Point)
    requires !Below(b, a) && !Below(c, b)
    ensures !Below(c, a)
  {
    BelowTotal(a, b);
    BelowTotal(b, c);
    if Below(c, a) {
      if c.hash == a.hash && a.shardId != b.shardId && b.shardId != c.shardId && a.hash == b.hash {
        LessTransitive(a.shardId, b.shardId, c.shardId);
        LessTransitive(c.shardId, a.shardId, c.shardId);
      }
      LessIrreflexive(a.shardId);
      LessIrreflexive(c.shardId);
    }
  }

  lemma BelowAsymmetric(a: Point, b: Point)
    ensures !(Below(a, b) && Below(b, a))
  {
    SoonerAsymmetric(0, a, b);
  }

  lemma {:induction false} InsertAscends(p: Point, points: seq<Point>)
    requires Ascending(points)
    ensures Ascending(InsertPoint(p, points))
    ensures forall q :: q in InsertPoint(p, points) <==> q == p || q in points
    ensures |InsertPoint(p, points)| == |points| + 1
  {
    hide Below;
    if points != [] {
      var first, rest := points[0], points[1..];
      assert points == [first] + rest;
      if Below(p, first) {
        BelowAsymmetric(p, first);
        forall j | 0 <= j < |points| ensures !Below(points[j], p) {
          if j > 0 {
            NotBelowTransitive(p, first, points[j]);
          }
        }
      } else {
        InsertAscends(p, rest);
        var r := InsertPoint(p, rest);
        forall j | 0 <= j < |r| ensures !Below(r[j], first) {
          assert r[j] in r;
          if r[j] != p {
            var k :| 0 <= k < |rest| && rest[k] == r[j];
            assert points[k + 1] == r[j];
          }
        }
      }
    }
  }

  class ConsistentHashRing {
    const virtualNodes: nat
    const hash: string -> nat
    var shardIds: set<string>
    var points: seq<Point>

    ghost predicate Valid()
      reads this
    {
      && Ascending(points)
      && (forall p :: p in points <==> p in Points(shardIds, virtualNodes, hash))
      && points != []
    }

    /** Fills the points of every shard, in any order of the shards, sorted. */
    constructor (ids: seq<string>, virtualNodes: nat, hash: string -> nat)
      requires ids != [] && 1 <= virtualNodes <= 4096
      requires forall i, j :: 0 <= i < j < |ids| ==> ids[i] != ids[j]
      ensures Valid() && shardIds == IdsOf(ids) && this.virtualNodes == virtualNodes && this.hash == hash
    {
      this.virtualNodes, this.hash := virtualNodes, hash;
      shardIds := IdsOf(ids);
      points := [];
      new;
      for k := 0 to |ids|
        invariant Ascending(points) && shardIds == IdsOf(ids)
        invariant forall p :: p in points <==> p in Points(IdsOf(ids[..k]), virtualNodes, hash)
      {
        ghost var before := points;
        for i := 0 to virtualNodes
          invariant Ascending(points) && shardIds == IdsOf(ids)
          invariant forall p :: p in points <==> p in before || p in ShardPoints(ids[k], i, hash)
        {
          InsertAscends(Point(hash(Label(ids[k], i)), ids[k]), points);
          points := InsertPoint(Point(hash(Label(ids[k], i)), ids[k]), points);
          SomeNext(ids[k], i, hash);
        }
        PointsNext(ids, k, virtualNodes, hash);
      }
      assert ids[..|ids|] == ids;
      Inhabited(ids, virtualNodes, hash);
    }

    /**
     * `locate`: the lowest point whose hash is at least the key's, or the first point of all; None for an empty key.
     */
    method Locate(key: string) returns (s: Option<string>)
      requires Valid()
      ensures s.None? <==> key == ""
      ensures s.Some? ==> Owns(Points(shardIds, virtualNodes, hash), hash(key), s.value)
    {
      hide Points;
      if key == "" {
        return None;
      }
      var h := hash(key);
      var low, high := 0, |points|;
      while low < high
        invariant 0 <= low <= high <= |points|
        invariant forall i :: 0 <= i < low ==> points[i].hash < h
        invariant forall i :: high <= i < |points| ==> points[i].hash >= h
      {
        var mid := (low + high) / 2;
        if points[mid].hash < h {
          HashesAscend(points);
          low := mid + 1;
        } else {
          HashesAscend(points);
          high := mid;
        }
      }
      var p := points[if low == |points| then 0 else low];
      FoundFirst(points, Points(shardIds, virtualNodes, hash), h, low);
      s := Some(p.shardId);
    }
  }

  /** The points of one shard so far. */
  function ShardPoints(id: string, n: nat, hash: string -> nat): set<Point> {
    set i | 0 <= i < n :: Point(hash(Label(id, i)), id)
  }

  lemma SomeNext(id: string, n: nat, hash: string -> nat)
    ensures ShardPoints(id, n + 1, hash) == ShardPoints(id, n, hash) + {Point(hash(Label(id, n)), id)}
  {
    hide Label;
  }

  lemma PointsNext(ids: seq<string>, k: nat, virtualNodes: nat, hash: string -> nat)
    requires k < |ids|
    ensures Points(IdsOf(ids[..k + 1]), virtualNodes, hash) ==
      Points(IdsOf(ids[..k]), virtualNodes, hash) + ShardPoints(ids[k], virtualNodes, hash)
  {
    hide Label;
    assert ids[..k + 1] == ids[..k] + [ids[k]];
  }

  lemma Inhabited(ids: seq<string>, virtualNodes: nat, hash: string -> nat)
    requires ids != [] && virtualNodes >= 1
    ensures Point(hash(Label(ids[0], 0)), ids[0]) in Points(IdsOf(ids), virtualNodes, hash)
  {
    hide Label;
  }

  lemma HashesAscend(points: seq<Point>)
    requires Ascending(points)
    ensures forall i, j :: 0 <= i <= j < |points| ==> points[i].hash <= points[j].hash
  {
    forall i, j | 0 <= i < j < |points| ensures points[i].hash <= points[j].hash {
      assert !Below(points[j], points[i]);
    }
  }

  /** Where the search stops is the first point going round from h. */
  lemma FoundFirst(points: seq<Point>, all: set<Point>, h: nat, low: nat)
    requires Ascending(points) && points != [] && low <= |points| && forall p :: p in points <==> p in all
    requires forall i :: 0 <= i < low ==> points[i].hash < h
    requires forall i :: low <= i < |points| ==> points[i].hash >= h
    ensures FirstFrom(all, h, points[if low == |points| then 0 else low])
  {
    var at := if low == |points| then 0 else low;
    var p := points[at];
    assert p in points;
    forall q | q in all ensures q == p || Sooner(h, p, q) {
      assert q in points;
      var i :| 0 <= i < |points| && points[i] == q;
      BelowTotal(p, q);
      if at < i {
        assert !Below(points[i], points[at]);
      }
    }
  }

  // ---------------------------------------------------------------- changing the shards

  lemma PointsAdd(shardIds: set<string>, s: string, virtualNodes: nat, hash: string -> nat)
    ensures Points(shardIds + {s}, virtualNodes, hash) ==
      Points(shardIds, virtualNodes, hash) + ShardPoints(s, virtualNodes, hash)
  {
    hide Label;
  }

  /** Adding a shard only moves keys onto it: a hash keeps its owner or goes to the new shard. */
  lemma AddMovesOnlyToNew(shardIds: set<string>, s: string, virtualNodes: nat, hash: string -> nat, h: nat,
                          owner: string, owner': string)
    requires Owns(Points(shardIds, virtualNodes, hash), h, owner)
    requires Owns(Points(shardIds + {s}, virtualNodes, hash), h, owner')
    ensures owner' == owner || owner' == s
  {
    hide Points, ShardPoints;
    PointsAdd(shardIds, s, virtualNodes, hash);
    var before, after := Points(shardIds, virtualNodes, hash), Points(shardIds + {s}, virtualNodes, hash);
    var p :| FirstFrom(after, h, p) && p.shardId == owner';
    if p in before {
      assert FirstFrom(before, h, p);
      OneOwner(before, h, owner, owner');
    } else {
      SomeShard(s, virtualNodes, hash, p);
    }
  }

  lemma SomeShard(s: string, virtualNodes: nat, hash: string -> nat, p: Point)
    requires p in ShardPoints(s, virtualNodes, hash)
    ensures p.shardId == s
  {
  }

  /** Removing a shard only moves its own keys: a hash owned by another shard keeps its owner. */
  lemma RemoveMovesOnlyOwn(shardIds: set<string>, s: string, virtualNodes: nat, hash: string -> nat, h: nat,
                           owner: string)
    requires s in shardIds && Owns(Points(shardIds, virtualNodes, hash), h, owner) && owner != s
    ensures Owns(Points(shardIds - {s}, virtualNodes, hash), h, owner)
  {
    hide Points, ShardPoints;
    var rest := shardIds - {s};
    assert rest + {s} == shardIds;
    PointsAdd(rest, s, virtualNodes, hash);
    var p :| FirstFrom(Points(shardIds, virtualNodes, hash), h, p) && p.shardId == owner;
    if p in ShardPoints(s, virtualNodes, hash) {
      SomeShard(s, virtualNodes, hash, p);
    }
    assert FirstFrom(Points(rest, virtualNodes, hash), h, p);
  }
}
