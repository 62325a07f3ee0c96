/** `TokenBucketLimiter` of src/resource-control.js over reals: how much one key can spend in any window of time. */
module RateLimiter {
  import opened Basics

  datatype Bucket = Bucket(tokens: real, at: real, touched: real)

  datatype Limits = Limits(capacity: real, rate: real) {
    ghost predicate Ok() {
      capacity > 0.0 && rate > 0.0
    }
  }

  datatype Answer = Allowed | Refused(retryAfterMs: int)

  function Ceil(x: real): int {
    if x.Floor as real == x then x.Floor else x.Floor + 1
  }

  function Refill(l: Limits, b: Bucket, now: real): Bucket {
    var elapsed := if now - b.at > 0.0 then now - b.at else 0.0;
    var tokens := b.tokens + elapsed * l.rate;
    Bucket(if tokens < l.capacity then tokens else l.capacity, now, now)
  }

  /** One request of a tracked key. */
  function Spend(l: Limits, b: Bucket, now: real, cost: real): (Bucket, Answer)
    requires l.rate > 0.0
  {
    var r := Refill(l, b, now);
    if r.tokens < cost then (r, Refused(Ceil((cost - r.tokens) / l.rate)))
    else (r.(tokens := r.tokens - cost), Allowed)
  }

  datatype Call = Call(now: real, cost: real)

  /** The bucket after a run of calls. */
  function After(l: Limits, b: Bucket, calls: seq<Call>): Bucket
    requires l.rate > 0.0
  {
    if calls == [] then b
    else
      var last := calls[|calls| - 1];
      Spend(l, After(l, b, calls[..|calls| - 1]), last.now, last.cost).0
  }

  /** The cost admitted by a run of calls. */
  function Admitted(l: Limits, b: Bucket, calls: seq<Call>): real
    requires l.rate > 0.0
  {
    if calls == [] then 0.0
    else
      var init, last := calls[..|calls| - 1], calls[|calls| - 1];
      Admitted(l, b, init) + if Spend(l, After(l, b, init), last.now, last.cost).1.Allowed? then last.cost else 0.0
  }

  /** A monotone clock that starts no earlier than the bucket's own time. */
  ghost predicate Monotone(start: real, calls: seq<Call>) {
    (forall i :: 0 <= i < |calls| ==> start <= calls[i].now)
    && (forall i, j :: 0 <= i < j < |calls| ==> calls[i].now <= calls[j].now)
  }

  /** What a stretch of time refills. */
  function Gain(rate: real, elapsed: real): real {
    elapsed * rate
  }

  lemma GainAdds(rate: real, x: real, y: real)
    ensures Gain(rate, x + y) == Gain(rate, x) + Gain(rate, y)
  {
  }

  lemma GainPositive(rate: real, x: real)
    requires rate > 0.0 && x >= 0.0
    ensures Gain(rate, x) >= 0.0
  {
  }

  /** One call: what is spent and left is at most what was there and what the time since has refilled. */
  lemma SpendGains(l: Limits, b: Bucket, now: real, cost: real)
    requires l.Ok() && 0.0 <= b.tokens <= l.capacity && b.at <= now && 0.0 < cost
    ensures var (c, answer) := Spend(l, b, now, cost);
      && 0.0 <= c.tokens <= l.capacity && c.at == now
      && (if answer.Allowed? then cost else 0.0) + c.tokens <= b.tokens + Gain(l.rate, now - b.at)
  {
    GainPositive(l.rate, now - b.at);
  }

  /** What a run spends and leaves never exceeds what was there and what time has brought. */
  lemma {:induction false} Potential(l: Limits, b: Bucket, calls: seq<Call>)
    requires l.Ok() && 0.0 <= b.tokens <= l.capacity && Monotone(b.at, calls)
    requires forall i :: 0 <= i < |calls| ==> 0.0 < calls[i].cost
    ensures var c := After(l, b, calls);
      && 0.0 <= c.tokens <= l.capacity
      && c.at == (if calls == [] then b.at else calls[|calls| - 1].now)
      && Admitted(l, b, calls) + c.tokens <= b.tokens + Gain(l.rate, c.at - b.at)
  {
    hide Gain, Spend;
    if calls == [] {
      NoTime(l.rate);
    } else {
      var init, last := calls[..|calls| - 1], calls[|calls| - 1];
      Potential(l, b, init);
      var c := After(l, b, init);
      assert c.at <= last.now;
      SpendGains(l, c, last.now, last.cost);
      GainAdds(l.rate, c.at - b.at, last.now - c.at);
    }
  }

  lemma NoTime(rate: real)
    ensures Gain(rate, 0.0) == 0.0
  {
  }

  /**
   * In any window of calls of a tracked key, however full the bucket was at its start, the cost admitted is at most the
   * capacity and what the window's length refills.
   */
  lemma WindowBound(l: Limits, b: Bucket, calls: seq<Call>)
    requires l.Ok() && 0.0 <= b.tokens <= l.capacity && Monotone(b.at, calls) && calls != []
    requires forall i :: 0 <= i < |calls| ==> 0.0 < calls[i].cost
    ensures Admitted(l, b, calls) <= l.capacity + Gain(l.rate, calls[|calls| - 1].now - calls[0].now)
  {
    hide Gain, Admitted, After, Refill;
    var start := Refill(l, b, calls[0].now);
    RefillBounds(l, b, calls[0].now);
    SameStart(l, b, start, calls);
    Potential(l, start, calls);
  }

  lemma RefillBounds(l: Limits, b: Bucket, now: real)
    requires l.Ok() && 0.0 <= b.tokens <= l.capacity
    ensures 0.0 <= Refill(l, b, now).tokens <= l.capacity && Refill(l, b, now).at == now
  {
    GainPositive(l.rate, if now - b.at > 0.0 then now - b.at else 0.0);
  }

  /** Only the bucket as the first call finds it after refilling matters. */
  lemma {:induction false} SameStart(l: Limits, b: Bucket, start: Bucket, calls: seq<Call>)
    requires l.Ok() && calls != [] && start == Refill(l, b, calls[0].now) && b.tokens <= l.capacity
    ensures After(l, start, calls) == After(l, b, calls) && Admitted(l, start, calls) == Admitted(l, b, calls)
  {
    var init := calls[..|calls| - 1];
    if init == [] {
      var first := calls[0];
      assert Refill(l, start, first.now) == start;
      assert calls == [first];
      assert After(l, b, init) == b && After(l, start, init) == start;
      assert Admitted(l, b, init) == 0.0 == Admitted(l, start, init);
    } else {
      SameStart(l, b, start, init);
    }
  }

  /**
   * After a refusal and nothing else, the same request is admitted exactly when at least `retryAfterMs` have passed.
   */
  lemma RetryAfterExact(l: Limits, b: Bucket, now: real, cost: real, wait: nat)
    requires l.Ok() && 0.0 <= b.tokens <= l.capacity && b.at <= now && 0.0 < cost <= l.capacity
    requires Spend(l, b, now, cost).1.Refused?
    ensures var (c, answer) := Spend(l, b, now, cost);
      Spend(l, c, now + wait as real, cost).1.Allowed? <==> wait >= answer.retryAfterMs
  {
    var (c, answer) := Spend(l, b, now, cost);
    var need := (cost - c.tokens) / l.rate;
    assert need * l.rate == cost - c.tokens;
    var w := wait as real;
    assert w >= need <==> wait >= Ceil(need) by { CeilIs(need, wait); }
    Scale(w, need, l.rate);
    assert c.tokens + w * l.rate >= cost <==> w >= need;
  }

  lemma Scale(x: real, y: real, rate: real)
    requires rate > 0.0
    ensures x * rate >= y * rate <==> x >= y
  {
    assert (x - y) * rate == x * rate - y * rate;
    if x >= y {
      assert (x - y) * rate >= 0.0;
    } else {
      assert (y - x) * rate > 0.0;
    }
  }

  lemma CeilIs(x: real, n: int)
    ensures n as real >= x <==> n >= Ceil(x)
  {
  }

  // ---------------------------------------------------------------- the limiter

  ghost predicate Oldest(buckets: map<string, Bucket>, k: string)
    requires k in buckets
  {
    forall x :: x in buckets ==> buckets[k].touched <= buckets[x].touched
  }

  /** A request with a key and a cost that `consume` accepts. */
  datatype Use = Use(key: string, now: real, cost: real)

  predicate UseOk(l: Limits, u: Use) {
    u.key != "" && 0.0 < u.cost <= l.capacity
  }

  /** The buckets when the key's own is looked up or made: a new key may cost one touched least recently its bucket. */
  ghost predicate Room(max: nat, before: map<string, Bucket>, key: string, room: map<string, Bucket>) {
    if key in before || |before| < max then room == before
    else exists k :: k in before && Oldest(before, k) && room == before - {k}
  }

  /** The bucket a request spends from: the key's own, or a full one. */
  function Source(l: Limits, before: map<string, Bucket>, u: Use): Bucket {
    if u.key in before then before[u.key] else Bucket(l.capacity, u.now, u.now)
  }

  /** One request, from buckets to buckets. */
  ghost predicate Consumed(l: Limits, max: nat, before: map<string, Bucket>, u: Use, after: map<string, Bucket>,
                           answer: Answer)
    requires l.rate > 0.0
  {
    var (b, r) := Spend(l, Source(l, before, u), u.now, u.cost);
    answer == r && exists room :: Room(max, before, u.key, room) && after == room[u.key := b]
  }

  class TokenBucketLimiter {
    const limits: Limits
    const maxKeys: nat
    var buckets: map<string, Bucket>

    ghost predicate Valid()
      reads this
    {
      limits.Ok() && maxKeys >= 1 && |buckets| <= maxKeys
      && forall k :: k in buckets ==> 0.0 <= buckets[k].tokens <= limits.capacity
    }

    constructor (limits: Limits, maxKeys: nat)
      requires limits.Ok() && maxKeys >= 1
      ensures Valid() && buckets == map[] && this.limits == limits && this.maxKeys == maxKeys
    {
      this.limits, this.maxKeys, buckets := limits, maxKeys, map[];
    }

    /** `#evictOldest`: a key touched least recently goes. */
    method EvictOldest()
      requires Valid() && buckets != map[]
      modifies this
      ensures Valid() && |buckets| == |old(buckets)| - 1
      ensures exists k :: k in old(buckets) && buckets == old(buckets) - {k} && Oldest(old(buckets), k)
    {
      var todo := buckets.Keys;
      var oldest :| oldest in todo;
      todo := todo - {oldest};
      while todo != {}
        invariant todo <= buckets.Keys && oldest in buckets
        invariant forall x :: x in buckets && x !in todo ==> buckets[oldest].touched <= buckets[x].touched
        decreases todo
      {
        var k :| k in todo;
        if buckets[k].touched < buckets[oldest].touched {
          oldest := k;
        }
        todo := todo - {k};
      }
      assert (buckets - {oldest}).Keys == buckets.Keys - {oldest};
      buckets := buckets - {oldest};
    }

    /** A key not tracked so far gets a full bucket; when there are too many, one touched least recently goes first. */
    method Track(key: string, now: real)
      requires Valid() && key !in buckets
      modifies this
      ensures Valid()
      ensures var full := Bucket(limits.capacity, now, now);
        if |old(buckets)| < maxKeys then buckets == old(buckets)[key := full]
        else exists k :: k in old(buckets) && buckets == (old(buckets) - {k})[key := full] && Oldest(old(buckets), k)
    {
      if |buckets| >= maxKeys {
        EvictOldest();
      }
      assert buckets.Keys + {key} == buckets[key := Bucket(limits.capacity, now, now)].Keys;
      buckets := buckets[key := Bucket(limits.capacity, now, now)];
    }

    /**
     * `consume`; None for an empty key or an invalid cost. A tracked key spends from its bucket and no other bucket
     * changes; a new key spends from a full one, for which a key touched least recently may have to go.
     */
    method Consume(key: string, cost: real, now: real) returns (answer: Option<Answer>)
      requires Valid()
      modifies this
      ensures Valid()
      ensures answer.None? <==> key == "" || cost <= 0.0 || cost > limits.capacity
      ensures answer.None? ==> buckets == old(buckets)
      ensures answer.Some? ==> Consumed(limits, maxKeys, old(buckets), Use(key, now, cost), buckets, answer.value)
      ensures answer.Some? && key in old(buckets) ==>
        var (b, r) := Spend(limits, old(buckets)[key], now, cost);
        answer == Some(r) && buckets == old(buckets)[key := b]
      ensures answer.Some? && key !in old(buckets) ==>
        var (b, r) := Spend(limits, Bucket(limits.capacity, now, now), now, cost);
        && answer == Some(r) && r.Allowed?
        && if |old(buckets)| < maxKeys then buckets == old(buckets)[key := b]
           else exists k :: k in old(buckets) && buckets == (old(buckets) - {k})[key := b] && Oldest(old(buckets), k)
    {
      if key == "" || cost <= 0.0 || cost > limits.capacity {
        return None;
      }
      if key !in buckets {
        Track(key, now);
      }
      var bucket := buckets[key];
      ghost var room := if key in old(buckets) then buckets else buckets - {key};
      assert Room(maxKeys, old(buckets), key, room) by { RoomMade(maxKeys, old(buckets), key, bucket, buckets, room); }
      SpendBounds(limits, bucket, now, cost);
      var (b, r) := Spend(limits, bucket, now, cost);
      assert buckets[key := b].Keys == buckets.Keys;
      buckets := buckets[key := b];
      answer := Some(r);
    }
  }

  lemma SpendBounds(l: Limits, b: Bucket, now: real, cost: real)
    requires l.Ok() && 0.0 <= b.tokens <= l.capacity && cost > 0.0
    ensures 0.0 <= Spend(l, b, now, cost).0.tokens <= l.capacity
  {
    var elapsed := if now - b.at > 0.0 then now - b.at else 0.0;
    assert elapsed * l.rate >= 0.0;
  }

  lemma RoomMade(max: nat, before: map<string, Bucket>, key: string, full: Bucket, made: map<string, Bucket>,
                 room: map<string, Bucket>)
    requires if key in before then made == before && room == made else room == made - {key}
    requires key !in before ==>
      if |before| < max then made == before[key := full]
      else exists k :: k in before && made == (before - {k})[key := full] && Oldest(before, k)
    ensures Room(max, before, key, room)
  {
    if key !in before && |before| >= max {
      var k :| k in before && made == (before - {k})[key := full] && Oldest(before, k);
      assert room == before - {k};
    } else if key !in before {
      assert room == before;
    }
  }
}
