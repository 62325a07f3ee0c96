/**
 * Runs of `TokenBucketLimiter` in src/resource-control.js over many keys: exactly which keys stay tracked, what each
 * may spend meanwhile, and that a key which does not stay tracked may spend twice.
 */
module RateLimiterRuns {
  import opened BucketCache
  import opened RateLimiter

  type Buckets = map<string, RateLimiter.Bucket>

  ghost predicate Run(l: Limits, max: nat, states: seq<Buckets>, answers: seq<Answer>, uses: seq<Use>)
    requires l.rate > 0.0
  {
    && |states| == |uses| + 1 && |answers| == |uses| && states[0] == map[]
    && (forall i ::
         0 <= i < |uses| ==> UseOk(l, uses[i]) && Consumed(l, max, states[i], uses[i], states[i + 1], answers[i]))
  }

  ghost predicate Rising(uses: seq<Use>) {
    forall i, j :: 0 <= i < j < |uses| ==> uses[i].now < uses[j].now
  }

  /** A clock that never goes back. */
  ghost predicate Steady(uses: seq<Use>) {
    forall i, j :: 0 <= i < j < |uses| ==> uses[i].now <= uses[j].now
  }

  function Keys(uses: seq<Use>): (r: seq<string>)
    ensures |r| == |uses| && forall i :: 0 <= i < |r| ==> r[i] == uses[i].key
  {
    seq(|uses|, i requires 0 <= i < |uses| => uses[i].key)
  }

  lemma KeysSnoc(uses: seq<Use>, n: nat)
    requires n < |uses|
    ensures Keys(uses[..n + 1]) == Keys(uses[..n]) + [uses[n].key]
    ensures Keys(uses[..n + 1])[..n] == Keys(uses[..n])
  {
  }

  // ---------------------------------------------------------------- which keys stay tracked

  ghost predicate Ascending(buckets: Buckets, order: seq<string>) {
    && (forall k :: k in order ==> k in buckets)
    && (forall i, j :: 0 <= i < j < |order| ==> buckets[order[i]].touched < buckets[order[j]].touched)
  }

  /** The tracked keys in the order in which they were last used. */
  ghost predicate Ordered(max: nat, buckets: Buckets, order: seq<string>, last: real) {
    && |order| <= max && Ascending(buckets, order)
    && (forall k :: k in buckets ==> k in order && buckets[k].touched <= last)
  }

  lemma OrderedDistinct(buckets: Buckets, order: seq<string>)
    requires Ascending(buckets, order)
    ensures Distinct(order)
  {
  }

  lemma OrderedCount(max: nat, buckets: Buckets, order: seq<string>, last: real)
    requires Ordered(max, buckets, order, last)
    ensures |order| == |buckets| && Distinct(order)
  {
    OrderedDistinct(buckets, order);
    NamesCount(order);
    assert Names(order) == buckets.Keys;
    assert |buckets| == |buckets.Keys|;
  }

  /** The only key touched least recently is the first. */
  lemma OldestFirst(max: nat, buckets: Buckets, order: seq<string>, last: real, k: string)
    requires Ordered(max, buckets, order, last) && k in buckets && Oldest(buckets, k)
    ensures order != [] && k == order[0]
  {
    var i :| 0 <= i < |order| && order[i] == k;
    assert order[0] in order;
  }

  /** Taking a key out of the order keeps the rest ascending. */
  lemma Taken(buckets: Buckets, order: seq<string>, i: nat)
    requires Ascending(buckets, order) && i < |order|
    ensures var rest := order[..i] + order[i + 1..];
      Ascending(buckets, rest) && forall k :: k in rest <==> k in order && k != order[i]
  {
    OrderedDistinct(buckets, order);
    var rest := order[..i] + order[i + 1..];
    forall k ensures k in rest <==> k in order && k != order[i] {
      if k in order && k != order[i] {
        var j :| 0 <= j < |order| && order[j] == k;
        assert rest[if j < i then j else j - 1] == k;
      }
    }
  }

  /** A key that is not in the order joins it at the end. */
  lemma Joins(max: nat, buckets: Buckets, order: seq<string>, last: real, key: string, b: RateLimiter.Bucket)
    requires |order| < max && Ascending(buckets, order) && key !in order && last < b.touched
    requires forall k :: k in buckets ==> (k == key || k in order) && buckets[k].touched <= last
    ensures Ordered(max, buckets[key := b], order + [key], b.touched)
  {
    var after, all := buckets[key := b], order + [key];
    forall i, j | 0 <= i < j < |all|
      ensures all[i] in after && all[j] in after && after[all[i]].touched < after[all[j]].touched
    {
      assert all[i] == order[i] && all[i] in order;
      assert j < |order| ==> all[j] == order[j] && all[j] in order;
    }
    forall k | k in after ensures k in all && after[k].touched <= b.touched {
      assert k == key ==> all[|order|] == k;
      assert k in order ==> k in all;
    }
  }

  lemma TouchedLast(max: nat, buckets: Buckets, order: seq<string>, last: real, key: string, b: RateLimiter.Bucket)
    requires Ordered(max, buckets, order, last) && last < b.touched
    requires key in buckets || |order| < max
    ensures Ordered(max, buckets[key := b], Without(order, key) + [key], b.touched)
  {
    hide Without;
    if key in order {
      var i :| 0 <= i < |order| && order[i] == key;
      OrderedDistinct(buckets, order);
      WithoutAt(order, i);
      Taken(buckets, order, i);
      hide Ascending;
      Joins(max, buckets, order[..i] + order[i + 1..], last, key, b);
    } else {
      WithoutAbsent(order, key);
      Joins(max, buckets, order, last, key, b);
    }
  }

  lemma FewerBuckets(buckets: Buckets, order: seq<string>, gone: string)
    requires Ascending(buckets, order) && gone !in order
    ensures Ascending(buckets - {gone}, order)
  {
    assert forall i :: 0 <= i < |order| ==> order[i] in order;
  }

  lemma FirstGone(max: nat, buckets: Buckets, order: seq<string>, last: real)
    requires Ordered(max, buckets, order, last) && order != []
    ensures Ordered(max, buckets - {order[0]}, order[1..], last)
  {
    hide Ascending;
    Taken(buckets, order, 0);
    assert order[..0] + order[1..] == order[1..];
    FewerBuckets(buckets, order[1..], order[0]);
  }

  /** One request moves its key to the end of the order, and drops the first key when there are too many. */
  lemma ConsumedOrdered(l: Limits, max: nat, before: Buckets, order: seq<string>, last: real, u: Use, after: Buckets,
                        answer: Answer)
    requires l.rate > 0.0 && max >= 1 && Ordered(max, before, order, last) && last < u.now
    requires Consumed(l, max, before, u, after, answer)
    ensures Ordered(max, after, Touch(order, u.key, max), u.now)
  {
    hide Ordered, Room, Touch, Without;
    var b := Spend(l, Source(l, before, u), u.now, u.cost).0;
    assert b.touched == u.now;
    hide Spend, Source;
    var room :| Room(max, before, u.key, room) && after == room[u.key := b];
    OrderedCount(max, before, order, last);
    TrackedIn(max, before, order, last, u.key);
    if u.key in before || |before| < max {
      TouchedLast(max, before, order, last, u.key, b);
      OrderedShort(max, before, order, last);
      MovedCount(order, u.key, max);
      SameRoom(max, before, u.key, room);
    } else {
      Replaced(max, before, order, last, u.key, b, room);
    }
  }

  lemma SameRoom(max: nat, before: Buckets, key: string, room: Buckets)
    requires Room(max, before, key, room) && (key in before || |before| < max)
    ensures room == before
  {
  }

  lemma Replaced(max: nat, before: Buckets, order: seq<string>, last: real, key: string, b: RateLimiter.Bucket,
                 room: Buckets)
    requires max >= 1 && Ordered(max, before, order, last) && last < b.touched
    requires key !in before && |before| >= max && Room(max, before, key, room)
    ensures Ordered(max, room[key := b], Touch(order, key, max), b.touched)
  {
    hide Ordered, Without, Oldest;
    OrderedCount(max, before, order, last);
    var k :| k in before && Oldest(before, k) && room == before - {k};
    OldestFirst(max, before, order, last, k);
    FirstGone(max, before, order, last);
    OrderedShort(max, before, order, last);
    TrackedIn(max, before, order, last, key);
    WithoutAbsent(order, key);
    assert key !in order[1..] by { assert order == [order[0]] + order[1..]; }
    WithoutAbsent(order[1..], key);
    TouchedLast(max, room, order[1..], last, key, b);
    assert (order + [key])[1..] == order[1..] + [key];
  }

  lemma OrderedShort(max: nat, buckets: Buckets, order: seq<string>, last: real)
    requires Ordered(max, buckets, order, last)
    ensures |order| <= max
  {
  }

  lemma TrackedIn(max: nat, buckets: Buckets, order: seq<string>, last: real, key: string)
    requires Ordered(max, buckets, order, last)
    ensures key in order <==> key in buckets
  {
  }

  lemma MovedCount(order: seq<string>, key: string, max: nat)
    requires |order| <= max && Distinct(order) && (key in order || |order| < max)
    ensures Touch(order, key, max) == Without(order, key) + [key]
  {
    hide Without, Distinct;
    if key in order {
      var i :| 0 <= i < |order| && order[i] == key;
      WithoutAt(order, i);
    } else {
      WithoutAbsent(order, key);
    }
  }

  lemma {:induction false} OrderAt(l: Limits, max: nat, states: seq<Buckets>, answers: seq<Answer>, uses: seq<Use>,
                                   n: nat)
    requires l.rate > 0.0 && max >= 1 && Run(l, max, states, answers, uses) && Rising(uses) && n <= |uses|
    ensures n > 0 ==> Ordered(max, states[n], Touches([], Keys(uses[..n]), max), uses[n - 1].now)
    ensures n == 0 ==> forall last :: Ordered(max, states[n], Touches([], Keys(uses[..n]), max), last)
  {
    hide Consumed, Touch;
    if n > 0 {
      OrderAt(l, max, states, answers, uses, n - 1);
      KeysSnoc(uses, n - 1);
      var last := if n > 1 then uses[n - 2].now else uses[0].now - 1.0;
      ConsumedOrdered(l, max, states[n - 1], Touches([], Keys(uses[..n - 1]), max), last, uses[n - 1], states[n],
        answers[n - 1]);
    }
  }

  /**
   * Exactly which keys are tracked, with a clock that rises between requests: those for which fewer than `maxKeys`
   * other keys were used since their own last use.
   */
  lemma TrackedIff(l: Limits, max: nat, states: seq<Buckets>, answers: seq<Answer>, uses: seq<Use>, n: nat, k: string)
    requires l.rate > 0.0 && max >= 1 && Run(l, max, states, answers, uses) && Rising(uses) && n <= |uses|
    requires k in Keys(uses[..n])
    ensures k in states[n] <==> |Since(Keys(uses[..n]), k)| < max
  {
    hide Consumed, Touches, Since;
    OrderAt(l, max, states, answers, uses, n);
    KeptIffRecent([], Keys(uses[..n]), max, k);
  }

  // ---------------------------------------------------------------- what a key may spend

  /** The requests of one key. */
  function Own(uses: seq<Use>, k: string): seq<Call> {
    if uses == [] then []
    else
      var last := uses[|uses| - 1];
      Own(uses[..|uses| - 1], k) + if last.key == k then [Call(last.now, last.cost)] else []
  }

  /** The cost admitted to one key. */
  function Spent(uses: seq<Use>, answers: seq<Answer>, k: string): real
    requires |answers| == |uses|
  {
    if uses == [] then 0.0
    else
      var n := |uses| - 1;
      Spent(uses[..n], answers[..n], k) + if uses[n].key == k && answers[n].Allowed? then uses[n].cost else 0.0
  }

  ghost predicate Filled(l: Limits, buckets: Buckets, last: real) {
    forall k :: k in buckets ==> 0.0 <= buckets[k].tokens <= l.capacity && buckets[k].at <= last
  }

  lemma ConsumedFilled(l: Limits, max: nat, before: Buckets, last: real, u: Use, after: Buckets, answer: Answer)
    requires l.Ok() && Filled(l, before, last) && last <= u.now && UseOk(l, u) &&
      Consumed(l, max, before, u, after, answer)
    ensures Filled(l, after, u.now)
  {
    hide Spend, Source, Oldest;
    SourceFilled(l, before, last, u);
    var b := Source(l, before, u);
    SpendGains(l, b, u.now, u.cost);
    var room :| Room(max, before, u.key, room) && after == room[u.key := Spend(l, b, u.now, u.cost).0];
  }

  lemma SourceFilled(l: Limits, before: Buckets, last: real, u: Use)
    requires l.Ok() && Filled(l, before, last) && last <= u.now
    ensures 0.0 <= Source(l, before, u).tokens <= l.capacity && Source(l, before, u).at <= u.now
  {
  }

  /** Another key's request leaves a bucket as it was, or takes it away. */
  lemma OtherBucket(l: Limits, max: nat, before: Buckets, u: Use, after: Buckets, answer: Answer, k: string)
    requires l.rate > 0.0 && Consumed(l, max, before, u, after, answer)
    ensures u.key != k && k in after ==> k in before && after[k] == before[k]
    ensures u.key in after && after[u.key] == Spend(l, Source(l, before, u), u.now, u.cost).0
    ensures answer == Spend(l, Source(l, before, u), u.now, u.cost).1
  {
    hide Spend, Source, Oldest;
  }

  lemma {:induction false} FilledAt(l: Limits, max: nat, states: seq<Buckets>, answers: seq<Answer>, uses: seq<Use>,
                                    n: nat)
    requires l.Ok() && Run(l, max, states, answers, uses) && Steady(uses) && n <= |uses|
    ensures n > 0 ==> Filled(l, states[n], uses[n - 1].now)
    ensures n == 0 ==> states[n] == map[]
  {
    hide Consumed;
    if n > 0 {
      FilledAt(l, max, states, answers, uses, n - 1);
      var last := if n > 1 then uses[n - 2].now else uses[0].now;
      ConsumedFilled(l, max, states[n - 1], last, uses[n - 1], states[n], answers[n - 1]);
    }
  }

  /** From a first use on, key k finds its bucket again at each of its uses before n. */
  ghost predicate StaysTracked(states: seq<Buckets>, uses: seq<Use>, m: nat, n: nat, k: string)
    requires m <= n <= |uses| < |states|
  {
    forall j :: m <= j < n && uses[j].key == k && Own(uses[m..j], k) != [] ==> k in states[j]
  }

  lemma WindowSnoc(uses: seq<Use>, answers: seq<Answer>, m: nat, n: nat, k: string)
    requires m <= n < |uses| == |answers|
    ensures Own(uses[m..n + 1], k) == Own(uses[m..n], k) +
      if uses[n].key == k then [Call(uses[n].now, uses[n].cost)] else []
    ensures Spent(uses[m..n + 1], answers[m..n + 1], k)
         == Spent(uses[m..n], answers[m..n], k) + if uses[n].key == k && answers[n].Allowed? then uses[n].cost else 0.0
  {
    assert uses[m..n + 1][..n - m] == uses[m..n] && answers[m..n + 1][..n - m] == answers[m..n];
  }

  /** The calls of one key lie in the window. */
  ghost predicate Within(calls: seq<Call>, low: real, high: real) {
    forall i :: 0 <= i < |calls| ==> low <= calls[i].now <= high && 0.0 < calls[i].cost
  }

  /** What a ledger of key k over a window says: one bucket, which the key's calls alone have spent from. */
  ghost predicate Ledger(l: Limits, b: RateLimiter.Bucket, calls: seq<Call>, spent: real, buckets: Buckets, k: string)
    requires l.rate > 0.0
  {
    && 0.0 <= b.tokens <= l.capacity && Monotone(b.at, calls)
    && spent == Admitted(l, b, calls)
    && (k in buckets ==> buckets[k] == After(l, b, calls))
  }

  /** The key's first call in the window opens its ledger. */
  lemma OpenLedger(l: Limits, max: nat, before: Buckets, u: Use, after: Buckets, answer: Answer)
    requires l.Ok() && UseOk(l, u) && Consumed(l, max, before, u, after, answer)
    requires var b := Source(l, before, u); 0.0 <= b.tokens <= l.capacity && b.at <= u.now
    ensures Ledger(l, Source(l, before, u), [Call(u.now, u.cost)],
      if answer.Allowed? then u.cost else 0.0, after, u.key)
  {
    hide Spend, Source;
    OtherBucket(l, max, before, u, after, answer, u.key);
    var calls := [Call(u.now, u.cost)];
    assert calls[..0] == [];
    var b := Source(l, before, u);
    assert After(l, b, []) == b && Admitted(l, b, []) == 0.0;
  }

  /** A later call of the key, which finds its bucket, continues it. */
  lemma ContinueLedger(l: Limits, max: nat, b: RateLimiter.Bucket, calls: seq<Call>, spent: real, before: Buckets,
                       u: Use,
                       after: Buckets, answer: Answer)
    requires l.Ok() && Ledger(l, b, calls, spent, before, u.key) && u.key in before
    requires Consumed(l, max, before, u, after, answer)
    requires b.at <= u.now && forall i :: 0 <= i < |calls| ==> calls[i].now <= u.now
    ensures Ledger(l, b, calls + [Call(u.now, u.cost)], spent + (if answer.Allowed? then u.cost else 0.0), after, u.key)
  {
    hide Spend;
    OtherBucket(l, max, before, u, after, answer, u.key);
    var all := calls + [Call(u.now, u.cost)];
    assert all[..|all| - 1] == calls;
  }

  /** The ledger of key k, once it has been used. */
  ghost predicate Kept(l: Limits, b: RateLimiter.Bucket, calls: seq<Call>, spent: real, buckets: Buckets, k: string,
                       low: real, high: real)
    requires l.rate > 0.0
  {
    if calls == [] then spent == 0.0 else Within(calls, low, high) && Ledger(l, b, calls, spent, buckets, k)
  }

  lemma KeptNext(l: Limits, max: nat, b: RateLimiter.Bucket, calls: seq<Call>, spent: real, before: Buckets, u: Use,
                 after: Buckets,
                 answer: Answer, k: string, low: real, high: real) returns (b': RateLimiter.Bucket)
    requires l.Ok() && UseOk(l, u) && Consumed(l, max, before, u, after, answer)
    requires Kept(l, b, calls, spent, before, k, low, high) && low <= u.now && high <= u.now
    requires u.key == k && calls != [] ==> k in before
    requires var source := Source(l, before, u); 0.0 <= source.tokens <= l.capacity && source.at <= u.now
    ensures var own := u.key == k;
      Kept(l, b', calls + (if own then [Call(u.now, u.cost)] else []),
           spent + (if own && answer.Allowed? then u.cost else 0.0), after, k, low, u.now)
  {
    hide Consumed, Spend, Source, Ledger;
    b' := b;
    if u.key != k {
      OtherBucket(l, max, before, u, after, answer, k);
      assert calls + [] == calls;
      if calls != [] {
        SameLedger(l, b, calls, spent, before, after, k);
      }
    } else if calls == [] {
      b' := Source(l, before, u);
      OpenLedger(l, max, before, u, after, answer);
      assert calls + [Call(u.now, u.cost)] == [Call(u.now, u.cost)];
    } else {
      LedgerStart(l, b, calls, spent, before, k);
      ContinueLedger(l, max, b, calls, spent, before, u, after, answer);
    }
  }

  lemma {:induction false} LedgerOf(l: Limits, max: nat, states: seq<Buckets>, answers: seq<Answer>, uses: seq<Use>,
                                    m: nat, n: nat, k: string)
    returns (b: RateLimiter.Bucket)
    requires l.Ok() && Run(l, max, states, answers, uses) && Steady(uses) && m < n <= |uses|
    requires StaysTracked(states, uses, m, n, k)
    ensures Kept(l, b, Own(uses[m..n], k), Spent(uses[m..n], answers[m..n], k), states[n], k, uses[m].now,
      uses[n - 1].now)
    decreases n
  {
    hide Consumed, Spend, Source, Kept, Own, Spent;
    var calls, spent, high := [], 0.0, uses[m].now;
    b := RateLimiter.Bucket(0.0, 0.0, 0.0);
    WindowSnoc(uses, answers, m, n - 1, k);
    FilledBefore(l, max, states, answers, uses, n - 1);
    if n - 1 > m {
      b := LedgerOf(l, max, states, answers, uses, m, n - 1, k);
      calls, spent, high := Own(uses[m..n - 1], k), Spent(uses[m..n - 1], answers[m..n - 1], k), uses[n - 2].now;
    } else {
      NothingYet(l, b, states[m], k, high);
      EmptyWindow(uses, answers, m, k);
    }
    b := KeptNext(l, max, b, calls, spent, states[n - 1], uses[n - 1], states[n], answers[n - 1], k, uses[m].now, high);
  }

  lemma NothingYet(l: Limits, b: RateLimiter.Bucket, buckets: Buckets, k: string, at: real)
    requires l.rate > 0.0
    ensures Kept(l, b, [], 0.0, buckets, k, at, at)
  {
  }

  lemma EmptyWindow(uses: seq<Use>, answers: seq<Answer>, m: nat, k: string)
    requires m <= |uses| == |answers|
    ensures Own(uses[m..m], k) == [] && Spent(uses[m..m], answers[m..m], k) == 0.0
  {
  }

  lemma LedgerStart(l: Limits, b: RateLimiter.Bucket, calls: seq<Call>, spent: real, buckets: Buckets, k: string)
    requires l.rate > 0.0 && Ledger(l, b, calls, spent, buckets, k) && calls != []
    ensures b.at <= calls[0].now
  {
  }

  lemma SameLedger(l: Limits, b: RateLimiter.Bucket, calls: seq<Call>, spent: real, before: Buckets, after: Buckets,
                   k: string)
    requires l.rate > 0.0 && Ledger(l, b, calls, spent, before, k) &&
      (k in after ==> k in before && after[k] == before[k])
    ensures Ledger(l, b, calls, spent, after, k)
  {
    hide Admitted, RateLimiter.After;
  }

  lemma FilledBefore(l: Limits, max: nat, states: seq<Buckets>, answers: seq<Answer>, uses: seq<Use>, n: nat)
    requires l.Ok() && Run(l, max, states, answers, uses) && Steady(uses) && n < |uses|
    ensures var b := Source(l, states[n], uses[n]); 0.0 <= b.tokens <= l.capacity && b.at <= uses[n].now
  {
    hide Consumed, Source;
    FilledAt(l, max, states, answers, uses, n);
    SourceFilled(l, states[n], if n > 0 then uses[n - 1].now else uses[n].now, uses[n]);
  }

  /**
   * What a key may spend, in any window of any run in which it finds its bucket again at each of its uses after the
   * first: at most the capacity and what the window's length refills.
   */
  lemma TrackedWindowBound(l: Limits, max: nat, states: seq<Buckets>, answers: seq<Answer>, uses: seq<Use>, m: nat,
                           n: nat, k: string)
    requires l.Ok() && Run(l, max, states, answers, uses) && Steady(uses) && m < n <= |uses|
    requires StaysTracked(states, uses, m, n, k)
    ensures Spent(uses[m..n], answers[m..n], k) <= l.capacity + Gain(l.rate, uses[n - 1].now - uses[m].now)
  {
    hide Consumed, Own, Spent, Gain, StaysTracked;
    var b := LedgerOf(l, max, states, answers, uses, m, n, k);
    var calls := Own(uses[m..n], k);
    assert uses[m].now <= uses[n - 1].now by { assert m < n - 1 || m == n - 1; }
    GainPositive(l.rate, uses[n - 1].now - uses[m].now);
    if calls != [] {
      WindowBound(l, b, calls);
      GainGrows(l.rate, calls[|calls| - 1].now - calls[0].now, uses[n - 1].now - uses[m].now);
    }
  }

  /** That is so when fewer than `maxKeys` other keys are used between one of its uses and the next. */
  lemma KeyWindowBound(l: Limits, max: nat, states: seq<Buckets>, answers: seq<Answer>, uses: seq<Use>, m: nat, n: nat,
                       k: string)
    requires l.Ok() && max >= 1 && Run(l, max, states, answers, uses) && Rising(uses) && m < n <= |uses|
    requires forall j ::
      m <= j < n && uses[j].key == k && Own(uses[m..j], k) != [] ==> |Since(Keys(uses[..j]), k)| < max
    ensures StaysTracked(states, uses, m, n, k)
    ensures Spent(uses[m..n], answers[m..n], k) <= l.capacity + Gain(l.rate, uses[n - 1].now - uses[m].now)
  {
    hide Consumed, Since, Own, Spent, Gain;
    forall j | m <= j < n && uses[j].key == k && Own(uses[m..j], k) != [] ensures k in states[j] {
      UsedBefore(uses, m, j, k);
      TrackedIff(l, max, states, answers, uses, j, k);
    }
    TrackedWindowBound(l, max, states, answers, uses, m, n, k);
  }

  lemma GainGrows(rate: real, x: real, y: real)
    requires rate > 0.0 && x <= y
    ensures Gain(rate, x) <= Gain(rate, y)
  {
    GainPositive(rate, y - x);
    GainAdds(rate, x, y - x);
  }

  lemma {:induction false} UsedBefore(uses: seq<Use>, m: nat, j: nat, k: string)
    requires m <= j <= |uses| && Own(uses[m..j], k) != []
    ensures k in Keys(uses[..j])
    decreases j
  {
    if uses[j - 1].key == k {
      assert Keys(uses[..j])[j - 1] == k;
    } else {
      assert uses[m..j][..j - m - 1] == uses[m..j - 1];
      UsedBefore(uses, m, j - 1, k);
      KeysSnoc(uses, j - 1);
    }
  }

  // ---------------------------------------------------------------- a key that does not stay tracked

  lemma {:induction false} SomeOldest(buckets: Buckets) returns (k: string)
    requires buckets != map[]
    ensures k in buckets && Oldest(buckets, k)
    decreases buckets.Keys
  {
    k :| k in buckets;
    var rest := buckets - {k};
    assert forall x :: x in buckets ==> x == k || (x in rest && rest[x] == buckets[x]);
    if rest != map[] {
      var o := SomeOldest(rest);
      assert forall x :: x in rest ==> buckets[o].touched <= rest[x].touched;
      if buckets[o].touched < buckets[k].touched {
        k := o;
      }
    }
  }

  /** Every request can be made. */
  lemma CanConsume(l: Limits, max: nat, before: Buckets, u: Use) returns (after: Buckets, answer: Answer)
    requires l.rate > 0.0 && max >= 1
    ensures Consumed(l, max, before, u, after, answer)
  {
    hide Spend, Oldest, Source;
    var (b, r) := Spend(l, Source(l, before, u), u.now, u.cost);
    var room := before;
    if u.key !in before && |before| >= max {
      var k := SomeOldest(before);
      room := before - {k};
    }
    assert Room(max, before, u.key, room);
    after, answer := room[u.key := b], r;
  }

  lemma {:induction false} CanRun(l: Limits, max: nat, uses: seq<Use>)
    returns (states: seq<Buckets>, answers: seq<Answer>)
    requires l.rate > 0.0 && max >= 1 && forall i :: 0 <= i < |uses| ==> UseOk(l, uses[i])
    ensures Run(l, max, states, answers, uses)
    decreases |uses|
  {
    hide Consumed;
    if uses == [] {
      states, answers := [map[]], [];
    } else {
      var n := |uses| - 1;
      var ss, as_ := CanRun(l, max, uses[..n]);
      var after, answer := CanConsume(l, max, ss[n], uses[n]);
      states, answers := ss + [after], as_ + [answer];
      forall i | 0 <= i < |uses|
        ensures UseOk(l, uses[i]) && Consumed(l, max, states[i], uses[i], states[i + 1], answers[i])
      {
        assert i < n ==>
          uses[..n][i] == uses[i] && states[i] == ss[i] && states[i + 1] == ss[i + 1] && answers[i] == as_[i];
      }
    }
  }

  /** Names of other keys. */
  function Other(i: nat): string {
    "b" + if i == 0 then "" else Other(i - 1)
  }

  lemma {:induction false} OtherLength(i: nat)
    ensures |Other(i)| == i + 1 && Other(i)[0] == 'b'
  {
    if i > 0 {
      OtherLength(i - 1);
    }
  }

  function Moment(now: real, step: real, i: nat): real {
    now + i as real * step
  }

  /** Key "a", then as many other keys as the limiter has room for, then "a" again, in steps of the given time. */
  function Crowd(l: Limits, max: nat, now: real, step: real): (uses: seq<Use>)
    ensures |uses| == max + 2
    ensures forall i :: 0 <= i < |uses| ==> uses[i].now == Moment(now, step, i)
  {
    seq(max + 2, i requires 0 <= i < max + 2 =>
      Use(if i == 0 || i == max + 1 then "a" else Other(i), Moment(now, step, i), l.capacity))
  }

  lemma Later(now: real, step: real, i: nat, j: nat)
    requires i < j && step > 0.0
    ensures Moment(now, step, i) < Moment(now, step, j)
  {
    assert (j - i) as real * step > 0.0;
  }

  lemma CrowdRises(l: Limits, max: nat, now: real, step: real)
    requires step > 0.0
    ensures Rising(Crowd(l, max, now, step))
  {
    hide Moment;
    var uses := Crowd(l, max, now, step);
    forall i, j | 0 <= i < j < |uses| ensures uses[i].now < uses[j].now {
      Later(now, step, i, j);
    }
  }

  lemma Elapsed(now: real, window: real, n: nat)
    requires n >= 1 && window > 0.0
    ensures window / n as real > 0.0
    ensures Moment(now, window / n as real, n) - Moment(now, window / n as real, 0) == window
  {
  }

  lemma {:induction false} SinceFirst(keys: seq<string>, k: string, n: nat)
    requires 1 <= n <= |keys| && keys[0] == k && forall i :: 1 <= i < n ==> keys[i] != k
    ensures Since(keys[..n], k) == Names(keys[1..n])
    decreases n
  {
    if n > 1 {
      SinceFirst(keys, k, n - 1);
      assert keys[..n][..n - 1] == keys[..n - 1];
      assert keys[1..n] == keys[1..n - 1] + [keys[n - 1]];
    }
  }

  lemma CrowdCounts(l: Limits, max: nat, now: real, step: real)
    requires max >= 1
    ensures var keys := Keys(Crowd(l, max, now, step)[..max + 1]);
      "a" in keys && |Since(keys, "a")| == max
  {
    var uses := Crowd(l, max, now, step);
    var keys := Keys(uses[..max + 1]);
    assert keys[0] == "a";
    forall i | 1 <= i < max + 1 ensures keys[i] == Other(i) && |keys[i]| == i + 1 && keys[i] != "a" {
      OtherLength(i);
    }
    SinceFirst(keys, "a", max + 1);
    assert keys[..max + 1] == keys;
    var rest := keys[1..];
    assert rest == keys[1..max + 1];
    forall i, j | 0 <= i < j < |rest| ensures rest[i] != rest[j] {
      assert |rest[i]| == i + 2 && |rest[j]| == j + 2;
    }
    NamesCount(rest);
  }

  /**
   * Whatever the number of keys a limiter keeps and however short the time: a key that lets that many others pass
   * spends its whole capacity twice.
   */
  lemma EvictedKeySpendsTwice(l: Limits, max: nat, now: real, window: real)
    returns (states: seq<Buckets>, answers: seq<Answer>, uses: seq<Use>)
    requires l.Ok() && max >= 1 && window > 0.0
    ensures Run(l, max, states, answers, uses) && Rising(uses)
    ensures uses != [] && uses[|uses| - 1].now - uses[0].now == window
    ensures Spent(uses, answers, "a") == l.capacity + l.capacity
  {
    hide Crowd, Since, Own, Moment;
    var step := window / (max + 1) as real;
    Elapsed(now, window, max + 1);
    uses := Crowd(l, max, now, step);
    CrowdRises(l, max, now, step);
    CrowdUses(l, max, now, step);
    states, answers := CanRun(l, max, uses);
    CrowdCounts(l, max, now, step);
    TrackedIff(l, max, states, answers, uses, max + 1, "a");
    FullSpend(l, max, states[0], uses[0], states[1], answers[0]);
    FullSpend(l, max, states[max + 1], uses[max + 1], states[max + 2], answers[max + 1]);
    OnlyOthers(uses, answers, max + 1);
    assert uses[..max + 2] == uses && answers[..max + 2] == answers;
    assert uses[..max + 2][..max + 1] == uses[..max + 1] && answers[..max + 2][..max + 1] == answers[..max + 1];
  }

  lemma CrowdUses(l: Limits, max: nat, now: real, step: real)
    requires l.Ok()
    ensures var uses := Crowd(l, max, now, step);
      && (forall i :: 0 <= i < |uses| ==> UseOk(l, uses[i]) && uses[i].cost == l.capacity)
      && uses[0].key == "a" && uses[max + 1].key == "a" && (forall i :: 1 <= i < max + 1 ==> uses[i].key != "a")
  {
    forall i: nat ensures Other(i) != "" && Other(i) != "a" {
      OtherLength(i);
    }
  }

  /** A key without a bucket is admitted up to the capacity. */
  lemma FullSpend(l: Limits, max: nat, before: Buckets, u: Use, after: Buckets, answer: Answer)
    requires l.Ok() && UseOk(l, u) && u.key !in before && Consumed(l, max, before, u, after, answer)
    ensures answer.Allowed?
  {
    assert Refill(l, RateLimiter.Bucket(l.capacity, u.now, u.now), u.now).tokens == l.capacity;
  }

  lemma {:induction false} OnlyOthers(uses: seq<Use>, answers: seq<Answer>, n: nat)
    requires 1 <= n <= |uses| == |answers| && uses[0].key == "a" && answers[0].Allowed?
    requires forall i :: 1 <= i < n ==> uses[i].key != "a"
    ensures Spent(uses[..n], answers[..n], "a") == uses[0].cost
    decreases n
  {
    if n == 1 {
      assert uses[..1][..0] == [] && answers[..1][..0] == [];
    } else {
      OnlyOthers(uses, answers, n - 1);
      assert uses[..n][..n - 1] == uses[..n - 1] && answers[..n][..n - 1] == answers[..n - 1];
    }
  }
}
