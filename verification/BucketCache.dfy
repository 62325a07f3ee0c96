/**
 * The least-recently-used bucket cache of `BucketedOffsetIndex` in src/tiered-store.js: which buckets stay cached,
 * and when an index that writes its dirty buckets only at the end of a batch shows the right entries meanwhile.
 */
module BucketCache {
  import opened Basics

  datatype Entry = Entry(segment: nat, offset: nat, length: nat, sequence: nat, deleted: bool)
  type Bucket = map<string, Entry>

  ghost predicate Distinct(s: seq<string>) {
    forall i, j :: 0 <= i < j < |s| ==> s[i] != s[j]
  }

  function Without(s: seq<string>, n: string): seq<string> {
    if s == [] then [] else (if s[0] == n then [] else [s[0]]) + Without(s[1..], n)
  }

  lemma {:induction false} WithoutMember(s: seq<string>, n: string, x: string)
    ensures x in Without(s, n) <==> x in s && x != n
  {
    if s != [] {
      WithoutMember(s[1..], n, x);
    }
  }

  lemma {:induction false} WithoutAbsent(s: seq<string>, n: string)
    requires n !in s
    ensures Without(s, n) == s
  {
    if s != [] {
      WithoutAbsent(s[1..], n);
    }
  }

  lemma {:induction false} WithoutAt(s: seq<string>, i: nat)
    requires Distinct(s) && i < |s|
    ensures Without(s, s[i]) == s[..i] + s[i + 1..]
  {
    if i == 0 {
      WithoutAbsent(s[1..], s[0]);
    } else {
      WithoutAt(s[1..], i - 1);
      assert s[1..][..i - 1] == s[1..i] && s[1..][i..] == s[i + 1..];
      assert s[..i] == [s[0]] + s[1..i];
    }
  }

  lemma WithoutDistinct(s: seq<string>, n: string)
    requires Distinct(s)
    ensures Distinct(Without(s, n) + [n])
  {
    hide Without;
    if n in s {
      var i :| 0 <= i < |s| && s[i] == n;
      WithoutAt(s, i);
    } else {
      WithoutAbsent(s, n);
    }
  }

  /** `load`: delete and re-insert the name, then evict from the front while there are too many. */
  function Touch(order: seq<string>, n: string, max: nat): seq<string> {
    LastN(Without(order, n) + [n], max)
  }

  lemma TouchFacts(order: seq<string>, n: string, max: nat)
    requires Distinct(order) && max >= 1
    ensures var t := Touch(order, n, max);
      && Distinct(t) && |t| <= max && n in t
      && (forall m :: m in t ==> m == n || m in order)
  {
    hide Without;
    WithoutDistinct(order, n);
    var moved, t := Without(order, n) + [n], Touch(order, n, max);
    assert t == moved || t == moved[|moved| - max..];
    assert t[|t| - 1] == n;
    forall m | m in t ensures m == n || m in order {
      assert m in moved;
      WithoutMember(order, n, m);
    }
  }

  function Touches(order: seq<string>, accesses: seq<string>, max: nat): seq<string> {
    if accesses == [] then order
    else Touch(Touches(order, accesses[..|accesses| - 1], max), accesses[|accesses| - 1], max)
  }

  /** The same accesses without eviction: every name ever seen, by last access. */
  function Stack(order: seq<string>, accesses: seq<string>): seq<string> {
    if accesses == [] then order
    else
      var n := accesses[|accesses| - 1];
      Without(Stack(order, accesses[..|accesses| - 1]), n) + [n]
  }

  lemma {:induction false} StackDistinct(order: seq<string>, accesses: seq<string>)
    requires Distinct(order)
    ensures Distinct(Stack(order, accesses))
  {
    if accesses != [] {
      StackDistinct(order, accesses[..|accesses| - 1]);
      WithoutDistinct(Stack(order, accesses[..|accesses| - 1]), accesses[|accesses| - 1]);
    }
  }

  lemma {:induction false} WithoutAppend(a: seq<string>, b: seq<string>, n: string)
    ensures Without(a + b, n) == Without(a, n) + Without(b, n)
  {
    if a == [] {
      assert a + b == b;
    } else {
      assert (a + b)[0] == a[0] && (a + b)[1..] == a[1..] + b;
      WithoutAppend(a[1..], b, n);
    }
  }

  /** One bounded access of the recent end is the recent end of one unbounded access. */
  lemma TouchRecent(s: seq<string>, n: string, max: nat)
    requires Distinct(s) && max >= 1
    ensures Touch(LastN(s, max), n, max) == LastN(Without(s, n) + [n], max)
  {
    hide Without, LastN;
    LastNShape(s, max);
    if |s| > max {
      var a, z := s[..|s| - max], s[|s| - max..];
      assert s == a + z;
      WithoutAppend(a, z, n);
      WithoutCount(z, n);
      assert Without(a, n) + Without(z, n) + [n] == Without(a, n) + (Without(z, n) + [n]);
      LastNTail(Without(a, n), Without(z, n) + [n], max);
    }
  }

  lemma WithoutCount(s: seq<string>, n: string)
    requires Distinct(s)
    ensures |Without(s, n)| >= |s| - 1
  {
    hide Without;
    if n in s {
      var i :| 0 <= i < |s| && s[i] == n;
      WithoutAt(s, i);
    } else {
      WithoutAbsent(s, n);
    }
  }

  lemma LastNShape(s: seq<string>, n: nat)
    ensures LastN(s, n) == if |s| <= n then s else s[|s| - n..]
  {
  }

  /** The cache is always the recent end of the access stack. */
  lemma {:induction false} CacheIsRecentStack(order: seq<string>, accesses: seq<string>, max: nat)
    requires Distinct(order) && max >= 1 && |order| <= max
    ensures Touches(order, accesses, max) == LastN(Stack(order, accesses), max)
  {
    if accesses != [] {
      var init := accesses[..|accesses| - 1];
      CacheIsRecentStack(order, init, max);
      StackDistinct(order, init);
      TouchRecent(Stack(order, init), accesses[|accesses| - 1], max);
    }
  }

  /** The names accessed after the last access of b. */
  function Since(accesses: seq<string>, b: string): set<string> {
    if accesses == [] || accesses[|accesses| - 1] == b then {}
    else Since(accesses[..|accesses| - 1], b) + {accesses[|accesses| - 1]}
  }

  function Names(s: seq<string>): set<string> {
    set x | x in s
  }

  lemma NamesCount(s: seq<string>)
    requires Distinct(s)
    ensures |Names(s)| == |s|
  {
    if s != [] {
      var init := s[..|s| - 1];
      NamesCount(init);
      assert Names(s) == Names(init) + {s[|s| - 1]};
    }
  }

  /** Behind b the stack holds exactly the names accessed since b. */
  lemma {:induction false} StackSince(order: seq<string>, accesses: seq<string>, b: string) returns (at: nat)
    requires Distinct(order) && b in accesses
    ensures at < |Stack(order, accesses)| && Stack(order, accesses)[at] == b
    ensures Names(Stack(order, accesses)[at + 1..]) == Since(accesses, b)
  {
    var n, init := accesses[|accesses| - 1], accesses[..|accesses| - 1];
    var s := Stack(order, init);
    if n == b {
      at := |Without(s, n)|;
      assert Stack(order, accesses)[at + 1..] == [];
    } else {
      assert accesses == init + [n];
      var before := StackSince(order, init, b);
      StackDistinct(order, init);
      at := MovedBehind(s, n, before);
    }
  }

  lemma MovedBehind(s: seq<string>, n: string, before: nat) returns (at: nat)
    requires Distinct(s) && before < |s| && s[before] != n
    ensures var moved := Without(s, n) + [n];
      at < |moved| && moved[at] == s[before] && Names(moved[at + 1..]) == Names(s[before + 1..]) + {n}
  {
    hide Without, Distinct;
    if n in s {
      var i :| 0 <= i < |s| && s[i] == n;
      WithoutAt(s, i);
      at := MovedFrom(s, i, before);
    } else {
      WithoutAbsent(s, n);
      at := before;
      assert (s + [n])[at + 1..] == s[before + 1..] + [n];
    }
  }

  lemma MovedFrom(s: seq<string>, i: nat, before: nat) returns (at: nat)
    requires before < |s| && i < |s| && i != before
    ensures var moved := s[..i] + s[i + 1..] + [s[i]];
      at < |moved| && moved[at] == s[before] && Names(moved[at + 1..]) == Names(s[before + 1..]) + {s[i]}
  {
    var moved := s[..i] + s[i + 1..] + [s[i]];
    if i < before {
      at := before - 1;
      assert moved[at + 1..] == s[before + 1..] + [s[i]];
    } else {
      at := before;
      assert moved[at + 1..] == s[before + 1..i] + s[i + 1..] + [s[i]];
      assert s[before + 1..] == s[before + 1..i] + [s[i]] + s[i + 1..];
    }
  }

  /**
   * The stack property, exactly: a bucket accessed since the cache had content `order` is still cached if and only if
   * fewer than `max` other buckets were accessed after it.
   */
  lemma KeptIffRecent(order: seq<string>, accesses: seq<string>, max: nat, b: string)
    requires Distinct(order) && max >= 1 && |order| <= max && b in accesses
    ensures b in Touches(order, accesses, max) <==> |Since(accesses, b)| < max
  {
    hide Stack, Touches, Since;
    CacheIsRecentStack(order, accesses, max);
    StackDistinct(order, accesses);
    var s := Stack(order, accesses);
    var at := StackSince(order, accesses, b);
    NamesCount(s[at + 1..]);
    if |s| > max {
      assert b in s[|s| - max..] <==> at >= |s| - max by {
        if at >= |s| - max {
          assert s[|s| - max..][at - (|s| - max)] == b;
        }
      }
    } else {
      assert b in s;
    }
  }

  lemma SinceBound(accesses: seq<string>, b: string)
    requires b in accesses
    ensures Since(accesses, b) <= Names(accesses) - {b}
  {
    if accesses[|accesses| - 1] != b {
      var init := accesses[..|accesses| - 1];
      assert accesses == init + [accesses[|accesses| - 1]];
      SinceBound(init, b);
    }
  }

  /** Within the bound nothing touched is evicted. */
  lemma KeptWithinBound(order: seq<string>, accesses: seq<string>, max: nat)
    requires Distinct(order) && max >= 1 && |order| <= max && |Names(accesses)| <= max
    ensures Names(accesses) <= Names(Touches(order, accesses, max))
  {
    forall b | b in accesses ensures b in Touches(order, accesses, max) {
      KeptIffRecent(order, accesses, max, b);
      SinceBound(accesses, b);
      SubsetCount(Since(accesses, b), Names(accesses) - {b});
    }
  }

  lemma SubsetCount(a: set<string>, b: set<string>)
    requires a <= b
    ensures |a| <= |b|
  {
    if a != {} {
      var x :| x in a;
      SubsetCount(a - {x}, b - {x});
    }
  }
}
