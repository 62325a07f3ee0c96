/** Option and the few sequence facts that several components share. */
module Basics {
  datatype Option<+T> = None | Some(value: T)

  /** The suffix of length at most n that `splice`/`slice(-n)` leaves behind. */
  function LastN<T>(s: seq<T>, n: nat): (r: seq<T>)
    ensures |r| == if |s| <= n then |s| else n
  {
    if |s| <= n then s else s[|s| - n..]
  }

  lemma LastNAppend<T>(a: seq<T>, b: seq<T>, n: nat)
    ensures LastN(LastN(a, n) + b, n) == LastN(a + b, n)
  {
    if |a| > n {
      assert (a + b)[|a| - n..] == a[|a| - n..] + b;
    }
  }

  lemma LastNTail<T>(a: seq<T>, b: seq<T>, n: nat)
    requires n <= |b|
    ensures LastN(a + b, n) == LastN(b, n)
  {
    if |a + b| > n {
      assert (a + b)[|a + b| - n..] == b[|b| - n..];
    } else {
      assert a + b == b;
    }
  }

  function Filter<T>(s: seq<T>, p: T -> bool): seq<T> {
    if s == [] then []
    else (if p(s[0]) then [s[0]] else []) + Filter(s[1..], p)
  }

  lemma {:induction false} FilterAppend<T>(a: seq<T>, b: seq<T>, p: T -> bool)
    ensures Filter(a + b, p) == Filter(a, p) + Filter(b, p)
  {
    if a == [] {
      assert a + b == b;
    } else {
      assert (a + b)[1..] == a[1..] + b && (a + b)[0] == a[0];
      FilterAppend(a[1..], b, p);
      var first := if p(a[0]) then [a[0]] else [];
      var middle, last := Filter(a[1..], p), Filter(b, p);
      assert Filter(a + b, p) == first + (middle + last);
      assert first + (middle + last) == (first + middle) + last;
    }
  }

  lemma FilterAll<T>(s: seq<T>, p: T -> bool)
    requires forall x :: x in s ==> p(x)
    ensures Filter(s, p) == s
  {
  }

  lemma FilterNone<T>(s: seq<T>, p: T -> bool)
    requires forall x :: x in s ==> !p(x)
    ensures Filter(s, p) == []
  {
  }
}
