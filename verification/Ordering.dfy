/** Lexicographic order on strings and the sorted listing of a finite set, as `sort()` produces it. */
module Ordering {

  predicate Less(a: string, b: string) {
    |b| > 0 && (|a| == 0 || a[0] < b[0] || (a[0] == b[0] && Less(a[1..], b[1..])))
  }

  /** Less at the first place where the strings differ, or ended there. */
  ghost predicate Precedes(a: string, b: string, n: nat) {
    n <= |a| && n < |b| && a[..n] == b[..n] && (n == |a| || a[n] < b[n])
  }

  lemma {:induction false} LessIff(a: string, b: string)
    ensures Less(a, b) <==> exists n: nat :: Precedes(a, b, n)
  {
    if |b| > 0 {
      if |a| == 0 || a[0] < b[0] {
        assert Precedes(a, b, 0);
      } else if a[0] == b[0] {
        LessIff(a[1..], b[1..]);
        if n: nat :| Precedes(a[1..], b[1..], n) {
          assert a[..n + 1] == [a[0]] + a[1..][..n] && b[..n + 1] == [b[0]] + b[1..][..n];
          assert Precedes(a, b, n + 1);
        }
        if n: nat :| Precedes(a, b, n) {
          assert n > 0;
          assert a[1..][..n - 1] == a[..n][1..] && b[1..][..n - 1] == b[..n][1..];
          assert Precedes(a[1..], b[1..], n - 1);
        }
      } else {
        forall n: nat ensures !Precedes(a, b, n) {
          assert n > 0 && n <= |a| && n < |b| ==> a[..n][0] != b[..n][0];
        }
      }
    }
  }

  lemma LessTotal(a: string, b: string)
    ensures a == b || Less(a, b) || Less(b, a)
  {
    if |a| > 0 && |b| > 0 && a[0] == b[0] {
      LessTotal(a[1..], b[1..]);
      if a[1..] == b[1..] {
        assert a == [a[0]] + a[1..] && b == [b[0]] + b[1..];
      }
    }
  }

  lemma LessTransitive(a: string, b: string, c: string)
    requires Less(a, b) && Less(b, c)
    ensures Less(a, c)
  {
  }

  lemma LessIrreflexive(a: string)
    ensures !Less(a, a)
  {
  }

  ghost predicate StrictlySorted(s: seq<string>) {
    forall i, j :: 0 <= i < j < |s| ==> Less(s[i], s[j])
  }

  predicate Least(m: string, s: set<string>) {
    m in s && forall x :: x in s ==> x == m || Less(m, x)
  }

  lemma LeastExists(s: set<string>)
    requires s != {}
    ensures exists m :: Least(m, s)
  {
    var y :| y in s;
    if s == {y} {
      assert Least(y, s);
    } else {
      LeastExists(s - {y});
      var n :| Least(n, s - {y});
      LessTotal(n, y);
      var m := if Less(y, n) then y else n;
      forall x | x in s ensures x == m || Less(m, x) {
        if x != y && x != n && m == y {
          LessTransitive(y, n, x);
        }
      }
      assert Least(m, s);
    }
  }

  lemma LeastUnique(s: set<string>)
    ensures forall m, n :: Least(m, s) && Least(n, s) ==> m == n
  {
    forall m, n | Least(m, s) && Least(n, s) && m != n ensures false {
      LessTransitive(m, n, m);
      LessIrreflexive(m);
    }
  }

  /** The strictly increasing sequence with exactly the elements of s. */
  function Sorted(s: set<string>): (r: seq<string>)
    ensures StrictlySorted(r)
    ensures forall x :: x in r <==> x in s
  {
    if s == {} then []
    else
      LeastExists(s);
      LeastUnique(s);
      var least :| Least(least, s);
      var rest := Sorted(s - {least});
      [least] + rest
  }

  lemma {:induction false} SortedUnique(a: seq<string>, b: seq<string>)
    requires StrictlySorted(a) && StrictlySorted(b)
    requires forall x :: x in a <==> x in b
    ensures a == b
  {
    assert forall i :: 0 <= i < |a| ==> a[i] in b;
    assert forall i :: 0 <= i < |b| ==> b[i] in a;
    if a != [] && b != [] {
      if a[0] != b[0] {
        assert a[0] in b && b[0] in a;
        var i :| 0 <= i < |b| && b[i] == a[0];
        var j :| 0 <= j < |a| && a[j] == b[0];
        LessTransitive(b[0], a[0], b[0]);
        LessIrreflexive(b[0]);
        assert false;
      }
      forall x ensures x in a[1..] <==> x in b[1..] {
        LessIrreflexive(a[0]);
        assert x in a ==> x == a[0] || x in a[1..];
        assert x in b ==> x == b[0] || x in b[1..];
      }
      SortedUnique(a[1..], b[1..]);
    }
  }

  function Insert(x: string, s: seq<string>): seq<string> {
    if s == [] then [x]
    else if s[0] == x then s
    else if Less(x, s[0]) then [x] + s
    else [s[0]] + Insert(x, s[1..])
  }

  lemma {:induction false} InsertSorts(x: string, s: seq<string>)
    requires StrictlySorted(s)
    ensures StrictlySorted(Insert(x, s))
    ensures forall y :: y in Insert(x, s) <==> y == x || y in s
  {
    if s != [] && s[0] != x {
      LessTotal(x, s[0]);
      if Less(x, s[0]) {
        forall j | 0 <= j < |s| ensures Less(x, s[j]) {
          if j > 0 {
            LessTransitive(x, s[0], s[j]);
          }
        }
      } else {
        InsertSorts(x, s[1..]);
        var r := Insert(x, s[1..]);
        forall j | 0 <= j < |r| ensures Less(s[0], r[j]) {
          assert r[j] in r;
          assert r[j] != x ==> r[j] in s[1..];
        }
        assert s == [s[0]] + s[1..];
      }
    }
  }

  method Sort(ids: seq<string>) returns (r: seq<string>)
    ensures r == Sorted(set x | x in ids)
  {
    r := [];
    for i := 0 to |ids|
      invariant StrictlySorted(r)
      invariant forall x :: x in r <==> x in ids[..i]
    {
      InsertSorts(ids[i], r);
      r := Insert(ids[i], r);
      assert ids[..i + 1] == ids[..i] + [ids[i]];
    }
    assert ids[..|ids|] == ids;
    SortedUnique(r, Sorted(set x | x in ids));
  }
}
