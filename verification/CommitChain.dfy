/**
 * The attested commit chain of src/superiority-v2.js: hash-linked entries, Merkle roots over ranges, and what an equal
 * root says about two chains. Digests are free terms: equal exactly when the digested inputs are.
 */
module CommitChain {
  import opened Basics

  datatype Hash =
    | Chained(previous: Option<Hash>, commitId: string, checksum: string, sequence: int, partitionId: string)
    | Leaf(value: Hash)
    | Node(left: Hash, right: Hash)
    | Nothing

  datatype Entry = Entry(sequence: int, commitId: string, checksum: string, chainHash: Hash)

  datatype Root = Root(startSequence: int, endSequence: int, count: nat, root: Hash)

  // ---------------------------------------------------------------- Merkle roots

  /** The next level: neighbours in pairs, an odd last one with itself. */
  function Up(level: seq<Hash>): (r: seq<Hash>)
    ensures |r| == (|level| + 1) / 2
    decreases |level|
  {
    if level == [] then []
    else if |level| == 1 then [Node(level[0], level[0])]
    else [Node(level[0], level[1])] + Up(level[2..])
  }

  function Top(level: seq<Hash>): Hash
    requires level != []
    decreases |level|
  {
    if |level| == 1 then level[0] else Top(Up(level))
  }

  function Leaves(values: seq<Hash>): (r: seq<Hash>)
    ensures |r| == |values| && forall i :: 0 <= i < |r| ==> r[i] == Leaf(values[i])
  {
    if values == [] then [] else [Leaf(values[0])] + Leaves(values[1..])
  }

  function MerkleRoot(values: seq<Hash>): Hash {
    if values == [] then Nothing else Top(Leaves(values))
  }

  /** The leaves of a tree from left to right. */
  function InOrder(h: Hash): seq<Hash> {
    match h
    case Node(left, right) => InOrder(left) + InOrder(right)
    case _ => [h]
  }

  function Row(level: seq<Hash>): seq<Hash> {
    if level == [] then [] else InOrder(level[0]) + Row(level[1..])
  }

  lemma {:induction false} RowUp(level: seq<Hash>)
    ensures Row(level) <= Row(Up(level))
    ensures forall h :: h in Row(Up(level)) ==> h in Row(level)
    decreases |level|
  {
    hide InOrder;
    if |level| == 1 {
      NodeRow(level[0], level[0], []);
    } else if |level| > 1 {
      RowUp(level[2..]);
      NodeRow(level[0], level[1], Up(level[2..]));
      assert level[1..][1..] == level[2..];
      var first := InOrder(level[0]) + InOrder(level[1]);
      assert Row(level) == first + Row(level[2..]);
    }
  }

  lemma NodeRow(a: Hash, b: Hash, rest: seq<Hash>)
    ensures Row([Node(a, b)] + rest) == InOrder(a) + InOrder(b) + Row(rest)
  {
    assert ([Node(a, b)] + rest)[1..] == rest;
  }

  lemma {:induction false} TopRow(level: seq<Hash>)
    requires level != []
    ensures Row(level) <= InOrder(Top(level))
    ensures forall h :: h in InOrder(Top(level)) ==> h in Row(level)
    decreases |level|
  {
    hide Up, InOrder;
    if |level| == 1 {
      assert Row(level[1..]) == [];
    } else {
      TopRow(Up(level));
      RowUp(level);
    }
  }

  lemma {:induction false} LeavesRow(values: seq<Hash>)
    ensures Row(Leaves(values)) == Leaves(values)
  {
    if values != [] {
      LeavesRow(values[1..]);
      assert Leaves(values)[1..] == Leaves(values[1..]);
    }
  }

  /** The tree's leaves are those of the values, in order, and after them only repetitions that fill it up. */
  ghost predicate Holds(root: Hash, values: seq<Hash>) {
    && |values| <= |InOrder(root)|
    && (forall i :: 0 <= i < |values| ==> InOrder(root)[i] == Leaf(values[i]))
    && (forall h :: h in InOrder(root) ==> h.Leaf? && h.value in values)
  }

  lemma RootHolds(values: seq<Hash>)
    requires values != []
    ensures Holds(MerkleRoot(values), values)
  {
    hide Top, InOrder, Row;
    var leaves := Leaves(values);
    TopRow(leaves);
    LeavesRow(values);
    var all := InOrder(Top(leaves));
    assert all[..|leaves|] == leaves;
    assert forall i :: 0 <= i < |values| ==> all[i] == leaves[i];
    forall h | h in all ensures h.Leaf? && h.value in values {
      var i :| 0 <= i < |leaves| && leaves[i] == h;
    }
  }

  /** The loop over the pairs of one level. */
  method NextLevel(level: seq<Hash>) returns (next: seq<Hash>)
    ensures next == Up(level)
  {
    next := [];
    var i := 0;
    while i < |level|
      invariant 0 <= i <= |level| + 1
      invariant next + Up(if i <= |level| then level[i..] else []) == Up(level)
    {
      var rest := level[i..];
      var pair := Node(level[i], if i + 1 < |level| then level[i + 1] else level[i]);
      UpStep(rest);
      assert |rest| > 1 ==> rest[2..] == level[i + 2..];
      next := next + [pair];
      i := i + 2;
    }
  }

  lemma UpStep(level: seq<Hash>)
    requires level != []
    ensures Up(level) ==
      [Node(level[0], if |level| > 1 then level[1] else level[0])] + Up(if |level| > 1 then level[2..] else [])
  {
  }

  /** `merkleRoot`: level by level. */
  method ComputeRoot(values: seq<Hash>) returns (root: Hash)
    ensures root == MerkleRoot(values)
    ensures if values == [] then root == Nothing else Holds(root, values)
  {
    hide Up, Holds;
    if values == [] {
      return Nothing;
    }
    RootHolds(values);
    var level := Leaves(values);
    while |level| > 1
      invariant level != [] && Top(level) == MerkleRoot(values)
      decreases |level|
    {
      level := NextLevel(level);
    }
    root := level[0];
  }

  lemma {:induction false} UpInjective(a: seq<Hash>, b: seq<Hash>)
    requires |a| == |b| && Up(a) == Up(b)
    ensures a == b
    decreases |a|
  {
    hide Up;
    if a != [] {
      UpStep(a);
      UpStep(b);
      assert Up(a)[0] == Up(b)[0];
      if |a| > 1 {
        assert Up(a)[1..] == Up(a[2..]) && Up(b)[1..] == Up(b[2..]);
        UpInjective(a[2..], b[2..]);
        assert a == [a[0], a[1]] + a[2..] && b == [b[0], b[1]] + b[2..];
      }
    }
  }

  lemma {:induction false} TopInjective(a: seq<Hash>, b: seq<Hash>)
    requires |a| == |b| > 0 && Top(a) == Top(b)
    ensures a == b
    decreases |a|
  {
    hide Up;
    if |a| > 1 {
      TopInjective(Up(a), Up(b));
      UpInjective(a, b);
    }
  }

  /** Over lists of one length a root determines the list. */
  lemma RootInjective(a: seq<Hash>, b: seq<Hash>)
    requires |a| == |b|
    ensures MerkleRoot(a) == MerkleRoot(b) <==> a == b
  {
    hide Top;
    if a != [] && MerkleRoot(a) == MerkleRoot(b) {
      TopInjective(Leaves(a), Leaves(b));
      forall i | 0 <= i < |a| ensures a[i] == b[i] {
        assert Leaves(a)[i] == Leaves(b)[i];
      }
    }
  }

  // ---------------------------------------------------------------- lists without repetition

  ghost predicate Distinct(level: seq<Hash>) {
    forall i, j :: 0 <= i < j < |level| ==> level[i] != level[j]
  }

  function Height(h: Hash): nat {
    match h
    case Node(left, _) => 1 + Height(left)
    case _ => 0
  }

  ghost predicate Level(level: seq<Hash>, n: nat) {
    forall i :: 0 <= i < |level| ==> Height(level[i]) == n
  }

  lemma {:induction false} UpAt(level: seq<Hash>, i: nat)
    requires i < (|level| + 1) / 2
    ensures Up(level)[i] == Node(level[2 * i], level[if 2 * i + 1 < |level| then 2 * i + 1 else 2 * i])
    decreases |level|
  {
    if i > 0 {
      UpAt(level[2..], i - 1);
    }
  }

  lemma UpLevel(level: seq<Hash>, n: nat)
    requires Level(level, n)
    ensures Level(Up(level), n + 1)
    ensures Distinct(level) ==> Distinct(Up(level))
  {
    hide Up;
    forall i | 0 <= i < |Up(level)| ensures Up(level)[i].Node? && Up(level)[i].left == level[2 * i] {
      UpAt(level, i);
    }
  }

  lemma {:induction false} TopHeight(level: seq<Hash>, n: nat)
    requires level != [] && Level(level, n)
    ensures Height(Top(level)) >= n + if |level| > 1 then 1 else 0
    decreases |level|
  {
    hide Up;
    if |level| > 1 {
      UpLevel(level, n);
      TopHeight(Up(level), n + 1);
    }
  }

  lemma UpDistinctInjective(a: seq<Hash>, b: seq<Hash>)
    requires Distinct(a) && Distinct(b) && Up(a) == Up(b)
    ensures a == b
  {
    hide Up, Distinct;
    var m := |Up(a)|;
    if |a| < |b| {
      UpAt(a, m - 1);
      UpAt(b, m - 1);
      assert b[|b| - 2] == b[|b| - 1];
      Twice(b);
    } else if |b| < |a| {
      UpAt(a, m - 1);
      UpAt(b, m - 1);
      assert a[|a| - 2] == a[|a| - 1];
      Twice(a);
    } else {
      UpInjective(a, b);
    }
  }

  lemma Twice(a: seq<Hash>)
    requires |a| >= 2 && a[|a| - 2] == a[|a| - 1]
    ensures !Distinct(a)
  {
  }

  lemma {:induction false} TopDistinctInjective(a: seq<Hash>, b: seq<Hash>, n: nat)
    requires a != [] && b != [] && Distinct(a) && Distinct(b) && Level(a, n) && Level(b, n) && Top(a) == Top(b)
    ensures a == b
    decreases |a|
  {
    hide Up, Distinct;
    TopHeight(a, n);
    TopHeight(b, n);
    if |a| > 1 && |b| > 1 {
      UpLevel(a, n);
      UpLevel(b, n);
      TopDistinctInjective(Up(a), Up(b), n + 1);
      UpDistinctInjective(a, b);
    }
  }

  /** Over lists without repetition, of any lengths, a root determines the list. */
  lemma DistinctRootInjective(a: seq<Hash>, b: seq<Hash>)
    requires Distinct(a) && Distinct(b)
    ensures MerkleRoot(a) == MerkleRoot(b) <==> a == b
  {
    hide Top;
    if MerkleRoot(a) == MerkleRoot(b) {
      var x, y := Leaves(a), Leaves(b);
      if a != [] {
        TopHeight(x, 0);
        TopLeaf(x);
      }
      if b != [] {
        TopHeight(y, 0);
        TopLeaf(y);
      }
      if a != [] && b != [] {
        TopDistinctInjective(x, y, 0);
        forall i | 0 <= i < |a| ensures a[i] == b[i] {
          assert x[i] == y[i];
        }
      }
    }
  }

  lemma {:induction false} TopLeaf(level: seq<Hash>)
    requires level != [] && forall i :: 0 <= i < |level| ==> level[i] != Nothing
    ensures Top(level) != Nothing
    decreases |level|
  {
    hide Up;
    if |level| > 1 {
      forall i | 0 <= i < |Up(level)| ensures Up(level)[i] != Nothing {
        UpAt(level, i);
      }
      TopLeaf(Up(level));
    }
  }

  /** Otherwise the lengths matter: an odd last value may as well be there twice. */
  lemma RepeatedLast(x: Hash, y: Hash, z: Hash)
    ensures MerkleRoot([x, y, z]) == MerkleRoot([x, y, z, z])
  {
    var a, b := Leaves([x, y, z]), Leaves([x, y, z, z]);
    assert Up(a) == Up(b);
    hide Up, Leaves;
    assert Top(a) == Top(Up(a)) && Top(b) == Top(Up(b));
  }

  // ---------------------------------------------------------------- the chain

  function LinkOf(e: Entry, previous: Option<Hash>, partitionId: string): Hash {
    Chained(previous, e.commitId, e.checksum, e.sequence, partitionId)
  }

  function Before(es: seq<Entry>, i: nat): Option<Hash>
    requires i <= |es|
  {
    if i == 0 then None else Some(es[i - 1].chainHash)
  }

  predicate LinkHolds(es: seq<Entry>, i: nat, partitionId: string)
    requires i < |es|
  {
    es[i].chainHash == LinkOf(es[i], Before(es, i), partitionId)
  }

  /** Every entry is linked to the one before it. */
  ghost predicate Linked(es: seq<Entry>, partitionId: string) {
    forall i: nat :: i < |es| ==> LinkHolds(es, i, partitionId)
  }

  ghost predicate Rising(es: seq<Entry>) {
    forall i, j :: 0 <= i < j < |es| ==> es[i].sequence < es[j].sequence
  }

  function Hashes(es: seq<Entry>): (r: seq<Hash>)
    ensures |r| == |es| && forall i :: 0 <= i < |r| ==> r[i] == es[i].chainHash
  {
    if es == [] then [] else [es[0].chainHash] + Hashes(es[1..])
  }

  function InRange(es: seq<Entry>, low: int, high: int): seq<Entry> {
    if es == [] then []
    else InRange(es[..|es| - 1], low, high) + (if low <= es[|es| - 1].sequence <= high then [es[|es| - 1]] else [])
  }

  function RootOf(slice: seq<Entry>): Root
    requires slice != []
  {
    Root(slice[0].sequence, slice[|slice| - 1].sequence, |slice|, MerkleRoot(Hashes(slice)))
  }

  /** The root was taken over a run of consecutive entries. */
  ghost predicate Sealed(es: seq<Entry>, r: Root) {
    exists i: nat, j: nat :: i < j <= |es| && r == RootOf(es[i..j])
  }

  predicate RootChecks(es: seq<Entry>, r: Root) {
    var slice := InRange(es, r.startSequence, r.endSequence);
    |slice| == r.count && MerkleRoot(Hashes(slice)) == r.root
  }

  lemma InRangeNext(es: seq<Entry>, n: nat, low: int, high: int)
    requires 0 < n <= |es|
    ensures InRange(es[..n], low, high) ==
      InRange(es[..n - 1], low, high) + if low <= es[n - 1].sequence <= high then [es[n - 1]] else []
  {
    assert es[..n][..n - 1] == es[..n - 1];
  }

  lemma WithinIff(es: seq<Entry>, i: nat, j: nat, k: nat)
    requires Rising(es) && i < j <= |es| && k < |es|
    ensures es[i].sequence <= es[k].sequence <= es[j - 1].sequence <==> i <= k < j
  {
  }

  lemma {:induction false} InRangeIs(es: seq<Entry>, i: nat, j: nat, n: nat)
    requires Rising(es) && i < j <= |es| && n <= |es|
    ensures InRange(es[..n], es[i].sequence, es[j - 1].sequence) == if n <= i then [] else es[i..if n < j then n else j]
  {
    if n > 0 {
      InRangeIs(es, i, j, n - 1);
      InRangeNext(es, n, es[i].sequence, es[j - 1].sequence);
      WithinIff(es, i, j, n - 1);
      hide InRange, Rising;
      var init := InRange(es[..n - 1], es[i].sequence, es[j - 1].sequence);
      assert init + [] == init;
      if i < n <= j {
        assert es[i..n] == es[i..n - 1] + [es[n - 1]];
      }
    }
  }

  /** A root over consecutive entries checks, in every later state of the chain too. */
  lemma SealedChecks(es: seq<Entry>, r: Root)
    requires Rising(es) && Sealed(es, r)
    ensures RootChecks(es, r)
  {
    hide MerkleRoot, InRange, Hashes, Rising;
    var i: nat, j: nat :| i < j <= |es| && r == RootOf(es[i..j]);
    InRangeIs(es, i, j, |es|);
    assert es[..|es|] == es;
  }

  lemma LinkedAt(es: seq<Entry>, i: nat, partitionId: string)
    requires Linked(es, partitionId) && i < |es|
    ensures es[i] == Entry(es[i].sequence, es[i].commitId, es[i].checksum,
                           Chained(Before(es, i), es[i].commitId, es[i].checksum, es[i].sequence, partitionId))
  {
    assert LinkHolds(es, i, partitionId);
  }

  /** Linked hashes carry the whole past: equal hashes mean equal entries, at the same place, up to there. */
  lemma {:induction false} HashPinsPast(a: seq<Entry>, b: seq<Entry>, i: nat, j: nat, partitionId: string)
    requires Linked(a, partitionId) && Linked(b, partitionId) && i < |a| && j < |b|
    requires a[i].chainHash == b[j].chainHash
    ensures i == j && a[..i + 1] == b[..j + 1]
    decreases i
  {
    hide Linked;
    LinkedAt(a, i, partitionId);
    LinkedAt(b, j, partitionId);
    assert Before(a, i) == Before(b, j);
    assert a[..i + 1] == a[..i] + [a[i]] && b[..j + 1] == b[..j] + [b[j]];
    if i > 0 {
      HashPinsPast(a, b, i - 1, j - 1, partitionId);
    }
  }

  /** A linked chain holds no hash twice. */
  lemma HashesDistinct(es: seq<Entry>, i: nat, j: nat, partitionId: string)
    requires Linked(es, partitionId) && i <= j <= |es|
    ensures Distinct(Hashes(es[i..j]))
  {
    hide Linked;
    var x := Hashes(es[i..j]);
    forall m, n | 0 <= m < n < |x| ensures x[m] != x[n] {
      if x[m] == x[n] {
        HashPinsPast(es, es, i + m, i + n, partitionId);
      }
    }
  }

  /**
   * Two chains of one partition have the same root over two ranges, of whatever lengths, exactly when the ranges lie at
   * the same place and the chains agree on every entry up to their end, also on those before them.
   */
  lemma EqualRoots(a: seq<Entry>, b: seq<Entry>, i: nat, j: nat, k: nat, l: nat, partitionId: string)
    requires Linked(a, partitionId) && Linked(b, partitionId)
    requires i < j <= |a| && k < l <= |b|
    ensures RootOf(a[i..j]).root == RootOf(b[k..l]).root <==> i == k && j == l && a[..j] == b[..l]
  {
    hide *;
    HashesDistinct(a, i, j, partitionId);
    HashesDistinct(b, k, l, partitionId);
    DistinctRootInjective(Hashes(a[i..j]), Hashes(b[k..l]));
    RootHash(a[i..j]);
    RootHash(b[k..l]);
    if Hashes(a[i..j]) == Hashes(b[k..l]) {
      SameRange(a, b, i, j, k, l, partitionId);
    }
    if i == k && j == l && a[..j] == b[..l] {
      assert a[i..j] == a[..j][i..] && b[k..l] == b[..l][k..];
    }
  }

  lemma RootHash(slice: seq<Entry>)
    requires slice != []
    ensures RootOf(slice).root == MerkleRoot(Hashes(slice))
  {
  }

  lemma LastHash(es: seq<Entry>, i: nat, j: nat)
    requires i < j <= |es|
    ensures |Hashes(es[i..j])| == j - i && Hashes(es[i..j])[j - i - 1] == es[j - 1].chainHash
  {
  }

  lemma SameRange(a: seq<Entry>, b: seq<Entry>, i: nat, j: nat, k: nat, l: nat, partitionId: string)
    requires Linked(a, partitionId) && Linked(b, partitionId)
    requires i < j <= |a| && k < l <= |b| && Hashes(a[i..j]) == Hashes(b[k..l])
    ensures i == k && j == l && a[..j] == b[..l]
  {
    hide *;
    LastHash(a, i, j);
    LastHash(b, k, l);
    HashPinsPast(a, b, j - 1, l - 1, partitionId);
  }

  class AttestedCommitChain {
    const partitionId: string
    const rootInterval: nat
    var entries: seq<Entry>
    var roots: seq<Root>

    ghost predicate Valid()
      reads this
    {
      && rootInterval >= 1
      && Linked(entries, partitionId) && Rising(entries)
      && forall i :: 0 <= i < |roots| ==> Sealed(entries, roots[i])
    }

    constructor (partitionId: string, rootInterval: nat)
      requires rootInterval >= 1
      ensures Valid() && entries == [] && roots == [] && this.partitionId == partitionId &&
        this.rootInterval == rootInterval
    {
      this.partitionId, this.rootInterval, entries, roots := partitionId, rootInterval, [], [];
    }

    /** `append`; false when it throws. A root is taken whenever the length is a multiple of the interval. */
    method Append(commitId: string, checksum: string, sequence: int) returns (ok: bool)
      requires Valid()
      modifies this
      ensures Valid()
      ensures ok <==>
        commitId != "" && checksum != "" &&
        (old(entries) != [] ==> old(entries)[|old(entries)| - 1].sequence < sequence)
      ensures if ok then |entries| == |old(entries)| + 1 && entries[..|old(entries)|] == old(entries)
                && entries[|old(entries)|].(chainHash := Nothing) == Entry(sequence, commitId, checksum, Nothing)
              else entries == old(entries)
      ensures old(roots) <= roots && |roots| == |old(roots)| + if ok && |entries| % rootInterval == 0 then 1 else 0
    {
      if commitId == "" || checksum == "" || (entries != [] && sequence <= entries[|entries| - 1].sequence) {
        return false;
      }
      var previous := if entries == [] then None else Some(entries[|entries| - 1].chainHash);
      var entry := Entry(sequence, commitId, checksum, Chained(previous, commitId, checksum, sequence, partitionId));
      Extends(entries, entry, partitionId, roots);
      entries := entries + [entry];
      if |entries| % rootInterval == 0 {
        SealNow();
      }
      ok := true;
    }

    method SealNow()
      requires Valid() && entries != []
      modifies this`roots
      ensures Valid()
      ensures exists start: nat ::
        start < |entries| && |entries| - start <= rootInterval && roots == old(roots) + [RootOf(entries[start..])]
    {
      hide MerkleRoot, Linked, Rising;
      var start := if |entries| > rootInterval then |entries| - rootInterval else 0;
      var slice := entries[start..];
      assert slice == entries[start..|entries|];
      var root := ComputeRoot(Hashes(slice));
      roots := roots + [Root(slice[0].sequence, slice[|slice| - 1].sequence, |slice|, root)];
    }

    /** `seal`: nothing new when the last root already ends at the last entry. */
    method Seal()
      requires Valid()
      modifies this`roots
      ensures Valid() && old(roots) <= roots
      ensures entries != [] ==> roots != [] && roots[|roots| - 1].endSequence == entries[|entries| - 1].sequence
    {
      hide MerkleRoot, Linked, Rising, Hashes, Sealed;
      if entries == [] || (roots != [] && roots[|roots| - 1].endSequence == entries[|entries| - 1].sequence) {
        return;
      }
      SealNow();
    }

    /** `verify`. It answers true exactly when the links hold and every root checks. */
    method Verify() returns (ok: bool)
      ensures ok <==> Linked(entries, partitionId) && forall i :: 0 <= i < |roots| ==> RootChecks(entries, roots[i])
    {
      hide RootChecks, Linked;
      ok := CheckLinks();
      if ok {
        for i := 0 to |roots|
          invariant forall j :: 0 <= j < i ==> RootChecks(entries, roots[j])
        {
          var checks := CheckRoot(roots[i]);
          if !checks {
            return false;
          }
        }
      }
    }

    method CheckLinks() returns (ok: bool)
      ensures ok <==> Linked(entries, partitionId)
    {
      var previous: Option<Hash> := None;
      for i := 0 to |entries|
        invariant previous == Before(entries, i)
        invariant forall j: nat :: j < i ==> LinkHolds(entries, j, partitionId)
      {
        assert LinkHolds(entries, i, partitionId) <==>
          entries[i].chainHash ==
            Chained(previous, entries[i].commitId, entries[i].checksum, entries[i].sequence, partitionId);
        if Chained(previous, entries[i].commitId, entries[i].checksum, entries[i].sequence, partitionId) !=
          entries[i].chainHash {
          return false;
        }
        previous := Some(entries[i].chainHash);
      }
      ok := true;
    }

    method CheckRoot(r: Root) returns (ok: bool)
      ensures ok == RootChecks(entries, r)
    {
      hide MerkleRoot, InRange, Hashes;
      var slice := InRange(entries, r.startSequence, r.endSequence);
      var root := ComputeRoot(Hashes(slice));
      ok := |slice| == r.count && root == r.root;
    }

    /** In every state reached by `append` and `seal` verification succeeds. */
    lemma AlwaysVerifies()
      requires Valid()
      ensures Linked(entries, partitionId) && forall i :: 0 <= i < |roots| ==> RootChecks(entries, roots[i])
    {
      hide RootChecks, Sealed;
      forall i | 0 <= i < |roots| ensures RootChecks(entries, roots[i]) {
        SealedChecks(entries, roots[i]);
      }
    }
  }

  lemma Extends(es: seq<Entry>, e: Entry, partitionId: string, roots: seq<Root>)
    requires Linked(es, partitionId) && Rising(es) && (es != [] ==> es[|es| - 1].sequence < e.sequence)
    requires e.chainHash == LinkOf(e, Before(es, |es|), partitionId)
    requires forall i :: 0 <= i < |roots| ==> Sealed(es, roots[i])
    ensures Linked(es + [e], partitionId) && Rising(es + [e])
    ensures forall i :: 0 <= i < |roots| ==> Sealed(es + [e], roots[i])
  {
    hide Sealed, LinkOf;
    var all := es + [e];
    forall i: nat | i < |all| ensures LinkHolds(all, i, partitionId) {
      assert i < |es| ==> LinkHolds(es, i, partitionId);
      assert Before(all, i) == Before(es, i);
    }
    forall i | 0 <= i < |roots| ensures Sealed(all, roots[i]) {
      SealedGrows(es, e, roots[i]);
    }
  }

  lemma SealedGrows(es: seq<Entry>, e: Entry, r: Root)
    requires Sealed(es, r)
    ensures Sealed(es + [e], r)
  {
    hide RootOf;
    var x: nat, y: nat :| x < y <= |es| && r == RootOf(es[x..y]);
    assert (es + [e])[x..y] == es[x..y];
  }
}
