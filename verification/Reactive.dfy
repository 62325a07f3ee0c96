/**
 * Dependency pruning of src/reactive.js: which fields a query looks at, which of them it watches, and exactly when a
 * commit that it skips leaves those fields alone.
 */
module Reactive {
  import opened Basics
  import opened Json
  import opened Documents
  import opened Transactions
  import CommitFabric

  type Mutation = CommitFabric.Mutation
  type Rows = map<string, Record>

  // ---------------------------------------------------------------- dependencies

  predicate StartsWith(s: string, prefix: string) {
    |prefix| <= |s| && s[..|prefix|] == prefix
  }

  /** The paths of entries that `walk` collects: of the query and of negated queries, but nothing inside an array. */
  function Walk(clauses: seq<Clause>): seq<string>
    decreases clauses, 0
  {
    if clauses == [] then [] else WalkClause(clauses[0]) + Walk(clauses[1..])
  }

  function WalkClause(c: Clause): seq<string>
    decreases c, 1
  {
    match c
    case Field(path, _) => [path]
    case Not(Object(_)) => WalkBranch(c.inner)
    case _ => []
  }

  function WalkBranch(b: Branch): seq<string>
    requires b.Object?
    decreases b, 0
  {
    WalkQuery(b.query)
  }

  function WalkQuery(q: Query): seq<string>
    decreases q, 0
  {
    Walk(q.clauses)
  }

  function CompileDependencies(q: Query): seq<string> {
    if WalkQuery(q) == [] then ["*"] else WalkQuery(q)
  }

  /** The query, or a query that it negates, has an entry for the path. */
  ghost predicate HasEntry(q: Query, path: string)
    decreases q, 0
  {
    exists i :: 0 <= i < |q.clauses| && EntryFor(q.clauses[i], path)
  }

  ghost predicate EntryFor(c: Clause, path: string)
    decreases c, 0
  {
    match c
    case Field(p, _) => p == path
    case Not(Object(inner)) => HasEntry(inner, path)
    case _ => false
  }

  /** The watched paths are those of the entries, under any number of `$not` but under no other operator. */
  lemma {:induction false} WatchedIff(q: Query, path: string)
    ensures path in WalkQuery(q) <==> HasEntry(q, path)
    decreases q, 1
  {
    WalkIff(q.clauses, path);
  }

  lemma {:induction false} WalkIff(clauses: seq<Clause>, path: string)
    ensures path in Walk(clauses) <==> exists i :: 0 <= i < |clauses| && EntryFor(clauses[i], path)
    decreases clauses, 0
  {
    if clauses != [] {
      var c, rest := clauses[0], clauses[1..];
      WalkIff(rest, path);
      EntryIff(c, path);
      hide EntryFor, WalkClause;
      assert forall i :: 0 <= i < |rest| ==> rest[i] == clauses[i + 1];
      assert forall i :: 0 < i < |clauses| ==> clauses[i] == rest[i - 1];
    }
  }

  lemma {:induction false} EntryIff(c: Clause, path: string)
    ensures path in WalkClause(c) <==> EntryFor(c, path)
    decreases c, 0
  {
    match c
    case Not(Object(inner)) => WatchedIff(inner, path);
    case _ =>
  }

  predicate Touches(dep: string, field: string) {
    field == dep || StartsWith(field, dep + ".") || StartsWith(dep, field + ".")
  }

  predicate MayAffect(deps: seq<string>, fields: set<string>) {
    exists d :: d in deps && (d == "*" || "*" in fields || exists f :: f in fields && Touches(d, f))
  }

  lemma {:induction false} HeadTouches(path: string)
    ensures Touches(path, Split(path)[0])
  {
    var parts := Split(path);
    if path != "" && path[0] != '.' {
      HeadTouches(path[1..]);
      var rest := Split(path[1..]);
      assert parts[0] == [path[0]] + rest[0];
      if path[1..] == rest[0] {
        assert path == [path[0]] + path[1..];
      } else {
        HeadPrefix(path[1..]);
        assert path[..|parts[0] + "."|] == [path[0]] + path[1..][..|rest[0] + "."|];
      }
    } else if path != "" {
      assert path[..1] == "" + ".";
    }
  }

  lemma {:induction false} HeadPrefix(path: string)
    ensures path == Split(path)[0] || StartsWith(path, Split(path)[0] + ".")
  {
    if path != "" && path[0] != '.' {
      HeadPrefix(path[1..]);
      var rest := Split(path[1..]);
      if path[1..] == rest[0] {
        assert path == [path[0]] + path[1..];
      } else {
        assert path[..|rest[0]| + 2] == [path[0]] + path[1..][..|rest[0]| + 1];
      }
    } else if path != "" {
      assert path[..1] == "" + ".";
    }
  }

  /** Paths below those of entries, as `walk` collects them inside conditions that are objects. */
  ghost predicate Nested(q: Query, nested: seq<string>) {
    forall n :: n in nested ==> Below(q, n)
  }

  ghost predicate Below(q: Query, n: string) {
    exists p, rest :: p in WalkQuery(q) && n == p + "." + rest
  }

  /** All that `walk` collects for a query: the paths of its entries and paths below them. */
  ghost predicate Compiled(deps: seq<string>, q: Query) {
    CompileDependencies(q) <= deps && Nested(q, deps[|CompileDependencies(q)|..])
  }

  /** A longer path never triggers where its own prefix does not. */
  lemma NestedAddsNothing(p: string, q: string, f: string)
    requires Touches(p + "." + q, f)
    ensures Touches(p, f)
  {
    var d, n := p + "." + q, |p|;
    assert d[..n + 1] == p + ".";
    if f == d || StartsWith(f, d + ".") {
      assert f[..n + 1] == d[..n + 1];
    } else {
      assert d[..|f| + 1] == f + ".";
      if |f| < n {
        assert p[..|f| + 1] == d[..|f| + 1];
      } else if |f| > n {
        assert f[..n + 1] == d[..n + 1];
      } else {
        assert f == d[..n] == p;
      }
    }
  }

  /** The paths of the entries alone decide whether a commit may affect a query. */
  lemma EntriesDecide(deps: seq<string>, q: Query, fields: set<string>)
    requires Compiled(deps, q)
    ensures MayAffect(deps, fields) <==> MayAffect(CompileDependencies(q), fields)
  {
    hide Touches, WalkQuery;
    var own := CompileDependencies(q);
    forall d | d in own ensures d in deps {
      var i :| 0 <= i < |own| && own[i] == d;
      assert deps[i] == d;
    }
    if d :| d in deps && d !in own && (d == "*" || "*" in fields || exists f :: f in fields && Touches(d, f)) {
      var i :| 0 <= i < |deps| && deps[i] == d;
      assert d in deps[|own|..] by {
        assert i < |own| ==> d in own;
        assert deps[|own|..][i - |own|] == d;
      }
      assert Below(q, d);
      var p, rest :| p in WalkQuery(q) && d == p + "." + rest;
      assert p in own;
      assert d[|p|] == '.';
      if f :| f in fields && Touches(d, f) {
        NestedAddsNothing(p, rest, f);
      }
    }
  }

  // ---------------------------------------------------------------- what a verdict depends on

  /** The top-level fields a query looks at, also inside arrays of branches. */
  function Heads(clauses: seq<Clause>): set<string>
    decreases clauses, 0
  {
    if clauses == [] then {} else HeadsOf(clauses[0]) + Heads(clauses[1..])
  }

  function HeadsOf(c: Clause): set<string>
    decreases c, 1
  {
    match c
    case Field(path, _) => {Split(path)[0]}
    case Not(Object(_)) => HeadsIn(c.inner)
    case And(Array(branches)) => HeadsAll(branches)
    case Or(Array(branches)) => HeadsAll(branches)
    case Nor(Array(branches)) => HeadsAll(branches)
    case _ => {}
  }

  function HeadsIn(b: Branch): set<string>
    decreases b, 0
  {
    if b.NotObject? then {} else HeadsQuery(b.query)
  }

  function HeadsQuery(q: Query): set<string>
    decreases q, 0
  {
    Heads(q.clauses)
  }

  function HeadsAll(branches: seq<Branch>): set<string>
    decreases branches, 0
  {
    if branches == [] then {} else HeadsIn(branches[0]) + HeadsAll(branches[1..])
  }

  /** Two documents agree on these top-level fields. */
  ghost predicate Agree(a: map<string, Json>, b: map<string, Json>, heads: set<string>) {
    forall f :: f in heads ==> Lookup(a, f) == Lookup(b, f)
  }

  lemma ResolveAgrees(a: map<string, Json>, b: map<string, Json>, path: string)
    requires Lookup(a, Split(path)[0]) == Lookup(b, Split(path)[0])
    ensures GetPath(Obj(a), path) == GetPath(Obj(b), path)
  {
  }

  lemma {:induction false} EveryAgrees(a: map<string, Json>, b: map<string, Json>, clauses: seq<Clause>)
    requires Agree(a, b, Heads(clauses))
    ensures Every(Obj(a), clauses) == Every(Obj(b), clauses)
    decreases clauses, 0
  {
    hide Holds, HeadsOf;
    if clauses != [] {
      HoldsAgrees(a, b, clauses[0]);
      EveryAgrees(a, b, clauses[1..]);
    }
  }

  lemma {:induction false} HoldsAgrees(a: map<string, Json>, b: map<string, Json>, c: Clause)
    requires Agree(a, b, HeadsOf(c))
    ensures Holds(Obj(a), c) == Holds(Obj(b), c)
    decreases c, 1
  {
    hide Split, Meets, GetPath;
    match c
    case Field(path, _) => ResolveAgrees(a, b, path);
    case Not(Object(_)) => BranchAgrees(a, b, c.inner);
    case And(Array(branches)) => BranchesAgree(a, b, branches);
    case Or(Array(branches)) => BranchesAgree(a, b, branches);
    case Nor(Array(branches)) => BranchesAgree(a, b, branches);
    case _ =>
  }

  lemma {:induction false} BranchAgrees(a: map<string, Json>, b: map<string, Json>, branch: Branch)
    requires Agree(a, b, HeadsIn(branch))
    ensures MatchesBranch(Obj(a), branch) == MatchesBranch(Obj(b), branch)
    decreases branch, 0
  {
    hide Heads, Every;
    if branch.Object? {
      MatchesAgrees(a, b, branch.query);
    }
  }

  /** A verdict depends only on the fields the query looks at. */
  lemma {:induction false} MatchesAgrees(a: map<string, Json>, b: map<string, Json>, q: Query)
    requires Agree(a, b, HeadsQuery(q))
    ensures Matches(Obj(a), q) == Matches(Obj(b), q)
    decreases q, 0
  {
    hide Heads, Every;
    EveryAgrees(a, b, q.clauses);
  }

  lemma {:induction false} BranchesAgree(a: map<string, Json>, b: map<string, Json>, branches: seq<Branch>)
    requires Agree(a, b, HeadsAll(branches))
    ensures AllOf(Obj(a), branches) == AllOf(Obj(b), branches)
    ensures AnyOf(Obj(a), branches) == AnyOf(Obj(b), branches)
    decreases branches, 0
  {
    hide HeadsIn, MatchesBranch;
    if branches != [] {
      BranchAgrees(a, b, branches[0]);
      BranchesAgree(a, b, branches[1..]);
    }
  }

  /**
   * Every field the query looks at, also inside arrays of branches, is watched: it heads some collected path, or
   * nothing was collected and everything is watched. The id never differs between versions of a record.
   */
  ghost predicate Covered(q: Query) {
    || "*" in CompileDependencies(q)
    || forall f :: f in HeadsQuery(q) && f != "id" && f != "*" ==> exists d :: d in WalkQuery(q) && Split(d)[0] == f
  }

  /** A change that a covered query may skip leaves every field it looks at alone. */
  lemma SkippedAgrees(q: Query, before: Record, after: Record)
    requires Covered(q) && before.id == after.id &&
      !MayAffect(CompileDependencies(q), ChangedFields(Some(before), Some(after)))
    ensures Agree(before.Fields(), after.Fields(), HeadsQuery(q))
  {
    hide Split, Touches, WalkQuery, HeadsQuery;
    var deps, fields := CompileDependencies(q), ChangedFields(Some(before), Some(after));
    DepsSome(q, fields);
    forall f | f in HeadsQuery(q) ensures Lookup(before.Fields(), f) == Lookup(after.Fields(), f) {
      if f != "id" && f != "*" {
        var d :| d in WalkQuery(q) && Split(d)[0] == f;
        HeadTouches(d);
        assert f !in fields;
      }
    }
  }

  lemma DepsSome(q: Query, fields: set<string>)
    ensures "*" in fields ==> MayAffect(CompileDependencies(q), fields)
    ensures CompileDependencies(q) != []
  {
    hide WalkQuery;
    assert CompileDependencies(q)[0] in CompileDependencies(q);
  }

  /** A commit that the query may skip can leave a field it looks at changed. */
  ghost predicate SkipsBlindly(q: Query, before: Record, after: Record) {
    && before.id == after.id
    && !MayAffect(CompileDependencies(q), ChangedFields(Some(before), Some(after)))
    && !Agree(before.Fields(), after.Fields(), HeadsQuery(q))
  }

  lemma DotInside(f: string, d: string)
    requires StartsWith(f, d + ".")
    ensures '.' in f
  {
    assert f[|d|] == (d + ".")[|d|];
  }

  /** A path touches a field name without dots only when it starts with it. */
  lemma TouchesHead(d: string, f: string)
    requires '.' !in f && Touches(d, f)
    ensures Split(d)[0] == f
  {
    if StartsWith(f, d + ".") {
      DotInside(f, d);
    } else if f == d {
      SplitPlain(f);
    } else {
      HeadEnds(d, f);
    }
  }

  lemma {:induction false} HeadEnds(d: string, f: string)
    requires '.' !in f && StartsWith(d, f + ".")
    ensures Split(d)[0] == f
  {
    if f == "" {
      assert d[0] == '.';
    } else {
      assert d[0] == f[0] && d[1..][..|f[1..] + "."|] == f[1..] + "." by {
        assert d[..|f + "."|] == f + ".";
        assert (f + ".")[1..] == f[1..] + ".";
        assert d[..|f + "."|][1..] == d[1..][..|f|];
      }
      HeadEnds(d[1..], f[1..]);
      assert f == [f[0]] + f[1..];
    }
  }

  lemma {:induction false} HeadsPlain(clauses: seq<Clause>, f: string)
    requires f in Heads(clauses)
    ensures '.' !in f
    decreases clauses, 0
  {
    if f in HeadsOf(clauses[0]) {
      HeadsOfPlain(clauses[0], f);
    } else {
      HeadsPlain(clauses[1..], f);
    }
  }

  lemma {:induction false} HeadsOfPlain(c: Clause, f: string)
    requires f in HeadsOf(c)
    ensures '.' !in f
    decreases c, 1
  {
    match c
    case Field(path, _) => SplitNoDots(path, 0);
    case Not(Object(_)) => HeadsInPlain(c.inner, f);
    case And(Array(branches)) => HeadsAllPlain(branches, f);
    case Or(Array(branches)) => HeadsAllPlain(branches, f);
    case Nor(Array(branches)) => HeadsAllPlain(branches, f);
  }

  lemma {:induction false} HeadsInPlain(b: Branch, f: string)
    requires f in HeadsIn(b)
    ensures '.' !in f
    decreases b, 0
  {
    HeadsQueryPlain(b.query, f);
  }

  lemma {:induction false} HeadsQueryPlain(q: Query, f: string)
    requires f in HeadsQuery(q)
    ensures '.' !in f
    decreases q, 0
  {
    HeadsPlain(q.clauses, f);
  }

  lemma {:induction false} HeadsAllPlain(branches: seq<Branch>, f: string)
    requires f in HeadsAll(branches)
    ensures '.' !in f
    decreases branches, 0
  {
    if f in HeadsIn(branches[0]) {
      HeadsInPlain(branches[0], f);
    } else {
      HeadsAllPlain(branches[1..], f);
    }
  }

  lemma {:induction false} SplitNoDots(path: string, i: nat)
    requires i < |Split(path)|
    ensures '.' !in Split(path)[i]
  {
    if path != "" {
      if path[0] == '.' {
        if i > 0 {
          SplitNoDots(path[1..], i - 1);
        }
      } else {
        SplitNoDots(path[1..], i);
      }
    }
  }

  /** Exactly the covered queries are never skipped over a change to a field they look at. */
  lemma CoveredIff(q: Query)
    ensures Covered(q) <==> forall before, after :: !SkipsBlindly(q, before, after)
  {
    hide Agree, MayAffect, WalkQuery, HeadsQuery, Split, ChangedFields;
    if Covered(q) {
      forall before: Record, after: Record ensures !SkipsBlindly(q, before, after) {
        if before.id == after.id && !MayAffect(CompileDependencies(q), ChangedFields(Some(before), Some(after))) {
          SkippedAgrees(q, before, after);
        }
      }
    } else {
      var f :| f in HeadsQuery(q) && f != "id" && f != "*" && forall d :: d in WalkQuery(q) ==> Split(d)[0] != f;
      BlindTo(q, f);
    }
  }

  lemma BlindTo(q: Query, f: string)
    requires f in HeadsQuery(q) && f != "id" && f != "*" && "*" !in CompileDependencies(q)
    requires forall d :: d in WalkQuery(q) ==> Split(d)[0] != f
    ensures SkipsBlindly(q, Record("", map[]), Record("", map[f := Null]))
  {
    hide WalkQuery, Split, Touches;
    var before, after := Record("", map[]), Record("", map[f := Null]);
    assert before.Fields() == map["id" := Str("")] && after.Fields() == map["id" := Str(""), f := Null];
    assert ChangedFields(Some(before), Some(after)) == {f} by {
      var b, a := before.Fields(), after.Fields();
      var changed := set x | x in b.Keys + a.Keys && Lookup(b, x) != Lookup(a, x);
      assert f in a.Keys && Lookup(b, f) != Lookup(a, f);
      assert changed == {f};
    }
    HeadsQueryPlain(q, f);
    forall d | d in CompileDependencies(q) ensures d != "*" && !Touches(d, f) {
      if Touches(d, f) {
        TouchesHead(d, f);
      }
    }
  }
}
