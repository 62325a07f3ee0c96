/**
 * What a query of src/document.js asks of a document, said with quantifiers over branches, operators and the values of
 * a path; that matching decides exactly this when nothing is refused; and which refusal stops it.
 */
module QueryMeaning {
  import opened Basics
  import opened Json
  import opened Documents

  // ---------------------------------------------------------------- the meaning

  /** The value itself, or an element of an array compared with something that is no array. */
  predicate Alike(actual: Json, expected: Json) {
    actual == expected || (actual.Arr? && !expected.Arr? && expected in actual.items)
  }

  ghost predicate Satisfies(doc: Json, q: Query)
    decreases q, 0
  {
    forall i :: 0 <= i < |q.clauses| ==> Meant(doc, q.clauses[i])
  }

  ghost predicate OfBranch(doc: Json, b: Branch)
    decreases b, 0
  {
    b.Object? && Satisfies(doc, b.query)
  }

  /** `$and`: every branch; `$or`: some branch; `$nor`: no branch; `$not`: not the inner query. */
  ghost predicate Meant(doc: Json, c: Clause)
    decreases c, 0
  {
    match c
    case And(bs) => bs.Array? && forall i :: 0 <= i < |bs.branches| ==> OfBranch(doc, bs.branches[i])
    case Or(bs) => bs.Array? && exists i :: 0 <= i < |bs.branches| && OfBranch(doc, bs.branches[i])
    case Nor(bs) => bs.Array? && !exists i :: 0 <= i < |bs.branches| && OfBranch(doc, bs.branches[i])
    case Not(b) => b.Object? && !OfBranch(doc, b)
    case Unknown(_) => false
    case Field(path, condition) => path != "" && OfCondition(GetPath(doc, path), condition)
  }

  ghost predicate OfCondition(values: seq<Json>, c: Condition)
    decreases c, 0
  {
    match c
    case Equals(expected) => exists i :: 0 <= i < |values| && Alike(values[i], expected)
    case Tests(tests) => forall i :: 0 <= i < |tests| ==> OfTest(values, tests[i])
  }

  /** One operator: what it asks of the values of the path. */
  ghost predicate OfTest(values: seq<Json>, t: Test)
    decreases t, 0
  {
    match t
    case Exists(expected) => expected <==> values != []
    case NotThat(condition) => !OfCondition(values, condition)
    case Eq(expected) => exists i :: 0 <= i < |values| && Alike(values[i], expected)
    case Ne(expected) => exists i :: 0 <= i < |values| && !Alike(values[i], expected)
    case Relation(holds) => exists i :: 0 <= i < |values| && holds(values[i])
    case In(list) => list.Some? && exists i :: 0 <= i < |values| && Listed(values[i], list.value)
    case Nin(list) => list.Some? && exists i :: 0 <= i < |values| && !Listed(values[i], list.value)
    case Size(length) => exists i :: 0 <= i < |values| && HasLength(values[i], length)
    case HasAll(list) => list.Some? && exists i :: 0 <= i < |values| && HoldsAll(values[i], list.value)
    case ElemMatch(b) => exists i, k ::
      0 <= i < |values| && values[i].Arr? && 0 <= k < |values[i].items| && OfElement(values[i].items[k], b)
    case Unsupported(_) => false
  }

  /** An array of this many elements. */
  predicate HasLength(v: Json, length: Json) {
    v.Arr? && length.Num? && match length.num
      case Finite(n) => n == |v.items|
      case NegativeZero => |v.items| == 0
      case _ => false
  }

  /** The value is alike one of the list. */
  predicate Listed(v: Json, list: seq<Json>) {
    exists j :: 0 <= j < |list| && Alike(v, list[j])
  }

  /** An array in which each of the list is found. */
  predicate HoldsAll(v: Json, list: seq<Json>) {
    v.Arr? && forall j :: 0 <= j < |list| ==> Among(v.items, list[j])
  }

  predicate Among(items: seq<Json>, expected: Json) {
    exists j :: 0 <= j < |items| && Alike(items[j], expected)
  }

  /** An element that is an object or an array, and satisfies the query. */
  ghost predicate OfElement(item: Json, b: Branch)
    decreases b, 1
  {
    (item.Arr? || item.Obj?) && OfBranch(item, b)
  }

  // ---------------------------------------------------------------- matching decides it

  lemma EqualIff(actual: Json, expected: Json)
    ensures Equal(actual, expected) <==> Alike(actual, expected)
  {
  }

  /** Unless something is refused, a document matches exactly if it satisfies the query. */
  lemma {:induction false} MatchesIff(doc: Json, q: Query)
    ensures Matches(doc, q) != Refused ==> (Matches(doc, q) == Yes <==> Satisfies(doc, q))
    decreases q, 0
  {
    hide Holds, Meant;
    forall i | 0 <= i < |q.clauses|
      ensures Holds(doc, q.clauses[i]) != Refused ==> (Holds(doc, q.clauses[i]) == Yes <==> Meant(doc, q.clauses[i]))
    {
      HoldsIff(doc, q.clauses[i]);
    }
    EveryStops(doc, q.clauses);
    assert forall i :: 0 <= i < |q.clauses| ==> ClauseVerdicts(doc, q.clauses)[i] == Holds(doc, q.clauses[i]);
  }

  lemma BranchIff(doc: Json, b: Branch)
    ensures MatchesBranch(doc, b) != Refused ==> (MatchesBranch(doc, b) == Yes <==> OfBranch(doc, b))
    decreases b, 0
  {
    hide Matches, Satisfies;
    if b.Object? {
      MatchesIff(doc, b.query);
    }
  }

  lemma HoldsIff(doc: Json, c: Clause)
    ensures Holds(doc, c) != Refused ==> (Holds(doc, c) == Yes <==> Meant(doc, c))
    decreases c, 0
  {
    hide AllOf, AnyOf, MatchesBranch, OfBranch, Meets, OfCondition, GetPath;
    match c
    case And(bs) => if bs.Array? { AllBranches(doc, bs.branches); }
    case Or(bs) => if bs.Array? { AnyBranch(doc, bs.branches); }
    case Nor(bs) => if bs.Array? { AnyBranch(doc, bs.branches); }
    case Not(b) => BranchIff(doc, b);
    case Field(path, condition) => if path != "" { ConditionIff(GetPath(doc, path), condition); }
    case _ =>
  }

  lemma AllBranches(doc: Json, branches: seq<Branch>)
    ensures AllOf(doc, branches) != Refused ==>
      (AllOf(doc, branches) == Yes <==> forall i :: 0 <= i < |branches| ==> OfBranch(doc, branches[i]))
    decreases branches, 1
  {
    hide MatchesBranch, OfBranch;
    AllOfStops(doc, branches);
    forall i | 0 <= i < |branches|
      ensures BranchVerdicts(doc, branches)[i] == MatchesBranch(doc, branches[i])
      ensures MatchesBranch(doc, branches[i]) != Refused ==>
        (MatchesBranch(doc, branches[i]) == Yes <==> OfBranch(doc, branches[i]))
    {
      BranchIff(doc, branches[i]);
    }
  }

  lemma AnyBranch(doc: Json, branches: seq<Branch>)
    ensures AnyOf(doc, branches) != Refused ==>
      (AnyOf(doc, branches) == Yes <==> exists i :: 0 <= i < |branches| && OfBranch(doc, branches[i]))
    decreases branches, 1
  {
    hide MatchesBranch, OfBranch;
    AnyOfStops(doc, branches);
    forall i | 0 <= i < |branches|
      ensures BranchVerdicts(doc, branches)[i] == MatchesBranch(doc, branches[i])
      ensures MatchesBranch(doc, branches[i]) != Refused ==>
        (MatchesBranch(doc, branches[i]) == Yes <==> OfBranch(doc, branches[i]))
    {
      BranchIff(doc, branches[i]);
    }
  }

  lemma ConditionIff(values: seq<Json>, c: Condition)
    ensures Meets(values, c) != Refused ==> (Meets(values, c) == Yes <==> OfCondition(values, c))
    decreases c, 0
  {
    hide MeetsAll, Passes, OfTest, Equal, Alike;
    match c
    case Equals(expected) =>
      forall i | 0 <= i < |values| ensures Equal(values[i], expected) <==> Alike(values[i], expected) {
        EqualIff(values[i], expected);
      }
    case Tests(tests) =>
      forall i | 0 <= i < |tests|
        ensures Passes(values, tests[i]) != Refused ==> (Passes(values, tests[i]) == Yes <==> OfTest(values, tests[i]))
      {
        TestIff(values, tests[i]);
      }
      MeetsAllStops(values, tests);
      assert forall i :: 0 <= i < |tests| ==> TestVerdicts(values, tests)[i] == Passes(values, tests[i]);
  }

  lemma TestIff(values: seq<Json>, t: Test)
    ensures Passes(values, t) != Refused ==> (Passes(values, t) == Yes <==> OfTest(values, t))
    decreases t, 1
  {
    hide Meets, OfCondition, AnyElement, Equal, Alike, Covers, SomeEqual, HasLength, OfElement, Listed, HoldsAll;
    match t
    case NotThat(condition) => ConditionIff(values, condition);
    case ElemMatch(b) => ElementIff(values, t);
    case Size(length) =>
      forall i | 0 <= i < |values| ensures Accepts(values[i], t) <==> HasLength(values[i], length) {
        SizeIff(values[i], t);
      }
    case HasAll(list) =>
      if list.Some? {
        forall i | 0 <= i < |values| ensures Accepts(values[i], t) <==> HoldsAll(values[i], list.value) {
          HasAllIff(values[i], list.value);
        }
      }
    case In(list) =>
      if list.Some? {
        forall i | 0 <= i < |values| ensures Accepts(values[i], t) <==> Listed(values[i], list.value) {
          InIff(values[i], list.value);
        }
      }
    case Nin(list) =>
      if list.Some? {
        forall i | 0 <= i < |values| ensures Accepts(values[i], t) <==> !Listed(values[i], list.value) {
          InIff(values[i], list.value);
        }
      }
    case Eq(expected) =>
      forall i | 0 <= i < |values| ensures Equal(values[i], expected) <==> Alike(values[i], expected) {
        EqualIff(values[i], expected);
      }
    case Ne(expected) =>
      forall i | 0 <= i < |values| ensures Equal(values[i], expected) <==> Alike(values[i], expected) {
        EqualIff(values[i], expected);
      }
    case _ =>
  }

  lemma SizeIff(v: Json, t: Test)
    requires t.Size?
    ensures Accepts(v, t) <==> HasLength(v, t.length)
  {
  }

  lemma InIff(v: Json, list: seq<Json>)
    ensures SomeEqual(list, v) <==> Listed(v, list)
  {
    hide Equal, Alike;
    forall j | 0 <= j < |list| ensures Equal(v, list[j]) <==> Alike(v, list[j]) {
      EqualIff(v, list[j]);
    }
  }

  lemma HasAllIff(v: Json, list: seq<Json>)
    ensures v.Arr? && Covers(v.items, list) <==> HoldsAll(v, list)
  {
    hide Occurs, Among;
    if v.Arr? {
      forall j | 0 <= j < |list| ensures Occurs(v.items, list[j]) <==> Among(v.items, list[j]) {
        AmongIff(v.items, list[j]);
      }
    }
  }

  lemma AmongIff(items: seq<Json>, expected: Json)
    ensures Occurs(items, expected) <==> Among(items, expected)
  {
    hide Equal, Alike;
    forall i | 0 <= i < |items| ensures Equal(items[i], expected) <==> Alike(items[i], expected) {
      EqualIff(items[i], expected);
    }
  }

  lemma ElementIff(values: seq<Json>, t: Test)
    requires t.ElemMatch?
    ensures AnyElement(values, t) != Refused ==> (AnyElement(values, t) == Yes <==> OfTest(values, t))
    decreases t, 0
  {
    hide OfElement, ElementMatches;
    AnyElementStops(values, t);
    forall i | 0 <= i < |values| && values[i].Arr?
      ensures ArrayVerdicts(values, t)[i] == ElementMatches(values[i].items, t)
      ensures ElementMatches(values[i].items, t) != Refused ==>
        (ElementMatches(values[i].items, t) == Yes <==>
         exists k :: 0 <= k < |values[i].items| && OfElement(values[i].items[k], t.element))
    {
      ItemsIff(values[i].items, t);
    }
    assert forall i :: 0 <= i < |values| && !values[i].Arr? ==> ArrayVerdicts(values, t)[i] == No;
  }

  lemma ItemsIff(items: seq<Json>, t: Test)
    requires t.ElemMatch?
    ensures ElementMatches(items, t) != Refused ==>
      (ElementMatches(items, t) == Yes <==> exists k :: 0 <= k < |items| && OfElement(items[k], t.element))
    decreases t.element, 1
  {
    hide OfBranch, MatchesBranch;
    ItemsStop(items, t);
    forall k | 0 <= k < |items|
      ensures ItemVerdicts(items, t.element)[k] != Refused ==>
        (ItemVerdicts(items, t.element)[k] == Yes <==> OfElement(items[k], t.element))
    {
      BranchIff(items[k], t.element);
    }
  }

  // ---------------------------------------------------------------- which refusal stops the evaluation

  /** The first verdict that is not `go`. */
  ghost predicate First(verdicts: seq<Verdict>, go: Verdict, i: nat) {
    i < |verdicts| && verdicts[i] != go && forall j :: 0 <= j < i ==> verdicts[j] == go
  }

  /** Evaluation in order that goes on while the verdict is `go`: it ends with the first other one, if there is one. */
  ghost predicate EndsWith(verdicts: seq<Verdict>, go: Verdict, verdict: Verdict) {
    if forall i :: 0 <= i < |verdicts| ==> verdicts[i] == go then verdict == go
    else exists i: nat :: First(verdicts, go, i) && verdict == verdicts[i]
  }

  lemma EndsNext(verdicts: seq<Verdict>, go: Verdict, verdict: Verdict)
    requires verdicts != []
    requires if verdicts[0] == go then EndsWith(verdicts[1..], go, verdict) else verdict == verdicts[0]
    ensures EndsWith(verdicts, go, verdict)
  {
    var rest := verdicts[1..];
    assert forall i :: 0 <= i < |rest| ==> rest[i] == verdicts[i + 1];
    if verdicts[0] != go {
      assert First(verdicts, go, 0);
    } else if i: nat :| First(rest, go, i) && verdict == rest[i] {
      assert First(verdicts, go, i + 1);
    } else {
      forall i | 0 <= i < |verdicts| ensures verdicts[i] == go {
        assert i > 0 ==> verdicts[i] == rest[i - 1];
      }
    }
  }

  function BranchVerdicts(doc: Json, branches: seq<Branch>): seq<Verdict> {
    seq(|branches|, i requires 0 <= i < |branches| => MatchesBranch(doc, branches[i]))
  }

  /** `$and` ends with the first branch that does not match; nothing after it is looked at. */
  lemma {:induction false} AllOfStops(doc: Json, branches: seq<Branch>)
    ensures EndsWith(BranchVerdicts(doc, branches), Yes, AllOf(doc, branches))
  {
    hide MatchesBranch;
    if branches != [] {
      AllOfStops(doc, branches[1..]);
      assert BranchVerdicts(doc, branches)[1..] == BranchVerdicts(doc, branches[1..]);
      EndsNext(BranchVerdicts(doc, branches), Yes, AllOf(doc, branches));
    }
  }

  /** `$or` and `$nor` end with the first branch that matches or is refused. */
  lemma {:induction false} AnyOfStops(doc: Json, branches: seq<Branch>)
    ensures EndsWith(BranchVerdicts(doc, branches), No, AnyOf(doc, branches))
  {
    hide MatchesBranch;
    if branches != [] {
      AnyOfStops(doc, branches[1..]);
      assert BranchVerdicts(doc, branches)[1..] == BranchVerdicts(doc, branches[1..]);
      EndsNext(BranchVerdicts(doc, branches), No, AnyOf(doc, branches));
    }
  }

  function ClauseVerdicts(doc: Json, clauses: seq<Clause>): seq<Verdict> {
    seq(|clauses|, i requires 0 <= i < |clauses| => Holds(doc, clauses[i]))
  }

  /** The entries of a query object: the first that does not hold ends it. */
  lemma {:induction false} EveryStops(doc: Json, clauses: seq<Clause>)
    ensures EndsWith(ClauseVerdicts(doc, clauses), Yes, Every(doc, clauses))
  {
    hide Holds;
    if clauses != [] {
      EveryStops(doc, clauses[1..]);
      assert ClauseVerdicts(doc, clauses)[1..] == ClauseVerdicts(doc, clauses[1..]);
      EndsNext(ClauseVerdicts(doc, clauses), Yes, Every(doc, clauses));
    }
  }

  function TestVerdicts(values: seq<Json>, tests: seq<Test>): seq<Verdict> {
    seq(|tests|, i requires 0 <= i < |tests| => Passes(values, tests[i]))
  }

  /** Several operators in one condition: the first that does not pass ends it. */
  lemma {:induction false} MeetsAllStops(values: seq<Json>, tests: seq<Test>)
    ensures EndsWith(TestVerdicts(values, tests), Yes, MeetsAll(values, tests))
  {
    hide Passes;
    if tests != [] {
      MeetsAllStops(values, tests[1..]);
      assert TestVerdicts(values, tests)[1..] == TestVerdicts(values, tests[1..]);
      EndsNext(TestVerdicts(values, tests), Yes, MeetsAll(values, tests));
    }
  }

  /** The array elements that `$elemMatch` looks at: objects and arrays are matched, everything else is passed over. */
  function ItemVerdicts(items: seq<Json>, b: Branch): seq<Verdict> {
    seq(|items|, i requires 0 <= i < |items| =>
      if items[i].Arr? || items[i].Obj? then MatchesBranch(items[i], b) else No)
  }

  lemma {:induction false} ItemsStop(items: seq<Json>, t: Test)
    requires t.ElemMatch?
    ensures EndsWith(ItemVerdicts(items, t.element), No, ElementMatches(items, t))
  {
    hide MatchesBranch;
    if items != [] {
      ItemsStop(items[1..], t);
      assert ItemVerdicts(items, t.element)[1..] == ItemVerdicts(items[1..], t.element);
      EndsNext(ItemVerdicts(items, t.element), No, ElementMatches(items, t));
    }
  }

  function ArrayVerdicts(values: seq<Json>, t: Test): seq<Verdict>
    requires t.ElemMatch?
  {
    seq(|values|, i requires 0 <= i < |values| => if values[i].Arr? then ElementMatches(values[i].items, t) else No)
  }

  /** `$elemMatch` ends with the first element of the first array that matches or is refused. */
  lemma {:induction false} AnyElementStops(values: seq<Json>, t: Test)
    requires t.ElemMatch?
    ensures EndsWith(ArrayVerdicts(values, t), No, AnyElement(values, t))
  {
    hide ElementMatches;
    if values != [] {
      AnyElementStops(values[1..], t);
      assert ArrayVerdicts(values, t)[1..] == ArrayVerdicts(values[1..], t);
      EndsNext(ArrayVerdicts(values, t), No, AnyElement(values, t));
    }
  }

  /** The clauses that throw by themselves, whatever the document. */
  lemma RefusedClauses(doc: Json, c: Clause)
    ensures c.Unknown? || (c.Field? && c.path == "") ==> Holds(doc, c) == Refused
    ensures (c.And? || c.Or? || c.Nor?) && c.operand.NotArray? ==> Holds(doc, c) == No
    ensures c.Not? && c.inner.NotObject? ==> Holds(doc, c) == No
    ensures c.Not? && c.inner.Object? ==> (Holds(doc, c) == Refused <==> MatchesBranch(doc, c.inner) == Refused)
    ensures c.And? && c.operand.Array? ==> Holds(doc, c) == AllOf(doc, c.operand.branches)
    ensures (c.Or? || c.Nor?) && c.operand.Array? ==>
      (Holds(doc, c) == Refused <==> AnyOf(doc, c.operand.branches) == Refused)
    ensures c.Field? && c.path != "" && c.condition.Equals? ==> Holds(doc, c) != Refused
  {
    hide AllOf, AnyOf, MatchesBranch, GetPath;
  }

  /** A branch or an operand of `$elemMatch` that is no object throws; so do operators with the wrong operand. */
  lemma RefusedTests(doc: Json, values: seq<Json>, b: Branch, t: Test)
    ensures b.NotObject? ==> MatchesBranch(doc, b) == Refused
    ensures t.Unsupported? || ((t.In? || t.Nin? || t.HasAll?) && t.list.None?) ==> Passes(values, t) == Refused
    ensures t.NotThat? ==> (Passes(values, t) == Refused <==> Meets(values, t.condition) == Refused)
    ensures t.ElemMatch? ==> Passes(values, t) == AnyElement(values, t)
    ensures t.Exists? || t.Eq? || t.Ne? || t.Relation? || t.Size? ==> Passes(values, t) != Refused
    ensures (t.In? || t.Nin? || t.HasAll?) && t.list.Some? ==> Passes(values, t) != Refused
  {
    hide Meets, AnyElement, Equal, Covers, SomeEqual;
  }

  // ---------------------------------------------------------------- the values of a path

  function Join(parts: seq<string>): string
    requires parts != []
  {
    if |parts| == 1 then parts[0] else parts[0] + "." + Join(parts[1..])
  }

  /** A path is its parts with dots between them, and no part has a dot. */
  lemma {:induction false} SplitJoins(path: string)
    ensures Join(Split(path)) == path
    ensures forall part :: part in Split(path) ==> '.' !in part
  {
    SplitJoined(path);
    SplitUndotted(path);
  }

  lemma {:induction false} SplitUndotted(path: string)
    ensures forall part :: part in Split(path) ==> '.' !in part
  {
    if path != "" {
      SplitUndotted(path[1..]);
      var rest := Split(path[1..]);
      assert rest[0] in rest && forall part :: part in rest[1..] ==> part in rest;
    }
  }

  lemma {:induction false} SplitJoined(path: string)
    ensures Join(Split(path)) == path
  {
    if path != "" {
      SplitJoined(path[1..]);
      var rest := Split(path[1..]);
      assert path == [path[0]] + path[1..];
      if path[0] == '.' {
        assert Split(path)[1..] == rest;
      } else {
        var first := [path[0]] + rest[0];
        assert Split(path) == [first] + rest[1..] && Split(path)[1..] == rest[1..];
        assert Join(Split(path)) == [path[0]] + Join(rest);
      }
    }
  }

  /** A step into a document: to an element of an array, or to a member of an object. */
  datatype Step = Item(i: nat) | Member(name: string)

  /**
   * The steps lead from v to x along the path: members named by its parts, one after another, with elements of arrays
   * in between; at the end of the path an array is not entered.
   */
  ghost predicate Leads(v: Json, parts: seq<string>, steps: seq<Step>, x: Json)
    decreases |steps|
  {
    if steps == [] then parts == [] && x == v
    else
      && parts != []
      && match steps[0]
         case Item(i) => v.Arr? && i < |v.items| && Leads(v.items[i], parts, steps[1..], x)
         case Member(n) =>
           v.Obj? && n == parts[0] && n in v.fields && Leads(v.fields[n], parts[1..], steps[1..], x)
  }

  lemma {:induction false} FanHas(items: seq<Json>, parts: seq<string>, x: Json)
    ensures x in Fan(items, parts) <==> exists i :: 0 <= i < |items| && x in Resolve(items[i], parts)
  {
    hide Resolve;
    if items != [] {
      var rest := items[1..];
      FanHas(rest, parts, x);
      if i :| 0 <= i < |items| && x in Resolve(items[i], parts) {
        assert i > 0 ==> rest[i - 1] == items[i];
      }
      if i :| 0 <= i < |rest| && x in Resolve(rest[i], parts) {
        assert items[i + 1] == rest[i];
      }
    }
  }

  ghost predicate Route(v: Json, parts: seq<string>, steps: seq<Step>, x: Json) {
    Leads(v, parts, steps, x)
  }

  /** The values of a path are exactly what it leads to. */
  lemma ResolveIff(v: Json, parts: seq<string>, x: Json)
    ensures x in Resolve(v, parts) <==> exists steps :: Route(v, parts, steps, x)
  {
    if x in Resolve(v, parts) {
      var steps := StepsTo(v, parts, x);
      assert Route(v, parts, steps, x);
    }
    if steps :| Route(v, parts, steps, x) {
      LedTo(v, parts, steps, x);
    }
  }

  lemma {:induction false} StepsTo(v: Json, parts: seq<string>, x: Json) returns (steps: seq<Step>)
    requires x in Resolve(v, parts)
    ensures Leads(v, parts, steps, x)
    decreases v
  {
    if parts == [] {
      steps := [];
    } else if v.Arr? {
      FanHas(v.items, parts, x);
      var i :| 0 <= i < |v.items| && x in Resolve(v.items[i], parts);
      var rest := StepsTo(v.items[i], parts, x);
      steps := [Item(i)] + rest;
    } else {
      var rest := StepsTo(v.fields[parts[0]], parts[1..], x);
      steps := [Member(parts[0])] + rest;
    }
  }

  lemma {:induction false} LedTo(v: Json, parts: seq<string>, steps: seq<Step>, x: Json)
    requires Leads(v, parts, steps, x)
    ensures x in Resolve(v, parts)
    decreases |steps|
  {
    if steps != [] {
      match steps[0]
      case Item(i) =>
        LedTo(v.items[i], parts, steps[1..], x);
        FanHas(v.items, parts, x);
      case Member(n) => LedTo(v.fields[n], parts[1..], steps[1..], x);
    }
  }

  /** The first value of a path through an array is that of the first element which has any. */
  lemma {:induction false} FirstOfArray(items: seq<Json>, parts: seq<string>, i: nat)
    requires parts != [] && i < |items| && Resolve(items[i], parts) != []
    requires forall j :: 0 <= j < i ==> Resolve(items[j], parts) == []
    ensures Resolve(Arr(items), parts) != [] && Resolve(Arr(items), parts)[0] == Resolve(items[i], parts)[0]
    decreases i
  {
    hide Resolve;
    assert Resolve(Arr(items), parts) == Fan(items, parts) by { ArrayFans(items, parts); }
    if i > 0 {
      assert forall j :: 0 <= j < i - 1 ==> items[1..][j] == items[j + 1];
      FirstOfArray(items[1..], parts, i - 1);
      ArrayFans(items[1..], parts);
    }
  }

  lemma ArrayFans(items: seq<Json>, parts: seq<string>)
    requires parts != []
    ensures Resolve(Arr(items), parts) == Fan(items, parts)
  {
  }

  /** A path without dots finds the one field of that name, which for `id` is the record's id. */
  lemma FieldValues(r: Record, f: string)
    requires f != "" && '.' !in f
    ensures GetPath(r.AsJson(), f) ==
      if f == "id" then [Str(r.id)] else if f in r.body then [r.body[f]] else []
  {
    SplitPlain(f);
    assert [f][1..] == [];
    assert forall v: Json :: Resolve(v, []) == [v];
  }

  /** The first value of a path is the first of its values, or undefined when it has none. */
  lemma FirstValueIs(doc: Json, path: string)
    ensures var values := Resolve(doc, Split(path));
      && (values == [] ==> FirstPathValue(doc, path) == Undefined)
      && (values != [] ==> FirstPathValue(doc, path) == values[0])
  {
    hide Resolve, Split;
  }
}
