/**
 * Query matching of src/document.js: paths that fan out through arrays, conditions, and logical operators.
 *
 * A query keeps its entries in order, because an entry that is refused stops the evaluation where it stands.
 */
module Documents {
  import opened Basics
  import opened Json

  /** What `matchesDocument` does: answers, or throws. */
  datatype Verdict = Yes | No | Refused

  datatype Query = Query(clauses: seq<Clause>)

  /** An operand that should be a query object. */
  datatype Branch = NotObject | Object(query: Query)

  /** An operand that should be an array of queries. */
  datatype Branches = NotArray | Array(branches: seq<Branch>)

  /** One entry of a query object. */
  datatype Clause =
    | And(operand: Branches)
    | Or(operand: Branches)
    | Nor(operand: Branches)
    | Not(inner: Branch)
    | Unknown(name: string)
    | Field(path: string, condition: Condition)

  datatype Condition = Equals(value: Json) | Tests(tests: seq<Test>)

  /** One operator of a condition. `Relation` is $gt, $gte, $lt or $lte with its expected value. */
  datatype Test =
    | Exists(expected: bool)
    | NotThat(condition: Condition)
    | Eq(value: Json)
    | Ne(value: Json)
    | Relation(holds: Json -> bool)
    | In(list: Option<seq<Json>>)
    | Nin(list: Option<seq<Json>>)
    | Size(length: Json)
    | HasAll(list: Option<seq<Json>>)
    | ElemMatch(element: Branch)
    | Unsupported(name: string)

  // ---------------------------------------------------------------- paths

  /** `path.split('.')`. */
  function Split(path: string): (r: seq<string>)
    ensures r != []
  {
    if path == "" then [""]
    else if path[0] == '.' then [""] + Split(path[1..])
    else
      var rest := Split(path[1..]);
      [[path[0]] + rest[0]] + rest[1..]
  }

  /** `resolveValues`: arrays fan out, and an array at the end of the path is kept whole. */
  function Resolve(v: Json, parts: seq<string>): seq<Json>
    decreases v, 1
  {
    if parts == [] then [v]
    else
      match v
      case Arr(items) => Fan(items, parts)
      case Obj(fields) => if parts[0] in fields then Resolve(fields[parts[0]], parts[1..]) else []
      case _ => []
  }

  function Fan(items: seq<Json>, parts: seq<string>): seq<Json>
    decreases items, 0
  {
    if items == [] then [] else Resolve(items[0], parts) + Fan(items[1..], parts)
  }

  function GetPath(doc: Json, path: string): seq<Json> {
    Resolve(doc, Split(path))
  }

  /** `firstPathValue`. */
  function FirstPathValue(doc: Json, path: string): Json {
    var values := GetPath(doc, path);
    if values == [] then Undefined else values[0]
  }

  // ---------------------------------------------------------------- conditions

  /** `equalMongoLike`. */
  predicate Equal(actual: Json, expected: Json) {
    if actual.Arr? && !expected.Arr? then expected in actual.items else actual == expected
  }

  predicate SomeEqual(candidates: seq<Json>, actual: Json) {
    exists i :: 0 <= i < |candidates| && Equal(actual, candidates[i])
  }

  /** Whether every candidate equals some item of the array. */
  predicate Covers(items: seq<Json>, candidates: seq<Json>) {
    forall i :: 0 <= i < |candidates| ==> Occurs(items, candidates[i])
  }

  predicate Occurs(items: seq<Json>, candidate: Json) {
    exists j :: 0 <= j < |items| && Equal(items[j], candidate)
  }

  function Of(b: bool): Verdict {
    if b then Yes else No
  }

  function Negate(v: Verdict): Verdict {
    match v
    case Yes => No
    case No => Yes
    case Refused => Refused
  }

  function Matches(doc: Json, q: Query): Verdict
    decreases q, 0
  {
    Every(doc, q.clauses)
  }

  function Every(doc: Json, clauses: seq<Clause>): Verdict
    decreases clauses, 0
  {
    if clauses == [] then Yes
    else if Holds(doc, clauses[0]).Yes? then Every(doc, clauses[1..])
    else Holds(doc, clauses[0])
  }

  function Holds(doc: Json, c: Clause): Verdict
    decreases c, 0
  {
    match c
    case And(NotArray) => No
    case And(Array(branches)) => AllOf(doc, branches)
    case Or(NotArray) => No
    case Or(Array(branches)) => AnyOf(doc, branches)
    case Nor(NotArray) => No
    case Nor(Array(branches)) => Negate(AnyOf(doc, branches))
    case Not(NotObject) => No
    case Not(Object(_)) => Negate(MatchesBranch(doc, c.inner))
    case Unknown(_) => Refused
    case Field(path, condition) => if path == "" then Refused else Meets(GetPath(doc, path), condition)
  }

  function MatchesBranch(doc: Json, b: Branch): Verdict
    decreases b, 0
  {
    if b.NotObject? then Refused else Matches(doc, b.query)
  }

  /** `every`: stops at the first branch that does not match. */
  function AllOf(doc: Json, branches: seq<Branch>): Verdict
    decreases branches, 0
  {
    if branches == [] then Yes
    else
      var v := MatchesBranch(doc, branches[0]);
      if v.Yes? then AllOf(doc, branches[1..]) else v
  }

  /** `some`: stops at the first branch that matches. */
  function AnyOf(doc: Json, branches: seq<Branch>): Verdict
    decreases branches, 0
  {
    if branches == [] then No
    else
      var v := MatchesBranch(doc, branches[0]);
      if v.No? then AnyOf(doc, branches[1..]) else v
  }

  function Meets(values: seq<Json>, c: Condition): Verdict
    decreases c, 1
  {
    match c
    case Equals(expected) => Of(exists i :: 0 <= i < |values| && Equal(values[i], expected))
    case Tests(tests) => MeetsAll(values, tests)
  }

  function MeetsAll(values: seq<Json>, tests: seq<Test>): Verdict
    decreases tests, 0
  {
    if tests == [] then Yes
    else
      var v := Passes(values, tests[0]);
      if v.Yes? then MeetsAll(values, tests[1..]) else v
  }

  function Passes(values: seq<Json>, t: Test): Verdict
    decreases t, 2
  {
    match t
    case Exists(expected) => Of(expected == (|values| > 0))
    case NotThat(condition) => Negate(Meets(values, condition))
    case Unsupported(_) => Refused
    case In(None) => Refused
    case Nin(None) => Refused
    case HasAll(None) => Refused
    case ElemMatch(_) => AnyElement(values, t)
    case _ => Of(exists i :: 0 <= i < |values| && Accepts(values[i], t))
  }

  predicate Accepts(v: Json, t: Test)
    requires !t.Exists? && !t.NotThat? && !t.Unsupported? && !t.ElemMatch?
    requires !(t.In? && t.list.None?) && !(t.Nin? && t.list.None?) && !(t.HasAll? && t.list.None?)
  {
    match t
    case Eq(expected) => Equal(v, expected)
    case Ne(expected) => !Equal(v, expected)
    case Relation(holds) => holds(v)
    case In(list) => SomeEqual(list.value, v)
    case Nin(list) => !SomeEqual(list.value, v)
    case Size(length) =>
      v.Arr? && (length == Num(Finite(|v.items|)) || (v.items == [] && length == Num(NegativeZero)))
    case HasAll(list) => v.Arr? && Covers(v.items, list.value)
  }

  /** `$elemMatch` over the values of the path, stopping at the first that has a matching element. */
  function AnyElement(values: seq<Json>, t: Test): Verdict
    requires t.ElemMatch?
    decreases t, 1, |values|
  {
    if values == [] then No
    else
      var v := if values[0].Arr? then ElementMatches(values[0].items, t) else No;
      if v.No? then AnyElement(values[1..], t) else v
  }

  function ElementMatches(items: seq<Json>, t: Test): Verdict
    requires t.ElemMatch?
    decreases t, 0, |items|
  {
    if items == [] then No
    else
      var v := if !(items[0].Arr? || items[0].Obj?) then No else MatchesBranch(items[0], t.element);
      if v.No? then ElementMatches(items[1..], t) else v
  }

  // ---------------------------------------------------------------- equality on a path without arrays

  /** Following the path meets no array, and it does not end in one. */
  predicate NoArrays(v: Json, parts: seq<string>)
    decreases v
  {
    if parts == [] then !v.Arr?
    else !v.Arr? && (v.Obj? && parts[0] in v.fields ==> NoArrays(v.fields[parts[0]], parts[1..]))
  }

  lemma {:induction false} OneValue(v: Json, parts: seq<string>)
    requires NoArrays(v, parts)
    ensures |Resolve(v, parts)| <= 1
    ensures forall x :: x in Resolve(v, parts) ==> !x.Arr?
    decreases v
  {
    if parts != [] && v.Obj? && parts[0] in v.fields {
      OneValue(v.fields[parts[0]], parts[1..]);
    }
  }

  lemma {:induction false} EveryIff(doc: Json, clauses: seq<Clause>)
    ensures Every(doc, clauses) == Yes <==> forall i :: 0 <= i < |clauses| ==> Holds(doc, clauses[i]) == Yes
  {
    hide Holds;
    if clauses != [] {
      var rest := clauses[1..];
      EveryIff(doc, rest);
      assert forall i :: 0 <= i < |rest| ==> rest[i] == clauses[i + 1];
      assert forall i :: 0 < i < |clauses| ==> clauses[i] == rest[i - 1];
    }
  }

  /** An array value matches by any of its elements, although its first path value is the array itself. */
  lemma ArrayMatchesByElement()
    ensures var doc := Obj(map["tags" := Arr([Str("x"), Str("y")])]);
      && Matches(doc, Query([Field("tags", Equals(Str("y")))])) == Yes
      && FirstPathValue(doc, "tags") != Str("y")
  {
    var items := Arr([Str("x"), Str("y")]);
    var doc := Obj(map["tags" := items]);
    assert Split("tags") == ["tags"] by { SplitPlain("tags"); }
    assert GetPath(doc, "tags") == [items] by {
      assert ["tags"][1..] == [];
      assert Resolve(items, []) == [items];
    }
    assert items.items[1] == Str("y");
    assert Equal(GetPath(doc, "tags")[0], Str("y"));
    var c := Field("tags", Equals(Str("y")));
    assert Holds(doc, c) == Yes;
    EveryIff(doc, [c]);
  }

  lemma SplitPlain(path: string)
    requires '.' !in path
    ensures Split(path) == [path]
  {
    if path != "" {
      SplitPlain(path[1..]);
      assert path == [path[0]] + path[1..];
    }
  }
}
