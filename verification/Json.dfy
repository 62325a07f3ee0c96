/** JSON-like values, stored records and the fields a write changes. */
module Json {
  import opened Basics

  /** A JavaScript number: integers plus the special values `String(n)` distinguishes. */
  datatype Number = Finite(n: int) | NegativeZero | NotANumber | Infinite(negative: bool)

  datatype Json =
    | Undefined
    | Null
    | Bool(b: bool)
    | Num(num: Number)
    | Str(s: string)
    | Arr(items: seq<Json>)
    | Obj(fields: map<string, Json>)

  /** A stored record: its id and its other top-level fields. */
  datatype Record = Record(id: string, body: map<string, Json>) {
    function Fields(): map<string, Json> {
      body["id" := Str(id)]
    }

    function AsJson(): Json {
      Obj(Fields())
    }
  }

  /** A record's address: collection name and record id. */
  datatype Key = Key(collection: string, id: string)

  function Lookup<K, V>(m: map<K, V>, k: K): Option<V> {
    if k in m then Some(m[k]) else None
  }

  /** The top-level fields on which two versions of a record differ; `*` for an insert, a removal or no difference. */
  function ChangedFields(before: Option<Record>, after: Option<Record>): set<string> {
    if before.None? || after.None? then {"*"}
    else
      var changed := Differing(before.value.Fields(), after.value.Fields());
      if changed == {} then {"*"} else changed
  }

  function Differing(b: map<string, Json>, a: map<string, Json>): set<string> {
    set f | f in b.Keys + a.Keys && Lookup(b, f) != Lookup(a, f)
  }

  /** Exactly the fields that differ; everything when the record is new or gone, or when nothing differs. */
  lemma ChangedFieldsIff(before: Option<Record>, after: Option<Record>)
    ensures before.None? || after.None? ==> ChangedFields(before, after) == {"*"}
    ensures before.Some? && after.Some? && before.value.AsJson() == after.value.AsJson() ==>
      ChangedFields(before, after) == {"*"}
    ensures before.Some? && after.Some? && before.value.AsJson() != after.value.AsJson() ==> forall f ::
      f in ChangedFields(before, after) <==> Lookup(before.value.Fields(), f) != Lookup(after.value.Fields(), f)
  {
    if before.Some? && after.Some? && before.value.AsJson() != after.value.AsJson() {
      var f := SomeDifference(before.value.Fields(), after.value.Fields());
      assert f in Differing(before.value.Fields(), after.value.Fields());
    }
  }

  lemma SomeDifference(a: map<string, Json>, b: map<string, Json>) returns (f: string)
    requires a != b
    ensures f in a.Keys + b.Keys && Lookup(a, f) != Lookup(b, f)
  {
    if a.Keys != b.Keys {
      f :| f in a.Keys + b.Keys && !(f in a && f in b);
    } else {
      f :| f in a && a[f] != b[f];
    }
  }

  // ---------------------------------------------------------------- writing a value as JSON text and reading it back

  /**
   * `JSON.parse(JSON.stringify(v))`: negative zero loses its sign, other special numbers turn to null, and so does
   * undefined, except that a member that is undefined is left out.
   */
  function Reread(v: Json): Json {
    match v
    case Undefined => Null
    case Num(NegativeZero) => Num(Finite(0))
    case Num(n) => if n.Finite? then v else Null
    case Arr(items) => Arr(seq(|items|, i requires 0 <= i < |items| => Reread(items[i])))
    case Obj(fields) => Obj(map k | k in fields && !fields[k].Undefined? :: Reread(fields[k]))
    case _ => v
  }

  /** w is what the JSON text of v says: no text tells -0 from 0, nor the other special numbers from null. */
  ghost predicate ReadAs(v: Json, w: Json)
    decreases v
  {
    match v
    case Undefined => w == Null
    case Num(NegativeZero) => w == Num(Finite(0))
    case Num(Finite(_)) => w == v
    case Num(_) => w == Null
    case Arr(items) =>
      w.Arr? && |w.items| == |items| && forall i :: 0 <= i < |items| ==> ReadAs(items[i], w.items[i])
    case Obj(fields) =>
      && w.Obj?
      && (forall k :: k in w.fields <==> k in fields && fields[k] != Undefined)
      && forall k :: k in w.fields && k in fields ==> ReadAs(fields[k], w.fields[k])
    case _ => w == v
  }

  /** Reading back gives exactly what the text says. */
  lemma {:induction false} RereadIs(v: Json, w: Json)
    ensures ReadAs(v, w) <==> w == Reread(v)
    decreases v
  {
    var again := Reread(v);
    match v
    case Arr(items) =>
      if w.Arr? && |w.items| == |items| {
        forall i | 0 <= i < |items| ensures ReadAs(items[i], w.items[i]) <==> w.items[i] == again.items[i] {
          RereadIs(items[i], w.items[i]);
        }
        assert w.items == again.items <==> forall i :: 0 <= i < |items| ==> w.items[i] == again.items[i];
      }
    case Obj(fields) =>
      if w.Obj? && forall k :: k in w.fields <==> k in fields && fields[k] != Undefined {
        forall k | k in w.fields ensures ReadAs(fields[k], w.fields[k]) <==> w.fields[k] == again.fields[k] {
          RereadIs(fields[k], w.fields[k]);
        }
        assert w.fields.Keys == again.fields.Keys;
        assert w.fields == again.fields <==> forall k :: k in w.fields ==> w.fields[k] == again.fields[k];
      }
    case _ =>
  }

  /** No undefined and no special number anywhere inside. */
  predicate Plain(v: Json) {
    match v
    case Undefined => false
    case Num(n) => n.Finite?
    case Arr(items) => forall i :: 0 <= i < |items| ==> Plain(items[i])
    case Obj(fields) => forall k :: k in fields ==> Plain(fields[k])
    case _ => true
  }

  lemma {:induction false} RereadIff(v: Json)
    ensures Reread(v) == v <==> Plain(v)
    ensures Plain(Reread(v))
  {
    match v
    case Arr(items) =>
      forall i | 0 <= i < |items|
        ensures (Reread(items[i]) == items[i] <==> Plain(items[i])) && Plain(Reread(items[i]))
      {
        RereadIff(items[i]);
      }
    case Obj(fields) =>
      forall k | k in fields
        ensures (Reread(fields[k]) == fields[k] <==> Plain(fields[k])) && Plain(Reread(fields[k]))
      {
        RereadIff(fields[k]);
      }
    case _ =>
  }
}
