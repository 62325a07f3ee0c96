/**
 * Printed values inside printed values: the text of an object is never the end of a longer printed text. So a line of
 * the log that is glued to a torn one is not a line.
 */
module CanonicalEnds {
  import opened Json
  import opened Ordering
  import opened CanonicalKeys

  /** A printed object whose first key starts like a name. */
  ghost predicate Named(w: Json) {
    w.Obj? && |Canonical(w)| >= 5 && Canonical(w)[..4] == "o:{\"" && Canonical(w)[4] !in ":,]}"
  }

  /** Inside a quoted string every quote follows a backslash. */
  lemma {:induction false} QuoteEscaped(s: string, i: nat)
    requires i < |Escapes(s)| && Escapes(s)[i] == '\"'
    ensures i > 0 && Escapes(s)[i - 1] == '\\'
  {
    var first := Escape(s[0]);
    if i < |first| {
      EscapeQuote(s[0], i);
    } else {
      QuoteEscaped(s[1..], i - |first|);
    }
  }

  lemma EscapeQuote(c: char, i: nat)
    requires i < |Escape(c)| && Escape(c)[i] == '\"'
    ensures i > 0 && Escape(c)[i - 1] == '\\'
  {
    if |Escape(c)| == 6 {
      NotQuote(c as int / 16);
      NotQuote(c as int % 16);
    }
  }

  lemma NotQuote(n: nat)
    requires n < 16
    ensures Hex(n) != '\"'
  {
  }

  /** A printed object does not start inside a quoted string. */
  lemma NotInQuote(s: string, r: string, p: nat, w: Json)
    requires Named(w) && p <= |Escapes(s)| && (r == "" || r[0] in ":,]}")
    ensures (Escapes(s) + "\"" + r)[p..] != Canonical(w)
  {
    hide Canonical, Escapes;
    var e, t := Escapes(s), Canonical(w);
    var x := e + "\"" + r;
    if x[p..] == t {
      assert t[0] == 'o' && t[1] == ':' && t[2] == '{' && t[3] == '\"';
      assert x[p] == t[0] && x[p + 1] == t[1] && x[p + 2] == t[2] && x[p + 3] == t[3] && x[p + 4] == t[4];
      if p + 3 < |e| {
        QuoteEscaped(s, p + 3);
      }
    }
  }

  lemma NamedChars(w: Json)
    requires Named(w)
    ensures var t := Canonical(w);
      t != "" && t[0] == 'o' && t[1] == ':' && t[2] == '{' && t[3] == '\"' && t[4] !in ":,]}"
  {
    hide Canonical;
  }

  /** No numeral has the letter that objects start with. */
  lemma NumeralPlain(n: Number, p: nat)
    requires p < |Numeral(n)|
    ensures Numeral(n)[p] != 'o'
  {
    if n.Finite? || n.NegativeZero? {
      var k := if n.NegativeZero? then 0 else if n.n < 0 then -n.n else n.n;
      DigitsPlain(k, Numeral(n)[p]);
    }
  }

  lemma DigitsPlain(k: nat, c: char)
    ensures c in Decimal(k) ==> c != 'o'
  {
  }

  lemma ScalarPlain(v: Json, p: nat)
    requires !v.Str? && !v.Arr? && !v.Obj? && p < |Canonical(v)|
    ensures Canonical(v)[p] != 'o'
  {
    hide Numeral;
    if v.Num? && p >= 2 {
      NumeralPlain(v.num, p - 2);
    }
  }

  /** A printed object stands at the end of a printed value and what follows it only when it is the whole of it. */
  lemma {:induction false} OnlyWhole(v: Json, r: string, p: nat, w: Json)
    requires Named(w) && Delimited(r) && p < |Canonical(v)|
    ensures (Canonical(v) + r)[p..] == Canonical(w) ==> p == 0 && r == ""
    decreases v, 1
  {
    hide Items, Members, Escapes, Numeral, Tag, Named;
    NamedChars(w);
    var x := Canonical(v) + r;
    assert x[p..][0] == Canonical(v)[p];
    if !v.Str? && !v.Arr? && !v.Obj? {
      ScalarPlain(v, p);
      return;
    }
    match v
    case Str(_) =>
      if p >= 3 {
        assert x[p..] == (Escapes(v.s) + "\"" + r)[p - 3..];
        NotInQuote(v.s, r, p - 3, w);
      }
    case Arr(_) =>
      if 3 <= p < |Canonical(v)| - 1 {
        assert x[p..] == (Items(v.items) + "]" + r)[p - 3..];
        NotInItems(v.items, r, p - 3, w);
      }
    case Obj(_) =>
      var keys := Sorted(v.fields.Keys);
      if p == 0 {
        WholeObject(v, r, w);
      } else if 3 <= p < |Canonical(v)| - 1 {
        assert x[p..] == (Members(v, keys) + "}" + r)[p - 3..];
        NotInMembers(v, keys, r, p - 3, w);
      }
  }

  lemma WholeObject(v: Json, r: string, w: Json)
    requires Delimited(r)
    ensures (Canonical(v) + r)[0..] == Canonical(w) ==> r == ""
  {
    hide Canonical;
    if (Canonical(v) + r)[0..] == Canonical(w) {
      assert Canonical(w) + "" == Canonical(w);
      Read(v, w, r, "");
    }
  }

  lemma {:induction false} NotInItems(vs: seq<Json>, r: string, p: nat, w: Json)
    requires Named(w) && p < |Items(vs)|
    ensures (Items(vs) + "]" + r)[p..] != Canonical(w)
    decreases vs, 0
  {
    hide Canonical, Named;
    NamedChars(w);
    if vs != [] {
      ItemsSplit(vs, r);
      var c, rest := Canonical(vs[0]), AfterItem(vs, r);
      var x := c + rest;
      if p < |c| {
        OnlyWhole(vs[0], rest, p, w);
      } else if p == |c| {
        assert x[p..][0] == rest[0];
      } else {
        assert x[p..] == (Items(vs[1..]) + "]" + r)[p - |c| - 1..];
        NotInItems(vs[1..], r, p - |c| - 1, w);
      }
    }
  }

  lemma {:induction false} NotInMembers(v: Json, keys: seq<string>, r: string, p: nat, w: Json)
    requires Named(w) && v.Obj? && (forall k :: k in keys ==> k in v.fields) && p < |Members(v, keys)|
    ensures (Members(v, keys) + "}" + r)[p..] != Canonical(w)
    decreases v, 0, |keys|
  {
    hide Canonical, Named, Escapes;
    NamedChars(w);
    if keys != [] {
      MembersSplit(v, keys, r);
      var e, value, rest := Escapes(keys[0]), v.fields[keys[0]], AfterMember(v, keys, r);
      var c := Canonical(value);
      var x := "\"" + (e + "\"" + (":" + (c + rest)));
      var at := |e| + 3;
      if p == 0 {
        assert x[p..][0] == '\"';
      } else if p <= |e| + 1 {
        assert x[p..] == (e + "\"" + (":" + (c + rest)))[p - 1..];
        NotInQuote(keys[0], ":" + (c + rest), p - 1, w);
      } else if p == |e| + 2 {
        assert x[p..][0] == ':';
      } else if p < at + |c| {
        assert x[p..] == (c + rest)[p - at..];
        OnlyWhole(value, rest, p - at, w);
      } else if p == at + |c| {
        assert x[p..][0] == rest[0];
      } else {
        assert x[p..] == (Members(v, keys[1..]) + "}" + r)[p - at - |c| - 1..];
        NotInMembers(v, keys[1..], r, p - at - |c| - 1, w);
      }
    }
  }

  /** Glued to anything before it, a printed object does not read as a printed value. */
  lemma GluedObject(v: Json, tail: string, w: Json)
    requires Named(w) && Canonical(v) == tail + Canonical(w)
    ensures tail == ""
  {
    hide Canonical, Named;
    NamedChars(w);
    assert (Canonical(v) + "")[|tail|..] == Canonical(w);
    OnlyWhole(v, "", |tail|, w);
  }
}
