/**
 * The index keys of src/superior-indexed.js: `canonical` prints a value so that it can be read back in only one way.
 */
module CanonicalKeys {
  import opened Json
  import opened Ordering

  // ---------------------------------------------------------------- strings, section 7 of RFC 8259

  function Hex(n: nat): char
    requires n < 16
  {
    "0123456789abcdef"[n]
  }

  /** How `JSON.stringify` writes one character. */
  function Escape(c: char): string {
    if c == '\"' then "\\\""
    else if c == '\\' then "\\\\"
    else if c == 8 as char then "\\b"
    else if c == 12 as char then "\\f"
    else if c == '\n' then "\\n"
    else if c == '\r' then "\\r"
    else if c == '\t' then "\\t"
    else if c < 32 as char then "\\u00" + [Hex(c as int / 16), Hex(c as int % 16)]
    else [c]
  }

  function Escapes(s: string): string {
    if s == "" then "" else Escape(s[0]) + Escapes(s[1..])
  }

  function Quote(s: string): string {
    "\"" + Escapes(s) + "\""
  }

  lemma HexInjective(m: nat, n: nat)
    requires m < 16 && n < 16 && Hex(m) == Hex(n)
    ensures m == n
  {
  }

  /** Escapes are a prefix code, and no escape starts like a closing quote. */
  lemma EscapePrefix(c: char, d: char, r: string, s: string)
    requires Escape(c) + r == Escape(d) + s
    ensures c == d && r == s
  {
    var x, y := Escape(c) + r, Escape(d) + s;
    assert x[0] == Escape(c)[0] && y[0] == Escape(d)[0];
    if |Escape(c)| > 1 {
      assert x[1] == Escape(c)[1] && y[1] == Escape(d)[1];
      if |Escape(c)| == 6 {
        assert x[4] == Escape(c)[4] && y[4] == Escape(d)[4];
        assert x[5] == Escape(c)[5] && y[5] == Escape(d)[5];
        HexInjective(c as int / 16, d as int / 16);
        HexInjective(c as int % 16, d as int % 16);
      }
    }
    assert c == d;
    assert x[|Escape(c)|..] == r && y[|Escape(d)|..] == s;
  }

  lemma EscapeOpens(c: char)
    ensures Escape(c) != "" && Escape(c)[0] != '\"'
  {
  }

  /** The closing quote stands where the text ends. */
  lemma QuoteAt(a: string, r: string)
    ensures (Escapes(a) + "\"" + r)[0] == '\"' <==> a == ""
  {
    if a != "" {
      EscapeOpens(a[0]);
      assert Escapes(a)[0] == Escape(a[0])[0];
    }
  }

  lemma {:induction false} QuotePrefix(a: string, b: string, r: string, s: string)
    requires Escapes(a) + "\"" + r == Escapes(b) + "\"" + s
    ensures a == b && r == s
  {
    hide Escape;
    var x, y := Escapes(a) + "\"" + r, Escapes(b) + "\"" + s;
    QuoteAt(a, r);
    QuoteAt(b, s);
    if a == "" {
      assert x[1..] == r && y[1..] == s;
    } else {
      var r', s' := Escapes(a[1..]) + "\"" + r, Escapes(b[1..]) + "\"" + s;
      assert x == Escape(a[0]) + r' && y == Escape(b[0]) + s';
      EscapePrefix(a[0], b[0], r', s');
      QuotePrefix(a[1..], b[1..], r, s);
      assert a == [a[0]] + a[1..] && b == [b[0]] + b[1..];
    }
  }

  // ---------------------------------------------------------------- numbers

  function Digit(n: nat): char
    requires n < 10
  {
    "0123456789"[n]
  }

  predicate IsDigit(c: char) {
    '0' <= c <= '9'
  }

  function Decimal(n: nat): (r: string)
    ensures r != "" && forall c :: c in r ==> IsDigit(c)
  {
    if n < 10 then [Digit(n)] else Decimal(n / 10) + [Digit(n % 10)]
  }

  lemma DecimalLength(n: nat)
    ensures |Decimal(n)| == 1 <==> n < 10
  {
  }

  lemma {:induction false} DecimalInjective(m: nat, n: nat)
    requires Decimal(m) == Decimal(n)
    ensures m == n
  {
    var a, b := Decimal(m), Decimal(n);
    DecimalLength(m);
    DecimalLength(n);
    if m >= 10 {
      assert a[..|a| - 1] == Decimal(m / 10) && b[..|b| - 1] == Decimal(n / 10);
      assert a[|a| - 1] == Digit(m % 10) && b[|b| - 1] == Digit(n % 10);
      DecimalInjective(m / 10, n / 10);
    }
  }

  /** `String(n)`, with the sign of zero. */
  function Numeral(n: Number): string {
    match n
    case Finite(k) => if k < 0 then "-" + Decimal(-k) else Decimal(k)
    case NegativeZero => "-" + Decimal(0)
    case NotANumber => "NaN"
    case Infinite(negative) => if negative then "-Infinity" else "Infinity"
  }

  predicate Delimited(r: string) {
    r == "" || r[0] in ",]}"
  }

  predicate Digits(s: string) {
    forall c :: c in s ==> IsDigit(c)
  }

  function LeadingDigits(s: string): nat {
    if s == "" || !IsDigit(s[0]) then 0 else 1 + LeadingDigits(s[1..])
  }

  /** A run of digits ends where the digits end. */
  lemma {:induction false} DigitRun(a: string, r: string)
    requires Digits(a) && Delimited(r)
    ensures LeadingDigits(a + r) == |a|
  {
    if a == "" {
      assert a + r == r;
    } else {
      assert a[0] in a;
      assert (a + r)[1..] == a[1..] + r;
      DigitRun(a[1..], r);
    }
  }

  lemma DecimalPrefix(m: nat, n: nat, r: string, s: string)
    requires Delimited(r) && Delimited(s) && Decimal(m) + r == Decimal(n) + s
    ensures m == n && r == s
  {
    var a, b := Decimal(m), Decimal(n);
    var x := a + r;
    DigitRun(a, r);
    DigitRun(b, s);
    assert x == b + s;
    assert a == x[..|a|] && b == x[..|b|] && r == x[|a|..] && s == x[|b|..];
    DecimalInjective(m, n);
  }

  /** The unsigned part of a numeral, if it is one. */
  function Magnitude(n: Number): int {
    match n
    case Finite(k) => if k < 0 then -k else k
    case NegativeZero => 0
    case _ => -1
  }

  predicate Signed(n: Number) {
    n.NegativeZero? || (n.Finite? && n.n < 0) || (n.Infinite? && n.negative)
  }

  function Unsigned(n: Number): string {
    if n.NotANumber? then "NaN" else if n.Infinite? then "Infinity" else Decimal(Magnitude(n))
  }

  lemma NumeralSplit(n: Number)
    ensures Numeral(n) == (if Signed(n) then "-" else "") + Unsigned(n)
    ensures Unsigned(n) != "" && Unsigned(n)[0] != '-'
    ensures Unsigned(n)[0] == 'N' <==> n.NotANumber?
    ensures Unsigned(n)[0] == 'I' <==> n.Infinite?
  {
    if !n.NotANumber? && !n.Infinite? {
      var d := Decimal(Magnitude(n));
      assert d[0] in d;
    }
  }

  lemma NumeralPrefix(m: Number, n: Number, r: string, s: string)
    requires Delimited(r) && Delimited(s) && Numeral(m) + r == Numeral(n) + s
    ensures m == n && r == s
  {
    hide Unsigned, Numeral, Decimal;
    NumeralSplit(m);
    NumeralSplit(n);
    var x := Numeral(m) + r;
    var y := Numeral(n) + s;
    assert x[0] == (if Signed(m) then '-' else Unsigned(m)[0]) && y[0] == if Signed(n) then '-' else Unsigned(n)[0];
    var at := if Signed(m) then 1 else 0;
    assert x[at..] == Unsigned(m) + r && y[at..] == Unsigned(n) + s;
    assert x[at] == Unsigned(m)[0] && y[at] == Unsigned(n)[0];
    UnsignedPrefix(m, n, r, s);
  }

  lemma UnsignedPrefix(m: Number, n: Number, r: string, s: string)
    requires Delimited(r) && Delimited(s) && Unsigned(m) + r == Unsigned(n) + s && Signed(m) == Signed(n)
    requires (m.NotANumber? <==> n.NotANumber?) && (m.Infinite? <==> n.Infinite?)
    ensures m == n && r == s
  {
    hide Decimal;
    var x := Unsigned(m) + r;
    if m.NotANumber? {
      assert x[3..] == r && (Unsigned(n) + s)[3..] == s;
    } else if m.Infinite? {
      assert x[8..] == r && (Unsigned(n) + s)[8..] == s;
    } else {
      DecimalPrefix(Magnitude(m), Magnitude(n), r, s);
    }
  }

  // ---------------------------------------------------------------- values

  function Canonical(v: Json): string
    decreases v, 1, 0
  {
    match v
    case Undefined => "u"
    case Null => "n"
    case Str(s) => "s:" + Quote(s)
    case Num(n) => "d:" + Numeral(n)
    case Bool(b) => if b then "b:1" else "b:0"
    case Arr(items) => "a:[" + Items(items) + "]"
    case Obj(fields) => "o:{" + Members(v, Sorted(fields.Keys)) + "}"
  }

  function Items(vs: seq<Json>): string
    decreases vs, 0, 0
  {
    if vs == [] then ""
    else if |vs| == 1 then Canonical(vs[0])
    else Canonical(vs[0]) + "," + Items(vs[1..])
  }

  /** The members of an object under these keys. */
  function Members(v: Json, keys: seq<string>): string
    requires v.Obj? && forall k :: k in keys ==> k in v.fields
    decreases v, 0, |keys|
  {
    if keys == [] then ""
    else
      var first := Quote(keys[0]) + ":" + Canonical(v.fields[keys[0]]);
      if |keys| == 1 then first else first + "," + Members(v, keys[1..])
  }

  function Tag(v: Json): char {
    match v
    case Undefined => 'u'
    case Null => 'n'
    case Str(_) => 's'
    case Num(_) => 'd'
    case Bool(_) => 'b'
    case Arr(_) => 'a'
    case Obj(_) => 'o'
  }

  lemma TagFirst(v: Json, r: string)
    ensures Canonical(v) != "" && (Canonical(v) + r)[0] == Tag(v)
  {
    hide Items, Members, Quote, Numeral;
  }

  /** Reading a printed value back: what it was, and where it ended, is determined. */
  lemma {:induction false} Read(a: Json, b: Json, r: string, s: string)
    requires Delimited(r) && Delimited(s) && Canonical(a) + r == Canonical(b) + s
    ensures a == b && r == s
    decreases a, 1, 0
  {
    hide Items, Members, Numeral, Escapes, Tag;
    TagFirst(a, r);
    TagFirst(b, s);
    var x, y := Canonical(a) + r, Canonical(b) + s;
    assert Tag(a) == Tag(b);
    SameTag(a, b);
    match a
    case Undefined =>
      assert x[1..] == r && y[1..] == s;
    case Null =>
      assert x[1..] == r && y[1..] == s;
    case Bool(_) =>
      assert x[2] == (if a.b then '1' else '0') && y[2] == (if b.b then '1' else '0');
      assert x[3..] == r && y[3..] == s;
    case Str(_) =>
      assert x[3..] == Escapes(a.s) + "\"" + r && y[3..] == Escapes(b.s) + "\"" + s;
      QuotePrefix(a.s, b.s, r, s);
    case Num(_) =>
      assert x[2..] == Numeral(a.num) + r && y[2..] == Numeral(b.num) + s;
      NumeralPrefix(a.num, b.num, r, s);
    case Arr(_) =>
      assert x[3..] == Items(a.items) + "]" + r && y[3..] == Items(b.items) + "]" + s;
      ReadItems(a.items, b.items, r, s);
    case Obj(_) =>
      var ks, ls := Sorted(a.fields.Keys), Sorted(b.fields.Keys);
      assert x[3..] == Members(a, ks) + "}" + r && y[3..] == Members(b, ls) + "}" + s;
      ReadMembers(a, b, ks, ls, r, s);
      SameFields(a.fields, b.fields, ks);
  }

  lemma SameTag(a: Json, b: Json)
    requires Tag(a) == Tag(b)
    ensures a.Undefined? == b.Undefined? && a.Null? == b.Null? && a.Bool? == b.Bool? && a.Str? == b.Str?
    ensures a.Num? == b.Num? && a.Arr? == b.Arr? && a.Obj? == b.Obj?
  {
  }

  lemma SameFields(a: map<string, Json>, b: map<string, Json>, ks: seq<string>)
    requires ks == Sorted(a.Keys) == Sorted(b.Keys)
    requires forall k :: k in ks ==> k in a && k in b && a[k] == b[k]
    ensures a == b
  {
    hide Sorted;
    assert forall k :: k in a <==> k in ks;
    assert forall k :: k in b <==> k in ks;
  }

  /** What follows the first of the remaining items. */
  function AfterItem(vs: seq<Json>, r: string): string
    requires vs != []
  {
    if |vs| == 1 then "]" + r else "," + (Items(vs[1..]) + "]" + r)
  }

  lemma Reassociate(c: string, m: string, r: string)
    ensures c + "," + m + "]" + r == c + ("," + (m + "]" + r))
    ensures c + "]" + r == c + ("]" + r)
  {
  }

  lemma ItemsSplit(vs: seq<Json>, r: string)
    ensures vs != [] ==> Items(vs) + "]" + r == Canonical(vs[0]) + AfterItem(vs, r)
    ensures (Items(vs) + "]" + r)[0] == ']' <==> vs == []
  {
    hide Canonical, Tag;
    if vs != [] {
      TagFirst(vs[0], AfterItem(vs, r));
      NotBracket(vs[0]);
      Reassociate(Canonical(vs[0]), Items(vs[1..]), r);
    }
  }

  lemma NotBracket(v: Json)
    ensures Tag(v) != ']'
  {
  }

  lemma {:induction false} ReadItems(vs: seq<Json>, ws: seq<Json>, r: string, s: string)
    requires Items(vs) + "]" + r == Items(ws) + "]" + s
    ensures vs == ws && r == s
    decreases vs, 0, 0
  {
    hide Canonical, Items;
    ItemsSplit(vs, r);
    ItemsSplit(ws, s);
    if vs == [] {
      ItemsNone(r);
      ItemsNone(s);
    } else {
      var x, y := AfterItem(vs, r), AfterItem(ws, s);
      Read(vs[0], ws[0], x, y);
      assert x[0] == y[0];
      assert x[1..] == if |vs| == 1 then r else Items(vs[1..]) + "]" + r;
      assert y[1..] == if |ws| == 1 then s else Items(ws[1..]) + "]" + s;
      assert vs == [vs[0]] + vs[1..] && ws == [ws[0]] + ws[1..];
      if |vs| > 1 {
        ReadItems(vs[1..], ws[1..], r, s);
      }
    }
  }

  lemma ItemsNone(r: string)
    ensures (Items([]) + "]" + r)[1..] == r
  {
  }

  function AfterMember(v: Json, keys: seq<string>, r: string): string
    requires keys != [] && v.Obj? && forall k :: k in keys ==> k in v.fields
  {
    if |keys| == 1 then "}" + r else "," + (Members(v, keys[1..]) + "}" + r)
  }

  lemma ReassociateMember(q: string, c: string, m: string, r: string)
    ensures ("\"" + q + "\"") + ":" + c + "," + m + "}" + r == "\"" + (q + "\"" + (":" + (c + ("," + (m + "}" + r)))))
    ensures ("\"" + q + "\"") + ":" + c + "}" + r == "\"" + (q + "\"" + (":" + (c + ("}" + r))))
  {
    var rest := "," + (m + "}" + r);
    assert c + "," + m + "}" + r == c + rest;
    assert ("\"" + q + "\"") + ":" + c + "," + m + "}" + r == ("\"" + q + "\"") + ":" + (c + rest);
  }

  lemma MembersSplit(v: Json, keys: seq<string>, r: string)
    requires v.Obj? && forall k :: k in keys ==> k in v.fields
    ensures keys != [] ==> (
      Members(v, keys) + "}" + r ==
        "\"" + (Escapes(keys[0]) + "\"" + (":" + (Canonical(v.fields[keys[0]]) + AfterMember(v, keys, r)))))
    ensures keys == [] ==> Members(v, keys) + "}" + r == "}" + r
  {
    hide Canonical, Escapes;
    if keys != [] {
      ReassociateMember(Escapes(keys[0]), Canonical(v.fields[keys[0]]), Members(v, keys[1..]), r);
    }
  }

  lemma {:induction false} ReadMembers(a: Json, b: Json, ks: seq<string>, ls: seq<string>, r: string, s: string)
    requires a.Obj? && b.Obj? && (forall k :: k in ks ==> k in a.fields) && (forall k :: k in ls ==> k in b.fields)
    requires Members(a, ks) + "}" + r == Members(b, ls) + "}" + s
    ensures ks == ls && r == s && forall k :: k in ks ==> k in b.fields && a.fields[k] == b.fields[k]
    decreases a, 0, |ks|, 0
  {
    hide Canonical, Escapes, Members;
    MembersSplit(a, ks, r);
    MembersSplit(b, ls, s);
    var x, y := Members(a, ks) + "}" + r, Members(b, ls) + "}" + s;
    assert x[0] == (if ks == [] then '}' else '\"') && y[0] == (if ls == [] then '}' else '\"');
    if ks == [] {
      assert x[1..] == r && y[1..] == s;
    } else {
      var x', y' := AfterMember(a, ks, r), AfterMember(b, ls, s);
      var p, q := Canonical(a.fields[ks[0]]) + x', Canonical(b.fields[ls[0]]) + y';
      assert x[1..] == Escapes(ks[0]) + "\"" + (":" + p) && y[1..] == Escapes(ls[0]) + "\"" + (":" + q);
      QuotePrefix(ks[0], ls[0], ":" + p, ":" + q);
      assert (":" + p)[1..] == p && (":" + q)[1..] == q;
      Read(a.fields[ks[0]], b.fields[ls[0]], x', y');
      ReadRest(a, b, ks, ls, r, s);
    }
  }

  lemma {:induction false} ReadRest(a: Json, b: Json, ks: seq<string>, ls: seq<string>, r: string, s: string)
    requires a.Obj? && b.Obj? && (forall k :: k in ks ==> k in a.fields) && (forall k :: k in ls ==> k in b.fields)
    requires ks != [] && ls != [] && ks[0] == ls[0] && a.fields[ks[0]] == b.fields[ls[0]]
    requires AfterMember(a, ks, r) == AfterMember(b, ls, s)
    ensures ks == ls && r == s && forall k :: k in ks ==> k in b.fields && a.fields[k] == b.fields[k]
    decreases a, 0, |ks| - 1, 1
  {
    hide Members;
    var x, y := AfterMember(a, ks, r), AfterMember(b, ls, s);
    assert x[0] == y[0];
    assert ks == [ks[0]] + ks[1..] && ls == [ls[0]] + ls[1..];
    assert x[1..] == if |ks| == 1 then r else Members(a, ks[1..]) + "}" + r;
    assert y[1..] == if |ls| == 1 then s else Members(b, ls[1..]) + "}" + s;
    if |ks| > 1 {
      ReadMembers(a, b, ks[1..], ls[1..], r, s);
    }
  }

  /** Two values have the same key exactly when they are equal up to the order of object members. */
  lemma CanonicalInjective(a: Json, b: Json)
    ensures Canonical(a) == Canonical(b) <==> a == b
  {
    if Canonical(a) == Canonical(b) {
      assert Canonical(a) + "" == Canonical(b) + "";
      Read(a, b, "", "");
    }
  }

  /** The key of a list of indexed values. */
  function StableKey(values: seq<Json>): string {
    Canonical(Arr(values))
  }

  lemma StableKeyInjective(a: seq<Json>, b: seq<Json>)
    ensures StableKey(a) == StableKey(b) <==> a == b
  {
    CanonicalInjective(Arr(a), Arr(b));
  }
}
