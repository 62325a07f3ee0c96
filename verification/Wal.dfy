/**
 * The write-ahead log file of src/wal.js: one line per entry, read back exactly, also when the file is cut at any
 * character.
 */
module Wal {
  import opened Basics
  import opened Json
  import opened CanonicalEnds
  import opened CanonicalKeys
  import Ordering

  /** An entry; its digest is a function of the rest. */
  datatype Entry = Entry(databaseId: string, base: nat, result: nat, events: seq<Json>)

  function Payload(e: Entry): map<string, Json> {
    map["format" := Str("syncio-wal/1"), "databaseId" := Str(e.databaseId), "baseSequence" := Num(Finite(e.base)),
        "resultSequence" := Num(Finite(e.result)), "events" := Arr(e.events)]
  }

  /** The text of an entry. The digest is represented by the text it is taken of: equal exactly for equal payloads. */
  function Line(e: Entry): string {
    Canonical(Obj(Payload(e)["digest" := Str(Canonical(Obj(Payload(e))))]))
  }

  /** `validateEntry`. */
  predicate Sound(e: Entry) {
    e.databaseId != "" && e.base < e.result && e.events != []
  }

  lemma LineInjective(a: Entry, b: Entry)
    requires Line(a) == Line(b)
    ensures a == b
  {
    hide Canonical;
    var x, y := Payload(a)["digest" := Str(Canonical(Obj(Payload(a))))],
      Payload(b)["digest" := Str(Canonical(Obj(Payload(b))))];
    CanonicalInjective(Obj(x), Obj(y));
    assert x["databaseId"] == y["databaseId"] && x["baseSequence"] == y["baseSequence"];
    assert x["resultSequence"] == y["resultSequence"] && x["events"] == y["events"];
  }

  /** Parsing and validating one line; None when it throws. */
  ghost function Parse(line: string): (r: Option<Entry>)
    ensures r.Some? ==> Sound(r.value) && Line(r.value) == line
  {
    if e: Entry :| Sound(e) && Line(e) == line then Some(e) else None
  }

  /** Parsing is exact: the line of an entry is read as that entry, and nothing else is. */
  lemma ParseExact(line: string, e: Entry)
    ensures Parse(line) == Some(e) <==> Sound(e) && line == Line(e)
  {
    hide Line;
    if Sound(e) && line == Line(e) {
      LineInjective(Parse(line).value, e);
    }
  }

  // ---------------------------------------------------------------- no line break inside a line

  predicate OneLine(s: string) {
    '\n' !in s
  }

  lemma {:induction false} EscapesOneLine(s: string)
    ensures OneLine(Escapes(s))
  {
    if s != "" {
      EscapeOneLine(s[0]);
      EscapesOneLine(s[1..]);
    }
  }

  lemma EscapeOneLine(c: char)
    ensures OneLine(Escape(c))
  {
    var e := Escape(c);
    if |e| == 6 {
      HexPlain(c as int / 16);
      HexPlain(c as int % 16);
    }
  }

  lemma HexPlain(n: nat)
    requires n < 16
    ensures Hex(n) != '\n'
  {
  }

  lemma NumeralOneLine(n: Number)
    ensures OneLine(Numeral(n))
  {
    hide Decimal;
    assert !IsDigit('\n');
    if n.Finite? {
      assert OneLine(Decimal(if n.n < 0 then -n.n else n.n));
    } else if n.NegativeZero? {
      assert OneLine(Decimal(0));
    }
  }

  lemma {:induction false} CanonicalOneLine(v: Json)
    ensures OneLine(Canonical(v))
    decreases v, 1, 0
  {
    hide Escapes, Numeral, Items, Members;
    match v
    case Str(s) => EscapesOneLine(s);
    case Num(n) => NumeralOneLine(n);
    case Arr(items) => ItemsOneLine(items);
    case Obj(fields) => MembersOneLine(v, Ordering.Sorted(fields.Keys));
    case _ =>
  }

  lemma {:induction false} ItemsOneLine(vs: seq<Json>)
    ensures OneLine(Items(vs))
    decreases vs, 0, 0
  {
    hide Canonical;
    if vs != [] {
      CanonicalOneLine(vs[0]);
      if |vs| > 1 {
        ItemsOneLine(vs[1..]);
      }
    }
  }

  lemma {:induction false} MembersOneLine(v: Json, keys: seq<string>)
    requires v.Obj? && forall k :: k in keys ==> k in v.fields
    ensures OneLine(Members(v, keys))
    decreases v, 0, |keys|
  {
    hide Canonical, Escapes;
    if keys != [] {
      EscapesOneLine(keys[0]);
      CanonicalOneLine(v.fields[keys[0]]);
      if |keys| > 1 {
        MembersOneLine(v, keys[1..]);
      }
    }
  }

  lemma LineOneLine(e: Entry)
    ensures OneLine(Line(e)) && Line(e) != ""
  {
    hide Canonical;
    var v := Obj(Payload(e)["digest" := Str(Canonical(Obj(Payload(e))))]);
    CanonicalOneLine(v);
    TagFirst(v, "");
  }

  // ---------------------------------------------------------------- reading

  /** `text.split('\n')`. */
  function SplitLines(text: string): (r: seq<string>)
    ensures r != []
  {
    if text == "" then [""]
    else if text[0] == '\n' then [""] + SplitLines(text[1..])
    else
      var rest := SplitLines(text[1..]);
      [[text[0]] + rest[0]] + rest[1..]
  }

  lemma {:induction false} SplitLine(line: string, rest: string)
    requires OneLine(line)
    ensures SplitLines(line + "\n" + rest) == [line] + SplitLines(rest)
    ensures SplitLines(line) == [line]
  {
    if line == "" {
      assert line + "\n" + rest == "\n" + rest;
      assert ("\n" + rest)[1..] == rest;
    } else {
      SplitLine(line[1..], rest);
      var text := line + "\n" + rest;
      assert text[1..] == line[1..] + "\n" + rest;
      assert line == [line[0]] + line[1..];
    }
  }

  /** The line loop: empty lines are passed over, an entry must follow the one before it. */
  ghost function ReadLines(lines: seq<string>): Option<seq<Entry>> {
    if lines == [] then Some([])
    else
      var init, line := ReadLines(lines[..|lines| - 1]), lines[|lines| - 1];
      if init.None? || line == "" then init
      else
        var e := Parse(line);
        if e.None? || (init.value != [] && e.value.base != init.value[|init.value| - 1].result) then None
        else Some(init.value + [e.value])
  }

  /** `readWalEntries`: a last line without its line break is dropped. */
  ghost function ReadText(text: string): Option<seq<Entry>> {
    var lines := SplitLines(text);
    ReadLines(if text != "" && text[|text| - 1] == '\n' then lines else lines[..|lines| - 1])
  }

  function Print(es: seq<Entry>): string {
    if es == [] then "" else Line(es[0]) + "\n" + Print(es[1..])
  }

  ghost predicate Contiguous(es: seq<Entry>) {
    && (forall i :: 0 <= i < |es| ==> Sound(es[i]))
    && (forall i :: 0 < i < |es| ==> es[i].base == es[i - 1].result)
  }

  /** The lines of a printed log followed by a piece of one line. */
  lemma {:induction false} SplitPrinted(es: seq<Entry>, tail: string)
    requires OneLine(tail)
    ensures SplitLines(Print(es) + tail) == Lines(es) + [tail]
  {
    hide Line;
    if es == [] {
      assert Print(es) + tail == tail;
      SplitLine(tail, "");
      assert Lines(es) + [tail] == [tail];
    } else {
      LineOneLine(es[0]);
      SplitPrinted(es[1..], tail);
      assert Print(es) + tail == Line(es[0]) + "\n" + (Print(es[1..]) + tail);
      SplitLine(Line(es[0]), Print(es[1..]) + tail);
      assert [Line(es[0])] + (Lines(es[1..]) + [tail]) == Lines(es) + [tail];
    }
  }

  function Lines(es: seq<Entry>): (r: seq<string>)
    ensures |r| == |es|
    ensures forall i :: 0 <= i < |es| ==> r[i] == Line(es[i])
  {
    if es == [] then [] else [Line(es[0])] + Lines(es[1..])
  }

  lemma ContiguousInit(es: seq<Entry>)
    requires Contiguous(es) && es != []
    ensures Contiguous(es[..|es| - 1]) && Sound(es[|es| - 1])
    ensures |es| > 1 ==> es[|es| - 1].base == es[..|es| - 1][|es| - 2].result
  {
  }

  lemma ContiguousTail(es: seq<Entry>)
    requires Contiguous(es) && es != []
    ensures Contiguous(es[1..]) && Sound(es[0])
    ensures |es| > 1 ==> es[1..][0].base == es[0].result && Sound(es[1..][0])
  {
    var rest := es[1..];
    assert forall i :: 0 <= i < |rest| ==> rest[i] == es[i + 1];
  }

  lemma {:induction false} ReadEntries(es: seq<Entry>)
    requires Contiguous(es)
    ensures ReadLines(Lines(es)) == Some(es)
  {
    hide Line, Parse, Sound, Contiguous, Lines;
    if es == [] {
      assert Lines(es) == [];
    } else {
      var init, e := es[..|es| - 1], es[|es| - 1];
      ContiguousInit(es);
      ReadEntries(init);
      var lines := Lines(es);
      assert lines[..|lines| - 1] == Lines(init);
      LineOneLine(e);
      ParseExact(Line(e), e);
      assert es == init + [e];
    }
  }

  /** How many whole lines of the printed log lie within its first n characters. */
  function Survivors(es: seq<Entry>, n: nat): (k: nat)
    ensures k <= |es|
  {
    if es == [] || n < |Line(es[0])| + 1 then 0 else 1 + Survivors(es[1..], n - |Line(es[0])| - 1)
  }

  /** A cut log is its surviving lines and a piece of the next line. */
  lemma {:induction false} CutPrinted(es: seq<Entry>, n: nat) returns (tail: string)
    requires n <= |Print(es)|
    ensures Print(es)[..n] == Print(es[..Survivors(es, n)]) + tail && OneLine(tail)
  {
    hide Line;
    if es == [] {
      tail := "";
    } else {
      var line := Line(es[0]);
      LineOneLine(es[0]);
      if n < |line| + 1 {
        tail := line[..n];
        assert Print(es)[..n] == tail;
        assert Print(es[..0]) + tail == tail;
      } else {
        var m := n - |line| - 1;
        tail := CutPrinted(es[1..], m);
        var k := Survivors(es[1..], m);
        assert Print(es)[..n] == line + "\n" + Print(es[1..])[..m];
        assert es[..1 + k][1..] == es[1..][..k] && es[..1 + k][0] == es[0];
        assert line + "\n" + (Print(es[1..][..k]) + tail) == Print(es[..1 + k]) + tail;
      }
    }
  }

  /** A text of whole lines and a piece without its line break reads as the whole lines. */
  lemma ReadPiece(es: seq<Entry>, tail: string)
    requires Contiguous(es) && OneLine(tail)
    ensures ReadText(Print(es) + tail) == Some(es)
  {
    hide Line, Parse, Lines;
    var text := Print(es) + tail;
    SplitPrinted(es, tail);
    ReadEntries(es);
    var lines := Lines(es) + [tail];
    assert lines[..|lines| - 1] == Lines(es);
    WholeIff(es, tail);
    if tail == "" {
      ReadEmptyLast(Lines(es));
    }
  }

  lemma ReadEmptyLast(lines: seq<string>)
    ensures ReadLines(lines + [""]) == ReadLines(lines)
  {
    assert (lines + [""])[..|lines|] == lines;
  }

  /** The file reads back as the log it prints. */
  lemma ReadPrinted(es: seq<Entry>)
    requires Contiguous(es)
    ensures ReadText(Print(es)) == Some(es)
  {
    ReadPiece(es, "");
    assert Print(es) + "" == Print(es);
  }

  /** Cut at any character, the file reads back as exactly the entries whose line break survived. */
  lemma TruncatedReads(es: seq<Entry>, n: nat)
    requires Contiguous(es) && n <= |Print(es)|
    ensures ReadText(Print(es)[..n]) == Some(es[..Survivors(es, n)])
  {
    hide Print, ReadText, Survivors;
    var tail := CutPrinted(es, n);
    ReadPiece(es[..Survivors(es, n)], tail);
  }

  /** Whether a cut leaves whole lines only. */
  predicate Whole(text: string) {
    text == "" || text[|text| - 1] == '\n'
  }

  /**
   * Appending to a cut log, as `open` followed by `append` does, reads back as the survivors and the new entry when the
   * cut fell between lines; otherwise the log cannot be read any more, whatever is appended later.
   */
  lemma AppendAfterCutIff(es: seq<Entry>, n: nat, e: Entry, more: seq<Entry>)
    requires Contiguous(es) && n <= |Print(es)| && Contiguous(es[..Survivors(es, n)] + [e] + more)
    ensures ReadText(Print(es)[..n] + (Line(e) + "\n" + Print(more))) ==
      if Whole(Print(es)[..n]) then Some(es[..Survivors(es, n)] + [e] + more) else None
  {
    hide Line, Survivors, ReadText;
    var kept := es[..Survivors(es, n)];
    var tail := CutPrinted(es, n);
    WholeIff(kept, tail);
    if tail == "" {
      assert Print(es)[..n] == Print(kept);
      PrintMore(kept, e, more);
      ReadPrinted(kept + [e] + more);
    } else {
      assert Print(es)[..n] + (Line(e) + "\n" + Print(more)) == Print(kept) + (tail + Line(e) + "\n" + Print(more));
      JoinedLine(kept, tail, e, more);
    }
  }

  lemma {:induction false} PrintMore(es: seq<Entry>, e: Entry, more: seq<Entry>)
    ensures Print(es + [e] + more) == Print(es) + (Line(e) + "\n" + Print(more))
  {
    hide Line;
    if es == [] {
      assert es + [e] + more == [e] + more;
      assert ([e] + more)[1..] == more;
    } else {
      PrintMore(es[1..], e, more);
      assert (es + [e] + more)[1..] == es[1..] + [e] + more;
      var line, rest, last := Line(es[0]), Print(es[1..]), Line(e) + "\n" + Print(more);
      assert line + "\n" + (rest + last) == line + "\n" + rest + last;
    }
  }

  lemma {:induction false} PrintSnoc(es: seq<Entry>, e: Entry)
    ensures Print(es + [e]) == Print(es) + Line(e) + "\n"
  {
    hide Line;
    if es == [] {
      assert es + [e] == [e];
      assert [e][1..] == [];
    } else {
      PrintSnoc(es[1..], e);
      assert (es + [e])[1..] == es[1..] + [e];
      var line, rest := Line(es[0]), Print(es[1..]);
      assert line + "\n" + (rest + Line(e) + "\n") == line + "\n" + rest + Line(e) + "\n";
    }
  }

  lemma WholeIff(es: seq<Entry>, tail: string)
    requires OneLine(tail)
    ensures Whole(Print(es) + tail) <==> tail == ""
  {
    hide Line;
    var text := Print(es) + tail;
    if tail == "" {
      assert text == Print(es);
      if es != [] {
        PrintSnoc(es[..|es| - 1], es[|es| - 1]);
        assert es == es[..|es| - 1] + [es[|es| - 1]];
      }
    } else {
      assert text[|text| - 1] == tail[|tail| - 1];
      assert tail[|tail| - 1] in tail;
    }
  }

  /** The text of an entry is that of an object whose first key is a name. */
  lemma LineNamed(e: Entry)
    ensures Named(Obj(Payload(e)["digest" := Str(Canonical(Obj(Payload(e))))]))
  {
    var v := Obj(Payload(e)["digest" := Str(Canonical(Obj(Payload(e))))]);
    hide Canonical;
    var keys := Ordering.Sorted(v.fields.Keys);
    assert "events" in v.fields.Keys && keys != [];
    assert keys[0] in keys && keys[0] in v.fields.Keys;
    assert forall k :: k in v.fields.Keys ==> k != "" && 'a' <= k[0] <= 'z';
    hide Ordering.Sorted, Payload;
    NamedBy(v, keys);
  }

  lemma NamedBy(v: Json, keys: seq<string>)
    requires v.Obj? && keys == Ordering.Sorted(v.fields.Keys) && keys != []
    requires keys[0] != "" && 'a' <= keys[0][0] <= 'z'
    ensures Named(v)
  {
    var t := ":" + (Canonical(v.fields[keys[0]]) + AfterMember(v, keys, ""));
    assert Canonical(v) == "o:{" + (Members(v, keys) + "}" + "");
    MembersSplit(v, keys, "");
    hide *;
    PlainFirst(keys[0], "\"" + t);
    NamedText(v, Escapes(keys[0]), t);
  }

  lemma NamedText(v: Json, e: string, t: string)
    requires v.Obj? && Canonical(v) == "o:{" + ("\"" + (e + "\"" + t))
    requires (e + ("\"" + t))[0] !in ":,]}"
    ensures Named(v)
  {
    hide Canonical;
    assert e + "\"" + t == e + ("\"" + t);
    assert Canonical(v) == "o:{\"" + (e + ("\"" + t));
  }

  lemma PlainFirst(key: string, r: string)
    requires key != "" && 'a' <= key[0] <= 'z'
    ensures Escapes(key) + r != "" && (Escapes(key) + r)[0] == key[0] && key[0] !in ":,]}"
  {
    assert Escapes(key) == Escape(key[0]) + Escapes(key[1..]);
    hide Escapes;
    assert Escape(key[0]) == [key[0]];
  }

  /** A line appended onto a torn one is not a line, so the log is refused, also with more lines after it. */
  lemma JoinedLine(es: seq<Entry>, tail: string, e: Entry, more: seq<Entry>)
    requires OneLine(tail) && tail != ""
    ensures ReadText(Print(es) + (tail + Line(e) + "\n" + Print(more))) == None
  {
    hide Line, Parse, Lines, Print, ReadLines;
    var line := tail + Line(e);
    var text := Print(es) + (line + "\n" + Print(more));
    LineOneLine(e);
    JoinedSplit(es, line, Print(more));
    SplitPrinted(more, "");
    assert Print(more) + "" == Print(more);
    NotALine(tail, e);
    var lines := Lines(es) + [line] + (Lines(more) + [""]);
    assert lines[..|es| + 1] == Lines(es) + [line];
    RefusedLast(Lines(es), line);
    ReadStops(lines, |es| + 1);
    assert lines[..|lines| - 1][..|es| + 1] == Lines(es) + [line];
    ReadStops(lines[..|lines| - 1], |es| + 1);
  }

  lemma NotALine(tail: string, e: Entry)
    requires tail != ""
    ensures Parse(tail + Line(e)) == None
  {
    hide Canonical, Named;
    var line := tail + Line(e);
    if f: Entry :| Sound(f) && Line(f) == line {
      LineNamed(e);
      GluedObject(Obj(Payload(f)["digest" := Str(Canonical(Obj(Payload(f))))]), tail,
                  Obj(Payload(e)["digest" := Str(Canonical(Obj(Payload(e))))]));
    }
  }

  lemma RefusedLast(lines: seq<string>, line: string)
    requires line != "" && Parse(line) == None
    ensures ReadLines(lines + [line]).None?
  {
    hide Parse;
    assert (lines + [line])[..|lines|] == lines;
  }

  lemma {:induction false} JoinedSplit(es: seq<Entry>, line: string, last: string)
    requires OneLine(line)
    ensures SplitLines(Print(es) + (line + "\n" + last)) == Lines(es) + [line] + SplitLines(last)
  {
    hide Line;
    if es == [] {
      assert Print(es) + (line + "\n" + last) == line + "\n" + last;
      SplitLine(line, last);
    } else {
      LineOneLine(es[0]);
      JoinedSplit(es[1..], line, last);
      var rest := Print(es[1..]) + (line + "\n" + last);
      assert Print(es) + (line + "\n" + last) == Line(es[0]) + "\n" + rest;
      SplitLine(Line(es[0]), rest);
      assert [Line(es[0])] + (Lines(es[1..]) + [line] + SplitLines(last)) == Lines(es) + [line] + SplitLines(last);
    }
  }

  ghost predicate Follows(es: seq<Entry>, e: Entry) {
    es == [] || e.base == es[|es| - 1].result
  }

  lemma ContiguousIff(es: seq<Entry>, e: Entry)
    requires Contiguous(es) && Sound(e)
    ensures Contiguous(es + [e]) <==> Follows(es, e)
  {
    var longer := es + [e];
    assert forall i :: 0 <= i < |es| ==> longer[i] == es[i];
    assert longer[|es|] == e;
  }

  /** A log with a gap between its last two entries is refused as a whole. */
  lemma GapUnreadable(es: seq<Entry>, e: Entry)
    requires Contiguous(es) && Sound(e) && !Follows(es, e)
    ensures ReadText(Print(es) + (Line(e) + "\n")) == None
  {
    hide Line, Parse, Lines, Contiguous, Sound;
    LineOneLine(e);
    JoinedSplit(es, Line(e), "");
    assert Line(e) + "\n" + "" == Line(e) + "\n";
    var text, lines := Print(es) + (Line(e) + "\n"), Lines(es) + [Line(e)];
    assert text[|text| - 1] == '\n';
    assert (lines + [""])[..|lines|] == lines;
    ReadEmptyLast(lines);
    ReadEntries(es);
    ParseExact(Line(e), e);
    assert lines[..|lines| - 1] == Lines(es);
  }

  // ---------------------------------------------------------------- the log object

  /** `readWalEntries`, line by line. */
  method ReadWalEntries(text: string, parse: string -> Option<Entry>) returns (r: Option<seq<Entry>>)
    requires forall line :: parse(line) == Parse(line)
    ensures r == ReadText(text)
  {
    hide Parse, SplitLines, ReadLines;
    var lines := SplitLines(text);
    if !(text != "" && text[|text| - 1] == '\n') {
      lines := lines[..|lines| - 1];
    }
    r := ReadAll(lines, parse);
  }

  lemma ReadNothing(lines: seq<string>)
    ensures ReadLines(lines[..0]) == Some([])
  {
  }

  lemma ReadNext(lines: seq<string>, i: nat, entries: seq<Entry>)
    requires i < |lines| && ReadLines(lines[..i]) == Some(entries)
    ensures var e := Parse(lines[i]);
      ReadLines(lines[..i + 1]) ==
        if lines[i] == "" then Some(entries)
        else if e.None? || (entries != [] && e.value.base != entries[|entries| - 1].result) then None
        else Some(entries + [e.value])
  {
    hide Parse;
    assert lines[..i + 1][..i] == lines[..i];
  }

  method ReadAll(lines: seq<string>, parse: string -> Option<Entry>) returns (r: Option<seq<Entry>>)
    requires forall line :: parse(line) == Parse(line)
    ensures r == ReadLines(lines)
  {
    hide Parse, ReadLines;
    var entries: seq<Entry> := [];
    ReadNothing(lines);
    for i := 0 to |lines|
      invariant ReadLines(lines[..i]) == Some(entries)
    {
      var line := lines[i];
      ReadNext(lines, i, entries);
      if line != "" {
        var e := parse(line);
        if e.None? || (entries != [] && e.value.base != entries[|entries| - 1].result) {
          ReadStops(lines, i + 1);
          return None;
        }
        entries := entries + [e.value];
      }
    }
    assert lines[..|lines|] == lines;
    r := Some(entries);
  }

  lemma {:induction false} ReadStops(lines: seq<string>, n: nat)
    requires n <= |lines| && ReadLines(lines[..n]).None?
    ensures ReadLines(lines).None?
    decreases |lines|
  {
    hide Parse;
    if n == |lines| {
      assert lines[..n] == lines;
    } else {
      assert lines[..|lines| - 1][..n] == lines[..n];
      ReadStops(lines[..|lines| - 1], n);
    }
  }

  function After(es: seq<Entry>, sequence: nat): seq<Entry> {
    if es == [] then [] else (if es[0].result > sequence then [es[0]] else []) + After(es[1..], sequence)
  }

  class WriteAheadLog {
    var entries: seq<Entry>
    var text: string

    /** The file prints the entries in memory, so opening it again reads the same log. */
    ghost predicate Valid()
      reads this
    {
      Contiguous(entries) && text == Print(entries)
    }

    constructor ()
      ensures Valid() && entries == []
    {
      entries, text := [], "";
    }

    /**
     * `append`; false for an envelope it refuses. It does not look at the entry before: an entry that does not follow
     * it is written all the same, and exactly then the file cannot be read any more.
     */
    method Append(e: Entry) returns (ok: bool)
      requires Valid()
      modifies this
      ensures ok <==> Sound(e)
      ensures entries == (if ok then old(entries) + [e] else old(entries)) && text == Print(entries)
      ensures Valid() <==> !ok || Follows(old(entries), e)
      ensures ReadText(text) == if !ok || Follows(old(entries), e) then Some(entries) else None
      ensures old(text) <= text
    {
      hide Line, ReadText;
      ReadPrinted(entries);
      if e.databaseId == "" || e.result <= e.base || e.events == [] {
        return false;
      }
      ContiguousIff(entries, e);
      if !Follows(entries, e) {
        GapUnreadable(entries, e);
      }
      PrintSnoc(entries, e);
      text := text + (Line(e) + "\n");
      assert Print(entries) + (Line(e) + "\n") == Print(entries) + Line(e) + "\n";
      entries := entries + [e];
      if Valid() {
        ReadPrinted(entries);
      }
      ok := true;
    }

    /** `compactThrough`: only entries that end beyond the sequence stay, in memory and in the file. */
    method CompactThrough(sequence: nat) returns (remaining: nat)
      requires Valid()
      modifies this
      ensures Valid() && ReadText(text) == Some(entries)
      ensures entries == After(old(entries), sequence) && remaining == |entries|
    {
      hide Line, ReadText;
      entries := After(entries, sequence);
      text := Print(entries);
      AfterContiguous(old(entries), sequence);
      ReadPrinted(entries);
      remaining := |entries|;
    }

    /** `reset`. */
    method Reset()
      modifies this
      ensures Valid() && entries == [] && ReadText(text) == Some([])
    {
      hide Line, ReadText;
      entries, text := [], "";
      ReadPrinted([]);
    }
  }

  /** What compaction keeps is a suffix. */
  lemma {:induction false} AfterSuffix(es: seq<Entry>, sequence: nat) returns (n: nat)
    requires Contiguous(es)
    ensures n <= |es| && After(es, sequence) == es[n..]
    ensures forall i :: n <= i < |es| ==> es[i].result > sequence
    ensures forall i :: 0 <= i < n ==> es[i].result <= sequence
  {
    hide Contiguous, Sound;
    if es == [] {
      n := 0;
    } else {
      ContiguousTail(es);
      var m := AfterSuffix(es[1..], sequence);
      n := SuffixStep(es, sequence, m);
    }
  }

  lemma SuffixStep(es: seq<Entry>, sequence: nat, m: nat) returns (n: nat)
    requires Contiguous(es) && es != [] && m <= |es| - 1 && After(es[1..], sequence) == es[1..][m..]
    requires forall i :: m <= i < |es| - 1 ==> es[1..][i].result > sequence
    requires forall i :: 0 <= i < m ==> es[1..][i].result <= sequence
    ensures n <= |es| && After(es, sequence) == es[n..]
    ensures forall i :: n <= i < |es| ==> es[i].result > sequence
    ensures forall i :: 0 <= i < n ==> es[i].result <= sequence
  {
    hide Contiguous;
    var rest := es[1..];
    assert forall i :: 0 < i < |es| ==> es[i] == rest[i - 1];
    if es[0].result <= sequence {
      n := m + 1;
      assert rest[m..] == es[n..];
    } else {
      n := 0;
      Rising(es);
      assert forall i :: 0 <= i < |rest| ==> rest[i].result > sequence;
      assert rest[m..] == rest;
      assert es == [es[0]] + rest;
    }
  }

  lemma {:induction false} Rising(es: seq<Entry>)
    requires Contiguous(es)
    ensures forall i :: 0 < i < |es| ==> es[i].result > es[0].result
  {
    hide Contiguous;
    if |es| > 1 {
      var rest := es[1..];
      ContiguousTail(es);
      Rising(rest);
      forall i | 0 < i < |es| ensures es[i].result > es[0].result {
        assert es[i] == rest[i - 1];
      }
    }
  }

  lemma AfterContiguous(es: seq<Entry>, sequence: nat)
    requires Contiguous(es)
    ensures Contiguous(After(es, sequence))
  {
    var n := AfterSuffix(es, sequence);
    var rest := es[n..];
    assert forall i :: 0 <= i < |rest| ==> rest[i] == es[n + i];
  }
}
