/**
 * The write-set transactions of src/storage-core.js: what each call returns, what it
 * buffers, and when the results of an interleaved body are those of running it alone.
 */
module Transactions {
  import opened Basics
  import opened Json

  /** The records currently visible in every collection. */
  type Content = map<Key, Record>

  datatype Op =
    | Get(key: Key)
    | Put(collection: string, record: Record)
    | Remove(key: Key)
    | All(collection: string)

  datatype Result =
    | Found(record: Option<Record>)
    | Done
    | Removed(existed: bool)
    | Rows(rows: Content)

  datatype Write = Write(before: Option<Record>, after: Option<Record>)

  /** The `writes` Map: contents and insertion order of its keys. */
  datatype WriteSet = WriteSet(writes: map<Key, Write>, order: seq<Key>) {
    function Set(k: Key, w: Write): WriteSet {
      WriteSet(writes[k := w], if k in writes then order else order + [k])
    }

    ghost predicate Ok() {
      && (forall k :: k in order <==> k in writes)
      && (forall i, j :: 0 <= i < j < |order| ==> order[i] != order[j])
    }
  }

  const NO_WRITES := WriteSet(map[], [])

  function InCollection(content: Content, c: string): Content {
    map k | k in content && k.collection == c :: content[k]
  }

  function OwnRows(ws: WriteSet, c: string): Content {
    map k | k in ws.writes && k.collection == c && ws.writes[k].after.Some? :: ws.writes[k].after.value
  }

  /** One call of the transaction API against the given database content. */
  function Exec(content: Content, ws: WriteSet, op: Op): (Result, WriteSet) {
    match op
    case Get(k) =>
      (Found(if k in ws.writes then ws.writes[k].after else Lookup(content, k)), ws)
    case Put(c, r) =>
      var k := Key(c, r.id);
      var prior := if k in ws.writes then ws.writes[k].before else Lookup(content, k);
      (Done, ws.Set(k, Write(prior, Some(r))))
    case Remove(k) =>
      var current := if k in ws.writes then ws.writes[k].after else Lookup(content, k);
      if current.None? then (Removed(false), ws)
      else
        var before := if k in ws.writes then ws.writes[k].before else current;
        (Removed(true), ws.Set(k, Write(before, None)))
    case All(c) =>
      (Rows((InCollection(content, c) - ws.writes.Keys) + OwnRows(ws, c)), ws)
  }

  /** The key a call reads from the database, when its own writes do not answer it. */
  function Touch(ws: WriteSet, op: Op): Option<Key> {
    match op
    case Get(k) => if k in ws.writes then None else Some(k)
    case Put(c, r) => if Key(c, r.id) in ws.writes then None else Some(Key(c, r.id))
    case Remove(k) => if k in ws.writes then None else Some(k)
    case All(_) => None
  }

  /** One call of a running body: what it asked, what it was told, and what the database held then. */
  datatype Observation = Observation(op: Op, result: Result, content: Content)

  /** The write set after the observed calls. */
  function Writes(trace: seq<Observation>): WriteSet {
    if trace == [] then NO_WRITES
    else
      var last := trace[|trace| - 1];
      Exec(last.content, Writes(trace[..|trace| - 1]), last.op).1
  }

  /** Every result is what Exec returned at its moment. */
  predicate TraceOk(trace: seq<Observation>) {
    trace != [] ==>
      var init, last := trace[..|trace| - 1], trace[|trace| - 1];
      TraceOk(init) && last.result == Exec(last.content, Writes(init), last.op).0
  }

  /** The write set of the same calls run alone on content s. */
  function AloneWrites(s: Content, trace: seq<Observation>): WriteSet {
    if trace == [] then NO_WRITES
    else Exec(s, AloneWrites(s, trace[..|trace| - 1]), trace[|trace| - 1].op).1
  }

  /** Every result is what the body would have been told running alone on content s. */
  predicate Serial(s: Content, trace: seq<Observation>) {
    trace != [] ==>
      var init, last := trace[..|trace| - 1], trace[|trace| - 1];
      Serial(s, init) && last.result == Exec(s, AloneWrites(s, init), last.op).0
  }

  function TouchAt(trace: seq<Observation>, i: nat): Option<Key>
    requires i < |trace|
  {
    Touch(Writes(trace[..i]), trace[i].op)
  }

  function Answer(o: Observation): Option<Record> {
    match o.result
    case Found(r) => r
    case _ => None
  }

  /**
   * A body can check this itself: reading a key again from the database returned what its
   * earlier calls on that key had reported (a removal that found nothing reports absence).
   */
  ghost predicate Repeatable(trace: seq<Observation>) {
    forall i, j, k ::
      0 <= i < j < |trace| && TouchAt(trace, i) == Some(k) && trace[j].op == Get(k) && TouchAt(trace, j) == Some(k)
      ==> Answer(trace[i]) == Answer(trace[j])
  }

  /** No collection is scanned twice. */
  ghost predicate ScansOnce(trace: seq<Observation>) {
    forall i, j :: 0 <= i < j < |trace| && trace[i].op.All? && trace[j].op.All?
      ==> trace[i].op.collection != trace[j].op.collection
  }

  /** No key is read from the database after an earlier call already touched it. */
  ghost predicate ReadsOnce(trace: seq<Observation>) {
    forall i, j, k ::
      0 <= i < j < |trace| && TouchAt(trace, i) == Some(k) && trace[j].op == Get(k)
      ==> TouchAt(trace, j) != Some(k)
  }

  /** Call i saw content s as far as it depends on the database. */
  ghost predicate Current(s: Content, trace: seq<Observation>, i: nat)
    requires i < |trace|
  {
    && (TouchAt(trace, i).Some? ==>
          Lookup(trace[i].content, TouchAt(trace, i).value) == Lookup(s, TouchAt(trace, i).value))
    && (trace[i].op.All? ==>
          InCollection(trace[i].content, trace[i].op.collection) == InCollection(s, trace[i].op.collection))
  }

  ghost predicate Rereads(trace: seq<Observation>, i: nat, j: nat)
    requires i < |trace| && j < |trace|
  {
    i < j && (
      || (TouchAt(trace, i).Some? && trace[j].op == Get(TouchAt(trace, i).value) &&
           TouchAt(trace, j) == TouchAt(trace, i))
      || (trace[i].op.All? && trace[j].op == trace[i].op))
  }

  /** What validation establishes: every call saw s, or is followed by a repeated read that did. */
  ghost predicate LastReadsCurrent(s: Content, trace: seq<Observation>) {
    forall i :: 0 <= i < |trace| ==>
      Current(s, trace, i) || exists j :: i < j < |trace| && Rereads(trace, i, j) && Current(s, trace, j)
  }

  lemma ExecDependsOnTouch(s: Content, t: Content, ws: WriteSet, op: Op)
    requires Touch(ws, op).Some? ==> Lookup(s, Touch(ws, op).value) == Lookup(t, Touch(ws, op).value)
    requires op.All? ==> InCollection(s, op.collection) == InCollection(t, op.collection)
    ensures Exec(s, ws, op) == Exec(t, ws, op)
  {
  }

  lemma {:induction false} WritesOk(trace: seq<Observation>)
    ensures Writes(trace).Ok()
  {
    if trace != [] {
      WritesOk(trace[..|trace| - 1]);
    }
  }

  /** Keys once written stay written. */
  lemma {:induction false} WritesGrow(trace: seq<Observation>, i: nat, j: nat)
    requires i <= j <= |trace|
    ensures Writes(trace[..i]).writes.Keys <= Writes(trace[..j]).writes.Keys
  {
    if i < j {
      WritesGrow(trace, i, j - 1);
      assert trace[..j][..j - 1] == trace[..j - 1];
    }
  }

  lemma TraceOkAt(trace: seq<Observation>, i: nat)
    requires TraceOk(trace) && i < |trace|
    ensures trace[i].result == Exec(trace[i].content, Writes(trace[..i]), trace[i].op).0
    ensures Writes(trace[..i + 1]) == Exec(trace[i].content, Writes(trace[..i]), trace[i].op).1
  {
    assert trace[..i + 1][..i] == trace[..i];
    if i < |trace| - 1 {
      var init := trace[..|trace| - 1];
      TraceOkAt(init, i);
      assert init[..i] == trace[..i] && init[..i + 1] == trace[..i + 1];
    } else {
      assert trace[..i + 1] == trace;
    }
  }

  lemma SerialAt(s: Content, trace: seq<Observation>, i: nat)
    requires Serial(s, trace) && i < |trace|
    ensures trace[i].result == Exec(s, AloneWrites(s, trace[..i]), trace[i].op).0
    ensures Serial(s, trace[..i])
  {
    if i < |trace| - 1 {
      var init := trace[..|trace| - 1];
      SerialAt(s, init, i);
      assert init[..i] == trace[..i];
    }
  }

  /**
   * A touching call that is later read again from the database left its key unwritten, so its answer is what it saw.
   */
  lemma RereadAnswers(trace: seq<Observation>, i: nat, j: nat, k: Key)
    requires TraceOk(trace) && i < j < |trace|
    requires TouchAt(trace, i) == Some(k) && TouchAt(trace, j) == Some(k)
    ensures trace[i].op.Get? || (trace[i].op.Remove? && trace[i].result == Removed(false))
    ensures Answer(trace[i]) == Lookup(trace[i].content, k)
  {
    TraceOkAt(trace, i);
    WritesGrow(trace, i + 1, j);
  }

  lemma AllCurrent(s: Content, trace: seq<Observation>, i: nat)
    requires TraceOk(trace) && LastReadsCurrent(s, trace) && ScansOnce(trace) && Repeatable(trace)
    requires i < |trace|
    ensures Current(s, trace, i)
  {
    if !Current(s, trace, i) {
      var j :| i < j < |trace| && Rereads(trace, i, j) && Current(s, trace, j);
      var k := TouchAt(trace, i).value;
      RereadAnswers(trace, i, j, k);
      TraceOkAt(trace, j);
    }
  }

  lemma {:induction false} CurrentIsSerial(s: Content, trace: seq<Observation>, n: nat)
    requires TraceOk(trace) && n <= |trace|
    requires forall i :: 0 <= i < n ==> Current(s, trace, i)
    ensures Serial(s, trace[..n]) && AloneWrites(s, trace[..n]) == Writes(trace[..n])
  {
    if n > 0 {
      CurrentIsSerial(s, trace, n - 1);
      TraceOkAt(trace, n - 1);
      assert trace[..n][..n - 1] == trace[..n - 1];
      assert Current(s, trace, n - 1);
      ExecDependsOnTouch(s, trace[n - 1].content, Writes(trace[..n - 1]), trace[n - 1].op);
    }
  }

  /** A call that wrote its key was never repeated, so validation vouches for it directly. */
  lemma WriterIsCurrent(s: Content, trace: seq<Observation>, i: nat, k: Key)
    requires TraceOk(trace) && LastReadsCurrent(s, trace) && i < |trace|
    requires TouchAt(trace, i) == Some(k)
    requires trace[i].op.Put? || (trace[i].op.Remove? && trace[i].result == Removed(true))
    ensures Lookup(trace[i].content, k) == Lookup(s, k)
  {
    if !Current(s, trace, i) {
      var j :| i < j < |trace| && Rereads(trace, i, j) && Current(s, trace, j);
      RereadAnswers(trace, i, j, k);
    }
  }

  lemma SameNextWrites(s: Content, trace: seq<Observation>, i: nat)
    requires TraceOk(trace) && LastReadsCurrent(s, trace) && Serial(s, trace) && i < |trace|
    requires AloneWrites(s, trace[..i]) == Writes(trace[..i])
    ensures Exec(s, Writes(trace[..i]), trace[i].op).1 == Writes(trace[..i + 1])
  {
    TraceOkAt(trace, i);
    SerialAt(s, trace, i);
    if TouchAt(trace, i).Some? && (trace[i].op.Put? || trace[i].result == Removed(true)) {
      WriterIsCurrent(s, trace, i, TouchAt(trace, i).value);
    }
  }

  lemma {:induction false} SerialWritesSame(s: Content, trace: seq<Observation>, n: nat)
    requires TraceOk(trace) && LastReadsCurrent(s, trace) && Serial(s, trace) && n <= |trace|
    ensures AloneWrites(s, trace[..n]) == Writes(trace[..n])
  {
    if n > 0 {
      var i := n - 1;
      SerialWritesSame(s, trace, i);
      assert trace[..n][..i] == trace[..i];
      SameNextWrites(s, trace, i);
    }
  }

  /**
   * Validation of a body that scans each collection at most once: its results are those of
   * running alone on s exactly when its repeated reads repeated.
   */
  lemma SerialIffRepeatable(s: Content, trace: seq<Observation>)
    requires TraceOk(trace) && LastReadsCurrent(s, trace) && ScansOnce(trace)
    ensures Serial(s, trace) <==> Repeatable(trace)
    ensures Repeatable(trace) ==> AloneWrites(s, trace) == Writes(trace)
  {
    assert trace[..|trace|] == trace;
    if Repeatable(trace) {
      forall i | 0 <= i < |trace| ensures Current(s, trace, i) {
        AllCurrent(s, trace, i);
      }
      CurrentIsSerial(s, trace, |trace|);
    }
    if Serial(s, trace) {
      forall i, j, k | 0 <= i < j < |trace| && TouchAt(trace, i) == Some(k) && trace[j].op == Get(k) &&
        TouchAt(trace, j) == Some(k)
        ensures Answer(trace[i]) == Answer(trace[j])
      {
        RereadAnswers(trace, i, j, k);
        SerialAt(s, trace, i);
        SerialAt(s, trace, j);
        SerialWritesSame(s, trace, i);
        SerialWritesSame(s, trace, j);
      }
    }
  }

  lemma ReadsOnceIsRepeatable(trace: seq<Observation>)
    requires ReadsOnce(trace)
    ensures Repeatable(trace)
  {
  }
}
