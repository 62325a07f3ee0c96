/**
 * What the calls of a transaction body mean, said of the calls alone: a body sees its own last write of a record, and
 * the database where it wrote none. The machine's bookkeeping of src/storage-core.js is proved to do this.
 */
module TransactionCalls {
  import opened Basics
  import opened Json
  import opened Transactions

  /** The call writes k: it puts a record under that key, or removes one that is there. */
  predicate WritesTo(o: Observation, k: Key) {
    match o.op
    case Put(c, r) => k == Key(c, r.id)
    case Remove(x) => k == x && o.result == Removed(true)
    case _ => false
  }

  /** What such a call leaves at its key. */
  function Left(o: Observation): Option<Record> {
    if o.op.Put? then Some(o.op.record) else None
  }

  /** What the body itself has last written to k, if anything; None inside is a removal. */
  function Own(trace: seq<Observation>, k: Key): Option<Option<Record>> {
    if trace == [] then None
    else if WritesTo(trace[|trace| - 1], k) then Some(Left(trace[|trace| - 1]))
    else Own(trace[..|trace| - 1], k)
  }

  /** What the body sees at k over database content s. */
  function Sees(trace: seq<Observation>, s: Content, k: Key): Option<Record> {
    if Own(trace, k).Some? then Own(trace, k).value else Lookup(s, k)
  }

  /** The call answers what the body, after these calls, sees over s. */
  ghost predicate Told(trace: seq<Observation>, s: Content, op: Op, result: Result) {
    match op
    case Get(k) => result == Found(Sees(trace, s, k))
    case Put(_, _) => result == Done
    case Remove(k) => result == Removed(Sees(trace, s, k).Some?)
    case All(c) =>
      result.Rows? && forall k :: Lookup(result.rows, k) == if k.collection == c then Sees(trace, s, k) else None
  }

  /** Every call answered from the body's own writes and the database as it then was. */
  ghost predicate ToldThen(trace: seq<Observation>) {
    forall i :: 0 <= i < |trace| ==> Told(trace[..i], trace[i].content, trace[i].op, trace[i].result)
  }

  /** Every call answered from the body's own writes and the one content s. */
  ghost predicate ToldAlone(s: Content, trace: seq<Observation>) {
    forall i :: 0 <= i < |trace| ==> Told(trace[..i], s, trace[i].op, trace[i].result)
  }

  /** Call i is the first that writes k. */
  ghost predicate FirstTo(trace: seq<Observation>, k: Key, i: nat) {
    i < |trace| && WritesTo(trace[i], k) && forall j :: 0 <= j < i ==> !WritesTo(trace[j], k)
  }

  /**
   * The write set of a body: exactly the keys it wrote, each with what it left there last and with the record the
   * database held when it first wrote it, in the order of the first writes.
   */
  ghost predicate Buffers(ws: WriteSet, trace: seq<Observation>) {
    && (forall k :: k in ws.writes <==> Own(trace, k).Some?)
    && (forall k :: k in ws.writes ==> ws.writes[k].after == Own(trace, k).value)
    && (forall k, i: nat :: FirstTo(trace, k, i) ==>
         k in ws.writes && ws.writes[k].before == Lookup(trace[i].content, k))
    && (forall k :: k in ws.order <==> k in ws.writes)
    && (forall a, b, i: nat, j: nat ::
         0 <= a < b < |ws.order| && FirstTo(trace, ws.order[a], i) && FirstTo(trace, ws.order[b], j) ==> i < j)
  }

  /** Call i is the last that writes k. */
  ghost predicate LastTo(trace: seq<Observation>, k: Key, i: nat) {
    i < |trace| && WritesTo(trace[i], k) && forall j :: i < j < |trace| ==> !WritesTo(trace[j], k)
  }

  /** The body's own record is what the last call that writes it left. */
  lemma {:induction false} OwnIs(trace: seq<Observation>, k: Key)
    ensures Own(trace, k).Some? <==> exists i: nat :: LastTo(trace, k, i)
    ensures forall i: nat :: LastTo(trace, k, i) ==> Own(trace, k) == Some(Left(trace[i]))
  {
    hide WritesTo, Left;
    if trace != [] {
      var init, n := trace[..|trace| - 1], |trace| - 1;
      OwnIs(init, k);
      assert forall i :: 0 <= i < n ==> init[i] == trace[i];
      if WritesTo(trace[n], k) {
        assert LastTo(trace, k, n);
      } else {
        assert forall i: nat :: LastTo(trace, k, i) <==> LastTo(init, k, i);
      }
    }
  }

  lemma {:induction false} OwnIff(trace: seq<Observation>, k: Key)
    ensures Own(trace, k).Some? <==> exists i :: 0 <= i < |trace| && WritesTo(trace[i], k)
    ensures Own(trace, k).Some? ==> exists i: nat :: FirstTo(trace, k, i)
  {
    hide WritesTo;
    if trace != [] {
      var init := trace[..|trace| - 1];
      OwnIff(init, k);
      assert forall i :: 0 <= i < |init| ==> init[i] == trace[i];
      if i: nat :| FirstTo(init, k, i) {
        assert FirstTo(trace, k, i);
      } else if WritesTo(trace[|trace| - 1], k) {
        assert FirstTo(trace, k, |trace| - 1);
      }
    }
  }

  lemma FirstToInit(trace: seq<Observation>, k: Key, i: nat)
    requires trace != []
    ensures i < |trace| - 1 ==> (FirstTo(trace, k, i) <==> FirstTo(trace[..|trace| - 1], k, i))
    ensures FirstTo(trace, k, |trace| - 1) <==>
      WritesTo(trace[|trace| - 1], k) && Own(trace[..|trace| - 1], k).None?
  {
    hide WritesTo;
    var init := trace[..|trace| - 1];
    OwnIff(init, k);
    assert forall i :: 0 <= i < |init| ==> init[i] == trace[i];
  }

  /** One call, when the write set so far is right. */
  lemma CallIs(trace: seq<Observation>, ws: WriteSet, s: Content, op: Op)
    requires Buffers(ws, trace)
    ensures Told(trace, s, op, Exec(s, ws, op).0)
    ensures forall result :: Told(trace, s, op, result) ==> result == Exec(s, ws, op).0
  {
    hide Own;
    if op.All? {
      forall result | Told(trace, s, op, result) ensures result == Exec(s, ws, op).0 {
        var rows := Exec(s, ws, op).0.rows;
        forall k ensures Lookup(rows, k) == if k.collection == op.collection then Sees(trace, s, k) else None {
        }
        SameRows(result.rows, rows);
      }
    }
  }

  lemma SameRows(a: Content, b: Content)
    requires forall k :: Lookup(a, k) == Lookup(b, k)
    ensures a == b
  {
    forall k ensures k in a <==> k in b {
      assert Lookup(a, k) == Lookup(b, k);
    }
    forall k | k in a ensures a[k] == b[k] {
      assert Lookup(a, k) == Lookup(b, k);
    }
  }

  /** The key that a put or a removal is about. */
  function Aim(op: Op): Key
    requires op.Put? || op.Remove?
  {
    if op.Put? then Key(op.collection, op.record.id) else op.key
  }

  lemma ExecWrites(ws: WriteSet, o: Observation)
    requires o.result == Exec(o.content, ws, o.op).0
    ensures var next := Exec(o.content, ws, o.op).1;
      if o.op.Put? || (o.op.Remove? && o.result == Removed(true)) then
        var k := Aim(o.op);
        && (forall x :: WritesTo(o, x) <==> x == k)
        && next == ws.Set(k, Write(if k in ws.writes then ws.writes[k].before else Lookup(o.content, k), Left(o)))
      else next == ws && forall x :: !WritesTo(o, x)
  {
  }

  /** The write set after one more call that was answered over its own content. */
  lemma CallBuffers(trace: seq<Observation>, ws: WriteSet, o: Observation)
    requires Buffers(ws, trace) && o.result == Exec(o.content, ws, o.op).0
    ensures Buffers(Exec(o.content, ws, o.op).1, trace + [o])
  {
    hide Own, Exec, WritesTo, Left, Aim;
    ExecWrites(ws, o);
    var more, next := trace + [o], Exec(o.content, ws, o.op).1;
    assert more[..|more| - 1] == trace;
    forall k ensures Own(more, k) == if WritesTo(o, k) then Some(Left(o)) else Own(trace, k) {
      OwnNext(trace, o, k);
    }
    forall k, i: nat | FirstTo(more, k, i)
      ensures k in next.writes && next.writes[k].before == Lookup(more[i].content, k)
    {
      FirstToInit(more, k, i);
      assert i < |trace| ==> more[i] == trace[i];
    }
    forall a, b, i: nat, j: nat | 0 <= a < b < |next.order| && FirstTo(more, next.order[a], i) &&
      FirstTo(more, next.order[b], j)
      ensures i < j
    {
      FirstToInit(more, next.order[a], i);
      FirstToInit(more, next.order[b], j);
    }
  }

  lemma OwnNext(trace: seq<Observation>, o: Observation, k: Key)
    ensures Own(trace + [o], k) == if WritesTo(o, k) then Some(Left(o)) else Own(trace, k)
  {
    assert (trace + [o])[..|trace + [o]| - 1] == trace;
  }

  /**
   * What the machine records of a body are its calls, each answered so, and the write set it buffers is that of them.
   */
  lemma {:induction false} TraceOkIff(trace: seq<Observation>)
    ensures TraceOk(trace) <==> ToldThen(trace)
    ensures TraceOk(trace) ==> Buffers(Writes(trace), trace)
  {
    hide Told, Buffers, Exec;
    if trace == [] {
      NothingBuffered();
    } else {
      var init, last := trace[..|trace| - 1], trace[|trace| - 1];
      TraceOkIff(init);
      forall i | 0 <= i < |init| ensures init[i] == trace[i] && init[..i] == trace[..i] {
      }
      assert ToldThen(trace) <==> ToldThen(init) && Told(init, last.content, last.op, last.result);
      if TraceOk(init) {
        CallIs(init, Writes(init), last.content, last.op);
        if TraceOk(trace) {
          CallBuffers(init, Writes(init), last);
          assert init + [last] == trace;
        }
      }
    }
  }

  lemma NothingBuffered()
    ensures Buffers(NO_WRITES, [])
  {
  }

  /** The same body with every call meeting content s. */
  function On(s: Content, trace: seq<Observation>): (r: seq<Observation>)
    ensures |r| == |trace|
    ensures forall i :: 0 <= i < |trace| ==> r[i] == trace[i].(content := s)
  {
    if trace == [] then [] else On(s, trace[..|trace| - 1]) + [trace[|trace| - 1].(content := s)]
  }

  lemma {:induction false} OwnOn(s: Content, trace: seq<Observation>, k: Key)
    ensures Own(On(s, trace), k) == Own(trace, k)
  {
    if trace != [] {
      OwnOn(s, trace[..|trace| - 1], k);
      OwnNext(On(s, trace[..|trace| - 1]), trace[|trace| - 1].(content := s), k);
    }
  }

  lemma {:induction false} SerialOn(s: Content, trace: seq<Observation>)
    ensures Serial(s, trace) <==> TraceOk(On(s, trace))
    ensures AloneWrites(s, trace) == Writes(On(s, trace))
  {
    hide Exec;
    if trace != [] {
      var init := trace[..|trace| - 1];
      SerialOn(s, init);
      assert On(s, trace)[..|trace| - 1] == On(s, init);
    }
  }

  /**
   * Serial means: every call answered from the body's own earlier writes and the one content s. The write set is then
   * the one of that body.
   */
  lemma SerialIff(s: Content, trace: seq<Observation>)
    ensures Serial(s, trace) <==> ToldAlone(s, trace)
    ensures Serial(s, trace) ==> Buffers(AloneWrites(s, trace), On(s, trace))
  {
    hide Serial, TraceOk, Exec, Buffers, Writes, AloneWrites;
    var on := On(s, trace);
    SerialOn(s, trace);
    TraceOkIff(on);
    forall i | 0 <= i < |trace|
      ensures Told(on[..i], s, on[i].op, on[i].result) == Told(trace[..i], s, trace[i].op, trace[i].result)
    {
      assert on[..i] == On(s, trace[..i]);
      forall k ensures Sees(on[..i], s, k) == Sees(trace[..i], s, k) {
        OwnOn(s, trace[..i], k);
      }
    }
    assert ToldThen(on) <==> ToldAlone(s, trace);
  }

  /** A call reads its key from the database exactly when the body has not written it. */
  lemma TouchIff(trace: seq<Observation>, i: nat, k: Key)
    requires TraceOk(trace) && i < |trace|
    ensures TouchAt(trace, i) == Some(k) <==>
      && Own(trace[..i], k).None?
      && match trace[i].op
         case Get(x) => x == k
         case Put(c, r) => Key(c, r.id) == k
         case Remove(x) => x == k
         case All(_) => false
  {
    hide Exec, Own, TraceOk, Writes;
    TraceOkPrefix(trace, i);
    TraceOkIff(trace[..i]);
  }

  lemma {:induction false} TraceOkPrefix(trace: seq<Observation>, i: nat)
    requires TraceOk(trace) && i <= |trace|
    ensures TraceOk(trace[..i])
  {
    if i < |trace| {
      var init := trace[..|trace| - 1];
      TraceOkPrefix(init, i);
      assert init[..i] == trace[..i];
    } else {
      assert trace[..i] == trace;
    }
  }
}
