/** The retained change log of src/storage-core.js: which cursors can be resumed, and what a resumed reader is given. */
module EventLog {
  import opened Basics
  import opened Json
  import opened Transactions
  import opened StorageCore
  import opened CommitLog
  import opened StorageRecovery

  /** `resumeStatus(cursor).resumable`. */
  predicate Resumable(changes: seq<Event>, sequence: nat, cursor: nat) {
    var oldest := if changes == [] then sequence + 1 else changes[0].sequence;
    cursor == sequence || cursor + 1 >= oldest
  }

  /** `changesSince(cursor)`. */
  function ChangesSince(changes: seq<Event>, cursor: nat): seq<Event> {
    Filter(changes, (e: Event) => e.sequence > cursor)
  }

  lemma {:induction false} SinceOf(es: seq<Event>, base: nat, cursor: nat)
    requires Numbered(es, base)
    ensures ChangesSince(es, cursor) ==
      if cursor <= base then es else if cursor - base <= |es| then es[cursor - base..] else []
  {
    if es != [] {
      assert Numbered(es[1..], base + 1) by {
        assert forall i :: 0 <= i < |es[1..]| ==> es[1..][i] == es[i + 1];
      }
      SinceOf(es[1..], base + 1, cursor);
      assert es[0].sequence == base + 1;
    }
  }

  /** A cursor that is not ahead can be resumed exactly when the retained log still holds every later event. */
  lemma ResumableIff(es: seq<Event>, retention: nat, cursor: nat)
    requires Numbered(es, 0) && cursor <= |es| && retention >= 1
    ensures Resumable(LastN(es, retention), |es|, cursor) <==>
      ChangesSince(LastN(es, retention), cursor) == es[cursor..]
  {
    var kept := LastN(es, retention);
    var base := |es| - |kept|;
    assert kept == es[base..];
    assert Numbered(kept, base) by {
      assert forall i :: 0 <= i < |kept| ==> kept[i] == es[base + i];
    }
    SinceOf(kept, base, cursor);
    if kept != [] {
      assert kept[0] == es[base];
    }
    if cursor >= base {
      assert kept[cursor - base..] == es[cursor..];
    }
  }

  lemma TrueBeforeLater(s: Content, a: seq<Event>, b: seq<Event>, j: nat)
    requires j < |b| && TrueBefore(Fold(s, a), b, j)
    ensures TrueBefore(s, a + b, |a| + j)
  {
    hide Fold;
    assert (a + b)[..|a| + j] == a + b[..j];
    FoldAppend(s, a, b[..j]);
  }

  lemma TrueBeforePrefix(s: Content, a: seq<Event>, b: seq<Event>, i: nat)
    requires i < |a|
    ensures TrueBefore(s, a, i) == TrueBefore(s, a + b, i)
  {
    hide Fold;
    assert (a + b)[..i] == a[..i];
  }

  lemma TrueBeforesAppend(s: Content, a: seq<Event>, b: seq<Event>)
    requires TrueBefores(s, a) && TrueBefores(Fold(s, a), b)
    ensures TrueBefores(s, a + b)
  {
    hide TrueBefore;
    forall i | 0 <= i < |a + b| ensures TrueBefore(s, a + b, i) {
      if i < |a| {
        TrueBeforePrefix(s, a, b, i);
      } else {
        TrueBeforeLater(s, a, b, i - |a|);
      }
    }
  }

  lemma CommitBefores(s: Content, c: Commit)
    requires EffectOk(s, c)
    ensures TrueBefores(s, c.entry.events)
  {
    hide Fold, TraceOk, Writes, Store, LastReadsCurrent;
    var es := c.entry.events;
    forall i | 0 <= i < |es| ensures TrueBefore(s, es, i) {
      assert es[i] in es;
      FoldAt(s, es[..i], es[i].key);
      LastOnSome(es[..i], es[i].key);
    }
  }

  /**
   * The whole committed log: numbered from one, each event with the record it replaced, folding to the committed state.
   */
  lemma {:induction false} LogBefores(config: Config, h: seq<Commit>)
    requires HistoryOk(config, h)
    ensures Numbered(Log(h), 0) && TrueBefores(map[], Log(h))
  {
    hide Fold, VerifyEntry, EffectOk, EntryOk;
    LogNumbered(config, h);
    if h != [] {
      var init, c := h[..|h| - 1], h[|h| - 1];
      LogBefores(config, init);
      CommitBefores(State(init), c);
      TrueBeforesAppend(map[], Log(init), c.entry.events);
    }
  }

  lemma {:induction false} LogLabelled(config: Config, h: seq<Commit>)
    requires HistoryOk(config, h)
    ensures forall e :: e in Log(h) ==> Labelled(e)
  {
    hide Fold, VerifyEntry, EntryOk, Labelled, Lists, TraceOk, LastReadsCurrent, Writes, Store;
    if h != [] {
      LogLabelled(config, h[..|h| - 1]);
    }
  }

  /**
   * What kind an event of the log is: a removal has no record, an insert stores one under a key that held none when all
   * events before it had been applied, and everything else replaces a record.
   */
  lemma LogKinds(config: Config, h: seq<Commit>, i: nat)
    requires HistoryOk(config, h) && i < |Log(h)|
    ensures var e, s := Log(h)[i], Fold(map[], Log(h)[..i]);
      && (e.kind == Deleted <==> e.record.None?)
      && (e.kind == Inserted <==> e.record.Some? && e.key !in s)
      && (e.kind == Upserted <==> e.record.Some? && e.key in s)
  {
    hide HistoryOk, Log, Fold, ChangedFields;
    LogLabelled(config, h);
    LogBefores(config, h);
    assert Log(h)[i] in Log(h) && TrueBefore(map[], Log(h), i);
  }

  predicate EventKeyed(e: Event) {
    e.record.Some? ==> e.record.value.id == e.key.id
  }

  ghost predicate ContentKeyed(s: Content) {
    forall k :: k in s ==> s[k].id == k.id
  }

  lemma KeyedContent(s: Content)
    requires ContentKeyed(s)
    ensures forall k :: k in s ==> s[k].id == k.id
  {
  }

  lemma {:induction false} WritesKeyed(trace: seq<Observation>)
    ensures forall k ::
      k in Writes(trace).writes && Writes(trace).writes[k].after.Some? ==>
        Writes(trace).writes[k].after.value.id == k.id
  {
    if trace != [] {
      WritesKeyed(trace[..|trace| - 1]);
    }
  }

  lemma CommitKeyed(s: Content, c: Commit)
    requires EffectOk(s, c) && ContentKeyed(s)
    ensures forall e :: e in c.entry.events ==> EventKeyed(e)
    ensures ContentKeyed(Fold(s, c.entry.events))
  {
    hide Fold, TraceOk, Writes, LastReadsCurrent;
    WritesKeyed(c.trace);
    var es := c.entry.events;
    assert ContentKeyed(Store(s, c.ws));
    forall e | e in es ensures EventKeyed(e) {
      FoldAt(s, es, e.key);
      LastOnSome(es, e.key);
      var last := LastOn(es, e.key).value;
      var i :| 0 <= i < |es| && es[i] == e;
      var j :| 0 <= j < |es| && es[j] == last;
      assert i == j;
      assert Lookup(Fold(s, es), e.key) == e.record;
    }
  }

  /** Every record in the log carries the id it is stored under. */
  lemma {:induction false} LogKeyed(config: Config, h: seq<Commit>)
    requires HistoryOk(config, h)
    ensures forall e :: e in Log(h) ==> EventKeyed(e)
    ensures ContentKeyed(State(h))
  {
    hide Fold, VerifyEntry, EffectOk, EntryOk, EventKeyed, ContentKeyed;
    if h == [] {
      assert ContentKeyed(State(h)) by { NothingStored(); }
    } else {
      var init, c := h[..|h| - 1], h[|h| - 1];
      LogKeyed(config, init);
      CommitKeyed(State(init), c);
      FoldAppend(map[], Log(init), c.entry.events);
    }
  }

  lemma NothingStored()
    ensures ContentKeyed(State([]))
  {
  }

  lemma {:induction false} AbsorbAllChanges(m: Meta, es: seq<Event>)
    ensures AbsorbAll(m, es).changes == m.changes + es
  {
    if es == [] {
      assert m.changes + es == m.changes;
    } else {
      AbsorbAllChanges(m, es[..|es| - 1]);
      assert m.changes + es == m.changes + es[..|es| - 1] + [es[|es| - 1]];
    }
  }

  /** The metadata retains the newest end of the committed log. */
  lemma MetaLog(config: Config, h: seq<Commit>)
    requires HistoryOk(config, h)
    ensures MetaOf(config, h).sequence == |Log(h)| && MetaOf(config, h).changes == LastN(Log(h), config.retention)
    ensures Numbered(Log(h), 0) && TrueBefores(map[], Log(h))
  {
    hide HistoryOk, Log, LastN;
    LogBefores(config, h);
    MetaSequence(config, h);
    AbsorbAllChanges(FRESH, Log(h));
    assert FRESH.changes + Log(h) == Log(h);
  }

  lemma LaterBefores(es: seq<Event>, at: nat)
    requires TrueBefores(map[], es) && at <= |es|
    ensures Fold(Fold(map[], es[..at]), es[at..]) == Fold(map[], es)
    ensures TrueBefores(Fold(map[], es[..at]), es[at..])
  {
    hide Fold;
    var later := es[at..];
    assert es == es[..at] + later;
    FoldAppend(map[], es[..at], later);
    forall i | 0 <= i < |later| ensures TrueBefore(Fold(map[], es[..at]), later, i) {
      assert TrueBefore(map[], es, at + i);
      assert es[..at + i] == es[..at] + later[..i];
      FoldAppend(map[], es[..at], later[..i]);
      assert later[i] == es[at + i];
    }
  }
}
