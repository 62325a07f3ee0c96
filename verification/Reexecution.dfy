/**
 * Executing a transaction of src/distributed.js again after some participant has aborted it: exactly which such calls
 * split the transaction, and that runs without them never do.
 */
module Reexecution {
  import opened Basics
  import opened Json
  import opened Participant
  import opened Distributed

  /** Committed at one participant and aborted at another. */
  ghost predicate Split(parts: map<string, Partition>, tx: string) {
    (exists p :: At(parts, p, tx) == Some(Committed)) && Begun(parts, tx)
  }

  ghost predicate PreparesAt(parts: map<string, Partition>, tx: string, plan: Plan, p: string) {
    p in parts && p in plan.work && Participant.Prepare(parts[p], tx, plan.work[p]).Some?
  }

  /** No participant of the plan from place i on refuses to prepare. */
  ghost predicate AllPrepare(parts: map<string, Partition>, tx: string, plan: Plan, i: nat) {
    forall j :: i <= j < |plan.order| ==> PreparesAt(parts, tx, plan, plan.order[j])
  }

  /** The participant that is asked to commit first has aborted. */
  ghost predicate Blocked(parts: map<string, Partition>, tx: string, plan: Plan) {
    Ranked(plan) != [] && At(parts, Ranked(plan)[0], tx) == Some(Aborted)
  }

  /**
   * The calls a caller has to avoid: every participant will prepare, one has aborted, and the first to commit has not.
   * In which order the plan lists the participants makes no difference.
   */
  ghost predicate Splitting(w: World, tx: string, plan: Plan) {
    && tx in w.journal && w.journal[tx].plan.work == plan.work && !w.journal[tx].phase.Done?
    && Begun(w.parts, tx) && AllPrepare(w.parts, tx, plan, 0) && !Blocked(w.parts, tx, plan)
  }

  ghost predicate Harmless(w: World, step: Step) {
    step.Execute? ==> !Splitting(w, step.tx, step.plan)
  }

  ghost predicate HarmlessRun(states: seq<World>, steps: seq<Step>)
    requires Run(states, steps)
  {
    forall i :: 0 <= i < |steps| ==> Harmless(states[i], steps[i])
  }

  // ---------------------------------------------------------------- the invariant

  /** What the coordinator's phase says when aborted transactions may be executed again. */
  ghost predicate Allows(parts: map<string, Partition>, tx: string, d: Decision) {
    match d.phase
    case Preparing => NoneCommitted(parts, tx) && d.committed == []
    case Aborting => NoneCommitted(parts, tx) && d.committed == []
    case Undone => NoneCommitted(parts, tx) && d.committed == []
    case Committing => (
      && AllNoted(d) && AllCommitted(parts, tx, d.committed)
      && (Begun(parts, tx) ==> NoneCommitted(parts, tx) && Blocked(parts, tx, d.plan)))
    case Done => AllCommitted(parts, tx, d.plan.order)
  }

  ghost predicate Sane(parts: map<string, Partition>, tx: string, d: Decision) {
    PlanOk(parts.Keys, d.plan) && Follows(parts, tx, d) && Allows(parts, tx, d)
  }

  ghost predicate Stands(parts: map<string, Partition>, place: Place, d: Decision)
    requires !place.Idle?
  {
    var tx := place.tx;
    match place
    case Prepare(_, plan, i) => !d.phase.Done? && Reached(plan, i, d)
    case NotePrepared(_, plan, i) =>
      !d.phase.Done? && Reached(plan, i, d) && i < |plan.order| && Seen(parts, plan.order[i], tx).Some?
    case Commit(_, i, _) => d.phase.Committing? && i <= |Ranked(d.plan)| && AllCommitted(parts, tx, Ranked(d.plan)[..i])
    case NoteCommitted(_, i, _) =>
      d.phase.Committing? && i < |Ranked(d.plan)| && AllCommitted(parts, tx, Ranked(d.plan)[..i + 1])
    case Abort(_, i) => (d.phase.Preparing? || d.phase.Aborting?) && i <= |d.prepared|
  }

  /** A call that prepares an aborted transaction again will be refused, or is blocked at its first commit. */
  ghost predicate Cautious(parts: map<string, Partition>, place: Place) {
    match place
    case Prepare(tx, plan, i) => Begun(parts, tx) ==> Blocked(parts, tx, plan) || !AllPrepare(parts, tx, plan, i)
    case NotePrepared(tx, plan, i) =>
      Begun(parts, tx) ==> Blocked(parts, tx, plan) || !AllPrepare(parts, tx, plan, i + 1)
    case _ => true
  }

  ghost predicate Base(w: World) {
    && PartsOk(w.parts)
    && (forall tx :: tx in w.journal ==> Sane(w.parts, tx, w.journal[tx]))
    && Known(w)
    && (!w.place.Idle? ==> w.place.tx in w.journal && Stands(w.parts, w.place, w.journal[w.place.tx]))
  }

  ghost predicate Sound(w: World) {
    Base(w) && Cautious(w.parts, w.place)
  }

  lemma SaneFramed(parts: map<string, Partition>, parts': map<string, Partition>, tx: string, d: Decision)
    requires Sane(parts, tx, d) && parts'.Keys == parts.Keys
    requires forall p :: Seen(parts', p, tx) == Seen(parts, p, tx)
    ensures Sane(parts', tx, d)
  {
    hide Seen, Planned, PlanOk, Ranked;
    forall p ensures At(parts', p, tx) == At(parts, p, tx) {
      assert Seen(parts', p, tx) == Seen(parts, p, tx);
    }
  }

  /** A step that only writes the coordinator's journal. */
  lemma JournalBase(w: World, tx: string, d: Decision, place: Place)
    requires Base(w) && Sane(w.parts, tx, d)
    requires !place.Idle? ==> place.tx == tx && Stands(w.parts, place, d)
    ensures Base(w.(journal := w.journal[tx := d], place := place))
  {
    hide Sane, Stands, Seen, PartsOk;
  }

  /** A step that changes one participant's entry of tx. */
  lemma PartBase(w: World, tx: string, p: string, part: Partition, place: Place)
    requires Base(w) && tx in w.journal && p in w.parts && Ok(part)
    requires forall t :: t != tx ==> Lookup(part.txs, t) == Lookup(w.parts[p].txs, t)
    requires var parts := w.parts[p := part];
      Sane(parts, tx, w.journal[tx]) && (!place.Idle? ==> place.tx == tx && Stands(parts, place, w.journal[tx]))
    ensures Base(w.(parts := w.parts[p := part], place := place))
  {
    hide Sane, Stands, Ok;
    var w' := w.(parts := w.parts[p := part], place := place);
    forall q, t | t != tx ensures Seen(w'.parts, q, t) == Seen(w.parts, q, t) {
      assert Lookup(part.txs, t) == Lookup(w.parts[p].txs, t);
    }
    forall t | t in w'.journal ensures Sane(w'.parts, t, w'.journal[t]) {
      if t != tx {
        SaneFramed(w.parts, w'.parts, t, w.journal[t]);
      }
    }
    forall q, t | Seen(w'.parts, q, t).Some? ensures t in w'.journal {
      assert t != tx ==> Seen(w.parts, q, t).Some?;
    }
  }

  // ---------------------------------------------------------------- every step keeps it

  lemma RankedFirst(plan: Plan)
    requires plan.order != []
    ensures Ranked(plan) != [] && Ranked(plan)[0] in plan.order
  {
    assert plan.order[0] in Ranked(plan);
    RankedIs(plan, 0);
  }

  /** Participants are asked to commit in the same order, whatever order the call's plan lists them in. */
  lemma SameRanked(plan: Plan, journalled: Plan)
    requires SameContent(plan, journalled) && Lists(journalled)
    ensures Ranked(plan) == Ranked(journalled)
    ensures forall p :: p in plan.order <==> p in journalled.order
  {
    assert (set p | p in plan.order) == (set p | p in journalled.order);
  }

  lemma ExecuteBase(w: World, tx: string, plan: Plan)
    requires Base(w) && Enabled(w, Execute(tx, plan))
    ensures Base(Next(w, Execute(tx, plan)))
  {
    hide PartsOk, Lists, Seen, MutationsOk;
    if tx !in w.journal {
      var d := Decision(Preparing, plan, [], []);
      assert forall p :: Seen(w.parts, p, tx).None?;
      assert Sane(w.parts, tx, d);
      JournalBase(w, tx, d, Prepare(tx, plan, 0));
    } else if !w.journal[tx].phase.Done? && w.journal[tx].plan.work == plan.work {
      assert w.journal[tx := w.journal[tx]] == w.journal;
      assert Sane(w.parts, tx, w.journal[tx]);
      JournalBase(w, tx, w.journal[tx], Prepare(tx, plan, 0));
    }
  }

  lemma RecoverBase(w: World, tx: string)
    requires Base(w) && Enabled(w, Recover(tx))
    ensures Base(Next(w, Recover(tx)))
  {
    hide PartsOk, Sane, Seen, Known, Ranked;
    var d := w.journal[tx];
    assert w.journal[tx := d] == w.journal;
    if d.phase.Committing? {
      assert AllCommitted(w.parts, tx, Ranked(d.plan)[..0]);
      JournalBase(w, tx, d, Commit(tx, 0, true));
    } else if d.phase.Preparing? || d.phase.Aborting? {
      JournalBase(w, tx, d, Abort(tx, 0));
    }
  }

  lemma GuardBase(w: World, p: string, writes: map<Key, Option<Record>>)
    requires Base(w) && Enabled(w, Guarded(p, writes))
    ensures Base(Next(w, Guarded(p, writes)))
  {
    hide Sane, Ok, Overwrite, Locked, Ranked;
    var w' := Next(w, Guarded(p, writes));
    GuardedWriteKeepsOk(w.parts[p], writes);
    forall q, t ensures Seen(w'.parts, q, t) == Seen(w.parts, q, t) {
    }
    forall t | t in w'.journal ensures Sane(w'.parts, t, w'.journal[t]) {
      SaneFramed(w.parts, w'.parts, t, w.journal[t]);
    }
    forall q, t ensures At(w'.parts, q, t) == At(w.parts, q, t) {
      assert Seen(w'.parts, q, t) == Seen(w.parts, q, t);
    }
    assert !w.place.Idle? ==> Stands(w.parts, w.place, w.journal[w.place.tx]);
  }

  /** The decision to commit; it needs that an aborted transaction is blocked. */
  lemma DecideBase(w: World)
    requires Base(w) && w.place.Prepare? && Enabled(w, Work) && w.place.i == |w.place.plan.order|
    requires Begun(w.parts, w.place.tx) ==> Blocked(w.parts, w.place.tx, w.place.plan)
    ensures Base(Advance(w))
  {
    hide PartsOk, Seen, Planned, Known, Ranked, Lists;
    var tx := w.place.tx;
    var d := w.journal[tx];
    assert Sane(w.parts, tx, d);
    AllReached(w.place.plan, d);
    SameRanked(w.place.plan, d.plan);
    assert AllCommitted(w.parts, tx, Ranked(d.plan)[..0]);
    JournalBase(w, tx, d.(phase := Committing), Commit(tx, 0, false));
  }

  lemma PrepareBase(w: World)
    requires Base(w) && w.place.Prepare? && Enabled(w, Work) && w.place.i < |w.place.plan.order|
    ensures Base(Advance(w))
  {
    var tx, plan, i := w.place.tx, w.place.plan, w.place.i;
    var d := w.journal[tx];
    assert Sane(w.parts, tx, d);
    var p := plan.order[i];
    hide PartsOk, Ok, Sane, Stands, Participant.Prepare, Known, Seen;
    match Participant.Prepare(w.parts[p], tx, plan.work[p])
    case Some(part) => ReserveBase(w, p, part);
    case None =>
      if d.phase.Preparing? {
        RefuseBase(w);
      }
  }

  lemma RefuseBase(w: World)
    requires Base(w) && w.place.Prepare? && w.place.tx in w.journal && w.journal[w.place.tx].phase.Preparing?
    ensures Base(w.(journal := w.journal[w.place.tx := w.journal[w.place.tx].(phase := Aborting)],
      place := Abort(w.place.tx, 0)))
  {
    hide PartsOk, PlanOk, Seen, Planned, Known, Reached;
    var tx := w.place.tx;
    var d := w.journal[tx];
    assert Sane(w.parts, tx, d);
    JournalBase(w, tx, d.(phase := Aborting), Abort(tx, 0));
  }

  lemma ReserveBase(w: World, p: string, part: Partition)
    requires Base(w) && w.place.Prepare? && Enabled(w, Work)
    requires var plan, i := w.place.plan, w.place.i;
      i < |plan.order| && p == plan.order[i]
      && Participant.Prepare(w.parts[p], w.place.tx, plan.work[p]) == Some(part)
    ensures Base(w.(parts := w.parts[p := part], place := NotePrepared(w.place.tx, w.place.plan, w.place.i)))
  {
    var tx, plan, i := w.place.tx, w.place.plan, w.place.i;
    var d := w.journal[tx];
    assert Sane(w.parts, tx, d);
    assert Ok(part) by {
      hide *;
      PrepareOk(w, p, part);
    }
    hide PartsOk, Ok, Known, Targets, Snapshot, Locked;
    var parts := w.parts[p := part];
    forall q ensures Seen(parts, q, tx) == NewMark(w.parts, tx, p, plan.work[p], q) {
      SeenUpdate(w.parts, p, part, tx, q);
    }
    ReservedStands(w.parts, parts, tx, d, plan, i, p);
    hide Sane, Stands, Seen;
    PartBase(w, tx, p, part, NotePrepared(tx, plan, i));
  }

  lemma ReservedStands(parts: map<string, Partition>, parts': map<string, Partition>, tx: string, d: Decision,
                       plan: Plan, i: nat, p: string)
    requires Sane(parts, tx, d) && Stands(parts, Prepare(tx, plan, i), d) && parts'.Keys == parts.Keys
    requires i < |plan.order| && p == plan.order[i]
    requires p in plan.work
    requires forall q :: Seen(parts', q, tx) == NewMark(parts, tx, p, plan.work[p], q)
    ensures Sane(parts', tx, d) && Stands(parts', NotePrepared(tx, plan, i), d)
  {
    hide Seen, Lists, Ranked;
    forall q ensures At(parts', q, tx) ==
      if q == p && Seen(parts, p, tx).None? then Some(Prepared) else At(parts, q, tx) {
      assert Seen(parts', q, tx) == NewMark(parts, tx, p, plan.work[p], q);
    }
    if d.phase.Committing? {
      NotedAlready(plan, i, d);
      assert Seen(parts, p, tx).Some?;
    }
  }

  /** Under a decision to commit everybody the call asks has been noted before. */
  lemma NotedAlready(plan: Plan, i: nat, d: Decision)
    requires SameContent(plan, d.plan) && Lists(d.plan) && i < |plan.order| && AllNoted(d)
    ensures plan.order[i] in d.prepared
  {
    assert plan.order[i] in plan.order;
  }

  lemma NotePreparedBase(w: World)
    requires Base(w) && w.place.NotePrepared? && Enabled(w, Work)
    ensures Base(Advance(w))
  {
    hide PartsOk, Seen, Known, Ranked, Planned, Lists;
    var tx, plan, i := w.place.tx, w.place.plan, w.place.i;
    var d := w.journal[tx];
    assert Sane(w.parts, tx, d);
    var d' := d.(prepared := Add(d.prepared, plan.order[i]));
    if d.phase.Committing? {
      NotedAlready(plan, i, d);
      assert d' == d;
    }
    JournalBase(w, tx, d', Prepare(tx, plan, i + 1));
  }

  lemma CommitBase(w: World)
    requires Base(w) && w.place.Commit? && Enabled(w, Work)
    ensures Base(Advance(w))
  {
    hide Base, Sane, Ranked, Participant.Commit;
    var tx, i := w.place.tx, w.place.i;
    var d := w.journal[tx];
    if i == |Ranked(d.plan)| || (w.place.recovering && Ranked(d.plan)[i] in d.committed) {
      CommitPassed(w);
    } else {
      CommitAsked(w, Ranked(d.plan)[i]);
      var p := Ranked(d.plan)[i];
      match Participant.Commit(w.parts[p], tx)
      case Some(part) => CommittedBase(w, p, part);
      case None => IdleBase(w);
    }
  }

  lemma IdleBase(w: World)
    requires Base(w)
    ensures Base(w.(place := Idle))
  {
    hide PartsOk, Sane, Stands, Seen;
  }

  /**
   * A participant asked to commit refuses exactly when it has aborted. That can only be the first one asked, and then
   * nothing is committed anywhere.
   */
  lemma CommitAsked(w: World, p: string)
    requires Base(w) && w.place.Commit? && Enabled(w, Work)
    requires w.place.i < |Ranked(w.journal[w.place.tx].plan)| && p == Ranked(w.journal[w.place.tx].plan)[w.place.i]
    ensures p in w.parts && At(w.parts, p, w.place.tx).Some?
    ensures Participant.Commit(w.parts[p], w.place.tx).None? <==> At(w.parts, p, w.place.tx) == Some(Aborted)
    ensures At(w.parts, p, w.place.tx) == Some(Aborted) ==> w.place.i == 0 && NoneCommitted(w.parts, w.place.tx)
    ensures At(w.parts, p, w.place.tx) != Some(Aborted) ==> !Begun(w.parts, w.place.tx)
    ensures Ok(w.parts[p])
  {
    hide Targets, PlanOk, Ranked, Planned, Known, Locked;
    var tx, d := w.place.tx, w.journal[w.place.tx];
    assert Sane(w.parts, tx, d);
    RankedIs(d.plan, w.place.i);
    assert Seen(w.parts, p, tx).Some?;
    assert Ok(w.parts[p]);
    hide Ok;
    if At(w.parts, p, tx) != Some(Aborted) {
      CommitAccepted(w.parts[p], tx);
    }
  }

  lemma CommittedBase(w: World, p: string, part: Partition)
    requires Base(w) && w.place.Commit? && Enabled(w, Work)
    requires w.place.i < |Ranked(w.journal[w.place.tx].plan)| && p == Ranked(w.journal[w.place.tx].plan)[w.place.i]
    requires p in w.parts && Participant.Commit(w.parts[p], w.place.tx) == Some(part)
    ensures Base(w.(parts := w.parts[p := part], place := NoteCommitted(w.place.tx, w.place.i, w.place.recovering)))
  {
    var tx, i := w.place.tx, w.place.i;
    var d := w.journal[tx];
    CommitAsked(w, p);
    CommitKeepsOk(w.parts[p], tx);
    assert Sane(w.parts, tx, d);
    hide *;
    CommittedMarks(w.parts, p, part, tx);
    CommittedStands(w.parts, w.parts[p := part], tx, d, i, w.place.recovering);
    PartBase(w, tx, p, part, NoteCommitted(tx, i, w.place.recovering));
  }

  lemma CommittedMarks(parts: map<string, Partition>, p: string, part: Partition, tx: string)
    requires p in parts && At(parts, p, tx).Some? && Participant.Commit(parts[p], tx) == Some(part)
    ensures Seen(parts, p, tx).Some? && parts[p := part].Keys == parts.Keys
    ensures forall q :: Seen(parts[p := part], q, tx) == CommitMark(parts, tx, p, q)
    ensures forall t :: t != tx ==> Lookup(part.txs, t) == Lookup(parts[p].txs, t)
  {
    hide Targets, ApplyAll;
    forall q ensures Seen(parts[p := part], q, tx) == CommitMark(parts, tx, p, q) {
      SeenUpdate(parts, p, part, tx, q);
    }
  }

  lemma CommittedStands(parts: map<string, Partition>, parts': map<string, Partition>, tx: string, d: Decision, i: nat,
                        recovering: bool)
    requires Sane(parts, tx, d) && Stands(parts, Commit(tx, i, recovering), d) && parts'.Keys == parts.Keys &&
      i < |Ranked(d.plan)|
    requires !Begun(parts, tx)
    requires var p := Ranked(d.plan)[i];
      && Seen(parts, p, tx).Some?
      && (forall q :: Seen(parts', q, tx) == CommitMark(parts, tx, p, q))
    ensures Sane(parts', tx, d) && Stands(parts', NoteCommitted(tx, i, recovering), d)
  {
    hide Seen, PlanOk, Planned, Ranked;
    var p, ranked := Ranked(d.plan)[i], Ranked(d.plan);
    forall q ensures At(parts', q, tx) == if q == p then Some(Committed) else At(parts, q, tx) {
      assert Seen(parts', q, tx) == CommitMark(parts, tx, p, q);
    }
    forall q | Seen(parts', q, tx).Some? ensures Planned(d.plan, q, Seen(parts', q, tx).value.mutations) {
      assert Seen(parts', q, tx) == CommitMark(parts, tx, p, q);
      assert Planned(d.plan, q, Seen(parts, q, tx).value.mutations);
    }
    forall q | q in d.prepared ensures Seen(parts', q, tx).Some? {
      assert Seen(parts', q, tx) == CommitMark(parts, tx, p, q);
    }
    assert ranked[..i + 1] == ranked[..i] + [p];
  }

  lemma CommitPassed(w: World)
    requires Base(w) && w.place.Commit? && Enabled(w, Work)
    requires var d := w.journal[w.place.tx];
      w.place.i == |Ranked(d.plan)| || (w.place.recovering && Ranked(d.plan)[w.place.i] in d.committed)
    ensures Base(Advance(w))
  {
    hide PartsOk, Seen, Known, PlanOk, Follows, Ranked;
    var tx, i := w.place.tx, w.place.i;
    var d := w.journal[tx];
    var ranked := Ranked(d.plan);
    assert Sane(w.parts, tx, d);
    if i == |ranked| {
      assert ranked[..i] == ranked;
      forall p | p in d.plan.order ensures At(w.parts, p, tx) == Some(Committed) {
        RankedHas(d.plan, p);
      }
      assert Follows(w.parts, tx, d.(phase := Done)) by { FollowsPhase(w.parts, tx, d, Done); }
      JournalBase(w, tx, d.(phase := Done), Idle);
    } else {
      assert ranked[..i + 1] == ranked[..i] + [ranked[i]];
      assert w.journal[tx := d] == w.journal;
      JournalBase(w, tx, d, Commit(tx, i + 1, true));
    }
  }

  lemma NoteCommittedBase(w: World)
    requires Base(w) && w.place.NoteCommitted? && Enabled(w, Work)
    ensures Base(Advance(w))
  {
    hide PartsOk, Seen, Known, PlanOk, Planned, Ranked, Blocked;
    var tx, i := w.place.tx, w.place.i;
    var d := w.journal[tx];
    assert Sane(w.parts, tx, d);
    var p := Ranked(d.plan)[i];
    assert p in Ranked(d.plan)[..i + 1] by { assert Ranked(d.plan)[..i + 1][i] == p; }
    var d' := d.(committed := Add(d.committed, p));
    JournalBase(w, tx, d', Commit(tx, i + 1, w.place.recovering));
  }

  lemma AbortBase(w: World)
    requires Base(w) && w.place.Abort? && Enabled(w, Work)
    ensures Base(Advance(w))
  {
    var tx, i := w.place.tx, w.place.i;
    var d := w.journal[tx];
    assert Sane(w.parts, tx, d);
    if i == |d.prepared| {
      hide PartsOk, Seen, Known, PlanOk, Planned;
      JournalBase(w, tx, d.(phase := Undone), Idle);
    } else {
      hide PartsOk, Ok, Known, PlanOk, Ranked, Targets;
      var p := d.prepared[i];
      var part := Participant.Abort(w.parts[p], tx);
      assert Ok(part) by { AbortedOk(w, p, tx); }
      var parts := w.parts[p := part];
      assert Seen(w.parts, p, tx).Some? && At(w.parts, p, tx) != Some(Committed);
      forall q ensures Seen(parts, q, tx) == AbortMark(w.parts, tx, p, q) {
        SeenUpdate(w.parts, p, part, tx, q);
      }
      hide Sane, Stands, Seen;
      AbortedStands(w.parts, parts, tx, d, i);
      PartBase(w, tx, p, part, Abort(tx, i + 1));
    }
  }

  lemma AbortedStands(parts: map<string, Partition>, parts': map<string, Partition>, tx: string, d: Decision, i: nat)
    requires Sane(parts, tx, d) && Stands(parts, Abort(tx, i), d) && parts'.Keys == parts.Keys && i < |d.prepared|
    requires Seen(parts, d.prepared[i], tx).Some?
    requires forall q :: Seen(parts', q, tx) == AbortMark(parts, tx, d.prepared[i], q)
    ensures Sane(parts', tx, d) && Stands(parts', Abort(tx, i + 1), d)
  {
    hide Seen, PlanOk, Planned;
    var p := d.prepared[i];
    forall q ensures At(parts', q, tx) == if q == p then Some(Aborted) else At(parts, q, tx) {
      assert Seen(parts', q, tx) == AbortMark(parts, tx, p, q);
    }
    forall q | Seen(parts', q, tx).Some? ensures Planned(d.plan, q, Seen(parts', q, tx).value.mutations) {
      assert Seen(parts', q, tx) == AbortMark(parts, tx, p, q);
      assert Planned(d.plan, q, Seen(parts, q, tx).value.mutations);
    }
    forall q | q in d.prepared ensures Seen(parts', q, tx).Some? {
      assert Seen(parts', q, tx) == AbortMark(parts, tx, p, q);
    }
  }

  // ---------------------------------------------------------------- caution

  /** Only the entries of the journals decide who prepares. */
  lemma GuardPrepares(parts: map<string, Partition>, p: string, db: Store, tx: string, plan: Plan, i: nat)
    requires p in parts
    ensures AllPrepare(parts[p := parts[p].(db := db)], tx, plan, i) == AllPrepare(parts, tx, plan, i)
  {
    hide Targets, Snapshot;
    var parts' := parts[p := parts[p].(db := db)];
    forall q ensures PreparesAt(parts', tx, plan, q) == PreparesAt(parts, tx, plan, q) {
      if q == p && p in plan.work {
        assert forall k :: Locked(parts'[p], Some(tx), k) == Locked(parts[p], Some(tx), k);
      }
    }
  }

  /** One participant less to ask, when it has been asked. */
  lemma NextPrepares(parts: map<string, Partition>, p: string, part: Partition, tx: string, plan: Plan, i: nat)
    requires Lists(plan) && i < |plan.order| && p == plan.order[i] && p in parts && p in plan.work
    requires Participant.Prepare(parts[p], tx, plan.work[p]) == Some(part)
    ensures AllPrepare(parts, tx, plan, i) <==> AllPrepare(parts[p := part], tx, plan, i + 1)
  {
    hide Participant.Prepare;
    var parts' := parts[p := part];
    forall j | i < j < |plan.order|
      ensures PreparesAt(parts', tx, plan, plan.order[j]) == PreparesAt(parts, tx, plan, plan.order[j])
    {
      assert plan.order[j] != p;
    }
    assert PreparesAt(parts, tx, plan, p);
    if AllPrepare(parts', tx, plan, i + 1) {
      forall j | i <= j < |plan.order| ensures PreparesAt(parts, tx, plan, plan.order[j]) {
        assert j > i ==> PreparesAt(parts', tx, plan, plan.order[j]);
      }
    }
    if AllPrepare(parts, tx, plan, i) {
      forall j | i + 1 <= j < |plan.order| ensures PreparesAt(parts', tx, plan, plan.order[j]) {
        assert PreparesAt(parts, tx, plan, plan.order[j]);
      }
    }
  }

  /** Preparing aborts nobody. */
  lemma PreparedStatus(parts: map<string, Partition>, p: string, part: Partition, tx: string, ms: seq<Mutation>,
                       q: string)
    requires p in parts && Participant.Prepare(parts[p], tx, ms) == Some(part)
    ensures At(parts[p := part], q, tx) == if q == p && At(parts, p, tx).None? then Some(Prepared) else At(parts, q, tx)
  {
    hide Targets, Snapshot, Locked;
  }

  lemma PreparedBegun(parts: map<string, Partition>, p: string, part: Partition, tx: string, plan: Plan)
    requires p in parts && p in plan.work && Participant.Prepare(parts[p], tx, plan.work[p]) == Some(part)
    ensures Begun(parts[p := part], tx) == Begun(parts, tx)
    ensures Blocked(parts[p := part], tx, plan) == Blocked(parts, tx, plan)
  {
    hide Participant.Prepare, Ranked, Seen;
    forall q ensures At(parts[p := part], q, tx) ==
      if q == p && At(parts, p, tx).None? then Some(Prepared) else At(parts, q, tx) {
      PreparedStatus(parts, p, part, tx, plan.work[p], q);
    }
    if Begun(parts, tx) {
      var q :| At(parts, q, tx) == Some(Aborted);
      assert At(parts[p := part], q, tx) == Some(Aborted);
    }
    if Begun(parts[p := part], tx) {
      var q :| At(parts[p := part], q, tx) == Some(Aborted);
      assert At(parts, q, tx) == Some(Aborted);
    }
  }

  lemma WorkSound(w: World)
    requires Sound(w) && Enabled(w, Work)
    ensures Sound(Advance(w))
  {
    hide Base, Ranked, Seen, Blocked, Begun;
    var tx := w.place.tx;
    match w.place
    case Prepare(_, plan, i) =>
      if i == |plan.order| {
        DecideBase(w);
      } else {
        PrepareBase(w);
        var p := plan.order[i];
        CallPlan(w);
        if part :| Participant.Prepare(w.parts[p], tx, plan.work[p]) == Some(part) {
          hide AllPrepare, Participant.Prepare, Lists;
          NextPrepares(w.parts, p, part, tx, plan, i);
          PreparedBegun(w.parts, p, part, tx, plan);
        }
      }
    case NotePrepared(_, _, _) => NotePreparedBase(w);
    case Commit(_, _, _) => CommitBase(w); CommitMoves(w);
    case NoteCommitted(_, _, _) => NoteCommittedBase(w);
    case Abort(_, _) => AbortBase(w);
  }

  /** The plan of the running call has the content of the journalled one. */
  lemma CallPlan(w: World)
    requires Base(w) && (w.place.Prepare? || w.place.NotePrepared?)
    ensures w.place.tx in w.journal && Reached(w.place.plan, w.place.i, w.journal[w.place.tx])
    ensures PlanOk(w.parts.Keys, w.place.plan)
  {
    hide PartsOk, Seen, Reached, Lists, Known;
    PlanAt(w, w.place.tx);
    assert Reached(w.place.plan, w.place.i, w.journal[w.place.tx]);
    ReachedContent(w.place.plan, w.place.i, w.journal[w.place.tx]);
  }

  lemma ReachedContent(plan: Plan, i: nat, d: Decision)
    requires Reached(plan, i, d)
    ensures SameContent(plan, d.plan) && i <= |plan.order|
  {
  }

  lemma PlanAt(w: World, tx: string)
    requires Base(w) && tx in w.journal
    ensures PlanOk(w.parts.Keys, w.journal[tx].plan)
  {
    hide PlanOk, PartsOk, Seen;
    assert Sane(w.parts, tx, w.journal[tx]);
  }

  /** A commit step never leads back to preparing. */
  lemma CommitMoves(w: World)
    requires Enabled(w, Work) && w.place.Commit?
    ensures !Advance(w).place.Prepare? && !Advance(w).place.NotePrepared?
  {
    hide Ranked, Participant.Commit;
  }

  /** Every harmless step keeps the invariant. */
  lemma KeepSound(w: World, step: Step)
    requires Sound(w) && Enabled(w, step) && Harmless(w, step)
    ensures Sound(Next(w, step))
  {
    match step
    case Execute(tx, plan) => hide *; ExecuteSound(w, tx, plan);
    case Recover(tx) => hide *; RecoverSound(w, tx);
    case Crash => hide *; CrashSound(w);
    case Work => hide *; WorkSound(w); NextWork(w);
    case Guarded(p, writes) => hide *; GuardSound(w, p, writes);
  }

  lemma ExecuteSound(w: World, tx: string, plan: Plan)
    requires Sound(w) && Enabled(w, Execute(tx, plan)) && Harmless(w, Execute(tx, plan))
    ensures Sound(Next(w, Execute(tx, plan)))
  {
    hide Base, PlanOk, Blocked, AllPrepare, Begun;
    ExecuteBase(w, tx, plan);
    if tx !in w.journal {
      Unknown(w, tx);
    }
  }

  lemma RecoverSound(w: World, tx: string)
    requires Sound(w) && Enabled(w, Recover(tx))
    ensures Sound(Next(w, Recover(tx)))
  {
    hide Base, PlanOk;
    RecoverBase(w, tx);
  }

  lemma CrashSound(w: World)
    requires Sound(w)
    ensures Sound(Next(w, Crash))
  {
    hide Base;
    IdleBase(w);
  }

  lemma NextWork(w: World)
    requires Enabled(w, Work)
    ensures Next(w, Work) == Advance(w)
  {
    hide Advance, Enabled;
  }

  lemma Unknown(w: World, tx: string)
    requires Base(w) && tx !in w.journal
    ensures !Begun(w.parts, tx)
  {
    hide PartsOk, Sane, Stands, Seen;
    forall p ensures At(w.parts, p, tx).None? {
      assert Seen(w.parts, p, tx).None?;
    }
  }

  lemma GuardSound(w: World, p: string, writes: map<Key, Option<Record>>)
    requires Sound(w) && Enabled(w, Guarded(p, writes))
    ensures Sound(Next(w, Guarded(p, writes)))
  {
    hide Base, Ranked, Overwrite, AllPrepare, PlanOk, Locked;
    GuardBase(w, p, writes);
    var w' := Next(w, Guarded(p, writes));
    if w.place.Prepare? || w.place.NotePrepared? {
      var plan := w.place.plan;
      GuardPrepares(w.parts, p, w'.parts[p].db, w.place.tx, plan, w.place.i);
      GuardPrepares(w.parts, p, w'.parts[p].db, w.place.tx, plan, w.place.i + 1);
      forall q ensures At(w'.parts, q, w.place.tx) == At(w.parts, q, w.place.tx) {
      }
      SameStatus(w.parts, w'.parts, w.place.tx, plan);
    }
  }

  lemma PlaceKnown(w: World)
    requires Base(w) && !w.place.Idle?
    ensures w.place.tx in w.journal
  {
  }

  lemma SameStatus(parts: map<string, Partition>, parts': map<string, Partition>, tx: string, plan: Plan)
    requires forall q :: At(parts', q, tx) == At(parts, q, tx)
    ensures Begun(parts', tx) == Begun(parts, tx) && Blocked(parts', tx, plan) == Blocked(parts, tx, plan)
  {
    hide At, Ranked;
    if Begun(parts, tx) {
      var q :| At(parts, q, tx) == Some(Aborted);
      assert At(parts', q, tx) == Some(Aborted);
    }
    if Begun(parts', tx) {
      var q :| At(parts', q, tx) == Some(Aborted);
      assert At(parts, q, tx) == Some(Aborted);
    }
  }

  lemma {:induction false} SoundRun(states: seq<World>, steps: seq<Step>, n: nat)
    requires Run(states, steps) && HarmlessRun(states, steps) && n <= |steps|
    ensures Sound(states[n])
  {
    hide Next, Enabled, Sound, Harmless;
    if n == 0 {
      InitialSound(states[0]);
    } else {
      SoundRun(states, steps, n - 1);
      KeepSound(states[n - 1], steps[n - 1]);
    }
  }

  lemma InitialSound(w: World)
    requires Initial(w)
    ensures Sound(w)
  {
  }

  /** What the invariant says of one transaction. */
  lemma SoundState(w: World, tx: string)
    requires Base(w)
    ensures !Split(w.parts, tx)
    ensures forall p :: At(w.parts, p, tx) == Some(Committed) ==>
      tx in w.journal && (w.journal[tx].phase.Committing? || w.journal[tx].phase.Done?)
    ensures tx in w.journal && w.journal[tx].phase.Done? ==> AllCommitted(w.parts, tx, w.journal[tx].plan.order)
  {
    hide PartsOk, Seen, Ranked, PlanOk, Stands;
    if tx in w.journal {
      var d := w.journal[tx];
      assert Sane(w.parts, tx, d);
      forall p | At(w.parts, p, tx).Some? ensures p in d.plan.order {
        assert Planned(d.plan, p, Seen(w.parts, p, tx).value.mutations);
        PlannedInPlan(w.parts.Keys, d.plan, p);
      }
    } else {
      forall p ensures At(w.parts, p, tx).None? {
        assert Seen(w.parts, p, tx).None?;
      }
    }
  }

  lemma PlannedInPlan(parts: set<string>, plan: Plan, p: string)
    requires PlanOk(parts, plan) && p in plan.work
    ensures p in plan.order
  {
  }

  // ---------------------------------------------------------------- exactly which calls split

  /** The call is not interrupted: the coordinator takes step after step. */
  ghost predicate Uninterrupted(states: seq<World>) {
    && states != []
    && forall i :: 0 <= i < |states| - 1 ==> Enabled(states[i], Work) && states[i + 1] == Advance(states[i])
  }

  lemma Onwards(states: seq<World>, more: seq<World>)
    requires Uninterrupted(states) && Uninterrupted(more) && more[0] == states[|states| - 1]
    ensures Uninterrupted(states + more[1..])
    ensures (states + more[1..])[0] == states[0]
    ensures var all := states + more[1..]; all[|all| - 1] == more[|more| - 1]
  {
    hide Enabled, Advance;
    var all := states + more[1..];
    forall i | 0 <= i < |all| - 1 ensures Enabled(all[i], Work) && all[i + 1] == Advance(all[i]) {
      if i < |states| - 1 {
        assert all[i] == states[i] && all[i + 1] == states[i + 1];
      } else {
        assert all[i] == more[i - |states| + 1] && all[i + 1] == more[i - |states| + 2];
      }
    }
  }

  lemma Alone(w: World)
    ensures Uninterrupted([w])
  {
  }

  lemma Nonempty(states: seq<World>)
    requires Uninterrupted(states)
    ensures states != []
  {
  }

  lemma TwoStepsOn(w: World)
    requires Enabled(w, Work) && Enabled(Advance(w), Work)
    ensures Uninterrupted([w, Advance(w), Advance(Advance(w))])
  {
    hide Enabled, Advance;
  }

  lemma OneStep(w: World)
    requires Enabled(w, Work)
    ensures Uninterrupted([w, Advance(w)])
  {
    hide Enabled, Advance;
  }

  /** Committed and aborted are final. */
  lemma WorkFinal(w: World, t: string, p: string)
    requires Enabled(w, Work)
    ensures At(w.parts, p, t) == Some(Committed) ==> At(Advance(w).parts, p, t) == Some(Committed)
    ensures At(w.parts, p, t) == Some(Aborted) ==> At(Advance(w).parts, p, t) == Some(Aborted)
  {
    hide Targets, Snapshot, Locked, ApplyAll, Ranked;
  }

  lemma {:induction false} SplitStays(states: seq<World>, tx: string)
    requires Uninterrupted(states) && Split(states[0].parts, tx)
    ensures Split(states[|states| - 1].parts, tx)
    decreases |states|
  {
    hide Enabled, Advance, At;
    if |states| > 1 {
      var w := states[0];
      assert Enabled(states[0], Work) && states[1] == Advance(states[0]);
      var p :| At(w.parts, p, tx) == Some(Committed);
      var q :| At(w.parts, q, tx) == Some(Aborted);
      WorkFinal(w, tx, p);
      WorkFinal(w, tx, q);
      var rest := states[1..];
      assert forall i :: 0 <= i < |rest| ==> rest[i] == states[i + 1];
      SplitStays(rest, tx);
    }
  }

  /** All a call needs to be able to go on. */
  ghost predicate Going(w: World) {
    !w.place.Idle? ==>
      && w.place.tx in w.journal
      && var d := w.journal[w.place.tx];
        && PlanOk(w.parts.Keys, d.plan) && (forall p :: p in d.prepared ==> p in w.parts)
        && (match w.place
            case Prepare(_, plan, i) => PlanOk(w.parts.Keys, plan) && i <= |plan.order|
            case NotePrepared(_, plan, i) => PlanOk(w.parts.Keys, plan) && i < |plan.order|
            case Commit(_, i, _) => i <= |Ranked(d.plan)|
            case NoteCommitted(_, i, _) => i < |Ranked(d.plan)|
            case Abort(_, i) => i <= |d.prepared|)
  }

  /** An upper bound on the steps the call still takes. */
  ghost function Left(w: World): nat
    requires Going(w)
  {
    if w.place.Idle? then 0
    else
      var d := w.journal[w.place.tx];
      var m := |Ranked(d.plan)|;
      match w.place
      case Prepare(_, plan, i) => |d.prepared| + 2 * m + 3 * (|plan.order| - i) + 5
      case NotePrepared(_, plan, i) => |d.prepared| + 2 * m + 3 * (|plan.order| - i) + 4
      case Commit(_, i, _) => 2 * (m - i) + 1
      case NoteCommitted(_, i, _) => 2 * (m - i)
      case Abort(_, i) => |d.prepared| - i + 1
  }

  lemma GoesOn(w: World)
    requires Going(w) && !w.place.Idle?
    ensures Enabled(w, Work) && Going(Advance(w)) && Left(Advance(w)) < Left(w)
  {
    hide PlanOk, Ranked, Participant.Prepare, Participant.Commit, Participant.Abort;
    var d := w.journal[w.place.tx];
    match w.place
    case Prepare(_, plan, i) => if i < |plan.order| { Listed(w.parts.Keys, plan, i); SameKeys(w.parts, plan.order[i]); }
    case NotePrepared(_, plan, i) => Listed(w.parts.Keys, plan, i);
    case Commit(_, i, _) =>
      if i < |Ranked(d.plan)| { RankedPart(w.parts.Keys, d.plan, i); SameKeys(w.parts, Ranked(d.plan)[i]); }
    case NoteCommitted(_, i, _) =>
    case Abort(_, i) => if i < |d.prepared| { SameKeys(w.parts, d.prepared[i]); }
  }

  lemma Listed(parts: set<string>, plan: Plan, i: nat)
    requires PlanOk(parts, plan) && i < |plan.order|
    ensures plan.order[i] in plan.work && plan.order[i] in parts
  {
    assert plan.order[i] in plan.order;
  }

  lemma RankedPart(parts: set<string>, plan: Plan, i: nat)
    requires PlanOk(parts, plan) && i < |Ranked(plan)|
    ensures Ranked(plan)[i] in parts
  {
    RankedIs(plan, i);
  }

  lemma SameKeys(parts: map<string, Partition>, p: string)
    requires p in parts
    ensures forall part: Partition {:trigger parts[p := part]} :: parts[p := part].Keys == parts.Keys
  {
  }

  /** Every call ends when it is not interrupted. */
  lemma {:induction false} RunsOut(w: World) returns (states: seq<World>)
    requires Going(w)
    ensures Uninterrupted(states) && states[0] == w && states[|states| - 1].place.Idle?
    decreases Left(w)
  {
    hide Going, Advance, Enabled, Left;
    if w.place.Idle? {
      states := [w];
    } else {
      GoesOn(w);
      var rest := RunsOut(Advance(w));
      OneStep(w);
      Onwards([w, Advance(w)], rest);
      states := [w, Advance(w)] + rest[1..];
    }
  }

  lemma BaseGoing(w: World)
    requires Base(w)
    ensures Going(w)
  {
    hide PartsOk, Seen, Allows, Ranked, PlanOk, Known;
    if !w.place.Idle? {
      PlanAt(w, w.place.tx);
      if w.place.Prepare? || w.place.NotePrepared? {
        CallPlan(w);
      }
      var d := w.journal[w.place.tx];
      assert Sane(w.parts, w.place.tx, d);
      forall p | p in d.prepared ensures p in w.parts {
        assert Seen(w.parts, p, w.place.tx).Some?;
        SeenPart(w.parts, p, w.place.tx);
      }
    }
  }

  lemma SeenPart(parts: map<string, Partition>, p: string, tx: string)
    requires Seen(parts, p, tx).Some?
    ensures p in parts
  {
  }

  lemma {:induction false} StaysSound(states: seq<World>)
    requires Uninterrupted(states) && Sound(states[0])
    ensures Sound(states[|states| - 1])
    decreases |states|
  {
    hide Enabled, Advance, Sound;
    if |states| > 1 {
      assert Enabled(states[0], Work) && states[1] == Advance(states[0]);
      WorkSound(states[0]);
      var rest := states[1..];
      assert forall i :: 0 <= i < |rest| ==> rest[i] == states[i + 1];
      StaysSound(rest);
    }
  }

  /** What the journals say of tx once these have been asked: those without an entry have reserved. */
  function Filled(parts: map<string, Partition>, tx: string, asked: seq<string>, q: string): Option<Status> {
    if q in asked && At(parts, q, tx).None? then Some(Prepared) else At(parts, q, tx)
  }

  /** From w to w' the participants of the call's plan up to place j have been asked, and none has refused. */
  ghost predicate Asked(w: World, w': World, j: nat)
    requires w.place.Prepare? && w.place.tx in w.journal && w.place.i <= j <= |w.place.plan.order|
  {
    var tx, plan, d := w.place.tx, w.place.plan, w.journal[w.place.tx];
    && w'.place == Prepare(tx, plan, j) && tx in w'.journal
    && w'.journal[tx] == d.(prepared := w'.journal[tx].prepared)
    && (forall q :: q in w'.journal[tx].prepared <==> q in d.prepared || q in plan.order[w.place.i..j])
    && (forall q :: At(w'.parts, q, tx) == Filled(w.parts, tx, plan.order[w.place.i..j], q))
    && (forall k :: j <= k < |plan.order| ==>
         PreparesAt(w'.parts, tx, plan, plan.order[k]) == PreparesAt(w.parts, tx, plan, plan.order[k]))
  }

  /** The prepare loop as far as nobody refuses. */
  lemma {:induction false} PreparesUpTo(w: World, j: nat) returns (states: seq<World>)
    requires Base(w) && w.place.Prepare? && w.place.i <= j <= |w.place.plan.order|
    requires forall k :: w.place.i <= k < j ==>
      PreparesAt(w.parts, w.place.tx, w.place.plan, w.place.plan.order[k])
    ensures Uninterrupted(states) && states[0] == w
    ensures Base(states[|states| - 1]) && Asked(w, states[|states| - 1], j)
    decreases j - w.place.i
  {
    PlaceKnown(w);
    hide Base, PreparesAt, Asked, Advance, Enabled, Uninterrupted;
    if w.place.i == j {
      Alone(w);
      AskedNone(w);
      states := [w];
    } else {
      var w2 := PrepareOne(w);
      StillPrepare(w, w2, j);
      var rest := PreparesUpTo(w2, j);
      TwoStepsOn(w);
      Nonempty(rest);
      AskedMore(w, w2, rest[|rest| - 1], j);
      Onwards([w, Advance(w), w2], rest);
      states := [w, Advance(w), w2] + rest[1..];
    }
  }

  lemma AskedNone(w: World)
    requires w.place.Prepare? && w.place.tx in w.journal && w.place.i <= |w.place.plan.order|
    ensures Asked(w, w, w.place.i)
  {
    hide PreparesAt;
    var plan := w.place.plan;
    assert plan.order[w.place.i..w.place.i] == [];
  }

  lemma StillPrepare(w: World, w2: World, j: nat)
    requires w.place.Prepare? && w.place.tx in w.journal && w.place.i < j <= |w.place.plan.order|
    requires forall k :: w.place.i <= k < j ==>
      PreparesAt(w.parts, w.place.tx, w.place.plan, w.place.plan.order[k])
    requires Asked(w, w2, w.place.i + 1)
    ensures w2.place == Prepare(w.place.tx, w.place.plan, w.place.i + 1) && w2.place.tx in w2.journal
    ensures forall k :: w2.place.i <= k < j ==>
      PreparesAt(w2.parts, w2.place.tx, w2.place.plan, w2.place.plan.order[k])
  {
    hide PreparesAt, Filled;
  }

  lemma AskedMore(w: World, w2: World, w3: World, j: nat)
    requires w.place.Prepare? && w.place.tx in w.journal && w.place.i < j <= |w.place.plan.order|
    requires Asked(w, w2, w.place.i + 1) && Asked(w2, w3, j)
    ensures Asked(w, w3, j)
  {
    hide PreparesAt, At;
    var plan, i := w.place.plan, w.place.i;
    assert plan.order[i..i + 1] == [plan.order[i]];
    assert plan.order[i..j] == [plan.order[i]] + plan.order[i + 1..j];
  }

  lemma PrepareOne(w: World) returns (w2: World)
    requires Base(w) && w.place.Prepare? && w.place.i < |w.place.plan.order|
    requires PreparesAt(w.parts, w.place.tx, w.place.plan, w.place.plan.order[w.place.i])
    ensures Enabled(w, Work) && Enabled(Advance(w), Work) && w2 == Advance(Advance(w)) && Base(w2)
    ensures w.place.tx in w.journal && Asked(w, w2, w.place.i + 1)
  {
    var tx, plan, i := w.place.tx, w.place.plan, w.place.i;
    hide Base, Ranked, Participant.Prepare, PlanOk, Going, Left, Advance, Enabled, Asked;
    BaseGoing(w);
    GoesOn(w);
    CallPlan(w);
    var p := plan.order[i];
    var part := Participant.Prepare(w.parts[p], tx, plan.work[p]).value;
    PrepareBase(w);
    GoesOn(Advance(w));
    w2 := Advance(Advance(w));
    TwoSteps(w, p, part);
    NotePreparedBase(Advance(w));
    AskedOne(w, w2, p, part);
  }

  lemma AskedOne(w: World, w2: World, p: string, part: Partition)
    requires w.place.Prepare? && w.place.tx in w.journal && w.place.i < |w.place.plan.order|
    requires var d, plan, i := w.journal[w.place.tx], w.place.plan, w.place.i;
      && PlanOk(w.parts.Keys, plan) && p == plan.order[i] && p in w.parts && p in plan.work
      && Participant.Prepare(w.parts[p], w.place.tx, plan.work[p]) == Some(part)
      && w2.parts == w.parts[p := part] && w2.place == Prepare(w.place.tx, plan, i + 1)
      && w.place.tx in w2.journal && w2.journal[w.place.tx] == d.(prepared := Add(d.prepared, p))
    ensures Asked(w, w2, w.place.i + 1)
  {
    hide Participant.Prepare;
    var tx, plan, i := w.place.tx, w.place.plan, w.place.i;
    assert plan.order[i..i + 1] == [p];
    forall q ensures At(w2.parts, q, tx) == Filled(w.parts, tx, [p], q) {
      PreparedStatus(w.parts, p, part, tx, plan.work[p], q);
    }
    forall k | i < k < |plan.order|
      ensures PreparesAt(w2.parts, tx, plan, plan.order[k]) == PreparesAt(w.parts, tx, plan, plan.order[k])
    {
      assert plan.order[k] != p;
    }
  }

  /** Asking one participant and noting its answer. */
  lemma TwoSteps(w: World, p: string, part: Partition)
    requires Enabled(w, Work) && Enabled(Advance(w), Work) && w.place.Prepare? && w.place.i < |w.place.plan.order|
    requires var plan := w.place.plan;
      p == plan.order[w.place.i] && p in plan.work &&
        Participant.Prepare(w.parts[p], w.place.tx, plan.work[p]) == Some(part)
    ensures Advance(w).place.NotePrepared?
    ensures var tx, plan, d, w2 := w.place.tx, w.place.plan, w.journal[w.place.tx], Advance(Advance(w));
      && w2.parts == w.parts[p := part] && w2.place == Prepare(tx, plan, w.place.i + 1)
      && tx in w2.journal && w2.journal[tx] == d.(prepared := Add(d.prepared, p))
  {
    hide Participant.Prepare, Ranked;
  }

  /** Asking changes nobody's decision. */
  lemma FilledDecisions(parts: map<string, Partition>, parts': map<string, Partition>, tx: string, plan: Plan,
                        asked: seq<string>)
    requires forall q :: At(parts', q, tx) == Filled(parts, tx, asked, q)
    ensures Begun(parts', tx) == Begun(parts, tx) && Blocked(parts', tx, plan) == Blocked(parts, tx, plan)
  {
    hide At, Ranked;
    if q :| At(parts, q, tx) == Some(Aborted) {
      assert At(parts', q, tx) == Some(Aborted);
    }
    if q :| At(parts', q, tx) == Some(Aborted) {
      assert At(parts, q, tx) == Some(Aborted);
    }
  }

  /** The first commit after such a decision succeeds, and splits the transaction. */
  lemma FirstCommitSplits(w: World) returns (states: seq<World>)
    requires Base(w) && w.place.Prepare? && w.place.i == |w.place.plan.order|
    requires !w.journal[w.place.tx].phase.Committing?
    requires Begun(w.parts, w.place.tx) && !Blocked(w.parts, w.place.tx, w.place.plan)
    ensures Uninterrupted(states) && states[0] == w
    ensures Split(states[|states| - 1].parts, w.place.tx) && Going(states[|states| - 1])
  {
    var tx := w.place.tx;
    var d := w.journal[tx];
    var p := FirstAsked(w);
    hide Base, Ranked, Seen, Blocked, PlanOk, Left, Going, Enabled, Advance, Split, Begun, Participant.Commit;
    BaseGoing(w);
    GoesOn(w);
    var w1 := Advance(w);
    DecisionStep(w);
    GoesOn(w1);
    var part := Participant.Commit(w.parts[p], tx).value;
    CommitStep(w1, p, part);
    SplitNow(w.parts, p, part, tx);
    TwoStepsOn(w);
    states := [w, w1, Advance(w1)];
  }

  lemma DecisionStep(w: World)
    requires w.place.Prepare? && Enabled(w, Work) && w.place.i == |w.place.plan.order|
    ensures Advance(w) ==
      w.(journal := w.journal[w.place.tx := w.journal[w.place.tx].(phase := Committing)],
         place := Commit(w.place.tx, 0, false))
  {
    hide Ranked;
  }

  lemma FirstAsked(w: World) returns (p: string)
    requires Base(w) && w.place.Prepare? && w.place.i == |w.place.plan.order|
    requires !w.journal[w.place.tx].phase.Committing? && !Blocked(w.parts, w.place.tx, w.place.plan)
    ensures var d := w.journal[w.place.tx]; Ranked(d.plan) != [] && p == Ranked(d.plan)[0]
    ensures p in w.parts && w.place.tx in w.parts[p].txs && Participant.Commit(w.parts[p], w.place.tx).Some?
  {
    hide PartsOk, Ranked, Planned, Known, Ok, Reached;
    var tx, plan := w.place.tx, w.place.plan;
    var d := w.journal[tx];
    assert Sane(w.parts, tx, d);
    CallPlan(w);
    ReachedContent(plan, w.place.i, d);
    SameRanked(plan, d.plan);
    RankedFirst(d.plan);
    p := Ranked(d.plan)[0];
    AllReached(plan, d);
    assert Seen(w.parts, p, tx).Some?;
    assert Ok(w.parts[p]) by { PartOk(w.parts, p); }
    CommitAccepted(w.parts[p], tx);
  }

  lemma PartOk(parts: map<string, Partition>, p: string)
    requires PartsOk(parts) && p in parts
    ensures Ok(parts[p])
  {
    hide Ok;
  }

  lemma SplitNow(parts: map<string, Partition>, p: string, part: Partition, tx: string)
    requires Begun(parts, tx) && p in parts && Participant.Commit(parts[p], tx) == Some(part)
    ensures Split(parts[p := part], tx)
  {
    hide ApplyAll, Targets;
    var q :| At(parts, q, tx) == Some(Aborted);
    assert q != p && At(parts[p := part], q, tx) == Some(Aborted);
    assert At(parts[p := part], p, tx) == Some(Committed);
  }

  /**
   * The calls to avoid are exactly those: left to itself, `execute` splits its transaction if and only if some
   * participant has aborted it, every participant will prepare it, and the first one to commit has not aborted it.
   */
  lemma ReexecutionSplitsIff(w: World, tx: string, plan: Plan) returns (states: seq<World>)
    requires Sound(w) && Enabled(w, Execute(tx, plan))
    ensures Uninterrupted(states) && states[0] == Next(w, Execute(tx, plan)) && states[|states| - 1].place.Idle?
    ensures Split(states[|states| - 1].parts, tx) <==> Splitting(w, tx, plan)
  {
    hide Base, Split, Lists, MutationsOk, Going, Advance, Ranked, Seen, Blocked, Begun, PreparesAt, Filled;
    var w0 := Next(w, Execute(tx, plan));
    ExecuteBase(w, tx, plan);
    if Splitting(w, tx, plan) {
      NotDecided(w, tx, plan);
      var first := PreparesUpTo(w0, |plan.order|);
      FilledDecisions(w0.parts, first[|first| - 1].parts, tx, plan, plan.order[0..|plan.order|]);
      var second := FirstCommitSplits(first[|first| - 1]);
      Onwards(first, second);
      var both := first + second[1..];
      var end := second[|second| - 1];
      var third := RunsOut(end);
      SplitStays(third, tx);
      Onwards(both, third);
      states := both + third[1..];
    } else {
      BaseGoing(w0);
      states := RunsOut(w0);
      KeepSound(w, Execute(tx, plan));
      StaysSound(states);
      SoundState(states[|states| - 1], tx);
    }
  }

  lemma NotDecided(w: World, tx: string, plan: Plan)
    requires Base(w) && tx in w.journal && Begun(w.parts, tx) && !Blocked(w.parts, tx, plan)
    requires SameContent(plan, w.journal[tx].plan)
    ensures !w.journal[tx].phase.Committing?
  {
    hide PartsOk, Lists, Ranked, Seen;
    assert Sane(w.parts, tx, w.journal[tx]);
    SameRanked(plan, w.journal[tx].plan);
  }
}
