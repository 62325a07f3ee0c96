/**
 * Where an uninterrupted call of `execute` or `recover` of src/distributed.js ends, exactly: also for a transaction
 * whose abort has begun, what is then left reserved, and what can still release it.
 */
module Outcomes {
  import opened Basics
  import Json
  import opened Participant
  import opened Distributed
  import opened Reexecution

  // ---------------------------------------------------------------- running a call to its end

  /** Where the current call ends when it is not interrupted. */
  ghost function Ended(w: World): (end: World)
    requires Going(w)
    ensures end.place.Idle?
    decreases Left(w)
  {
    if w.place.Idle? then w
    else
      GoesOn(w);
      Ended(Advance(w))
  }

  lemma EndedStep(w: World)
    requires Going(w) && !w.place.Idle?
    ensures Enabled(w, Work) && Going(Advance(w)) && Ended(w) == Ended(Advance(w))
  {
    hide Going, Advance, Enabled, Left;
    GoesOn(w);
  }

  lemma {:induction false} EndedAfter(states: seq<World>)
    requires Uninterrupted(states) && Going(states[0])
    ensures Going(states[|states| - 1]) && Ended(states[0]) == Ended(states[|states| - 1])
    decreases |states|
  {
    hide Going, Advance, Enabled, Left, Ended;
    if |states| > 1 {
      assert Enabled(states[0], Work) && states[1] == Advance(states[0]);
      EnabledBusy(states[0]);
      EndedStep(states[0]);
      var rest := states[1..];
      assert forall i :: 0 <= i < |rest| ==> rest[i] == states[i + 1];
      EndedAfter(rest);
    }
  }

  lemma EnabledBusy(w: World)
    requires Enabled(w, Work)
    ensures !w.place.Idle?
  {
    hide Ranked;
  }

  lemma {:induction false} EndedSound(w: World)
    requires Sound(w) && Going(w)
    ensures Sound(Ended(w))
    decreases Left(w)
  {
    hide Sound, Going, Advance, Enabled, Left;
    if !w.place.Idle? {
      GoesOn(w);
      WorkSound(w);
      EndedSound(Advance(w));
    }
  }

  /** The abort loop: everyone noted ends aborted, nobody else changes. */
  lemma {:induction false} AbortsAll(w: World)
    requires Base(w) && w.place.Abort?
    ensures w.place.tx in w.journal && Going(w) && w.place.i <= |w.journal[w.place.tx].prepared|
    ensures var tx, d, end := w.place.tx, w.journal[w.place.tx], Ended(w);
      && tx in end.journal && end.journal[tx] == d.(phase := Undone)
      && (forall q ::
           At(end.parts, q, tx) == if q in d.prepared[w.place.i..] then Some(Aborted) else At(w.parts, q, tx))
    decreases if w.place.tx in w.journal then |w.journal[w.place.tx].prepared| - w.place.i else 0
  {
    hide Base, Going, Advance, Enabled, Left, Ended;
    BaseGoing(w);
    PlaceKnown(w);
    EndedStep(w);
    AbortBase(w);
    AbortOne(w);
    var tx, d, i := w.place.tx, w.journal[w.place.tx], w.place.i;
    if i < |d.prepared| {
      AbortsAll(Advance(w));
      assert d.prepared[i..] == [d.prepared[i]] + d.prepared[i + 1..];
    } else {
      EndedIdle(Advance(w));
      assert d.prepared[i..] == [];
    }
  }

  lemma EndedIdle(w: World)
    requires w.place.Idle?
    ensures Going(w) && Ended(w) == w
  {
    hide Ranked, PlanOk;
  }

  lemma AbortOne(w: World)
    requires Base(w) && w.place.Abort? && Enabled(w, Work)
    ensures w.place.tx in w.journal && w.place.i <= |w.journal[w.place.tx].prepared|
    ensures var tx, d, i, next := w.place.tx, w.journal[w.place.tx], w.place.i, Advance(w);
      && tx in next.journal
      && (i == |d.prepared| ==> next.place.Idle? && next.parts == w.parts && next.journal[tx] == d.(phase := Undone))
      && (i < |d.prepared| ==>
           && next.place == Abort(tx, i + 1) && next.journal[tx] == d
           && forall q :: At(next.parts, q, tx) == if q == d.prepared[i] then Some(Aborted) else At(w.parts, q, tx))
  {
    hide PartsOk, PlanOk, Ranked, Planned, Known;
    assert Sane(w.parts, w.place.tx, w.journal[w.place.tx]);
    var tx, d, i := w.place.tx, w.journal[w.place.tx], w.place.i;
    if i < |d.prepared| {
      var p := d.prepared[i];
      assert Seen(w.parts, p, tx).Some? && At(w.parts, p, tx) != Some(Committed);
    }
  }

  /** The commit loop when nobody has aborted: the transaction ends committed. */
  lemma {:induction false} CommitsAll(w: World)
    requires Base(w) && (w.place.Commit? || w.place.NoteCommitted?) && !Begun(w.parts, w.place.tx)
    ensures Going(w) && w.place.tx in w.journal
    ensures var tx, end := w.place.tx, Ended(w);
      && Base(end) && tx in end.journal
      && end.journal[tx].phase.Done? && end.journal[tx].plan == w.journal[tx].plan
    decreases if Going(w) then Left(w) else 0
  {
    hide Base, Going, Advance, Enabled, Left, Ended, Begun;
    BaseGoing(w);
    PlaceKnown(w);
    EndedStep(w);
    GoesOn(w);
    CommitOne(w);
    var next := Advance(w);
    if next.place.Idle? {
      EndedIdle(next);
    } else {
      CommitsAll(next);
    }
  }

  lemma CommitOne(w: World)
    requires Base(w) && (w.place.Commit? || w.place.NoteCommitted?) && !Begun(w.parts, w.place.tx) && Enabled(w, Work)
    ensures Base(Advance(w)) && w.place.tx in Advance(w).journal && w.place.tx in w.journal
    ensures Advance(w).journal[w.place.tx].plan == w.journal[w.place.tx].plan
    ensures var tx, next := w.place.tx, Advance(w);
      if next.place.Idle? then next.journal[tx].phase.Done?
      else (next.place.Commit? || next.place.NoteCommitted?) && next.place.tx == tx && !Begun(next.parts, tx)
  {
    hide Base, Ranked, Participant.Commit, Begun;
    var tx, d, i := w.place.tx, w.journal[w.place.tx], w.place.i;
    if w.place.Commit? {
      CommitBase(w);
      if i < |Ranked(d.plan)| && !(w.place.recovering && Ranked(d.plan)[i] in d.committed) {
        var p := Ranked(d.plan)[i];
        CommitAsked(w, p);
        NotAborted(w, p);
        var part := Participant.Commit(w.parts[p], tx).value;
        CommitBegins(w.parts, p, part, tx);
      }
    } else {
      NoteCommittedBase(w);
    }
  }

  lemma NotAborted(w: World, p: string)
    requires !w.place.Idle? && !Begun(w.parts, w.place.tx)
    ensures At(w.parts, p, w.place.tx) != Some(Aborted)
  {
    hide Seen;
  }

  lemma AbortedBefore(parts: map<string, Partition>, p: string, part: Partition, tx: string, q: string)
    requires p in parts && Participant.Commit(parts[p], tx) == Some(part)
    requires At(parts[p := part], q, tx) == Some(Aborted)
    ensures At(parts, q, tx) == Some(Aborted)
  {
    hide Targets, ApplyAll;
  }

  lemma CommitBegins(parts: map<string, Partition>, p: string, part: Partition, tx: string)
    requires p in parts && Participant.Commit(parts[p], tx) == Some(part) && !Begun(parts, tx)
    ensures !Begun(parts[p := part], tx)
  {
    hide Targets, ApplyAll;
    var parts' := parts[p := part];
    if q :| At(parts', q, tx) == Some(Aborted) {
      AbortedBefore(parts, p, part, tx, q);
    }
  }

  /** A blocked commit is refused at once. */
  lemma BlockedCommit(w: World)
    requires Base(w) && w.place.Commit? && w.place.i == 0
    requires Begun(w.parts, w.place.tx) && Blocked(w.parts, w.place.tx, w.journal[w.place.tx].plan)
    ensures Going(w) && Ended(w) == w.(place := Idle)
  {
    hide Base, Going, Left, Ended, Begun, Blocked, Participant.Commit, Ranked;
    BaseGoing(w);
    EndedStep(w);
    CommittingAt(w);
    NothingNoted(w, w.place.tx);
    var d := w.journal[w.place.tx];
    FirstBlocked(w.parts, w.place.tx, d.plan);
    CommitAsked(w, Ranked(d.plan)[0]);
    EndedIdle(Advance(w));
  }

  lemma FirstBlocked(parts: map<string, Partition>, tx: string, plan: Plan)
    requires Blocked(parts, tx, plan)
    ensures Ranked(plan) != [] && At(parts, Ranked(plan)[0], tx) == Some(Aborted)
  {
    hide Ranked, Seen;
  }

  lemma CommittingAt(w: World)
    requires Base(w) && w.place.Commit?
    ensures w.place.tx in w.journal && w.journal[w.place.tx].phase.Committing?
  {
    hide PartsOk, Sane, Known, Ranked, Seen;
  }

  lemma Inhabited(s: seq<string>)
    ensures s == [] || exists p :: p in s
  {
    if s != [] {
      assert s[0] in s;
    }
  }

  lemma NothingNoted(w: World, tx: string)
    requires Base(w) && tx in w.journal && w.journal[tx].phase.Committing? && Begun(w.parts, tx)
    ensures w.journal[tx].committed == [] && NoneCommitted(w.parts, tx)
    ensures AllNoted(w.journal[tx])
  {
    hide PartsOk, PlanOk, Ranked, Follows, Begun, Blocked, Known, Seen;
    var d := w.journal[tx];
    assert Sane(w.parts, tx, d);
    Inhabited(d.committed);
  }

  // ---------------------------------------------------------------- execute

  /**
   * The call does something: the transaction is new, or was submitted with the same mutations and is not done. The two
   * plans may list the participants in different orders; the call follows its own.
   */
  ghost predicate Resumes(w: World, tx: string, plan: Plan) {
    tx in w.journal ==> !w.journal[tx].phase.Done? && w.journal[tx].plan.work == plan.work
  }

  /** Its abort has not been noted by the coordinator. */
  ghost predicate Fresh(w: World, tx: string) {
    tx in w.journal ==> w.journal[tx].phase.Preparing?
  }

  /** Whom the coordinator's journal lists as prepared. */
  function Noted(w: World, tx: string): seq<string> {
    if tx in w.journal then w.journal[tx].prepared else []
  }

  ghost predicate FirstRefusal(parts: map<string, Partition>, tx: string, plan: Plan, j: nat) {
    && j < |plan.order| && !PreparesAt(parts, tx, plan, plan.order[j])
    && forall k :: 0 <= k < j ==> PreparesAt(parts, tx, plan, plan.order[k])
  }

  ghost function Executed(w: World, tx: string, plan: Plan): (end: World)
    requires Base(w) && Enabled(w, Execute(tx, plan))
    ensures end.place.Idle?
  {
    ExecuteBase(w, tx, plan);
    BaseGoing(Next(w, Execute(tx, plan)));
    Ended(Next(w, Execute(tx, plan)))
  }

  /** The call has asked the participants before place j, and stands there. */
  lemma AskedUpTo(w: World, tx: string, plan: Plan, j: nat) returns (at: World)
    requires Base(w) && Enabled(w, Execute(tx, plan)) && Resumes(w, tx, plan) && j <= |plan.order|
    requires forall k :: 0 <= k < j ==> PreparesAt(w.parts, tx, plan, plan.order[k])
    ensures Base(at) && Going(at) && Executed(w, tx, plan) == Ended(at)
    ensures at.place == Prepare(tx, plan, j) && tx in at.journal && at.journal[tx].plan.work == plan.work
    ensures at.journal[tx].phase == if tx in w.journal then w.journal[tx].phase else Preparing
    ensures forall q :: q in at.journal[tx].prepared <==> q in Noted(w, tx) || q in plan.order[..j]
    ensures forall q :: At(at.parts, q, tx) == Filled(w.parts, tx, plan.order[..j], q)
    ensures forall k :: j <= k < |plan.order| ==>
      PreparesAt(at.parts, tx, plan, plan.order[k]) == PreparesAt(w.parts, tx, plan, plan.order[k])
  {
    hide Base, PlanOk, PreparesAt, Filled, Going, Left, Ended, Advance;
    var w0 := Next(w, Execute(tx, plan));
    ExecuteBase(w, tx, plan);
    BaseGoing(w0);
    var states := PreparesUpTo(w0, j);
    EndedAfter(states);
    at := states[|states| - 1];
    assert plan.order[0..j] == plan.order[..j];
  }

  /** At a participant that refuses. */
  lemma AtRefusal(w: World)
    requires Base(w) && w.place.Prepare? && w.place.i < |w.place.plan.order|
    requires !PreparesAt(w.parts, w.place.tx, w.place.plan, w.place.plan.order[w.place.i])
    ensures Going(w)
    ensures var tx, d := w.place.tx, w.journal[w.place.tx];
      if d.phase.Preparing? then
        var next := w.(journal := w.journal[tx := d.(phase := Aborting)], place := Abort(tx, 0));
        Base(next) && Going(next) && Ended(w) == Ended(next)
      else Ended(w) == w.(place := Idle)
  {
    hide Base, Going, Left, Ended, Participant.Prepare, PlanOk, Ranked;
    BaseGoing(w);
    EndedStep(w);
    CallPlan(w);
    Listed(w.parts.Keys, w.place.plan, w.place.i);
    if w.journal[w.place.tx].phase.Preparing? {
      RefuseBase(w);
    } else {
      EndedIdle(Advance(w));
    }
  }

  /** Whoever has an entry answers again when asked. */
  lemma EntryPrepares(w: World, tx: string, plan: Plan, p: string)
    requires Base(w) && tx in w.journal && w.journal[tx].plan.work == plan.work && Seen(w.parts, p, tx).Some?
    ensures PreparesAt(w.parts, tx, plan, p)
  {
    hide PartsOk, Allows, PlanOk, Known, Stands, Ranked;
    var d := w.journal[tx];
    assert Sane(w.parts, tx, d);
    assert Planned(d.plan, p, Seen(w.parts, p, tx).value.mutations);
  }

  /**
   * `execute`, when some participant refuses to prepare, the first one at place j. While the abort had not been noted,
   * everyone noted before and everyone asked ends aborted. Afterwards the coordinator just gives up: those asked that
   * had no entry are now prepared. Nothing else changes in either case.
   */
  lemma ExecuteRefused(w: World, tx: string, plan: Plan, j: nat)
    requires Base(w) && Enabled(w, Execute(tx, plan)) && Resumes(w, tx, plan) && FirstRefusal(w.parts, tx, plan, j)
    ensures var end := Executed(w, tx, plan);
      && tx in end.journal && end.journal[tx].plan.work == plan.work
      && end.journal[tx].phase == (if Fresh(w, tx) then Undone else w.journal[tx].phase)
      && (forall p :: At(end.parts, p, tx) ==
            if !Fresh(w, tx) then Filled(w.parts, tx, plan.order[..j], p)
            else if p in Noted(w, tx) || p in plan.order[..j] then Some(Aborted)
            else At(w.parts, p, tx))
  {
    hide Base, PlanOk, PreparesAt, Going, Left, Ended, Advance, Enabled, At, Executed;
    var at := AskedUpTo(w, tx, plan, j);
    AtRefusal(at);
    if Fresh(w, tx) {
      var next := at.(journal := at.journal[tx := at.journal[tx].(phase := Aborting)], place := Abort(tx, 0));
      AbortsAll(next);
      assert at.journal[tx].prepared[0..] == at.journal[tx].prepared;
    }
  }

  /**
   * `execute`, when every participant prepares: it commits, or splits the transaction, or is blocked at its first
   * commit.
   */
  lemma ExecuteAccepted(w: World, tx: string, plan: Plan)
    requires Base(w) && Enabled(w, Execute(tx, plan)) && Resumes(w, tx, plan) && AllPrepare(w.parts, tx, plan, 0)
    ensures var end := Executed(w, tx, plan);
      && (!Begun(w.parts, tx) ==>
           && tx in end.journal && end.journal[tx].plan.work == plan.work && end.journal[tx].phase.Done?
           && AllCommitted(end.parts, tx, plan.order))
      && (Begun(w.parts, tx) && Blocked(w.parts, tx, plan) ==>
           && Stalled(end, tx) && end.journal[tx].plan.work == plan.work
           && forall p :: At(end.parts, p, tx) == Filled(w.parts, tx, plan.order, p))
  {
    hide Base, PreparesAt, Filled, Going, Left, Ended, At, Executed, Begun, Blocked, Ranked, Lists;
    var at := AskedUpTo(w, tx, plan, |plan.order|);
    assert plan.order[..|plan.order|] == plan.order;
    FilledDecisions(w.parts, at.parts, tx, plan, plan.order);
    var next := at.(journal := at.journal[tx := at.journal[tx].(phase := Committing)], place := Commit(tx, 0, false));
    if !Begun(w.parts, tx) || Blocked(w.parts, tx, plan) {
      DecideStep(at);
      PlanAt(at, tx);
      SameRanked(plan, at.journal[tx].plan);
      if !Begun(w.parts, tx) {
        CommitsAll(next);
        SoundState(Ended(next), tx);
      } else {
        SameBlocked(at.parts, tx, plan, at.journal[tx].plan);
        BlockedCommit(next);
        assert Stalled(Ended(next), tx);
      }
    }
  }

  lemma SameBlocked(parts: map<string, Partition>, tx: string, plan: Plan, journalled: Plan)
    requires Ranked(plan) == Ranked(journalled)
    ensures Blocked(parts, tx, plan) == Blocked(parts, tx, journalled)
  {
    hide Ranked, At;
  }

  lemma DecideStep(w: World)
    requires Base(w) && w.place.Prepare? && w.place.i == |w.place.plan.order|
    requires Begun(w.parts, w.place.tx) ==> Blocked(w.parts, w.place.tx, w.place.plan)
    ensures Going(w)
    ensures var tx := w.place.tx;
      var next := w.(journal := w.journal[tx := w.journal[tx].(phase := Committing)], place := Commit(tx, 0, false));
      Base(next) && Going(next) && Ended(w) == Ended(next)
  {
    hide Base, Going, Left, Ended, PlanOk, Ranked, Begun, Blocked;
    BaseGoing(w);
    EndedStep(w);
    DecideBase(w);
  }

  /**
   * What a refused `execute` leaves reserved, exactly. While the abort had not been noted: whoever was prepared before
   * without being noted, and has not been asked. For an aborted transaction: whoever was prepared before, and whoever
   * the plan of this call reaches before the first refusal without having an entry.
   */
  lemma ReservedAfterRefusal(w: World, tx: string, plan: Plan, j: nat, p: string)
    requires Base(w) && Enabled(w, Execute(tx, plan)) && Resumes(w, tx, plan) && FirstRefusal(w.parts, tx, plan, j)
    ensures var end := Executed(w, tx, plan);
      && tx in end.journal && end.journal[tx].phase == (if Fresh(w, tx) then Undone else w.journal[tx].phase)
      && (At(end.parts, p, tx) == Some(Prepared) <==>
            if Fresh(w, tx) then At(w.parts, p, tx) == Some(Prepared) && p !in Noted(w, tx) && p !in plan.order[..j]
            else At(w.parts, p, tx) == Some(Prepared) || (p in plan.order[..j] && Seen(w.parts, p, tx).None?))
  {
    hide Base, PlanOk, Ended, Enabled, FirstRefusal, Executed;
    ExecuteRefused(w, tx, plan, j);
  }

  /** In the blocked case everyone in the plan who has not aborted is left reserved, under a decision to commit. */
  lemma ReservedWhenBlocked(w: World, tx: string, plan: Plan, p: string)
    requires Base(w) && Enabled(w, Execute(tx, plan)) && Resumes(w, tx, plan) && AllPrepare(w.parts, tx, plan, 0)
    requires Begun(w.parts, tx) && Blocked(w.parts, tx, plan)
    ensures var end := Executed(w, tx, plan);
      && Stalled(end, tx)
      && (At(end.parts, p, tx) == Some(Prepared) <==> p in plan.order && At(w.parts, p, tx) != Some(Aborted))
  {
    hide Base, Ended, Seen, Executed, AllPrepare, Begun, Blocked, Stalled, Lists, Ranked;
    ExecuteAccepted(w, tx, plan);
    assert tx in w.journal by {
      if tx !in w.journal {
        Unknown(w, tx);
      }
    }
    PlanAt(w, tx);
    SameRanked(plan, w.journal[tx].plan);
    EntriesInPlan(w, tx, p);
    var before := At(w.parts, p, tx);
    assert before.None? || before.value.Prepared? || before.value.Committed? || before.value.Aborted?;
  }

  /** Without a decision to commit every entry is prepared or aborted, and belongs to the plan. */
  lemma EntriesInPlan(w: World, tx: string, p: string)
    requires Base(w) && tx in w.journal && Begun(w.parts, tx)
    ensures At(w.parts, p, tx) != Some(Committed) || w.journal[tx].phase.Done?
    ensures At(w.parts, p, tx).Some? ==> p in w.journal[tx].plan.order
  {
    hide PartsOk, Known, Stands, Ranked, Begun, Blocked;
    var d := w.journal[tx];
    assert Sane(w.parts, tx, d);
    if Seen(w.parts, p, tx).Some? {
      assert Planned(d.plan, p, Seen(w.parts, p, tx).value.mutations);
    }
  }

  // ---------------------------------------------------------------- how long it stays reserved

  /** The coordinator has decided to commit, but the participant it asks first has aborted. */
  ghost predicate Stalled(w: World, tx: string) {
    && tx in w.journal && w.journal[tx].phase.Committing?
    && Begun(w.parts, tx) && Blocked(w.parts, tx, w.journal[tx].plan)
  }

  /** One transaction's journals are as they were. */
  ghost predicate SameEntries(w: World, w': World, tx: string) {
    && tx in w.journal && tx in w'.journal && w'.journal[tx] == w.journal[tx]
    && forall p :: Seen(w'.parts, p, tx) == Seen(w.parts, p, tx)
  }

  lemma SameStatuses(w: World, w': World, tx: string)
    requires SameEntries(w, w', tx)
    ensures Stalled(w', tx) == Stalled(w, tx)
    ensures forall p :: At(w'.parts, p, tx) == At(w.parts, p, tx)
  {
    hide Seen, Ranked, Begun, Blocked;
    forall p ensures At(w'.parts, p, tx) == At(w.parts, p, tx) {
      assert Seen(w'.parts, p, tx) == Seen(w.parts, p, tx);
    }
    SameStatus(w.parts, w'.parts, tx, w.journal[tx].plan);
  }

  /** A step of a call about one transaction touches nothing of another. */
  lemma WorkElsewhere(w: World, tx: string)
    requires Enabled(w, Work) && w.place.tx != tx && tx in w.journal
    ensures SameEntries(w, Advance(w), tx)
    ensures Advance(w).place.Idle? || Advance(w).place.tx == w.place.tx
  {
    hide Targets, Snapshot, Locked, ApplyAll, Ranked;
  }

  /** While an aborted transaction is not executed again, nothing changes its journals. */
  lemma StepElsewhere(w: World, step: Step, tx: string)
    requires Enabled(w, step) && (w.place.Idle? || w.place.tx != tx)
    requires tx in w.journal && w.journal[tx].phase.Undone? && !(step.Execute? && step.tx == tx)
    ensures var next := Next(w, step);
      SameEntries(w, next, tx) && (next.place.Idle? || next.place.tx != tx)
  {
    hide Placed, Locked, PlanOk, Overwrite, Advance;
    if step.Work? {
      EnabledBusy(w);
      WorkElsewhere(w, tx);
    }
  }

  /**
   * A reservation of an aborted transaction lasts: over any stretch of any run, with any recoveries and crashes, its
   * journals stay as they are until it is executed again.
   */
  lemma {:induction false} ReservationStays(states: seq<World>, steps: seq<Step>, n: nat, m: nat, tx: string)
    requires Run(states, steps) && n <= m <= |steps| && states[n].place.Idle?
    requires tx in states[n].journal && states[n].journal[tx].phase.Undone?
    requires forall k :: n <= k < m ==> !(steps[k].Execute? && steps[k].tx == tx)
    ensures SameEntries(states[n], states[m], tx)
    ensures states[m].place.Idle? || states[m].place.tx != tx
    decreases m
  {
    hide Enabled, Next, Seen;
    if n < m {
      ReservationStays(states, steps, n, m - 1, tx);
      StepElsewhere(states[m - 1], steps[m - 1], tx);
      assert states[m - 1 + 1] == Next(states[m - 1], steps[m - 1]);
    }
  }

  /** How many participants have been asked to commit. */
  function CommitsBefore(place: Place): nat {
    match place
    case Commit(_, i, _) => i
    case NoteCommitted(_, i, _) => i + 1
    case _ => 0
  }

  /** Where a call can stand about a stalled transaction. */
  lemma StalledPlace(w: World)
    requires Base(w) && !w.place.Idle? && Stalled(w, w.place.tx)
    ensures w.place.Prepare? || w.place.NotePrepared? || (w.place.Commit? && w.place.i == 0)
  {
    hide PartsOk, Sane, Known, Seen, Ranked, Begun, Blocked;
    var tx, d := w.place.tx, w.journal[w.place.tx];
    NothingNoted(w, tx);
    assert Stands(w.parts, w.place, d);
    FirstCommitted(w.parts, tx, Ranked(d.plan), CommitsBefore(w.place));
  }

  lemma FirstCommitted(parts: map<string, Partition>, tx: string, ranked: seq<string>, n: nat)
    requires n <= |ranked| && AllCommitted(parts, tx, ranked[..n])
    ensures n > 0 ==> At(parts, ranked[0], tx) == Some(Committed)
  {
    if n > 0 {
      assert ranked[..n][0] == ranked[0];
    }
  }

  lemma StalledWork(w: World)
    requires Base(w) && Enabled(w, Work) && !w.place.Idle? && Stalled(w, w.place.tx)
    ensures SameEntries(w, Advance(w), w.place.tx)
  {
    hide Base, Begun, Blocked, PlanOk;
    var tx, d := w.place.tx, w.journal[w.place.tx];
    StalledPlace(w);
    NothingNoted(w, tx);
    match w.place
    case Prepare(_, plan, i) =>
      if i < |plan.order| {
        StalledNoted(w);
        EntryPrepares(w, tx, plan, plan.order[i]);
        SameAnswer(w.parts, plan.order[i], tx, plan.work[plan.order[i]]);
      }
    case NotePrepared(_, plan, i) => StalledNoted(w);
    case Commit(_, _, _) =>
      FirstBlocked(w.parts, tx, d.plan);
      hide Ranked, Participant.Commit;
      CommitAsked(w, Ranked(d.plan)[0]);
  }

  /** Under a decision to commit whoever a call asks is noted, and has an entry. */
  lemma StalledNoted(w: World)
    requires Base(w) && (w.place.Prepare? || w.place.NotePrepared?) && w.place.i < |w.place.plan.order|
    requires w.place.tx in w.journal && AllNoted(w.journal[w.place.tx])
    ensures var p, tx := w.place.plan.order[w.place.i], w.place.tx;
      p in w.journal[tx].prepared && Seen(w.parts, p, tx).Some? && w.journal[tx].plan.work == w.place.plan.work
  {
    hide PartsOk, Known, Allows, PlanOk, Lists, Reached, AllNoted;
    var plan, d := w.place.plan, w.journal[w.place.tx];
    CallPlan(w);
    ReachedContent(plan, w.place.i, d);
    PlanAt(w, w.place.tx);
    PlanLists(w.parts.Keys, d.plan);
    NotedAlready(plan, w.place.i, d);
    assert Sane(w.parts, w.place.tx, d);
  }

  lemma PlanLists(parts: set<string>, plan: Plan)
    requires PlanOk(parts, plan)
    ensures Lists(plan)
  {
    hide Lists;
  }

  /** Asked again, a participant with an entry answers and changes nothing. */
  lemma SameAnswer(parts: map<string, Partition>, p: string, tx: string, ms: seq<Mutation>)
    requires Seen(parts, p, tx).Some?
    ensures Participant.Prepare(parts[p], tx, ms).Some? ==> Participant.Prepare(parts[p], tx, ms) == Some(parts[p])
    ensures parts[p := parts[p]] == parts
  {
  }

  lemma StalledStep(w: World, step: Step, tx: string)
    requires Base(w) && Enabled(w, step) && Stalled(w, tx)
    ensures SameEntries(w, Next(w, step), tx)
  {
    hide Base, Begun, Blocked, PlanOk, Overwrite, Advance, Placed, Locked;
    match step
    case Work =>
      EnabledBusy(w);
      if w.place.tx == tx {
        StalledWork(w);
      } else {
        WorkElsewhere(w, tx);
      }
    case _ =>
  }

  /**
   * A stalled transaction never gets any further: in every later state of a run without splitting calls its
   * participants are as they were, so whatever it has reserved stays reserved.
   */
  lemma {:induction false} StalledForEver(states: seq<World>, steps: seq<Step>, n: nat, m: nat, tx: string)
    requires Run(states, steps) && HarmlessRun(states, steps) && n <= m <= |steps| && Stalled(states[n], tx)
    ensures Stalled(states[m], tx) && SameEntries(states[n], states[m], tx)
    decreases m
  {
    hide Enabled, Next, Seen, Base, Harmless, Begun, Blocked;
    if n < m {
      StalledForEver(states, steps, n, m - 1, tx);
      SoundRun(states, steps, m - 1);
      StalledStep(states[m - 1], steps[m - 1], tx);
      assert states[m - 1 + 1] == Next(states[m - 1], steps[m - 1]);
      SameStatuses(states[m - 1], states[m], tx);
    }
  }

  // ---------------------------------------------------------------- recover

  ghost function Recovered(w: World, tx: string): (end: World)
    requires Base(w) && Enabled(w, Recover(tx))
    ensures end.place.Idle?
  {
    RecoverBase(w, tx);
    BaseGoing(Next(w, Recover(tx)));
    Ended(Next(w, Recover(tx)))
  }

  lemma {:induction false} EndedElsewhere(w: World, tx: string)
    requires Going(w) && (w.place.Idle? || w.place.tx != tx) && tx in w.journal
    ensures SameEntries(w, Ended(w), tx)
    decreases Left(w)
  {
    hide Going, Advance, Enabled, Left, Seen;
    if !w.place.Idle? {
      GoesOn(w);
      WorkElsewhere(w, tx);
      EndedElsewhere(Advance(w), tx);
    }
  }

  /** One entry of `recover`: it is decided if and only if it is not stalled, and nothing else changes. */
  lemma RecoverDecides(w: World, tx: string)
    requires Sound(w) && Enabled(w, Recover(tx))
    ensures var end := Recovered(w, tx);
      && Sound(end) && w.journal.Keys <= end.journal.Keys
      && end.journal[tx].phase == (if Stalled(w, tx) then Committing else Resolved(w.journal[tx].phase))
      && (Stalled(w, tx) ==> end == w)
      && forall t :: t in w.journal && t != tx ==> SameEntries(w, end, t)
  {
    hide Base, Begun, Blocked, Going, Left, Ended, SameEntries, Ranked, Seen;
    var w0, d := Next(w, Recover(tx)), w.journal[tx];
    RecoverBase(w, tx);
    RecoverSound(w, tx);
    BaseGoing(w0);
    EndedSound(w0);
    if d.phase.Committing? {
      if Stalled(w, tx) {
        BlockedCommit(w0);
        assert w0.(place := Idle) == w;
      } else {
        CommittingFree(w, tx);
        CommitsAll(w0);
      }
    } else if d.phase.Preparing? || d.phase.Aborting? {
      AbortsAll(w0);
    } else {
      EndedIdle(w0);
    }
    forall t | t in w.journal && t != tx ensures SameEntries(w, Ended(w0), t) && t in Ended(w0).journal {
      EndedElsewhere(w0, t);
      SameParts(w, w0, Ended(w0), t);
    }
  }

  lemma SameParts(w: World, w0: World, end: World, t: string)
    requires t in w.journal && w0.parts == w.parts && w0.journal == w.journal && SameEntries(w0, end, t)
    ensures SameEntries(w, end, t) && t in end.journal
  {
  }

  lemma CommittingFree(w: World, tx: string)
    requires Base(w) && tx in w.journal && w.journal[tx].phase.Committing? && !Stalled(w, tx)
    ensures !Begun(w.parts, tx)
  {
    hide PartsOk, PlanOk, Ranked, Follows, Begun, Blocked, Known, Seen, Stands;
    assert Sane(w.parts, tx, w.journal[tx]);
  }

  /** The loop of `recover` over the journal: a commit that is refused ends it. */
  ghost function Swept(w: World, todo: seq<string>): World
    requires Sound(w) && w.place.Idle? && forall t :: t in todo ==> t in w.journal
    decreases |todo|
  {
    if todo == [] then w
    else
      RecoverDecides(w, todo[0]);
      var next := Recovered(w, todo[0]);
      if next.journal[todo[0]].phase.Committing? then next else Swept(next, todo[1..])
  }

  ghost predicate Once(todo: seq<string>) {
    forall i, j :: 0 <= i < j < |todo| ==> todo[i] != todo[j]
  }

  lemma {:induction false} SweptElsewhere(w: World, todo: seq<string>, t: string)
    requires Sound(w) && w.place.Idle? && forall u :: u in todo ==> u in w.journal
    requires t in w.journal && t !in todo
    ensures SameEntries(w, Swept(w, todo), t)
    decreases |todo|
  {
    hide Base, Cautious, Recovered, Seen;
    if todo != [] {
      RecoverDecides(w, todo[0]);
      var next := Recovered(w, todo[0]);
      if !next.journal[todo[0]].phase.Committing? {
        SweptElsewhere(next, todo[1..], t);
      }
    }
  }

  /**
   * What `recover` without a crash decides, exactly: the transactions before the first stalled one in the order of the
   * journal; it stops there, and that one and all after it stay as they were.
   */
  lemma {:induction false} RecoverReaches(w: World, todo: seq<string>, k: nat)
    requires Sound(w) && w.place.Idle? && Once(todo) && k < |todo| && forall t :: t in todo ==> t in w.journal
    ensures var end := Swept(w, todo);
      && todo[k] in end.journal
      && end.journal[todo[k]].phase ==
           if exists i :: 0 <= i <= k && Stalled(w, todo[i]) then w.journal[todo[k]].phase
           else Resolved(w.journal[todo[k]].phase)
    decreases |todo|
  {
    hide Base, Cautious, Recovered, Stalled, SameEntries;
    RecoverDecides(w, todo[0]);
    if Stalled(w, todo[0]) {
      StalledPhase(w, todo[0]);
    } else {
      var next, rest := Recovered(w, todo[0]), todo[1..];
      ResolvedDecided(w.journal[todo[0]].phase);
      assert forall i :: 0 <= i < |rest| ==> rest[i] == todo[i + 1];
      forall i | 0 <= i < |rest| ensures Stalled(next, rest[i]) == Stalled(w, todo[i + 1]) {
        SameStatuses(w, next, todo[i + 1]);
      }
      if k == 0 {
        SweptElsewhere(next, rest, todo[0]);
        SameDecision(next, Swept(next, rest), todo[0]);
      } else {
        RecoverReaches(next, rest, k - 1);
        SameDecision(w, next, todo[k]);
        ShiftedStall(w, next, todo, k);
      }
    }
  }

  lemma ShiftedStall(w: World, next: World, todo: seq<string>, k: nat)
    requires 0 < k < |todo| && !Stalled(w, todo[0])
    requires forall i :: 0 <= i < |todo| - 1 ==> todo[1..][i] == todo[i + 1]
    requires forall i :: 0 <= i < |todo| - 1 ==> Stalled(next, todo[1..][i]) == Stalled(w, todo[i + 1])
    ensures (exists i :: 0 <= i <= k && Stalled(w, todo[i])) <==>
      exists i :: 0 <= i <= k - 1 && Stalled(next, todo[1..][i])
  {
    hide Stalled;
    if i :| 0 <= i <= k && Stalled(w, todo[i]) {
      assert Stalled(next, todo[1..][i - 1]);
    }
    if i :| 0 <= i <= k - 1 && Stalled(next, todo[1..][i]) {
      assert Stalled(w, todo[i + 1]);
    }
  }

  lemma SameDecision(w: World, w': World, t: string)
    requires SameEntries(w, w', t)
    ensures t in w.journal && t in w'.journal && w'.journal[t] == w.journal[t]
  {
  }

  lemma StalledPhase(w: World, tx: string)
    requires Stalled(w, tx)
    ensures tx in w.journal && w.journal[tx].phase.Committing?
  {
  }

  lemma ResolvedDecided(phase: Phase)
    ensures !Resolved(phase).Committing?
  {
  }

  // ---------------------------------------------------------------- two participants left reserved

  /** Some run without splitting calls leads to w. */
  ghost predicate Arrives(w: World) {
    exists states, steps :: Run(states, steps) && HarmlessRun(states, steps) && states[|steps|] == w
  }

  lemma Begins(w: World)
    requires Initial(w)
    ensures Arrives(w)
  {
    hide Initial;
    assert Run([w], []) && HarmlessRun([w], []);
  }

  lemma GoesTo(w: World, step: Step)
    requires Arrives(w) && Enabled(w, step) && Harmless(w, step)
    ensures Arrives(Next(w, step))
  {
    hide Next, Enabled, Initial, Harmless;
    var states, steps :| Run(states, steps) && HarmlessRun(states, steps) && states[|steps|] == w;
    var states', steps' := states + [Next(w, step)], steps + [step];
    forall i | 0 <= i < |steps'|
      ensures Enabled(states'[i], steps'[i]) && states'[i + 1] == Next(states'[i], steps'[i])
      ensures Harmless(states'[i], steps'[i])
    {
      assert i < |steps| ==> states'[i] == states[i] && states'[i + 1] == states[i + 1] && steps'[i] == steps[i];
    }
    assert Run(states', steps') && HarmlessRun(states', steps') && states'[|steps'|] == Next(w, step);
  }

  lemma WorksTo(w: World)
    requires Arrives(w) && Enabled(w, Work)
    ensures Arrives(Advance(w))
  {
    hide Arrives, Enabled, Advance;
    GoesTo(w, Work);
    NextWork(w);
  }

  lemma {:induction false} EndsAt(w: World)
    requires Arrives(w) && Going(w)
    ensures Arrives(Ended(w))
    decreases Left(w)
  {
    hide Arrives, Going, Advance, Enabled, Left;
    if !w.place.Idle? {
      GoesOn(w);
      WorksTo(w);
      EndsAt(Advance(w));
    }
  }

  lemma ArrivedSound(w: World)
    requires Arrives(w)
    ensures Sound(w)
  {
    hide Sound, Enabled, Next, Initial;
    var states, steps :| Run(states, steps) && HarmlessRun(states, steps) && states[|steps|] == w;
    SoundRun(states, steps, |steps|);
  }

  /** A new transaction whose first participant has prepared. */
  lemma FirstPrepared(w: World, tx: string, plan: Plan, part: Partition)
    requires Arrives(w) && w.place.Idle? && tx !in w.journal && PlanOk(w.parts.Keys, plan)
    requires plan.order[0] in w.parts && plan.order[0] in plan.work
    requires Participant.Prepare(w.parts[plan.order[0]], tx, plan.work[plan.order[0]]) == Some(part)
    ensures Arrives(World(w.parts[plan.order[0] := part], w.journal[tx := Decision(Preparing, plan, [], [])],
                          NotePrepared(tx, plan, 0)))
  {
    hide Arrives, Participant.Prepare, Ranked;
    GoesTo(w, Execute(tx, plan));
    WorksTo(Next(w, Execute(tx, plan)));
  }

  /** The process stops there: recovery finds nobody to abort and the participant stays prepared. */
  lemma LeftPrepared(w: World, tx: string, plan: Plan, part: Partition)
    requires Arrives(w) && w.place.Idle? && tx !in w.journal && PlanOk(w.parts.Keys, plan)
    requires plan.order[0] in w.parts && plan.order[0] in plan.work
    requires Participant.Prepare(w.parts[plan.order[0]], tx, plan.work[plan.order[0]]) == Some(part)
    ensures Arrives(World(w.parts[plan.order[0] := part], w.journal[tx := Decision(Undone, plan, [], [])], Idle))
  {
    FirstPrepared(w, tx, plan, part);
    hide *;
    var d := Decision(Preparing, plan, [], []);
    var w1 := World(w.parts[plan.order[0] := part], w.journal[tx := d], NotePrepared(tx, plan, 0));
    StopAndRecover(w1, tx);
    NobodyNoted(w1.(place := Abort(tx, 0)), tx);
    WorksTo(w1.(place := Abort(tx, 0)));
    assert w.journal[tx := d][tx := d.(phase := Undone)] == w.journal[tx := d.(phase := Undone)];
  }

  lemma NobodyNoted(w: World, tx: string)
    requires w.place == Abort(tx, 0) && tx in w.journal && w.journal[tx].prepared == []
    ensures Enabled(w, Work)
    ensures Advance(w) == w.(journal := w.journal[tx := w.journal[tx].(phase := Undone)], place := Idle)
  {
    hide Ranked;
  }

  /** The coordinator notes the first answer. */
  lemma NoteFirst(w: World, tx: string, plan: Plan)
    requires w.place == NotePrepared(tx, plan, 0) && tx in w.journal && plan.order != []
    requires w.journal[tx] == Decision(Preparing, plan, [], [])
    ensures Enabled(w, Work)
    ensures Advance(w) ==
      w.(journal := w.journal[tx := Decision(Preparing, plan, [plan.order[0]], [])], place := Prepare(tx, plan, 1))
  {
    hide Ranked;
    assert Add([], plan.order[0]) == [plan.order[0]];
  }

  /** Recovery aborts at the only participant noted. */
  lemma AbortFirst(w: World, tx: string, plan: Plan)
    requires w.place == Abort(tx, 0) && tx in w.journal && plan.order != [] && plan.order[0] in w.parts
    requires w.journal[tx] == Decision(Preparing, plan, [plan.order[0]], [])
    ensures Enabled(w, Work)
    ensures var p := plan.order[0];
      var w' := w.(parts := w.parts[p := Participant.Abort(w.parts[p], tx)], place := Abort(tx, 1));
      Advance(w) == w' && Enabled(w', Work)
      && Advance(w') == w'.(journal := w.journal[tx := Decision(Undone, plan, [p], [])], place := Idle)
  {
    hide Ranked, Participant.Abort;
  }

  /** The process stops after noting the answer: recovery aborts at that participant. */
  lemma FirstAborted(w: World, tx: string, plan: Plan, part: Partition)
    requires Arrives(w) && w.place.Idle? && tx !in w.journal && PlanOk(w.parts.Keys, plan)
    requires plan.order[0] in w.parts && plan.order[0] in plan.work
    requires Participant.Prepare(w.parts[plan.order[0]], tx, plan.work[plan.order[0]]) == Some(part)
    ensures Arrives(World(w.parts[plan.order[0] := Participant.Abort(part, tx)],
                          w.journal[tx := Decision(Undone, plan, [plan.order[0]], [])], Idle))
  {
    FirstPrepared(w, tx, plan, part);
    var p, d, d2 := plan.order[0], Decision(Preparing, plan, [], []), Decision(Preparing, plan, [plan.order[0]], []);
    hide *;
    var w1 := World(w.parts[p := part], w.journal[tx := d], NotePrepared(tx, plan, 0));
    NoteFirst(w1, tx, plan);
    WorksTo(w1);
    assert w.journal[tx := d][tx := d2] == w.journal[tx := d2];
    var w2 := World(w.parts[p := part], w.journal[tx := d2], Prepare(tx, plan, 1));
    StopAndRecover(w2, tx);
    var w3 := w2.(place := Abort(tx, 0));
    AbortFirst(w3, tx, plan);
    WorksTo(w3);
    WorksTo(Advance(w3));
    assert w.parts[p := part][p := Participant.Abort(part, tx)] == w.parts[p := Participant.Abort(part, tx)];
    assert w.journal[tx := d2][tx := d2.(phase := Undone)] == w.journal[tx := d2.(phase := Undone)];
  }

  lemma StopAndRecover(w: World, tx: string)
    requires Arrives(w) && tx in w.journal && w.journal[tx].phase.Preparing?
    ensures Arrives(w.(place := Abort(tx, 0)))
  {
    hide Arrives;
    GoesTo(w, Crash);
    GoesTo(w.(place := Idle), Recover(tx));
  }

  const RESERVED: seq<Mutation> := [Put("c", Json.Record("r", map[]))]
  const SHORT := Plan(["e"], map["e" := RESERVED])
  const LONG := Plan(["a", "b", "c", "e"], map["a" := RESERVED, "b" := RESERVED, "c" := RESERVED, "e" := RESERVED])

  function Holds(tx: string, status: Status): Partition {
    Partition(map[], map[tx := Participant.Entry(status, RESERVED, map[Json.Key("c", "r") := None])])
  }

  lemma OneRecord()
    ensures Targets(RESERVED) == {Json.Key("c", "r")} && MutationsOk(RESERVED)
    ensures forall tx :: Participant.Prepare(Partition(map[], map[]), tx, RESERVED) == Some(Holds(tx, Prepared))
    ensures Participant.Abort(Holds("t", Prepared), "t") == Holds("t", Aborted)
    ensures Participant.Prepare(Holds("t", Aborted), "t", RESERVED).Some?
    ensures Participant.Prepare(Holds("u", Prepared), "t", RESERVED).None?
  {
    var k := Json.Key("c", "r");
    assert RESERVED[0].Target() == k;
    assert Targets(RESERVED) == {k};
    assert Snapshot(map[], {k}) == map[k := None];
    assert Locked(Holds("u", Prepared), Some("t"), k) by { assert "u" in Holds("u", Prepared).txs; }
    var e := Holds("t", Prepared).txs["t"];
    assert map["t" := e]["t" := e.(status := Aborted)] == map["t" := e.(status := Aborted)];
    forall tx ensures Participant.Prepare(Partition(map[], map[]), tx, RESERVED) == Some(Holds(tx, Prepared)) {
      assert forall x :: !Locked(Partition(map[], map[]), Some(tx), x);
    }
  }

  lemma Plans(parts: set<string>)
    requires parts == {"a", "b", "c", "e"}
    ensures PlanOk(parts, SHORT) && PlanOk(parts, LONG)
  {
    OneRecord();
    hide MutationsOk;
    assert SHORT.order[0] == "e";
    LongLists();
  }

  lemma LongLists()
    ensures Lists(LONG)
  {
    assert LONG.order[0] == "a" && LONG.order[1] == "b" && LONG.order[2] == "c" && LONG.order[3] == "e";
  }

  function Apart(a: Partition, e: Partition): map<string, Partition> {
    map["a" := a, "b" := Partition(map[], map[]), "c" := Partition(map[], map[]), "e" := e]
  }

  lemma ApartMaps(a: Partition, e: Partition)
    ensures var parts := Apart(a, e);
      && parts.Keys == {"a", "b", "c", "e"} && parts["a"] == a && parts["e"] == e
      && (forall p: Partition {:trigger parts["a" := p]} :: parts["a" := p] == Apart(p, e))
      && (forall p: Partition {:trigger parts["e" := p]} :: parts["e" := p] == Apart(a, p))
  {
  }

  /** a has aborted t, and e is still prepared for u. */
  lemma AbortedAtA() returns (w: World)
    ensures Arrives(w) && w.parts == Apart(Holds("t", Aborted), Holds("u", Prepared)) && w.place.Idle?
    ensures "t" in w.journal && w.journal["t"] == Decision(Undone, LONG, ["a"], [])
  {
    hide Participant.Prepare, Participant.Abort, Holds, Apart, PlanOk, Ranked, Arrives, Initial, Targets, MutationsOk;
    OneRecord();
    Plans({"a", "b", "c", "e"});
    var none := Partition(map[], map[]);
    var w0 := World(Apart(none, none), map[], Idle);
    ApartMaps(none, none);
    Empty(w0);
    Begins(w0);
    LeftPrepared(w0, "u", SHORT, Holds("u", Prepared));
    var w1 := World(Apart(none, Holds("u", Prepared)), map["u" := Decision(Undone, SHORT, [], [])], Idle);
    ApartMaps(none, Holds("u", Prepared));
    FirstAborted(w1, "t", LONG, Holds("t", Prepared));
    w := World(Apart(Holds("t", Aborted), Holds("u", Prepared)), w1.journal["t" := Decision(Undone, LONG, ["a"], [])],
      Idle);
  }

  /**
   * Executed again, an aborted transaction may leave more than one participant reserved: a has aborted, b and c
   * prepare, e holds the record for another transaction and refuses. Nothing of it splits, and `recover` changes
   * nothing.
   */
  lemma TwoReserved() returns (w: World)
    ensures Arrives(w) && w.place.Idle? && "t" in w.journal && w.journal["t"].phase.Undone?
    ensures At(w.parts, "b", "t") == Some(Prepared) && At(w.parts, "c", "t") == Some(Prepared)
    ensures Enabled(w, Recover("t")) && Next(w, Recover("t")) == w
  {
    hide Participant.Prepare, Holds, PlanOk, Ranked, Arrives, Base, Executed, Seen, PreparesAt, Begun, Blocked, Apart,
      AllPrepare, Next;
    Plans({"a", "b", "c", "e"});
    var w0 := AbortedAtA();
    ApartMaps(Holds("t", Aborted), Holds("u", Prepared));
    Submits(w0);
    ArrivedSound(w0);
    RefusedAtE(w0);
    w := Executed(w0, "t", LONG);
    ArrivesExecuted(w0, "t", LONG);
    ReservedAfterRefusal(w0, "t", LONG, 3, "b");
    ReservedAfterRefusal(w0, "t", LONG, 3, "c");
    assert LONG.order[..3][1] == "b" && LONG.order[..3][2] == "c";
    NothingToRecover(w);
  }

  lemma NothingToRecover(w: World)
    requires w.place.Idle? && "t" in w.journal && w.journal["t"].phase.Undone?
    ensures Enabled(w, Recover("t")) && Next(w, Recover("t")) == w
  {
  }

  lemma Submits(w: World)
    requires w.place.Idle? && PlanOk(w.parts.Keys, LONG) && w.parts == Apart(Holds("t", Aborted), Holds("u", Prepared))
    ensures Enabled(w, Execute("t", LONG)) && Harmless(w, Execute("t", LONG))
  {
    hide PlanOk, Ranked, Holds, Apart, Begun, Blocked, PreparesAt;
    RefusedAtE(w);
  }

  lemma Empty(w: World)
    requires w == World(Apart(Partition(map[], map[]), Partition(map[], map[])), map[], Idle)
    ensures Initial(w)
  {
  }

  lemma RefusedAtE(w: World)
    requires w.parts == Apart(Holds("t", Aborted), Holds("u", Prepared))
    ensures FirstRefusal(w.parts, "t", LONG, 3)
    ensures Seen(w.parts, "b", "t").None? && Seen(w.parts, "c", "t").None?
  {
    hide Participant.Prepare, Holds;
    OneRecord();
    assert LONG.order[0] == "a" && LONG.order[1] == "b" && LONG.order[2] == "c" && LONG.order[3] == "e";
  }

  lemma ArrivesExecuted(w: World, tx: string, plan: Plan)
    requires Arrives(w) && Sound(w) && Enabled(w, Execute(tx, plan)) && Harmless(w, Execute(tx, plan))
    ensures Arrives(Executed(w, tx, plan))
  {
    hide Base, Enabled, Next, Harmless, Going, Arrives, Ended, Left;
    ExecuteBase(w, tx, plan);
    BaseGoing(Next(w, Execute(tx, plan)));
    GoesTo(w, Execute(tx, plan));
    EndsAt(Next(w, Execute(tx, plan)));
  }
}
