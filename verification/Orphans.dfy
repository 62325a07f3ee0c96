/**
 * What the two-phase commit of src/distributed.js leaves reserved after a crash: exactly which participants of an
 * aborted transaction stay prepared, and how many.
 */
module Orphans {
  import opened Basics
  import opened Participant
  import opened Distributed
  import opened Reexecution
  import opened Outcomes
  import opened Atomicity

  /**
   * Reservations after recovery, exactly: once an abort is done a participant is still prepared if and only if it had
   * prepared and the coordinator has not noted it.
   */
  lemma OrphanIff(states: seq<World>, steps: seq<Step>, n: nat, tx: string, p: string)
    requires Run(states, steps) && RespectfulRun(states, steps) && n <= |steps|
    requires tx in states[n].journal && states[n].journal[tx].phase.Undone?
    ensures var w := states[n];
      At(w.parts, p, tx) == Some(Prepared) <==> Seen(w.parts, p, tx).Some? && p !in w.journal[tx].prepared
  {
    hide RespectfulRun, Enabled, Next, Initial, PartsOk, PlaceOk, Known;
    InvRun(states, steps, n);
    var w := states[n];
    assert DecisionOk(w.parts, tx, w.journal[tx]);
    UndoneStatus(w.parts, tx, w.journal[tx], p);
  }

  lemma UndoneStatus(parts: map<string, Partition>, tx: string, d: Decision, p: string)
    requires DecisionOk(parts, tx, d) && d.phase.Undone?
    ensures At(parts, p, tx) == Some(Prepared) <==> Seen(parts, p, tx).Some? && p !in d.prepared
  {
    hide PlanOk, Seen;
    if Seen(parts, p, tx).Some? {
      assert p in d.prepared <==> At(parts, p, tx) == Some(Aborted);
      assert At(parts, p, tx) != Some(Committed);
      var status := At(parts, p, tx).value;
      assert status == Prepared || status == Committed || status == Aborted;
    }
  }

  // ---------------------------------------------------------------- one orphan for each lost note

  /** Participants with an entry that the coordinator has not noted. */
  function Unnoted(w: World, tx: string): set<string> {
    set p | p in w.parts && Seen(w.parts, p, tx).Some? && p !in Noted(w, tx)
  }

  /** The running call has just asked a participant of tx and is about to note its answer. */
  ghost predicate AboutToNote(w: World, tx: string) {
    w.place.NotePrepared? && w.place.tx == tx && w.place.i < |w.place.plan.order|
  }

  /** Those whose note is not about to be written. */
  ghost function Lost(w: World, tx: string): set<string> {
    if AboutToNote(w, tx) then Unnoted(w, tx) - {w.place.plan.order[w.place.i]} else Unnoted(w, tx)
  }

  /** How many of the first n steps stopped the process between the answer of a participant of tx and its note. */
  ghost function Interruptions(states: seq<World>, steps: seq<Step>, n: nat, tx: string): nat
    requires Run(states, steps) && n <= |steps|
  {
    if n == 0 then 0
    else
      Interruptions(states, steps, n - 1, tx) +
      if steps[n - 1].Crash? && AboutToNote(states[n - 1], tx) then 1 else 0
  }

  lemma SmallerSet(a: set<string>, b: set<string>)
    requires a <= b
    ensures |a| <= |b|
  {
    if a != {} {
      var x :| x in a;
      SmallerSet(a - {x}, b - {x});
    }
  }

  /** Only such a crash loses a note, and then one. */
  lemma LostStep(w: World, step: Step, tx: string)
    requires Enabled(w, step)
    ensures step.Crash? && AboutToNote(w, tx) ==>
      Lost(Next(w, step), tx) <= Lost(w, tx) + {w.place.plan.order[w.place.i]}
    ensures !(step.Crash? && AboutToNote(w, tx)) ==> Lost(Next(w, step), tx) <= Lost(w, tx)
  {
    hide PlanOk, Locked, Overwrite, Ranked;
    match step
    case Work => LostWork(w, tx);
    case _ =>
  }

  lemma LostWork(w: World, tx: string)
    requires Enabled(w, Work)
    ensures Lost(Advance(w), tx) <= Lost(w, tx)
  {
    hide Targets, Snapshot, Locked, ApplyAll, Ranked;
  }

  /** No more notes are lost than calls were interrupted there: over every run. */
  lemma {:induction false} LostRun(states: seq<World>, steps: seq<Step>, n: nat, tx: string)
    requires Run(states, steps) && n <= |steps|
    ensures |Lost(states[n], tx)| <= Interruptions(states, steps, n, tx)
  {
    hide Enabled, Next, Seen;
    if n == 0 {
      NobodySeen(states[0], tx);
    } else {
      LostRun(states, steps, n - 1, tx);
      var w, w' := states[n - 1], states[n - 1 + 1];
      LostStep(w, steps[n - 1], tx);
      if steps[n - 1].Crash? && AboutToNote(w, tx) {
        SmallerSet(Lost(w', tx), Lost(w, tx) + {w.place.plan.order[w.place.i]});
      } else {
        SmallerSet(Lost(w', tx), Lost(w, tx));
      }
    }
  }

  lemma NobodySeen(w: World, tx: string)
    requires Initial(w)
    ensures Lost(w, tx) == {}
  {
  }

  /** Those of tx that are still prepared. */
  function StillReserved(w: World, tx: string): set<string> {
    set p | p in w.parts && At(w.parts, p, tx) == Some(Prepared)
  }

  /**
   * An aborted transaction leaves at most one participant reserved for each call that was stopped between a
   * participant's answer and its note.
   */
  lemma OrphanPerInterruption(states: seq<World>, steps: seq<Step>, n: nat, tx: string)
    requires Run(states, steps) && RespectfulRun(states, steps) && n <= |steps|
    requires tx in states[n].journal && states[n].journal[tx].phase.Undone?
    ensures |StillReserved(states[n], tx)| <= Interruptions(states, steps, n, tx)
  {
    hide RespectfulRun, Enabled, Next, Initial, At, Seen, Inv;
    var w := states[n];
    InvRun(states, steps, n);
    UndoneIdle(w, tx);
    forall p | p in StillReserved(w, tx) ensures p in Lost(w, tx) {
      OrphanIff(states, steps, n, tx, p);
    }
    LostRun(states, steps, n, tx);
    SmallerSet(StillReserved(w, tx), Lost(w, tx));
  }

  lemma UndoneIdle(w: World, tx: string)
    requires Inv(w) && tx in w.journal && w.journal[tx].phase.Undone?
    ensures !AboutToNote(w, tx)
  {
    hide PartsOk, DecisionOk, Known, Seen, Reached, Begun;
  }

  // ---------------------------------------------------------------- one orphan when the order is kept

  /** The caller's care: every submission of tx lists the participants in this order. */
  ghost predicate KeepsOrder(steps: seq<Step>, tx: string, order: seq<string>) {
    forall i :: 0 <= i < |steps| && steps[i].Execute? && steps[i].tx == tx ==> steps[i].plan.order == order
  }

  /** p is the next participant after those noted. */
  ghost predicate IsNext(d: Decision, order: seq<string>, p: string) {
    |d.prepared| < |order| && p == order[|d.prepared|]
  }

  /** Then the participants are noted in this order, and only the next one can have an entry without being noted. */
  ghost predicate InTurn(w: World, tx: string, order: seq<string>) {
    && (tx in w.journal ==> var d := w.journal[tx];
         && |d.prepared| <= |order| && d.prepared == order[..|d.prepared|]
         && forall p :: Seen(w.parts, p, tx).Some? ==> p in d.prepared || IsNext(d, order, p))
    && ((w.place.Prepare? || w.place.NotePrepared?) && w.place.tx == tx && tx in w.journal ==>
         w.place.plan.order == order && w.place.i <= |w.journal[tx].prepared|)
  }

  lemma InTurnStep(w: World, step: Step, tx: string, order: seq<string>)
    requires Base(w) && InTurn(w, tx, order) && Enabled(w, step)
    requires step.Execute? && step.tx == tx ==> step.plan.order == order
    ensures InTurn(Next(w, step), tx, order)
  {
    hide Base, PlanOk, Locked, Overwrite, Ranked, Advance, Placed;
    match step
    case Execute(t, _) =>
      if tx !in w.journal {
        NoEntry(w, tx);
      }
    case Work =>
      EnabledBusy(w);
      InTurnWork(w, tx, order);
    case _ =>
  }

  lemma NoEntry(w: World, tx: string)
    requires Base(w) && tx !in w.journal
    ensures forall p :: Seen(w.parts, p, tx).None?
  {
    hide PartsOk, Sane, Stands, Seen;
  }

  lemma InTurnWork(w: World, tx: string, order: seq<string>)
    requires Base(w) && InTurn(w, tx, order) && Enabled(w, Work)
    ensures InTurn(Advance(w), tx, order)
  {
    hide Base, PlanOk, Ranked, Targets, Snapshot, Locked, ApplyAll;
    if w.place.tx != tx {
      InTurnElsewhere(w, tx, order);
    } else if w.place.NotePrepared? {
      CallPlan(w);
      PlanLists(w.parts.Keys, w.place.plan);
      NoteInTurn(w, tx, order);
    } else if w.place.Prepare? {
      CallPlan(w);
      AskInTurn(w, tx, order);
    } else {
      OthersInTurn(w, tx, order);
    }
  }

  lemma InTurnElsewhere(w: World, tx: string, order: seq<string>)
    requires InTurn(w, tx, order) && Enabled(w, Work) && w.place.tx != tx
    ensures InTurn(Advance(w), tx, order)
  {
    hide Targets, Snapshot, Locked, ApplyAll, Ranked, PlanOk;
  }

  lemma OthersInTurn(w: World, tx: string, order: seq<string>)
    requires InTurn(w, tx, order) && Enabled(w, Work) && (w.place.Commit? || w.place.NoteCommitted? || w.place.Abort?)
    ensures InTurn(Advance(w), tx, order)
  {
    hide Targets, Snapshot, Locked, ApplyAll, Ranked, PlanOk;
  }

  lemma AskInTurn(w: World, tx: string, order: seq<string>)
    requires InTurn(w, tx, order) && Enabled(w, Work) && w.place.Prepare? && w.place.tx == tx
    requires Reached(w.place.plan, w.place.i, w.journal[tx])
    ensures InTurn(Advance(w), tx, order)
  {
    hide Targets, Snapshot, Locked, Ranked, PlanOk, SameContent;
    var d := w.journal[tx];
    if w.place.i < |d.prepared| {
      assert order[w.place.i] == d.prepared[w.place.i];
    }
  }

  lemma NoteInTurn(w: World, tx: string, order: seq<string>)
    requires InTurn(w, tx, order) && Enabled(w, Work) && w.place.NotePrepared? && w.place.tx == tx
    requires Lists(w.place.plan)
    ensures InTurn(Advance(w), tx, order)
  {
    hide Seen, Ranked, PlanOk;
    var d, i := w.journal[tx], w.place.i;
    if i < |d.prepared| {
      assert order[i] == d.prepared[i];
    } else {
      assert order[i] !in order[..i];
      assert order[..i + 1] == d.prepared + [order[i]];
      assert order[i] in order[..i + 1] by { assert order[..i + 1][i] == order[i]; }
    }
  }

  lemma {:induction false} InTurnRun(states: seq<World>, steps: seq<Step>, n: nat, tx: string, order: seq<string>)
    requires Run(states, steps) && HarmlessRun(states, steps) && KeepsOrder(steps, tx, order) && n <= |steps|
    ensures InTurn(states[n], tx, order)
  {
    hide Enabled, Next, Base, InTurn, HarmlessRun;
    if n == 0 {
      InTurnInitial(states[0], tx, order);
    } else {
      InTurnRun(states, steps, n - 1, tx, order);
      SoundRun(states, steps, n - 1);
      InTurnStep(states[n - 1], steps[n - 1], tx, order);
    }
  }

  lemma InTurnInitial(w: World, tx: string, order: seq<string>)
    requires Initial(w)
    ensures InTurn(w, tx, order)
  {
  }

  /**
   * When every submission of a transaction lists its participants in the same order, its abort leaves at most one of
   * them prepared, whatever number of calls were interrupted: the next one in that order after those noted.
   */
  lemma OneOrphan(states: seq<World>, steps: seq<Step>, n: nat, tx: string, order: seq<string>, p: string)
    requires Run(states, steps) && RespectfulRun(states, steps) && n <= |steps| && KeepsOrder(steps, tx, order)
    requires tx in states[n].journal && states[n].journal[tx].phase.Undone?
    ensures At(states[n].parts, p, tx) == Some(Prepared) ==> IsNext(states[n].journal[tx], order, p)
  {
    hide RespectfulRun, HarmlessRun, KeepsOrder, Enabled, Next, Initial, At, Seen;
    RespectfulRunIsHarmless(states, steps);
    InTurnRun(states, steps, n, tx, order);
    OrphanIff(states, steps, n, tx, p);
  }

  // ---------------------------------------------------------------- runs that leave one, and two

  /** Some run in which the caller keeps its duty leads to w. */
  ghost predicate Leads(w: World) {
    exists states, steps :: Run(states, steps) && RespectfulRun(states, steps) && states[|steps|] == w
  }

  lemma LeadsOn(w: World, step: Step, next: World)
    requires Leads(w) && Enabled(w, step) && Respectful(w, step) && next == Next(w, step)
    ensures Leads(next)
  {
    hide Next, Enabled, Initial, Respectful;
    var states, steps :| Run(states, steps) && RespectfulRun(states, steps) && states[|steps|] == w;
    var states', steps' := states + [next], steps + [step];
    forall i | 0 <= i < |steps'|
      ensures Enabled(states'[i], steps'[i]) && states'[i + 1] == Next(states'[i], steps'[i])
      ensures Respectful(states'[i], steps'[i])
    {
      assert i < |steps| ==> states'[i] == states[i] && states'[i + 1] == states[i + 1];
    }
    assert Run(states', steps') && RespectfulRun(states', steps') && states'[|steps'|] == next;
  }

  /** z has prepared and the process stops before the coordinator notes it. */
  lemma StoppedAfterZ()
    ensures Leads(Both(Partition(map[], map[]), Part(Prepared), Preparing, [], Idle))
  {
    hide Ranked, PlanOk, Part, Advance, Leads, Participant.Prepare, Initial, Begun;
    Parts();
    var blank, held := Partition(map[], map[]), Part(Prepared);
    var w0 := World(map["a" := blank, "z" := blank], map[], Idle);
    Blank(w0);
    assert Leads(w0) by { SetsOut(w0); }
    Submit(w0, blank);
    LeadsOn(w0, Execute("t", PLAN), Both(blank, blank, Preparing, [], Prepare("t", PLAN, 0)));
    Answer(blank, blank, Preparing, [], false, 0, held);
    LeadsOn(Both(blank, blank, Preparing, [], Prepare("t", PLAN, 0)), Work,
            Both(blank, held, Preparing, [], NotePrepared("t", PLAN, 0)));
    LeadsOn(Both(blank, held, Preparing, [], NotePrepared("t", PLAN, 0)), Crash,
            Both(blank, held, Preparing, [], Idle));
  }

  lemma SetsOut(w: World)
    requires Initial(w)
    ensures Leads(w)
  {
    hide Initial;
    assert Run([w], []) && RespectfulRun([w], []);
  }

  /** Recovery finds nobody to abort and calls the transaction aborted. */
  lemma RecoversNobody(a: Partition, z: Partition)
    requires Leads(Both(a, z, Preparing, [], Idle))
    ensures Leads(Both(a, z, Undone, [], Idle))
  {
    hide Ranked, PlanOk, Leads;
    LeadsOn(Both(a, z, Preparing, [], Idle), Recover("t"), Both(a, z, Preparing, [], Abort("t", 0)));
    LeadsOn(Both(a, z, Preparing, [], Abort("t", 0)), Work, Both(a, z, Undone, [], Idle));
  }

  /**
   * An orphan: the process stops after z has prepared and before the coordinator has noted it. Recovery finds nobody to
   * abort, calls the transaction aborted, and z stays prepared.
   */
  lemma OrphanStays() returns (w: World)
    ensures Leads(w) && w.place.Idle? && "t" in w.journal && w.journal["t"].phase.Undone?
    ensures At(w.parts, "z", "t") == Some(Prepared)
  {
    hide Leads, Part;
    StoppedAfterZ();
    RecoversNobody(Partition(map[], map[]), Part(Prepared));
    StillPrepared();
    w := Both(Partition(map[], map[]), Part(Prepared), Undone, [], Idle);
  }

  /**
   * Two orphans of one transaction: after that stop it is submitted again with its participants in the other order, a
   * prepares, and the process stops before this is noted either. Recovery finds nobody to abort.
   */
  lemma TwoOrphans() returns (w: World)
    ensures Leads(w) && w.place.Idle? && "t" in w.journal && w.journal["t"].phase.Undone?
    ensures At(w.parts, "a", "t") == Some(Prepared) && At(w.parts, "z", "t") == Some(Prepared)
  {
    hide Ranked, PlanOk, Part, Advance, Leads, Participant.Prepare, Next;
    Parts();
    StoppedAfterZ();
    StillPrepared();
    var blank, held, plan := Partition(map[], map[]), Part(Prepared), Listing(true);
    var w1 := Both(blank, held, Preparing, [], Idle);
    Resubmit(blank, held, Preparing, [], true);
    NotBegun(w1.parts);
    LeadsOn(w1, Execute("t", plan), Both(blank, held, Preparing, [], Prepare("t", plan, 0)));
    Answer(blank, held, Preparing, [], true, 0, held);
    var w2 := Both(held, held, Preparing, [], NotePrepared("t", plan, 0));
    NextWork(Both(blank, held, Preparing, [], Prepare("t", plan, 0)));
    LeadsOn(Both(blank, held, Preparing, [], Prepare("t", plan, 0)), Work, w2);
    NextCrash(w2);
    LeadsOn(w2, Crash, Both(held, held, Preparing, [], Idle));
    RecoversNobody(held, held);
    w := Both(held, held, Undone, [], Idle);
  }

  lemma NextCrash(w: World)
    ensures Enabled(w, Crash) && Next(w, Crash) == w.(place := Idle)
  {
  }

  lemma StillPrepared()
    ensures "t" in Part(Prepared).txs && Part(Prepared).txs["t"].status == Prepared
  {
  }

  lemma NotBegun(parts: map<string, Partition>)
    requires parts == map["a" := Partition(map[], map[]), "z" := Part(Prepared)]
    ensures !Begun(parts, "t")
  {
  }
}
