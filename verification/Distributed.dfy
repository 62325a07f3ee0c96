/**
 * `DurableTransactionCoordinator` of src/distributed.js with its participants, as a machine whose steps end at each
 * durable journal write. One coordinator works on one transaction at a time; a crash loses only the place it had
 * reached.
 */
module Distributed {
  import opened Basics
  import opened Json
  import opened Ordering
  import opened Participant

  datatype Phase = Preparing | Committing | Done | Aborting | Undone

  /** A transaction plan: its participants in the order of its keys, and each one's mutations. */
  datatype Plan = Plan(order: seq<string>, work: map<string, seq<Mutation>>)

  datatype Decision = Decision(phase: Phase, plan: Plan, prepared: seq<string>, committed: seq<string>)

  /** Where the coordinator's call stands; the prepare loop goes over the plan the call was given. */
  datatype Place =
    | Idle
    | Prepare(tx: string, plan: Plan, i: nat)
    | NotePrepared(tx: string, plan: Plan, i: nat)
    | Commit(tx: string, i: nat, recovering: bool)
    | NoteCommitted(tx: string, i: nat, recovering: bool)
    | Abort(tx: string, i: nat)

  datatype World = World(parts: map<string, Partition>, journal: map<string, Decision>, place: Place)

  datatype Step =
    | Execute(tx: string, plan: Plan)
    | Recover(tx: string)
    | Work
    | Crash
    | Guarded(p: string, writes: map<Key, Option<Record>>)

  /** The keys of a plan, each once. */
  ghost predicate Lists(plan: Plan) {
    && plan.order != []
    && (forall i, j :: 0 <= i < j < |plan.order| ==> plan.order[i] != plan.order[j])
    && (forall p :: p in plan.order <==> p in plan.work)
  }

  /** `validatePlan`: known participants, each with mutations of different records. */
  ghost predicate PlanOk(parts: set<string>, plan: Plan) {
    Lists(plan) && forall p :: p in plan.work ==> p in parts && MutationsOk(plan.work[p])
  }

  /** Digests sort keys, so only the content of the plans is compared: the call may list its participants anew. */
  ghost predicate SameContent(plan: Plan, journalled: Plan) {
    Lists(plan) && plan.work == journalled.work
  }

  ghost function Ranked(plan: Plan): seq<string> {
    Sorted(set p | p in plan.order)
  }

  function Add(s: seq<string>, p: string): seq<string> {
    if p in s then s else s + [p]
  }

  /** What a participant's journal holds about tx. */
  datatype Mark = Mark(status: Status, mutations: seq<Mutation>)

  function Seen(parts: map<string, Partition>, p: string, tx: string): Option<Mark> {
    if p in parts && tx in parts[p].txs then Some(Mark(parts[p].txs[tx].status, parts[p].txs[tx].mutations)) else None
  }

  function At(parts: map<string, Partition>, p: string, tx: string): Option<Status> {
    if Seen(parts, p, tx).Some? then Some(Seen(parts, p, tx).value.status) else None
  }

  /** Some participant has already aborted tx. */
  ghost predicate Begun(parts: map<string, Partition>, tx: string) {
    exists p :: At(parts, p, tx) == Some(Aborted)
  }

  ghost predicate Enabled(w: World, step: Step) {
    match step
    case Execute(tx, plan) => w.place.Idle? && PlanOk(w.parts.Keys, plan)
    case Recover(tx) => w.place.Idle? && tx in w.journal
    case Work => !w.place.Idle? && w.place.tx in w.journal && Placed(w)
    case Crash => true
    case Guarded(p, writes) => p in w.parts && forall k :: k in writes ==> !Locked(w.parts[p], None, k)
  }

  /** The participants the current call still has to visit exist. */
  ghost predicate Placed(w: World)
    requires !w.place.Idle? && w.place.tx in w.journal
  {
    var d := w.journal[w.place.tx];
    match w.place
    case Prepare(_, plan, i) =>
      i <= |plan.order| && (i < |plan.order| ==> plan.order[i] in w.parts && plan.order[i] in plan.work)
    case NotePrepared(_, plan, i) => i < |plan.order|
    case Commit(_, i, _) => i <= |Ranked(d.plan)| && (i < |Ranked(d.plan)| ==> Ranked(d.plan)[i] in w.parts)
    case NoteCommitted(_, i, _) => i < |Ranked(d.plan)|
    case Abort(_, i) => i <= |d.prepared| && (i < |d.prepared| ==> d.prepared[i] in w.parts)
  }

  ghost function Next(w: World, step: Step): World
    requires Enabled(w, step)
  {
    match step
    case Execute(tx, plan) =>
      if tx !in w.journal
        then w.(journal := w.journal[tx := Decision(Preparing, plan, [], [])], place := Prepare(tx, plan, 0))
      else if w.journal[tx].phase.Done? || w.journal[tx].plan.work != plan.work then w
      else w.(place := Prepare(tx, plan, 0))
    case Recover(tx) =>
      (match w.journal[tx].phase
       case Committing => w.(place := Commit(tx, 0, true))
       case Preparing => w.(place := Abort(tx, 0))
       case Aborting => w.(place := Abort(tx, 0))
       case Done => w
       case Undone => w)
    case Work => Advance(w)
    case Crash => w.(place := Idle)
    case Guarded(p, writes) => w.(parts := w.parts[p := w.parts[p].(db := Overwrite(w.parts[p].db, writes))])
  }

  ghost function Advance(w: World): World
    requires Enabled(w, Work)
  {
    var tx := w.place.tx;
    var d := w.journal[tx];
    match w.place
    case Prepare(_, plan, i) =>
      if i == |plan.order| then w.(journal := w.journal[tx := d.(phase := Committing)], place := Commit(tx, 0, false))
      else
        var p := plan.order[i];
        (match Participant.Prepare(w.parts[p], tx, plan.work[p])
         case Some(part) => w.(parts := w.parts[p := part], place := NotePrepared(tx, plan, i))
         case None =>
           if d.phase.Preparing? then w.(journal := w.journal[tx := d.(phase := Aborting)], place := Abort(tx, 0))
           else w.(place := Idle))
    case NotePrepared(_, plan, i) =>
      w.(journal := w.journal[tx := d.(prepared := Add(d.prepared, plan.order[i]))], place := Prepare(tx, plan, i + 1))
    case Commit(_, i, recovering) =>
      if i == |Ranked(d.plan)| then w.(journal := w.journal[tx := d.(phase := Done)], place := Idle)
      else
        var p := Ranked(d.plan)[i];
        if recovering && p in d.committed then w.(place := Commit(tx, i + 1, true))
        else
          (match Participant.Commit(w.parts[p], tx)
           case Some(part) => w.(parts := w.parts[p := part], place := NoteCommitted(tx, i, recovering))
           case None => w.(place := Idle))
    case NoteCommitted(_, i, recovering) =>
      w.(journal := w.journal[tx := d.(committed := Add(d.committed, Ranked(d.plan)[i]))],
        place := Commit(tx, i + 1, recovering))
    case Abort(_, i) =>
      if i == |d.prepared| then w.(journal := w.journal[tx := d.(phase := Undone)], place := Idle)
      else w.(parts := w.parts[d.prepared[i] := Participant.Abort(w.parts[d.prepared[i]], tx)],
        place := Abort(tx, i + 1))
  }

  /** What `recover` makes of a transaction. */
  function Resolved(phase: Phase): Phase {
    match phase
    case Committing => Done
    case Done => Done
    case Preparing => Undone
    case Aborting => Undone
    case Undone => Undone
  }

  /** A new installation: participants with any databases and empty journals. */
  ghost predicate Initial(w: World) {
    && w.journal == map[] && w.place == Idle
    && (forall p :: p in w.parts ==> w.parts[p].txs == map[])
  }

  ghost predicate Run(states: seq<World>, steps: seq<Step>) {
    && |states| == |steps| + 1
    && Initial(states[0])
    && (forall i :: 0 <= i < |steps| ==> Enabled(states[i], steps[i]) && states[i + 1] == Next(states[i], steps[i]))
  }

  /** The caller's duty: a transaction is not executed again once its abort has begun, here or at a participant. */
  ghost predicate Respectful(w: World, step: Step) {
    step.Execute? && step.tx in w.journal ==>
      && !w.journal[step.tx].phase.Aborting? && !w.journal[step.tx].phase.Undone? && !Begun(w.parts, step.tx)
  }

  ghost predicate RespectfulRun(states: seq<World>, steps: seq<Step>)
    requires Run(states, steps)
  {
    forall i :: 0 <= i < |steps| ==> Respectful(states[i], steps[i])
  }

  // ---------------------------------------------------------------- the invariant

  /** Entries are the plan's, whoever is noted has one, and only noted participants are aborted. */
  ghost predicate Follows(parts: map<string, Partition>, tx: string, d: Decision) {
    && (forall p :: p in d.prepared ==> Seen(parts, p, tx).Some?)
    && (forall p :: Seen(parts, p, tx).Some? ==> Planned(d.plan, p, Seen(parts, p, tx).value.mutations))
    && (forall p :: At(parts, p, tx) == Some(Aborted) ==> p in d.prepared)
  }

  ghost predicate Planned(plan: Plan, p: string, ms: seq<Mutation>) {
    p in plan.work && ms == plan.work[p]
  }

  /** Every participant of the plan is noted as prepared. */
  ghost predicate AllNoted(d: Decision) {
    forall p :: p in d.plan.order ==> p in d.prepared
  }

  ghost predicate NoneCommitted(parts: map<string, Partition>, tx: string) {
    forall p :: At(parts, p, tx) != Some(Committed)
  }

  ghost predicate AllCommitted(parts: map<string, Partition>, tx: string, ps: seq<string>) {
    forall p :: p in ps ==> At(parts, p, tx) == Some(Committed)
  }

  ghost predicate AllAborted(parts: map<string, Partition>, tx: string, ps: seq<string>) {
    forall p :: p in ps ==> At(parts, p, tx) == Some(Aborted)
  }

  ghost predicate NoneAborted(parts: map<string, Partition>, tx: string, ps: seq<string>) {
    forall p :: p in ps ==> At(parts, p, tx).Some? && At(parts, p, tx) != Some(Aborted)
  }

  /** What the coordinator's phase says about every participant. */
  ghost predicate Agrees(parts: map<string, Partition>, tx: string, d: Decision) {
    match d.phase
    case Preparing => NoneCommitted(parts, tx) && d.committed == []
    case Aborting => NoneCommitted(parts, tx)
    case Undone => NoneCommitted(parts, tx) && AllAborted(parts, tx, d.prepared)
    case Committing =>
      AllNoted(d) && NoneAborted(parts, tx, d.plan.order) && AllCommitted(parts, tx, d.committed)
    case Done => AllCommitted(parts, tx, d.plan.order)
  }

  ghost predicate DecisionOk(parts: map<string, Partition>, tx: string, d: Decision) {
    PlanOk(parts.Keys, d.plan) && Follows(parts, tx, d) && Agrees(parts, tx, d)
  }

  /** The call's plan is the journalled one up to its order, and everyone before place i is noted. */
  ghost predicate Reached(plan: Plan, i: nat, d: Decision) {
    SameContent(plan, d.plan) && i <= |plan.order| && forall k :: 0 <= k < i ==> plan.order[k] in d.prepared
  }

  /** How far the current call has got with decision d. */
  ghost predicate PlaceFits(parts: map<string, Partition>, place: Place, d: Decision)
    requires !place.Idle?
  {
    var tx := place.tx;
    match place
    case Prepare(_, plan, i) => (
      (d.phase.Preparing? || d.phase.Committing?) && Reached(plan, i, d) && !Begun(parts, tx))
    case NotePrepared(_, plan, i) => (
      (d.phase.Preparing? || d.phase.Committing?) && Reached(plan, i, d) && i < |plan.order|
      && !Begun(parts, tx) && Seen(parts, plan.order[i], tx).Some?)
    case Commit(_, i, _) => (
      d.phase.Committing? && i <= |Ranked(d.plan)| && AllCommitted(parts, tx, Ranked(d.plan)[..i]))
    case NoteCommitted(_, i, _) => (
      d.phase.Committing? && i < |Ranked(d.plan)| && AllCommitted(parts, tx, Ranked(d.plan)[..i + 1]))
    case Abort(_, i) => (
      (d.phase.Preparing? || d.phase.Aborting?) && i <= |d.prepared| && AllAborted(parts, tx, d.prepared[..i]))
  }

  ghost predicate PlaceOk(w: World) {
    !w.place.Idle? ==> w.place.tx in w.journal && PlaceFits(w.parts, w.place, w.journal[w.place.tx])
  }

  ghost predicate PartsOk(parts: map<string, Partition>) {
    forall p :: p in parts ==> Ok(parts[p])
  }

  ghost predicate Known(w: World) {
    forall p, tx :: Seen(w.parts, p, tx).Some? ==> tx in w.journal
  }

  ghost predicate Inv(w: World) {
    && PartsOk(w.parts)
    && (forall tx :: tx in w.journal ==> DecisionOk(w.parts, tx, w.journal[tx]))
    && Known(w)
    && PlaceOk(w)
  }

  lemma Framed(parts: map<string, Partition>, parts': map<string, Partition>, tx: string, d: Decision)
    requires DecisionOk(parts, tx, d) && parts'.Keys == parts.Keys
    requires forall p :: Seen(parts', p, tx) == Seen(parts, p, tx)
    ensures DecisionOk(parts', tx, d)
  {
    hide Seen, Planned, PlanOk;
    forall p ensures At(parts', p, tx) == At(parts, p, tx) {
      assert Seen(parts', p, tx) == Seen(parts, p, tx);
    }
  }

  /** A step that only writes the coordinator's journal. */
  lemma JournalInv(w: World, tx: string, d: Decision, place: Place)
    requires Inv(w) && DecisionOk(w.parts, tx, d)
    requires !place.Idle? ==> place.tx == tx && PlaceFits(w.parts, place, d)
    ensures Inv(w.(journal := w.journal[tx := d], place := place))
  {
    hide DecisionOk, PlaceFits, Seen, PartsOk;
  }

  /** A step that changes one participant's entry of tx. */
  lemma PartInv(w: World, tx: string, p: string, part: Partition, place: Place)
    requires Inv(w) && tx in w.journal && p in w.parts && Ok(part)
    requires forall t :: t != tx ==> Lookup(part.txs, t) == Lookup(w.parts[p].txs, t)
    requires var parts := w.parts[p := part];
      DecisionOk(parts, tx, w.journal[tx]) &&
        (!place.Idle? ==> place.tx == tx && PlaceFits(parts, place, w.journal[tx]))
    ensures Inv(w.(parts := w.parts[p := part], place := place))
  {
    hide DecisionOk, PlaceFits, Ok;
    var w' := w.(parts := w.parts[p := part], place := place);
    forall q, t | t != tx ensures Seen(w'.parts, q, t) == Seen(w.parts, q, t) {
      assert Lookup(part.txs, t) == Lookup(w.parts[p].txs, t);
    }
    forall t | t in w'.journal ensures DecisionOk(w'.parts, t, w'.journal[t]) {
      if t != tx {
        Framed(w.parts, w'.parts, t, w.journal[t]);
      }
    }
    forall q, t | Seen(w'.parts, q, t).Some? ensures t in w'.journal {
      assert t != tx ==> Seen(w.parts, q, t).Some?;
    }
  }

  // ---------------------------------------------------------------- every step keeps the invariant

  lemma SeenUpdate(parts: map<string, Partition>, p: string, part: Partition, tx: string, q: string)
    requires p in parts
    ensures Seen(parts[p := part], q, tx) ==
      if q == p then (if tx in part.txs then Some(Mark(part.txs[tx].status, part.txs[tx].mutations)) else None)
        else Seen(parts, q, tx)
  {
  }

  lemma StartExecute(w: World, tx: string, plan: Plan)
    requires Inv(w) && w.place.Idle? && PlanOk(w.parts.Keys, plan) && Respectful(w, Execute(tx, plan))
    ensures Inv(Next(w, Execute(tx, plan)))
  {
    hide PartsOk, Lists, Seen, MutationsOk;
    if tx !in w.journal {
      var d := Decision(Preparing, plan, [], []);
      assert forall p :: Seen(w.parts, p, tx).None?;
      assert DecisionOk(w.parts, tx, d);
      JournalInv(w, tx, d, Prepare(tx, plan, 0));
    } else if !w.journal[tx].phase.Done? && w.journal[tx].plan.work == plan.work {
      assert DecisionOk(w.parts, tx, w.journal[tx]);
      assert w.journal[tx := w.journal[tx]] == w.journal;
      JournalInv(w, tx, w.journal[tx], Prepare(tx, plan, 0));
    }
  }

  lemma StartRecover(w: World, tx: string)
    requires Inv(w) && w.place.Idle? && tx in w.journal
    ensures Inv(Next(w, Recover(tx)))
  {
    hide PartsOk, DecisionOk, Seen, Known, Ranked;
    var d := w.journal[tx];
    assert w.journal[tx := d] == w.journal;
    if d.phase.Committing? {
      assert AllCommitted(w.parts, tx, Ranked(d.plan)[..0]);
      JournalInv(w, tx, d, Commit(tx, 0, true));
    } else if d.phase.Preparing? || d.phase.Aborting? {
      assert AllAborted(w.parts, tx, d.prepared[..0]);
      JournalInv(w, tx, d, Abort(tx, 0));
    }
  }

  lemma Guard(w: World, p: string, writes: map<Key, Option<Record>>)
    requires Inv(w) && Enabled(w, Guarded(p, writes))
    ensures Inv(Next(w, Guarded(p, writes)))
  {
    hide DecisionOk, PlaceFits, Ok, Overwrite, Locked;
    var w' := Next(w, Guarded(p, writes));
    GuardedWriteKeepsOk(w.parts[p], writes);
    forall q, t ensures Seen(w'.parts, q, t) == Seen(w.parts, q, t) {
    }
    forall t | t in w'.journal ensures DecisionOk(w'.parts, t, w'.journal[t]) {
      Framed(w.parts, w'.parts, t, w.journal[t]);
    }
    if !w.place.Idle? {
      FramedPlace(w.parts, w'.parts, w.place, w.journal[w.place.tx]);
    }
  }

  lemma FramedPlace(parts: map<string, Partition>, parts': map<string, Partition>, place: Place, d: Decision)
    requires !place.Idle? && PlaceFits(parts, place, d)
    requires forall p :: Seen(parts', p, place.tx) == Seen(parts, p, place.tx)
    ensures PlaceFits(parts', place, d)
  {
    hide Seen, Ranked;
    forall p ensures At(parts', p, place.tx) == At(parts, p, place.tx) {
      assert Seen(parts', p, place.tx) == Seen(parts, p, place.tx);
    }
  }

  lemma WorkPrepare(w: World)
    requires Inv(w) && w.place.Prepare? && Enabled(w, Work)
    ensures Inv(Advance(w))
  {
    var tx, plan, i := w.place.tx, w.place.plan, w.place.i;
    var d := w.journal[tx];
    assert DecisionOk(w.parts, tx, d);
    if i == |plan.order| {
      Decide(w);
    } else {
      var p := plan.order[i];
      hide PartsOk, Ok, DecisionOk, PlaceFits, Participant.Prepare, Known, Seen;
      match Participant.Prepare(w.parts[p], tx, plan.work[p])
      case Some(part) => Reserve(w, p, part);
      case None =>
        if d.phase.Preparing? {
          Refuse(w);
        }
    }
  }

  /** A call that has passed all its participants has noted every participant of the journalled plan. */
  lemma AllReached(plan: Plan, d: Decision)
    requires Reached(plan, |plan.order|, d) && Lists(d.plan)
    ensures AllNoted(d)
  {
    forall p | p in d.plan.order ensures p in d.prepared {
      assert p in plan.order;
      var k :| 0 <= k < |plan.order| && plan.order[k] == p;
    }
  }

  lemma Decide(w: World)
    requires Inv(w) && w.place.Prepare? && w.place.tx in w.journal && w.place.i == |w.place.plan.order|
    ensures Inv(w.(journal := w.journal[w.place.tx := w.journal[w.place.tx].(phase := Committing)],
      place := Commit(w.place.tx, 0, false)))
  {
    hide PartsOk, Seen, Planned, Known, Ranked, Reached, Lists;
    var tx := w.place.tx;
    var d := w.journal[tx];
    assert DecisionOk(w.parts, tx, d);
    AllReached(w.place.plan, d);
    forall p | p in d.plan.order ensures At(w.parts, p, tx).Some? && At(w.parts, p, tx) != Some(Aborted) {
      assert Seen(w.parts, p, tx).Some?;
    }
    JournalInv(w, tx, d.(phase := Committing), Commit(tx, 0, false));
  }

  lemma Refuse(w: World)
    requires Inv(w) && w.place.Prepare? && w.place.tx in w.journal && w.journal[w.place.tx].phase.Preparing?
    ensures Inv(w.(journal := w.journal[w.place.tx := w.journal[w.place.tx].(phase := Aborting)],
      place := Abort(w.place.tx, 0)))
  {
    hide PartsOk, PlanOk, Seen, Planned, Known, Reached;
    var tx := w.place.tx;
    var d := w.journal[tx];
    assert DecisionOk(w.parts, tx, d);
    JournalInv(w, tx, d.(phase := Aborting), Abort(tx, 0));
  }

  /** A participant accepts to prepare: it has a fresh reservation, or already knew the transaction. */
  lemma Reserve(w: World, p: string, part: Partition)
    requires Inv(w) && w.place.Prepare? && Enabled(w, Work)
    requires var plan, i := w.place.plan, w.place.i;
      i < |plan.order| && p == plan.order[i]
      && Participant.Prepare(w.parts[p], w.place.tx, plan.work[p]) == Some(part)
    ensures Inv(w.(parts := w.parts[p := part], place := NotePrepared(w.place.tx, w.place.plan, w.place.i)))
  {
    var tx, plan, i := w.place.tx, w.place.plan, w.place.i;
    var d := w.journal[tx];
    assert DecisionOk(w.parts, tx, d);
    assert Ok(part) by {
      hide *;
      PrepareOk(w, p, part);
    }
    hide PartsOk, Ok, Known, Targets, Snapshot, Locked;
    var parts := w.parts[p := part];
    forall q ensures Seen(parts, q, tx) == NewMark(w.parts, tx, p, plan.work[p], q) {
      SeenUpdate(w.parts, p, part, tx, q);
    }
    ReservedFits(w.parts, parts, tx, d, plan, i, p);
    hide DecisionOk, PlaceFits, Seen;
    PartInv(w, tx, p, part, NotePrepared(tx, plan, i));
  }

  lemma PrepareOk(w: World, p: string, part: Partition)
    requires PartsOk(w.parts) && p in w.parts
    requires exists tx, ms :: Participant.Prepare(w.parts[p], tx, ms) == Some(part)
    ensures Ok(part)
  {
    var tx, ms :| Participant.Prepare(w.parts[p], tx, ms) == Some(part);
    PrepareKeepsOk(w.parts[p], tx, ms);
  }

  function NewMark(parts: map<string, Partition>, tx: string, p: string, ms: seq<Mutation>, q: string): Option<Mark> {
    if q == p && Seen(parts, p, tx).None? then Some(Mark(Prepared, ms)) else Seen(parts, q, tx)
  }

  lemma ReservedFits(parts: map<string, Partition>, parts': map<string, Partition>, tx: string, d: Decision, plan: Plan,
                     i: nat, p: string)
    requires DecisionOk(parts, tx, d) && PlaceFits(parts, Prepare(tx, plan, i), d) && parts'.Keys == parts.Keys
    requires i < |plan.order| && p == plan.order[i]
    requires p in plan.work
    requires forall q :: Seen(parts', q, tx) == NewMark(parts, tx, p, plan.work[p], q)
    ensures DecisionOk(parts', tx, d) && PlaceFits(parts', NotePrepared(tx, plan, i), d)
  {
    hide Seen, Lists;
    forall q ensures At(parts', q, tx) ==
      if q == p && Seen(parts, p, tx).None? then Some(Prepared) else At(parts, q, tx) {
      assert Seen(parts', q, tx) == NewMark(parts, tx, p, plan.work[p], q);
    }
  }

  /** What the call asks for is in the journalled plan too, with the same mutations. */
  lemma InPlan(parts: set<string>, journalled: Plan, plan: Plan, i: nat)
    requires PlanOk(parts, journalled) && SameContent(plan, journalled) && i < |plan.order|
    ensures plan.order[i] in plan.work && plan.order[i] in parts && plan.order[i] in journalled.order
  {
    assert plan.order[i] in plan.order;
  }

  lemma WorkNotePrepared(w: World)
    requires Inv(w) && w.place.NotePrepared? && Enabled(w, Work)
    ensures Inv(Advance(w))
  {
    hide PartsOk, Seen, Known, Ranked, Planned;
    var tx, plan, i := w.place.tx, w.place.plan, w.place.i;
    var d := w.journal[tx];
    assert DecisionOk(w.parts, tx, d);
    var p := plan.order[i];
    InPlan(w.parts.Keys, d.plan, plan, i);
    hide PlanOk, Lists;
    var d' := d.(prepared := Add(d.prepared, p));
    assert d.phase.Committing? ==> d' == d;
    JournalInv(w, tx, d', Prepare(tx, plan, i + 1));
  }

  lemma RankedIs(plan: Plan, i: nat)
    requires i < |Ranked(plan)|
    ensures Ranked(plan)[i] in plan.order
  {
    assert Ranked(plan)[i] in Ranked(plan);
  }

  /** Committing participants in rank order: each accepts. */
  lemma CommitFits(parts: map<string, Partition>, parts': map<string, Partition>, tx: string, d: Decision, i: nat,
                   recovering: bool)
    requires DecisionOk(parts, tx, d) && PlaceFits(parts, Commit(tx, i, recovering), d) && parts'.Keys == parts.Keys &&
      i < |Ranked(d.plan)|
    requires var p := Ranked(d.plan)[i];
      && Seen(parts, p, tx).Some?
      && (forall q :: Seen(parts', q, tx) == CommitMark(parts, tx, p, q))
    ensures DecisionOk(parts', tx, d) && PlaceFits(parts', NoteCommitted(tx, i, recovering), d)
  {
    hide Seen, PlanOk, Planned, Ranked;
    var p, ranked := Ranked(d.plan)[i], Ranked(d.plan);
    forall q ensures At(parts', q, tx) == if q == p then Some(Committed) else At(parts, q, tx) {
      assert Seen(parts', q, tx) == CommitMark(parts, tx, p, q);
    }
    forall q | Seen(parts', q, tx).Some? ensures Planned(d.plan, q, Seen(parts', q, tx).value.mutations) {
      assert Seen(parts', q, tx) == CommitMark(parts, tx, p, q);
      assert Planned(d.plan, q, Seen(parts, q, tx).value.mutations);
    }
    forall q | q in d.prepared ensures Seen(parts', q, tx).Some? {
      assert Seen(parts', q, tx) == CommitMark(parts, tx, p, q);
    }
    assert ranked[..i + 1] == ranked[..i] + [p];
  }

  function CommitMark(parts: map<string, Partition>, tx: string, p: string, q: string): Option<Mark>
    requires Seen(parts, p, tx).Some?
  {
    if q == p then Some(Seen(parts, p, tx).value.(status := Committed)) else Seen(parts, q, tx)
  }

  lemma WorkCommitOne(w: World)
    requires Inv(w) && w.place.Commit? && Enabled(w, Work)
    requires var d := w.journal[w.place.tx];
      w.place.i < |Ranked(d.plan)| && !(w.place.recovering && Ranked(d.plan)[w.place.i] in d.committed)
    ensures Inv(Advance(w))
    ensures Participant.Commit(w.parts[Ranked(w.journal[w.place.tx].plan)[w.place.i]], w.place.tx).Some?
  {
    var tx, i := w.place.tx, w.place.i;
    var p := Ranked(w.journal[tx].plan)[i];
    hide Inv, Ranked, PlanOk, Participant.Commit, Ok, Advance;
    assert tx in w.journal by { PlaceInJournal(w); }
    CommitReady(w, p);
    CommitAccepted(w.parts[p], tx);
    CommitKeepsOk(w.parts[p], tx);
    var part := Participant.Commit(w.parts[p], tx).value;
    CommitStep(w, p, part);
    CommittedPart(w, p, part, i);
  }

  lemma PlaceInJournal(w: World)
    requires Enabled(w, Work)
    ensures w.place.tx in w.journal
  {
    hide Placed;
  }

  lemma CommitStep(w: World, p: string, part: Partition)
    requires w.place.Commit? && Enabled(w, Work) && w.place.i < |Ranked(w.journal[w.place.tx].plan)|
    requires p == Ranked(w.journal[w.place.tx].plan)[w.place.i] && p in w.parts
    requires !(w.place.recovering && p in w.journal[w.place.tx].committed)
    requires Participant.Commit(w.parts[p], w.place.tx) == Some(part)
    ensures Advance(w) ==
      w.(parts := w.parts[p := part], place := NoteCommitted(w.place.tx, w.place.i, w.place.recovering))
  {
    hide Ranked, Participant.Commit;
  }

  /** The participant asked to commit is prepared or has committed before. */
  lemma CommitReady(w: World, p: string)
    requires Inv(w) && w.place.Commit? && w.place.tx in w.journal && w.place.i < |Ranked(w.journal[w.place.tx].plan)|
    requires p == Ranked(w.journal[w.place.tx].plan)[w.place.i]
    ensures p in w.parts && Ok(w.parts[p]) && w.place.tx in w.parts[p].txs
    ensures !w.parts[p].txs[w.place.tx].status.Aborted?
  {
    hide PlanOk, Known, Ok, Planned, Ranked;
    var tx, d := w.place.tx, w.journal[w.place.tx];
    assert DecisionOk(w.parts, tx, d);
    RankedIs(d.plan, w.place.i);
    assert At(w.parts, p, tx).Some? && At(w.parts, p, tx) != Some(Aborted);
  }

  lemma CommittedPart(w: World, p: string, part: Partition, i: nat)
    requires Inv(w) && w.place.Commit? && w.place.i == i && p in w.parts && w.place.tx in w.journal
    requires i < |Ranked(w.journal[w.place.tx].plan)| && p == Ranked(w.journal[w.place.tx].plan)[i]
    requires Participant.Commit(w.parts[p], w.place.tx) == Some(part) && Ok(part)
    ensures Inv(w.(parts := w.parts[p := part], place := NoteCommitted(w.place.tx, i, w.place.recovering)))
  {
    hide PartsOk, Ok, Known, Targets, PlanOk, Ranked, Follows, Agrees, ApplyAll;
    var tx := w.place.tx;
    var d := w.journal[tx];
    var parts := w.parts[p := part];
    assert DecisionOk(w.parts, tx, d);
    forall q ensures Seen(parts, q, tx) == CommitMark(w.parts, tx, p, q) {
      SeenUpdate(w.parts, p, part, tx, q);
    }
    hide DecisionOk, PlaceFits, Seen;
    CommitFits(w.parts, parts, tx, d, i, w.place.recovering);
    PartInv(w, tx, p, part, NoteCommitted(tx, i, w.place.recovering));
  }

  lemma WorkCommitElse(w: World)
    requires Inv(w) && w.place.Commit? && Enabled(w, Work)
    requires var d := w.journal[w.place.tx];
      w.place.i == |Ranked(d.plan)| || (w.place.recovering && Ranked(d.plan)[w.place.i] in d.committed)
    ensures Inv(Advance(w))
  {
    hide PartsOk, Seen, Known, PlanOk, Follows, Ranked;
    var tx, i := w.place.tx, w.place.i;
    var d := w.journal[tx];
    var ranked := Ranked(d.plan);
    assert DecisionOk(w.parts, tx, d);
    if i == |ranked| {
      assert ranked[..i] == ranked;
      forall p | p in d.plan.order ensures At(w.parts, p, tx) == Some(Committed) {
        RankedHas(d.plan, p);
      }
      assert Follows(w.parts, tx, d.(phase := Done)) by { FollowsPhase(w.parts, tx, d, Done); }
      JournalInv(w, tx, d.(phase := Done), Idle);
    } else {
      assert ranked[..i + 1] == ranked[..i] + [ranked[i]];
      assert w.journal[tx := d] == w.journal;
      JournalInv(w, tx, d, Commit(tx, i + 1, true));
    }
  }

  lemma FollowsPhase(parts: map<string, Partition>, tx: string, d: Decision, phase: Phase)
    requires Follows(parts, tx, d)
    ensures Follows(parts, tx, d.(phase := phase))
  {
  }

  lemma RankedHas(plan: Plan, p: string)
    requires p in plan.order
    ensures p in Ranked(plan)
  {
  }

  lemma WorkNoteCommitted(w: World)
    requires Inv(w) && w.place.NoteCommitted? && Enabled(w, Work)
    ensures Inv(Advance(w))
  {
    hide PartsOk, Seen, Known, PlanOk, Planned, Ranked;
    var tx, i := w.place.tx, w.place.i;
    var d := w.journal[tx];
    assert DecisionOk(w.parts, tx, d);
    var p := Ranked(d.plan)[i];
    assert p in Ranked(d.plan)[..i + 1] by { assert Ranked(d.plan)[..i + 1][i] == p; }
    var d' := d.(committed := Add(d.committed, p));
    JournalInv(w, tx, d', Commit(tx, i + 1, w.place.recovering));
  }

  lemma WorkAbort(w: World)
    requires Inv(w) && w.place.Abort? && Enabled(w, Work)
    ensures Inv(Advance(w))
  {
    hide Inv, PlanOk, Ranked, Participant.Abort;
    AbortFacts(w);
    var tx, i := w.place.tx, w.place.i;
    var d := w.journal[tx];
    if i == |d.prepared| {
      AbortsDone(w);
    } else {
      AbortNext(w, d.prepared[i]);
    }
  }

  lemma AbortFacts(w: World)
    requires Inv(w) && w.place.Abort?
    ensures w.place.tx in w.journal && DecisionOk(w.parts, w.place.tx, w.journal[w.place.tx])
    ensures PlaceFits(w.parts, w.place, w.journal[w.place.tx])
  {
    hide PartsOk, DecisionOk, Seen, Ranked;
  }

  /** Everyone noted has been asked to abort. */
  lemma AbortsDone(w: World)
    requires Inv(w) && w.place.Abort? && w.place.tx in w.journal && w.place.i == |w.journal[w.place.tx].prepared|
    ensures Inv(w.(journal := w.journal[w.place.tx := w.journal[w.place.tx].(phase := Undone)], place := Idle))
  {
    AbortFacts(w);
    hide PartsOk, Seen, Known, PlanOk, Planned, Ranked;
    var tx, d := w.place.tx, w.journal[w.place.tx];
    assert d.prepared[..w.place.i] == d.prepared;
    JournalInv(w, tx, d.(phase := Undone), Idle);
  }

  lemma AbortNext(w: World, p: string)
    requires Inv(w) && w.place.Abort? && w.place.tx in w.journal && w.place.i < |w.journal[w.place.tx].prepared|
    requires p == w.journal[w.place.tx].prepared[w.place.i] && p in w.parts
    ensures Inv(w.(parts := w.parts[p := Participant.Abort(w.parts[p], w.place.tx)],
                   place := Abort(w.place.tx, w.place.i + 1)))
  {
    AbortFacts(w);
    var tx, i, d := w.place.tx, w.place.i, w.journal[w.place.tx];
    var part := Participant.Abort(w.parts[p], tx);
    assert Ok(part) by { AbortedOk(w, p, tx); }
    AbortMarks(w.parts, tx, d, p);
    hide Inv, DecisionOk, PlaceFits, Seen, Participant.Abort, Ok;
    AbortFits(w.parts, w.parts[p := part], tx, d, i);
    PartInv(w, tx, p, part, Abort(tx, i + 1));
  }

  lemma AbortMarks(parts: map<string, Partition>, tx: string, d: Decision, p: string)
    requires DecisionOk(parts, tx, d) && p in d.prepared && p in parts && (d.phase.Preparing? || d.phase.Aborting?)
    ensures var part := Participant.Abort(parts[p], tx);
      && Seen(parts, p, tx).Some?
      && (forall q :: Seen(parts[p := part], q, tx) == AbortMark(parts, tx, p, q))
      && (forall t :: t != tx ==> Lookup(part.txs, t) == Lookup(parts[p].txs, t))
  {
    hide PlanOk, Planned, Ranked;
    assert Seen(parts, p, tx).Some? && At(parts, p, tx) != Some(Committed);
    forall q ensures Seen(parts[p := Participant.Abort(parts[p], tx)], q, tx) == AbortMark(parts, tx, p, q) {
      SeenUpdate(parts, p, Participant.Abort(parts[p], tx), tx, q);
    }
  }

  lemma AbortedOk(w: World, p: string, tx: string)
    requires PartsOk(w.parts) && p in w.parts
    ensures Ok(Participant.Abort(w.parts[p], tx))
  {
    AbortKeepsOk(w.parts[p], tx);
  }

  function AbortMark(parts: map<string, Partition>, tx: string, p: string, q: string): Option<Mark>
    requires Seen(parts, p, tx).Some?
  {
    if q == p then Some(Seen(parts, p, tx).value.(status := Aborted)) else Seen(parts, q, tx)
  }

  lemma AbortFits(parts: map<string, Partition>, parts': map<string, Partition>, tx: string, d: Decision, i: nat)
    requires DecisionOk(parts, tx, d) && PlaceFits(parts, Abort(tx, i), d) && parts'.Keys == parts.Keys &&
      i < |d.prepared|
    requires Seen(parts, d.prepared[i], tx).Some?
    requires forall q :: Seen(parts', q, tx) == AbortMark(parts, tx, d.prepared[i], q)
    ensures DecisionOk(parts', tx, d) && PlaceFits(parts', Abort(tx, i + 1), d)
  {
    hide Seen, PlanOk, Planned;
    var p := d.prepared[i];
    forall q ensures At(parts', q, tx) == if q == p then Some(Aborted) else At(parts, q, tx) {
      assert Seen(parts', q, tx) == AbortMark(parts, tx, p, q);
    }
    forall q | Seen(parts', q, tx).Some? ensures Planned(d.plan, q, Seen(parts', q, tx).value.mutations) {
      assert Seen(parts', q, tx) == AbortMark(parts, tx, p, q);
      assert Planned(d.plan, q, Seen(parts, q, tx).value.mutations);
    }
    forall q | q in d.prepared ensures Seen(parts', q, tx).Some? {
      assert Seen(parts', q, tx) == AbortMark(parts, tx, p, q);
    }
    assert d.prepared[..i + 1] == d.prepared[..i] + [p];
  }
}
