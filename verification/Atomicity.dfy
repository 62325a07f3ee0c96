/** What every run of the two-phase commit of src/distributed.js guarantees, and the one caller duty it depends on. */
module Atomicity {
  import opened Basics
  import opened Json
  import opened Participant
  import opened Distributed
  import opened Reexecution

  lemma Keep(w: World, step: Step)
    requires Inv(w) && Enabled(w, step) && Respectful(w, step)
    ensures Inv(Next(w, step))
  {
    hide Advance, Inv, PlanOk, Overwrite, Ranked, Placed;
    match step
    case Execute(tx, plan) => StartExecute(w, tx, plan);
    case Recover(tx) => StartRecover(w, tx);
    case Crash => CrashInv(w);
    case Guarded(p, writes) => Guard(w, p, writes);
    case Work =>
      match w.place
      case Prepare(_, _, _) => WorkPrepare(w);
      case NotePrepared(_, _, _) => WorkNotePrepared(w);
      case Commit(tx, i, recovering) =>
        if i == |Ranked(w.journal[tx].plan)| ||
          (recovering && i < |Ranked(w.journal[tx].plan)| && Ranked(w.journal[tx].plan)[i] in w.journal[tx].committed) {
          WorkCommitElse(w);
        } else {
          CommitPlace(w);
          WorkCommitOne(w);
        }
      case NoteCommitted(_, _, _) => WorkNoteCommitted(w);
      case Abort(_, _) => WorkAbort(w);
  }

  lemma CommitPlace(w: World)
    requires Enabled(w, Work) && w.place.Commit?
    ensures w.place.i <= |Ranked(w.journal[w.place.tx].plan)|
  {
  }

  lemma CrashInv(w: World)
    requires Inv(w)
    ensures Inv(w.(place := Idle))
  {
    hide PartsOk, DecisionOk, PlaceFits, Seen;
  }

  lemma {:induction false} InvRun(states: seq<World>, steps: seq<Step>, n: nat)
    requires Run(states, steps) && RespectfulRun(states, steps) && n <= |steps|
    ensures Inv(states[n])
  {
    hide Next, Enabled, Inv, Respectful;
    if n == 0 {
      InvInitial(states[0]);
    } else {
      InvRun(states, steps, n - 1);
      Keep(states[n - 1], steps[n - 1]);
    }
  }

  lemma InvInitial(w: World)
    requires Initial(w)
    ensures Inv(w)
  {
  }

  lemma RespectfulIsHarmless(w: World, step: Step)
    requires Respectful(w, step)
    ensures Harmless(w, step)
  {
    hide Begun, AllPrepare, Blocked;
  }

  lemma RespectfulRunIsHarmless(states: seq<World>, steps: seq<Step>)
    requires Run(states, steps) && RespectfulRun(states, steps)
    ensures HarmlessRun(states, steps)
  {
    hide Respectful, Harmless, Enabled, Next, Initial;
    forall i | 0 <= i < |steps| ensures Harmless(states[i], steps[i]) {
      RespectfulIsHarmless(states[i], steps[i]);
    }
  }

  /**
   * Atomicity. In every state of every run without a splitting call, over all crashes and recoveries: no transaction is
   * committed at one participant and aborted at another; a commit anywhere rests on a durable decision to commit; and
   * once the coordinator calls a transaction committed it is so at every participant of its plan.
   */
  lemma Atomic(states: seq<World>, steps: seq<Step>, n: nat, tx: string, p: string, q: string)
    requires Run(states, steps) && HarmlessRun(states, steps) && n <= |steps|
    ensures var w := states[n];
      && !(At(w.parts, p, tx) == Some(Committed) && At(w.parts, q, tx) == Some(Aborted))
      && (At(w.parts, p, tx) == Some(Committed) ==>
           tx in w.journal && (w.journal[tx].phase.Committing? || w.journal[tx].phase.Done?))
      && (tx in w.journal && w.journal[tx].phase.Done? && p in w.journal[tx].plan.order ==>
           At(w.parts, p, tx) == Some(Committed))
  {
    hide HarmlessRun, Enabled, Next, Initial, Base, At;
    SoundRun(states, steps, n);
    SoundState(states[n], tx);
  }

  lemma InOrder(w: World, tx: string, p: string)
    requires Inv(w) && Seen(w.parts, p, tx).Some?
    ensures tx in w.journal && DecisionOk(w.parts, tx, w.journal[tx])
    ensures p in w.journal[tx].plan.order
    ensures Planned(w.journal[tx].plan, p, Seen(w.parts, p, tx).value.mutations)
  {
    hide PartsOk, Seen, Agrees, PlaceOk;
    assert DecisionOk(w.parts, tx, w.journal[tx]);
  }

  /**
   * Prepared keys are frozen: at each participant different prepared transactions reserve disjoint keys, and until its
   * decision a prepared transaction finds every reserved record as it was when it prepared.
   */
  lemma PreparedKeysFrozen(states: seq<World>, steps: seq<Step>, n: nat, p: string, s: string, t: string)
    requires Run(states, steps) && HarmlessRun(states, steps) && n <= |steps|
    requires At(states[n].parts, p, s) == Some(Prepared)
    ensures var part := states[n].parts[p];
      && part.txs[s].before == Snapshot(part.db, Targets(part.txs[s].mutations))
      && (s != t && At(states[n].parts, p, t) == Some(Prepared) ==>
           Targets(part.txs[s].mutations) !! Targets(part.txs[t].mutations))
  {
    hide HarmlessRun, Enabled, Next, Initial, Targets, Snapshot, Known, Sane, Stands, Cautious;
    SoundRun(states, steps, n);
    var part := states[n].parts[p];
    assert Ok(part) && FrozenAt(part, s);
  }

  /** The coordinator's next step is to ask participant p to commit. */
  ghost predicate Asks(w: World, p: string) {
    && w.place.Commit? && w.place.tx in w.journal
    && var d := w.journal[w.place.tx];
      w.place.i < |Ranked(d.plan)| && p == Ranked(d.plan)[w.place.i] && !(w.place.recovering && p in d.committed)
  }

  /** Every step of the coordinator can be taken, and a participant it asks to commit never refuses. */
  lemma CommitNeverRefused(states: seq<World>, steps: seq<Step>, n: nat, p: string)
    requires Run(states, steps) && RespectfulRun(states, steps) && n <= |steps| && !states[n].place.Idle?
    ensures Enabled(states[n], Work)
    ensures Asks(states[n], p) ==>
      p in states[n].parts && Participant.Commit(states[n].parts[p], states[n].place.tx).Some?
  {
    hide RespectfulRun, Enabled, Next, Initial, Inv, Participant.Commit, Ranked;
    InvRun(states, steps, n);
    CanWork(states[n]);
    if Asks(states[n], p) {
      WorkCommitOne(states[n]);
      AskedExists(states[n], p);
    }
  }

  /**
   * Without that duty, in runs that merely avoid splitting calls, a participant refuses exactly when it has aborted; it
   * is then the first one asked, and nothing has been committed.
   */
  lemma CommitRefusedIff(states: seq<World>, steps: seq<Step>, n: nat, p: string)
    requires Run(states, steps) && HarmlessRun(states, steps) && n <= |steps| && Asks(states[n], p)
    ensures var w, tx := states[n], states[n].place.tx;
      && p in w.parts
      && (Participant.Commit(w.parts[p], tx).None? <==> At(w.parts, p, tx) == Some(Aborted))
      && (At(w.parts, p, tx) == Some(Aborted) ==> w.place.i == 0 && NoneCommitted(w.parts, tx))
  {
    hide HarmlessRun, Enabled, Next, Initial, Base, Participant.Commit, Ranked, Going, Left;
    SoundRun(states, steps, n);
    BaseGoing(states[n]);
    GoesOn(states[n]);
    CommitAsked(states[n], p);
  }

  lemma AskedExists(w: World, p: string)
    requires Enabled(w, Work) && Asks(w, p)
    ensures p in w.parts
  {
  }

  lemma CanWork(w: World)
    requires Inv(w) && !w.place.Idle?
    ensures Enabled(w, Work)
  {
    hide PartsOk, Seen, Agrees, Known;
    var d := w.journal[w.place.tx];
    assert DecisionOk(w.parts, w.place.tx, d);
    match w.place
    case Prepare(_, plan, i) => if i < |plan.order| { InPlan(w.parts.Keys, d.plan, plan, i); }
    case NotePrepared(_, _, _) =>
    case Commit(_, i, _) => if i < |Ranked(d.plan)| { RankedIs(d.plan, i); }
    case NoteCommitted(_, i, _) =>
    case Abort(_, i) => if i < |d.prepared| { SeenPart(w.parts, d.prepared[i], w.place.tx); }
  }

  /**
   * Effects. The step that commits a prepared transaction at a participant carries out there exactly the mutations its
   * plan holds for that participant: each record put is in the database afterwards, each one removed is not, and every
   * other record is as it was. A guarded write changes the records it names, and no other step changes a database.
   * Committed or aborted is for ever, so a transaction takes effect at most once.
   */
  lemma CommitEffect(w: World, step: Step, p: string)
    requires Base(w) && Enabled(w, step) && p in w.parts
    ensures var w' := Next(w, step);
      && p in w'.parts
      && (forall t :: At(w.parts, p, t) == Some(Prepared) && At(w'.parts, p, t) == Some(Committed) ==>
            t in w.journal && p in w.journal[t].plan.work
            && Carried(w.parts[p].db, w'.parts[p].db, w.journal[t].plan.work[p]))
      && (step.Guarded? && step.p == p ==> forall k ::
            Lookup(w'.parts[p].db, k) == if k in step.writes then step.writes[k] else Lookup(w.parts[p].db, k))
      && (w'.parts[p].db != w.parts[p].db ==>
            || (step.Guarded? && step.p == p)
            || (step.Work? && At(w.parts, p, w.place.tx) == Some(Prepared)
                && At(w'.parts, p, w.place.tx) == Some(Committed)))
      && (forall t :: (At(w.parts, p, t) == Some(Committed) ==> At(w'.parts, p, t) == Some(Committed))
                   && (At(w.parts, p, t) == Some(Aborted) ==> At(w'.parts, p, t) == Some(Aborted)))
  {
    hide Overwrite, Locked, Base, PlanOk, Advance, Carried, Placed;
    match step
    case Work =>
      WorkReaches(w, p);
      CallEffect(w.parts[p], Advance(w).parts[p], w.place.tx);
      if At(w.parts, p, w.place.tx) == Some(Prepared) {
        EntryPlanned(w, p, w.place.tx);
      }
    case Guarded(q, writes) => WrittenAt(w.parts[q].db, writes);
    case _ =>
  }

  /** One partition after another as a call of prepare, commit or abort leaves it, or as it was. */
  ghost predicate Called(part: Partition, part': Partition, tx: string) {
    || part' == part
    || (exists ms :: Participant.Prepare(part, tx, ms) == Some(part'))
    || Participant.Commit(part, tx) == Some(part')
    || part' == Participant.Abort(part, tx)
  }

  lemma WorkReaches(w: World, p: string)
    requires Enabled(w, Work) && p in w.parts
    ensures p in Advance(w).parts && Called(w.parts[p], Advance(w).parts[p], w.place.tx)
  {
    hide Participant.Prepare, Participant.Commit, Participant.Abort, Ranked;
  }

  lemma CallEffect(part: Partition, part': Partition, tx: string)
    requires Called(part, part', tx)
    ensures forall t :: t != tx ==> Lookup(part'.txs, t) == Lookup(part.txs, t)
    ensures tx in part.txs ==>
      tx in part'.txs && (part.txs[tx].status.Prepared? || part'.txs[tx].status == part.txs[tx].status)
    ensures part'.db != part.db ==>
      tx in part.txs && tx in part'.txs && part.txs[tx].status.Prepared? && part'.txs[tx].status.Committed?
    ensures tx in part.txs && tx in part'.txs && part.txs[tx].status.Prepared? && part'.txs[tx].status.Committed? ==>
      MutationsOk(part.txs[tx].mutations) ==> Carried(part.db, part'.db, part.txs[tx].mutations)
  {
    hide Locked, Targets, Snapshot, Carried, ApplyAll, MutationsOk;
    if tx in part.txs && part.txs[tx].status.Prepared? && MutationsOk(part.txs[tx].mutations) {
      if Participant.Commit(part, tx).Some? {
        CommitCarries(part, tx);
      }
    }
  }

  lemma EntryPlanned(w: World, p: string, tx: string)
    requires Base(w) && At(w.parts, p, tx).Some?
    ensures tx in w.journal && p in w.journal[tx].plan.work && MutationsOk(w.parts[p].txs[tx].mutations)
    ensures w.parts[p].txs[tx].mutations == w.journal[tx].plan.work[p]
  {
    hide PartsOk, Stands, Allows, MutationsOk, Lists;
    assert Seen(w.parts, p, tx).Some?;
    assert Sane(w.parts, tx, w.journal[tx]);
    assert Planned(w.journal[tx].plan, p, Seen(w.parts, p, tx).value.mutations);
  }

  lemma WrittenAt(db: Store, writes: map<Key, Option<Record>>)
    ensures forall k :: Lookup(Overwrite(db, writes), k) == if k in writes then writes[k] else Lookup(db, k)
  {
  }

  // ---------------------------------------------------------------- why the duty is needed

  /** Some run leads to w. */
  ghost predicate Reachable(w: World) {
    exists states, steps :: Run(states, steps) && states[|steps|] == w
  }

  lemma Start(w: World)
    requires Initial(w)
    ensures Reachable(w)
  {
    hide Initial;
    assert Run([w], []);
  }

  lemma Go(w: World, step: Step)
    requires Reachable(w) && Enabled(w, step)
    ensures Reachable(Next(w, step))
  {
    hide Next, Enabled, Initial;
    var states, steps :| Run(states, steps) && states[|steps|] == w;
    var states', steps' := states + [Next(w, step)], steps + [step];
    forall i | 0 <= i < |steps'|
      ensures Enabled(states'[i], steps'[i]) && states'[i + 1] == Next(states'[i], steps'[i])
    {
      assert i < |steps| ==> states'[i] == states[i] && states'[i + 1] == states[i + 1];
    }
    assert Run(states', steps') && states'[|steps'|] == Next(w, step);
  }

  const RECORD := Record("r", map[])
  const WORK: seq<Mutation> := [Put("c", RECORD)]
  const KEY := Key("c", "r")

  /** The same plan with its participants in either order. */
  function Listing(reversed: bool): Plan {
    Plan(if reversed then ["a", "z"] else ["z", "a"], map["z" := WORK, "a" := WORK])
  }

  const PLAN := Listing(false)

  function Part(status: Status): Partition {
    Partition(if status.Committed? then map[KEY := RECORD] else map[],
              map["t" := Participant.Entry(status, WORK, map[KEY := None])])
  }

  lemma Targeted()
    ensures Targets(WORK) == {KEY}
    ensures Snapshot(map[], Targets(WORK)) == map[KEY := None]
    ensures ApplyAll(map[], WORK) == map[KEY := RECORD]
    ensures forall reversed :: PlanOk({"a", "z"}, Listing(reversed))
    ensures Ranked(PLAN) == ["a", "z"]
  {
    assert WORK[0].Target() == KEY;
    assert WORK[..0] == [];
    forall reversed ensures PlanOk({"a", "z"}, Listing(reversed)) {
      var order := Listing(reversed).order;
      assert order[0] == "z" || order[1] == "z";
      assert order[0] == "a" || order[1] == "a";
    }
    assert PLAN.order[0] == "z" && PLAN.order[1] == "a";
    var ranked := Ranked(PLAN);
    Ordering.SortedUnique(ranked, ["a", "z"]);
  }

  lemma Parts()
    ensures Participant.Prepare(Partition(map[], map[]), "t", WORK) == Some(Part(Prepared))
    ensures Participant.Prepare(Part(Aborted), "t", WORK) == Some(Part(Aborted))
    ensures Participant.Abort(Part(Prepared), "t") == Part(Aborted)
    ensures Participant.Commit(Part(Prepared), "t") == Some(Part(Committed))
  {
    Targeted();
    var blank, held := Partition(map[], map[]), Part(Prepared);
    hide Ranked, PlanOk, ApplyAll, Targets;
    assert held.txs["t"].mutations == WORK;
    var e := held.txs["t"];
    assert held.txs["t" := e.(status := Committed)] == Part(Committed).txs;
    assert held.txs["t" := e.(status := Aborted)] == Part(Aborted).txs;
    assert !Locked(blank, Some("t"), KEY);
    assert Part(Aborted).txs["t"].status.Aborted?;
    assert Lookup(held.db, KEY) == None == held.txs["t"].before[KEY];
  }

  function Both(a: Partition, z: Partition, phase: Phase, prepared: seq<string>, place: Place): World {
    World(map["a" := a, "z" := z], map["t" := Decision(phase, PLAN, prepared, [])], place)
  }

  lemma Maps(a: Partition, z: Partition, part: Partition, d: Decision, d': Decision)
    ensures map["a" := a, "z" := z]["a" := part] == map["a" := part, "z" := z]
    ensures map["a" := a, "z" := z]["z" := part] == map["a" := a, "z" := part]
    ensures map["t" := d]["t" := d'] == map["t" := d']
  {
  }

  lemma Works(w: World, w': World)
    requires Reachable(w) && Enabled(w, Work) && Advance(w) == w'
    ensures Reachable(w')
  {
    hide Advance, Enabled;
    Go(w, Work);
  }

  /** A participant that the coordinator asks prepares. */
  lemma Answer(a: Partition, z: Partition, phase: Phase, prepared: seq<string>, reversed: bool, i: nat, part: Partition)
    requires i < 2
    requires var atA := Listing(reversed).order[i] == "a";
      Participant.Prepare(if atA then a else z, "t", WORK) == Some(part)
    ensures var plan, w := Listing(reversed), Both(a, z, phase, prepared, Prepare("t", Listing(reversed), i));
      var a', z' := if plan.order[i] == "a" then part else a, if plan.order[i] == "a" then z else part;
      && Enabled(w, Work)
      && Advance(w) == Both(a', z', phase, prepared, NotePrepared("t", plan, i))
  {
    hide Participant.Prepare, Ranked, PlanOk;
    var plan := Listing(reversed);
    var d := Decision(phase, PLAN, prepared, []);
    assert plan.order[i] == "a" || plan.order[i] == "z";
    Maps(a, z, part, d, d);
  }

  /** The coordinator asks the participant at place i to prepare and notes the answer. */
  lemma Ask(a: Partition, z: Partition, phase: Phase, prepared: seq<string>, reversed: bool, i: nat, part: Partition)
    requires i < 2 && Reachable(Both(a, z, phase, prepared, Prepare("t", Listing(reversed), i)))
    requires var atA := Listing(reversed).order[i] == "a";
      Participant.Prepare(if atA then a else z, "t", WORK) == Some(part)
    ensures var plan := Listing(reversed);
      var a', z' := if plan.order[i] == "a" then part else a, if plan.order[i] == "a" then z else part;
      Reachable(Both(a', z', phase, Add(prepared, plan.order[i]), Prepare("t", plan, i + 1)))
  {
    hide Reachable, Participant.Prepare, Ranked, PlanOk;
    var plan := Listing(reversed);
    var a', z' := if plan.order[i] == "a" then part else a, if plan.order[i] == "a" then z else part;
    var w0, w1 :=
      Both(a, z, phase, prepared, Prepare("t", plan, i)), Both(a', z', phase, prepared, NotePrepared("t", plan, i));
    Answer(a, z, phase, prepared, reversed, i, part);
    Works(w0, w1);
    var d := w1.journal["t"];
    Maps(a', z', part, d, d.(prepared := Add(prepared, plan.order[i])));
    Works(w1, Both(a', z', phase, Add(prepared, plan.order[i]), Prepare("t", plan, i + 1)));
  }

  /** z prepares, the process stops, and recovery aborts at z; it is stopped in turn, or finishes. */
  lemma AbortedAtZ(finish: bool)
    ensures Reachable(Both(Partition(map[], map[]), Part(Aborted), if finish then Undone else Preparing, ["z"], Idle))
  {
    hide Ranked, PlanOk, Participant.Prepare, Participant.Commit, Participant.Abort, Part, Reachable, Initial;
    Targeted();
    Parts();
    var blank := Partition(map[], map[]);
    var w := World(map["a" := blank, "z" := blank], map[], Idle);
    assert Initial(w) by { Blank(w); }
    Start(w);
    Submit(w, blank);
    Go(w, Execute("t", PLAN));
    Ask(blank, blank, Preparing, [], false, 0, Part(Prepared));
    assert Add([], "z") == ["z"];
    Go(Both(blank, Part(Prepared), Preparing, ["z"], Prepare("t", PLAN, 1)), Crash);
    Undo(blank, finish);
  }

  lemma Submit(w: World, blank: Partition)
    requires w == World(map["a" := blank, "z" := blank], map[], Idle)
    ensures Enabled(w, Execute("t", PLAN))
    ensures Next(w, Execute("t", PLAN)) == Both(blank, blank, Preparing, [], Prepare("t", PLAN, 0))
  {
    hide Ranked, PlanOk;
    Targeted();
    assert w.parts.Keys == {"a", "z"};
  }

  /** Submitted again, with the participants in either order. */
  lemma Resubmit(a: Partition, z: Partition, phase: Phase, prepared: seq<string>, reversed: bool)
    requires !phase.Done?
    ensures var w := Both(a, z, phase, prepared, Idle);
      && Enabled(w, Execute("t", Listing(reversed)))
      && Next(w, Execute("t", Listing(reversed))) == Both(a, z, phase, prepared, Prepare("t", Listing(reversed), 0))
  {
    hide Ranked, PlanOk;
    Targeted();
    assert Both(a, z, phase, prepared, Idle).parts.Keys == {"a", "z"};
  }

  lemma Blank(w: World)
    requires w == World(map["a" := Partition(map[], map[]), "z" := Partition(map[], map[])], map[], Idle)
    ensures Initial(w)
  {
  }

  lemma Undo(blank: Partition, finish: bool)
    requires Reachable(Both(blank, Part(Prepared), Preparing, ["z"], Idle))
    ensures Reachable(Both(blank, Part(Aborted), if finish then Undone else Preparing, ["z"], Idle))
  {
    hide Ranked, PlanOk, Participant.Abort, Part, Reachable;
    Parts();
    Go(Both(blank, Part(Prepared), Preparing, ["z"], Idle), Recover("t"));
    var w1, w2 :=
      Both(blank, Part(Prepared), Preparing, ["z"], Abort("t", 0)),
      Both(blank, Part(Aborted), Preparing, ["z"], Abort("t", 1));
    var d := w1.journal["t"];
    Maps(blank, Part(Prepared), Part(Aborted), d, d.(phase := Undone));
    Works(w1, w2);
    if finish {
      Works(w2, Both(blank, Part(Aborted), Undone, ["z"], Idle));
    } else {
      Go(w2, Crash);
    }
  }

  /**
   * Executing a transaction again after recovery has begun to abort it commits at one participant what is aborted at
   * the other, whether recovery had noted the abort in the coordinator's journal or was itself cut short, and whether
   * or not the second submission lists the participants in the order of the first.
   */
  lemma ReexecutionBreaksAtomicity(finish: bool, reversed: bool) returns (w: World)
    ensures Reachable(w) && At(w.parts, "a", "t") == Some(Committed) && At(w.parts, "z", "t") == Some(Aborted)
  {
    hide Ranked, PlanOk, Participant.Prepare, Participant.Commit, Participant.Abort, Reachable;
    Targeted();
    Parts();
    AbortedAtZ(finish);
    var blank := Partition(map[], map[]);
    var phase := if finish then Undone else Preparing;
    Resubmit(blank, Part(Aborted), phase, ["z"], reversed);
    Go(Both(blank, Part(Aborted), phase, ["z"], Idle), Execute("t", Listing(reversed)));
    assert Add(["z"], "z") == ["z"] && Add(["z"], "a") == ["z", "a"] && Add(["z", "a"], "z") == ["z", "a"];
    if reversed {
      Ask(blank, Part(Aborted), phase, ["z"], true, 0, Part(Prepared));
      Ask(Part(Prepared), Part(Aborted), phase, ["z", "a"], true, 1, Part(Aborted));
    } else {
      Ask(blank, Part(Aborted), phase, ["z"], false, 0, Part(Aborted));
      Ask(blank, Part(Aborted), phase, ["z"], false, 1, Part(Prepared));
    }
    w := CommitAtA(phase, reversed);
  }

  lemma CommitAtA(phase: Phase, reversed: bool) returns (w: World)
    requires Reachable(Both(Part(Prepared), Part(Aborted), phase, ["z", "a"], Prepare("t", Listing(reversed), 2)))
    ensures Reachable(w) && At(w.parts, "a", "t") == Some(Committed) && At(w.parts, "z", "t") == Some(Aborted)
  {
    hide Ranked, PlanOk, Participant.Commit, Reachable;
    Targeted();
    Parts();
    var w0, w1 :=
      Both(Part(Prepared), Part(Aborted), phase, ["z", "a"], Prepare("t", Listing(reversed), 2)),
      Both(Part(Prepared), Part(Aborted), Committing, ["z", "a"], Commit("t", 0, false));
    w := Both(Part(Committed), Part(Aborted), Committing, ["z", "a"], NoteCommitted("t", 0, false));
    Maps(Part(Prepared), Part(Aborted), Part(Committed), w0.journal["t"], w1.journal["t"]);
    Works(w0, w1);
    Works(w1, w);
  }
}
