/**
 * `DurablePartitionParticipant` and `DurableTransactionCoordinator` of src/distributed.js as objects: their loops,
 * proved to do what the steps of Distributed do. The coordinator holds its participants' states by value.
 */
module Coordinator {
  import opened Basics
  import opened Json
  import opened Ordering
  import opened Participant
  import opened Distributed
  import opened Reexecution
  import opened Atomicity

  class DurablePartitionParticipant {
    var db: Store
    var transactions: map<string, Participant.Entry>

    ghost function State(): Partition
      reads this
    {
      Partition(db, transactions)
    }

    /** Some other transaction that is still prepared names the record. */
    method IsLocked(k: Key, except: Option<string>) returns (locked: bool)
      ensures locked == Locked(State(), except, k)
      ensures locked <==> exists t :: t in transactions && Some(t) != except && Reserves(transactions[t], k)
    {
      LockedMeans(State(), except, k);
      hide Reserves;
      var todo := transactions.Keys;
      while todo != {}
        invariant todo <= transactions.Keys
        invariant forall t ::
          t in transactions && t !in todo && Some(t) != except && transactions[t].status.Prepared? ==>
          k !in Targets(transactions[t].mutations)
        decreases todo
      {
        var t :| t in todo;
        if Some(t) != except && transactions[t].status.Prepared? && k in Targets(transactions[t].mutations) {
          return true;
        }
        todo := todo - {t};
      }
      return false;
    }

    /** Guards every mutation, then reserves its keys with their before-images. */
    method Prepare(tx: string, mutations: seq<Mutation>) returns (accepted: bool)
      modifies this
      ensures accepted <==> Participant.Prepare(old(State()), tx, mutations).Some?
      ensures State() == if accepted then Participant.Prepare(old(State()), tx, mutations).value else old(State())
      ensures accepted <==>
        if tx in old(transactions) then old(transactions)[tx].mutations == mutations
        else forall t, k :: t in old(transactions) && NamedIn(mutations, k) ==> !Reserves(old(transactions)[t], k)
      ensures db == old(db)
      ensures !accepted || tx in old(transactions) ==> transactions == old(transactions)
      ensures accepted && tx !in old(transactions) ==>
        && tx in transactions && transactions == old(transactions)[tx := transactions[tx]]
        && Reserved(transactions[tx], db, mutations)
    {
      PrepareMeans(State(), tx, mutations);
      hide Targets, Locked, Snapshot, Reserved, Reserves, NamedIn;
      ghost var p := State();
      if tx in transactions {
        return transactions[tx].mutations == mutations;
      }
      for i := 0 to |mutations|
        invariant State() == p && forall j :: 0 <= j < i ==> !Locked(p, Some(tx), mutations[j].Target())
      {
        var locked := IsLocked(mutations[i].Target(), Some(tx));
        if locked {
          TargetIn(mutations, i);
          assert mutations[i].Target() in Targets(mutations) && Locked(p, Some(tx), mutations[i].Target());
          return false;
        }
      }
      GuardedAll(p, tx, mutations);
      SnapshotNone(db);
      var before: map<Key, Option<Record>> := map[];
      for i := 0 to |mutations|
        invariant State() == p && before == Snapshot(db, Targets(mutations[..i]))
      {
        SnapshotNext(db, mutations, i);
        before := before[mutations[i].Target() := Lookup(db, mutations[i].Target())];
      }
      assert mutations[..|mutations|] == mutations;
      transactions := transactions[tx := Participant.Entry(Prepared, mutations, before)];
      return true;
    }

    /** Checks every before-image, then applies the mutations in order and journals the commit. */
    method Commit(tx: string) returns (accepted: bool)
      modifies this
      ensures accepted <==> Participant.Commit(old(State()), tx).Some?
      ensures State() == if accepted then Participant.Commit(old(State()), tx).value else old(State())
      ensures accepted <==>
        && tx in old(transactions)
        && (old(transactions)[tx].status.Committed? ||
            (old(transactions)[tx].status.Prepared? && StillHolds(old(transactions)[tx], old(db))))
      ensures accepted && old(transactions)[tx].status.Prepared? ==>
        transactions == old(transactions)[tx := old(transactions)[tx].(status := Committed)]
      ensures !(accepted && old(transactions)[tx].status.Prepared?) ==>
        transactions == old(transactions) && db == old(db)
      ensures accepted && old(transactions)[tx].status.Prepared? && MutationsOk(old(transactions)[tx].mutations) ==>
        Carried(old(db), db, old(transactions)[tx].mutations)
    {
      CommitMeans(State(), tx);
      hide Targets, StillHolds, Carried, MutationsOk;
      if tx !in transactions {
        return false;
      }
      var e := transactions[tx];
      if !e.status.Prepared? {
        return e.status.Committed?;
      }
      for i := 0 to |e.mutations|
        invariant forall j :: 0 <= j < i ==> var k := e.mutations[j].Target();
          k in e.before && Lookup(db, k) == e.before[k]
      {
        var k := e.mutations[i].Target();
        if k !in e.before || Lookup(db, k) != e.before[k] {
          TargetIn(e.mutations, i);
          return false;
        }
      }
      UnchangedAll(db, e);
      var after := db;
      for i := 0 to |e.mutations|
        invariant after == ApplyAll(db, e.mutations[..i])
      {
        assert e.mutations[..i + 1][..i] == e.mutations[..i];
        after := ApplyOne(after, e.mutations[i]);
      }
      assert e.mutations[..|e.mutations|] == e.mutations;
      db, transactions := after, transactions[tx := e.(status := Committed)];
      return true;
    }

    method Abort(tx: string)
      modifies this
      ensures State() == Participant.Abort(old(State()), tx)
      ensures db == old(db)
      ensures tx in old(transactions) && !old(transactions)[tx].status.Committed? ==>
        transactions == old(transactions)[tx := old(transactions)[tx].(status := Aborted)]
      ensures !(tx in old(transactions) && !old(transactions)[tx].status.Committed?) ==>
        transactions == old(transactions)
    {
      if tx in transactions && !transactions[tx].status.Committed? {
        transactions := transactions[tx := transactions[tx].(status := Aborted)];
      }
    }
  }

  /** The mutations name the record. */
  predicate NamedIn(ms: seq<Mutation>, k: Key) {
    exists i :: 0 <= i < |ms| && Names(ms[i], k)
  }

  /** The transaction is prepared and names the record. */
  predicate Reserves(e: Participant.Entry, k: Key) {
    e.status.Prepared? && NamedIn(e.mutations, k)
  }

  /** A fresh reservation: prepared, with the mutations and what the database holds of the records they name. */
  ghost predicate Reserved(e: Participant.Entry, db: Store, ms: seq<Mutation>) {
    && e.status == Prepared && e.mutations == ms
    && (forall k :: k in e.before <==> NamedIn(ms, k))
    && (forall k :: k in e.before ==> e.before[k] == Lookup(db, k))
  }

  /** The database still holds the before-image of every record the transaction names. */
  ghost predicate StillHolds(e: Participant.Entry, db: Store) {
    forall k :: NamedIn(e.mutations, k) ==> k in e.before && e.before[k] == Lookup(db, k)
  }

  lemma TargetsNamed(ms: seq<Mutation>, k: Key)
    ensures k in Targets(ms) <==> NamedIn(ms, k)
  {
    if k in Targets(ms) {
      var i :| 0 <= i < |ms| && ms[i].Target() == k;
      assert Names(ms[i], k);
    }
    if i :| 0 <= i < |ms| && Names(ms[i], k) {
      assert ms[i].Target() in Targets(ms);
    }
  }

  lemma LockedMeans(p: Partition, except: Option<string>, k: Key)
    ensures Locked(p, except, k) <==> exists t :: t in p.txs && Some(t) != except && Reserves(p.txs[t], k)
  {
    hide Targets, NamedIn;
    forall ms ensures k in Targets(ms) <==> NamedIn(ms, k) {
      TargetsNamed(ms, k);
    }
    if t :| t in p.txs && Some(t) != except && p.txs[t].status.Prepared? && k in Targets(p.txs[t].mutations) {
      assert Reserves(p.txs[t], k);
    }
  }

  /** What `prepare` accepts and journals, in terms of the records named. */
  lemma PrepareMeans(p: Partition, tx: string, ms: seq<Mutation>)
    ensures Participant.Prepare(p, tx, ms).Some? <==>
      if tx in p.txs then p.txs[tx].mutations == ms
      else forall t, k :: t in p.txs && NamedIn(ms, k) ==> !Reserves(p.txs[t], k)
    ensures Participant.Prepare(p, tx, ms).Some? && tx !in p.txs ==>
      var q := Participant.Prepare(p, tx, ms).value;
      q.db == p.db && tx in q.txs && q.txs == p.txs[tx := q.txs[tx]] && Reserved(q.txs[tx], p.db, ms)
  {
    hide Targets, NamedIn, Names;
    forall ms, k ensures k in Targets(ms) <==> NamedIn(ms, k) {
      TargetsNamed(ms, k);
    }
    if tx !in p.txs {
      forall t, k | t in p.txs && NamedIn(ms, k) ensures Reserves(p.txs[t], k) ==> Locked(p, Some(tx), k) {
      }
    }
  }

  lemma CommitMeans(p: Partition, tx: string)
    ensures Participant.Commit(p, tx).Some? <==>
      && tx in p.txs
      && (p.txs[tx].status.Committed? || (p.txs[tx].status.Prepared? && StillHolds(p.txs[tx], p.db)))
    ensures Participant.Commit(p, tx).Some? && p.txs[tx].status.Prepared? && MutationsOk(p.txs[tx].mutations) ==>
      Carried(p.db, Participant.Commit(p, tx).value.db, p.txs[tx].mutations)
  {
    hide Targets, NamedIn, Carried, ApplyAll, MutationsOk;
    forall ms, k ensures k in Targets(ms) <==> NamedIn(ms, k) {
      TargetsNamed(ms, k);
    }
    if tx in p.txs && p.txs[tx].status.Prepared? && MutationsOk(p.txs[tx].mutations) {
      if Participant.Commit(p, tx).Some? {
        CommitCarries(p, tx);
      }
    }
  }

  lemma TargetIn(ms: seq<Mutation>, i: nat)
    requires i < |ms|
    ensures ms[i].Target() in Targets(ms)
  {
  }

  lemma GuardedAll(p: Partition, tx: string, ms: seq<Mutation>)
    requires forall j :: 0 <= j < |ms| ==> !Locked(p, Some(tx), ms[j].Target())
    ensures !exists k :: k in Targets(ms) && Locked(p, Some(tx), k)
  {
    hide Locked;
  }

  lemma UnchangedAll(db: Store, e: Participant.Entry)
    requires forall j :: 0 <= j < |e.mutations| ==> var k := e.mutations[j].Target();
      k in e.before && Lookup(db, k) == e.before[k]
    ensures !exists k :: k in Targets(e.mutations) && (k !in e.before || Lookup(db, k) != e.before[k])
  {
  }

  lemma SnapshotNone(db: Store)
    ensures Snapshot(db, Targets([])) == map[]
  {
  }

  lemma SnapshotNext(db: Store, ms: seq<Mutation>, i: nat)
    requires i < |ms|
    ensures Snapshot(db, Targets(ms[..i + 1])) ==
      Snapshot(db, Targets(ms[..i]))[ms[i].Target() := Lookup(db, ms[i].Target())]
  {
    assert Targets(ms[..i + 1]) == Targets(ms[..i]) + {ms[i].Target()} by {
      forall k | k in Targets(ms[..i]) + {ms[i].Target()} ensures k in Targets(ms[..i + 1]) {
        if k == ms[i].Target() {
          assert ms[..i + 1][i].Target() == k;
        } else {
          var j: nat :| j < i && ms[..i][j].Target() == k;
          assert ms[..i + 1][j].Target() == k;
        }
      }
    }
  }

  /** The plan's mutations are carried out at the databases of ps; all other databases are as before. */
  ghost predicate Applied(before: map<string, Partition>, after: map<string, Partition>, plan: Plan, ps: seq<string>) {
    after.Keys == before.Keys && forall p :: p in before ==>
      if p in ps && p in plan.work then Carried(before[p].db, after[p].db, plan.work[p])
      else after[p].db == before[p].db
  }

  /** Exactly the participants in ps know tx, with this status. */
  lemma ListedAlike(before: map<string, Partition>, after: map<string, Partition>, plan: Plan)
    requires Applied(before, after, plan, Ranked(plan))
    ensures Applied(before, after, plan, plan.order)
  {
    hide Carried;
  }

  ghost predicate Exactly(parts: map<string, Partition>, tx: string, ps: seq<string>, status: Status) {
    forall p :: At(parts, p, tx) == if p in ps then Some(status) else None
  }

  lemma OnePrepared(w: World, part: Partition)
    requires Inv(w) && Enabled(w, Work) && w.place.Prepare? && w.place.i < |w.place.plan.order|
    requires var plan, p := w.place.plan, w.place.plan.order[w.place.i];
      Participant.Prepare(w.parts[p], w.place.tx, plan.work[p]) == Some(part)
    ensures var d, plan := w.journal[w.place.tx], w.place.plan;
      var p, after := plan.order[w.place.i], w.parts[plan.order[w.place.i] := part];
      && (forall before :: Applied(before, w.parts, plan, []) ==> Applied(before, after, plan, []))
      && (d.prepared == plan.order[..w.place.i] && Exactly(w.parts, w.place.tx, d.prepared, Prepared) ==>
            Exactly(after, w.place.tx, d.prepared + [p], Prepared) &&
              Add(d.prepared, p) == plan.order[..w.place.i + 1])
  {
    hide PartsOk, Known, Ranked, Targets, Snapshot, Locked, ApplyAll, Exactly, Applied, DecisionOk, Begun;
    var tx, plan, i := w.place.tx, w.place.plan, w.place.i;
    var p := plan.order[i];
    forall before | Applied(before, w.parts, plan, []) ensures Applied(before, w.parts[p := part], plan, []) {
      PreparedApplies(before, w.parts, p, part, tx, plan);
    }
    if w.journal[tx].prepared == plan.order[..i] && Exactly(w.parts, tx, w.journal[tx].prepared, Prepared) {
      assert p !in plan.order[..i];
      PreparedExactly(w.parts, p, part, tx, plan.order[..i], plan.work[p]);
    }
  }

  /** Preparing touches no database. */
  lemma PreparedApplies(before: map<string, Partition>, parts: map<string, Partition>, p: string, part: Partition,
                        tx: string, plan: Plan)
    requires Applied(before, parts, plan, []) && p in parts && p in plan.work
    requires Participant.Prepare(parts[p], tx, plan.work[p]) == Some(part)
    ensures Applied(before, parts[p := part], plan, [])
  {
    hide Targets, Snapshot, Locked, ApplyAll;
  }

  lemma PreparedExactly(parts: map<string, Partition>, p: string, part: Partition, tx: string, known: seq<string>,
                        ms: seq<Mutation>)
    requires Exactly(parts, tx, known, Prepared) && p in parts && p !in known
    requires Participant.Prepare(parts[p], tx, ms) == Some(part)
    ensures Exactly(parts[p := part], tx, known + [p], Prepared)
  {
    hide Participant.Prepare, At;
    forall q ensures At(parts[p := part], q, tx) == if q in known + [p] then Some(Prepared) else None {
      assert At(parts, q, tx) == if q in known then Some(Prepared) else None;
      PreparedStatus(parts, p, part, tx, ms, q);
    }
  }

  class DurableTransactionCoordinator {
    var parts: map<string, Partition>
    var journal: map<string, Decision>
    ghost var place: Place

    ghost function W(): World
      reads this
    {
      World(parts, journal, place)
    }

    /** One round of the prepare loop of `execute`. */
    method PrepareNext(tx: string, plan: Plan, i: nat, ghost before: map<string, Partition>, ghost unseen: bool)
      returns (accepted: bool)
      requires Inv(W()) && place == Prepare(tx, plan, i) && tx in journal && i < |plan.order|
      requires Applied(before, parts, plan, [])
      requires unseen ==> journal[tx].prepared == plan.order[..i] && Exactly(parts, tx, journal[tx].prepared, Prepared)
      modifies this
      ensures Inv(W()) && place == Prepare(tx, plan, if accepted then i + 1 else i) && tx in journal
      ensures journal[tx].plan == old(journal[tx].plan) && journal[tx].phase == old(journal[tx].phase)
      ensures Applied(before, parts, plan, [])
      ensures unseen ==>
        journal[tx].prepared == plan.order[..place.i] && Exactly(parts, tx, journal[tx].prepared, Prepared)
    {
      hide Inv, Enabled, Applied, Exactly, Participant.Prepare, Placed;
      ghost var w := W();
      CanWork(w);
      InOrderWork(w);
      Keep(w, Work);
      var p := plan.order[i];
      var part := Participant.Prepare(parts[p], tx, plan.work[p]);
      if part.None? {
        return false;
      }
      OnePrepared(w, part.value);
      parts, place := parts[p := part.value], NotePrepared(tx, plan, i);
      assert W() == Next(w, Work);
      CanWork(W());
      Keep(W(), Work);
      ghost var w1 := W();
      journal, place := journal[tx := journal[tx].(prepared := Add(journal[tx].prepared, p))], Prepare(tx, plan, i + 1);
      assert W() == Next(w1, Work);
      accepted := true;
    }

    /** The prepare loop of `execute`. */
    method PrepareAll(tx: string, plan: Plan, ghost unseen: bool) returns (accepted: bool)
      requires Inv(W()) && place == Prepare(tx, plan, 0) && tx in journal
      requires unseen ==> journal[tx].prepared == [] && Exactly(parts, tx, [], Prepared)
      modifies this
      ensures Inv(W()) && place.Prepare? && place.tx == tx && place.plan == plan && tx in journal
      ensures journal[tx].plan == old(journal[tx].plan) && journal[tx].phase == old(journal[tx].phase)
      ensures accepted ==> place.i == |plan.order|
      ensures Applied(old(parts), parts, plan, [])
      ensures unseen ==>
        place.i <= |plan.order| && journal[tx].prepared == plan.order[..place.i] &&
        Exactly(parts, tx, journal[tx].prepared, Prepared)
    {
      Untouched(parts, plan);
      hide Inv, Applied, Exactly;
      accepted := true;
      var i := 0;
      while i < |plan.order| && accepted
        invariant i <= |plan.order| && Inv(W()) && place == Prepare(tx, plan, i) && tx in journal
        invariant journal[tx].plan == old(journal[tx].plan) && journal[tx].phase == old(journal[tx].phase)
        invariant Applied(old(parts), parts, plan, [])
        invariant unseen ==>
          journal[tx].prepared == plan.order[..i] && Exactly(parts, tx, journal[tx].prepared, Prepared)
        decreases |plan.order| - i, accepted
      {
        accepted := PrepareNext(tx, plan, i, old(parts), unseen);
        if accepted {
          i := i + 1;
        }
      }
    }

    /** One round of the commit loop, of `execute` or of `recover`. */
    method CommitNext(tx: string, ghost plan: Plan, p: string, i: nat, ghost before: map<string, Partition>,
                      ghost unseen: bool)
      requires Inv(W()) && place.Commit? && place.tx == tx && place.i == i && tx in journal && journal[tx].plan == plan
      requires i < |Ranked(plan)| && Ranked(plan)[i] == p && !(place.recovering && p in journal[tx].committed)
      requires unseen ==>
        Applied(before, parts, plan, Ranked(plan)[..i]) && Halfway(parts, tx, plan.order, Ranked(plan)[..i])
      modifies this
      ensures Inv(W()) && place == Commit(tx, i + 1, old(place.recovering)) && tx in journal && journal[tx].plan == plan
      ensures journal == old(journal)[tx := journal[tx]]
      ensures unseen ==>
        Applied(before, parts, plan, Ranked(plan)[..i + 1]) && Halfway(parts, tx, plan.order, Ranked(plan)[..i + 1])
    {
      hide Inv, Enabled, Applied, Halfway, Participant.Commit, Placed, Ranked;
      ghost var w := W();
      CanWork(w);
      Keep(w, Work);
      WorkCommitOne(w);
      AskedExists(w, p);
      var part := Participant.Commit(parts[p], tx).value;
      if unseen {
        OneCommitted(w, p, part, before);
      }
      parts, place := parts[p := part], NoteCommitted(tx, i, place.recovering);
      assert W() == Next(w, Work);
      CanWork(W());
      Keep(W(), Work);
      ghost var w1 := W();
      journal, place :=
        journal[tx := journal[tx].(committed := Add(journal[tx].committed, p))], Commit(tx, i + 1, place.recovering);
      assert W() == Next(w1, Work);
    }

    /** The commit loop over the sorted participants; recovery passes over those already noted as committed. */
    method CommitAll(tx: string, ghost plan: Plan, ranked: seq<string>, recovering: bool,
                     ghost before: map<string, Partition>, ghost unseen: bool)
      requires Inv(W()) && place == Commit(tx, 0, recovering) && tx in journal && journal[tx].plan == plan &&
        ranked == Ranked(plan)
      requires unseen ==> !recovering && Applied(before, parts, plan, []) && Halfway(parts, tx, plan.order, [])
      modifies this
      ensures Inv(W()) && place == Idle && tx in journal && journal[tx].plan == plan && journal[tx].phase.Done?
      ensures journal == old(journal)[tx := journal[tx]]
      ensures unseen ==> Applied(before, parts, plan, ranked)
    {
      hide Inv, Applied, Halfway, Enabled, Ranked;
      var i := 0;
      while i < |ranked|
        invariant i <= |ranked| && Inv(W()) && place == Commit(tx, i, recovering) && tx in journal &&
          journal[tx].plan == plan
        invariant journal == old(journal)[tx := journal[tx]]
        invariant unseen ==> Applied(before, parts, plan, ranked[..i]) && Halfway(parts, tx, plan.order, ranked[..i])
      {
        if recovering && ranked[i] in journal[tx].committed {
          ghost var w := W();
          CanWork(w);
          Keep(w, Work);
          place := Commit(tx, i + 1, true);
          assert W() == Next(w, Work);
        } else {
          CommitNext(tx, plan, ranked[i], i, before, unseen);
        }
        i := i + 1;
      }
      assert ranked[..i] == ranked;
      ghost var w := W();
      CanWork(w);
      Keep(w, Work);
      journal, place := journal[tx := journal[tx].(phase := Done)], Idle;
      assert W() == Next(w, Work);
    }

    method AbortNext(tx: string, ghost plan: Plan, i: nat, ghost known: seq<string>,
                     ghost before: map<string, Partition>, ghost unseen: bool)
      requires Inv(W()) && place == Abort(tx, i) && tx in journal && journal[tx].plan == plan &&
        journal[tx].prepared == known && i < |known|
      requires Applied(before, parts, plan, []) && (unseen ==> Others(parts, tx, known))
      modifies this`parts, this`place
      ensures Inv(W()) && place == Abort(tx, i + 1)
      ensures Applied(before, parts, plan, []) && (unseen ==> Others(parts, tx, known))
    {
      hide Inv, Applied, Enabled, Others, Participant.Abort, Placed;
      ghost var w := W();
      CanWork(w);
      Keep(w, Work);
      AbortPlace(w);
      var p := journal[tx].prepared[i];
      OneAborted(parts, before, tx, plan, known, p);
      parts, place := parts[p := Participant.Abort(parts[p], tx)], Abort(tx, i + 1);
      assert W() == Next(w, Work);
    }

    /** The abort loop over the participants noted as prepared. */
    method AbortAll(tx: string, ghost plan: Plan, ghost unseen: bool)
      requires Inv(W()) && place == Abort(tx, 0) && tx in journal && journal[tx].plan == plan
      requires unseen ==> Exactly(parts, tx, journal[tx].prepared, Prepared)
      modifies this
      ensures Inv(W()) && place == Idle && tx in journal && journal[tx].plan == plan && journal[tx].phase.Undone?
      ensures journal == old(journal)[tx := journal[tx]]
      ensures Applied(old(parts), parts, plan, [])
      ensures unseen ==> forall p :: At(parts, p, tx) != Some(Prepared)
    {
      hide Inv, Applied, Enabled, Exactly, Others, Placed;
      Untouched(parts, plan);
      ghost var known := journal[tx].prepared;
      if unseen {
        AbortStart(parts, tx, known);
      }
      var i := 0;
      while i < |journal[tx].prepared|
        invariant journal == old(journal)
        invariant i <= |known| && Inv(W()) && place == Abort(tx, i) && tx in journal && journal[tx].plan == plan &&
          journal[tx].prepared == known
        invariant Applied(old(parts), parts, plan, []) && (unseen ==> Others(parts, tx, known))
      {
        AbortNext(tx, plan, i, known, old(parts), unseen);
        i := i + 1;
      }
      ghost var w := W();
      CanWork(w);
      Keep(w, Work);
      journal, place := journal[tx := journal[tx].(phase := Undone)], Idle;
      assert W() == Next(w, Work);
      if unseen {
        AbortEnd(W(), tx, known);
      }
    }

    /**
     * `execute` with no crash. A transaction new to the coordinator either ends committed, with every participant's
     * mutations on top of its former database, or leaves every database as it was and nothing reserved for it.
     */
    method Execute(tx: string, plan: Plan) returns (committed: bool)
      requires Inv(W()) && place.Idle? && PlanOk(parts.Keys, plan) && Respectful(W(), Distributed.Execute(tx, plan))
      modifies this
      ensures Inv(W()) && place.Idle?
      ensures committed ==>
        tx in journal && journal[tx].phase.Done? && AllCommitted(parts, tx, journal[tx].plan.order)
      ensures tx !in old(journal) ==> Applied(old(parts), parts, plan, if committed then plan.order else [])
      ensures tx !in old(journal) && !committed ==> forall p :: At(parts, p, tx) != Some(Prepared)
    {
      hide Inv, PlanOk, Applied, Exactly, Halfway, Ranked, Respectful, Begun;
      ghost var w := W();
      Keep(w, Distributed.Execute(tx, plan));
      Untouched(parts, plan);
      if tx in journal && (journal[tx].phase.Done? || journal[tx].plan.work != plan.work) {
        if journal[tx].phase.Done? {
          DoneEverywhere(W(), tx);
        }
        return journal[tx].phase.Done?;
      }
      ghost var unseen := tx !in journal;
      if tx !in journal {
        NotSeen(w, tx);
        journal := journal[tx := Decision(Preparing, plan, [], [])];
      }
      place := Distributed.Prepare(tx, plan, 0);
      assert W() == Next(w, Distributed.Execute(tx, plan));
      committed := Run(tx, plan, unseen);
      if committed {
        DoneEverywhere(W(), tx);
        if unseen {
          ListedAlike(w.parts, parts, plan);
        }
      }
    }

    method Run(tx: string, plan: Plan, ghost unseen: bool) returns (committed: bool)
      requires Inv(W()) && place == Prepare(tx, plan, 0) && tx in journal
      requires unseen ==> journal[tx].plan == plan && journal[tx].phase.Preparing? && journal[tx].prepared == []
      requires unseen ==> Exactly(parts, tx, [], Prepared)
      modifies this
      ensures Inv(W()) && place.Idle?
      ensures committed ==> tx in journal && journal[tx].phase.Done?
      ensures unseen ==> Applied(old(parts), parts, plan, if committed then Ranked(plan) else [])
      ensures unseen && !committed ==> forall p :: At(parts, p, tx) != Some(Prepared)
    {
      hide Inv, PlanOk, Applied, Exactly, Halfway, Ranked, Enabled;
      committed := PrepareAll(tx, plan, unseen);
      ghost var w := W();
      ghost var journalled := journal[tx].plan;
      if committed {
        CanWork(w);
        Keep(w, Work);
        if unseen {
          assert plan.order[..|plan.order|] == plan.order;
          PreparedHalfway(parts, tx, plan.order);
        }
        CallRanked(w);
        journal, place := journal[tx := journal[tx].(phase := Committing)], Commit(tx, 0, false);
        assert W() == Next(w, Work);
        var ranked := Sort(plan.order);
        assert ranked == Ranked(journalled) by { RankedSorted(plan); }
        CommitAll(tx, journalled, ranked, false, old(parts), unseen);
      } else if journal[tx].phase.Preparing? {
        RefusedInv(w);
        journal, place := journal[tx := journal[tx].(phase := Aborting)], Abort(tx, 0);
        AbortAll(tx, journalled, unseen);
        if unseen {
          AppliedTwice(old(parts), w.parts, parts, plan);
        }
      } else {
        CrashInv(w);
        place := Idle;
      }
    }

    /** One entry of `recover`. */
    method RecoverOne(tx: string)
      requires Inv(W()) && place.Idle? && tx in journal
      modifies this
      ensures Inv(W()) && place.Idle? && tx in journal && journal == old(journal)[tx := journal[tx]]
      ensures journal[tx].phase == Resolved(old(journal[tx].phase))
    {
      hide Inv, Ranked, Applied, Exactly, Halfway;
      ghost var w := W();
      Keep(w, Distributed.Recover(tx));
      var d := journal[tx];
      if d.phase.Committing? {
        place := Commit(tx, 0, true);
        assert W() == Next(w, Distributed.Recover(tx));
        var ranked := Sort(d.plan.order);
        assert ranked == Ranked(d.plan) by { RankedSorted(d.plan); }
        CommitAll(tx, d.plan, ranked, true, parts, false);
      } else if d.phase.Preparing? || d.phase.Aborting? {
        place := Abort(tx, 0);
        assert W() == Next(w, Distributed.Recover(tx));
        AbortAll(tx, d.plan, false);
      }
    }

    /**
     * `recover` without a crash decides every transaction: what was committing is committed, what was not is aborted.
     */
    method Recover()
      requires Inv(W()) && place.Idle?
      modifies this
      ensures Inv(W()) && place.Idle? && journal.Keys == old(journal.Keys)
      ensures forall tx :: tx in journal ==> journal[tx].phase == Resolved(old(journal)[tx].phase)
    {
      hide Inv;
      var todo := journal.Keys;
      while todo != {}
        invariant Inv(W()) && place.Idle? && journal.Keys == old(journal.Keys) && todo <= journal.Keys
        invariant forall tx :: tx in journal ==>
          journal[tx].phase == if tx in todo then old(journal)[tx].phase else Resolved(old(journal)[tx].phase)
        decreases todo
      {
        var tx :| tx in todo;
        RecoverOne(tx);
        todo := todo - {tx};
      }
    }
  }

  lemma DoneEverywhere(w: World, tx: string)
    requires Inv(w) && tx in w.journal && w.journal[tx].phase.Done?
    ensures AllCommitted(w.parts, tx, w.journal[tx].plan.order)
  {
    hide PartsOk, Known, PlaceOk, PlanOk, Follows, At;
    assert DecisionOk(w.parts, tx, w.journal[tx]);
  }

  lemma RankedSorted(plan: Plan)
    ensures Ranked(plan) == Sorted(set p | p in plan.order)
  {
  }

  /** The participants of the call's plan are asked to commit in the order of the journalled one. */
  lemma CallRanked(w: World)
    requires Inv(w) && w.place.Prepare?
    ensures w.place.tx in w.journal && Ranked(w.place.plan) == Ranked(w.journal[w.place.tx].plan)
  {
    hide PartsOk, Known, Ranked, Lists, Follows, Agrees;
    assert DecisionOk(w.parts, w.place.tx, w.journal[w.place.tx]);
    SameRanked(w.place.plan, w.journal[w.place.tx].plan);
  }

  lemma NotSeen(w: World, tx: string)
    requires Inv(w) && tx !in w.journal
    ensures Exactly(w.parts, tx, [], Prepared)
  {
    forall p ensures At(w.parts, p, tx).None? {
      assert Seen(w.parts, p, tx).None?;
    }
  }

  lemma PreparedHalfway(parts: map<string, Partition>, tx: string, order: seq<string>)
    requires Exactly(parts, tx, order, Prepared)
    ensures Halfway(parts, tx, order, [])
  {
  }

  lemma RefusedInv(w: World)
    requires Inv(w) && w.place.Prepare? && w.place.tx in w.journal && w.journal[w.place.tx].phase.Preparing?
    ensures Inv(w.(journal := w.journal[w.place.tx := w.journal[w.place.tx].(phase := Aborting)],
      place := Abort(w.place.tx, 0)))
  {
    hide Inv;
    Refuse(w);
  }

  lemma AppliedTwice(a: map<string, Partition>, b: map<string, Partition>, c: map<string, Partition>, plan: Plan)
    requires Applied(a, b, plan, []) && Applied(b, c, plan, [])
    ensures Applied(a, c, plan, [])
  {
    hide ApplyAll;
    assert forall p :: p in a ==> p in b && p in c;
  }

  /** tx is committed at `done`, still prepared at the other participants of its plan, and unknown elsewhere. */
  ghost predicate Halfway(parts: map<string, Partition>, tx: string, order: seq<string>, done: seq<string>) {
    forall p :: At(parts, p, tx) == if p !in order then None else if p in done then Some(Committed) else Some(Prepared)
  }

  ghost predicate Others(parts: map<string, Partition>, tx: string, known: seq<string>) {
    forall p :: p !in known ==> At(parts, p, tx).None?
  }

  lemma Untouched(parts: map<string, Partition>, plan: Plan)
    ensures Applied(parts, parts, plan, [])
  {
  }

  lemma AbortStart(parts: map<string, Partition>, tx: string, known: seq<string>)
    requires Exactly(parts, tx, known, Prepared)
    ensures Others(parts, tx, known)
  {
  }

  lemma AbortPlace(w: World)
    requires Enabled(w, Work) && w.place.Abort? && w.place.i < |w.journal[w.place.tx].prepared|
    ensures w.journal[w.place.tx].prepared[w.place.i] in w.parts
  {
  }

  lemma OneAborted(parts: map<string, Partition>, before: map<string, Partition>, tx: string, plan: Plan,
                   known: seq<string>, p: string)
    requires p in parts && p in known
    ensures Applied(before, parts, plan, []) ==> Applied(before, parts[p := Participant.Abort(parts[p], tx)], plan, [])
    ensures Others(parts, tx, known) ==> Others(parts[p := Participant.Abort(parts[p], tx)], tx, known)
  {
    hide ApplyAll;
    var after := parts[p := Participant.Abort(parts[p], tx)];
    if Others(parts, tx, known) {
      forall q | q !in known ensures At(after, q, tx).None? {
        assert At(parts, q, tx).None?;
      }
    }
  }

  lemma AbortEnd(w: World, tx: string, known: seq<string>)
    requires Inv(w) && tx in w.journal && w.journal[tx].phase.Undone? && w.journal[tx].prepared == known &&
      Others(w.parts, tx, known)
    ensures forall p :: At(w.parts, p, tx) != Some(Prepared)
  {
    hide PartsOk, Known, PlaceOk, PlanOk, Follows, At;
    assert DecisionOk(w.parts, tx, w.journal[tx]);
  }

  lemma OneCommitted(w: World, p: string, part: Partition, before: map<string, Partition>)
    requires Inv(w) && Enabled(w, Work) && Asks(w, p) && p in w.parts
    requires Participant.Commit(w.parts[p], w.place.tx) == Some(part)
    requires var d, done := w.journal[w.place.tx], Ranked(w.journal[w.place.tx].plan)[..w.place.i];
      Applied(before, w.parts, d.plan, done) && Halfway(w.parts, w.place.tx, d.plan.order, done)
    ensures var d, done := w.journal[w.place.tx], Ranked(w.journal[w.place.tx].plan)[..w.place.i + 1];
      Applied(before, w.parts[p := part], d.plan, done) && Halfway(w.parts[p := part], w.place.tx, d.plan.order, done)
  {
    hide Inv, Enabled, Applied, Halfway, Planned, Participant.Commit, Ranked, Seen;
    var tx, i := w.place.tx, w.place.i;
    var d := w.journal[tx];
    RankedIs(d.plan, i);
    RankedOnce(d.plan, i);
    assert Ranked(d.plan)[..i + 1] == Ranked(d.plan)[..i] + [p];
    HalfwayNext(w.parts, p, part, tx, d.plan.order, Ranked(d.plan)[..i]);
    InOrder(w, tx, p);
    AppliedNext(before, w.parts, p, part, tx, d, Ranked(d.plan)[..i]);
  }

  lemma HalfwayNext(parts: map<string, Partition>, p: string, part: Partition, tx: string, order: seq<string>,
                    done: seq<string>)
    requires Halfway(parts, tx, order, done) && p in order && p !in done && p in parts
    requires Participant.Commit(parts[p], tx) == Some(part)
    ensures Halfway(parts[p := part], tx, order, done + [p])
    ensures Seen(parts, p, tx).Some? && parts[p].txs[tx].status == Prepared
  {
    hide Targets, ApplyAll;
    assert At(parts, p, tx) == Some(Prepared);
    forall q ensures At(parts[p := part], q, tx) ==
      if q !in order then None else if q in done + [p] then Some(Committed) else Some(Prepared) {
      assert At(parts, q, tx) == if q !in order then None else if q in done then Some(Committed) else Some(Prepared);
    }
  }

  lemma AppliedNext(before: map<string, Partition>, parts: map<string, Partition>, p: string, part: Partition,
                    tx: string, d: Decision, done: seq<string>)
    requires Applied(before, parts, d.plan, done) && p in parts && p !in done
    requires Seen(parts, p, tx).Some? && parts[p].txs[tx].status == Prepared
    requires Planned(d.plan, p, Seen(parts, p, tx).value.mutations)
    requires Participant.Commit(parts[p], tx) == Some(part)
    requires MutationsOk(d.plan.work[p])
    ensures Applied(before, parts[p := part], d.plan, done + [p])
  {
    hide Targets, ApplyAll, Carried, MutationsOk;
    CommitCarries(parts[p], tx);
  }

  lemma RankedOnce(plan: Plan, i: nat)
    requires i < |Ranked(plan)|
    ensures Ranked(plan)[i] !in Ranked(plan)[..i]
  {
    var r := Ranked(plan);
    forall j | 0 <= j < i ensures r[j] != r[i] {
      LessIrreflexive(r[j]);
    }
  }

  lemma InOrderWork(w: World)
    requires Enabled(w, Work) && w.place.Prepare?
    ensures var plan, i := w.place.plan, w.place.i;
      i <= |plan.order| && (i < |plan.order| ==> plan.order[i] in w.parts && plan.order[i] in plan.work)
  {
  }
}
