/**
 * `DurablePartitionParticipant` of src/distributed.js: the journal of one partition, its locks, and the before-images
 * that a prepared transaction keeps until it is decided.
 */
module Participant {
  import opened Basics
  import opened Json

  type Store = map<Key, Record>

  datatype Mutation = Put(collection: string, record: Record) | Remove(collection: string, id: string) {
    function Target(): Key {
      if Put? then Key(collection, record.id) else Key(collection, id)
    }
  }

  datatype Status = Prepared | Committed | Aborted

  datatype Entry = Entry(status: Status, mutations: seq<Mutation>, before: map<Key, Option<Record>>)

  /** The partition's database and its journal. */
  datatype Partition = Partition(db: Store, txs: map<string, Entry>)

  /** `validateMutations`: something to do, and at different records. */
  predicate MutationsOk(ms: seq<Mutation>) {
    ms != [] && forall i, j :: 0 <= i < j < |ms| ==> ms[i].Target() != ms[j].Target()
  }

  function Targets(ms: seq<Mutation>): set<Key> {
    set i | 0 <= i < |ms| :: ms[i].Target()
  }

  function ApplyOne(db: Store, m: Mutation): Store {
    match m
    case Put(_, r) => db[m.Target() := r]
    case Remove(_, _) => db - {m.Target()}
  }

  function ApplyAll(db: Store, ms: seq<Mutation>): Store {
    if ms == [] then db else ApplyOne(ApplyAll(db, ms[..|ms| - 1]), ms[|ms| - 1])
  }

  /** `isLocked`: another transaction that is still prepared has reserved the key. */
  predicate Locked(p: Partition, except: Option<string>, k: Key) {
    exists t :: t in p.txs && Some(t) != except && p.txs[t].status.Prepared? && k in Targets(p.txs[t].mutations)
  }

  function Snapshot(db: Store, keys: set<Key>): map<Key, Option<Record>> {
    map k | k in keys :: Lookup(db, k)
  }

  /** `prepare`; None when it throws. */
  function Prepare(p: Partition, tx: string, ms: seq<Mutation>): Option<Partition> {
    if tx in p.txs then
      if p.txs[tx].mutations == ms then Some(p) else None
    else if exists k :: k in Targets(ms) && Locked(p, Some(tx), k) then None
    else Some(p.(txs := p.txs[tx := Entry(Prepared, ms, Snapshot(p.db, Targets(ms)))]))
  }

  /** `commit`, with the database write and the journal entry as one step; None when it throws. */
  function Commit(p: Partition, tx: string): Option<Partition> {
    if tx !in p.txs then None
    else
      var e := p.txs[tx];
      match e.status
      case Committed => Some(p)
      case Aborted => None
      case Prepared =>
        if exists k :: k in Targets(e.mutations) && (k !in e.before || Lookup(p.db, k) != e.before[k]) then None
        else Some(Partition(ApplyAll(p.db, e.mutations), p.txs[tx := e.(status := Committed)]))
  }

  /** `abort`; the coordinator ignores its refusal to abort a committed transaction. */
  function Abort(p: Partition, tx: string): Partition {
    if tx !in p.txs || p.txs[tx].status.Committed? then p
    else p.(txs := p.txs[tx := p.txs[tx].(status := Aborted)])
  }

  function Overwrite(db: Store, writes: map<Key, Option<Record>>): Store {
    map k | k in db.Keys + writes.Keys && (if k in writes then writes[k].Some? else true)
      :: if k in writes then writes[k].value else db[k]
  }

  /** Two prepared transactions never reserve the same key. */
  ghost predicate Disjoint(p: Partition) {
    forall s, t :: s in p.txs && t in p.txs && s != t && p.txs[s].status.Prepared? && p.txs[t].status.Prepared? ==>
      Targets(p.txs[s].mutations) !! Targets(p.txs[t].mutations)
  }

  ghost predicate FrozenAt(p: Partition, t: string)
    requires t in p.txs
  {
    p.txs[t].status.Prepared? ==> p.txs[t].before == Snapshot(p.db, Targets(p.txs[t].mutations))
  }

  /** Every before-image of a prepared transaction still is what the database holds. */
  ghost predicate Frozen(p: Partition) {
    forall t :: t in p.txs ==> FrozenAt(p, t)
  }

  ghost predicate Ok(p: Partition) {
    Disjoint(p) && Frozen(p)
  }

  lemma {:induction false} ApplyAllElsewhere(db: Store, ms: seq<Mutation>, k: Key)
    requires k !in Targets(ms)
    ensures Lookup(ApplyAll(db, ms), k) == Lookup(db, k)
  {
    if ms != [] {
      var init, m := ms[..|ms| - 1], ms[|ms| - 1];
      assert m.Target() in Targets(ms);
      assert Targets(init) <= Targets(ms);
      ApplyAllElsewhere(db, init, k);
    }
  }

  // ---------------------------------------------------------------- what a commit does to the database

  predicate Names(m: Mutation, k: Key) {
    match m
    case Put(c, r) => k == Key(c, r.id)
    case Remove(c, id) => k == Key(c, id)
  }

  /** The put record is there; the removed one is not. */
  predicate Shows(db: Store, m: Mutation) {
    match m
    case Put(c, r) => Lookup(db, Key(c, r.id)) == Some(r)
    case Remove(c, id) => Lookup(db, Key(c, id)) == None
  }

  /** Every mutation has taken effect, and no record is changed that none of them names. */
  ghost predicate Carried(before: Store, after: Store, ms: seq<Mutation>) {
    && (forall i :: 0 <= i < |ms| ==> Shows(after, ms[i]))
    && (forall k :: (forall i :: 0 <= i < |ms| ==> !Names(ms[i], k)) ==> Lookup(after, k) == Lookup(before, k))
  }

  lemma {:induction false} ApplyAllCarries(db: Store, ms: seq<Mutation>)
    requires forall i, j :: 0 <= i < j < |ms| ==> ms[i].Target() != ms[j].Target()
    ensures Carried(db, ApplyAll(db, ms), ms)
  {
    if ms != [] {
      var init, m := ms[..|ms| - 1], ms[|ms| - 1];
      ApplyAllCarries(db, init);
      forall i | 0 <= i < |ms| ensures Shows(ApplyAll(db, ms), ms[i]) {
        if i < |init| {
          assert Shows(ApplyAll(db, init), init[i]) && ms[i].Target() != m.Target();
        }
      }
      forall k | forall i :: 0 <= i < |ms| ==> !Names(ms[i], k) ensures Lookup(ApplyAll(db, ms), k) == Lookup(db, k) {
        assert !Names(ms[|ms| - 1], k);
        assert forall i :: 0 <= i < |init| ==> init[i] == ms[i];
      }
    }
  }

  /** Committing a prepared transaction carries out its mutations, each on a different record. */
  lemma CommitCarries(p: Partition, tx: string)
    requires tx in p.txs && p.txs[tx].status.Prepared? && MutationsOk(p.txs[tx].mutations) && Commit(p, tx).Some?
    ensures Carried(p.db, Commit(p, tx).value.db, p.txs[tx].mutations)
  {
    ApplyAllCarries(p.db, p.txs[tx].mutations);
  }

  lemma PrepareKeepsOk(p: Partition, tx: string, ms: seq<Mutation>)
    requires Ok(p) && Prepare(p, tx, ms).Some?
    ensures Ok(Prepare(p, tx, ms).value)
  {
    var q := Prepare(p, tx, ms).value;
    hide Targets, Snapshot;
    if tx !in p.txs {
      forall t | t in p.txs && p.txs[t].status.Prepared? ensures Targets(p.txs[t].mutations) !! Targets(ms) {
        forall k | k in Targets(ms) ensures k !in Targets(p.txs[t].mutations) {
          assert !Locked(p, Some(tx), k);
        }
      }
      forall t | t in q.txs ensures FrozenAt(q, t) {
        assert t != tx ==> FrozenAt(p, t);
      }
    }
  }

  lemma CommitKeepsOk(p: Partition, tx: string)
    requires Ok(p) && Commit(p, tx).Some?
    ensures Ok(Commit(p, tx).value)
  {
    hide Targets, ApplyAll;
    var q := Commit(p, tx).value;
    if p.txs[tx].status.Prepared? {
      forall t | t in q.txs ensures FrozenAt(q, t) {
        assert FrozenAt(p, t);
        if q.txs[t].status.Prepared? {
          forall k | k in Targets(q.txs[t].mutations) ensures Lookup(q.db, k) == Lookup(p.db, k) {
            ApplyAllElsewhere(p.db, p.txs[tx].mutations, k);
          }
        }
      }
    }
  }

  /** With frozen before-images the check of `commit` cannot fail. */
  lemma CommitAccepted(p: Partition, tx: string)
    requires Ok(p) && tx in p.txs && !p.txs[tx].status.Aborted?
    ensures Commit(p, tx).Some?
  {
    hide Targets;
    assert FrozenAt(p, tx);
  }

  lemma AbortKeepsOk(p: Partition, tx: string)
    requires Ok(p)
    ensures Ok(Abort(p, tx))
  {
    hide Targets, Snapshot;
    var q := Abort(p, tx);
    forall t | t in q.txs ensures FrozenAt(q, t) {
      assert FrozenAt(p, t);
    }
  }

  /** A write whose guard passed. */
  lemma GuardedWriteKeepsOk(p: Partition, writes: map<Key, Option<Record>>)
    requires Ok(p) && forall k :: k in writes ==> !Locked(p, None, k)
    ensures Ok(p.(db := Overwrite(p.db, writes)))
  {
    hide Targets;
    var q := p.(db := Overwrite(p.db, writes));
    forall t | t in q.txs ensures FrozenAt(q, t) {
      assert FrozenAt(p, t);
      if p.txs[t].status.Prepared? {
        forall k | k in Targets(p.txs[t].mutations) ensures Lookup(q.db, k) == Lookup(p.db, k) {
          assert k in writes ==> !Locked(p, None, k);
        }
      }
    }
  }
}
