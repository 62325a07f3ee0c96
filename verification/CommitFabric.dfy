/**
 * The commit envelope of src/commit-fabric.js. SHA-256 is a free constructor:
 * two digests are equal exactly when the digested bodies are.
 */
module CommitFabric {
  import opened Basics
  import opened Json
  import Ordering

  datatype Mutation = Mutation(put: bool, key: Key, fields: set<string>, record: Option<Record>)

  datatype Body = Body(
    version: nat,
    databaseId: string,
    partitionId: Option<string>,
    sequence: nat,
    logicalTime: int,
    transactionId: string,
    origin: Option<string>,
    mutations: seq<Mutation>,
    schemaVersion: nat,
    policyVersion: nat,
    causalParents: seq<string>)

  datatype Digest = Sha256(body: Body)

  /** The first sixteen hexadecimal digits of a digest. */
  datatype Prefix = First16(digest: Digest)

  datatype CommitId = CommitId(databaseId: string, partitionId: Option<string>, sequence: nat, prefix: Prefix)

  datatype Fabric = Fabric(body: Body, commitId: CommitId, checksum: Digest)

  /** What a caller supplies beside the mutations and the sequence; None is an explicit null, which passes defaults. */
  datatype Context = Context(
    partitionId: Option<string>,
    logicalTime: int,
    transactionId: string,
    origin: Option<string>,
    causalParents: set<string>)
  {
    predicate Named() {
      partitionId.Some? && origin.Some?
    }
  }

  function IdOf(body: Body): CommitId {
    CommitId(body.databaseId, body.partitionId, body.sequence, First16(Sha256(body)))
  }

  /** The envelope's body says all that the commit is: its place, its changes and where it comes from. */
  ghost predicate Describes(body: Body, databaseId: string, sequence: nat, mutations: seq<Mutation>, c: Context) {
    && body.version == body.schemaVersion == body.policyVersion == 1
    && body.databaseId == databaseId && body.sequence == sequence && body.mutations == mutations
    && body.partitionId == c.partitionId && body.origin == c.origin
    && body.transactionId == c.transactionId && body.logicalTime == c.logicalTime
    && Ordering.StrictlySorted(body.causalParents)
    && (forall p :: p in body.causalParents <==> p in c.causalParents)
  }

  /** `createCommitFabric`; None is its TypeError. */
  function Create(databaseId: string, sequence: nat, mutations: seq<Mutation>, c: Context): (r: Option<Fabric>)
    ensures r.Some? <==> databaseId != "" && sequence >= 1
    ensures r.Some? ==> Verify(r.value) && Describes(r.value.body, databaseId, sequence, mutations, c)
  {
    if databaseId == "" || sequence < 1 then None
    else
      var body := Body(1, databaseId, c.partitionId, sequence, c.logicalTime, c.transactionId, c.origin,
                       mutations, 1, 1, Ordering.Sorted(c.causalParents));
      Some(Fabric(body, IdOf(body), Sha256(body)))
  }

  predicate Verify(f: Fabric) {
    f.body.version == 1 && f.checksum == Sha256(f.body) && f.commitId == IdOf(f.body)
  }

  /** A checksum pins the whole envelope: two envelopes that verify under one checksum are the same envelope. */
  lemma ChecksumPinsEnvelope(f: Fabric, g: Fabric)
    requires Verify(f) && Verify(g)
    ensures f.checksum == g.checksum <==> f == g
    ensures f.commitId == g.commitId <==> f == g
  {
  }
}
