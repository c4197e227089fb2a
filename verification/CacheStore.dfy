/**
 Cache entries: what a directory holds and what a reader makes of it. `CacheProtocol.dfy`
 lets any number of publishers and readers interleave.
 */
module CacheStores {
  import opened Wrappers
  import opened Orderings

  datatype CacheTarget = BinaryTarget | LibraryTarget | TestTarget

  /** What an entry is for. `build` stands for the compiler version and the host. */
  datatype Identity = Identity(fingerprint: nat, build: nat, edition: nat, target: CacheTarget)

  datatype Artifact = Artifact(llvmIr: Text, testNames: seq<Text>)

  datatype Metadata = Metadata(
    identity: Identity, testNames: seq<Text>, testNamesHash: nat, payloadBytes: nat, payloadHash: nat)

  /** The hash, and the rules on test names and on the size of the metadata file. */
  datatype Rules = Rules(
    hash: Text -> nat, namesHash: seq<Text> -> nat, namesValid: (CacheTarget, seq<Text>) -> bool,
        fits: Metadata -> bool)

  ghost predicate CollisionFree(rules: Rules) {
    forall x, y | rules.hash(x) == rules.hash(y) :: x == y
  }

  datatype MetadataFile = Parsed(metadata: Metadata) | Garbage

  datatype Directory = Directory(metadata: Option<MetadataFile>, payload: Option<Text>)

  datatype MissReason = Missing | Unreadable | InvalidMetadata | IncompatibleMetadata | InvalidPayload

  datatype Lookup = Hit(artifact: Artifact) | Miss(reason: MissReason)

  /* ----- entries ----- */

  function MetadataFor(rules: Rules, identity: Identity, artifact: Artifact): Metadata {
    Metadata(identity, artifact.testNames, rules.namesHash(artifact.testNames), |artifact.llvmIr|,
             rules.hash(artifact.llvmIr))
  }

  function Entry(rules: Rules, identity: Identity, artifact: Artifact): Directory {
    Directory(Some(Parsed(MetadataFor(rules, identity, artifact))), Some(artifact.llvmIr))
  }

  /** `is_compatible_with`. */
  predicate Compatible(rules: Rules, m: Metadata, identity: Identity) {
    && m.identity == identity
    && rules.namesValid(identity.target, m.testNames)
    && m.testNamesHash == rules.namesHash(m.testNames)
  }

  /** An artifact the store will keep: its own entry reads back. */
  predicate Storable(rules: Rules, identity: Identity, artifact: Artifact) {
    rules.namesValid(identity.target, artifact.testNames) && rules.fits(MetadataFor(rules, identity, artifact))
  }

  /* ----- reading, one file-system access at a time ----- */

  datatype Reading = AtStat | AtMetadata | AtPayload(metadata: Metadata) | Done(lookup: Lookup)

  function ReadMetadata(rules: Rules, file: Option<MetadataFile>, identity: Identity): Reading {
    match file
    case None => Done(Miss(Unreadable))
    case Some(Garbage) => Done(Miss(InvalidMetadata))
    case Some(Parsed(m)) =>
      if !rules.fits(m) then Done(Miss(InvalidMetadata))
      else if !Compatible(rules, m, identity) then Done(Miss(IncompatibleMetadata))
      else AtPayload(m)
  }

  function ReadPayload(rules: Rules, m: Metadata, payload: Option<Text>): Lookup {
    match payload
    case None => Miss(InvalidPayload)
    case Some(bytes) =>
      if |bytes| != m.payloadBytes || rules.hash(bytes) != m.payloadHash then Miss(InvalidPayload)
      else Hit(Artifact(bytes, m.testNames))
  }

  /** The next access of `read_entry_at`, when the path leads to `at`. */
  function ReadStep(rules: Rules, at: Option<Directory>, identity: Identity, r: Reading): Reading {
    match r
    case AtStat => if at.None? then Done(Miss(Missing)) else AtMetadata
    case AtMetadata =>
      if at.None? then Done(Miss(Unreadable)) else ReadMetadata(rules, at.value.metadata, identity)
    case AtPayload(m) =>
      Done(if at.None? then Miss(InvalidPayload) else ReadPayload(rules, m, at.value.payload))
    case Done(_) => r
  }

  /** All accesses at once, with nothing in between. */
  function ReadEntry(rules: Rules, at: Option<Directory>, identity: Identity): Lookup {
    match at
    case None => Miss(Missing)
    case Some(d) =>
      match ReadMetadata(rules, d.metadata, identity)
      case AtPayload(m) => ReadPayload(rules, m, d.payload)
      case Done(l) => l
      case _ => Miss(Unreadable)
  }

  /**
   An entry is a hit exactly if its metadata parses within bounds, is of this identity with
   valid test names that match their hash, and the payload has the length and hash it states.
   */
  lemma HitExactly(rules: Rules, at: Option<Directory>, identity: Identity, artifact: Artifact)
    ensures ReadEntry(rules, at, identity) == Hit(artifact) <==>
            && at.Some? && at.value.metadata.Some? && at.value.metadata.value.Parsed?
            && var m := at.value.metadata.value.metadata;
               && rules.fits(m) && m.identity == identity && rules.namesValid(identity.target, m.testNames)
               && m.testNamesHash == rules.namesHash(m.testNames) && m.testNames == artifact.testNames
               && at.value.payload == Some(artifact.llvmIr)
               && m.payloadBytes == |artifact.llvmIr| && m.payloadHash == rules.hash(artifact.llvmIr)
  {
    assert Artifact(artifact.llvmIr, artifact.testNames) == artifact;
  }

  /** Only a path with nothing at it is a missing entry. */
  lemma MissingExactly(rules: Rules, at: Option<Directory>, identity: Identity)
    ensures ReadEntry(rules, at, identity) == Miss(Missing) <==> at.None?
  {
  }

  lemma UndisturbedRead(rules: Rules, at: Option<Directory>, identity: Identity)
    ensures var step := r => ReadStep(rules, at, identity, r);
            step(step(step(AtStat))) == Done(ReadEntry(rules, at, identity))
  {
  }

  /** An entry staged whole reads back as its artifact exactly when it is storable. */
  lemma StagedReadsBack(rules: Rules, identity: Identity, artifact: Artifact)
    ensures ReadEntry(rules, Some(Entry(rules, identity, artifact)), identity) == Hit(artifact)
            <==> Storable(rules, identity, artifact)
  {
    assert Artifact(artifact.llvmIr, artifact.testNames) == artifact;
  }

  /**
   Metadata and payload may come from different entries; still a hit is one artifact,
   namely the one whose metadata was read.
   */
  lemma HitIsWhole(rules: Rules, identity: Identity, owner: Identity, artifact: Artifact, payload: Option<Text>)
    requires CollisionFree(rules)
    requires Compatible(rules, MetadataFor(rules, owner, artifact), identity)
    requires ReadPayload(rules, MetadataFor(rules, owner, artifact), payload).Hit?
    ensures ReadPayload(rules, MetadataFor(rules, owner, artifact), payload) == Hit(artifact) && owner == identity
  {
    assert payload.value == artifact.llvmIr;
  }

  /* ----- publication ----- */

  datatype Outcome = Published | AlreadyPresent | Failed(error: StoreError)

  datatype StoreError = InvalidData | RenameFailed | PublicationContended

  const MAX_ATTEMPTS: nat := 16
}
