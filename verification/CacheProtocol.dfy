/**
 Publication and lookup of one cache entry by any number of processes. Each step is one
 file-system access; a rename moves a directory in one step, and fails on a directory
 that is not empty.
 */
module CacheProtocol {
  import opened Wrappers
  import opened CacheStores

  datatype RenameError = NotEmpty | NotFound

  /** Where a publisher is. Attempts are counted from 0. */
  datatype Phase =
    | Staging
    | Validating(reading: Reading)
    | Looking(attempt: nat, reading: Reading)
    | Replacing(attempt: nat)
    | Renaming(attempt: nat)
    | Rechecking(attempt: nat, error: RenameError, reading: Reading)
    | Finished(outcome: Outcome)

  datatype Writer = Writer(identity: Identity, artifact: Artifact, temporary: Option<Directory>, phase: Phase)

  datatype Reader = Reader(identity: Identity, reading: Reading)

  /** The entry at its final path, and the processes. */
  datatype World = World(final: Option<Directory>, writers: seq<Writer>, readers: seq<Reader>)

  datatype Action = Write(writer: nat) | Read(reader: nat) | Clean

  predicate Enabled(w: World, action: Action) {
    match action
    case Write(i) => i < |w.writers| && !w.writers[i].phase.Finished?
    case Read(i) => i < |w.readers| && !w.readers[i].reading.Done?
    case Clean => true
  }

  /* ----- one step of a publisher ----- */

  predicate IsEmpty(d: Directory) { d.metadata.None? && d.payload.None? }

  /** What a publisher does with the entry it has just read. */
  function Conclude(p: Writer, l: Lookup): Writer {
    match p.phase
    case Validating(_) =>
      if l == Hit(p.artifact) then p.(phase := Looking(0, AtStat))
      else p.(temporary := None, phase := Finished(Failed(InvalidData)))
    case Looking(attempt, _) =>
      (match l
       case Hit(_) => p.(temporary := None, phase := Finished(AlreadyPresent))
       case Miss(Missing) => p.(phase := Renaming(attempt))
       case Miss(_) => p.(phase := Replacing(attempt)))
    case Rechecking(attempt, e, _) =>
      if l.Hit? then p.(temporary := None, phase := Finished(AlreadyPresent))
      else if e == NotEmpty then p.(phase := Looking(attempt + 1, AtStat))
      else p.(temporary := None, phase := Finished(Failed(RenameFailed)))
    case _ => p
  }

  function WithReading(phase: Phase, r: Reading): Phase {
    match phase
    case Validating(_) => Validating(r)
    case Looking(attempt, _) => Looking(attempt, r)
    case Rechecking(attempt, e, _) => Rechecking(attempt, e, r)
    case _ => phase
  }

  /** One access of `read_entry_at`; the last one decides what comes next. */
  function ReadOn(rules: Rules, at: Option<Directory>, p: Writer, r: Reading): Writer {
    var r' := ReadStep(rules, at, p.identity, r);
    if r'.Done? then Conclude(p, r'.lookup) else p.(phase := WithReading(p.phase, r'))
  }

  /** The publisher and the entry after its next step. */
  function Advance(rules: Rules, final: Option<Directory>, p: Writer): (Option<Directory>, Writer) {
    match p.phase
    case Staging =>
      (final, p.(temporary := Some(Entry(rules, p.identity, p.artifact)), phase := Validating(AtStat)))
    case Validating(r) => (final, ReadOn(rules, p.temporary, p, r))
    case Looking(attempt, r) =>
      if attempt >= MAX_ATTEMPTS then (final, p.(temporary := None, phase := Finished(Failed(PublicationContended))))
      else (final, ReadOn(rules, final, p, r))
    case Replacing(attempt) =>
      if final.None? then (final, p.(phase := Looking(attempt + 1, AtStat)))
      else (None, p.(phase := Renaming(attempt)))
    case Renaming(attempt) =>
      if p.temporary.None? then (final, p.(phase := Rechecking(attempt, NotFound, AtStat)))
      else if final.None? || IsEmpty(final.value)
          then (p.temporary, p.(temporary := None, phase := Finished(Published)))
      else (final, p.(phase := Rechecking(attempt, NotEmpty, AtStat)))
    case Rechecking(_, _, r) => (final, ReadOn(rules, final, p, r))
    case Finished(_) => (final, p)
  }

  function Detached(writers: seq<Writer>): seq<Writer> {
    seq(|writers|, i requires 0 <= i < |writers| => writers[i].(temporary := None))
  }

  function Next(rules: Rules, w: World, action: Action): World
    requires Enabled(w, action)
  {
    match action
    case Write(i) =>
      var (final, p) := Advance(rules, w.final, w.writers[i]);
      w.(final := final, writers := w.writers[i := p])
    case Read(i) =>
      var r := w.readers[i];
      w.(readers := w.readers[i := r.(reading := ReadStep(rules, w.final, r.identity, r.reading))])
    case Clean => w.(final := None, writers := Detached(w.writers))
  }

  /* ----- executions ----- */

  /** Nothing parsable is at the entry before the first publisher finishes. */
  ghost predicate Initial(w: World) {
    && (w.final.Some? ==> !(w.final.value.metadata.Some? && w.final.value.metadata.value.Parsed?))
    && (forall i | 0 <= i < |w.writers| :: w.writers[i].phase == Staging && w.writers[i].temporary == None)
    && (forall i | 0 <= i < |w.readers| :: w.readers[i].reading == AtStat)
  }

  ghost predicate IsExecution(rules: Rules, worlds: seq<World>, actions: seq<Action>) {
    && |worlds| == |actions| + 1 && Initial(worlds[0])
    && forall i | 0 <= i < |actions| ::
         Enabled(worlds[i], actions[i]) && worlds[i + 1] == Next(rules, worlds[i], actions[i])
  }

  /* ----- hit integrity ----- */

  /** Writer `i` staged an artifact for `identity`. */
  ghost predicate StagedBy(w: World, i: nat, identity: Identity, artifact: Artifact) {
    i < |w.writers| && !w.writers[i].phase.Staging? && w.writers[i].identity == identity
        && w.writers[i].artifact == artifact
  }

  ghost predicate Staged(w: World, identity: Identity, artifact: Artifact) {
    exists i: nat :: StagedBy(w, i, identity, artifact)
  }

  /** Some publisher wrote this metadata, whole. */
  ghost predicate Known(rules: Rules, w: World, m: Metadata) {
    exists artifact :: Staged(w, m.identity, artifact) && m == MetadataFor(rules, m.identity, artifact)
  }

  ghost predicate DirectoryOk(rules: Rules, w: World, d: Option<Directory>) {
    d.Some? && d.value.metadata.Some? && d.value.metadata.value.Parsed? ==>
      Known(rules, w, d.value.metadata.value.metadata)
  }

  /** What a reading process has in hand, and what it concluded. */
  ghost predicate ReadingOk(rules: Rules, w: World, identity: Identity, r: Reading) {
    match r
    case AtPayload(m) => Known(rules, w, m) && Compatible(rules, m, identity)
    case Done(Hit(artifact)) => Staged(w, identity, artifact)
    case _ => true
  }

  ghost predicate WriterOk(rules: Rules, w: World, p: Writer) {
    && DirectoryOk(rules, w, p.temporary)
    && (p.phase.Looking? ==> ReadingOk(rules, w, p.identity, p.phase.reading))
    && (p.phase.Rechecking? ==> ReadingOk(rules, w, p.identity, p.phase.reading))
  }

  ghost predicate Sound(rules: Rules, w: World) {
    && DirectoryOk(rules, w, w.final)
    && (forall i | 0 <= i < |w.writers| :: WriterOk(rules, w, w.writers[i]))
    && (forall i | 0 <= i < |w.readers| :: ReadingOk(rules, w, w.readers[i].identity, w.readers[i].reading))
  }

  /** Nothing staged is ever forgotten. */
  ghost predicate Grows(w: World, w': World) {
    |w.writers| == |w'.writers| && forall i | 0 <= i < |w.writers| ::
      w.writers[i].identity == w'.writers[i].identity && w.writers[i].artifact == w'.writers[i].artifact
      && (w'.writers[i].phase.Staging? ==> w.writers[i].phase.Staging?)
  }

  lemma StagedGrows(w: World, w': World, identity: Identity, artifact: Artifact)
    requires Grows(w, w') && Staged(w, identity, artifact)
    ensures Staged(w', identity, artifact)
  {
    var i: nat :| StagedBy(w, i, identity, artifact);
    assert StagedBy(w', i, identity, artifact);
  }

  lemma KnownGrows(rules: Rules, w: World, w': World, m: Metadata)
    requires Grows(w, w') && Known(rules, w, m)
    ensures Known(rules, w', m)
  {
    var artifact :| Staged(w, m.identity, artifact) && m == MetadataFor(rules, m.identity, artifact);
    StagedGrows(w, w', m.identity, artifact);
  }

  lemma ReadingGrows(rules: Rules, w: World, w': World, identity: Identity, r: Reading)
    requires Grows(w, w') && ReadingOk(rules, w, identity, r)
    ensures ReadingOk(rules, w', identity, r)
  {
    match r
    case AtPayload(m) => KnownGrows(rules, w, w', m);
    case Done(Hit(artifact)) => StagedGrows(w, w', identity, artifact);
    case _ =>
  }

  lemma DirectoryGrows(rules: Rules, w: World, w': World, d: Option<Directory>)
    requires Grows(w, w') && DirectoryOk(rules, w, d)
    ensures DirectoryOk(rules, w', d)
  {
    if d.Some? && d.value.metadata.Some? && d.value.metadata.value.Parsed? {
      KnownGrows(rules, w, w', d.value.metadata.value.metadata);
    }
  }

  lemma ReadStepOk(rules: Rules, w: World, at: Option<Directory>, identity: Identity, r: Reading)
    requires CollisionFree(rules) && DirectoryOk(rules, w, at) && ReadingOk(rules, w, identity, r)
    ensures ReadingOk(rules, w, identity, ReadStep(rules, at, identity, r))
  {
    if r.AtPayload? && ReadStep(rules, at, identity, r).lookup.Hit? {
      var m := r.metadata;
      var artifact :| Staged(w, m.identity, artifact) && m == MetadataFor(rules, m.identity, artifact);
      HitIsWhole(rules, identity, m.identity, artifact, at.value.payload);
    }
  }

  /** One publisher's step, judged in the world it leads to. */
  lemma AdvanceOk(rules: Rules, w: World, i: nat)
    requires CollisionFree(rules) && Sound(rules, w) && Enabled(w, Write(i))
    ensures var w' := Next(rules, w, Write(i));
            Grows(w, w') && DirectoryOk(rules, w', w'.final) && WriterOk(rules, w', w'.writers[i])
  {
    var p := w.writers[i];
    var w' := Next(rules, w, Write(i));
    assert WriterOk(rules, w, p);
    assert Grows(w, w');
    DirectoryGrows(rules, w, w', w.final);
    DirectoryGrows(rules, w, w', p.temporary);
    match p.phase
    case Staging =>
      assert StagedBy(w', i, p.identity, p.artifact);
      assert Known(rules, w', MetadataFor(rules, p.identity, p.artifact));
    case Looking(_, r) =>
      ReadStepOk(rules, w, w.final, p.identity, r);
      ReadingGrows(rules, w, w', p.identity, ReadStep(rules, w.final, p.identity, r));
    case Rechecking(_, _, r) =>
      ReadStepOk(rules, w, w.final, p.identity, r);
      ReadingGrows(rules, w, w', p.identity, ReadStep(rules, w.final, p.identity, r));
    case _ =>
  }

  lemma WriterGrows(rules: Rules, w: World, w': World, p: Writer)
    requires Grows(w, w') && WriterOk(rules, w, p)
    ensures WriterOk(rules, w', p) && WriterOk(rules, w', p.(temporary := None))
  {
    DirectoryGrows(rules, w, w', p.temporary);
    if p.phase.Looking? || p.phase.Rechecking? { ReadingGrows(rules, w, w', p.identity, p.phase.reading); }
  }

  lemma StepSound(rules: Rules, w: World, action: Action)
    requires CollisionFree(rules) && Sound(rules, w) && Enabled(w, action)
    ensures Sound(rules, Next(rules, w, action)) && Grows(w, Next(rules, w, action))
  {
    var w' := Next(rules, w, action);
    match action {
      case Write(i) => AdvanceOk(rules, w, i);
      case Read(i) =>
        DirectoryGrows(rules, w, w', w.final);
        ReadStepOk(rules, w, w.final, w.readers[i].identity, w.readers[i].reading);
        ReadingGrows(rules, w, w', w.readers[i].identity,
                     ReadStep(rules, w.final, w.readers[i].identity, w.readers[i].reading));
      case Clean =>
    }
    forall j | 0 <= j < |w'.writers| ensures WriterOk(rules, w', w'.writers[j]) {
      if action != Write(j) { WriterGrows(rules, w, w', w.writers[j]); }
    }
    forall j | 0 <= j < |w'.readers| ensures ReadingOk(rules, w', w'.readers[j].identity, w'.readers[j].reading) {
      if action != Read(j) { ReadingGrows(rules, w, w', w.readers[j].identity, w.readers[j].reading); }
    }
  }

  lemma {:induction false} ExecutionSound(rules: Rules, worlds: seq<World>, actions: seq<Action>, i: nat)
    requires CollisionFree(rules) && IsExecution(rules, worlds, actions) && i < |worlds|
    ensures Sound(rules, worlds[i])
    decreases i
  {
    if i > 0 {
      ExecutionSound(rules, worlds, actions, i - 1);
      assert worlds[i - 1 + 1] == Next(rules, worlds[i - 1], actions[i - 1]);
      StepSound(rules, worlds[i - 1], actions[i - 1]);
    }
  }

  /**
   Hit integrity. However publication, replacement of invalid entries and `clean`
   interleave with a reader's accesses, a hit is one artifact that a publisher staged
   whole for that very identity.
   */
  lemma HitIntegrity(rules: Rules, worlds: seq<World>, actions: seq<Action>, i: nat, reader: nat)
    requires CollisionFree(rules) && IsExecution(rules, worlds, actions) && i < |worlds|
    requires reader < |worlds[i].readers| && worlds[i].readers[reader].reading.Done?
    requires worlds[i].readers[reader].reading.lookup.Hit?
    ensures Staged(worlds[i], worlds[i].readers[reader].identity, worlds[i].readers[reader].reading.lookup.artifact)
  {
    ExecutionSound(rules, worlds, actions, i);
    assert ReadingOk(rules, worlds[i], worlds[i].readers[reader].identity, worlds[i].readers[reader].reading);
  }

  /* ----- concurrent publication ----- */

  predicate IsPublished(p: Writer) { p.phase == Finished(Published) }

  /** The reading so far is of the entry `final`, which is a hit. */
  ghost predicate ReadsEntry(final: Option<Directory>, r: Reading) {
    match r
    case AtStat => true
    case AtMetadata => final.Some?
    case AtPayload(m) => final.Some? && final.value.metadata == Some(Parsed(m))
    case Done(_) => false
  }

  /** The own temporary directory is whole and untouched. */
  ghost predicate OwnReading(rules: Rules, p: Writer, r: Reading) {
    match r
    case AtPayload(m) => m == MetadataFor(rules, p.identity, p.artifact) && Storable(rules, p.identity, p.artifact)
    case Done(_) => false
    case _ => true
  }

  /** Where a publisher can be, when nobody cleans and all publish for one identity. */
  ghost predicate Orderly(rules: Rules, final: Option<Directory>, p: Writer) {
    match p.phase
    case Staging => true
    case Validating(r) => p.temporary == Some(Entry(rules, p.identity, p.artifact)) && OwnReading(rules, p, r)
    case Looking(attempt, r) =>
      && p.temporary == Some(Entry(rules, p.identity, p.artifact)) && Storable(rules, p.identity, p.artifact)
      && attempt == 0 && ReadsEntry(final, r)
    case Replacing(_) => false
    case Renaming(_) => p.temporary == Some(Entry(rules, p.identity, p.artifact))
        && Storable(rules, p.identity, p.artifact)
    case Rechecking(_, e, r) => Storable(rules, p.identity, p.artifact) && e == NotEmpty && final.Some?
        && ReadsEntry(final, r)
    case Finished(Published) => final == Some(Entry(rules, p.identity, p.artifact))
        && Storable(rules, p.identity, p.artifact)
    case Finished(AlreadyPresent) => final.Some? && Storable(rules, p.identity, p.artifact)
    case Finished(Failed(e)) => e == InvalidData && !Storable(rules, p.identity, p.artifact)
  }

  ghost predicate OneWinner(rules: Rules, identity: Identity, w: World) {
    && (forall i | 0 <= i < |w.writers| :: w.writers[i].identity == identity && Orderly(rules, w.final, w.writers[i]))
    && (w.final.Some? ==>
          && ReadEntry(rules, w.final, identity).Hit?
          && exists i :: 0 <= i < |w.writers| && IsPublished(w.writers[i]))
    && (w.final.None? ==> forall i | 0 <= i < |w.writers| :: !IsPublished(w.writers[i]))
    && (forall i, j | 0 <= i < j < |w.writers| :: !(IsPublished(w.writers[i]) && IsPublished(w.writers[j])))
  }

  lemma ReadsOn(rules: Rules, final: Option<Directory>, identity: Identity, r: Reading)
    requires ReadsEntry(final, r) && (final.Some? ==> ReadEntry(rules, final, identity).Hit?)
    ensures var r' := ReadStep(rules, final, identity, r);
            if r'.Done? then (if final.Some? then r'.lookup.Hit? else r'.lookup == Miss(Missing))
                else ReadsEntry(final, r')
  {
  }

  /** A publisher's step, with the entry present or absent. */
  lemma OrderlyStep(rules: Rules, final: Option<Directory>, p: Writer)
    requires Orderly(rules, final, p) && (final.Some? ==> ReadEntry(rules, final, p.identity).Hit?)
    ensures var (final', p') := Advance(rules, final, p);
            && Orderly(rules, final', p') && p'.identity == p.identity
            && (final.Some? ==> final' == final && (IsPublished(p') <==> IsPublished(p)))
            && (final.None? && final'.Some? ==> IsPublished(p') && ReadEntry(rules, final', p.identity).Hit?)
            && (final'.None? ==> !IsPublished(p'))
  {
    StagedReadsBack(rules, p.identity, p.artifact);
    match p.phase
    case Looking(_, r) => ReadsOn(rules, final, p.identity, r);
    case Rechecking(_, _, r) => ReadsOn(rules, final, p.identity, r);
    case _ =>
  }

  /** The others do not mind the entry appearing. */
  lemma OrderlyLater(rules: Rules, final: Option<Directory>, p: Writer)
    requires Orderly(rules, None, p)
    ensures Orderly(rules, final, p)
  {
  }

  lemma OneWinnerStep(rules: Rules, identity: Identity, w: World, action: Action)
    requires OneWinner(rules, identity, w) && Enabled(w, action) && action != Clean
    ensures OneWinner(rules, identity, Next(rules, w, action))
    ensures w.final.Some? ==> Next(rules, w, action).final == w.final
  {
    var w' := Next(rules, w, action);
    match action {
      case Write(i) =>
        OrderlyStep(rules, w.final, w.writers[i]);
        forall j | 0 <= j < |w'.writers| ensures Orderly(rules, w'.final, w'.writers[j]) {
          if j != i && w.final.None? { OrderlyLater(rules, w'.final, w.writers[j]); }
        }
        if w'.final.Some? {
          if w.final.Some? {
            var k :| 0 <= k < |w.writers| && IsPublished(w.writers[k]);
            assert IsPublished(w'.writers[k]);
          } else {
            assert IsPublished(w'.writers[i]);
          }
        }
      case Read(_) =>
        assert w'.writers == w.writers;
    }
  }

  /** An execution from an empty cache, without `clean`, all publishing for one identity. */
  ghost predicate Quiet(rules: Rules, identity: Identity, worlds: seq<World>, actions: seq<Action>) {
    && IsExecution(rules, worlds, actions) && worlds[0].final == None
    && (forall i | 0 <= i < |worlds[0].writers| :: worlds[0].writers[i].identity == identity)
    && (forall i | 0 <= i < |actions| :: actions[i] != Clean)
  }

  lemma {:induction false} QuietHasOneWinner(rules: Rules, identity: Identity, worlds: seq<World>,
                                             actions: seq<Action>, i: nat)
    requires Quiet(rules, identity, worlds, actions) && i < |worlds|
    ensures OneWinner(rules, identity, worlds[i])
    decreases i
  {
    if i > 0 {
      QuietHasOneWinner(rules, identity, worlds, actions, i - 1);
      assert worlds[i - 1 + 1] == Next(rules, worlds[i - 1], actions[i - 1]);
      OneWinnerStep(rules, identity, worlds[i - 1], actions[i - 1]);
    }
  }

  lemma EntryStaysOnce(rules: Rules, identity: Identity, worlds: seq<World>, actions: seq<Action>, j: nat)
    requires Quiet(rules, identity, worlds, actions) && j < |actions| && worlds[j].final.Some?
    ensures worlds[j + 1].final == worlds[j].final
  {
    QuietHasOneWinner(rules, identity, worlds, actions, j);
    assert worlds[j + 1] == Next(rules, worlds[j], actions[j]);
    OneWinnerStep(rules, identity, worlds[j], actions[j]);
  }

  lemma {:induction false} EntryStays(rules: Rules, identity: Identity, worlds: seq<World>, actions: seq<Action>,
                                      i: nat, j: nat)
    requires Quiet(rules, identity, worlds, actions) && i <= j < |worlds| && worlds[i].final.Some?
    ensures worlds[j].final == worlds[i].final
    decreases j
  {
    if i < j {
      EntryStays(rules, identity, worlds, actions, i, j - 1);
      assert |worlds| == |actions| + 1;
      hide Quiet;
      EntryStaysOnce(rules, identity, worlds, actions, j - 1);
    }
  }

  /**
   Concurrent publication. From an empty cache, without `clean`: at most one publisher
   returns `Published`, its entry never changes, every other publisher of a storable
   artifact that returns finds it `AlreadyPresent`, and none gives up.
   */
  lemma ConcurrentPublication(rules: Rules, identity: Identity, worlds: seq<World>, actions: seq<Action>, i: nat,
                              j: nat)
    requires Quiet(rules, identity, worlds, actions) && i <= j < |worlds|
    ensures forall p, q | 0 <= p < q < |worlds[i].writers| ::
              !(IsPublished(worlds[i].writers[p]) && IsPublished(worlds[i].writers[q]))
    ensures forall p | 0 <= p < |worlds[i].writers| && worlds[i].writers[p].phase.Finished? ::
              var writer := worlds[i].writers[p];
              if !Storable(rules, identity, writer.artifact) then writer.phase == Finished(Failed(InvalidData))
              else if writer.phase == Finished(Published)
                  then worlds[j].final == Some(Entry(rules, identity, writer.artifact))
              else writer.phase == Finished(AlreadyPresent) && worlds[i].final.Some?
    ensures worlds[i].final.Some?
        ==> worlds[j].final == worlds[i].final && ReadEntry(rules, worlds[j].final, identity).Hit?
  {
    QuietHasOneWinner(rules, identity, worlds, actions, i);
    if worlds[i].final.Some? { EntryStays(rules, identity, worlds, actions, i, j); }
  }

  /* ----- publication is bounded ----- */

  function ReadsLeft(r: Reading): nat {
    match r case AtStat => 3 case AtMetadata => 2 case AtPayload(_) => 1 case Done(_) => 0
  }

  /** A bound on the steps a publisher still takes, whatever the others do. */
  function StepsLeft(phase: Phase): nat {
    match phase
    case Staging => 10 * (MAX_ATTEMPTS + 1) + 4
    case Validating(r) => 10 * (MAX_ATTEMPTS + 1) + ReadsLeft(r)
    case Looking(attempt, r) => if attempt >= MAX_ATTEMPTS then 1
        else 10 * (MAX_ATTEMPTS - attempt) + 1 + ReadsLeft(r) - 3
    case Replacing(attempt) => if attempt >= MAX_ATTEMPTS then 7 else 10 * (MAX_ATTEMPTS - attempt) - 3
    case Renaming(attempt) => if attempt >= MAX_ATTEMPTS then 6 else 10 * (MAX_ATTEMPTS - attempt) - 4
    case Rechecking(attempt, _, r) =>
      if attempt >= MAX_ATTEMPTS then 2 + ReadsLeft(r) else 10 * (MAX_ATTEMPTS - attempt) - 8 + ReadsLeft(r)
    case Finished(_) => 0
  }

  lemma PublicationEnds(rules: Rules, final: Option<Directory>, p: Writer)
    requires !p.phase.Finished?
    requires p.phase.Validating? ==> !p.phase.reading.Done?
    requires p.phase.Looking? ==> !p.phase.reading.Done?
    requires p.phase.Rechecking? ==> !p.phase.reading.Done?
    ensures StepsLeft(Advance(rules, final, p).1.phase) < StepsLeft(p.phase)
  {
  }
}
