/**
 `publish` as the retry loop it is, with the rest of the world between any two of its
 accesses. It does exactly what the publisher of the protocol does, step for step.
 */
module CachePublishers {
  import opened Wrappers
  import opened CacheStores
  import opened CacheProtocol

  /** What the others have made of the entry, and of our temporary directory, by the next access. */
  datatype Glimpse = Glimpse(final: Option<Directory>, temporaryLost: bool)

  function Disturbed(p: Writer, lost: bool): Writer { if lost then p.(temporary := None) else p }

  /** The publisher of the protocol, driven by what it sees. */
  function Drive(rules: Rules, p: Writer, ahead: seq<Glimpse>): Writer
    decreases |ahead|
  {
    if p.phase.Finished? || ahead == [] then p
    else Drive(rules, Advance(rules, ahead[0].final, Disturbed(p, ahead[0].temporaryLost)).1, ahead[1..])
  }

  /** What each of its accesses leaves at the entry. */
  function Trail(rules: Rules, p: Writer, ahead: seq<Glimpse>): seq<Option<Directory>>
    decreases |ahead|
  {
    if p.phase.Finished? || ahead == [] then []
    else
      var (final, q) := Advance(rules, ahead[0].final, Disturbed(p, ahead[0].temporaryLost));
      [final] + Trail(rules, q, ahead[1..])
  }

  /**
   A publisher that started as `start` before all it has `seen`, when the entry had gone
   through `before`, is now `p`, with `ahead` still to come and `left` behind it.
   */
  ghost predicate Ran(rules: Rules, start: Writer, seen: seq<Glimpse>, before: seq<Option<Directory>>,
                      p: Writer, ahead: seq<Glimpse>, left: seq<Option<Directory>>) {
    && Drive(rules, start, seen) == Drive(rules, p, ahead)
    && before + Trail(rules, start, seen) == left + Trail(rules, p, ahead)
  }

  /** One access takes a publisher one step further. */
  lemma RanOn(rules: Rules, p: Writer, ahead: seq<Glimpse>, left: seq<Option<Directory>>)
    requires !p.phase.Finished? && ahead != []
    ensures var (final, q) := Advance(rules, ahead[0].final, Disturbed(p, ahead[0].temporaryLost));
            Ran(rules, p, ahead, left, q, ahead[1..], left + [final])
  {
  }

  /** A phase reached by running, not in the middle of a decision. */
  ghost predicate Between(phase: Phase) {
    && (phase.Validating? ==> !phase.reading.Done?)
    && (phase.Looking? ==> !phase.reading.Done?)
    && (phase.Rechecking? ==> !phase.reading.Done?)
  }

  /** Enough accesses, and the publisher is done. */
  lemma {:induction false} DriveEnds(rules: Rules, p: Writer, ahead: seq<Glimpse>)
    requires Between(p.phase) && |ahead| >= StepsLeft(p.phase)
    ensures Drive(rules, p, ahead).phase.Finished?
    decreases |ahead|
  {
    if !p.phase.Finished? {
      PublicationEnds(rules, ahead[0].final, Disturbed(p, ahead[0].temporaryLost));
      DriveEnds(rules, Advance(rules, ahead[0].final, Disturbed(p, ahead[0].temporaryLost)).1, ahead[1..]);
    }
  }

  datatype AttemptResult = Starved | Decided(outcome: Outcome) | Retry

  /** `publish`. `left` records the entry after each access. */
  class Publisher {
    const identity: Identity
    const artifact: Artifact
    var temporary: Option<Directory>
    var ahead: seq<Glimpse>
    ghost var left: seq<Option<Directory>>

    constructor (forIdentity: Identity, newArtifact: Artifact, glimpses: seq<Glimpse>)
      ensures identity == forIdentity && artifact == newArtifact && temporary == None
      ensures ahead == glimpses && left == []
    {
      identity, artifact, temporary, ahead, left := forIdentity, newArtifact, None, glimpses, [];
    }

    function At(phase: Phase): Writer
      reads this
    {
      Writer(identity, artifact, temporary, phase)
    }

    ghost predicate Reached(rules: Rules, start: Writer, seen: seq<Glimpse>, before: seq<Option<Directory>>, p: Writer)
      reads this
    {
      Ran(rules, start, seen, before, p, ahead, left)
    }

    /** The accesses ran out first. */
    ghost predicate IsStarved(rules: Rules, start: Writer, seen: seq<Glimpse>, before: seq<Option<Directory>>)
      reads this
    {
      !Drive(rules, start, seen).phase.Finished? && left == before + Trail(rules, start, seen)
    }

    ghost predicate IsDecided(rules: Rules, start: Writer, seen: seq<Glimpse>, before: seq<Option<Directory>>,
                              outcome: Outcome)
      reads this
    {
      Drive(rules, start, seen).phase == Finished(outcome) && left == before + Trail(rules, start, seen)
    }

    /** Reaches the file system once. */
    method Access() returns (final: Option<Directory>)
      requires ahead != []
      modifies this
      ensures final == old(ahead[0].final) && ahead == old(ahead[1..]) && left == old(left)
      ensures temporary == if old(ahead[0].temporaryLost) then None else old(temporary)
    {
      final := ahead[0].final;
      if ahead[0].temporaryLost { temporary := None; }
      ahead := ahead[1..];
    }

    /** `read_entry_at`, on the entry or on our own temporary directory. */
    method ReadEntryAt(rules: Rules, own: bool, ghost phase: Phase) returns (l: Option<Lookup>)
      requires (own && phase == Validating(AtStat))
          || (!own && (phase.Looking? || phase.Rechecking?) && phase.reading == AtStat)
      requires phase.Looking? ==> phase.attempt < MAX_ATTEMPTS
      modifies this
      ensures l.None? ==> IsStarved(rules, old(At(phase)), old(ahead), old(left))
      ensures l.Some? ==> Reached(rules, old(At(phase)), old(ahead), old(left), Conclude(At(phase), l.value))
    {
      var r := AtStat;
      ghost var start, seen, before := At(phase), ahead, left;
      while !r.Done?
        invariant !r.Done? ==> Reached(rules, start, seen, before, At(WithReading(phase, r)))
        invariant r.Done? ==> Reached(rules, start, seen, before, Conclude(At(phase), r.lookup))
        decreases ReadsLeft(r)
      {
        if ahead == [] { return None; }
        ghost var p, first := At(WithReading(phase, r)), ahead[0];
        RanOn(rules, p, ahead, left);
        var final := Access();
        ghost var r0 := r;
        r := ReadStep(rules, if own then temporary else final, identity, r);
        assert Advance(rules, first.final, Disturbed(p, first.temporaryLost)) ==
               (final, ReadOn(rules, if own then temporary else final, At(WithReading(phase, r0)), r0));
        left := left + [final];
      }
      l := Some(r.lookup);
    }

    /** Moves the entry away, or finds it gone: either way nothing is left there. */
    method MoveAway() returns (moved: Option<bool>)
      modifies this
      ensures moved.Some? <==> old(ahead) != []
      ensures moved.Some? ==> ahead == old(ahead[1..]) && (moved.value <==> old(ahead[0].final).Some?)
      ensures moved.Some? ==> temporary == if old(ahead[0].temporaryLost) then None else old(temporary)
      ensures moved.Some? ==> left == old(left) + [None]
      ensures moved.None? ==> ahead == old(ahead) && temporary == old(temporary) && left == old(left)
    {
      if ahead == [] { return None; }
      var final := Access();
      left := left + [None];
      moved := Some(final.Some?);
    }

    /** Renames the temporary directory to the entry. */
    method Rename() returns (error: Option<Option<RenameError>>)
      modifies this
      ensures error.Some? <==> old(ahead) != []
      ensures error.Some? ==>
                var seen, held := old(ahead[0].final), if old(ahead[0].temporaryLost) then None else old(temporary);
                && ahead == old(ahead[1..])
                && error.value == (if held.None? then Some(NotFound)
                                   else if seen.None? || IsEmpty(seen.value) then None else Some(NotEmpty))
                && temporary == (if error.value.None? then None else held)
                && left == old(left) + [if error.value.None? then held else seen]
      ensures error.None? ==> ahead == old(ahead) && temporary == old(temporary) && left == old(left)
    {
      if ahead == [] { return None; }
      var final := Access();
      if temporary.None? {
        left := left + [final];
        error := Some(Some(NotFound));
      } else if final.None? || IsEmpty(final.value) {
        left := left + [temporary];
        temporary := None;
        error := Some(None);
      } else {
        left := left + [final];
        error := Some(Some(NotEmpty));
      }
    }

    /** After a failed rename: the entry may have become valid, else try again or give up. */
    method AfterFailure(rules: Rules, attempt: nat, error: RenameError) returns (result: AttemptResult)
      modifies this
      ensures Follows(rules, old(At(Rechecking(attempt, error, AtStat))), old(ahead), old(left), result, attempt)
    {
      var again := ReadEntryAt(rules, false, Rechecking(attempt, error, AtStat));
      if again.None? { return Starved; }
      if again.value.Hit? {
        temporary := None;
        return Decided(AlreadyPresent);
      }
      if error == NotEmpty { return Retry; }
      temporary := None;
      result := Decided(Failed(RenameFailed));
    }

    /** Where one attempt leaves the publisher. */
    ghost predicate Follows(rules: Rules, start: Writer, seen: seq<Glimpse>, before: seq<Option<Directory>>,
                            result: AttemptResult, attempt: nat)
      reads this
    {
      match result
      case Starved => IsStarved(rules, start, seen, before)
      case Decided(outcome) => IsDecided(rules, start, seen, before, outcome)
      case Retry => Reached(rules, start, seen, before, At(Looking(attempt + 1, AtStat)))
    }

    method RenameInto(rules: Rules, attempt: nat) returns (result: AttemptResult)
      modifies this
      ensures Follows(rules, old(At(Renaming(attempt))), old(ahead), old(left), result, attempt)
    {
      if ahead != [] { RanOn(rules, At(Renaming(attempt)), ahead, left); }
      var renamed := Rename();
      if renamed.None? { return Starved; }
      if renamed.value.None? { return Decided(Published); }
      result := AfterFailure(rules, attempt, renamed.value.value);
    }

    method Replace(rules: Rules, attempt: nat) returns (result: AttemptResult)
      modifies this
      ensures Follows(rules, old(At(Replacing(attempt))), old(ahead), old(left), result, attempt)
    {
      if ahead != [] { RanOn(rules, At(Replacing(attempt)), ahead, left); }
      var moved := MoveAway();
      if moved.None? { return Starved; }
      if !moved.value { return Retry; }
      result := RenameInto(rules, attempt);
    }

    /** One turn of the retry loop. */
    method Attempt(rules: Rules, attempt: nat) returns (result: AttemptResult)
      requires attempt < MAX_ATTEMPTS
      modifies this
      ensures Follows(rules, old(At(Looking(attempt, AtStat))), old(ahead), old(left), result, attempt)
    {
      var l := ReadEntryAt(rules, false, Looking(attempt, AtStat));
      if l.None? { return Starved; }
      match l.value {
        case Hit(_) =>
          temporary := None;
          return Decided(AlreadyPresent);
        case Miss(Missing) => result := RenameInto(rules, attempt);
        case Miss(_) => result := Replace(rules, attempt);
      }
    }

    /** Writes the entry into a temporary directory and checks that it reads back. */
    method Stage(rules: Rules) returns (ready: Option<bool>)
      modifies this
      ensures ready == None ==> IsStarved(rules, old(At(Staging)), old(ahead), old(left))
      ensures ready == Some(false) ==> IsDecided(rules, old(At(Staging)), old(ahead), old(left), Failed(InvalidData))
      ensures ready == Some(true) ==> Reached(rules, old(At(Staging)), old(ahead), old(left), At(Looking(0, AtStat)))
    {
      if ahead == [] { return None; }
      RanOn(rules, At(Staging), ahead, left);
      var final := Access();
      temporary, left := Some(Entry(rules, identity, artifact)), left + [final];
      var validated := ReadEntryAt(rules, true, Validating(AtStat));
      if validated.None? { return None; }
      if validated.value != Hit(artifact) {
        temporary := None;
        return Some(false);
      }
      ready := Some(true);
    }

    /** `publish`. No outcome means that the accesses ran out first. */
    method Publish(rules: Rules) returns (outcome: Option<Outcome>)
      modifies this
      ensures outcome.Some? ==> Drive(rules, old(At(Staging)), old(ahead)).phase == Finished(outcome.value)
      ensures outcome.None? ==> !Drive(rules, old(At(Staging)), old(ahead)).phase.Finished?
      ensures left == old(left) + Trail(rules, old(At(Staging)), old(ahead))
      ensures |old(ahead)| >= StepsLeft(Staging) ==> outcome.Some?
    {
      ghost var start, seen, before := At(Staging), ahead, left;
      if |ahead| >= StepsLeft(Staging) { DriveEnds(rules, start, ahead); }
      var ready := Stage(rules);
      if ready.None? { return None; }
      if !ready.value { return Some(Failed(InvalidData)); }
      for attempt := 0 to MAX_ATTEMPTS
        invariant Reached(rules, start, seen, before, At(Looking(attempt, AtStat)))
      {
        var result := Attempt(rules, attempt);
        match result {
          case Starved => return None;
          case Decided(o) => return Some(o);
          case Retry =>
        }
      }
      if ahead == [] { return None; }
      RanOn(rules, At(Looking(MAX_ATTEMPTS, AtStat)), ahead, left);
      var final := Access();
      left := left + [final];
      outcome := Some(Failed(PublicationContended));
    }
  }

  /* ----- a publisher inside an execution ----- */

  /** Somebody cleaned after the last step of writer `i` among the first `n`. */
  function CleanedSince(actions: seq<Action>, i: nat, n: nat): bool
    requires n <= |actions|
  {
    n > 0 && (actions[n - 1].Clean? || (actions[n - 1] != Write(i) && CleanedSince(actions, i, n - 1)))
  }

  /** What writer `i` gets to see in the first `n` steps. */
  function Glimpses(worlds: seq<World>, actions: seq<Action>, i: nat, n: nat): seq<Glimpse>
    requires n <= |actions| && |worlds| == |actions| + 1
  {
    if n == 0 then []
    else
      var before := Glimpses(worlds, actions, i, n - 1);
      if actions[n - 1] == Write(i) then before + [Glimpse(worlds[n - 1].final, CleanedSince(actions, i, n - 1))]
      else before
  }

  /** The entry after each step of writer `i`. */
  function Effects(worlds: seq<World>, actions: seq<Action>, i: nat, n: nat): seq<Option<Directory>>
    requires n <= |actions| && |worlds| == |actions| + 1
  {
    if n == 0 then []
    else
      var before := Effects(worlds, actions, i, n - 1);
      if actions[n - 1] == Write(i) then before + [worlds[n].final] else before
  }

  lemma {:induction false} DriveMore(rules: Rules, p: Writer, ahead: seq<Glimpse>, g: Glimpse)
    ensures var q := Drive(rules, p, ahead);
            if q.phase.Finished? then
              Drive(rules, p, ahead + [g]) == q && Trail(rules, p, ahead + [g]) == Trail(rules, p, ahead)
            else
              var (final, r) := Advance(rules, g.final, Disturbed(q, g.temporaryLost));
              Drive(rules, p, ahead + [g]) == r && Trail(rules, p, ahead + [g]) == Trail(rules, p, ahead) + [final]
    decreases |ahead|
  {
    hide Advance;
    if p.phase.Finished? {
    } else if ahead == [] {
      assert ahead + [g] == [g];
    } else {
      assert (ahead + [g])[1..] == ahead[1..] + [g];
      DriveMore(rules, Advance(rules, ahead[0].final, Disturbed(p, ahead[0].temporaryLost)).1, ahead[1..], g);
    }
  }

  /** Writer `i` and its effect on the entry are those of the publisher driven by what it saw. */
  ghost predicate IsDriven(rules: Rules, worlds: seq<World>, actions: seq<Action>, i: nat, n: nat)
    requires n <= |actions| && |worlds| == |actions| + 1
  {
    && i < |worlds[0].writers| && i < |worlds[n].writers|
    && worlds[n].writers[i] ==
       Disturbed(Drive(rules, worlds[0].writers[i], Glimpses(worlds, actions, i, n)), CleanedSince(actions, i, n))
    && Effects(worlds, actions, i, n) == Trail(rules, worlds[0].writers[i], Glimpses(worlds, actions, i, n))
  }

  lemma StepIsDriven(rules: Rules, worlds: seq<World>, actions: seq<Action>, i: nat, n: nat)
    requires n < |actions| && |worlds| == |actions| + 1 && IsDriven(rules, worlds, actions, i, n)
    requires Enabled(worlds[n], actions[n]) && worlds[n + 1] == Next(rules, worlds[n], actions[n])
    ensures IsDriven(rules, worlds, actions, i, n + 1)
  {
    hide Advance; hide Drive; hide Trail;
    var p, seen, cleaned := worlds[0].writers[i], Glimpses(worlds, actions, i, n), CleanedSince(actions, i, n);
    match actions[n] {
      case Write(j) =>
        if j == i {
          var g := Glimpse(worlds[n].final, cleaned);
          assert Disturbed(Drive(rules, p, seen), g.temporaryLost) == worlds[n].writers[i];
          DriveMore(rules, p, seen, g);
          assert Glimpses(worlds, actions, i, n + 1) == seen + [g];
        } else {
          assert Glimpses(worlds, actions, i, n + 1) == seen;
        }
      case Read(_) =>
      case Clean =>
        assert Glimpses(worlds, actions, i, n + 1) == seen;
        assert worlds[n + 1].writers[i] == Disturbed(Drive(rules, p, seen), true);
    }
  }

  /**
   A publisher inside any execution is `publish` on what it gets to see there: same
   outcome, same effect on the entry.
   */
  lemma {:induction false} WriterIsDriven(rules: Rules, worlds: seq<World>, actions: seq<Action>, i: nat, n: nat)
    requires IsExecution(rules, worlds, actions) && i < |worlds[0].writers| && n <= |actions|
    ensures IsDriven(rules, worlds, actions, i, n)
    decreases n
  {
    if n > 0 {
      WriterIsDriven(rules, worlds, actions, i, n - 1);
      assert worlds[n - 1 + 1] == Next(rules, worlds[n - 1], actions[n - 1]);
      hide IsDriven; hide Next;
      StepIsDriven(rules, worlds, actions, i, n - 1);
    }
  }
}
