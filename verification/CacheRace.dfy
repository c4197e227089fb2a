/**
 Publication over an invalid entry. A publisher that has found the entry invalid moves away
 whatever is there by then. When that goes wrong, and when it cannot.
 */
module CacheRaces {
  import opened Wrappers
  import opened CacheStores
  import opened CacheProtocol

  ghost predicate NobodyCleans(actions: seq<Action>) {
    forall i | 0 <= i < |actions| :: actions[i] != Clean
  }

  ghost predicate AtMostOnePublished(w: World) {
    forall i, j | 0 <= i < j < |w.writers| :: !(IsPublished(w.writers[i]) && IsPublished(w.writers[j]))
  }

  /** However the processes interleave from here, without `clean` one publisher wins at most. */
  ghost predicate SingleWinner(rules: Rules, start: World) {
    forall worlds, actions | IsExecution(rules, worlds, actions) && worlds[0] == start && NobodyCleans(actions) ::
      forall i | 0 <= i < |worlds| :: AtMostOnePublished(worlds[i])
  }

  predicate CanPublish(rules: Rules, p: Writer) { Storable(rules, p.identity, p.artifact) }

  ghost predicate OneCanPublish(rules: Rules, w: World) {
    forall i, j | 0 <= i < j < |w.writers| :: !(CanPublish(rules, w.writers[i]) && CanPublish(rules, w.writers[j]))
  }

  /** A valid entry goes away by `clean`, or by a publisher that had found it invalid. */
  lemma HitLostExactly(rules: Rules, identity: Identity, w: World, action: Action)
    requires Enabled(w, action) && ReadEntry(rules, w.final, identity).Hit?
    ensures Next(rules, w, action).final != w.final
        <==> action.Clean? || (action.Write? && w.writers[action.writer].phase.Replacing?)
  {
  }

  /* ----- one publisher moving alone ----- */

  function Alone(rules: Rules, final: Option<Directory>, p: Writer, n: nat): (Option<Directory>, Writer) {
    if n == 0 then (final, p)
    else
      var (f, q) := Alone(rules, final, p, n - 1);
      Advance(rules, f, q)
  }

  ghost predicate Unfinished(rules: Rules, final: Option<Directory>, p: Writer, n: nat) {
    forall k | 0 <= k < n :: !Alone(rules, final, p, k).1.phase.Finished?
  }

  function With(w: World, i: nat, final: Option<Directory>, p: Writer): World
    requires i < |w.writers|
  {
    w.(final := final, writers := w.writers[i := p])
  }

  lemma OneStepMore(rules: Rules, worlds: seq<World>, actions: seq<Action>, action: Action)
    requires IsExecution(rules, worlds, actions) && NobodyCleans(actions)
    requires action != Clean && Enabled(worlds[|actions|], action)
    ensures var more := worlds + [Next(rules, worlds[|actions|], action)];
            IsExecution(rules, more, actions + [action]) && NobodyCleans(actions + [action]) && worlds <= more
  {
    hide Next; hide Enabled; hide Initial;
  }

  lemma WritesAlone(rules: Rules, w: World, i: nat, final: Option<Directory>, p: Writer)
    requires i < |w.writers| && !p.phase.Finished?
    ensures Enabled(With(w, i, final, p), Write(i))
    ensures Next(rules, With(w, i, final, p), Write(i))
         == With(w, i, Advance(rules, final, p).0, Advance(rules, final, p).1)
  {
    hide Advance;
    assert With(w, i, final, p).writers[i := Advance(rules, final, p).1]
        == w.writers[i := Advance(rules, final, p).1];
  }

  /** An execution goes on with `n` steps of one publisher. */
  lemma {:induction false} GoOn(rules: Rules, worlds: seq<World>, actions: seq<Action>, i: nat, n: nat)
    returns (more: seq<World>, done: seq<Action>)
    requires IsExecution(rules, worlds, actions) && NobodyCleans(actions) && i < |worlds[|actions|].writers|
    requires Unfinished(rules, worlds[|actions|].final, worlds[|actions|].writers[i], n)
    ensures IsExecution(rules, more, done) && NobodyCleans(done) && |done| == |actions| + n && worlds <= more
    ensures var last, (final, p) := worlds[|actions|],
                                    Alone(rules, worlds[|actions|].final, worlds[|actions|].writers[i], n);
            more[|done|] == With(last, i, final, p)
    decreases n
  {
    if n == 0 { return worlds, actions; }
    var last := worlds[|actions|];
    more, done := GoOn(rules, worlds, actions, i, n - 1);
    var (f, q) := Alone(rules, last.final, last.writers[i], n - 1);
    hide IsExecution; hide Next; hide Enabled; hide Advance; hide With;
    WritesAlone(rules, last, i, f, q);
    OneStepMore(rules, more, done, Write(i));
    more, done := more + [Next(rules, more[|done|], Write(i))], done + [Write(i)];
  }

  ghost predicate Unparsed(d: Directory) { !(d.metadata.Some? && d.metadata.value.Parsed?) }

  /** Six steps from staging to the decision to replace an invalid entry. */
  lemma DecidesToReplace(rules: Rules, final: Option<Directory>, p: Writer)
    requires final.Some? && Unparsed(final.value)
    requires p.phase == Staging && CanPublish(rules, p)
    ensures Unfinished(rules, final, p, 6)
    ensures Alone(rules, final, p, 6)
         == (final, p.(temporary := Some(Entry(rules, p.identity, p.artifact)), phase := Replacing(0)))
  {
    var m, staged := MetadataFor(rules, p.identity, p.artifact),
        p.(temporary := Some(Entry(rules, p.identity, p.artifact)));
    StagedReadsBack(rules, p.identity, p.artifact);
    assert Alone(rules, final, p, 0) == (final, p);
    assert Alone(rules, final, p, 1) == (final, staged.(phase := Validating(AtStat)));
    assert Alone(rules, final, p, 2) == (final, staged.(phase := Validating(AtMetadata)));
    assert Alone(rules, final, p, 3) == (final, staged.(phase := Validating(AtPayload(m))));
    assert Alone(rules, final, p, 4) == (final, staged.(phase := Looking(0, AtStat)));
    assert Alone(rules, final, p, 5) == (final, staged.(phase := Looking(0, AtMetadata)));
  }

  /** It moves away what is there now, and publishes. */
  lemma MovesAwayAndPublishes(rules: Rules, final: Option<Directory>, p: Writer)
    requires final.Some? && p.phase == Replacing(0) && p.temporary.Some?
    ensures Unfinished(rules, final, p, 1) && Alone(rules, final, p, 1) == (None, p.(phase := Renaming(0)))
    ensures var q := p.(phase := Renaming(0));
            Unfinished(rules, None, q, 1)
            && Alone(rules, None, q, 1) == (p.temporary, p.(temporary := None, phase := Finished(Published)))
  {
    assert Alone(rules, final, p, 0) == (final, p);
    var q := p.(phase := Renaming(0));
    assert Alone(rules, None, q, 0) == (None, q);
  }

  /**
   Two publishers find the same invalid entry. One publishes; the other then moves the
   valid entry away and publishes as well.
   */
  lemma ReplacedTwice(rules: Rules, start: World, a: nat, b: nat)
    returns (worlds: seq<World>, actions: seq<Action>, k: nat)
    requires Initial(start) && start.final.Some? && a < b < |start.writers|
    requires CanPublish(rules, start.writers[a]) && CanPublish(rules, start.writers[b])
    ensures IsExecution(rules, worlds, actions) && NobodyCleans(actions) && worlds[0] == start && k < |actions|
    ensures var p := start.writers[a];
            && a < |worlds[k].writers| && IsPublished(worlds[k].writers[a])
            && ReadEntry(rules, worlds[k].final, p.identity) == Hit(p.artifact)
    ensures worlds[k + 1].final == None
    ensures b < |worlds[|actions|].writers|
         && IsPublished(worlds[|actions|].writers[a]) && IsPublished(worlds[|actions|].writers[b])
  {
    var p, q := start.writers[a], start.writers[b];
    var p1 := p.(temporary := Some(Entry(rules, p.identity, p.artifact)), phase := Replacing(0));
    var q1 := q.(temporary := Some(Entry(rules, q.identity, q.artifact)), phase := Replacing(0));
    DecidesToReplace(rules, start.final, p);
    DecidesToReplace(rules, start.final, q);
    MovesAwayAndPublishes(rules, start.final, p1);
    MovesAwayAndPublishes(rules, p1.temporary, q1);
    StagedReadsBack(rules, p.identity, p.artifact);
    assert IsExecution(rules, [start], []);
    hide IsExecution; hide Initial; hide Unfinished; hide Alone; hide ReadEntry; hide Storable; hide Entry;
    worlds, actions := GoOn(rules, [start], [], a, 6);
    worlds, actions := GoOn(rules, worlds, actions, b, 6);
    worlds, actions := GoOn(rules, worlds, actions, a, 1);
    worlds, actions := GoOn(rules, worlds, actions, a, 1);
    k := |actions|;
    worlds, actions := GoOn(rules, worlds, actions, b, 1);
    worlds, actions := GoOn(rules, worlds, actions, b, 1);
  }

  /* ----- when it cannot happen ----- */

  /** A publisher past validation holds an artifact that reads back. */
  ghost predicate Honest(rules: Rules, p: Writer) {
    match p.phase
    case Staging => true
    case Validating(r) => p.temporary == Some(Entry(rules, p.identity, p.artifact)) && OwnReading(rules, p, r)
    case Finished(Failed(_)) => true
    case _ => CanPublish(rules, p)
  }

  lemma HonestStep(rules: Rules, final: Option<Directory>, p: Writer)
    requires Honest(rules, p)
    ensures var p' := Advance(rules, final, p).1;
            Honest(rules, p') && p'.identity == p.identity && p'.artifact == p.artifact
  {
    StagedReadsBack(rules, p.identity, p.artifact);
  }

  ghost predicate AllHonest(rules: Rules, start: World, w: World) {
    |w.writers| == |start.writers| && forall i | 0 <= i < |w.writers| ::
      && Honest(rules, w.writers[i])
      && w.writers[i].identity == start.writers[i].identity && w.writers[i].artifact == start.writers[i].artifact
  }

  lemma {:induction false} ExecutionHonest(rules: Rules, worlds: seq<World>, actions: seq<Action>, i: nat)
    requires IsExecution(rules, worlds, actions) && NobodyCleans(actions) && i < |worlds|
    ensures AllHonest(rules, worlds[0], worlds[i])
    decreases i
  {
    if i > 0 {
      ExecutionHonest(rules, worlds, actions, i - 1);
      var w := worlds[i - 1];
      assert worlds[i - 1 + 1] == Next(rules, w, actions[i - 1]);
      if actions[i - 1].Write? { HonestStep(rules, w.final, w.writers[actions[i - 1].writer]); }
    }
  }

  lemma NobodyElseCan(rules: Rules, worlds: seq<World>, actions: seq<Action>, i: nat)
    requires IsExecution(rules, worlds, actions) && NobodyCleans(actions) && i < |worlds|
    requires OneCanPublish(rules, worlds[0])
    ensures AtMostOnePublished(worlds[i])
  {
    ExecutionHonest(rules, worlds, actions, i);
    forall p, q | 0 <= p < q < |worlds[i].writers| && IsPublished(worlds[i].writers[p])
      ensures !IsPublished(worlds[i].writers[q])
    {
      assert Honest(rules, worlds[i].writers[p]) && Honest(rules, worlds[i].writers[q]);
      assert CanPublish(rules, worlds[0].writers[p]);
    }
  }

  /**
   Without `clean`, publishers for one identity have a single winner on every interleaving
   exactly when there was no entry to begin with, or only one of them can publish at all.
   */
  lemma SingleWinnerExactly(rules: Rules, identity: Identity, start: World)
    requires Initial(start) && forall i | 0 <= i < |start.writers| :: start.writers[i].identity == identity
    ensures SingleWinner(rules, start) <==> start.final.None? || OneCanPublish(rules, start)
  {
    if start.final.None? || OneCanPublish(rules, start) {
      forall worlds, actions, i: nat | IsExecution(rules, worlds, actions) && worlds[0] == start
                                    && NobodyCleans(actions) && i < |worlds|
        ensures AtMostOnePublished(worlds[i])
      {
        if start.final.None? {
          ConcurrentPublication(rules, identity, worlds, actions, i, i);
        } else {
          NobodyElseCan(rules, worlds, actions, i);
        }
      }
    } else {
      var a: nat, b: nat :| a < b < |start.writers|
          && CanPublish(rules, start.writers[a]) && CanPublish(rules, start.writers[b]);
      var worlds, actions, _ := ReplacedTwice(rules, start, a, b);
      assert !AtMostOnePublished(worlds[|actions|]);
    }
  }

  /* ----- a publisher on its own ----- */

  lemma {:induction false} AloneInTwo(rules: Rules, final: Option<Directory>, p: Writer, m: nat, n: nat)
    ensures Alone(rules, final, p, m + n) == Alone(rules, Alone(rules, final, p, m).0, Alone(rules, final, p, m).1, n)
  {
    hide Advance;
    if n > 0 { AloneInTwo(rules, final, p, m, n - 1); }
  }

  lemma UnfinishedInTwo(rules: Rules, final: Option<Directory>, p: Writer, m: nat, n: nat)
    requires Unfinished(rules, final, p, m)
    requires Unfinished(rules, Alone(rules, final, p, m).0, Alone(rules, final, p, m).1, n)
    ensures Unfinished(rules, final, p, m + n)
  {
    hide Alone;
    forall k | 0 <= k < m + n ensures !Alone(rules, final, p, k).1.phase.Finished? {
      if k >= m { AloneInTwo(rules, final, p, m, k - m); }
    }
  }

  /** At most three accesses read an entry and draw the conclusion. */
  lemma ReadsAlone(rules: Rules, final: Option<Directory>, p: Writer, at: Option<Directory>) returns (k: nat)
    requires (p.phase == Validating(AtStat) && at == p.temporary)
          || (p.phase.Looking? && p.phase.reading == AtStat && p.phase.attempt < MAX_ATTEMPTS && at == final)
    ensures 1 <= k <= 3 && Unfinished(rules, final, p, k)
    ensures Alone(rules, final, p, k) == (final, Conclude(p, ReadEntry(rules, at, p.identity)))
  {
    assert Alone(rules, final, p, 0) == (final, p);
    if at.None? {
      k := 1;
      assert Alone(rules, final, p, 1) == Advance(rules, final, p);
      return;
    }
    var p1 := p.(phase := WithReading(p.phase, AtMetadata));
    assert Alone(rules, final, p, 1) == (final, p1);
    var read := ReadMetadata(rules, at.value.metadata, p.identity);
    if read.Done? {
      k := 2;
      assert Alone(rules, final, p, 2) == Advance(rules, final, p1);
      return;
    }
    var p2 := p.(phase := WithReading(p.phase, read));
    assert Alone(rules, final, p, 2) == (final, p2);
    k := 3;
    assert Alone(rules, final, p, 3) == Advance(rules, final, p2);
  }

  /** What a publisher on its own comes to: the first reason in this order. */
  ghost predicate SoloOutcome(rules: Rules, final: Option<Directory>, p: Writer, after: Option<Directory>, q: Writer) {
    if !CanPublish(rules, p) then q.phase == Finished(Failed(InvalidData)) && after == final
    else if ReadEntry(rules, final, p.identity).Hit? then q.phase == Finished(AlreadyPresent) && after == final
    else q.phase == Finished(Published) && after == Some(Entry(rules, p.identity, p.artifact))
  }

  /** From the first look at the entry: leave it if it is valid, else put the own one in its place. */
  lemma LooksAlone(rules: Rules, final: Option<Directory>, p: Writer) returns (n: nat)
    requires p.phase == Looking(0, AtStat) && p.temporary == Some(Entry(rules, p.identity, p.artifact))
    requires CanPublish(rules, p)
    ensures Unfinished(rules, final, p, n)
    ensures SoloOutcome(rules, final, p, Alone(rules, final, p, n).0, Alone(rules, final, p, n).1)
  {
    var k := ReadsAlone(rules, final, p, final);
    var q := Conclude(p, ReadEntry(rules, final, p.identity));
    if q.phase.Finished? { return k; }
    hide ReadMetadata; hide ReadPayload;
    if final.None? {
      assert Alone(rules, final, q, 0) == (final, q);
      UnfinishedInTwo(rules, final, p, k, 1);
      AloneInTwo(rules, final, p, k, 1);
      return k + 1;
    }
    MovesAwayAndPublishes(rules, final, q);
    UnfinishedInTwo(rules, final, p, k, 1);
    AloneInTwo(rules, final, p, k, 1);
    UnfinishedInTwo(rules, final, p, k + 1, 1);
    AloneInTwo(rules, final, p, k + 1, 1);
    n := k + 2;
  }

  /**
   Left alone, a publisher finishes. It gives up if its own entry does not read back, leaves a
   valid entry alone, and otherwise publishes, over whatever there is.
   */
  lemma PublishesAlone(rules: Rules, final: Option<Directory>, p: Writer) returns (n: nat)
    requires p.phase == Staging
    ensures Unfinished(rules, final, p, n)
    ensures SoloOutcome(rules, final, p, Alone(rules, final, p, n).0, Alone(rules, final, p, n).1)
  {
    hide *;
    var staged := p.(temporary := Some(Entry(rules, p.identity, p.artifact)), phase := Validating(AtStat));
    StagesAlone(rules, final, p, staged);
    var k := ReadsAlone(rules, final, staged, staged.temporary);
    var q := Conclude(staged, ReadEntry(rules, staged.temporary, p.identity));
    UnfinishedInTwo(rules, final, p, 1, k);
    AloneInTwo(rules, final, p, 1, k);
    Validated(rules, final, p, staged);
    if q.phase.Finished? { return 1 + k; }
    var m := LooksAlone(rules, final, q);
    UnfinishedInTwo(rules, final, p, 1 + k, m);
    AloneInTwo(rules, final, p, 1 + k, m);
    SameOutcome(rules, final, p, q, Alone(rules, final, q, m).0, Alone(rules, final, q, m).1);
    n := 1 + k + m;
  }

  lemma StagesAlone(rules: Rules, final: Option<Directory>, p: Writer, staged: Writer)
    requires p.phase == Staging
    requires staged == p.(temporary := Some(Entry(rules, p.identity, p.artifact)), phase := Validating(AtStat))
    ensures Unfinished(rules, final, p, 1) && Alone(rules, final, p, 1) == (final, staged)
  {
    assert Alone(rules, final, p, 0) == (final, p);
  }

  /** What the validation of its own entry decides. */
  lemma Validated(rules: Rules, final: Option<Directory>, p: Writer, staged: Writer)
    requires staged == p.(temporary := Some(Entry(rules, p.identity, p.artifact)), phase := Validating(AtStat))
    ensures var q := Conclude(staged, ReadEntry(rules, staged.temporary, p.identity));
            if CanPublish(rules, p) then q == staged.(phase := Looking(0, AtStat)) && CanPublish(rules, q)
            else q.phase.Finished? && SoloOutcome(rules, final, p, final, q)
  {
    StagedReadsBack(rules, p.identity, p.artifact);
  }

  lemma SameOutcome(rules: Rules, final: Option<Directory>, p: Writer, q: Writer, after: Option<Directory>, r: Writer)
    requires SoloOutcome(rules, final, q, after, r) && p.identity == q.identity && p.artifact == q.artifact
    ensures SoloOutcome(rules, final, p, after, r)
  {
  }
}
