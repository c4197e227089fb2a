/**
 Drop flags over whole runs: which flags are truthful at every point of every run, and
 what a `StorageDead` then drops.
 */
module FlagRuns {
  import opened CleanupPlan
  import opened MovePaths
  import opened MoveStates
  import opened Semantics
  import opened Checks
  import opened Structure
  import opened Simulation
  import opened Fills
  import opened Runs
  import opened DropObligations
  import opened DropFlags
  import opened FlagTruth

  /* ----- truth at every point of every run ----- */

  /** What is about to happen at `x` keeps the flag of `q` truthful. */
  ghost predicate KeepsAt(plan: Plan, a: Analysis, units: set<nat>, flags: map<MovePathId, DropFlagId>, q: nat,
                          x: FlagConfig)
    requires IsForest(plan.movePaths) && |a.blockEntry| == |plan.blocks| && ConfigOk(plan, x.at) && q in flags
  {
    var f, b, i := plan.movePaths, x.at.block, x.at.index;
    if i < |plan.blocks[b].operations| then
      KeepsTruth(f, x.at.memory, plan.blocks[b].operations[i], StateBefore(plan, a, b, i + 1), units, q,
                 flags[q] in x.on)
    else
      forall e | e in BlockEdges(plan, b) :: !(LocalOf(f, q) in ExitedLocals(plan, e.exitedScopes) && flags[q] in x.on)
  }

  ghost predicate AlwaysTruthful(plan: Plan, a: Analysis, units: set<nat>, flags: map<MovePathId, DropFlagId>, q: nat)
    requires IsForest(plan.movePaths) && |a.blockEntry| == |plan.blocks|
  {
    forall run: seq<FlagConfig>, i: nat | IsFlagRun(plan, a, flags, run) && i < |run| ::
      Truthful(plan.movePaths, run[i].at.memory, units, flags, run[i].on, q)
  }

  ghost predicate AlwaysKept(plan: Plan, a: Analysis, units: set<nat>, flags: map<MovePathId, DropFlagId>, q: nat)
    requires IsForest(plan.movePaths) && |a.blockEntry| == |plan.blocks| && q in flags
  {
    forall run: seq<FlagConfig>, i: nat | IsFlagRun(plan, a, flags, run) && i < |run| && ConfigOk(plan, run[i].at) ::
      KeepsAt(plan, a, units, flags, q, run[i])
  }

  lemma StateAfter(plan: Plan, a: Analysis, b: nat, i: nat)
    requires IsForest(plan.movePaths) && |a.blockEntry| == |plan.blocks|
    requires b < |plan.blocks| && i < |plan.blocks[b].operations|
    ensures StateBefore(plan, a, b, i + 1)
        == Apply(plan.movePaths, StateBefore(plan, a, b, i), plan.blocks[b].operations[i])
  {
    var ops := plan.blocks[b].operations;
    assert ops[..i + 1][..|ops[..i + 1]| - 1] == ops[..i];
  }

  lemma FlagRunDescribed(plan: Plan, a: Analysis, flags: map<MovePathId, DropFlagId>, run: seq<FlagConfig>, i: nat)
    requires Accepted(plan, a) && IsFlagRun(plan, a, flags, run) && i < |run|
    ensures ConfigOk(plan, run[i].at) && Described(plan, a, run[i].at)
  {
    FlagRunIsRun(plan, a, flags, run);
    RunDescribed(plan, a, Configs(run), i);
  }

  /** The condition on the operation at `x`, as `StepTruth` reads it. */
  lemma StepTruthAt(plan: Plan, a: Analysis, units: set<nat>, flags: map<MovePathId, DropFlagId>, q: nat, x: FlagConfig)
    requires Accepted(plan, a) && DistinctFlags(flags) && ConfigOk(plan, x.at) && Described(plan, a, x.at)
    requires x.at.index < |plan.blocks[x.at.block].operations| && q in flags && q < |plan.movePaths|
    requires Truthful(plan.movePaths, x.at.memory, units, flags, x.on, q)
    ensures TruthfulAfter(plan.movePaths, StateBefore(plan, a, x.at.block, x.at.index), x.at.memory,
                          plan.blocks[x.at.block].operations[x.at.index], units, flags, x.on, q)
            <==> KeepsAt(plan, a, units, flags, q, x)
  {
    var b, i := x.at.block, x.at.index;
    var op := plan.blocks[b].operations[i];
    VisibleShapes(plan, b, op);
    assert StableBlock(plan, a, b);
    StateAfter(plan, a, b, i);
    StepTruth(plan.movePaths, StateBefore(plan, a, b, i), x.at.memory, op, units, flags, x.on, q);
  }

  lemma MoveTruth(plan: Plan, a: Analysis, units: set<nat>, flags: map<MovePathId, DropFlagId>, q: nat, x: FlagConfig,
                  y: FlagConfig)
    requires Accepted(plan, a) && DistinctFlags(flags) && q in flags && q < |plan.movePaths|
    requires FlagMove(plan, a, flags, x, y) && Described(plan, a, x.at)
    requires Truthful(plan.movePaths, x.at.memory, units, flags, x.on, q) && KeepsAt(plan, a, units, flags, q, x)
    ensures Truthful(plan.movePaths, y.at.memory, units, flags, y.on, q)
  {
    if OpMove(plan, x.at, y.at) {
      StateAfter(plan, a, x.at.block, x.at.index);
      StepTruthAt(plan, a, units, flags, q, x);
    } else {
      var e :| EdgeMove(plan, x.at, e, y.at);
      EdgeTruth(plan, x.at, e, y.at, units, flags, x.on, q);
    }
  }

  lemma FlagRunParts(plan: Plan, a: Analysis, flags: map<MovePathId, DropFlagId>, run: seq<FlagConfig>)
    requires IsForest(plan.movePaths) && |a.blockEntry| == |plan.blocks| && IsFlagRun(plan, a, flags, run)
    ensures forall i: nat | i + 1 < |run| :: FlagMove(plan, a, flags, run[i], run[i + 1])
    ensures run != [] && run[0] == FlagConfig(At(plan.entry, 0, START), {})
  {
    hide FlagMove; hide IsForest;
  }

  /** At the start nothing is complete and no flag is set. */
  lemma StartTruthful(f: Forest, units: set<nat>, flags: map<MovePathId, DropFlagId>, q: nat)
    requires q < |f|
    ensures Truthful(f, START, units, flags, {}, q)
  {
    EmptyNotFull(f, START, q);
  }

  lemma AcceptedShape(plan: Plan, a: Analysis)
    requires Accepted(plan, a)
    ensures IsForest(plan.movePaths) && |a.blockEntry| == |plan.blocks|
  {
  }

  lemma KeptAt(plan: Plan, a: Analysis, units: set<nat>, flags: map<MovePathId, DropFlagId>, q: nat,
               run: seq<FlagConfig>, i: nat)
    requires IsForest(plan.movePaths) && |a.blockEntry| == |plan.blocks| && q in flags
    requires AlwaysKept(plan, a, units, flags, q) && IsFlagRun(plan, a, flags, run) && i < |run|
    requires ConfigOk(plan, run[i].at)
    ensures KeepsAt(plan, a, units, flags, q, run[i])
  {
    hide KeepsAt; hide IsFlagRun; hide IsForest;
  }

  lemma {:induction false} KeptIsTruthful(plan: Plan, a: Analysis, units: set<nat>, flags: map<MovePathId, DropFlagId>,
                                          q: nat, run: seq<FlagConfig>, i: nat)
    requires Accepted(plan, a) && DistinctFlags(flags) && q in flags && q < |plan.movePaths|
    requires AlwaysKept(plan, a, units, flags, q) && IsFlagRun(plan, a, flags, run) && i < |run|
    ensures Truthful(plan.movePaths, run[i].at.memory, units, flags, run[i].on, q)
    decreases i
  {
    hide *;
    AcceptedShape(plan, a);
    FlagRunParts(plan, a, flags, run);
    if i == 0 {
      StartTruthful(plan.movePaths, units, flags, q);
    } else {
      KeptIsTruthful(plan, a, units, flags, q, run, i - 1);
      FlagRunDescribed(plan, a, flags, run, i - 1);
      KeptAt(plan, a, units, flags, q, run, i - 1);
      MoveTruth(plan, a, units, flags, q, run[i - 1], run[i - 1 + 1]);
    }
  }

  /** A run may continue from any of its points. */
  lemma Continue(plan: Plan, a: Analysis, flags: map<MovePathId, DropFlagId>, run: seq<FlagConfig>, i: nat,
                 y: FlagConfig)
    returns (next: seq<FlagConfig>)
    requires IsForest(plan.movePaths) && |a.blockEntry| == |plan.blocks|
    requires IsFlagRun(plan, a, flags, run) && i < |run| && FlagMove(plan, a, flags, run[i], y)
    ensures IsFlagRun(plan, a, flags, next) && |next| == i + 2 && next[i + 1] == y
  {
    next := run[..i + 1] + [y];
    forall j | 0 <= j < |next| - 1 ensures FlagMove(plan, a, flags, next[j], next[j + 1]) {
      if j < i { assert FlagMove(plan, a, flags, run[j], run[j + 1]); }
    }
  }

  /** A truthful point that a run may reach next. */
  lemma NextTruthful(plan: Plan, a: Analysis, units: set<nat>, flags: map<MovePathId, DropFlagId>, q: nat,
                     run: seq<FlagConfig>, i: nat, y: FlagConfig)
    requires IsForest(plan.movePaths) && |a.blockEntry| == |plan.blocks|
    requires AlwaysTruthful(plan, a, units, flags, q)
    requires IsFlagRun(plan, a, flags, run) && i < |run| && FlagMove(plan, a, flags, run[i], y)
    ensures Truthful(plan.movePaths, y.at.memory, units, flags, y.on, q)
  {
    hide IsFlagRun; hide FlagMove; hide Truthful; hide IsForest;
    var next := Continue(plan, a, flags, run, i, y);
    assert Truthful(plan.movePaths, next[i + 1].at.memory, units, flags, next[i + 1].on, q);
  }

  lemma OperationKept(plan: Plan, a: Analysis, units: set<nat>, flags: map<MovePathId, DropFlagId>, q: nat,
                      run: seq<FlagConfig>, i: nat)
    requires Accepted(plan, a) && DistinctFlags(flags) && q in flags && q < |plan.movePaths|
    requires AlwaysTruthful(plan, a, units, flags, q) && IsFlagRun(plan, a, flags, run) && i < |run|
    requires ConfigOk(plan, run[i].at) && Described(plan, a, run[i].at)
    requires run[i].at.index < |plan.blocks[run[i].at.block].operations|
    ensures KeepsAt(plan, a, units, flags, q, run[i])
  {
    var x, f := run[i], plan.movePaths;
    var b, j := x.at.block, x.at.index;
    var op, st := plan.blocks[b].operations[j], StateBefore(plan, a, b, j);
    var on' := UpdateFlags(f, Apply(f, st, op), op, flags, x.on);
    StateAfter(plan, a, b, j);
    StepTruthAt(plan, a, units, flags, q, x);
    hide KeepsAt; hide IsFlagRun; hide UpdateFlags; hide StateBefore; hide Apply; hide Truthful; hide Step;
    hide AlwaysTruthful; hide Accepted; hide Described; hide IsForest;
    forall c' | Step(f, x.at.memory, op, c') ensures Truthful(f, c', units, flags, on', q) {
      var y := FlagConfig(At(b, j + 1, c'), on');
      assert OpMove(plan, x.at, y.at);
      NextTruthful(plan, a, units, flags, q, run, i, y);
    }
  }

  lemma EdgeLeads(plan: Plan, a: Analysis, x: Config, e: CleanupEdge) returns (y: Config)
    requires Accepted(plan, a) && ConfigOk(plan, x) && x.index == |plan.blocks[x.block].operations|
    requires e in BlockEdges(plan, x.block)
    ensures EdgeMove(plan, x, e, y) && Move(plan, x, y) && !OpMove(plan, x, y)
  {
    assert Flows(plan, a, x.block);
    y := At(e.target, 0, EndLocals(plan.movePaths, x.memory, ExitedLocals(plan, e.exitedScopes)));
    assert EdgeMove(plan, x, e, y);
  }

  lemma EdgeKept(plan: Plan, a: Analysis, units: set<nat>, flags: map<MovePathId, DropFlagId>, q: nat,
                 run: seq<FlagConfig>, i: nat, e: CleanupEdge)
    requires Accepted(plan, a) && q in flags && q < |plan.movePaths|
    requires AlwaysTruthful(plan, a, units, flags, q) && IsFlagRun(plan, a, flags, run) && i < |run|
    requires ConfigOk(plan, run[i].at)
    requires run[i].at.index == |plan.blocks[run[i].at.block].operations| && e in BlockEdges(plan, run[i].at.block)
    requires Truthful(plan.movePaths, run[i].at.memory, units, flags, run[i].on, q)
    ensures !(LocalOf(plan.movePaths, q) in ExitedLocals(plan, e.exitedScopes) && flags[q] in run[i].on)
  {
    AcceptedShape(plan, a);
    var y := EdgeLeads(plan, a, run[i].at, e);
    assert FlagMove(plan, a, flags, run[i], FlagConfig(y, run[i].on));
    hide *;
    NextTruthful(plan, a, units, flags, q, run, i, FlagConfig(y, run[i].on));
    EdgeTruth(plan, run[i].at, e, y, units, flags, run[i].on, q);
  }

  lemma EdgesKept(plan: Plan, a: Analysis, units: set<nat>, flags: map<MovePathId, DropFlagId>, q: nat,
                  run: seq<FlagConfig>, i: nat)
    requires Accepted(plan, a) && q in flags && q < |plan.movePaths|
    requires AlwaysTruthful(plan, a, units, flags, q) && IsFlagRun(plan, a, flags, run) && i < |run|
    requires ConfigOk(plan, run[i].at)
    requires run[i].at.index == |plan.blocks[run[i].at.block].operations|
    ensures KeepsAt(plan, a, units, flags, q, run[i])
  {
    forall e | e in BlockEdges(plan, run[i].at.block)
      ensures !(LocalOf(plan.movePaths, q) in ExitedLocals(plan, e.exitedScopes) && flags[q] in run[i].on)
    {
      hide *;
      EdgeKept(plan, a, units, flags, q, run, i, e);
    }
  }

  lemma TruthfulIsKept(plan: Plan, a: Analysis, units: set<nat>, flags: map<MovePathId, DropFlagId>, q: nat,
                       run: seq<FlagConfig>, i: nat)
    requires Accepted(plan, a) && DistinctFlags(flags) && q in flags && q < |plan.movePaths|
    requires AlwaysTruthful(plan, a, units, flags, q) && IsFlagRun(plan, a, flags, run) && i < |run|
    ensures ConfigOk(plan, run[i].at) && KeepsAt(plan, a, units, flags, q, run[i])
  {
    FlagRunDescribed(plan, a, flags, run, i);
    if run[i].at.index < |plan.blocks[run[i].at.block].operations| {
      OperationKept(plan, a, units, flags, q, run, i);
    } else {
      EdgesKept(plan, a, units, flags, q, run, i);
    }
  }

  /**
   Exactly when a flag is truthful at every point of every run of an accepted plan: if and
   only if, wherever a run can get, what comes next keeps it so.
   */
  lemma TruthfulRuns(plan: Plan, a: Analysis, units: set<nat>, flags: map<MovePathId, DropFlagId>, q: nat)
    requires Accepted(plan, a) && DistinctFlags(flags) && q in flags && q < |plan.movePaths|
    ensures AlwaysTruthful(plan, a, units, flags, q) <==> AlwaysKept(plan, a, units, flags, q)
  {
    if AlwaysTruthful(plan, a, units, flags, q) {
      forall run: seq<FlagConfig>, i: nat | IsFlagRun(plan, a, flags, run) && i < |run| && ConfigOk(plan, run[i].at)
        ensures KeepsAt(plan, a, units, flags, q, run[i])
      {
        TruthfulIsKept(plan, a, units, flags, q, run, i);
      }
    }
    if AlwaysKept(plan, a, units, flags, q) {
      forall run: seq<FlagConfig>, i: nat | IsFlagRun(plan, a, flags, run) && i < |run|
        ensures Truthful(plan.movePaths, run[i].at.memory, units, flags, run[i].on, q)
      {
        KeptIsTruthful(plan, a, units, flags, q, run, i);
      }
    }
  }

  /* ----- conditions to be read off the plan and its analysis ----- */

  /** The path projects through no enum variant. */
  ghost predicate Direct(f: Forest, q: nat)
    decreases Depth(f, q)
  {
    !IsDowncast(f, q) && (Parent(f, q).Some? ==> (ParentFacts(f, q); Direct(f, Parent(f, q).value)))
  }

  /** The flagged paths of the local project through no variant, and its flagged units have no parts. */
  ghost predicate DirectFlags(f: Forest, units: set<nat>, flags: map<MovePathId, DropFlagId>, local: LocalId) {
    forall q | q in flags && q in LocalPaths(f, local) :: Direct(f, q) && (q in units ==> IsLeaf(f, q))
  }

  /** No edge ends the local's storage while one of its flagged paths may be initialized. */
  ghost predicate QuietEdges(plan: Plan, a: Analysis, flags: map<MovePathId, DropFlagId>, local: LocalId)
    requires IsForest(plan.movePaths) && |a.blockEntry| == |plan.blocks|
  {
    forall b: nat, e | b < |plan.blocks| && a.blockEntry[b].reachable && e in BlockEdges(plan, b)
                       && local in ExitedLocals(plan, e.exitedScopes) ::
      forall q | q in flags && q in LocalPaths(plan.movePaths, local) ::
        q !in StateBefore(plan, a, b, |plan.blocks[b].operations|).mayInit
  }

  lemma {:induction false} DirectMark(f: Forest, st: State, p: nat, q: nat)
    requires Direct(f, q) && q in Subtree(f, p)
    ensures MarkOf(f, st, p, Must, q) == Marked(Must)
    decreases Depth(f, q)
  {
    if q != p {
      ParentFacts(f, q);
      DirectMark(f, st, p, Parent(f, q).value);
    }
  }

  /**
   Between the states before and after it, a write of `p` leaves nothing open about the flag
   of `q`: an action sets it; or `q` is apart from `p`; or no value was there before, if `q`
   is a part of `p`, and none is complete there afterwards, if `q` is a unit.
   */
  ghost predicate SettledWrite(f: Forest, before: State, after: State, p: nat, units: set<nat>, q: nat) {
    || q in after.mustInit || !Related(f, p, q)
    || ((Within(f, p, q) ==> q !in before.mayInit) && (q in units ==> q !in after.mayInit))
  }

  /** Every write of the plan is settled for every flagged path of the local. */
  ghost predicate SettledFlags(plan: Plan, a: Analysis, units: set<nat>, flags: map<MovePathId, DropFlagId>,
                               local: LocalId)
    requires IsForest(plan.movePaths) && |a.blockEntry| == |plan.blocks|
  {
    forall b: nat, i: nat, q | b < |plan.blocks| && i < |plan.blocks[b].operations| && a.blockEntry[b].reachable
                               && q in flags && q in LocalPaths(plan.movePaths, local) ::
      SettledAt(plan, a, units, b, i, q)
  }

  ghost predicate SettledAt(plan: Plan, a: Analysis, units: set<nat>, b: nat, i: nat, q: nat)
    requires IsForest(plan.movePaths) && |a.blockEntry| == |plan.blocks|
    requires b < |plan.blocks| && i < |plan.blocks[b].operations|
  {
    match Written(plan.blocks[b].operations[i])
    case Some(p) =>
      SettledWrite(plan.movePaths, StateBefore(plan, a, b, i), StateBefore(plan, a, b, i + 1), p, units, q)
    case None => true
  }

  /** A settled write keeps a truthful flag truthful. */
  lemma SettledKeeps(f: Forest, st: State, c: Concrete, op: CleanupOp, units: set<nat>, q: nat, isOn: bool)
    requires Represents(f, st, c) && OpShapeOk(f, op) && OpStateOk(f, st, op) && q < |f|
    requires isOn ==> Full(f, c, q)
    requires Written(op).Some? ==> SettledWrite(f, st, Apply(f, st, op), Written(op).value, units, q)
    ensures KeepsTruth(f, c, op, Apply(f, st, op), units, q, isOn)
  {
    if Written(op).Some? {
      var p, base, after := Written(op).value, BeforeWrite(f, c, op), Apply(f, st, op);
      assert NodeOk(f, st, c, q);
      BaseWellKinded(f, st, c, op);
      if Related(f, p, q) && q in units && q !in after.mayInit {
        NeverCompleted(f, st, c, op, q);
        if Within(f, p, q) { FillOutcomes(f, base, p, q); }
      }
    }
  }

  /** What the state after a write rules out, no outcome of the write completes. */
  lemma NeverCompleted(f: Forest, st: State, c: Concrete, op: CleanupOp, q: nat)
    requires Represents(f, st, c) && OpShapeOk(f, op) && OpStateOk(f, st, op) && q < |f| && Written(op).Some?
    requires q !in Apply(f, st, op).mayInit && Related(f, Written(op).value, q)
    ensures var p, base := Written(op).value, BeforeWrite(f, c, op);
            if Within(f, p, q) then !MayReach(f, base, p, q) else !RestFull(f, base, q, p)
  {
    var p, base := Written(op).value, BeforeWrite(f, c, op);
    AcceptedIsSafe(f, st, c, op);
    BaseWellKinded(f, st, c, op);
    if Within(f, p, q) {
      forall c' | Fill(f, base, p, c') ensures !Selected(f, c', p, q) {
        NotCompletedBy(f, st, c, op, c', q);
        FilledPart(f, base, p, c', q);
      }
    } else {
      FillExists(f, base, p);
      var c' := Filled(f, base, p);
      NotCompletedBy(f, st, c, op, c', q);
      assert p in Subtree(f, p);
      FilledPart(f, base, p, c', p);
      StepSound(f, st, c, op, c');
      EnclosingOutcome(f, c, op, c', q);
    }
  }

  lemma NotCompletedBy(f: Forest, st: State, c: Concrete, op: CleanupOp, c': Concrete, q: nat)
    requires Represents(f, st, c) && OpShapeOk(f, op) && OpStateOk(f, st, op) && q < |f| && Written(op).Some?
    requires Fill(f, BeforeWrite(f, c, op), Written(op).value, c') && q !in Apply(f, st, op).mayInit
    ensures Step(f, c, op, c') && !Full(f, c', q)
  {
    WriteIsFill(f, c, op, c');
    StepSound(f, st, c, op, c');
    assert NodeOk(f, Apply(f, st, op), c', q);
  }

  lemma {:induction false} SettledIsKept(plan: Plan, a: Analysis, units: set<nat>, flags: map<MovePathId, DropFlagId>,
                                         q: nat, run: seq<FlagConfig>, i: nat)
    requires Accepted(plan, a) && DistinctFlags(flags) && IsFlagRun(plan, a, flags, run) && i < |run|
    requires q in flags && q < |plan.movePaths| && QuietEdges(plan, a, flags, LocalOf(plan.movePaths, q))
    requires SettledFlags(plan, a, units, flags, LocalOf(plan.movePaths, q))
    ensures ConfigOk(plan, run[i].at) && Truthful(plan.movePaths, run[i].at.memory, units, flags, run[i].on, q)
    ensures KeepsAt(plan, a, units, flags, q, run[i])
    decreases i
  {
    hide *;
    AcceptedShape(plan, a);
    FlagRunParts(plan, a, flags, run);
    if i == 0 {
      StartTruthful(plan.movePaths, units, flags, q);
    } else {
      SettledIsKept(plan, a, units, flags, q, run, i - 1);
      FlagRunDescribed(plan, a, flags, run, i - 1);
      MoveTruth(plan, a, units, flags, q, run[i - 1], run[i - 1 + 1]);
    }
    FlagRunDescribed(plan, a, flags, run, i);
    SettledKeepsAt(plan, a, units, flags, q, run[i]);
  }

  lemma SettledKeepsAt(plan: Plan, a: Analysis, units: set<nat>, flags: map<MovePathId, DropFlagId>, q: nat,
                       x: FlagConfig)
    requires Accepted(plan, a) && ConfigOk(plan, x.at) && Described(plan, a, x.at)
    requires q in flags && q < |plan.movePaths| && QuietEdges(plan, a, flags, LocalOf(plan.movePaths, q))
    requires SettledFlags(plan, a, units, flags, LocalOf(plan.movePaths, q))
    requires Truthful(plan.movePaths, x.at.memory, units, flags, x.on, q)
    ensures KeepsAt(plan, a, units, flags, q, x)
  {
    var f, b, i := plan.movePaths, x.at.block, x.at.index;
    assert q in LocalPaths(f, LocalOf(f, q));
    if i < |plan.blocks[b].operations| {
      VisibleShapes(plan, b, plan.blocks[b].operations[i]);
      assert StableBlock(plan, a, b) && SettledAt(plan, a, units, b, i, q);
      StateAfter(plan, a, b, i);
      SettledKeeps(f, StateBefore(plan, a, b, i), x.at.memory, plan.blocks[b].operations[i], units, q,
                   flags[q] in x.on);
    } else {
      assert NodeOk(f, StateBefore(plan, a, b, i), x.at.memory, q);
    }
  }

  /** The flags of such a local are truthful on every run. */
  lemma SettledRuns(plan: Plan, a: Analysis, units: set<nat>, flags: map<MovePathId, DropFlagId>, local: LocalId,
                    q: nat)
    requires Accepted(plan, a) && DistinctFlags(flags) && q in LocalPaths(plan.movePaths, local)
    requires SettledFlags(plan, a, units, flags, local) && QuietEdges(plan, a, flags, local)
    ensures AlwaysTruthful(plan, a, units, flags, q)
  {
    if q in flags {
      forall run: seq<FlagConfig>, i: nat | IsFlagRun(plan, a, flags, run) && i < |run|
        ensures Truthful(plan.movePaths, run[i].at.memory, units, flags, run[i].on, q)
      {
        SettledIsKept(plan, a, units, flags, q, run, i);
      }
    }
  }

  /** Outside of variants, everything within a written path is definitely initialized, and units enclose nothing. */
  lemma DirectIsSettled(f: Forest, st: State, op: CleanupOp, units: set<nat>, q: nat)
    requires OpShapeOk(f, op) && q < |f| && Direct(f, q) && (q in units ==> IsLeaf(f, q)) && Written(op).Some?
    ensures SettledWrite(f, st, Apply(f, st, op), Written(op).value, units, q)
  {
    var p := Written(op).value;
    var st1 := match op
      case Overwrite(_) => ClearPath(f, st, p)
      case Transfer(s, d, _) => MoveDiscriminant(ClearPath(f, ClearPath(f, st, s), d), Disc(st, s), s, d)
      case _ => st;
    assert Apply(f, st, op) == InitializePath(f, st1, p);
    if Within(f, p, q) {
      DirectMark(f, st1, p, q);
      MustIsMarked(f, st1, p, q);
    } else if Within(f, q, p) {
      assert !IsLeaf(f, q) by { var k := Toward(f, q, p); }
    }
  }

  /** So flags outside of variants, without units that have parts, are settled by every write. */
  lemma DirectFlagsSettled(plan: Plan, a: Analysis, units: set<nat>, flags: map<MovePathId, DropFlagId>, local: LocalId)
    requires Accepted(plan, a) && DirectFlags(plan.movePaths, units, flags, local)
    ensures SettledFlags(plan, a, units, flags, local)
  {
    forall b: nat, i: nat, q | b < |plan.blocks| && i < |plan.blocks[b].operations| && a.blockEntry[b].reachable
                               && q in flags && q in LocalPaths(plan.movePaths, local)
      ensures SettledAt(plan, a, units, b, i, q)
    {
      var op := plan.blocks[b].operations[i];
      VisibleShapes(plan, b, op);
      StateAfter(plan, a, b, i);
      if Written(op).Some? { DirectIsSettled(plan.movePaths, StateBefore(plan, a, b, i), op, units, q); }
    }
  }

  /* ----- the sites ----- */

  /** The flags given out cover every path some `StorageDead` asks for. */
  ghost predicate FlagsCover(plan: Plan, a: Analysis, flags: map<MovePathId, DropFlagId>)
    requires IsForest(plan.movePaths) && |a.blockEntry| == |plan.blocks|
  {
    forall b: nat, i: nat, r: nat |
      b < |plan.blocks| && i < |plan.blocks[b].operations| && plan.blocks[b].operations[i].StorageDead?
      && IsRootOf(plan.movePaths, plan.blocks[b].operations[i].local, r) ::
        Collect(plan.movePaths, StateBefore(plan, a, b, i), r) <= flags.Keys
  }

  /** `x` is about to end the storage of the local whose root path is `r`. */
  ghost predicate AtSite(plan: Plan, x: Config, r: nat) {
    && ConfigOk(plan, x) && x.index < |plan.blocks[x.block].operations|
    && var op := plan.blocks[x.block].operations[x.index];
       op.StorageDead? && IsRootOf(plan.movePaths, op.local, r)
  }

  /** The paths whose flags the site looks at. */
  ghost function ConsultedAt(plan: Plan, a: Analysis, flags: map<MovePathId, DropFlagId>, x: FlagConfig,
                             r: nat): set<nat>
    requires IsForest(plan.movePaths) && |a.blockEntry| == |plan.blocks| && FlagsCover(plan, a, flags)
    requires AtSite(plan, x.at, r)
  {
    Consulted(plan.movePaths, StateBefore(plan, a, x.at.block, x.at.index), r, flags, x.on)
  }

  /** Whenever storage of a local ends in a structured plan, the local has a root path. */
  lemma EverySite(plan: Plan, x: Config) returns (r: nat)
    requires StructureOk(plan) && ConfigOk(plan, x) && x.index < |plan.blocks[x.block].operations|
    requires plan.blocks[x.block].operations[x.index].StorageDead?
    ensures AtSite(plan, x, r)
  {
    var op := plan.blocks[x.block].operations[x.index];
    assert BlockOk(plan, x.block) && OpVisible(plan, x.block, op);
    RootCountFinds(plan.movePaths, op.local);
    r :| IsRootOf(plan.movePaths, op.local, r);
  }

  /**
   Exactly when a drop site is right. At a `StorageDead` reached by any run of an accepted
   plan, carrying out the obligations with the flags the actions produced drops each complete
   unit of the local exactly once, and nothing incomplete, if and only if the flags the site
   looks at are right about their paths.
   */
  lemma DropExactness(plan: Plan, a: Analysis, units: set<nat>, flags: map<MovePathId, DropFlagId>,
                      run: seq<FlagConfig>, i: nat, r: nat)
    requires Accepted(plan, a) && FlagsCover(plan, a, flags)
    requires IsFlagRun(plan, a, flags, run) && i < |run| && AtSite(plan, run[i].at, r)
    ensures var x := run[i].at;
            DropsExact(plan.movePaths, x.memory, units, r,
              EvaluateAll(Obligations(plan.movePaths, StateBefore(plan, a, x.block, x.index), r, flags), run[i].on))
            <==> AllTruthful(plan.movePaths, x.memory, units, flags, run[i].on, ConsultedAt(plan, a, flags, run[i], r))
  {
    var x := run[i].at;
    FlagRunDescribed(plan, a, flags, run, i);
    ObligationsExact(plan.movePaths, StateBefore(plan, a, x.block, x.index), x.memory, units, r, flags, run[i].on);
  }

  /** A site looks only at flags of its own local. */
  lemma ConsultedIsLocal(plan: Plan, a: Analysis, flags: map<MovePathId, DropFlagId>, x: FlagConfig, r: nat, q: nat)
    requires Accepted(plan, a) && FlagsCover(plan, a, flags) && AtSite(plan, x.at, r)
    requires q in ConsultedAt(plan, a, flags, x, r)
    ensures q in flags && q in LocalPaths(plan.movePaths, plan.blocks[x.at.block].operations[x.at.index].local)
  {
    ConsultedBelow(plan.movePaths, StateBefore(plan, a, x.at.block, x.at.index), r, flags, x.on, q);
    RootSubtree(plan.movePaths, r);
  }

  /** If every flag of the local is kept truthful wherever a run can get, each of its sites is right. */
  lemma KeptDropsExact(plan: Plan, a: Analysis, units: set<nat>, flags: map<MovePathId, DropFlagId>,
                       run: seq<FlagConfig>, i: nat, r: nat)
    requires Accepted(plan, a) && DistinctFlags(flags) && FlagsCover(plan, a, flags)
    requires IsFlagRun(plan, a, flags, run) && i < |run| && AtSite(plan, run[i].at, r)
    requires forall q | q in flags && q in LocalPaths(plan.movePaths, LocalOf(plan.movePaths, r)) ::
               AlwaysKept(plan, a, units, flags, q)
    ensures AllTruthful(plan.movePaths, run[i].at.memory, units, flags, run[i].on,
                        ConsultedAt(plan, a, flags, run[i], r))
  {
    forall q | q in ConsultedAt(plan, a, flags, run[i], r)
      ensures Truthful(plan.movePaths, run[i].at.memory, units, flags, run[i].on, q)
    {
      ConsultedIsLocal(plan, a, flags, run[i], r, q);
      KeptIsTruthful(plan, a, units, flags, q, run, i);
    }
  }
}
