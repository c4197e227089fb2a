/**
 Accepted operations can be executed: the concrete semantics never gets stuck, except
 where a guard on a discriminant fails. So the safety theorems are not about nothing.
 */
module Progress {
  import opened CleanupPlan
  import opened MovePaths
  import opened MoveStates
  import opened Semantics
  import opened Checks
  import opened Structure
  import opened Simulation
  import opened Fills
  import opened Runs

  /** An accepted operation has a successor, a guard exactly when its variant is selected. */
  lemma Executable(f: Forest, st: State, c: Concrete, op: CleanupOp)
    requires Represents(f, st, c) && OpShapeOk(f, op) && OpStateOk(f, st, op)
    ensures (exists c' :: Step(f, c, op, c'))
            <==> (op.AssumeDiscriminant? ==> op.source in c.active && c.active[op.source] == op.variant)
  {
    forall r | r in c.active ensures r in EnumRoots(f) && c.active[r] in Variants(f, r) { assert PresentOk(f, c, r); }
    match op
    case StorageLive(l) => assert Step(f, c, op, BeginLocal(f, c, l));
    case StorageDead(l) => assert Step(f, c, op, EndLocal(f, c, l));
    case Init(p) => FillExists(f, c, p); assert Step(f, c, op, Filled(f, c, p));
    case MoveOut(p) => assert Step(f, c, op, Erase(c, Subtree(f, p)));
    case Overwrite(p) =>
      var erased := Erase(c, Subtree(f, p));
      FillExists(f, erased, p);
      assert Step(f, c, op, Filled(f, erased, p));
    case Transfer(s, d, _) =>
      var moved := MoveVariant(f, Erase(c, Subtree(f, s) + Subtree(f, d)), c, s, d);
      if IsEnum(f, s) && IsEnum(f, d) && s in c.active { MatchingVariants(f, s, d, c.active[s]); }
      FillExists(f, moved, d);
      assert Step(f, c, op, Filled(f, moved, d));
    case SetDiscriminant(p, v) => assert Step(f, c, op, c.(active := c.active[p := v]));
    case AssumeDiscriminant(r, v) =>
      if r in c.active && c.active[r] == v { assert Step(f, c, op, c); }
  }

  /** Nothing can follow `x` in a run. */
  ghost predicate Stops(plan: Plan, x: Config)
    requires ConfigOk(plan, x)
  {
    var ops := plan.blocks[x.block].operations;
    if x.index < |ops| then
      ops[x.index].AssumeDiscriminant?
      && !(ops[x.index].source in x.memory.active && x.memory.active[ops[x.index].source] == ops[x.index].variant)
    else BlockEdges(plan, x.block) == []
  }

  /** A run of an accepted plan stops only at a failed guard or a terminator without edges. */
  lemma RunsContinue(plan: Plan, a: Analysis, run: seq<Config>, i: nat)
    requires Accepted(plan, a) && IsRun(plan, run) && i < |run|
    ensures ConfigOk(plan, run[i])
    ensures (exists y :: Move(plan, run[i], y)) <==> !Stops(plan, run[i])
  {
    RunDescribed(plan, a, run, i);
    var x := run[i];
    var ops := plan.blocks[x.block].operations;
    if x.index < |ops| {
      VisibleShapes(plan, x.block, ops[x.index]);
      assert StableBlock(plan, a, x.block);
      Executable(plan.movePaths, StateBefore(plan, a, x.block, x.index), x.memory, ops[x.index]);
      if c' :| Step(plan.movePaths, x.memory, ops[x.index], c') {
        assert Move(plan, x, At(x.block, x.index + 1, c'));
      }
    } else if BlockEdges(plan, x.block) != [] {
      var e := BlockEdges(plan, x.block)[0];
      var y := At(e.target, 0, EndLocals(plan.movePaths, x.memory, ExitedLocals(plan, e.exitedScopes)));
      assert Flows(plan, a, x.block) && EdgeMove(plan, x, e, y);
      assert Move(plan, x, y);
    }
  }
}
