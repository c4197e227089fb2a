/** Drop flags: the updates that follow each operation, and runs that carry the flags along. */
module DropFlags {
  import opened Wrappers
  import opened CleanupPlan
  import opened MovePaths
  import opened MoveStates
  import opened Semantics
  import opened Runs

  datatype DropFlagValue = Clear | Set

  ghost predicate Related(f: Forest, p: nat, q: nat) { Within(f, p, q) || Within(f, q, p) }

  /** The update of the flag of path `q` after `op`, whose result state is `after`. */
  ghost function ActionFor(f: Forest, after: State, op: CleanupOp, q: nat): Option<DropFlagValue> {
    match op
    case StorageLive(l) => if l == LocalOf(f, q) then Some(Clear) else None
    case StorageDead(l) => if l == LocalOf(f, q) then Some(Clear) else None
    case Init(p) => if Related(f, p, q) && Initialization(f, after, q) == Initialized then Some(Set) else None
    case Overwrite(p) => if Related(f, p, q) && Initialization(f, after, q) == Initialized then Some(Set) else None
    case MoveOut(p) => if Related(f, p, q) then Some(Clear) else None
    case SetDiscriminant(p, _) => if Related(f, p, q) then Some(Clear) else None
    case Transfer(s, d, _) =>
      if Related(f, d, q) && Initialization(f, after, q) == Initialized then Some(Set)
      else if Related(f, s, q) then Some(Clear)
      else None
    case AssumeDiscriminant(_, _) => None
  }

  /** The flags after the updates that follow `op`. */
  ghost function UpdateFlags(f: Forest, after: State, op: CleanupOp, flags: map<MovePathId, DropFlagId>,
                             on: set<DropFlagId>): set<DropFlagId>
  {
    set q | q in flags &&
            (ActionFor(f, after, op, q) == Some(Set) || (ActionFor(f, after, op, q) == None && flags[q] in on))
      :: flags[q]
  }

  ghost predicate DistinctFlags(flags: map<MovePathId, DropFlagId>) {
    forall p, q | p in flags && q in flags && flags[p] == flags[q] :: p == q
  }

  lemma UpdateMembership(f: Forest, after: State, op: CleanupOp, flags: map<MovePathId, DropFlagId>,
                         on: set<DropFlagId>, q: nat)
    requires DistinctFlags(flags) && q in flags
    ensures flags[q] in UpdateFlags(f, after, op, flags, on) <==>
            (ActionFor(f, after, op, q) == Some(Set) || (ActionFor(f, after, op, q) == None && flags[q] in on))
  {
  }

  /* ----- runs with flags ----- */

  datatype FlagConfig = FlagConfig(at: Config, on: set<DropFlagId>)

  ghost predicate FlagMove(plan: Plan, a: Analysis, flags: map<MovePathId, DropFlagId>, x: FlagConfig, y: FlagConfig)
    requires IsForest(plan.movePaths) && |a.blockEntry| == |plan.blocks|
  {
    && Move(plan, x.at, y.at)
    && (OpMove(plan, x.at, y.at) ==>
          y.on == UpdateFlags(plan.movePaths, StateBefore(plan, a, y.at.block, y.at.index),
                              plan.blocks[x.at.block].operations[x.at.index], flags, x.on))
    && (!OpMove(plan, x.at, y.at) ==> y.on == x.on)
  }

  /** A run with the flags beside it, all clear at the start. */
  ghost predicate IsFlagRun(plan: Plan, a: Analysis, flags: map<MovePathId, DropFlagId>, run: seq<FlagConfig>)
    requires IsForest(plan.movePaths) && |a.blockEntry| == |plan.blocks|
  {
    && run != [] && run[0] == FlagConfig(At(plan.entry, 0, START), {})
    && forall i | 0 <= i < |run| - 1 :: FlagMove(plan, a, flags, run[i], run[i + 1])
  }

  function Configs(run: seq<FlagConfig>): seq<Config> {
    seq(|run|, i requires 0 <= i < |run| => run[i].at)
  }

  lemma FlagRunIsRun(plan: Plan, a: Analysis, flags: map<MovePathId, DropFlagId>, run: seq<FlagConfig>)
    requires IsForest(plan.movePaths) && |a.blockEntry| == |plan.blocks| && IsFlagRun(plan, a, flags, run)
    ensures IsRun(plan, Configs(run))
  {
    forall i | 0 <= i < |run| - 1 ensures Move(plan, Configs(run)[i], Configs(run)[i + 1]) {
      assert FlagMove(plan, a, flags, run[i], run[i + 1]);
    }
  }
}
