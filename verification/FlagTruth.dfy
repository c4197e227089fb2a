/**
 When drop flags tell the truth: for each operation and each edge exactly the condition,
 on the memory before it, under which a truthful flag stays truthful.
 */
module FlagTruth {
  import opened Wrappers
  import opened CleanupPlan
  import opened MovePaths
  import opened MoveStates
  import opened Semantics
  import opened Checks
  import opened Simulation
  import opened Fills
  import opened Runs
  import opened DropObligations
  import opened DropFlags

  /* ----- writes ----- */

  /** The path that a writing operation completes. */
  function Written(op: CleanupOp): Option<MovePathId> {
    match op
    case Init(p) => Some(p)
    case Overwrite(p) => Some(p)
    case Transfer(_, d, _) => Some(d)
    case _ => None
  }

  /** The memory that the write completes. */
  ghost function BeforeWrite(f: Forest, c: Concrete, op: CleanupOp): Concrete {
    match op
    case Overwrite(p) => Erase(c, Subtree(f, p))
    case Transfer(s, d, _) => MoveVariant(f, Erase(c, Subtree(f, s) + Subtree(f, d)), c, s, d)
    case _ => c
  }

  /**
   When `op` keeps the flag of `q` truthful. Only a write can break it, and only one after
   which `q` is not definitely initialized, so that no `Set` is emitted. Then the flag of a
   part of the written path is right if the write was bound to reach the part when the flag
   is set, and bound to miss a unit when it is clear; the flag of an enclosing unit is wrong
   if the write happens to complete it.
   */
  ghost predicate KeepsTruth(f: Forest, c: Concrete, op: CleanupOp, after: State, units: set<nat>, q: nat, isOn: bool) {
    match Written(op)
    case None => true
    case Some(p) =>
      q in after.mustInit || !Related(f, p, q) ||
      (var base := BeforeWrite(f, c, op);
       if Within(f, p, q) then
         if isOn then Forced(f, base, p, q) else q in units ==> !Open(f, base, p, q)
       else isOn || (q in units ==> !RestFull(f, base, q, p)))
  }

  /** The flag of `q` is truthful, however `op` comes out. */
  ghost predicate TruthfulAfter(f: Forest, st: State, c: Concrete, op: CleanupOp, units: set<nat>,
                                flags: map<MovePathId, DropFlagId>, on: set<DropFlagId>, q: nat)
  {
    forall c' | Step(f, c, op, c') ::
      Truthful(f, c', units, flags, UpdateFlags(f, Apply(f, st, op), op, flags, on), q)
  }

  /* ----- operations that write nothing ----- */

  lemma UnrelatedFrame(f: Forest, c: Concrete, c': Concrete, p: nat, q: nat)
    requires p < |f| && q < |f| && !Related(f, p, q)
    requires forall x | x !in Subtree(f, p) :: SameAt(c, c', x)
    ensures Full(f, c, q) <==> Full(f, c', q)
  {
    forall x | x in Subtree(f, q) ensures SameAt(c, c', x) { DisjointSubtrees(f, p, q, x); }
    FullFrame(f, c, c', q);
  }

  lemma EmptyPart(f: Forest, c: Concrete, p: nat, q: nat)
    requires Empty(f, c, p) && Within(f, p, q) && q < |f|
    ensures !Full(f, c, q)
  {
    forall x | x in Subtree(f, q) ensures !Present(c, x) { WithinTrans(f, p, q, x); }
    EmptyNotFull(f, c, q);
  }

  /** Where `p` is missing, nothing related to `p` is complete. */
  lemma RelatedToMissing(f: Forest, c: Concrete, p: nat, q: nat)
    requires p < |f| && q < |f| && Related(f, p, q) && !Full(f, c, p) && ActiveChain(f, c, p)
    requires Within(f, p, q) ==> !Full(f, c, q)
    ensures !Full(f, c, q)
  {
    if !Within(f, p, q) {
      ChainUpward(f, c, q, p);
      MissingPart(f, c, q, p);
    }
  }

  lemma MoveOutClears(f: Forest, c: Concrete, p: nat, q: nat)
    requires p < |f| && q < |f| && Usable(f, c, p)
    ensures var c' := Erase(c, Subtree(f, p));
            if Related(f, p, q) then !Full(f, c', q) else Full(f, c, q) <==> Full(f, c', q)
  {
    var c' := Erase(c, Subtree(f, p));
    if Related(f, p, q) {
      EraseKeepsChain(f, c, p, p);
      EmptyNotFull(f, c', p);
      if Within(f, p, q) { EmptyPart(f, c', p, q); }
      RelatedToMissing(f, c', p, q);
    } else {
      UnrelatedFrame(f, c, c', p, q);
    }
  }

  lemma LocalTruth(f: Forest, c: Concrete, c': Concrete, l: LocalId, q: nat)
    requires q < |f| && (c' == BeginLocal(f, c, l) || c' == EndLocal(f, c, l))
    ensures if LocalOf(f, q) == l then !Full(f, c', q) else Full(f, c, q) <==> Full(f, c', q)
  {
    forall x | x in Subtree(f, q) ensures LocalOf(f, x) == LocalOf(f, q) { WithinRange(f, q, x); }
    if LocalOf(f, q) == l { EmptyNotFull(f, c', q); } else { FullFrame(f, c, c', q); }
  }

  lemma SelectClears(f: Forest, c: Concrete, p: nat, v: nat, q: nat)
    requires p < |f| && q < |f| && Usable(f, c, p) && Empty(f, c, p)
    ensures var c' := c.(active := c.active[p := v]);
            if Related(f, p, q) then !Full(f, c', q) else Full(f, c, q) <==> Full(f, c', q)
  {
    var c' := c.(active := c.active[p := v]);
    assert p in Subtree(f, p);
    if !Related(f, p, q) {
      UnrelatedFrame(f, c, c', p, q);
    } else {
      SelectedOnly(f, c, p, v, p);
      forall x | x in Ancestors(f, p) ensures SameAt(c, c', x) {}
      ChainFrame(f, c, c', p);
      if Within(f, p, q) { SelectedOnly(f, c, p, v, q); }
      RelatedToMissing(f, c', p, q);
    }
  }

  lemma QuietStep(f: Forest, st: State, c: Concrete, op: CleanupOp, c': Concrete, units: set<nat>,
                  flags: map<MovePathId, DropFlagId>, on: set<DropFlagId>, q: nat)
    requires q in flags && q < |f| && DistinctFlags(flags) && Written(op) == None
    requires Represents(f, st, c) && OpShapeOk(f, op) && OpStateOk(f, st, op) && Step(f, c, op, c')
    requires Truthful(f, c, units, flags, on, q)
    ensures Truthful(f, c', units, flags, UpdateFlags(f, Apply(f, st, op), op, flags, on), q)
  {
    UpdateMembership(f, Apply(f, st, op), op, flags, on, q);
    AcceptedIsSafe(f, st, c, op);
    match op
    case StorageLive(l) => LocalTruth(f, c, c', l, q);
    case StorageDead(l) => LocalTruth(f, c, c', l, q);
    case MoveOut(p) => MoveOutClears(f, c, p, q);
    case SetDiscriminant(p, v) => SelectClears(f, c, p, v, q);
    case AssumeDiscriminant(_, _) =>
  }

  /* ----- writes ----- */

  /** The write of `p` came out as `c'`: is the flag of `q` still right? */
  ghost predicate CameOutRight(f: Forest, base: Concrete, c': Concrete, p: nat, must: bool, units: set<nat>, q: nat,
                               isOn: bool) {
    must || !Related(f, p, q) ||
    (if Within(f, p, q) then
       if isOn then Selected(f, c', p, q) else q in units ==> !Selected(f, c', p, q)
     else isOn || (q in units ==> !RestFull(f, base, q, p)))
  }

  lemma WriteIsFill(f: Forest, c: Concrete, op: CleanupOp, c': Concrete)
    requires Written(op).Some?
    ensures Step(f, c, op, c') <==> Fill(f, BeforeWrite(f, c, op), Written(op).value, c')
  {
  }

  lemma BaseWellKinded(f: Forest, st: State, c: Concrete, op: CleanupOp)
    requires Represents(f, st, c) && OpShapeOk(f, op) && OpStateOk(f, st, op) && Written(op).Some?
    ensures WellKinded(f, BeforeWrite(f, c, op), Written(op).value)
  {
    forall r | r in c.active ensures r in EnumRoots(f) && c.active[r] in Variants(f, r) { assert PresentOk(f, c, r); }
    if op.Transfer? && IsEnum(f, op.source) && IsEnum(f, op.destination) && op.source in c.active {
      MatchingVariants(f, op.source, op.destination, c.active[op.source]);
    }
  }

  /** What a write leaves alone. */
  lemma WriteFrame(f: Forest, c: Concrete, op: CleanupOp, c': Concrete, x: nat)
    requires Written(op).Some? && Step(f, c, op, c') && x !in Subtree(f, Written(op).value)
    requires OpShapeOk(f, op)
    ensures SameAt(BeforeWrite(f, c, op), c', x)
    ensures op.Transfer? && x in Subtree(f, op.source) ==> !Present(c', x)
    ensures !(op.Transfer? && x in Subtree(f, op.source)) ==> SameAt(c, c', x)
  {
    WriteIsFill(f, c, op, c');
    var d := Written(op).value;
    assert d in Subtree(f, d);
    assert SameAt(BeforeWrite(f, c, op), c', x);
  }

  /** Nothing related to the source of a transfer is complete afterwards, the destination aside. */
  lemma SourceGone(f: Forest, c: Concrete, s: nat, d: nat, kind: TransferKind, c': Concrete, q: nat)
    requires OpShapeOk(f, Transfer(s, d, kind)) && Usable(f, c, s) && Step(f, c, Transfer(s, d, kind), c')
    requires q < |f| && Related(f, s, q)
    ensures !Full(f, c', q)
  {
    var op := Transfer(s, d, kind);
    forall x | x in Subtree(f, s) ensures !Present(c', x) {
      if x in Subtree(f, d) { WithinChain(f, s, d, x); }
      WriteFrame(f, c, op, c', x);
    }
    EmptyNotFull(f, c', s);
    forall a | a in Ancestors(f, s) ensures SameAt(c, c', a) {
      OwnAncestorsOutside(f, s, a);
      if a in Subtree(f, d) { WithinTrans(f, d, a, s); }
      WriteFrame(f, c, op, c', a);
    }
    ChainFrame(f, c, c', s);
    if Within(f, s, q) { EmptyPart(f, c', s, q); }
    RelatedToMissing(f, c', s, q);
  }

  lemma ApartFromSource(f: Forest, s: nat, d: nat, q: nat)
    requires s < |f| && d < |f| && q < |f| && !Within(f, s, d) && !Within(f, d, s) && Within(f, d, q)
    ensures !Related(f, s, q)
  {
    if Within(f, s, q) { WithinChain(f, s, d, q); }
    if Within(f, q, s) { WithinTrans(f, d, q, s); }
  }

  /** The new flag: set by the action, else cleared with the source, else as it was. */
  lemma WrittenFlag(f: Forest, after: State, op: CleanupOp, flags: map<MovePathId, DropFlagId>,
                    on: set<DropFlagId>, q: nat)
    requires q in flags && DistinctFlags(flags) && Written(op).Some?
    ensures flags[q] in UpdateFlags(f, after, op, flags, on) <==>
            if Related(f, Written(op).value, q) && q in after.mustInit then true
            else if op.Transfer? && Related(f, op.source, q) then false
            else flags[q] in on
  {
    UpdateMembership(f, after, op, flags, on, q);
  }

  lemma EnclosingOutcome(f: Forest, c: Concrete, op: CleanupOp, c': Concrete, q: nat)
    requires Written(op).Some? && OpShapeOk(f, op) && OpSafe(f, c, op) && Step(f, c, op, c') && Coherent(f, c')
    requires var p := Written(op).value; q < |f| && Within(f, q, p) && Full(f, c', p)
    ensures Full(f, c', q) <==> RestFull(f, BeforeWrite(f, c, op), q, Written(op).value)
    ensures op.Transfer? && Related(f, op.source, q) ==> !Full(f, c', q)
    ensures Full(f, c, q) && !(op.Transfer? && Related(f, op.source, q)) ==> Full(f, c', q)
  {
    var p := Written(op).value;
    FullIsUsable(f, c', p);
    forall x | x in Subtree(f, q) && x !in Subtree(f, p) ensures SameAt(BeforeWrite(f, c, op), c', x) {
      WriteFrame(f, c, op, c', x);
    }
    RestDecides(f, BeforeWrite(f, c, op), c', q, p);
    if op.Transfer? && Related(f, op.source, q) {
      SourceGone(f, c, op.source, op.destination, op.kind, c', q);
    } else if Full(f, c, q) {
      FullHasRest(f, c, q, p);
      forall x | x in Subtree(f, q) && x !in Subtree(f, p) ensures SameAt(c, c', x) {
        WriteFrame(f, c, op, c', x);
        if op.Transfer? { DisjointSubtrees(f, op.source, q, x); }
      }
      RestDecides(f, c, c', q, p);
    }
  }

  lemma UnrelatedOutcome(f: Forest, c: Concrete, op: CleanupOp, c': Concrete, q: nat)
    requires Written(op).Some? && OpShapeOk(f, op) && OpSafe(f, c, op) && Step(f, c, op, c')
    requires q < |f| && !Related(f, Written(op).value, q)
    ensures if op.Transfer? && Related(f, op.source, q) then !Full(f, c', q) else Full(f, c, q) <==> Full(f, c', q)
  {
    var p := Written(op).value;
    if op.Transfer? && Related(f, op.source, q) {
      SourceGone(f, c, op.source, op.destination, op.kind, c', q);
    } else {
      forall x | x in Subtree(f, q) ensures SameAt(c, c', x) {
        DisjointSubtrees(f, p, q, x);
        if op.Transfer? { DisjointSubtrees(f, op.source, q, x); }
        WriteFrame(f, c, op, c', x);
      }
      FullFrame(f, c, c', q);
    }
  }

  lemma WriteOutcome(f: Forest, st: State, c: Concrete, op: CleanupOp, c': Concrete, units: set<nat>,
                     flags: map<MovePathId, DropFlagId>, on: set<DropFlagId>, q: nat)
    requires q in flags && q < |f| && DistinctFlags(flags) && Written(op).Some?
    requires Represents(f, st, c) && OpShapeOk(f, op) && OpStateOk(f, st, op) && Step(f, c, op, c')
    requires Truthful(f, c, units, flags, on, q)
    ensures var after := Apply(f, st, op);
            Truthful(f, c', units, flags, UpdateFlags(f, after, op, flags, on), q)
            <==> CameOutRight(f, BeforeWrite(f, c, op), c', Written(op).value, q in after.mustInit, units, q,
                              flags[q] in on)
  {
    var after, p := Apply(f, st, op), Written(op).value;
    WrittenFlag(f, after, op, flags, on, q);
    AcceptedIsSafe(f, st, c, op);
    StepSound(f, st, c, op, c');
    assert NodeOk(f, after, c', q);
    WriteIsFill(f, c, op, c');
    assert p in Subtree(f, p);
    FilledPart(f, BeforeWrite(f, c, op), p, c', p);
    if !Related(f, p, q) {
      UnrelatedOutcome(f, c, op, c', q);
    } else if Within(f, p, q) {
      FilledPart(f, BeforeWrite(f, c, op), p, c', q);
      if op.Transfer? { ApartFromSource(f, op.source, p, q); }
    } else {
      EnclosingOutcome(f, c, op, c', q);
    }
  }

  /** Over all outcomes of a write. */
  lemma AllOutcomes(f: Forest, base: Concrete, p: nat, must: bool, units: set<nat>, q: nat, isOn: bool)
    requires p < |f| && q < |f| && WellKinded(f, base, p)
    ensures (forall c' | Fill(f, base, p, c') :: CameOutRight(f, base, c', p, must, units, q, isOn))
            <==> must || !Related(f, p, q) ||
                 (if Within(f, p, q) then
                    if isOn then Forced(f, base, p, q) else q in units ==> !Open(f, base, p, q)
                  else isOn || (q in units ==> !RestFull(f, base, q, p)))
  {
    if Within(f, p, q) {
      FillOutcomes(f, base, p, q);
    } else {
      FillExists(f, base, p);
    }
  }

  /**
   Exactly when an accepted operation, with its flag actions, keeps a truthful flag truthful
   whatever it writes: if and only if `KeepsTruth` holds before it. For any path, within
   enum variants too, and any choice of units.
   */
  lemma StepTruth(f: Forest, st: State, c: Concrete, op: CleanupOp, units: set<nat>,
                  flags: map<MovePathId, DropFlagId>, on: set<DropFlagId>, q: nat)
    requires q in flags && q < |f| && DistinctFlags(flags)
    requires Represents(f, st, c) && OpShapeOk(f, op) && OpStateOk(f, st, op)
    requires Truthful(f, c, units, flags, on, q)
    ensures TruthfulAfter(f, st, c, op, units, flags, on, q)
            <==> KeepsTruth(f, c, op, Apply(f, st, op), units, q, flags[q] in on)
  {
    var after := Apply(f, st, op);
    if Written(op) == None {
      forall c' | Step(f, c, op, c') ensures Truthful(f, c', units, flags, UpdateFlags(f, after, op, flags, on), q) {
        QuietStep(f, st, c, op, c', units, flags, on, q);
      }
    } else {
      var p, base := Written(op).value, BeforeWrite(f, c, op);
      BaseWellKinded(f, st, c, op);
      AllOutcomes(f, base, p, q in after.mustInit, units, q, flags[q] in on);
      forall c'
        ensures Step(f, c, op, c') <==> Fill(f, base, p, c')
        ensures Step(f, c, op, c') ==>
                (Truthful(f, c', units, flags, UpdateFlags(f, after, op, flags, on), q)
                 <==> CameOutRight(f, base, c', p, q in after.mustInit, units, q, flags[q] in on))
      {
        WriteIsFill(f, c, op, c');
        if Step(f, c, op, c') { WriteOutcome(f, st, c, op, c', units, flags, on, q); }
      }
    }
  }

  /* ----- the condition, operation by operation ----- */

  /** Initializing keeps the variants that are selected, so it never makes a set flag wrong. */
  lemma InitTruth(f: Forest, st: State, c: Concrete, p: nat, units: set<nat>, flags: map<MovePathId, DropFlagId>,
                  on: set<DropFlagId>, q: nat)
    requires q in flags && q < |f| && p < |f| && DistinctFlags(flags)
    requires Represents(f, st, c) && OpStateOk(f, st, Init(p)) && Truthful(f, c, units, flags, on, q)
    ensures TruthfulAfter(f, st, c, Init(p), units, flags, on, q)
            <==> || q in Apply(f, st, Init(p)).mustInit || !Related(f, p, q) || flags[q] in on || q !in units
                 || (if Within(f, p, q) then !Open(f, c, p, q) else !RestFull(f, c, q, p))
  {
    StepTruth(f, st, c, Init(p), units, flags, on, q);
    if flags[q] in on && Within(f, p, q) {
      FullIsUsable(f, c, q);
      ActiveIsForced(f, c, p, q);
    }
  }

  /** In a cleared value, what is bound to be reached is what is definitely initialized. */
  lemma {:induction false} ForcedIsMust(f: Forest, st: State, c: Concrete, p: nat, q: nat)
    requires p < |f| && q in Subtree(f, p) && Empty(f, c, p)
    requires forall x | x in Subtree(f, p) :: Disc(st, x) == UNSELECTED
    ensures Forced(f, c, p, q) <==> MarkOf(f, st, p, Must, q) == Marked(Must)
    decreases Depth(f, q)
  {
    if q != p {
      ParentFacts(f, q);
      var a := Parent(f, q).value;
      ForcedIsMust(f, st, c, p, a);
      if IsDowncast(f, q) { KidsAgree(f, a, q); }
    }
  }

  lemma MustIsMarked(f: Forest, st: State, p: nat, q: nat)
    requires p < |f| && q in Subtree(f, p)
    ensures q in InitializePath(f, st, p).mustInit <==> MarkOf(f, st, p, Must, q) == Marked(Must)
  {
    RecomposeFrame(f, MarkWhole(f, st, p, Must), p);
    if q in Ancestors(f, p) { WithinRange(f, p, q); WithinAntisymmetric(f, p, q); }
  }

  /**
   Overwriting may pick any variant, so the flag of a part stays right exactly when an action
   sets it, or when it is clear and the part is no unit.
   */
  lemma OverwriteTruth(f: Forest, st: State, c: Concrete, p: nat, units: set<nat>, flags: map<MovePathId, DropFlagId>,
                       on: set<DropFlagId>, q: nat)
    requires q in flags && q < |f| && p < |f| && DistinctFlags(flags)
    requires Represents(f, st, c) && OpStateOk(f, st, Overwrite(p)) && Truthful(f, c, units, flags, on, q)
    ensures TruthfulAfter(f, st, c, Overwrite(p), units, flags, on, q)
            <==> || q !in Subtree(f, p) || q in Apply(f, st, Overwrite(p)).mustInit
                 || (flags[q] !in on && q !in units)
  {
    var op := Overwrite(p);
    var erased := Erase(c, Subtree(f, p));
    StepTruth(f, st, c, op, units, flags, on, q);
    AcceptedIsSafe(f, st, c, op);
    if q in Subtree(f, p) {
      ForcedIsMust(f, ClearPath(f, st, p), erased, p, q);
      MustIsMarked(f, ClearPath(f, st, p), p, q);
      EmptyIsOpen(f, erased, p, q);
    } else if Within(f, q, p) && RestFull(f, erased, q, p) {
      forall x | x in Subtree(f, q) && x !in Subtree(f, p) ensures SameAt(erased, c, x) {}
      RestDecides(f, erased, c, q, p);
    }
  }

  /* ----- edges ----- */

  lemma {:induction false} EndLocalsTruth(f: Forest, c: Concrete, locals: seq<LocalId>, q: nat)
    requires q < |f|
    ensures if LocalOf(f, q) in locals then !Full(f, EndLocals(f, c, locals), q)
            else Full(f, c, q) <==> Full(f, EndLocals(f, c, locals), q)
  {
    if locals != [] {
      var n := |locals| - 1;
      EndLocalsTruth(f, c, locals[..n], q);
      LocalTruth(f, EndLocals(f, c, locals[..n]), EndLocals(f, c, locals), locals[n], q);
      assert locals == locals[..n] + [locals[n]];
    }
  }

  /** An edge emits no action, so it keeps a truthful flag truthful unless it ends the storage below a set flag. */
  lemma EdgeTruth(plan: Plan, x: Config, e: CleanupEdge, y: Config, units: set<nat>,
                  flags: map<MovePathId, DropFlagId>, on: set<DropFlagId>, q: nat)
    requires IsForest(plan.movePaths) && ConfigOk(plan, x) && EdgeMove(plan, x, e, y)
    requires q in flags && q < |plan.movePaths| && Truthful(plan.movePaths, x.memory, units, flags, on, q)
    ensures Truthful(plan.movePaths, y.memory, units, flags, on, q)
            <==> !(LocalOf(plan.movePaths, q) in ExitedLocals(plan, e.exitedScopes) && flags[q] in on)
  {
    EndLocalsTruth(plan.movePaths, x.memory, ExitedLocals(plan, e.exitedScopes), q);
  }
}
