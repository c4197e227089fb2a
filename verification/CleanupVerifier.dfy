/** `analyze_and_verify`: every check in turn, then the drop flags. */
module CleanupVerifier {
  import opened Wrappers
  import opened CleanupPlan
  import opened MovePaths
  import opened TopologyBuilder
  import opened Structure
  import opened StructureVerifier
  import opened Runs
  import opened ComputedAnalysis
  import opened MoveStateAnalyses
  import opened PlanVerifier
  import opened DropFlagAnalyses

  /**
   The verdict is a matter of the plan alone: it succeeds exactly when the plan is structured
   and its computed analysis is stable. Each earlier failure hides the later checks.
   */
  method AnalyzeAndVerify(plan: Plan) returns (result: Result<DropFlagAnalysis, seq<VerifyError>>, ghost a: Analysis)
    ensures Structured(plan) ==> a == Computed(plan) && Fixpoint(plan, a)
    ensures result.Success? <==> Verified(plan)
    ensures result.Success? ==> Accepted(plan, a) && Synthesized(plan, a, result.value)
    ensures result.Failure? ==> result.error != []
  {
    VerifiedIsAccepted(plan);
    a := Analysis([], []);
    var errors := VerifyStructure(plan);
    if errors != [] {
      return Failure(errors), a;
    }
    PathsInRange(plan);
    var t := New(plan.movePaths, |plan.locals|);
    errors := VerifyTopologyOperations(plan, t);
    if errors != [] {
      return Failure(errors), a;
    }
    var entry, exit;
    ghost var repr;
    entry, exit, a, repr := Compute(plan, t);
    errors := VerifyStableMoveState(plan, t, entry, a, repr);
    if errors != [] {
      return Failure(errors), a;
    }
    var flags := Synthesize(plan, t, entry, a, repr);
    result := Success(flags);
  }

  lemma PathsInRange(plan: Plan)
    requires StructureOk(plan)
    ensures IsForest(plan.movePaths) && forall p: nat | p < |plan.movePaths| ::
        LocalOf(plan.movePaths, p) < |plan.locals|
  {
    forall p: nat | p < |plan.movePaths| ensures LocalOf(plan.movePaths, p) < |plan.locals| { assert PlaceOk(plan, p); }
  }
}
