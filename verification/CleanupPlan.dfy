/** The control-flow graph of cleanup operations that `cleanup.rs` analyses. */
module CleanupPlan {
  import opened Wrappers

  type ScopeId = nat
  type LocalId = nat
  type MovePathId = nat
  type BlockId = nat
  type DropFlagId = nat

  datatype ScopeKind = RootScope | FunctionBody | Lexical | Loop | MatchArm | TemporaryScope

  datatype ScopeData = ScopeData(
    id: ScopeId, parent: Option<ScopeId>, kind: ScopeKind, locals: seq<LocalId>)

  datatype LocalKind = Argument | User | Pattern | TemporaryLocal | ReturnPlace

  datatype LocalOwnership = Owned | SharedBorrow | MutableBorrow

  datatype LocalDecl = LocalDecl(
    id: LocalId, scope: ScopeId, kind: LocalKind, ownership: LocalOwnership, declarationOrder: nat)

  datatype Projection =
    | Deref
    | Field(field: nat)
    | TupleIndex(element: nat)
    | ConstantIndex(offset: nat)
    | Index(index: LocalId)
    | Downcast(variant: nat)
    | Capture(capture: nat)

  datatype Place = Place(local: LocalId, projections: seq<Projection>)

  datatype MovePath = MovePath(
    id: MovePathId, place: Place, parent: Option<MovePathId>, needsDrop: bool)

  datatype TransferKind = Initialize | OverwriteKind | MaybeOverwrite

  datatype CleanupOp =
    | StorageLive(local: LocalId)
    | Init(path: MovePathId)
    | MoveOut(path: MovePathId)
    | Overwrite(path: MovePathId)
    | Transfer(source: MovePathId, destination: MovePathId, kind: TransferKind)
    | SetDiscriminant(destination: MovePathId, variant: nat)
    | AssumeDiscriminant(source: MovePathId, variant: nat)
    | StorageDead(local: LocalId)

  datatype CleanupEdge = CleanupEdge(target: BlockId, exitedScopes: seq<ScopeId>)

  datatype Terminator =
    | Goto(edge: CleanupEdge)
    | Branch(condition: LocalId, thenEdge: CleanupEdge, elseEdge: CleanupEdge)
    | Return(exitedScopes: seq<ScopeId>)
    | Abort
    | Unreachable

  datatype BasicBlock = BasicBlock(
    id: BlockId, scope: ScopeId, operations: seq<CleanupOp>, terminator: Option<Terminator>)

  datatype Plan = Plan(
    rootScope: ScopeId, entry: BlockId, scopes: seq<ScopeData>, locals: seq<LocalDecl>,
    movePaths: seq<MovePath>, blocks: seq<BasicBlock>)

  /** The edges a block can leave by, in the order the analysis follows them. */
  function Edges(t: Terminator): seq<CleanupEdge> {
    match t
    case Goto(edge) => [edge]
    case Branch(_, thenEdge, elseEdge) => [thenEdge, elseEdge]
    case _ => []
  }
}
