/** The task contract, the operations a patch is made of, and patch proposals. */
module Contract {
  import opened Ordering
  import opened KeyedList

  /** A JSON value offered for a scalar field; `Composite` is null, an array or an object. */
  datatype Value =
    | Undefined
    | Text(text: string)
    | Number(number: real)
    | NotFinite
    | Flag(flag: bool)
    | Composite

  /** The fifteen patchable scalar fields. */
  datatype FieldPath =
    | Title
    | ObjectivePrimary | ObjectiveRationale | ObjectivePriority | ObjectiveSuccessSignal
    | MaxToolCalls | MaxProviderCalls | MaxJudgmentCost
    | CanChooseMethods | CanProposeScope | CanSelfReview | OverridesNeedConfirmation
    | RequireSourceForClaims | MinEvidenceLevel | AllowUserTestimony

  predicate IsAuthorityPath(path: FieldPath) {
    path.CanChooseMethods? || path.CanProposeScope? || path.CanSelfReview? || path.OverridesNeedConfirmation?
  }

  datatype BoundaryKind =
    | ObjectiveKind | ScopeKind | EvidenceKind | AuthorityKind | ActionKind
    | BudgetKind | PrivacyKind | CompletionKind | ProcessKind
  datatype Severity = Hard | Soft | Open
  datatype Owner = UserOwner | ProjectOwner | SystemOwner | InferredOwner
  datatype GrantStatus = GrantActive | GrantSuperseded | GrantExpired

  // `details` stands for the fields of a record no operation looks at.
  datatype DeliverableBody = DeliverableBody(description: string, details: string)
  datatype ScopeBody = ScopeBody(source: string, outbound: bool, details: string)
  datatype BoundaryBody = BoundaryBody(
    kind: BoundaryKind, severity: Severity, statement: string, owner: Owner, overridable: bool, details: string)
  datatype StopBody = StopBody(isMet: bool, evidenceRequired: bool)
  datatype AssumptionBody = AssumptionBody(source: string, details: string)
  datatype GrantBody = GrantBody(status: GrantStatus, details: string)

  type Deliverable = Keyed<DeliverableBody>       // keyed by deliverableId
  type ScopeItem = Keyed<ScopeBody>               // keyed by statement
  type Boundary = Keyed<BoundaryBody>             // keyed by boundaryId
  type StopCondition = Keyed<StopBody>            // keyed by condition
  type Assumption = Keyed<AssumptionBody>         // keyed by statement
  type Preauthorization = Keyed<GrantBody>        // keyed by preauthorizationId

  /** An ISO timestamp: the text as written and the instant it denotes. */
  datatype Timestamp = Timestamp(written: string, epoch: int)

  datatype TaskContract = TaskContract(
    contractId: string,
    taskId: string,
    version: int,
    scalars: map<FieldPath, Value>,
    deliverables: seq<Deliverable>,
    scopeIn: seq<ScopeItem>,
    scopeOut: seq<ScopeItem>,
    boundaries: seq<Boundary>,
    stopConditions: seq<StopCondition>,
    assumptions: seq<Assumption>,
    correctionRefs: seq<string>,
    preauthorizations: Option<seq<Preauthorization>>,
    createdAt: Timestamp,
    updatedAt: Timestamp)
  {
    function Grants(): seq<Preauthorization> {
      if preauthorizations.Some? then preauthorizations.value else []
    }

    /** No list holds two items of one identity. */
    ghost predicate UniqueIdentities() {
      && UniqueIds(deliverables)
      && UniqueIds(scopeIn)
      && UniqueIds(scopeOut)
      && UniqueIds(boundaries)
      && UniqueIds(stopConditions)
      && UniqueIds(assumptions)
      && UniqueIds(Grants())
      && (forall i, j :: 0 <= i < j < |correctionRefs| ==> correctionRefs[i] != correctionRefs[j])
    }
  }

  datatype Span = Span(start: nat, end: nat)

  datatype PatchOperation =
    | SetField(path: FieldPath, value: Value, span: Option<Span>)
    | UpsertDeliverable(deliverable: Deliverable, span: Option<Span>)
    | RemoveDeliverable(deliverableId: string)
    | AddScopeIn(item: ScopeItem, span: Option<Span>)
    | RemoveScopeIn(statement: string)
    | AddScopeOut(item: ScopeItem, span: Option<Span>)
    | RemoveScopeOut(statement: string)
    | AddBoundary(boundary: Boundary, span: Option<Span>)
    | RemoveBoundary(boundaryId: string)
    | AddStopCondition(stop: StopCondition, span: Option<Span>)
    | RemoveStopCondition(condition: string)
    | AddAssumption(assumption: Assumption, span: Option<Span>)
    | RemoveAssumption(statement: string)
    | AppendCorrectionRef(correctionId: string)
    | AddPreauthorization(grant: Preauthorization)
    | SupersedePreauthorization(preauthorizationId: string)

  const INFERRED_TIER: nat := 6

  /** A proposal; tier 0 is `system_safety`, tier 6 is `inferred`. */
  datatype PatchProposal = PatchProposal(
    proposalId: string,
    contractId: string,
    taskId: string,
    expectedVersion: int,
    operations: seq<PatchOperation>,
    tier: nat,
    owner: Owner,
    sourceRefs: seq<string>,
    createdAt: Timestamp)

  const PROPOSAL_ID_LENGTH: nat := 26

  /** What the proposal schema demands beyond the types above. */
  predicate SatisfiesSchema(p: PatchProposal) {
    && |p.proposalId| == PROPOSAL_ID_LENGTH
    && 0 < p.expectedVersion <= MAX_SAFE_INTEGER
    && |p.operations| > 0
    && p.tier <= INFERRED_TIER
    && (p.tier == INFERRED_TIER ==> p.owner == InferredOwner)
  }
}
