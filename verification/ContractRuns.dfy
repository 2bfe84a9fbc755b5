/** `applyContractPatch` and what any run of applied proposals keeps. */
module ContractRuns {
  import opened Ordering
  import opened Contract
  import opened PatchApply

  datatype PatchError =
    | ProposalInvalid
    | IdentityMismatch
    | VersionMismatch
    | NotInferable
    | OperationRejected(error: ApplyError)
    | ResultInvalid

  /** A boundary inference may create: its own, not hard, overridable, and not about authority. */
  predicate InferableBoundary(b: BoundaryBody) {
    b.owner == InferredOwner && b.severity != Hard && b.overridable && b.kind != AuthorityKind
  }

  predicate InferableOperation(op: PatchOperation) {
    match op
    case AddBoundary(b, _) => InferableBoundary(b.body)
    case SetField(path, _, _) => !IsAuthorityPath(path)
    case AddPreauthorization(_) => false
    case _ => true
  }

  /** The operation fence for inferred proposals. */
  method AssertInferredOperationsAdmissible(operations: seq<PatchOperation>) returns (admissible: bool)
    ensures admissible <==> forall op :: op in operations ==> InferableOperation(op)
  {
    for i := 0 to |operations|
      invariant forall j :: 0 <= j < i ==> InferableOperation(operations[j])
    {
      if !InferableOperation(operations[i]) {
        assert operations[i] in operations;
        return false;
      }
    }
    return true;
  }

  /** The scalar fields a contract must have. */
  const REQUIRED_FIELDS: set<FieldPath> := {
    Title, ObjectivePrimary, ObjectivePriority,
    CanChooseMethods, CanProposeScope, CanSelfReview, OverridesNeedConfirmation,
    RequireSourceForClaims, MinEvidenceLevel, AllowUserTestimony}

  predicate IsCallBudget(path: FieldPath) {
    path.MaxToolCalls? || path.MaxProviderCalls?
  }

  /** The schema's integers are safe ones; the field validators take any integer. */
  predicate Unsafe(v: Value) {
    v.Number? && v.number > MAX_SAFE_INTEGER as real
  }

  /** The schema's own constraint on each scalar field. */
  predicate SchemaTakes(path: FieldPath, v: Value) {
    match path
    case Title => v.Text? && 1 <= |v.text| <= 500
    case ObjectivePrimary => v.Text? && 1 <= |v.text| <= 2000
    case ObjectiveRationale => v.Text? && |v.text| <= 5000
    case ObjectivePriority => v.Text? && v.text in {"critical", "high", "normal", "low"}
    case ObjectiveSuccessSignal => v.Text? && |v.text| <= 2000
    case MaxToolCalls => v.Number? && v.number.Floor as real == v.number && 1 <= v.number.Floor <= 9007199254740991
    case MaxProviderCalls => v.Number? && v.number.Floor as real == v.number && 1 <= v.number.Floor <= 9007199254740991
    case MaxJudgmentCost => v.Number? && v.number > 0.0
    case CanChooseMethods => v.Flag?
    case CanProposeScope => v.Flag?
    case CanSelfReview => v.Flag?
    case OverridesNeedConfirmation => v.Flag?
    case RequireSourceForClaims => v.Flag?
    case MinEvidenceLevel => v.Text? && v.text in {"none", "reference", "excerpt", "hash"}
    case AllowUserTestimony => v.Flag?
  }

  /** The operations' validators mirror the schema, field by field, but for the safe range of the two call budgets. */
  lemma ValidatorsMirrorSchema(path: FieldPath, v: Value)
    ensures SchemaTakes(path, v) <==> ValidFieldValue(path, v) && !(IsCallBudget(path) && Unsafe(v))
  {
    if v.Number? {
      assert v.number.Floor as real == v.number && v.number > 0.0 ==> v.number.Floor >= 1;
    }
  }

  /** What the contract schema demands beyond the types. */
  predicate SatisfiesContractSchema(c: TaskContract) {
    && 1 <= c.version <= MAX_SAFE_INTEGER
    && (forall path :: path in c.scalars ==> SchemaTakes(path, c.scalars[path]))
    && REQUIRED_FIELDS <= c.scalars.Keys
  }

  /** The guards in order: what stops a proposal before its operations are looked at. */
  function Refusal(c: TaskContract, p: PatchProposal): Option<PatchError> {
    if !SatisfiesSchema(p) then Some(ProposalInvalid)
    else if p.contractId != c.contractId || p.taskId != c.taskId then Some(IdentityMismatch)
    else if c.version != p.expectedVersion then Some(VersionMismatch)
    else if p.tier == INFERRED_TIER && exists op :: op in p.operations && !InferableOperation(op)
    then Some(NotInferable)
    else None
  }

  /** The guards, then a strict apply one version ahead, then the schema. */
  function PatchedContract(c: TaskContract, p: PatchProposal): Result<TaskContract, PatchError> {
    if Refusal(c, p).Some? then Failure(Refusal(c, p).value)
    else
      match Applied(c, p.operations, true)
      case Failure(e) => Failure(OperationRejected(e))
      case Success(next) =>
        var result := next.(version := c.version + 1, updatedAt := p.createdAt);
        if SatisfiesContractSchema(result) then Success(result) else Failure(ResultInvalid)
  }

  /** Validates a proposal against a contract and applies it. */
  method ApplyContractPatch(contract: TaskContract, proposal: PatchProposal)
      returns (r: Result<TaskContract, PatchError>)
    ensures r == PatchedContract(contract, proposal)
  {
    if !SatisfiesSchema(proposal) {
      return Failure(ProposalInvalid);
    }
    if proposal.contractId != contract.contractId || proposal.taskId != contract.taskId {
      return Failure(IdentityMismatch);
    }
    if contract.version != proposal.expectedVersion {
      return Failure(VersionMismatch);
    }
    if proposal.tier == INFERRED_TIER {
      var admissible := AssertInferredOperationsAdmissible(proposal.operations);
      if !admissible {
        return Failure(NotInferable);
      }
    }
    var applied := ApplyPatchOperations(contract, proposal.operations, true);
    match applied
    case Failure(e) =>
      return Failure(OperationRejected(e));
    case Success(next) =>
      var result := next.(version := contract.version + 1, updatedAt := proposal.createdAt);
      return if SatisfiesContractSchema(result) then Success(result) else Failure(ResultInvalid);
  }

  /** The value the operations leave at a scalar field, if they set it. */
  function LastSet(ops: seq<PatchOperation>, path: FieldPath): Option<Value>
    decreases |ops|
  {
    if ops == [] then None
    else
      var later := LastSet(ops[1..], path);
      if later.Some? then later
      else if ops[0].SetField? && ops[0].path == path then Some(ops[0].value) else None
  }

  lemma {:induction false} ScalarsAfterAll(w: Working, ops: seq<PatchOperation>, strict: bool, path: FieldPath)
    requires ApplyAll(w, ops, strict).Success?
    ensures var before, after := w.contract.scalars, ApplyAll(w, ops, strict).value.contract.scalars;
            var last := LastSet(ops, path);
            && (path in after <==> path in before || last.Some?)
            && (path in after ==> after[path] == if last.Some? then last.value else before[path])
            && (last.Some? ==> ValidFieldValue(path, last.value))
    decreases |ops|
  {
    if ops != [] {
      ScalarsAfterOne(w, ops[0], strict);
      ScalarsAfterAll(ApplyOne(w, ops[0], strict).value, ops[1..], strict, path);
    }
  }

  lemma ScalarsAfterOne(w: Working, op: PatchOperation, strict: bool)
    requires ApplyOne(w, op, strict).Success?
    ensures var c := ApplyOne(w, op, strict).value.contract;
            && (op.SetField? ==>
                  c.scalars == w.contract.scalars[op.path := op.value] && ValidFieldValue(op.path, op.value))
            && (!op.SetField? ==> c.scalars == w.contract.scalars)
  {
  }

  predicate UnsafeBudgetAt(ops: seq<PatchOperation>, path: FieldPath) {
    IsCallBudget(path) && LastSet(ops, path).Some? && Unsafe(LastSet(ops, path).value)
  }

  /** The operations leave a call budget the schema does not take. */
  ghost predicate LeavesUnsafeBudget(ops: seq<PatchOperation>) {
    exists path :: UnsafeBudgetAt(ops, path)
  }

  lemma SchemaAfterAll(c: TaskContract, ops: seq<PatchOperation>, version: int, at: Timestamp)
    requires SatisfiesContractSchema(c) && Applied(c, ops, true).Success? && version == c.version + 1
    ensures SatisfiesContractSchema(Applied(c, ops, true).value.(version := version, updatedAt := at)) <==>
            c.version < MAX_SAFE_INTEGER && !LeavesUnsafeBudget(ops)
  {
    var next := Applied(c, ops, true).value;
    forall path
      ensures path in c.scalars ==> path in next.scalars
      ensures path in next.scalars ==> (SchemaTakes(path, next.scalars[path]) <==> !UnsafeBudgetAt(ops, path))
      ensures UnsafeBudgetAt(ops, path) ==> path in next.scalars
    {
      FieldAfterAll(c, ops, path);
    }
    assert c.scalars.Keys <= next.scalars.Keys;
  }

  lemma FieldAfterAll(c: TaskContract, ops: seq<PatchOperation>, path: FieldPath)
    requires SatisfiesContractSchema(c) && Applied(c, ops, true).Success?
    ensures var next := Applied(c, ops, true).value.scalars;
            && (path in c.scalars ==> path in next)
            && (path in next ==> (SchemaTakes(path, next[path]) <==> !UnsafeBudgetAt(ops, path)))
            && (UnsafeBudgetAt(ops, path) ==> path in next)
  {
    ScalarsAfterAll(Working(c, {}), ops, true, path);
    if path in Applied(c, ops, true).value.scalars {
      ValidatorsMirrorSchema(path, Applied(c, ops, true).value.scalars[path]);
    }
    if path in c.scalars { ValidatorsMirrorSchema(path, c.scalars[path]); }
  }

  /**
   * The final schema check refuses what the operations produced if and only if they leave a call budget beyond the
   * safe integers, or the version has run out of them: the field validators take every integer, the schema does not.
   */
  lemma ResultIsRefusedExactlyWhenUnsafe(c: TaskContract, p: PatchProposal)
    requires SatisfiesContractSchema(c)
    ensures PatchedContract(c, p) == Failure(ResultInvalid) <==>
              && Refusal(c, p).None? && Applied(c, p.operations, true).Success?
              && (LeavesUnsafeBudget(p.operations) || c.version == MAX_SAFE_INTEGER)
  {
    if Refusal(c, p).None? && Applied(c, p.operations, true).Success? {
      SchemaAfterAll(c, p.operations, c.version + 1, p.createdAt);
    }
  }

  /** It happens: one operation sets a call budget to 2^53, passes its validator and ends in an internal error. */
  lemma UnsafeBudgetIsRefusedLate(c: TaskContract, p: PatchProposal, path: FieldPath, span: Option<Span>)
    requires SatisfiesContractSchema(c) && IsCallBudget(path)
    requires Refusal(c, p).None? && p.operations == [SetField(path, Number(9007199254740992.0), span)]
    ensures Applied(c, p.operations, true).Success? && PatchedContract(c, p) == Failure(ResultInvalid)
  {
    var start, op := Working(c, {}), p.operations[0];
    assert 9007199254740992.0 == 9007199254740992 as real;
    assert ApplyOne(start, op, true).Success? && p.operations[1..] == [];
    assert ApplyAll(start, p.operations, true) == ApplyAll(ApplyOne(start, op, true).value, [], true);
    assert UnsafeBudgetAt(p.operations, path);
    ResultIsRefusedExactlyWhenUnsafe(c, p);
  }

  /**
   * A proposal applies exactly when it satisfies its schema and targets this contract at its version; every operation
   * is one inference may make when it is inferred; no operation is refused; and nothing unsafe is left.
   */
  lemma AppliesExactlyWhen(c: TaskContract, p: PatchProposal)
    requires SatisfiesContractSchema(c)
    ensures PatchedContract(c, p).Success? <==>
            && |p.proposalId| == 26 && p.operations != []
            && (p.tier < 6 || (p.tier == 6 && p.owner == InferredOwner))
            && p.contractId == c.contractId && p.taskId == c.taskId && p.expectedVersion == c.version
            && (p.tier == 6 ==> forall op :: op in p.operations ==> InferableOperation(op))
            && Applied(c, p.operations, true).Success?
            && !LeavesUnsafeBudget(p.operations) && c.version < 9007199254740991
  {
    ResultIsRefusedExactlyWhenUnsafe(c, p);
  }

  /**
   * Inference may make every operation but these: a preauthorization, an authority policy, and a boundary that is not
   * its own, is hard, cannot be overridden, or is about authority.
   */
  lemma InferableExactlyWhen(op: PatchOperation)
    ensures !InferableOperation(op) <==>
            || op.AddPreauthorization?
            || (op.SetField?
                && op.path in {CanChooseMethods, CanProposeScope, CanSelfReview, OverridesNeedConfirmation})
            || (op.AddBoundary?
                && var b := op.boundary.body;
                   b.owner != InferredOwner || b.severity == Hard || !b.overridable || b.kind == AuthorityKind)
  {
  }

  /**
   * A successful apply is exactly one version ahead, stamped with the proposal's time, keeps attribution and
   * creation time, satisfies the schema, and keeps every list's identities unique that were.
   */
  lemma ApplyAdvancesOneVersion(c: TaskContract, p: PatchProposal)
    requires PatchedContract(c, p).Success?
    ensures var next := PatchedContract(c, p).value;
            && Header(next) == (c.contractId, c.taskId, c.version + 1, c.createdAt, p.createdAt)
            && (c.UniqueIdentities() ==> next.UniqueIdentities())
            && SatisfiesContractSchema(next)
  {
    ApplyAllKeepsHeaderAndUnique(Working(c, {}), p.operations, true);
  }

  /** Applying proposals one after another; a refused one ends the run. */
  ghost function Run(c: TaskContract, ps: seq<PatchProposal>): Result<TaskContract, PatchError>
    decreases |ps|
  {
    if ps == [] then Success(c)
    else
      match PatchedContract(c, ps[0])
      case Failure(e) => Failure(e)
      case Success(next) => Run(next, ps[1..])
  }

  /** The version counts the applied proposals, whatever they are and whatever the contract holds. */
  lemma {:induction false} RunCountsVersions(c: TaskContract, ps: seq<PatchProposal>)
    requires Run(c, ps).Success?
    ensures var last := Run(c, ps).value;
            && last.version == c.version + |ps|
            && (last.contractId, last.taskId, last.createdAt) == (c.contractId, c.taskId, c.createdAt)
            && (c.UniqueIdentities() ==> last.UniqueIdentities())
            && (ps != [] ==> SatisfiesContractSchema(last))
    decreases |ps|
  {
    if ps != [] {
      ApplyAdvancesOneVersion(c, ps[0]);
      RunCountsVersions(PatchedContract(c, ps[0]).value, ps[1..]);
    }
  }

  /** No proposal applies twice in a run: after it the version it expects is gone. */
  lemma NoProposalAppliesTwice(c: TaskContract, p: PatchProposal, between: seq<PatchProposal>)
    requires Run(c, [p] + between).Success?
    ensures PatchedContract(Run(c, [p] + between).value, p).Failure?
  {
    RunCountsVersions(c, [p] + between);
  }

  // ----- Inference never gains authority -----

  /** What `after` may differ from `before` in, when only inference spoke in between. */
  ghost predicate NoAuthorityGained(before: TaskContract, after: TaskContract) {
    && SameAuthorityPolicy(before.scalars, after.scalars)
    && (forall b :: b in after.boundaries ==> b in before.boundaries || InferableBoundary(b.body))
    && NoGrantGained(before.Grants(), after.Grants())
  }

  ghost predicate SameAuthorityPolicy(before: map<FieldPath, Value>, after: map<FieldPath, Value>) {
    forall path :: IsAuthorityPath(path) ==>
      (path in after <==> path in before) && (path in before ==> after[path] == before[path])
  }

  /** Every grant after was there before, or is one that was there, superseded. */
  ghost predicate NoGrantGained(before: seq<Preauthorization>, after: seq<Preauthorization>) {
    forall g :: g in after ==>
      g in before || (g.body.status == GrantSuperseded && exists h :: h in before && h.id == g.id)
  }

  lemma MarkMembers(s: seq<Preauthorization>, id: string)
    ensures NoGrantGained(s, MarkSuperseded(s, id))
  {
  }

  lemma OneInferredOperation(w: Working, op: PatchOperation)
    requires InferableOperation(op) && ApplyOne(w, op, true).Success?
    ensures NoAuthorityGained(w.contract, ApplyOne(w, op, true).value.contract)
  {
    ScalarsAfterOne(w, op, true);
    GrantsAfterOne(w, op);
  }

  lemma GrantsAfterOne(w: Working, op: PatchOperation)
    requires InferableOperation(op) && ApplyOne(w, op, true).Success?
    ensures NoGrantGained(w.contract.Grants(), ApplyOne(w, op, true).value.contract.Grants())
  {
    if op.SupersedePreauthorization? {
      MarkMembers(w.contract.Grants(), op.preauthorizationId);
    } else {
      assert ApplyOne(w, op, true).value.contract.Grants() == w.contract.Grants();
    }
  }

  lemma {:induction false} InferredOperations(w: Working, ops: seq<PatchOperation>)
    requires (forall op :: op in ops ==> InferableOperation(op)) && ApplyAll(w, ops, true).Success?
    ensures NoAuthorityGained(w.contract, ApplyAll(w, ops, true).value.contract)
    decreases |ops|
  {
    if ops != [] {
      var next := ApplyOne(w, ops[0], true).value;
      OneInferredOperation(w, ops[0]);
      InferredOperations(next, ops[1..]);
    }
  }

  /**
   * Over any chain of inferred proposals the authority policy never changes; no boundary appears that is hard,
   * non-overridable, about authority or owned by anyone but inference; no grant is added or becomes active.
   */
  lemma {:induction false} InferredRunGainsNoAuthority(c: TaskContract, ps: seq<PatchProposal>)
    requires forall p :: p in ps ==> p.tier == INFERRED_TIER
    requires Run(c, ps).Success?
    ensures NoAuthorityGained(c, Run(c, ps).value)
    decreases |ps|
  {
    if ps != [] {
      var next := PatchedContract(c, ps[0]).value;
      assert ps[0] in ps;
      InferredOperations(Working(c, {}), ps[0].operations);
      InferredRunGainsNoAuthority(next, ps[1..]);
    }
  }
}
