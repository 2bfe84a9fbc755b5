/** Applying patch operations: strictly for a real apply, leniently for the merge preview. */
module PatchApply {
  import opened Ordering
  import opened KeyedList
  import opened Contract
  import opened Patch

  datatype ApplyError =
    | InvalidFieldValue(path: FieldPath)
    | DuplicateIdentity(field: FieldId)
    | AbsentIdentity(field: FieldId)

  predicate TextWithin(v: Value, low: nat, high: nat) {
    v.Text? && low <= |v.text| <= high
  }

  predicate PositiveInteger(v: Value) {
    v.Number? && v.number > 0.0 && v.number.Floor as real == v.number
  }

  /** The field validators: an object, an array or a missing value never passes. */
  predicate ValidFieldValue(path: FieldPath, v: Value) {
    match path
    case Title => TextWithin(v, 1, 500)
    case ObjectivePrimary => TextWithin(v, 1, 2000)
    case ObjectiveRationale => TextWithin(v, 0, 5000)
    case ObjectivePriority => v.Text? && v.text in {"critical", "high", "normal", "low"}
    case ObjectiveSuccessSignal => TextWithin(v, 0, 2000)
    case MaxToolCalls => PositiveInteger(v)
    case MaxProviderCalls => PositiveInteger(v)
    case MaxJudgmentCost => v.Number? && v.number > 0.0
    case MinEvidenceLevel => v.Text? && v.text in {"none", "reference", "excerpt", "hash"}
    case _ => v.Flag?
  }

  /** The working copy, and the identities this proposal has introduced so far. */
  datatype Working = Working(contract: TaskContract, seen: set<FieldId>)

  function Superseded(g: Preauthorization): Preauthorization {
    g.(body := g.body.(status := GrantSuperseded))
  }

  /** Marks the first grant of an identity superseded, where it stands. */
  function MarkSuperseded(s: seq<Preauthorization>, id: string): seq<Preauthorization> {
    var i := IndexOf(s, id);
    if i < 0 then s else s[i := Superseded(s[i])]
  }

  /** One operation. */
  function ApplyOne(w: Working, op: PatchOperation, strict: bool): Result<Working, ApplyError> {
    var c, f := w.contract, FieldOf(op);
    var introduced := w.seen + {f};
    match op
    case SetField(path, value, _) =>
      if ValidFieldValue(path, value) then Success(w.(contract := c.(scalars := c.scalars[path := value])))
      else Failure(InvalidFieldValue(path))
    case UpsertDeliverable(d, _) =>
      if strict && f in w.seen then Failure(DuplicateIdentity(f))
      else Success(Working(c.(deliverables := Put(c.deliverables, d)), introduced))
    case RemoveDeliverable(id) =>
      if strict && !Has(c.deliverables, id) then Failure(AbsentIdentity(f))
      else Success(w.(contract := c.(deliverables := Drop(c.deliverables, id))))
    case AddScopeIn(item, _) =>
      if strict && (f in w.seen || Has(c.scopeIn, item.id)) then Failure(DuplicateIdentity(f))
      else Success(Working(c.(scopeIn := Put(c.scopeIn, item)), introduced))
    case RemoveScopeIn(id) =>
      if strict && !Has(c.scopeIn, id) then Failure(AbsentIdentity(f))
      else Success(w.(contract := c.(scopeIn := Drop(c.scopeIn, id))))
    case AddScopeOut(item, _) =>
      if strict && (f in w.seen || Has(c.scopeOut, item.id)) then Failure(DuplicateIdentity(f))
      else Success(Working(c.(scopeOut := Put(c.scopeOut, item)), introduced))
    case RemoveScopeOut(id) =>
      if strict && !Has(c.scopeOut, id) then Failure(AbsentIdentity(f))
      else Success(w.(contract := c.(scopeOut := Drop(c.scopeOut, id))))
    case AddBoundary(b, _) =>
      if strict && (f in w.seen || Has(c.boundaries, b.id)) then Failure(DuplicateIdentity(f))
      else Success(Working(c.(boundaries := Put(c.boundaries, b)), introduced))
    case RemoveBoundary(id) =>
      if strict && !Has(c.boundaries, id) then Failure(AbsentIdentity(f))
      else Success(w.(contract := c.(boundaries := Drop(c.boundaries, id))))
    case AddStopCondition(s, _) =>
      if strict && (f in w.seen || Has(c.stopConditions, s.id)) then Failure(DuplicateIdentity(f))
      else Success(Working(c.(stopConditions := Put(c.stopConditions, s)), introduced))
    case RemoveStopCondition(id) =>
      if strict && !Has(c.stopConditions, id) then Failure(AbsentIdentity(f))
      else Success(w.(contract := c.(stopConditions := Drop(c.stopConditions, id))))
    case AddAssumption(a, _) =>
      if strict && (f in w.seen || Has(c.assumptions, a.id)) then Failure(DuplicateIdentity(f))
      else Success(Working(c.(assumptions := Put(c.assumptions, a)), introduced))
    case RemoveAssumption(id) =>
      if strict && !Has(c.assumptions, id) then Failure(AbsentIdentity(f))
      else Success(w.(contract := c.(assumptions := Drop(c.assumptions, id))))
    case AppendCorrectionRef(id) =>
      if id !in c.correctionRefs then Success(w.(contract := c.(correctionRefs := c.correctionRefs + [id])))
      else if strict then Failure(DuplicateIdentity(f))
      else Success(w)
    case AddPreauthorization(g) =>
      if strict && (f in w.seen || Has(c.Grants(), g.id)) then Failure(DuplicateIdentity(f))
      else Success(Working(c.(preauthorizations := Some(Put(c.Grants(), g))), introduced))
    case SupersedePreauthorization(id) =>
      if Has(c.Grants(), id) then
        Success(w.(contract := c.(preauthorizations := Some(MarkSuperseded(c.Grants(), id)))))
      else if strict then Failure(AbsentIdentity(f))
      else Success(w)
  }

  /** All operations in order; the first failure is the outcome. */
  function ApplyAll(w: Working, ops: seq<PatchOperation>, strict: bool): Result<Working, ApplyError>
    decreases |ops|
  {
    if ops == [] then Success(w)
    else
      match ApplyOne(w, ops[0], strict)
      case Failure(e) => Failure(e)
      case Success(next) => ApplyAll(next, ops[1..], strict)
  }

  function Applied(c: TaskContract, ops: seq<PatchOperation>, strict: bool): Result<TaskContract, ApplyError> {
    match ApplyAll(Working(c, {}), ops, strict)
    case Failure(e) => Failure(e)
    case Success(w) => Success(w.contract)
  }

  lemma {:induction false} ApplyAllSplit(w: Working, a: seq<PatchOperation>, b: seq<PatchOperation>, strict: bool)
    ensures ApplyAll(w, a + b, strict) ==
            match ApplyAll(w, a, strict)
            case Failure(e) => Failure(e)
            case Success(m) => ApplyAll(m, b, strict)
    decreases |a|
  {
    if a == [] {
      assert a + b == b;
    } else {
      FirstOfConcat(a, b);
      var s := ApplyOne(w, a[0], strict);
      if s.Success? {
        ApplyAllSplit(s.value, a[1..], b, strict);
      }
    }
  }

  lemma FirstOfConcat<T>(a: seq<T>, b: seq<T>)
    requires a != []
    ensures a + b != [] && (a + b)[0] == a[0] && (a + b)[1..] == a[1..] + b
  {
  }

  /** Works on a fresh copy, operation by operation; the first rejected operation ends the apply. */
  method ApplyPatchOperations(contract: TaskContract, operations: seq<PatchOperation>, strict: bool)
    returns (r: Result<TaskContract, ApplyError>)
    ensures r == Applied(contract, operations, strict)
  {
    var working := Working(contract, {});
    for i := 0 to |operations|
      invariant ApplyAll(Working(contract, {}), operations[..i], strict) == Success(working)
    {
      var step := ApplyOne(working, operations[i], strict);
      ghost var one := [operations[i]];
      assert operations[..i + 1] == operations[..i] + one;
      ApplyAllSplit(Working(contract, {}), operations[..i], one, strict);
      assert one[1..] == [];
      match step
      case Failure(e) =>
        assert operations == operations[..i + 1] + operations[i + 1..];
        ApplyAllSplit(Working(contract, {}), operations[..i + 1], operations[i + 1..], strict);
        return Failure(e);
      case Success(next) =>
        working := next;
    }
    assert operations[..|operations|] == operations;
    return Success(working.contract);
  }

  // ----- What an operation means at one field -----

  /** What a contract holds at a logical field. */
  datatype Entry =
    | ScalarEntry(value: Value)
    | DeliverableEntry(deliverable: DeliverableBody)
    | ScopeEntry(scope: ScopeBody)
    | BoundaryEntry(boundary: BoundaryBody)
    | StopEntry(stop: StopBody)
    | AssumptionEntry(assumption: AssumptionBody)
    | CorrectionEntry
    | GrantEntry(grant: GrantBody)

  /** The keyed view: list order, version and timestamps are not part of it. */
  function StateAt(c: TaskContract, f: FieldId): Option<Entry> {
    match f
    case ScalarField(path) => if path in c.scalars then Some(ScalarEntry(c.scalars[path])) else None
    case DeliverableField(id) =>
      (match Lookup(c.deliverables, id) case None => None case Some(b) => Some(DeliverableEntry(b)))
    case ScopeInField(id) => (match Lookup(c.scopeIn, id) case None => None case Some(b) => Some(ScopeEntry(b)))
    case ScopeOutField(id) => (match Lookup(c.scopeOut, id) case None => None case Some(b) => Some(ScopeEntry(b)))
    case BoundaryField(id) =>
      (match Lookup(c.boundaries, id) case None => None case Some(b) => Some(BoundaryEntry(b)))
    case StopField(id) => (match Lookup(c.stopConditions, id) case None => None case Some(b) => Some(StopEntry(b)))
    case AssumptionField(id) =>
      (match Lookup(c.assumptions, id) case None => None case Some(b) => Some(AssumptionEntry(b)))
    case CorrectionField(id) => if id in c.correctionRefs then Some(CorrectionEntry) else None
    case GrantField(id) => (match Lookup(c.Grants(), id) case None => None case Some(b) => Some(GrantEntry(b)))
  }

  /** The meaning of an operation: what its field holds afterwards, given what it held before. */
  function Effect(op: PatchOperation, before: Option<Entry>): Option<Entry> {
    match op
    case SetField(_, value, _) => Some(ScalarEntry(value))
    case UpsertDeliverable(d, _) => Some(DeliverableEntry(d.body))
    case AddScopeIn(item, _) => Some(ScopeEntry(item.body))
    case AddScopeOut(item, _) => Some(ScopeEntry(item.body))
    case AddBoundary(b, _) => Some(BoundaryEntry(b.body))
    case AddStopCondition(s, _) => Some(StopEntry(s.body))
    case AddAssumption(a, _) => Some(AssumptionEntry(a.body))
    case AppendCorrectionRef(_) => Some(CorrectionEntry)
    case AddPreauthorization(g) => Some(GrantEntry(g.body))
    case SupersedePreauthorization(_) =>
      if before.Some? && before.value.GrantEntry?
      then Some(GrantEntry(before.value.grant.(status := GrantSuperseded)))
      else before
    case RemoveDeliverable(_) => None
    case RemoveScopeIn(_) => None
    case RemoveScopeOut(_) => None
    case RemoveBoundary(_) => None
    case RemoveStopCondition(_) => None
    case RemoveAssumption(_) => None
  }

  lemma MarkLookup(s: seq<Preauthorization>, id: string, other: string)
    ensures Lookup(MarkSuperseded(s, id), other) ==
            if other == id && Has(s, id) then Some(Lookup(s, id).value.(status := GrantSuperseded))
            else Lookup(s, other)
    ensures UniqueIds(s) ==> UniqueIds(MarkSuperseded(s, id))
  {
    var r := MarkSuperseded(s, id);
    assert forall j :: 0 <= j < |s| ==> r[j].id == s[j].id;
    var i, j := IndexOf(s, other), IndexOf(r, other);
    assert i == j;
  }

  predicate IsRemoval(op: PatchOperation) {
    op.RemoveDeliverable? || op.RemoveScopeIn? || op.RemoveScopeOut? || op.RemoveBoundary?
    || op.RemoveStopCondition? || op.RemoveAssumption?
  }

  predicate IsScopeRemoval(op: PatchOperation) {
    op.RemoveDeliverable? || op.RemoveScopeIn? || op.RemoveScopeOut?
  }

  lemma ScopeRemovalTouchesOneField(w: Working, op: PatchOperation, strict: bool, f: FieldId)
    requires w.contract.UniqueIdentities()
    requires IsScopeRemoval(op) && ApplyOne(w, op, strict).Success? && f != FieldOf(op)
    ensures StateAt(ApplyOne(w, op, strict).value.contract, f) == StateAt(w.contract, f)
  {
    var c := w.contract;
    match op
    case RemoveDeliverable(id) => if f.DeliverableField? { DropLookup(c.deliverables, id, f.id); }
    case RemoveScopeIn(id) => if f.ScopeInField? { DropLookup(c.scopeIn, id, f.id); }
    case RemoveScopeOut(id) => if f.ScopeOutField? { DropLookup(c.scopeOut, id, f.id); }
  }

  lemma RemovalTouchesOneField(w: Working, op: PatchOperation, strict: bool, f: FieldId)
    requires w.contract.UniqueIdentities()
    requires IsRemoval(op) && ApplyOne(w, op, strict).Success? && f != FieldOf(op)
    ensures StateAt(ApplyOne(w, op, strict).value.contract, f) == StateAt(w.contract, f)
  {
    var c := w.contract;
    if IsScopeRemoval(op) {
      ScopeRemovalTouchesOneField(w, op, strict, f);
    } else {
      match op
      case RemoveBoundary(id) => if f.BoundaryField? { DropLookup(c.boundaries, id, f.id); }
      case RemoveStopCondition(id) => if f.StopField? { DropLookup(c.stopConditions, id, f.id); }
      case RemoveAssumption(id) => if f.AssumptionField? { DropLookup(c.assumptions, id, f.id); }
    }
  }

  predicate IsAddition(op: PatchOperation) {
    op.UpsertDeliverable? || op.AddScopeIn? || op.AddScopeOut? || op.AddBoundary? || op.AddStopCondition?
    || op.AddAssumption?
  }

  predicate IsScopeAddition(op: PatchOperation) {
    op.UpsertDeliverable? || op.AddScopeIn? || op.AddScopeOut?
  }

  lemma ScopeAdditionTouchesOneField(w: Working, op: PatchOperation, strict: bool, f: FieldId)
    requires IsScopeAddition(op) && ApplyOne(w, op, strict).Success? && f != FieldOf(op)
    ensures StateAt(ApplyOne(w, op, strict).value.contract, f) == StateAt(w.contract, f)
  {
    var c := w.contract;
    match op
    case UpsertDeliverable(d, _) => if f.DeliverableField? { PutLookup(c.deliverables, d, f.id); }
    case AddScopeIn(item, _) => if f.ScopeInField? { PutLookup(c.scopeIn, item, f.id); }
    case AddScopeOut(item, _) => if f.ScopeOutField? { PutLookup(c.scopeOut, item, f.id); }
  }

  lemma AdditionTouchesOneField(w: Working, op: PatchOperation, strict: bool, f: FieldId)
    requires IsAddition(op) && ApplyOne(w, op, strict).Success? && f != FieldOf(op)
    ensures StateAt(ApplyOne(w, op, strict).value.contract, f) == StateAt(w.contract, f)
  {
    if IsScopeAddition(op) {
      ScopeAdditionTouchesOneField(w, op, strict, f);
    } else if op.AddAssumption? {
      AssumptionTouchesOneField(w, op, strict, f);
    } else {
      LimitAdditionTouchesOneField(w, op, strict, f);
    }
  }

  lemma AssumptionTouchesOneField(w: Working, op: PatchOperation, strict: bool, f: FieldId)
    requires op.AddAssumption? && ApplyOne(w, op, strict).Success? && f != FieldOf(op)
    ensures StateAt(ApplyOne(w, op, strict).value.contract, f) == StateAt(w.contract, f)
  {
    if f.AssumptionField? { PutLookup(w.contract.assumptions, op.assumption, f.id); }
  }

  lemma LimitAdditionTouchesOneField(w: Working, op: PatchOperation, strict: bool, f: FieldId)
    requires op.AddBoundary? || op.AddStopCondition?
    requires ApplyOne(w, op, strict).Success? && f != FieldOf(op)
    ensures StateAt(ApplyOne(w, op, strict).value.contract, f) == StateAt(w.contract, f)
  {
    var c := w.contract;
    match op
    case AddBoundary(b, _) => if f.BoundaryField? { PutLookup(c.boundaries, b, f.id); }
    case AddStopCondition(s, _) => if f.StopField? { PutLookup(c.stopConditions, s, f.id); }
  }

  lemma RemainingTouchOneField(w: Working, op: PatchOperation, strict: bool, f: FieldId)
    requires !IsRemoval(op) && !IsAddition(op) && ApplyOne(w, op, strict).Success? && f != FieldOf(op)
    ensures StateAt(ApplyOne(w, op, strict).value.contract, f) == StateAt(w.contract, f)
  {
    if op.AddPreauthorization? || op.SupersedePreauthorization? {
      GrantOperationTouchesOneField(w, op, strict, f);
    }
  }

  lemma GrantOperationTouchesOneField(w: Working, op: PatchOperation, strict: bool, f: FieldId)
    requires op.AddPreauthorization? || op.SupersedePreauthorization?
    requires ApplyOne(w, op, strict).Success? && f != FieldOf(op)
    ensures StateAt(ApplyOne(w, op, strict).value.contract, f) == StateAt(w.contract, f)
  {
    var c := w.contract;
    match op
    case AddPreauthorization(g) => if f.GrantField? { PutLookup(c.Grants(), g, f.id); }
    case SupersedePreauthorization(id) => if f.GrantField? { MarkLookup(c.Grants(), id, f.id); }
  }

  ghost predicate TakesEffect(w: Working, op: PatchOperation, strict: bool)
    requires ApplyOne(w, op, strict).Success?
  {
    StateAt(ApplyOne(w, op, strict).value.contract, FieldOf(op)) == Effect(op, StateAt(w.contract, FieldOf(op)))
  }

  lemma RemovalTakesEffect(w: Working, op: PatchOperation, strict: bool)
    requires w.contract.UniqueIdentities()
    requires IsRemoval(op) && ApplyOne(w, op, strict).Success?
    ensures TakesEffect(w, op, strict)
  {
    var c := w.contract;
    match op
    case RemoveDeliverable(id) => DropLookup(c.deliverables, id, id);
    case RemoveScopeIn(id) => DropLookup(c.scopeIn, id, id);
    case RemoveScopeOut(id) => DropLookup(c.scopeOut, id, id);
    case RemoveBoundary(id) => DropLookup(c.boundaries, id, id);
    case RemoveStopCondition(id) => DropLookup(c.stopConditions, id, id);
    case RemoveAssumption(id) => DropLookup(c.assumptions, id, id);
  }

  lemma ScopeAdditionTakesEffect(w: Working, op: PatchOperation, strict: bool)
    requires IsScopeAddition(op) && ApplyOne(w, op, strict).Success?
    ensures TakesEffect(w, op, strict)
  {
    var c := w.contract;
    match op
    case UpsertDeliverable(d, _) => PutLookup(c.deliverables, d, d.id);
    case AddScopeIn(item, _) => PutLookup(c.scopeIn, item, item.id);
    case AddScopeOut(item, _) => PutLookup(c.scopeOut, item, item.id);
  }

  lemma AdditionTakesEffect(w: Working, op: PatchOperation, strict: bool)
    requires IsAddition(op) && ApplyOne(w, op, strict).Success?
    ensures TakesEffect(w, op, strict)
  {
    var c := w.contract;
    if IsScopeAddition(op) {
      ScopeAdditionTakesEffect(w, op, strict);
    } else {
      match op
      case AddBoundary(b, _) => PutLookup(c.boundaries, b, b.id);
      case AddStopCondition(s, _) => PutLookup(c.stopConditions, s, s.id);
      case AddAssumption(a, _) => PutLookup(c.assumptions, a, a.id);
    }
  }

  lemma GrantOperationTakesEffect(w: Working, op: PatchOperation, strict: bool)
    requires op.AddPreauthorization? || op.SupersedePreauthorization?
    requires ApplyOne(w, op, strict).Success?
    ensures TakesEffect(w, op, strict)
  {
    var c := w.contract;
    match op
    case AddPreauthorization(g) => PutLookup(c.Grants(), g, g.id);
    case SupersedePreauthorization(id) => MarkLookup(c.Grants(), id, id);
  }

  lemma RemainingTakeEffect(w: Working, op: PatchOperation, strict: bool)
    requires !IsRemoval(op) && !IsAddition(op) && ApplyOne(w, op, strict).Success?
    ensures TakesEffect(w, op, strict)
  {
    if op.AddPreauthorization? || op.SupersedePreauthorization? {
      GrantOperationTakesEffect(w, op, strict);
    }
  }

  /** Applying one operation gives its own field the operation's effect. */
  lemma OwnFieldTakesEffect(w: Working, op: PatchOperation, strict: bool)
    requires w.contract.UniqueIdentities()
    requires ApplyOne(w, op, strict).Success?
    ensures TakesEffect(w, op, strict)
  {
    if IsRemoval(op) {
      RemovalTakesEffect(w, op, strict);
    } else if IsAddition(op) {
      AdditionTakesEffect(w, op, strict);
    } else {
      RemainingTakeEffect(w, op, strict);
    }
  }

  /** Applying one operation changes its own field by its effect, and no other field. */
  lemma ApplyOneIsPointwise(w: Working, op: PatchOperation, strict: bool, f: FieldId)
    requires w.contract.UniqueIdentities()
    requires ApplyOne(w, op, strict).Success?
    ensures var next := ApplyOne(w, op, strict).value.contract;
            StateAt(next, f) == if f == FieldOf(op) then Effect(op, StateAt(w.contract, f)) else StateAt(w.contract, f)
  {
    if f == FieldOf(op) {
      OwnFieldTakesEffect(w, op, strict);
    } else if IsRemoval(op) {
      RemovalTouchesOneField(w, op, strict, f);
    } else if IsAddition(op) {
      AdditionTouchesOneField(w, op, strict, f);
    } else {
      RemainingTouchOneField(w, op, strict, f);
    }
  }

  /** What no operation can write: attribution, version and timestamps. */
  function Header(c: TaskContract): (string, string, int, Timestamp, Timestamp) {
    (c.contractId, c.taskId, c.version, c.createdAt, c.updatedAt)
  }

  lemma ApplyOneKeepsHeader(w: Working, op: PatchOperation, strict: bool)
    requires ApplyOne(w, op, strict).Success?
    ensures Header(ApplyOne(w, op, strict).value.contract) == Header(w.contract)
  {
  }

  lemma RemovalKeepsUnique(w: Working, op: PatchOperation, strict: bool)
    requires w.contract.UniqueIdentities()
    requires IsRemoval(op)
    requires ApplyOne(w, op, strict).Success?
    ensures ApplyOne(w, op, strict).value.contract.UniqueIdentities()
  {
    var c := w.contract;
    match op
    case RemoveDeliverable(id) => DropKeepsUnique(c.deliverables, id);
    case RemoveScopeIn(id) => DropKeepsUnique(c.scopeIn, id);
    case RemoveScopeOut(id) => DropKeepsUnique(c.scopeOut, id);
    case RemoveBoundary(id) => DropKeepsUnique(c.boundaries, id);
    case RemoveStopCondition(id) => DropKeepsUnique(c.stopConditions, id);
    case RemoveAssumption(id) => DropKeepsUnique(c.assumptions, id);
  }

  lemma AdditionKeepsUnique(w: Working, op: PatchOperation, strict: bool)
    requires w.contract.UniqueIdentities()
    requires IsAddition(op)
    requires ApplyOne(w, op, strict).Success?
    ensures ApplyOne(w, op, strict).value.contract.UniqueIdentities()
  {
    var c := w.contract;
    match op
    case UpsertDeliverable(d, _) => PutKeepsUnique(c.deliverables, d);
    case AddScopeIn(item, _) => PutKeepsUnique(c.scopeIn, item);
    case AddScopeOut(item, _) => PutKeepsUnique(c.scopeOut, item);
    case AddBoundary(b, _) => PutKeepsUnique(c.boundaries, b);
    case AddStopCondition(s, _) => PutKeepsUnique(c.stopConditions, s);
    case AddAssumption(a, _) => PutKeepsUnique(c.assumptions, a);
  }

  lemma RemainingKeepUnique(w: Working, op: PatchOperation, strict: bool)
    requires w.contract.UniqueIdentities()
    requires !IsRemoval(op) && !IsAddition(op)
    requires ApplyOne(w, op, strict).Success?
    ensures ApplyOne(w, op, strict).value.contract.UniqueIdentities()
  {
    var c := w.contract;
    match op
    case SetField(path, value, _) =>
    case AppendCorrectionRef(id) =>
    case AddPreauthorization(g) => PutKeepsUnique(c.Grants(), g);
    case SupersedePreauthorization(id) => MarkLookup(c.Grants(), id, id);
  }

  /** Every operation keeps the identities of every list unique. */
  lemma ApplyOneKeepsUnique(w: Working, op: PatchOperation, strict: bool)
    requires w.contract.UniqueIdentities()
    requires ApplyOne(w, op, strict).Success?
    ensures ApplyOne(w, op, strict).value.contract.UniqueIdentities()
  {
    if IsRemoval(op) {
      RemovalKeepsUnique(w, op, strict);
    } else if IsAddition(op) {
      AdditionKeepsUnique(w, op, strict);
    } else {
      RemainingKeepUnique(w, op, strict);
    }
  }

  lemma {:induction false} ApplyAllKeepsHeaderAndUnique(w: Working, ops: seq<PatchOperation>, strict: bool)
    requires ApplyAll(w, ops, strict).Success?
    ensures w.contract.UniqueIdentities() ==> ApplyAll(w, ops, strict).value.contract.UniqueIdentities()
    ensures Header(ApplyAll(w, ops, strict).value.contract) == Header(w.contract)
    decreases |ops|
  {
    if ops != [] {
      if w.contract.UniqueIdentities() { ApplyOneKeepsUnique(w, ops[0], strict); }
      ApplyOneKeepsHeader(w, ops[0], strict);
      ApplyAllKeepsHeaderAndUnique(ApplyOne(w, ops[0], strict).value, ops[1..], strict);
    }
  }

  // ----- What a sequence of operations means at one field -----

  /** The effects of the operations on `f`, in order; operations on other fields do not count. */
  function Meaning(ops: seq<PatchOperation>, f: FieldId, before: Option<Entry>): Option<Entry>
    decreases |ops|
  {
    if ops == [] then before
    else Meaning(ops[1..], f, if FieldOf(ops[0]) == f then Effect(ops[0], before) else before)
  }

  /** After any successful apply each field holds the combined effect of its own operations. */
  lemma {:induction false} ApplyAllIsPointwise(w: Working, ops: seq<PatchOperation>, strict: bool, f: FieldId)
    requires w.contract.UniqueIdentities()
    requires ApplyAll(w, ops, strict).Success?
    ensures StateAt(ApplyAll(w, ops, strict).value.contract, f) == Meaning(ops, f, StateAt(w.contract, f))
    decreases |ops|
  {
    if ops != [] {
      ApplyOneKeepsUnique(w, ops[0], strict);
      ApplyOneIsPointwise(w, ops[0], strict, f);
      ApplyAllIsPointwise(ApplyOne(w, ops[0], strict).value, ops[1..], strict, f);
    }
  }

  /** Lenient application fails only on an invalid scalar value. */
  lemma {:induction false} LenientFailure(w: Working, ops: seq<PatchOperation>)
    ensures ApplyAll(w, ops, false).Success? <==>
            forall op :: op in ops && op.SetField? ==> ValidFieldValue(op.path, op.value)
    decreases |ops|
  {
    if ops != [] {
      var first := ApplyOne(w, ops[0], false);
      assert forall op :: op in ops <==> op == ops[0] || op in ops[1..];
      if first.Success? {
        LenientFailure(first.value, ops[1..]);
      }
    }
  }

  /** Operations on different fields commute, up to list order. */
  lemma LenientOperationsCommute(w: Working, a: PatchOperation, b: PatchOperation, f: FieldId)
    requires w.contract.UniqueIdentities() && FieldOf(a) != FieldOf(b)
    ensures ApplyAll(w, [a, b], false).Success? <==> ApplyAll(w, [b, a], false).Success?
    ensures ApplyAll(w, [a, b], false).Success? ==>
              StateAt(ApplyAll(w, [a, b], false).value.contract, f) ==
              StateAt(ApplyAll(w, [b, a], false).value.contract, f)
  {
    LenientFailure(w, [a, b]);
    LenientFailure(w, [b, a]);
    if ApplyAll(w, [a, b], false).Success? {
      ApplyAllIsPointwise(w, [a, b], false, f);
      ApplyAllIsPointwise(w, [b, a], false, f);
      assert [a, b][1..] == [b] && [b, a][1..] == [a];
    }
  }

  /** A step strict mode accepts is the step lenient mode takes. */
  lemma StrictStepIsLenient(w: Working, op: PatchOperation)
    requires ApplyOne(w, op, true).Success?
    ensures ApplyOne(w, op, false) == ApplyOne(w, op, true)
  {
  }

  /** Strict refines lenient: whenever strict application succeeds, lenient gives the same contract. */
  lemma {:induction false} StrictRefinesLenient(w: Working, ops: seq<PatchOperation>)
    requires ApplyAll(w, ops, true).Success?
    ensures ApplyAll(w, ops, false) == ApplyAll(w, ops, true)
    decreases |ops|
  {
    if ops != [] {
      StrictStepIsLenient(w, ops[0]);
      StrictRefinesLenient(ApplyOne(w, ops[0], true).value, ops[1..]);
    }
  }
}
