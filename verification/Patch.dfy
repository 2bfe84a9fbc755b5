/** Logical fields, and what applying an operation does to a contract. */
module Patch {
  import opened Contract

  /** The unit of conflict: a scalar path, or one identity in one list. */
  datatype FieldId =
    | ScalarField(path: FieldPath)
    | DeliverableField(id: string)
    | ScopeInField(id: string)
    | ScopeOutField(id: string)
    | BoundaryField(id: string)
    | StopField(id: string)
    | AssumptionField(id: string)
    | CorrectionField(id: string)
    | GrantField(id: string)

  function FieldOf(op: PatchOperation): FieldId {
    match op
    case SetField(path, _, _) => ScalarField(path)
    case UpsertDeliverable(d, _) => DeliverableField(d.id)
    case RemoveDeliverable(id) => DeliverableField(id)
    case AddScopeIn(item, _) => ScopeInField(item.id)
    case RemoveScopeIn(id) => ScopeInField(id)
    case AddScopeOut(item, _) => ScopeOutField(item.id)
    case RemoveScopeOut(id) => ScopeOutField(id)
    case AddBoundary(b, _) => BoundaryField(b.id)
    case RemoveBoundary(id) => BoundaryField(id)
    case AddStopCondition(s, _) => StopField(s.id)
    case RemoveStopCondition(id) => StopField(id)
    case AddAssumption(a, _) => AssumptionField(a.id)
    case RemoveAssumption(id) => AssumptionField(id)
    case AppendCorrectionRef(id) => CorrectionField(id)
    case AddPreauthorization(g) => GrantField(g.id)
    case SupersedePreauthorization(id) => GrantField(id)
  }

  function PathName(path: FieldPath): string {
    match path
    case Title => "title"
    case ObjectivePrimary => "objective.primary"
    case ObjectiveRationale => "objective.rationale"
    case ObjectivePriority => "objective.priority"
    case ObjectiveSuccessSignal => "objective.successSignal"
    case MaxToolCalls => "budgets.maxToolCallsPerTask"
    case MaxProviderCalls => "budgets.maxProviderCallsPerTask"
    case MaxJudgmentCost => "budgets.maxJudgmentCostPerTask"
    case CanChooseMethods => "authority.executorCanChooseMethods"
    case CanProposeScope => "authority.executorCanProposeScope"
    case CanSelfReview => "authority.executorCanSelfReview"
    case OverridesNeedConfirmation => "authority.overridesRequireUserConfirmation"
    case RequireSourceForClaims => "evidencePolicy.requireSourceForClaims"
    case MinEvidenceLevel => "evidencePolicy.minEvidenceLevel"
    case AllowUserTestimony => "evidencePolicy.allowUserTestimony"
  }

  /** The key string the merge groups by. */
  function KeyText(f: FieldId): string {
    match f
    case ScalarField(path) => "set:" + PathName(path)
    case DeliverableField(id) => "deliverable:" + id
    case ScopeInField(id) => "scope_in:" + id
    case ScopeOutField(id) => "scope_out:" + id
    case BoundaryField(id) => "boundary:" + id
    case StopField(id) => "stop:" + id
    case AssumptionField(id) => "assumption:" + id
    case CorrectionField(id) => "correction:" + id
    case GrantField(id) => "preauth:" + id
  }

  function LabelText(f: FieldId): string {
    match f
    case ScalarField(path) => "field " + PathName(path)
    case DeliverableField(id) => "deliverable " + id
    case ScopeInField(id) => "scope-in statement \"" + id + "\""
    case ScopeOutField(id) => "scope-out statement \"" + id + "\""
    case BoundaryField(id) => "boundary " + id
    case StopField(id) => "stop condition \"" + id + "\""
    case AssumptionField(id) => "assumption \"" + id + "\""
    case CorrectionField(id) => "correction " + id
    case GrantField(id) => "preauthorization " + id
  }

  function KeyOf(op: PatchOperation): string {
    KeyText(FieldOf(op))
  }

  lemma PathNameShape(p: FieldPath)
    ensures var n := PathName(p);
      match p
      case Title => |n| == 5
      case ObjectivePrimary => |n| == 17
      case ObjectiveRationale => |n| == 19
      case ObjectivePriority => |n| == 18
      case ObjectiveSuccessSignal => |n| == 23
      case MaxToolCalls => |n| == 27
      case MaxProviderCalls => |n| == 31 && n[0] == 'b'
      case MaxJudgmentCost => |n| == 30
      case CanChooseMethods => |n| == 34
      case CanProposeScope => |n| == 33 && n[0] == 'a'
      case CanSelfReview => |n| == 31 && n[0] == 'a'
      case OverridesNeedConfirmation => |n| == 42
      case RequireSourceForClaims => |n| == 37
      case MinEvidenceLevel => |n| == 31 && n[0] == 'e'
      case AllowUserTestimony => |n| == 33 && n[0] == 'e'
  {
  }

  lemma PathNameInjective(p: FieldPath, q: FieldPath)
    requires PathName(p) == PathName(q)
    ensures p == q
  {
    PathNameShape(p);
    PathNameShape(q);
  }

  /** The part of a key up to and including the colon. */
  function Prefix(f: FieldId): string {
    match f
    case ScalarField(_) => "set:"
    case DeliverableField(_) => "deliverable:"
    case ScopeInField(_) => "scope_in:"
    case ScopeOutField(_) => "scope_out:"
    case BoundaryField(_) => "boundary:"
    case StopField(_) => "stop:"
    case AssumptionField(_) => "assumption:"
    case CorrectionField(_) => "correction:"
    case GrantField(_) => "preauth:"
  }

  function Suffix(f: FieldId): string {
    match f
    case ScalarField(path) => PathName(path)
    case DeliverableField(id) => id
    case ScopeInField(id) => id
    case ScopeOutField(id) => id
    case BoundaryField(id) => id
    case StopField(id) => id
    case AssumptionField(id) => id
    case CorrectionField(id) => id
    case GrantField(id) => id
  }

  /** No prefix starts another: the first, second and seventh characters tell them apart. */
  lemma PrefixesDiffer(f: FieldId, g: FieldId)
    requires Prefix(f) != Prefix(g)
    ensures exists i :: 0 <= i < |Prefix(f)| && i < |Prefix(g)| && Prefix(f)[i] != Prefix(g)[i]
  {
    var a, b := Prefix(f), Prefix(g);
    assert |a| >= 4 && |b| >= 4;
    if a[0] == b[0] {
      if a[1] == b[1] {
        assert |a| > 6 && |b| > 6 && a[6] != b[6];
      } else {
        assert a[1] != b[1];
      }
    } else {
      assert a[0] != b[0];
    }
  }

  /** One key string means one logical field. */
  lemma KeyTextInjective(f: FieldId, g: FieldId)
    requires KeyText(f) == KeyText(g)
    ensures f == g
  {
    var k := KeyText(f);
    assert k == Prefix(f) + Suffix(f) && k == Prefix(g) + Suffix(g);
    assert forall i :: 0 <= i < |Prefix(f)| ==> k[i] == Prefix(f)[i];
    assert forall i :: 0 <= i < |Prefix(g)| ==> k[i] == Prefix(g)[i];
    if Prefix(f) != Prefix(g) {
      PrefixesDiffer(f, g);
      assert false;
    }
    assert Suffix(f) == k[|Prefix(f)|..] && Suffix(g) == k[|Prefix(g)|..];
    if f.ScalarField? && g.ScalarField? {
      PathNameInjective(f.path, g.path);
    }
  }
}
