/** When a strict apply refuses: exactly which operation stops it, and why, in terms of what the fields hold. */
module PatchRefusals {
  import opened Ordering
  import opened Contract
  import opened Patch
  import opened PatchApply

  /** An operation that brings in an identity; a second one for the same identity in one proposal is refused. */
  predicate Introduces(op: PatchOperation) {
    op.UpsertDeliverable? || op.AddScopeIn? || op.AddScopeOut? || op.AddBoundary? || op.AddStopCondition?
    || op.AddAssumption? || op.AddPreauthorization?
  }

  /** `e` is the error of an operation whose field is held or not, and introduced earlier in the proposal or not. */
  predicate RefusedFor(op: PatchOperation, held: bool, introduced: bool, e: ApplyError) {
    match op
    case SetField(path, value, _) => !ValidFieldValue(path, value) && e == InvalidFieldValue(path)
    case UpsertDeliverable(_, _) => introduced && e == DuplicateIdentity(FieldOf(op))
    case AddScopeIn(_, _) => (held || introduced) && e == DuplicateIdentity(FieldOf(op))
    case AddScopeOut(_, _) => (held || introduced) && e == DuplicateIdentity(FieldOf(op))
    case AddBoundary(_, _) => (held || introduced) && e == DuplicateIdentity(FieldOf(op))
    case AddStopCondition(_, _) => (held || introduced) && e == DuplicateIdentity(FieldOf(op))
    case AddAssumption(_, _) => (held || introduced) && e == DuplicateIdentity(FieldOf(op))
    case AddPreauthorization(_) => (held || introduced) && e == DuplicateIdentity(FieldOf(op))
    case AppendCorrectionRef(_) => held && e == DuplicateIdentity(FieldOf(op))
    case _ => !held && e == AbsentIdentity(FieldOf(op))
  }

  /** A strict step fails exactly so, whatever the contract. */
  lemma StrictStepFailsExactlyWhen(w: Working, op: PatchOperation, e: ApplyError)
    ensures ApplyOne(w, op, true) == Failure(e) <==>
            var held, introduced := StateAt(w.contract, FieldOf(op)).Some?, FieldOf(op) in w.seen;
            if op.SetField? then !ValidFieldValue(op.path, op.value) && e == InvalidFieldValue(op.path)
            else if op.UpsertDeliverable? then introduced && e == DuplicateIdentity(FieldOf(op))
            else if op.AppendCorrectionRef? then held && e == DuplicateIdentity(FieldOf(op))
            else if op.AddScopeIn? || op.AddScopeOut? || op.AddBoundary? || op.AddStopCondition? || op.AddAssumption?
                    || op.AddPreauthorization? then (held || introduced) && e == DuplicateIdentity(FieldOf(op))
            else !held && e == AbsentIdentity(FieldOf(op))
  {
  }

  /** What a strict step that succeeds has introduced. */
  lemma StrictStepIntroduces(w: Working, op: PatchOperation, f: FieldId)
    requires ApplyOne(w, op, true).Success?
    ensures f in ApplyOne(w, op, true).value.seen <==> f in w.seen || (Introduces(op) && f == FieldOf(op))
  {
  }

  ghost predicate IntroducedBefore(ops: seq<PatchOperation>, i: nat, f: FieldId)
    requires i <= |ops|
  {
    exists j :: 0 <= j < i && Introduces(ops[j]) && FieldOf(ops[j]) == f
  }

  /** The i-th operation of a proposal is refused, given what the ones before it mean at its field. */
  ghost predicate RefusedAt(c: TaskContract, ops: seq<PatchOperation>, i: nat, e: ApplyError)
    requires i < |ops|
  {
    var f := FieldOf(ops[i]);
    RefusedFor(ops[i], Meaning(ops[..i], f, StateAt(c, f)).Some?, IntroducedBefore(ops, i, f), e)
  }

  /** After the first operations have succeeded: what the fields hold, and what was introduced. */
  lemma {:induction false} AfterPrefix(c: TaskContract, ops: seq<PatchOperation>, i: nat, f: FieldId)
    requires i <= |ops| && ApplyAll(Working(c, {}), ops[..i], true).Success?
    ensures f in ApplyAll(Working(c, {}), ops[..i], true).value.seen <==> IntroducedBefore(ops, i, f)
  {
    if i > 0 {
      var front := ops[..i - 1];
      PrefixStep(c, ops, i - 1);
      AfterPrefix(c, ops, i - 1, f);
      StrictStepIntroduces(ApplyAll(Working(c, {}), front, true).value, ops[i - 1], f);
    }
  }

  lemma PrefixStep(c: TaskContract, ops: seq<PatchOperation>, i: nat)
    requires i < |ops|
    ensures ApplyAll(Working(c, {}), ops[..i + 1], true) ==
            match ApplyAll(Working(c, {}), ops[..i], true)
            case Failure(e) => Failure(e)
            case Success(w) => ApplyOne(w, ops[i], true)
  {
    var one := [ops[i]];
    assert ops[..i + 1] == ops[..i] + one;
    ApplyAllSplit(Working(c, {}), ops[..i], one, true);
    assert one[1..] == [];
  }

  lemma StepRefusedFor(w: Working, op: PatchOperation, held: bool, introduced: bool, e: ApplyError)
    requires held == StateAt(w.contract, FieldOf(op)).Some? && introduced == (FieldOf(op) in w.seen)
    ensures ApplyOne(w, op, true) == Failure(e) <==> RefusedFor(op, held, introduced, e)
  {
    StrictStepFailsExactlyWhen(w, op, e);
  }

  lemma StepAt(c: TaskContract, ops: seq<PatchOperation>, i: nat, e: ApplyError)
    requires c.UniqueIdentities() && i < |ops| && ApplyAll(Working(c, {}), ops[..i], true).Success?
    ensures ApplyAll(Working(c, {}), ops[..i + 1], true) == Failure(e) <==> RefusedAt(c, ops, i, e)
  {
    var w, f := ApplyAll(Working(c, {}), ops[..i], true).value, FieldOf(ops[i]);
    PrefixStep(c, ops, i);
    ApplyAllIsPointwise(Working(c, {}), ops[..i], true, f);
    AfterPrefix(c, ops, i, f);
    StepRefusedFor(w, ops[i], Meaning(ops[..i], f, StateAt(c, f)).Some?, IntroducedBefore(ops, i, f), e);
  }

  ghost predicate NoneRefusedBefore(c: TaskContract, ops: seq<PatchOperation>, i: nat)
    requires i <= |ops|
  {
    forall j, e :: 0 <= j < i ==> !RefusedAt(c, ops, j, e)
  }

  lemma {:induction false} PrefixSucceedsExactlyWhen(c: TaskContract, ops: seq<PatchOperation>, i: nat)
    requires c.UniqueIdentities() && i <= |ops|
    ensures ApplyAll(Working(c, {}), ops[..i], true).Success? <==> NoneRefusedBefore(c, ops, i)
  {
    if i > 0 {
      PrefixSucceedsExactlyWhen(c, ops, i - 1);
      PrefixStep(c, ops, i - 1);
      if NoneRefusedBefore(c, ops, i - 1) {
        LastDecides(c, ops, i - 1);
      } else {
        var j, e :| 0 <= j < i - 1 && RefusedAt(c, ops, j, e);
      }
    }
  }

  lemma LastDecides(c: TaskContract, ops: seq<PatchOperation>, i: nat)
    requires c.UniqueIdentities() && i < |ops| && ApplyAll(Working(c, {}), ops[..i], true).Success?
    requires NoneRefusedBefore(c, ops, i)
    ensures ApplyAll(Working(c, {}), ops[..i + 1], true).Success? <==> NoneRefusedBefore(c, ops, i + 1)
  {
    match ApplyAll(Working(c, {}), ops[..i + 1], true)
    case Failure(e) => StepAt(c, ops, i, e);
    case Success(_) =>
      forall j, e | 0 <= j < i + 1
        ensures !RefusedAt(c, ops, j, e)
      {
        if j == i { StepAt(c, ops, i, e); }
      }
  }

  /** The error of a strict apply is the one its first refused operation gives; without one it succeeds. */
  lemma StrictFailsExactlyAtFirstRefused(c: TaskContract, ops: seq<PatchOperation>, e: ApplyError)
    requires c.UniqueIdentities()
    ensures Applied(c, ops, true).Success? <==> NoneRefusedBefore(c, ops, |ops|)
    ensures Applied(c, ops, true) == Failure(e) <==>
            exists i :: 0 <= i < |ops| && NoneRefusedBefore(c, ops, i) && RefusedAt(c, ops, i, e)
  {
    assert ops[..|ops|] == ops;
    PrefixSucceedsExactlyWhen(c, ops, |ops|);
    if i :| 0 <= i < |ops| && NoneRefusedBefore(c, ops, i) && RefusedAt(c, ops, i, e) {
      PrefixSucceedsExactlyWhen(c, ops, i);
      StepAt(c, ops, i, e);
      FailureStays(c, ops, i + 1, e);
    }
    if Applied(c, ops, true) == Failure(e) {
      var i := FirstFailure(c, ops, |ops|, e);
      PrefixSucceedsExactlyWhen(c, ops, i);
      StepAt(c, ops, i, e);
    }
  }

  lemma FailureStays(c: TaskContract, ops: seq<PatchOperation>, i: nat, e: ApplyError)
    requires i <= |ops| && ApplyAll(Working(c, {}), ops[..i], true) == Failure(e)
    ensures Applied(c, ops, true) == Failure(e)
  {
    assert ops == ops[..i] + ops[i..];
    ApplyAllSplit(Working(c, {}), ops[..i], ops[i..], true);
  }

  lemma {:induction false} FirstFailure(c: TaskContract, ops: seq<PatchOperation>, n: nat, e: ApplyError)
    returns (i: nat)
    requires n <= |ops| && ApplyAll(Working(c, {}), ops[..n], true) == Failure(e)
    ensures i < n && ApplyAll(Working(c, {}), ops[..i], true).Success?
    ensures ApplyAll(Working(c, {}), ops[..i + 1], true) == Failure(e)
  {
    PrefixStep(c, ops, n - 1);
    if ApplyAll(Working(c, {}), ops[..n - 1], true).Success? {
      i := n - 1;
    } else {
      i := FirstFailure(c, ops, n - 1, e);
    }
  }
}
