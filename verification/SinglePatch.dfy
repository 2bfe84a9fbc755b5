/** Merging one proposal alone against applying it strictly: equal field by field, with one exception. */
module SinglePatch {
  import opened Ordering
  import opened KeyedList
  import opened Contract
  import opened Patch
  import opened PatchApply
  import opened MergeSpec
  import opened MergeTheorems

  /** The proposal introduces a grant and later supersedes that same grant. */
  predicate AddsThenSupersedes(ops: seq<PatchOperation>) {
    exists i, j :: 0 <= i < j < |ops| && ops[i].AddPreauthorization? && ops[j].SupersedePreauthorization?
                   && ops[i].grant.id == ops[j].preauthorizationId
  }

  /** The last operation on a key, by position. */
  lemma {:induction false} LastOpPosition(ops: seq<PatchOperation>, key: string) returns (m: nat)
    requires TouchesKey(ops, key)
    ensures m < |ops| && ops[m] == LastOp(ops, key)
    ensures forall n :: m < n < |ops| ==> KeyOf(ops[n]) != key
    decreases |ops|
  {
    var front := ops[..|ops| - 1];
    if KeyOf(ops[|ops| - 1]) == key {
      m := |ops| - 1;
    } else {
      assert forall i :: 0 <= i < |front| ==> front[i] == ops[i];
      m := LastOpPosition(front, key);
    }
  }

  lemma {:induction false} MeaningSplit(a: seq<PatchOperation>, b: seq<PatchOperation>, f: FieldId,
      before: Option<Entry>)
    ensures Meaning(a + b, f, before) == Meaning(b, f, Meaning(a, f, before))
    decreases |a|
  {
    if a == [] {
      assert a + b == b;
    } else {
      assert (a + b)[0] == a[0] && (a + b)[1..] == a[1..] + b;
      MeaningSplit(a[1..], b, f, if FieldOf(a[0]) == f then Effect(a[0], before) else before);
    }
  }

  /** An entry under a grant's identity, once there, stays there. */
  lemma {:induction false} GrantsPersist(ops: seq<PatchOperation>, id: string, before: Option<Entry>)
    requires before.Some? && before.value.GrantEntry?
    ensures var after := Meaning(ops, GrantField(id), before);
            after.Some? && after.value.GrantEntry?
    decreases |ops|
  {
    if ops != [] {
      GrantsPersist(ops[1..], id, if FieldOf(ops[0]) == GrantField(id) then Effect(ops[0], before) else before);
    }
  }

  lemma {:induction false} OnlySupersedes(ops: seq<PatchOperation>, id: string, before: Option<Entry>)
    requires forall op :: op in ops && FieldOf(op) == GrantField(id) ==> op.SupersedePreauthorization?
    ensures Effect(SupersedePreauthorization(id), Meaning(ops, GrantField(id), before)) ==
            Effect(SupersedePreauthorization(id), before)
    decreases |ops|
  {
    if ops != [] {
      assert forall op :: op in ops[1..] ==> op in ops;
      assert ops[0] in ops;
      var next := if FieldOf(ops[0]) == GrantField(id) then Effect(ops[0], before) else before;
      OnlySupersedes(ops[1..], id, next);
    }
  }

  /** An operation and whatever follows it, when nothing after it touches its field. */
  lemma MeaningEndsAt(ops: seq<PatchOperation>, m: nat, f: FieldId, before: Option<Entry>)
    requires m < |ops| && FieldOf(ops[m]) == f
    requires forall n :: m < n < |ops| ==> FieldOf(ops[n]) != f
    ensures Meaning(ops, f, before) == Effect(ops[m], Meaning(ops[..m], f, before))
  {
    var prefix, suffix := ops[..m], ops[m + 1..];
    assert ops == prefix + ([ops[m]] + suffix);
    MeaningSplit(prefix, [ops[m]] + suffix, f, before);
    MeaningSplit([ops[m]], suffix, f, Meaning(prefix, f, before));
    assert [ops[m]][1..] == [];
    NoEffectElsewhere(suffix, f, Effect(ops[m], Meaning(prefix, f, before)));
  }

  /** The last operation on a field, by position. */
  lemma LastOnField(ops: seq<PatchOperation>, f: FieldId) returns (m: nat)
    requires TouchesKey(ops, KeyText(f))
    ensures m < |ops| && ops[m] == LastOp(ops, KeyText(f)) && FieldOf(ops[m]) == f
    ensures forall n :: m < n < |ops| ==> FieldOf(ops[n]) != f
  {
    m := LastOpPosition(ops, KeyText(f));
    KeyTextInjective(FieldOf(ops[m]), f);
    forall n | m < n < |ops|
      ensures FieldOf(ops[n]) != f
    {
      assert KeyOf(ops[n]) != KeyText(f);
    }
  }

  /** Without an add-then-supersede the last operation on a field decides it alone. */
  lemma LastOpDecides(ops: seq<PatchOperation>, f: FieldId, before: Option<Entry>)
    requires TouchesKey(ops, KeyText(f)) && !AddsThenSupersedes(ops)
    ensures Meaning(ops, f, before) == Effect(LastOp(ops, KeyText(f)), before)
  {
    var m := LastOnField(ops, f);
    MeaningEndsAt(ops, m, f, before);
    if ops[m].SupersedePreauthorization? {
      SupersedeDecides(ops, m, before);
    } else {
      EffectIgnoresBefore(ops[m], before, Meaning(ops[..m], f, before));
    }
  }

  lemma SupersedeDecides(ops: seq<PatchOperation>, m: nat, before: Option<Entry>)
    requires m < |ops| && ops[m].SupersedePreauthorization? && !AddsThenSupersedes(ops)
    ensures Effect(ops[m], Meaning(ops[..m], FieldOf(ops[m]), before)) == Effect(ops[m], before)
  {
    var id := ops[m].preauthorizationId;
    assert ops[m] == SupersedePreauthorization(id) && FieldOf(ops[m]) == GrantField(id);
    OnlySupersedesBefore(ops, m);
    OnlySupersedes(ops[..m], id, before);
  }

  lemma EffectIgnoresBefore(op: PatchOperation, a: Option<Entry>, b: Option<Entry>)
    requires !op.SupersedePreauthorization?
    ensures Effect(op, a) == Effect(op, b)
  {
  }

  lemma OnlySupersedesBefore(ops: seq<PatchOperation>, m: nat)
    requires m < |ops| && ops[m].SupersedePreauthorization? && !AddsThenSupersedes(ops)
    ensures forall op :: op in ops[..m] && FieldOf(op) == FieldOf(ops[m]) ==> op.SupersedePreauthorization?
  {
  }

  /** In a strict apply, a grant being added is one nothing held before. */
  lemma StrictAddMeetsNothing(base: TaskContract, ops: seq<PatchOperation>, i: nat)
    requires base.UniqueIdentities() && Applied(base, ops, true).Success?
    requires i < |ops| && ops[i].AddPreauthorization?
    ensures Meaning(ops[..i], FieldOf(ops[i]), StateAt(base, FieldOf(ops[i]))) == None
  {
    var f, start := FieldOf(ops[i]), Working(base, {});
    assert ops == ops[..i] + ops[i..];
    ApplyAllSplit(start, ops[..i], ops[i..], true);
    var w := ApplyAll(start, ops[..i], true).value;
    ApplyAllIsPointwise(start, ops[..i], true, f);
    assert ApplyOne(w, ops[i], true).Success?;
    assert Lookup(w.contract.Grants(), f.id) == None;
  }

  /**
   * After an add-then-supersede the strict apply holds the grant while the merge, given the supersede alone, does
   * not.
   */
  lemma AddThenSupersedeDiffers(base: TaskContract, ops: seq<PatchOperation>) returns (f: FieldId)
    requires base.UniqueIdentities() && Applied(base, ops, true).Success? && AddsThenSupersedes(ops)
    ensures TouchesKey(ops, KeyText(f))
    ensures Meaning(ops, f, StateAt(base, f)) != Effect(LastOp(ops, KeyText(f)), StateAt(base, f))
  {
    var i, j :| 0 <= i < j < |ops| && ops[i].AddPreauthorization? && ops[j].SupersedePreauthorization?
                && ops[i].grant.id == ops[j].preauthorizationId;
    f := FieldOf(ops[i]);
    assert KeyOf(ops[j]) == KeyText(f);
    var m := LastOnField(ops, f);
    SupersedeAfterAdd(base, ops, i, m);
  }

  lemma SupersedeAfterAdd(base: TaskContract, ops: seq<PatchOperation>, i: nat, m: nat)
    requires base.UniqueIdentities() && Applied(base, ops, true).Success?
    requires i < m < |ops| && ops[i].AddPreauthorization? && FieldOf(ops[m]) == FieldOf(ops[i])
    ensures var f := FieldOf(ops[i]);
            Meaning(ops, f, StateAt(base, f)).Some? && Effect(ops[m], StateAt(base, f)) == None
  {
    NothingBefore(base, ops, i);
    PresentAtEnd(ops, i, None);
    LastIsSupersede(base, ops, i, m);
    SupersedesNothing(ops[m]);
  }

  lemma PresentAtEnd(ops: seq<PatchOperation>, i: nat, before: Option<Entry>)
    requires i < |ops| && ops[i].AddPreauthorization?
    ensures Meaning(ops, FieldOf(ops[i]), before).Some?
  {
    PresentAfterAdd(ops, i, |ops|, before);
    assert ops[..|ops|] == ops;
  }

  lemma SupersedesNothing(op: PatchOperation)
    requires op.SupersedePreauthorization?
    ensures Effect(op, None) == None
  {
  }

  lemma NothingBefore(base: TaskContract, ops: seq<PatchOperation>, i: nat)
    requires base.UniqueIdentities() && Applied(base, ops, true).Success?
    requires i < |ops| && ops[i].AddPreauthorization?
    ensures StateAt(base, FieldOf(ops[i])) == None
  {
    var before := StateAt(base, FieldOf(ops[i]));
    StrictAddMeetsNothing(base, ops, i);
    if before.Some? {
      GrantsPersist(ops[..i], ops[i].grant.id, before);
    }
  }

  lemma LastIsSupersede(base: TaskContract, ops: seq<PatchOperation>, i: nat, m: nat)
    requires base.UniqueIdentities() && Applied(base, ops, true).Success?
    requires i < m < |ops| && ops[i].AddPreauthorization? && FieldOf(ops[m]) == FieldOf(ops[i])
    ensures ops[m].SupersedePreauthorization?
  {
    if ops[m].AddPreauthorization? {
      StrictAddMeetsNothing(base, ops, m);
      PresentAfterAdd(ops, i, m, StateAt(base, FieldOf(ops[i])));
    }
  }

  lemma PresentAfterAdd(ops: seq<PatchOperation>, i: nat, n: nat, before: Option<Entry>)
    requires i < n <= |ops| && ops[i].AddPreauthorization?
    ensures Meaning(ops[..n], FieldOf(ops[i]), before).Some?
  {
    var f := FieldOf(ops[i]);
    var prefix, suffix := ops[..i], ops[i + 1..n];
    assert ops[..n] == prefix + ([ops[i]] + suffix);
    MeaningSplit(prefix, [ops[i]] + suffix, f, before);
    MeaningSplit([ops[i]], suffix, f, Meaning(prefix, f, before));
    assert [ops[i]][1..] == [];
    GrantsPersist(suffix, f.id, Effect(ops[i], Meaning(prefix, f, before)));
  }

  /** Alone in the pool a proposal wins every field it touches. */
  lemma AloneWins(p: PatchProposal, key: string)
    ensures Wins({p}, p, key) <==> Touches(p, key)
    ensures !Tied({p}, key)
    ensures forall q :: q != p ==> !Leads({p}, q, key)
  {
  }

  /** A proposal that applies strictly merges alone without conflict or failure. */
  lemma AloneMerges(
    base: TaskContract, p: PatchProposal, digest: ConflictIdentity -> string, r: Result<MergeOutcome, MergeError>)
    requires Applied(base, p.operations, true).Success?
    requires IsMergeOf(base, {p}, digest, r)
    ensures r.Success? && r.value.Merged?
  {
    forall key
      ensures !Tied({p}, key)
    {
      AloneWins(p, key);
    }
    var replay := ReplayOf(base, {p}, digest, r);
    var start := Working(base, {});
    StrictRefinesLenient(start, p.operations);
    LenientFailure(start, p.operations);
    LenientFailure(start, replay);
    forall op | op in replay
      ensures op in p.operations
    {
      var q :| Wins({p}, q, OpKey(op)) && op == LastOp(q.operations, OpKey(op));
    }
  }

  /** What the merge of one proposal holds at a field. */
  lemma AloneIsPointwise(
    base: TaskContract, p: PatchProposal, digest: ConflictIdentity -> string, merged: MergeOutcome, f: FieldId)
    requires base.UniqueIdentities() && merged.Merged?
    requires IsMergeOf(base, {p}, digest, Success(merged))
    ensures StateAt(merged.contract, f) ==
            if Touches(p, KeyText(f)) then Effect(LastOp(p.operations, KeyText(f)), StateAt(base, f))
                else StateAt(base, f)
  {
    MergeIsPointwise(base, {p}, digest, merged, f);
    AloneWins(p, KeyText(f));
  }

  /**
   * When a proposal applies strictly, merging it alone gives the same keyed view
   * if and only if it does not supersede a grant it added itself.
   */
  lemma SingleMergeIsStrictApply(
    base: TaskContract, p: PatchProposal, digest: ConflictIdentity -> string, merged: MergeOutcome)
    requires base.UniqueIdentities() && merged.Merged?
    requires Applied(base, p.operations, true).Success?
    requires IsMergeOf(base, {p}, digest, Success(merged))
    ensures (forall f :: StateAt(merged.contract, f) == StateAt(Applied(base, p.operations, true).value, f)) <==>
            !AddsThenSupersedes(p.operations)
  {
    var ops := p.operations;
    var strict := Applied(base, ops, true).value;
    if AddsThenSupersedes(ops) {
      var f := AddThenSupersedeDiffers(base, ops);
      AloneIsPointwise(base, p, digest, merged, f);
      ApplyAllIsPointwise(Working(base, {}), ops, true, f);
    } else {
      forall f
        ensures StateAt(merged.contract, f) == StateAt(strict, f)
      {
        AloneIsPointwise(base, p, digest, merged, f);
        ApplyAllIsPointwise(Working(base, {}), ops, true, f);
        if Touches(p, KeyText(f)) {
          LastOpDecides(ops, f, StateAt(base, f));
        } else {
          forall op | op in ops
            ensures FieldOf(op) != f
          {
            var i :| 0 <= i < |ops| && ops[i] == op;
          }
          NoEffectElsewhere(ops, f, StateAt(base, f));
        }
      }
    }
  }

  /** The exception is real: one grant added and then superseded applies strictly on a contract without grants. */
  lemma AddThenSupersedeApplies(base: TaskContract, g: Preauthorization)
    requires base.preauthorizations == None
    ensures var ops := [AddPreauthorization(g), SupersedePreauthorization(g.id)];
            && AddsThenSupersedes(ops)
            && Applied(base, ops, true) == Success(base.(preauthorizations := Some([Superseded(g)])))
  {
    var ops := [AddPreauthorization(g), SupersedePreauthorization(g.id)];
    assert ops[0].AddPreauthorization? && ops[1].SupersedePreauthorization?;
    assert ops[1..] == [SupersedePreauthorization(g.id)] && ops[1..][1..] == [];
    assert base.Grants() == [] && Put<GrantBody>([], g) == [g];
    var w := ApplyOne(Working(base, {}), ops[0], true).value;
    assert w.contract == base.(preauthorizations := Some([g]));
    assert IndexOf([g], g.id) == 0;
    assert [g][0 := Superseded(g)] == [Superseded(g)];
    var v := ApplyOne(w, ops[1], true).value;
    assert v.contract == base.(preauthorizations := Some([Superseded(g)]));
    ApplyAllSplit(Working(base, {}), ops[..1], ops[1..], true);
    assert ops == ops[..1] + ops[1..] && ops[..1][1..] == [] && ops[..1][0] == ops[0];
    assert ApplyAll(w, ops[1..], true) == Success(v);
  }
}
