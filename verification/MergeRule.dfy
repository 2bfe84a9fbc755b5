/** The rule of the merge in tiers and instants: who wins a field, what is recorded, and when it is a conflict. */
module MergeRule {
  import opened Ordering
  import opened Contract
  import opened Patch
  import opened PatchApply
  import opened MergeSpec
  import MergeTheorems

  /** Every proposal merged satisfies the schema and targets the base contract at its version, or none is merged. */
  lemma MergedExactlyWhenAllTargetBase(base: TaskContract, patches: seq<PatchProposal>)
    ensures FirstRejection(base, patches) == None <==>
            forall p :: p in patches ==>
              && |p.proposalId| == 26 && p.operations != [] && 1 <= p.expectedVersion <= 9007199254740991
              && (p.tier < 6 || (p.tier == 6 && p.owner == InferredOwner))
              && p.contractId == base.contractId && p.taskId == base.taskId && p.expectedVersion == base.version
  {
    MergeTheorems.AdmissionIgnoresOrder(base, patches);
  }

  /**
   * A touched field holds the last operation of one proposal, which every other proposal on the field falls behind, by
   * a lesser tier or by an earlier instant in its tier; and each of those is recorded as superseded by it.
   */
  lemma BestTierThenLatestWins(
    base: TaskContract, pool: set<PatchProposal>, digest: ConflictIdentity -> string, merged: MergeOutcome, f: FieldId)
    returns (w: PatchProposal)
    requires base.UniqueIdentities() && merged.Merged? && IsMergeOf(base, pool, digest, Success(merged))
    requires exists p :: p in pool && Touches(p, KeyText(f))
    ensures w in pool && Touches(w, KeyText(f))
    ensures StateAt(merged.contract, f) == Effect(LastOp(w.operations, KeyText(f)), StateAt(base, f))
    ensures forall q :: q in pool && q != w && Touches(q, KeyText(f)) ==>
              && (w.tier < q.tier || (w.tier == q.tier && w.createdAt.epoch > q.createdAt.epoch))
              && SupersededRelation(w.proposalId, q.proposalId, w.tier, w.createdAt, q.createdAt) in merged.superseded
  {
    var key := KeyText(f);
    MergeTheorems.MergeIsPointwise(base, pool, digest, merged, f);
    w :| Wins(pool, w, key) &&
      StateAt(merged.contract, f) == Effect(LastOp(w.operations, key), StateAt(base, f));
    forall q | q in pool && q != w && Touches(q, key)
      ensures w.tier < q.tier || (w.tier == q.tier && w.createdAt.epoch > q.createdAt.epoch)
      ensures SupersededRelation(w.proposalId, q.proposalId, w.tier, w.createdAt, q.createdAt) in merged.superseded
    {
      FallsBehind(base, pool, digest, merged, key, w, q);
    }
  }

  lemma FallsBehind(
    base: TaskContract, pool: set<PatchProposal>, digest: ConflictIdentity -> string, merged: MergeOutcome, key: string,
    w: PatchProposal, q: PatchProposal)
    requires merged.Merged? && IsMergeOf(base, pool, digest, Success(merged))
    requires Wins(pool, w, key) && q in pool && q != w && Touches(q, key)
    ensures w.tier < q.tier || (w.tier == q.tier && w.createdAt.epoch > q.createdAt.epoch)
    ensures SupersededRelation(w.proposalId, q.proposalId, w.tier, w.createdAt, q.createdAt) in merged.superseded
  {
    WinnerOutranks(pool, w, q, key);
    MergeTheorems.ContributionsAreConserved(base, pool, digest, Success(merged), q, key);
  }

  /** Whoever does not lead is behind someone who does; with one leader, behind the winner. */
  lemma WinnerOutranks(pool: set<PatchProposal>, w: PatchProposal, q: PatchProposal, key: string)
    requires Wins(pool, w, key) && q in pool && q != w && Touches(q, key)
    ensures Outranks(w, q)
  {
    if !Outranks(w, q) {
      EqualLeads(pool, w, q, key);
    }
  }

  lemma EqualLeads(pool: set<PatchProposal>, w: PatchProposal, q: PatchProposal, key: string)
    requires Leads(pool, w, key) && q in pool && Touches(q, key) && !Outranks(w, q)
    ensures Leads(pool, q, key)
  {
  }

  /** A proposal that no other on the field falls before. */
  ghost predicate AtTop(pool: set<PatchProposal>, p: PatchProposal, key: string) {
    && p in pool && Touches(p, key)
    && forall o :: o in pool && Touches(o, key) ==>
      p.tier < o.tier || (p.tier == o.tier && o.createdAt.epoch <= p.createdAt.epoch)
  }

  lemma TopLeads(pool: set<PatchProposal>, key: string)
    ensures forall p :: AtTop(pool, p, key) <==> Leads(pool, p, key)
  {
  }

  /**
   * The outcome is a conflict exactly when two proposals touch one field at the same tier and instant, and no proposal
   * on that field has a better tier, or that tier and a later instant.
   */
  lemma ConflictedExactlyWhenTiedAtTop(
    base: TaskContract, pool: set<PatchProposal>, digest: ConflictIdentity -> string,
    r: Result<MergeOutcome, MergeError>)
    requires IsMergeOf(base, pool, digest, r)
    ensures r.Success? && r.value.Conflicted? <==>
            exists p, q, key ::
              && p in pool && q in pool && p != q && Touches(p, key) && Touches(q, key)
              && p.tier == q.tier && p.createdAt.epoch == q.createdAt.epoch
              && forall o :: o in pool && Touches(o, key) ==>
                p.tier < o.tier || (p.tier == o.tier && o.createdAt.epoch <= p.createdAt.epoch)
  {
    if key :| Tied(pool, key) {
      TopLeads(pool, key);
      var p, q :| Leads(pool, p, key) && Leads(pool, q, key) && p != q;
      assert AtTop(pool, p, key) && AtTop(pool, q, key);
    }
    if p, q, key :|
      && p in pool && q in pool && p != q && Touches(p, key) && Touches(q, key)
      && p.tier == q.tier && p.createdAt.epoch == q.createdAt.epoch
      && forall o :: o in pool && Touches(o, key) ==>
        p.tier < o.tier || (p.tier == o.tier && o.createdAt.epoch <= p.createdAt.epoch)
    {
      TopLeads(pool, key);
      assert AtTop(pool, p, key) && AtTop(pool, q, key);
      assert Tied(pool, key);
    }
  }

  /** Only a proposal that falls behind on some field is recorded, and only against the one that wins there. */
  lemma SupersededFellBehind(
    base: TaskContract, pool: set<PatchProposal>, digest: ConflictIdentity -> string, merged: MergeOutcome,
    relation: SupersededRelation)
    requires merged.Merged? && IsMergeOf(base, pool, digest, Success(merged)) && relation in merged.superseded
    ensures exists w, q, key ::
              && AtTop(pool, w, key) && q in pool && Touches(q, key)
              && (w.tier < q.tier || (w.tier == q.tier && w.createdAt.epoch > q.createdAt.epoch))
              && relation ==
                 SupersededRelation(w.proposalId, q.proposalId, w.tier, w.createdAt, q.createdAt)
  {
    var replay := MergeTheorems.ReplayOf(base, pool, digest, Success(merged));
    var w, q, key :| Supersedes(pool, w, q, key) && relation == RelationOf(w, q);
    WinnerOutranks(pool, w, q, key);
    TopLeads(pool, key);
    assert AtTop(pool, w, key);
  }

  /**
   * The conflict's sides are the proposals tied on `key`, each once and in id order, and nobody else. It is known by
   * the field and the ids: the last one, the others joined by commas, the lesser of the two first.
   */
  ghost predicate ShowsTie(
    pool: set<PatchProposal>, key: string, digest: ConflictIdentity -> string, tied: seq<PatchProposal>,
    c: ContractConflict)
  {
    && |tied| == |c.sides| >= 2
    && (|tied| == 2 ==> c.conflictId == digest(ConflictIdentity(tied[0].proposalId, tied[1].proposalId, key)))
    && (|tied| > 2 ==>
          var others, last := JoinIds(tied[..|tied| - 1]), tied[|tied| - 1].proposalId;
          if TextLess(others, last) then c.conflictId == digest(ConflictIdentity(others, last, key))
          else c.conflictId == digest(ConflictIdentity(last, others, key)))
    && (forall p :: p in tied <==> AtTop(pool, p, key))
    && (forall i, j :: 0 <= i < j < |tied| ==> TextLess(tied[i].proposalId, tied[j].proposalId))
    && (forall i :: 0 <= i < |tied| ==>
          c.sides[i] == ConflictSide(tied[i].proposalId, tied[i].tier, tied[i].sourceRefs, tied[i].createdAt))
  }

  lemma ConflictOnShowsTie(
    pool: set<PatchProposal>, key: string, digest: ConflictIdentity -> string, c: ContractConflict)
    returns (tied: seq<PatchProposal>)
    requires IsConflictOn(pool, key, digest, c)
    ensures ShowsTie(pool, key, digest, tied, c)
  {
    tied :| ListsLeaders(pool, key, tied) && |tied| >= 2 && Touches(tied[0], key)
            && c == ConflictOf(tied, key, digest);
    TopLeads(pool, key);
    var others, last := JoinIds(tied[..|tied| - 1]), tied[|tied| - 1].proposalId;
    assert TextLess(ProposalIdOf(tied[0]), ProposalIdOf(tied[1]));
    if TextLess(others, last) && TextLess(last, others) {
      TextLessTransitive(others, last, others);
      TextLessIrreflexive(others);
    }
    TextLessTotal(others, last);
    forall i, j | 0 <= i < j < |tied|
      ensures TextLess(tied[i].proposalId, tied[j].proposalId)
    {
      assert TextLess(ProposalIdOf(tied[i]), ProposalIdOf(tied[j]));
    }
  }

  /** A conflicted outcome has a report on every tied field, with every side of the tie. */
  lemma ConflictShowsEverySide(
    base: TaskContract, pool: set<PatchProposal>, digest: ConflictIdentity -> string, outcome: MergeOutcome,
    key: string, p: PatchProposal, q: PatchProposal)
    returns (c: ContractConflict, tied: seq<PatchProposal>)
    requires outcome.Conflicted? && IsMergeOf(base, pool, digest, Success(outcome))
    requires AtTop(pool, p, key) && AtTop(pool, q, key) && p != q
    ensures c in outcome.conflicts && ShowsTie(pool, key, digest, tied, c)
  {
    TopLeads(pool, key);
    assert Tied(pool, key);
    var keys :| ListsConflicts(pool, digest, keys, outcome.conflicts);
    var i :| 0 <= i < |keys| && keys[i] == key;
    c := outcome.conflicts[i];
    tied := ConflictOnShowsTie(pool, key, digest, c);
  }

  /** And it has no report on any other field. */
  lemma EveryConflictIsATie(
    base: TaskContract, pool: set<PatchProposal>, digest: ConflictIdentity -> string, outcome: MergeOutcome,
    c: ContractConflict)
    returns (key: string, tied: seq<PatchProposal>)
    requires outcome.Conflicted? && IsMergeOf(base, pool, digest, Success(outcome)) && c in outcome.conflicts
    ensures ShowsTie(pool, key, digest, tied, c)
  {
    var keys :| ListsConflicts(pool, digest, keys, outcome.conflicts);
    var i :| 0 <= i < |keys| && outcome.conflicts[i] == c;
    key := keys[i];
    tied := ConflictOnShowsTie(pool, key, digest, c);
  }
}
