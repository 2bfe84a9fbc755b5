/** What the merge promises: one outcome in any order, a meaning field by field, nothing lost. */
module MergeTheorems {
  import opened Ordering
  import opened Contract
  import opened Patch
  import opened PatchApply
  import opened MergeSpec
  import Merge

  // ----- One outcome -----

  lemma ConflictIsDetermined(
    pool: set<PatchProposal>, key: string, digest: ConflictIdentity -> string, c: ContractConflict, d: ContractConflict)
    requires IsConflictOn(pool, key, digest, c) && IsConflictOn(pool, key, digest, d)
    ensures c == d
  {
    var s: seq<PatchProposal> :|
      ListsLeaders(pool, key, s) && |s| >= 2 && Touches(s[0], key) && c == ConflictOf(s, key, digest);
    var t: seq<PatchProposal> :|
      ListsLeaders(pool, key, t) && |t| >= 2 && Touches(t[0], key) && d == ConflictOf(t, key, digest);
    AscendingListingIsUnique(s, t, ProposalIdOf);
  }

  lemma ReportedConflictsAreDetermined(
    pool: set<PatchProposal>, digest: ConflictIdentity -> string, cs: seq<ContractConflict>, ds: seq<ContractConflict>,
    c: ContractConflict)
    requires IsConflictReport(pool, digest, cs) && IsConflictReport(pool, digest, ds)
    requires c in cs
    ensures c in ds
  {
    var ks :| ListsConflicts(pool, digest, ks, cs);
    var ls :| ListsConflicts(pool, digest, ls, ds);
    var i :| 0 <= i < |cs| && cs[i] == c;
    assert ks[i] in ks;
    assert ks[i] in ls;
    var j :| 0 <= j < |ls| && ls[j] == ks[i];
    ConflictIsDetermined(pool, ks[i], digest, cs[i], ds[j]);
  }

  lemma ConflictReportIsUnique(
    pool: set<PatchProposal>, digest: ConflictIdentity -> string, cs: seq<ContractConflict>, ds: seq<ContractConflict>)
    requires IsConflictReport(pool, digest, cs) && IsConflictReport(pool, digest, ds)
    ensures cs == ds
  {
    forall c
      ensures c in cs <==> c in ds
    {
      if c in cs { ReportedConflictsAreDetermined(pool, digest, cs, ds, c); }
      if c in ds { ReportedConflictsAreDetermined(pool, digest, ds, cs, c); }
    }
    AscendingListingIsUnique(cs, ds, ConflictIdOf);
  }

  lemma ReplayIsUnique(pool: set<PatchProposal>, a: seq<PatchOperation>, b: seq<PatchOperation>)
    requires IsReplay(pool, a) && IsReplay(pool, b)
    ensures a == b
  {
    AscendingListingIsUnique(a, b, OpKey);
  }

  lemma SupersededReportIsUnique(pool: set<PatchProposal>, a: seq<SupersededRelation>, b: seq<SupersededRelation>)
    requires IsSupersededReport(pool, a) && IsSupersededReport(pool, b)
    ensures a == b
  {
    forall r
      ensures r in a <==> r in b
    {
      if r in a {
        var w, m, key :| Supersedes(pool, w, m, key) && r == RelationOf(w, m);
      }
      if r in b {
        var w, m, key :| Supersedes(pool, w, m, key) && r == RelationOf(w, m);
      }
    }
    AscendingListingIsUnique(a, b, RelationKey);
  }

  /** A pool has one outcome: kind, contract with its list order, and both reports. */
  lemma OutcomeIsUnique(
    base: TaskContract, pool: set<PatchProposal>, digest: ConflictIdentity -> string,
    r: Result<MergeOutcome, MergeError>, s: Result<MergeOutcome, MergeError>)
    requires IsMergeOf(base, pool, digest, r) && IsMergeOf(base, pool, digest, s)
    ensures r == s
  {
    if exists key :: Tied(pool, key) {
      ConflictReportIsUnique(pool, digest, r.value.conflicts, s.value.conflicts);
    } else {
      var a := ReplayOf(base, pool, digest, r);
      var b := ReplayOf(base, pool, digest, s);
      ReplayIsUnique(pool, a, b);
      if r.Success? {
        SupersededReportIsUnique(pool, r.value.superseded, s.value.superseded);
      }
    }
  }

  /** The replay behind an outcome without ties. */
  lemma ReplayOf(
    base: TaskContract, pool: set<PatchProposal>, digest: ConflictIdentity -> string, r: Result<MergeOutcome,
    MergeError>)
    returns (replay: seq<PatchOperation>)
    requires IsMergeOf(base, pool, digest, r) && !exists key :: Tied(pool, key)
    ensures IsReplay(pool, replay)
    ensures match Applied(base, replay, false)
            case Failure(e) => r == Failure(ReplayFailed(e))
            case Success(c) =>
              r.Success? && r.value.Merged? && r.value.contract == c && IsSupersededReport(pool, r.value.superseded)
  {
    replay :| IsReplay(pool, replay) &&
      match Applied(base, replay, false)
      case Failure(e) => r == Failure(ReplayFailed(e))
      case Success(c) =>
        r.Success? && r.value.Merged? && r.value.contract == c && IsSupersededReport(pool, r.value.superseded);
  }

  lemma {:induction false} AdmissionIgnoresOrder(base: TaskContract, ps: seq<PatchProposal>)
    ensures FirstRejection(base, ps) == None <==> forall p :: p in ps ==> Rejection(base, p) == None
  {
    if ps != [] {
      AdmissionIgnoresOrder(base, ps[1..]);
      assert forall p :: p in ps <==> p == ps[0] || p in ps[1..];
    }
  }

  lemma PermutedAlikeAdmitted(base: TaskContract, ps: seq<PatchProposal>, qs: seq<PatchProposal>)
    requires multiset(ps) == multiset(qs)
    ensures FirstRejection(base, ps) == None <==> FirstRejection(base, qs) == None
  {
    assert forall p :: p in ps <==> p in multiset(ps);
    assert forall p :: p in qs <==> p in multiset(qs);
    AdmissionIgnoresOrder(base, ps);
    AdmissionIgnoresOrder(base, qs);
  }

  lemma DistinctIgnoresOrder(ps: seq<PatchProposal>, qs: seq<PatchProposal>)
    requires multiset(ps) == multiset(qs) && DistinctProposals(ps)
    ensures DistinctProposals(qs)
  {
    forall i, j | 0 <= i < j < |qs|
      ensures qs[i].proposalId != qs[j].proposalId
    {
      if qs[i].proposalId == qs[j].proposalId {
        assert qs[i] in multiset(ps) && qs[j] in multiset(ps);
        KeyOccursOnce(ps, ProposalIdOf, qs[i], qs[j]);
        RepeatedElement(qs, i, j);
        SingleOccurrence(ps, ProposalIdOf, qs[i]);
        assert false;
      }
    }
  }

  /**
   * Merging is independent of arrival order: a permutation is admitted exactly when the original is,
   * and two outcomes of the merge are then the same value, list order included.
   */
  lemma MergeIsOrderIndependent(
    base: TaskContract, ps: seq<PatchProposal>, qs: seq<PatchProposal>, digest: ConflictIdentity -> string)
    requires multiset(ps) == multiset(qs)
    ensures FirstRejection(base, ps) == None <==> FirstRejection(base, qs) == None
    ensures DistinctProposals(ps) <==> DistinctProposals(qs)
    ensures forall r, s :: IsMergeOf(base, Merge.Pool(ps), digest, r) && IsMergeOf(base, Merge.Pool(qs), digest, s) ==>
        r == s
  {
    assert forall p :: p in ps <==> p in multiset(ps);
    assert forall p :: p in qs <==> p in multiset(qs);
    PermutedAlikeAdmitted(base, ps, qs);
    if DistinctProposals(ps) { DistinctIgnoresOrder(ps, qs); }
    if DistinctProposals(qs) { DistinctIgnoresOrder(qs, ps); }
    assert Merge.Pool(ps) == Merge.Pool(qs);
    forall r, s | IsMergeOf(base, Merge.Pool(ps), digest, r) && IsMergeOf(base, Merge.Pool(qs), digest, s)
      ensures r == s
    {
      OutcomeIsUnique(base, Merge.Pool(ps), digest, r, s);
    }
  }

  /** Whatever the order of arrival, the same refusal is reported. */
  ghost predicate RefusalIgnoresOrder(base: TaskContract, ps: seq<PatchProposal>) {
    forall qs :: multiset(qs) == multiset(ps) ==> FirstRejection(base, qs) == FirstRejection(base, ps)
  }

  ghost predicate RejectionsAgree(base: TaskContract, ps: seq<PatchProposal>) {
    forall p, q :: p in ps && q in ps && Rejection(base, p).Some? && Rejection(base, q).Some? ==>
      Rejection(base, p) == Rejection(base, q)
  }

  lemma {:induction false} RefusalIsSomeones(base: TaskContract, ps: seq<PatchProposal>) returns (p: PatchProposal)
    requires FirstRejection(base, ps).Some?
    ensures p in ps && Rejection(base, p) == FirstRejection(base, ps)
  {
    p := ps[0];
    if Rejection(base, p).None? {
      p := RefusalIsSomeones(base, ps[1..]);
    }
  }

  /** Any proposal can arrive first. */
  lemma FirstToArrive(base: TaskContract, ps: seq<PatchProposal>, p: PatchProposal) returns (qs: seq<PatchProposal>)
    requires p in ps && Rejection(base, p).Some?
    ensures multiset(qs) == multiset(ps) && FirstRejection(base, qs) == Rejection(base, p)
  {
    var i :| 0 <= i < |ps| && ps[i] == p;
    qs := [p] + (ps[..i] + ps[i + 1..]);
    assert ps == ps[..i] + [p] + ps[i + 1..];
  }

  /**
   * Among refused proposals the reported refusal is independent of the order exactly when they are all refused
   * alike.
   */
  lemma RefusalIgnoresOrderExactlyWhenAllAgree(base: TaskContract, ps: seq<PatchProposal>)
    ensures RefusalIgnoresOrder(base, ps) <==> RejectionsAgree(base, ps)
  {
    if RefusalIgnoresOrder(base, ps) {
      forall p, q | p in ps && q in ps && Rejection(base, p).Some? && Rejection(base, q).Some?
        ensures Rejection(base, p) == Rejection(base, q)
      {
        var pFirst := FirstToArrive(base, ps, p);
        var qFirst := FirstToArrive(base, ps, q);
      }
    }
    if RejectionsAgree(base, ps) {
      forall qs | multiset(qs) == multiset(ps)
        ensures FirstRejection(base, qs) == FirstRejection(base, ps)
      {
        PermutedAlikeAdmitted(base, ps, qs);
        if FirstRejection(base, ps).Some? {
          var p := RefusalIsSomeones(base, ps);
          var q := RefusalIsSomeones(base, qs);
          assert q in multiset(qs);
        }
      }
    }
  }

  // ----- A meaning field by field -----

  /** Among any proposals touching a field one is outranked by none of them. */
  lemma {:induction false} SomeoneLeads(among: set<PatchProposal>) returns (best: PatchProposal)
    requires among != {}
    ensures best in among && forall q :: q in among ==> !Outranks(q, best)
    decreases |among|
  {
    best :| best in among;
    var rest := among - {best};
    assert forall q :: q in among ==> q == best || q in rest;
    if rest != {} {
      var other := SomeoneLeads(rest);
      if Outranks(other, best) {
        forall q | q in among
          ensures !Outranks(q, other)
        {
        }
        best := other;
      } else {
        forall q | q in among
          ensures !Outranks(q, best)
        {
        }
      }
    }
  }

  lemma TouchedFieldHasLeader(pool: set<PatchProposal>, p: PatchProposal, key: string) returns (best: PatchProposal)
    requires p in pool && Touches(p, key)
    ensures Leads(pool, best, key)
  {
    var among := set q | q in pool && Touches(q, key);
    assert p in among;
    best := SomeoneLeads(among);
  }

  lemma UntiedFieldHasWinner(pool: set<PatchProposal>, p: PatchProposal, key: string) returns (w: PatchProposal)
    requires p in pool && Touches(p, key) && !Tied(pool, key)
    ensures Wins(pool, w, key)
  {
    w := TouchedFieldHasLeader(pool, p, key);
  }

  lemma {:induction false} NoEffectElsewhere(ops: seq<PatchOperation>, f: FieldId, before: Option<Entry>)
    requires forall op :: op in ops ==> FieldOf(op) != f
    ensures Meaning(ops, f, before) == before
    decreases |ops|
  {
    if ops != [] {
      assert forall op :: op in ops[1..] ==> op in ops;
      NoEffectElsewhere(ops[1..], f, before);
    }
  }

  /** When keys ascend a field sees at most one operation. */
  lemma {:induction false} MeaningOfAscending(ops: seq<PatchOperation>, op: PatchOperation, before: Option<Entry>)
    requires Ascending(ops, OpKey) && op in ops
    ensures Meaning(ops, FieldOf(op), before) == Effect(op, before)
    decreases |ops|
  {
    TailElements(ops, OpKey);
    if op == ops[0] {
      forall other | other in ops[1..]
        ensures FieldOf(other) != FieldOf(op)
      {
        var i :| 0 <= i < |ops| - 1 && ops[1..][i] == other;
        assert ops[i + 1] == other;
        TextLessIrreflexive(OpKey(op));
      }
      NoEffectElsewhere(ops[1..], FieldOf(op), Effect(op, before));
    } else {
      var i :| 0 <= i < |ops| && ops[i] == op;
      TextLessIrreflexive(OpKey(op));
      assert FieldOf(ops[0]) != FieldOf(op);
      MeaningOfAscending(ops[1..], op, before);
    }
  }

  /**
   * The merged contract, field by field: a field some proposal touches holds the effect of its winner's
   * last operation on what the base held; every other field, and the header, is the base's.
   */
  lemma MergeIsPointwise(
    base: TaskContract, pool: set<PatchProposal>, digest: ConflictIdentity -> string, merged: MergeOutcome, f: FieldId)
    requires base.UniqueIdentities() && merged.Merged?
    requires IsMergeOf(base, pool, digest, Success(merged))
    ensures Header(merged.contract) == Header(base) && merged.contract.UniqueIdentities()
    ensures (exists p :: p in pool && Touches(p, KeyText(f))) ==>
              exists w :: Wins(pool, w, KeyText(f)) &&
                StateAt(merged.contract, f) == Effect(LastOp(w.operations, KeyText(f)), StateAt(base, f))
    ensures (forall p :: p in pool ==> !Touches(p, KeyText(f))) ==> StateAt(merged.contract, f) == StateAt(base, f)
  {
    var key := KeyText(f);
    var replay := ReplayOf(base, pool, digest, Success(merged));
    var start := Working(base, {});
    ApplyAllKeepsHeaderAndUnique(start, replay, false);
    ApplyAllIsPointwise(start, replay, false, f);
    if p :| p in pool && Touches(p, key) {
      var w := UntiedFieldHasWinner(pool, p, key);
      var op := LastOp(w.operations, key);
      KeyTextInjective(FieldOf(op), f);
      MeaningOfAscending(replay, op, StateAt(base, f));
    } else {
      forall op | op in replay
        ensures FieldOf(op) != f
      {
        var w :| Wins(pool, w, OpKey(op)) && op == LastOp(w.operations, OpKey(op));
      }
      NoEffectElsewhere(replay, f, StateAt(base, f));
    }
  }

  // ----- Nothing lost -----

  /**
   * The outcome is conflicted exactly when the best (tier, instant) class of some field holds two proposals;
   * otherwise each contribution either is its field's winner's or is recorded as superseded by the winner.
   */
  lemma ContributionsAreConserved(
    base: TaskContract, pool: set<PatchProposal>, digest: ConflictIdentity -> string,
    r: Result<MergeOutcome, MergeError>, p: PatchProposal, key: string)
    requires IsMergeOf(base, pool, digest, r)
    requires p in pool && Touches(p, key)
    ensures (r.Success? && r.value.Conflicted?) <==> exists k :: Tied(pool, k)
    ensures r.Success? && r.value.Merged? ==>
              exists w :: Wins(pool, w, key) && (p == w || RelationOf(w, p) in r.value.superseded)
  {
    if !exists k :: Tied(pool, k) {
      var replay := ReplayOf(base, pool, digest, r);
      if r.Success? {
        var w := UntiedFieldHasWinner(pool, p, key);
        if p != w {
          assert Supersedes(pool, w, p, key);
        }
      }
    }
  }

  /** On every field it touches, some other proposal of the pool outranks `p`. */
  ghost predicate Dominated(pool: set<PatchProposal>, p: PatchProposal) {
    forall key :: Touches(p, key) ==> exists q :: q in pool && Touches(q, key) && Outranks(q, p)
  }

  lemma SameLeaders(pool: set<PatchProposal>, p: PatchProposal)
    requires p in pool && Dominated(pool, p)
    ensures forall q, key :: Leads(pool, q, key) <==> Leads(pool - {p}, q, key)
  {
  }

  lemma SameConflictReport(
    pool: set<PatchProposal>, less: set<PatchProposal>, digest: ConflictIdentity -> string, cs: seq<ContractConflict>)
    requires forall q, key :: Leads(pool, q, key) <==> Leads(less, q, key)
    requires IsConflictReport(pool, digest, cs)
    ensures IsConflictReport(less, digest, cs)
  {
    var ks :| ListsConflicts(pool, digest, ks, cs);
    forall k
      ensures Tied(pool, k) <==> Tied(less, k)
    {
    }
    forall i | 0 <= i < |ks|
      ensures IsConflictOn(less, ks[i], digest, cs[i])
    {
      SameConflictOn(pool, less, ks[i], digest, cs[i]);
    }
    assert ListsConflicts(less, digest, ks, cs);
  }

  lemma SameConflictOn(
    pool: set<PatchProposal>, less: set<PatchProposal>, key: string, digest: ConflictIdentity -> string,
    c: ContractConflict)
    requires forall q :: Leads(pool, q, key) <==> Leads(less, q, key)
    requires IsConflictOn(pool, key, digest, c)
    ensures IsConflictOn(less, key, digest, c)
  {
    var tied: seq<PatchProposal> :|
      ListsLeaders(pool, key, tied) && |tied| >= 2 && Touches(tied[0], key) && c == ConflictOf(tied, key, digest);
    assert ListsLeaders(less, key, tied);
  }

  lemma SameReplay(pool: set<PatchProposal>, less: set<PatchProposal>, replay: seq<PatchOperation>)
    requires forall q, key :: Leads(pool, q, key) <==> Leads(less, q, key)
    requires IsReplay(pool, replay)
    ensures IsReplay(less, replay)
  {
  }

  /** Dropping a proposal that is dominated wherever it speaks leaves the contract, or the conflicts, as they were. */
  lemma DroppingDominatedChangesNothing(
    base: TaskContract, pool: set<PatchProposal>, p: PatchProposal, digest: ConflictIdentity -> string,
    r: Result<MergeOutcome, MergeError>, s: Result<MergeOutcome, MergeError>)
    requires p in pool && Dominated(pool, p)
    requires IsMergeOf(base, pool, digest, r) && IsMergeOf(base, pool - {p}, digest, s)
    ensures r.Failure? || s.Failure? ==> r == s
    ensures r.Success? && s.Success? ==>
              match r.value
              case Merged(c, _) => s.value.Merged? && s.value.contract == c
              case Conflicted(cs) => s.value == Conflicted(cs)
  {
    var less := pool - {p};
    SameLeaders(pool, p);
    assert (exists key :: Tied(pool, key)) <==> (exists key :: Tied(less, key)) by {
      if key :| Tied(pool, key) { assert Tied(less, key); }
      if key :| Tied(less, key) { assert Tied(pool, key); }
    }
    if exists key :: Tied(pool, key) {
      SameConflictReport(pool, less, digest, r.value.conflicts);
      ConflictReportIsUnique(less, digest, r.value.conflicts, s.value.conflicts);
    } else {
      var a := ReplayOf(base, pool, digest, r);
      var b := ReplayOf(base, less, digest, s);
      SameReplay(pool, less, a);
      ReplayIsUnique(less, a, b);
    }
  }
}
