/** What merging concurrent proposals means, stated over the set of proposals and never over their order. */
module MergeSpec {
  import opened Ordering
  import opened Contract
  import opened Patch
  import opened PatchApply

  datatype MergeError =
    | SchemaViolation
    | ContractMismatch
    | VersionMismatch
    | ReplayFailed(error: ApplyError)

  datatype SupersededRelation = SupersededRelation(
    winnerProposalId: string,
    supersededProposalId: string,
    winnerTier: nat,
    winnerCreatedAt: Timestamp,
    supersededCreatedAt: Timestamp)

  datatype ConflictSide = ConflictSide(proposalId: string, tier: nat, sourceRefs: seq<string>, createdAt: Timestamp)

  datatype ContractConflict = ContractConflict(conflictId: string, description: string, sides: seq<ConflictSide>)

  datatype MergeOutcome =
    | Merged(contract: TaskContract, superseded: seq<SupersededRelation>)
    | Conflicted(conflicts: seq<ContractConflict>)

  /** What is hashed into a conflict id: two sorted texts and the field key. */
  datatype ConflictIdentity = ConflictIdentity(first: string, second: string, field: string)

  ghost predicate Injective(digest: ConflictIdentity -> string) {
    forall a, b :: digest(a) == digest(b) ==> a == b
  }

  // ----- Admission -----

  /** Why a proposal is refused before any resolution, if it is. */
  function Rejection(base: TaskContract, p: PatchProposal): Option<MergeError> {
    if !SatisfiesSchema(p) then Some(SchemaViolation)
    else if p.contractId != base.contractId || p.taskId != base.taskId then Some(ContractMismatch)
    else if base.version != p.expectedVersion then Some(VersionMismatch)
    else None
  }

  function FirstRejection(base: TaskContract, patches: seq<PatchProposal>): Option<MergeError> {
    if patches == [] then None
    else if Rejection(base, patches[0]).Some? then Rejection(base, patches[0])
    else FirstRejection(base, patches[1..])
  }

  ghost predicate DistinctProposals(patches: seq<PatchProposal>) {
    forall i, j :: 0 <= i < j < |patches| ==> patches[i].proposalId != patches[j].proposalId
  }

  /** A pool of admitted proposals; no two share an id. */
  ghost predicate WellFormedPool(pool: set<PatchProposal>) {
    && (forall p :: p in pool ==> SatisfiesSchema(p))
    && (forall p, q :: p in pool && q in pool && p.proposalId == q.proposalId ==> p == q)
  }

  // ----- Who decides a field -----

  predicate TouchesKey(ops: seq<PatchOperation>, key: string) {
    exists i :: 0 <= i < |ops| && KeyOf(ops[i]) == key
  }

  predicate Touches(p: PatchProposal, key: string) {
    TouchesKey(p.operations, key)
  }

  /** The contribution of a proposal to a field: its last operation there. */
  function LastOp(ops: seq<PatchOperation>, key: string): (r: PatchOperation)
    requires TouchesKey(ops, key)
    ensures KeyOf(r) == key && r in ops
    decreases |ops|
  {
    var last := ops[|ops| - 1];
    if KeyOf(last) == key then last
    else
      assert forall i :: 0 <= i < |ops| - 1 ==> ops[..|ops| - 1][i] == ops[i];
      LastOp(ops[..|ops| - 1], key)
  }

  lemma {:induction false} LastOpAt(ops: seq<PatchOperation>, key: string, i: nat)
    requires i < |ops| && KeyOf(ops[i]) == key
    requires forall j :: i < j < |ops| ==> KeyOf(ops[j]) != key
    ensures TouchesKey(ops, key) && LastOp(ops, key) == ops[i]
    decreases |ops|
  {
    if i < |ops| - 1 {
      var front := ops[..|ops| - 1];
      assert front[i] == ops[i] && forall j :: i < j < |front| ==> front[j] == ops[j];
      LastOpAt(front, key, i);
    }
  }

  /** The last operation on a key: after it no other is on that key. */
  lemma LastOpIsLast(ops: seq<PatchOperation>, key: string) returns (i: nat)
    requires TouchesKey(ops, key)
    ensures i < |ops| && ops[i] == LastOp(ops, key) && KeyOf(ops[i]) == key
    ensures forall j :: i < j < |ops| ==> KeyOf(ops[j]) != key
  {
    i := |ops| - 1;
    while KeyOf(ops[i]) != key
      invariant i < |ops| && forall j :: i < j < |ops| ==> KeyOf(ops[j]) != key
      decreases i
    {
      i := i - 1;
    }
    LastOpAt(ops, key, i);
  }

  lemma TouchesExtended(before: seq<PatchOperation>, op: PatchOperation, k: string)
    ensures TouchesKey(before + [op], k) <==> TouchesKey(before, k) || k == KeyOf(op)
    ensures TouchesKey(before + [op], k) ==>
              LastOp(before + [op], k) == if k == KeyOf(op) then op else LastOp(before, k)
  {
    var after := before + [op];
    assert after[..|after| - 1] == before;
    if k == KeyOf(op) {
      assert KeyOf(after[|before|]) == k;
    } else if TouchesKey(before, k) {
      var i :| 0 <= i < |before| && KeyOf(before[i]) == k;
      assert KeyOf(after[i]) == k;
    }
  }

  /** A better source tier wins; within a tier the later instant does. */
  predicate Outranks(p: PatchProposal, q: PatchProposal) {
    p.tier < q.tier || (p.tier == q.tier && p.createdAt.epoch > q.createdAt.epoch)
  }

  /** `p` contributes to the field and nothing in the pool outranks it there. */
  ghost predicate Leads(pool: set<PatchProposal>, p: PatchProposal, key: string) {
    p in pool && Touches(p, key) && forall q :: q in pool && Touches(q, key) ==> !Outranks(q, p)
  }

  ghost predicate Wins(pool: set<PatchProposal>, p: PatchProposal, key: string) {
    Leads(pool, p, key) && forall q :: Leads(pool, q, key) ==> q == p
  }

  ghost predicate Tied(pool: set<PatchProposal>, key: string) {
    exists p, q :: Leads(pool, p, key) && Leads(pool, q, key) && p != q
  }

  // ----- The three reports -----

  function RelationOf(w: PatchProposal, m: PatchProposal): SupersededRelation {
    SupersededRelation(w.proposalId, m.proposalId, w.tier, w.createdAt, m.createdAt)
  }

  function RelationKey(r: SupersededRelation): string {
    r.winnerProposalId + ("\n" + r.supersededProposalId)
  }

  function ProposalIdOf(p: PatchProposal): string {
    p.proposalId
  }

  function ConflictIdOf(c: ContractConflict): string {
    c.conflictId
  }

  function OpKey(op: PatchOperation): string {
    KeyOf(op)
  }

  function SideOf(p: PatchProposal): ConflictSide {
    ConflictSide(p.proposalId, p.tier, p.sourceRefs, p.createdAt)
  }

  function JoinIds(ps: seq<PatchProposal>): string
    requires |ps| > 0
  {
    if |ps| == 1 then ps[0].proposalId else JoinIds(ps[..|ps| - 1]) + "," + ps[|ps| - 1].proposalId
  }

  /** Every id once, in the order of the list, with a comma between neighbours. */
  lemma {:induction false} JoinIdsFromTheFront(ps: seq<PatchProposal>)
    requires |ps| > 0
    ensures JoinIds(ps) == if |ps| == 1 then ps[0].proposalId else ps[0].proposalId + "," + JoinIds(ps[1..])
  {
    if |ps| > 1 {
      var front, tail := ps[..|ps| - 1], ps[1..];
      JoinIdsFromTheFront(front);
      if |ps| > 2 {
        assert front[1..] == tail[..|tail| - 1];
        calc {
          JoinIds(ps);
          (ps[0].proposalId + "," + JoinIds(front[1..])) + "," + ps[|ps| - 1].proposalId;
          ps[0].proposalId + "," + (JoinIds(tail[..|tail| - 1]) + "," + tail[|tail| - 1].proposalId);
        }
      }
    }
  }

  /** Two ids hash alike whichever comes first. */
  function BuildConflictId(a: string, b: string, field: string, digest: ConflictIdentity -> string): string {
    if TextLess(b, a) then digest(ConflictIdentity(b, a, field)) else digest(ConflictIdentity(a, b, field))
  }

  /** The conflict report on a field, given the tied proposals in id order. */
  function ConflictOf(tied: seq<PatchProposal>, key: string, digest: ConflictIdentity -> string): ContractConflict
    requires |tied| >= 2 && Touches(tied[0], key)
  {
    ContractConflict(
      BuildConflictId(JoinIds(tied[..|tied| - 1]), tied[|tied| - 1].proposalId, key, digest),
      "concurrent patches conflict on " + LabelText(FieldOf(LastOp(tied[0].operations, key))),
      seq(|tied|, i requires 0 <= i < |tied| => SideOf(tied[i])))
  }

  ghost predicate ListsLeaders(pool: set<PatchProposal>, key: string, tied: seq<PatchProposal>) {
    Ascending(tied, ProposalIdOf) && forall p :: p in tied <==> Leads(pool, p, key)
  }

  ghost predicate IsConflictOn(pool: set<PatchProposal>, key: string, digest: ConflictIdentity -> string,
      c: ContractConflict) {
    exists tied :: ListsLeaders(pool, key, tied) && |tied| >= 2 && Touches(tied[0], key)
        && c == ConflictOf(tied, key, digest)
  }

  /** `cs[i]` is the report on `keys[i]`, and `keys` names every tied field once. */
  ghost predicate ListsConflicts(
    pool: set<PatchProposal>, digest: ConflictIdentity -> string, keys: seq<string>, cs: seq<ContractConflict>)
  {
    && |keys| == |cs|
    && (forall i, j :: 0 <= i < j < |keys| ==> keys[i] != keys[j])
    && (forall k :: k in keys <==> Tied(pool, k))
    && (forall i :: 0 <= i < |keys| ==> IsConflictOn(pool, keys[i], digest, cs[i]))
  }

  /** One report per tied field, in id order. */
  ghost predicate IsConflictReport(pool: set<PatchProposal>, digest: ConflictIdentity -> string,
      cs: seq<ContractConflict>) {
    Ascending(cs, ConflictIdOf) && exists keys :: ListsConflicts(pool, digest, keys, cs)
  }

  /** The winners' contributions, one per touched field, in field-key order. */
  ghost predicate IsReplay(pool: set<PatchProposal>, replay: seq<PatchOperation>) {
    && Ascending(replay, OpKey)
    && (forall op :: op in replay ==>
          exists p :: Wins(pool, p, OpKey(op)) && op == LastOp(p.operations, OpKey(op)))
    && (forall p, key :: Wins(pool, p, key) ==> LastOp(p.operations, key) in replay)
  }

  ghost predicate Supersedes(pool: set<PatchProposal>, w: PatchProposal, m: PatchProposal, key: string) {
    Wins(pool, w, key) && m in pool && Touches(m, key) && m != w
  }

  /** Every contribution that did not win, against the winner of its field, each pair once and in id order. */
  ghost predicate IsSupersededReport(pool: set<PatchProposal>, rs: seq<SupersededRelation>) {
    && Ascending(rs, RelationKey)
    && (forall r :: r in rs ==> exists w, m, key :: Supersedes(pool, w, m, key) && r == RelationOf(w, m))
    && (forall w, m, key :: Supersedes(pool, w, m, key) ==> RelationOf(w, m) in rs)
  }

  /** `r` is the outcome of merging the pool onto `base`. */
  ghost predicate IsMergeOf(
    base: TaskContract, pool: set<PatchProposal>, digest: ConflictIdentity -> string,
    r: Result<MergeOutcome, MergeError>)
  {
    if exists key :: Tied(pool, key) then
      r.Success? && r.value.Conflicted? && IsConflictReport(pool, digest, r.value.conflicts)
    else
      exists replay :: IsReplay(pool, replay) &&
        match Applied(base, replay, false)
        case Failure(e) => r == Failure(ReplayFailed(e))
        case Success(c) =>
          r.Success? && r.value.Merged? && r.value.contract == c && IsSupersededReport(pool, r.value.superseded)
  }
}
