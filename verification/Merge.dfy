/** `mergeConcurrentPatches`: grouping, resolution and replay, proved against `MergeSpec`. */
module Merge {
  import opened Ordering
  import opened Contract
  import opened Patch
  import opened PatchApply
  import opened MergeSpec

  datatype Contribution = Contribution(patch: PatchProposal, op: PatchOperation, key: string)

  function ContributionKey(c: Contribution): string {
    c.key
  }

  function ContributionFor(p: PatchProposal, key: string): Contribution
    requires Touches(p, key)
  {
    Contribution(p, LastOp(p.operations, key), key)
  }

  ghost predicate NoRepeats<T>(s: seq<T>) {
    forall i, j :: 0 <= i < j < |s| ==> s[i] != s[j]
  }

  /** `Array.prototype.filter`. */
  function Filter<T(!new)>(s: seq<T>, keep: T -> bool): (r: seq<T>)
    ensures forall x :: x in r <==> x in s && keep(x)
    ensures NoRepeats(s) ==> NoRepeats(r)
  {
    if s == [] then []
    else
      var front := Filter(s[..|s| - 1], keep);
      assert s == s[..|s| - 1] + [s[|s| - 1]];
      if keep(s[|s| - 1]) then front + [s[|s| - 1]] else front
  }

  /** The contributions to one field, in order of arrival. */
  function OfKey(cs: seq<Contribution>, key: string): (r: seq<Contribution>)
    ensures forall c :: c in r <==> c in cs && c.key == key
    ensures NoRepeats(cs) ==> NoRepeats(r)
  {
    if cs == [] then []
    else
      var front := OfKey(cs[..|cs| - 1], key);
      assert cs == cs[..|cs| - 1] + [cs[|cs| - 1]];
      if cs[|cs| - 1].key == key then front + [cs[|cs| - 1]] else front
  }

  function Pool(patches: seq<PatchProposal>): set<PatchProposal> {
    set p | p in patches
  }

  // ----- Step 1: the last operation per field per proposal -----

  /** The `lastByField` map of one proposal, with its keys in insertion order. */
  method LastOperations(ops: seq<PatchOperation>) returns (order: seq<string>, last: map<string, PatchOperation>)
    ensures NoRepeats(order)
    ensures forall k :: k in order <==> k in last
    ensures forall k :: k in last <==> TouchesKey(ops, k)
    ensures forall k :: k in last ==> last[k] == LastOp(ops, k)
  {
    order, last := [], map[];
    for i := 0 to |ops|
      invariant NoRepeats(order)
      invariant forall k :: k in order <==> k in last
      invariant forall k :: k in last <==> TouchesKey(ops[..i], k)
      invariant forall k :: k in last ==> last[k] == LastOp(ops[..i], k)
    {
      var key := KeyOf(ops[i]);
      ghost var before, after := ops[..i], ops[..i + 1];
      assert after == before + [ops[i]] && after[..|after| - 1] == before;
      forall k
        ensures TouchesKey(after, k) <==> TouchesKey(before, k) || k == key
        ensures TouchesKey(after, k) ==> LastOp(after, k) == if k == key then ops[i] else LastOp(before, k)
      {
        TouchesExtended(before, ops[i], k);
      }
      if key !in last {
        order := order + [key];
      }
      last := last[key := ops[i]];
    }
    assert ops[..|ops|] == ops;
  }

  /** `cs` holds exactly one contribution for each proposal and each field it touches. */
  ghost predicate AllContributions(patches: seq<PatchProposal>, cs: seq<Contribution>) {
    && (forall c :: c in cs ==> c.patch in patches && Touches(c.patch, c.key) && c == ContributionFor(c.patch, c.key))
    && (forall p, k :: p in patches && Touches(p, k) ==> ContributionFor(p, k) in cs)
    && (DistinctProposals(patches) ==> NoRepeats(cs))
  }

  /** What one proposal contributes. */
  method ContributionsOf(p: PatchProposal) returns (own: seq<Contribution>)
    ensures AllContributions([p], own) && NoRepeats(own)
  {
    var order, last := LastOperations(p.operations);
    own := [];
    for i := 0 to |order|
      invariant |own| == i
      invariant forall j :: 0 <= j < i ==> Touches(p, order[j]) && own[j] == ContributionFor(p, order[j])
    {
      var key := order[i];
      assert key in last;
      own := own + [Contribution(p, last[key], key)];
    }
    OwnContributions(p, order, own);
  }

  lemma OwnContributions(p: PatchProposal, order: seq<string>, own: seq<Contribution>)
    requires NoRepeats(order) && |own| == |order| && forall k :: Touches(p, k) ==> k in order
    requires forall j :: 0 <= j < |order| ==> Touches(p, order[j]) && own[j] == ContributionFor(p, order[j])
    ensures AllContributions([p], own) && NoRepeats(own)
  {
  }

  method CollectContributions(patches: seq<PatchProposal>) returns (cs: seq<Contribution>)
    ensures AllContributions(patches, cs)
  {
    cs := [];
    for n := 0 to |patches|
      invariant AllContributions(patches[..n], cs)
    {
      var own := ContributionsOf(patches[n]);
      assert patches[..n + 1] == patches[..n] + [patches[n]];
      ContributionsExtended(patches[..n], cs, patches[n], own);
      cs := cs + own;
    }
    assert patches[..|patches|] == patches;
  }

  lemma ContributionsExtended(before: seq<PatchProposal>, cs: seq<Contribution>, p: PatchProposal,
      own: seq<Contribution>)
    requires AllContributions(before, cs)
    requires AllContributions([p], own) && NoRepeats(own)
    ensures AllContributions(before + [p], cs + own)
  {
    var after := before + [p];
    assert forall q :: q in after <==> q in before || q == p;
    assert forall c :: c in cs + own <==> c in cs || c in own;
    if DistinctProposals(after) {
      assert forall i :: 0 <= i < |before| ==> after[i] == before[i];
      assert DistinctProposals(before);
      forall i, j | 0 <= i < j < |cs + own|
        ensures (cs + own)[i] != (cs + own)[j]
      {
        if i < |cs| && |cs| <= j {
          assert cs[i] in cs && own[j - |cs|] in own;
          var m :| 0 <= m < |before| && before[m] == cs[i].patch;
          assert after[m].proposalId != after[|before|].proposalId;
        }
      }
    }
  }

  // ----- Step 2: grouping -----

  /** The `groups` map over the contributions seen so far, with its keys in insertion order. */
  ghost predicate Grouped(seen: seq<Contribution>, order: seq<string>, groups: map<string, seq<Contribution>>) {
    && NoRepeats(order)
    && (forall k :: k in order <==> k in groups)
    && GroupsMatch(seen, groups)
  }

  ghost predicate GroupsMatch(seen: seq<Contribution>, groups: map<string, seq<Contribution>>) {
    && (forall k :: k in groups <==> OfKey(seen, k) != [])
    && (forall k :: k in groups ==> groups[k] == OfKey(seen, k))
  }

  method GroupByField(cs: seq<Contribution>) returns (order: seq<string>, groups: map<string, seq<Contribution>>)
    ensures Grouped(cs, order, groups)
  {
    order, groups := [], map[];
    for i := 0 to |cs|
      invariant Grouped(cs[..i], order, groups)
    {
      var c := cs[i];
      assert cs[..i + 1] == cs[..i] + [c];
      GroupsStep(cs[..i], groups, c);
      if c.key in groups {
        groups := groups[c.key := groups[c.key] + [c]];
      } else {
        KeyAppended(order, c.key);
        order := order + [c.key];
        groups := groups[c.key := [c]];
      }
    }
    assert cs[..|cs|] == cs;
  }

  lemma KeyAppended(order: seq<string>, key: string)
    requires NoRepeats(order) && key !in order
    ensures NoRepeats(order + [key]) && forall k :: k in order + [key] <==> k in order || k == key
  {
  }

  function WithMember(groups: map<string, seq<Contribution>>, c: Contribution): map<string, seq<Contribution>> {
    groups[c.key := if c.key in groups then groups[c.key] + [c] else [c]]
  }

  lemma GroupsStep(seen: seq<Contribution>, groups: map<string, seq<Contribution>>, c: Contribution)
    requires GroupsMatch(seen, groups)
    ensures GroupsMatch(seen + [c], WithMember(groups, c))
  {
  }

  // ----- Step 2 (continued): resolving one field -----

  method BestTier(group: seq<Contribution>) returns (best: nat)
    requires |group| > 0
    ensures exists c :: c in group && c.patch.tier == best
    ensures forall c :: c in group ==> best <= c.patch.tier
  {
    best := group[0].patch.tier;
    for i := 1 to |group|
      invariant exists c :: c in group && c.patch.tier == best
      invariant forall j :: 0 <= j < i ==> best <= group[j].patch.tier
    {
      if group[i].patch.tier < best {
        best := group[i].patch.tier;
        assert group[i] in group;
      }
    }
  }

  method LatestInstant(group: seq<Contribution>) returns (latest: int)
    requires |group| > 0
    ensures exists c :: c in group && c.patch.createdAt.epoch == latest
    ensures forall c :: c in group ==> c.patch.createdAt.epoch <= latest
  {
    latest := group[0].patch.createdAt.epoch;
    for i := 1 to |group|
      invariant exists c :: c in group && c.patch.createdAt.epoch == latest
      invariant forall j :: 0 <= j < i ==> group[j].patch.createdAt.epoch <= latest
    {
      if group[i].patch.createdAt.epoch > latest {
        latest := group[i].patch.createdAt.epoch;
        assert group[i] in group;
      }
    }
  }

  ghost predicate IsTop(group: seq<Contribution>, c: Contribution) {
    forall d :: d in group ==> !Outranks(d.patch, c.patch)
  }

  /** The group's best tier, narrowed to its latest instant when more than one contribution has that tier. */
  method TopCandidates(group: seq<Contribution>) returns (top: seq<Contribution>)
    requires |group| > 0
    ensures forall c :: c in top <==> c in group && IsTop(group, c)
    ensures NoRepeats(group) ==> NoRepeats(top)
    ensures |top| > 0
  {
    var best := BestTier(group);
    var topTier := Filter(group, (c: Contribution) => c.patch.tier == best);
    top := topTier;
    ghost var b :| b in group && b.patch.tier == best;
    assert b in topTier;
    if |topTier| > 1 {
      var latest := LatestInstant(topTier);
      top := Filter(topTier, (c: Contribution) => c.patch.createdAt.epoch == latest);
      ghost var l :| l in topTier && l.patch.createdAt.epoch == latest;
      assert l in top;
    } else {
      assert forall c :: c in topTier ==> c == topTier[0];
      assert forall d :: d in group && d.patch.tier == best ==> d in topTier;
    }
  }

  /** `top` is what `TopCandidates` leaves of the group of `key`. */
  ghost predicate IsTopOf(pool: set<PatchProposal>, key: string, top: seq<Contribution>) {
    && |top| > 0
    && (forall c :: c in top ==> Leads(pool, c.patch, key) && c == ContributionFor(c.patch, key))
    && (forall p :: Leads(pool, p, key) ==> ContributionFor(p, key) in top)
    && NoRepeats(top)
  }

  lemma TopOfGroup(patches: seq<PatchProposal>, cs: seq<Contribution>, key: string, top: seq<Contribution>)
    requires AllContributions(patches, cs) && DistinctProposals(patches)
    requires forall c :: c in top <==> c in OfKey(cs, key) && IsTop(OfKey(cs, key), c)
    requires NoRepeats(top) && |top| > 0
    ensures IsTopOf(Pool(patches), key, top)
  {
  }

  /** Whatever has been decided so far: the fields in `done` and no others. */
  ghost predicate DecidedWinners(pool: set<PatchProposal>, done: set<string>, winning: seq<Contribution>) {
    && (forall c :: c in winning ==>
        c.key in done && Wins(pool, c.patch, c.key) && c == ContributionFor(c.patch, c.key))
    && (forall p, k :: k in done && Wins(pool, p, k) ==> ContributionFor(p, k) in winning)
    && DistinctKeys(winning, ContributionKey)
  }

  /** The i-th conflict is the report on the i-th key; the keys are the tied fields of `done`. */
  ghost predicate DecidedConflicts(
    pool: set<PatchProposal>, done: set<string>, digest: ConflictIdentity -> string,
    keys: seq<string>, conflicts: seq<ContractConflict>)
  {
    && |keys| == |conflicts|
    && NoRepeats(keys)
    && (forall k :: k in keys <==> k in done && Tied(pool, k))
    && (forall i :: 0 <= i < |keys| ==> IsConflictOn(pool, keys[i], digest, conflicts[i]))
  }

  ghost predicate DecidedRelations(
    pool: set<PatchProposal>, done: set<string>, relations: map<string, SupersededRelation>)
  {
    && (forall rk {:trigger relations[rk]} :: rk in relations ==>
          rk == RelationKey(relations[rk]) && IsRelationOf(pool, done, relations[rk]))
    && (forall w, m, k :: k in done && Supersedes(pool, w, m, k) ==> RelationKey(RelationOf(w, m)) in relations)
  }

  /** `r` relates the winner of some field of `done` to another proposal touching that field. */
  ghost predicate IsRelationOf(pool: set<PatchProposal>, done: set<string>, r: SupersededRelation) {
    exists w, m, k :: k in done && Supersedes(pool, w, m, k) && r == RelationOf(w, m)
  }

  lemma SingleTopWins(pool: set<PatchProposal>, key: string, top: seq<Contribution>)
    requires IsTopOf(pool, key, top) && |top| == 1
    ensures Wins(pool, top[0].patch, key) && !Tied(pool, key)
  {
  }

  lemma SeveralTopTie(pool: set<PatchProposal>, key: string, top: seq<Contribution>)
    requires IsTopOf(pool, key, top) && |top| > 1
    ensures Tied(pool, key) && forall p :: !Wins(pool, p, key)
  {
    var a, b := top[0], top[1];
    assert a in top && b in top && a.patch != b.patch;
  }

  lemma WinnersGrow(pool: set<PatchProposal>, done: set<string>, winning: seq<Contribution>, c: Contribution)
    requires DecidedWinners(pool, done, winning) && c.key !in done
    requires Wins(pool, c.patch, c.key) && c == ContributionFor(c.patch, c.key)
    ensures DecidedWinners(pool, done + {c.key}, winning + [c])
  {
  }

  lemma WinnersStep(pool: set<PatchProposal>, done: set<string>, winning: seq<Contribution>, key: string,
      top: seq<Contribution>)
    requires DecidedWinners(pool, done, winning) && key !in done
    requires IsTopOf(pool, key, top)
    ensures DecidedWinners(pool, done + {key}, if |top| == 1 then winning + [top[0]] else winning)
  {
    if |top| == 1 {
      SingleTopWins(pool, key, top);
      assert top[0] in top;
      WinnersGrow(pool, done, winning, top[0]);
    } else {
      SeveralTopTie(pool, key, top);
      WinnersStay(pool, done, winning, key);
    }
  }

  lemma WinnersStay(pool: set<PatchProposal>, done: set<string>, winning: seq<Contribution>, key: string)
    requires DecidedWinners(pool, done, winning) && forall p :: !Wins(pool, p, key)
    ensures DecidedWinners(pool, done + {key}, winning)
  {
  }

  lemma ConflictIdNamesField(pool: set<PatchProposal>, k: string, digest: ConflictIdentity -> string,
      c: ContractConflict)
    returns (first: string, second: string)
    requires IsConflictOn(pool, k, digest, c)
    ensures c.conflictId == digest(ConflictIdentity(first, second, k))
  {
    var tied: seq<PatchProposal> :| ListsLeaders(pool, k, tied) && |tied| >= 2 && Touches(tied[0], k)
        && c == ConflictOf(tied, k, digest);
    first, second := JoinIds(tied[..|tied| - 1]), tied[|tied| - 1].proposalId;
    if TextLess(second, first) {
      first, second := second, first;
    }
  }

  lemma ConflictIdsDiffer(
    pool: set<PatchProposal>, digest: ConflictIdentity -> string, k: string, c: ContractConflict, l: string,
    d: ContractConflict)
    requires IsConflictOn(pool, k, digest, c) && IsConflictOn(pool, l, digest, d)
    requires k != l && Injective(digest)
    ensures c.conflictId != d.conflictId
  {
    var a, b := ConflictIdNamesField(pool, k, digest, c);
    var x, y := ConflictIdNamesField(pool, l, digest, d);
    assert ConflictIdentity(a, b, k) != ConflictIdentity(x, y, l);
  }

  lemma ConflictsStep(
    pool: set<PatchProposal>, done: set<string>, digest: ConflictIdentity -> string,
    keys: seq<string>, conflicts: seq<ContractConflict>, key: string, top: seq<Contribution>, c: ContractConflict)
    requires DecidedConflicts(pool, done, digest, keys, conflicts) && key !in done
    requires IsTopOf(pool, key, top) && |top| > 1 && IsConflictOn(pool, key, digest, c)
    ensures DecidedConflicts(pool, done + {key}, digest, keys + [key], conflicts + [c])
  {
    SeveralTopTie(pool, key, top);
    TiedKeysExtended(keys, done, key, iset k | Tied(pool, k));
    ReportsExtended(pool, digest, keys, conflicts, key, c);
  }

  lemma TiedKeysExtended(keys: seq<string>, done: set<string>, key: string, tied: iset<string>)
    requires NoRepeats(keys) && forall k :: k in keys <==> k in done && k in tied
    requires key !in done && key in tied
    ensures NoRepeats(keys + [key]) && forall k :: k in keys + [key] <==> k in done + {key} && k in tied
  {
  }

  lemma ReportsExtended(
    pool: set<PatchProposal>, digest: ConflictIdentity -> string,
    keys: seq<string>, conflicts: seq<ContractConflict>, key: string, c: ContractConflict)
    requires |keys| == |conflicts| && forall i :: 0 <= i < |keys| ==> IsConflictOn(pool, keys[i], digest, conflicts[i])
    requires IsConflictOn(pool, key, digest, c)
    ensures forall i :: 0 <= i < |keys + [key]| ==> IsConflictOn(pool, (keys + [key])[i], digest, (conflicts + [c])[i])
  {
  }

  /** Records the winner of a field over every other contribution of its group. */
  method RecordSuperseded(
    relations: map<string, SupersededRelation>, order: seq<string>, winner: Contribution, group: seq<Contribution>)
    returns (next: map<string, SupersededRelation>, nextOrder: seq<string>)
    requires NoRepeats(order) && forall rk :: rk in order <==> rk in relations
    ensures NoRepeats(nextOrder) && forall rk :: rk in nextOrder <==> rk in next
    ensures forall rk :: rk in relations ==> rk in next
    ensures forall m :: m in group && m != winner ==> RelationKey(RelationOf(winner.patch, m.patch)) in next
    ensures forall rk :: rk in next ==>
              || (rk in relations && next[rk] == relations[rk])
              || (rk == RelationKey(next[rk])
                  && exists m :: m in group && m != winner && next[rk] == RelationOf(winner.patch, m.patch))
  {
    next, nextOrder := relations, order;
    for i := 0 to |group|
      invariant NoRepeats(nextOrder) && forall rk :: rk in nextOrder <==> rk in next
      invariant forall rk :: rk in relations ==> rk in next
      invariant forall j :: 0 <= j < i && group[j] != winner ==>
                  RelationKey(RelationOf(winner.patch, group[j].patch)) in next
      invariant forall rk :: rk in next ==>
                  || (rk in relations && next[rk] == relations[rk])
                  || (rk == RelationKey(next[rk])
                      && exists m :: m in group && m != winner && next[rk] == RelationOf(winner.patch, m.patch))
    {
      if group[i] != winner {
        var relation := RelationOf(winner.patch, group[i].patch);
        var rk := RelationKey(relation);
        if rk !in next {
          nextOrder := nextOrder + [rk];
        }
        next := next[rk := relation];
        assert group[i] in group;
      }
    }
  }

  lemma RelationsStep(
    patches: seq<PatchProposal>, cs: seq<Contribution>, done: set<string>, key: string, winner: Contribution,
    relations: map<string, SupersededRelation>, next: map<string, SupersededRelation>)
    requires AllContributions(patches, cs)
    requires DecidedRelations(Pool(patches), done, relations)
    requires Wins(Pool(patches), winner.patch, key) && winner == ContributionFor(winner.patch, key)
    requires forall rk :: rk in relations ==> rk in next
    requires forall m :: m in OfKey(cs, key) && m != winner ==> RelationKey(RelationOf(winner.patch, m.patch)) in next
    requires forall rk :: rk in next ==>
               || (rk in relations && next[rk] == relations[rk])
               || (rk == RelationKey(next[rk])
                   && exists m :: m in OfKey(cs, key) && m != winner && next[rk] == RelationOf(winner.patch, m.patch))
    ensures DecidedRelations(Pool(patches), done + {key}, next)
  {
    var pool := Pool(patches);
    forall rk | rk in next
      ensures rk == RelationKey(next[rk]) && IsRelationOf(pool, done + {key}, next[rk])
    {
      if rk in relations && next[rk] == relations[rk] {
        RelationKept(pool, done, key, relations[rk]);
      } else {
        var m :| m in OfKey(cs, key) && m != winner && next[rk] == RelationOf(winner.patch, m.patch);
        MemberIsSuperseded(patches, cs, key, winner, m);
        RelationAdded(pool, done, key, winner.patch, m.patch);
      }
    }
    forall w, m, k | k in done + {key} && Supersedes(pool, w, m, k)
      ensures RelationKey(RelationOf(w, m)) in next
    {
      if k !in done {
        SupersededIsMember(patches, cs, key, winner, w, m);
      }
    }
  }

  lemma RelationKept(pool: set<PatchProposal>, done: set<string>, key: string, r: SupersededRelation)
    requires IsRelationOf(pool, done, r)
    ensures IsRelationOf(pool, done + {key}, r)
  {
  }

  lemma RelationAdded(pool: set<PatchProposal>, done: set<string>, key: string, w: PatchProposal, m: PatchProposal)
    requires Supersedes(pool, w, m, key)
    ensures IsRelationOf(pool, done + {key}, RelationOf(w, m))
  {
  }

  lemma MemberIsSuperseded(
    patches: seq<PatchProposal>, cs: seq<Contribution>, key: string, winner: Contribution, m: Contribution)
    requires AllContributions(patches, cs) && m in OfKey(cs, key) && m != winner
    requires Wins(Pool(patches), winner.patch, key) && winner == ContributionFor(winner.patch, key)
    ensures Supersedes(Pool(patches), winner.patch, m.patch, key)
  {
  }

  lemma SupersededIsMember(
    patches: seq<PatchProposal>, cs: seq<Contribution>, key: string, winner: Contribution, w: PatchProposal,
    m: PatchProposal)
    requires AllContributions(patches, cs) && Supersedes(Pool(patches), w, m, key)
    requires Wins(Pool(patches), winner.patch, key) && winner == ContributionFor(winner.patch, key)
    ensures w == winner.patch && ContributionFor(m, key) in OfKey(cs, key) && ContributionFor(m, key) != winner
  {
  }

  lemma NoRelationStep(
    pool: set<PatchProposal>, done: set<string>, key: string, top: seq<Contribution>,
    relations: map<string, SupersededRelation>)
    requires DecidedRelations(pool, done, relations)
    requires IsTopOf(pool, key, top) && |top| > 1
    ensures DecidedRelations(pool, done + {key}, relations)
  {
    SeveralTopTie(pool, key, top);
    forall rk | rk in relations
      ensures IsRelationOf(pool, done + {key}, relations[rk])
    {
      RelationKept(pool, done, key, relations[rk]);
    }
  }

  // ----- Step 3: the outcome -----

  function PatchesOf(cs: seq<Contribution>): (r: seq<PatchProposal>)
    ensures |r| == |cs| && forall i :: 0 <= i < |cs| ==> r[i] == cs[i].patch
  {
    if cs == [] then [] else [cs[0].patch] + PatchesOf(cs[1..])
  }

  function OpsOf(cs: seq<Contribution>): (r: seq<PatchOperation>)
    ensures |r| == |cs| && forall i :: 0 <= i < |cs| ==> r[i] == cs[i].op
  {
    if cs == [] then [] else [cs[0].op] + OpsOf(cs[1..])
  }

  /** An honest tie: every side is kept, in id order. */
  method ReportTie(top: seq<Contribution>, key: string, digest: ConflictIdentity -> string)
      returns (c: ContractConflict)
    requires |top| > 1 && forall m :: m in top ==> Touches(m.patch, key)
    ensures forall pool :: WellFormedPool(pool) && IsTopOf(pool, key, top) ==> IsConflictOn(pool, key, digest, c)
  {
    var sides := PatchesOf(top);
    var sorted := SortByKey(sides, ProposalIdOf);
    SortByKeySorts(sides, ProposalIdOf);
    assert |sorted| == |multiset(sorted)| == |multiset(sides)| == |top|;
    assert sorted[0] in multiset(sides);
    c := ConflictOf(sorted, key, digest);
    forall pool | WellFormedPool(pool) && IsTopOf(pool, key, top)
      ensures IsConflictOn(pool, key, digest, c)
    {
      TieIsListed(pool, key, top);
    }
  }

  lemma TieIsListed(pool: set<PatchProposal>, key: string, top: seq<Contribution>)
    requires WellFormedPool(pool) && IsTopOf(pool, key, top)
    ensures ListsLeaders(pool, key, SortByKey(PatchesOf(top), ProposalIdOf))
  {
    var sides := PatchesOf(top);
    forall i, j | 0 <= i < j < |sides|
      ensures sides[i].proposalId != sides[j].proposalId
    {
      assert top[i] in top && top[j] in top;
    }
    SortDistinct(sides, ProposalIdOf);
    SidesLead(pool, key, top);
  }

  lemma SidesLead(pool: set<PatchProposal>, key: string, top: seq<Contribution>)
    requires IsTopOf(pool, key, top)
    ensures forall p :: p in PatchesOf(top) <==> Leads(pool, p, key)
  {
    var sides := PatchesOf(top);
    forall p
      ensures p in sides <==> Leads(pool, p, key)
    {
      if Leads(pool, p, key) {
        var i :| 0 <= i < |top| && top[i] == ContributionFor(p, key);
        assert sides[i] == p;
      }
      if p in sides {
        var i :| 0 <= i < |sides| && sides[i] == p;
        assert top[i] in top;
      }
    }
  }

  /** The collections the resolution loop fills; `recordedOrder` is the insertion order of `recorded`. */
  datatype Ledger = Ledger(
    winning: seq<Contribution>,
    conflicts: seq<ContractConflict>,
    recorded: map<string, SupersededRelation>,
    recordedOrder: seq<string>)
  {
    ghost predicate Consistent() {
      NoRepeats(recordedOrder) && forall rk :: rk in recordedOrder <==> rk in recorded
    }

    /** Exactly the fields of `done` are decided. */
    ghost predicate Decides(
      pool: set<PatchProposal>, done: set<string>, digest: ConflictIdentity -> string, conflictKeys: seq<string>)
    {
      && DecidedWinners(pool, done, winning)
      && DecidedConflicts(pool, done, digest, conflictKeys, conflicts)
      && DecidedRelations(pool, done, recorded)
    }
  }

  lemma DecideByWinner(
    patches: seq<PatchProposal>, cs: seq<Contribution>, digest: ConflictIdentity -> string, conflictKeys: seq<string>,
    done: set<string>, key: string, top: seq<Contribution>, ledger: Ledger, next: Ledger)
    requires AllContributions(patches, cs) && ledger.Decides(Pool(patches), done, digest, conflictKeys)
    requires key !in done && IsTopOf(Pool(patches), key, top) && |top| == 1
    requires next.winning == ledger.winning + [top[0]] && next.conflicts == ledger.conflicts
    requires forall rk :: rk in ledger.recorded ==> rk in next.recorded
    requires forall m :: m in OfKey(cs, key) && m != top[0] ==>
        RelationKey(RelationOf(top[0].patch, m.patch)) in next.recorded
    requires forall rk :: rk in next.recorded ==>
               || (rk in ledger.recorded && next.recorded[rk] == ledger.recorded[rk])
               || (rk == RelationKey(next.recorded[rk])
                   && exists m :: m in OfKey(cs, key) && m != top[0]
                       && next.recorded[rk] == RelationOf(top[0].patch, m.patch))
    ensures next.Decides(Pool(patches), done + {key}, digest, conflictKeys)
  {
    WinnersStep(Pool(patches), done, ledger.winning, key, top);
    SingleTopWins(Pool(patches), key, top);
    RelationsStep(patches, cs, done, key, top[0], ledger.recorded, next.recorded);
  }

  lemma DecideByTie(
    pool: set<PatchProposal>, digest: ConflictIdentity -> string, conflictKeys: seq<string>,
    done: set<string>, key: string, top: seq<Contribution>, conflict: ContractConflict, ledger: Ledger)
    requires ledger.Decides(pool, done, digest, conflictKeys)
    requires key !in done && IsTopOf(pool, key, top) && |top| > 1
    requires IsConflictOn(pool, key, digest, conflict)
    ensures ledger.(conflicts := ledger.conflicts + [conflict])
              .Decides(pool, done + {key}, digest, conflictKeys + [key])
  {
    WinnersStep(pool, done, ledger.winning, key, top);
    ConflictsStep(pool, done, digest, conflictKeys, ledger.conflicts, key, top, conflict);
    NoRelationStep(pool, done, key, top, ledger.recorded);
  }

  /** Resolves the group of one field. */
  method ResolveGroup(
    patches: seq<PatchProposal>, cs: seq<Contribution>, digest: ConflictIdentity -> string, key: string,
    group: seq<Contribution>, ledger: Ledger, ghost done: set<string>, ghost conflictKeys: seq<string>)
    returns (next: Ledger, ghost nextKeys: seq<string>)
    requires AllContributions(patches, cs) && group == OfKey(cs, key) && |group| > 0
    requires key !in done && ledger.Consistent()
    ensures next.Consistent()
    ensures DistinctProposals(patches) && WellFormedPool(Pool(patches))
            && ledger.Decides(Pool(patches), done, digest, conflictKeys) ==>
              next.Decides(Pool(patches), done + {key}, digest, nextKeys)
  {
    var top := TopCandidates(group);
    ghost var distinct := DistinctProposals(patches) && WellFormedPool(Pool(patches))
                          && ledger.Decides(Pool(patches), done, digest, conflictKeys);
    if distinct {
      TopOfGroup(patches, cs, key, top);
    }
    if |top| == 1 {
      var recorded, recordedOrder := RecordSuperseded(ledger.recorded, ledger.recordedOrder, top[0], group);
      next := Ledger(ledger.winning + [top[0]], ledger.conflicts, recorded, recordedOrder);
      nextKeys := conflictKeys;
      if distinct {
        DecideByWinner(patches, cs, digest, conflictKeys, done, key, top, ledger, next);
      }
    } else {
      var conflict := ReportTie(top, key, digest);
      next := ledger.(conflicts := ledger.conflicts + [conflict]);
      nextKeys := conflictKeys + [key];
      if distinct {
        DecideByTie(Pool(patches), digest, conflictKeys, done, key, top, conflict, ledger);
      }
    }
  }

  /** Resolves every group. */
  method ResolveGroups(patches: seq<PatchProposal>, cs: seq<Contribution>, digest: ConflictIdentity -> string)
    returns (ledger: Ledger, ghost done: set<string>, ghost conflictKeys: seq<string>)
    requires AllContributions(patches, cs)
    ensures ledger.Consistent()
    ensures forall p, k :: p in patches && Touches(p, k) ==> k in done
    ensures DistinctProposals(patches) && WellFormedPool(Pool(patches)) ==>
              ledger.Decides(Pool(patches), done, digest, conflictKeys)
  {
    var order, groups := GroupByField(cs);
    ledger, done, conflictKeys := Ledger([], [], map[], []), {}, [];
    for n := 0 to |order|
      invariant forall k :: k in done <==> k in order[..n]
      invariant ledger.Consistent()
      invariant DistinctProposals(patches) && WellFormedPool(Pool(patches)) ==>
                  ledger.Decides(Pool(patches), done, digest, conflictKeys)
    {
      var key := order[n];
      assert order[..n + 1] == order[..n] + [key];
      assert key in order;
      ledger, conflictKeys := ResolveGroup(patches, cs, digest, key, groups[key], ledger, done, conflictKeys);
      done := done + {key};
    }
    assert order[..|order|] == order;
    TouchedIsGrouped(patches, cs, order, groups);
  }

  lemma TouchedIsGrouped(
    patches: seq<PatchProposal>, cs: seq<Contribution>, order: seq<string>, groups: map<string, seq<Contribution>>)
    requires AllContributions(patches, cs) && Grouped(cs, order, groups)
    ensures forall p, k :: p in patches && Touches(p, k) ==> k in order
  {
    forall p, k | p in patches && Touches(p, k)
      ensures k in order
    {
      assert ContributionFor(p, k) in OfKey(cs, k);
      assert k in groups;
    }
  }

  method ListRelations(ledger: Ledger) returns (rs: seq<SupersededRelation>)
    requires ledger.Consistent()
    ensures (forall rk :: rk in ledger.recorded ==> rk == RelationKey(ledger.recorded[rk])) ==>
        ListsValues(ledger.recorded, rs)
  {
    rs := [];
    for i := 0 to |ledger.recordedOrder|
      invariant |rs| == i
      invariant forall j :: 0 <= j < i ==> rs[j] == ledger.recorded[ledger.recordedOrder[j]]
    {
      rs := rs + [ledger.recorded[ledger.recordedOrder[i]]];
    }
    if forall rk :: rk in ledger.recorded ==> rk == RelationKey(ledger.recorded[rk]) {
      ValuesListed(ledger.recorded, ledger.recordedOrder, rs);
    }
  }

  /** `rs` lists the values of `relations`, each under a key of its own. */
  ghost predicate ListsValues(relations: map<string, SupersededRelation>, rs: seq<SupersededRelation>) {
    && DistinctKeys(rs, RelationKey)
    && forall r :: r in rs <==> RelationKey(r) in relations && relations[RelationKey(r)] == r
  }

  lemma ValuesListed(relations: map<string, SupersededRelation>, order: seq<string>, rs: seq<SupersededRelation>)
    requires NoRepeats(order) && forall rk :: rk in order <==> rk in relations
    requires forall rk :: rk in relations ==> rk == RelationKey(relations[rk])
    requires |rs| == |order| && forall j :: 0 <= j < |rs| ==> rs[j] == relations[order[j]]
    ensures ListsValues(relations, rs)
  {
  }

  lemma ConflictIdsAreDistinct(
    pool: set<PatchProposal>, digest: ConflictIdentity -> string, keys: seq<string>, conflicts: seq<ContractConflict>)
    requires |keys| == |conflicts| && NoRepeats(keys) && Injective(digest)
    requires forall i :: 0 <= i < |keys| ==> IsConflictOn(pool, keys[i], digest, conflicts[i])
    ensures DistinctKeys(conflicts, ConflictIdOf)
  {
    forall i, j | 0 <= i < j < |conflicts|
      ensures conflicts[i].conflictId != conflicts[j].conflictId
    {
      ConflictIdsDiffer(pool, digest, keys[i], conflicts[i], keys[j], conflicts[j]);
    }
  }

  /** The key a listed conflict reports on. */
  ghost function KeyFor(keys: seq<string>, conflicts: seq<ContractConflict>, c: ContractConflict): (k: string)
    requires |keys| == |conflicts| && c in conflicts
    ensures exists i :: 0 <= i < |keys| && conflicts[i] == c && keys[i] == k
  {
    var i :| 0 <= i < |conflicts| && conflicts[i] == c;
    keys[i]
  }

  lemma KeysReordered(keys: seq<string>, conflicts: seq<ContractConflict>, sorted: seq<ContractConflict>,
      ks: seq<string>)
    requires |keys| == |conflicts| && NoRepeats(keys)
    requires DistinctKeys(conflicts, ConflictIdOf) && DistinctKeys(sorted, ConflictIdOf)
    requires forall c :: c in sorted <==> c in conflicts
    requires |ks| == |sorted|
    requires forall i :: 0 <= i < |ks| ==> sorted[i] in conflicts && ks[i] == KeyFor(keys, conflicts, sorted[i])
    ensures NoRepeats(ks) && forall k :: k in ks <==> k in keys
  {
    forall i, j | 0 <= i < j < |ks|
      ensures ks[i] != ks[j]
    {
      var m :| 0 <= m < |keys| && conflicts[m] == sorted[i] && keys[m] == ks[i];
      var n :| 0 <= n < |keys| && conflicts[n] == sorted[j] && keys[n] == ks[j];
      assert ConflictIdOf(sorted[i]) != ConflictIdOf(sorted[j]);
    }
    forall k | k in keys
      ensures k in ks
    {
      var m :| 0 <= m < |keys| && keys[m] == k;
      assert conflicts[m] in conflicts;
      var i :| 0 <= i < |sorted| && sorted[i] == conflicts[m];
      var n :| 0 <= n < |keys| && conflicts[n] == sorted[i] && keys[n] == ks[i];
      assert ConflictIdOf(conflicts[n]) == ConflictIdOf(conflicts[m]);
      assert ks[i] == k;
    }
  }

  /** Reordering the reports reorders their keys. */
  lemma ConflictsReordered(
    pool: set<PatchProposal>, digest: ConflictIdentity -> string,
    keys: seq<string>, conflicts: seq<ContractConflict>, sorted: seq<ContractConflict>)
    requires ListsConflicts(pool, digest, keys, conflicts)
    requires DistinctKeys(conflicts, ConflictIdOf) && DistinctKeys(sorted, ConflictIdOf)
    requires forall c :: c in sorted <==> c in conflicts
    ensures exists ks :: ListsConflicts(pool, digest, ks, sorted)
  {
    var ks := seq(|sorted|, i requires 0 <= i < |sorted| => KeyFor(keys, conflicts, sorted[i]));
    KeysReordered(keys, conflicts, sorted, ks);
    forall i | 0 <= i < |ks|
      ensures IsConflictOn(pool, ks[i], digest, sorted[i])
    {
      var m :| 0 <= m < |keys| && conflicts[m] == sorted[i] && keys[m] == ks[i];
    }
    assert ListsConflicts(pool, digest, ks, sorted);
  }

  lemma EveryTieDecided(
    pool: set<PatchProposal>, done: set<string>, digest: ConflictIdentity -> string,
    keys: seq<string>, conflicts: seq<ContractConflict>)
    requires DecidedConflicts(pool, done, digest, keys, conflicts)
    requires forall p, k :: p in pool && Touches(p, k) ==> k in done
    ensures ListsConflicts(pool, digest, keys, conflicts)
  {
  }

  lemma FinishConflicts(
    pool: set<PatchProposal>, digest: ConflictIdentity -> string, keys: seq<string>, conflicts: seq<ContractConflict>)
    requires ListsConflicts(pool, digest, keys, conflicts) && Injective(digest)
    ensures IsConflictReport(pool, digest, SortByKey(conflicts, ConflictIdOf))
  {
    var sorted := SortByKey(conflicts, ConflictIdOf);
    ConflictIdsAreDistinct(pool, digest, keys, conflicts);
    SortDistinct(conflicts, ConflictIdOf);
    AscendingIsDistinct(sorted, ConflictIdOf);
    ConflictsReordered(pool, digest, keys, conflicts, sorted);
  }

  lemma FinishReplay(pool: set<PatchProposal>, done: set<string>, winning: seq<Contribution>)
    requires DecidedWinners(pool, done, winning)
    requires forall p, k :: p in pool && Touches(p, k) ==> k in done
    ensures IsReplay(pool, OpsOf(SortByKey(winning, ContributionKey)))
  {
    var sorted := SortByKey(winning, ContributionKey);
    SortDistinct(winning, ContributionKey);
    assert forall i :: 0 <= i < |sorted| ==> sorted[i] in sorted;
    ReplayAscends(sorted);
    forall op | op in OpsOf(sorted)
      ensures exists p :: Wins(pool, p, OpKey(op)) && op == LastOp(p.operations, OpKey(op))
    {
      var i :| 0 <= i < |sorted| && OpsOf(sorted)[i] == op;
      assert Wins(pool, sorted[i].patch, sorted[i].key);
    }
    forall p, key | Wins(pool, p, key)
      ensures LastOp(p.operations, key) in OpsOf(sorted)
    {
      OpIsListed(sorted, ContributionFor(p, key));
    }
  }

  lemma ReplayAscends(sorted: seq<Contribution>)
    requires Ascending(sorted, ContributionKey) && forall i :: 0 <= i < |sorted| ==>
        KeyOf(sorted[i].op) == sorted[i].key
    ensures Ascending(OpsOf(sorted), OpKey)
  {
  }

  lemma OpIsListed(sorted: seq<Contribution>, c: Contribution)
    requires c in sorted
    ensures c.op in OpsOf(sorted)
  {
  }

  /** A relation's key determines both proposals when ids have one length. */
  lemma RelationKeyNamesPair(pool: set<PatchProposal>, w: PatchProposal, m: PatchProposal, v: PatchProposal,
      n: PatchProposal)
    requires WellFormedPool(pool) && w in pool && m in pool && v in pool && n in pool
    requires RelationKey(RelationOf(w, m)) == RelationKey(RelationOf(v, n))
    ensures w == v && m == n
  {
    var k := RelationKey(RelationOf(w, m));
    assert w.proposalId == k[..PROPOSAL_ID_LENGTH] == v.proposalId;
    assert m.proposalId == k[PROPOSAL_ID_LENGTH + 1..] == n.proposalId;
  }

  lemma FinishRelations(
    pool: set<PatchProposal>, done: set<string>, relations: map<string, SupersededRelation>,
    rs: seq<SupersededRelation>)
    requires WellFormedPool(pool) && DecidedRelations(pool, done, relations) && ListsValues(relations, rs)
    requires forall p, k :: p in pool && Touches(p, k) ==> k in done
    ensures IsSupersededReport(pool, SortByKey(rs, RelationKey))
  {
    var sorted := SortByKey(rs, RelationKey);
    SortDistinct(rs, RelationKey);
    forall w, m, key | Supersedes(pool, w, m, key)
      ensures RelationOf(w, m) in sorted
    {
      var rk := RelationKey(RelationOf(w, m));
      assert rk in relations;
      var stored := relations[rk];
      assert IsRelationOf(pool, done, stored);
      var v, n, l :| l in done && Supersedes(pool, v, n, l) && stored == RelationOf(v, n);
      RelationKeyNamesPair(pool, w, m, v, n);
    }
    forall r | r in sorted
      ensures exists w, m, key :: Supersedes(pool, w, m, key) && r == RelationOf(w, m)
    {
      assert IsRelationOf(pool, done, relations[RelationKey(r)]);
    }
  }

  /** The sort compares winner ids and then superseded ids: on ids of one length that is the order of the keys. */
  lemma RelationOrder(r: SupersededRelation, s: SupersededRelation)
    requires |r.winnerProposalId| == |s.winnerProposalId|
    ensures TextLess(RelationKey(r), RelationKey(s)) <==>
            || TextLess(r.winnerProposalId, s.winnerProposalId)
            || (r.winnerProposalId == s.winnerProposalId && TextLess(r.supersededProposalId, s.supersededProposalId))
  {
    var a, b := r.supersededProposalId, s.supersededProposalId;
    TextLessOfPair(r.winnerProposalId, "\n" + a, s.winnerProposalId, "\n" + b);
    TextLessOfPair("\n", a, "\n", b);
    TextLessIrreflexive("\n");
  }

  lemma PoolIsWellFormed(base: TaskContract, patches: seq<PatchProposal>)
    requires FirstRejection(base, patches) == None && DistinctProposals(patches)
    ensures WellFormedPool(Pool(patches))
  {
  }

  lemma {:induction false} NoneRejected(base: TaskContract, patches: seq<PatchProposal>, p: PatchProposal)
    requires FirstRejection(base, patches) == None && p in patches
    ensures Rejection(base, p) == None
  {
    if p != patches[0] {
      NoneRejected(base, patches[1..], p);
    }
  }

  /** Refuses the first proposal that may not be merged onto this base. */
  method AdmitAll(base: TaskContract, patches: seq<PatchProposal>) returns (refused: Option<MergeError>)
    ensures refused == FirstRejection(base, patches)
  {
    for i := 0 to |patches|
      invariant FirstRejection(base, patches) == FirstRejection(base, patches[i..])
    {
      refused := Rejection(base, patches[i]);
      assert patches[i..][0] == patches[i] && patches[i..][1..] == patches[i + 1..];
      if refused.Some? {
        return;
      }
    }
    refused := None;
  }

  lemma ConcludeConflicted(
    base: TaskContract, pool: set<PatchProposal>, digest: ConflictIdentity -> string,
    keys: seq<string>, conflicts: seq<ContractConflict>)
    requires ListsConflicts(pool, digest, keys, conflicts) && Injective(digest) && |conflicts| > 0
    ensures IsMergeOf(base, pool, digest, Success(Conflicted(SortByKey(conflicts, ConflictIdOf))))
  {
    FinishConflicts(pool, digest, keys, conflicts);
    assert keys[0] in keys;
  }

  lemma ConcludeMerged(
    base: TaskContract, pool: set<PatchProposal>, digest: ConflictIdentity -> string,
    replay: seq<PatchOperation>, rs: seq<SupersededRelation>)
    requires !exists k :: Tied(pool, k)
    requires IsReplay(pool, replay) && IsSupersededReport(pool, rs)
    ensures match Applied(base, replay, false)
            case Failure(e) => IsMergeOf(base, pool, digest, Failure(ReplayFailed(e)))
            case Success(c) => IsMergeOf(base, pool, digest, Success(Merged(c, rs)))
  {
  }

  /** Turns the filled collections into the outcome. */
  method Conclude(
    base: TaskContract, digest: ConflictIdentity -> string, ledger: Ledger,
    ghost pool: set<PatchProposal>, ghost done: set<string>, ghost keys: seq<string>, ghost expected: bool)
    returns (r: Result<MergeOutcome, MergeError>)
    requires ledger.Consistent()
    requires forall p, k :: p in pool && Touches(p, k) ==> k in done
    requires expected ==> WellFormedPool(pool) && Injective(digest) && ledger.Decides(pool, done, digest, keys)
    ensures expected ==> IsMergeOf(base, pool, digest, r)
  {
    if |ledger.conflicts| > 0 {
      r := Success(Conflicted(SortByKey(ledger.conflicts, ConflictIdOf)));
      if expected {
        EveryTieDecided(pool, done, digest, keys, ledger.conflicts);
        ConcludeConflicted(base, pool, digest, keys, ledger.conflicts);
      }
    } else {
      var replay := OpsOf(SortByKey(ledger.winning, ContributionKey));
      var contract := ApplyPatchOperations(base, replay, false);
      var relations := ListRelations(ledger);
      var superseded := SortByKey(relations, RelationKey);
      r := match contract
      case Failure(e) => Failure(ReplayFailed(e))
      case Success(c) => Success(Merged(c, superseded));
      if expected {
        EveryTieDecided(pool, done, digest, keys, ledger.conflicts);
        assert forall k :: k !in keys;
        FinishReplay(pool, done, ledger.winning);
        FinishRelations(pool, done, ledger.recorded, relations);
        ConcludeMerged(base, pool, digest, replay, superseded);
      }
    }
  }

  /** Merges concurrent proposals against one base version. */
  method MergeConcurrentPatches(base: TaskContract, patches: seq<PatchProposal>, digest: ConflictIdentity -> string)
    returns (r: Result<MergeOutcome, MergeError>)
    ensures FirstRejection(base, patches).Some? ==> r == Failure(FirstRejection(base, patches).value)
    ensures FirstRejection(base, patches) == None && DistinctProposals(patches) && Injective(digest) ==>
              IsMergeOf(base, Pool(patches), digest, r)
  {
    var refused := AdmitAll(base, patches);
    if refused.Some? {
      return Failure(refused.value);
    }
    var cs := CollectContributions(patches);
    var ledger, done, conflictKeys := ResolveGroups(patches, cs, digest);
    ghost var expected := DistinctProposals(patches) && Injective(digest);
    if expected {
      PoolIsWellFormed(base, patches);
    }
    r := Conclude(base, digest, ledger, Pool(patches), done, conflictKeys, expected);
  }
}
