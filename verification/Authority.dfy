/** Resolving the authority for one handoff: a precise grant, a confirmation bound to it, or the reasons against. */
module Authority {
  import opened Ordering
  import opened PathCoverage

  datatype Channel = Desktop | Host | Mcp | Cli | Runtime

  datatype Actor = UserActor | AgentActor | SystemActor | HookActor | CliActor

  datatype Provenance = Provenance(actor: Actor, channel: Channel, directUser: bool)

  datatype Endpoint = Endpoint(host: string, endpointId: Option<string>)

  datatype ActionCategory = Read | WriteFiles | Execute | Publish | Delete

  datatype GrantStatus = Active | SupersededGrant | Expired

  /** An instant as parsed; a text that does not parse has none. */
  type Instant = Option<int>

  datatype Grant = Grant(
    id: string, projectId: string, taskId: string, source: Endpoint, target: Endpoint,
    deliverableIds: seq<string>, pathScope: seq<string>, actionCategories: seq<ActionCategory>,
    deadline: Option<Instant>, confirmedBy: Option<Provenance>, contractVersion: int,
    status: GrantStatus, supersededBy: Option<string>)

  datatype Confirmation = Confirmation(
    handoffRef: string, projectId: string, taskId: string, source: Endpoint, target: Endpoint,
    deliverableIds: seq<string>, requestedPaths: seq<string>, actionCategories: seq<ActionCategory>,
    confirmedBy: Option<Provenance>)

  datatype Request = Request(
    projectId: string, taskId: string, handoffRef: string, currentContractVersion: int, grants: seq<Grant>,
    source: Endpoint, target: Endpoint, deliverableIds: seq<string>, requestedPaths: seq<string>,
    actionCategories: seq<ActionCategory>, now: Instant, confirmation: Option<Confirmation>)

  /** What the reason texts say. */
  datatype Reason =
    | TooVague(id: string, noDeliverables: bool, noPaths: bool, noActions: bool)
    | VersionDrift(id: string, granted: int, current: int)
    | ExtraDeliverables(id: string, deliverables: seq<string>)
    | UncoveredPaths(id: string, paths: seq<string>)
    | ExtraActions(id: string, actions: seq<ActionCategory>)
    | NotActive(id: string, status: GrantStatus)
    | WasSuperseded(id: string, successor: string)
    | DeadlinePassed(id: string)
    | NothingCovers

  datatype Decision =
    | AuthorizedByGrant(id: string)
    | AuthorizedByUser
    | NeedsUserConfirmation(reasons: seq<Reason>)
    | NoAuthority(reasons: seq<Reason>)

  // ----- Matching -----

  /** Re-derived here, whatever schema the value passed: a peer channel is never a user. */
  predicate IsDirectUser(p: Option<Provenance>) {
    p.Some? && p.value.directUser && (p.value.channel == Desktop || p.value.channel == Cli)
        && p.value.actor == UserActor
  }

  predicate EndpointMatches(requested: Endpoint, granted: Endpoint) {
    requested.host == granted.host && (granted.endpointId.Some? ==> requested.endpointId == granted.endpointId)
  }

  predicate SameIdentity(r: Request, g: Grant) {
    && g.projectId == r.projectId && g.taskId == r.taskId
    && EndpointMatches(r.source, g.source) && EndpointMatches(r.target, g.target)
  }

  predicate IsAlive(r: Request, g: Grant) {
    && g.status == Active && g.supersededBy.None?
    && (g.deadline.Some? ==> g.deadline.value.Some? && r.now.Some? && r.now.value < g.deadline.value.value)
  }

  predicate IsPrecise(g: Grant) {
    |g.deliverableIds| > 0 && |g.pathScope| > 0 && |g.actionCategories| > 0
  }

  predicate AnyCovers(scope: seq<string>, path: string) {
    exists i :: 0 <= i < |scope| && PathCoveredByGrant(path, scope[i])
  }

  /** The scope of a request: its deliverables, paths and actions. */
  predicate ScopeCovered(r: Request, deliverables: seq<string>, scope: seq<string>, actions: seq<ActionCategory>) {
    && (forall i :: 0 <= i < |r.deliverableIds| ==> r.deliverableIds[i] in deliverables)
    && (forall i :: 0 <= i < |r.requestedPaths| ==> AnyCovers(scope, r.requestedPaths[i]))
    && (forall i :: 0 <= i < |r.actionCategories| ==> r.actionCategories[i] in actions)
  }

  /** Evidence: confirmed by a direct user and about this very project, task and pair of endpoints. */
  predicate IsEvidence(r: Request, g: Grant) {
    IsDirectUser(g.confirmedBy) && SameIdentity(r, g)
  }

  predicate FullyMatches(r: Request, g: Grant) {
    && IsEvidence(r, g) && IsAlive(r, g) && IsPrecise(g)
    && g.contractVersion == r.currentContractVersion
    && ScopeCovered(r, g.deliverableIds, g.pathScope, g.actionCategories)
  }

  predicate ConfirmationMatches(r: Request, c: Confirmation) {
    && c.handoffRef == r.handoffRef && c.projectId == r.projectId && c.taskId == r.taskId
    && EndpointMatches(r.source, c.source) && EndpointMatches(r.target, c.target)
    && ScopeCovered(r, c.deliverableIds, c.requestedPaths, c.actionCategories)
  }

  predicate Released(r: Request) {
    r.confirmation.Some? && IsDirectUser(r.confirmation.value.confirmedBy)
        && ConfirmationMatches(r, r.confirmation.value)
  }

  // ----- Reasons -----

  method NotIn<T(==)>(wanted: seq<T>, have: seq<T>) returns (extra: seq<T>)
    ensures extra == [] <==> forall i :: 0 <= i < |wanted| ==> wanted[i] in have
    ensures forall x :: x in extra <==> x in wanted && x !in have
  {
    extra := [];
    for i := 0 to |wanted|
      invariant extra == [] <==> forall j :: 0 <= j < i ==> wanted[j] in have
      invariant forall x :: x in extra <==> x in wanted[..i] && x !in have
    {
      assert wanted[..i + 1] == wanted[..i] + [wanted[i]];
      if wanted[i] !in have {
        extra := extra + [wanted[i]];
      }
    }
    assert wanted[..|wanted|] == wanted;
  }

  method NotCovered(paths: seq<string>, scope: seq<string>) returns (uncovered: seq<string>)
    ensures uncovered == [] <==> forall i :: 0 <= i < |paths| ==> AnyCovers(scope, paths[i])
    ensures forall p :: p in uncovered <==> p in paths && !AnyCovers(scope, p)
  {
    uncovered := [];
    for i := 0 to |paths|
      invariant uncovered == [] <==> forall j :: 0 <= j < i ==> AnyCovers(scope, paths[j])
      invariant forall p :: p in uncovered <==> p in paths[..i] && !AnyCovers(scope, p)
    {
      assert paths[..i + 1] == paths[..i] + [paths[i]];
      if !AnyCovers(scope, paths[i]) {
        uncovered := uncovered + [paths[i]];
      }
    }
    assert paths[..|paths|] == paths;
  }

  /** The reasons a live grant of evidence does not authorize; a grant that does authorize has none. */
  method OverreachReasons(r: Request, g: Grant) returns (reasons: seq<Reason>)
    ensures reasons == [] <==>
              && IsPrecise(g) && g.contractVersion == r.currentContractVersion
              && ScopeCovered(r, g.deliverableIds, g.pathScope, g.actionCategories)
    ensures !IsPrecise(g) ==>
        reasons == [TooVague(g.id, |g.deliverableIds| == 0, |g.pathScope| == 0, |g.actionCategories| == 0)]
    ensures forall x :: x in reasons ==> !x.NothingCovers? && x.id == g.id
    // Of a grant that is not vague: what drifted, and exactly what of the request it leaves out.
    ensures IsPrecise(g) ==>
              forall x :: x in reasons ==>
                || (x.VersionDrift? && x.granted == g.contractVersion != r.currentContractVersion == x.current)
                || (x.ExtraDeliverables? && x.deliverables != [] &&
                    forall d :: d in x.deliverables <==> d in r.deliverableIds && d !in g.deliverableIds)
                || (x.UncoveredPaths? && x.paths != [] &&
                    forall p :: p in x.paths <==> p in r.requestedPaths && !AnyCovers(g.pathScope, p))
                || (x.ExtraActions? && x.actions != [] &&
                    forall a :: a in x.actions <==> a in r.actionCategories && a !in g.actionCategories)
  {
    if !IsPrecise(g) {
      return [TooVague(g.id, |g.deliverableIds| == 0, |g.pathScope| == 0, |g.actionCategories| == 0)];
    }
    reasons := [];
    if g.contractVersion != r.currentContractVersion {
      reasons := reasons + [VersionDrift(g.id, g.contractVersion, r.currentContractVersion)];
    }
    var deliverables := NotIn(r.deliverableIds, g.deliverableIds);
    if |deliverables| > 0 {
      reasons := reasons + [ExtraDeliverables(g.id, deliverables)];
    }
    var paths := NotCovered(r.requestedPaths, g.pathScope);
    if |paths| > 0 {
      reasons := reasons + [UncoveredPaths(g.id, paths)];
    }
    var actions := NotIn(r.actionCategories, g.actionCategories);
    if |actions| > 0 {
      reasons := reasons + [ExtraActions(g.id, actions)];
    }
  }

  function DeadReason(g: Grant): Reason
    requires g.status != Active || g.supersededBy.Some? || g.deadline.Some?
  {
    if g.status != Active then NotActive(g.id, g.status)
    else if g.supersededBy.Some? then WasSuperseded(g.id, g.supersededBy.value)
    else DeadlinePassed(g.id)
  }

  // ----- The decision -----

  ghost predicate SomeMatches(r: Request, n: nat)
    requires n <= |r.grants|
  {
    exists i :: 0 <= i < n && FullyMatches(r, r.grants[i])
  }

  ghost predicate SomeAliveEvidence(r: Request, n: nat)
    requires n <= |r.grants|
  {
    exists i :: 0 <= i < n && IsEvidence(r, r.grants[i]) && IsAlive(r, r.grants[i])
  }

  ghost predicate NamesEvidence(r: Request, id: string) {
    exists i :: 0 <= i < |r.grants| && IsEvidence(r, r.grants[i]) && r.grants[i].id == id
  }

  /** The reason is that of a grant of evidence that is not active, was superseded, or whose deadline is not ahead. */
  ghost predicate ExplainsADeath(r: Request, x: Reason) {
    exists g ::
      && g in r.grants && IsEvidence(r, g)
      && if g.status != Active then x == NotActive(g.id, g.status)
         else if g.supersededBy.Some? then x == WasSuperseded(g.id, g.supersededBy.value)
         else
           g.deadline.Some? && x == DeadlinePassed(g.id)
           && (g.deadline.value.None? || r.now.None? || r.now.value >= g.deadline.value.value)
  }

  lemma DeadReasonExplains(r: Request, g: Grant)
    requires g in r.grants && IsEvidence(r, g) && !IsAlive(r, g)
    ensures ExplainsADeath(r, DeadReason(g))
  {
  }

  /**
   * Authorized exactly when some grant matches in full or the bound confirmation releases the handoff;
   * otherwise the user is asked exactly when there is live evidence; a refusal always has a reason.
   */
  method ResolveCollaborationAuthority(r: Request) returns (d: Decision)
    ensures d.AuthorizedByGrant? <==> SomeMatches(r, |r.grants|)
    ensures d.AuthorizedByGrant? ==>
              exists i :: 0 <= i < |r.grants| && FullyMatches(r, r.grants[i]) && r.grants[i].id == d.id &&
                forall j :: 0 <= j < i ==> !FullyMatches(r, r.grants[j])
    ensures d.AuthorizedByUser? <==> !SomeMatches(r, |r.grants|) && Released(r)
    ensures d.NeedsUserConfirmation? <==>
        !SomeMatches(r, |r.grants|) && !Released(r) && SomeAliveEvidence(r, |r.grants|)
    ensures d.NeedsUserConfirmation? || d.NoAuthority? ==> |d.reasons| > 0
    // A reason names direct-user evidence about this very handoff, or nothing at all.
    ensures d.NeedsUserConfirmation? || d.NoAuthority? ==>
              forall x :: x in d.reasons ==> x.NothingCovers? || NamesEvidence(r, x.id)
    // A refusal over evidence says how each grant died, and nothing else.
    ensures d.NoAuthority? ==> d.reasons == [NothingCovers] || forall x :: x in d.reasons ==> ExplainsADeath(r, x)
    ensures d.NoAuthority? ==> (d.reasons == [NothingCovers] <==> forall g :: g in r.grants ==> !IsEvidence(r, g))
  {
    for i := 0 to |r.grants|
      invariant !SomeMatches(r, i)
    {
      if FullyMatches(r, r.grants[i]) {
        return AuthorizedByGrant(r.grants[i].id);
      }
    }
    if Released(r) {
      return AuthorizedByUser;
    }
    var overreach, dead: seq<Reason> := [], [];
    for i := 0 to |r.grants|
      invariant overreach != [] <==> SomeAliveEvidence(r, i)
      invariant forall x :: x in overreach || x in dead ==> !x.NothingCovers? && NamesEvidence(r, x.id)
      invariant forall x :: x in dead ==> ExplainsADeath(r, x)
      invariant overreach == [] && dead == [] <==> forall j :: 0 <= j < i ==> !IsEvidence(r, r.grants[j])
    {
      var g := r.grants[i];
      if IsEvidence(r, g) {
        assert NamesEvidence(r, g.id);
        if !IsAlive(r, g) {
          DeadReasonExplains(r, g);
          dead := dead + [DeadReason(g)];
        } else {
          assert !FullyMatches(r, g);
          var reasons := OverreachReasons(r, g);
          overreach := overreach + reasons;
        }
      }
    }
    if |overreach| > 0 {
      d := NeedsUserConfirmation(overreach);
    } else if |dead| > 0 {
      assert dead[0] in dead;
      d := NoAuthority(dead);
    } else {
      d := NoAuthority([NothingCovers]);
    }
  }

  // ----- What authorizing takes, condition by condition -----

  /** Evidence is what a direct user confirmed about this project, task and pair of endpoints; it lives or not. */
  lemma LivingEvidenceExactlyWhen(r: Request, g: Grant)
    ensures IsEvidence(r, g) <==>
            && g.confirmedBy.Some? && g.confirmedBy.value.directUser && g.confirmedBy.value.actor == UserActor
            && g.confirmedBy.value.channel in {Desktop, Cli}
            && g.projectId == r.projectId && g.taskId == r.taskId
            && g.source.host == r.source.host && g.source.endpointId in {None, r.source.endpointId}
            && g.target.host == r.target.host && g.target.endpointId in {None, r.target.endpointId}
    ensures IsAlive(r, g) <==>
            && g.status == Active && g.supersededBy == None
            && (g.deadline == None
                || (g.deadline.value.Some? && r.now.Some? && r.now.value < g.deadline.value.value))
  {
  }

  /**
   * A grant authorizes exactly when it is living evidence, vague about nothing, given for the current contract
   * version, and every deliverable, path and action of the request is within it.
   */
  lemma GrantAuthorizesExactlyWhen(r: Request, g: Grant)
    ensures FullyMatches(r, g) <==>
            && IsEvidence(r, g) && IsAlive(r, g)
            && g.deliverableIds != [] && g.pathScope != [] && g.actionCategories != []
            && g.contractVersion == r.currentContractVersion
            && (forall d :: d in r.deliverableIds ==> d in g.deliverableIds)
            && (forall p :: p in r.requestedPaths ==> exists s :: s in g.pathScope && PathCoveredByGrant(p, s))
            && (forall a :: a in r.actionCategories ==> a in g.actionCategories)
  {
    WithinExactlyWhen(r, g.deliverableIds, g.pathScope, g.actionCategories);
  }

  /** A confirmation releases exactly the held handoff a direct user gave it for, or a part of it. */
  lemma ConfirmationReleasesExactlyWhen(r: Request)
    ensures Released(r) <==>
            r.confirmation.Some? &&
            var c := r.confirmation.value;
            && c.confirmedBy.Some? && c.confirmedBy.value.directUser && c.confirmedBy.value.actor == UserActor
            && c.confirmedBy.value.channel in {Desktop, Cli}
            && c.handoffRef == r.handoffRef && c.projectId == r.projectId && c.taskId == r.taskId
            && c.source.host == r.source.host && c.source.endpointId in {None, r.source.endpointId}
            && c.target.host == r.target.host && c.target.endpointId in {None, r.target.endpointId}
            && (forall d :: d in r.deliverableIds ==> d in c.deliverableIds)
            && (forall p :: p in r.requestedPaths ==> exists s :: s in c.requestedPaths && PathCoveredByGrant(p, s))
            && (forall a :: a in r.actionCategories ==> a in c.actionCategories)
  {
    if r.confirmation.Some? {
      var c := r.confirmation.value;
      WithinExactlyWhen(r, c.deliverableIds, c.requestedPaths, c.actionCategories);
    }
  }

  lemma WithinExactlyWhen(r: Request, deliverables: seq<string>, scope: seq<string>, actions: seq<ActionCategory>)
    ensures ScopeCovered(r, deliverables, scope, actions) <==>
            && (forall d :: d in r.deliverableIds ==> d in deliverables)
            && (forall p :: p in r.requestedPaths ==> exists s :: s in scope && PathCoveredByGrant(p, s))
            && (forall a :: a in r.actionCategories ==> a in actions)
  {
    if ScopeCovered(r, deliverables, scope, actions) {
      forall p | p in r.requestedPaths
        ensures exists s :: s in scope && PathCoveredByGrant(p, s)
      {
        var i :| 0 <= i < |r.requestedPaths| && r.requestedPaths[i] == p;
        var k :| 0 <= k < |scope| && PathCoveredByGrant(p, scope[k]);
        assert scope[k] in scope;
      }
    } else {
      if i :| 0 <= i < |r.deliverableIds| && r.deliverableIds[i] !in deliverables {
        assert r.deliverableIds[i] in r.deliverableIds;
      } else if i :| 0 <= i < |r.actionCategories| && r.actionCategories[i] !in actions {
        assert r.actionCategories[i] in r.actionCategories;
      } else if i :| 0 <= i < |r.requestedPaths| && !AnyCovers(scope, r.requestedPaths[i]) {
        assert r.requestedPaths[i] in r.requestedPaths;
      }
    }
  }

  // ----- Asking for less -----

  /** The same handoff with fewer deliverables and actions, and only paths some requested path covers. */
  predicate Narrower(less: Request, r: Request) {
    && less == r.(deliverableIds := less.deliverableIds, requestedPaths := less.requestedPaths,
        actionCategories := less.actionCategories)
    && (forall i :: 0 <= i < |less.deliverableIds| ==> less.deliverableIds[i] in r.deliverableIds)
    && (forall i :: 0 <= i < |less.requestedPaths| ==> AnyCovers(r.requestedPaths, less.requestedPaths[i]))
    && (forall i :: 0 <= i < |less.actionCategories| ==> less.actionCategories[i] in r.actionCategories)
  }

  lemma NarrowerScopeIsCovered(less: Request, r: Request, deliverables: seq<string>, scope: seq<string>,
      actions: seq<ActionCategory>)
    requires Narrower(less, r) && ScopeCovered(r, deliverables, scope, actions)
    ensures ScopeCovered(less, deliverables, scope, actions)
  {
    forall i | 0 <= i < |less.requestedPaths|
      ensures AnyCovers(scope, less.requestedPaths[i])
    {
      CoveredThrough(scope, r.requestedPaths, less.requestedPaths[i]);
    }
    MembersThrough(less.deliverableIds, r.deliverableIds, deliverables);
    MembersThrough(less.actionCategories, r.actionCategories, actions);
  }

  lemma CoveredThrough(scope: seq<string>, requested: seq<string>, path: string)
    requires AnyCovers(requested, path)
    requires forall j :: 0 <= j < |requested| ==> AnyCovers(scope, requested[j])
    ensures AnyCovers(scope, path)
  {
    var j :| 0 <= j < |requested| && PathCoveredByGrant(path, requested[j]);
    assert AnyCovers(scope, requested[j]);
    var k :| 0 <= k < |scope| && PathCoveredByGrant(requested[j], scope[k]);
    CoverageIsTransitive(path, requested[j], scope[k]);
  }

  lemma MembersThrough<T>(a: seq<T>, b: seq<T>, c: seq<T>)
    requires forall i :: 0 <= i < |a| ==> a[i] in b
    requires forall j :: 0 <= j < |b| ==> b[j] in c
    ensures forall i :: 0 <= i < |a| ==> a[i] in c
  {
  }

  /** Asking for less of an authorized handoff is authorized, by the same grant or the same confirmation. */
  lemma NarrowingIsSafe(less: Request, r: Request)
    requires Narrower(less, r)
    ensures forall g :: FullyMatches(r, g) ==> FullyMatches(less, g)
    ensures SomeMatches(r, |r.grants|) ==> SomeMatches(less, |less.grants|)
    ensures Released(r) ==> Released(less)
  {
    forall g | FullyMatches(r, g)
      ensures FullyMatches(less, g)
    {
      NarrowerScopeIsCovered(less, r, g.deliverableIds, g.pathScope, g.actionCategories);
    }
    if Released(r) {
      var c := r.confirmation.value;
      NarrowerScopeIsCovered(less, r, c.deliverableIds, c.requestedPaths, c.actionCategories);
    }
  }

  /**
   * Nothing a peer channel confirmed ever counts: taking such a grant away, wherever it stands, changes neither who is
   * authorized nor who is asked.
   */
  lemma PeerEvidenceIsInvisible(r: Request, at: nat)
    requires at < |r.grants| && r.grants[at].confirmedBy.Some?
    requires r.grants[at].confirmedBy.value.channel == Host || r.grants[at].confirmedBy.value.channel == Mcp
    ensures var less := r.(grants := r.grants[..at] + r.grants[at + 1..]);
            && (SomeMatches(less, |less.grants|) <==> SomeMatches(r, |r.grants|))
            && (SomeAliveEvidence(less, |less.grants|) <==> SomeAliveEvidence(r, |r.grants|))
            && (Released(less) <==> Released(r))
  {
    var less := r.(grants := r.grants[..at] + r.grants[at + 1..]);
    assert !IsEvidence(r, r.grants[at]);
    SameMatches(r, less, at);
    SameLiveEvidence(r, less, at);
  }

  /** Which grant of the longer list the `i`-th one of the shorter is. */
  function Skipping(at: nat, i: nat): nat {
    if i < at then i else i + 1
  }

  lemma SameMatches(r: Request, less: Request, at: nat)
    requires at < |r.grants| && less == r.(grants := r.grants[..at] + r.grants[at + 1..])
    requires !IsEvidence(r, r.grants[at])
    ensures SomeMatches(less, |less.grants|) <==> SomeMatches(r, |r.grants|)
  {
    forall i | 0 <= i < |less.grants|
      ensures less.grants[i] == r.grants[Skipping(at, i)]
      ensures FullyMatches(less, less.grants[i]) == FullyMatches(r, r.grants[Skipping(at, i)])
    {
    }
    if i :| 0 <= i < |r.grants| && FullyMatches(r, r.grants[i]) {
      assert Skipping(at, if i < at then i else i - 1) == i;
    }
  }

  lemma SameLiveEvidence(r: Request, less: Request, at: nat)
    requires at < |r.grants| && less == r.(grants := r.grants[..at] + r.grants[at + 1..])
    requires !IsEvidence(r, r.grants[at])
    ensures SomeAliveEvidence(less, |less.grants|) <==> SomeAliveEvidence(r, |r.grants|)
  {
    forall i | 0 <= i < |less.grants|
      ensures less.grants[i] == r.grants[Skipping(at, i)]
      ensures IsEvidence(less, less.grants[i]) == IsEvidence(r, r.grants[Skipping(at, i)])
      ensures IsAlive(less, less.grants[i]) == IsAlive(r, r.grants[Skipping(at, i)])
    {
    }
    if i :| 0 <= i < |r.grants| && IsEvidence(r, r.grants[i]) && IsAlive(r, r.grants[i]) {
      assert Skipping(at, if i < at then i else i - 1) == i;
    }
  }
}
