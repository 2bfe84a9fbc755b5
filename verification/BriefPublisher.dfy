/**
 * Two-phase publication of the Brief file. Every publisher, crash, revision change and outside edit is an
 * event; a run is any sequence of events. A content stands for its hash, which is taken to be injective.
 */
module BriefPublisher {
  import opened Ordering

  type Content = string

  /** `Unusable`: a link, a directory, or a file over the size limit. */
  datatype File = Absent | Regular(content: Content) | Unusable

  datatype Row = Row(
    ready: bool, sourceRevision: nat, contentHash: Option<Content>, pendingHash: Option<Content>, version: nat)

  datatype Plan = Plan(body: Content, revision: nat, existing: Option<Content>)

  /** `raced`: the file was edited from outside after this publisher compared it. */
  datatype Phase = Idle | Prepared(plan: Plan) | Checked(plan: Plan, raced: bool) | Installed(plan: Plan)

  /**
   * `recorded` and `displaced` are history: every content the row has named, as published or as pending, and the
   * publishers since whose first transaction another publication was committed, or prepared over another file.
   */
  datatype State = State(
    file: File, row: Row, head: nat, holder: Option<nat>, phases: map<nat, Phase>, recorded: set<Content>,
    displaced: set<nat>)

  datatype Event =
    | Prepare(publisher: nat, repairMissing: bool)
    | Begin(publisher: nat)
    | Install(publisher: nat)
    | Commit(publisher: nat)
    | Stop(publisher: nat)
    | Advance
    | Edit(file: File)

  datatype Fault = RelationMismatch | CorruptState | StaleRevision | LinkExists | Injected

  function PhaseOf(s: State, p: nat): Phase {
    if p in s.phases then s.phases[p] else Idle
  }

  function HashOf(file: File): Option<Content> {
    if file.Regular? then Some(file.content) else None
  }

  function Named(row: Row): set<Option<Content>> {
    {row.contentHash, row.pendingHash}
  }

  function Contents(row: Row): set<Content> {
    (if row.contentHash.Some? then {row.contentHash.value} else {}) +
    (if row.pendingHash.Some? then {row.pendingHash.value} else {})
  }

  /** The first transaction: what it decides from the row and the file. */
  function Planned(file: File, row: Row, head: nat, doc: nat -> Content, repairMissing: bool): Result<Plan, Fault> {
    if file.Absent? && !repairMissing then Failure(RelationMismatch)
    else if file.Unusable? then Failure(CorruptState)
    else if file.Regular? && file.content != doc(head) && Some(file.content) !in Named(row)
    then Failure(RelationMismatch)
    else Success(Plan(doc(head), head, HashOf(file)))
  }

  function PreparedRow(row: Row, plan: Plan): Row {
    Row(false, row.sourceRevision, if plan.existing.Some? then plan.existing else row.contentHash, Some(plan.body),
        row.version + 1)
  }

  function ReadyRow(row: Row, plan: Plan): Row {
    Row(true, plan.revision, Some(plan.body), None, row.version + 1)
  }

  predicate FileIs(file: File, existing: Option<Content>) {
    if existing.None? then file.Absent? else file == Regular(existing.value)
  }

  function Recorded(s: State, row: Row): State {
    s.(row := row, recorded := s.recorded + Contents(row))
  }

  function Ended(s: State, p: nat): State {
    s.(holder := if s.holder == Some(p) then None else s.holder, phases := s.phases[p := Idle])
  }

  /** Whom a publication prepared over `found` displaces: those who found another file. */
  function DisplacedBy(s: State, found: Option<Content>): set<nat> {
    s.displaced + set q | q in s.phases && !s.phases[q].Idle? && found.Some? && s.phases[q].plan.existing != found
  }

  /** Events that are not enabled change nothing. */
  function Step(s: State, e: Event, doc: nat -> Content): State {
    match e
    case Prepare(p, repairMissing) =>
      var planned := Planned(s.file, s.row, s.head, doc, repairMissing);
      if s.holder.Some? || !PhaseOf(s, p).Idle? || planned.Failure? then s
      else
        Recorded(s, PreparedRow(s.row, planned.value))
          .(phases := s.phases[p := Prepared(planned.value)], displaced := DisplacedBy(s, HashOf(s.file)) - {p})
    case Begin(p) =>
      if s.holder.Some? || !PhaseOf(s, p).Prepared? then s
      else
        var plan := PhaseOf(s, p).plan;
        if plan.revision != s.head || !FileIs(s.file, plan.existing) then Ended(s, p)
        else s.(holder := Some(p), phases := s.phases[p := Checked(plan, false)])
    case Install(p) =>
      if !PhaseOf(s, p).Checked? then s
      else
        var plan := PhaseOf(s, p).plan;
        if plan.existing.None? && !s.file.Absent? then Ended(s, p)
        else s.(file := Regular(plan.body), phases := s.phases[p := Installed(plan)])
    case Commit(p) =>
      if !PhaseOf(s, p).Installed? then s
      else Recorded(Ended(s, p), ReadyRow(s.row, PhaseOf(s, p).plan)).(displaced := s.displaced + s.phases.Keys)
    case Stop(p) => Ended(s, p)
    case Advance => if s.holder.Some? then s else s.(head := s.head + 1)
    case Edit(file) => s.(file := file, phases := map p | p in s.phases :: Raced(s.phases[p]))
  }

  function Raced(phase: Phase): Phase {
    if phase.Checked? then Checked(phase.plan, true) else phase
  }

  function Run(s: State, events: seq<Event>, doc: nat -> Content): State {
    if events == [] then s else Step(Run(s, events[..|events| - 1], doc), events[|events| - 1], doc)
  }

  predicate Quiet(events: seq<Event>) {
    forall i :: 0 <= i < |events| ==> !events[i].Edit?
  }

  // ----- What every run keeps -----

  predicate Holding(phase: Phase) {
    phase.Checked? || phase.Installed?
  }

  ghost predicate PhaseSound(s: State, p: nat, phase: Phase, doc: nat -> Content) {
    && (Holding(phase) <==> s.holder == Some(p))
    && (!phase.Idle? ==>
          && phase.plan.body == doc(phase.plan.revision)
          && phase.plan.revision <= s.head
          && (phase.plan.existing.Some? ==> phase.plan.existing.value in s.recorded))
    && (Holding(phase) ==> phase.plan.revision == s.head)
    && (phase.Checked? && !phase.raced ==> FileIs(s.file, phase.plan.existing))
    && (!phase.Idle? && phase.plan.revision == s.head && phase.plan.existing !in [None, Some(doc(s.head))] ==>
          if p in s.displaced then phase.plan.existing !in Named(s.row) else s.row.contentHash == phase.plan.existing)
  }

  ghost predicate Sound(s: State, doc: nat -> Content) {
    && (forall p :: PhaseSound(s, p, PhaseOf(s, p), doc))
    && Contents(s.row) <= s.recorded
    && (s.row.ready ==> s.row.contentHash == Some(doc(s.row.sourceRevision)) && s.row.pendingHash.None?)
    && s.row.sourceRevision <= s.head
  }

  /** A project just created: its first document is published. */
  function Created(doc: nat -> Content): State {
    State(Regular(doc(1)), Row(true, 1, Some(doc(1)), None, 1), 1, None, map[], {doc(1)}, {})
  }

  lemma CreatedIsSettled(doc: nat -> Content)
    ensures Sound(Created(doc), doc) && Settled(Created(doc), doc)
  {
  }

  lemma StepKeepsSound(s: State, e: Event, doc: nat -> Content)
    requires Sound(s, doc)
    ensures Sound(Step(s, e, doc), doc)
  {
    var t := Step(s, e, doc);
    forall p
      ensures PhaseSound(t, p, PhaseOf(t, p), doc)
    {
      assert PhaseSound(s, p, PhaseOf(s, p), doc);
      if !e.Advance? && !e.Edit? {
        assert PhaseSound(s, e.publisher, PhaseOf(s, e.publisher), doc);
      }
    }
    if e.Commit? {
      assert PhaseSound(s, e.publisher, PhaseOf(s, e.publisher), doc);
    }
  }

  // ----- Without outside edits -----

  /** A publisher that can still get past the revision check finds its document already recorded. */
  ghost predicate PhaseSettled(s: State, phase: Phase, doc: nat -> Content) {
    && (!phase.Idle? && phase.plan.revision == s.head ==>
          && Some(doc(s.head)) in Named(s.row)
          && (s.row.ready ==> s.row.sourceRevision == s.head))
    && (phase.Installed? ==> s.file == Regular(phase.plan.body))
    && (phase.Checked? ==> !phase.raced)
  }

  ghost predicate Settled(s: State, doc: nat -> Content) {
    && (forall p :: PhaseSettled(s, PhaseOf(s, p), doc))
    && !s.file.Unusable?
    && (s.file.Regular? ==> Some(s.file.content) in Named(s.row))
    && (s.row.ready ==> s.file.Absent? || s.file == Regular(doc(s.row.sourceRevision)))
  }

  lemma StepKeepsSettled(s: State, e: Event, doc: nat -> Content)
    requires Sound(s, doc) && Settled(s, doc) && !e.Edit?
    ensures Settled(Step(s, e, doc), doc)
  {
    var t := Step(s, e, doc);
    StepKeepsSound(s, e, doc);
    if !e.Advance? {
      assert PhaseSound(s, e.publisher, PhaseOf(s, e.publisher), doc);
      assert PhaseSettled(s, PhaseOf(s, e.publisher), doc);
    }
    forall p
      ensures PhaseSettled(t, PhaseOf(t, p), doc)
    {
      assert PhaseSound(s, p, PhaseOf(s, p), doc);
      assert PhaseSettled(s, PhaseOf(s, p), doc);
    }
  }

  lemma {:induction false} RunKeepsSound(s: State, events: seq<Event>, doc: nat -> Content)
    requires Sound(s, doc)
    ensures Sound(Run(s, events, doc), doc)
  {
    if events != [] {
      RunKeepsSound(s, events[..|events| - 1], doc);
      StepKeepsSound(Run(s, events[..|events| - 1], doc), events[|events| - 1], doc);
    }
  }

  /** Whatever crashes and interleaves, a present file is the recorded content or the pending one. */
  lemma {:induction false} QuietRunKeepsSettled(s: State, events: seq<Event>, doc: nat -> Content)
    requires Sound(s, doc) && Settled(s, doc) && Quiet(events)
    ensures Settled(Run(s, events, doc), doc)
  {
    if events != [] {
      QuietRunKeepsSettled(s, events[..|events| - 1], doc);
      RunKeepsSound(s, events[..|events| - 1], doc);
      StepKeepsSettled(Run(s, events[..|events| - 1], doc), events[|events| - 1], doc);
    }
  }

  lemma {:induction false} QuietRunKeepsFile(s: State, events: seq<Event>, doc: nat -> Content)
    requires !s.file.Absent? && Quiet(events)
    ensures !Run(s, events, doc).file.Absent?
  {
    if events != [] {
      QuietRunKeepsFile(s, events[..|events| - 1], doc);
    }
  }

  /**
   * The first transaction refuses a missing file unless it is asked to repair one, a file that cannot be read, and a
   * file that is neither the document nor recorded; otherwise it plans the document of the current revision over what
   * it found. The row then names what was found, or what it named before, and the document as pending.
   */
  lemma PreparedExactlyWhen(file: File, row: Row, head: nat, doc: nat -> Content, repairMissing: bool)
    ensures var planned := Planned(file, row, head, doc, repairMissing);
            && (planned == Failure(CorruptState) <==> file.Unusable?)
            && (planned == Failure(RelationMismatch) <==>
                || (file.Absent? && !repairMissing)
                || (file.Regular? && file.content != doc(head)
                    && row.contentHash != Some(file.content) && row.pendingHash != Some(file.content)))
            && (planned.Success? || planned in {Failure(CorruptState), Failure(RelationMismatch)})
            && (planned.Success? ==>
                  && planned.value.body == doc(head) && planned.value.revision == head
                  && planned.value.existing == (if file.Regular? then Some(file.content) else None)
                  && var prepared := PreparedRow(row, planned.value);
                     && !prepared.ready && prepared.sourceRevision == row.sourceRevision
                     && prepared.pendingHash == Some(doc(head)) && prepared.version == row.version + 1
                     && prepared.contentHash == if file.Regular? then Some(file.content) else row.contentHash)
  {
  }

  /**
   * The second transaction goes on exactly when the revision and the file are still those of the first, and installs
   * exactly when nothing has appeared where there was nothing.
   */
  lemma InstalledExactlyWhen(s: State, p: nat, doc: nat -> Content)
    ensures s.holder.None? && PhaseOf(s, p).Prepared? ==>
              var plan := PhaseOf(s, p).plan;
              && (PhaseOf(Step(s, Begin(p), doc), p).Checked? <==>
                  && plan.revision == s.head
                  && s.file == (if plan.existing.Some? then Regular(plan.existing.value) else Absent))
              && Step(s, Begin(p), doc).row == s.row && Step(s, Begin(p), doc).file == s.file
    ensures PhaseOf(s, p).Checked? ==>
              var plan, t := PhaseOf(s, p).plan, Step(s, Install(p), doc);
              && (PhaseOf(t, p).Installed? <==> plan.existing.Some? || s.file == Absent)
              && t.file == (if PhaseOf(t, p).Installed? then Regular(plan.body) else s.file) && t.row == s.row
    ensures PhaseOf(s, p).Installed? ==>
              var plan, t := PhaseOf(s, p).plan, Step(s, Commit(p), doc);
              && t.row == Row(true, plan.revision, Some(plan.body), None, s.row.version + 1)
              && PhaseOf(t, p).Idle? && t.file == s.file
  {
  }

  /** A publication that was let in once is let in again, with the same flag, after any run without outside edits. */
  lemma RetryIsNeverRefused(s: State, repairMissing: bool, events: seq<Event>, doc: nat -> Content)
    requires Sound(s, doc) && Settled(s, doc) && Quiet(events)
    requires Planned(s.file, s.row, s.head, doc, repairMissing).Success?
    ensures var t := Run(s, events, doc); Planned(t.file, t.row, t.head, doc, repairMissing).Success?
  {
    QuietRunKeepsSettled(s, events, doc);
    if !repairMissing {
      QuietRunKeepsFile(s, events, doc);
    }
  }

  /** Left alone, such a retry publishes the document of the current revision. */
  lemma SoloRetryCompletes(s: State, p: nat, repairMissing: bool, doc: nat -> Content)
    requires Sound(s, doc) && Settled(s, doc) && s.holder.None? && PhaseOf(s, p).Idle?
    requires s.file.Absent? ==> repairMissing
    ensures var t := Run(s, [Prepare(p, repairMissing), Begin(p), Install(p), Commit(p)], doc);
            && t.file == Regular(doc(s.head)) && t.row.ready && t.row.sourceRevision == s.head
            && t.row.contentHash == Some(doc(s.head)) && t.row.pendingHash.None? && t.holder.None?
  {
    FourSteps(s, Prepare(p, repairMissing), Begin(p), Install(p), Commit(p), doc);
    var one := Step(s, Prepare(p, repairMissing), doc);
    assert PhaseOf(one, p) == Prepared(Plan(doc(s.head), s.head, HashOf(s.file)));
    var two := Step(one, Begin(p), doc);
    assert PhaseOf(two, p).Checked?;
    var three := Step(two, Install(p), doc);
    assert PhaseOf(three, p).Installed?;
  }

  lemma FourSteps(s: State, a: Event, b: Event, c: Event, d: Event, doc: nat -> Content)
    ensures Run(s, [a, b, c, d], doc) == Step(Step(Step(Step(s, a, doc), b, doc), c, doc), d, doc)
  {
    var t := [a, b, c, d];
    RunStep(s, t, 0, doc);
    RunStep(s, t, 1, doc);
    RunStep(s, t, 2, doc);
    RunStep(s, t, 3, doc);
    assert t[..4] == t && t[..0] == [];
  }

  /** A committed `ready` names the revision whose document the file is. */
  lemma CommittedReadyIsTrue(s: State, p: nat, doc: nat -> Content)
    requires Sound(s, doc) && Settled(s, doc) && PhaseOf(s, p).Installed?
    ensures var t := Step(s, Commit(p), doc);
            t.row.ready && t.row.sourceRevision == s.head && t.file == Regular(doc(t.row.sourceRevision))
  {
    assert PhaseSound(s, p, PhaseOf(s, p), doc);
    assert PhaseSettled(s, PhaseOf(s, p), doc);
  }

  // ----- With outside edits -----

  /**
   * Only an install replaces a file. Unless the file was edited after the last comparison, what it replaces is
   * a content the row named at some time, and it is recorded under neither of the row's present hashes exactly
   * when another publication was committed, or prepared over another file, since this one was prepared.
   */
  lemma UnrecordedFileIsReplacedExactlyWhenDisplaced(s: State, e: Event, doc: nat -> Content)
    requires Sound(s, doc) && !e.Edit? && Step(s, e, doc).file != s.file && !s.file.Absent?
    ensures e.Install? && PhaseOf(s, e.publisher).Checked? && PhaseOf(s, e.publisher).plan.existing.Some?
    ensures PhaseOf(s, e.publisher).raced || (s.file.Regular? && s.file.content in s.recorded)
    ensures PhaseOf(s, e.publisher).raced || (Some(s.file.content) !in Named(s.row) <==> e.publisher in s.displaced)
  {
    assert PhaseSound(s, e.publisher, PhaseOf(s, e.publisher), doc);
  }

  /** `q` publishes while `p` is prepared. */
  function Overtaking(p: nat, q: nat): seq<Event> {
    [Prepare(p, false), Prepare(q, false), Begin(q), Install(q)]
  }

  /** `q` is done, the file `p` found is put back, and `p` compares it. */
  function Restoring(p: nat, q: nat, found: Content): seq<Event> {
    [Commit(q), Edit(Regular(found)), Begin(p)]
  }

  lemma OverlapsAsPrepared(s: State, p: nat, q: nat, doc: nat -> Content)
    requires s.holder.None? && s.file.Regular? && Some(s.file.content) in Named(s.row)
    requires p != q && PhaseOf(s, p).Idle? && PhaseOf(s, q).Idle?
    ensures var t, plan := Run(s, Overtaking(p, q), doc), Plan(doc(s.head), s.head, Some(s.file.content));
            && PhaseOf(t, p) == Prepared(plan) && PhaseOf(t, q) == Installed(plan)
            && t.holder == Some(q) && t.head == s.head
  {
    var xs, plan := Overtaking(p, q), Plan(doc(s.head), s.head, Some(s.file.content));
    FourSteps(s, xs[0], xs[1], xs[2], xs[3], doc);
    var two := Step(Step(s, xs[0], doc), xs[1], doc);
    assert PhaseOf(two, p) == Prepared(plan) && PhaseOf(two, q) == Prepared(plan);
  }

  /** It happens, with no edit after the comparison: a file recorded under neither hash is replaced. */
  lemma UnrecordedFileCanBeReplaced(s: State, p: nat, q: nat, doc: nat -> Content)
    requires s.holder.None? && s.file.Regular? && s.file.content != doc(s.head) && Some(s.file.content) in Named(s.row)
    requires p != q && PhaseOf(s, p).Idle? && PhaseOf(s, q).Idle?
    ensures var t := Run(s, Overtaking(p, q) + Restoring(p, q, s.file.content), doc);
            && PhaseOf(t, p).Checked? && !PhaseOf(t, p).raced
            && t.file == s.file && Some(t.file.content) !in Named(t.row)
            && Step(t, Install(p), doc).file == Regular(doc(s.head))
  {
    var xs, ys := Overtaking(p, q), Restoring(p, q, s.file.content);
    var installed := Run(s, xs, doc);
    OverlapsAsPrepared(s, p, q, doc);
    ThreeSteps(installed, ys[0], ys[1], ys[2], doc);
    var committed := Step(installed, Commit(q), doc);
    assert PhaseOf(committed, p) == PhaseOf(installed, p);
    RunConcat(s, xs, ys, doc);
  }

  lemma ThreeSteps(s: State, a: Event, b: Event, c: Event, doc: nat -> Content)
    ensures Run(s, [a, b, c], doc) == Step(Step(Step(s, a, doc), b, doc), c, doc)
  {
    var t := [a, b, c];
    RunStep(s, t, 0, doc);
    RunStep(s, t, 1, doc);
    RunStep(s, t, 2, doc);
    assert t[..3] == t && t[..0] == [];
  }

  lemma {:induction false} RunConcat(s: State, xs: seq<Event>, ys: seq<Event>, doc: nat -> Content)
    ensures Run(s, xs + ys, doc) == Run(Run(s, xs, doc), ys, doc)
  {
    if ys == [] {
      assert xs + ys == xs;
    } else {
      assert (xs + ys)[..|xs + ys| - 1] == xs + ys[..|ys| - 1];
      RunConcat(s, xs, ys[..|ys| - 1], doc);
    }
  }

  /** In that window the edit is lost, always, when a file was expected. */
  lemma RacedEditIsLost(s: State, p: nat, file: File, doc: nat -> Content)
    requires Sound(s, doc) && PhaseOf(s, p).Checked? && PhaseOf(s, p).plan.existing.Some?
    ensures Step(Step(s, Edit(file), doc), Install(p), doc).file == Regular(doc(s.head))
  {
    assert PhaseSound(s, p, PhaseOf(s, p), doc);
  }

  /** When no file was expected, one that appears in the window is kept and the publication ends. */
  lemma NewlyAppearingFileWins(s: State, p: nat, file: File, doc: nat -> Content)
    requires Sound(s, doc) && PhaseOf(s, p).Checked? && PhaseOf(s, p).plan.existing.None? && !file.Absent?
    ensures var t := Step(Step(s, Edit(file), doc), Install(p), doc);
            t.file == file && t.row == s.row && t.holder.None?
  {
    assert PhaseSound(s, p, PhaseOf(s, p), doc);
  }

  /** So a file the row never named can be lost: the comparison passes, the edit lands, the rename replaces it. */
  lemma CheckThenRenameCanLoseAnEdit(s: State, p: nat, mine: Content, doc: nat -> Content)
    requires Sound(s, doc) && Settled(s, doc) && s.holder.None? && PhaseOf(s, p).Idle? && s.file.Regular?
    requires mine !in s.recorded && mine != doc(s.head)
    ensures var lost := Run(s, [Prepare(p, false), Begin(p), Edit(Regular(mine)), Install(p)], doc);
            lost.file == Regular(doc(s.head)) && mine !in lost.recorded
  {
    FourSteps(s, Prepare(p, false), Begin(p), Edit(Regular(mine)), Install(p), doc);
    var one := Step(s, Prepare(p, false), doc);
    assert PhaseOf(one, p) == Prepared(Plan(doc(s.head), s.head, HashOf(s.file)));
    var two := Step(one, Begin(p), doc);
    assert PhaseOf(two, p).Checked?;
    var three := Step(two, Edit(Regular(mine)), doc);
    assert PhaseOf(three, p).Checked?;
  }

  // ----- The publisher as written -----

  datatype Point = AtPrepared | AtWritten | AtInstalled

  /** One project directory and database, published to by one caller at a time. */
  class KernelBrief {
    var file: File
    var row: Row
    var head: nat

    constructor (file: File, row: Row, head: nat)
      ensures this.file == file && this.row == row && this.head == head
    {
      this.file, this.row, this.head := file, row, head;
    }

    /** As a state of the machine, no publication being under way. */
    ghost function Current(): State
      reads this
    {
      State(file, row, head, None, map[], Contents(row), {})
    }

    /** `inject` stops the publication where the source's test hook can. */
    method Publish(doc: nat -> Content, inject: Option<Point>, repairMissing: bool) returns (r: Result<nat, Fault>)
      modifies this
      ensures head == old(head)
      ensures var t := Run(old(Current()), Trace(inject, repairMissing), doc);
              file == t.file && row == t.row && t.holder.None?
      ensures r.Success? <==> inject.None? && Planned(old(file), old(row), head, doc, repairMissing).Success?
      ensures r.Success? ==> r.value == head && row.ready && row.sourceRevision == head && file == Regular(doc(head))
      ensures Planned(old(file), old(row), head, doc, repairMissing).Failure? ==>
                file == old(file) && row == old(row)
                    && r == Failure(Planned(old(file), old(row), head, doc, repairMissing).error)
    {
      TraceUnfolds(Current(), inject, repairMissing, doc);
      var planned := Planned(file, row, head, doc, repairMissing);
      if planned.Failure? {
        return Failure(planned.error);
      }
      var prepared := planned.value;
      row := PreparedRow(row, prepared);
      if inject == Some(AtPrepared) {
        return Failure(Injected);
      }
      if head != prepared.revision {
        return Failure(StaleRevision);
      }
      if !FileIs(file, prepared.existing) {
        return Failure(RelationMismatch);
      }
      if inject == Some(AtWritten) {
        return Failure(Injected);
      }
      if prepared.existing.None? && !file.Absent? {
        return Failure(LinkExists);
      }
      file := Regular(prepared.body);
      if inject == Some(AtInstalled) {
        return Failure(Injected);
      }
      row := ReadyRow(row, prepared);
      r := Success(prepared.revision);
    }
  }

  function Trace(inject: Option<Point>, repairMissing: bool): seq<Event> {
    match inject
    case None => [Prepare(0, repairMissing), Begin(0), Install(0), Commit(0)]
    case Some(AtPrepared) => [Prepare(0, repairMissing), Stop(0)]
    case Some(AtWritten) => [Prepare(0, repairMissing), Begin(0), Stop(0)]
    case Some(AtInstalled) => [Prepare(0, repairMissing), Begin(0), Install(0), Stop(0)]
  }

  function Traced(s: State, inject: Option<Point>, repairMissing: bool, doc: nat -> Content): State {
    var one := Step(s, Prepare(0, repairMissing), doc);
    var two := Step(one, Begin(0), doc);
    var three := Step(two, Install(0), doc);
    match inject
    case None => Step(three, Commit(0), doc)
    case Some(AtPrepared) => Step(one, Stop(0), doc)
    case Some(AtWritten) => Step(two, Stop(0), doc)
    case Some(AtInstalled) => Step(three, Stop(0), doc)
  }

  lemma TraceUnfolds(s: State, inject: Option<Point>, repairMissing: bool, doc: nat -> Content)
    ensures Run(s, Trace(inject, repairMissing), doc) == Traced(s, inject, repairMissing, doc)
  {
    var t := Trace(inject, repairMissing);
    var n := |t|;
    RunStep(s, t, n - 1, doc);
    RunStep(s, t, n - 2, doc);
    if n > 2 { RunStep(s, t, n - 3, doc); }
    if n > 3 { RunStep(s, t, n - 4, doc); }
    assert t[..n] == t && t[..0] == [];
  }

  lemma RunStep(s: State, t: seq<Event>, i: nat, doc: nat -> Content)
    requires i < |t|
    ensures Run(s, t[..i + 1], doc) == Step(Run(s, t[..i], doc), t[i], doc)
  {
    assert t[..i + 1][..i] == t[..i];
  }
}
