/**
 * The desktop updater's staged job over a saved record. An await is a point where cancel, interrupt, a crash or
 * an outside change of the downloaded file may come in; a run is any sequence of such events.
 */
module Updater {
  import opened Ordering
  import opened UpdatePolicy

  datatype Stage =
    | NotChecked | SourceUnavailable | Checking | Available | Downloading | Verified
    | PreparingInstall | Installing | Installed | Cancelled | Failed | Interrupted

  datatype UpdateRecord = UpdateRecord(
    stage: Stage, envelope: Option<Envelope>, backupId: Option<string>, rollbackId: Option<string>)

  datatype Saved = NoRecord | Malformed | Saved(record: UpdateRecord)

  /** Where the running job is waiting. `Ending` is the save made for a job that failed. */
  datatype Job =
    | CheckStarting | CheckFetching | CheckRecording(envelope: Envelope)
    | DownloadStarting | DownloadFetching | DownloadPlacing | DownloadVerifying | DownloadRecording
    | InstallStarting | InstallPreparing | InstallBackingUp | InstallPreserving
    | InstallVerifying(rollbackId: string) | InstallRecording(rollbackId: string) | InstallLaunching
    | Recovering
    | Ending(stage: Stage)

  /**
   * `verifiedHere` and `touched` are history: the offer whose download this process verified, forgotten when another
   * takes its place; and what the last outside change left of the offer's own file since it was read for installing.
   */
  datatype Process = Process(
    record: UpdateRecord, offer: Option<Offer>, job: Option<Job>, aborted: bool, interrupted: bool,
    verifiedHere: Option<Offer>, touched: Option<Option<string>>)

  /** `verifyUpdateOffer` with the installed roots: the offer an identity accepts from an envelope, if any. */
  type Policy = (Envelope, Identity) -> Option<Offer>

  /** A call of the installer, and how things stood. */
  datatype Launch = Launch(
    offer: Offer, current: Identity, saved: Saved, verifiedHere: Option<Offer>, fileMatches: bool,
    touched: Option<Option<string>>)

  /** A file is named by the digest of the offer it was downloaded for; its content stands for its own digest. */
  datatype State = State(
    process: Option<Process>, saved: Saved, files: map<string, string>, current: Identity, launches: seq<Launch>)

  /** What the awaited operation brings. */
  datatype Result =
    | Done
    | Broken
    | Source(available: bool)
    | Fetched(envelope: Envelope)
    | Content(digest: string)
    | Backup(backupId: Option<string>)
    | Rollback(rollbackId: string)

  datatype Event =
    | Boot(current: Identity, saves: bool)
    | Crash
    | Begin(job: Job)
    | Continue(result: Result, saves: bool)
    | Cancel
    | Interrupt
    | Touch(name: string, content: Option<string>)

  const EMPTY := UpdateRecord(NotChecked, None, None, None)

  /** What a restart may not find: a job under way, or an offer to act on. */
  predicate Unsettled(stage: Stage) {
    stage in {Checking, Available, Downloading, Verified, PreparingInstall, Installing}
  }

  // ----- Restart -----

  /** The comparison-only identity: earlier than any offer. */
  function Earlier(current: Identity): Identity {
    current.(sequence := -1, sourceCommit := "0000000000000000000000000000000000000000",
        version := Version([0, 0, 0], None))
  }

  /** `initialize`: what the process holds afterwards, and what is saved. */
  function Initialized(saved: Saved, current: Identity, saves: bool, policy: Policy): (Process, Saved) {
    var broken := EMPTY.(stage := Failed);
    match saved
    case NoRecord => (Process(EMPTY, None, None, false, false, None, None), saved)
    case Malformed => (Process(broken, None, None, false, false, None, None), saved)
    case Saved(r) =>
      var offer := if r.envelope.Some? then policy(r.envelope.value, Earlier(current)) else None;
      var next :=
        if offer.Some? && r.stage == Installing && offer.value.identity.sourceCommit == current.sourceCommit
           && offer.value.identity.version == current.version then r.(stage := Installed)
        else if Unsettled(r.stage) then r.(stage := Interrupted)
        else r;
      if r.envelope.Some? && offer.None? then (Process(broken, None, None, false, false, None, None), saved)
      else if next == r then (Process(r, offer, None, false, false, None, None), saved)
      else if saves then (Process(next, offer, None, false, false, None, None), Saved(next))
      else (Process(broken, offer, None, false, false, None, None), saved)
  }

  /** The saved envelope, if there is one, is still good for this target. */
  predicate Readable(r: UpdateRecord, current: Identity, policy: Policy) {
    r.envelope.Some? ==> policy(r.envelope.value, Earlier(current)).Some?
  }

  /** The saved envelope offers the very program that is running. */
  predicate OffersRunning(r: UpdateRecord, current: Identity, policy: Policy) {
    r.envelope.Some? &&
    match policy(r.envelope.value, Earlier(current))
    case None => false
    case Some(o) => o.identity.sourceCommit == current.sourceCommit && o.identity.version == current.version
  }

  /**
   * After any crash no stage is left that means a job under way or an update ready to install. `installed` is
   * reported exactly when it was saved so, whatever runs now, or the install under way offers what is running.
   */
  lemma RestartIsSettled(saved: Saved, current: Identity, saves: bool, policy: Policy)
    ensures !Unsettled(Initialized(saved, current, saves, policy).0.record.stage)
    ensures Initialized(saved, current, saves, policy).0.record.stage == Installed <==>
              && saved.Saved? && Readable(saved.record, current, policy)
              && (saved.record.stage == Installed
                  || (saved.record.stage == Installing && OffersRunning(saved.record, current, policy) && saves))
  {
  }

  /**
   * What a restart reports: the saved record as it is, unless it cannot be read, its envelope is no longer good, or its
   * stage means something was under way; the last is saved first, as installed when it is the running program that
   * was being installed and as interrupted otherwise, and a save that fails is a failure.
   */
  lemma RestartReports(saved: Saved, current: Identity, saves: bool, policy: Policy)
    ensures var (p, after) := Initialized(saved, current, saves, policy);
            && p.job == None && !p.aborted && !p.interrupted && p.verifiedHere == None
            && (saved.NoRecord? ==> p.record == EMPTY && after == saved)
            && (saved.Malformed? ==> p.record == EMPTY.(stage := Failed) && after == saved)
    ensures var (p, after) := Initialized(saved, current, saves, policy);
            saved.Saved? ==>
              var r := saved.record;
              var earlier := current.(sequence := -1, sourceCommit := "0000000000000000000000000000000000000000",
                                      version := Version([0, 0, 0], None));
              var offered := if r.envelope.Some? then policy(r.envelope.value, earlier) else None;
              var running :=
                offered.Some? && r.stage == Installing && offered.value.identity.version == current.version
                && offered.value.identity.sourceCommit == current.sourceCommit;
              var underWay := r.stage in {Checking, Available, Downloading, Verified, PreparingInstall, Installing};
              var next := r.(stage := if running then Installed else if underWay then Interrupted else r.stage);
              if r.envelope.Some? && offered == None then p.record == EMPTY.(stage := Failed) && after == saved
              else if next.stage != r.stage && !saves then
                p.record == EMPTY.(stage := Failed) && after == saved && p.offer == offered
              else p.record == next && after == Saved(next) && p.offer == offered
  {
  }

  /**
   * So a record saved as `installed` is reported as it is, even when another program than the one it offers is
   * running.
   */
  lemma InstalledIsNotCheckedAgain(r: UpdateRecord, current: Identity, saves: bool, policy: Policy)
    requires r.stage == Installed && Readable(r, current, policy) && !OffersRunning(r, current, policy)
    ensures Initialized(Saved(r), current, saves, policy).0.record == r
  {
  }

  // ----- One step of a job -----

  /** `#save`: the file first, then the field; when it fails neither changes. */
  function Save(s: State, p: Process, record: UpdateRecord, next: Option<Job>): State {
    s.(process := Some(p.(record := record, job := next)), saved := Saved(record))
  }

  function Go(s: State, p: Process, job: Job): State {
    s.(process := Some(p.(job := Some(job))))
  }

  /** The catch of `#job`: an interruption, a cancellation or a failure. */
  function Fail(s: State, p: Process): State {
    Go(s, p, Ending(if p.interrupted then Interrupted else if p.aborted then Cancelled else Failed))
  }

  function SaveOrFail(s: State, p: Process, record: UpdateRecord, next: Option<Job>, saves: bool): State {
    if saves then Save(s, p, record, next) else Fail(s, p)
  }

  /** `#verifyFile` of the offer's own file. */
  predicate FileVerifies(s: State, p: Process, policy: Policy)
  {
    && p.offer.Some? && p.record.envelope.Some?
    && policy(p.record.envelope.value, s.current).Some?
    && FileMatches(s, p.offer.value)
  }

  predicate FileMatches(s: State, o: Offer) {
    o.sha256 in s.files && s.files[o.sha256] == o.sha256
  }

  function CheckStep(s: State, p: Process, job: Job, result: Result, saves: bool, policy: Policy): State
  {
    match job
    case CheckStarting =>
      if !result.Source? then Fail(s, p)
      else if !result.available then SaveOrFail(s, p, p.record.(stage := SourceUnavailable), None, saves)
      else SaveOrFail(s, p, p.record.(stage := Checking), Some(CheckFetching), saves)
    case CheckFetching =>
      if !result.Fetched? || p.aborted then Fail(s, p)
      else
        var verified := policy(result.envelope, s.current);
        if verified.None? then Fail(s, p)
        else Go(s, p.(offer := verified, verifiedHere := None), CheckRecording(result.envelope))
    case CheckRecording(envelope) =>
      SaveOrFail(s, p, p.record.(stage := Available, envelope := Some(envelope)), None, saves)
    case _ => s
  }

  function DownloadStep(s: State, p: Process, job: Job, result: Result, saves: bool, policy: Policy): State
  {
    match job
    case DownloadStarting =>
      if p.record.stage != Available || p.offer.None? || result != Done then Fail(s, p)
      else SaveOrFail(s, p, p.record.(stage := Downloading), Some(DownloadFetching), saves)
    case DownloadFetching =>
      if p.offer.None? || result != Content(p.offer.value.sha256) || p.aborted then Fail(s, p)
          else Go(s, p, DownloadPlacing)
    case DownloadPlacing =>
      if p.aborted || p.offer.None? || result != Done then Fail(s, p)
      else if p.offer.value.sha256 in s.files then
        if FileVerifies(s, p, policy) then Go(s, p, DownloadVerifying) else Fail(s, p)
      else Go(s.(files := s.files[p.offer.value.sha256 := p.offer.value.sha256]), p, DownloadVerifying)
    case DownloadVerifying =>
      if result != Done || !FileVerifies(s, p, policy) then Fail(s, p)
          else Go(s, p.(verifiedHere := p.offer), DownloadRecording)
    case DownloadRecording => SaveOrFail(s, p, p.record.(stage := Verified), None, saves)
    case _ => s
  }

  predicate RollbackName(id: string) {
    |id| == 40
  }

  function InstallStep(s: State, p: Process, job: Job, result: Result, saves: bool, policy: Policy): State
  {
    match job
    case InstallStarting =>
      if p.record.stage != Verified || !FileVerifies(s, p, policy) || result != Done then Fail(s, p)
          else Go(s, p, InstallPreparing)
    case InstallPreparing => SaveOrFail(s, p, p.record.(stage := PreparingInstall), Some(InstallBackingUp), saves)
    case InstallBackingUp =>
      if !result.Backup? then Fail(s, p)
      else
        var record := p.record.(backupId := if result.backupId.Some? then result.backupId else p.record.backupId);
        if !saves then Fail(s, p)
        else if p.aborted then Fail(Save(s, p, record, None), p.(record := record))
        else Save(s, p, record, Some(InstallPreserving))
    case InstallPreserving =>
      if !result.Rollback? || !RollbackName(result.rollbackId) || p.aborted then Fail(s, p)
      else Go(s, p, InstallVerifying(result.rollbackId))
    case InstallVerifying(rollbackId) =>
      if !FileVerifies(s, p, policy) || result != Done then Fail(s, p)
          else Go(s, p.(touched := None), InstallRecording(rollbackId))
    case InstallRecording(rollbackId) =>
      SaveOrFail(s, p, p.record.(stage := Installing, rollbackId := Some(rollbackId)), Some(InstallLaunching), saves)
    case InstallLaunching =>
      if p.offer.None? then Fail(s, p)
      else
        var launch := Launch(p.offer.value, s.current, s.saved, p.verifiedHere, FileMatches(s, p.offer.value),
            p.touched);
        var launched := s.(launches := s.launches + [launch]);
        if result == Done then launched.(process := Some(p.(job := None))) else Fail(launched, p)
    case _ => s
  }

  function JobStep(s: State, p: Process, result: Result, saves: bool, policy: Policy): State
    requires p.job.Some?
  {
    var job := p.job.value;
    if IsCheck(job) then CheckStep(s, p, job, result, saves, policy)
    else if job.Recovering? then
      if result == Done && p.record.rollbackId.Some? then s.(process := Some(p.(job := None))) else Fail(s, p)
    else if job.Ending? then
      if saves then Save(s, p, p.record.(stage := job.stage), None) else s.(process := Some(p.(job := None)))
    else if IsDownload(job) then DownloadStep(s, p, job, result, saves, policy)
    else InstallStep(s, p, job, result, saves, policy)
  }

  predicate IsCheck(job: Job) {
    job.CheckStarting? || job.CheckFetching? || job.CheckRecording?
  }

  predicate IsDownload(job: Job) {
    job.DownloadStarting? || job.DownloadFetching? || job.DownloadPlacing? || job.DownloadVerifying?
        || job.DownloadRecording?
  }

  predicate Startable(job: Job) {
    job.CheckStarting? || job.DownloadStarting? || job.InstallStarting? || job.Recovering?
  }

  /** Only a change of the offer's own file counts. */
  function Touched(p: Process, name: string, content: Option<string>): Process {
    if p.offer.Some? && p.offer.value.sha256 == name then p.(touched := Some(content)) else p
  }

  function Step(s: State, e: Event, policy: Policy): State {
    match e
    case Boot(current, saves) =>
      if s.process.Some? then s
      else
        var (process, saved) := Initialized(s.saved, current, saves, policy);
        s.(process := Some(process), saved := saved, current := current)
    case Crash => s.(process := None)
    case Begin(job) =>
      if s.process.None? || s.process.value.job.Some? || !Startable(job) then s
      else s.(process := Some(s.process.value.(job := Some(job), aborted := false, interrupted := false)))
    case Continue(result, saves) =>
      if s.process.None? || s.process.value.job.None? then s else JobStep(s, s.process.value, result, saves, policy)
    case Cancel =>
      if s.process.None? || s.process.value.job.None? || s.process.value.record.stage !in {Checking, Downloading} then s
      else s.(process := Some(s.process.value.(aborted := true)))
    case Interrupt =>
      if s.process.None? then s
      else
        var p := s.process.value;
        s.(process := Some(p.(interrupted := true, aborted := p.aborted || p.job.Some?)))
    case Touch(name, content) =>
      var files := if content.Some? then s.files[name := content.value] else s.files - {name};
      s.(files := files, process := if s.process.Some? then Some(Touched(s.process.value, name, content)) else None)
  }

  function Run(s: State, events: seq<Event>, policy: Policy): State {
    if events == [] then s else Step(Run(s, events[..|events| - 1], policy), events[|events| - 1], policy)
  }

  // ----- What stops a job, and what it comes to otherwise -----

  /** A job that is stopped ends as interrupted, else as cancelled, else as failed; nothing else changes. */
  lemma StoppedJobEndsAs(s: State, p: Process)
    ensures var t := Fail(s, p);
            && t == s.(process := t.process) && t.process.Some? && t.process.value == p.(job := t.process.value.job)
            && (p.interrupted ==> t.process.value.job == Some(Ending(Interrupted)))
            && (!p.interrupted && p.aborted ==> t.process.value.job == Some(Ending(Cancelled)))
            && (!p.interrupted && !p.aborted ==> t.process.value.job == Some(Ending(Failed)))
  {
  }

  /** A check stops exactly when its save fails, the answer does not come or comes too late, or the offer is refused. */
  lemma CheckStopsExactlyWhen(s: State, p: Process, job: Job, result: Result, saves: bool, policy: Policy)
    requires IsCheck(job)
    ensures var t := CheckStep(s, p, job, result, saves, policy);
            && (job.CheckStarting? ==> (t == Fail(s, p) <==> !result.Source? || !saves))
            && (job.CheckFetching? ==>
                  (t == Fail(s, p) <==> !result.Fetched? || p.aborted || policy(result.envelope, s.current).None?))
            && (job.CheckRecording? ==> (t == Fail(s, p) <==> !saves))
    // Otherwise it finds no source, goes on to fetch, takes the offer of the fetched envelope, and saves that envelope.
    ensures var t := CheckStep(s, p, job, result, saves, policy);
            t != Fail(s, p) && t.process.Some? ==>
              var q := t.process.value;
              && (job.CheckStarting? && !result.available ==> q.job == None && q.record.stage == SourceUnavailable)
              && (job.CheckStarting? && result.available ==>
                    q.job == Some(CheckFetching) && q.record.stage == Checking)
              && (job.CheckFetching? ==>
                    q.job == Some(CheckRecording(result.envelope)) && q.offer == policy(result.envelope, s.current)
                    && q.record == p.record)
              && (job.CheckRecording? ==>
                    q.job == None && q.record == p.record.(stage := Available, envelope := Some(job.envelope)))
              && (!job.CheckFetching? ==> t.saved == Saved(q.record))
  {
  }

  /** A download stops exactly when it is cancelled on the way, a save fails, or the file is not the offer's own. */
  lemma DownloadStopsExactlyWhen(s: State, p: Process, job: Job, result: Result, saves: bool, policy: Policy)
    requires IsDownload(job)
    ensures var t := DownloadStep(s, p, job, result, saves, policy);
            && (job.DownloadStarting? ==>
                  (t == Fail(s, p) <==> p.record.stage != Available || p.offer.None? || result != Done || !saves))
            && (job.DownloadFetching? ==>
                  (t == Fail(s, p) <==> p.aborted || p.offer.None? || result != Content(p.offer.value.sha256)))
            && (job.DownloadPlacing? ==>
                  (t == Fail(s, p) <==>
                   p.aborted || p.offer.None? || result != Done
                   || (p.offer.value.sha256 in s.files && !FileVerifies(s, p, policy))))
            && (job.DownloadVerifying? ==> (t == Fail(s, p) <==> result != Done || !FileVerifies(s, p, policy)))
            && (job.DownloadRecording? ==> (t == Fail(s, p) <==> !saves))
    ensures var t := DownloadStep(s, p, job, result, saves, policy);
            t != Fail(s, p) && t.process.Some? ==>
              var q := t.process.value;
              && (job.DownloadStarting? ==> q.job == Some(DownloadFetching) && q.record.stage == Downloading)
              && (job.DownloadFetching? ==> q.job == Some(DownloadPlacing) && t.files == s.files)
              && (job.DownloadPlacing? ==>
                    && q.job == Some(DownloadVerifying)
                    && var name := p.offer.value.sha256;
                       t.files == if name in s.files then s.files else s.files[name := name])
              && (job.DownloadVerifying? ==> q.job == Some(DownloadRecording) && q.verifiedHere == p.offer)
              && (job.DownloadRecording? ==> q.job == None && q.record.stage == Verified && t.saved == Saved(q.record))
  {
  }

  /** The offer's own file is there with the offer's digest, and the saved envelope is still accepted. */
  lemma FileVerifiesExactlyWhen(s: State, p: Process, policy: Policy)
    ensures FileVerifies(s, p, policy) <==>
            && p.offer.Some? && p.record.envelope.Some? && policy(p.record.envelope.value, s.current).Some?
            && p.offer.value.sha256 in s.files && s.files[p.offer.value.sha256] == p.offer.value.sha256
  {
  }

  /**
   * An install stops exactly when a save fails, the file does not verify at either reading, no backup or no well-named
   * rollback comes, or an abort is seen after either.
   */
  lemma InstallStopsExactlyWhen(s: State, p: Process, job: Job, result: Result, saves: bool, policy: Policy)
    ensures var t := InstallStep(s, p, job, result, saves, policy);
            && (job.InstallStarting? ==>
                  (t == Fail(s, p) <==>
                   p.record.stage != Verified || result != Done || !FileVerifies(s, p, policy)))
            && (job.InstallPreparing? ==> (t == Fail(s, p) <==> !saves))
            && (job.InstallBackingUp? ==>
                  && (t == Fail(s, p) <== !result.Backup? || !saves)
                  && t.process.Some?
                  && (t.process.value.job == Some(InstallPreserving) <==> result.Backup? && saves && !p.aborted))
            && (job.InstallPreserving? ==>
                  (t == Fail(s, p) <==> !result.Rollback? || |result.rollbackId| != 40 || p.aborted))
            && (job.InstallVerifying? ==> (t == Fail(s, p) <==> result != Done || !FileVerifies(s, p, policy)))
            && (job.InstallRecording? ==> (t == Fail(s, p) <==> !saves))
            && (job.InstallLaunching? && p.offer.Some? ==>
                  t.process.Some? && (t.process.value.job == None <==> result == Done))
    ensures var t := InstallStep(s, p, job, result, saves, policy);
            t != Fail(s, p) && t.process.Some? ==>
              var q := t.process.value;
              && (job.InstallStarting? ==> q.job == Some(InstallPreparing) && q.record == p.record)
              && (job.InstallPreparing? ==>
                    q.job == Some(InstallBackingUp) && t.saved == Saved(p.record.(stage := PreparingInstall)))
              && (job.InstallBackingUp? && result.Backup? && saves ==>
                    && t.saved == Saved(q.record)
                    && q.record.backupId == if result.backupId.Some? then result.backupId else p.record.backupId)
              && (job.InstallPreserving? ==> q.job == Some(InstallVerifying(result.rollbackId)) && q.record == p.record)
              && (job.InstallVerifying? ==> q.job == Some(InstallRecording(job.rollbackId)) && q.record == p.record)
              && (job.InstallRecording? ==>
                    && q.job == Some(InstallLaunching)
                    && t.saved == Saved(p.record.(stage := Installing, rollbackId := Some(job.rollbackId))))
  {
  }

  /**
   * Recovery ends well exactly when the rollback launcher ran and there is a name to give it, and saves nothing; a job
   * that is ending saves the stage it came to where it can, and is over either way.
   */
  lemma RecoveringAndEndingExactly(s: State, p: Process, result: Result, saves: bool, policy: Policy)
    requires p.job.Some?
    ensures var t := JobStep(s, p, result, saves, policy);
            p.job.value.Recovering? ==>
              && t == s.(process := t.process) && t.process.Some?
              && (p.record.rollbackId.Some? && result == Done ==> t.process.value == p.(job := None))
              && (p.record.rollbackId.None? || result != Done ==>
                    var stage := if p.interrupted then Interrupted else if p.aborted then Cancelled else Failed;
                    t.process.value == p.(job := Some(Ending(stage))))
    ensures var t := JobStep(s, p, result, saves, policy);
            p.job.value.Ending? ==>
              var ended := p.record.(stage := p.job.value.stage);
              && t == s.(process := t.process, saved := t.saved) && t.process.Some?
              && t.process.value == p.(job := None, record := if saves then ended else p.record)
              && t.saved == if saves then Saved(ended) else s.saved
  {
  }

  /**
   * Starting a process that runs changes nothing, a job starts exactly when none runs, a cancellation reaches a check
   * or a download under way and nothing else, and an interruption aborts whatever job runs.
   */
  lemma EventsOutsideJobs(s: State, current: Identity, saves: bool, job: Job, policy: Policy)
    requires s.process.Some? && Startable(job)
    ensures Step(s, Boot(current, saves), policy) == s
    ensures var p := s.process.value;
            var begun := if p.job.Some? then p else p.(job := Some(job), aborted := false, interrupted := false);
            && Step(s, Begin(job), policy) == s.(process := Some(begun))
            && Step(s, Cancel, policy) ==
               s.(process := Some(p.(aborted :=
                   p.aborted || (p.job.Some? && (p.record.stage == Checking || p.record.stage == Downloading)))))
            && Step(s, Interrupt, policy) ==
               s.(process := Some(p.(interrupted := true, aborted := p.aborted || p.job.Some?)))
  {
  }

  // ----- What every run keeps -----

  /**
   * The stage rests on an offer the recorded envelope proves, and from `verified` on, on a download this process
   * verified.
   */
  ghost predicate OfferSound(p: Process, current: Identity, policy: Policy)
  {
    && (p.record.stage in {Available, Downloading, Verified, PreparingInstall, Installing} ==>
          p.offer.Some? && p.record.envelope.Some? && policy(p.record.envelope.value, current) == p.offer)
    && (p.record.stage in {Verified, PreparingInstall, Installing} ==> p.verifiedHere == p.offer)
  }

  /** The offer's file is as it was read, unless an outside change has left something else since. */
  predicate FileKnown(s: State, p: Process) {
    p.offer.Some? &&
    (FileMatches(s, p.offer.value) <==> p.touched.None? || p.touched.value == Some(p.offer.value.sha256))
  }

  /** What a waiting job relies on. */
  ghost predicate JobSound(s: State, p: Process, job: Job, policy: Policy)
  {
    match job
    case CheckFetching => p.record.stage == Checking
    case CheckRecording(e) => p.record.stage == Checking && p.offer.Some? && policy(e, s.current) == p.offer
    case DownloadFetching => p.record.stage == Downloading
    case DownloadPlacing => p.record.stage == Downloading
    case DownloadVerifying => p.record.stage == Downloading
    case DownloadRecording => p.record.stage == Downloading && p.verifiedHere == p.offer
    case InstallPreparing => p.record.stage == Verified
    case InstallBackingUp => p.record.stage == PreparingInstall
    case InstallPreserving => p.record.stage == PreparingInstall
    case InstallVerifying(id) => p.record.stage == PreparingInstall && RollbackName(id)
    case InstallRecording(id) =>
      p.record.stage == PreparingInstall && RollbackName(id) && FileKnown(s, p)
    case InstallLaunching =>
      && p.record.stage == Installing && p.record.rollbackId.Some? && RollbackName(p.record.rollbackId.value)
      && s.saved == Saved(p.record) && FileKnown(s, p)
    case Ending(stage) => stage in {Interrupted, Cancelled, Failed}
    case _ => true
  }

  /**
   * The installer was called for the very offer this process verified, which the saved envelope proves, with the
   * way back saved, and with the offer's file matching unless that file was changed after its last reading.
   */
  ghost predicate LaunchSound(l: Launch, policy: Policy) {
    && l.verifiedHere == Some(l.offer)
    && (l.fileMatches <==> l.touched.None? || l.touched.value == Some(l.offer.sha256))
    && l.saved.Saved? && l.saved.record.stage == Installing
    && l.saved.record.rollbackId.Some? && RollbackName(l.saved.record.rollbackId.value)
    && l.saved.record.envelope.Some?
    && policy(l.saved.record.envelope.value, l.current) == Some(l.offer)
  }

  ghost predicate ProcessSound(s: State, policy: Policy)
  {
    s.process.Some? ==>
      && OfferSound(s.process.value, s.current, policy)
      && (s.process.value.job.Some? ==> JobSound(s, s.process.value, s.process.value.job.value, policy))
  }

  ghost predicate Sound(s: State, policy: Policy) {
    && ProcessSound(s, policy)
    && (forall i :: 0 <= i < |s.launches| ==> LaunchSound(s.launches[i], policy))
  }

  /** Before the first start: whatever an earlier installation left, no process and no launch. */
  lemma NotStartedIsSound(saved: Saved, files: map<string, string>, current: Identity, policy: Policy)
    ensures Sound(State(None, saved, files, current, []), policy)
  {
  }

  /** Saving keeps the state sound when the saved stage and the next job are. */
  lemma SaveIsSound(s: State, p: Process, record: UpdateRecord, next: Option<Job>, saves: bool, policy: Policy)
    requires Sound(s, policy) && s.process == Some(p) && OfferSound(p.(record := record), s.current, policy)
    requires next.Some? ==> JobSound(Save(s, p, record, next), p.(record := record, job := next), next.value, policy)
    ensures Sound(SaveOrFail(s, p, record, next, saves), policy)
  {
  }

  lemma GoIsSound(s: State, t: State, p: Process, job: Job, policy: Policy)
    requires Sound(s, policy) && t.launches == s.launches && t.current == s.current
    requires OfferSound(p, s.current, policy) && JobSound(t, p.(job := Some(job)), job, policy)
    ensures Sound(Go(t, p, job), policy)
  {
  }

  lemma FailIsSound(s: State, p: Process, policy: Policy)
    requires Sound(s, policy) && OfferSound(p, s.current, policy)
    ensures Sound(Fail(s, p), policy)
  {
  }

  lemma CheckKeepsSound(s: State, p: Process, job: Job, result: Result, saves: bool, policy: Policy)
    requires Sound(s, policy) && s.process == Some(p) && p.job == Some(job)
    ensures Sound(CheckStep(s, p, job, result, saves, policy), policy)
  {
    FailIsSound(s, p, policy);
    match job
    case CheckStarting =>
      SaveIsSound(s, p, p.record.(stage := SourceUnavailable), None, saves, policy);
      SaveIsSound(s, p, p.record.(stage := Checking), Some(CheckFetching), saves, policy);
    case CheckFetching =>
      if result.Fetched? && policy(result.envelope, s.current).Some? {
        var next := p.(offer := policy(result.envelope, s.current), verifiedHere := None);
        GoIsSound(s, s, next, CheckRecording(result.envelope), policy);
      }
    case CheckRecording(envelope) =>
      SaveIsSound(s, p, p.record.(stage := Available, envelope := Some(envelope)), None, saves, policy);
    case _ =>
  }

  lemma DownloadKeepsSound(s: State, p: Process, job: Job, result: Result, saves: bool, policy: Policy)
    requires Sound(s, policy) && s.process == Some(p) && p.job == Some(job)
    ensures Sound(DownloadStep(s, p, job, result, saves, policy), policy)
  {
    FailIsSound(s, p, policy);
    match job
    case DownloadStarting =>
      if p.record.stage == Available {
        SaveIsSound(s, p, p.record.(stage := Downloading), Some(DownloadFetching), saves, policy);
      }
    case DownloadFetching => GoIsSound(s, s, p, DownloadPlacing, policy);
    case DownloadPlacing =>
      GoIsSound(s, s, p, DownloadVerifying, policy);
      if p.offer.Some? {
        var placed := s.(files := s.files[p.offer.value.sha256 := p.offer.value.sha256]);
        GoIsSound(s, placed, p, DownloadVerifying, policy);
      }
    case DownloadVerifying => GoIsSound(s, s, p.(verifiedHere := p.offer), DownloadRecording, policy);
    case DownloadRecording => SaveIsSound(s, p, p.record.(stage := Verified), None, saves, policy);
    case _ =>
  }

  lemma InstallKeepsSound(s: State, p: Process, job: Job, result: Result, saves: bool, policy: Policy)
    requires Sound(s, policy) && s.process == Some(p) && p.job == Some(job)
    ensures Sound(InstallStep(s, p, job, result, saves, policy), policy)
  {
    FailIsSound(s, p, policy);
    match job
    case InstallStarting =>
      if p.record.stage == Verified { GoIsSound(s, s, p, InstallPreparing, policy); }
    case InstallPreparing =>
      SaveIsSound(s, p, p.record.(stage := PreparingInstall), Some(InstallBackingUp), saves, policy);
    case InstallBackingUp => BackupKeepsSound(s, p, result, saves, policy);
    case InstallPreserving =>
      if result.Rollback? && RollbackName(result.rollbackId) {
        GoIsSound(s, s, p, InstallVerifying(result.rollbackId), policy);
      }
    case InstallVerifying(rollbackId) =>
      if FileVerifies(s, p, policy) {
        GoIsSound(s, s, p.(touched := None), InstallRecording(rollbackId), policy);
      }
    case InstallRecording(rollbackId) =>
      SaveIsSound(s, p, p.record.(stage := Installing, rollbackId := Some(rollbackId)), Some(InstallLaunching), saves,
          policy);
    case InstallLaunching => LaunchKeepsSound(s, p, result, saves, policy);
    case _ =>
  }

  lemma BackupKeepsSound(s: State, p: Process, result: Result, saves: bool, policy: Policy)
    requires Sound(s, policy) && s.process == Some(p) && p.job == Some(InstallBackingUp)
    ensures Sound(InstallStep(s, p, InstallBackingUp, result, saves, policy), policy)
  {
    FailIsSound(s, p, policy);
    if result.Backup? {
      var record := p.record.(backupId := if result.backupId.Some? then result.backupId else p.record.backupId);
      SaveIsSound(s, p, record, Some(InstallPreserving), saves, policy);
      SaveIsSound(s, p, record, None, true, policy);
      FailIsSound(Save(s, p, record, None), p.(record := record), policy);
    }
  }

  lemma LaunchKeepsSound(s: State, p: Process, result: Result, saves: bool, policy: Policy)
    requires Sound(s, policy) && s.process == Some(p) && p.job == Some(InstallLaunching)
    ensures Sound(InstallStep(s, p, InstallLaunching, result, saves, policy), policy)
  {
    if p.offer.Some? {
      var launch := Launch(p.offer.value, s.current, s.saved, p.verifiedHere, FileMatches(s, p.offer.value), p.touched);
      assert LaunchSound(launch, policy);
      var launched := s.(launches := s.launches + [launch]);
      assert Sound(launched, policy);
      FailIsSound(launched, p, policy);
    } else {
      FailIsSound(s, p, policy);
    }
  }

  lemma JobStepKeepsSound(s: State, p: Process, result: Result, saves: bool, policy: Policy)
    requires Sound(s, policy) && s.process == Some(p) && p.job.Some?
    ensures Sound(JobStep(s, p, result, saves, policy), policy)
  {
    var job := p.job.value;
    if IsCheck(job) {
      CheckKeepsSound(s, p, job, result, saves, policy);
    } else if IsDownload(job) {
      DownloadKeepsSound(s, p, job, result, saves, policy);
    } else if job.Recovering? {
      FailIsSound(s, p, policy);
    } else if job.Ending? {
      SaveIsSound(s, p, p.record.(stage := job.stage), None, true, policy);
    } else {
      InstallKeepsSound(s, p, job, result, saves, policy);
    }
  }

  lemma StepKeepsSound(s: State, e: Event, policy: Policy)
    requires Sound(s, policy)
    ensures Sound(Step(s, e, policy), policy)
  {
    match e
    case Boot(current, saves) => RestartIsSettled(s.saved, current, saves, policy);
    case Continue(result, saves) =>
      if s.process.Some? && s.process.value.job.Some? {
        JobStepKeepsSound(s, s.process.value, result, saves, policy);
      }
    case Touch(name, content) => TouchKeepsSound(s, name, content, policy);
    case _ =>
  }

  lemma TouchKeepsSound(s: State, name: string, content: Option<string>, policy: Policy)
    requires Sound(s, policy)
    ensures Sound(Step(s, Touch(name, content), policy), policy)
  {
  }

  lemma {:induction false} RunKeepsSound(s: State, events: seq<Event>, policy: Policy)
    requires Sound(s, policy)
    ensures Sound(Run(s, events, policy), policy)
  {
    if events != [] {
      RunKeepsSound(s, events[..|events| - 1], policy);
      StepKeepsSound(Run(s, events[..|events| - 1], policy), events[|events| - 1], policy);
    }
  }

  /**
   * In any run the installer is called only from a stage this process verified, for the offer the saved envelope
   * proves, with the rollback id already saved, and with the file matching unless it was changed after its last
   * reading.
   */
  lemma InstallerRunsOnlyWhenVerified(s: State, events: seq<Event>, i: nat, policy: Policy)
    requires Sound(s, policy) && i < |Run(s, events, policy).launches|
    ensures LaunchSound(Run(s, events, policy).launches[i], policy)
  {
    RunKeepsSound(s, events, policy);
  }

  /** Nothing looks at the file again: what a change leaves there just before the launch is what is launched. */
  lemma ChangeBeforeLaunchGoesUnnoticed(s: State, o: Offer, content: Option<string>, policy: Policy)
    requires s.process.Some? && s.process.value.job == Some(InstallLaunching) && s.process.value.offer == Some(o)
    ensures var t := Step(Step(s, Touch(o.sha256, content), policy), Continue(Done, true), policy);
            && |t.launches| == |s.launches| + 1 && t.launches[|s.launches|].offer == o
            && (t.launches[|s.launches|].fileMatches <==> content == Some(o.sha256))
  {
  }

  /** Jobs exclude each other: while one waits no other begins. */
  lemma OneJobAtATime(s: State, job: Job, policy: Policy)
    requires s.process.Some? && s.process.value.job.Some?
    ensures Step(s, Begin(job), policy) == s
  {
  }

  // ----- What one step of a job can and cannot do -----

  /**
   * A check launches nothing and touches no file; it ends in `available` only with a saved envelope that proves its
   * offer.
   */
  lemma CheckStepMeans(s: State, p: Process, job: Job, result: Result, saves: bool, policy: Policy)
    requires Sound(s, policy) && s.process == Some(p) && p.job == Some(job) && IsCheck(job)
    ensures var t := CheckStep(s, p, job, result, saves, policy);
            && Sound(t, policy) && t.process.Some? && t.launches == s.launches && t.files == s.files
            && (t.process.value.offer != p.offer ==> t.process.value.verifiedHere.None?)
            && (t.process.value.record.stage == Available && p.record.stage != Available ==>
                  Offered(t, policy) && t.process.value.job.None?)
  {
    CheckKeepsSound(s, p, job, result, saves, policy);
  }

  /** The saved record says what the process holds: an envelope that proves the offer. */
  ghost predicate Offered(s: State, policy: Policy) {
    s.process.Some? &&
    var p := s.process.value;
    && s.saved == Saved(p.record) && p.offer.Some? && p.record.envelope.Some?
    && policy(p.record.envelope.value, s.current) == p.offer
  }

  /**
   * A download launches nothing, keeps the offer and every file already there, counts as verified only what it has
   * just read as the offer's own content, and ends in `verified` only for the offer verified here.
   */
  lemma DownloadStepMeans(s: State, p: Process, job: Job, result: Result, saves: bool, policy: Policy)
    requires Sound(s, policy) && s.process == Some(p) && p.job == Some(job) && IsDownload(job)
    ensures var t := DownloadStep(s, p, job, result, saves, policy);
            && Sound(t, policy) && t.process.Some? && t.launches == s.launches && t.process.value.offer == p.offer
            && (forall name :: name in s.files ==> name in t.files && t.files[name] == s.files[name])
            && (t.process.value.verifiedHere != p.verifiedHere ==>
                  p.offer.Some? && t.process.value.verifiedHere == p.offer && FileMatches(s, p.offer.value))
            && (t.process.value.record.stage == Verified && p.record.stage != Verified ==>
                  Offered(t, policy) && t.process.value.verifiedHere == p.offer && t.process.value.job.None?)
  {
    DownloadKeepsSound(s, p, job, result, saves, policy);
  }

  /**
   * An install changes no file and no offer. It calls the installer exactly when it is waiting to launch, once, for the
   * offer verified here; and it gets there only over a saved `installing` with the way back in it.
   */
  lemma InstallStepMeans(s: State, p: Process, job: Job, result: Result, saves: bool, policy: Policy)
    requires Sound(s, policy) && s.process == Some(p) && p.job == Some(job)
    ensures var t := InstallStep(s, p, job, result, saves, policy);
            && Sound(t, policy) && t.process.Some? && t.files == s.files
            && t.process.value.offer == p.offer && t.process.value.verifiedHere == p.verifiedHere
            && (t.launches == s.launches || LaunchedOnce(s, t, policy))
            && (t.launches != s.launches <==> job.InstallLaunching?)
            && (t.process.value.record.stage == Installing && p.record.stage != Installing ==>
                  Offered(t, policy) && t.process.value.record.rollbackId.Some?
                      && RollbackName(t.process.value.record.rollbackId.value))
  {
    InstallKeepsSound(s, p, job, result, saves, policy);
  }

  ghost predicate LaunchedOnce(s: State, t: State, policy: Policy) {
    && |t.launches| == |s.launches| + 1 && t.launches[..|s.launches|] == s.launches
    && LaunchSound(t.launches[|s.launches|], policy)
    && s.process.Some? && s.process.value.offer == Some(t.launches[|s.launches|].offer)
  }

  // ----- With the policy of the installed application -----

  function DesktopPolicy(e: Envelope, current: Identity): Option<Offer> {
    if !Numbered(current.version) then None
    else
      match VerifyUpdateOffer(e, current)
      case Failure(_) => None
      case Success(o) => Some(o)
  }

  /** Whatever the installer is ever called for is a later sequence of the same target, and no lower version. */
  lemma LaunchedOfferAdvances(s: State, events: seq<Event>, i: nat)
    requires Sound(s, DesktopPolicy) && i < |Run(s, events, DesktopPolicy).launches|
    ensures var l := Run(s, events, DesktopPolicy).launches[i];
            && Numbered(l.current.version) && Numbered(l.offer.identity.version)
            && l.offer.identity.sequence > l.current.sequence && l.offer.identity.sourceCommit != l.current.sourceCommit
            && NotBelow(l.offer.identity.version, l.current.version)
            && (l.current.channel.Stable? ==> Below(l.current.version.base, l.offer.identity.version.base))
  {
    RunKeepsSound(s, events, DesktopPolicy);
    var l := Run(s, events, DesktopPolicy).launches[i];
    assert LaunchSound(l, DesktopPolicy);
    AcceptedOfferAdvances(l.saved.record.envelope.value, l.current);
  }

  // ----- The updater as written -----

  class DesktopUpdater {
    var record: UpdateRecord
    var offer: Option<Offer>
    var job: Option<Job>
    var aborted: bool
    var interrupted: bool
    var saved: Saved
    var files: map<string, string>
    const current: Identity
    ghost var verifiedHere: Option<Offer>
    ghost var touched: Option<Option<string>>
    ghost var launches: seq<Launch>

    /** A process just started over what an earlier one left. */
    constructor (saved: Saved, files: map<string, string>, current: Identity)
      ensures Now() == State(Some(Process(EMPTY, None, None, false, false, None, None)), saved, files, current, [])
      ensures this.current == current
    {
      record, offer, job, aborted, interrupted := EMPTY, None, None, false, false;
      this.saved, this.files, this.current := saved, files, current;
      verifiedHere, touched, launches := None, None, [];
    }

    ghost predicate Valid(policy: Policy)
      reads this
    {
      Sound(Now(), policy)
    }

    ghost function Now(): State
      reads this
    {
      State(Some(Process(record, offer, job, aborted, interrupted, verifiedHere, touched)), saved, files, current,
          launches)
    }

    method Save(next: UpdateRecord, saves: bool) returns (threw: bool)
      modifies this`record, this`saved
      ensures threw == !saves
      ensures record == (if saves then next else old(record)) && saved == (if saves then Saved(next) else old(saved))
    {
      threw := !saves;
      if saves {
        saved := Saved(next);
        record := next;
      }
    }

    method SaveOrBreak(next: UpdateRecord, saves: bool)
      modifies this`record, this`saved
      ensures record == if saves then next else EMPTY.(stage := Failed)
      ensures saved == if saves then Saved(next) else old(saved)
    {
      var threw := Save(next, saves);
      if threw {
        record := EMPTY.(stage := Failed);
      }
    }

    method Reconcile(saves: bool, policy: Policy)
      requires Now().process == Some(Process(EMPTY, None, None, false, false, None, None))
      modifies this
      ensures Now() == old(Now()).(process := Some(Initialized(old(saved), current, saves, policy).0),
                                   saved := Initialized(old(saved), current, saves, policy).1)
    {
      var broken := EMPTY.(stage := Failed);
      match saved {
        case NoRecord =>
        case Malformed => record := broken;
        case Saved(r) =>
          record := r;
          if r.envelope.Some? {
            var offered := policy(r.envelope.value, Earlier(current));
            if offered.None? {
              record := broken;
              return;
            }
            offer := offered;
            if r.stage == Installing && offered.value.identity.sourceCommit == current.sourceCommit
               && offered.value.identity.version == current.version {
              SaveOrBreak(r.(stage := Installed), saves);
              return;
            }
          }
          if Unsettled(r.stage) {
            SaveOrBreak(r.(stage := Interrupted), saves);
          }
      }
    }

    method Initialize(saves: bool, policy: Policy)
      requires Now().process == Some(Process(EMPTY, None, None, false, false, None, None)) && launches == []
      modifies this
      ensures Valid(policy)
      ensures Now() == old(Now()).(process := Some(Initialized(old(saved), current, saves, policy).0),
                                   saved := Initialized(old(saved), current, saves, policy).1)
    {
      RestartIsSettled(saved, current, saves, policy);
      Reconcile(saves, policy);
    }

    method BeginJob(next: Job) returns (refused: bool)
      requires Startable(next)
      modifies this
      ensures refused == old(job).Some?
      ensures !refused ==> job == Some(next) && !aborted && !interrupted
      ensures refused ==> job == old(job) && aborted == old(aborted) && interrupted == old(interrupted)
      ensures forall policy :: Now() == Step(old(Now()), Begin(next), policy)
    {
      refused := job.Some?;
      if !refused {
        job, aborted, interrupted := Some(next), false, false;
      }
    }

    method CancelJob() returns (refused: bool)
      modifies this`aborted
      ensures refused == (record.stage !in {Checking, Downloading})
      ensures aborted == (old(aborted) || (!refused && job.Some?))
      ensures forall policy :: Now() == Step(old(Now()), Cancel, policy)
    {
      refused := record.stage != Checking && record.stage != Downloading;
      if !refused && job.Some? {
        aborted := true;
      }
    }

    method InterruptJob()
      modifies this`aborted, this`interrupted
      ensures interrupted && aborted == (old(aborted) || job.Some?)
      ensures forall policy :: Now() == Step(old(Now()), Interrupt, policy)
    {
      interrupted := true;
      if job.Some? {
        aborted := true;
      }
    }

    method CatchError()
      modifies this`job
      ensures Now() == Fail(old(Now()), old(Now()).process.value)
    {
      job := Some(Ending(if interrupted then Interrupted else if aborted then Cancelled else Failed));
    }

    method SaveThen(next: UpdateRecord, following: Option<Job>, saves: bool)
      modifies this`record, this`saved, this`job
      ensures Now() == SaveOrFail(old(Now()), old(Now()).process.value, next, following, saves)
    {
      var threw := Save(next, saves);
      if threw {
        CatchError();
      } else {
        job := following;
      }
    }

    /** `#verifyFile`, answering whether it did not throw. */
    method VerifyFile(policy: Policy) returns (ok: bool)
      ensures ok == FileVerifies(Now(), Now().process.value, policy)
    {
      ok := false;
      if offer.Some? && record.envelope.Some? {
        var again := policy(record.envelope.value, current);
        ok := again.Some? && offer.value.sha256 in files && files[offer.value.sha256] == offer.value.sha256;
      }
    }

    method AdvanceCheck(result: Result, saves: bool, policy: Policy)
      requires job.Some? && IsCheck(job.value)
      modifies this
      ensures Now() == CheckStep(old(Now()), old(Now()).process.value, old(job).value, result, saves, policy)
    {
      match job.value {
        case CheckStarting =>
          if !result.Source? {
            CatchError();
          } else if !result.available {
            SaveThen(record.(stage := SourceUnavailable), None, saves);
          } else {
            SaveThen(record.(stage := Checking), Some(CheckFetching), saves);
          }
        case CheckFetching =>
          if !result.Fetched? || aborted {
            CatchError();
          } else {
            var verified := policy(result.envelope, current);
            if verified.None? {
              CatchError();
            } else {
              offer, verifiedHere, job := verified, None, Some(CheckRecording(result.envelope));
            }
          }
        case CheckRecording(envelope) =>
          SaveThen(record.(stage := Available, envelope := Some(envelope)), None, saves);
      }
    }

    method ContinueCheck(result: Result, saves: bool, policy: Policy)
      requires Valid(policy) && job.Some? && IsCheck(job.value)
      modifies this
      ensures Valid(policy) && Now() == Step(old(Now()), Continue(result, saves), policy)
      ensures launches == old(launches) && files == old(files)
      ensures offer != old(offer) ==> verifiedHere.None?
      ensures record.stage == Available && old(record.stage) != Available ==> Offered(Now(), policy) && job.None?
    {
      CheckStepMeans(Now(), Now().process.value, job.value, result, saves, policy);
      AdvanceCheck(result, saves, policy);
    }

    method AdvanceDownload(result: Result, saves: bool, policy: Policy)
      requires job.Some? && IsDownload(job.value)
      modifies this
      ensures Now() == DownloadStep(old(Now()), old(Now()).process.value, old(job).value, result, saves, policy)
    {
      var verified := VerifyFile(policy);
      match job.value {
        case DownloadStarting =>
          if record.stage != Available || offer.None? || result != Done {
            CatchError();
          } else {
            SaveThen(record.(stage := Downloading), Some(DownloadFetching), saves);
          }
        case DownloadFetching =>
          if offer.None? || result != Content(offer.value.sha256) || aborted {
            CatchError();
          } else {
            job := Some(DownloadPlacing);
          }
        case DownloadPlacing =>
          if aborted || offer.None? || result != Done {
            CatchError();
          } else if offer.value.sha256 in files {
            if verified {
              job := Some(DownloadVerifying);
            } else {
              CatchError();
            }
          } else {
            files := files[offer.value.sha256 := offer.value.sha256];
            job := Some(DownloadVerifying);
          }
        case DownloadVerifying =>
          if result != Done || !verified {
            CatchError();
          } else {
            verifiedHere, job := offer, Some(DownloadRecording);
          }
        case DownloadRecording => SaveThen(record.(stage := Verified), None, saves);
      }
    }

    method ContinueDownload(result: Result, saves: bool, policy: Policy)
      requires Valid(policy) && job.Some? && IsDownload(job.value)
      modifies this
      ensures Valid(policy) && Now() == Step(old(Now()), Continue(result, saves), policy)
      ensures launches == old(launches) && offer == old(offer)
      ensures forall name :: name in old(files) ==> name in files && files[name] == old(files)[name]
      ensures verifiedHere != old(verifiedHere) ==>
                offer.Some? && verifiedHere == offer && FileMatches(old(Now()), offer.value)
      ensures record.stage == Verified && old(record.stage) != Verified ==>
                Offered(Now(), policy) && verifiedHere == offer && job.None?
    {
      DownloadStepMeans(Now(), Now().process.value, job.value, result, saves, policy);
      AdvanceDownload(result, saves, policy);
    }

    method AdvanceInstall(result: Result, saves: bool, policy: Policy)
      requires job.Some?
      requires !IsCheck(job.value) && !IsDownload(job.value) && !job.value.Recovering? && !job.value.Ending?
      modifies this
      ensures Now() == InstallStep(old(Now()), old(Now()).process.value, old(job).value, result, saves, policy)
    {
      var verified := VerifyFile(policy);
      match job.value {
        case InstallStarting =>
          if record.stage != Verified || !verified || result != Done {
            CatchError();
          } else {
            job := Some(InstallPreparing);
          }
        case InstallPreparing => SaveThen(record.(stage := PreparingInstall), Some(InstallBackingUp), saves);
        case InstallBackingUp => RecordBackup(result, saves, policy);
        case InstallPreserving =>
          if !result.Rollback? || !RollbackName(result.rollbackId) || aborted {
            CatchError();
          } else {
            job := Some(InstallVerifying(result.rollbackId));
          }
        case InstallVerifying(rollbackId) =>
          if !verified || result != Done {
            CatchError();
          } else {
            touched, job := None, Some(InstallRecording(rollbackId));
          }
        case InstallRecording(rollbackId) =>
          SaveThen(record.(stage := Installing, rollbackId := Some(rollbackId)), Some(InstallLaunching), saves);
        case InstallLaunching => LaunchInstaller(result, saves, policy);
      }
    }

    method ContinueInstall(result: Result, saves: bool, policy: Policy)
      requires Valid(policy) && job.Some?
      requires !IsCheck(job.value) && !IsDownload(job.value) && !job.value.Recovering? && !job.value.Ending?
      modifies this
      ensures Valid(policy) && Now() == Step(old(Now()), Continue(result, saves), policy)
      ensures files == old(files) && offer == old(offer) && verifiedHere == old(verifiedHere)
      ensures launches == old(launches) || LaunchedOnce(old(Now()), Now(), policy)
      ensures launches != old(launches) <==> old(job) == Some(InstallLaunching)
      ensures record.stage == Installing && old(record.stage) != Installing ==>
                Offered(Now(), policy) && record.rollbackId.Some? && RollbackName(record.rollbackId.value)
    {
      InstallStepMeans(Now(), Now().process.value, job.value, result, saves, policy);
      AdvanceInstall(result, saves, policy);
    }

    method RecordBackup(result: Result, saves: bool, policy: Policy)
      requires job == Some(InstallBackingUp)
      modifies this`record, this`saved, this`job
      ensures Now() == InstallStep(old(Now()), old(Now()).process.value, InstallBackingUp, result, saves, policy)
    {
      if !result.Backup? {
        CatchError();
      } else {
        var threw := Save(record.(backupId := if result.backupId.Some? then result.backupId else record.backupId),
            saves);
        if threw || aborted {
          CatchError();
        } else {
          job := Some(InstallPreserving);
        }
      }
    }

    method LaunchInstaller(result: Result, saves: bool, policy: Policy)
      requires job == Some(InstallLaunching)
      modifies this`job, this`launches
      ensures Now() == InstallStep(old(Now()), old(Now()).process.value, InstallLaunching, result, saves, policy)
    {
      if offer.None? {
        CatchError();
      } else {
        launches := launches + [Launch(offer.value, current, saved, verifiedHere, FileMatches(Now(), offer.value),
            touched)];
        if result == Done {
          job := None;
        } else {
          CatchError();
        }
      }
    }
  }
}
