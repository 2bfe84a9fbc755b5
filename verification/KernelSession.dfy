/**
 * The project session: every `await` is a point where any other call may run, so each call is a
 * begin event and a resume event, and a run is any sequence of events.
 */
module KernelSession {
  import opened Ordering

  type Handle = nat

  /** A call waiting on I/O, with what it remembered before waiting. */
  datatype Task =
    | Creating(epoch: nat)
    | Opening(opId: nat, epoch: nat, readOnly: bool)
    | Repairing(opId: nat, epoch: nat)
    | Maintaining

  /** The installed kernel; `epoch` is the session generation its caller was given. */
  datatype Installed = Installed(handle: Handle, epoch: nat)

  /** `handles`, `closes`, `threw` and `stuck` are history: handles opened, close calls, closes that threw. */
  datatype State = State(
    kernel: Option<Installed>, opening: bool, openingOpId: nat, epoch: nat, disposed: bool, readOnly: bool,
    maintaining: bool,
    tasks: map<nat, Task>, nextTask: nat,
    handles: nat, closes: map<Handle, nat>, threw: set<Handle>, stuck: bool)

  /** `closeThrows` says whether the handle's own close throws, should it be called. */
  datatype Event =
    | Close(dispose: bool, closeThrows: bool)
    | CreateBegin(valid: bool, closeThrows: bool)
    | CreateResume(task: nat, created: bool, closeThrows: bool)
    | OpenBegin(valid: bool, readOnly: bool, closeThrows: bool)
    | OpenResume(task: nat, succeeded: bool, closeThrows: bool)
    | RepairBegin(valid: bool, closeThrows: bool)
    | RepairResume(task: nat)
    | MaintainBegin(valid: bool, needsGeneration: bool, generation: nat)
    | MaintainResume(task: nat)

  const INITIAL := State(None, false, 0, 0, false, false, false, map[], 0, 0, map[], {}, false)

  function ClosesOf(closes: map<Handle, nat>, h: Handle): nat {
    if h in closes then closes[h] else 0
  }

  /** One call of a handle's close. */
  function CloseHandle(s: State, h: Handle, throws: bool): State {
    s.(closes := s.closes[h := ClosesOf(s.closes, h) + 1], threw := if throws then s.threw + {h} else s.threw)
  }

  /** `close()`: the kernel is forgotten before its own close runs. */
  function Closed(s: State, closeThrows: bool): State {
    var forgotten := s.(epoch := s.epoch + 1, kernel := None);
    if s.kernel.None? then forgotten else CloseHandle(forgotten, s.kernel.value.handle, closeThrows)
  }

  predicate Throws(s: State, closeThrows: bool) {
    s.kernel.Some? && closeThrows
  }

  function Begun(s: State, t: Task): State {
    s.(tasks := s.tasks[s.nextTask := t], nextTask := s.nextTask + 1)
  }

  function Ended(s: State, task: nat): State {
    s.(tasks := s.tasks - {task})
  }

  /**
   * The synchronous part of `open`, once admitted. When the old kernel's close throws, nothing lowers `opening`
   * again.
   */
  function Opened(s: State, readOnly: bool, closeThrows: bool): State {
    var opId := s.openingOpId + 1;
    var closed := Closed(s, closeThrows);
    if Throws(s, closeThrows) then Stuck(closed, opId)
    else Raised(closed, opId, closed.epoch + 1, Opening(opId, closed.epoch + 1, readOnly))
  }

  function Repaired(s: State, closeThrows: bool): State {
    var opId := s.openingOpId + 1;
    var closed := Closed(s, closeThrows);
    if Throws(s, closeThrows) then Stuck(closed, opId)
    else Raised(closed, opId, closed.epoch + 1, Repairing(opId, closed.epoch + 1))
  }

  function Raised(s: State, opId: nat, epoch: nat, task: Task): State {
    Begun(s.(opening := true, openingOpId := opId, epoch := epoch), task)
  }

  function Stuck(s: State, opId: nat): State {
    s.(opening := true, openingOpId := opId, stuck := true)
  }

  /** The `finally` of `open` and `repairBrief`. */
  function Lowered(s: State, opId: nat): State {
    if s.openingOpId == opId then s.(opening := false) else s
  }

  /** A handle that arrives too late is closed; a close that throws is followed by a second, best-effort one. */
  function Discarded(s: State, h: Handle, closeThrows: bool): State {
    var once := CloseHandle(s, h, closeThrows);
    if closeThrows then CloseHandle(once, h, false) else once
  }

  function Step(s: State, e: Event): State {
    match e
    case Close(dispose, closeThrows) => Closed(if dispose then s.(disposed := true) else s, closeThrows)
    case CreateBegin(valid, closeThrows) =>
      if s.disposed || s.opening || s.maintaining || !valid then s
      else if Throws(s, closeThrows) then Closed(s, closeThrows)
      else
        var closed := Closed(s, closeThrows);
        Raised(closed, s.openingOpId, closed.epoch, Creating(closed.epoch))
    case CreateResume(task, created, closeThrows) =>
      if task !in s.tasks || !s.tasks[task].Creating? then s
      else
        var lowered := Ended(s, task).(opening := false);
        if !created || s.disposed || s.tasks[task].epoch != s.epoch then lowered
        else if lowered.maintaining then lowered
        else Opened(lowered, false, closeThrows)
    case OpenBegin(valid, readOnly, closeThrows) =>
      if s.disposed || s.maintaining || !valid || s.opening then s else Opened(s, readOnly, closeThrows)
    case OpenResume(task, succeeded, closeThrows) =>
      if task !in s.tasks || !s.tasks[task].Opening? then s
      else
        var t := s.tasks[task];
        var ended := Ended(s, task);
        if !succeeded then Lowered(ended, t.opId)
        else
          var h := s.handles;
          var counted := ended.(handles := s.handles + 1);
          if s.disposed || s.epoch != t.epoch then
            Lowered(Discarded(counted, h, closeThrows), t.opId)
          else Lowered(counted.(kernel := Some(Installed(h, s.epoch)), readOnly := t.readOnly), t.opId)
    case RepairBegin(valid, closeThrows) =>
      if s.disposed || s.maintaining || !valid || s.opening then s else Repaired(s, closeThrows)
    case RepairResume(task) =>
      if task !in s.tasks || !s.tasks[task].Repairing? then s
      else Lowered(Ended(s, task), s.tasks[task].opId)
    case MaintainBegin(valid, needsGeneration, generation) =>
      if !valid || s.disposed || s.opening || s.maintaining || s.kernel.Some? then s
      else if needsGeneration && generation != s.epoch then s
      else Begun(s.(maintaining := true), Maintaining)
    case MaintainResume(task) =>
      if task !in s.tasks || !s.tasks[task].Maintaining? then s
      else Ended(s, task).(maintaining := false)
  }

  function Run(s: State, events: seq<Event>): State {
    if events == [] then s else Step(Run(s, events[..|events| - 1]), events[|events| - 1])
  }

  /** At some step of the run, `what` holds of the state before it and of the event. */
  predicate Occurs(s: State, events: seq<Event>, what: (State, Event) -> bool) {
    events != [] &&
    var front := events[..|events| - 1];
    Occurs(s, front, what) || what(Run(s, front), events[|events| - 1])
  }

  // ----- What every run keeps -----

  ghost predicate TaskSound(s: State, id: nat) {
    id in s.tasks ==>
      && id < s.nextTask
      && s.kernel.None?
      && (if s.tasks[id].Maintaining? then s.maintaining && !s.opening else s.opening && !s.maintaining && !s.stuck)
      && (s.tasks[id].Opening? || s.tasks[id].Repairing? ==> s.tasks[id].opId == s.openingOpId)
      && (!s.tasks[id].Maintaining? ==> s.tasks[id].epoch <= s.epoch)
  }

  /** A handle is installed or closed; it is closed once, and a second time only when the first close threw. */
  ghost predicate HandleSound(s: State, h: Handle) {
    && (h < s.handles ==> (s.kernel.Some? && s.kernel.value.handle == h) || ClosesOf(s.closes, h) >= 1)
    && (s.kernel.Some? && s.kernel.value.handle == h ==> h < s.handles && ClosesOf(s.closes, h) == 0)
    && ClosesOf(s.closes, h) <= (if h in s.threw then 2 else 1)
    && (h >= s.handles ==> ClosesOf(s.closes, h) == 0)
  }

  ghost predicate Sound(s: State) {
    // An installed kernel belongs to the current session generation.
    && (s.kernel.Some? ==> s.kernel.value.epoch == s.epoch && !s.disposed && !s.opening)
    // One call at most is in flight, maintenance included.
    && (forall i, j :: i in s.tasks && j in s.tasks ==> i == j)
    && (forall id :: TaskSound(s, id))
    && (forall h :: HandleSound(s, h))
    // Nothing is in flight exactly when neither flag is up, save for an `opening` that got stuck.
    && (s.tasks == map[] <==> (s.opening ==> s.stuck) && !s.maintaining)
    && (s.maintaining ==> s.kernel.None? && !s.opening)
    && (s.stuck ==> s.opening && s.kernel.None? && s.threw != {})
  }

  lemma ClosedIsSound(s: State, dispose: bool, closeThrows: bool)
    requires Sound(s)
    ensures var t := Closed(if dispose then s.(disposed := true) else s, closeThrows);
            && Sound(t) && t.kernel.None? && t.tasks == s.tasks
            && t.opening == s.opening && t.maintaining == s.maintaining && t.stuck == s.stuck && t.epoch == s.epoch + 1
            && (Throws(s, closeThrows) ==> t.threw != {})
  {
    var t := Closed(if dispose then s.(disposed := true) else s, closeThrows);
    forall id
      ensures TaskSound(t, id)
    {
      assert TaskSound(s, id);
    }
    forall h
      ensures HandleSound(t, h)
    {
      assert HandleSound(s, h) && (s.kernel.Some? ==> HandleSound(s, s.kernel.value.handle));
    }
    if Throws(s, closeThrows) {
      assert s.kernel.value.handle in t.threw;
    }
  }

  ghost predicate AtRest(s: State) {
    s.kernel.None? && !s.opening && !s.maintaining
  }

  lemma RaisedIsSound(s: State, opId: nat, epoch: nat, task: Task)
    requires Sound(s) && AtRest(s) && epoch >= s.epoch && !task.Maintaining? && task.epoch <= epoch
    requires task.Opening? || task.Repairing? ==> task.opId == opId
    ensures Sound(Raised(s, opId, epoch, task))
  {
    var t := Raised(s, opId, epoch, task);
    assert s.nextTask in t.tasks;
    HandlesUntouched(s, t);
  }

  lemma HandlesUntouched(s: State, t: State)
    requires forall h :: HandleSound(s, h)
    requires t.kernel == s.kernel && t.handles == s.handles && t.closes == s.closes && t.threw == s.threw
    ensures forall h :: HandleSound(t, h)
  {
    forall h
      ensures HandleSound(t, h)
    {
      assert HandleSound(s, h);
    }
  }

  lemma StuckIsSound(s: State, opId: nat)
    requires Sound(s) && AtRest(s) && s.threw != {}
    ensures Sound(Stuck(s, opId))
  {
    HandlesUntouched(s, Stuck(s, opId));
  }

  lemma ClosedAtRest(s: State, closeThrows: bool)
    requires Sound(s) && !s.opening && !s.maintaining
    ensures Sound(Closed(s, closeThrows)) && AtRest(Closed(s, closeThrows))
    ensures Throws(s, closeThrows) ==> Closed(s, closeThrows).threw != {}
  {
    ClosedIsSound(s, false, closeThrows);
  }

  lemma OpenedIsSound(s: State, readOnly: bool, closeThrows: bool)
    requires Sound(s) && !s.opening && !s.maintaining
    ensures Sound(Opened(s, readOnly, closeThrows))
  {
    var opId, closed := s.openingOpId + 1, Closed(s, closeThrows);
    ClosedAtRest(s, closeThrows);
    if Throws(s, closeThrows) {
      StuckIsSound(closed, opId);
    } else {
      RaisedIsSound(closed, opId, closed.epoch + 1, Opening(opId, closed.epoch + 1, readOnly));
    }
  }

  lemma RepairedIsSound(s: State, closeThrows: bool)
    requires Sound(s) && !s.opening && !s.maintaining
    ensures Sound(Repaired(s, closeThrows))
  {
    var opId, closed := s.openingOpId + 1, Closed(s, closeThrows);
    ClosedAtRest(s, closeThrows);
    if Throws(s, closeThrows) {
      StuckIsSound(closed, opId);
    } else {
      RaisedIsSound(closed, opId, closed.epoch + 1, Repairing(opId, closed.epoch + 1));
    }
  }

  /** Ending the one call in flight leaves the session at rest. */
  lemma EndedIsSound(s: State, task: nat)
    requires Sound(s) && task in s.tasks
    ensures var t := Ended(s, task).(opening := false, maintaining := false);
            Sound(t) && AtRest(t) && t.tasks == map[] && !t.stuck
    ensures s.maintaining == s.tasks[task].Maintaining? && s.opening == !s.tasks[task].Maintaining?
    ensures s.tasks[task].Opening? || s.tasks[task].Repairing? ==> s.tasks[task].opId == s.openingOpId
  {
    assert TaskSound(s, task);
    HandlesUntouched(s, Ended(s, task).(opening := false, maintaining := false));
  }

  lemma InstalledIsSound(s: State, readOnly: bool)
    requires Sound(s) && AtRest(s) && s.tasks == map[] && !s.disposed
    ensures Sound(s.(handles := s.handles + 1, kernel := Some(Installed(s.handles, s.epoch)), readOnly := readOnly))
  {
    var t := s.(handles := s.handles + 1, kernel := Some(Installed(s.handles, s.epoch)), readOnly := readOnly);
    forall h
      ensures HandleSound(t, h)
    {
      assert HandleSound(s, h);
    }
  }

  lemma DiscardedIsSound(s: State, closeThrows: bool)
    requires Sound(s) && AtRest(s) && s.tasks == map[]
    ensures Sound(Discarded(s.(handles := s.handles + 1), s.handles, closeThrows))
  {
    var t := Discarded(s.(handles := s.handles + 1), s.handles, closeThrows);
    forall h
      ensures HandleSound(t, h)
    {
      assert HandleSound(s, h) && HandleSound(s, s.handles);
    }
  }

  lemma ResumeOpenKeepsSound(s: State, task: nat, succeeded: bool, closeThrows: bool)
    requires Sound(s) && task in s.tasks && s.tasks[task].Opening?
    ensures Sound(Step(s, OpenResume(task, succeeded, closeThrows)))
  {
    EndedIsSound(s, task);
    var t := Ended(s, task).(opening := false, maintaining := false);
    if succeeded {
      if s.disposed || s.epoch != s.tasks[task].epoch {
        DiscardedIsSound(t, closeThrows);
      } else {
        InstalledIsSound(t, s.tasks[task].readOnly);
      }
    }
  }

  lemma StepKeepsSound(s: State, e: Event)
    requires Sound(s)
    ensures Sound(Step(s, e))
  {
    match e
    case Close(dispose, closeThrows) => ClosedIsSound(s, dispose, closeThrows);
    case CreateBegin(_, closeThrows) =>
      if !s.opening && !s.maintaining {
        ClosedAtRest(s, closeThrows);
        var closed := Closed(s, closeThrows);
        RaisedIsSound(closed, s.openingOpId, closed.epoch, Creating(closed.epoch));
      }
    case CreateResume(task, _, closeThrows) =>
      if task in s.tasks && s.tasks[task].Creating? {
        EndedIsSound(s, task);
        OpenedIsSound(Ended(s, task).(opening := false), false, closeThrows);
      }
    case OpenBegin(_, readOnly, closeThrows) =>
      if !s.opening && !s.maintaining { OpenedIsSound(s, readOnly, closeThrows); }
    case OpenResume(task, succeeded, closeThrows) =>
      if task in s.tasks && s.tasks[task].Opening? { ResumeOpenKeepsSound(s, task, succeeded, closeThrows); }
    case RepairBegin(_, closeThrows) =>
      if !s.opening && !s.maintaining { RepairedIsSound(s, closeThrows); }
    case RepairResume(task) =>
      if task in s.tasks { EndedIsSound(s, task); }
    case MaintainBegin(_, _, _) =>
      HandlesUntouched(s, Step(s, e));
      if Step(s, e) != s { assert s.nextTask in Step(s, e).tasks; }
    case MaintainResume(task) =>
      if task in s.tasks { EndedIsSound(s, task); }
  }

  /** Over every interleaving of create, open, close, dispose, repair and maintenance. */
  lemma {:induction false} RunKeepsSound(s: State, events: seq<Event>)
    requires Sound(s)
    ensures Sound(Run(s, events))
  {
    if events != [] {
      RunKeepsSound(s, events[..|events| - 1]);
      StepKeepsSound(Run(s, events[..|events| - 1]), events[|events| - 1]);
    }
  }

  // ----- The generation pins the session -----

  lemma StepPinsSession(s: State, e: Event)
    requires Sound(s)
    ensures Step(s, e).epoch >= s.epoch
    ensures s.disposed ==> Step(s, e).disposed
    ensures Step(s, e).epoch == s.epoch && s.kernel.Some? ==>
              Step(s, e).kernel == s.kernel && Step(s, e).disposed == s.disposed && Step(s, e).readOnly == s.readOnly
  {
    if e.CreateResume? || e.OpenResume? || e.RepairResume? || e.MaintainResume? {
      assert TaskSound(s, e.task);
    }
  }

  /**
   * The generation never falls; while it stands still an open session is the same session: no close or reopen hides
   * in between.
   */
  lemma {:induction false} GenerationPinsSession(s: State, events: seq<Event>)
    requires Sound(s)
    ensures Run(s, events).epoch >= s.epoch
    ensures s.disposed ==> Run(s, events).disposed
    ensures Run(s, events).epoch == s.epoch && s.kernel.Some? ==>
              Run(s, events).kernel == s.kernel && Run(s, events).disposed == s.disposed
                  && Run(s, events).readOnly == s.readOnly
  {
    if events != [] {
      var before := Run(s, events[..|events| - 1]);
      GenerationPinsSession(s, events[..|events| - 1]);
      RunKeepsSound(s, events[..|events| - 1]);
      StepPinsSession(before, events[|events| - 1]);
    }
  }

  // ----- What disposing ends -----

  /** Only calls that were already in flight. */
  ghost predicate Fewer(now: map<nat, Task>, before: map<nat, Task>) {
    forall id :: id in now ==> id in before && now[id] == before[id]
  }

  ghost predicate Over(s: State) {
    s.disposed && s.kernel.None?
  }

  lemma StepStaysOver(s: State, e: Event)
    requires Over(s)
    ensures var t := Step(s, e);
            Over(t) && t.nextTask == s.nextTask && Fewer(t.tasks, s.tasks) && t.readOnly == s.readOnly
  {
    if e.OpenResume? {
      OpenResumeStaysOver(s, e.task, e.succeeded, e.closeThrows);
    } else if e.CreateResume? || e.RepairResume? || e.MaintainResume? {
      EndedKeys(s, e.task);
    }
  }

  lemma EndedKeys(s: State, task: nat)
    ensures Fewer(Ended(s, task).tasks, s.tasks)
  {
  }

  lemma OpenResumeStaysOver(s: State, task: nat, succeeded: bool, closeThrows: bool)
    requires Over(s)
    ensures var t := Step(s, OpenResume(task, succeeded, closeThrows));
            Over(t) && t.nextTask == s.nextTask && Fewer(t.tasks, s.tasks) && t.readOnly == s.readOnly
  {
    EndedKeys(s, task);
    if task in s.tasks && s.tasks[task].Opening? && succeeded {
      var counted := Ended(s, task).(handles := s.handles + 1);
      DiscardedKeeps(counted, s.handles, closeThrows);
      assert Step(s, OpenResume(task, succeeded, closeThrows)) ==
             Lowered(Discarded(counted, s.handles, closeThrows), s.tasks[task].opId);
    }
  }

  lemma DiscardedKeeps(s: State, h: Handle, closeThrows: bool)
    ensures var t := Discarded(s, h, closeThrows); t == s.(closes := t.closes, threw := t.threw)
  {
  }

  /**
   * Disposing disposes for good: in every later run the session is disposed and no kernel is installed, no call is
   * begun any more, and every handle that still arrives is closed.
   */
  lemma {:induction false} DisposedForever(s: State, closeThrows: bool, events: seq<Event>)
    requires Sound(s)
    ensures var t := Run(Step(s, Close(true, closeThrows)), events);
            && t.disposed && t.kernel.None?
            && t.nextTask == s.nextTask && Fewer(t.tasks, s.tasks) && t.readOnly == s.readOnly
            && forall h: Handle :: h < t.handles ==> ClosesOf(t.closes, h) >= 1
  {
    var start := Step(s, Close(true, closeThrows));
    StepKeepsSound(s, Close(true, closeThrows));
    RunKeepsSound(start, events);
    if events != [] {
      var front := events[..|events| - 1];
      DisposedForever(s, closeThrows, front);
      StepStaysOver(Run(start, front), events[|events| - 1]);
    }
    forall h: Handle | h < Run(start, events).handles
      ensures ClosesOf(Run(start, events).closes, h) >= 1
    {
      assert HandleSound(Run(start, events), h);
    }
  }

  // ----- A close that throws inside `open` or `repairBrief` -----

  /** The synchronous part of `open` or `repairBrief` is admitted and the close of the old handle throws. */
  predicate ThrowsOnOpening(s: State, e: Event) {
    (e.OpenBegin? || e.RepairBegin?) && e.valid && s.kernel.Some? && e.closeThrows
  }

  /** `opening` is left raised with nothing in flight exactly when the handle being closed there throws. */
  lemma StepSticksExactlyWhenCloseThrows(s: State, e: Event)
    requires Sound(s) && !s.stuck
    ensures Step(s, e).stuck <==> ThrowsOnOpening(s, e)
  {
    if e.CreateResume? {
      assert TaskSound(s, e.task);
    }
  }

  /** Over any run `opening` gets stuck exactly when the close throws in some admitted `open` or `repairBrief`. */
  lemma {:induction false} OpeningSticksExactlyWhenCloseThrows(s: State, events: seq<Event>)
    requires Sound(s) && !s.stuck
    ensures Run(s, events).stuck <==> Occurs(s, events, ThrowsOnOpening)
  {
    if events != [] {
      var before, last := Run(s, events[..|events| - 1]), events[|events| - 1];
      OpeningSticksExactlyWhenCloseThrows(s, events[..|events| - 1]);
      RunKeepsSound(s, events[..|events| - 1]);
      if before.stuck {
        StuckStays(before, last);
      } else {
        StepSticksExactlyWhenCloseThrows(before, last);
      }
    }
  }

  /** It happens: a project is open, and closing it on the way to opening another throws. */
  lemma OpeningCanStick(readOnly: bool)
    ensures var events := [OpenBegin(true, readOnly, false), OpenResume(0, true, false),
        OpenBegin(true, readOnly, true)];
            Run(INITIAL, events).stuck
  {
    ThreeSteps(INITIAL, OpenBegin(true, readOnly, false), OpenResume(0, true, false), OpenBegin(true, readOnly, true));
  }

  lemma ThreeSteps(s: State, a: Event, b: Event, c: Event)
    ensures Run(s, [a, b, c]) == Step(Step(Step(s, a), b), c)
  {
    var events := [a, b, c];
    assert events[..2] == [a, b] && [a, b][..1] == [a] && [a][..0] == [];
    assert Run(s, []) == s && Run(s, [a]) == Step(s, a) && Run(s, [a, b]) == Step(Step(s, a), b);
  }

  lemma StuckStays(s: State, e: Event)
    requires Sound(s) && s.stuck
    ensures Step(s, e).stuck && Step(s, e).opening && Step(s, e).tasks == map[] && Step(s, e).kernel.None?
  {
  }

  /** From then on nothing is admitted any more: no open, create, repair or maintenance, in any run. */
  lemma {:induction false} StuckForever(s: State, events: seq<Event>)
    requires Sound(s) && s.stuck
    ensures var t := Run(s, events); t.stuck && t.opening && t.tasks == map[] && t.kernel.None?
  {
    if events != [] {
      var before := Run(s, events[..|events| - 1]);
      StuckForever(s, events[..|events| - 1]);
      RunKeepsSound(s, events[..|events| - 1]);
      StuckStays(before, events[|events| - 1]);
    }
  }

  // ----- How often a handle is closed -----

  /** A handle arrives after the session moved on, and its close throws: the best-effort cleanup closes it again. */
  predicate ThrowsWhenLate(s: State, e: Event) {
    && e.OpenResume? && e.succeeded && e.closeThrows
    && e.task in s.tasks && s.tasks[e.task].Opening?
    && (s.disposed || s.epoch != s.tasks[e.task].epoch)
  }

  ghost predicate ClosedTwice(s: State, h: Handle) {
    ClosesOf(s.closes, h) > 1
  }

  ghost predicate SomeClosedTwice(s: State) {
    exists h :: ClosedTwice(s, h)
  }

  /** One step closes a handle a second time exactly when it is the late handle whose close throws. */
  lemma StepClosesTwiceExactlyWhenLate(s: State, e: Event, h: Handle)
    requires Sound(s)
    ensures ClosedTwice(Step(s, e), h) <==> ClosedTwice(s, h) || (ThrowsWhenLate(s, e) && h == s.handles)
  {
    if e.OpenResume? || e.CreateResume? {
      ResumeClosesTwiceExactlyWhenLate(s, e, h);
    } else {
      assert HandleSound(s, h) && HandleSound(s, s.handles);
      if s.kernel.Some? {
        assert HandleSound(s, s.kernel.value.handle);
      }
    }
  }

  lemma ResumeClosesTwiceExactlyWhenLate(s: State, e: Event, h: Handle)
    requires Sound(s) && (e.OpenResume? || e.CreateResume?)
    ensures ClosedTwice(Step(s, e), h) <==> ClosedTwice(s, h) || (ThrowsWhenLate(s, e) && h == s.handles)
  {
    assert HandleSound(s, h) && HandleSound(s, s.handles) && TaskSound(s, e.task);
  }

  /** Over any run some handle is closed twice exactly when some late handle's close throws. */
  lemma {:induction false} HandlesCloseTwiceExactlyWhenLate(s: State, events: seq<Event>)
    requires Sound(s) && !SomeClosedTwice(s)
    ensures SomeClosedTwice(Run(s, events)) <==> Occurs(s, events, ThrowsWhenLate)
  {
    if events != [] {
      var before, last := Run(s, events[..|events| - 1]), events[|events| - 1];
      HandlesCloseTwiceExactlyWhenLate(s, events[..|events| - 1]);
      RunKeepsSound(s, events[..|events| - 1]);
      SomeClosedTwiceExactlyWhenLate(before, last);
    }
  }

  lemma SomeClosedTwiceExactlyWhenLate(s: State, e: Event)
    requires Sound(s)
    ensures SomeClosedTwice(Step(s, e)) <==> SomeClosedTwice(s) || ThrowsWhenLate(s, e)
  {
    if h :| ClosedTwice(Step(s, e), h) {
      StepClosesTwiceExactlyWhenLate(s, e, h);
    }
    if h :| ClosedTwice(s, h) {
      StepClosesTwiceExactlyWhenLate(s, e, h);
    }
    StepClosesTwiceExactlyWhenLate(s, e, s.handles);
  }

  /** It happens: the session is closed while a project is being opened, and the late handle's close throws. */
  lemma HandleCanCloseTwice(readOnly: bool)
    ensures var events := [OpenBegin(true, readOnly, false), Close(false, false), OpenResume(0, true, true)];
            ClosedTwice(Run(INITIAL, events), 0)
  {
    ThreeSteps(INITIAL, OpenBegin(true, readOnly, false), Close(false, false), OpenResume(0, true, true));
  }

  /** A handle is installed exactly until it is closed for the first time. */
  lemma InstalledExactlyUntilClosed(s: State, h: Handle)
    requires Sound(s) && h < s.handles
    ensures (s.kernel.Some? && s.kernel.value.handle == h) <==> ClosesOf(s.closes, h) == 0
  {
    assert HandleSound(s, h);
  }

  // ----- The api as written -----

  class KernelApplicationApi {
    var kernel: Option<Installed>
    var opening: bool
    var openingOpId: nat
    var epoch: nat
    var disposed: bool
    var readOnly: bool
    var maintaining: bool
    ghost var history: State

    constructor ()
      ensures Valid() && history == INITIAL
    {
      kernel, opening, openingOpId, epoch := None, false, 0, 0;
      disposed, readOnly, maintaining := false, false, false;
      history := INITIAL;
      new;
    }

    /** The fields are the machine's, and the machine is sound. */
    ghost predicate Valid()
      reads this
    {
      && history.kernel == kernel && history.opening == opening && history.openingOpId == openingOpId
      && history.epoch == epoch && history.disposed == disposed && history.readOnly == readOnly
      && history.maintaining == maintaining
      && Sound(history)
    }

    predicate Active()
      reads this
    {
      kernel.Some? && !disposed
    }

    /** Returns whether the handle's close threw, and the exception with it. */
    method CloseSession(dispose: bool, closeThrows: bool) returns (threw: bool)
      requires Valid()
      modifies this
      ensures Valid() && history == Step(old(history), Close(dispose, closeThrows))
      ensures threw == (old(kernel).Some? && closeThrows)
      ensures kernel == None && epoch == old(epoch) + 1 && disposed == (old(disposed) || dispose)
      ensures opening == old(opening) && openingOpId == old(openingOpId) && readOnly == old(readOnly)
              && maintaining == old(maintaining)
    {
      StepKeepsSound(history, Close(dispose, closeThrows));
      history := Step(history, Close(dispose, closeThrows));
      if dispose {
        disposed := true;
      }
      epoch := epoch + 1;
      var k := kernel;
      kernel := None;
      threw := k.Some? && closeThrows;
    }

    /**
     * Up to the await on `createKernelProject`; answers the suspended call, or nothing when it was refused or
     * failed.
     */
    method BeginCreate(valid: bool, closeThrows: bool) returns (waiting: Option<Task>, ghost id: nat)
      requires Valid()
      modifies this
      ensures Valid() && history == Step(old(history), CreateBegin(valid, closeThrows))
      ensures waiting.Some? ==> Suspended(id, waiting.value)
      ensures var admitted := valid && !old(disposed) && !old(opening) && !old(maintaining);
              && disposed == old(disposed) && maintaining == old(maintaining) && readOnly == old(readOnly)
              && openingOpId == old(openingOpId)
              && kernel == (if admitted then None else old(kernel))
              && epoch == (if admitted then old(epoch) + 1 else old(epoch))
              && waiting == (if admitted && !(old(kernel).Some? && closeThrows) then Some(Creating(epoch)) else None)
              && opening == (old(opening) || waiting.Some?)
    {
      id := history.nextTask;
      if disposed || opening || maintaining || !valid {
        return None, id;
      }
      ghost var before := history;
      StepKeepsSound(before, CreateBegin(valid, closeThrows));
      var threw := CloseSession(false, closeThrows);
      if threw {
        return None, id;
      }
      opening := true;
      history := Step(before, CreateBegin(valid, closeThrows));
      waiting := Some(Creating(epoch));
    }

    /** The suspended call `id`, as it remembers itself. */
    ghost predicate Suspended(id: nat, task: Task)
      reads this
    {
      id in history.tasks && history.tasks[id] == task
    }

    /** Back from `createKernelProject`; on success the project is opened in the same turn. */
    method ResumeCreate(task: Task, ghost id: nat, created: bool, closeThrows: bool)
      returns (waiting: Option<Task>, ghost next: nat)
      requires Valid() && task.Creating? && Suspended(id, task)
      modifies this
      ensures Valid() && history == Step(old(history), CreateResume(id, created, closeThrows))
      ensures waiting.Some? ==> Suspended(next, waiting.value)
      ensures var goesOn := created && !old(disposed) && task.epoch == old(epoch);
              && disposed == old(disposed) && maintaining == old(maintaining) && readOnly == old(readOnly)
              && kernel == None && opening == goesOn
              && epoch == (if goesOn then old(epoch) + 2 else old(epoch))
              && openingOpId == (if goesOn then old(openingOpId) + 1 else old(openingOpId))
              && waiting == (if goesOn then Some(Opening(openingOpId, epoch, false)) else None)
    {
      ghost var before, event := history, CreateResume(id, created, closeThrows);
      StepKeepsSound(before, event);
      ResumeKeepsSound(before, id);
      next := history.nextTask;
      opening := false;
      history := Resumed(before, id);
      if !created || disposed || task.epoch != epoch {
        assert history == Step(before, event);
        return None, next;
      }
      waiting, next := BeginOpen(true, false, closeThrows);
    }

    method BeginOpen(valid: bool, asReadOnly: bool, closeThrows: bool) returns (waiting: Option<Task>, ghost id: nat)
      requires Valid()
      modifies this
      ensures Valid() && history == Step(old(history), OpenBegin(valid, asReadOnly, closeThrows))
      ensures waiting.Some? ==> Suspended(id, waiting.value)
      ensures var admitted := valid && !old(disposed) && !old(opening) && !old(maintaining);
              var threw := old(kernel).Some? && closeThrows;
              && disposed == old(disposed) && maintaining == old(maintaining) && readOnly == old(readOnly)
              && kernel == (if admitted then None else old(kernel)) && opening == (old(opening) || admitted)
              && openingOpId == (if admitted then old(openingOpId) + 1 else old(openingOpId))
              && epoch == (if !admitted then old(epoch) else if threw then old(epoch) + 1 else old(epoch) + 2)
              && waiting == (if admitted && !threw then Some(Opening(openingOpId, epoch, asReadOnly)) else None)
    {
      id := history.nextTask;
      if disposed || maintaining || !valid || opening {
        return None, id;
      }
      ghost var before, event := history, OpenBegin(valid, asReadOnly, closeThrows);
      StepKeepsSound(before, event);
      opening := true;
      openingOpId := openingOpId + 1;
      epoch := epoch + 1;
      var threw := kernel.Some? && closeThrows;
      kernel := None;
      history := Step(before, event);
      if threw {
        return None, id;
      }
      epoch := epoch + 1;
      waiting := Some(Opening(openingOpId, epoch, asReadOnly));
    }

    /** Back from the opener with a handle, or without one. */
    method ResumeOpen(task: Task, ghost id: nat, openedHandle: Option<Handle>, closeThrows: bool)
        returns (installed: bool)
      requires Valid() && task.Opening? && Suspended(id, task)
      requires openedHandle.Some? ==> openedHandle.value == history.handles
      modifies this
      ensures Valid() && history == Step(old(history), OpenResume(id, openedHandle.Some?, closeThrows))
      ensures installed <==> openedHandle.Some? && !disposed && epoch == task.epoch
      ensures installed ==> kernel == Some(Installed(openedHandle.value, epoch)) && readOnly == task.readOnly
      ensures !installed ==> kernel == None && readOnly == old(readOnly)
      ensures !opening && epoch == old(epoch) && disposed == old(disposed) && openingOpId == old(openingOpId)
              && maintaining == old(maintaining)
    {
      ghost var before, event := history, OpenResume(id, openedHandle.Some?, closeThrows);
      ResumeOpenKeepsSound(before, id, openedHandle.Some?, closeThrows);
      EndedIsSound(before, id);
      assert openingOpId == task.opId;
      history := Step(before, event);
      installed := openedHandle.Some? && !disposed && epoch == task.epoch;
      if installed {
        kernel, readOnly := Some(Installed(openedHandle.value, epoch)), task.readOnly;
      }
      if openingOpId == task.opId {
        opening := false;
      }
    }

    method BeginRepair(valid: bool, closeThrows: bool) returns (waiting: Option<Task>, ghost id: nat)
      requires Valid()
      modifies this
      ensures Valid() && history == Step(old(history), RepairBegin(valid, closeThrows))
      ensures waiting.Some? ==> Suspended(id, waiting.value)
      ensures var admitted := valid && !old(disposed) && !old(opening) && !old(maintaining);
              var threw := old(kernel).Some? && closeThrows;
              && disposed == old(disposed) && maintaining == old(maintaining) && readOnly == old(readOnly)
              && kernel == (if admitted then None else old(kernel)) && opening == (old(opening) || admitted)
              && openingOpId == (if admitted then old(openingOpId) + 1 else old(openingOpId))
              && epoch == (if !admitted then old(epoch) else if threw then old(epoch) + 1 else old(epoch) + 2)
              && waiting == (if admitted && !threw then Some(Repairing(openingOpId, epoch)) else None)
    {
      id := history.nextTask;
      if disposed || maintaining || !valid || opening {
        return None, id;
      }
      ghost var before, event := history, RepairBegin(valid, closeThrows);
      StepKeepsSound(before, event);
      opening := true;
      openingOpId := openingOpId + 1;
      epoch := epoch + 1;
      var threw := kernel.Some? && closeThrows;
      kernel := None;
      history := Step(before, event);
      if threw {
        return None, id;
      }
      epoch := epoch + 1;
      waiting := Some(Repairing(openingOpId, epoch));
    }

    method ResumeRepair(task: Task, ghost id: nat)
      requires Valid() && task.Repairing? && Suspended(id, task)
      modifies this
      ensures Valid() && history == Step(old(history), RepairResume(id))
      ensures !opening && kernel == None && epoch == old(epoch) && disposed == old(disposed)
              && openingOpId == old(openingOpId) && readOnly == old(readOnly) && maintaining == old(maintaining)
    {
      StepKeepsSound(history, RepairResume(id));
      history := Step(history, RepairResume(id));
      if openingOpId == task.opId {
        opening := false;
      }
    }

    method BeginMaintenance(valid: bool, needsGeneration: bool, generation: nat) returns (waiting: bool, ghost id: nat)
      requires Valid()
      modifies this
      ensures Valid() && history == Step(old(history), MaintainBegin(valid, needsGeneration, generation))
      ensures waiting ==> Suspended(id, Maintaining)
      ensures waiting <==> valid && !old(disposed) && !old(opening) && !old(maintaining) && old(kernel).None?
                           && (needsGeneration ==> generation == old(epoch))
      ensures maintaining == (old(maintaining) || waiting) && kernel == old(kernel) && opening == old(opening)
              && epoch == old(epoch) && disposed == old(disposed) && openingOpId == old(openingOpId)
              && readOnly == old(readOnly)
    {
      id := history.nextTask;
      var active := Active();
      if !valid || disposed || opening || maintaining || active {
        return false, id;
      }
      if needsGeneration && generation != epoch {
        return false, id;
      }
      StepKeepsSound(history, MaintainBegin(valid, needsGeneration, generation));
      history := Step(history, MaintainBegin(valid, needsGeneration, generation));
      maintaining, waiting := true, true;
    }

    method ResumeMaintenance(ghost id: nat)
      requires Valid() && Suspended(id, Maintaining)
      modifies this
      ensures Valid() && history == Step(old(history), MaintainResume(id))
      ensures !maintaining && kernel == None && !opening && epoch == old(epoch) && disposed == old(disposed)
              && openingOpId == old(openingOpId) && readOnly == old(readOnly)
    {
      StepKeepsSound(history, MaintainResume(id));
      history := Step(history, MaintainResume(id));
      maintaining := false;
    }
  }

  /** After the `finally` of `create`, before it opens the project. */
  function Resumed(s: State, task: nat): State {
    Ended(s, task).(opening := false)
  }

  lemma ResumeKeepsSound(s: State, task: nat)
    requires Sound(s) && task in s.tasks && s.tasks[task].Creating?
    ensures Sound(Resumed(s, task)) && !s.maintaining && Resumed(s, task).tasks == map[]
  {
    EndedIsSound(s, task);
  }
}
