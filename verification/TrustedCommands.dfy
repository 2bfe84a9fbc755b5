/**
 * Confirmed execution on top of the session machine: read a snapshot, ask the user, read it again, execute.
 * Every await is a point where the session, other commands and `revoke` may move.
 */
module TrustedCommands {
  import opened Ordering
  import KernelSession

  type Session = KernelSession.State

  datatype Action = Commit | StartAttempt | GovernMemory | PrivacyCleanup | EnableHostBridge | Other(name: string)

  predicate Sensitive(a: Action) {
    !a.Other?
  }

  /** How many reads make up a snapshot. */
  function PartsNeeded(a: Action): nat {
    match a
    case Commit => 2
    case StartAttempt => 2
    case GovernMemory => 1
    case PrivacyCleanup => 1
    case _ => 0
  }

  datatype Body = Body(action: Action, project: Option<string>, sessionGeneration: nat, details: string)

  /** `status()`: what the binding and the later comparison hash. */
  datatype Status = Status(project: Option<string>, sessionGeneration: nat, readOnly: bool)

  /** What the user is shown, and what must be read again unchanged; it stands for its hash. */
  datatype Binding = Binding(status: Status, body: Body, saved: seq<string>)

  /** A sensitive command between its start and its end. `kernel` is history: the session it started in. */
  datatype Call =
    | Reading(body: Body, status: Status, generation: nat, kernel: Option<KernelSession.Installed>,
              parts: seq<string>, admitted: bool)
    | Confirming(body: Body, status: Status, generation: nat, kernel: Option<KernelSession.Installed>,
                 saved: seq<string>, shownAt: int)
    | Rereading(body: Body, status: Status, generation: nat, kernel: Option<KernelSession.Installed>,
                saved: seq<string>, parts: seq<string>, admitted: bool)

  /** The user accepted this binding for this call, at this time and revocation count. */
  datatype Answer = Answer(call: nat, binding: Binding, shownAt: int, answeredAt: int, generation: nat)

  /** A command that reached the kernel; for a sensitive one, on whose answer and on which second reading. */
  datatype Dispatch =
    | Plain(body: Body, kernel: KernelSession.Installed)
    | Confirmed(call: nat, body: Body, reread: Binding, start: Option<KernelSession.Installed>, generation: nat,
                kernel: KernelSession.Installed)

  /** `answers` and `dispatched` are history. */
  datatype Commands = Commands(
    generation: nat, pending: bool, calls: map<nat, Call>, nextCall: nat, answers: set<Answer>,
    dispatched: seq<Dispatch>)

  datatype State = State(session: Session, commands: Commands)

  datatype Event =
    | OfSession(event: KernelSession.Event)
    | Revoke
    | Execute(body: Body, wellFormed: bool)
    | Part(call: nat, value: Option<string>)
    | Settle(call: nat, now: int)
    | Reply(call: nat, accepted: bool, now: int)

  const CONFIRMATION_MS: int := 60000

  function StatusOf(s: Session, projectOf: nat -> string): Status {
    Status(if s.kernel.Some? then Some(projectOf(s.kernel.value.handle)) else None, s.epoch, s.readOnly)
  }

  /** `api.execute(body, true)` gets past its session checks. */
  predicate Reaches(s: Session, body: Body, projectOf: nat -> string) {
    s.kernel.Some? && !s.disposed && body.project == Some(projectOf(s.kernel.value.handle))
        && body.sessionGeneration == s.epoch
  }

  function Released(c: Commands, call: nat): Commands {
    c.(pending := false, calls := c.calls - {call})
  }

  function Dispatched(c: Commands, s: Session, d: Dispatch, projectOf: nat -> string): Commands {
    if Reaches(s, d.body, projectOf) then c.(dispatched := c.dispatched + [d]) else c
  }

  /** One step of the commands, the session standing as it does. */
  function CommandStep(c: Commands, s: Session, e: Event, projectOf: nat -> string): Commands {
    match e
    case OfSession(_) => c
    case Revoke => c.(generation := c.generation + 1)
    case Execute(body, wellFormed) =>
      if !wellFormed || c.pending then c
      else if !Sensitive(body.action) then
        if s.kernel.None? then c else Dispatched(c, s, Plain(body, s.kernel.value), projectOf)
      else
        var status := StatusOf(s, projectOf);
        if status.project != body.project || status.sessionGeneration != body.sessionGeneration then c
        else
          c.(pending := true, nextCall := c.nextCall + 1,
             calls := c.calls[c.nextCall :=
                 Reading(body, status, c.generation, s.kernel, [], Reaches(s, body, projectOf))])
    case Part(call, value) =>
      if call !in c.calls || c.calls[call].Confirming?
          || |c.calls[call].parts| >= PartsNeeded(c.calls[call].body.action) then c
      else if value.None? then Released(c, call)
      else if !c.calls[call].admitted then c
      else
        var k := c.calls[call];
        // The next read, if there is one, starts at once and passes the session checks or not.
        c.(calls := c.calls[call := k.(parts := k.parts + [value.value], admitted := Reaches(s, k.body, projectOf))])
    case Settle(call, now) =>
      if call !in c.calls || c.calls[call].Confirming?
          || |c.calls[call].parts| < PartsNeeded(c.calls[call].body.action) then c
      else
        var k := c.calls[call];
        if k.Reading? then
          c.(calls := c.calls[call := Confirming(k.body, k.status, k.generation, k.kernel, k.parts, now)])
        else if Binding(k.status, k.body, k.parts) != Binding(k.status, k.body, k.saved) || s.kernel.None?
        then Released(c, call)
        else
          Dispatched(Released(c, call), s,
                     Confirmed(call, k.body, Binding(k.status, k.body, k.parts), k.kernel, k.generation,
                         s.kernel.value), projectOf)
    case Reply(call, accepted, now) =>
      if call !in c.calls || !c.calls[call].Confirming? then c
      else
        var k := c.calls[call];
        if !accepted then Released(c, call)
        else
          var answer := Answer(call, Binding(k.status, k.body, k.saved), k.shownAt, now, c.generation);
          var answered := c.(answers := c.answers + {answer});
          if k.generation != c.generation || now >= k.shownAt + CONFIRMATION_MS || StatusOf(s, projectOf) != k.status
          then Released(answered, call)
          else
            answered.(calls := c.calls[call :=
              Rereading(k.body, k.status, k.generation, k.kernel, k.saved, [], Reaches(s, k.body, projectOf))])
  }

  function Step(t: State, e: Event, projectOf: nat -> string): State {
    if e.OfSession? then t.(session := KernelSession.Step(t.session, e.event))
    else t.(commands := CommandStep(t.commands, t.session, e, projectOf))
  }

  function Run(t: State, events: seq<Event>, projectOf: nat -> string): State {
    if events == [] then t else Step(Run(t, events[..|events| - 1], projectOf), events[|events| - 1], projectOf)
  }

  // ----- What every run keeps -----

  /** The answer on which a call is re-reading: given in time, for this snapshot, with no revocation since the start. */
  ghost predicate AnsweredFor(answers: set<Answer>, call: nat, binding: Binding, generation: nat) {
    exists a :: a in answers && a.call == call && a.binding == binding && a.generation == generation &&
                a.answeredAt < a.shownAt + CONFIRMATION_MS
  }

  ghost predicate CallSound(c: Commands, s: Session, id: nat, projectOf: nat -> string) {
    id in c.calls ==>
      var k := c.calls[id];
      && id < c.nextCall && Sensitive(k.body.action)
      && k.status.sessionGeneration == k.body.sessionGeneration && k.status.project == k.body.project
      && (k.kernel.Some? <==> k.status.project.Some?)
      && k.generation <= c.generation
      && k.status.sessionGeneration <= s.epoch
      // While the generation is the one it started in, the session is the one it started in.
      && (k.status.sessionGeneration == s.epoch && k.kernel.Some? ==> s.kernel == k.kernel)
      && (k.Rereading? ==> AnsweredFor(c.answers, id, Binding(k.status, k.body, k.saved), k.generation))
      && (k.Confirming? || |k.parts| <= PartsNeeded(k.body.action))
      && (k.Reading? || |k.saved| == PartsNeeded(k.body.action))
  }

  /** What has to be true of a command the kernel was handed. */
  ghost predicate DispatchSound(c: Commands, d: Dispatch) {
    match d
    case Plain(body, kernel) => !Sensitive(body.action)
    case Confirmed(call, body, reread, start, generation, kernel) =>
      && Sensitive(body.action) && reread.body == body && reread.status.sessionGeneration == body.sessionGeneration
      && reread.status.project == body.project && |reread.saved| == PartsNeeded(body.action)
      && AnsweredFor(c.answers, call, reread, generation)
      && start == Some(kernel) && kernel.epoch == body.sessionGeneration
  }

  ghost predicate Sound(t: State, projectOf: nat -> string) {
    && KernelSession.Sound(t.session)
    && (forall id :: CallSound(t.commands, t.session, id, projectOf))
    && (t.commands.pending <==> t.commands.calls != map[])
    && (forall i, j :: i in t.commands.calls && j in t.commands.calls ==> i == j)
    && (forall d :: d in t.commands.dispatched ==> DispatchSound(t.commands, d))
    && (forall d :: d in t.commands.dispatched && d.Confirmed? ==>
        d.call < t.commands.nextCall && d.call !in t.commands.calls)
  }

  /** A new process: no project open, nothing asked. */
  const INITIAL := State(KernelSession.INITIAL, Commands(0, false, map[], 0, {}, []))

  lemma InitialIsSound(projectOf: nat -> string)
    ensures Sound(INITIAL, projectOf)
  {
    assert forall h :: KernelSession.HandleSound(KernelSession.INITIAL, h);
  }

  lemma SessionStepKeepsSound(t: State, e: KernelSession.Event, projectOf: nat -> string)
    requires Sound(t, projectOf)
    ensures Sound(Step(t, OfSession(e), projectOf), projectOf)
  {
    KernelSession.StepKeepsSound(t.session, e);
    KernelSession.StepPinsSession(t.session, e);
    forall id
      ensures CallSound(t.commands, KernelSession.Step(t.session, e), id, projectOf)
    {
      assert CallSound(t.commands, t.session, id, projectOf);
    }
  }

  lemma MoreAnswers(answers: set<Answer>, more: set<Answer>, call: nat, binding: Binding, generation: nat)
    requires answers <= more && AnsweredFor(answers, call, binding, generation)
    ensures AnsweredFor(more, call, binding, generation)
  {
  }

  lemma DispatchesKept(c: Commands, d: Commands)
    requires c.answers <= d.answers && forall x :: x in c.dispatched ==> DispatchSound(c, x)
    ensures forall x :: x in c.dispatched ==> DispatchSound(d, x)
  {
    forall x | x in c.dispatched
      ensures DispatchSound(d, x)
    {
      assert DispatchSound(c, x);
      if x.Confirmed? {
        MoreAnswers(c.answers, d.answers, x.call, x.reread, x.generation);
      }
    }
  }

  lemma ReplyKeepsCall(t: State, call: nat, accepted: bool, now: int, projectOf: nat -> string)
    requires Sound(t, projectOf)
    ensures CallSound(Step(t, Reply(call, accepted, now), projectOf).commands, t.session, call, projectOf)
  {
    var c, d := t.commands, Step(t, Reply(call, accepted, now), projectOf).commands;
    assert CallSound(c, t.session, call, projectOf);
    if call in d.calls && d.calls[call] != c.calls[call] {
      var k := d.calls[call];
      assert Answer(call, Binding(k.status, k.body, k.saved), c.calls[call].shownAt, now, c.generation) in d.answers;
    }
  }

  lemma UntouchedCallKept(c: Commands, d: Commands, s: Session, id: nat, projectOf: nat -> string)
    requires CallSound(c, s, id, projectOf)
    requires c.answers <= d.answers && c.nextCall <= d.nextCall && c.generation <= d.generation
    requires id in d.calls ==> id in c.calls && d.calls[id] == c.calls[id]
    ensures CallSound(d, s, id, projectOf)
  {
    if id in d.calls && c.calls[id].Rereading? {
      var k := c.calls[id];
      MoreAnswers(c.answers, d.answers, id, Binding(k.status, k.body, k.saved), k.generation);
    }
  }

  /** The call an event is about; the others are not touched. */
  lemma CommandStepKeepsCalls(t: State, e: Event, id: nat, projectOf: nat -> string)
    requires Sound(t, projectOf) && !e.OfSession?
    ensures CallSound(Step(t, e, projectOf).commands, t.session, id, projectOf)
  {
    var c, d := t.commands, Step(t, e, projectOf).commands;
    assert CallSound(c, t.session, id, projectOf);
    if e.Reply? && e.call == id {
      ReplyKeepsCall(t, id, e.accepted, e.now, projectOf);
    } else if id !in d.calls || (id in c.calls && d.calls[id] == c.calls[id]) {
      UntouchedCallKept(c, d, t.session, id, projectOf);
    } else {
      assert e.Execute? || ((e.Part? || e.Settle?) && e.call == id);
    }
  }

  lemma CommandStepKeepsDispatches(t: State, e: Event, projectOf: nat -> string)
    requires Sound(t, projectOf) && !e.OfSession?
    ensures var d := Step(t, e, projectOf).commands;
            forall x :: x in d.dispatched ==>
                DispatchSound(d, x) && (x.Confirmed? ==> x.call < d.nextCall && x.call !in d.calls)
  {
    var c, d := t.commands, Step(t, e, projectOf).commands;
    DispatchesKept(c, d);
    if e.Settle? && e.call in c.calls {
      assert CallSound(c, t.session, e.call, projectOf);
    }
  }

  lemma StepKeepsSound(t: State, e: Event, projectOf: nat -> string)
    requires Sound(t, projectOf)
    ensures Sound(Step(t, e, projectOf), projectOf)
  {
    if e.OfSession? {
      SessionStepKeepsSound(t, e.event, projectOf);
    } else {
      var c, d := t.commands, Step(t, e, projectOf).commands;
      forall id
        ensures CallSound(d, t.session, id, projectOf)
      {
        CommandStepKeepsCalls(t, e, id, projectOf);
      }
      CommandStepKeepsDispatches(t, e, projectOf);
      PendingMatches(t, e, projectOf);
    }
  }

  /** At most one confirmation is pending, and the flag says so. */
  lemma PendingMatches(t: State, e: Event, projectOf: nat -> string)
    requires Sound(t, projectOf) && !e.OfSession?
    ensures var d := Step(t, e, projectOf).commands;
            (d.pending <==> d.calls != map[]) && forall i, j :: i in d.calls && j in d.calls ==> i == j
  {
    var c, d := t.commands, Step(t, e, projectOf).commands;
    if e.Execute? {
      if !c.pending {
        assert c.calls == map[];
        if d.pending { assert c.nextCall in d.calls; }
      }
    } else if !e.Revoke? && e.call in c.calls {
      assert c.calls == map[e.call := c.calls[e.call]];
      assert c.calls - {e.call} == map[];
      assert d.calls == map[] || e.call in d.calls;
    }
  }

  lemma {:induction false} RunKeepsSound(t: State, events: seq<Event>, projectOf: nat -> string)
    requires Sound(t, projectOf)
    ensures Sound(Run(t, events, projectOf), projectOf)
  {
    if events != [] {
      RunKeepsSound(t, events[..|events| - 1], projectOf);
      StepKeepsSound(Run(t, events[..|events| - 1], projectOf), events[|events| - 1], projectOf);
    }
  }

  /**
   * In every interleaving, a sensitive command reaches the kernel only on a snapshot the user accepted within
   * a minute of seeing it, unrevoked up to the answer, and read again unchanged; and it reaches the very
   * kernel it was started on, in the session generation it names.
   */
  lemma SensitiveDispatchIsConfirmed(t: State, events: seq<Event>, projectOf: nat -> string, d: Dispatch)
    requires Sound(t, projectOf) && d in Run(t, events, projectOf).commands.dispatched
    requires d.body.action in {Commit, StartAttempt, GovernMemory, PrivacyCleanup, EnableHostBridge}
    ensures d.Confirmed? && d.reread.body == d.body
    ensures exists a :: a in Run(t, events, projectOf).commands.answers && a.call == d.call && a.binding == d.reread &&
              a.generation == d.generation && a.answeredAt < a.shownAt + 60000
    ensures d.body.action in {Commit, StartAttempt} ==> |d.reread.saved| == 2
    ensures d.body.action in {GovernMemory, PrivacyCleanup} ==> |d.reread.saved| == 1
    ensures d.start == Some(d.kernel) && d.kernel.epoch == d.body.sessionGeneration == d.reread.status.sessionGeneration
    ensures d.reread.status.project == d.body.project
  {
    RunKeepsSound(t, events, projectOf);
    assert DispatchSound(Run(t, events, projectOf).commands, d);
  }

  /** While a confirmation is pending every other command is refused, sensitive or not. */
  lemma PendingRefusesEverything(t: State, body: Body, wellFormed: bool, projectOf: nat -> string)
    requires Sound(t, projectOf) && t.commands.calls != map[]
    ensures Step(t, Execute(body, wellFormed), projectOf) == t
  {
  }

  // ----- What revocation stops -----

  /** The command of this call has reached the kernel. */
  ghost predicate DispatchedFor(c: Commands, call: nat) {
    exists d :: d in c.dispatched && d.Confirmed? && d.call == call
  }

  ghost predicate CanReach(t: State, call: nat, projectOf: nat -> string) {
    exists events :: DispatchedFor(Run(t, events, projectOf).commands, call)
  }

  /** Answered and under way: what has been read again agrees so far, and the session still admits the rest. */
  predicate UnderWay(t: State, call: nat, projectOf: nat -> string) {
    && call in t.commands.calls && t.commands.calls[call].Rereading?
    && var k := t.commands.calls[call];
       && Reaches(t.session, k.body, projectOf)
       && k.parts <= k.saved
       && (|k.parts| < |k.saved| ==> k.admitted)
  }

  /** Asked for or answered, but in no way left to reach the kernel. */
  ghost predicate Dead(t: State, call: nat, projectOf: nat -> string) {
    && call < t.commands.nextCall && !DispatchedFor(t.commands, call)
    && (call in t.commands.calls ==>
          var k := t.commands.calls[call];
          if k.Rereading? then !UnderWay(t, call, projectOf) else k.generation < t.commands.generation)
  }

  /** Once the session no longer admits a call's command it never does again. */
  lemma AdmissionIsNotRegained(t: State, e: KernelSession.Event, call: nat, projectOf: nat -> string)
    requires Sound(t, projectOf) && call in t.commands.calls
    ensures var body := t.commands.calls[call].body;
            Reaches(KernelSession.Step(t.session, e), body, projectOf) ==> Reaches(t.session, body, projectOf)
  {
    assert CallSound(t.commands, t.session, call, projectOf);
    KernelSession.StepPinsSession(t.session, e);
  }

  lemma DeadStays(t: State, e: Event, call: nat, projectOf: nat -> string)
    requires Sound(t, projectOf) && Dead(t, call, projectOf)
    ensures Dead(Step(t, e, projectOf), call, projectOf)
  {
    if call in t.commands.calls {
      assert CallSound(t.commands, t.session, call, projectOf);
      if e.OfSession? {
        AdmissionIsNotRegained(t, e.event, call, projectOf);
      }
    }
  }

  lemma {:induction false} DeadForever(t: State, events: seq<Event>, call: nat, projectOf: nat -> string)
    requires Sound(t, projectOf) && Dead(t, call, projectOf)
    ensures Dead(Run(t, events, projectOf), call, projectOf)
  {
    if events != [] {
      DeadForever(t, events[..|events| - 1], call, projectOf);
      RunKeepsSound(t, events[..|events| - 1], projectOf);
      DeadStays(Run(t, events[..|events| - 1], projectOf), events[|events| - 1], call, projectOf);
    }
  }

  /**
   * A command revoked while it is read or while the user is asked never reaches the kernel, whatever happens
   * afterwards.
   */
  lemma RevokeBeforeAnswerStops(t: State, call: nat, events: seq<Event>, projectOf: nat -> string)
    requires Sound(t, projectOf) && call in t.commands.calls && !t.commands.calls[call].Rereading?
    ensures !DispatchedFor(Run(Step(t, Revoke, projectOf), events, projectOf).commands, call)
  {
    assert CallSound(t.commands, t.session, call, projectOf);
    StepKeepsSound(t, Revoke, projectOf);
    DeadForever(Step(t, Revoke, projectOf), events, call, projectOf);
  }

  lemma {:induction false} RunFrom(t: State, first: Event, rest: seq<Event>, projectOf: nat -> string)
    ensures Run(t, [first] + rest, projectOf) == Run(Step(t, first, projectOf), rest, projectOf)
  {
    var events := [first] + rest;
    if rest != [] {
      assert events[..|events| - 1] == [first] + rest[..|rest| - 1];
      RunFrom(t, first, rest[..|rest| - 1], projectOf);
    } else {
      assert events == [first] && events[..0] == [];
    }
  }

  /** The rest of the second reading, then the command. */
  lemma {:induction false} UnderWayCanFinish(t: State, call: nat, projectOf: nat -> string) returns (events: seq<Event>)
    requires Sound(t, projectOf) && UnderWay(t, call, projectOf)
    ensures DispatchedFor(Run(t, events, projectOf).commands, call) && CanReach(t, call, projectOf)
    decreases |t.commands.calls[call].saved| - |t.commands.calls[call].parts|
  {
    var k := t.commands.calls[call];
    assert CallSound(t.commands, t.session, call, projectOf);
    var first := if |k.parts| < |k.saved| then Part(call, Some(k.saved[|k.parts|])) else Settle(call, 0);
    var next := Step(t, first, projectOf);
    if |k.parts| < |k.saved| {
      StepKeepsSound(t, first, projectOf);
      events := UnderWayCanFinish(next, call, projectOf);
    } else {
      events := [];
      var d := Confirmed(call, k.body, Binding(k.status, k.body, k.parts), k.kernel, k.generation,
          t.session.kernel.value);
      assert k.parts == k.saved && next.commands.dispatched == t.commands.dispatched + [d];
      assert d in next.commands.dispatched;
    }
    RunFrom(t, first, events, projectOf);
    events := [first] + events;
  }

  /**
   * A call that is revoked can still reach the kernel if and only if the user has already answered
   * and the second reading is under way: revocation is not looked at again after the answer.
   */
  lemma RevokedCallRunsExactlyWhenUnderWay(t: State, call: nat, projectOf: nat -> string)
    requires Sound(t, projectOf) && call in t.commands.calls
    ensures CanReach(Step(t, Revoke, projectOf), call, projectOf) <==> UnderWay(t, call, projectOf)
  {
    var revoked := Step(t, Revoke, projectOf);
    StepKeepsSound(t, Revoke, projectOf);
    if UnderWay(t, call, projectOf) {
      assert UnderWay(revoked, call, projectOf);
      var events := UnderWayCanFinish(revoked, call, projectOf);
    } else {
      assert CallSound(t.commands, t.session, call, projectOf);
      forall events
        ensures !DispatchedFor(Run(revoked, events, projectOf).commands, call)
      {
        DeadForever(revoked, events, call, projectOf);
      }
    }
  }

  /** A project is opened, the command asked for, accepted and then revoked, before its second reading is in. */
  function LateRevocation(command: Body): seq<Event> {
    [OfSession(KernelSession.OpenBegin(true, false, false)), OfSession(KernelSession.OpenResume(0, true, false)),
     Execute(command, true), Settle(0, 0), Reply(0, true, 0), Revoke, Settle(0, 0)]
  }

  /** It happens: from a new process on, a command is revoked after the answer and handed to the kernel. */
  lemma RevokeAfterAnswerIsIgnored(details: string, projectOf: nat -> string)
    ensures var command := Body(EnableHostBridge, Some(projectOf(0)), 2, details);
            DispatchedFor(Run(INITIAL, LateRevocation(command), projectOf).commands, 0)
  {
    var command := Body(EnableHostBridge, Some(projectOf(0)), 2, details);
    var events := LateRevocation(command);
    var open := Step(Step(INITIAL, events[0], projectOf), events[1], projectOf);
    assert open.session.kernel == Some(KernelSession.Installed(0, 2));
    var answered := Step(Step(Step(open, events[2], projectOf), events[3], projectOf), events[4], projectOf);
    assert answered.commands.calls[0].Rereading?;
    var last := Step(Step(answered, Revoke, projectOf), events[6], projectOf).commands.dispatched;
    assert |last| == 1 && last[0].Confirmed? && last[0].call == 0 && last[0] in last;
    SevenSteps(INITIAL, events, projectOf);
  }

  lemma SevenSteps(t: State, events: seq<Event>, projectOf: nat -> string)
    requires |events| == 7
    ensures Run(t, events, projectOf) ==
              Step(Step(Step(Step(Step(Step(Step(t, events[0], projectOf), events[1], projectOf), events[2], projectOf),
                events[3], projectOf), events[4], projectOf), events[5], projectOf), events[6], projectOf)
  {
    assert events[..7] == events && events[..0] == [];
    forall i | 0 <= i < 7
      ensures Run(t, events[..i + 1], projectOf) == Step(Run(t, events[..i], projectOf), events[i], projectOf)
    {
      assert events[..i + 1][..i] == events[..i];
    }
  }

  // ----- The object as written -----

  class TrustedKernelCommands {
    const api: KernelSession.KernelApplicationApi
    var generation: nat
    var pending: bool
    ghost var history: Commands

    constructor (api: KernelSession.KernelApplicationApi)
      ensures Valid() && this.api == api && history == Commands(0, false, map[], 0, {}, [])
    {
      this.api, generation, pending := api, 0, false;
      history := Commands(0, false, map[], 0, {}, []);
    }

    ghost predicate Valid()
      reads this
    {
      && history.generation == generation && history.pending == pending
      && (history.pending <==> history.calls != map[])
      && (forall i, j :: i in history.calls && j in history.calls ==> i == j)
    }

    function CurrentStatus(projectOf: nat -> string): Status
      reads api
    {
      Status(if api.kernel.Some? then Some(projectOf(api.kernel.value.handle)) else None, api.epoch, api.readOnly)
    }

    predicate Admits(body: Body, projectOf: nat -> string)
      reads api
    {
      api.kernel.Some? && !api.disposed && body.project == Some(projectOf(api.kernel.value.handle))
      && body.sessionGeneration == api.epoch
    }

    method RevokeAll()
      requires Valid() && api.Valid()
      modifies this
      ensures Valid() && forall projectOf :: history == CommandStep(old(history), api.history, Revoke, projectOf)
      ensures generation == old(generation) + 1 && pending == old(pending)
    {
      generation := generation + 1;
      history := history.(generation := history.generation + 1);
    }

    /** Up to the first await: the suspended call, or a plain command handed to the kernel. */
    method BeginExecute(body: Body, wellFormed: bool, projectOf: nat -> string)
      returns (waiting: Option<Call>, handedOver: bool, ghost id: nat)
      requires Valid() && api.Valid()
      modifies this
      ensures Valid() && history == CommandStep(old(history), api.history, Execute(body, wellFormed), projectOf)
      ensures waiting.Some? ==> id in history.calls && history.calls[id] == waiting.value
      ensures handedOver <==> |history.dispatched| > |old(history.dispatched)|
      // Refused while another is pending; every command but the five sensitive ones goes through without asking.
      ensures handedOver <==> wellFormed && !old(pending) && body.action.Other? && Admits(body, projectOf)
      ensures waiting.Some? <==>
              && wellFormed && !old(pending) && !body.action.Other? && body.sessionGeneration == api.epoch
              && body.project == (if api.kernel.Some? then Some(projectOf(api.kernel.value.handle)) else None)
      ensures waiting.Some? ==>
                waiting.value == Reading(body, Status(body.project, api.epoch, api.readOnly), old(generation),
                                         api.kernel, [], Admits(body, projectOf))
      ensures pending == (old(pending) || waiting.Some?) && generation == old(generation)
    {
      id, handedOver := history.nextCall, false;
      if !wellFormed || pending {
        return None, false, id;
      }
      ghost var next := CommandStep(history, api.history, Execute(body, wellFormed), projectOf);
      if !Sensitive(body.action) {
        history := next;
        handedOver := Admits(body, projectOf);
        return None, handedOver, id;
      }
      var session := CurrentStatus(projectOf);
      if session.project != body.project || session.sessionGeneration != body.sessionGeneration {
        return None, false, id;
      }
      pending := true;
      assert history.calls == map[];
      history := next;
      assert id in history.calls;
      waiting := Some(Reading(body, session, generation, api.kernel, [], Admits(body, projectOf)));
    }

    /** Back from the dialog. */
    method ResumeReply(call: Call, ghost id: nat, accepted: bool, now: int, projectOf: nat -> string)
      returns (waiting: Option<Call>)
      requires Valid() && api.Valid() && id in history.calls && history.calls[id] == call && call.Confirming?
      modifies this
      ensures Valid() && history == CommandStep(old(history), api.history, Reply(id, accepted, now), projectOf)
      ensures waiting.Some? ==> id in history.calls && history.calls[id] == waiting.value
      ensures waiting.None? ==> !pending
      // The answer counts when nothing was revoked, a minute has not passed and the session reads as it did.
      ensures waiting.Some? <==>
              && accepted && call.generation == generation && now < call.shownAt + 60000
              && call.status == CurrentStatus(projectOf)
      ensures waiting.Some? ==>
                waiting.value == Rereading(call.body, call.status, call.generation, call.kernel, call.saved, [],
                                           Admits(call.body, projectOf))
      ensures generation == old(generation)
    {
      assert history.calls == map[id := call];
      history := CommandStep(history, api.history, Reply(id, accepted, now), projectOf);
      var expiresAt := call.shownAt + CONFIRMATION_MS;
      var same := CurrentStatus(projectOf) == call.status;
      if !accepted || call.generation != generation || now >= expiresAt || !same {
        pending := false;
        return None;
      }
      assert id in history.calls;
      waiting := Some(Rereading(call.body, call.status, call.generation, call.kernel, call.saved, [],
          Admits(call.body, projectOf)));
    }

    /** The second snapshot is in: the lock is released, and the command handed over if nothing changed. */
    method ResumeReread(call: Call, ghost id: nat, now: int, projectOf: nat -> string) returns (handedOver: bool)
      requires Valid() && api.Valid() && id in history.calls && history.calls[id] == call && call.Rereading?
      requires |call.parts| >= PartsNeeded(call.body.action)
      modifies this
      ensures Valid() && history == CommandStep(old(history), api.history, Settle(id, now), projectOf)
      ensures !pending && generation == old(generation)
      ensures handedOver <==> call.parts == call.saved && Admits(call.body, projectOf)
      ensures handedOver <==> |history.dispatched| > |old(history.dispatched)|
    {
      assert history.calls == map[id := call];
      history := CommandStep(history, api.history, Settle(id, now), projectOf);
      pending := false;
      if Binding(call.status, call.body, call.parts) != Binding(call.status, call.body, call.saved) {
        return false;
      }
      handedOver := Admits(call.body, projectOf);
    }
  }
}
