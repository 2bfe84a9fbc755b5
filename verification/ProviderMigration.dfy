/**
 * Moving a provider configuration between stores: a staged record, a generation high-water mark, and
 * a crash between any two durable writes. The source configuration stays as it is throughout.
 */
module ProviderMigration {
  import opened DurableWrites
  import opened Ordering

  /** `body` stands for every field that the migration copies unread. */
  datatype Config = Config(body: string, external: bool, generation: nat)

  datatype Stage = Prepared | ConfigMigrated | Complete

  /** The source is its own hash: SHA-256 is taken to be injective. */
  datatype Record = Record(sourceHash: Config, generation: nat, stage: Stage)

  /** What the migration reads and never writes. `usable`: the target's secret storage answers and keeps what is set. */
  datatype Env = Env(source: Option<Config>, sourceHighWater: nat, sourceSecret: Option<string>, readable: bool,
      usable: bool)

  /** Everything that survives a crash on the target's side. */
  datatype State = State(target: Option<Config>, highWater: nat, record: Option<Record>, secret: Option<string>)

  datatype Write =
    | SetRecord(record: Record)
    | SetHighWater(generation: nat)
    | SetTarget(config: Config)
    | RemoveTarget
    | SetSecret(value: string)

  datatype Outcome =
    | Missing
    | CurrentConfigKept
    | CredentialsNeedInput(generation: nat)
    | Completed(generation: nat)
    | Corrupt

  function Max(a: nat, b: nat): nat {
    if a < b then b else a
  }

  function ApplyWrite(s: State, w: Write): State {
    match w
    case SetRecord(r) => s.(record := Some(r))
    case SetHighWater(g) => s.(highWater := g)
    case SetTarget(c) => s.(target := Some(c))
    case RemoveTarget => s.(target := None)
    case SetSecret(v) => s.(secret := Some(v))
  }

  function ApplyWrites(s: State, ws: seq<Write>): State {
    Applied(s, ws, ApplyWrite)
  }

  // ----- What one migration run does -----

  /** The stored record, or the one a first run prepares: above every generation known so far. */
  function RecordFor(env: Env, s: State): Record
    requires env.source.Some?
  {
    if s.record.Some? then s.record.value
    else Record(env.source.value, Max(Max(env.source.value.generation, env.sourceHighWater), s.highWater) + 1, Prepared)
  }

  function Candidate(env: Env, r: Record): Config
    requires env.source.Some?
  {
    env.source.value.(generation := r.generation)
  }

  /** The outcomes reached without writing. */
  function Settled(env: Env, s: State): Option<Outcome> {
    if env.source.None? then Some(Missing)
    else if s.record.Some? && s.record.value.generation <= env.source.value.generation then Some(Corrupt)
    else if s.record.Some? && s.record.value.sourceHash != env.source.value then Some(CurrentConfigKept)
    else if s.record.None? && s.target.Some? then Some(CurrentConfigKept)
    else
      var r := RecordFor(env, s);
      if s.target.None? && (s.highWater > r.generation || r.stage == Complete) then Some(CurrentConfigKept)
      else if s.target.Some? && s.target.value != Candidate(env, r) then Some(CurrentConfigKept)
      else if r.stage == Complete then Some(Completed(r.generation))
      else None
  }

  predicate SecretCopies(env: Env) {
    env.readable && env.sourceSecret.Some? && 1 <= |env.sourceSecret.value| <= 8192 && env.usable
  }

  predicate CredentialsSuffice(env: Env)
    requires env.source.Some?
  {
    SecretCopies(env) || (env.readable && env.sourceSecret.None? && !env.source.value.external)
  }

  /** The durable writes of an uninterrupted run, in order: the record, the target, then the remaining stages. */
  function Writes(env: Env, s: State): seq<Write> {
    if Settled(env, s).Some? then []
        else RecordWrites(env, s) + TargetWrites(env, s) + StageWrites(env, RecordFor(env, s))
  }

  function RecordWrites(env: Env, s: State): seq<Write>
    requires env.source.Some?
  {
    if s.record.None? then [SetRecord(RecordFor(env, s))] else []
  }

  function TargetWrites(env: Env, s: State): seq<Write>
    requires env.source.Some?
  {
    if s.target.None? then StoreWrites(s.highWater, Candidate(env, RecordFor(env, s))) else []
  }

  function StageWrites(env: Env, r: Record): seq<Write>
    requires env.source.Some?
  {
    var migrated := SetRecord(r.(stage := ConfigMigrated));
    var complete := SetRecord(r.(stage := Complete));
    if SecretCopies(env) then [migrated, SetSecret(env.sourceSecret.value), complete]
    else if CredentialsSuffice(env) then [migrated, complete]
    else [migrated]
  }

  /** A store's write: the generation file first, when it rises, then the configuration. */
  function StoreWrites(highWater: nat, config: Config): seq<Write> {
    (if config.generation > highWater then [SetHighWater(config.generation)] else []) + [SetTarget(config)]
  }

  function Answer(env: Env, s: State): Outcome {
    if Settled(env, s).Some? then Settled(env, s).value
    else if CredentialsSuffice(env) then Completed(RecordFor(env, s).generation)
    else CredentialsNeedInput(RecordFor(env, s).generation)
  }

  /** Where an uninterrupted run ends. */
  function Finish(env: Env, s: State): State {
    if Settled(env, s).Some? then s
    else
      var r := RecordFor(env, s);
      State(Some(Candidate(env, r)),
            if s.target.None? then Max(s.highWater, r.generation) else s.highWater,
            Some(r.(stage := if CredentialsSuffice(env) then Complete else ConfigMigrated)),
            if SecretCopies(env) then env.sourceSecret else s.secret)
  }

  /**
   * The first run over an empty target: it takes the source's configuration as it is, under a generation one above the
   * highest known on either side, and the secret when it is readable, of a fitting size, and keeps; it is complete
   * when the secret went along, or there was none and none was needed.
   */
  lemma FirstRunMoves(env: Env, s: State)
    requires env.source.Some? && s.record.None? && s.target.None?
    ensures var t, source := Finish(env, s), env.source.value;
            var copied :=
              env.readable && env.usable && env.sourceSecret.Some? && 1 <= |env.sourceSecret.value| <= 8192;
            var enough := copied || (env.readable && env.sourceSecret.None? && !source.external);
            && t.target.Some? && t.target.value.body == source.body && t.target.value.external == source.external
            && var generation := t.target.value.generation;
               && generation > source.generation && generation > env.sourceHighWater && generation > s.highWater
               && generation - 1 in {source.generation, env.sourceHighWater, s.highWater}
               && t.highWater == generation
               && t.record == Some(Record(source, generation, if enough then Complete else ConfigMigrated))
               && t.secret == (if copied then env.sourceSecret else s.secret)
               && Answer(env, s) == if enough then Completed(generation) else CredentialsNeedInput(generation)
  {
  }

  /** The answers given without writing anything, and nothing else is. */
  lemma AnsweredWithoutWriting(env: Env, s: State)
    ensures Answer(env, s) == Missing <==> env.source.None?
    ensures Answer(env, s) == Corrupt <==>
            env.source.Some? && s.record.Some? && s.record.value.generation <= env.source.value.generation
    // The target stays when it is not the migration's own, or the source or the high-water mark has moved on.
    ensures Answer(env, s) == CurrentConfigKept <==>
            && env.source.Some?
            && if s.record.None? then s.target.Some?
               else
                 var r := s.record.value;
                 && r.generation > env.source.value.generation
                 && (|| r.sourceHash != env.source.value
                     || (s.target.None? && (s.highWater > r.generation || r.stage == Complete))
                     || (s.target.Some? && s.target.value != env.source.value.(generation := r.generation)))
    ensures Settled(env, s).Some? && Answer(env, s) !in {Missing, Corrupt, CurrentConfigKept} ==>
              s.record.Some? && s.record.value.stage == Complete
              && Answer(env, s) == Completed(s.record.value.generation)
  {
  }

  // ----- Resuming after a crash -----

  /**
   * `t` is a state a run from `s` can be stopped in: each part is the old or the final one, in the order they are
   * written.
   */
  predicate PartWay(env: Env, s: State, t: State)
    requires env.source.Some?
  {
    var r := RecordFor(env, s);
    && (t.record == s.record || t.record == Some(r) || t.record == Some(r.(stage := ConfigMigrated))
        || (t == Finish(env, s) && CredentialsSuffice(env)))
    && (t.record.None? ==> t == s)
    && (t.target == s.target || t.target == Some(Candidate(env, r)))
    && (s.target.None? && t.target.Some? ==> t.highWater == Max(s.highWater, r.generation))
    && (t.highWater == s.highWater || (s.target.None? && t.highWater == Max(s.highWater, r.generation)))
    && (t.secret == s.secret || (SecretCopies(env) && t.secret == env.sourceSecret))
  }

  /** The state once the target is in place and no stage written. */
  function InPlace(env: Env, s: State): State
    requires env.source.Some?
  {
    var r := RecordFor(env, s);
    var highWater := if s.target.None? then Max(s.highWater, r.generation) else s.highWater;
    State(Some(Candidate(env, r)), highWater, Some(r), s.secret)
  }

  lemma RecordPrefix(env: Env, s: State, n: nat)
    requires Settled(env, s).None? && n <= |RecordWrites(env, s)|
    ensures PartWay(env, s, ApplyWrites(s, RecordWrites(env, s)[..n]))
    ensures n == |RecordWrites(env, s)| ==>
        ApplyWrites(s, RecordWrites(env, s)[..n]) == s.(record := Some(RecordFor(env, s)))
  {
    FirstFew(s, RecordWrites(env, s), n, ApplyWrite);
  }

  lemma TargetPrefix(env: Env, s: State, n: nat)
    requires Settled(env, s).None? && n <= |TargetWrites(env, s)|
    ensures var one := s.(record := Some(RecordFor(env, s)));
            && PartWay(env, s, ApplyWrites(one, TargetWrites(env, s)[..n]))
            && (n == |TargetWrites(env, s)| ==> ApplyWrites(one, TargetWrites(env, s)[..n]) == InPlace(env, s))
  {
    FirstFew(s.(record := Some(RecordFor(env, s))), TargetWrites(env, s), n, ApplyWrite);
  }

  lemma StagePrefix(env: Env, s: State, n: nat)
    requires Settled(env, s).None? && n <= |StageWrites(env, RecordFor(env, s))|
    ensures var c, t := StageWrites(env, RecordFor(env, s)), InPlace(env, s);
            && PartWay(env, s, ApplyWrites(t, c[..n]))
            && (n == |c| ==> ApplyWrites(t, c[..n]) == Finish(env, s))
  {
    FirstFew(InPlace(env, s), StageWrites(env, RecordFor(env, s)), n, ApplyWrite);
  }

  /** Where the writes of a run stand after `n` of them. */
  lemma PrefixIsPartWay(env: Env, s: State, n: nat)
    requires Settled(env, s).None? && n <= |Writes(env, s)|
    ensures PartWay(env, s, ApplyWrites(s, Writes(env, s)[..n]))
    ensures n == |Writes(env, s)| ==> ApplyWrites(s, Writes(env, s)[..n]) == Finish(env, s)
  {
    var a, b, c := RecordWrites(env, s), TargetWrites(env, s), StageWrites(env, RecordFor(env, s));
    PrefixOfThree(s, a, b, c, n, ApplyWrite);
    if n <= |a| {
      RecordPrefix(env, s, n);
    } else if n <= |a| + |b| {
      RecordPrefix(env, s, |a|);
      TargetPrefix(env, s, n - |a|);
    } else {
      RecordPrefix(env, s, |a|);
      TargetPrefix(env, s, |b|);
      StagePrefix(env, s, n - |a| - |b|);
    }
  }

  /** A run stopped after any number of writes. */
  function Stopped(env: Env, s: State, writes: nat): State {
    var ws := Writes(env, s);
    ApplyWrites(s, if writes < |ws| then ws[..writes] else ws)
  }

  /** Crash anywhere, run again: the same target, record, secret and answer as without the crash. */
  lemma ResumeReachesTheSameEnd(env: Env, s: State, writes: nat)
    ensures var t := Stopped(env, s, writes);
            && ApplyWrites(t, Writes(env, t)) == ApplyWrites(s, Writes(env, s)) == Finish(env, s)
            && Answer(env, t) == Answer(env, s)
  {
    FullRunFinishes(env, s);
    FullRunFinishes(env, Stopped(env, s, writes));
    if Settled(env, s).None? {
      StoppedIsPartWay(env, s, writes);
      PartWayFinishesAlike(env, s, Stopped(env, s, writes));
    } else {
      assert Writes(env, s) == [];
    }
  }

  lemma PartWayFinishesAlike(env: Env, s: State, t: State)
    requires Settled(env, s).None? && PartWay(env, s, t)
    ensures Finish(env, t) == Finish(env, s) && Answer(env, t) == Answer(env, s)
  {
  }

  lemma FullRunFinishes(env: Env, s: State)
    ensures ApplyWrites(s, Writes(env, s)) == Finish(env, s)
  {
    if Settled(env, s).None? {
      PrefixIsPartWay(env, s, |Writes(env, s)|);
      assert Writes(env, s)[..|Writes(env, s)|] == Writes(env, s);
    }
  }

  lemma StoppedIsPartWay(env: Env, s: State, writes: nat)
    requires Settled(env, s).None?
    ensures PartWay(env, s, Stopped(env, s, writes))
  {
    var ws := Writes(env, s);
    assert ws[..|ws|] == ws;
    PrefixIsPartWay(env, s, if writes < |ws| then writes else |ws|);
  }

  /** However many runs are stopped, wherever, the next full one ends where the first would have. */
  lemma {:induction false} AnyNumberOfCrashes(env: Env, s: State, stops: seq<nat>)
    ensures Finish(env, AfterStops(env, s, stops)) == Finish(env, s)
    ensures Answer(env, AfterStops(env, s, stops)) == Answer(env, s)
  {
    if stops != [] {
      var before := AfterStops(env, s, stops[..|stops| - 1]);
      AnyNumberOfCrashes(env, s, stops[..|stops| - 1]);
      ResumeReachesTheSameEnd(env, before, stops[|stops| - 1]);
      ResumeReachesTheSameEnd(env, AfterStops(env, s, stops), 0);
    }
  }

  function AfterStops(env: Env, s: State, stops: seq<nat>): State {
    if stops == [] then s else Stopped(env, AfterStops(env, s, stops[..|stops| - 1]), stops[|stops| - 1])
  }

  // ----- Runs in which the user saves and deletes between migrations -----

  /** Each action may be stopped after any number of its writes. */
  datatype Action =
    | Migrate(stop: nat)
    | Save(body: string, external: bool, apiKey: Option<string>, stop: nat)
    | Delete(stop: nat)

  function ActionWrites(env: Env, s: State, a: Action): seq<Write> {
    match a
    case Migrate(_) => Writes(env, s)
    case Save(body, external, apiKey, _) =>
      var previous := if s.target.Some? then s.target.value.generation else 0;
      (if apiKey.Some? then [SetSecret(apiKey.value)] else []) +
      StoreWrites(s.highWater, Config(body, external, Max(previous, s.highWater) + 1))
    case Delete(_) =>
      if s.target.None? then []
      else
        var generation := s.target.value.generation;
        (if generation > s.highWater then [SetHighWater(generation)] else []) + [RemoveTarget]
  }

  function Act(env: Env, s: State, a: Action): State {
    var ws := ActionWrites(env, s, a);
    ApplyWrites(s, if a.stop < |ws| then ws[..a.stop] else ws)
  }

  function After(env: Env, s: State, actions: seq<Action>): State {
    if actions == [] then s else Act(env, After(env, s, actions[..|actions| - 1]), actions[|actions| - 1])
  }

  /** Once written, a record keeps its source and generation, and its stage never goes back. */
  predicate RecordAdvances(before: Option<Record>, after: Option<Record>) {
    before.Some? ==>
      && after.Some? && after.value.sourceHash == before.value.sourceHash
          && after.value.generation == before.value.generation
      && (before.value.stage == Complete ==> after.value.stage == Complete)
      && (before.value.stage == ConfigMigrated ==> after.value.stage != Prepared)
  }

  lemma MigrateStep(env: Env, s: State, stop: nat)
    ensures var t := Act(env, s, Migrate(stop));
            && t.highWater >= s.highWater
            && RecordAdvances(s.record, t.record)
            // It writes the target only when there is none, only with the candidate, and only while that is current.
            && (t.target != s.target ==>
                  && s.target.None? && t.record.Some? && env.source.Some?
                  && t.target == Some(env.source.value.(generation := t.record.value.generation))
                  && t.record.value.generation >= s.highWater && t.highWater == t.record.value.generation
                  && (s.record.Some? ==> s.record.value.stage != Complete))
  {
    assert Act(env, s, Migrate(stop)) == Stopped(env, s, stop);
    if Settled(env, s).None? {
      StoppedIsPartWay(env, s, stop);
    }
  }

  predicate UserWrite(w: Write, highWater: nat) {
    !w.SetRecord? && (w.SetHighWater? ==> w.generation >= highWater)
  }

  lemma {:induction false} UserWritesKeepRecord(s: State, ws: seq<Write>)
    requires forall i :: 0 <= i < |ws| ==> UserWrite(ws[i], s.highWater)
    ensures ApplyWrites(s, ws).record == s.record && ApplyWrites(s, ws).highWater >= s.highWater
  {
    if ws != [] {
      UserWritesKeepRecord(s, ws[..|ws| - 1]);
      assert UserWrite(ws[|ws| - 1], s.highWater);
    }
  }

  lemma UserStep(env: Env, s: State, a: Action)
    requires !a.Migrate?
    ensures var t := Act(env, s, a); t.highWater >= s.highWater && t.record == s.record
  {
    var ws := ActionWrites(env, s, a);
    assert forall i :: 0 <= i < |ws| ==> UserWrite(ws[i], s.highWater);
    UserWritesKeepRecord(s, if a.stop < |ws| then ws[..a.stop] else ws);
  }

  /**
   * A save leaves its own configuration, one generation above the target's and the mark. Wherever it is stopped, the
   * target is as it was or as it is to be, not above the mark in the second case, and the record is as it was.
   */
  lemma SaveDoes(env: Env, s: State, body: string, external: bool, apiKey: Option<string>, stop: nat)
    ensures var t := Act(env, s, Save(body, external, apiKey, stop));
            var before := if s.target.Some? then s.target.value.generation else 0;
            var next := (if before > s.highWater then before else s.highWater) + 1;
            && t.record == s.record
            && (stop >= 3 || t.target != s.target ==>
                  && t.target == Some(Config(body, external, next)) && t.highWater == next
                  && t.secret == if apiKey.Some? then apiKey else s.secret)
            && t.highWater in {s.highWater, next}
            && t.secret in {s.secret, if apiKey.Some? then apiKey else s.secret}
  {
    var before := if s.target.Some? then s.target.value.generation else 0;
    var next := (if before > s.highWater then before else s.highWater) + 1;
    var store := [SetHighWater(next), SetTarget(Config(body, external, next))];
    var ws := ActionWrites(env, s, Save(body, external, apiKey, stop));
    assert StoreWrites(s.highWater, Config(body, external, next)) == store;
    var n := if stop < |ws| then stop else |ws|;
    assert ws[..|ws|] == ws;
    FirstFew(s, ws, n, ApplyWrite);
    if apiKey.Some? {
      assert ws == [SetSecret(apiKey.value), store[0], store[1]];
    } else {
      assert ws == store;
    }
  }

  /** A deletion leaves no target, with the mark at the deleted generation at least, which is raised first. */
  lemma DeleteDoes(env: Env, s: State, stop: nat)
    ensures var t := Act(env, s, Delete(stop));
            var before := if s.target.Some? then s.target.value.generation else 0;
            var above := if before > s.highWater then before else s.highWater;
            && t.record == s.record && t.secret == s.secret
            && (stop >= 2 || t.target != s.target ==> t.target == None && t.highWater == above)
            && t.highWater in {s.highWater, above}
  {
    var ws := ActionWrites(env, s, Delete(stop));
    var n := if stop < |ws| then stop else |ws|;
    assert Act(env, s, Delete(stop)) == ApplyWrites(s, ws[..n]) by { assert ws[..|ws|] == ws; }
    FirstFew(s, ws, n, ApplyWrite);
    if s.target.Some? {
      var above := s.target.value.generation;
      if above > s.highWater {
        assert ws == [SetHighWater(above), RemoveTarget];
      } else {
        assert ws == [RemoveTarget];
      }
    }
  }

  /** The high-water mark never falls and the record never goes back, over any run. */
  lemma {:induction false} RunAdvances(env: Env, s: State, actions: seq<Action>)
    ensures var t := After(env, s, actions); t.highWater >= s.highWater && RecordAdvances(s.record, t.record)
  {
    if actions != [] {
      var before, last := After(env, s, actions[..|actions| - 1]), actions[|actions| - 1];
      RunAdvances(env, s, actions[..|actions| - 1]);
      if last.Migrate? {
        MigrateStep(env, before, last.stop);
      } else {
        UserStep(env, before, last);
      }
    }
  }

  /** The migration is over: complete, or overtaken by a configuration the user saved. */
  predicate Over(s: State) {
    s.record.Some? && (s.record.value.stage == Complete || s.highWater > s.record.value.generation)
  }

  /** Once over, no migration in any later run touches the target, whatever is saved, deleted or cut short. */
  lemma OverStaysOver(env: Env, s: State, actions: seq<Action>, stop: nat)
    requires Over(s)
    ensures var t := After(env, s, actions); Over(t) && Act(env, t, Migrate(stop)).target == t.target
  {
    RunAdvances(env, s, actions);
    MigrateStep(env, After(env, s, actions), stop);
  }

  /** A saved configuration is above every generation before it, so saving ends the migration's hold on the target. */
  lemma SaveOvertakesMigration(env: Env, s: State, body: string, external: bool, apiKey: Option<string>)
    requires s.record.Some?
    requires s.record.value.generation <= Max(s.highWater, if s.target.Some? then s.target.value.generation else 0)
    ensures var t := Act(env, s, Save(body, external, apiKey, 3));
            Over(t) && t.target.Some? && t.target.value.generation > s.highWater && t.target.value.body == body
  {
    var ws := ActionWrites(env, s, Save(body, external, apiKey, 3));
    assert ws[..0] == [] && ws[..|ws|] == ws;
    OneMore(s, ws, 0, ApplyWrite);
    OneMore(s, ws, 1, ApplyWrite);
    if |ws| > 2 { OneMore(s, ws, 2, ApplyWrite); }
  }

  lemma StoppedAt(env: Env, s: State, log: seq<Write>, budget: nat)
    requires var ws := Writes(env, s);
             |log| <= |ws| && log == ws[..|log|] && (if |log| < |ws| then budget == |log| else budget >= |ws|)
    ensures ApplyWrites(s, log) == Stopped(env, s, budget)
  {
    assert Writes(env, s)[..|Writes(env, s)|] == Writes(env, s);
  }

  // ----- The migration as written -----

  /** The target side: each durable write spends one of the writes left before the crash. */
  class TargetStore {
    var target: Option<Config>
    var highWater: nat
    var record: Option<Record>
    var secret: Option<string>
    var writesLeft: nat
    ghost var log: seq<Write>

    constructor (s: State, writesLeft: nat)
      ensures Current() == s && this.writesLeft == writesLeft && log == []
    {
      target, highWater, record, secret := s.target, s.highWater, s.record, s.secret;
      this.writesLeft, log := writesLeft, [];
    }

    function Current(): State
      reads this
    {
      State(target, highWater, record, secret)
    }

    method Put(w: Write) returns (crashed: bool)
      modifies this
      ensures crashed <==> old(writesLeft) == 0
      ensures crashed ==> Current() == old(Current()) && log == old(log) && writesLeft == 0
      ensures !crashed ==>
                Current() == ApplyWrite(old(Current()), w) && log == old(log) + [w] && writesLeft == old(writesLeft) - 1
    {
      if writesLeft == 0 {
        return true;
      }
      match w {
        case SetRecord(r) => record := Some(r);
        case SetHighWater(g) => highWater := g;
        case SetTarget(c) => target := Some(c);
        case RemoveTarget => target := None;
        case SetSecret(v) => secret := Some(v);
      }
      writesLeft, log, crashed := writesLeft - 1, log + [w], false;
    }

    /** The writes so far are a prefix of `ws` applied to `s`, out of a budget. */
    ghost predicate Following(s: State, ws: seq<Write>, budget: nat)
      reads this
    {
      |log| <= |ws| && log == ws[..|log|] && Current() == ApplyWrites(s, log) && writesLeft + |log| == budget
    }

    method PutNext(w: Write, ghost s: State, ghost ws: seq<Write>, ghost budget: nat) returns (crashed: bool)
      requires Following(s, ws, budget) && |log| < |ws| && ws[|log|] == w
      modifies this
      ensures Following(s, ws, budget)
      ensures crashed ==> Current() == old(Current()) && log == old(log) && writesLeft == 0
      ensures !crashed ==> Current() == ApplyWrite(old(Current()), w) && log == old(log) + [w]
    {
      ghost var before := log;
      crashed := Put(w);
      if !crashed {
        assert log[..|log| - 1] == before;
      }
    }

    /** `saveGeneration`, then the file. */
    method Store(config: Config, ghost s: State, ghost ws: seq<Write>, ghost budget: nat) returns (crashed: bool)
      requires Following(s, ws, budget) && log + StoreWrites(highWater, config) <= ws
      modifies this
      ensures Following(s, ws, budget)
      ensures crashed ==> writesLeft == 0 && |log| < |ws|
      ensures !crashed ==> log == old(log) + StoreWrites(old(highWater), config) && record == old(record)
    {
      ghost var before, stored := log, StoreWrites(highWater, config);
      assert forall i :: 0 <= i < |stored| ==> ws[|before| + i] == (before + stored)[|before| + i] == stored[i];
      if config.generation > highWater {
        crashed := PutNext(SetHighWater(config.generation), s, ws, budget);
        if crashed {
          return;
        }
      }
      crashed := PutNext(SetTarget(config), s, ws, budget);
    }

    /** Answers nothing when the run is cut short. */
    method Migrate(env: Env) returns (outcome: Option<Outcome>)
      requires log == []
      modifies this
      ensures Current() == Stopped(env, old(Current()), old(writesLeft))
      ensures outcome == if old(writesLeft) < |Writes(env, old(Current()))| then None
          else Some(Answer(env, old(Current())))
    {
      if env.source.None? {
        return Some(Missing);
      }
      if record.Some? && record.value.generation <= env.source.value.generation {
        return Some(Corrupt);
      }
      if record.Some? && record.value.sourceHash != env.source.value {
        return Some(CurrentConfigKept);
      }
      if record.None? && target.Some? {
        return Some(CurrentConfigKept);
      }
      outcome := MigrateRecorded(env);
    }

    /** From the record on. */
    method MigrateRecorded(env: Env) returns (outcome: Option<Outcome>)
      requires log == [] && env.source.Some?
      requires record.Some? ==>
          record.value.generation > env.source.value.generation && record.value.sourceHash == env.source.value
      requires record.None? ==> target.None?
      modifies this
      ensures Current() == Stopped(env, old(Current()), old(writesLeft))
      ensures outcome == if old(writesLeft) < |Writes(env, old(Current()))| then None
          else Some(Answer(env, old(Current())))
    {
      ghost var s, ws, budget := Current(), Writes(env, Current()), writesLeft;
      var source, crashed := env.source.value, false;
      var current: Record;
      if record.None? {
        current := Record(source, Max(Max(source.generation, env.sourceHighWater), highWater) + 1, Prepared);
        crashed := PutNext(SetRecord(current), s, ws, budget);
        if crashed {
          StoppedAt(env, s, log, budget);
          return None;
        }
      } else {
        current := record.value;
      }
      assert log == RecordWrites(env, s) && current == RecordFor(env, s);
      var candidate := source.(generation := current.generation);
      if target.None? && (highWater > current.generation || current.stage == Complete) {
        return Some(CurrentConfigKept);
      }
      if target.Some? && target.value != candidate {
        return Some(CurrentConfigKept);
      }
      if target.None? {
        assert log + StoreWrites(highWater, candidate) <= ws;
        crashed := Store(candidate, s, ws, budget);
        if crashed {
          StoppedAt(env, s, log, budget);
          return None;
        }
      }
      if current.stage == Complete {
        return Some(Completed(current.generation));
      }
      assert ws == log + StageWrites(env, current);
      crashed := FinishStages(env, current, s, ws, budget);
      StoppedAt(env, s, log, budget);
      if crashed {
        outcome := None;
      } else if CredentialsSuffice(env) {
        outcome := Some(Completed(current.generation));
      } else {
        outcome := Some(CredentialsNeedInput(current.generation));
      }
    }

    method FinishStages(env: Env, current: Record, ghost s: State, ghost ws: seq<Write>, ghost budget: nat)
      returns (crashed: bool)
      requires env.source.Some?
      requires Following(s, ws, budget) && ws == log + StageWrites(env, current)
      modifies this
      ensures Following(s, ws, budget)
      ensures crashed ==> writesLeft == 0 && |log| < |ws|
      ensures !crashed ==> log == ws
    {
      crashed := PutNext(SetRecord(current.(stage := ConfigMigrated)), s, ws, budget);
      if crashed {
        return;
      }
      if SecretCopies(env) {
        crashed := PutNext(SetSecret(env.sourceSecret.value), s, ws, budget);
        if crashed {
          return;
        }
      } else if !(env.readable && env.sourceSecret.None? && !env.source.value.external) {
        return;
      }
      crashed := PutNext(SetRecord(current.(stage := Complete)), s, ws, budget);
    }
  }
}
