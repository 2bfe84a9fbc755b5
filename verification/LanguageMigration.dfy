/**
 * Carrying the language over from the legacy settings: a marker with the hashes before and after, and crashes in
 * between.
 */
module LanguageMigration {
  import opened DurableWrites
  import opened Ordering

  /** `rest` is everything else the preferences hold. Preferences stand for their hash. */
  datatype Preferences = Preferences(language: string, rest: string)

  datatype Stage = Prepared | Complete

  /** `source` is the legacy language the marker was written for. */
  datatype Intent = Intent(stage: Stage, source: string, prior: Preferences, next: Preferences)

  datatype Marker = NoMarker | Malformed | Recorded(intent: Intent)

  /** What survives a crash. */
  datatype State = State(preferences: Preferences, marker: Marker)

  datatype Write = SetMarker(intent: Intent) | SetPreferences(preferences: Preferences)

  datatype Outcome = Kept | Migrated | Invalid

  function ApplyWrite(s: State, w: Write): State {
    match w
    case SetMarker(i) => s.(marker := Recorded(i))
    case SetPreferences(p) => s.(preferences := p)
  }

  function ApplyWrites(s: State, ws: seq<Write>): State {
    Applied(s, ws, ApplyWrite)
  }

  /** The language found in the legacy file; any other value there stops the migration. */
  predicate Supported(language: string) {
    language == "en" || language == "zh-CN"
  }

  /** The stored intent, or the one a first run prepares. */
  function IntentFor(legacy: string, s: State): Intent {
    if s.marker.Recorded? then s.marker.intent
    else Intent(Prepared, legacy, s.preferences, s.preferences.(language := legacy))
  }

  predicate Pending(legacy: string, i: Intent) {
    i.stage == Prepared && i.source == legacy
  }

  /** The durable writes of an uninterrupted run. */
  function Writes(legacy: string, s: State): seq<Write> {
    if !Supported(legacy) || s.marker.Malformed? then []
    else
      var i := IntentFor(legacy, s);
      (if s.marker.NoMarker? then [SetMarker(i)] else []) +
      (if !Pending(legacy, i) then []
       else (if s.preferences == i.prior then [SetPreferences(s.preferences.(language := legacy))] else []) +
            [SetMarker(i.(stage := Complete))])
  }

  function Answer(legacy: string, s: State): Outcome {
    if !Supported(legacy) || s.marker.Malformed? then Invalid
    else if Pending(legacy, IntentFor(legacy, s))
        && s.preferences in [IntentFor(legacy, s).prior, IntentFor(legacy, s).next]
    then Migrated
    else Kept
  }

  /** Runs stopped after some of their writes, and the user's own changes between runs. */
  datatype Action = Migrate(stop: nat) | Edit(preferences: Preferences)

  function Act(legacy: string, s: State, a: Action): State {
    match a
    case Edit(p) => s.(preferences := p)
    case Migrate(stop) =>
      var ws := Writes(legacy, s);
      ApplyWrites(s, if stop < |ws| then ws[..stop] else ws)
  }

  function After(legacy: string, s: State, actions: seq<Action>): State {
    if actions == [] then s else Act(legacy, After(legacy, s, actions[..|actions| - 1]), actions[|actions| - 1])
  }

  /**
   * A run, stopped anywhere, changes the preferences exactly when the marker is pending, they are still the prior
   * ones, and it gets past the marker; it changes the language only. With the marker complete it writes nothing at all.
   */
  lemma MigrateStep(legacy: string, s: State, stop: nat)
    ensures var t, i := Act(legacy, s, Migrate(stop)), IntentFor(legacy, s);
            && (t.preferences != s.preferences <==>
                  && legacy in {"en", "zh-CN"} && !s.marker.Malformed? && s.preferences == i.prior
                  && i.stage == Prepared && i.source == legacy
                  && s.preferences.language != legacy && stop >= (if s.marker.NoMarker? then 2 else 1))
            && (t.preferences != s.preferences ==>
                t.preferences == s.preferences.(language := legacy) && t.marker.Recorded?)
            && (s.marker.Recorded? && s.marker.intent.stage == Complete ==> t == s)
            && (t.marker == s.marker || t.marker == Recorded(i) || t.marker == Recorded(i.(stage := Complete)))
  {
    var ws := Writes(legacy, s);
    assert ws[..|ws|] == ws;
    FirstFew(s, ws, if stop < |ws| then stop else |ws|, ApplyWrite);
  }

  /** A first run's marker is for the language and the preferences it found, and for those with the language changed. */
  lemma MarkerIsForWhatWasFound(legacy: string, s: State)
    ensures !s.marker.Recorded? ==>
              IntentFor(legacy, s) == Intent(Prepared, legacy, s.preferences, s.preferences.(language := legacy))
    ensures s.marker.Recorded? ==> IntentFor(legacy, s) == s.marker.intent
  {
  }

  /**
   * Invalid exactly for another language or a marker that cannot be read; migrated exactly while the marker is pending
   * and the preferences are the ones before or after the change.
   */
  lemma AnsweredExactlyWhen(legacy: string, s: State)
    ensures Answer(legacy, s) == Invalid <==> legacy !in {"en", "zh-CN"} || s.marker.Malformed?
    ensures Answer(legacy, s) == Migrated <==>
            && legacy in {"en", "zh-CN"}
            && (s.marker.NoMarker?
                || (s.marker.Recorded? && s.marker.intent.stage == Prepared && s.marker.intent.source == legacy
                    && s.preferences in {s.marker.intent.prior, s.marker.intent.next}))
  {
  }

  /** What an uninterrupted run leaves. */
  lemma FullRun(legacy: string, s: State)
    requires Supported(legacy) && !s.marker.Malformed? && Pending(legacy, IntentFor(legacy, s))
    ensures var i := IntentFor(legacy, s);
            ApplyWrites(s, Writes(legacy, s)) ==
              State(if s.preferences == i.prior then s.preferences.(language := legacy) else s.preferences,
                    Recorded(i.(stage := Complete)))
  {
    var ws, i := Writes(legacy, s), IntentFor(legacy, s);
    var done := SetMarker(i.(stage := Complete));
    if s.marker.NoMarker? {
      assert ws == [SetMarker(i), SetPreferences(i.next), done];
    } else if s.preferences == i.prior {
      assert ws == [SetPreferences(s.preferences.(language := legacy)), done];
    } else {
      assert ws == [done];
    }
    assert ws[..|ws|] == ws;
    FirstFew(s, ws, |ws|, ApplyWrite);
  }

  /** The marker of a run that started without one: prepared for the preferences found, or complete. */
  predicate Begun(legacy: string, s: State, t: State) {
    var i := IntentFor(legacy, s);
    || t == s
    || (t.marker == Recorded(i) && (t.preferences == i.prior || t.preferences == i.next))
    || (t.marker == Recorded(i.(stage := Complete)) && t.preferences == i.next)
  }

  lemma StopStaysOnTheWay(legacy: string, s: State, before: State, stop: nat)
    requires Supported(legacy) && s.marker.NoMarker? && Begun(legacy, s, before)
    ensures Begun(legacy, s, Act(legacy, before, Migrate(stop)))
  {
    var ws := Writes(legacy, before);
    assert ws[..|ws|] == ws;
    FirstFew(before, ws, if stop < |ws| then stop else |ws|, ApplyWrite);
  }

  lemma {:induction false} CrashesStayOnTheWay(legacy: string, s: State, stops: seq<Action>)
    requires Supported(legacy) && s.marker.NoMarker? && forall k :: 0 <= k < |stops| ==> stops[k].Migrate?
    ensures Begun(legacy, s, After(legacy, s, stops))
  {
    if stops != [] {
      CrashesStayOnTheWay(legacy, s, stops[..|stops| - 1]);
      StopStaysOnTheWay(legacy, s, After(legacy, s, stops[..|stops| - 1]), stops[|stops| - 1].stop);
    }
  }

  /** Without edits, whatever crashes come first, a full run ends with the legacy language and a complete marker. */
  lemma UndisturbedEndsWithLegacyLanguage(legacy: string, s: State, stops: seq<Action>)
    requires Supported(legacy) && s.marker.NoMarker? && forall k :: 0 <= k < |stops| ==> stops[k].Migrate?
    ensures var t := After(legacy, s, stops);
            var done := ApplyWrites(t, Writes(legacy, t));
            && done.preferences == s.preferences.(language := legacy)
            && done.marker == Recorded(IntentFor(legacy, s).(stage := Complete))
  {
    var t := After(legacy, s, stops);
    CrashesStayOnTheWay(legacy, s, stops);
    if Pending(legacy, IntentFor(legacy, t)) {
      FullRun(legacy, t);
    }
  }

  /** A user's change after the marker wins: the next run completes the marker and leaves the preferences alone. */
  lemma UserChangeWins(legacy: string, s: State)
    requires Supported(legacy) && s.marker.Recorded? && Pending(legacy, s.marker.intent)
    requires s.preferences != s.marker.intent.prior
    ensures var t := ApplyWrites(s, Writes(legacy, s));
            t.preferences == s.preferences && t.marker == Recorded(s.marker.intent.(stage := Complete))
  {
    FullRun(legacy, s);
  }

  // ----- How often it is applied -----

  /** Migration runs that changed the preferences. */
  function TimesApplied(legacy: string, s: State, actions: seq<Action>): nat {
    if actions == [] then 0
    else
      var before := After(legacy, s, actions[..|actions| - 1]);
      var last := actions[|actions| - 1];
      TimesApplied(legacy, s, actions[..|actions| - 1]) +
        (if last.Migrate? && Act(legacy, before, last).preferences != before.preferences then 1 else 0)
  }

  /** Edits that put back exactly the preferences the marker was written for. */
  function Restored(prior: Preferences, actions: seq<Action>): nat {
    if actions == [] then 0
    else
      var last := actions[|actions| - 1];
      Restored(prior, actions[..|actions| - 1]) + (if last == Edit(prior) then 1 else 0)
  }

  lemma {:induction false} AppliedOncePerRestore(legacy: string, s: State, actions: seq<Action>)
    requires s.marker.Recorded?
    ensures var prior, t := s.marker.intent.prior, After(legacy, s, actions);
            && t.marker.Recorded? && t.marker.intent.(stage := Prepared) == s.marker.intent.(stage := Prepared)
            && (s.marker.intent.stage == Complete ==>
                t.marker.intent.stage == Complete && TimesApplied(legacy, s, actions) == 0)
            && TimesApplied(legacy, s, actions) + (if t.preferences == prior then 1 else 0) <=
                 (if s.preferences == prior then 1 else 0) + Restored(prior, actions)
  {
    if actions != [] {
      var last, before := actions[|actions| - 1], After(legacy, s, actions[..|actions| - 1]);
      AppliedOncePerRestore(legacy, s, actions[..|actions| - 1]);
      if last.Migrate? {
        MigrateStep(legacy, before, last.stop);
      }
    }
  }

  /**
   * Over any crashes, re-runs and edits, from any state on, the migration changes the preferences at most once,
   * plus once for each edit that restores exactly the preferences the marker was written for. Nothing is ever
   * applied without a marker, and a malformed marker stops everything.
   */
  lemma {:induction false} AppliedOncePerPriorState(legacy: string, s: State, actions: seq<Action>)
    ensures var t, applied := After(legacy, s, actions), TimesApplied(legacy, s, actions);
            && (s.marker.Malformed? <==> t.marker.Malformed?)
            && (s.marker.Recorded? ==> t.marker.Recorded? && t.marker.intent.prior == s.marker.intent.prior)
            && (if t.marker.Recorded? then
                  applied + (if t.preferences == t.marker.intent.prior then 1 else 0) <= 1
                      + Restored(t.marker.intent.prior, actions)
                else applied == 0)
  {
    if s.marker.Recorded? {
      AppliedOncePerRestore(legacy, s, actions);
    } else if actions != [] {
      var last, before := actions[|actions| - 1], After(legacy, s, actions[..|actions| - 1]);
      AppliedOncePerPriorState(legacy, s, actions[..|actions| - 1]);
      if last.Migrate? {
        MigrateStep(legacy, before, last.stop);
      }
    }
  }

  /** A run, cut where it is, changes the preferences. */
  predicate Applies(legacy: string, s: State, a: Action) {
    var i := IntentFor(legacy, s);
    && a.Migrate? && Supported(legacy) && !s.marker.Malformed? && Pending(legacy, i) && s.preferences == i.prior
    && s.preferences.language != legacy && a.stop >= (if s.marker.NoMarker? then 2 else 1)
  }

  /** The user puts back exactly the preferences a pending marker was written for. */
  predicate Restores(legacy: string, s: State, a: Action) {
    s.marker.Recorded? && Pending(legacy, s.marker.intent) && a == Edit(s.marker.intent.prior)
  }

  /** At some step of the run, `what` holds of the state before it and of the action. */
  predicate Occurs(legacy: string, s: State, actions: seq<Action>, what: (string, State, Action) -> bool) {
    actions != [] &&
    var front := actions[..|actions| - 1];
    Occurs(legacy, s, front, what) || what(legacy, After(legacy, s, front), actions[|actions| - 1])
  }

  /** It is applied at all exactly when some run finds the prior preferences under a pending marker and gets past it. */
  lemma {:induction false} AppliedExactlyWhen(legacy: string, s: State, actions: seq<Action>)
    ensures TimesApplied(legacy, s, actions) >= 1 <==> Occurs(legacy, s, actions, Applies)
  {
    if actions != [] {
      var last, before := actions[|actions| - 1], After(legacy, s, actions[..|actions| - 1]);
      AppliedExactlyWhen(legacy, s, actions[..|actions| - 1]);
      if last.Migrate? { MigrateStep(legacy, before, last.stop); }
    }
  }

  lemma {:induction false} AfterConcat(legacy: string, s: State, a: seq<Action>, b: seq<Action>)
    ensures After(legacy, s, a + b) == After(legacy, After(legacy, s, a), b)
    ensures TimesApplied(legacy, s, a + b) == TimesApplied(legacy, s, a) + TimesApplied(legacy, After(legacy, s, a), b)
  {
    if b == [] {
      assert a + b == a;
    } else {
      assert (a + b)[..|a + b| - 1] == a + b[..|b| - 1];
      AfterConcat(legacy, s, a, b[..|b| - 1]);
    }
  }

  /** Applied, restored while the marker is still pending, and applied again. */
  ghost predicate RestoredBetween(legacy: string, s: State, actions: seq<Action>, j: nat)
    requires j < |actions|
  {
    && Occurs(legacy, s, actions[..j], Applies)
    && Restores(legacy, After(legacy, s, actions[..j]), actions[j])
    && Occurs(legacy, After(legacy, s, actions[..j + 1]), actions[j + 1..], Applies)
  }

  /** Where the prior preferences are back under a pending marker after an application, some edit restored them. */
  lemma {:induction false} RestoredSince(legacy: string, s: State, actions: seq<Action>) returns (j: nat)
    requires TimesApplied(legacy, s, actions) >= 1
    requires var t := After(legacy, s, actions);
             t.marker.Recorded? && Pending(legacy, t.marker.intent) && t.preferences == t.marker.intent.prior
    ensures j < |actions| && TimesApplied(legacy, s, actions[..j]) >= 1
    ensures Restores(legacy, After(legacy, s, actions[..j]), actions[j])
  {
    var n := |actions| - 1;
    var front, last, before := actions[..n], actions[n], After(legacy, s, actions[..n]);
    AppliedOncePerPriorState(legacy, s, front);
    if last.Migrate? {
      MigrateStep(legacy, before, last.stop);
      j := RestoredSince(legacy, s, front);
      assert front[..j] == actions[..j];
    } else {
      j := n;
    }
  }

  lemma {:induction false} RestoredBeforeSecond(legacy: string, s: State, actions: seq<Action>) returns (j: nat)
    requires TimesApplied(legacy, s, actions) >= 2
    ensures j < |actions| && RestoredBetween(legacy, s, actions, j)
  {
    var n := |actions| - 1;
    var front, last, before := actions[..n], actions[n], After(legacy, s, actions[..n]);
    if TimesApplied(legacy, s, front) >= 2 {
      j := RestoredBeforeSecond(legacy, s, front);
      OccursLonger(legacy, s, actions, j);
    } else {
      AppliedOncePerPriorState(legacy, s, front);
      MigrateStep(legacy, before, last.stop);
      j := RestoredSince(legacy, s, front);
      assert front[..j] == actions[..j];
      AppliedExactlyWhen(legacy, s, actions[..j]);
      AppliesAtTheEnd(legacy, s, actions, j + 1);
    }
  }

  lemma AppliesAtTheEnd(legacy: string, s: State, actions: seq<Action>, k: nat)
    requires k < |actions|
    requires Applies(legacy, After(legacy, s, actions[..|actions| - 1]), actions[|actions| - 1])
    ensures Occurs(legacy, After(legacy, s, actions[..k]), actions[k..], Applies)
  {
    var n := |actions| - 1;
    assert actions[..n] == actions[..k] + actions[k..n] && actions[k..][..n - k] == actions[k..n];
    AfterConcat(legacy, s, actions[..k], actions[k..n]);
  }

  /** Over one more action what was restored between stays so. */
  lemma OccursLonger(legacy: string, s: State, actions: seq<Action>, j: nat)
    requires j + 1 < |actions| && RestoredBetween(legacy, s, actions[..|actions| - 1], j)
    ensures RestoredBetween(legacy, s, actions, j)
  {
    var front := actions[..|actions| - 1];
    assert front[..j] == actions[..j] && front[..j + 1] == actions[..j + 1];
    assert actions[j + 1..][..|actions| - j - 2] == front[j + 1..];
  }

  /**
   * Over any run the migration is applied more than once if and only if, after an application, an edit restores the
   * prior preferences while the marker is still pending, and a later run gets past the marker again.
   */
  lemma AppliedTwiceExactlyWhenRestoredBetween(legacy: string, s: State, actions: seq<Action>)
    ensures TimesApplied(legacy, s, actions) >= 2 <==>
            exists j :: 0 <= j < |actions| && RestoredBetween(legacy, s, actions, j)
  {
    if j :| 0 <= j < |actions| && RestoredBetween(legacy, s, actions, j) {
      RestoredAppliesTwice(legacy, s, actions, j);
    }
    if TimesApplied(legacy, s, actions) >= 2 {
      var j := RestoredBeforeSecond(legacy, s, actions);
    }
  }

  lemma RestoredAppliesTwice(legacy: string, s: State, actions: seq<Action>, j: nat)
    requires j < |actions| && RestoredBetween(legacy, s, actions, j)
    ensures TimesApplied(legacy, s, actions) >= 2
  {
    var front, rest := actions[..j + 1], actions[j + 1..];
    assert actions == front + rest && front[..j] == actions[..j];
    AfterConcat(legacy, s, front, rest);
    AppliedExactlyWhen(legacy, s, actions[..j]);
    AppliedExactlyWhen(legacy, After(legacy, s, front), rest);
  }

  lemma ThreeActions(legacy: string, s: State, a: Action, b: Action, c: Action)
    ensures var one, two := Act(legacy, s, a), Act(legacy, Act(legacy, s, a), b);
            && After(legacy, s, [a, b, c]) == Act(legacy, two, c)
            && TimesApplied(legacy, s, [a, b, c]) ==
                 (if a.Migrate? && one.preferences != s.preferences then 1 else 0) +
                 (if b.Migrate? && two.preferences != one.preferences then 1 else 0) +
                 (if c.Migrate? && Act(legacy, two, c).preferences != two.preferences then 1 else 0)
  {
    OneMoreAction(legacy, s, [], a);
    OneMoreAction(legacy, s, [a], b);
    OneMoreAction(legacy, s, [a, b], c);
    assert [] + [a] == [a] && [a] + [b] == [a, b] && [a, b] + [c] == [a, b, c];
  }

  lemma OneMoreAction(legacy: string, s: State, front: seq<Action>, last: Action)
    ensures var before := After(legacy, s, front);
            && After(legacy, s, front + [last]) == Act(legacy, before, last)
            && TimesApplied(legacy, s, front + [last]) ==
                 TimesApplied(legacy, s, front) +
                 (if last.Migrate? && Act(legacy, before, last).preferences != before.preferences then 1 else 0)
  {
  }

  /**
   * The exception is real: after a crash before the marker completes, putting the old language back is undone by
   * the next run.
   */
  lemma RestoredPreferencesAreMigratedAgain(legacy: string, s: State)
    requires Supported(legacy) && s.marker.NoMarker? && s.preferences.language != legacy
    ensures var run := [Migrate(2), Edit(s.preferences), Migrate(3)];
            && TimesApplied(legacy, s, run) == 2
            && After(legacy, s, run).preferences == s.preferences.(language := legacy)
  {
    var ws, i := Writes(legacy, s), IntentFor(legacy, s);
    FirstFew(s, ws, 2, ApplyWrite);
    var one := Act(legacy, s, Migrate(2));
    assert one == State(i.next, Recorded(i));
    var two := Act(legacy, one, Edit(s.preferences));
    assert two == State(s.preferences, Recorded(i));
    FullRun(legacy, two);
    assert Act(legacy, two, Migrate(3)) == ApplyWrites(two, Writes(legacy, two));
    ThreeActions(legacy, s, Migrate(2), Edit(s.preferences), Migrate(3));
  }

  // ----- The migration as written -----

  class LegacySettingsMigration {
    var busy: bool
    var preferences: Preferences
    var marker: Marker
    var writesLeft: nat

    constructor (s: State, writesLeft: nat)
      ensures Current() == s && this.writesLeft == writesLeft && !busy
    {
      busy, preferences, marker, this.writesLeft := false, s.preferences, s.marker, writesLeft;
    }

    function Current(): State
      reads this
    {
      State(preferences, marker)
    }

    method SaveMarker(i: Intent) returns (crashed: bool)
      modifies this
      ensures crashed <==> old(writesLeft) == 0
      ensures Current() == if crashed then old(Current()) else ApplyWrite(old(Current()), SetMarker(i))
      ensures busy == old(busy) && writesLeft == if crashed then 0 else old(writesLeft) - 1
    {
      crashed := writesLeft == 0;
      if !crashed {
        marker, writesLeft := Recorded(i), writesLeft - 1;
      }
    }

    method UpdateLanguage(language: string) returns (crashed: bool)
      modifies this
      ensures crashed <==> old(writesLeft) == 0
      ensures Current() == if crashed then old(Current())
                           else ApplyWrite(old(Current()), SetPreferences(old(preferences).(language := language)))
      ensures busy == old(busy) && writesLeft == if crashed then 0 else old(writesLeft) - 1
    {
      crashed := writesLeft == 0;
      if !crashed {
        preferences, writesLeft := preferences.(language := language), writesLeft - 1;
      }
    }

    /** The language part of `run`; answers nothing when it is refused or cut short. */
    method Run(legacy: string) returns (outcome: Option<Outcome>)
      modifies this
      ensures old(busy) ==> outcome.None? && Current() == old(Current()) && busy
      ensures !old(busy) ==> Current() == Act(legacy, old(Current()), Migrate(old(writesLeft)))
      ensures !old(busy) ==>
                outcome == if old(writesLeft) < |Writes(legacy, old(Current()))| then None
                    else Some(Answer(legacy, old(Current())))
    {
      if busy {
        return None;
      }
      ghost var s, ws, budget := Current(), Writes(legacy, Current()), writesLeft;
      assert ws[..|ws|] == ws;
      FirstFew(s, ws, if budget < |ws| then budget else |ws|, ApplyWrite);
      busy := true;
      outcome := RunLanguage(legacy);
      busy := false;
    }

    method RunLanguage(legacy: string) returns (outcome: Option<Outcome>)
      modifies this
      ensures var s, ws, n := old(Current()), Writes(legacy, old(Current())), old(writesLeft);
              && Current() == (if n == 0 || |ws| == 0 then s
                               else if n == 1 || |ws| == 1 then ApplyWrite(s, ws[0])
                               else if n == 2 || |ws| == 2 then ApplyWrite(ApplyWrite(s, ws[0]), ws[1])
                               else ApplyWrite(ApplyWrite(ApplyWrite(s, ws[0]), ws[1]), ws[2]))
              && outcome == if n < |ws| then None else Some(Answer(legacy, s))
    {
      if !Supported(legacy) || marker.Malformed? {
        return Some(Invalid);
      }
      var current := preferences;
      var intent := IntentFor(legacy, Current());
      var crashed := false;
      if marker.NoMarker? {
        crashed := SaveMarker(intent);
        if crashed {
          return None;
        }
      }
      var language := Kept;
      if intent.stage == Prepared && intent.source == legacy {
        if current == intent.prior {
          crashed := UpdateLanguage(legacy);
          if crashed {
            return None;
          }
          language := Migrated;
        } else if current == intent.next {
          language := Migrated;
        }
        crashed := SaveMarker(intent.(stage := Complete));
        if crashed {
          return None;
        }
      }
      outcome := Some(language);
    }
  }
}
