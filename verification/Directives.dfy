/** From directive matches to patch operations: overlap selection, duplicates, repeated upserts. */
module Directives {
  import opened Ordering
  import opened Contract
  import opened Patch
  import opened MergeSpec

  /** A regular-expression match and the operations built from it; matches are never empty. */
  datatype Found = Found(start: nat, end: nat, ops: seq<PatchOperation>)

  predicate Overlap(a: Found, b: Found) {
    a.start < b.end && a.end > b.start
  }

  /** The sort order: earlier start first, and of two with one start the longer. */
  predicate Precedes(a: Found, b: Found) {
    a.start < b.start || (a.start == b.start && a.end >= b.end)
  }

  ghost predicate InOrder(s: seq<Found>) {
    forall i, j :: 0 <= i < j < |s| ==> Precedes(s[i], s[j])
  }

  /** The matches of one range, in order. */
  function OfRange(s: seq<Found>, start: nat, end: nat): seq<Found> {
    if s == [] then []
    else
      var front, last := OfRange(s[..|s| - 1], start, end), s[|s| - 1];
      if last.start == start && last.end == end then front + [last] else front
  }

  lemma {:induction false} OfRangeConcat(a: seq<Found>, b: seq<Found>, start: nat, end: nat)
    ensures OfRange(a + b, start, end) == OfRange(a, start, end) + OfRange(b, start, end)
  {
    if b == [] {
      assert a + b == a;
    } else {
      assert (a + b)[..|a + b| - 1] == a + b[..|b| - 1];
      OfRangeConcat(a, b[..|b| - 1], start, end);
    }
  }

  lemma {:induction false} NoneOfRange(s: seq<Found>, start: nat, end: nat)
    requires forall i :: 0 <= i < |s| ==> s[i].start != start || s[i].end != end
    ensures OfRange(s, start, end) == []
  {
    if s != [] {
      NoneOfRange(s[..|s| - 1], start, end);
    }
  }

  /** Sorted with matches of one range in their order: `Array.prototype.sort` is stable. */
  method SortFound(found: seq<Found>) returns (sorted: seq<Found>)
    ensures InOrder(sorted)
    ensures multiset(sorted) == multiset(found)
    ensures forall start, end :: OfRange(sorted, start, end) == OfRange(found, start, end)
  {
    sorted := [];
    for i := 0 to |found|
      invariant InOrder(sorted)
      invariant multiset(sorted) == multiset(found[..i])
      invariant forall start, end :: OfRange(sorted, start, end) == OfRange(found[..i], start, end)
    {
      assert found[..i + 1] == found[..i] + [found[i]];
      var at := |sorted|;
      while at > 0 && !Precedes(sorted[at - 1], found[i])
        invariant 0 <= at <= |sorted|
        invariant forall j :: at <= j < |sorted| ==> !Precedes(sorted[j], found[i])
      {
        at := at - 1;
      }
      InsertedInOrder(sorted, at, found[i]);
      InsertedOnce(sorted, at, found[i]);
      InsertedLast(found[..i], sorted, at, found[i]);
      sorted := sorted[..at] + [found[i]] + sorted[at..];
    }
    assert found[..|found|] == found;
  }

  lemma InsertedInOrder(sorted: seq<Found>, at: nat, x: Found)
    requires InOrder(sorted) && at <= |sorted|
    requires at > 0 ==> Precedes(sorted[at - 1], x)
    requires forall j :: at <= j < |sorted| ==> !Precedes(sorted[j], x)
    ensures InOrder(sorted[..at] + [x] + sorted[at..])
  {
  }

  lemma InsertedOnce(sorted: seq<Found>, at: nat, x: Found)
    requires at <= |sorted|
    ensures multiset(sorted[..at] + [x] + sorted[at..]) == multiset(sorted) + multiset{x}
  {
    assert sorted == sorted[..at] + sorted[at..];
  }

  /** Inserted behind all that do not come after it, a match is the last of its range. */
  lemma InsertedLast(done: seq<Found>, sorted: seq<Found>, at: nat, x: Found)
    requires at <= |sorted| && forall start, end :: OfRange(sorted, start, end) == OfRange(done, start, end)
    requires forall j :: at <= j < |sorted| ==> !Precedes(sorted[j], x)
    ensures forall start, end :: OfRange(sorted[..at] + [x] + sorted[at..], start, end) ==
                                 OfRange(done + [x], start, end)
  {
    var before, after := sorted[..at], sorted[at..];
    forall start, end
      ensures OfRange(before + [x] + after, start, end) == OfRange(done + [x], start, end)
    {
      assert sorted == before + after && (done + [x])[..|done|] == done && (before + [x])[..at] == before;
      OfRangeConcat(before, after, start, end);
      OfRangeConcat(before + [x], after, start, end);
      if x.start == start && x.end == end { NoneOfRange(after, start, end); }
    }
  }

  /** Of the matches of one range, the one found first. */
  ghost predicate FoundFirst(found: seq<Found>, a: Found) {
    exists k :: 0 <= k < |found| && found[k] == a &&
      forall j :: 0 <= j < k ==> found[j].start != a.start || found[j].end != a.end
  }

  lemma {:induction false} FirstOfRange(s: seq<Found>, a: Found)
    ensures FoundFirst(s, a) <==>
            OfRange(s, a.start, a.end) != [] && OfRange(s, a.start, a.end)[0] == a
  {
    if s != [] {
      var n := |s| - 1;
      var front := s[..n];
      FirstOfRange(front, a);
      assert forall i :: 0 <= i < n ==> front[i] == s[i];
      if OfRange(front, a.start, a.end) == [] {
        EmptyRange(front, a.start, a.end);
      } else {
        if FoundFirst(front, a) {
          assert s == front + [s[n]];
          StillFirst(front, s[n], a);
        }
        if FoundFirst(s, a) {
          var k :| 0 <= k < |s| && s[k] == a &&
            forall j :: 0 <= j < k ==> s[j].start != a.start || s[j].end != a.end;
          if k == n { NoneOfRange(front, a.start, a.end); } else { assert front[k] == a; }
        }
      }
    }
  }

  lemma {:induction false} EmptyRange(s: seq<Found>, start: nat, end: nat)
    requires OfRange(s, start, end) == []
    ensures forall i :: 0 <= i < |s| ==> s[i].start != start || s[i].end != end
  {
    if s != [] {
      EmptyRange(s[..|s| - 1], start, end);
    }
  }

  /**
   * Accepted ranges follow one another without overlapping, and of the matches of one range the first is taken; a
   * match is dropped only for an accepted one that overlaps it and starts before it, or with it and ends no earlier.
   */
  ghost predicate Selected(found: seq<Found>, accepted: seq<Found>) {
    && (forall i, j :: 0 <= i < j < |accepted| ==> accepted[i].end <= accepted[j].start)
    && (forall a :: a in accepted ==> a in found && FoundFirst(found, a))
    && (forall f :: f in found && f !in accepted ==>
          exists a :: a in accepted && f.start < a.end && a.start < f.end
                      && (a.start < f.start || (a.start == f.start && a.end >= f.end)))
  }

  /** What the loop has selected of the sorted matches. */
  ghost predicate SelectedOf(sorted: seq<Found>, accepted: seq<Found>) {
    && InOrder(accepted)
    && (forall i, j :: 0 <= i < j < |accepted| ==> !Overlap(accepted[i], accepted[j]))
    && (forall a :: a in accepted ==> a in sorted && FoundFirst(sorted, a))
    && (forall m :: 0 <= m < |sorted| ==>
          sorted[m] in accepted || exists a :: a in accepted && Overlap(sorted[m], a) && Precedes(a, sorted[m]))
  }

  /** No earlier match has the candidate's range: it, or the one it was dropped for, would overlap the candidate. */
  lemma CandidateIsFirst(sorted: seq<Found>, accepted: seq<Found>, candidate: Found)
    requires SelectedOf(sorted, accepted) && candidate.start < candidate.end
    requires forall i :: 0 <= i < |accepted| ==> !Overlap(candidate, accepted[i])
    ensures FoundFirst(sorted + [candidate], candidate)
  {
    var more := sorted + [candidate];
    forall j | 0 <= j < |sorted|
      ensures more[j].start != candidate.start || more[j].end != candidate.end
    {
      if sorted[j] in accepted {
        var i :| 0 <= i < |accepted| && accepted[i] == sorted[j];
      } else {
        var a :| a in accepted && Overlap(sorted[j], a) && Precedes(a, sorted[j]);
        var i :| 0 <= i < |accepted| && accepted[i] == a;
      }
    }
    assert more[|sorted|] == candidate;
  }

  lemma SelectedMore(sorted: seq<Found>, accepted: seq<Found>, candidate: Found)
    requires SelectedOf(sorted, accepted) && InOrder(sorted + [candidate])
    requires forall f :: f in sorted + [candidate] ==> f.start < f.end
    requires forall i :: 0 <= i < |accepted| ==> !Overlap(candidate, accepted[i])
    ensures SelectedOf(sorted + [candidate], accepted + [candidate])
  {
    var more, next := sorted + [candidate], accepted + [candidate];
    forall a | a in accepted
      ensures Precedes(a, candidate) && FoundFirst(more, a)
    {
      var m :| 0 <= m < |sorted| && sorted[m] == a;
      assert more[m] == a && more[|sorted|] == candidate;
      StillFirst(sorted, candidate, a);
    }
    CandidateIsFirst(sorted, accepted, candidate);
    forall m | 0 <= m < |more|
      ensures more[m] in next || exists a :: a in next && Overlap(more[m], a) && Precedes(a, more[m])
    {
      if m < |sorted| && sorted[m] !in accepted {
        var a :| a in accepted && Overlap(sorted[m], a) && Precedes(a, sorted[m]);
        assert a in next;
      }
    }
  }

  lemma StillFirst(sorted: seq<Found>, candidate: Found, a: Found)
    requires FoundFirst(sorted, a)
    ensures FoundFirst(sorted + [candidate], a)
  {
    var k :| 0 <= k < |sorted| && sorted[k] == a &&
      forall j :: 0 <= j < k ==> sorted[j].start != a.start || sorted[j].end != a.end;
    assert (sorted + [candidate])[k] == a;
  }

  lemma SelectedWithout(sorted: seq<Found>, accepted: seq<Found>, candidate: Found, a: Found)
    requires SelectedOf(sorted, accepted) && InOrder(sorted + [candidate])
    requires a in accepted && Overlap(candidate, a)
    ensures SelectedOf(sorted + [candidate], accepted)
  {
    var more := sorted + [candidate];
    var m :| 0 <= m < |sorted| && sorted[m] == a;
    assert more[m] == a && more[|sorted|] == candidate && Precedes(a, candidate);
    forall x | x in accepted
      ensures FoundFirst(more, x)
    {
      StillFirst(sorted, candidate, x);
    }
  }

  lemma SameMembers(a: seq<Found>, b: seq<Found>)
    requires multiset(a) == multiset(b)
    ensures forall f :: f in a <==> f in b
  {
    forall f
      ensures f in a <==> f in b
    {
      assert f in a <==> f in multiset(a);
      assert f in b <==> f in multiset(b);
    }
  }

  lemma SelectionFollows(accepted: seq<Found>)
    requires InOrder(accepted) && forall a :: a in accepted ==> a.start < a.end
    requires forall i, j :: 0 <= i < j < |accepted| ==> !Overlap(accepted[i], accepted[j])
    ensures forall i, j :: 0 <= i < j < |accepted| ==> accepted[i].end <= accepted[j].start
  {
    forall i, j | 0 <= i < j < |accepted|
      ensures accepted[i].end <= accepted[j].start
    {
      assert accepted[j] in accepted && !Overlap(accepted[i], accepted[j]) && Precedes(accepted[i], accepted[j]);
    }
  }

  lemma DroppedFor(sorted: seq<Found>, accepted: seq<Found>, f: Found) returns (a: Found)
    requires SelectedOf(sorted, accepted) && f in sorted && f !in accepted
    ensures a in accepted && f.start < a.end && a.start < f.end
    ensures a.start < f.start || (a.start == f.start && a.end >= f.end)
  {
    var m :| 0 <= m < |sorted| && sorted[m] == f;
    a :| a in accepted && Overlap(f, a) && Precedes(a, f);
  }

  lemma SelectionHolds(found: seq<Found>, sorted: seq<Found>, accepted: seq<Found>)
    requires SelectedOf(sorted, accepted) && forall f :: f in sorted <==> f in found
    requires forall start, end :: OfRange(sorted, start, end) == OfRange(found, start, end)
    requires forall f :: f in found ==> f.start < f.end
    ensures Selected(found, accepted)
  {
    SelectionFollows(accepted);
    forall a | a in accepted
      ensures FoundFirst(found, a)
    {
      FirstOfRange(sorted, a);
      FirstOfRange(found, a);
    }
    forall f | f in found && f !in accepted
      ensures exists a :: a in accepted && f.start < a.end && a.start < f.end
                && (a.start < f.start || (a.start == f.start && a.end >= f.end))
    {
      var a := DroppedFor(sorted, accepted, f);
    }
  }

  /** Overlapping directives: the first match wins the range. */
  method SelectDirectives(found: seq<Found>) returns (accepted: seq<Found>)
    requires forall f :: f in found ==> f.start < f.end
    ensures Selected(found, accepted)
  {
    var sorted := SortFound(found);
    SameMembers(sorted, found);
    accepted := [];
    for n := 0 to |sorted|
      invariant SelectedOf(sorted[..n], accepted)
    {
      var candidate := sorted[n];
      assert sorted[..n + 1] == sorted[..n] + [candidate];
      if forall i :: 0 <= i < |accepted| ==> !Overlap(candidate, accepted[i]) {
        SelectedMore(sorted[..n], accepted, candidate);
        accepted := accepted + [candidate];
      } else {
        ghost var i :| 0 <= i < |accepted| && Overlap(candidate, accepted[i]);
        SelectedWithout(sorted[..n], accepted, candidate, accepted[i]);
      }
    }
    assert sorted[..|sorted|] == sorted;
    SelectionHolds(found, sorted, accepted);
  }

  // ----- Duplicates inside one instruction -----

  ghost predicate DistinctFields(ops: seq<PatchOperation>) {
    forall i, j :: 0 <= i < j < |ops| ==> KeyOf(ops[i]) != KeyOf(ops[j])
  }

  /** Two operations on one key differ. */
  ghost predicate Contradicts(ops: seq<PatchOperation>, key: string) {
    exists i, j :: 0 <= i < j < |ops| && KeyOf(ops[i]) == key && KeyOf(ops[j]) == key && ops[i] != ops[j]
  }

  /** `Array.prototype.indexOf` for an element known to be there. */
  method PositionOf(ops: seq<PatchOperation>, op: PatchOperation) returns (i: nat)
    requires op in ops
    ensures i < |ops| && ops[i] == op
  {
    i := 0;
    while ops[i] != op
      invariant 0 <= i < |ops|
      invariant forall j :: 0 <= j < i ==> ops[j] != op
      decreases |ops| - i
    {
      i := i + 1;
    }
  }

  /** What is kept after `done` operations: the last on each key, each key once. */
  ghost predicate KeepsLast(done: seq<PatchOperation>, kept: seq<PatchOperation>) {
    && DistinctFields(kept)
    && (forall op :: op in kept ==> TouchesKey(done, KeyOf(op)) && op == LastOp(done, KeyOf(op)))
    && (forall key :: TouchesKey(done, key) ==> LastOp(done, key) in kept)
  }

  lemma KeptRepeats(done: seq<PatchOperation>, kept: seq<PatchOperation>, op: PatchOperation)
    requires KeepsLast(done, kept) && TouchesKey(done, KeyOf(op)) && LastOp(done, KeyOf(op)) == op
    ensures KeepsLast(done + [op], kept)
  {
    forall key
      ensures TouchesKey(done + [op], key) <==> TouchesKey(done, key)
      ensures TouchesKey(done, key) ==> LastOp(done + [op], key) == LastOp(done, key)
    {
      TouchesExtended(done, op, key);
    }
  }

  lemma KeptReplaces(
    done: seq<PatchOperation>, kept: seq<PatchOperation>, rest: seq<PatchOperation>, op: PatchOperation)
    requires KeepsLast(done, kept) && DistinctFields(rest)
    requires forall o :: o in rest <==> o in kept && KeyOf(o) != KeyOf(op)
    ensures KeepsLast(done + [op], rest + [op])
  {
    var next := rest + [op];
    forall i | 0 <= i < |rest|
      ensures KeyOf(rest[i]) != KeyOf(op)
    {
      assert rest[i] in rest;
    }
    assert forall o :: o in next <==> o in rest || o == op;
    forall key
      ensures TouchesKey(done + [op], key) ==> LastOp(done + [op], key) in next
    {
      TouchesExtended(done, op, key);
    }
    forall o | o in next
      ensures TouchesKey(done + [op], KeyOf(o)) && o == LastOp(done + [op], KeyOf(o))
    {
      TouchesExtended(done, op, KeyOf(o));
    }
  }

  lemma RemovedOne(kept: seq<PatchOperation>, at: nat, rest: seq<PatchOperation>)
    requires DistinctFields(kept) && at < |kept| && rest == kept[..at] + kept[at + 1..]
    ensures DistinctFields(rest)
    ensures forall o :: o in rest <==> o in kept && KeyOf(o) != KeyOf(kept[at])
  {
    assert forall i :: 0 <= i < |rest| ==> rest[i] == kept[if i < at then i else i + 1];
    forall o | o in kept && KeyOf(o) != KeyOf(kept[at])
      ensures o in rest
    {
      var i :| 0 <= i < |kept| && kept[i] == o;
      assert rest[if i < at then i else i - 1] == o;
    }
  }

  /** `reported` names exactly the contradicted keys of `done`. */
  ghost predicate ReportsContradictions(done: seq<PatchOperation>, reported: set<string>) {
    && (forall key :: key in reported ==> Contradicts(done, key))
    && (forall i :: 0 <= i < |done| && KeyOf(done[i]) !in reported ==> done[i] == LastOp(done, KeyOf(done[i])))
  }

  lemma ReportedMore(done: seq<PatchOperation>, op: PatchOperation, reported: set<string>, next: set<string>)
    requires ReportsContradictions(done, reported)
    requires next == if TouchesKey(done, KeyOf(op)) && LastOp(done, KeyOf(op)) != op then reported + {KeyOf(op)}
        else reported
    ensures ReportsContradictions(done + [op], next)
  {
    var more := done + [op];
    forall key | key in next
      ensures Contradicts(more, key)
    {
      if key in reported {
        var i, j :| 0 <= i < j < |done| && KeyOf(done[i]) == key && KeyOf(done[j]) == key && done[i] != done[j];
        assert more[i] == done[i] && more[j] == done[j];
      } else {
        var last := LastOp(done, key);
        var i :| 0 <= i < |done| && done[i] == last;
        assert more[i] == last && more[|done|] == op;
      }
    }
    forall i | 0 <= i < |more| && KeyOf(more[i]) !in next
      ensures more[i] == LastOp(more, KeyOf(more[i]))
    {
      TouchesExtended(done, op, KeyOf(more[i]));
      if i < |done| {
        assert more[i] == done[i];
        assert KeyOf(done[i]) == KeyOf(more[i]);
      }
    }
  }

  lemma ReportIsExact(ops: seq<PatchOperation>, reported: set<string>)
    requires ReportsContradictions(ops, reported)
    ensures forall key :: key in reported <==> Contradicts(ops, key)
  {
    forall key | Contradicts(ops, key)
      ensures key in reported
    {
      var i, j :| 0 <= i < j < |ops| && KeyOf(ops[i]) == key && KeyOf(ops[j]) == key && ops[i] != ops[j];
    }
  }

  /** One more operation, given the previous one on its key. */
  method ResolveOne(ghost done: seq<PatchOperation>, kept: seq<PatchOperation>, previous: Option<PatchOperation>,
      op: PatchOperation)
    returns (next: seq<PatchOperation>, conflicting: bool)
    requires KeepsLast(done, kept)
    requires previous == if TouchesKey(done, KeyOf(op)) then Some(LastOp(done, KeyOf(op))) else None
    ensures KeepsLast(done + [op], next)
    ensures conflicting <==> previous.Some? && previous.value != op
  {
    conflicting := false;
    if previous.None? {
      KeptReplaces(done, kept, kept, op);
      next := kept + [op];
    } else if previous.value == op {
      KeptRepeats(done, kept, op);
      next := kept;
    } else {
      var at := PositionOf(kept, previous.value);
      var rest := kept[..at] + kept[at + 1..];
      RemovedOne(kept, at, rest);
      KeptReplaces(done, kept, rest, op);
      next := rest + [op];
      conflicting := true;
    }
  }

  /**
   * Repeated directives: an exact repeat is dropped, a different one replaces its predecessor and is reported.
   * One operation is kept per field, the last stated; a field is reported exactly when two statements on it differ.
   */
  method ResolveDuplicateDirectives(ops: seq<PatchOperation>)
    returns (kept: seq<PatchOperation>, ambiguous: seq<string>)
    ensures KeepsLast(ops, kept)
    ensures forall key :: key in ambiguous <==> Contradicts(ops, key)
  {
    kept, ambiguous := [], [];
    var byKey: map<string, PatchOperation> := map[];
    ghost var reported: set<string> := {};
    for n := 0 to |ops|
      invariant KeepsLast(ops[..n], kept)
      invariant RemembersLast(ops[..n], byKey)
      invariant ReportsContradictions(ops[..n], reported)
      invariant forall key :: key in ambiguous <==> key in reported
    {
      var op, key := ops[n], KeyOf(ops[n]);
      assert ops[..n + 1] == ops[..n] + [op];
      RemembersMore(ops[..n], byKey, op);
      var conflicting;
      kept, conflicting := ResolveOne(ops[..n], kept, if key in byKey then Some(byKey[key]) else None, op);
      ReportedMore(ops[..n], op, reported, if conflicting then reported + {key} else reported);
      if conflicting {
        ambiguous := ambiguous + [key];
        reported := reported + {key};
      }
      byKey := byKey[key := op];
    }
    assert ops[..|ops|] == ops;
    ReportIsExact(ops, reported);
  }

  ghost predicate HasOneOn(kept: seq<PatchOperation>, key: string) {
    exists op :: op in kept && KeyOf(op) == key
  }

  /** What is kept: operations that no later one on their key follows, and one on each key that is touched. */
  lemma KeptIsLast(ops: seq<PatchOperation>, kept: seq<PatchOperation>)
    requires KeepsLast(ops, kept)
    ensures forall op :: op in kept ==>
              exists i :: 0 <= i < |ops| && ops[i] == op && forall j :: i < j < |ops| ==> KeyOf(ops[j]) != KeyOf(op)
    ensures forall op :: op in ops ==> HasOneOn(kept, KeyOf(op))
  {
    forall op | op in kept
      ensures exists i :: 0 <= i < |ops| && ops[i] == op && forall j :: i < j < |ops| ==> KeyOf(ops[j]) != KeyOf(op)
    {
      var i := LastOpIsLast(ops, KeyOf(op));
    }
    forall op | op in ops
      ensures HasOneOn(kept, KeyOf(op))
    {
      var i :| 0 <= i < |ops| && ops[i] == op;
      assert KeyOf(ops[i]) == KeyOf(op) && TouchesKey(ops, KeyOf(op));
      assert LastOp(ops, KeyOf(op)) in kept;
    }
  }

  /** Where in the instruction an operation was stated; removals and corrections do not say. */
  function SpanOf(op: PatchOperation): Option<Span> {
    match op
    case SetField(_, _, span) => span
    case UpsertDeliverable(_, span) => span
    case AddScopeIn(_, span) => span
    case AddScopeOut(_, span) => span
    case AddBoundary(_, span) => span
    case AddStopCondition(_, span) => span
    case AddAssumption(_, span) => span
    case _ => None
  }

  ghost predicate StatedTwice(ops: seq<PatchOperation>, key: string) {
    exists i, j :: 0 <= i < j < |ops| && KeyOf(ops[i]) == key && KeyOf(ops[j]) == key
  }

  /**
   * Operations that say where they were stated always differ from one another, so for them even an exact repeat is
   * reported: a field is reported exactly when it is stated twice.
   */
  lemma RepeatsAreReportedWhereSpansDiffer(ops: seq<PatchOperation>, key: string)
    ensures Contradicts(ops, key) ==> StatedTwice(ops, key)
    ensures (forall i, j :: 0 <= i < j < |ops| ==> SpanOf(ops[i]) != SpanOf(ops[j])) ==>
              (Contradicts(ops, key) <==> StatedTwice(ops, key))
  {
  }

  /** `byKey` maps each touched key to the last operation on it. */
  ghost predicate RemembersLast(done: seq<PatchOperation>, byKey: map<string, PatchOperation>) {
    && (forall key :: key in byKey <==> TouchesKey(done, key))
    && (forall key :: key in byKey ==> byKey[key] == LastOp(done, key))
  }

  lemma RemembersMore(done: seq<PatchOperation>, byKey: map<string, PatchOperation>, op: PatchOperation)
    requires RemembersLast(done, byKey)
    ensures RemembersLast(done + [op], byKey[KeyOf(op) := op])
  {
    forall key
      ensures TouchesKey(done + [op], key) <==> TouchesKey(done, key) || key == KeyOf(op)
      ensures TouchesKey(done + [op], key) ==>
                LastOp(done + [op], key) == if key == KeyOf(op) then op else LastOp(done, key)
    {
      TouchesExtended(done, op, key);
    }
  }

  // ----- Repeated upserts -----

  predicate SameDeliverable(a: PatchOperation, b: PatchOperation) {
    a.UpsertDeliverable? && b.UpsertDeliverable?
    && (a.deliverable.id == b.deliverable.id || a.deliverable.body.description == b.deliverable.body.description)
  }

  /** Where the run of operations that starts with the `i`-th kept one ends. */
  function RunEnd(at: seq<nat>, i: nat, n: nat): nat
    requires i < |at|
  {
    if i + 1 < |at| then at[i + 1] else n
  }

  /** `collapsed` holds the operations at the positions `at`, in order, the first one first. */
  ghost predicate Positioned(ops: seq<PatchOperation>, collapsed: seq<PatchOperation>, at: seq<nat>) {
    && |at| == |collapsed| && (ops != [] ==> at != [] && at[0] == 0)
    && (forall i :: 0 <= i < |at| ==> at[i] < |ops| && collapsed[i] == ops[at[i]])
    && (forall i, j :: 0 <= i < j < |at| ==> at[i] < at[j])
  }

  /** Each kept operation is followed, up to the next, by upserts of its own deliverable only. */
  ghost predicate RunsRepeat(ops: seq<PatchOperation>, at: seq<nat>) {
    forall i, m {:trigger RunEnd(at, i, |ops|), ops[m]} ::
      0 <= i < |at| && at[i] < m < RunEnd(at, i, |ops|) && m < |ops| ==> SameDeliverable(ops[at[i]], ops[m])
  }

  ghost predicate NeighboursDiffer(collapsed: seq<PatchOperation>) {
    forall i :: 0 < i < |collapsed| ==> !SameDeliverable(collapsed[i - 1], collapsed[i])
  }

  /** Only upserts that repeat the kept one before them are missing, and no two kept neighbours repeat each other. */
  ghost predicate Collapses(ops: seq<PatchOperation>, collapsed: seq<PatchOperation>, at: seq<nat>) {
    Positioned(ops, collapsed, at) && RunsRepeat(ops, at) && NeighboursDiffer(collapsed)
  }

  lemma RunsRepeatKept(ops: seq<PatchOperation>, op: PatchOperation, at: seq<nat>)
    requires RunsRepeat(ops, at)
    requires forall i :: 0 <= i < |at| ==> at[i] < |ops|
    ensures RunsRepeat(ops + [op], at + [|ops|])
  {
    var more, next := ops + [op], at + [|ops|];
    forall i, m | 0 <= i < |next| && next[i] < m < RunEnd(next, i, |more|) && m < |more|
      ensures SameDeliverable(more[next[i]], more[m])
    {
      assert next[i] == at[i] && m < RunEnd(at, i, |ops|);
      assert more[at[i]] == ops[at[i]] && more[m] == ops[m];
    }
  }

  lemma RunsRepeatDropped(ops: seq<PatchOperation>, op: PatchOperation, at: seq<nat>)
    requires RunsRepeat(ops, at) && at != []
    requires forall i :: 0 <= i < |at| ==> at[i] < |ops|
    requires SameDeliverable(ops[at[|at| - 1]], op)
    ensures RunsRepeat(ops + [op], at)
  {
    var more := ops + [op];
    forall i, m | 0 <= i < |at| && at[i] < m < RunEnd(at, i, |more|) && m < |more|
      ensures SameDeliverable(more[at[i]], more[m])
    {
      assert more[at[i]] == ops[at[i]];
      if m < |ops| {
        assert m < RunEnd(at, i, |ops|) && more[m] == ops[m];
      }
    }
  }

  lemma CollapsesKept(ops: seq<PatchOperation>, op: PatchOperation, collapsed: seq<PatchOperation>, at: seq<nat>)
    requires Collapses(ops, collapsed, at)
    requires collapsed == [] || !SameDeliverable(collapsed[|collapsed| - 1], op)
    ensures Collapses(ops + [op], collapsed + [op], at + [|ops|])
  {
    RunsRepeatKept(ops, op, at);
    assert NeighboursDiffer(collapsed + [op]);
    assert Positioned(ops + [op], collapsed + [op], at + [|ops|]);
  }

  lemma CollapsesDropped(ops: seq<PatchOperation>, op: PatchOperation, collapsed: seq<PatchOperation>, at: seq<nat>)
    requires Collapses(ops, collapsed, at)
    requires collapsed != [] && SameDeliverable(collapsed[|collapsed| - 1], op)
    ensures Collapses(ops + [op], collapsed, at)
  {
    RunsRepeatDropped(ops, op, at);
  }

  /** Consecutive upserts naming one deliverable collapse to the first; nothing else is dropped or moved. */
  method CollapseRepeatedUpserts(ops: seq<PatchOperation>) returns (collapsed: seq<PatchOperation>, ghost at: seq<nat>)
    ensures Collapses(ops, collapsed, at)
    ensures forall op :: op in collapsed ==> op in ops
    ensures forall op :: op in ops && op !in collapsed ==>
              op.UpsertDeliverable? &&
              exists k :: k in collapsed && k.UpsertDeliverable? &&
                (k.deliverable.id == op.deliverable.id
                 || k.deliverable.body.description == op.deliverable.body.description)
    ensures forall i ::
              0 < i < |collapsed| && collapsed[i - 1].UpsertDeliverable? && collapsed[i].UpsertDeliverable? ==>
              collapsed[i - 1].deliverable.id != collapsed[i].deliverable.id
              && collapsed[i - 1].deliverable.body.description != collapsed[i].deliverable.body.description
    ensures DistinctFields(ops) ==> DistinctFields(collapsed)
  {
    collapsed, at := [], [];
    for n := 0 to |ops|
      invariant Collapses(ops[..n], collapsed, at)
    {
      assert ops[..n + 1] == ops[..n] + [ops[n]];
      // The previous kept operation is the previous upsert, or no upsert at all.
      if |collapsed| == 0 || !SameDeliverable(collapsed[|collapsed| - 1], ops[n]) {
        CollapsesKept(ops[..n], ops[n], collapsed, at);
        collapsed, at := collapsed + [ops[n]], at + [n];
      } else {
        CollapsesDropped(ops[..n], ops[n], collapsed, at);
      }
    }
    assert ops[..|ops|] == ops;
    CollapsedMembers(ops, collapsed, at);
  }

  /** The kept operation whose run the `m`-th one belongs to. */
  lemma {:induction false} RunOf(ops: seq<PatchOperation>, collapsed: seq<PatchOperation>, at: seq<nat>, m: nat)
      returns (i: nat)
    requires Collapses(ops, collapsed, at) && m < |ops|
    ensures i < |at| && at[i] <= m < RunEnd(at, i, |ops|)
  {
    i := 0;
    while RunEnd(at, i, |ops|) <= m
      invariant i < |at| && at[i] <= m
      decreases |at| - i
    {
      i := i + 1;
    }
  }

  lemma CollapsedMembers(ops: seq<PatchOperation>, collapsed: seq<PatchOperation>, at: seq<nat>)
    requires Collapses(ops, collapsed, at)
    ensures forall op :: op in collapsed ==> op in ops
    ensures forall op :: op in ops && op !in collapsed ==> exists k :: k in collapsed && SameDeliverable(k, op)
    ensures DistinctFields(ops) ==> DistinctFields(collapsed)
  {
    forall op | op in ops && op !in collapsed
      ensures exists k :: k in collapsed && SameDeliverable(k, op)
    {
      var m :| 0 <= m < |ops| && ops[m] == op;
      var i := RunOf(ops, collapsed, at, m);
      assert collapsed[i] in collapsed;
    }
  }

  /** Some match built the operation. */
  ghost predicate Stated(found: seq<Found>, op: PatchOperation) {
    exists f :: f in found && op in f.ops
  }

  /** What the accepted matches state, in the order of the text. */
  function AllOps(accepted: seq<Found>): seq<PatchOperation> {
    if accepted == [] then [] else AllOps(accepted[..|accepted| - 1]) + accepted[|accepted| - 1].ops
  }

  lemma {:induction false} AcceptedIsStated(found: seq<Found>, accepted: seq<Found>, op: PatchOperation)
    requires (forall a :: a in accepted ==> a in found) && op in AllOps(accepted)
    ensures Stated(found, op)
  {
    var last := accepted[|accepted| - 1];
    if op !in last.ops {
      AcceptedIsStated(found, accepted[..|accepted| - 1], op);
    }
  }

  /**
   * From the accepted matches the last statement on every field survives, save for upserts repeated in a row; the
   * operations touch pairwise distinct fields and each was stated, and a field is reported exactly when two accepted
   * statements on it differ.
   */
  method ParseDirectives(found: seq<Found>)
    returns (ops: seq<PatchOperation>, ambiguous: seq<string>,
             ghost accepted: seq<Found>, ghost kept: seq<PatchOperation>, ghost at: seq<nat>)
    requires forall f :: f in found ==> f.start < f.end
    ensures Selected(found, accepted) && KeepsLast(AllOps(accepted), kept) && Collapses(kept, ops, at)
    ensures forall key :: key in ambiguous <==> Contradicts(AllOps(accepted), key)
    ensures DistinctFields(ops)
    ensures forall op :: op in ops ==> Stated(found, op) && op == LastOp(AllOps(accepted), KeyOf(op))
    ensures forall key :: TouchesKey(AllOps(accepted), key) ==>
              var last := LastOp(AllOps(accepted), key);
              last in ops || exists k :: k in ops && SameDeliverable(k, last)
  {
    var chosen := SelectDirectives(found);
    accepted := chosen;
    var all: seq<PatchOperation> := [];
    for i := 0 to |chosen|
      invariant all == AllOps(chosen[..i])
    {
      assert chosen[..i + 1][..i] == chosen[..i];
      all := all + chosen[i].ops;
    }
    assert chosen[..|chosen|] == chosen;
    var resolved;
    resolved, ambiguous := ResolveDuplicateDirectives(all);
    kept := resolved;
    ops, at := CollapseRepeatedUpserts(resolved);
    forall op | op in ops
      ensures Stated(found, op)
    {
      AcceptedIsStated(found, accepted, op);
    }
  }
}
