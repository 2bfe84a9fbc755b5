/** A confirmed change: previewed, then checked against the file and written over it. */
module ConfigWrite {
  import opened Ordering
  import opened ConfigJson
  import opened ConfigPaths
  import opened ConfigDiff
  import opened ConfigReplay
  import opened ConfigDiffRuns

  /** The hashed preview. SHA-256 is taken to be injective, so a digest stands for its canonical input. */
  datatype Digest = Digest(scope: string, expectedVersion: int, diff: seq<CanonEntry>)

  datatype Confirmation = Confirmation(
    previewHash: Digest, expectedVersion: int, scope: string, provenanceValid: bool, directUser: bool)

  datatype WriteError =
    | InsufficientConfirmationSource
    | DirectUserConfirmationRequired
    | PreviewChanged
    | ConfigVersionConflict
    | ValidationFailed
    | Forbidden
    | InternalError

  /** Where the target's directory really is, and whether the write itself goes through. */
  datatype Target = Contained(writes: bool) | Unresolvable | Outside | NoDirectory

  method PreviewConfigChange(current: seq<Field>, proposed: seq<Field>, scope: string, expectedVersion: int)
    returns (previewHash: Digest, diff: seq<Entry>)
    requires WellKeyed(current) && WellKeyed(proposed)
    ensures IsPreviewDiff(diff, current, proposed, "")
    ensures previewHash == Digest(scope, expectedVersion, CanonEntries(diff))
  {
    diff := ComputeDiff(current, proposed, "");
    previewHash := Digest(scope, expectedVersion, CanonEntries(diff));
  }

  function VersionOf(content: seq<Field>): Json {
    if HasKey(content, "version") && Get(content, "version") != Null then Get(content, "version") else Num(0.0)
  }

  /**
   * A missing file, and one that names no version, is version 0; a version that is not a number is never compared.
   */
  ghost predicate ConfirmedVersion(content: Option<seq<Field>>, expected: int) {
    match content
    case None => expected == 0
    case Some(c) =>
      if !HasKey(c, "version") || Get(c, "version") == Null then expected == 0
      else Get(c, "version").Num? ==> Get(c, "version").number == expected as real
  }

  function Current(content: Option<seq<Field>>): seq<Field> {
    if content.Some? then content.value else []
  }

  class ConfigFile {
    var content: Option<seq<Field>>

    method ApplyConfirmedConfigChange(newContent: seq<Field>, confirmation: Confirmation, target: Target)
      returns (r: Result<(), WriteError>, ghost verifyDiff: seq<Entry>)
      modifies this
      ensures IsSimpleDiff(verifyDiff, Current(old(content)), newContent, "")
      ensures Current(old(content)) == match old(content) case Some(was) => was case None => []
      ensures r.Success? <==>
                && confirmation.provenanceValid && confirmation.directUser
                && confirmation.previewHash ==
                    Digest(confirmation.scope, confirmation.expectedVersion, CanonEntries(verifyDiff))
                && (old(content).None? ==> confirmation.expectedVersion == 0)
                && (old(content).Some? && HasKey(old(content).value, "version") ==>
                      var version := Get(old(content).value, "version");
                      && (version.Num? ==> version.number == confirmation.expectedVersion as real)
                      && (version.Null? ==> confirmation.expectedVersion == 0))
                && (old(content).Some? && !HasKey(old(content).value, "version") ==> confirmation.expectedVersion == 0)
                && target == Contained(true)
      ensures content == if r.Success? then Some(newContent) else old(content)
      // What is written is the confirmed diff replayed onto whatever the file held.
      ensures r.Success? ==> forall keys ::
                Unambiguous(keys) && KeysIn(Current(old(content)), keys) && KeysIn(newContent, keys) ==>
                  CanonFields(newContent) ==
                      Replayed(Current(old(content)), Recorded(confirmation.previewHash.diff), "", keys)
      ensures r == Failure(InsufficientConfirmationSource) <==> !confirmation.provenanceValid
      ensures r == Failure(DirectUserConfirmationRequired) <==> confirmation.provenanceValid && !confirmation.directUser
      ensures var confirmed := confirmation.previewHash ==
                Digest(confirmation.scope, confirmation.expectedVersion, CanonEntries(verifyDiff));
              var authorized := confirmation.provenanceValid && confirmation.directUser;
              && (r == Failure(PreviewChanged) <==> authorized && !confirmed)
              && (r == Failure(ConfigVersionConflict) <==>
                  authorized && confirmed && !ConfirmedVersion(old(content), confirmation.expectedVersion))
      ensures r.Failure? && r.error in {ValidationFailed, Forbidden, InternalError} ==>
                && (r.error == ValidationFailed <==> target == Unresolvable)
                && (r.error == Forbidden <==> target == Outside)
                && (r.error == InternalError <==> target in {NoDirectory, Contained(false)})
    {
      var verify := ComputeSimpleDiff(Current(content), newContent, "");
      verifyDiff := verify;
      forall keys | Unambiguous(keys) && KeysIn(Current(content), keys) && KeysIn(newContent, keys)
        ensures CanonFields(newContent) == Replayed(Current(content), Recorded(CanonEntries(verify)), "", keys)
      {
        ListedDiffRestoresProposal(Current(content), newContent, verify, keys);
      }
      if !confirmation.provenanceValid {
        return Failure(InsufficientConfirmationSource), verifyDiff;
      }
      if !confirmation.directUser {
        return Failure(DirectUserConfirmationRequired), verifyDiff;
      }
      var actualHash := Digest(confirmation.scope, confirmation.expectedVersion, CanonEntries(verify));
      if actualHash != confirmation.previewHash {
        return Failure(PreviewChanged), verifyDiff;
      }
      if content.Some? {
        var currentVersion := VersionOf(content.value);
        if currentVersion.Num? && currentVersion.number != confirmation.expectedVersion as real {
          return Failure(ConfigVersionConflict), verifyDiff;
        }
      } else if confirmation.expectedVersion != 0 {
        return Failure(ConfigVersionConflict), verifyDiff;
      }
      match target {
        case Unresolvable => r := Failure(ValidationFailed);
        case Outside => r := Failure(Forbidden);
        case NoDirectory => r := Failure(InternalError);
        case Contained(writes) =>
          if writes {
            content := Some(newContent);
            r := Success(());
          } else {
            r := Failure(InternalError);
          }
      }
    }
  }

  /** An entry the other list has nothing equal to makes the hashed lists differ. */
  lemma LoneEntryShows(es: seq<Entry>, ds: seq<Entry>, e: Entry)
    requires e in es && forall d :: d in ds ==> CanonEntryOf(d) != CanonEntryOf(e)
    ensures CanonEntries(es) != CanonEntries(ds)
  {
    var i :| 0 <= i < |es| && es[i] == e;
    if i < |ds| {
      assert ds[i] in ds && CanonEntries(es)[i] != CanonEntries(ds)[i];
    }
  }

  lemma UnfacedHashesDiffer(cur: seq<Field>, prop: seq<Field>, shown: seq<Entry>, recomputed: seq<Entry>)
    requires !Faces(cur, prop)
    requires forall e :: e in shown ==> LeafHas(cur, prop, "", e)
    requires forall e :: SimpleHas(cur, prop, "", e) ==> e in recomputed
    ensures CanonEntries(shown) != CanonEntries(recomputed)
  {
    var e := UnfacedIsReportedWhole(cur, prop, "");
    forall d | d in shown
      ensures CanonEntryOf(d) != CanonEntryOf(e)
    {
      LeafValueIsNoObject(cur, prop, "", d);
    }
    LoneEntryShows(recomputed, shown, e);
  }

  lemma RewrittenHashesDiffer(cur: seq<Field>, prop: seq<Field>, shown: seq<Entry>, recomputed: seq<Entry>)
    requires Faces(cur, prop) && !WrittenAlike(cur, prop)
    requires forall e :: LeafHas(cur, prop, "", e) ==> e in shown
    requires forall e :: e in recomputed ==> SimpleHas(cur, prop, "", e)
    ensures CanonEntries(shown) != CanonEntries(recomputed)
  {
    var e := RewrittenIsReported(cur, prop, "");
    forall d | d in recomputed
      ensures CanonEntryOf(d) != CanonEntryOf(e)
    {
      SimpleChangeIsReal(cur, prop, "", d);
    }
    LoneEntryShows(shown, recomputed, e);
  }

  /**
   * A preview taken against the file the apply finds, for the same proposal, carries the hash the
   * apply computes if and only if every proposed object faces an object and no value compared as
   * a whole was only rewritten in another key order.
   */
  lemma PreviewHashMatchesExactlyWhenAlike(
    cur: seq<Field>, prop: seq<Field>, shown: seq<Entry>, recomputed: seq<Entry>, scope: string, version: int)
    requires ListsLeaves(shown, cur, prop, "") && ListsSimple(recomputed, cur, prop, "")
    ensures Digest(scope, version, CanonEntries(shown)) == Digest(scope, version, CanonEntries(recomputed)) <==>
            Faces(cur, prop) && WrittenAlike(cur, prop)
  {
    if !Faces(cur, prop) {
      UnfacedHashesDiffer(cur, prop, shown, recomputed);
    } else if !WrittenAlike(cur, prop) {
      RewrittenHashesDiffer(cur, prop, shown, recomputed);
    } else {
      DiffsAgreeExactlyWhenAlike(cur, prop, "", shown, recomputed);
    }
  }

  function CanonPath(c: CanonEntry): string {
    c.path
  }

  lemma {:induction false} CounterpartEntry(
    cur: seq<Field>, prop: seq<Field>, other: seq<Field>, prefix: string, k: string, e: Entry) returns (d: Entry)
    requires CanonFields(prop) == CanonFields(other)
    requires SimpleAt(cur, prop, prefix, k, e)
    ensures SimpleAt(cur, other, prefix, k, d) && CanonEntryOf(d) == CanonEntryOf(e)
    decreases SizeOfFields(cur)
  {
    assert HasKey(prop, k) <==> k in CanonFields(prop);
    assert HasKey(other, k) <==> k in CanonFields(other);
    if HasKey(prop, k) {
      CanonFieldsGet(prop, k);
      CanonFieldsGet(other, k);
    }
    if BothObjects(cur, prop, k) {
      var o, n, m, full := Get(cur, k).fields, Get(prop, k).fields, Get(other, k), FullPath(prefix, k);
      assert Canon(m) == Node(CanonFields(n));
      assert m.Obj?;
      assert SimpleHas(o, n, full, e);
      var j := SimpleKey(o, n, full, e);
      d := CounterpartEntry(o, n, m.fields, full, j, e);
      assert SimpleHas(o, m.fields, full, d);
    } else if HasKey(prop, k) {
      d := e.(newValue := Some(Get(other, k)));
    } else {
      d := e;
    }
  }

  lemma CanonListing(
    cur: seq<Field>, prop: seq<Field>, other: seq<Field>, es: seq<Entry>, ds: seq<Entry>, c: CanonEntry)
    requires CanonFields(prop) == CanonFields(other)
    requires ListsSimple(es, cur, prop, "") && ListsSimple(ds, cur, other, "")
    requires c in CanonEntries(es)
    ensures c in CanonEntries(ds)
  {
    var i :| 0 <= i < |es| && CanonEntries(es)[i] == c;
    assert es[i] in es;
    var k := SimpleKey(cur, prop, "", es[i]);
    var d := CounterpartEntry(cur, prop, other, "", k, es[i]);
    assert SimpleHas(cur, other, "", d);
    var j :| 0 <= j < |ds| && ds[j] == d;
    assert CanonEntries(ds)[j] == c;
  }

  lemma EqualProposalsHashAlike(
    cur: seq<Field>, prop: seq<Field>, other: seq<Field>, es: seq<Entry>, ds: seq<Entry>)
    requires CanonFields(prop) == CanonFields(other)
    requires ListsSimple(es, cur, prop, "") && ListsSimple(ds, cur, other, "")
    ensures CanonEntries(es) == CanonEntries(ds)
  {
    forall c
      ensures c in CanonEntries(es) <==> c in CanonEntries(ds)
    {
      if c in CanonEntries(es) { CanonListing(cur, prop, other, es, ds, c); }
      if c in CanonEntries(ds) { CanonListing(cur, other, prop, ds, es, c); }
    }
    AscendingListingIsUnique(CanonEntries(es), CanonEntries(ds), CanonPath);
  }

  /** One confirmed hash lets two proposals be written over one file if and only if they are equal up to key order. */
  lemma ConfirmationAdmitsOneDocument(
    cur: seq<Field>, prop: seq<Field>, other: seq<Field>, es: seq<Entry>, ds: seq<Entry>, scope: string, version: int,
    keys: iset<string>)
    requires Unambiguous(keys) && KeysIn(cur, keys) && KeysIn(prop, keys) && KeysIn(other, keys)
    requires ListsSimple(es, cur, prop, "") && ListsSimple(ds, cur, other, "")
    ensures Digest(scope, version, CanonEntries(es)) == Digest(scope, version, CanonEntries(ds)) <==>
            CanonFields(prop) == CanonFields(other)
  {
    if CanonEntries(es) == CanonEntries(ds) {
      ListedDiffRestoresProposal(cur, prop, es, keys);
      ListedDiffRestoresProposal(cur, other, ds, keys);
    }
    if CanonFields(prop) == CanonFields(other) {
      EqualProposalsHashAlike(cur, prop, other, es, ds);
    }
  }
}
