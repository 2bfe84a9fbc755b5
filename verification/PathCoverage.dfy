/** Which requested paths a granted path covers. */
module PathCoverage {

  /** The text without its trailing slashes. */
  function Stripped(path: string): (r: string)
    ensures |r| <= |path| && r == path[..|r|]
    ensures r == "" || r[|r| - 1] != '/'
    ensures forall i :: |r| <= i < |path| ==> path[i] == '/'
  {
    if path != "" && path[|path| - 1] == '/' then Stripped(path[..|path| - 1]) else path
  }

  method StripTrailingSlashes(path: string) returns (r: string)
    ensures r == Stripped(path)
  {
    var end := |path|;
    while end > 0 && path[end - 1] == '/'
      invariant 0 <= end <= |path|
      invariant Stripped(path[..end]) == Stripped(path)
    {
      assert path[..end][..end - 1] == path[..end - 1];
      end := end - 1;
    }
    r := path[..end];
  }

  /** `path.split("/")`. */
  function Split(path: string): (parts: seq<string>)
    ensures |parts| >= 1
    ensures forall i :: 0 <= i < |parts| ==> '/' !in parts[i]
  {
    if path == "" then [""]
    else
      var rest := Split(path[1..]);
      if path[0] == '/' then [""] + rest else [[path[0]] + rest[0]] + rest[1..]
  }

  predicate HasParentTraversal(path: string) {
    ".." in Split(path)
  }

  predicate StartsWith(text: string, start: string) {
    |start| <= |text| && text[..|start|] == start
  }

  /** The test as written, over text. */
  predicate PathCoveredByGrant(requestedPath: string, grantedPath: string) {
    var requested, granted := Stripped(requestedPath), Stripped(grantedPath);
    if HasParentTraversal(requested) || HasParentTraversal(granted) then false
    else if granted == "." then true
    else if granted == "" then false
    else if requested == granted then true
    else StartsWith(requested, granted + "/")
  }

  // ----- Coverage by segments -----

  lemma {:induction false} SplitAround(a: string, b: string)
    ensures Split(a + "/" + b) == Split(a) + Split(b)
  {
    var text := a + "/" + b;
    if a == "" {
      assert text[0] == '/' && text[1..] == b;
    } else {
      assert text[0] == a[0] && text[1..] == a[1..] + "/" + b;
      SplitAround(a[1..], b);
      assert Split(text[1..]) == Split(a[1..]) + Split(b);
    }
  }

  function Join(parts: seq<string>): string
    requires |parts| >= 1
  {
    if |parts| == 1 then parts[0] else parts[0] + "/" + Join(parts[1..])
  }

  lemma {:induction false} JoinOfSplit(path: string)
    ensures Join(Split(path)) == path
  {
    if path != "" {
      var rest := Split(path[1..]);
      JoinOfSplit(path[1..]);
      if path[0] == '/' {
        assert Split(path)[1..] == rest;
      } else if |rest| > 1 {
        assert Split(path)[1..] == rest[1..];
        assert [path[0]] + (rest[0] + "/" + Join(rest[1..])) == ([path[0]] + rest[0]) + "/" + Join(rest[1..]);
      }
      assert path == [path[0]] + path[1..];
    }
  }

  lemma {:induction false} JoinOfConcat(a: seq<string>, b: seq<string>)
    requires |a| >= 1 && |b| >= 1
    ensures Join(a + b) == Join(a) + "/" + Join(b)
  {
    if |a| == 1 {
      assert (a + b)[1..] == b;
    } else {
      assert (a + b)[1..] == a[1..] + b;
      JoinOfConcat(a[1..], b);
      assert a[0] + "/" + (Join(a[1..]) + "/" + Join(b)) == (a[0] + "/" + Join(a[1..])) + "/" + Join(b);
    }
  }

  /** Starting with the text and a slash, or being it, is having its segments first. */
  lemma PrefixIsBySegments(requested: string, granted: string)
    ensures requested == granted || StartsWith(requested, granted + "/") <==> Split(granted) <= Split(requested)
  {
    if StartsWith(requested, granted + "/") {
      var rest := requested[|granted| + 1..];
      assert requested == granted + "/" + rest;
      SplitAround(granted, rest);
    }
    if Split(granted) <= Split(requested) {
      SegmentsFirst(requested, granted);
    }
  }

  lemma SegmentsFirst(requested: string, granted: string)
    requires Split(granted) <= Split(requested)
    ensures requested == granted || StartsWith(requested, granted + "/")
  {
    var g, r := Split(granted), Split(requested);
    JoinOfSplit(granted);
    JoinOfSplit(requested);
    if |g| < |r| {
      assert r == g + r[|g|..];
      JoinOfConcat(g, r[|g|..]);
      assert requested == granted + "/" + Join(r[|g|..]);
    } else {
      assert r == g;
    }
  }

  lemma {:induction false} StrippingKeepsTraversal(path: string)
    ensures HasParentTraversal(Stripped(path)) <==> HasParentTraversal(path)
  {
    if path != "" && path[|path| - 1] == '/' {
      var shorter := path[..|path| - 1];
      StrippingKeepsTraversal(shorter);
      assert path == shorter + "/" + "";
      SplitAround(shorter, "");
      assert forall part :: part in Split(path) <==> part in Split(shorter) || part == "";
    }
  }

  /**
   * Coverage is a prefix of segments: neither path climbs with "..", and the grant is "." or, stripped and
   * non-empty, has its segments at the front of the request's.
   */
  lemma CoverageIsSegmentPrefix(requested: string, granted: string)
    ensures PathCoveredByGrant(requested, granted) <==>
              && ".." !in Split(requested) && ".." !in Split(granted)
              && (Stripped(granted) == "." ||
                  (Stripped(granted) != "" && Split(Stripped(granted)) <= Split(Stripped(requested))))
  {
    StrippingKeepsTraversal(requested);
    StrippingKeepsTraversal(granted);
    PrefixIsBySegments(Stripped(requested), Stripped(granted));
  }

  /** What covers a covering path covers what it covers. */
  lemma CoverageIsTransitive(a: string, b: string, c: string)
    requires PathCoveredByGrant(a, b) && PathCoveredByGrant(b, c)
    ensures PathCoveredByGrant(a, c)
  {
  }
}
