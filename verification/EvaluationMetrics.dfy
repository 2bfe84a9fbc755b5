/** What is measured of a candidate's predictions, and that better predictions measure no worse. */
module EvaluationMetrics {
  import opened Ordering
  import opened Evaluation

  type Index = map<string, Prediction>

  /** `toFixed(6)`: some rounding that keeps order and leaves one alone. */
  ghost predicate Rounds(round: real -> real) {
    round(1.0) == 1.0 && forall x, y :: x <= y ==> round(x) <= round(y)
  }

  // ----- Counting cases by what was predicted for them -----

  /** The cases whose prediction is as wanted. */
  function Hits(cases: seq<Case>, index: Index, wanted: (Case, Prediction) -> bool): (n: nat)
    ensures n <= |cases|
  {
    if cases == [] then 0
    else
      var last := cases[|cases| - 1];
      Hits(cases[..|cases| - 1], index, wanted) +
        (if last.caseId in index && wanted(last, index[last.caseId]) then 1 else 0)
  }

  function OfCategory(category: string): (Case, Prediction) -> bool {
    (c: Case, p: Prediction) => c.category == category
  }

  function TruePositive(category: string): (Case, Prediction) -> bool {
    (c: Case, p: Prediction) => c.category == category && p.intervened && c.expectedIntervention
  }

  function FalsePositive(category: string): (Case, Prediction) -> bool {
    (c: Case, p: Prediction) => c.category == category && p.intervened && !c.expectedIntervention
  }

  function FalseNegative(category: string): (Case, Prediction) -> bool {
    (c: Case, p: Prediction) => c.category == category && !p.intervened && c.expectedIntervention
  }

  predicate NormalControl(c: Case, p: Prediction) {
    c.normalControl
  }

  predicate NormalIntervention(c: Case, p: Prediction) {
    c.normalControl && p.intervened
  }

  predicate Simulated(c: Case, p: Prediction) {
    c.simulatedUserCorrection
  }

  predicate Recovered(c: Case, p: Prediction) {
    c.simulatedUserCorrection && p.recovered == Some(true)
  }

  /** `part / whole`, rounded; one when there is nothing to miss. */
  function Rate(part: nat, whole: nat, round: real -> real): real {
    if whole == 0 then 1.0 else round(part as real / whole as real)
  }

  function CategoryOf(cases: seq<Case>, index: Index, category: string, round: real -> real): CategoryMetrics {
    var tp := Hits(cases, index, TruePositive(category));
    var fp := Hits(cases, index, FalsePositive(category));
    var fn := Hits(cases, index, FalseNegative(category));
    CategoryMetrics(tp, fp, fn, Rate(tp, tp + fp, round), Rate(tp, tp + fn, round))
  }

  // ----- Summing over predictions -----

  function Total(ps: seq<Prediction>, weight: Prediction -> real): real {
    if ps == [] then 0.0 else Total(ps[..|ps| - 1], weight) + weight(ps[|ps| - 1])
  }

  function Cost(p: Prediction): real {
    p.costUsd
  }

  function Failure(p: Prediction): real {
    if p.failed then 1.0 else 0.0
  }

  function Within(limit: int): Prediction -> real {
    (p: Prediction) => if p.latencyMs <= limit then 1.0 else 0.0
  }

  /** `latency` stands at position `k` when the latencies are sorted. */
  ghost predicate RanksAt(ps: seq<Prediction>, k: nat, latency: nat) {
    Total(ps, Within(latency)) >= (k + 1) as real && Total(ps, Within(latency - 1)) <= k as real
  }

  function P95Position(n: nat): nat {
    var rank := (95 * n + 99) / 100;
    if rank == 0 then 0 else rank - 1
  }

  // ----- The measurement -----

  /** There is something to measure in every category, a normal control and a simulated correction. */
  ghost predicate Measurable(cases: seq<Case>, index: Index, categories: seq<string>) {
    && (forall i :: 0 <= i < |categories| ==> Hits(cases, index, OfCategory(categories[i])) > 0)
    && Hits(cases, index, NormalControl) > 0 && Hits(cases, index, Simulated) > 0
  }

  ghost predicate MeasuresCategories(
    measured: map<string, CategoryMetrics>, cases: seq<Case>, index: Index, categories: seq<string>,
    round: real -> real)
  {
    && (forall category :: category in measured <==> category in categories)
    && (forall category :: category in measured ==> measured[category] == CategoryOf(cases, index, category, round))
  }

  ghost predicate Measures(
    m: Metrics, cases: seq<Case>, ps: seq<Prediction>, index: Index, categories: seq<string>, round: real -> real)
  {
    && |ps| > 0
    && MeasuresCategories(m.categories, cases, index, categories, round)
    && m.normalControlInterventionRate ==
         Rate(Hits(cases, index, NormalIntervention), Hits(cases, index, NormalControl), round)
    && m.simulatedCorrectionRecoveryRate == Rate(Hits(cases, index, Recovered), Hits(cases, index, Simulated), round)
    && m.failureRate == round(Total(ps, Failure) / |ps| as real)
    && m.meanCostUsd == round(Total(ps, Cost) / |ps| as real)
    && RanksAt(ps, P95Position(|ps|), m.p95LatencyMs)
  }

  lemma HitsMore(cases: seq<Case>, i: nat, index: Index, wanted: (Case, Prediction) -> bool)
    requires i < |cases|
    ensures Hits(cases[..i + 1], index, wanted) ==
              Hits(cases[..i], index, wanted) +
              (if cases[i].caseId in index && wanted(cases[i], index[cases[i].caseId]) then 1 else 0)
  {
    assert cases[..i + 1][..i] == cases[..i];
  }

  /** Counts the cases as wanted, as the filters do. */
  method CountHits(cases: seq<Case>, index: Index, wanted: (Case, Prediction) -> bool) returns (n: nat)
    ensures n == Hits(cases, index, wanted)
  {
    n := 0;
    for i := 0 to |cases|
      invariant n == Hits(cases[..i], index, wanted)
    {
      HitsMore(cases, i, index, wanted);
      if cases[i].caseId in index && wanted(cases[i], index[cases[i].caseId]) {
        n := n + 1;
      }
    }
    assert cases[..|cases|] == cases;
  }

  ghost predicate Tallied(
    cases: seq<Case>, index: Index, category: string, selected: nat, tp: nat, fp: nat, fn: nat)
  {
    && selected == Hits(cases, index, OfCategory(category)) && tp == Hits(cases, index, TruePositive(category))
    && fp == Hits(cases, index, FalsePositive(category)) && fn == Hits(cases, index, FalseNegative(category))
  }

  lemma TalliedMore(
    cases: seq<Case>, i: nat, index: Index, category: string, selected: nat, tp: nat, fp: nat, fn: nat)
    requires i < |cases| && cases[i].caseId in index && Tallied(cases[..i], index, category, selected, tp, fp, fn)
    ensures
      var c, intervened := cases[i], index[cases[i].caseId].intervened;
      if c.category != category then Tallied(cases[..i + 1], index, category, selected, tp, fp, fn)
      else
        Tallied(cases[..i + 1], index, category, selected + 1,
                if intervened && c.expectedIntervention then tp + 1 else tp,
                if intervened && !c.expectedIntervention then fp + 1 else fp,
                if !intervened && c.expectedIntervention then fn + 1 else fn)
  {
    HitsMore(cases, i, index, OfCategory(category));
    HitsMore(cases, i, index, TruePositive(category));
    HitsMore(cases, i, index, FalsePositive(category));
    HitsMore(cases, i, index, FalseNegative(category));
  }

  ghost predicate Covers(index: Index, cases: seq<Case>) {
    forall i :: 0 <= i < |cases| ==> cases[i].caseId in index
  }

  /** Counts one category's cases in one pass; nothing when there are none. */
  method MeasureCategory(cases: seq<Case>, index: Index, category: string, round: real -> real)
    returns (m: Option<CategoryMetrics>)
    requires Covers(index, cases)
    ensures m.Some? <==> Hits(cases, index, OfCategory(category)) > 0
    ensures m.Some? ==> m.value == CategoryOf(cases, index, category, round)
  {
    var selected, tp, fp, fn := 0, 0, 0, 0;
    for i := 0 to |cases|
      invariant Tallied(cases[..i], index, category, selected, tp, fp, fn)
    {
      TalliedMore(cases, i, index, category, selected, tp, fp, fn);
      var c := cases[i];
      if c.category == category {
        var p := index[c.caseId];
        selected := selected + 1;
        if p.intervened && c.expectedIntervention { tp := tp + 1; }
        if p.intervened && !c.expectedIntervention { fp := fp + 1; }
        if !p.intervened && c.expectedIntervention { fn := fn + 1; }
      }
    }
    assert cases[..|cases|] == cases;
    m := if selected == 0 then None
         else Some(CategoryMetrics(tp, fp, fn, Rate(tp, tp + fp, round), Rate(tp, tp + fn, round)));
  }

  method MeasureCategories(cases: seq<Case>, index: Index, categories: seq<string>, round: real -> real)
    returns (m: Option<map<string, CategoryMetrics>>)
    requires Covers(index, cases)
    ensures m.Some? <==> forall i :: 0 <= i < |categories| ==> Hits(cases, index, OfCategory(categories[i])) > 0
    ensures m.Some? ==> MeasuresCategories(m.value, cases, index, categories, round)
  {
    var measured: map<string, CategoryMetrics> := map[];
    for i := 0 to |categories|
      invariant MeasuresCategories(measured, cases, index, categories[..i], round)
      invariant forall j :: 0 <= j < i ==> Hits(cases, index, OfCategory(categories[j])) > 0
    {
      assert categories[..i + 1] == categories[..i] + [categories[i]];
      var one := MeasureCategory(cases, index, categories[i], round);
      if one.None? {
        return None;
      }
      measured := measured[categories[i] := one.value];
    }
    assert categories[..|categories|] == categories;
    m := Some(measured);
  }

  method SumOver(ps: seq<Prediction>, weight: Prediction -> real) returns (total: real)
    ensures total == Total(ps, weight)
  {
    total := 0.0;
    for i := 0 to |ps|
      invariant total == Total(ps[..i], weight)
    {
      assert ps[..i + 1][..i] == ps[..i];
      total := total + weight(ps[i]);
    }
    assert ps[..|ps|] == ps;
  }

  // ----- The percentile -----

  function InsertByLatency(s: seq<Prediction>, p: Prediction): (r: seq<Prediction>)
    ensures |r| == |s| + 1
  {
    if s == [] then [p]
    else
      var front, last := s[..|s| - 1], s[|s| - 1];
      if p.latencyMs < last.latencyMs then InsertByLatency(front, p) + [last] else s + [p]
  }

  /** Stable sort, standing for `Array.prototype.sort` by latency. */
  function SortByLatency(ps: seq<Prediction>): (r: seq<Prediction>)
    ensures |r| == |ps|
  {
    if ps == [] then [] else InsertByLatency(SortByLatency(ps[..|ps| - 1]), ps[|ps| - 1])
  }

  ghost predicate Ascends(ps: seq<Prediction>) {
    forall i, j :: 0 <= i < j < |ps| ==> ps[i].latencyMs <= ps[j].latencyMs
  }

  ghost predicate AtMost(ps: seq<Prediction>, bound: int) {
    forall i :: 0 <= i < |ps| ==> ps[i].latencyMs <= bound
  }

  lemma {:induction false} InsertAscends(s: seq<Prediction>, p: Prediction, bound: int)
    requires Ascends(s) && AtMost(s, bound) && p.latencyMs <= bound
    ensures Ascends(InsertByLatency(s, p)) && AtMost(InsertByLatency(s, p), bound)
  {
    if s != [] {
      var front, last := s[..|s| - 1], s[|s| - 1];
      if p.latencyMs < last.latencyMs {
        InsertAscends(front, p, last.latencyMs);
      }
    }
  }

  lemma {:induction false} InsertTotal(s: seq<Prediction>, p: Prediction, weight: Prediction -> real)
    ensures Total(InsertByLatency(s, p), weight) == Total(s, weight) + weight(p)
  {
    var r := InsertByLatency(s, p);
    if s != [] && p.latencyMs < s[|s| - 1].latencyMs {
      var front := s[..|s| - 1];
      assert r[..|s|] == InsertByLatency(front, p);
      InsertTotal(front, p, weight);
    } else {
      assert r[..|s|] == s;
    }
  }

  lemma {:induction false} SortAscends(ps: seq<Prediction>, bound: int)
    requires AtMost(ps, bound)
    ensures Ascends(SortByLatency(ps)) && AtMost(SortByLatency(ps), bound)
  {
    if ps != [] {
      SortAscends(ps[..|ps| - 1], bound);
      InsertAscends(SortByLatency(ps[..|ps| - 1]), ps[|ps| - 1], bound);
    }
  }

  lemma {:induction false} SortTotal(ps: seq<Prediction>, weight: Prediction -> real)
    ensures Total(SortByLatency(ps), weight) == Total(ps, weight)
  {
    if ps != [] {
      SortTotal(ps[..|ps| - 1], weight);
      InsertTotal(SortByLatency(ps[..|ps| - 1]), ps[|ps| - 1], weight);
    }
  }

  lemma {:induction false} AllWithin(ps: seq<Prediction>, latency: int)
    requires AtMost(ps, latency)
    ensures Total(ps, Within(latency)) == |ps| as real
  {
    if ps != [] {
      AllWithin(ps[..|ps| - 1], latency);
    }
  }

  lemma {:induction false} AtMostAll(ps: seq<Prediction>, latency: int)
    ensures Total(ps, Within(latency)) <= |ps| as real
  {
    if ps != [] {
      AtMostAll(ps[..|ps| - 1], latency);
    }
  }

  /** The element at a position of the sorted list has that rank. */
  lemma {:induction false} SortedRanks(sorted: seq<Prediction>, k: nat, latency: nat)
    requires Ascends(sorted) && k < |sorted| && sorted[k].latencyMs == latency
    ensures RanksAt(sorted, k, latency)
    decreases |sorted|
  {
    var n := |sorted| - 1;
    if k < n {
      SortedRanks(sorted[..n], k, latency);
    } else {
      AllWithin(sorted, latency);
      AtMostAll(sorted[..n], latency - 1);
    }
  }

  lemma {:induction false} SomeBound(ps: seq<Prediction>) returns (bound: int)
    ensures AtMost(ps, bound)
  {
    bound := 0;
    if ps != [] {
      bound := SomeBound(ps[..|ps| - 1]);
      if ps[|ps| - 1].latencyMs > bound {
        bound := ps[|ps| - 1].latencyMs;
      }
    }
  }

  /** The latency at the position of the 95th percentile. */
  method Percentile(ps: seq<Prediction>) returns (latency: nat)
    requires |ps| > 0
    ensures RanksAt(ps, P95Position(|ps|), latency)
  {
    var sorted := SortByLatency(ps);
    var k := P95Position(|ps|);
    latency := sorted[k].latencyMs;
    ghost var bound := SomeBound(ps);
    SortAscends(ps, bound);
    SortedRanks(sorted, k, latency);
    SortTotal(ps, Within(latency));
    SortTotal(ps, Within(latency - 1));
  }

  // ----- Measuring -----

  lemma AnswersCover(cases: seq<Case>, ps: seq<Prediction>, index: Index)
    requires Answers(cases, ps) && Indexes(index, ps)
    ensures Covers(index, cases)
  {
    forall i | 0 <= i < |cases|
      ensures cases[i].caseId in index
    {
      FittingPrediction(cases[i], index, ps);
    }
  }

  /** Measures the predictions, if they fit the cases and there is something to measure everywhere. */
  method MetricsFor(cases: seq<Case>, ps: seq<Prediction>, categories: seq<string>, round: real -> real)
    returns (m: Option<Metrics>, ghost index: Index)
    ensures Answers(cases, ps) ==> Indexes(index, ps)
    ensures m.Some? <==> Answers(cases, ps) && Measurable(cases, index, categories)
    ensures m.Some? ==> Measures(m.value, cases, ps, index, categories, round)
  {
    index := map[];
    var byId := IndexPredictions(cases, ps);
    if byId.None? {
      return None, index;
    }
    index := byId.value;
    AnswersCover(cases, ps, index);
    var measured := MeasureCategories(cases, byId.value, categories, round);
    if measured.None? {
      return None, index;
    }
    var normal := CountHits(cases, byId.value, NormalControl);
    var simulated := CountHits(cases, byId.value, Simulated);
    if normal == 0 || simulated == 0 {
      return None, index;
    }
    var interventions := CountHits(cases, byId.value, NormalIntervention);
    var recovered := CountHits(cases, byId.value, Recovered);
    var failed := SumOver(ps, Failure);
    var cost := SumOver(ps, Cost);
    var latency := Percentile(ps);
    m := Some(Metrics(
                measured.value, Rate(interventions, normal, round), Rate(recovered, simulated, round),
                round(failed / |ps| as real), round(cost / |ps| as real), latency));
  }

  // ----- What the measurements count -----

  lemma {:induction false} HitsAreCases(cases: seq<Case>, index: Index, wanted: (Case, Prediction) -> bool)
    requires Covers(index, cases)
    ensures Hits(cases, index, wanted) ==
              |set i | 0 <= i < |cases| && wanted(cases[i], index[cases[i].caseId])|
  {
    if cases != [] {
      var n := |cases| - 1;
      var front := cases[..n];
      HitsAreCases(front, index, wanted);
      var before := set i | 0 <= i < |front| && wanted(front[i], index[front[i].caseId]);
      var all := set i | 0 <= i < |cases| && wanted(cases[i], index[cases[i].caseId]);
      assert all == if wanted(cases[n], index[cases[n].caseId]) then before + {n} else before;
    }
  }

  lemma {:induction false} TotalIsCount(ps: seq<Prediction>, weight: Prediction -> real, counted: Prediction -> bool)
    requires forall p :: weight(p) == if counted(p) then 1.0 else 0.0
    ensures Total(ps, weight) == |set i | 0 <= i < |ps| && counted(ps[i])| as real
  {
    if ps != [] {
      var n := |ps| - 1;
      var front := ps[..n];
      TotalIsCount(front, weight, counted);
      var before := set i | 0 <= i < |front| && counted(front[i]);
      var all := set i | 0 <= i < |ps| && counted(ps[i]);
      assert all == if counted(ps[n]) then before + {n} else before;
    }
  }

  lemma SameSet<T>(a: set<T>, b: set<T>)
    requires forall i :: i in a <==> i in b
    ensures a == b
  {
  }

  lemma HitsCount(cases: seq<Case>, index: Index, wanted: (Case, Prediction) -> bool, these: set<int>)
    requires Covers(index, cases)
    requires forall i :: i in these <==> 0 <= i < |cases| && wanted(cases[i], index[cases[i].caseId])
    ensures Hits(cases, index, wanted) == |these|
  {
    HitsAreCases(cases, index, wanted);
    SameSet(these, set i | 0 <= i < |cases| && wanted(cases[i], index[cases[i].caseId]));
  }

  /** The share of `part` among `whole`, rounded; one of nothing. */
  ghost predicate IsShare(rate: real, part: nat, whole: nat, round: real -> real) {
    rate == if whole == 0 then 1.0 else round(part as real / whole as real)
  }

  /** The cases of a category in which the prediction intervened, or did not, as wanted or against it. */
  ghost function InCategory(
    cases: seq<Case>, index: Index, category: string, intervened: bool, expected: bool): set<int>
    requires Covers(index, cases)
  {
    set i | 0 <= i < |cases| && cases[i].category == category
            && index[cases[i].caseId].intervened == intervened && cases[i].expectedIntervention == expected
  }

  /**
   * Precision is the share of right interventions among the interventions of a category, recall among the wanted
   * ones; both count cases.
   */
  lemma CategoryCounts(cases: seq<Case>, index: Index, category: string, round: real -> real)
    requires Covers(index, cases)
    ensures var m := CategoryOf(cases, index, category, round);
            var right := |InCategory(cases, index, category, true, true)|;
            var wrong := |InCategory(cases, index, category, true, false)|;
            var missed := |InCategory(cases, index, category, false, true)|;
            && (m.truePositive, m.falsePositive, m.falseNegative) == (right, wrong, missed)
            && IsShare(m.precision, right, right + wrong, round) && IsShare(m.recall, right, right + missed, round)
  {
    HitsCount(cases, index, TruePositive(category), InCategory(cases, index, category, true, true));
    HitsCount(cases, index, FalsePositive(category), InCategory(cases, index, category, true, false));
    HitsCount(cases, index, FalseNegative(category), InCategory(cases, index, category, false, true));
  }

  /** The intervention rate counts interventions among the normal controls. */
  lemma ControlsCount(
    m: Metrics, cases: seq<Case>, ps: seq<Prediction>, index: Index, categories: seq<string>, round: real -> real)
    requires Covers(index, cases) && Measures(m, cases, ps, index, categories, round)
    ensures var controls := set i | 0 <= i < |cases| && cases[i].normalControl;
            var disturbed := set i | 0 <= i < |cases| && cases[i].normalControl && index[cases[i].caseId].intervened;
            IsShare(m.normalControlInterventionRate, |disturbed|, |controls|, round)
  {
    HitsCount(cases, index, NormalControl, set i | 0 <= i < |cases| && cases[i].normalControl);
    HitsCount(cases, index, NormalIntervention,
              set i | 0 <= i < |cases| && cases[i].normalControl && index[cases[i].caseId].intervened);
  }

  /** The recovery rate counts recoveries among the simulated corrections. */
  lemma RecoveriesCount(
    m: Metrics, cases: seq<Case>, ps: seq<Prediction>, index: Index, categories: seq<string>, round: real -> real)
    requires Covers(index, cases) && Measures(m, cases, ps, index, categories, round)
    ensures var simulated := set i | 0 <= i < |cases| && cases[i].simulatedUserCorrection;
            var recovered := set i | 0 <= i < |cases| && cases[i].simulatedUserCorrection
                                     && index[cases[i].caseId].recovered == Some(true);
            IsShare(m.simulatedCorrectionRecoveryRate, |recovered|, |simulated|, round)
  {
    HitsCount(cases, index, Simulated, set i | 0 <= i < |cases| && cases[i].simulatedUserCorrection);
    HitsCount(cases, index, Recovered,
              set i | 0 <= i < |cases| && cases[i].simulatedUserCorrection
                      && index[cases[i].caseId].recovered == Some(true));
  }

  lemma CountOf(ps: seq<Prediction>, weight: Prediction -> real, counted: Prediction -> bool, these: set<int>)
    requires forall p :: weight(p) == if counted(p) then 1.0 else 0.0
    requires forall i :: i in these <==> 0 <= i < |ps| && counted(ps[i])
    ensures Total(ps, weight) == |these| as real
  {
    TotalIsCount(ps, weight, counted);
    SameSet(these, set i | 0 <= i < |ps| && counted(ps[i]));
  }

  /**
   * Failures are counted among the predictions; and at least 95 of 100 predictions take at most the reported latency,
   * while fewer take less.
   */
  lemma FailuresAndPercentileCount(
    m: Metrics, cases: seq<Case>, ps: seq<Prediction>, index: Index, categories: seq<string>, round: real -> real)
    requires Measures(m, cases, ps, index, categories, round)
    ensures m.failureRate == round(|set i | 0 <= i < |ps| && ps[i].failed| as real / |ps| as real)
    ensures 100 * |set i | 0 <= i < |ps| && ps[i].latencyMs <= m.p95LatencyMs| >= 95 * |ps|
    ensures 100 * |set i | 0 <= i < |ps| && ps[i].latencyMs < m.p95LatencyMs| < 95 * |ps|
  {
    CountOf(ps, Failure, (p: Prediction) => p.failed, set i | 0 <= i < |ps| && ps[i].failed);
    PercentileCounts(ps, m.p95LatencyMs);
  }

  lemma PercentileCounts(ps: seq<Prediction>, latency: nat)
    requires |ps| > 0 && RanksAt(ps, P95Position(|ps|), latency)
    ensures 100 * |set i | 0 <= i < |ps| && ps[i].latencyMs <= latency| >= 95 * |ps|
    ensures 100 * |set i | 0 <= i < |ps| && ps[i].latencyMs < latency| < 95 * |ps|
  {
    CountOf(ps, Within(latency), (p: Prediction) => p.latencyMs <= latency,
            set i | 0 <= i < |ps| && ps[i].latencyMs <= latency);
    CountOf(ps, Within(latency - 1), (p: Prediction) => p.latencyMs < latency,
            set i | 0 <= i < |ps| && ps[i].latencyMs < latency);
  }

  // ----- Better predictions -----

  /** `q` is no worse a prediction than `p`: it errs only where `p` does, and costs and takes no more. */
  predicate BetterFor(c: Case, p: Prediction, q: Prediction) {
    && (q.intervened == p.intervened || q.intervened == c.expectedIntervention)
    && (p.recovered == Some(true) ==> q.recovered == Some(true))
    && (q.failed ==> p.failed) && q.costUsd <= p.costUsd && q.latencyMs <= p.latencyMs
  }

  ghost predicate BetterEverywhere(cases: seq<Case>, a: Index, b: Index) {
    forall i :: 0 <= i < |cases| ==>
      && cases[i].caseId in a && cases[i].caseId in b
      && BetterFor(cases[i], a[cases[i].caseId], b[cases[i].caseId])
  }

  lemma {:induction false} HitsGrow(
    cases: seq<Case>, a: Index, b: Index, wanted: (Case, Prediction) -> bool, asWell: (Case, Prediction) -> bool)
    requires forall i :: 0 <= i < |cases| && cases[i].caseId in a && wanted(cases[i], a[cases[i].caseId]) ==>
      cases[i].caseId in b && asWell(cases[i], b[cases[i].caseId])
    ensures Hits(cases, a, wanted) <= Hits(cases, b, asWell)
  {
    if cases != [] {
      HitsGrow(cases[..|cases| - 1], a, b, wanted, asWell);
    }
  }

  lemma RateGrows(part: nat, whole: nat, part': nat, whole': nat, round: real -> real)
    requires Rounds(round) && part <= whole && part' <= whole'
    requires part <= part' && whole' - part' <= whole - part
    ensures Rate(part, whole, round) <= Rate(part', whole', round)
  {
    if whole == 0 {
      assert whole' == part';
      assert whole' > 0 ==> part' as real / whole' as real == 1.0;
    } else if whole' == 0 {
      Divided(part, whole, 1, 1);
    } else {
      CrossProducts(part, whole, part', whole');
      Divided(part, whole, part', whole');
    }
  }

  lemma CrossProducts(part: nat, whole: nat, part': nat, whole': nat)
    requires part <= whole && part' <= whole'
    requires part <= part' && whole' - part' <= whole - part
    ensures part * whole' <= part' * whole
  {
    var miss, miss' := whole - part, whole' - part';
    assert part * whole' == part * part' + part * miss';
    assert part' * whole == part' * part + part' * miss;
    assert part * miss' <= part' * miss;
  }

  lemma Divided(part: nat, whole: nat, part': nat, whole': nat)
    requires whole > 0 && whole' > 0 && part * whole' <= part' * whole
    ensures part as real / whole as real <= part' as real / whole' as real
  {
    var w, w' := whole as real, whole' as real;
    assert (part as real) * w' <= (part' as real) * w;
  }


  lemma {:induction false} TotalGrows(
    ps: seq<Prediction>, qs: seq<Prediction>, p: Prediction -> real, q: Prediction -> real)
    requires |ps| == |qs| && forall i :: 0 <= i < |ps| ==> p(ps[i]) <= q(qs[i])
    ensures Total(ps, p) <= Total(qs, q)
  {
    if ps != [] {
      TotalGrows(ps[..|ps| - 1], qs[..|qs| - 1], p, q);
    }
  }

  lemma {:induction false} TotalOfConcat(a: seq<Prediction>, b: seq<Prediction>, weight: Prediction -> real)
    ensures Total(a + b, weight) == Total(a, weight) + Total(b, weight)
    decreases |b|
  {
    if b == [] {
      assert a + b == a;
    } else {
      assert (a + b)[..|a + b| - 1] == a + b[..|b| - 1];
      TotalOfConcat(a, b[..|b| - 1], weight);
    }
  }

  lemma TotalOfInserted(front: seq<Prediction>, p: Prediction, rest: seq<Prediction>, weight: Prediction -> real)
    ensures Total(front + [p] + rest, weight) == Total(front + rest, weight) + weight(p)
  {
    TotalOfConcat(front + [p], rest, weight);
    TotalOfConcat(front, rest, weight);
    assert (front + [p])[..|front|] == front;
  }

  lemma Found(b: seq<Prediction>, p: Prediction) returns (front: seq<Prediction>, rest: seq<Prediction>)
    requires p in multiset(b)
    ensures b == front + [p] + rest
  {
    var i :| 0 <= i < |b| && b[i] == p;
    front, rest := b[..i], b[i + 1..];
  }

  lemma SameWithout(before: seq<Prediction>, p: Prediction, front: seq<Prediction>, rest: seq<Prediction>)
    requires multiset(before + [p]) == multiset(front + [p] + rest)
    ensures multiset(before) == multiset(front + rest)
  {
    var with := multiset(before + [p]);
    assert multiset(before) == with - multiset{p} && multiset(front + rest) == with - multiset{p};
  }

  /** A total does not depend on the order. */
  lemma {:induction false} TotalIgnoresOrder(a: seq<Prediction>, b: seq<Prediction>, weight: Prediction -> real)
    requires multiset(a) == multiset(b)
    ensures Total(a, weight) == Total(b, weight)
    decreases |a|
  {
    if a == [] {
      assert |b| == |multiset(b)|;
    } else {
      var before, last := a[..|a| - 1], a[|a| - 1];
      assert a == before + [last] && last in multiset(a);
      var front, rest := Found(b, last);
      SameWithout(before, last, front, rest);
      TotalIgnoresOrder(before, front + rest, weight);
      TotalOfInserted(front, last, rest, weight);
    }
  }

  /** The predictions in the order of the cases they answer. */
  function Aligned(cases: seq<Case>, index: Index): (ps: seq<Prediction>)
    requires Covers(index, cases)
  {
    seq(|cases|, i requires 0 <= i < |cases| => index[cases[i].caseId])
  }

  function IdOf(p: Prediction): string {
    p.caseId
  }

  lemma AlignedHasEach(cases: seq<Case>, ps: seq<Prediction>, index: Index)
    requires UniqueCases(cases) && Answers(cases, ps) && Indexes(index, ps) && Covers(index, cases)
    ensures forall p :: p in ps <==> p in Aligned(cases, index)
    ensures DistinctKeys(Aligned(cases, index), IdOf)
  {
    var aligned := Aligned(cases, index);
    AcceptedIsBijection(cases, ps);
    forall i | 0 <= i < |cases|
      ensures aligned[i] in ps && aligned[i].caseId == cases[i].caseId
    {
      var j :| 0 <= j < |ps| && ps[j].caseId == cases[i].caseId;
    }
    forall i | 0 <= i < |ps|
      ensures ps[i] in aligned
    {
      var j :| 0 <= j < |cases| && Fits(cases[j], ps[i]);
      assert aligned[j] == ps[i];
    }
  }

  /** Aligning only reorders: the predictions are in bijection with the cases. */
  lemma AlignedReorders(cases: seq<Case>, ps: seq<Prediction>, index: Index)
    requires UniqueCases(cases) && Answers(cases, ps) && Indexes(index, ps) && Covers(index, cases)
    ensures multiset(Aligned(cases, index)) == multiset(ps)
  {
    var aligned := Aligned(cases, index);
    AlignedHasEach(cases, ps, index);
    forall p
      ensures multiset(aligned)[p] == multiset(ps)[p]
    {
      if p in ps {
        SingleOccurrence(aligned, IdOf, p);
        SingleOccurrence(ps, IdOf, p);
      } else {
        assert p !in multiset(aligned) && p !in multiset(ps);
      }
    }
  }

  /** More hits and fewer misses are a larger share of hits. */
  lemma BetterShare(
    cases: seq<Case>, a: Index, b: Index, hit: (Case, Prediction) -> bool, miss: (Case, Prediction) -> bool,
    round: real -> real)
    requires Covers(a, cases) && Covers(b, cases) && Rounds(round)
    requires forall i :: 0 <= i < |cases| ==>
      && (hit(cases[i], a[cases[i].caseId]) ==> hit(cases[i], b[cases[i].caseId]))
      && (miss(cases[i], b[cases[i].caseId]) ==> miss(cases[i], a[cases[i].caseId]))
    ensures Rate(Hits(cases, a, hit), Hits(cases, a, hit) + Hits(cases, a, miss), round) <=
              Rate(Hits(cases, b, hit), Hits(cases, b, hit) + Hits(cases, b, miss), round)
  {
    HitsGrow(cases, a, b, hit, hit);
    HitsGrow(cases, b, a, miss, miss);
    RateGrows(Hits(cases, a, hit), Hits(cases, a, hit) + Hits(cases, a, miss),
              Hits(cases, b, hit), Hits(cases, b, hit) + Hits(cases, b, miss), round);
  }

  lemma BetterCategory(cases: seq<Case>, a: Index, b: Index, category: string, round: real -> real)
    requires BetterEverywhere(cases, a, b) && Rounds(round)
    ensures var x, y := CategoryOf(cases, a, category, round), CategoryOf(cases, b, category, round);
            x.precision <= y.precision && x.recall <= y.recall
  {
    BetterPrecision(cases, a, b, category, round);
    BetterShare(cases, a, b, TruePositive(category), FalseNegative(category), round);
  }

  lemma BetterPrecision(cases: seq<Case>, a: Index, b: Index, category: string, round: real -> real)
    requires BetterEverywhere(cases, a, b) && Rounds(round)
    ensures CategoryOf(cases, a, category, round).precision <= CategoryOf(cases, b, category, round).precision
  {
    BetterShare(cases, a, b, TruePositive(category), FalsePositive(category), round);
  }

  lemma SameHits(cases: seq<Case>, a: Index, b: Index, wanted: (Case, Prediction) -> bool)
    requires Covers(a, cases) && Covers(b, cases) && forall c, p, q :: wanted(c, p) == wanted(c, q)
    ensures Hits(cases, a, wanted) == Hits(cases, b, wanted)
  {
    HitsGrow(cases, a, b, wanted, wanted);
    HitsGrow(cases, b, a, wanted, wanted);
  }

  /** A normal control is a case in which no intervention is wanted, as parsing insists. */
  ghost predicate ControlsWantNothing(cases: seq<Case>) {
    forall i :: 0 <= i < |cases| && cases[i].normalControl ==> !cases[i].expectedIntervention
  }

  lemma BetterControls(cases: seq<Case>, a: Index, b: Index, round: real -> real)
    requires BetterEverywhere(cases, a, b) && ControlsWantNothing(cases) && Rounds(round)
    ensures Rate(Hits(cases, b, NormalIntervention), Hits(cases, b, NormalControl), round) <=
              Rate(Hits(cases, a, NormalIntervention), Hits(cases, a, NormalControl), round)
  {
    HitsGrow(cases, b, a, NormalIntervention, NormalIntervention);
    HitsGrow(cases, a, a, NormalIntervention, NormalControl);
    SameHits(cases, a, b, NormalControl);
    RateGrows(Hits(cases, b, NormalIntervention), Hits(cases, b, NormalControl),
              Hits(cases, a, NormalIntervention), Hits(cases, a, NormalControl), round);
  }

  lemma BetterRecoveries(cases: seq<Case>, a: Index, b: Index, round: real -> real)
    requires BetterEverywhere(cases, a, b) && Rounds(round)
    ensures Rate(Hits(cases, a, Recovered), Hits(cases, a, Simulated), round) <=
              Rate(Hits(cases, b, Recovered), Hits(cases, b, Simulated), round)
  {
    HitsGrow(cases, a, b, Recovered, Recovered);
    HitsGrow(cases, b, b, Recovered, Simulated);
    SameHits(cases, a, b, Simulated);
    RateGrows(Hits(cases, a, Recovered), Hits(cases, a, Simulated),
              Hits(cases, b, Recovered), Hits(cases, b, Simulated), round);
  }

  /** What grows prediction by prediction grows in total, whatever order each list is in. */
  lemma BetterTotals(
    cases: seq<Case>, ps: seq<Prediction>, qs: seq<Prediction>, a: Index, b: Index,
    p: Prediction -> real, q: Prediction -> real)
    requires UniqueCases(cases) && Answers(cases, ps) && Answers(cases, qs) && Indexes(a, ps) && Indexes(b, qs)
    requires Covers(a, cases) && Covers(b, cases)
    requires forall i :: 0 <= i < |cases| ==> p(a[cases[i].caseId]) <= q(b[cases[i].caseId])
    ensures Total(ps, p) <= Total(qs, q)
  {
    AlignedReorders(cases, ps, a);
    AlignedReorders(cases, qs, b);
    TotalIgnoresOrder(Aligned(cases, a), ps, p);
    TotalIgnoresOrder(Aligned(cases, b), qs, q);
    TotalGrows(Aligned(cases, a), Aligned(cases, b), p, q);
  }

  lemma BetterPercentile(
    cases: seq<Case>, ps: seq<Prediction>, qs: seq<Prediction>, a: Index, b: Index, k: nat, x: nat, y: nat)
    requires UniqueCases(cases) && Answers(cases, ps) && Answers(cases, qs) && Indexes(a, ps) && Indexes(b, qs)
    requires BetterEverywhere(cases, a, b) && RanksAt(ps, k, x) && RanksAt(qs, k, y)
    ensures y <= x
  {
    if x < y {
      BetterTotals(cases, ps, qs, a, b, Within(x), Within(y - 1));
    }
  }

  lemma MeansGrow(x: real, y: real, n: nat, round: real -> real)
    requires Rounds(round) && n > 0 && x <= y
    ensures round(x / n as real) <= round(y / n as real)
  {
    assert x / n as real <= y / n as real;
  }

  /** Predictions that err less, fail less and cost and take no more are measured no worse, and decided no worse. */
  lemma BetterPredictionsNeverWorsenDecision(
    cases: seq<Case>, categories: seq<string>, round: real -> real, t: Thresholds,
    ps: seq<Prediction>, a: Index, m: Metrics, qs: seq<Prediction>, b: Index, n: Metrics)
    requires UniqueCases(cases) && ControlsWantNothing(cases) && Rounds(round)
    requires Answers(cases, ps) && Indexes(a, ps) && Measures(m, cases, ps, a, categories, round)
    requires Answers(cases, qs) && Indexes(b, qs) && Measures(n, cases, qs, b, categories, round)
    requires BetterEverywhere(cases, a, b)
    ensures NoWorse(m, n)
    ensures Rank(DecisionFor(n, t)) >= Rank(DecisionFor(m, t))
  {
    forall category | category in m.categories
      ensures category in n.categories && n.categories[category].precision >= m.categories[category].precision
              && n.categories[category].recall >= m.categories[category].recall
    {
      BetterCategory(cases, a, b, category, round);
    }
    BetterControls(cases, a, b, round);
    BetterRecoveries(cases, a, b, round);
    BetterTotals(cases, qs, ps, b, a, Failure, Failure);
    BetterTotals(cases, qs, ps, b, a, Cost, Cost);
    MeansGrow(Total(qs, Failure), Total(ps, Failure), |ps|, round);
    MeansGrow(Total(qs, Cost), Total(ps, Cost), |ps|, round);
    BetterPercentile(cases, ps, qs, a, b, P95Position(|ps|), m.p95LatencyMs, n.p95LatencyMs);
    BetterMetricsNeverWorsenDecision(m, n, t);
  }
}
