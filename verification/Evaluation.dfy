/** Measuring predictions against locked cases, and the decision the nested gates make of the measurements. */
module Evaluation {
  import opened Ordering

  datatype Case = Case(
    caseId: string, category: string, expectedIntervention: bool, normalControl: bool, simulatedUserCorrection: bool)

  datatype Prediction = Prediction(
    caseId: string, intervened: bool, recovered: Option<bool>, failed: bool, costUsd: real, latencyMs: nat)

  datatype CategoryMetrics = CategoryMetrics(truePositive: nat, falsePositive: nat, falseNegative: nat,
      precision: real, recall: real)

  datatype Metrics = Metrics(
    categories: map<string, CategoryMetrics>, normalControlInterventionRate: real,
    simulatedCorrectionRecoveryRate: real,
    failureRate: real, meanCostUsd: real, p95LatencyMs: nat)

  // ----- Which predictions are measured -----

  function CaseIds(cases: seq<Case>): (ids: set<string>)
    ensures forall i :: 0 <= i < |cases| ==> cases[i].caseId in ids
  {
    set i | 0 <= i < |cases| :: cases[i].caseId
  }

  function PredictionIds(ps: seq<Prediction>): (ids: set<string>)
    ensures forall i :: 0 <= i < |ps| ==> ps[i].caseId in ids
  {
    set i | 0 <= i < |ps| :: ps[i].caseId
  }

  ghost predicate UniqueCases(cases: seq<Case>) {
    forall i, j :: 0 <= i < j < |cases| ==> cases[i].caseId != cases[j].caseId
  }

  ghost predicate UniquePredictions(ps: seq<Prediction>) {
    forall i, j :: 0 <= i < j < |ps| ==> ps[i].caseId != ps[j].caseId
  }

  /** A correction is reported on exactly where one was simulated. */
  predicate Fits(c: Case, p: Prediction) {
    c.caseId == p.caseId && (c.simulatedUserCorrection <==> p.recovered.Some?)
  }

  ghost predicate Answers(cases: seq<Case>, ps: seq<Prediction>) {
    && |ps| == |cases| && UniquePredictions(ps)
    && forall i :: 0 <= i < |cases| ==> HasFit(cases[i], ps)
  }

  ghost predicate HasFit(c: Case, ps: seq<Prediction>) {
    exists p :: p in ps && Fits(c, p)
  }

  /**
   * Predictions answer the cases when there are as many, no id comes twice, and each case has one of its id that
   * reports on a correction exactly when the case simulates one.
   */
  lemma AnswersExactlyWhen(cases: seq<Case>, ps: seq<Prediction>)
    ensures Answers(cases, ps) <==>
            && |ps| == |cases| && (forall i, j :: 0 <= i < j < |ps| ==> ps[i].caseId != ps[j].caseId)
            && forall c :: c in cases ==>
              exists p :: p in ps && p.caseId == c.caseId && (p.recovered == None <==> !c.simulatedUserCorrection)
  {
    forall c
      ensures HasFit(c, ps) <==>
              exists p :: p in ps && p.caseId == c.caseId && (p.recovered == None <==> !c.simulatedUserCorrection)
    {
      if p :| p in ps && p.caseId == c.caseId && (p.recovered == None <==> !c.simulatedUserCorrection) {
        assert Fits(c, p);
      }
    }
    if Answers(cases, ps) {
      forall c | c in cases
        ensures HasFit(c, ps)
      {
        var i :| 0 <= i < |cases| && cases[i] == c;
      }
    } else if forall c :: c in cases ==> HasFit(c, ps) {
      assert forall i :: 0 <= i < |cases| ==> cases[i] in cases;
    }
  }

  lemma IndexesMore(index: map<string, Prediction>, ps: seq<Prediction>, p: Prediction)
    requires Indexes(index, ps) && UniquePredictions(ps) && p.caseId !in index
    ensures Indexes(index[p.caseId := p], ps + [p]) && UniquePredictions(ps + [p])
  {
    var more, next := ps + [p], index[p.caseId := p];
    forall id | id in next
      ensures exists j :: 0 <= j < |more| && more[j].caseId == id
    {
      if id == p.caseId {
        assert more[|ps|].caseId == id;
      } else {
        var j :| 0 <= j < |ps| && ps[j].caseId == id;
        assert more[j].caseId == id;
      }
    }
  }

  /** The map from ids to predictions, unless an id comes twice. */
  method MapById(ps: seq<Prediction>) returns (byId: Option<map<string, Prediction>>)
    ensures byId.Some? <==> UniquePredictions(ps)
    ensures byId.Some? ==> Indexes(byId.value, ps)
  {
    var index: map<string, Prediction> := map[];
    for i := 0 to |ps|
      invariant Indexes(index, ps[..i]) && UniquePredictions(ps[..i])
    {
      assert ps[..i + 1] == ps[..i] + [ps[i]];
      if ps[i].caseId in index {
        var j :| 0 <= j < |ps[..i]| && ps[..i][j].caseId == ps[i].caseId;
        assert ps[j].caseId == ps[i].caseId;
        return None;
      }
      IndexesMore(index, ps[..i], ps[i]);
      index := index[ps[i].caseId := ps[i]];
    }
    assert ps[..|ps|] == ps;
    byId := Some(index);
  }

  /** Each id's prediction, and no other id. */
  ghost predicate Indexes(index: map<string, Prediction>, ps: seq<Prediction>) {
    && (forall j :: 0 <= j < |ps| ==> ps[j].caseId in index && index[ps[j].caseId] == ps[j])
    && (forall id :: id in index ==> exists j :: 0 <= j < |ps| && ps[j].caseId == id)
  }

  predicate FitsIndex(c: Case, index: map<string, Prediction>) {
    c.caseId in index && (c.simulatedUserCorrection <==> index[c.caseId].recovered.Some?)
  }

  lemma FittingPrediction(c: Case, index: map<string, Prediction>, ps: seq<Prediction>)
    requires Indexes(index, ps)
    ensures FitsIndex(c, index) <==> HasFit(c, ps)
  {
    if FitsIndex(c, index) {
      var j :| 0 <= j < |ps| && ps[j].caseId == c.caseId;
      assert ps[j] in ps && Fits(c, ps[j]);
    }
    if p :| p in ps && Fits(c, p) {
      var j :| 0 <= j < |ps| && ps[j] == p;
    }
  }

  /** The map from case ids to predictions, when every case has its fitting one and no id comes twice. */
  method IndexPredictions(cases: seq<Case>, ps: seq<Prediction>) returns (byId: Option<map<string, Prediction>>)
    ensures byId.Some? <==> Answers(cases, ps)
    ensures byId.Some? ==> Indexes(byId.value, ps)
  {
    if |ps| != |cases| {
      return None;
    }
    byId := MapById(ps);
    if byId.Some? {
      for i := 0 to |cases|
        invariant forall j :: 0 <= j < i ==> HasFit(cases[j], ps)
      {
        FittingPrediction(cases[i], byId.value, ps);
        if !FitsIndex(cases[i], byId.value) {
          return None;
        }
      }
    }
  }

  lemma {:induction false} IdsCount(cases: seq<Case>)
    requires UniqueCases(cases)
    ensures |CaseIds(cases)| == |cases|
  {
    if cases != [] {
      var front, last := cases[..|cases| - 1], cases[|cases| - 1];
      IdsCount(front);
      assert CaseIds(cases) == CaseIds(front) + {last.caseId};
      assert last.caseId !in CaseIds(front);
    }
  }

  lemma {:induction false} PredictionIdsCount(ps: seq<Prediction>)
    requires UniquePredictions(ps)
    ensures |PredictionIds(ps)| == |ps|
  {
    if ps != [] {
      var front, last := ps[..|ps| - 1], ps[|ps| - 1];
      PredictionIdsCount(front);
      assert PredictionIds(ps) == PredictionIds(front) + {last.caseId};
      assert last.caseId !in PredictionIds(front);
    }
  }

  lemma FullSubset<T>(a: set<T>, b: set<T>)
    requires a <= b && |a| == |b|
    ensures a == b
  {
    if a != b {
      var x :| x in b && x !in a;
      SubsetCount(a, b - {x});
    }
  }

  lemma {:induction false} SubsetCount<T>(a: set<T>, b: set<T>)
    requires a <= b
    ensures |a| <= |b|
    decreases |a|
  {
    if x :| x in a {
      SubsetCount(a - {x}, b - {x});
    }
  }

  /** Accepted predictions are in bijection with the cases: no case is unanswered, and no prediction answers nothing. */
  lemma AcceptedIsBijection(cases: seq<Case>, ps: seq<Prediction>)
    requires UniqueCases(cases) && Answers(cases, ps)
    ensures CaseIds(cases) == PredictionIds(ps)
    ensures forall i :: 0 <= i < |ps| ==> exists j :: 0 <= j < |cases| && Fits(cases[j], ps[i])
  {
    forall id | id in CaseIds(cases)
      ensures id in PredictionIds(ps)
    {
      var j :| 0 <= j < |cases| && cases[j].caseId == id;
      assert HasFit(cases[j], ps);
      var p :| p in ps && Fits(cases[j], p);
    }
    IdsCount(cases);
    PredictionIdsCount(ps);
    FullSubset(CaseIds(cases), PredictionIds(ps));
    forall i | 0 <= i < |ps|
      ensures exists j :: 0 <= j < |cases| && Fits(cases[j], ps[i])
    {
      assert ps[i].caseId in CaseIds(cases);
      var j :| 0 <= j < |cases| && cases[j].caseId == ps[i].caseId;
      assert HasFit(cases[j], ps);
      var p :| p in ps && Fits(cases[j], p);
      var k :| 0 <= k < |ps| && ps[k] == p;
      assert k == i;
    }
  }

  // ----- Why case ids must be unique -----

  predicate IsFirst(cases: seq<Case>, i: nat)
    requires i < |cases|
  {
    forall j :: 0 <= j < i ==> cases[j].caseId != cases[i].caseId
  }

  /** Cases that share an id ask for the same kind of prediction; otherwise nothing answers them. */
  ghost predicate Answerable(cases: seq<Case>) {
    forall i, j :: 0 <= i < |cases| && 0 <= j < |cases| && cases[i].caseId == cases[j].caseId ==>
      cases[i].simulatedUserCorrection == cases[j].simulatedUserCorrection
  }

  /** An id longer than any case's; another one for each `i`. */
  function StrayId(cases: seq<Case>, i: nat): string {
    seq(LongestId(cases) + 1 + i, _ => 'x')
  }

  function LongestId(cases: seq<Case>): nat {
    if cases == [] then 0
    else
      var rest := LongestId(cases[1..]);
      if |cases[0].caseId| > rest then |cases[0].caseId| else rest
  }

  lemma {:induction false} NoIdIsLonger(cases: seq<Case>, i: nat)
    requires i < |cases|
    ensures |cases[i].caseId| <= LongestId(cases)
  {
    if i > 0 {
      NoIdIsLonger(cases[1..], i - 1);
    }
  }

  lemma StrayIsNoCase(cases: seq<Case>, i: nat)
    ensures StrayId(cases, i) !in CaseIds(cases)
  {
    if StrayId(cases, i) in CaseIds(cases) {
      var k :| 0 <= k < |cases| && cases[k].caseId == StrayId(cases, i);
      NoIdIsLonger(cases, k);
    }
  }

  function Answer(c: Case, id: string): Prediction {
    Prediction(id, false, if c.simulatedUserCorrection then Some(false) else None, false, 0.0, 0)
  }

  /** A fitting prediction for the first case of each id, and strays in the place of the repeated ones. */
  function WithStrays(cases: seq<Case>): seq<Prediction> {
    seq(|cases|, i requires 0 <= i < |cases| =>
      Answer(cases[i], if IsFirst(cases, i) then cases[i].caseId else StrayId(cases, i)))
  }

  lemma {:induction false} FirstOf(cases: seq<Case>, i: nat) returns (j: nat)
    requires i < |cases|
    ensures j <= i && IsFirst(cases, j) && cases[j].caseId == cases[i].caseId
  {
    j := i;
    if !IsFirst(cases, i) {
      var k :| 0 <= k < i && cases[k].caseId == cases[i].caseId;
      j := FirstOf(cases, k);
    }
  }

  lemma WithStraysAnswers(cases: seq<Case>)
    requires Answerable(cases)
    ensures Answers(cases, WithStrays(cases))
  {
    var ps := WithStrays(cases);
    forall i, j | 0 <= i < j < |ps|
      ensures ps[i].caseId != ps[j].caseId
    {
      NoIdIsLonger(cases, i);
      NoIdIsLonger(cases, j);
    }
    forall i | 0 <= i < |cases|
      ensures HasFit(cases[i], ps)
    {
      var j := FirstOf(cases, i);
      assert ps[j] in ps && Fits(cases[i], ps[j]);
    }
  }

  /** Some predictions are taken although one of them answers no case. */
  ghost predicate AdmitsStray(cases: seq<Case>) {
    exists ps :: Answers(cases, ps) && !(PredictionIds(ps) <= CaseIds(cases))
  }

  lemma SameFit(c: Case, d: Case, ps: seq<Prediction>)
    requires UniquePredictions(ps) && c.caseId == d.caseId && HasFit(c, ps) && HasFit(d, ps)
    ensures c.simulatedUserCorrection == d.simulatedUserCorrection
  {
    var p :| p in ps && Fits(c, p);
    var q :| q in ps && Fits(d, q);
    var i :| 0 <= i < |ps| && ps[i] == p;
    var j :| 0 <= j < |ps| && ps[j] == q;
    assert i == j;
  }

  lemma StraysNeedRepeats(cases: seq<Case>)
    requires AdmitsStray(cases)
    ensures !UniqueCases(cases) && Answerable(cases)
  {
    var ps :| Answers(cases, ps) && !(PredictionIds(ps) <= CaseIds(cases));
    if UniqueCases(cases) {
      AcceptedIsBijection(cases, ps);
    }
    forall i, j | 0 <= i < |cases| && 0 <= j < |cases| && cases[i].caseId == cases[j].caseId
      ensures cases[i].simulatedUserCorrection == cases[j].simulatedUserCorrection
    {
      SameFit(cases[i], cases[j], ps);
    }
  }

  lemma RepeatsAdmitStrays(cases: seq<Case>)
    requires !UniqueCases(cases) && Answerable(cases)
    ensures AdmitsStray(cases)
  {
    var i, j :| 0 <= i < j < |cases| && cases[i].caseId == cases[j].caseId;
    var ps := WithStrays(cases);
    WithStraysAnswers(cases);
    StrayIsNoCase(cases, j);
    assert !IsFirst(cases, j) && ps[j].caseId == StrayId(cases, j);
    assert StrayId(cases, j) in PredictionIds(ps);
  }

  /** A stray prediction gets through exactly when some case id comes twice and the cases can be answered at all. */
  lemma StrayGetsThroughExactlyWhenRepeated(cases: seq<Case>)
    ensures AdmitsStray(cases) <==> !UniqueCases(cases) && Answerable(cases)
  {
    if AdmitsStray(cases) {
      StraysNeedRepeats(cases);
    } else if !UniqueCases(cases) && Answerable(cases) {
      RepeatsAdmitStrays(cases);
    }
  }

  // ----- The gates -----

  datatype SemanticThreshold = SemanticThreshold(minimumPrecision: real, minimumRecall: real)

  datatype ProductThreshold = ProductThreshold(
    maximumNormalControlInterventionRate: real, minimumSimulatedCorrectionRecoveryRate: real,
    maximumFailureRate: real, maximumMeanCostUsd: real, maximumP95LatencyMs: nat)

  datatype Thresholds = Thresholds(
    goCategories: map<string, SemanticThreshold>, conditionalCategories: map<string, SemanticThreshold>,
    goProduct: ProductThreshold, conditionalProduct: ProductThreshold)

  datatype Decision = Go | ConditionalGo | NoGoProduct | NoGoSemantic

  predicate SemanticEases(go: SemanticThreshold, conditional: SemanticThreshold) {
    conditional.minimumPrecision <= go.minimumPrecision && conditional.minimumRecall <= go.minimumRecall
  }

  predicate ProductEases(go: ProductThreshold, conditional: ProductThreshold) {
    && conditional.maximumNormalControlInterventionRate >= go.maximumNormalControlInterventionRate
    && conditional.minimumSimulatedCorrectionRecoveryRate <= go.minimumSimulatedCorrectionRecoveryRate
    && conditional.maximumFailureRate >= go.maximumFailureRate
    && conditional.maximumMeanCostUsd >= go.maximumMeanCostUsd
    && conditional.maximumP95LatencyMs >= go.maximumP95LatencyMs
  }

  /** The nesting `parseThresholds` insists on: whatever passes a go gate passes its conditional gate. */
  predicate Nested(t: Thresholds) {
    && t.goCategories.Keys == t.conditionalCategories.Keys
    && (forall c :: c in t.goCategories ==> SemanticEases(t.goCategories[c], t.conditionalCategories[c]))
    && ProductEases(t.goProduct, t.conditionalProduct)
  }

  predicate SemanticPass(m: Metrics, gates: map<string, SemanticThreshold>) {
    forall c :: c in gates ==>
      c in m.categories && m.categories[c].precision >= gates[c].minimumPrecision
          && m.categories[c].recall >= gates[c].minimumRecall
  }

  predicate ProductPass(m: Metrics, t: ProductThreshold) {
    && m.normalControlInterventionRate <= t.maximumNormalControlInterventionRate
    && m.simulatedCorrectionRecoveryRate >= t.minimumSimulatedCorrectionRecoveryRate
    && m.failureRate <= t.maximumFailureRate
    && m.meanCostUsd <= t.maximumMeanCostUsd
    && m.p95LatencyMs <= t.maximumP95LatencyMs
  }

  function DecisionFor(m: Metrics, t: Thresholds): Decision {
    if SemanticPass(m, t.goCategories) && ProductPass(m, t.goProduct) then Go
    else if SemanticPass(m, t.conditionalCategories) && ProductPass(m, t.conditionalProduct) then ConditionalGo
    else if SemanticPass(m, t.conditionalCategories) then NoGoProduct
    else NoGoSemantic
  }

  /**
   * Go takes every go threshold, conditional go every conditional one; short of that a product no-go still takes the
   * conditional semantic thresholds, and a semantic no-go misses one of them.
   */
  lemma DecidedExactlyWhen(m: Metrics, t: Thresholds)
    ensures DecisionFor(m, t) == Go <==>
            && (forall c :: c in t.goCategories ==>
                  c in m.categories && m.categories[c].precision >= t.goCategories[c].minimumPrecision
                  && m.categories[c].recall >= t.goCategories[c].minimumRecall)
            && m.normalControlInterventionRate <= t.goProduct.maximumNormalControlInterventionRate
            && m.simulatedCorrectionRecoveryRate >= t.goProduct.minimumSimulatedCorrectionRecoveryRate
            && m.failureRate <= t.goProduct.maximumFailureRate && m.meanCostUsd <= t.goProduct.maximumMeanCostUsd
            && m.p95LatencyMs <= t.goProduct.maximumP95LatencyMs
    ensures DecisionFor(m, t) != NoGoSemantic && DecisionFor(m, t) != Go ==>
              forall c :: c in t.conditionalCategories ==>
                c in m.categories && m.categories[c].precision >= t.conditionalCategories[c].minimumPrecision
                && m.categories[c].recall >= t.conditionalCategories[c].minimumRecall
    ensures DecisionFor(m, t) == NoGoSemantic ==>
              exists c :: c in t.conditionalCategories &&
                (c !in m.categories || m.categories[c].precision < t.conditionalCategories[c].minimumPrecision
                 || m.categories[c].recall < t.conditionalCategories[c].minimumRecall)
    ensures DecisionFor(m, t) in {ConditionalGo, NoGoProduct} ==>
              (DecisionFor(m, t) == ConditionalGo <==>
                var limits := t.conditionalProduct;
                && m.normalControlInterventionRate <= limits.maximumNormalControlInterventionRate
                && m.simulatedCorrectionRecoveryRate >= limits.minimumSimulatedCorrectionRecoveryRate
                && m.failureRate <= limits.maximumFailureRate && m.meanCostUsd <= limits.maximumMeanCostUsd
                && m.p95LatencyMs <= limits.maximumP95LatencyMs)
  {
  }

  function Rank(d: Decision): nat {
    match d
    case NoGoSemantic => 0
    case NoGoProduct => 1
    case ConditionalGo => 2
    case Go => 3
  }

  /** `b` is measured no worse than `a` anywhere. */
  ghost predicate NoWorse(a: Metrics, b: Metrics) {
    && (forall c :: c in a.categories ==>
          c in b.categories && b.categories[c].precision >= a.categories[c].precision
          && b.categories[c].recall >= a.categories[c].recall)
    && b.normalControlInterventionRate <= a.normalControlInterventionRate
    && b.simulatedCorrectionRecoveryRate >= a.simulatedCorrectionRecoveryRate
    && b.failureRate <= a.failureRate && b.meanCostUsd <= a.meanCostUsd && b.p95LatencyMs <= a.p95LatencyMs
  }

  /** Better measurements never worsen the decision. */
  lemma BetterMetricsNeverWorsenDecision(a: Metrics, b: Metrics, t: Thresholds)
    requires NoWorse(a, b)
    ensures Rank(DecisionFor(b, t)) >= Rank(DecisionFor(a, t))
  {
    if SemanticPass(a, t.goCategories) { PassesAlike(a, b, t.goCategories); }
    if SemanticPass(a, t.conditionalCategories) { PassesAlike(a, b, t.conditionalCategories); }
  }

  lemma PassesAlike(a: Metrics, b: Metrics, gates: map<string, SemanticThreshold>)
    requires NoWorse(a, b) && SemanticPass(a, gates)
    ensures SemanticPass(b, gates)
  {
  }

  /** With nested gates, `go` means the conditional gates pass too. */
  lemma GoMeansConditional(m: Metrics, t: Thresholds)
    requires Nested(t) && DecisionFor(m, t) == Go
    ensures SemanticPass(m, t.conditionalCategories) && ProductPass(m, t.conditionalProduct)
  {
    forall c | c in t.conditionalCategories
      ensures c in m.categories && m.categories[c].precision >= t.conditionalCategories[c].minimumPrecision
              && m.categories[c].recall >= t.conditionalCategories[c].minimumRecall
    {
      assert c in t.goCategories.Keys;
    }
  }
}
