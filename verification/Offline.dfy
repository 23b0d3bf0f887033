/** The offline verifier of a Platinum package, and the packages the pipeline persists. */
module Offline {
  import opened Prelude
  import opened Ordering
  import opened Selection
  import opened Evidence
  import opened Collision

  // ---- the persisted package ------------------------------------------------------------

  datatype Interval = Interval(pairs: nat, mean: real, deviation: real, error: real, lower: real, upper: real)

  datatype Aggregate = Aggregate(baselineScore: real, enhancedScore: real, legacyGain: real, directionalGain: real)

  datatype Decided = Decided(feature: string, selected: bool, lowerBound: real)

  datatype Package = Package(
    metrics: seq<Row>,
    aggregate: Aggregate,
    uncertainty: Interval,
    decisions: seq<Decided>,
    selected: seq<string>,
    discovery: seq<Row>,
    steps: seq<Step>,
    preprocessing: map<string, Option<set<nat>>>)

  /** The paired Student-t interval over directional deltas. */
  function IntervalOf(student: Student, deltas: seq<real>): Interval
    requires deltas != []
  {
    var deviation := if |deltas| > 1 then Deviation(student, deltas) else 0.0;
    var error := deviation * student.inverseRoot(|deltas|);
    var margin := student.critical(|deltas| - 1) * error;
    Interval(|deltas|, Mean(deltas), deviation, error, Mean(deltas) - margin, Mean(deltas) + margin)
  }

  function Scaled(direction: real, xs: seq<real>): (r: seq<real>)
    ensures |r| == |xs|
  {
    seq(|xs|, i requires 0 <= i < |xs| => xs[i] * direction)
  }

  function FoldScores(evaluation: Study, features: seq<string>): (r: seq<real>)
    ensures |r| == |evaluation.folds|
  {
    var folds := Sorted(evaluation.folds);
    seq(|folds|, i requires 0 <= i < |folds| => evaluation.score(features, folds[i]))
  }

  function Differences(after: seq<real>, before: seq<real>): (r: seq<real>)
    requires |after| == |before|
    ensures |r| == |after|
  {
    seq(|after|, i requires 0 <= i < |after| => after[i] - before[i])
  }

  function Decide(proposed: seq<string>, selected: seq<string>, lower: real): (r: seq<Decided>)
    ensures |r| == |proposed|
    ensures forall i :: 0 <= i < |r| ==> r[i] == Decided(proposed[i], proposed[i] in selected, lower)
  {
    seq(|proposed|, i requires 0 <= i < |proposed| => Decided(proposed[i], proposed[i] in selected, lower))
  }

  /** What the pipeline persists for one run: the selection on discovery folds, then the baseline
      and the selected arm on evaluation folds. An empty selection repeats the baseline. */
  function Produced(discovery: Study, evaluation: Study, policy: Policy, names: seq<string>, proposed: seq<string>): Package
    requires discovery.folds != {} && evaluation.folds != {}
  {
    var steps := Greedy(discovery, policy, SortBy(names, StrLeq), []);
    var selected := Chosen(steps);
    var baseline, enhanced := FoldScores(evaluation, []), FoldScores(evaluation, selected);
    var raw := Differences(enhanced, baseline);
    var interval := IntervalOf(policy.student, Scaled(policy.direction, raw));
    Package(
      ArmRows(evaluation, "baseline", []) + ArmRows(evaluation, "enhanced", selected),
      Aggregate(Mean(baseline), Mean(enhanced), Mean(raw), Mean(Scaled(policy.direction, raw))),
      interval,
      Decide(proposed, selected, interval.lower),
      selected,
      Rows(discovery, DiscoveryArms(discovery, policy, names)),
      steps,
      map["baseline" := Some(evaluation.folds), "enhanced" := Some(evaluation.folds)])
  }

  // ---- the verifier -------------------------------------------------------------------------

  predicate FoldLeq(a: Row, b: Row) { a.fold <= b.fold }

  function OfArm(rows: seq<Row>, name: string): seq<Row> {
    if rows == [] then []
    else if rows[0].arm == name then [rows[0]] + OfArm(rows[1..], name)
    else OfArm(rows[1..], name)
  }

  /** `metrics[metrics["arm"] == name].sort_values("fold")` */
  function ArmByFold(rows: seq<Row>, name: string): seq<Row> {
    SortBy(OfArm(rows, name), FoldLeq)
  }

  function RowFolds(rows: seq<Row>): (r: seq<nat>)
    ensures |r| == |rows| && forall i :: 0 <= i < |r| ==> r[i] == rows[i].fold
  {
    seq(|rows|, i requires 0 <= i < |rows| => rows[i].fold)
  }

  function RowScores(rows: seq<Row>): (r: seq<real>)
    ensures |r| == |rows| && forall i :: 0 <= i < |r| ==> r[i] == rows[i].score
  {
    seq(|rows|, i requires 0 <= i < |rows| => rows[i].score)
  }

  predicate CloseInterval(a: Interval, b: Interval) {
    && Close(a.mean, b.mean) && Close(a.deviation, b.deviation) && Close(a.error, b.error)
    && Close(a.lower, b.lower) && Close(a.upper, b.upper) && a.pairs == b.pairs
  }

  predicate SelectedAgree(selected: seq<string>, decisions: seq<Decided>) {
    && (forall n | n in selected :: exists i :: 0 <= i < |decisions| && decisions[i].selected && decisions[i].feature == n)
    && (forall i | 0 <= i < |decisions| && decisions[i].selected :: decisions[i].feature in selected)
  }

  predicate CheckPreprocessing(preprocessing: map<string, Option<set<nat>>>, folds: seq<nat>) {
    && preprocessing.Keys == {"baseline", "enhanced"}
    && forall arm | arm in preprocessing :: preprocessing[arm].None? || forall f | f in folds :: f in preprocessing[arm].value
  }

  predicate CheckEvaluation(policy: Policy, p: Package) {
    var baseline, enhanced := ArmByFold(p.metrics, "baseline"), ArmByFold(p.metrics, "enhanced");
    && baseline != [] && enhanced != [] && RowFolds(baseline) == RowFolds(enhanced)
    && Close(Mean(RowScores(baseline)), p.aggregate.baselineScore)
    && Close(Mean(RowScores(enhanced)), p.aggregate.enhancedScore)
    && |RowFolds(baseline)| == |RowFolds(enhanced)|
    && var raw := Differences(RowScores(enhanced), RowScores(baseline));
    && CloseInterval(p.uncertainty, IntervalOf(policy.student, Scaled(policy.direction, raw)))
    && Close(p.aggregate.directionalGain, Mean(Scaled(policy.direction, raw)))
    && Close(p.aggregate.legacyGain, Mean(raw))
    && CheckPreprocessing(p.preprocessing, RowFolds(baseline))
  }

  /** Every check of the loader and of `_verify_platinum_evidence_v2`. */
  predicate Accepts(policy: Policy, p: Package) {
    && CheckEvaluation(policy, p)
    && p.selected == Chosen(p.steps)
    && SelectedAgree(p.selected, p.decisions)
    && (forall i | 0 <= i < |p.decisions| :: Close(p.decisions[i].lowerBound, p.uncertainty.lower))
    && CheckSteps(policy.direction, p.discovery, p.steps)
  }

  method CheckRanking(direction: real, rows: seq<Row>, before: seq<string>, previous: map<nat, real>, ranking: seq<Entry>)
    returns (ok: bool)
    requires previous.Keys != {}
    ensures ok <==> forall i :: 0 <= i < |ranking| ==> CheckEntry(direction, rows, before, previous, ranking[i])
  {
    hide CheckEntry;
    for i := 0 to |ranking|
      invariant forall k :: 0 <= k < i ==> CheckEntry(direction, rows, before, previous, ranking[k])
    {
      var right := CheckOne(direction, rows, before, previous, ranking[i]);
      if !right {
        return false;
      }
    }
    return true;
  }

  method CheckStepLoop(direction: real, rows: seq<Row>, step: Step) returns (ok: bool)
    ensures ok == CheckStep(direction, rows, step)
  {
    hide Lookup, ArmLabel, CheckEntry, CheckChosen;
    var previous := Lookup(rows, ArmLabel(step.selectedBefore));
    if previous.Keys == {} {
      return false;
    }
    var ranked := CheckRanking(direction, rows, step.selectedBefore, previous, step.ranking);
    return ranked && CheckChosen(rows, step);
  }

  method CheckOne(direction: real, rows: seq<Row>, before: seq<string>, previous: map<nat, real>, entry: Entry) returns (ok: bool)
    requires previous.Keys != {}
    ensures ok == CheckEntry(direction, rows, before, previous, entry)
  {
    hide Lookup, ArmLabel, Close, Mean, Deltas;
    var scores := Lookup(rows, ArmLabel(before + [entry.feature]));
    if scores.Keys == {} {
      return false;
    }
    if scores.Keys != previous.Keys {
      return false;
    }
    return Close(entry.gain, Mean(Deltas(direction, previous, scores)));
  }

  /** `_verify_platinum_evidence_v2` */
  method VerifyPackage(policy: Policy, p: Package) returns (ok: bool)
    ensures ok == Accepts(policy, p)
  {
    hide CheckEvaluation, SelectedAgree, CheckStep, Close, Chosen;
    if !CheckEvaluation(policy, p) || p.selected != Chosen(p.steps) || !SelectedAgree(p.selected, p.decisions) {
      return false;
    }
    for i := 0 to |p.decisions|
      invariant forall k :: 0 <= k < i ==> Close(p.decisions[k].lowerBound, p.uncertainty.lower)
    {
      if !Close(p.decisions[i].lowerBound, p.uncertainty.lower) {
        return false;
      }
    }
    for i := 0 to |p.steps|
      invariant forall k :: 0 <= k < i ==> CheckStep(policy.direction, p.discovery, p.steps[k])
    {
      var right := CheckStepLoop(policy.direction, p.discovery, p.steps[i]);
      if !right {
        return false;
      }
    }
    return true;
  }

  // ---- what the pipeline persists is accepted --------------------------------------------------

  lemma {:induction false} OfArmConcat(a: seq<Row>, b: seq<Row>, name: string)
    ensures OfArm(a + b, name) == OfArm(a, name) + OfArm(b, name)
  {
    if a == [] {
      assert a + b == b;
    } else {
      assert (a + b)[1..] == a[1..] + b;
      OfArmConcat(a[1..], b, name);
    }
  }

  lemma {:induction false} OfOwnArm(rows: seq<Row>, own: string, name: string)
    requires forall i :: 0 <= i < |rows| ==> rows[i].arm == own
    ensures OfArm(rows, name) == if own == name then rows else []
  {
    if rows != [] { OfOwnArm(rows[1..], own, name); }
  }

  lemma ArmFound(evaluation: Study, selected: seq<string>, own: string, features: seq<string>)
    requires (own == "baseline" && features == []) || (own == "enhanced" && features == selected)
    ensures var rows := ArmRows(evaluation, "baseline", []) + ArmRows(evaluation, "enhanced", selected);
            ArmByFold(rows, own) == ArmRows(evaluation, own, features)
  {
    var a, b := ArmRows(evaluation, "baseline", []), ArmRows(evaluation, "enhanced", selected);
    OfArmConcat(a, b, own);
    OfOwnArm(a, "baseline", own);
    OfOwnArm(b, "enhanced", own);
    hide ArmRows, OfArm;
    assert [] + b == b && a + [] == a;
    ArmIsSorted(evaluation, own, features);
  }

  lemma ArmIsSorted(evaluation: Study, own: string, features: seq<string>)
    ensures SortBy(ArmRows(evaluation, own, features), FoldLeq) == ArmRows(evaluation, own, features)
  {
    SortedAscends(evaluation.folds);
    var rows, folds := ArmRows(evaluation, own, features), Sorted(evaluation.folds);
    hide Sorted;
    assert forall i :: 0 <= i < |rows| ==> rows[i].fold == folds[i];
    hide ArmRows;
    forall i, j | 0 <= i < j < |rows| ensures FoldLeq(rows[i], rows[j]) {
      assert folds[i] < folds[j];
    }
    SortOfOrdered(rows, FoldLeq);
  }

  lemma ArmColumns(evaluation: Study, own: string, features: seq<string>)
    ensures RowFolds(ArmRows(evaluation, own, features)) == Sorted(evaluation.folds)
    ensures RowScores(ArmRows(evaluation, own, features)) == FoldScores(evaluation, features)
  {
  }

  lemma CloseSelf(x: real)
    ensures Close(x, x)
  {
  }

  lemma EvaluationReconstructs(discovery: Study, evaluation: Study, policy: Policy, names: seq<string>, proposed: seq<string>)
    requires discovery.folds != {} && evaluation.folds != {}
    ensures CheckEvaluation(policy, Produced(discovery, evaluation, policy, names, proposed))
  {
    var p := Produced(discovery, evaluation, policy, names, proposed);
    var selected := p.selected;
    ArmFound(evaluation, selected, "baseline", []);
    ArmFound(evaluation, selected, "enhanced", selected);
    ArmColumns(evaluation, "baseline", []);
    ArmColumns(evaluation, "enhanced", selected);
    assert p.metrics == ArmRows(evaluation, "baseline", []) + ArmRows(evaluation, "enhanced", selected);
    assert p.preprocessing == map["baseline" := Some(evaluation.folds), "enhanced" := Some(evaluation.folds)];
    PreprocessingCovers(evaluation);
    hide ArmByFold, ArmRows, Close, Mean, IntervalOf, Greedy, Chosen, Scaled, Differences, FoldScores, CheckPreprocessing, Decide;
    CloseSelf(p.aggregate.baselineScore);
    CloseSelf(p.aggregate.enhancedScore);
    CloseSelf(p.aggregate.legacyGain);
    CloseSelf(p.aggregate.directionalGain);
    CloseIntervalSelf(p.uncertainty);
    hide CloseInterval;
  }

  lemma CloseIntervalSelf(interval: Interval)
    ensures CloseInterval(interval, interval)
  {
  }

  lemma PreprocessingCovers(evaluation: Study)
    ensures CheckPreprocessing(map["baseline" := Some(evaluation.folds), "enhanced" := Some(evaluation.folds)], Sorted(evaluation.folds))
  {
  }

  /** Everything but the greedy checks always passes on what the pipeline persists. */
  lemma ProducedAccepted(discovery: Study, evaluation: Study, policy: Policy, names: seq<string>, proposed: seq<string>)
    requires discovery.folds != {} && evaluation.folds != {} && Distinct(names) && forall n :: n in names ==> n in proposed
    ensures var p := Produced(discovery, evaluation, policy, names, proposed);
            Accepts(policy, p) <==> CheckSteps(policy.direction, p.discovery, p.steps)
  {
    var p := Produced(discovery, evaluation, policy, names, proposed);
    EvaluationReconstructs(discovery, evaluation, policy, names, proposed);
    SelectionRuns(discovery, policy, names);
    assert p.selected == Chosen(p.steps) && p.decisions == Decide(proposed, p.selected, p.uncertainty.lower);
    assert p.steps == Greedy(discovery, policy, SortBy(names, StrLeq), []);
    hide *;
    DecisionsAgree(proposed, p.selected, p.uncertainty.lower);
    GreedyChecksDecide(policy, p);
  }

  lemma DecisionsAgree(proposed: seq<string>, selected: seq<string>, lower: real)
    requires forall n :: n in selected ==> n in proposed
    ensures var decisions := Decide(proposed, selected, lower);
            SelectedAgree(selected, decisions) && forall i :: 0 <= i < |decisions| ==> decisions[i].lowerBound == lower
  {
    var decisions := Decide(proposed, selected, lower);
    forall n | n in selected ensures exists i :: 0 <= i < |decisions| && decisions[i].selected && decisions[i].feature == n {
      var i :| 0 <= i < |proposed| && proposed[i] == n;
      assert decisions[i].feature == n;
    }
  }

  lemma GreedyChecksDecide(policy: Policy, p: Package)
    requires CheckEvaluation(policy, p) && p.selected == Chosen(p.steps) && SelectedAgree(p.selected, p.decisions)
    requires forall i :: 0 <= i < |p.decisions| ==> p.decisions[i].lowerBound == p.uncertainty.lower
    ensures Accepts(policy, p) <==> CheckSteps(policy.direction, p.discovery, p.steps)
  {
    CloseSelf(p.uncertainty.lower);
    hide CheckEvaluation, CheckSteps, Close, SelectedAgree, Chosen;
  }

  /** The verifier accepts the evidence of every run over some candidate names, whatever the scores,
      if and only if no name is the `+`-join of at least two others that selection can reach. */
  lemma HonestEvidenceAccepted(folds: set<nat>, evaluation: Study, policy: Policy, names: seq<string>, proposed: seq<string>)
    requires Setting(folds, policy) && evaluation.folds != {} && Distinct(names) && forall n :: n in names ==> n in proposed
    ensures (forall score: (seq<string>, nat) -> real ::
               Accepts(policy, Produced(Study(folds, score), evaluation, policy, names, proposed)))
            <==> !Ambiguous(names, policy)
  {
    StepsReconstructIff(folds, policy, names);
    forall score: (seq<string>, nat) -> real
      ensures Accepts(policy, Produced(Study(folds, score), evaluation, policy, names, proposed)) <==>
              Reconstructs(folds, policy, names, score)
    {
      ProducedAccepted(Study(folds, score), evaluation, policy, names, proposed);
      hide Accepts, CheckSteps, Greedy, DiscoveryArms, Rows;
    }
    hide Accepts, Produced, Reconstructs, Ambiguous, Setting;
  }

  // ---- what acceptance says, and what it leaves open ----------------------------------------------

  /** The gain of one more feature as the persisted discovery rows give it. */
  function Recomputed(direction: real, rows: seq<Row>, before: seq<string>, name: string): real
    requires Lookup(rows, ArmLabel(before)).Keys == Lookup(rows, ArmLabel(before + [name])).Keys != {}
  {
    Mean(Deltas(direction, Lookup(rows, ArmLabel(before)), Lookup(rows, ArmLabel(before + [name]))))
  }

  /** Steps that start where the step before them ended, each electing a feature of its ranking. */
  ghost predicate Chained(before: seq<string>, steps: seq<Step>)
    decreases |steps|
  {
    steps == [] ||
    (&& steps[0].selectedBefore == before
     && (steps[0].chosen.Some? ==>
           && (exists e :: e in steps[0].ranking && e.feature == steps[0].chosen.value)
           && Chained(before + [steps[0].chosen.value], steps[1..]))
     && (steps[0].chosen.None? ==> |steps| == 1))
  }

  function GainOf(ranking: seq<Entry>, name: string): real {
    if ranking == [] then 0.0 else if ranking[0].feature == name then ranking[0].gain else GainOf(ranking[1..], name)
  }

  /** The gains that the steps record for the features they elect. */
  function RecordedGains(steps: seq<Step>): seq<real> {
    if steps == [] then []
    else if steps[0].chosen.None? then RecordedGains(steps[1..])
    else [GainOf(steps[0].ranking, steps[0].chosen.value)] + RecordedGains(steps[1..])
  }

  ghost predicate Telescopes(direction: real, rows: seq<Row>, before: seq<string>, after: seq<string>, gains: seq<real>) {
    && Lookup(rows, ArmLabel(before)).Keys == Lookup(rows, ArmLabel(after)).Keys != {}
    && exists exact: seq<real> ::
      && |exact| == |gains| && (forall i :: 0 <= i < |gains| ==> Close(gains[i], exact[i]))
      && Sum(exact) == Mean(Deltas(direction, Lookup(rows, ArmLabel(before)), Lookup(rows, ArmLabel(after))))
  }

  lemma {:induction false} GainIsRanked(ranking: seq<Entry>, name: string)
    requires exists e :: e in ranking && e.feature == name
    ensures exists i :: 0 <= i < |ranking| && ranking[i].feature == name && ranking[i].gain == GainOf(ranking, name)
  {
    if ranking[0].feature != name {
      var e :| e in ranking && e.feature == name;
      assert e in ranking[1..];
      GainIsRanked(ranking[1..], name);
      var i :| 0 <= i < |ranking[1..]| && ranking[1..][i].feature == name && ranking[1..][i].gain == GainOf(ranking[1..], name);
      assert ranking[i + 1] == ranking[1..][i];
    }
  }

  /** One accepted step: the gain recorded for its choice is the one the rows give. */
  lemma AcceptedStep(direction: real, rows: seq<Row>, step: Step)
    requires CheckStep(direction, rows, step) && step.chosen.Some?
    requires exists e :: e in step.ranking && e.feature == step.chosen.value
    ensures Lookup(rows, ArmLabel(step.selectedBefore)).Keys ==
            Lookup(rows, ArmLabel(step.selectedBefore + [step.chosen.value])).Keys != {}
    ensures Close(GainOf(step.ranking, step.chosen.value), Recomputed(direction, rows, step.selectedBefore, step.chosen.value))
  {
    GainIsRanked(step.ranking, step.chosen.value);
    hide Lookup, ArmLabel, Close, GainOf, Deltas, Mean;
    var i :| 0 <= i < |step.ranking| && step.ranking[i].feature == step.chosen.value
             && step.ranking[i].gain == GainOf(step.ranking, step.chosen.value);
    assert CheckEntry(direction, rows, step.selectedBefore, Lookup(rows, ArmLabel(step.selectedBefore)), step.ranking[i]);
  }

  lemma TelescopesNothing(direction: real, rows: seq<Row>, before: seq<string>)
    requires Lookup(rows, ArmLabel(before)).Keys != {}
    ensures Telescopes(direction, rows, before, before, [])
  {
    var scores := Lookup(rows, ArmLabel(before));
    hide Lookup, ArmLabel;
    SumOfZeros(Deltas(direction, scores, scores));
    var none: seq<real> := [];
    assert Sum(none) == Mean(Deltas(direction, scores, scores));
  }

  lemma TelescopesMore(direction: real, rows: seq<Row>, before: seq<string>, name: string, after: seq<string>,
                       gain: real, gains: seq<real>)
    requires Lookup(rows, ArmLabel(before)).Keys == Lookup(rows, ArmLabel(before + [name])).Keys != {}
    requires Close(gain, Recomputed(direction, rows, before, name))
    requires Telescopes(direction, rows, before + [name], after, gains)
    ensures Telescopes(direction, rows, before, after, [gain] + gains)
  {
    var a, b, c := Lookup(rows, ArmLabel(before)), Lookup(rows, ArmLabel(before + [name])), Lookup(rows, ArmLabel(after));
    hide Lookup, ArmLabel, Close;
    GainsAdd(direction, a, b, c);
    hide Deltas, Mean;
    var exact: seq<real> :| |exact| == |gains| && (forall i :: 0 <= i < |gains| ==> Close(gains[i], exact[i]))
                            && Sum(exact) == Mean(Deltas(direction, b, c));
    var all := [Mean(Deltas(direction, a, b))] + exact;
    assert all[1..] == exact;
    assert forall i :: 0 <= i < |all| ==> Close(([gain] + gains)[i], all[i]);
  }

  /** In accepted evidence whose steps form a chain, the recorded gains are, each to within the
      tolerance, numbers that add up exactly to what the persisted rows give between the arm of the
      whole selection and the arm it started from. */
  lemma {:induction false} AcceptedGainsTelescope(direction: real, rows: seq<Row>, before: seq<string>, steps: seq<Step>)
    requires CheckSteps(direction, rows, steps) && Chained(before, steps)
    requires Lookup(rows, ArmLabel(before)).Keys != {}
    ensures Telescopes(direction, rows, before, before + Chosen(steps), RecordedGains(steps))
    decreases |steps|
  {
    hide Lookup, ArmLabel, Telescopes, CheckStep, Recomputed;
    if steps == [] || steps[0].chosen.None? {
      assert Chosen(steps) == [] && RecordedGains(steps) == [] by { if steps != [] { assert |steps[1..]| == 0; } }
      assert before + Chosen(steps) == before;
      TelescopesNothing(direction, rows, before);
    } else {
      var name := steps[0].chosen.value;
      AcceptedStep(direction, rows, steps[0]);
      forall i | 0 <= i < |steps[1..]| ensures CheckStep(direction, rows, steps[1..][i]) { assert steps[1..][i] == steps[i + 1]; }
      AcceptedGainsTelescope(direction, rows, before + [name], steps[1..]);
      TelescopesMore(direction, rows, before, name, before + [name] + Chosen(steps[1..]),
                     GainOf(steps[0].ranking, name), RecordedGains(steps[1..]));
      assert before + Chosen(steps) == before + [name] + Chosen(steps[1..]);
    }
  }

  /** The same for a whole accepted package, from the baseline to the selected set it names. */
  lemma AcceptedPackageTelescopes(policy: Policy, p: Package)
    requires Accepts(policy, p) && Chained([], p.steps) && p.steps != []
    ensures Telescopes(policy.direction, p.discovery, [], p.selected, RecordedGains(p.steps))
  {
    hide CheckEvaluation, SelectedAgree, Telescopes, RecordedGains, Close;
    assert CheckStep(policy.direction, p.discovery, p.steps[0]);
    assert Lookup(p.discovery, ArmLabel([])).Keys != {};
    AcceptedGainsTelescope(policy.direction, p.discovery, [], p.steps);
    assert [] + Chosen(p.steps) == Chosen(p.steps);
  }

  ghost predicate RecordedIn(ranking: seq<Entry>, e: Entry) {
    exists i :: 0 <= i < |ranking| && ranking[i].feature == e.feature && ranking[i].gain == e.gain
  }

  /** The verifier compares only features and gains of a ranking: any reordering, repetition or
      omission of its entries, and any lower bounds, are accepted alike. */
  lemma RankingOrderIsNotChecked(direction: real, rows: seq<Row>, step: Step, ranking: seq<Entry>)
    requires CheckStep(direction, rows, step)
    requires forall e :: e in ranking ==> RecordedIn(step.ranking, e)
    ensures CheckStep(direction, rows, step.(ranking := ranking))
  {
    var before := step.selectedBefore;
    var previous := Lookup(rows, ArmLabel(before));
    hide Lookup, ArmLabel, Close;
    forall k | 0 <= k < |ranking| ensures CheckEntry(direction, rows, before, previous, ranking[k]) {
      assert ranking[k] in ranking && RecordedIn(step.ranking, ranking[k]);
      var i :| 0 <= i < |step.ranking| && step.ranking[i].feature == ranking[k].feature && step.ranking[i].gain == ranking[k].gain;
      assert CheckEntry(direction, rows, before, previous, step.ranking[i]);
    }
  }

  // ---- what acceptance says of the evaluation --------------------------------------------------------

  /** Equal up to a part in 10^12, or up to 10^-12. */
  predicate Within(a: real, b: real) {
    || -0.000000000001 <= a - b <= 0.000000000001
    || -0.000000000001 * a <= a - b <= 0.000000000001 * a || 0.000000000001 * a <= a - b <= -0.000000000001 * a
    || -0.000000000001 * b <= a - b <= 0.000000000001 * b || 0.000000000001 * b <= a - b <= -0.000000000001 * b
  }

  lemma CloseMeans(a: real, b: real)
    ensures Close(a, b) <==> Within(a, b)
  {
  }

  lemma {:induction false} OfArmHolds(rows: seq<Row>, name: string, r: Row)
    ensures r in OfArm(rows, name) <==> r in rows && r.arm == name
  {
    if rows != [] { OfArmHolds(rows[1..], name, r); }
  }

  /** The rows of an arm are the metric rows that carry its name, in the order of the folds. */
  lemma ArmMeans(rows: seq<Row>, name: string)
    ensures forall r :: r in ArmByFold(rows, name) <==> r in rows && r.arm == name
    ensures forall i, j :: 0 <= i < j < |ArmByFold(rows, name)| ==> ArmByFold(rows, name)[i].fold <= ArmByFold(rows, name)[j].fold
  {
    SortOrders(OfArm(rows, name), FoldLeq);
    forall r ensures r in ArmByFold(rows, name) <==> r in rows && r.arm == name {
      OfArmHolds(rows, name, r);
      SortedHolds(OfArm(rows, name), FoldLeq, r);
    }
  }

  /** The directional difference of each pair of rows. */
  function PairGains(direction: real, baseline: seq<Row>, enhanced: seq<Row>): (r: seq<real>)
    requires |baseline| == |enhanced|
    ensures |r| == |baseline|
  {
    seq(|baseline|, i requires 0 <= i < |baseline| => direction * (enhanced[i].score - baseline[i].score))
  }

  lemma GainsArePairs(direction: real, baseline: seq<Row>, enhanced: seq<Row>)
    requires |baseline| == |enhanced|
    ensures Scaled(direction, Differences(RowScores(enhanced), RowScores(baseline))) == PairGains(direction, baseline, enhanced)
  {
    var a, b := Scaled(direction, Differences(RowScores(enhanced), RowScores(baseline))), PairGains(direction, baseline, enhanced);
    assert forall i :: 0 <= i < |a| ==> a[i] == b[i];
  }

  lemma MeanOfGains(direction: real, baseline: seq<Row>, enhanced: seq<Row>, gains: seq<real>)
    requires |baseline| == |enhanced| == |gains| && gains != []
    requires forall i :: 0 <= i < |gains| ==> gains[i] == direction * (enhanced[i].score - baseline[i].score)
    ensures Mean(gains) == direction * (Mean(RowScores(enhanced)) - Mean(RowScores(baseline)))
  {
    SumScaled(RowScores(baseline), RowScores(enhanced), gains, direction);
    hide Sum;
    Scale(direction, Sum(RowScores(enhanced)), Sum(RowScores(baseline)), |gains| as real);
  }

  /** A margin around a mean: the critical value times the standard error of the gains, none for one pair. */
  ghost predicate IsMargin(student: Student, gains: seq<real>, margin: real)
    requires gains != []
  {
    var n, c := |gains| as real, student.critical(|gains| - 1);
    margin >= 0.0 && if |gains| == 1 then margin == 0.0 else n * (n - 1.0) * (margin * margin) == c * c * Spread(gains)
  }

  lemma IntervalMeans(student: Student, gains: seq<real>)
    requires Lawful(student) && gains != []
    ensures var interval := IntervalOf(student, gains);
            && interval.pairs == |gains| && interval.mean == Mean(gains)
            && IsMargin(student, gains, interval.mean - interval.lower)
            && interval.upper - interval.mean == interval.mean - interval.lower
  {
    if |gains| >= 2 {
      MarginMeans(student, gains, student.critical(|gains| - 1) * (Deviation(student, gains) * student.inverseRoot(|gains|)));
    } else {
      NoMargin(student.critical(|gains| - 1), student.inverseRoot(|gains|));
    }
    hide Spread, Deviation, Mean, Lawful;
  }

  lemma NoMargin(c: real, r: real)
    ensures c * (0.0 * r) == 0.0
  {
  }

  /** The difference of the mean scores. */
  function Difference(baseline: seq<Row>, enhanced: seq<Row>): real
    requires baseline != [] && enhanced != []
  {
    Mean(RowScores(enhanced)) - Mean(RowScores(baseline))
  }

  /** The same in the direction of the metric. */
  function Gain(direction: real, baseline: seq<Row>, enhanced: seq<Row>): real
    requires baseline != [] && enhanced != []
  {
    direction * Difference(baseline, enhanced)
  }

  /** What the persisted numbers of one evaluation are, in terms of its rows. */
  ghost predicate Evaluated(policy: Policy, p: Package, baseline: seq<Row>, enhanced: seq<Row>)
    requires |baseline| == |enhanced| > 0
  {
    var gain := Gain(policy.direction, baseline, enhanced);
    && Within(p.aggregate.baselineScore, Mean(RowScores(baseline)))
    && Within(p.aggregate.enhancedScore, Mean(RowScores(enhanced)))
    && Within(p.aggregate.legacyGain, Difference(baseline, enhanced))
    && Within(p.aggregate.directionalGain, gain)
    && p.uncertainty.pairs == |baseline| && Within(p.uncertainty.mean, gain)
    && exists margin :: IsMargin(policy.student, PairGains(policy.direction, baseline, enhanced), margin)
         && Within(p.uncertainty.lower, gain - margin) && Within(p.uncertainty.upper, gain + margin)
  }

  /** What acceptance says of the evaluation: both arms have the same folds in the same order, the means, the
      gains and the interval are, to within the tolerance, those of the persisted rows, every decision
      carries that interval's bound, the selected set is the decided one, and the preprocessing
      of both arms covers every fold. */
  lemma AcceptedEvaluation(policy: Policy, p: Package)
    requires Accepts(policy, p) && Lawful(policy.student)
    ensures var baseline, enhanced := ArmByFold(p.metrics, "baseline"), ArmByFold(p.metrics, "enhanced");
            && |baseline| == |enhanced| > 0 && (forall i :: 0 <= i < |baseline| ==> baseline[i].fold == enhanced[i].fold)
            && Evaluated(policy, p, baseline, enhanced)
            && (forall d :: d in p.decisions ==> Within(d.lowerBound, p.uncertainty.lower))
            && (forall n :: n in p.selected <==> exists d :: d in p.decisions && d.selected && d.feature == n)
            && p.preprocessing.Keys == {"baseline", "enhanced"}
            && (forall arm, i :: arm in p.preprocessing && p.preprocessing[arm].Some? && 0 <= i < |baseline| ==>
                  baseline[i].fold in p.preprocessing[arm].value)
  {
    var baseline, enhanced := ArmByFold(p.metrics, "baseline"), ArmByFold(p.metrics, "enhanced");
    FoldsAgree(baseline, enhanced);
    NumbersAccepted(policy, p, baseline, enhanced);
    DecisionsAccepted(p);
    hide ArmByFold, Evaluated, CheckSteps, Close, CloseInterval, Chosen, SelectedAgree;
    forall arm, i | arm in p.preprocessing && p.preprocessing[arm].Some? && 0 <= i < |baseline|
      ensures baseline[i].fold in p.preprocessing[arm].value
    {
      assert RowFolds(baseline)[i] in RowFolds(baseline);
    }
  }

  lemma FoldsAgree(a: seq<Row>, b: seq<Row>)
    ensures RowFolds(a) == RowFolds(b) ==> |a| == |b| && forall i :: 0 <= i < |a| ==> a[i].fold == b[i].fold
  {
    if RowFolds(a) == RowFolds(b) {
      forall i | 0 <= i < |a| ensures a[i].fold == b[i].fold { assert RowFolds(a)[i] == RowFolds(b)[i]; }
    }
  }

  lemma DecisionsAccepted(p: Package)
    requires SelectedAgree(p.selected, p.decisions)
    requires forall i :: 0 <= i < |p.decisions| ==> Close(p.decisions[i].lowerBound, p.uncertainty.lower)
    ensures forall d :: d in p.decisions ==> Within(d.lowerBound, p.uncertainty.lower)
    ensures forall n :: n in p.selected <==> exists d :: d in p.decisions && d.selected && d.feature == n
  {
    hide Close, Within;
    forall d | d in p.decisions ensures Within(d.lowerBound, p.uncertainty.lower) {
      var i :| 0 <= i < |p.decisions| && p.decisions[i] == d;
      CloseMeans(p.decisions[i].lowerBound, p.uncertainty.lower);
    }
    forall n ensures n in p.selected <==> exists d :: d in p.decisions && d.selected && d.feature == n {
      if n in p.selected {
        var i :| 0 <= i < |p.decisions| && p.decisions[i].selected && p.decisions[i].feature == n;
        assert p.decisions[i] in p.decisions;
      }
      if d :| d in p.decisions && d.selected && d.feature == n {
        var i :| 0 <= i < |p.decisions| && p.decisions[i] == d;
      }
    }
  }

  /** What the checks of the evaluation compare, with the interval that the rows give. */
  ghost predicate Compared(policy: Policy, p: Package, baseline: seq<Row>, enhanced: seq<Row>, interval: Interval) {
    && |baseline| == |enhanced| > 0
    && Close(Mean(RowScores(baseline)), p.aggregate.baselineScore) && Close(Mean(RowScores(enhanced)), p.aggregate.enhancedScore)
    && Close(p.aggregate.legacyGain, Difference(baseline, enhanced))
    && Close(p.aggregate.directionalGain, interval.mean) && CloseInterval(p.uncertainty, interval)
    && interval.mean == Gain(policy.direction, baseline, enhanced)
    && interval.pairs == |baseline|
    && IsMargin(policy.student, PairGains(policy.direction, baseline, enhanced), interval.mean - interval.lower)
    && interval.upper - interval.mean == interval.mean - interval.lower
  }

  lemma RowsCompared(policy: Policy, p: Package, baseline: seq<Row>, enhanced: seq<Row>)
    requires CheckEvaluation(policy, p) && Lawful(policy.student) && |baseline| == |enhanced| > 0
    requires baseline == ArmByFold(p.metrics, "baseline") && enhanced == ArmByFold(p.metrics, "enhanced")
    ensures exists interval :: Compared(policy, p, baseline, enhanced, interval)
  {
    hide ArmByFold, Close, CloseInterval, IntervalOf, IsMargin, Mean, PairGains, Scaled, CheckPreprocessing, Lawful;
    var gains := PairGains(policy.direction, baseline, enhanced);
    var raw := Differences(RowScores(enhanced), RowScores(baseline));
    GainsArePairs(policy.direction, baseline, enhanced);
    PairGainsAt(policy.direction, baseline, enhanced);
    MeanOfGains(policy.direction, baseline, enhanced, gains);
    assert forall i :: 0 <= i < |raw| ==> raw[i] == 1.0 * (enhanced[i].score - baseline[i].score);
    MeanOfGains(1.0, baseline, enhanced, raw);
    IntervalMeans(policy.student, gains);
    var interval := IntervalOf(policy.student, gains);
    assert Mean(raw) == Difference(baseline, enhanced);
    assert Close(p.aggregate.legacyGain, Mean(raw));
    assert Close(p.aggregate.directionalGain, interval.mean);
    assert interval.mean == Gain(policy.direction, baseline, enhanced);
    assert IsMargin(policy.student, gains, interval.mean - interval.lower);
    assert Compared(policy, p, baseline, enhanced, IntervalOf(policy.student, gains));
  }

  lemma PairGainsAt(direction: real, baseline: seq<Row>, enhanced: seq<Row>)
    requires |baseline| == |enhanced|
    ensures forall i :: 0 <= i < |baseline| ==> PairGains(direction, baseline, enhanced)[i] == direction * (enhanced[i].score - baseline[i].score)
  {
  }

  lemma WithinSymmetric(a: real, b: real)
    ensures Within(a, b) <==> Within(b, a)
  {
  }

  lemma NumbersAccepted(policy: Policy, p: Package, baseline: seq<Row>, enhanced: seq<Row>)
    requires CheckEvaluation(policy, p) && Lawful(policy.student) && |baseline| == |enhanced| > 0
    requires baseline == ArmByFold(p.metrics, "baseline") && enhanced == ArmByFold(p.metrics, "enhanced")
    ensures Evaluated(policy, p, baseline, enhanced)
  {
    hide *;
    RowsCompared(policy, p, baseline, enhanced);
    var interval :| Compared(policy, p, baseline, enhanced, interval);
    ComparedMeans(policy, p, baseline, enhanced, interval);
  }

  lemma CloseEither(a: real, b: real)
    requires Close(a, b)
    ensures Within(a, b) && Within(b, a)
  {
    CloseMeans(a, b);
    WithinSymmetric(a, b);
  }

  lemma ComparedMeans(policy: Policy, p: Package, baseline: seq<Row>, enhanced: seq<Row>, interval: Interval)
    requires |baseline| == |enhanced| > 0 && Compared(policy, p, baseline, enhanced, interval)
    ensures Evaluated(policy, p, baseline, enhanced)
  {
    hide Close, Within, IsMargin, Mean, PairGains, RowScores, Difference, Gain;
    var margin := interval.mean - interval.lower;
    CloseEither(Mean(RowScores(baseline)), p.aggregate.baselineScore);
    CloseEither(Mean(RowScores(enhanced)), p.aggregate.enhancedScore);
    CloseEither(p.aggregate.legacyGain, Difference(baseline, enhanced));
    CloseEither(p.aggregate.directionalGain, interval.mean);
    CloseEither(p.uncertainty.mean, interval.mean);
    CloseEither(p.uncertainty.lower, interval.lower);
    CloseEither(p.uncertainty.upper, interval.upper);
    assert interval.lower == interval.mean - margin && interval.upper == interval.mean + margin;
    assert IsMargin(policy.student, PairGains(policy.direction, baseline, enhanced), margin);
  }
}
