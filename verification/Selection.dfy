/** Greedy forward selection of candidate features on discovery folds. */
module Selection {
  import opened Prelude
  import opened Ordering

  // ---- finite sets of folds in order -------------------------------------------

  predicate Least(m: nat, s: set<nat>) {
    m in s && forall x | x in s :: m <= x
  }

  lemma {:induction false} LeastExists(s: set<nat>)
    requires s != {}
    ensures exists m :: Least(m, s)
  {
    var m :| m in s;
    var rest := s - {m};
    if rest == {} {
      assert s == {m};
      assert Least(m, s);
    } else {
      LeastExists(rest);
      var least :| Least(least, rest);
      assert s == rest + {m};
      assert Least(if least < m then least else m, s);
    }
  }

  /** `sorted(folds)` */
  function Sorted(s: set<nat>): (r: seq<nat>)
    ensures |r| == |s|
    ensures forall f :: f in r <==> f in s
  {
    if s == {} then []
    else
      LeastExists(s);
      var m :| Least(m, s);
      [m] + Sorted(s - {m})
  }

  lemma {:induction false} SortedAscends(s: set<nat>)
    ensures forall i, j :: 0 <= i < j < |Sorted(s)| ==> Sorted(s)[i] < Sorted(s)[j]
  {
    if s != {} {
      LeastExists(s);
      var m :| Least(m, s) && Sorted(s) == [m] + Sorted(s - {m});
      SortedAscends(s - {m});
      hide Sorted;
      LeastInFront(m, Sorted(s - {m}));
    }
  }

  lemma LeastInFront(m: nat, rest: seq<nat>)
    requires forall i, j :: 0 <= i < j < |rest| ==> rest[i] < rest[j]
    requires forall f :: f in rest ==> m < f
    ensures var all := [m] + rest; forall i, j :: 0 <= i < j < |all| ==> all[i] < all[j]
  {
    var all := [m] + rest;
    forall i, j | 0 <= i < j < |all| ensures all[i] < all[j] {
      assert rest[j - 1] in rest;
    }
  }

  // ---- scores and gains -----------------------------------------------------------

  function Sum(xs: seq<real>): real {
    if xs == [] then 0.0 else xs[0] + Sum(xs[1..])
  }

  function Mean(xs: seq<real>): real
    requires xs != []
  {
    Sum(xs) / |xs| as real
  }

  /** The discovery folds, and the score of the Silver columns with some features on each of them. */
  datatype Study = Study(folds: set<nat>, score: (seq<string>, nat) -> real)

  function Scores(study: Study, features: seq<string>): (r: map<nat, real>)
    ensures r.Keys == study.folds
  {
    map f | f in study.folds :: study.score(features, f)
  }

  /** Student's t critical value by degrees of freedom, the square root, and `1 / sqrt(n)`. */
  datatype Student = Student(critical: nat -> real, root: real -> real, inverseRoot: nat -> real)

  datatype Policy = Policy(
    direction: real,
    minimumPracticalGain: real,
    requirePositiveLowerBound: bool,
    maxSelected: Option<nat>,
    student: Student)

  /** `direction * (after[f] - before[f])` over the sorted folds of `before` */
  function Deltas(direction: real, before: map<nat, real>, after: map<nat, real>): (r: seq<real>)
    requires before.Keys <= after.Keys
    ensures |r| == |before.Keys|
  {
    var folds := Sorted(before.Keys);
    seq(|folds|, i requires 0 <= i < |folds| => assert folds[i] in folds; direction * (after[folds[i]] - before[folds[i]]))
  }

  function Squares(xs: seq<real>, mean: real): seq<real> {
    seq(|xs|, i requires 0 <= i < |xs| => (xs[i] - mean) * (xs[i] - mean))
  }

  /** `deltas.std(ddof=1)` */
  function Deviation(student: Student, xs: seq<real>): real
    requires |xs| >= 2
  {
    student.root(Sum(Squares(xs, Mean(xs))) / (|xs| - 1) as real)
  }

  /** `_directional_lower_bound`; None stands for minus infinity. */
  function LowerBound(student: Student, deltas: seq<real>): Option<real> {
    if |deltas| < 2 then None
    else Some(Mean(deltas) - student.critical(|deltas| - 1) * (Deviation(student, deltas) * student.inverseRoot(|deltas|)))
  }

  datatype Entry = Entry(feature: string, gain: real, lowerBound: Option<real>)

  function EntryOf(study: Study, policy: Policy, selected: seq<string>, name: string): Entry
    requires study.folds != {}
  {
    var deltas := Deltas(policy.direction, Scores(study, selected), Scores(study, selected + [name]));
    Entry(name, Mean(deltas), LowerBound(policy.student, deltas))
  }

  predicate Qualifies(policy: Policy, entry: Entry) {
    && entry.gain >= policy.minimumPracticalGain
    && (policy.requirePositiveLowerBound ==> entry.lowerBound.Some? && entry.lowerBound.value > 0.0)
  }

  /** The ranking key `(-gain, feature)` */
  predicate RankLeq(a: Entry, b: Entry) {
    a.gain > b.gain || (a.gain == b.gain && StrLeq(a.feature, b.feature))
  }

  // ---- the greedy loop --------------------------------------------------------------

  datatype Step = Step(selectedBefore: seq<string>, ranking: seq<Entry>, chosen: Option<string>, foldScores: map<nat, real>)

  function Scored(study: Study, policy: Policy, selected: seq<string>, remaining: seq<string>): (r: seq<Entry>)
    requires study.folds != {}
    ensures |r| == |remaining| && forall i :: 0 <= i < |r| ==> r[i] == EntryOf(study, policy, selected, remaining[i])
  {
    seq(|remaining|, i requires 0 <= i < |remaining| => EntryOf(study, policy, selected, remaining[i]))
  }

  function Elected(policy: Policy, ranking: seq<Entry>): (r: Option<string>)
    ensures r.Some? ==> exists i :: 0 <= i < |ranking| && ranking[i].feature == r.value && Qualifies(policy, ranking[i])
                                 && forall j :: 0 <= j < i ==> !Qualifies(policy, ranking[j])
    ensures r.None? ==> forall i :: 0 <= i < |ranking| ==> !Qualifies(policy, ranking[i])
  {
    if ranking == [] then None
    else if Qualifies(policy, ranking[0]) then Some(ranking[0].feature)
    else
      var r := Elected(policy, ranking[1..]);
      assert r.Some? ==> exists i :: 0 <= i < |ranking| && ranking[i].feature == r.value && Qualifies(policy, ranking[i])
                                   && forall j :: 0 <= j < i ==> !Qualifies(policy, ranking[j]) by {
        if r.Some? {
          var i :| 0 <= i < |ranking| - 1 && ranking[1..][i].feature == r.value && Qualifies(policy, ranking[1..][i])
                   && forall j :: 0 <= j < i ==> !Qualifies(policy, ranking[1..][j]);
          assert ranking[i + 1] == ranking[1..][i];
          assert forall j :: 0 < j < i + 1 ==> ranking[j] == ranking[1..][j - 1];
        }
      }
      r
  }

  /** `remaining.remove(name)` */
  function Remove(names: seq<string>, name: string): (r: seq<string>)
    ensures |r| == if name in names then |names| - 1 else |names|
    ensures multiset(r) == multiset(names) - multiset{name}
  {
    if names == [] then []
    else
      assert names == [names[0]] + names[1..];
      if names[0] == name then names[1..] else [names[0]] + Remove(names[1..], name)
  }

  predicate Full(policy: Policy, count: nat) {
    policy.maxSelected.Some? && count >= policy.maxSelected.value
  }

  function RankingOf(study: Study, policy: Policy, remaining: seq<string>, selected: seq<string>): seq<Entry>
    requires study.folds != {}
  {
    SortBy(Scored(study, policy, selected, remaining), RankLeq)
  }

  /** What the loop of `_greedy_forward_selection` records from some state on. */
  function Greedy(study: Study, policy: Policy, remaining: seq<string>, selected: seq<string>): seq<Step>
    requires study.folds != {}
    decreases |remaining|
  {
    if Full(policy, |selected|) || remaining == [] then []
    else
      var ranking := RankingOf(study, policy, remaining, selected);
      match Elected(policy, ranking)
      case None => [Step(selected, ranking, None, map[])]
      case Some(name) =>
        ElectedRemains(study, policy, remaining, selected);
        [Step(selected, ranking, Some(name), Scores(study, selected + [name]))] +
        Greedy(study, policy, Remove(remaining, name), selected + [name])
  }

  lemma ScoredNames(study: Study, policy: Policy, selected: seq<string>, names: seq<string>, e: Entry)
    requires study.folds != {}
    ensures e in Scored(study, policy, selected, names) <==>
            e.feature in names && e == EntryOf(study, policy, selected, e.feature)
  {
    var scored := Scored(study, policy, selected, names);
    if e in scored {
      var i :| 0 <= i < |scored| && scored[i] == e;
      EntryNamed(study, policy, selected, names[i]);
    }
    if e.feature in names && e == EntryOf(study, policy, selected, e.feature) {
      var i :| 0 <= i < |names| && names[i] == e.feature;
      assert scored[i] == e;
    }
  }

  lemma SortedHolds<T>(xs: seq<T>, leq: (T, T) -> bool, x: T)
    ensures x in SortBy(xs, leq) <==> x in xs
  {
    assert x in multiset(SortBy(xs, leq)) <==> x in multiset(xs);
  }

  /** The ranking holds exactly one entry's worth for each remaining name. */
  lemma RankedNames(study: Study, policy: Policy, remaining: seq<string>, selected: seq<string>, e: Entry)
    requires study.folds != {}
    ensures e in RankingOf(study, policy, remaining, selected) <==>
            e.feature in remaining && e == EntryOf(study, policy, selected, e.feature)
  {
    SortedHolds(Scored(study, policy, selected, remaining), RankLeq, e);
    hide EntryOf;
    ScoredNames(study, policy, selected, remaining, e);
  }

  lemma EntryNamed(study: Study, policy: Policy, selected: seq<string>, name: string)
    requires study.folds != {}
    ensures EntryOf(study, policy, selected, name).feature == name
  {
  }

  lemma ElectedRemains(study: Study, policy: Policy, remaining: seq<string>, selected: seq<string>)
    requires study.folds != {}
    ensures var e := Elected(policy, RankingOf(study, policy, remaining, selected)); e.Some? ==> e.value in remaining
  {
    hide RankingOf, EntryOf, Qualifies, Elected;
    var ranking := RankingOf(study, policy, remaining, selected);
    if Elected(policy, ranking).Some? {
      var i :| 0 <= i < |ranking| && ranking[i].feature == Elected(policy, ranking).value;
      assert ranking[i] in ranking;
      RankedNames(study, policy, remaining, selected, ranking[i]);
    }
  }

  function Chosen(steps: seq<Step>): seq<string> {
    if steps == [] then []
    else if steps[0].chosen.Some? then [steps[0].chosen.value] + Chosen(steps[1..])
    else Chosen(steps[1..])
  }

  /** One evaluated arm: its label is decided by the features it puts beside the Silver columns. */
  type Arm = seq<string>

  /** The arms a step evaluates anew: none in the first step, which reuses the candidate arms. */
  function StepArms(selected: seq<string>, remaining: seq<string>): (r: seq<Arm>)
    ensures forall a :: a in r ==> selected != [] && exists n :: n in remaining && a == selected + [n]
    ensures selected != [] ==> |r| == |remaining| && forall i :: 0 <= i < |r| ==> r[i] == selected + [remaining[i]]
  {
    if selected == [] then [] else seq(|remaining|, i requires 0 <= i < |remaining| => selected + [remaining[i]])
  }

  function GreedyArms(study: Study, policy: Policy, remaining: seq<string>, selected: seq<string>): seq<Arm>
    requires study.folds != {}
    decreases |remaining|
  {
    if Full(policy, |selected|) || remaining == [] then []
    else
      match Elected(policy, RankingOf(study, policy, remaining, selected))
      case None => StepArms(selected, remaining)
      case Some(name) =>
        ElectedRemains(study, policy, remaining, selected);
        StepArms(selected, remaining) + GreedyArms(study, policy, Remove(remaining, name), selected + [name])
  }

  method ElectLoop(policy: Policy, ranking: seq<Entry>) returns (chosen: Option<string>)
    ensures chosen == Elected(policy, ranking)
  {
    for i := 0 to |ranking|
      invariant Elected(policy, ranking) == Elected(policy, ranking[i..])
    {
      assert ranking[i..][0] == ranking[i] && ranking[i..][1..] == ranking[i + 1..];
      if ranking[i].gain < policy.minimumPracticalGain {
        continue;
      }
      if policy.requirePositiveLowerBound && !(ranking[i].lowerBound.Some? && ranking[i].lowerBound.value > 0.0) {
        continue;
      }
      return Some(ranking[i].feature);
    }
    return None;
  }

  method ScoreRemaining(study: Study, policy: Policy, remaining: seq<string>, selected: seq<string>, current: map<nat, real>)
    returns (ranked: seq<Entry>, arms: seq<Arm>)
    requires study.folds != {} && current == Scores(study, selected)
    ensures ranked == Scored(study, policy, selected, remaining) && arms == StepArms(selected, remaining)
  {
    ranked, arms := [], [];
    hide LowerBound, Mean, Deltas, Scores;
    for i := 0 to |remaining|
      invariant |ranked| == i && forall j :: 0 <= j < i ==> ranked[j] == EntryOf(study, policy, selected, remaining[j])
      invariant |arms| == if selected == [] then 0 else i
      invariant selected != [] ==> forall j :: 0 <= j < i ==> arms[j] == selected + [remaining[j]]
    {
      if selected != [] {
        arms := arms + [selected + [remaining[i]]];
      }
      var deltas := Deltas(policy.direction, current, Scores(study, selected + [remaining[i]]));
      ranked := ranked + [Entry(remaining[i], Mean(deltas), LowerBound(policy.student, deltas))];
    }
  }

  /** `_greedy_forward_selection` */
  method GreedyForwardSelection(study: Study, policy: Policy, names: seq<string>)
    returns (selected: seq<string>, steps: seq<Step>, arms: seq<Arm>)
    requires study.folds != {}
    ensures steps == Greedy(study, policy, SortBy(names, StrLeq), [])
    ensures selected == Chosen(steps)
    ensures arms == GreedyArms(study, policy, SortBy(names, StrLeq), [])
  {
    hide EntryOf, Scored, Elected, StepArms, Scores, Remove;
    var remaining := SortBy(names, StrLeq);
    var current := Scores(study, []);
    selected, steps, arms := [], [], [];
    ghost var all, allArms := Greedy(study, policy, remaining, []), GreedyArms(study, policy, remaining, []);
    while true
      invariant current == Scores(study, selected) && selected == Chosen(steps)
      invariant all == steps + Greedy(study, policy, remaining, selected)
      invariant allArms == arms + GreedyArms(study, policy, remaining, selected)
      decreases |remaining|
    {
      if policy.maxSelected.Some? && |selected| >= policy.maxSelected.value {
        break;
      }
      if remaining == [] {
        break;
      }
      var ranked, more := ScoreRemaining(study, policy, remaining, selected, current);
      var ranking := SortBy(ranked, RankLeq);
      var chosen := ElectLoop(policy, ranking);
      ElectedRemains(study, policy, remaining, selected);
      if chosen.None? {
        ChosenOneMore(steps, Step(selected, ranking, None, map[]));
        steps := steps + [Step(selected, ranking, None, map[])];
        arms := arms + more;
        return;
      }
      current := Scores(study, selected + [chosen.value]);
      var step := Step(selected, ranking, chosen, current);
      var rest := Remove(remaining, chosen.value);
      ChosenOneMore(steps, step);
      Regroup(steps, [step], Greedy(study, policy, rest, selected + [chosen.value]));
      Regroup(arms, more, GreedyArms(study, policy, rest, selected + [chosen.value]));
      steps := steps + [step];
      arms := arms + more;
      remaining := rest;
      selected := selected + [chosen.value];
    }
  }

  lemma {:induction false} ChosenOneMore(steps: seq<Step>, s: Step)
    ensures Chosen(steps + [s]) == Chosen(steps) + if s.chosen.Some? then [s.chosen.value] else []
  {
    if steps != [] {
      assert (steps + [s])[1..] == steps[1..] + [s];
      ChosenOneMore(steps[1..], s);
    }
  }

  // ---- what the greedy loop elects -------------------------------------------------------

  lemma RankLeqIsTotalPreorder()
    ensures TotalPreorder(RankLeq)
  {
    StrIsTotalPreorder();
    forall a: Entry, b: Entry ensures RankLeq(a, b) || RankLeq(b, a) {
      assert StrLeq(a.feature, b.feature) || StrLeq(b.feature, a.feature);
    }
    forall a: Entry, b: Entry, c: Entry | RankLeq(a, b) && RankLeq(b, c) ensures RankLeq(a, c) {
      if a.gain == c.gain { assert StrLeq(a.feature, b.feature) && StrLeq(b.feature, c.feature); }
    }
  }

  /** One step of the selection: it ranks exactly the features that are left, each with its own gain
      over what is selected already, and elects a feature that meets the policy such that any other
      feature that meets it has a smaller gain, or an equal gain and a later name; it elects none
      only when no feature meets the policy. */
  ghost predicate StepRight(study: Study, policy: Policy, names: seq<string>, before: seq<string>, step: Step)
    requires study.folds != {}
  {
    && step.selectedBefore == before
    && Ordered(step.ranking, RankLeq)
    && (forall e :: e in step.ranking <==>
          e.feature in names && e.feature !in before && e == EntryOf(study, policy, before, e.feature))
    && (step.chosen.None? ==> step.foldScores == map[] && NoneQualifies(policy, step.ranking))
    && (step.chosen.Some? ==> step.foldScores == Scores(study, before + [step.chosen.value]))
    && (step.chosen.Some? ==> BestOf(study, policy, before, step))
  }

  ghost predicate NoneQualifies(policy: Policy, ranking: seq<Entry>) {
    forall e :: e in ranking ==> !Qualifies(policy, e)
  }

  ghost predicate BestOf(study: Study, policy: Policy, before: seq<string>, step: Step)
    requires study.folds != {} && step.chosen.Some?
  {
    var best := EntryOf(study, policy, before, step.chosen.value);
    && best in step.ranking && Qualifies(policy, best)
    && forall e :: e in step.ranking && Qualifies(policy, e) ==> RankLeq(best, e)
  }

  lemma ElectedIsBest(policy: Policy, ranking: seq<Entry>)
    requires Ordered(ranking, RankLeq)
    ensures var c := Elected(policy, ranking);
            c.Some? ==> exists best :: best in ranking && best.feature == c.value && Qualifies(policy, best)
                                       && forall e :: e in ranking && Qualifies(policy, e) ==> RankLeq(best, e)
  {
    RankLeqIsTotalPreorder();
    hide Elected, Qualifies, RankLeq;
    var c := Elected(policy, ranking);
    if c.Some? {
      var i :| 0 <= i < |ranking| && ranking[i].feature == c.value && Qualifies(policy, ranking[i])
               && forall j :: 0 <= j < i ==> !Qualifies(policy, ranking[j]);
      forall e | e in ranking && Qualifies(policy, e) ensures RankLeq(ranking[i], e) {
        var k :| 0 <= k < |ranking| && ranking[k] == e;
        assert k == i || k > i;
      }
      assert ranking[i] in ranking;
    }
  }

  /** The step recorded in a state where `remaining` is what `before` left of `names`. */
  lemma FirstStepRight(study: Study, policy: Policy, names: seq<string>, remaining: seq<string>, before: seq<string>)
    requires study.folds != {} && !Full(policy, |before|) && remaining != []
    requires forall x :: x in remaining <==> x in names && x !in before
    ensures StepRight(study, policy, names, before, Greedy(study, policy, remaining, before)[0])
  {
    var step := Greedy(study, policy, remaining, before)[0];
    var ranking := RankingOf(study, policy, remaining, before);
    assert step.ranking == ranking && step.selectedBefore == before && step.chosen == Elected(policy, ranking);
    assert step.foldScores == if step.chosen.Some? then Scores(study, before + [step.chosen.value]) else map[];
    RankLeqIsTotalPreorder();
    SortOrders(Scored(study, policy, before, remaining), RankLeq);
    hide Greedy, RankingOf, EntryOf, Qualifies, RankLeq, Scores, Elected, Ordered, BestOf, NoneQualifies, Full;
    forall e ensures e in ranking <==>
      e.feature in names && e.feature !in before && e == EntryOf(study, policy, before, e.feature)
    {
      RankedNames(study, policy, remaining, before, e);
    }
    FirstStepElects(study, policy, remaining, before, step);
  }

  lemma FirstStepElects(study: Study, policy: Policy, remaining: seq<string>, before: seq<string>, step: Step)
    requires study.folds != {} && step.ranking == RankingOf(study, policy, remaining, before)
    requires Ordered(step.ranking, RankLeq) && step.chosen == Elected(policy, step.ranking)
    ensures step.chosen.Some? ==> BestOf(study, policy, before, step)
    ensures step.chosen.None? ==> NoneQualifies(policy, step.ranking)
  {
    ElectedIsBest(policy, step.ranking);
    hide RankingOf, EntryOf, Qualifies, RankLeq, Elected, Ordered;
    if step.chosen.None? {
      forall e | e in step.ranking ensures !Qualifies(policy, e) {
        var i :| 0 <= i < |step.ranking| && step.ranking[i] == e;
      }
    } else {
      var best :| best in step.ranking && best.feature == step.chosen.value && Qualifies(policy, best)
                  && forall e :: e in step.ranking && Qualifies(policy, e) ==> RankLeq(best, e);
      RankedNames(study, policy, remaining, before, best);
    }
  }

  lemma {:induction false} RemoveDistinct(names: seq<string>, name: string)
    requires Distinct(names)
    ensures Distinct(Remove(names, name)) && forall x :: x in Remove(names, name) <==> x in names && x != name
  {
    if names != [] {
      assert names == [names[0]] + names[1..];
      DistinctCons(names[0], names[1..]);
      RemoveDistinct(names[1..], name);
      DistinctCons(names[0], Remove(names[1..], name));
    }
  }

  /** A run of steps: each is right, elects a feature that the next starts with, and only the last
      may elect none. */
  ghost predicate StepsRight(study: Study, policy: Policy, names: seq<string>, before: seq<string>, steps: seq<Step>)
    requires study.folds != {}
    decreases |steps|
  {
    steps == [] ||
    (&& !Full(policy, |before|) && StepRight(study, policy, names, before, steps[0])
     && (steps[0].chosen.None? ==> |steps| == 1)
     && (steps[0].chosen.Some? ==> StepsRight(study, policy, names, before + [steps[0].chosen.value], steps[1..])))
  }

  /** Every step that selection records is right. */
  lemma {:induction false} GreedySteps(study: Study, policy: Policy, names: seq<string>, remaining: seq<string>, before: seq<string>)
    requires study.folds != {} && Distinct(remaining)
    requires forall x :: x in remaining <==> x in names && x !in before
    ensures StepsRight(study, policy, names, before, Greedy(study, policy, remaining, before))
    decreases |remaining|
  {
    var steps := Greedy(study, policy, remaining, before);
    if steps != [] {
      FirstStepRight(study, policy, names, remaining, before);
      ElectedRemains(study, policy, remaining, before);
      var c := Elected(policy, RankingOf(study, policy, remaining, before));
      if c.Some? {
        var rest, after := Remove(remaining, c.value), before + [c.value];
        RemoveDistinct(remaining, c.value);
        assert steps[1..] == Greedy(study, policy, rest, after) && steps[0].chosen == c;
        hide Greedy, RankingOf, StepRight, Elected, Remove;
        GreedySteps(study, policy, names, rest, after);
      }
    }
  }

  /** A run of right steps elects distinct features, within the limit. */
  lemma {:induction false} RunElects(study: Study, policy: Policy, names: seq<string>, before: seq<string>, steps: seq<Step>)
    requires study.folds != {} && StepsRight(study, policy, names, before, steps) && Distinct(before)
    ensures Distinct(before + Chosen(steps)) && forall x :: x in Chosen(steps) ==> x in names
    ensures policy.maxSelected.Some? && |before| <= policy.maxSelected.value ==> |before + Chosen(steps)| <= policy.maxSelected.value
    ensures |Chosen(steps)| <= |steps| <= |Chosen(steps)| + 1
    decreases |steps|
  {
    hide StepRight, Full, Distinct;
    if steps == [] || steps[0].chosen.None? {
      assert Chosen(steps) == [] by { if steps != [] { assert |steps[1..]| == 0; } }
      assert before + Chosen(steps) == before;
    } else {
      var name := steps[0].chosen.value;
      ElectedFrom(study, policy, names, before, steps[0]);
      DistinctAfter(before, name);
      NotFull(policy, before);
      RunElects(study, policy, names, before + [name], steps[1..]);
      assert before + Chosen(steps) == before + [name] + Chosen(steps[1..]);
    }
  }

  lemma NotFull(policy: Policy, before: seq<string>)
    ensures !Full(policy, |before|) && policy.maxSelected.Some? ==> |before| + 1 <= policy.maxSelected.value
  {
  }

  lemma ElectedFrom(study: Study, policy: Policy, names: seq<string>, before: seq<string>, step: Step)
    requires study.folds != {} && StepRight(study, policy, names, before, step) && step.chosen.Some?
    ensures step.chosen.value in names && step.chosen.value !in before
    ensures EntryOf(study, policy, before, step.chosen.value).gain >= policy.minimumPracticalGain
  {
    EntryNamed(study, policy, before, step.chosen.value);
    hide EntryOf, Ordered;
  }

  lemma DistinctAfter(before: seq<string>, name: string)
    requires Distinct(before) && name !in before
    ensures Distinct(before + [name])
  {
  }

  /** The step at an index starts from the features chosen before it. */
  lemma {:induction false} StepAt(study: Study, policy: Policy, names: seq<string>, before: seq<string>, steps: seq<Step>, i: nat)
    requires study.folds != {} && StepsRight(study, policy, names, before, steps) && i < |steps|
    ensures i <= |Chosen(steps)| && !Full(policy, |before| + i)
    ensures StepRight(study, policy, names, before + Chosen(steps)[..i], steps[i])
    ensures steps[i].chosen == if i < |Chosen(steps)| then Some(Chosen(steps)[i]) else None
    decreases |steps|
  {
    hide StepRight, Full;
    assert before + Chosen(steps)[..0] == before;
    if steps[0].chosen.None? {
      assert |steps[1..]| == 0;
    } else if i > 0 {
      var name := steps[0].chosen.value;
      StepAt(study, policy, names, before + [name], steps[1..], i - 1);
      assert before + [name] + Chosen(steps[1..])[..i - 1] == before + Chosen(steps)[..i];
    }
  }

  // ---- what the numbers of an entry mean ---------------------------------------------------

  lemma {:induction false} SumScaled(xs: seq<real>, ys: seq<real>, zs: seq<real>, factor: real)
    requires |xs| == |ys| == |zs| && forall i :: 0 <= i < |xs| ==> zs[i] == factor * (ys[i] - xs[i])
    ensures Sum(zs) == factor * (Sum(ys) - Sum(xs))
  {
    if xs != [] { SumScaled(xs[1..], ys[1..], zs[1..], factor); }
  }

  /** The scores in the order of the folds. */
  function InFoldOrder(scores: map<nat, real>): (r: seq<real>)
    ensures |r| == |scores.Keys|
  {
    var folds := Sorted(scores.Keys);
    seq(|folds|, i requires 0 <= i < |folds| => assert folds[i] in folds; scores[folds[i]])
  }

  lemma DeltasAt(direction: real, before: map<nat, real>, after: map<nat, real>)
    requires before.Keys == after.Keys
    ensures forall i :: 0 <= i < |before.Keys| ==>
      Deltas(direction, before, after)[i] == direction * (InFoldOrder(after)[i] - InFoldOrder(before)[i])
  {
  }

  lemma MeanIs(xs: seq<real>)
    requires xs != []
    ensures Mean(xs) == Sum(xs) / |xs| as real
  {
  }

  /** A gain is the difference of the mean scores, in the direction of the metric. */
  lemma GainMeans(direction: real, before: map<nat, real>, after: map<nat, real>)
    requires before.Keys == after.Keys != {}
    ensures Mean(Deltas(direction, before, after)) == direction * (Mean(InFoldOrder(after)) - Mean(InFoldOrder(before)))
  {
    hide *;
    var deltas, a, b := Deltas(direction, before, after), InFoldOrder(after), InFoldOrder(before);
    DeltasAt(direction, before, after);
    SumScaled(b, a, deltas, direction);
    MeanIs(deltas);
    MeanIs(a);
    MeanIs(b);
    Scale(direction, Sum(a), Sum(b), |deltas| as real);
  }

  lemma Scale(factor: real, a: real, b: real, n: real)
    requires n != 0.0
    ensures factor * (a - b) / n == factor * (a / n - b / n)
  {
  }

  /** What is known of the statistics: a critical value is not negative, and roots are roots. */
  ghost predicate Lawful(student: Student) {
    && (forall n :: student.critical(n) >= 0.0)
    && (forall x :: x >= 0.0 ==> student.root(x) >= 0.0 && student.root(x) * student.root(x) == x)
    && (forall n: nat :: n > 0 ==> student.inverseRoot(n) >= 0.0 && student.inverseRoot(n) * student.inverseRoot(n) * n as real == 1.0)
  }

  lemma {:induction false} SumOfSquares(xs: seq<real>)
    requires forall i :: 0 <= i < |xs| ==> xs[i] >= 0.0
    ensures Sum(xs) >= 0.0
  {
    if xs != [] { SumOfSquares(xs[1..]); }
  }

  lemma SquareIsNotNegative(x: real)
    ensures x * x >= 0.0
  {
  }

  /** The sum of the squared deviations from the mean. */
  function Spread(xs: seq<real>): (r: real)
    requires xs != []
    ensures r >= 0.0
  {
    var mean := Mean(xs);
    var squares := seq(|xs|, i requires 0 <= i < |xs| => (xs[i] - mean) * (xs[i] - mean));
    assert forall i :: 0 <= i < |squares| ==> squares[i] >= 0.0 by {
      forall i | 0 <= i < |squares| ensures squares[i] >= 0.0 { SquareIsNotNegative(xs[i] - mean); }
    }
    SumOfSquares(squares);
    Sum(squares)
  }

  lemma ProductSquared(c: real, d: real, r: real)
    ensures (c * (d * r)) * (c * (d * r)) == (c * c) * ((d * d) * (r * r))
  {
    var m := d * r;
    assert m * m == (d * d) * (r * r);
    assert (c * m) * (c * m) == (c * c) * (m * m);
  }

  lemma Cleared(n: real, v: real, u: real, spread: real)
    requires n > 1.0 && v * (n - 1.0) == spread && u * n == 1.0
    ensures n * (n - 1.0) * (v * u) == spread
  {
    var w := v * u;
    assert n * (n - 1.0) * w == (v * (n - 1.0)) * (u * n);
  }

  lemma Quotient(spread: real, n: real)
    requires n != 0.0
    ensures (spread / n) * n == spread
  {
  }

  lemma Fold3(a: real, b: real, c: real)
    ensures a * (b * c) == b * (a * c)
  {
  }

  /** The deviation is not negative, and its square times one less than the number of values is their spread. */
  lemma DeviationMeans(student: Student, deltas: seq<real>)
    requires Lawful(student) && |deltas| >= 2
    ensures var d := Deviation(student, deltas);
            d >= 0.0 && (d * d) * (|deltas| as real - 1.0) == Spread(deltas)
  {
    var n := |deltas| as real - 1.0;
    SpreadIs(deltas);
    var v := Spread(deltas) / n;
    Quotient(Spread(deltas), n);
    QuotientNotNegative(Spread(deltas), n);
    assert Deviation(student, deltas) == student.root(v);
    hide Deviation, Spread, Sum, Mean, Squares;
  }

  lemma SpreadIs(xs: seq<real>)
    requires xs != []
    ensures Sum(Squares(xs, Mean(xs))) == Spread(xs)
  {
    var mean := Mean(xs);
    assert Squares(xs, mean) == seq(|xs|, i requires 0 <= i < |xs| => (xs[i] - mean) * (xs[i] - mean));
  }

  lemma QuotientNotNegative(a: real, n: real)
    requires a >= 0.0 && n > 0.0
    ensures a / n >= 0.0
  {
  }

  lemma MarginSquared(c: real, d: real, r: real, n: real, spread: real)
    requires n > 1.0 && (d * d) * (n - 1.0) == spread && r * r * n == 1.0
    ensures n * (n - 1.0) * ((c * (d * r)) * (c * (d * r))) == c * c * spread
  {
    ProductSquared(c, d, r);
    Cleared(n, d * d, r * r, spread);
    Fold3(n * (n - 1.0), c * c, (d * d) * (r * r));
  }

  /** The margin below the mean. */
  lemma MarginMeans(student: Student, deltas: seq<real>, margin: real)
    requires Lawful(student) && |deltas| >= 2
    requires margin == student.critical(|deltas| - 1) * (Deviation(student, deltas) * student.inverseRoot(|deltas|))
    ensures var n, c := |deltas| as real, student.critical(|deltas| - 1);
            margin >= 0.0 && n * (n - 1.0) * (margin * margin) == c * c * Spread(deltas)
  {
    DeviationMeans(student, deltas);
    var n, c := |deltas| as real, student.critical(|deltas| - 1);
    var d, r := Deviation(student, deltas), student.inverseRoot(|deltas|);
    assert c >= 0.0 && r >= 0.0 && r * r * n == 1.0;
    hide *;
    MarginSquared(c, d, r, n, Spread(deltas));
    NotNegative(d, r);
    NotNegative(c, d * r);
  }

  lemma NotNegative(a: real, b: real)
    requires a >= 0.0 && b >= 0.0
    ensures a * b >= 0.0
  {
  }

  /** The lower bound: there is one from two folds on, it is at most the mean, and its distance from
      the mean is the critical value times the standard error. */
  lemma BoundMeans(student: Student, deltas: seq<real>)
    requires Lawful(student) && deltas != []
    ensures LowerBound(student, deltas).Some? <==> |deltas| >= 2
    ensures |deltas| >= 2 ==>
      var n, c, below := |deltas| as real, student.critical(|deltas| - 1), Mean(deltas) - LowerBound(student, deltas).value;
      below >= 0.0 && n * (n - 1.0) * (below * below) == c * c * Spread(deltas)
  {
    if |deltas| >= 2 {
      var margin := student.critical(|deltas| - 1) * (Deviation(student, deltas) * student.inverseRoot(|deltas|));
      MarginMeans(student, deltas, margin);
      assert Mean(deltas) - LowerBound(student, deltas).value == margin;
    }
  }

  lemma SquareOrder(scale: real, a: real, b: real)
    requires scale > 0.0 && b >= 0.0
    ensures a > b <==> a > 0.0 && scale * (a * a) > scale * (b * b)
  {
    if a > b {
      Larger(a + b, 0.0, a - b);
      assert a * a - b * b == (a - b) * (a + b);
      Larger(scale, b * b, a * a);
    }
    if a > 0.0 && a <= b {
      assert (b - a) * (a + b) >= 0.0;
      assert b * b - a * a == (b - a) * (a + b);
      NotNegative(scale, b * b - a * a);
      assert scale * (b * b) - scale * (a * a) == scale * (b * b - a * a);
    }
  }

  lemma Larger(scale: real, a: real, b: real)
    requires scale > 0.0 && a < b
    ensures scale * a < scale * b
  {
  }

  /** The mean gain of a feature over what is selected already. */
  function GainOver(study: Study, policy: Policy, before: seq<string>, name: string): real
    requires study.folds != {}
  {
    Mean(Deltas(policy.direction, Scores(study, before), Scores(study, before + [name])))
  }

  /** Meeting the policy, in terms of the differences by fold: their mean reaches the practical minimum and,
      where a positive bound is required, there are two folds or more and the mean is positive and
      large enough against their spread. */
  ghost predicate MeetsBy(policy: Policy, deltas: seq<real>)
    requires deltas != []
  {
    && Mean(deltas) >= policy.minimumPracticalGain
    && (policy.requirePositiveLowerBound ==>
          && |deltas| >= 2 && Mean(deltas) > 0.0
          && var n, c := |deltas| as real, policy.student.critical(|deltas| - 1);
             n * (n - 1.0) * (Mean(deltas) * Mean(deltas)) > c * c * Spread(deltas))
  }

  ghost predicate Meets(study: Study, policy: Policy, before: seq<string>, name: string)
    requires study.folds != {}
  {
    MeetsBy(policy, Deltas(policy.direction, Scores(study, before), Scores(study, before + [name])))
  }

  lemma PositiveBound(student: Student, deltas: seq<real>)
    requires Lawful(student) && |deltas| >= 2
    ensures var n, c := |deltas| as real, student.critical(|deltas| - 1);
            LowerBound(student, deltas).value > 0.0 <==>
            Mean(deltas) > 0.0 && n * (n - 1.0) * (Mean(deltas) * Mean(deltas)) > c * c * Spread(deltas)
  {
    BoundMeans(student, deltas);
    var n, mean, bound := |deltas| as real, Mean(deltas), LowerBound(student, deltas).value;
    hide Mean, LowerBound, Spread, Lawful;
    Larger(n, 0.0, n - 1.0);
    SquareOrder(n * (n - 1.0), mean, mean - bound);
  }

  lemma QualifiesBy(policy: Policy, name: string, deltas: seq<real>)
    requires Lawful(policy.student) && deltas != []
    ensures Qualifies(policy, Entry(name, Mean(deltas), LowerBound(policy.student, deltas))) <==> MeetsBy(policy, deltas)
  {
    if |deltas| >= 2 { PositiveBound(policy.student, deltas); }
    BoundMeans(policy.student, deltas);
    hide Mean, Spread, Lawful, LowerBound;
  }

  lemma QualifiesMeans(study: Study, policy: Policy, before: seq<string>, name: string)
    requires study.folds != {} && Lawful(policy.student)
    ensures Qualifies(policy, EntryOf(study, policy, before, name)) <==> Meets(study, policy, before, name)
  {
    QualifiesBy(policy, name, Deltas(policy.direction, Scores(study, before), Scores(study, before + [name])));
    hide Deltas, Scores, Mean, Lawful, LowerBound, Qualifies, MeetsBy;
  }

  lemma ElectedHere(study: Study, policy: Policy, names: seq<string>, before: seq<string>, step: Step, name: string)
    requires study.folds != {} && StepRight(study, policy, names, before, step) && name in names && name !in before
    ensures var own := EntryOf(study, policy, before, name);
            step.chosen == Some(name) <==>
            && Qualifies(policy, own)
            && forall other :: other in names && other !in before && Qualifies(policy, EntryOf(study, policy, before, other)) ==>
                 RankLeq(own, EntryOf(study, policy, before, other))
  {
    var own := EntryOf(study, policy, before, name);
    forall other ensures EntryOf(study, policy, before, other).feature == other { EntryNamed(study, policy, before, other); }
    hide EntryOf, Qualifies, Ordered, Scores;
    assert own in step.ranking;
    if step.chosen.Some? {
      var best := EntryOf(study, policy, before, step.chosen.value);
      ElectedFrom(study, policy, names, before, step);
      if StrLeq(name, step.chosen.value) && StrLeq(step.chosen.value, name) { StrLeqAntisymmetric(name, step.chosen.value); }
    }
  }

  ghost predicate NotAhead(study: Study, policy: Policy, before: seq<string>, chosen: string, other: string)
    requires study.folds != {}
  {
    || GainOver(study, policy, before, chosen) > GainOver(study, policy, before, other)
    || (GainOver(study, policy, before, chosen) == GainOver(study, policy, before, other) && StrLeq(chosen, other))
  }

  /** A right step elects a feature exactly if it meets the policy and every other feature that is left
      and meets it has a smaller gain, or the same gain and a later name. */
  lemma ElectionMeans(study: Study, policy: Policy, names: seq<string>, before: seq<string>, step: Step, name: string)
    requires study.folds != {} && Lawful(policy.student) && StepRight(study, policy, names, before, step)
    requires name in names && name !in before
    ensures step.chosen == Some(name) <==>
            && Meets(study, policy, before, name)
            && forall other :: other in names && other !in before && Meets(study, policy, before, other) ==>
                 NotAhead(study, policy, before, name, other)
  {
    hide Meets, GainOver, StepRight, Qualifies, Lawful, StrLeq;
    forall other ensures Meets(study, policy, before, other) <==> Qualifies(policy, EntryOf(study, policy, before, other)) {
      QualifiesMeans(study, policy, before, other);
    }
    forall other ensures EntryOf(study, policy, before, other).feature == other
                         && EntryOf(study, policy, before, other).gain == GainOver(study, policy, before, other) {
      EntryGain(study, policy, before, other);
    }
    hide EntryOf;
    ElectedHere(study, policy, names, before, step, name);
  }

  lemma EntryGain(study: Study, policy: Policy, before: seq<string>, name: string)
    requires study.folds != {}
    ensures EntryOf(study, policy, before, name).feature == name
    ensures EntryOf(study, policy, before, name).gain == GainOver(study, policy, before, name)
  {
  }

  /** Selection goes on while the limit is not reached, features are left and one of them meets the policy. */
  lemma {:induction false} StopsLate(study: Study, policy: Policy, names: seq<string>, remaining: seq<string>, before: seq<string>, name: string)
    requires study.folds != {} && Distinct(remaining) && Lawful(policy.student)
    requires forall x :: x in remaining <==> x in names && x !in before
    ensures var selected := before + Chosen(Greedy(study, policy, remaining, before));
            (policy.maxSelected.None? || |selected| < policy.maxSelected.value) && name in names && name !in selected ==>
            !Meets(study, policy, selected, name)
    decreases |remaining|
  {
    hide *;
    GreedyStep(study, policy, remaining, before);
    if !Full(policy, |before|) && remaining != [] {
      ElectedRemains(study, policy, remaining, before);
      var c := Elected(policy, RankingOf(study, policy, remaining, before));
      if c.None? {
        assert before + [] == before;
        if name in remaining { NoneMeets(study, policy, remaining, before, name); }
      } else {
        var rest, after := Remove(remaining, c.value), before + [c.value];
        RemoveDistinct(remaining, c.value);
        StopsLate(study, policy, names, rest, after, name);
        assert before + ([c.value] + Chosen(Greedy(study, policy, rest, after))) == after + Chosen(Greedy(study, policy, rest, after));
      }
    } else {
      assert before + [] == before;
      LimitReached(policy, |before|);
    }
  }

  lemma LimitReached(policy: Policy, count: nat)
    ensures Full(policy, count) <==> policy.maxSelected.Some? && count >= policy.maxSelected.value
  {
  }

  lemma GreedyStep(study: Study, policy: Policy, remaining: seq<string>, before: seq<string>)
    requires study.folds != {}
    ensures var chosen, c := Chosen(Greedy(study, policy, remaining, before)), Elected(policy, RankingOf(study, policy, remaining, before));
            if Full(policy, |before|) || remaining == [] || c.None? then chosen == []
            else chosen == [c.value] + Chosen(Greedy(study, policy, Remove(remaining, c.value), before + [c.value]))
  {
    hide RankingOf, Elected, Full, Remove, Scores;
    var steps := Greedy(study, policy, remaining, before);
    var c := Elected(policy, RankingOf(study, policy, remaining, before));
    if !Full(policy, |before|) && remaining != [] {
      ElectedRemains(study, policy, remaining, before);
      if c.None? {
        assert steps[1..] == [];
      } else {
        assert steps[1..] == Greedy(study, policy, Remove(remaining, c.value), before + [c.value]);
      }
    }
  }

  lemma NoneMeets(study: Study, policy: Policy, remaining: seq<string>, before: seq<string>, name: string)
    requires study.folds != {} && Lawful(policy.student) && name in remaining
    requires Elected(policy, RankingOf(study, policy, remaining, before)).None?
    ensures !Meets(study, policy, before, name)
  {
    hide *;
    var own := EntryOf(study, policy, before, name);
    RankedNames(study, policy, remaining, before, own);
    EntryNamed(study, policy, before, name);
    QualifiesMeans(study, policy, before, name);
    NoneElected(policy, RankingOf(study, policy, remaining, before), own);
  }

  lemma NoneElected(policy: Policy, ranking: seq<Entry>, e: Entry)
    requires Elected(policy, ranking).None?
    ensures e in ranking ==> !Qualifies(policy, e)
  {
  }

  // ---- the chosen gains telescope -----------------------------------------------------------

  lemma {:induction false} SumAdds(a: seq<real>, b: seq<real>, c: seq<real>)
    requires |a| == |b| == |c| && forall i :: 0 <= i < |a| ==> c[i] == a[i] + b[i]
    ensures Sum(c) == Sum(a) + Sum(b)
  {
    if a != [] { SumAdds(a[1..], b[1..], c[1..]); }
  }

  lemma GainsAdd(direction: real, a: map<nat, real>, b: map<nat, real>, c: map<nat, real>)
    requires a.Keys == b.Keys == c.Keys != {}
    ensures Mean(Deltas(direction, a, c)) == Mean(Deltas(direction, a, b)) + Mean(Deltas(direction, b, c))
  {
    var x, y, z := Deltas(direction, a, b), Deltas(direction, b, c), Deltas(direction, a, c);
    SumAdds(x, y, z);
    hide Sum, Deltas;
    Divided(Sum(x), Sum(y), |a.Keys| as real);
  }

  lemma Divided(x: real, y: real, n: real)
    requires n != 0.0
    ensures (x + y) / n == x / n + y / n
  {
  }

  lemma {:induction false} SumOfZeros(xs: seq<real>)
    requires forall i :: 0 <= i < |xs| ==> xs[i] == 0.0
    ensures Sum(xs) == 0.0
  {
    if xs != [] { SumOfZeros(xs[1..]); }
  }

  /** The gain of the features that a run of steps elects, one after the other. */
  function ChosenGain(study: Study, policy: Policy, before: seq<string>, chosen: seq<string>): real
    requires study.folds != {}
    decreases |chosen|
  {
    if chosen == [] then 0.0
    else EntryOf(study, policy, before, chosen[0]).gain + ChosenGain(study, policy, before + [chosen[0]], chosen[1..])
  }

  /** The chosen gains telescope: their sum is the mean directional difference between the arm with
      everything selected and the arm selection started from. */
  lemma {:induction false} GainsTelescope(study: Study, policy: Policy, before: seq<string>, chosen: seq<string>)
    requires study.folds != {}
    ensures Mean(Deltas(policy.direction, Scores(study, before), Scores(study, before + chosen))) ==
            ChosenGain(study, policy, before, chosen)
    decreases |chosen|
  {
    var a, c := Scores(study, before), Scores(study, before + chosen);
    if chosen == [] {
      assert before + chosen == before;
      SumOfZeros(Deltas(policy.direction, a, a));
    } else {
      var b := Scores(study, before + [chosen[0]]);
      assert before + [chosen[0]] + chosen[1..] == before + chosen;
      GainsAdd(policy.direction, a, b, c);
      GainsTelescope(study, policy, before + [chosen[0]], chosen[1..]);
    }
  }

  lemma {:induction false} GainAtLeast(study: Study, policy: Policy, names: seq<string>, before: seq<string>, steps: seq<Step>)
    requires study.folds != {} && StepsRight(study, policy, names, before, steps)
    ensures ChosenGain(study, policy, before, Chosen(steps)) >= |Chosen(steps)| as real * policy.minimumPracticalGain
    decreases |steps|
  {
    hide StepRight, EntryOf, Full;
    if steps == [] || steps[0].chosen.None? {
      assert Chosen(steps) == [] by { if steps != [] { assert |steps[1..]| == 0; } }
    } else {
      var name := steps[0].chosen.value;
      ElectedFrom(study, policy, names, before, steps[0]);
      GainAtLeast(study, policy, names, before + [name], steps[1..]);
      assert Chosen(steps)[1..] == Chosen(steps[1..]);
      OneMoreTimes(|Chosen(steps[1..])|, policy.minimumPracticalGain);
    }
  }

  lemma OneMoreTimes(n: nat, m: real)
    ensures (n + 1) as real * m == n as real * m + m
  {
  }

  /** Running the whole selection: distinct features within the limit, elected step by step as
      `StepRight` says. */
  lemma SelectionRuns(study: Study, policy: Policy, names: seq<string>)
    requires study.folds != {} && Distinct(names)
    ensures var steps := Greedy(study, policy, SortBy(names, StrLeq), []);
            var selected := Chosen(steps);
            && StepsRight(study, policy, names, [], steps)
            && Distinct(selected) && (forall x :: x in selected ==> x in names)
            && (policy.maxSelected.Some? ==> |selected| <= policy.maxSelected.value)
            && |selected| <= |steps| <= |selected| + 1
  {
    var steps := Greedy(study, policy, SortBy(names, StrLeq), []);
    SortedNames(names);
    hide *;
    GreedySteps(study, policy, names, SortBy(names, StrLeq), []);
    DistinctNothing();
    RunElects(study, policy, names, [], steps);
    assert [] + Chosen(steps) == Chosen(steps);
  }

  lemma DistinctNothing()
    ensures Distinct<string>([])
  {
  }

  /** The arm of everything selected beats the baseline by the sum of the recorded gains, and so by
      at least the practical minimum for every feature. */
  lemma SelectionGain(study: Study, policy: Policy, names: seq<string>)
    requires study.folds != {} && Distinct(names)
    ensures var selected := Chosen(Greedy(study, policy, SortBy(names, StrLeq), []));
            && Mean(Deltas(policy.direction, Scores(study, []), Scores(study, selected))) == ChosenGain(study, policy, [], selected)
            && ChosenGain(study, policy, [], selected) >= |selected| as real * policy.minimumPracticalGain
  {
    hide *;
    var steps := Greedy(study, policy, SortBy(names, StrLeq), []);
    SelectionRuns(study, policy, names);
    GainsTelescope(study, policy, [], Chosen(steps));
    assert [] + Chosen(steps) == Chosen(steps);
    GainAtLeast(study, policy, names, [], steps);
  }

  lemma SortedNames(names: seq<string>)
    requires Distinct(names)
    ensures Distinct(SortBy(names, StrLeq)) && forall x :: x in SortBy(names, StrLeq) <==> x in names
  {
    DistinctCount(names);
    DistinctCount(SortBy(names, StrLeq));
    forall x ensures x in SortBy(names, StrLeq) <==> x in names {
      SortedHolds(names, StrLeq, x);
    }
  }

  /** The whole selection in terms of the scores: every feature met the policy over those chosen before it,
      no other that did was ahead of it, and at the end the limit is reached or none that is left does. */
  lemma SelectionMeans(study: Study, policy: Policy, names: seq<string>, name: string)
    requires study.folds != {} && Distinct(names) && Lawful(policy.student) && name in names
    ensures var selected := Chosen(Greedy(study, policy, SortBy(names, StrLeq), []));
            && (forall i :: 0 <= i < |selected| ==> Meets(study, policy, selected[..i], selected[i]))
            && (forall i :: 0 <= i < |selected| && name !in selected[..i] && Meets(study, policy, selected[..i], name) ==>
                  NotAhead(study, policy, selected[..i], selected[i], name))
            && ((policy.maxSelected.None? || |selected| < policy.maxSelected.value) && name !in selected ==>
                  !Meets(study, policy, selected, name))
  {
    hide *;
    var steps := Greedy(study, policy, SortBy(names, StrLeq), []);
    var selected := Chosen(steps);
    SelectionRuns(study, policy, names);
    SortedNames(names);
    StopsLate(study, policy, names, SortBy(names, StrLeq), [], name);
    assert [] + selected == selected;
    forall i | 0 <= i < |selected|
      ensures Meets(study, policy, selected[..i], selected[i])
      ensures name !in selected[..i] && Meets(study, policy, selected[..i], name) ==>
        NotAhead(study, policy, selected[..i], selected[i], name)
    {
      StepAt(study, policy, names, [], steps, i);
      assert [] + selected[..i] == selected[..i];
      ElectedApart(study, policy, names, selected[..i], steps[i]);
      ElectionMeans(study, policy, names, selected[..i], steps[i], selected[i]);
    }
  }

  lemma ElectedApart(study: Study, policy: Policy, names: seq<string>, before: seq<string>, step: Step)
    requires study.folds != {} && StepRight(study, policy, names, before, step) && step.chosen.Some?
    ensures step.chosen.value in names && step.chosen.value !in before
  {
    hide *;
    ElectedFrom(study, policy, names, before, step);
  }
}
