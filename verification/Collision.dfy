/** Ambiguous candidate names: scores for which honest Platinum evidence does not reconstruct. */
module Collision {
  import opened Prelude
  import opened Ordering
  import opened Selection
  import opened Evidence

  // ---- scores that reward one particular order of features --------------------------------

  /** How many leading features agree with the target. */
  function Matched(features: seq<string>, target: seq<string>): (n: nat)
    ensures n <= |features| && n <= |target|
  {
    if features == [] || target == [] || features[0] != target[0] then 0
    else 1 + Matched(features[1..], target[1..])
  }

  lemma {:induction false} MatchedAfter(p: seq<string>, x: seq<string>, y: seq<string>)
    ensures Matched(p + x, p + y) == |p| + Matched(x, y)
  {
    if p == [] {
      assert p + x == x && p + y == y;
    } else {
      assert (p + x)[1..] == p[1..] + x && (p + y)[1..] == p[1..] + y;
      MatchedAfter(p[1..], x, y);
    }
  }

  lemma MatchedPrefix(target: seq<string>, k: nat)
    requires k <= |target|
    ensures Matched(target[..k], target) == k
  {
    assert target[..k] + [] == target[..k] && target == target[..k] + target[k..];
    MatchedAfter(target[..k], [], target[k..]);
  }

  lemma MatchedNext(target: seq<string>, k: nat, name: string)
    requires k < |target|
    ensures Matched(target[..k] + [name], target) == if name == target[k] then k + 1 else k
  {
    assert target == target[..k] + target[k..] && target[k..][0] == target[k];
    MatchedAfter(target[..k], [name], target[k..]);
    assert [name][1..] == [];
  }

  lemma MatchedLonger(a: seq<string>, target: seq<string>, k: nat)
    requires k <= |target| && target[..k] <= a
    ensures Matched(a, target) >= k
  {
    assert a == target[..k] + a[k..] && target == target[..k] + target[k..];
    MatchedAfter(target[..k], a[k..], target[k..]);
  }

  function Reward(folds: set<nat>, direction: real, scale: real, target: seq<string>): Study {
    Study(folds, (features: seq<string>, fold: nat) => direction * (scale * Matched(features, target) as real))
  }

  lemma {:induction false} SumOfEqual(xs: seq<real>, c: real)
    requires forall i :: 0 <= i < |xs| ==> xs[i] == c
    ensures Sum(xs) == |xs| as real * c
  {
    if xs != [] {
      SumOfEqual(xs[1..], c);
      OneMoreTimes(|xs| - 1, c);
    }
  }

  lemma MeanOfEqual(xs: seq<real>, c: real)
    requires xs != [] && forall i :: 0 <= i < |xs| ==> xs[i] == c
    ensures Mean(xs) == c
  {
    SumOfEqual(xs, c);
    hide Sum;
    TimesOver(|xs| as real, c);
  }

  lemma TimesOver(n: real, c: real)
    requires n != 0.0
    ensures n * c / n == c
  {
  }

  /** Equal deltas have no deviation, so their lower bound is the delta itself. */
  lemma BoundOfEqual(student: Student, xs: seq<real>, c: real)
    requires |xs| >= 2 && student.root(0.0) == 0.0 && forall i :: 0 <= i < |xs| ==> xs[i] == c
    ensures LowerBound(student, xs) == Some(c)
  {
    MeanOfEqual(xs, c);
    var squares := Squares(xs, Mean(xs));
    forall i | 0 <= i < |squares| ensures squares[i] == 0.0 {
    }
    SumOfEqual(squares, 0.0);
    assert Deviation(student, xs) == student.root(0.0 / (|xs| - 1) as real);
    assert 0.0 / (|xs| - 1) as real == 0.0;
  }

  lemma SignedTwice(direction: real, scale: real, a: real, b: real)
    requires direction == 1.0 || direction == -1.0
    ensures direction * (direction * (scale * b) - direction * (scale * a)) == scale * (b - a)
  {
  }

  /** What an arm scores on every fold. */
  function Level(direction: real, scale: real, target: seq<string>, features: seq<string>): real {
    direction * (scale * Matched(features, target) as real)
  }

  function Difference(scale: real, target: seq<string>, before: seq<string>, after: seq<string>): real {
    scale * (Matched(after, target) as real - Matched(before, target) as real)
  }

  lemma RewardScores(folds: set<nat>, direction: real, scale: real, target: seq<string>, features: seq<string>)
    ensures Reward(folds, direction, scale, target).folds == folds
    ensures var scores := Scores(Reward(folds, direction, scale, target), features);
            forall f :: f in scores ==> scores[f] == Level(direction, scale, target, features)
  {
    hide Level, Matched;
    forall f | f in folds
      ensures Scores(Reward(folds, direction, scale, target), features)[f] == Level(direction, scale, target, features)
    {
      RewardScore(folds, direction, scale, target, features, f);
    }
  }

  lemma RewardScore(folds: set<nat>, direction: real, scale: real, target: seq<string>, features: seq<string>, f: nat)
    ensures Reward(folds, direction, scale, target).score(features, f) == Level(direction, scale, target, features)
  {
  }

  lemma LevelDifference(direction: real, scale: real, target: seq<string>, before: seq<string>, after: seq<string>)
    requires direction == 1.0 || direction == -1.0
    ensures direction * (Level(direction, scale, target, after) - Level(direction, scale, target, before)) ==
            Difference(scale, target, before, after)
  {
    SignedTwice(direction, scale, Matched(before, target) as real, Matched(after, target) as real);
  }

  lemma RewardDeltas(folds: set<nat>, direction: real, scale: real, target: seq<string>, before: seq<string>, after: seq<string>)
    requires folds != {} && (direction == 1.0 || direction == -1.0)
    ensures var study := Reward(folds, direction, scale, target);
            var deltas := Deltas(direction, Scores(study, before), Scores(study, after));
            && |deltas| == |folds| && deltas != []
            && (forall i :: 0 <= i < |deltas| ==> deltas[i] == Difference(scale, target, before, after))
            && Mean(deltas) == Difference(scale, target, before, after)
  {
    var study := Reward(folds, direction, scale, target);
    RewardScores(folds, direction, scale, target, before);
    RewardScores(folds, direction, scale, target, after);
    LevelDifference(direction, scale, target, before, after);
    hide *;
    EqualDeltas(direction, Scores(study, before), Scores(study, after),
                Level(direction, scale, target, before), Level(direction, scale, target, after));
    MeanOfEqual(Deltas(direction, Scores(study, before), Scores(study, after)), Difference(scale, target, before, after));
  }

  lemma EqualDeltas(direction: real, before: map<nat, real>, after: map<nat, real>, x: real, y: real)
    requires before.Keys == after.Keys && forall f :: f in before.Keys ==> before[f] == x && after[f] == y
    ensures var deltas := Deltas(direction, before, after); forall i :: 0 <= i < |deltas| ==> deltas[i] == direction * (y - x)
  {
    var folds := Sorted(before.Keys);
    forall i | 0 <= i < |folds| ensures before[folds[i]] == x && after[folds[i]] == y {
      assert folds[i] in folds;
    }
  }

  // ---- greedy selection follows the target ---------------------------------------------------

  ghost predicate Setting(folds: set<nat>, policy: Policy) {
    && folds != {} && (policy.direction == 1.0 || policy.direction == -1.0)
    && policy.minimumPracticalGain >= 0.0 && policy.student.root(0.0) == 0.0
    && (policy.requirePositiveLowerBound ==> |folds| >= 2)
  }

  function Rewarding(folds: set<nat>, policy: Policy, target: seq<string>): Study {
    Reward(folds, policy.direction, policy.minimumPracticalGain + 1.0, target)
  }

  /** Following the target gains one unit; straying from it gains nothing. */
  lemma RewardEntry(folds: set<nat>, policy: Policy, target: seq<string>, k: nat, name: string)
    requires Setting(folds, policy) && k < |target|
    ensures var e := EntryOf(Rewarding(folds, policy, target), policy, target[..k], name);
            && e.feature == name && Rewarding(folds, policy, target).folds == folds && e.gain == (if name == target[k] then policy.minimumPracticalGain + 1.0 else 0.0)
            && (name == target[k] ==> Qualifies(policy, e))
  {
    var study, scale := Rewarding(folds, policy, target), policy.minimumPracticalGain + 1.0;
    NextDifference(scale, target, k, name);
    RewardDeltas(folds, policy.direction, scale, target, target[..k], target[..k] + [name]);
    var deltas := Deltas(policy.direction, Scores(study, target[..k]), Scores(study, target[..k] + [name]));
    hide Reward, Difference, Mean, Scores, Deviation, Deltas;
    if name == target[k] && |folds| >= 2 {
      BoundOfEqual(policy.student, deltas, scale);
    }
  }

  lemma NextDifference(scale: real, target: seq<string>, k: nat, name: string)
    requires k < |target|
    ensures Difference(scale, target, target[..k], target[..k] + [name]) == if name == target[k] then scale else 0.0
  {
    MatchedPrefix(target, k);
    MatchedNext(target, k, name);
  }

  ghost predicate Left(names: seq<string>, before: seq<string>, remaining: seq<string>) {
    Distinct(remaining) && forall x :: x in remaining <==> x in names && x !in before
  }

  lemma PicksTarget(folds: set<nat>, policy: Policy, names: seq<string>, target: seq<string>, remaining: seq<string>, k: nat)
    requires Setting(folds, policy) && Distinct(target) && (forall n :: n in target ==> n in names)
    requires k < |target| && !Full(policy, k) && Left(names, target[..k], remaining)
    ensures remaining != []
    ensures Elected(policy, RankingOf(Rewarding(folds, policy, target), policy, remaining, target[..k])) == Some(target[k])
    ensures Left(names, target[..k + 1], Remove(remaining, target[k]))
  {
    var study, before := Rewarding(folds, policy, target), target[..k];
    assert target[k] in remaining by { NotBefore(target, k); }
    assert target[..k + 1] == before + [target[k]];
    hide *;
    SettingHasFolds(folds, policy, target);
    LeftIs(names, before, remaining, target[k]);
    FirstStepRight(study, policy, names, remaining, before);
    GreedyHead(study, policy, remaining, before);
    var step := Greedy(study, policy, remaining, before)[0];
    RewardEntry(folds, policy, target, k, target[k]);
    if step.chosen.Some? { RewardEntry(folds, policy, target, k, step.chosen.value); }
    PicksBetter(study, policy, names, before, step, target[k], policy.minimumPracticalGain);
  }

  lemma NotBefore(target: seq<string>, k: nat)
    requires Distinct(target) && k < |target|
    ensures target[k] !in target[..k] && target[k] in target
  {
  }

  lemma LeftIs(names: seq<string>, before: seq<string>, remaining: seq<string>, name: string)
    requires Left(names, before, remaining)
    ensures Distinct(remaining) && forall x :: x in remaining <==> x in names && x !in before
    ensures Left(names, before + [name], Remove(remaining, name))
  {
    RemoveDistinct(remaining, name);
  }

  /** A qualifying feature with a positive gain is elected when any other would gain nothing. */
  lemma PicksBetter(study: Study, policy: Policy, names: seq<string>, before: seq<string>, step: Step, name: string, m: real)
    requires study.folds != {} && StepRight(study, policy, names, before, step) && m >= 0.0
    requires name in names && name !in before
    requires var e := EntryOf(study, policy, before, name); e.feature == name && e.gain == m + 1.0 && Qualifies(policy, e)
    requires step.chosen.Some? ==> step.chosen.value == name || EntryOf(study, policy, before, step.chosen.value).gain == 0.0
    ensures step.chosen == Some(name)
  {
    hide EntryOf, Qualifies, Ordered;
    assert EntryOf(study, policy, before, name) in step.ranking;
  }

  lemma TargetGrows(policy: Policy, target: seq<string>, k: nat)
    requires k < |target| && !Full(policy, |target| - 1)
    ensures !Full(policy, k) && |target[..k]| == k && target[..k] + [target[k]] == target[..k + 1]
  {
  }

  /** The loop goes on to evaluate the whole target. */
  lemma {:induction false} TargetIsEvaluated(folds: set<nat>, policy: Policy, names: seq<string>, target: seq<string>,
                                             remaining: seq<string>, k: nat)
    requires Setting(folds, policy) && Distinct(target) && (forall n :: n in target ==> n in names)
    requires 1 <= k < |target| && !Full(policy, |target| - 1) && Left(names, target[..k], remaining)
    ensures target in GreedyArms(Rewarding(folds, policy, target), policy, remaining, target[..k])
    decreases |target| - k
  {
    hide *;
    var study := Rewarding(folds, policy, target);
    TargetGrows(policy, target, k);
    SettingHasFolds(folds, policy, target);
    PicksTarget(folds, policy, names, target, remaining, k);
    GreedyHead(study, policy, remaining, target[..k]);
    if k == |target| - 1 {
      assert target[..k + 1] == target;
      StepArmIn(target[..k], remaining, target[k]);
    } else {
      TargetIsEvaluated(folds, policy, names, target, Remove(remaining, target[k]), k + 1);
    }
  }

  lemma SettingHasFolds(folds: set<nat>, policy: Policy, target: seq<string>)
    requires Setting(folds, policy)
    ensures Rewarding(folds, policy, target).folds == folds && folds != {}
  {
  }

  lemma StepArmIn(before: seq<string>, remaining: seq<string>, n: string)
    requires before != [] && n in remaining
    ensures before + [n] in StepArms(before, remaining)
  {
    var i :| 0 <= i < |remaining| && remaining[i] == n;
    assert StepArms(before, remaining)[i] == before + [n];
  }

  // ---- the lookup finds the wrong arm ----------------------------------------------------------

  lemma {:induction false} LastWithConcat(a: seq<Arm>, b: seq<Arm>, name: string)
    ensures LastWith(a + b, name) == if LastWith(b, name).Some? then LastWith(b, name) else LastWith(a, name)
  {
    if a == [] {
      assert a + b == b;
    } else {
      assert (a + b)[1..] == a[1..] + b;
      hide ArmLabel;
      LastWithConcat(a[1..], b, name);
    }
  }

  /** A greedy label is found among the arms of the later steps whenever one of them carries it. */
  lemma LaterArmWins(pre: seq<Arm>, later: seq<Arm>, singles: seq<Arm>, target: Arm)
    requires target in later && |target| >= 2 && forall a :: a in singles ==> |a| == 1
    ensures LastWith(pre + later + singles, ArmLabel(target)).Some?
    ensures LastWith(pre + later + singles, ArmLabel(target)).value in later
  {
    var name := ArmLabel(target);
    LastWithConcat(pre + later, singles, name);
    LastWithConcat(pre, later, name);
    LastIsIn(singles, name);
    LastIsIn(later, name);
    LabelKind(target);
    if LastWith(singles, name).Some? { LabelKind(LastWith(singles, name).value); }
    hide ArmLabel, LastWith;
  }

  lemma CandidateLabel(arms: seq<Arm>, name: string)
    requires [name] in arms
    ensures LastWith(arms, ArmLabel([name])) == Some([name])
  {
    var found := LastWith(arms, ArmLabel([name]));
    LastIsIn(arms, ArmLabel([name]));
    LabelKind([name]);
    LabelKind(found.value);
    assert |found.value| == 1;
    AfterPrefix("candidate:", found.value[0], name);
    assert found.value == [found.value[0]];
  }

  /** The name that joins the others gets the label of the arm that holds them all. */
  lemma SharedLabel(first: string, parts: seq<string>)
    requires |parts| >= 2
    ensures ArmLabel([first] + parts) == ArmLabel([first] + [Join(parts)])
    ensures Join(parts) != parts[0]
  {
    var x := Join(parts);
    JoinConcat([first], parts);
    JoinConcat([first], [x]);
    assert Join([x]) == x;
    assert x == parts[0] + "+" + Join(parts[1..]);
    assert |x| > |parts[0]|;
  }

  /** Where the discovery arms of the rewarding run are, around the first step after `first`. */
  lemma ArmsAround(folds: set<nat>, policy: Policy, names: seq<string>, target: seq<string>) returns (pre: seq<Arm>, later: seq<Arm>, r1: seq<string>)
    requires Setting(folds, policy) && Distinct(names) && Distinct(target) && (forall n :: n in target ==> n in names)
    requires |target| >= 3 && !Full(policy, |target| - 1)
    ensures DiscoveryArms(Rewarding(folds, policy, target), policy, names) == pre + later + Singles(names)
    ensures target in later && forall a :: a in later ==> target[..2] <= a
    ensures Left(names, target[..1], r1) && r1 != [] && !Full(policy, 1)
    ensures Rewarding(folds, policy, target).folds != {}
    ensures var steps := Greedy(Rewarding(folds, policy, target), policy, SortBy(names, StrLeq), []);
            |steps| >= 2 && steps[1..] == Greedy(Rewarding(folds, policy, target), policy, r1, target[..1])
  {
    hide *;
    var study := Rewarding(folds, policy, target);
    SettingHasFolds(folds, policy, target);
    var r0 := SortBy(names, StrLeq);
    SortedNames(names);
    LeftAtStart(names, r0);
    assert target[..0] == [];
    TargetGrows(policy, target, 0);
    PicksTarget(folds, policy, names, target, r0, 0);
    GreedyHead(study, policy, r0, []);
    r1 := Remove(r0, target[0]);
    assert [] + [target[0]] == target[..1];
    TargetGrows(policy, target, 1);
    PicksTarget(folds, policy, names, target, r1, 1);
    GreedyHead(study, policy, r1, target[..1]);
    var r2 := Remove(r1, target[1]);
    later := GreedyArms(study, policy, r2, target[..2]);
    TargetIsEvaluated(folds, policy, names, target, r2, 2);
    forall a | a in later ensures target[..2] <= a {
      LeftMeans(names, target[..2], r2);
      GreedyArmsExtend(study, policy, names, r2, target[..2], a);
    }
    pre := [[]] + StepArms(target[..1], r1);
    NoFirstArms(r0);
    AllArms(study, policy, names, pre, later, StepArms([], r0), StepArms(target[..1], r1));
  }

  lemma NoFirstArms(remaining: seq<string>)
    ensures StepArms([], remaining) == []
  {
  }

  lemma LeftMeans(names: seq<string>, before: seq<string>, remaining: seq<string>)
    requires Left(names, before, remaining)
    ensures Distinct(remaining) && forall x :: x in remaining <==> x in names && x !in before
  {
  }

  lemma AllArms(study: Study, policy: Policy, names: seq<string>, pre: seq<Arm>, later: seq<Arm>, none: seq<Arm>, own: seq<Arm>)
    requires study.folds != {} && none == [] && pre == [[]] + own
    requires GreedyArms(study, policy, SortBy(names, StrLeq), []) == none + (own + later)
    ensures DiscoveryArms(study, policy, names) == pre + later + Singles(names)
  {
    hide GreedyArms, SortBy;
    var none: Arm := [];
    assert DiscoveryArms(study, policy, names) == [none] + (own + later) + Singles(names);
    assert [none] + (own + later) == [none] + own + later;
  }

  lemma LeftAtStart(names: seq<string>, r0: seq<string>)
    requires Distinct(r0) && forall x :: x in r0 <==> x in names
    ensures Left(names, [], r0)
  {
  }

  /** The gain recorded for the joined name does not reconstruct from the arm its label finds. */
  lemma JoinedEntryFails(folds: set<nat>, policy: Policy, target: seq<string>, arms: seq<Arm>, found: Arm, name: string, entry: Entry)
    requires Setting(folds, policy) && |target| >= 3 && name != target[1] && entry.feature == name && entry.gain == 0.0
    requires LastWith(arms, ArmLabel(target[..1])) == Some(target[..1])
    requires LastWith(arms, ArmLabel(target[..1] + [name])) == Some(found) && target[..2] <= found
    ensures var study := Rewarding(folds, policy, target);
            !CheckEntry(policy.direction, Rows(study, arms), target[..1], Lookup(Rows(study, arms), ArmLabel(target[..1])), entry)
  {
    var study, scale := Rewarding(folds, policy, target), policy.minimumPracticalGain + 1.0;
    var rows := Rows(study, arms);
    LookupFindsLast(study, arms, ArmLabel(target[..1]));
    LookupFindsLast(study, arms, ArmLabel(target[..1] + [name]));
    RewardDeltas(folds, policy.direction, scale, target, target[..1], found);
    AtLeastScale(scale, target, found);
    var gain := Difference(scale, target, target[..1], found);
    NotClose(gain);
    hide Rows, Lookup, ArmLabel, LastWith, Close, Deltas, Mean, Difference, Scores, Reward;
  }

  lemma AtLeastScale(scale: real, target: seq<string>, found: Arm)
    requires |target| >= 2 && target[..2] <= found && scale >= 1.0
    ensures Difference(scale, target, target[..1], found) >= 1.0
  {
    MatchedPrefix(target, 1);
    MatchedLonger(found, target, 2);
    hide Matched;
    var d := Matched(found, target) as real - 1.0;
    assert d >= 1.0;
    assert scale * d >= 1.0;
  }

  lemma NotClose(gain: real)
    requires gain >= 1.0
    ensures !Close(0.0, gain)
  {
  }

  /** Ambiguous names: some scores give a selection run whose own evidence does not reconstruct. */
  lemma AmbiguousFails(folds: set<nat>, policy: Policy, names: seq<string>, parts: seq<string>, first: string)
    requires Setting(folds, policy) && Distinct(names) && Collides(names, policy, parts, first)
    ensures var study := Rewarding(folds, policy, [first] + parts);
            && study.folds == folds && folds != {}
            && !CheckSteps(policy.direction, Rows(study, DiscoveryArms(study, policy, names)),
                           Greedy(study, policy, SortBy(names, StrLeq), []))
  {
    var target, x := [first] + parts, Join(parts);
    TargetOf(names, policy, parts, first);
    assert x in names && x != first;
    hide *;
    SettingHasFolds(folds, policy, target);
    var study := Rewarding(folds, policy, target);
    var pre, later, r1 := ArmsAround(folds, policy, names, target);
    var arms := DiscoveryArms(study, policy, names);
    LaterArmWins(pre, later, Singles(names), target);
    SharedLabel(first, parts);
    assert target[..1] == [first] && target[1] == parts[0];
    ArmKinds(study, policy, names, [first]);
    CandidateLabel(arms, first);
    LeftMeans(names, target[..1], r1);
    FirstStepRight(study, policy, names, r1, target[..1]);
    var steps := Greedy(study, policy, SortBy(names, StrLeq), []);
    assert steps[1..][0] == steps[1];
    RewardEntry(folds, policy, target, 1, x);
    var entry := EntryOf(study, policy, target[..1], x);
    EntryIsRanked(study, policy, names, target[..1], steps[1], x);
    JoinedEntryFails(folds, policy, target, arms, LastWith(arms, ArmLabel(target)).value, x, entry);
    StepFails(policy.direction, Rows(study, arms), steps, 1, entry);
  }

  lemma TargetOf(names: seq<string>, policy: Policy, parts: seq<string>, first: string)
    requires Collides(names, policy, parts, first)
    ensures var target := [first] + parts;
            && Distinct(target) && (forall n :: n in target ==> n in names) && |target| >= 3
            && !Full(policy, |target| - 1) && first in names && Join(parts) in names && Join(parts) != first
  {
    DistinctCons(first, parts);
  }

  lemma EntryIsRanked(study: Study, policy: Policy, names: seq<string>, before: seq<string>, step: Step, name: string)
    requires study.folds != {} && StepRight(study, policy, names, before, step) && name in names && name !in before
    ensures EntryOf(study, policy, before, name) in step.ranking && step.selectedBefore == before
  {
    EntryNamed(study, policy, before, name);
    hide EntryOf, Ordered;
  }

  lemma StepFails(direction: real, rows: seq<Row>, steps: seq<Step>, i: nat, entry: Entry)
    requires i < |steps| && entry in steps[i].ranking
    requires !CheckEntry(direction, rows, steps[i].selectedBefore, Lookup(rows, ArmLabel(steps[i].selectedBefore)), entry)
    ensures !CheckSteps(direction, rows, steps)
  {
    hide CheckEntry, CheckChosen, Lookup;
    var k :| 0 <= k < |steps[i].ranking| && steps[i].ranking[k] == entry;
    assert !CheckStep(direction, rows, steps[i]);
  }

  ghost predicate Reconstructs(folds: set<nat>, policy: Policy, names: seq<string>, score: (seq<string>, nat) -> real)
    requires folds != {}
  {
    var study := Study(folds, score);
    CheckSteps(policy.direction, Rows(study, DiscoveryArms(study, policy, names)), Greedy(study, policy, SortBy(names, StrLeq), []))
  }

  /** The selection evidence that a run persists passes the verifier's greedy checks for all scores
      exactly when no candidate name is the join of at least two others that selection can reach. */
  lemma StepsReconstructIff(folds: set<nat>, policy: Policy, names: seq<string>)
    requires Setting(folds, policy) && Distinct(names)
    ensures (forall score :: Reconstructs(folds, policy, names, score)) <==> !Ambiguous(names, policy)
  {
    if Ambiguous(names, policy) {
      var parts, first :| Collides(names, policy, parts, first);
      AmbiguousFails(folds, policy, names, parts, first);
      var study := Rewarding(folds, policy, [first] + parts);
      hide Ambiguous, CheckSteps, Rewarding, Collides;
      assert study == Study(folds, study.score);
      assert !Reconstructs(folds, policy, names, study.score);
    } else {
      hide Ambiguous, CheckSteps;
      forall score ensures Reconstructs(folds, policy, names, score) {
        UnambiguousReconstructs(Study(folds, score), policy, names);
      }
    }
  }
}
