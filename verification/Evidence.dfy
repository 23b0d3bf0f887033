/** Platinum evidence: what the pipeline persists and what its offline verifier reconstructs. */
module Evidence {
  import opened Prelude
  import opened Ordering
  import opened Selection

  // ---- discovery arms and their rows -------------------------------------------------

  /** `'+'.join(names)` */
  function Join(names: seq<string>): string {
    if names == [] then ""
    else if |names| == 1 then names[0]
    else names[0] + "+" + Join(names[1..])
  }

  /** The label under which an arm is persisted and looked up. */
  function ArmLabel(features: Arm): string {
    if features == [] then "baseline"
    else if |features| == 1 then "candidate:" + features[0]
    else "greedy:" + Join(features)
  }

  datatype Row = Row(arm: string, fold: nat, score: real)

  function ArmRows(study: Study, name: string, features: Arm): (r: seq<Row>)
    ensures |r| == |study.folds|
  {
    var folds := Sorted(study.folds);
    seq(|folds|, i requires 0 <= i < |folds| => Row(name, folds[i], study.score(features, folds[i])))
  }

  function Rows(study: Study, arms: seq<Arm>): seq<Row> {
    if arms == [] then [] else ArmRows(study, ArmLabel(arms[0]), arms[0]) + Rows(study, arms[1..])
  }

  /** `_platinum_arm_fold_scores`: the scores of a label by fold, a later row replacing an earlier
      one; a label without rows is an error there and an empty map here. */
  function Lookup(rows: seq<Row>, name: string): map<nat, real> {
    if rows == [] then map[]
    else if rows[0].arm == name then map[rows[0].fold := rows[0].score] + Lookup(rows[1..], name)
    else Lookup(rows[1..], name)
  }

  function Singles(names: seq<string>): (r: seq<Arm>)
    ensures |r| == |names| && forall i :: 0 <= i < |r| ==> r[i] == [names[i]]
  {
    seq(|names|, i requires 0 <= i < |names| => [names[i]])
  }

  /** Every discovery arm, in the order in which its rows are persisted. */
  function DiscoveryArms(study: Study, policy: Policy, names: seq<string>): seq<Arm>
    requires study.folds != {}
  {
    [[]] + GreedyArms(study, policy, SortBy(names, StrLeq), []) + Singles(names)
  }

  // ---- the verifier's checks of the selection steps -------------------------------------

  function Abs(x: real): real { if x < 0.0 then -x else x }

  /** `math.isclose(a, b, rel_tol=1e-12, abs_tol=1e-12)` */
  predicate Close(a: real, b: real) {
    var size := if Abs(a) > Abs(b) then Abs(a) else Abs(b);
    Abs(a - b) <= 0.000000000001 * size || Abs(a - b) <= 0.000000000001
  }

  predicate CheckEntry(direction: real, rows: seq<Row>, before: seq<string>, previous: map<nat, real>, entry: Entry) {
    var scores := Lookup(rows, ArmLabel(before + [entry.feature]));
    && scores.Keys == previous.Keys && previous.Keys != {}
    && Close(entry.gain, Mean(Deltas(direction, previous, scores)))
  }

  predicate CheckChosen(rows: seq<Row>, step: Step) {
    step.chosen.None? ||
    var scores := Lookup(rows, ArmLabel(step.selectedBefore + [step.chosen.value]));
    && scores.Keys != {} && step.foldScores.Keys == scores.Keys
    && forall f | f in scores :: Close(step.foldScores[f], scores[f])
  }

  predicate CheckStep(direction: real, rows: seq<Row>, step: Step) {
    var previous := Lookup(rows, ArmLabel(step.selectedBefore));
    && previous.Keys != {}
    && (forall i | 0 <= i < |step.ranking| :: CheckEntry(direction, rows, step.selectedBefore, previous, step.ranking[i]))
    && CheckChosen(rows, step)
  }

  predicate CheckSteps(direction: real, rows: seq<Row>, steps: seq<Step>) {
    forall i | 0 <= i < |steps| :: CheckStep(direction, rows, steps[i])
  }

  // ---- looking arms up by label -----------------------------------------------------------

  lemma {:induction false} LookupConcat(a: seq<Row>, b: seq<Row>, name: string)
    ensures Lookup(a + b, name) == Lookup(a, name) + Lookup(b, name)
  {
    if a == [] {
      assert a + b == b;
    } else {
      assert (a + b)[1..] == a[1..] + b;
      LookupConcat(a[1..], b, name);
    }
  }

  lemma {:induction false} LookupRows(rows: seq<Row>, name: string)
    requires forall i, j :: 0 <= i < j < |rows| ==> rows[i].fold != rows[j].fold
    requires forall i :: 0 <= i < |rows| ==> rows[i].arm == name
    ensures forall f :: f in Lookup(rows, name) <==> exists i :: 0 <= i < |rows| && rows[i].fold == f
    ensures forall i :: 0 <= i < |rows| ==> rows[i].fold in Lookup(rows, name) && Lookup(rows, name)[rows[i].fold] == rows[i].score
  {
    if rows != [] {
      var tail := rows[1..];
      LookupRows(tail, name);
      forall i | 0 <= i < |rows| ensures rows[i].fold in Lookup(rows, name) && Lookup(rows, name)[rows[i].fold] == rows[i].score {
        if i > 0 { assert tail[i - 1] == rows[i]; }
      }
      forall f | f in Lookup(rows, name) ensures exists i :: 0 <= i < |rows| && rows[i].fold == f {
        if f in Lookup(tail, name) {
          var i :| 0 <= i < |tail| && tail[i].fold == f;
          assert rows[i + 1].fold == f;
        } else {
          assert rows[0].fold == f;
        }
      }
    }
  }

  lemma {:induction false} LookupForeign(rows: seq<Row>, name: string)
    requires forall i :: 0 <= i < |rows| ==> rows[i].arm != name
    ensures Lookup(rows, name) == map[]
  {
    if rows != [] { LookupForeign(rows[1..], name); }
  }

  lemma LookupArm(study: Study, own: string, features: Arm, name: string)
    ensures Lookup(ArmRows(study, own, features), name) == if own == name then Scores(study, features) else map[]
  {
    var rows, folds := ArmRows(study, own, features), Sorted(study.folds);
    if own == name {
      SortedAscends(study.folds);
      LookupRows(rows, name);
      var found := Lookup(rows, name);
      assert forall i :: 0 <= i < |rows| ==> rows[i].fold == folds[i] && rows[i].score == study.score(features, folds[i]);
      hide Lookup, Sorted, ArmRows;
      FoundFolds(study, features, rows, folds, found);
    } else {
      LookupForeign(rows, name);
    }
  }

  lemma FoundFolds(study: Study, features: Arm, rows: seq<Row>, folds: seq<nat>, found: map<nat, real>)
    requires |rows| == |folds| && forall f :: f in folds <==> f in study.folds
    requires forall i :: 0 <= i < |rows| ==> rows[i].fold == folds[i] && rows[i].score == study.score(features, folds[i])
    requires forall f :: f in found <==> exists i :: 0 <= i < |rows| && rows[i].fold == f
    requires forall i :: 0 <= i < |rows| ==> rows[i].fold in found && found[rows[i].fold] == rows[i].score
    ensures found == Scores(study, features)
  {
    forall f ensures f in found <==> f in study.folds {
      if f in study.folds {
        var i :| 0 <= i < |folds| && folds[i] == f;
        assert rows[i].fold == f;
      }
    }
    forall f | f in found ensures found[f] == Scores(study, features)[f] {
      var i :| 0 <= i < |rows| && rows[i].fold == f;
    }
  }

  function LastWith(arms: seq<Arm>, name: string): Option<Arm> {
    if arms == [] then None
    else
      var later := LastWith(arms[1..], name);
      if later.Some? then later else if ArmLabel(arms[0]) == name then Some(arms[0]) else None
  }

  /** With a common fold set, looking a label up finds the scores of the last arm persisted under it. */
  lemma {:induction false} LookupFindsLast(study: Study, arms: seq<Arm>, name: string)
    ensures Lookup(Rows(study, arms), name) ==
            match LastWith(arms, name) case None => map[] case Some(a) => Scores(study, a)
  {
    hide *;
    if arms == [] {
      NoArms(study, name);
    } else {
      var own, rest := ArmRows(study, ArmLabel(arms[0]), arms[0]), Rows(study, arms[1..]);
      FirstArm(study, arms, name);
      LookupConcat(own, rest, name);
      LookupArm(study, ArmLabel(arms[0]), arms[0], name);
      LookupFindsLast(study, arms[1..], name);
      AddNothing(Lookup(own, name), Lookup(rest, name));
      if LastWith(arms[1..], name).Some? { LaterScores(study, arms[0], LastWith(arms[1..], name).value); }
    }
  }

  lemma NoArms(study: Study, name: string)
    ensures Rows(study, []) == [] && LastWith([], name) == None && Lookup([], name) == map[]
  {
  }

  lemma AddNothing(a: map<nat, real>, b: map<nat, real>)
    ensures b == map[] ==> a + b == a
    ensures a == map[] ==> a + b == b
  {
  }

  lemma FirstArm(study: Study, arms: seq<Arm>, name: string)
    requires arms != []
    ensures Rows(study, arms) == ArmRows(study, ArmLabel(arms[0]), arms[0]) + Rows(study, arms[1..])
    ensures LastWith(arms, name) ==
            if LastWith(arms[1..], name).Some? then LastWith(arms[1..], name)
            else if ArmLabel(arms[0]) == name then Some(arms[0]) else None
  {
    hide ArmLabel, ArmRows;
  }

  /** Later scores over the same folds replace earlier ones. */
  lemma LaterScores(study: Study, a: Arm, b: Arm)
    ensures Scores(study, a) + Scores(study, b) == Scores(study, b)
  {
  }

  ghost predicate NoClash(arms: seq<Arm>) {
    forall a, b :: a in arms && b in arms && ArmLabel(a) == ArmLabel(b) ==> a == b
  }

  lemma {:induction false} LastIsIn(arms: seq<Arm>, name: string)
    ensures LastWith(arms, name).Some? ==> LastWith(arms, name).value in arms && ArmLabel(LastWith(arms, name).value) == name
    ensures LastWith(arms, name).None? ==> forall a :: a in arms ==> ArmLabel(a) != name
  {
    if arms != [] { LastIsIn(arms[1..], name); }
  }

  /** Where no two arms share a label, every lookup finds exactly the arm the producer meant. */
  lemma FindsOwnArm(study: Study, arms: seq<Arm>, a: Arm)
    requires NoClash(arms) && a in arms
    ensures Lookup(Rows(study, arms), ArmLabel(a)) == Scores(study, a)
  {
    LookupFindsLast(study, arms, ArmLabel(a));
    LastIsIn(arms, ArmLabel(a));
    hide ArmLabel, Lookup, Rows;
  }

  // ---- honest steps reconstruct ------------------------------------------------------------

  lemma HonestStep(study: Study, policy: Policy, arms: seq<Arm>, names: seq<string>, before: seq<string>, step: Step)
    requires study.folds != {} && StepRight(study, policy, names, before, step)
    requires NoClash(arms) && before in arms
    requires forall n :: n in names && n !in before ==> before + [n] in arms
    ensures CheckStep(policy.direction, Rows(study, arms), step)
  {
    var rows := Rows(study, arms);
    FindsOwnArm(study, arms, before);
    var previous := Scores(study, before);
    hide ArmLabel, Rows, NoClash, Lookup;
    forall i | 0 <= i < |step.ranking| ensures CheckEntry(policy.direction, rows, before, previous, step.ranking[i]) {
      var e := step.ranking[i];
      assert e in step.ranking;
      FindsOwnArm(study, arms, before + [e.feature]);
    }
    if step.chosen.Some? {
      var best := EntryOf(study, policy, before, step.chosen.value);
      assert best in step.ranking && best.feature == step.chosen.value;
      FindsOwnArm(study, arms, before + [step.chosen.value]);
    }
  }

  lemma {:induction false} HonestSteps(study: Study, policy: Policy, arms: seq<Arm>, names: seq<string>,
                                       remaining: seq<string>, before: seq<string>)
    requires study.folds != {} && NoClash(arms) && Distinct(remaining)
    requires forall x :: x in remaining <==> x in names && x !in before
    requires before in arms && (forall n :: n in names ==> [n] in arms)
    requires forall a :: a in GreedyArms(study, policy, remaining, before) ==> a in arms
    ensures CheckSteps(policy.direction, Rows(study, arms), Greedy(study, policy, remaining, before))
    decreases |remaining|
  {
    hide *;
    var steps := Greedy(study, policy, remaining, before);
    if Full(policy, |before|) || remaining == [] {
      GreedyStops(study, policy, remaining, before);
      NothingToCheck(policy.direction, Rows(study, arms));
    } else {
      FirstStepRight(study, policy, names, remaining, before);
      FirstArms(study, policy, names, remaining, before, arms);
      GreedyHead(study, policy, remaining, before);
      HonestStep(study, policy, arms, names, before, steps[0]);
      var c := Elected(policy, RankingOf(study, policy, remaining, before));
      if c.Some? {
        RemoveDistinct(remaining, c.value);
        HonestSteps(study, policy, arms, names, Remove(remaining, c.value), before + [c.value]);
      } else {
        NothingToCheck(policy.direction, Rows(study, arms));
      }
      CheckStepsJoin(policy.direction, Rows(study, arms), steps);
    }
  }

  lemma GreedyStops(study: Study, policy: Policy, remaining: seq<string>, before: seq<string>)
    requires study.folds != {} && (Full(policy, |before|) || remaining == [])
    ensures Greedy(study, policy, remaining, before) == [] && GreedyArms(study, policy, remaining, before) == []
  {
  }

  lemma GreedyHead(study: Study, policy: Policy, remaining: seq<string>, before: seq<string>)
    requires study.folds != {} && !Full(policy, |before|) && remaining != []
    ensures var steps, c := Greedy(study, policy, remaining, before), Elected(policy, RankingOf(study, policy, remaining, before));
            && steps != [] && steps[0].chosen == c && (c.None? ==> steps[1..] == [])
            && (c.Some? ==> c.value in remaining
                            && steps[1..] == Greedy(study, policy, Remove(remaining, c.value), before + [c.value]))
            && GreedyArms(study, policy, remaining, before) == StepArms(before, remaining) +
               if c.Some? then GreedyArms(study, policy, Remove(remaining, c.value), before + [c.value]) else []
  {
    ElectedRemains(study, policy, remaining, before);
    hide RankingOf, Elected, StepArms;
  }

  lemma NothingToCheck(direction: real, rows: seq<Row>)
    ensures CheckSteps(direction, rows, [])
  {
  }

  lemma CheckStepsJoin(direction: real, rows: seq<Row>, steps: seq<Step>)
    requires steps != [] && CheckStep(direction, rows, steps[0]) && CheckSteps(direction, rows, steps[1..])
    ensures CheckSteps(direction, rows, steps)
  {
    hide CheckStep;
    forall i | 0 <= i < |steps| ensures CheckStep(direction, rows, steps[i]) {
      if i > 0 { assert steps[i] == steps[1..][i - 1]; }
    }
  }

  /** The arms of a step, and those of the steps after it, are among all arms. */
  lemma FirstArms(study: Study, policy: Policy, names: seq<string>, remaining: seq<string>, before: seq<string>, arms: seq<Arm>)
    requires study.folds != {} && !Full(policy, |before|) && remaining != []
    requires forall x :: x in remaining <==> x in names && x !in before
    requires forall n :: n in names ==> [n] in arms
    requires forall a :: a in GreedyArms(study, policy, remaining, before) ==> a in arms
    ensures forall n :: n in names && n !in before ==> before + [n] in arms
    ensures var c := Elected(policy, RankingOf(study, policy, remaining, before));
            c.Some? && c.value in remaining ==>
              forall a :: a in GreedyArms(study, policy, Remove(remaining, c.value), before + [c.value]) ==> a in arms
  {
    hide RankingOf, Elected, Full;
    forall n | n in names && n !in before ensures before + [n] in arms {
      if before == [] {
        assert before + [n] == [n];
      } else {
        var i :| 0 <= i < |remaining| && remaining[i] == n;
        assert StepArms(before, remaining)[i] == before + [n];
        assert before + [n] in StepArms(before, remaining);
      }
    }
  }

  // ---- when labels are unambiguous -----------------------------------------------------------

  /** A candidate's name is the `+`-join of at least two other candidates, with one more candidate
      besides, and the limit lets selection grow as far as the colliding arm. */
  ghost predicate Collides(names: seq<string>, policy: Policy, parts: seq<string>, first: string) {
    && |parts| >= 2 && Distinct(parts) && (forall n :: n in parts ==> n in names) && Join(parts) in names
    && first in names && first !in parts && first != Join(parts)
    && !Full(policy, |parts|)
  }

  ghost predicate Ambiguous(names: seq<string>, policy: Policy) {
    exists parts, first :: Collides(names, policy, parts, first)
  }

  lemma {:induction false} JoinConcat(a: seq<string>, b: seq<string>)
    requires a != [] && b != []
    ensures Join(a + b) == Join(a) + "+" + Join(b)
  {
    if |a| == 1 {
      assert a + b == [a[0]] + b && (a + b)[1..] == b;
    } else {
      assert (a + b)[1..] == a[1..] + b && (a + b)[0] == a[0];
      JoinConcat(a[1..], b);
      Regroup(a[0] + "+", Join(a[1..]), "+" + Join(b));
      Regroup(Join(a[1..]), "+", Join(b));
      Regroup(a[0] + "+", Join(a[1..]) + "+", Join(b));
      Regroup(a[0] + "+", Join(a[1..]), "+");
    }
  }

  lemma AfterPrefix(p: string, a: string, b: string)
    requires p + a == p + b
    ensures a == b
  {
    assert (p + a)[|p|..] == a && (p + b)[|p|..] == b;
  }

  /** A greedy arm: a proper prefix of what is selected in the end, and one feature more. */
  ghost predicate Extends(selected: seq<string>, names: seq<string>, policy: Policy, a: Arm) {
    var k := |a| - 1;
    && 1 <= k <= |selected| && a[..k] == selected[..k] && a[k] in names && a[k] !in selected[..k] && !Full(policy, k)
  }

  lemma SameLength(selected: seq<string>, names: seq<string>, policy: Policy, a: Arm, b: Arm)
    requires Extends(selected, names, policy, a) && Extends(selected, names, policy, b) && |a| == |b| && Join(a) == Join(b)
    ensures a == b
  {
    var k := |a| - 1;
    OwnTail(selected[..k], a);
    OwnTail(selected[..k], b);
    assert Join([b[k]]) == b[k] && selected[..k] != [];
    hide *;
    TailJoin(selected[..k], a[k], [b[k]]);
  }

  lemma OwnTail(p: seq<string>, a: Arm)
    requires |a| == |p| + 1 && a[..|p|] == p
    ensures a == p + [a[|p|]]
  {
  }

  lemma ShorterArm(selected: seq<string>, names: seq<string>, policy: Policy, a: Arm, b: Arm)
    requires Distinct(selected) && (forall n :: n in selected ==> n in names)
    requires Extends(selected, names, policy, a) && Extends(selected, names, policy, b) && |a| < |b| && Join(a) == Join(b)
    ensures Ambiguous(names, policy)
  {
    var k, l := |a| - 1, |b| - 1;
    var p, parts := selected[..k], selected[k..l] + [b[l]];
    assert a == p + [a[k]] && b == p + parts by { ArmSplit(selected, k, l, a, b); }
    LaterParts(selected, names, k, l, b[l]);
    assert selected[0] in p by { assert p[0] == selected[0]; }
    hide Distinct;
    TailJoin(p, a[k], parts);
    hide Join;
    assert Collides(names, policy, parts, selected[0]);
  }

  lemma ArmSplit(selected: seq<string>, k: nat, l: nat, a: Arm, b: Arm)
    requires k < l <= |selected| && |a| == k + 1 && |b| == l + 1 && a[..k] == selected[..k] && b[..l] == selected[..l]
    ensures a == selected[..k] + [a[k]] && b == selected[..k] + (selected[k..l] + [b[l]])
  {
    assert selected[..l] == selected[..k] + selected[k..l];
  }

  lemma TailJoin(p: seq<string>, x: string, parts: seq<string>)
    requires p != [] && parts != [] && Join(p + [x]) == Join(p + parts)
    ensures x == Join(parts)
  {
    JoinConcat(p, [x]);
    JoinConcat(p, parts);
    assert Join([x]) == x;
    hide Join;
    AfterPrefix(Join(p) + "+", x, Join(parts));
  }

  /** What was selected from some point on, and one feature more: distinct names without the first. */
  lemma LaterParts(selected: seq<string>, names: seq<string>, k: nat, l: nat, last: string)
    requires Distinct(selected) && (forall n :: n in selected ==> n in names)
    requires 1 <= k < l <= |selected| && last in names && last !in selected[..l]
    ensures var parts := selected[k..l] + [last];
            Distinct(parts) && (forall n :: n in parts ==> n in names) && selected[0] !in parts
  {
    var parts := selected[k..l] + [last];
    forall i | 0 <= i < |parts| ensures parts[i] == if i < l - k then selected[k + i] else last {
    }
    forall i | 0 <= i < l ensures selected[i] != last {
      assert selected[..l][i] == selected[i];
    }
    forall n | n in parts ensures n in names && n != selected[0] {
      var i :| 0 <= i < |parts| && parts[i] == n;
    }
  }

  lemma GreedyLabels(selected: seq<string>, names: seq<string>, policy: Policy, a: Arm, b: Arm)
    requires Distinct(selected) && (forall n :: n in selected ==> n in names) && !Ambiguous(names, policy)
    requires Extends(selected, names, policy, a) && Extends(selected, names, policy, b) && ArmLabel(a) == ArmLabel(b)
    ensures a == b
  {
    AfterPrefix("greedy:", Join(a), Join(b));
    hide Extends, Join, Ambiguous;
    LongEnough(selected, names, policy, a);
    LongEnough(selected, names, policy, b);
    if |a| < |b| {
      ShorterArm(selected, names, policy, a, b);
    } else if |b| < |a| {
      ShorterArm(selected, names, policy, b, a);
    } else {
      SameLength(selected, names, policy, a, b);
    }
  }

  lemma LongEnough(selected: seq<string>, names: seq<string>, policy: Policy, a: Arm)
    requires Extends(selected, names, policy, a)
    ensures |a| >= 2 && ArmLabel(a) == "greedy:" + Join(a)
  {
  }

  lemma {:induction false} GreedyArmsExtend(study: Study, policy: Policy, names: seq<string>, remaining: seq<string>,
                                            before: seq<string>, a: Arm)
    requires study.folds != {} && Distinct(remaining) && (forall x :: x in remaining <==> x in names && x !in before)
    requires a in GreedyArms(study, policy, remaining, before)
    ensures Extends(before + Chosen(Greedy(study, policy, remaining, before)), names, policy, a)
    ensures before <= a
    decreases |remaining|
  {
    hide *;
    if Full(policy, |before|) || remaining == [] {
      GreedyStops(study, policy, remaining, before);
    } else {
      GreedyHead(study, policy, remaining, before);
      var steps, c := Greedy(study, policy, remaining, before), Elected(policy, RankingOf(study, policy, remaining, before));
      if a in StepArms(before, remaining) {
        var n :| n in remaining && a == before + [n];
        OwnArmExtends(before, Chosen(steps), names, policy, n);
      } else {
        assert c.Some?;
        RemoveDistinct(remaining, c.value);
        GreedyArmsExtend(study, policy, names, Remove(remaining, c.value), before + [c.value], a);
        ChosenHead(before, steps);
      }
    }
  }

  lemma ChosenHead(before: seq<string>, steps: seq<Step>)
    requires steps != [] && steps[0].chosen.Some?
    ensures before + Chosen(steps) == before + [steps[0].chosen.value] + Chosen(steps[1..])
  {
  }

  lemma OwnArmExtends(before: seq<string>, chosen: seq<string>, names: seq<string>, policy: Policy, n: string)
    requires before != [] && n in names && n !in before && !Full(policy, |before|)
    ensures Extends(before + chosen, names, policy, before + [n])
  {
    assert (before + [n])[..|before|] == before && (before + chosen)[..|before|] == before;
  }

  /** Unless the names are ambiguous, no two discovery arms of a run share a label. */
  lemma LabelsUnique(study: Study, policy: Policy, names: seq<string>)
    requires study.folds != {} && Distinct(names) && !Ambiguous(names, policy)
    ensures NoClash(DiscoveryArms(study, policy, names))
  {
    hide *;
    var remaining := SortBy(names, StrLeq);
    var selected := Chosen(Greedy(study, policy, remaining, []));
    var arms := DiscoveryArms(study, policy, names);
    SelectionRuns(study, policy, names);
    SortedNames(names);
    assert [] + selected == selected;
    forall a | a in arms ensures a == [] || |a| == 1 || Extends(selected, names, policy, a) {
      ArmKinds(study, policy, names, a);
      if a in GreedyArms(study, policy, remaining, []) {
        GreedyArmsExtend(study, policy, names, remaining, [], a);
      }
    }
    ArmsApart(selected, names, policy, arms);
  }

  lemma ArmsApart(selected: seq<string>, names: seq<string>, policy: Policy, arms: seq<Arm>)
    requires Distinct(selected) && (forall n :: n in selected ==> n in names) && !Ambiguous(names, policy)
    requires forall a :: a in arms ==> a == [] || |a| == 1 || Extends(selected, names, policy, a)
    ensures NoClash(arms)
  {
    hide Extends, Ambiguous, Distinct, ArmLabel;
    forall a, b | a in arms && b in arms && ArmLabel(a) == ArmLabel(b) ensures a == b {
      SameKind(selected, names, policy, a, b);
    }
  }

  lemma ArmKinds(study: Study, policy: Policy, names: seq<string>, a: Arm)
    requires study.folds != {}
    ensures a in DiscoveryArms(study, policy, names) <==>
            a == [] || (|a| == 1 && a[0] in names) || a in GreedyArms(study, policy, SortBy(names, StrLeq), [])
  {
    hide GreedyArms, SortBy;
    var singles := Singles(names);
    if a in singles {
      var i :| 0 <= i < |singles| && singles[i] == a;
    }
    if |a| == 1 && a[0] in names {
      var i :| 0 <= i < |names| && names[i] == a[0];
      assert singles[i] == a;
    }
  }

  lemma SameKind(selected: seq<string>, names: seq<string>, policy: Policy, a: Arm, b: Arm)
    requires Distinct(selected) && (forall n :: n in selected ==> n in names) && !Ambiguous(names, policy)
    requires a == [] || |a| == 1 || Extends(selected, names, policy, a)
    requires b == [] || |b| == 1 || Extends(selected, names, policy, b)
    requires ArmLabel(a) == ArmLabel(b)
    ensures a == b
  {
    LabelKind(a);
    LabelKind(b);
    if |a| == 1 && |b| == 1 {
      AfterPrefix("candidate:", a[0], b[0]);
      assert a == [a[0]] && b == [b[0]];
    } else if |a| >= 2 && |b| >= 2 {
      GreedyLabels(selected, names, policy, a, b);
    }
  }

  lemma LabelKind(a: Arm)
    ensures |ArmLabel(a)| > 0
    ensures ArmLabel(a)[0] == if a == [] then 'b' else if |a| == 1 then 'c' else 'g'
  {
  }

  /** Unambiguous names: every persisted selection run reconstructs, whatever the scores. */
  lemma UnambiguousReconstructs(study: Study, policy: Policy, names: seq<string>)
    requires study.folds != {} && Distinct(names) && !Ambiguous(names, policy)
    ensures CheckSteps(policy.direction, Rows(study, DiscoveryArms(study, policy, names)),
                       Greedy(study, policy, SortBy(names, StrLeq), []))
  {
    var arms := DiscoveryArms(study, policy, names);
    LabelsUnique(study, policy, names);
    SortedNames(names);
    hide *;
    forall a ensures a in arms <==> a == [] || (|a| == 1 && a[0] in names) || a in GreedyArms(study, policy, SortBy(names, StrLeq), []) {
      ArmKinds(study, policy, names, a);
    }
    HonestSteps(study, policy, arms, names, SortBy(names, StrLeq), []);
  }
}
