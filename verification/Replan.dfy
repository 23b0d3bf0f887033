/** Runs of the resume executor: what they call, what they leave behind, and planning again. */
module Replan {
  import opened Prelude
  import opened Ordering
  import opened Contracts
  import opened Store
  import opened Resume
  import opened Planner

  // ---- progress -----------------------------------------------------------------------------

  /** A settled decision: a reused one unchanged, an executed one with its verified reference. */
  predicate Settles(d: Decision, o: Decision) {
    && o.ref.Some? && (if d.disposition == Reused then o == d else o == Verified(d, o.ref.value))
  }

  predicate SettlesAll(ds: seq<Decision>, out: seq<Decision>) {
    |out| == |ds| && forall j | 0 <= j < |ds| :: Settles(ds[j], out[j])
  }

  /** One call for each executed layer, in order, with the chain of everything before it. */
  function CallsFor(ds: seq<Decision>, out: seq<Decision>, chain: Chain): seq<Call>
    requires SettlesAll(ds, out)
    decreases |ds|
  {
    if ds == [] then []
    else (if ds[0].disposition == Executed then [Call(ds[0].layer, chain)] else []) +
         CallsFor(ds[1..], out[1..], chain[ds[0].layer := out[0].ref.value])
  }

  /** How far a run of the executor gets: all the way, or up to a stage that fails, with every
      decision before it settled and one call for each stage it has run. */
  ghost predicate Gets(ds: seq<Decision>, completed: seq<Decision>, chain: Chain, calls: seq<Call>, run: Run, out: seq<Decision>) {
    match run.outcome
    case Done(all, _) => SettlesAll(ds, out) && all == completed + out && run.calls == calls + CallsFor(ds, out, chain)
    case StageFailed(done, failed, _) =>
      && |out| < |ds| && SettlesAll(ds[..|out|], out) && done == completed + out
      && ds[|out|].disposition == Executed && failed == FailedDecision(ds[|out|])
      && run.calls == calls + CallsFor(ds[..|out|], out, chain) + [Call(ds[|out|].layer, ChainAfter(chain, out))]
    case Rejected(_) => true
  }

  lemma GetsOneMore(ds: seq<Decision>, completed: seq<Decision>, chain: Chain, calls: seq<Call>, run: Run, o: Decision, out: seq<Decision>)
    requires ds != [] && Settles(ds[0], o) && o.layer == ds[0].layer
    requires var more := calls + if ds[0].disposition == Executed then [Call(ds[0].layer, chain)] else [];
             Gets(ds[1..], completed + [o], chain[ds[0].layer := o.ref.value], more, run, out)
    ensures Gets(ds, completed, chain, calls, run, [o] + out)
  {
    var all, own := [o] + out, if ds[0].disposition == Executed then [Call(ds[0].layer, chain)] else [];
    var next := chain[ds[0].layer := o.ref.value];
    assert all[1..] == out && completed + [o] + out == completed + all;
    match run.outcome {
      case Done(_, _) =>
        SettlesMore(ds, o, out);
        CallsMore(ds, o, out, chain);
        hide *;
        Regroup(calls, own, CallsFor(ds[1..], out, next));
      case StageFailed(_, _, _) =>
        var n := |out|;
        assert ds[..n + 1][1..] == ds[1..][..n] && ds[n + 1] == ds[1..][n] && ds[..n + 1][0] == ds[0];
        SettlesMore(ds[..n + 1], o, out);
        CallsMore(ds[..n + 1], o, out, chain);
        assert ChainAfter(chain, all) == ChainAfter(next, out);
        Regroup(calls, own, CallsFor(ds[1..][..n], out, next));
        hide SettlesAll, CallsFor, ChainAfter;
      case Rejected(_) =>
    }
  }

  lemma SettlesMore(ds: seq<Decision>, o: Decision, out: seq<Decision>)
    requires ds != [] && Settles(ds[0], o) && SettlesAll(ds[1..], out)
    ensures SettlesAll(ds, [o] + out)
  {
    hide Settles;
    forall j | 0 <= j < |ds| ensures Settles(ds[j], ([o] + out)[j]) {
      if j > 0 { assert ds[j] == ds[1..][j - 1]; }
    }
  }

  lemma CallsMore(ds: seq<Decision>, o: Decision, out: seq<Decision>, chain: Chain)
    requires ds != [] && SettlesAll(ds, [o] + out) && SettlesAll(ds[1..], out) && o.ref.Some?
    ensures CallsFor(ds, [o] + out, chain) ==
            (if ds[0].disposition == Executed then [Call(ds[0].layer, chain)] else []) +
            CallsFor(ds[1..], out, chain[ds[0].layer := o.ref.value])
  {
    assert ([o] + out)[1..] == out;
    hide SettlesAll;
  }

  /** A run that returns has called the stage of every executed layer exactly once, in order, and
      settled every decision; a run that fails carries exactly the settled prefix and the decision
      of the failed layer. */
  lemma {:induction false} RunProgress(codec: Codec, validator: Validator, stage: Stage, packages: Packages, ds: seq<Decision>,
                                       completed: seq<Decision>, upstream: Option<ManifestRef>, chain: Chain, calls: seq<Call>)
    returns (out: seq<Decision>)
    ensures Gets(ds, completed, chain, calls, ExecuteFrom(codec, validator, stage, packages, ds, completed, upstream, chain, calls), out)
    decreases |ds|
  {
    out := [];
    var run := ExecuteFrom(codec, validator, stage, packages, ds, completed, upstream, chain, calls);
    hide Loads, ManifestAt;
    if ds == [] {
      assert completed + [] == completed && calls + [] == calls;
    } else if ds[0].disposition == Reused {
      if ds[0].ref.Some? && validator(packages, ds[0].ref.value, chain) {
        var rest := RunProgress(codec, validator, stage, packages, ds[1..], completed + [ds[0]], ds[0].ref,
                                chain[ds[0].layer := ds[0].ref.value], calls);
        hide ExecuteFrom, Gets;
        assert calls + [] == calls;
        GetsOneMore(ds, completed, chain, calls, run, ds[0], rest);
        out := [ds[0]] + rest;
      }
    } else {
      var staged := stage(packages, ds[0].layer, chain);
      var more := calls + [Call(ds[0].layer, chain)];
      if Boundary(codec, validator, ds[0], staged, upstream, chain) {
        var o := Verified(ds[0], staged.ref.value);
        var rest := RunProgress(codec, validator, stage, staged.packages, ds[1..], completed + [o], staged.ref,
                                chain[ds[0].layer := staged.ref.value], more);
        hide ExecuteFrom, Gets;
        GetsOneMore(ds, completed, chain, calls, run, o, rest);
        out := [o] + rest;
      } else {
        assert ds[..0] == [] && completed + [] == completed;
        assert calls + [] + [Call(ds[0].layer, chain)] == more;
      }
    }
  }

  // ---- the packages a finished run leaves behind ------------------------------------------------

  /** A stage may add packages but changes none that is there. */
  ghost predicate Preserving(stage: Stage) {
    forall packages, layer, chain, ns ::
      ns in packages ==>
        ns in stage(packages, layer, chain).packages && stage(packages, layer, chain).packages[ns] == packages[ns]
  }

  /** The parents of a layer in a plan that starts at Bronze. */
  function PlannedParents(out: seq<Decision>, j: nat): seq<ManifestRef>
    requires j <= |out| && j <= 3 && forall i :: 0 <= i < j ==> out[i].ref.Some?
  {
    if j == 0 then []
    else if j == 1 then [out[0].ref.value]
    else if j == 2 then [out[1].ref.value]
    else [out[1].ref.value, out[2].ref.value]
  }

  /** A settled decision whose package loads, is of the planned layer and lists exactly its parents. */
  ghost predicate StandsAt(codec: Codec, packages: Packages, out: seq<Decision>, j: nat) {
    && j < |out| && j < 4 && (forall i :: 0 <= i <= j ==> out[i].ref.Some?)
    && out[j].layer == LAYERS[j] && out[j].ref.value.layer == LAYERS[j]
    && Loads(codec, packages, out[j].ref.value)
    && ManifestAt(codec, packages, out[j].ref.value).upstream == PlannedParents(out, j)
  }

  ghost predicate Stands(codec: Codec, packages: Packages, out: seq<Decision>) {
    |out| <= 4 && forall j :: 0 <= j < |out| ==> StandsAt(codec, packages, out, j)
  }

  function LinksOf(out: seq<Decision>): Chain
    requires |out| <= 4 && forall i :: 0 <= i < |out| ==> out[i].ref.Some?
  {
    if |out| == 4 then Links(out, 3)[Platinum := out[3].ref.value] else Links(out, |out|)
  }

  /** The executor's variables after some settled decisions. */
  ghost predicate Holds(out: seq<Decision>, upstream: Option<ManifestRef>, chain: Chain) {
    && |out| <= 4 && (forall i :: 0 <= i < |out| ==> out[i].ref.Some?)
    && upstream == (if out == [] then None else out[|out| - 1].ref)
    && chain == LinksOf(out)
  }

  lemma StandsKept(codec: Codec, packages: Packages, stage: Stage, layer: Layer, chain: Chain, out: seq<Decision>)
    requires Preserving(stage) && Stands(codec, packages, out)
    ensures Stands(codec, stage(packages, layer, chain).packages, out)
  {
    var after := stage(packages, layer, chain).packages;
    forall j | 0 <= j < |out| ensures StandsAt(codec, after, out, j) {
      assert StandsAt(codec, packages, out, j);
      var ns := Namespace(out[j].ref.value.layer, out[j].ref.value.runId);
      assert ns in after && after[ns] == packages[ns];
    }
  }

  /** Only a package of the planned layer can pass the default validator and list its parent. */
  lemma LayerForced(codec: Codec, packages: Packages, out: seq<Decision>, upstream: Option<ManifestRef>, chain: Chain, ref: ManifestRef)
    requires Stands(codec, packages, out) && |out| < 4 && Holds(out, upstream, chain)
    requires Loads(codec, packages, ref) && Parents(ref.layer, chain) == Some(ManifestAt(codec, packages, ref).upstream)
    requires ref.layer == LAYERS[|out|] || (upstream.Some? ==> upstream.value in ManifestAt(codec, packages, ref).upstream)
    ensures ref.layer == LAYERS[|out|]
    ensures ManifestAt(codec, packages, ref).upstream == PlannedParents(out, |out|)
  {
    assert |out| > 0 ==> StandsAt(codec, packages, out, 0);
    assert |out| > 1 ==> StandsAt(codec, packages, out, 1);
    assert |out| > 2 ==> StandsAt(codec, packages, out, 2);
    hide Loads, ManifestAt, Stands;
  }

  lemma StandsMore(codec: Codec, packages: Packages, out: seq<Decision>, o: Decision, upstream: Option<ManifestRef>, chain: Chain)
    requires Stands(codec, packages, out) && |out| < 4 && Holds(out, upstream, chain)
    requires o.ref.Some? && o.layer == LAYERS[|out|] && o.ref.value.layer == LAYERS[|out|]
    requires Loads(codec, packages, o.ref.value)
    requires ManifestAt(codec, packages, o.ref.value).upstream == PlannedParents(out, |out|)
    ensures Stands(codec, packages, out + [o]) && Holds(out + [o], o.ref, chain[o.layer := o.ref.value])
  {
    hide Loads, ManifestAt;
    var all := out + [o];
    forall j | 0 <= j < |all| ensures StandsAt(codec, packages, all, j) {
      if j < |out| { assert StandsAt(codec, packages, out, j); }
    }
  }

  /** The plan covers the first layers, and its reused references are of their own layer. */
  ghost predicate FromBronze(ds: seq<Decision>, n: nat) {
    && n + |ds| <= 4
    && (forall j :: 0 <= j < |ds| ==> ds[j].layer == LAYERS[n + j])
    && (forall j :: 0 <= j < |ds| && ds[j].disposition == Reused && ds[j].ref.Some? ==> ds[j].ref.value.layer == ds[j].layer)
  }

  /** When a run over a plan that starts at Bronze returns, every package it names, reused or
      executed, still loads, is of its planned layer and lists exactly its planned parents. */
  lemma {:induction false} FinishedRunStands(codec: Codec, stage: Stage, packages: Packages, ds: seq<Decision>, out: seq<Decision>,
                                             upstream: Option<ManifestRef>, chain: Chain, calls: seq<Call>)
    requires Preserving(stage) && FromBronze(ds, |out|)
    requires Stands(codec, packages, out) && Holds(out, upstream, chain)
    ensures var run := ExecuteFrom(codec, DefaultValidator(codec), stage, packages, ds, out, upstream, chain, calls);
            run.outcome.Done? ==> Stands(codec, run.outcome.packages, run.outcome.decisions)
    ensures var run := ExecuteFrom(codec, DefaultValidator(codec), stage, packages, ds, out, upstream, chain, calls);
            run.outcome.StageFailed? ==> Stands(codec, run.outcome.packages, run.outcome.completed)
    decreases |ds|
  {
    var validator := DefaultValidator(codec);
    if ds != [] {
      var d := ds[0];
      TailFromBronze(ds, |out|);
      if d.disposition == Reused {
        if d.ref.Some? && validator(packages, d.ref.value, chain) {
          ValidatorMeans(codec, packages, d.ref.value, chain);
          hide Loads, ManifestAt, Stands, Holds, FromBronze, DefaultValidator, Boundary, Preserving, Parents;
          LayerForced(codec, packages, out, upstream, chain, d.ref.value);
          StandsMore(codec, packages, out, d, upstream, chain);
          FinishedRunStands(codec, stage, packages, ds[1..], out + [d], d.ref, chain[d.layer := d.ref.value], calls);
        }
      } else {
        var staged := stage(packages, d.layer, chain);
        StandsKept(codec, packages, stage, d.layer, chain, out);
        if Boundary(codec, validator, d, staged, upstream, chain) {
          ValidatorMeans(codec, staged.packages, staged.ref.value, chain);
          var o := Verified(d, staged.ref.value);
          hide Loads, ManifestAt, Stands, Holds, FromBronze, DefaultValidator, Preserving, Parents;
          LayerForced(codec, staged.packages, out, upstream, chain, staged.ref.value);
          StandsMore(codec, staged.packages, out, o, upstream, chain);
          FinishedRunStands(codec, stage, staged.packages, ds[1..], out + [o], staged.ref, chain[d.layer := staged.ref.value],
                            calls + [Call(d.layer, chain)]);
        }
      }
    }
  }

  /** A stage that does its work: a package of its layer that loads, with the planned fingerprint and
      exactly the parents that the chain gives. */
  ghost predicate HonestStage(codec: Codec, stage: Stage, packages: Packages, d: Decision, chain: Chain) {
    var staged := stage(packages, d.layer, chain);
    && staged.ref.Some? && staged.ref.value.layer == d.layer && Loads(codec, staged.packages, staged.ref.value)
    && ManifestAt(codec, staged.packages, staged.ref.value).layerFingerprint == d.expected
    && Parents(d.layer, chain) == Some(ManifestAt(codec, staged.packages, staged.ref.value).upstream)
  }

  /** The chain holds the layers before the `n`th, and the last of them is the parent in line. */
  ghost predicate InLine(n: nat, upstream: Option<ManifestRef>, chain: Chain) {
    && n <= |LAYERS| && (forall k :: 0 <= k < n ==> LAYERS[k] in chain)
    && upstream == if n == 0 then None else Some(chain[LAYERS[n - 1]])
  }

  lemma HonestPasses(codec: Codec, stage: Stage, packages: Packages, d: Decision, n: nat, upstream: Option<ManifestRef>, chain: Chain)
    requires HonestStage(codec, stage, packages, d, chain) && InLine(n, upstream, chain) && n < |LAYERS| && d.layer == LAYERS[n]
    ensures Boundary(codec, DefaultValidator(codec), d, stage(packages, d.layer, chain), upstream, chain)
    ensures InLine(n + 1, stage(packages, d.layer, chain).ref, chain[d.layer := stage(packages, d.layer, chain).ref.value])
  {
    hide Loads, ManifestAt;
  }

  /** Whatever the stages before have left, the stage of every decision does its work. */
  ghost predicate HonestStages(codec: Codec, stage: Stage, ds: seq<Decision>) {
    forall packages, chain, k :: 0 <= k < |ds| && Parents(ds[k].layer, chain).Some? ==> HonestStage(codec, stage, packages, ds[k], chain)
  }

  /** The decisions of `ds` are settled in order after those completed before. */
  ghost predicate SettledAfter(completed: seq<Decision>, ds: seq<Decision>, out: seq<Decision>) {
    && |out| == |completed| + |ds|
    && forall k :: 0 <= k < |ds| ==>
         var d := out[|completed| + k];
         d.layer == ds[k].layer && d.expected == ds[k].expected && d.state == Some(Succeeded) && d.ref.Some?
  }

  lemma SettledOneMore(completed: seq<Decision>, settled: Decision, ds: seq<Decision>, out: seq<Decision>)
    requires ds != [] && SettledAfter(completed + [settled], ds[1..], out) && completed + [settled] <= out
    requires settled.layer == ds[0].layer && settled.expected == ds[0].expected && settled.state == Some(Succeeded) && settled.ref.Some?
    ensures SettledAfter(completed, ds, out)
  {
    assert out[|completed|] == (completed + [settled])[|completed|];
    forall k | 0 < k < |ds|
      ensures var d := out[|completed| + k];
              d.layer == ds[k].layer && d.expected == ds[k].expected && d.state == Some(Succeeded) && d.ref.Some?
    {
      assert ds[1..][k - 1] == ds[k] && |completed + [settled]| + (k - 1) == |completed| + k;
    }
  }

  lemma StageRuns(codec: Codec, stage: Stage, packages: Packages, ds: seq<Decision>, n: nat, completed: seq<Decision>,
                  upstream: Option<ManifestRef>, chain: Chain, calls: seq<Call>)
    requires ds != [] && ds[0].disposition == Executed && n < |LAYERS| && ds[0].layer == LAYERS[n] && InLine(n, upstream, chain)
    requires HonestStages(codec, stage, ds)
    ensures var d, staged := ds[0], stage(packages, ds[0].layer, chain);
            && staged.ref.Some? && InLine(n + 1, staged.ref, chain[d.layer := staged.ref.value])
            && ExecuteFrom(codec, DefaultValidator(codec), stage, packages, ds, completed, upstream, chain, calls) ==
               ExecuteFrom(codec, DefaultValidator(codec), stage, staged.packages, ds[1..], completed + [Verified(d, staged.ref.value)],
                           staged.ref, chain[d.layer := staged.ref.value], calls + [Call(d.layer, chain)])
  {
    ParentsInLine(n, upstream, chain);
    assert HonestStage(codec, stage, packages, ds[0], chain);
    HonestPasses(codec, stage, packages, ds[0], n, upstream, chain);
    hide Loads, ManifestAt, InLine, Boundary, DefaultValidator;
  }

  lemma HonestTail(codec: Codec, stage: Stage, ds: seq<Decision>)
    requires ds != [] && HonestStages(codec, stage, ds)
    ensures HonestStages(codec, stage, ds[1..])
  {
    hide HonestStage;
    forall packages, chain, k | 0 <= k < |ds[1..]| && Parents(ds[1..][k].layer, chain).Some?
      ensures HonestStage(codec, stage, packages, ds[1..][k], chain)
    {
      assert ds[1..][k] == ds[k + 1];
    }
  }

  /** A run from Bronze whose stages do their work finishes with every layer settled. */
  lemma {:induction false} HonestRunFinishes(codec: Codec, stage: Stage, packages: Packages, ds: seq<Decision>, n: nat, completed: seq<Decision>,
                                             upstream: Option<ManifestRef>, chain: Chain, calls: seq<Call>)
    requires HonestStages(codec, stage, ds) && InLine(n, upstream, chain)
    requires n + |ds| <= |LAYERS| && forall k :: 0 <= k < |ds| ==> ds[k].layer == LAYERS[n + k] && ds[k].disposition == Executed
    ensures var run := ExecuteFrom(codec, DefaultValidator(codec), stage, packages, ds, completed, upstream, chain, calls);
            run.outcome.Done? && SettledAfter(completed, ds, run.outcome.decisions)
    decreases |ds|
  {
    if ds != [] {
      var d := ds[0];
      StageRuns(codec, stage, packages, ds, n, completed, upstream, chain, calls);
      HonestTail(codec, stage, ds);
      var staged := stage(packages, d.layer, chain);
      var settled, next, more := Verified(d, staged.ref.value), chain[d.layer := staged.ref.value], calls + [Call(d.layer, chain)];
      hide ExecuteFrom, InLine, DefaultValidator, HonestStages, SettledAfter;
      HonestRunFinishes(codec, stage, staged.packages, ds[1..], n + 1, completed + [settled], staged.ref, next, more);
      CompletedKept(codec, DefaultValidator(codec), stage, staged.packages, ds[1..], completed + [settled], staged.ref, next, more);
      SettledOneMore(completed, settled, ds,
                     ExecuteFrom(codec, DefaultValidator(codec), stage, staged.packages, ds[1..], completed + [settled], staged.ref, next, more).outcome.decisions);
    }
  }

  lemma ParentsInLine(n: nat, upstream: Option<ManifestRef>, chain: Chain)
    requires InLine(n, upstream, chain) && n < |LAYERS|
    ensures Parents(LAYERS[n], chain).Some?
  {
    assert n > 1 ==> LAYERS[1] == Silver && LAYERS[1] in chain;
    assert n > 0 ==> LAYERS[0] == Bronze && LAYERS[0] in chain;
    assert n > 2 ==> LAYERS[2] == Gold && LAYERS[2] in chain;
  }

  lemma {:induction false} CompletedKept(codec: Codec, validator: Validator, stage: Stage, packages: Packages, ds: seq<Decision>,
                                         completed: seq<Decision>, upstream: Option<ManifestRef>, chain: Chain, calls: seq<Call>)
    ensures var outcome := ExecuteFrom(codec, validator, stage, packages, ds, completed, upstream, chain, calls).outcome;
            outcome.Done? ==> completed <= outcome.decisions
    decreases |ds|
  {
    hide Loads, ManifestAt;
    if ds != [] {
      var d := ds[0];
      if d.disposition == Reused {
        if d.ref.Some? && validator(packages, d.ref.value, chain) {
          CompletedKept(codec, validator, stage, packages, ds[1..], completed + [d], d.ref, chain[d.layer := d.ref.value], calls);
        }
      } else {
        var staged := stage(packages, d.layer, chain);
        if Boundary(codec, validator, d, staged, upstream, chain) {
          CompletedKept(codec, validator, stage, staged.packages, ds[1..], completed + [Verified(d, staged.ref.value)], staged.ref,
                        chain[d.layer := staged.ref.value], calls + [Call(d.layer, chain)]);
        }
      }
    }
  }

  /** Every planned layer's stage does its work, whatever was left before it. */
  ghost predicate HonestFor(codec: Codec, stage: Stage, expected: map<Layer, string>) {
    forall packages, chain, d: Decision :: d.layer in expected && d.expected == expected[d.layer] && Parents(d.layer, chain).Some? ==>
      HonestStage(codec, stage, packages, d, chain)
  }

  /** The first `m` layers are the expected ones. */
  ghost predicate FirstLayers(expected: map<Layer, string>, m: nat) {
    && m <= |LAYERS|
    && forall k :: 0 <= k < |LAYERS| ==> (LAYERS[k] in expected <==> k < m)
  }

  lemma {:induction false} ExpectedFrom(expected: map<Layer, string>, n: nat, m: nat)
    requires FirstLayers(expected, m) && n <= |LAYERS|
    ensures ExpectedAmong(LAYERS[n..], expected) == if n <= m then LAYERS[n..m] else []
    decreases |LAYERS| - n
  {
    if n < |LAYERS| {
      assert LAYERS[n..][0] == LAYERS[n] && LAYERS[n..][1..] == LAYERS[n + 1..];
      ExpectedFrom(expected, n + 1, m);
      if n < m { assert LAYERS[n..m] == [LAYERS[n]] + LAYERS[n + 1..m]; }
    }
  }

  /** The executed rest of a plan. */
  lemma ExecutedRest(codec: Codec, stage: Stage, expected: map<Layer, string>, packages: Packages, ds: seq<Decision>, n: nat, m: nat,
                     completed: seq<Decision>, upstream: Option<ManifestRef>, chain: Chain, calls: seq<Call>)
    requires HonestFor(codec, stage, expected) && InLine(n, upstream, chain) && n <= m <= |LAYERS|
    requires LayersIn(ds) == LAYERS[n..m]
    requires forall i :: 0 <= i < |ds| ==> ds[i].layer in expected && ds[i].expected == expected[ds[i].layer] && ds[i].disposition == Executed
    ensures var run := ExecuteFrom(codec, DefaultValidator(codec), stage, packages, ds, completed, upstream, chain, calls);
            run.outcome.Done? && SettledAfter(completed, ds, run.outcome.decisions)
  {
    forall k | 0 <= k < |ds| ensures ds[k].layer == LAYERS[n + k] { assert LayersIn(ds)[k] == LAYERS[n..m][k]; }
    assert |ds| == |LayersIn(ds)| == m - n;
    hide HonestStage, ExecuteFrom, InLine, SettledAfter, DefaultValidator, LayersIn;
    HonestRunFinishes(codec, stage, packages, ds, n, completed, upstream, chain, calls);
  }

  lemma ReusedRuns(r: Request, disk: Disk, stage: Stage, ds: seq<Decision>, n: nat, completed: seq<Decision>,
                   upstream: Option<ManifestRef>, chain: Chain, calls: seq<Call>)
    requires r.validator == DefaultValidator(r.codec) && InLine(n, upstream, chain) && n < |LAYERS| && LAYERS[n] in r.expected
    requires Reuse(r, disk, LAYERS[n], upstream, chain).Reusable? && ds != []
    requires ds[0] == ReusedDecision(r, LAYERS[n], Reuse(r, disk, LAYERS[n], upstream, chain).ref)
    ensures var ref := Reuse(r, disk, LAYERS[n], upstream, chain).ref;
            && InLine(n + 1, Some(ref), chain[LAYERS[n] := ref])
            && ExecuteFrom(r.codec, DefaultValidator(r.codec), stage, disk.packages, ds, completed, upstream, chain, calls) ==
               ExecuteFrom(r.codec, DefaultValidator(r.codec), stage, disk.packages, ds[1..], completed + [ds[0]], Some(ref),
                           chain[LAYERS[n] := ref], calls)
  {
    var ref := Reuse(r, disk, LAYERS[n], upstream, chain).ref;
    assert DefaultValidator(r.codec)(disk.packages, ref, chain);
    hide Find, QueryFor, Loads, ManifestAt, DefaultValidator;
  }

  /** The run of these decisions ends with all of them settled. */
  ghost predicate Finishes(codec: Codec, stage: Stage, packages: Packages, ds: seq<Decision>, completed: seq<Decision>,
                           upstream: Option<ManifestRef>, chain: Chain, calls: seq<Call>) {
    var outcome := ExecuteFrom(codec, DefaultValidator(codec), stage, packages, ds, completed, upstream, chain, calls).outcome;
    outcome.Done? && SettledAfter(completed, ds, outcome.decisions)
  }

  lemma ReusedFinishes(r: Request, disk: Disk, stage: Stage, ds: seq<Decision>, n: nat, completed: seq<Decision>,
                       upstream: Option<ManifestRef>, chain: Chain, calls: seq<Call>)
    requires !r.dryRun && r.validator == DefaultValidator(r.codec) && InLine(n, upstream, chain) && n < |LAYERS| && LAYERS[n] in r.expected
    requires Reuse(r, disk, LAYERS[n], upstream, chain).Reusable? && ds != []
    requires ds[0] == ReusedDecision(r, LAYERS[n], Reuse(r, disk, LAYERS[n], upstream, chain).ref)
    requires var ref := Reuse(r, disk, LAYERS[n], upstream, chain).ref;
             Finishes(r.codec, stage, disk.packages, ds[1..], completed + [ds[0]], Some(ref), chain[LAYERS[n] := ref], calls)
    ensures Finishes(r.codec, stage, disk.packages, ds, completed, upstream, chain, calls)
  {
    var ref := Reuse(r, disk, LAYERS[n], upstream, chain).ref;
    ReusedRuns(r, disk, stage, ds, n, completed, upstream, chain, calls);
    CompletedKept(r.codec, DefaultValidator(r.codec), stage, disk.packages, ds[1..], completed + [ds[0]], Some(ref), chain[LAYERS[n] := ref], calls);
    hide Reuse, ExecuteFrom, InLine, SettledAfter, DefaultValidator;
    SettledOneMore(completed, ds[0], ds,
                   ExecuteFrom(r.codec, DefaultValidator(r.codec), stage, disk.packages, ds[1..], completed + [ds[0]], Some(ref),
                               chain[LAYERS[n] := ref], calls).outcome.decisions);
  }

  /** One layer of a plan: what is reused there, or that everything from there on is executed. */
  lemma PlanStep(r: Request, disk: Disk, n: nat, m: nat, upstream: Option<ManifestRef>, chain: Chain)
    requires n < m && FirstLayers(r.expected, m) && PlanFrom(r, disk, LAYERS[n..], upstream, chain, true).Some?
    ensures LAYERS[n] in r.expected
    ensures var ds := PlanFrom(r, disk, LAYERS[n..], upstream, chain, true).value;
            && LayersIn(ds) == LAYERS[n..m]
            && match Reuse(r, disk, LAYERS[n], upstream, chain)
               case Reusable(ref) =>
                 && ds != [] && ds[0] == ReusedDecision(r, LAYERS[n], ref)
                 && PlanFrom(r, disk, LAYERS[n + 1..], Some(ref), chain[LAYERS[n] := ref], true) == Some(ds[1..])
               case _ => AllExecuted(r, ds)
  {
    var layers := LAYERS[n..];
    assert layers[0] == LAYERS[n] && layers[1..] == LAYERS[n + 1..];
    LayersThere(r.expected, m);
    hide *;
    PlanLists(r, disk, layers, upstream, chain, true);
    ExpectedFrom(r.expected, n, m);
    PlanUnfolds(r, disk, layers, upstream, chain);
  }

  lemma PlanUnfolds(r: Request, disk: Disk, layers: seq<Layer>, upstream: Option<ManifestRef>, chain: Chain)
    requires layers != [] && layers[0] in r.expected && PlanFrom(r, disk, layers, upstream, chain, true).Some?
    ensures var ds := PlanFrom(r, disk, layers, upstream, chain, true).value;
            match Reuse(r, disk, layers[0], upstream, chain)
            case Reusable(ref) =>
              && ds != [] && ds[0] == ReusedDecision(r, layers[0], ref)
              && PlanFrom(r, disk, layers[1..], Some(ref), chain[layers[0] := ref], true) == Some(ds[1..])
            case _ => AllExecuted(r, ds)
  {
    hide Reuse;
    if !Reuse(r, disk, layers[0], upstream, chain).Reusable? {
      NothingReused(r, disk, layers[1..], upstream, chain);
    }
  }

  /** Planning and then running: where the first layers are expected and the stages of all of them do their work, the
      run of any plan over the same packages finishes with every decision settled. */
  lemma {:induction false} PlanThenRun(r: Request, disk: Disk, stage: Stage, n: nat, m: nat, completed: seq<Decision>,
                                       upstream: Option<ManifestRef>, chain: Chain, calls: seq<Call>)
    requires !r.dryRun && r.validator == DefaultValidator(r.codec) && HonestFor(r.codec, stage, r.expected)
    requires n <= m && FirstLayers(r.expected, m) && InLine(n, upstream, chain)
    requires PlanFrom(r, disk, LAYERS[n..], upstream, chain, true).Some?
    ensures Finishes(r.codec, stage, disk.packages, PlanFrom(r, disk, LAYERS[n..], upstream, chain, true).value, completed, upstream, chain, calls)
    decreases m - n
  {
    LayersThere(r.expected, m);
    hide *;
    var ds := PlanFrom(r, disk, LAYERS[n..], upstream, chain, true).value;
    if n == m {
      PlanLists(r, disk, LAYERS[n..], upstream, chain, true);
      ExpectedFrom(r.expected, n, m);
      assert |LayersIn(ds)| == 0;
      RestFinishes(r, stage, disk.packages, ds, n, m, completed, upstream, chain, calls);
    } else {
      PlanStep(r, disk, n, m, upstream, chain);
      var attempt := Reuse(r, disk, LAYERS[n], upstream, chain);
      if attempt.Reusable? {
        ReusedRuns(r, disk, stage, ds, n, completed, upstream, chain, calls);
        PlanThenRun(r, disk, stage, n + 1, m, completed + [ds[0]], Some(attempt.ref), chain[LAYERS[n] := attempt.ref], calls);
        ReusedFinishes(r, disk, stage, ds, n, completed, upstream, chain, calls);
      } else {
        RestFinishes(r, stage, disk.packages, ds, n, m, completed, upstream, chain, calls);
      }
    }
  }

  lemma LayersThere(expected: map<Layer, string>, m: nat)
    requires FirstLayers(expected, m)
    ensures m <= |LAYERS|
  {
  }

  lemma RestFinishes(r: Request, stage: Stage, packages: Packages, ds: seq<Decision>, n: nat, m: nat, completed: seq<Decision>,
                     upstream: Option<ManifestRef>, chain: Chain, calls: seq<Call>)
    requires HonestFor(r.codec, stage, r.expected) && InLine(n, upstream, chain) && n <= m <= |LAYERS|
    requires LayersIn(ds) == LAYERS[n..m] && (ds == [] || AllExecuted(r, ds))
    ensures Finishes(r.codec, stage, packages, ds, completed, upstream, chain, calls)
  {
    ExecutedRest(r.codec, stage, r.expected, packages, ds, n, m, completed, upstream, chain, calls);
    hide ExecuteFrom, HonestFor, InLine, SettledAfter;
  }

  /** From the planner to the executor in one statement. */
  lemma PlannedRunFinishes(r: Request, disk: Disk, stage: Stage, m: nat)
    requires !r.dryRun && r.policy.enabled && r.validator == DefaultValidator(r.codec)
    requires HonestFor(r.codec, stage, r.expected) && FirstLayers(r.expected, m) && PlanFor(r, disk).Some?
    ensures var ds := PlanFor(r, disk).value.decisions;
            Finishes(r.codec, stage, disk.packages, ds, [], None, map[], [])
  {
    assert LAYERS[0..] == LAYERS;
    hide HonestFor, FirstLayers, Finishes, PlanFrom;
    PlanThenRun(r, disk, stage, 0, m, [], None, map[], []);
  }

  /** A stage that fails is recorded as failed, with its layer and its expectation. */
  lemma {:induction false} FailureIsRecorded(codec: Codec, validator: Validator, stage: Stage, packages: Packages, ds: seq<Decision>,
                                             completed: seq<Decision>, upstream: Option<ManifestRef>, chain: Chain, calls: seq<Call>)
    ensures var outcome := ExecuteFrom(codec, validator, stage, packages, ds, completed, upstream, chain, calls).outcome;
            outcome.StageFailed? ==>
              && outcome.failed.state == Some(Failed) && outcome.failed.reason == ExecutionFailed
              && exists d :: d in ds && d.disposition == Executed && outcome.failed.layer == d.layer && outcome.failed.expected == d.expected
    decreases |ds|
  {
    hide Loads, ManifestAt;
    if ds != [] {
      var d := ds[0];
      assert forall e :: e in ds[1..] ==> e in ds;
      assert d in ds;
      if d.disposition == Reused {
        if d.ref.Some? && validator(packages, d.ref.value, chain) {
          FailureIsRecorded(codec, validator, stage, packages, ds[1..], completed + [d], d.ref, chain[d.layer := d.ref.value], calls);
        }
      } else {
        var staged := stage(packages, d.layer, chain);
        if Boundary(codec, validator, d, staged, upstream, chain) {
          FailureIsRecorded(codec, validator, stage, staged.packages, ds[1..], completed + [Verified(d, staged.ref.value)], staged.ref,
                            chain[d.layer := staged.ref.value], calls + [Call(d.layer, chain)]);
        }
      }
    }
  }

  lemma ValidatorMeans(codec: Codec, packages: Packages, ref: ManifestRef, chain: Chain)
    requires DefaultValidator(codec)(packages, ref, chain)
    ensures Loads(codec, packages, ref) && Parents(ref.layer, chain) == Some(ManifestAt(codec, packages, ref).upstream)
  {
    assert SemanticPackage(codec, packages, ref, chain);
  }

  lemma TailFromBronze(ds: seq<Decision>, n: nat)
    requires ds != [] && FromBronze(ds, n)
    ensures FromBronze(ds[1..], n + 1) && n < 4 && ds[0].layer == LAYERS[n]
    ensures ds[0].disposition == Reused && ds[0].ref.Some? ==> ds[0].ref.value.layer == LAYERS[n]
  {
    forall j | 0 <= j < |ds| - 1 ensures ds[1..][j] == ds[j + 1] && LAYERS[n + 1 + j] == LAYERS[n + (j + 1)] {
    }
  }

  // ---- planning again after a run ------------------------------------------------------------------

  /** The scan for a run returns that run's own package exactly when its identity, the reuse
      fingerprint if it has one and the layer fingerprint otherwise, is the expected one and its
      parents are the expected ones. */
  lemma OwnPackageFound(codec: Codec, disk: Disk, q: Query, ref: ManifestRef)
    requires ref.layer == q.layer && ref.runId == q.preferred && IsSafeId(ref.runId)
    requires ref.runId in disk.listing(q.layer) && Loads(codec, disk.packages, ref)
    ensures Find(codec, disk, q) == Match(ref) <==>
            (&& Identity(ManifestAt(codec, disk.packages, ref)) == q.expected
             && ManifestAt(codec, disk.packages, ref).upstream == q.upstreams)
    ensures !Find(codec, disk, q).Broken?
  {
    assert Load(codec, disk.packages, Namespace(q.layer, ref.runId)) == Some(ref);
    FindMeans(codec, disk, q);
    hide Find, Load, Loads, Identity, ManifestAt;
  }

  function ParentBefore(out: seq<Decision>, j: nat): Option<ManifestRef>
    requires j <= |out|
  {
    if j == 0 then None else out[j - 1].ref
  }

  /** Decisions whose references all belong to one run, on a disk that lists its packages. */
  ghost predicate OwnIds(r: Request, disk: Disk, out: seq<Decision>) {
    && IsSafeId(r.runId) && Listed(disk) && r.validator == DefaultValidator(r.codec)
    && forall j :: 0 <= j < |out| ==>
         out[j].ref.Some? && out[j].ref.value.runId == r.runId && out[j].layer in r.expected
  }

  ghost predicate OwnRun(r: Request, disk: Disk, out: seq<Decision>) {
    OwnIds(r, disk, out) && Stands(r.codec, disk.packages, out)
  }

  /** Whether the package of a layer has the identity that the planner looks for. */
  predicate IdentityExpected(r: Request, packages: Packages, d: Decision) {
    && d.ref.Some? && d.layer in r.expected && Loads(r.codec, packages, d.ref.value)
    && Identity(ManifestAt(r.codec, packages, d.ref.value)) == r.expected[d.layer]
  }

  /** Under the packages of the earlier layers, a layer's own package is reused if and only if its
      identity is the expected one; Platinum's never is. */
  lemma OwnPackageReused(r: Request, disk: Disk, out: seq<Decision>, j: nat)
    requires OwnRun(r, disk, out) && j < |out|
    ensures out[j].layer == LAYERS[j] && out[j].layer in r.expected && StandsAt(r.codec, disk.packages, out, j)
    ensures (Reuse(r, disk, LAYERS[j], ParentBefore(out, j), Links(out, j)) == Reusable(out[j].ref.value)) <==>
            j < 3 && IdentityExpected(r, disk.packages, out[j])
  {
    assert StandsAt(r.codec, disk.packages, out, j);
    var ref, upstream, chain := out[j].ref.value, ParentBefore(out, j), Links(out, j);
    var q := QueryFor(r, LAYERS[j], upstream);
    assert ref.runId in disk.listing(LAYERS[j]);
    OwnPackageFound(r.codec, disk, q, ref);
    OwnParents(r.codec, disk.packages, out, j);
    assert r.validator(disk.packages, ref, chain) == SemanticPackage(r.codec, disk.packages, ref, chain);
    hide Find, Loads, ManifestAt, Identity, Stands, Listed, DefaultValidator, Parents;
  }

  lemma OwnParents(codec: Codec, packages: Packages, out: seq<Decision>, j: nat)
    requires StandsAt(codec, packages, out, j)
    ensures Parents(LAYERS[j], Links(out, j)) == Some(ManifestAt(codec, packages, out[j].ref.value).upstream)
    ensures (var parents := if ParentBefore(out, j).Some? then [ParentBefore(out, j).value] else [];
             ManifestAt(codec, packages, out[j].ref.value).upstream == parents) <==> j < 3
  {
    var m := ManifestAt(codec, packages, out[j].ref.value);
    assert j == 3 ==> |m.upstream| == 2;
    hide Loads, ManifestAt;
  }

  /** A plan that starts by reusing these packages of the earlier run. */
  predicate ReusesAgain(again: seq<Decision>, own: seq<Decision>) {
    |again| >= |own| && forall i | 0 <= i < |own| :: again[i].disposition == Reused && again[i].ref == own[i].ref
  }

  lemma ReusesOneMore(d: Decision, again: seq<Decision>, out: seq<Decision>, j: nat, m: nat)
    requires j < m <= |out| && ReusesAgain(again, out[j + 1..m]) && d.disposition == Reused && d.ref == out[j].ref
    ensures ReusesAgain([d] + again, out[j..m])
  {
    assert out[j..m] == [out[j]] + out[j + 1..m];
  }

  /** From a layer on, planning again reuses the run's own packages as long as their identities are
      the expected ones. */
  lemma {:induction false} ReplanFrom(r: Request, disk: Disk, out: seq<Decision>, m: nat, j: nat, layers: seq<Layer>)
    requires OwnRun(r, disk, out) && j <= m <= 3 && m <= |out| && layers == LAYERS[j..]
    requires forall i :: 0 <= i < m ==> IdentityExpected(r, disk.packages, out[i])
    ensures var ds := PlanFrom(r, disk, layers, ParentBefore(out, j), LinksHere(out, j), true);
            ds.Some? ==> ReusesAgain(ds.value, out[j..m])
    decreases m - j
  {
    hide *;
    if j < m {
      OwnPackageReused(r, disk, out, j);
      LinksGrow(r, disk, out, j);
      NextOf(layers, j);
      ReplanFrom(r, disk, out, m, j + 1, layers[1..]);
      PlanHead(r, disk, layers, ParentBefore(out, j), LinksHere(out, j), out[j].ref.value);
      var rest := PlanFrom(r, disk, layers[1..], ParentBefore(out, j + 1), LinksHere(out, j + 1), true);
      if rest.Some? {
        ReusesOneMore(ReusedDecision(r, layers[0], out[j].ref.value), rest.value, out, j, m);
      }
    } else {
      NothingMore(PlanFrom(r, disk, layers, ParentBefore(out, j), LinksHere(out, j), true), out, m);
    }
  }

  lemma NothingMore(ds: Option<seq<Decision>>, out: seq<Decision>, m: nat)
    requires m <= |out|
    ensures ds.Some? ==> ReusesAgain(ds.value, out[m..m])
  {
  }

  lemma NextOf(layers: seq<Layer>, j: nat)
    requires j < 3 && layers == LAYERS[j..]
    ensures layers != [] && layers[0] == LAYERS[j] && layers[1..] == LAYERS[j + 1..]
  {
  }

  lemma PlanHead(r: Request, disk: Disk, layers: seq<Layer>, upstream: Option<ManifestRef>, chain: Chain, ref: ManifestRef)
    requires layers != [] && layers[0] in r.expected && Reuse(r, disk, layers[0], upstream, chain) == Reusable(ref)
    ensures var rest := PlanFrom(r, disk, layers[1..], Some(ref), chain[layers[0] := ref], true);
            var d := ReusedDecision(r, layers[0], ref);
            && PlanFrom(r, disk, layers, upstream, chain, true) == (if rest.None? then None else Some([d] + rest.value))
            && d.disposition == Reused && d.ref == Some(ref)
  {
    hide Reuse;
  }

  function LinksHere(out: seq<Decision>, j: nat): Chain {
    if j <= 3 && j <= |out| && forall i :: 0 <= i < j ==> out[i].ref.Some? then Links(out, j) else map[]
  }

  lemma LinksGrow(r: Request, disk: Disk, out: seq<Decision>, j: nat)
    requires OwnRun(r, disk, out) && j < 3 && j < |out|
    ensures out[j].ref.Some? && LinksHere(out, j) == Links(out, j)
    ensures LinksHere(out, j + 1) == LinksHere(out, j)[LAYERS[j] := out[j].ref.value]
    ensures ParentBefore(out, j + 1) == out[j].ref
  {
    assert StandsAt(r.codec, disk.packages, out, j);
    assert j > 0 ==> StandsAt(r.codec, disk.packages, out, 0);
    assert j > 1 ==> StandsAt(r.codec, disk.packages, out, 1);
  }

  lemma ReplanStanding(r: Request, disk: Disk, out: seq<Decision>, m: nat)
    requires OwnRun(r, disk, out) && m <= 3 && m <= |out|
    requires forall i :: 0 <= i < m ==> IdentityExpected(r, disk.packages, out[i])
    requires r.policy.enabled && PlanFor(r, disk).Some?
    ensures ReusesAgain(PlanFor(r, disk).value.decisions, out[..m])
  {
    LayersFromStart(out);
    PlanForIs(r, disk);
    hide *;
    ReplanFrom(r, disk, out, m, 0, LAYERS);
    assert out[0..m] == out[..m];
  }

  lemma LayersFromStart(out: seq<Decision>)
    ensures LAYERS[0..] == LAYERS && LinksHere(out, 0) == map[] && ParentBefore(out, 0) == None
  {
  }

  lemma PlanForIs(r: Request, disk: Disk)
    requires PlanFor(r, disk).Some?
    ensures PlanFrom(r, disk, LAYERS, None, map[], r.policy.enabled) == Some(PlanFor(r, disk).value.decisions)
  {
    hide PlanFrom, FirstExecuted, AllReused;
  }

  lemma NothingStands(codec: Codec, packages: Packages)
    ensures Stands(codec, packages, []) && Holds([], None, map[])
  {
  }

  /** Planning again over what a finished run left behind reuses that run's packages, in order, for
      as long as each manifest's identity is the expected fingerprint. */
  lemma ReplanAfterRun(r: Request, disk: Disk, stage: Stage, packages: Packages, ds: seq<Decision>, out: seq<Decision>, m: nat)
    requires Preserving(stage) && FromBronze(ds, 0)
    requires ExecuteFrom(r.codec, DefaultValidator(r.codec), stage, packages, ds, [], None, map[], []).outcome == Done(out, disk.packages)
    requires OwnIds(r, disk, out) && m <= 3 && m <= |out|
    requires forall i :: 0 <= i < m ==> IdentityExpected(r, disk.packages, out[i])
    requires r.policy.enabled && PlanFor(r, disk).Some?
    ensures Stands(r.codec, disk.packages, out)
    ensures ReusesAgain(PlanFor(r, disk).value.decisions, out[..m])
  {
    NothingStands(r.codec, packages);
    FinishedRunStands(r.codec, stage, packages, ds, [], None, map[], []);
    assert OwnRun(r, disk, out) by { hide Stands, OwnIds, ExecuteFrom; }
    hide *;
    ReplanStanding(r, disk, out, m);
  }

  /** The executor compares the layer fingerprint, the planner the reuse fingerprint. A package that
      carries another reuse fingerprint than the planned one is accepted when it is executed, and is
      not what a new plan with the same expectation reuses. */
  lemma ExecutedButNotReused(r: Request, disk: Disk, d: Decision, staged: Staged, upstream: Option<ManifestRef>, chain: Chain)
    requires Boundary(r.codec, r.validator, d, staged, upstream, chain) && disk.packages == staged.packages
    requires d.layer in r.expected && r.expected[d.layer] == d.expected
    requires var m := ManifestAt(r.codec, staged.packages, staged.ref.value);
             m.reuseFingerprint.Some? && m.reuseFingerprint.value != "" && m.reuseFingerprint.value != d.expected
    ensures ManifestAt(r.codec, staged.packages, staged.ref.value).layerFingerprint == r.expected[d.layer]
    ensures Reuse(r, disk, d.layer, upstream, chain) != Reusable(staged.ref.value)
  {
    FindMeans(r.codec, disk, QueryFor(r, d.layer, upstream));
    hide Find, Loads;
  }
}
