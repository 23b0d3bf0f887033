/** The resume planner and the executor of its plans. */
module Planner {
  import opened Prelude
  import opened Ordering
  import opened Contracts
  import opened Store
  import opened Resume

  // ---- plans -----------------------------------------------------------------------------

  type Chain = map<Layer, ManifestRef>

  /** Whether the semantic validator accepts a package under a chain of parents. */
  type Validator = (Packages, ManifestRef, Chain) -> bool

  datatype Policy = Policy(enabled: bool, recomputeInvalid: bool, allowCross: bool)

  datatype Disposition = Reused | Executed

  datatype Reason = Disabled | Matched | NoPackage | InvalidPackage | ExecutedAndVerified | ExecutionFailed

  datatype Decision = Decision(
    layer: Layer, expected: string, disposition: Disposition, state: Option<RunState>, ref: Option<ManifestRef>, reason: Reason)

  datatype Plan = Plan(dryRun: bool, decisions: seq<Decision>, nextLayer: Option<Layer>, complete: bool)

  datatype Request = Request(
    codec: Codec, runId: string, expected: map<Layer, string>, policy: Policy, dryRun: bool, validator: Validator)

  const LAYERS: seq<Layer> := [Bronze, Silver, Gold, Platinum]

  /** The parents that the default validator demands; None where a planned parent is missing. */
  function Parents(layer: Layer, chain: Chain): Option<seq<ManifestRef>> {
    match layer
    case Bronze => Some([])
    case Silver => if Bronze in chain then Some([chain[Bronze]]) else None
    case Gold => if Silver in chain then Some([chain[Silver]]) else None
    case Platinum => if Silver in chain && Gold in chain then Some([chain[Silver], chain[Gold]]) else None
  }

  /** `_load_semantic_package` */
  predicate SemanticPackage(codec: Codec, packages: Packages, ref: ManifestRef, chain: Chain) {
    && Loads(codec, packages, ref)
    && Parents(ref.layer, chain) == Some(ManifestAt(codec, packages, ref).upstream)
  }

  function DefaultValidator(codec: Codec): Validator {
    (packages: Packages, ref: ManifestRef, chain: Chain) => SemanticPackage(codec, packages, ref, chain)
  }

  function QueryFor(r: Request, layer: Layer, upstream: Option<ManifestRef>): Query
    requires layer in r.expected
  {
    Query(r.expected[layer], layer, if upstream.Some? then [upstream.value] else [], r.runId, r.policy.allowCross)
  }

  datatype Attempt = Reusable(ref: ManifestRef) | Absent | Invalid

  function Reuse(r: Request, disk: Disk, layer: Layer, upstream: Option<ManifestRef>, chain: Chain): Attempt
    requires layer in r.expected
  {
    match Find(r.codec, disk, QueryFor(r, layer, upstream))
    case Broken => Invalid
    case Nothing => Absent
    case Match(ref) => if r.validator(disk.packages, ref, chain) then Reusable(ref) else Invalid
  }

  function ReusedDecision(r: Request, layer: Layer, ref: ManifestRef): Decision
    requires layer in r.expected
  {
    Decision(layer, r.expected[layer], Reused, if r.dryRun then None else Some(Succeeded), Some(ref), Matched)
  }

  function ExecutedDecision(r: Request, layer: Layer, reason: Reason): Decision
    requires layer in r.expected
  {
    Decision(layer, r.expected[layer], Executed, None, None, reason)
  }

  /** What the planner's loop decides from some layer on; None where an invalid package is fatal. */
  function PlanFrom(r: Request, disk: Disk, layers: seq<Layer>, upstream: Option<ManifestRef>, chain: Chain, prefix: bool):
    Option<seq<Decision>>
    decreases |layers|
  {
    if layers == [] then Some([])
    else
      var layer := layers[0];
      if layer !in r.expected then PlanFrom(r, disk, layers[1..], upstream, chain, prefix)
      else if !prefix then Prepend(ExecutedDecision(r, layer, Disabled), PlanFrom(r, disk, layers[1..], upstream, chain, false))
      else match Reuse(r, disk, layer, upstream, chain)
        case Invalid =>
          if !r.policy.recomputeInvalid then None
          else Prepend(ExecutedDecision(r, layer, InvalidPackage), PlanFrom(r, disk, layers[1..], upstream, chain, false))
        case Absent =>
          Prepend(ExecutedDecision(r, layer, NoPackage), PlanFrom(r, disk, layers[1..], upstream, chain, false))
        case Reusable(ref) =>
          Prepend(ReusedDecision(r, layer, ref), PlanFrom(r, disk, layers[1..], Some(ref), chain[layer := ref], true))
  }

  function Prepend(d: Decision, rest: Option<seq<Decision>>): Option<seq<Decision>> {
    match rest case None => None case Some(ds) => Some([d] + ds)
  }

  function FirstExecuted(ds: seq<Decision>): Option<Layer> {
    if ds == [] then None else if ds[0].disposition == Executed then Some(ds[0].layer) else FirstExecuted(ds[1..])
  }

  predicate AllReused(ds: seq<Decision>) {
    forall i | 0 <= i < |ds| :: ds[i].disposition == Reused
  }

  function PlanFor(r: Request, disk: Disk): Option<Plan> {
    match PlanFrom(r, disk, LAYERS, None, map[], r.policy.enabled)
    case None => None
    case Some(ds) => Some(Plan(r.dryRun, ds, FirstExecuted(ds), ds != [] && AllReused(ds)))
  }

  /** `build_resume_plan`; None stands for the error of an invalid package. */
  method BuildResumePlan(r: Request, disk: Disk) returns (plan: Option<Plan>)
    ensures plan == PlanFor(r, disk)
  {
    var decisions: seq<Decision>, upstream: Option<ManifestRef>, chain: Chain := [], None, map[];
    var prefix := r.policy.enabled;
    var nextLayer: Option<Layer> := None;
    ghost var whole := PlanFrom(r, disk, LAYERS, None, map[], r.policy.enabled);
    assert LAYERS[0..] == LAYERS;
    JoinFront(whole);
    assert FirstExecuted([]) == None;
    hide AllReused, QueryFor, Find, Joined, FirstExecuted, ReusedDecision, ExecutedDecision;
    for i := 0 to |LAYERS|
      invariant whole == Joined(decisions, PlanFrom(r, disk, LAYERS[i..], upstream, chain, prefix))
      invariant nextLayer == FirstExecuted(decisions)
    {
      var layer := LAYERS[i];
      assert LAYERS[i..][0] == layer && LAYERS[i..][1..] == LAYERS[i + 1..];
      if layer !in r.expected {
        continue;
      }
      var reason := Disabled;
      if prefix {
        var found := FindReusable(r.codec, disk, QueryFor(r, layer, upstream));
        var invalid := found.Broken? || (found.Match? && !r.validator(disk.packages, found.ref, chain));
        if invalid {
          if !r.policy.recomputeInvalid {
            JoinNothing(decisions);
            return None;
          }
          reason := InvalidPackage;
        } else if found.Match? {
          ghost var rest := PlanFrom(r, disk, LAYERS[i + 1..], Some(found.ref), chain[layer := found.ref], true);
          JoinOne(decisions, ReusedDecision(r, layer, found.ref), rest);
          DecisionKinds(r, layer, found.ref, reason);
          decisions := decisions + [ReusedDecision(r, layer, found.ref)];
          upstream := Some(found.ref);
          chain := chain[layer := found.ref];
          continue;
        } else {
          reason := NoPackage;
        }
      }
      prefix := false;
      DecisionKinds(r, layer, ManifestRef(layer, "", ""), reason);
      JoinOne(decisions, ExecutedDecision(r, layer, reason), PlanFrom(r, disk, LAYERS[i + 1..], upstream, chain, false));
      decisions := decisions + [ExecutedDecision(r, layer, reason)];
      if nextLayer.None? {
        nextLayer := Some(layer);
      }
    }
    JoinEmpty(decisions);
    return Some(Plan(r.dryRun, decisions, nextLayer, decisions != [] && AllReused(decisions)));
  }

  lemma DecisionKinds(r: Request, layer: Layer, ref: ManifestRef, reason: Reason)
    requires layer in r.expected
    ensures ReusedDecision(r, layer, ref).disposition == Reused
    ensures ExecutedDecision(r, layer, reason).disposition == Executed && ExecutedDecision(r, layer, reason).layer == layer
  {
  }

  function Joined(ds: seq<Decision>, rest: Option<seq<Decision>>): Option<seq<Decision>> {
    match rest case None => None case Some(more) => Some(ds + more)
  }

  lemma JoinFront(rest: Option<seq<Decision>>)
    ensures Joined([], rest) == rest
  {
    if rest.Some? { assert [] + rest.value == rest.value; }
  }

  lemma JoinNothing(ds: seq<Decision>)
    ensures Joined(ds, None) == None
  {
  }

  lemma JoinEmpty(ds: seq<Decision>)
    ensures Joined(ds, Some([])) == Some(ds)
  {
    assert ds + [] == ds;
  }

  lemma JoinOne(ds: seq<Decision>, d: Decision, rest: Option<seq<Decision>>)
    ensures Joined(ds, Prepend(d, rest)) == Joined(ds + [d], rest)
    ensures FirstExecuted(ds + [d]) ==
            if FirstExecuted(ds).Some? then FirstExecuted(ds) else if d.disposition == Executed then Some(d.layer) else None
  {
    if rest.Some? { assert ds + ([d] + rest.value) == ds + [d] + rest.value; }
    FirstOfMore(ds, d);
  }

  lemma {:induction false} FirstOfMore(ds: seq<Decision>, d: Decision)
    ensures FirstExecuted(ds + [d]) ==
            if FirstExecuted(ds).Some? then FirstExecuted(ds) else if d.disposition == Executed then Some(d.layer) else None
  {
    if ds != [] {
      assert (ds + [d])[1..] == ds[1..] + [d];
      FirstOfMore(ds[1..], d);
    }
  }

  // ---- what a plan says -------------------------------------------------------------------------

  /** The chain after some decisions, and the parent the scan is given. */
  function ChainAfter(chain: Chain, ds: seq<Decision>): Chain
    decreases |ds|
  {
    if ds == [] then chain
    else if ds[0].ref.Some? then ChainAfter(chain[ds[0].layer := ds[0].ref.value], ds[1..])
    else ChainAfter(chain, ds[1..])
  }

  function UpstreamAfter(upstream: Option<ManifestRef>, ds: seq<Decision>): Option<ManifestRef>
    decreases |ds|
  {
    if ds == [] then upstream
    else if ds[0].ref.Some? then UpstreamAfter(ds[0].ref, ds[1..])
    else UpstreamAfter(upstream, ds[1..])
  }

  /** Decisions whose first `k` reuse the package that the scan and the validator accept under the
      packages reused before, and whose others execute, the first of them because nothing was
      reusable there. */
  ghost predicate ReusesFirst(r: Request, disk: Disk, upstream: Option<ManifestRef>, chain: Chain, ds: seq<Decision>, k: nat)
  {
    && k <= |ds|
    && (forall i :: 0 <= i < |ds| ==> ds[i].layer in r.expected && ds[i].expected == r.expected[ds[i].layer])
    && (forall i :: 0 <= i < k ==> ds[i].disposition == Reused && ReusedAt(r, disk, upstream, chain, ds, i))
    && (forall i :: k <= i < |ds| ==> ds[i].disposition == Executed && ds[i].ref.None?)
    && (k < |ds| && r.policy.enabled ==> NotReusableAt(r, disk, upstream, chain, ds, k))
  }

  ghost predicate ReusedAt(r: Request, disk: Disk, upstream: Option<ManifestRef>, chain: Chain, ds: seq<Decision>, i: int)
    requires 0 <= i < |ds| && ds[i].layer in r.expected
  {
    && ds[i].ref.Some?
    && Reuse(r, disk, ds[i].layer, UpstreamAfter(upstream, ds[..i]), ChainAfter(chain, ds[..i])) == Reusable(ds[i].ref.value)
  }

  ghost predicate NotReusableAt(r: Request, disk: Disk, upstream: Option<ManifestRef>, chain: Chain, ds: seq<Decision>, k: int)
    requires 0 <= k < |ds| && ds[k].layer in r.expected
  {
    !Reuse(r, disk, ds[k].layer, UpstreamAfter(upstream, ds[..k]), ChainAfter(chain, ds[..k])).Reusable?
  }

  ghost predicate AllExecuted(r: Request, ds: seq<Decision>) {
    forall i :: 0 <= i < |ds| ==>
      (&& ds[i].layer in r.expected && ds[i].expected == r.expected[ds[i].layer]
       && ds[i].disposition == Executed && ds[i].ref.None?)
  }

  lemma {:induction false} NothingReused(r: Request, disk: Disk, layers: seq<Layer>, upstream: Option<ManifestRef>, chain: Chain)
    ensures var ds := PlanFrom(r, disk, layers, upstream, chain, false);
            ds.Some? && AllExecuted(r, ds.value)
    decreases |layers|
  {
    if layers != [] { NothingReused(r, disk, layers[1..], upstream, chain); }
  }

  lemma HeadReused(r: Request, disk: Disk, upstream: Option<ManifestRef>, chain: Chain, d: Decision, rest: seq<Decision>, k: nat)
    requires d.layer in r.expected && d.expected == r.expected[d.layer] && d.disposition == Reused && d.ref.Some?
    requires Reuse(r, disk, d.layer, upstream, chain) == Reusable(d.ref.value)
    requires ReusesFirst(r, disk, d.ref, chain[d.layer := d.ref.value], rest, k)
    ensures ReusesFirst(r, disk, upstream, chain, [d] + rest, k + 1)
  {
    var ds := [d] + rest;
    hide Reuse;
    forall i | 0 < i <= |ds|
      ensures UpstreamAfter(upstream, ds[..i]) == UpstreamAfter(d.ref, rest[..i - 1])
      ensures ChainAfter(chain, ds[..i]) == ChainAfter(chain[d.layer := d.ref.value], rest[..i - 1])
    {
      assert ds[..i][1..] == rest[..i - 1];
    }
    assert ds[..0] == [];
    forall i | 0 <= i < |ds|
      ensures ds[i].layer in r.expected && ds[i].expected == r.expected[ds[i].layer]
      ensures i < k + 1 ==> ds[i].disposition == Reused && ReusedAt(r, disk, upstream, chain, ds, i)
    {
      if i > 0 {
        assert ds[i] == rest[i - 1];
        if i < k + 1 { assert ReusedAt(r, disk, d.ref, chain[d.layer := d.ref.value], rest, i - 1); }
      }
    }
    if k + 1 < |ds| && r.policy.enabled {
      assert NotReusableAt(r, disk, d.ref, chain[d.layer := d.ref.value], rest, k);
    }
  }

  lemma HeadExecuted(r: Request, disk: Disk, upstream: Option<ManifestRef>, chain: Chain, d: Decision, rest: seq<Decision>)
    requires d.layer in r.expected && d.expected == r.expected[d.layer] && d.disposition == Executed && d.ref.None?
    requires !Reuse(r, disk, d.layer, upstream, chain).Reusable? && AllExecuted(r, rest)
    ensures ReusesFirst(r, disk, upstream, chain, [d] + rest, 0)
  {
    var ds := [d] + rest;
    assert ds[..0] == [];
    hide Reuse;
    assert forall i :: 0 < i < |ds| ==> ds[i] == rest[i - 1];
  }

  lemma {:induction false} PlanReuses(r: Request, disk: Disk, layers: seq<Layer>, upstream: Option<ManifestRef>, chain: Chain, prefix: bool)
    returns (k: nat)
    requires prefix ==> r.policy.enabled
    ensures var ds := PlanFrom(r, disk, layers, upstream, chain, prefix);
            && (ds.None? ==> prefix && !r.policy.recomputeInvalid)
            && (ds.Some? && prefix ==> ReusesFirst(r, disk, upstream, chain, ds.value, k))
    decreases |layers|
  {
    k := 0;
    if !prefix {
      NothingReused(r, disk, layers, upstream, chain);
    } else if layers != [] {
      var layer := layers[0];
      if layer !in r.expected {
        k := PlanReuses(r, disk, layers[1..], upstream, chain, prefix);
      } else {
        var attempt := Reuse(r, disk, layer, upstream, chain);
        hide Reuse;
        if attempt.Reusable? {
          k := PlanReuses(r, disk, layers[1..], Some(attempt.ref), chain[layer := attempt.ref], true);
          var rest := PlanFrom(r, disk, layers[1..], Some(attempt.ref), chain[layer := attempt.ref], true);
          hide PlanFrom, ReusesFirst;
          if rest.Some? {
            HeadReused(r, disk, upstream, chain, ReusedDecision(r, layer, attempt.ref), rest.value, k);
          }
          k := k + 1;
        } else {
          NothingReused(r, disk, layers[1..], upstream, chain);
          var rest := PlanFrom(r, disk, layers[1..], upstream, chain, false).value;
          var reason := if attempt.Invalid? then InvalidPackage else NoPackage;
          HeadExecuted(r, disk, upstream, chain, ExecutedDecision(r, layer, reason), rest);
          hide ReusesFirst, AllExecuted;
        }
      }
    }
  }

  lemma {:induction false} FirstExecutedAt(ds: seq<Decision>, k: nat)
    requires k <= |ds| && (forall i :: 0 <= i < k ==> ds[i].disposition == Reused)
    requires forall i :: k <= i < |ds| ==> ds[i].disposition == Executed
    ensures FirstExecuted(ds) == if k < |ds| then Some(ds[k].layer) else None
  {
    if k > 0 { FirstExecutedAt(ds[1..], k - 1); }
  }

  /** A plan reuses a prefix of its layers and executes the rest: every reused package is what the
      scan and the validator accept under the packages reused before it, the next layer is the first
      executed one, and the plan is complete exactly when it is not empty and executes nothing. */
  lemma PlanMeans(r: Request, disk: Disk) returns (k: nat)
    ensures var plan := PlanFor(r, disk);
            && (plan.None? ==> r.policy.enabled && !r.policy.recomputeInvalid)
            && (plan.Some? ==> var ds := plan.value.decisions;
                 && ReusesFirst(r, disk, None, map[], ds, k) && (!r.policy.enabled ==> k == 0)
                 && plan.value.nextLayer == (if k < |ds| then Some(ds[k].layer) else None)
                 && (plan.value.complete <==> ds != [] && k == |ds|))
  {
    k := 0;
    if r.policy.enabled {
      k := PlanReuses(r, disk, LAYERS, None, map[], true);
    } else {
      NothingReused(r, disk, LAYERS, None, map[]);
    }
    hide PlanFrom, ReusedAt, NotReusableAt;
    if PlanFor(r, disk).Some? {
      var ds := PlanFor(r, disk).value.decisions;
      FirstExecutedAt(ds, k);
    }
  }

  // ---- which layers a plan decides, and what it records -------------------------------------------

  function LayersIn(ds: seq<Decision>): (r: seq<Layer>)
    ensures |r| == |ds| && forall i :: 0 <= i < |r| ==> r[i] == ds[i].layer
  {
    seq(|ds|, i requires 0 <= i < |ds| => ds[i].layer)
  }

  function ExpectedAmong(layers: seq<Layer>, expected: map<Layer, string>): (r: seq<Layer>)
    ensures forall l :: l in r <==> l in layers && l in expected
  {
    if layers == [] then []
    else if layers[0] in expected then [layers[0]] + ExpectedAmong(layers[1..], expected)
    else ExpectedAmong(layers[1..], expected)
  }

  /** Reused decisions are recorded as succeeded unless this is a dry run, executed ones without a state; only
      the first executed one, of a plan that reuses at all, gives another reason than disabled reuse. */
  ghost predicate Recorded(r: Request, ds: seq<Decision>, prefix: bool) {
    forall i :: 0 <= i < |ds| ==>
      if ds[i].disposition == Reused
      then ds[i].state == (if r.dryRun then None else Some(Succeeded)) && ds[i].reason == Matched
      else && ds[i].state == None && ds[i].reason != Matched
           && (ds[i].reason == Disabled <==> !prefix || exists j :: 0 <= j < i && ds[j].disposition == Executed)
           && (ds[i].reason == InvalidPackage ==> r.policy.recomputeInvalid)
  }

  lemma RecordedCons(r: Request, d: Decision, rest: seq<Decision>, prefix: bool, after: bool)
    requires Recorded(r, rest, after)
    requires if d.disposition == Reused then after == prefix && d.state == (if r.dryRun then None else Some(Succeeded)) && d.reason == Matched
             else && !after && d.state == None && d.reason != Matched && (d.reason == Disabled <==> !prefix)
                  && (d.reason == InvalidPackage ==> r.policy.recomputeInvalid)
    ensures Recorded(r, [d] + rest, prefix) && LayersIn([d] + rest) == [d.layer] + LayersIn(rest)
  {
    var ds := [d] + rest;
    forall i | 0 < i < |ds| && ds[i].disposition == Executed
      ensures (exists j :: 0 <= j < i && ds[j].disposition == Executed) <==>
              d.disposition == Executed || exists j :: 0 <= j < i - 1 && rest[j].disposition == Executed
    {
      if d.disposition == Executed { assert ds[0].disposition == Executed; }
      if j :| 0 <= j < i - 1 && rest[j].disposition == Executed { assert ds[j + 1].disposition == Executed; }
      if j :| 0 <= j < i && ds[j].disposition == Executed {
        if j > 0 { assert rest[j - 1].disposition == Executed; }
      }
    }
    assert forall i :: 0 < i < |ds| ==> ds[i] == rest[i - 1];
  }

  lemma {:induction false} PlanLists(r: Request, disk: Disk, layers: seq<Layer>, upstream: Option<ManifestRef>, chain: Chain, prefix: bool)
    ensures var ds := PlanFrom(r, disk, layers, upstream, chain, prefix);
            ds.Some? ==> LayersIn(ds.value) == ExpectedAmong(layers, r.expected) && Recorded(r, ds.value, prefix)
    decreases |layers|
  {
    if layers != [] {
      var layer, rest := layers[0], layers[1..];
      if layer !in r.expected {
        PlanLists(r, disk, rest, upstream, chain, prefix);
      } else {
        var attempt := Reuse(r, disk, layer, upstream, chain);
        hide Reuse, Recorded, LayersIn;
        if prefix && attempt.Reusable? {
          PlanLists(r, disk, rest, Some(attempt.ref), chain[layer := attempt.ref], true);
          var ds := PlanFrom(r, disk, rest, Some(attempt.ref), chain[layer := attempt.ref], true);
          if ds.Some? { RecordedCons(r, ReusedDecision(r, layer, attempt.ref), ds.value, true, true); }
        } else {
          PlanLists(r, disk, rest, upstream, chain, false);
          var ds := PlanFrom(r, disk, rest, upstream, chain, false);
          var reason := if !prefix then Disabled else if attempt.Invalid? then InvalidPackage else NoPackage;
          if ds.Some? && (reason == InvalidPackage ==> r.policy.recomputeInvalid) {
            RecordedCons(r, ExecutedDecision(r, layer, reason), ds.value, prefix, false);
          }
        }
      }
    }
  }

  /** A plan decides exactly the expected layers, in the order Bronze, Silver, Gold, Platinum, and records
      each decision as `Recorded` says. */
  lemma PlanDecides(r: Request, disk: Disk)
    requires PlanFor(r, disk).Some?
    ensures var plan := PlanFor(r, disk).value;
            && LayersIn(plan.decisions) == ExpectedAmong([Bronze, Silver, Gold, Platinum], r.expected)
            && Recorded(r, plan.decisions, r.policy.enabled) && plan.dryRun == r.dryRun
  {
    PlanLists(r, disk, LAYERS, None, map[], r.policy.enabled);
    hide PlanFrom, Recorded;
  }

  // ---- what the default validator lets a plan reuse ------------------------------------------------

  lemma ReusedPackage(r: Request, disk: Disk, layer: Layer, upstream: Option<ManifestRef>, chain: Chain, ref: ManifestRef)
    requires layer in r.expected && r.validator == DefaultValidator(r.codec)
    requires Reuse(r, disk, layer, upstream, chain) == Reusable(ref)
    ensures Loads(r.codec, disk.packages, ref) && ref.layer == layer
    ensures var m := ManifestAt(r.codec, disk.packages, ref);
            && Identity(m) == r.expected[layer]
            && m.upstream == (if upstream.Some? then [upstream.value] else [])
            && Parents(layer, chain) == Some(m.upstream)
  {
    var q := QueryFor(r, layer, upstream);
    FindMeans(r.codec, disk, q);
    assert r.validator(disk.packages, ref, chain) == SemanticPackage(r.codec, disk.packages, ref, chain);
    hide Find, Loads, ManifestAt, Identity, ScanLeq;
  }

  /** The layer of a reused decision, when only the first layers are in the chain. */
  lemma OneParent(layer: Layer, upstream: Option<ManifestRef>, chain: Chain)
    requires Parents(layer, chain) == Some(if upstream.Some? then [upstream.value] else [])
    ensures layer != Platinum
    ensures layer == Bronze <==> upstream.None?
    ensures layer == Silver ==> Bronze in chain && upstream == Some(chain[Bronze])
    ensures layer == Gold ==> Silver in chain && upstream == Some(chain[Silver])
  {
    TwoParents(chain);
  }

  lemma TwoParents(chain: Chain)
    ensures Parents(Platinum, chain).Some? ==> |Parents(Platinum, chain).value| == 2
  {
  }

  lemma ChainOneMore(chain: Chain, upstream: Option<ManifestRef>, ds: seq<Decision>, d: Decision)
    ensures ChainAfter(chain, ds + [d]) ==
            if d.ref.Some? then ChainAfter(chain, ds)[d.layer := d.ref.value] else ChainAfter(chain, ds)
    ensures UpstreamAfter(upstream, ds + [d]) == if d.ref.Some? then d.ref else UpstreamAfter(upstream, ds)
    decreases |ds|
  {
    if ds != [] {
      assert (ds + [d])[1..] == ds[1..] + [d];
      if ds[0].ref.Some? {
        ChainOneMore(chain[ds[0].layer := ds[0].ref.value], ds[0].ref, ds[1..], d);
      } else {
        ChainOneMore(chain, upstream, ds[1..], d);
      }
    } else {
      assert [d][1..] == [];
    }
  }

  /** A package of the layer at this place that loads and lists exactly the package before it. */
  ghost predicate LinkAt(codec: Codec, packages: Packages, ds: seq<Decision>, j: nat) {
    && j < |ds| && j < 3 && ds[j].layer == LAYERS[j] && ds[j].ref.Some? && ds[j].ref.value.layer == LAYERS[j]
    && Loads(codec, packages, ds[j].ref.value)
    && ManifestAt(codec, packages, ds[j].ref.value).upstream ==
       (if j > 0 && ds[j - 1].ref.Some? then [ds[j - 1].ref.value] else [])
  }

  ghost predicate Linked(codec: Codec, packages: Packages, ds: seq<Decision>, i: nat) {
    i <= 3 && i <= |ds| && forall j :: 0 <= j < i ==> LinkAt(codec, packages, ds, j)
  }

  /** The chain and the scan's parent after the first layers. */
  ghost predicate State(ds: seq<Decision>, i: nat) {
    && i <= 3 && i <= |ds| && (forall j :: 0 <= j < i ==> ds[j].ref.Some?)
    && UpstreamAfter(None, ds[..i]) == (if i == 0 then None else ds[i - 1].ref)
    && ChainAfter(map[], ds[..i]) == Links(ds, i)
  }

  function Links(ds: seq<Decision>, i: nat): Chain
    requires i <= 3 && i <= |ds| && forall j :: 0 <= j < i ==> ds[j].ref.Some?
  {
    if i == 0 then map[]
    else if i == 1 then map[Bronze := ds[0].ref.value]
    else if i == 2 then map[Bronze := ds[0].ref.value, Silver := ds[1].ref.value]
    else map[Bronze := ds[0].ref.value, Silver := ds[1].ref.value, Gold := ds[2].ref.value]
  }

  /** Under the default validator the reused layers are Bronze, Silver and Gold in this order: a plan
      without Bronze reuses nothing, and Platinum, which names two parents where the scan asks for
      one, is never reused. Each reused manifest lists exactly the package reused before it. */
  lemma {:induction false} DefaultReuse(r: Request, disk: Disk, ds: seq<Decision>, k: nat, i: nat)
    requires r.validator == DefaultValidator(r.codec) && ReusesFirst(r, disk, None, map[], ds, k) && i <= k
    ensures Linked(r.codec, disk.packages, ds, i) && State(ds, i)
    decreases i
  {
    hide *;
    if i == 0 {
      LinkedStart(r.codec, disk.packages, ds);
    } else {
      AtMostAll(r, disk, ds, k);
      DefaultReuse(r, disk, ds, k, i - 1);
      DefaultReuseStep(r, disk, ds, k, i - 1);
    }
  }

  lemma AtMostAll(r: Request, disk: Disk, ds: seq<Decision>, k: nat)
    requires ReusesFirst(r, disk, None, map[], ds, k)
    ensures k <= |ds|
  {
  }

  lemma LinkedStart(codec: Codec, packages: Packages, ds: seq<Decision>)
    ensures Linked(codec, packages, ds, 0) && State(ds, 0)
  {
    assert ds[..0] == [];
  }

  lemma ReusedFact(r: Request, disk: Disk, ds: seq<Decision>, k: nat, n: nat)
    requires ReusesFirst(r, disk, None, map[], ds, k) && n < k
    ensures n < |ds| && ds[n].layer in r.expected && ds[n].ref.Some?
    ensures Reuse(r, disk, ds[n].layer, UpstreamAfter(None, ds[..n]), ChainAfter(map[], ds[..n])) == Reusable(ds[n].ref.value)
  {
    assert ReusedAt(r, disk, None, map[], ds, n);
  }

  lemma DefaultReuseStep(r: Request, disk: Disk, ds: seq<Decision>, k: nat, n: nat)
    requires r.validator == DefaultValidator(r.codec) && ReusesFirst(r, disk, None, map[], ds, k) && n < k
    requires Linked(r.codec, disk.packages, ds, n) && State(ds, n)
    ensures Linked(r.codec, disk.packages, ds, n + 1) && State(ds, n + 1)
  {
    hide *;
    ReusedFact(r, disk, ds, k, n);
    var upstream, chain := UpstreamAfter(None, ds[..n]), ChainAfter(map[], ds[..n]);
    ReusedPackage(r, disk, ds[n].layer, upstream, chain, ds[n].ref.value);
    OneParent(ds[n].layer, upstream, chain);
    StateIs(ds, n);
    NextLayer(r.codec, disk.packages, ds, n, ds[n].layer, upstream, chain);
    NextLinked(r.codec, disk.packages, ds, n);
  }

  lemma StateIs(ds: seq<Decision>, n: nat)
    requires State(ds, n)
    ensures n <= 3 && n <= |ds| && forall j :: 0 <= j < n ==> ds[j].ref.Some?
    ensures UpstreamAfter(None, ds[..n]) == (if n == 0 then None else ds[n - 1].ref)
    ensures ChainAfter(map[], ds[..n]) == Links(ds, n)
  {
  }

  lemma NextLinked(codec: Codec, packages: Packages, ds: seq<Decision>, n: nat)
    requires Linked(codec, packages, ds, n) && State(ds, n) && n < 3 && n < |ds|
    requires ds[n].ref.Some? && ds[n].ref.value.layer == ds[n].layer == LAYERS[n] && Loads(codec, packages, ds[n].ref.value)
    requires ManifestAt(codec, packages, ds[n].ref.value).upstream ==
             (if UpstreamAfter(None, ds[..n]).Some? then [UpstreamAfter(None, ds[..n]).value] else [])
    ensures Linked(codec, packages, ds, n + 1) && State(ds, n + 1)
  {
    ChainOneMore(map[], None, ds[..n], ds[n]);
    assert ds[..n + 1] == ds[..n] + [ds[n]];
    hide Loads, ManifestAt, ChainAfter, UpstreamAfter;
    assert LinkAt(codec, packages, ds, n);
  }

  lemma NextLayer(codec: Codec, packages: Packages, ds: seq<Decision>, n: nat, layer: Layer, upstream: Option<ManifestRef>, chain: Chain)
    requires Linked(codec, packages, ds, n) && State(ds, n) && chain == Links(ds, n)
    requires upstream == if n == 0 then None else ds[n - 1].ref
    requires layer != Platinum && (layer == Bronze <==> upstream.None?)
    requires layer == Silver ==> Bronze in chain && upstream == Some(chain[Bronze])
    requires layer == Gold ==> Silver in chain && upstream == Some(chain[Silver])
    ensures n < 3 && layer == LAYERS[n]
  {
    assert n > 0 ==> LinkAt(codec, packages, ds, 0);
    assert n > 1 ==> LinkAt(codec, packages, ds, 1);
    assert n > 2 ==> LinkAt(codec, packages, ds, 2);
    hide Loads, ManifestAt, State, Linked;
  }

  lemma {:induction false} PlanCovers(r: Request, disk: Disk, layers: seq<Layer>, upstream: Option<ManifestRef>, chain: Chain,
                                      prefix: bool, layer: Layer)
    requires layer in layers && layer in r.expected && PlanFrom(r, disk, layers, upstream, chain, prefix).Some?
    ensures var ds := PlanFrom(r, disk, layers, upstream, chain, prefix).value;
            exists i :: 0 <= i < |ds| && ds[i].layer == layer
    decreases |layers|
  {
    hide Reuse;
    var ds := PlanFrom(r, disk, layers, upstream, chain, prefix).value;
    if layers[0] == layer {
      assert ds[0].layer == layer;
    } else if layers[0] !in r.expected {
      PlanCovers(r, disk, layers[1..], upstream, chain, prefix, layer);
    } else {
      var attempt := Reuse(r, disk, layers[0], upstream, chain);
      var rest: seq<Decision>;
      if prefix && attempt.Reusable? {
        PlanCovers(r, disk, layers[1..], Some(attempt.ref), chain[layers[0] := attempt.ref], true, layer);
        rest := PlanFrom(r, disk, layers[1..], Some(attempt.ref), chain[layers[0] := attempt.ref], true).value;
      } else {
        PlanCovers(r, disk, layers[1..], upstream, chain, false, layer);
        rest := PlanFrom(r, disk, layers[1..], upstream, chain, false).value;
      }
      var i :| 0 <= i < |rest| && rest[i].layer == layer;
      assert ds[i + 1] == rest[i];
    }
  }

  /** With the default validator a plan that expects Platinum is never complete. */
  lemma PlatinumIsExecuted(r: Request, disk: Disk)
    requires r.validator == DefaultValidator(r.codec) && Platinum in r.expected && PlanFor(r, disk).Some?
    ensures !PlanFor(r, disk).value.complete && PlanFor(r, disk).value.nextLayer.Some?
  {
    var ds := PlanFor(r, disk).value.decisions;
    PlanCovers(r, disk, LAYERS, None, map[], r.policy.enabled, Platinum);
    var k := PlanMeans(r, disk);
    hide *;
    AtMostAll(r, disk, ds, k);
    DefaultReuse(r, disk, ds, k, k);
    var i :| 0 <= i < |ds| && ds[i].layer == Platinum;
    if k == |ds| { LinkedLayer(r.codec, disk.packages, ds, k, i); }
  }

  lemma LinkedLayer(codec: Codec, packages: Packages, ds: seq<Decision>, k: nat, j: nat)
    requires Linked(codec, packages, ds, k) && j < k
    ensures j < |ds| && ds[j].layer == LAYERS[j] && ds[j].layer != Platinum
  {
    assert LinkAt(codec, packages, ds, j);
  }

  // ---- executing a plan ---------------------------------------------------------------------------

  /** What running one stage leaves behind: the packages, and a reference unless it raised. */
  datatype Staged = Staged(packages: Packages, ref: Option<ManifestRef>)

  /** Runs the stage of a layer on a copy of the chain so far. */
  type Stage = (Packages, Layer, Chain) -> Staged

  datatype Call = Call(layer: Layer, chain: Chain)

  /** `Rejected` is an error outside the guarded stage: a reused decision without a reference, or
      one that the validator no longer accepts. */
  datatype Outcome =
    | Done(decisions: seq<Decision>, packages: Packages)
    | StageFailed(completed: seq<Decision>, failed: Decision, packages: Packages)
    | Rejected(packages: Packages)

  datatype Run = Run(outcome: Outcome, calls: seq<Call>)

  /** The checks on a package that a stage has returned. */
  predicate Boundary(codec: Codec, validator: Validator, d: Decision, staged: Staged, upstream: Option<ManifestRef>, chain: Chain) {
    && staged.ref.Some? && Loads(codec, staged.packages, staged.ref.value)
    && ManifestAt(codec, staged.packages, staged.ref.value).layerFingerprint == d.expected
    && (upstream.Some? ==> upstream.value in ManifestAt(codec, staged.packages, staged.ref.value).upstream)
    && validator(staged.packages, staged.ref.value, chain)
  }

  function Verified(d: Decision, ref: ManifestRef): Decision {
    d.(ref := Some(ref), state := Some(Succeeded), reason := ExecutedAndVerified)
  }

  function FailedDecision(d: Decision): Decision {
    d.(state := Some(Failed), reason := ExecutionFailed)
  }

  function ExecuteFrom(codec: Codec, validator: Validator, stage: Stage, packages: Packages, ds: seq<Decision>,
                       completed: seq<Decision>, upstream: Option<ManifestRef>, chain: Chain, calls: seq<Call>): Run
    decreases |ds|
  {
    if ds == [] then Run(Done(completed, packages), calls)
    else if ds[0].disposition == Reused then
      if ds[0].ref.None? || !validator(packages, ds[0].ref.value, chain) then Run(Rejected(packages), calls)
      else ExecuteFrom(codec, validator, stage, packages, ds[1..], completed + [ds[0]], ds[0].ref,
                       chain[ds[0].layer := ds[0].ref.value], calls)
    else
      var staged := stage(packages, ds[0].layer, chain);
      var more := calls + [Call(ds[0].layer, chain)];
      if !Boundary(codec, validator, ds[0], staged, upstream, chain)
      then Run(StageFailed(completed, FailedDecision(ds[0]), staged.packages), more)
      else ExecuteFrom(codec, validator, stage, staged.packages, ds[1..], completed + [Verified(ds[0], staged.ref.value)],
                       staged.ref, chain[ds[0].layer := staged.ref.value], more)
  }

  /** `execute_resume_plan`; a failure carries the partial plan and the failed layer. */
  method ExecuteResumePlan(codec: Codec, validator: Validator, stage: Stage, before: Packages, plan: Plan)
    returns (result: Option<Plan>, failedLayer: Option<Layer>, packages: Packages, calls: seq<Call>)
    ensures plan.dryRun ==> result == Some(plan) && failedLayer == None && packages == before && calls == []
    ensures !plan.dryRun ==>
      var run := ExecuteFrom(codec, validator, stage, before, plan.decisions, [], None, map[], []);
      && calls == run.calls && packages == run.outcome.packages
      && match run.outcome
         case Done(ds, _) => failedLayer == None && result == Some(plan.(decisions := ds, nextLayer := None, complete := true))
         case StageFailed(done, d, _) => failedLayer == Some(d.layer)
           && result == Some(plan.(decisions := done + [d], nextLayer := Some(d.layer), complete := false))
         case Rejected(_) => failedLayer == None && result == None
  {
    packages, calls := before, [];
    if plan.dryRun {
      return Some(plan), None, packages, calls;
    }
    var completed: seq<Decision>, upstream: Option<ManifestRef>, chain: Chain := [], None, map[];
    var ds := plan.decisions;
    ghost var run := ExecuteFrom(codec, validator, stage, before, ds, [], None, map[], []);
    assert ds[0..] == ds;
    hide Loads, ManifestAt, Boundary;
    for i := 0 to |ds|
      invariant run == ExecuteFrom(codec, validator, stage, packages, ds[i..], completed, upstream, chain, calls)
    {
      var d := ds[i];
      assert ds[i..][0] == d && ds[i..][1..] == ds[i + 1..];
      if d.disposition == Reused {
        if d.ref.None? {
          return None, None, packages, calls;
        }
        upstream := d.ref;
        if !validator(packages, d.ref.value, chain) {
          return None, None, packages, calls;
        }
        chain := chain[d.layer := d.ref.value];
        completed := completed + [d];
        continue;
      }
      var staged := stage(packages, d.layer, chain);
      calls := calls + [Call(d.layer, chain)];
      packages := staged.packages;
      if !Boundary(codec, validator, d, staged, upstream, chain) {
        var failed := FailedDecision(d);
        return Some(plan.(decisions := completed + [failed], nextLayer := Some(d.layer), complete := false)), Some(d.layer),
               packages, calls;
      }
      upstream := staged.ref;
      chain := chain[d.layer := staged.ref.value];
      completed := completed + [Verified(d, staged.ref.value)];
    }
    return Some(plan.(decisions := completed, nextLayer := None, complete := true)), None, packages, calls;
  }
}
