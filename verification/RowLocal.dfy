/** The row-local scope contract: its metamorphic probes and what row-local code means for Gold. */
module RowLocal {
  import opened Prelude
  import opened Ordering
  import opened Gold

  // ---- row selection -----------------------------------------------------------

  function At(cells: seq<Cell>, i: nat): Cell {
    if i < |cells| then cells[i] else Missing
  }

  function TakeColumn(c: Column, positions: seq<nat>): (r: Column)
    ensures r.name == c.name && |r.cells| == |positions|
    ensures forall j :: 0 <= j < |positions| ==> r.cells[j] == At(c.cells, positions[j])
  {
    Column(c.name, seq(|positions|, j requires 0 <= j < |positions| => At(c.cells, positions[j])))
  }

  function TakeColumns(columns: seq<Column>, positions: seq<nat>): (r: seq<Column>)
    ensures |r| == |columns| && forall i :: 0 <= i < |r| ==> r[i] == TakeColumn(columns[i], positions)
  {
    seq(|columns|, i requires 0 <= i < |columns| => TakeColumn(columns[i], positions))
  }

  /** `frame.iloc[positions].reset_index(drop=True)` */
  function Take(f: Frame, positions: seq<nat>): (r: Frame)
    ensures r.rows == |positions| && Rectangular(r)
  {
    Frame(|positions|, TakeColumns(f.columns, positions))
  }

  predicate InRange(positions: seq<nat>, rows: nat) {
    forall j :: 0 <= j < |positions| ==> positions[j] < rows
  }

  // ---- the probes ----------------------------------------------------------------

  datatype Probe = RowSubset | RowPermutation

  datatype Reason = NotExecuted | MissingFrom(probe: Probe) | ComparisonFailed(probe: Probe) | Mismatch(probe: Probe)

  datatype Outcome = Clean | Violates(reason: Reason) | Raises

  /** The sandbox, the seeded permutation of each length and the comparison of labelled columns,
      which is None where comparing raises. */
  datatype Prober = Prober(sandbox: Sandbox, permutation: nat -> seq<nat>, matches: (seq<Column>, seq<Column>) -> Option<bool>)

  /** `range(0, n, 2)` */
  function EvenPositions(n: nat): (r: seq<nat>)
    ensures InRange(r, n)
  {
    seq((n + 1) / 2, i requires 0 <= i < (n + 1) / 2 => 2 * i)
  }

  function Probes(p: Prober, n: nat): seq<(Probe, seq<nat>)> {
    (if n >= 4 then [(RowSubset, EvenPositions(n))] else []) +
    (if n >= 3 then [(RowPermutation, p.permutation(n))] else [])
  }

  /** What one probe says of one candidate name. */
  function Verdict(p: Prober, code: string, frame: Frame, full: Frame, name: string, probe: (Probe, seq<nat>)): Outcome {
    match p.sandbox(code, Take(frame, probe.1))
    case None => Violates(NotExecuted)
    case Some(output) =>
      if !Has(output.columns, name) then Violates(MissingFrom(probe.0))
      else if !InRange(probe.1, full.rows) then Raises
      else match p.matches(Labelled(output.columns, name), TakeColumns(Labelled(full.columns, name), probe.1))
        case None => Violates(ComparisonFailed(probe.0))
        case Some(same) => if same then Clean else Violates(Mismatch(probe.0))
  }

  /** The reason of the first probe that a name fails. */
  function FirstReason(p: Prober, code: string, frame: Frame, full: Frame, name: string,
                       probes: seq<(Probe, seq<nat>)>): Option<Reason> {
    if probes == [] then None
    else
      var earlier := FirstReason(p, code, frame, full, name, probes[..|probes| - 1]);
      if earlier.Some? then earlier
      else match Verdict(p, code, frame, full, name, probes[|probes| - 1])
        case Violates(reason) => Some(reason)
        case _ => None
  }

  predicate AnyRaises(p: Prober, code: string, frame: Frame, full: Frame, names: seq<string>,
                      probes: seq<(Probe, seq<nat>)>) {
    exists i, n :: 0 <= i < |probes| && n in names && Verdict(p, code, frame, full, n, probes[i]) == Raises
  }

  /** The gate of the holdout protocol. */
  function HoldoutGate(p: Prober): Gate {
    (code: string, frame: Frame, full: Frame, names: seq<string>) =>
      var probes := Probes(p, frame.rows);
      if AnyRaises(p, code, frame, full, names, probes) then None
      else Some(set n | n in names && FirstReason(p, code, frame, full, n, probes).Some?)
  }

  /** One probe over every name; a name keeps the reason it already has. */
  method RunProbe(p: Prober, code: string, frame: Frame, full: Frame, names: seq<string>,
                  probe: (Probe, seq<nat>), before: map<string, Reason>)
    returns (r: Option<map<string, Reason>>)
    ensures r.None? <==> exists n :: n in names && Verdict(p, code, frame, full, n, probe) == Raises
    ensures r.Some? ==> forall n :: n in r.value <==>
      n in before || (n in names && Verdict(p, code, frame, full, n, probe).Violates?)
    ensures r.Some? ==> forall n :: n in r.value ==>
      r.value[n] == if n in before then before[n] else Verdict(p, code, frame, full, n, probe).reason
  {
    var violations := before;
    var output := p.sandbox(code, Take(frame, probe.1));
    for k := 0 to |names|
      invariant forall n :: n in names[..k] ==> Verdict(p, code, frame, full, n, probe) != Raises
      invariant forall n :: n in violations <==>
        n in before || (n in names[..k] && Verdict(p, code, frame, full, n, probe).Violates?)
      invariant forall n :: n in violations ==>
        violations[n] == if n in before then before[n] else Verdict(p, code, frame, full, n, probe).reason
    {
      var name := names[k];
      assert names[..k + 1] == names[..k] + [name];
      var reason: Option<Reason> := None;
      if output.None? {
        reason := Some(NotExecuted);
      } else if !Has(output.value.columns, name) {
        reason := Some(MissingFrom(probe.0));
      } else if !InRange(probe.1, full.rows) {
        assert Verdict(p, code, frame, full, name, probe) == Raises;
        return None;
      } else {
        var same := p.matches(Labelled(output.value.columns, name), TakeColumns(Labelled(full.columns, name), probe.1));
        if same.None? {
          reason := Some(ComparisonFailed(probe.0));
        } else if !same.value {
          reason := Some(Mismatch(probe.0));
        }
      }
      assert reason == match Verdict(p, code, frame, full, name, probe) case Violates(why) => Some(why) case _ => None;
      if reason.Some? && name !in violations {
        violations := violations[name := reason.value];
      }
    }
    assert names[..|names|] == names;
    return Some(violations);
  }

  /** `row_local_violations` */
  method RowLocalViolations(p: Prober, code: string, frame: Frame, full: Frame, names: seq<string>)
    returns (r: Option<map<string, Reason>>)
    ensures var gate := HoldoutGate(p)(code, frame, full, names);
            && (r.None? <==> gate.None?)
            && (r.Some? ==> r.value.Keys == gate.value)
    ensures r.Some? ==> forall n :: n in r.value ==>
      FirstReason(p, code, frame, full, n, Probes(p, frame.rows)) == Some(r.value[n])
  {
    var probes := Probes(p, frame.rows);
    var violations: map<string, Reason> := map[];
    hide Verdict, Probes;
    for i := 0 to |probes|
      invariant !AnyRaises(p, code, frame, full, names, probes[..i])
      invariant forall n :: n in violations <==> n in names && FirstReason(p, code, frame, full, n, probes[..i]).Some?
      invariant forall n :: n in violations ==> FirstReason(p, code, frame, full, n, probes[..i]) == Some(violations[n])
    {
      var next := RunProbe(p, code, frame, full, names, probes[i], violations);
      assert probes[..i + 1][..i] == probes[..i] && probes[..i + 1][i] == probes[i];
      if next.None? {
        assert AnyRaises(p, code, frame, full, names, probes);
        return None;
      }
      violations := next.value;
    }
    assert probes[..|probes|] == probes;
    return Some(violations);
  }

  // ---- what the gate lets pass ---------------------------------------------------------

  /** Running the code on these rows of the frame gives the name's values at these rows of the full output. */
  ghost predicate Agrees(p: Prober, code: string, frame: Frame, full: Frame, name: string, positions: seq<nat>) {
    var output := p.sandbox(code, Take(frame, positions));
    && output.Some? && Has(output.value.columns, name)
    && p.matches(Labelled(output.value.columns, name), TakeColumns(Labelled(full.columns, name), positions)) == Some(true)
  }

  lemma AgreesMeans(p: Prober, code: string, frame: Frame, full: Frame, name: string, probe: (Probe, seq<nat>))
    requires Verdict(p, code, frame, full, name, probe) != Raises
    ensures Verdict(p, code, frame, full, name, probe).Violates? <==> !Agrees(p, code, frame, full, name, probe.1)
  {
  }

  lemma {:induction false} ReasonIff(p: Prober, code: string, frame: Frame, full: Frame, name: string, probes: seq<(Probe, seq<nat>)>)
    requires forall i :: 0 <= i < |probes| ==> Verdict(p, code, frame, full, name, probes[i]) != Raises
    ensures FirstReason(p, code, frame, full, name, probes).Some? <==>
            exists i :: 0 <= i < |probes| && !Agrees(p, code, frame, full, name, probes[i].1)
  {
    hide Verdict, Agrees;
    if probes != [] {
      ReasonIff(p, code, frame, full, name, probes[..|probes| - 1]);
      AgreesMeans(p, code, frame, full, name, probes[|probes| - 1]);
    }
  }

  /** The gate rejects a name exactly if, on four rows or more, running the code on the rows 0, 2, 4, ...
      or, on three rows or more, on the permuted rows does not give the values of the full output there. */
  lemma GateDecides(p: Prober, code: string, frame: Frame, full: Frame, names: seq<string>, name: string, evens: seq<nat>)
    requires HoldoutGate(p)(code, frame, full, names).Some? && name in names
    requires |evens| == (frame.rows + 1) / 2 && forall j :: 0 <= j < |evens| ==> evens[j] == 2 * j
    ensures name !in HoldoutGate(p)(code, frame, full, names).value <==>
            && (frame.rows >= 4 ==> Agrees(p, code, frame, full, name, evens))
            && (frame.rows >= 3 ==> Agrees(p, code, frame, full, name, p.permutation(frame.rows)))
  {
    var probes := Probes(p, frame.rows);
    assert EvenPositions(frame.rows) == evens;
    ProbesAre(p, frame.rows);
    hide Verdict, Agrees, Probes, FirstReason;
    assert !AnyRaises(p, code, frame, full, names, probes);
    ReasonIff(p, code, frame, full, name, probes);
  }

  lemma ProbesAre(p: Prober, n: nat)
    ensures var probes := Probes(p, n);
            if n >= 4 then |probes| == 2 && probes[0].1 == EvenPositions(n) && probes[1].1 == p.permutation(n)
            else if n == 3 then |probes| == 1 && probes[0].1 == p.permutation(n)
            else probes == []
  {
  }

  /** It raises exactly if it looks up a row that the full output does not have. */
  lemma GateRaises(p: Prober, code: string, frame: Frame, full: Frame, names: seq<string>)
    ensures HoldoutGate(p)(code, frame, full, names).None? <==>
            exists i, n :: 0 <= i < |Probes(p, frame.rows)| && n in names
              && LooksPast(p, code, frame, full, n, Probes(p, frame.rows)[i].1)
  {
    hide Probes, FirstReason;
  }

  predicate LooksPast(p: Prober, code: string, frame: Frame, full: Frame, name: string, positions: seq<nat>) {
    var output := p.sandbox(code, Take(frame, positions));
    output.Some? && Has(output.value.columns, name) && exists j :: 0 <= j < |positions| && positions[j] >= full.rows
  }

  // ---- row-local code ----------------------------------------------------------------

  function Labels(columns: seq<Column>): (r: seq<string>)
    ensures |r| == |columns| && forall i :: 0 <= i < |r| ==> r[i] == columns[i].name
  {
    seq(|columns|, i requires 0 <= i < |columns| => columns[i].name)
  }

  function RowOf(f: Frame, k: nat): (r: seq<Cell>)
    ensures |r| == |f.columns| && forall i :: 0 <= i < |r| ==> r[i] == At(f.columns[i].cells, k)
  {
    seq(|f.columns|, i requires 0 <= i < |f.columns| => At(f.columns[i].cells, k))
  }

  /** The labels code gives its output, and one output row from one input row; None where that row raises. */
  datatype RowCode = RowCode(labels: seq<string> -> seq<string>, row: (seq<string>, seq<Cell>) -> Option<seq<Cell>>)

  /** Code is row-local when every output row depends on nothing but its own input row. */
  ghost predicate RowLocalBy(sandbox: Sandbox, code: string, each: RowCode) {
    forall f | Rectangular(f) ::
      && (sandbox(code, f).Some? <==> forall k :: 0 <= k < f.rows ==> each.row(Labels(f.columns), RowOf(f, k)).Some?)
      && (sandbox(code, f).Some? ==> RowWise(f, sandbox(code, f).value, each))
  }

  ghost predicate RowWise(f: Frame, output: Frame, each: RowCode) {
    && output.rows == f.rows && Rectangular(output)
    && Labels(output.columns) == each.labels(Labels(f.columns))
    && forall k :: 0 <= k < f.rows ==> each.row(Labels(f.columns), RowOf(f, k)) == Some(RowOf(output, k))
  }

  ghost predicate RowLocal(sandbox: Sandbox, code: string) {
    exists each :: RowLocalBy(sandbox, code, each)
  }

  lemma TakenRow(f: Frame, positions: seq<nat>, j: nat)
    requires Rectangular(f) && InRange(positions, f.rows) && j < |positions|
    ensures RowOf(Take(f, positions), j) == RowOf(f, positions[j])
    ensures Labels(Take(f, positions).columns) == Labels(f.columns)
  {
  }

  lemma SameFrame(a: Frame, b: Frame)
    requires Rectangular(a) && Rectangular(b) && a.rows == b.rows && Labels(a.columns) == Labels(b.columns)
    requires forall k :: 0 <= k < a.rows ==> RowOf(a, k) == RowOf(b, k)
    ensures a == b
  {
    forall i | 0 <= i < |a.columns| ensures a.columns[i] == b.columns[i] {
      assert Labels(a.columns)[i] == Labels(b.columns)[i];
      forall k | 0 <= k < a.rows ensures a.columns[i].cells[k] == b.columns[i].cells[k] {
        assert RowOf(a, k)[i] == RowOf(b, k)[i];
      }
    }
  }

  lemma TakenLabels(f: Frame, positions: seq<nat>)
    ensures Labels(Take(f, positions).columns) == Labels(f.columns)
  {
  }

  /** Running row-local code on selected rows gives the selected rows of its output. */
  lemma RowLocalCommutes(sandbox: Sandbox, code: string, each: RowCode, f: Frame, positions: seq<nat>)
    requires RowLocalBy(sandbox, code, each) && Rectangular(f) && InRange(positions, f.rows)
    requires sandbox(code, f).Some?
    ensures sandbox(code, Take(f, positions)) == Some(Take(sandbox(code, f).value, positions))
  {
    var output, taken := sandbox(code, f).value, Take(f, positions);
    assert RowWise(f, output, each);
    TakenLabels(f, positions);
    TakenLabels(output, positions);
    forall j | 0 <= j < taken.rows
      ensures each.row(Labels(taken.columns), RowOf(taken, j)) == Some(RowOf(Take(output, positions), j))
    {
      TakenRow(f, positions, j);
      TakenRow(output, positions, j);
    }
    assert sandbox(code, taken).Some?;
    assert RowWise(taken, sandbox(code, taken).value, each);
    hide Take, Labels, RowOf, Rectangular, RowLocalBy;
    SameFrame(sandbox(code, taken).value, Take(output, positions));
  }

  // ---- what the probes find against row-local code ---------------------------------------

  /** Comparing a complete column with itself succeeds, comparing repeated labels raises, and seeded
      positions are row positions. */
  ghost predicate Sound(p: Prober) {
    && (forall c: Column :: Missing !in c.cells ==> p.matches([c], [c]) == Some(true))
    && (forall columns: seq<Column> :: |columns| >= 2 ==> p.matches(columns, columns) == None)
    && forall n :: InRange(p.permutation(n), n)
  }

  lemma {:induction false} LabelledTaken(columns: seq<Column>, name: string, positions: seq<nat>)
    ensures Labelled(TakeColumns(columns, positions), name) == TakeColumns(Labelled(columns, name), positions)
  {
    if columns != [] {
      assert TakeColumns(columns, positions)[1..] == TakeColumns(columns[1..], positions);
      LabelledTaken(columns[1..], name, positions);
    }
  }

  lemma {:induction false} SelectTaken(columns: seq<Column>, names: seq<string>, positions: seq<nat>)
    ensures Select(TakeColumns(columns, positions), names) == TakeColumns(Select(columns, names), positions)
  {
    if names != [] {
      LabelledTaken(columns, names[0], positions);
      SelectTaken(columns, names[1..], positions);
    }
  }

  lemma HasTaken(columns: seq<Column>, name: string, positions: seq<nat>)
    ensures Has(TakeColumns(columns, positions), name) <==> Has(columns, name)
  {
    if Has(columns, name) {
      var i :| 0 <= i < |columns| && columns[i].name == name;
      assert TakeColumns(columns, positions)[i].name == name;
    }
  }

  lemma {:induction false} Selected(columns: seq<Column>, names: seq<string>, name: string)
    requires name in names
    ensures forall c :: c in Labelled(columns, name) ==> c in Select(columns, names)
  {
    if names[0] != name { Selected(columns, names[1..], name); }
  }

  lemma CompleteTaken(c: Column, positions: seq<nat>)
    requires InRange(positions, |c.cells|) && Missing !in c.cells
    ensures Missing !in TakeColumn(c, positions).cells
  {
    forall j | 0 <= j < |positions| ensures TakeColumn(c, positions).cells[j] != Missing {
      assert c.cells[positions[j]] in c.cells;
    }
  }

  lemma SelectedIsComplete(columns: seq<Column>, c: Column)
    requires c in columns && !AnyMissing(columns)
    ensures Missing !in c.cells
  {
    var i :| 0 <= i < |columns| && columns[i] == c;
    forall k | 0 <= k < |c.cells| ensures c.cells[k] != Missing {
      assert columns[i].cells[k] == c.cells[k];
    }
  }

  /** A probe of row-local code fails a name exactly if its label is repeated. */
  lemma ProbeVerdict(p: Prober, code: string, each: RowCode, frame: Frame, full: Frame, names: seq<string>, name: string,
                     probe: (Probe, seq<nat>))
    requires Sound(p) && RowLocalBy(p.sandbox, code, each) && Rectangular(frame) && p.sandbox(code, frame) == Some(full)
    requires name in names && Has(full.columns, name) && !AnyMissing(Select(full.columns, names))
    requires InRange(probe.1, frame.rows)
    ensures Verdict(p, code, frame, full, name, probe) ==
            if |Labelled(full.columns, name)| >= 2 then Violates(ComparisonFailed(probe.0)) else Clean
  {
    RowLocalCommutes(p.sandbox, code, each, frame, probe.1);
    assert RowWise(frame, full, each);
    LabelledTaken(full.columns, name, probe.1);
    HasTaken(full.columns, name, probe.1);
    if |Labelled(full.columns, name)| == 1 {
      var c := Labelled(full.columns, name)[0];
      assert Labelled(full.columns, name) == [c];
      Selected(full.columns, names, name);
      SelectedIsComplete(Select(full.columns, names), c);
      assert Missing !in TakeColumn(c, probe.1).cells by {
        assert c in full.columns && |c.cells| == full.rows;
        CompleteTaken(c, probe.1);
      }
      assert TakeColumns([c], probe.1) == [TakeColumn(c, probe.1)];
    }
  }

  lemma {:induction false} FirstOf(p: Prober, code: string, frame: Frame, full: Frame, name: string,
                                   probes: seq<(Probe, seq<nat>)>, bad: bool)
    requires forall i :: 0 <= i < |probes| ==>
      (Verdict(p, code, frame, full, name, probes[i]).Violates? <==> bad)
    ensures FirstReason(p, code, frame, full, name, probes).Some? <==> bad && probes != []
  {
    hide Verdict;
    if probes != [] { FirstOf(p, code, frame, full, name, probes[..|probes| - 1], bad); }
  }

  function RepeatedIn(columns: seq<Column>, names: seq<string>): (r: set<string>)
    ensures forall n :: n in r <==> n in names && |Labelled(columns, n)| >= 2
  {
    set n | n in names && |Labelled(columns, n)| >= 2
  }

  ghost predicate FindsRepeats(p: Prober, code: string, frame: Frame, full: Frame, names: seq<string>, n: string, probe: (Probe, seq<nat>)) {
    var verdict := Verdict(p, code, frame, full, n, probe);
    verdict != Raises && (verdict.Violates? <==> n in RepeatedIn(full.columns, names))
  }

  lemma GateIs(p: Prober, code: string, frame: Frame, full: Frame, names: seq<string>, found: set<string>)
    requires !AnyRaises(p, code, frame, full, names, Probes(p, frame.rows))
    requires forall n :: n in found <==> n in names && FirstReason(p, code, frame, full, n, Probes(p, frame.rows)).Some?
    ensures HoldoutGate(p)(code, frame, full, names) == Some(found)
  {
    hide AnyRaises, FirstReason, Probes;
    assert (set n | n in names && FirstReason(p, code, frame, full, n, Probes(p, frame.rows)).Some?) == found;
  }

  lemma NameFinds(p: Prober, code: string, frame: Frame, full: Frame, names: seq<string>, n: string, probes: seq<(Probe, seq<nat>)>)
    requires forall i :: 0 <= i < |probes| ==> FindsRepeats(p, code, frame, full, names, n, probes[i])
    ensures FirstReason(p, code, frame, full, n, probes).Some? <==> n in RepeatedIn(full.columns, names) && probes != []
    ensures forall i :: 0 <= i < |probes| ==> Verdict(p, code, frame, full, n, probes[i]) != Raises
  {
    hide Verdict, RepeatedIn, FirstReason;
    FirstOf(p, code, frame, full, n, probes, n in RepeatedIn(full.columns, names));
  }

  lemma NoneRaises(p: Prober, code: string, frame: Frame, full: Frame, names: seq<string>, probes: seq<(Probe, seq<nat>)>)
    requires forall n :: n in names ==> forall i :: 0 <= i < |probes| ==> Verdict(p, code, frame, full, n, probes[i]) != Raises
    ensures !AnyRaises(p, code, frame, full, names, probes)
  {
    hide Verdict;
  }

  lemma SomeProbes(p: Prober, n: nat)
    ensures Probes(p, n) != [] <==> n >= 3
  {
  }

  lemma GateFinds(p: Prober, code: string, frame: Frame, full: Frame, names: seq<string>)
    requires forall i, n :: 0 <= i < |Probes(p, frame.rows)| && n in names ==>
      FindsRepeats(p, code, frame, full, names, n, Probes(p, frame.rows)[i])
    ensures HoldoutGate(p)(code, frame, full, names) == Some(if frame.rows >= 3 then RepeatedIn(full.columns, names) else {})
  {
    hide *;
    var probes := Probes(p, frame.rows);
    SomeProbes(p, frame.rows);
    forall n | n in names
      ensures FirstReason(p, code, frame, full, n, probes).Some? <==> n in RepeatedIn(full.columns, names) && probes != []
      ensures forall i :: 0 <= i < |probes| ==> Verdict(p, code, frame, full, n, probes[i]) != Raises
    {
      NameFinds(p, code, frame, full, names, n, probes);
    }
    NoneRaises(p, code, frame, full, names, probes);
    GateIs(p, code, frame, full, names, if frame.rows >= 3 then RepeatedIn(full.columns, names) else {});
  }

  lemma ProbeFinds(p: Prober, code: string, each: RowCode, frame: Frame, full: Frame, names: seq<string>, name: string,
                   probe: (Probe, seq<nat>))
    requires Sound(p) && RowLocalBy(p.sandbox, code, each) && Rectangular(frame) && p.sandbox(code, frame) == Some(full)
    requires name in names && Has(full.columns, name) && !AnyMissing(Select(full.columns, names))
    requires InRange(probe.1, frame.rows)
    ensures FindsRepeats(p, code, frame, full, names, name, probe)
  {
    ProbeVerdict(p, code, each, frame, full, names, name, probe);
    hide Verdict, RowLocalBy, Sound;
  }

  lemma ProbesInRange(p: Prober, n: nat)
    requires Sound(p)
    ensures forall i :: 0 <= i < |Probes(p, n)| ==> InRange(Probes(p, n)[i].1, n)
  {
  }

  /** The probes find exactly the repeated labels of row-local code, and find nothing on frames of
      fewer than three rows. */
  lemma RowLocalPasses(p: Prober, code: string, each: RowCode, frame: Frame, full: Frame, names: seq<string>)
    requires Sound(p) && RowLocalBy(p.sandbox, code, each) && Rectangular(frame) && p.sandbox(code, frame) == Some(full)
    requires forall n :: n in names ==> Has(full.columns, n)
    requires !AnyMissing(Select(full.columns, names))
    ensures HoldoutGate(p)(code, frame, full, names) == Some(if frame.rows >= 3 then RepeatedIn(full.columns, names) else {})
  {
    hide *;
    var probes := Probes(p, frame.rows);
    ProbesInRange(p, frame.rows);
    forall i, n | 0 <= i < |probes| && n in names
      ensures FindsRepeats(p, code, frame, full, names, n, probes[i])
    {
      ProbeFinds(p, code, each, frame, full, names, n, probes[i]);
    }
    GateFinds(p, code, frame, full, names);
  }

  // ---- generation from row-local code commutes with row selection -----------------------

  ghost predicate Covers(positions: seq<nat>, rows: nat) {
    forall k :: 0 <= k < rows ==> k in positions
  }

  function TakeEach(frames: seq<Frame>, positions: seq<nat>): (r: seq<Frame>)
    ensures |r| == |frames| && forall i :: 0 <= i < |r| ==> r[i] == Take(frames[i], positions)
  {
    seq(|frames|, i requires 0 <= i < |frames| => Take(frames[i], positions))
  }

  function TakeRun(g: Generated, positions: seq<nat>): Generated {
    Generated(Take(g.working, positions), TakeEach(g.outputs, positions), g.decisions)
  }

  // ---- a batch, row by row ---------------------------------------------------------------

  /** A proposed name is not among the labels of the output, as a run on no rows shows. */
  ghost predicate Lacks(sandbox: Sandbox, code: string, f: Frame, names: seq<string>) {
    var none := sandbox(code, Take(f, []));
    none.Some? ==> exists n :: n in names && !Has(none.value.columns, n)
  }

  /** The row alone raises, or leaves a cell of a proposed name missing. */
  predicate Faulty(sandbox: Sandbox, code: string, f: Frame, names: seq<string>, k: nat) {
    var one := sandbox(code, Take(f, [k]));
    one.None? || AnyMissing(Select(one.value.columns, names))
  }

  ghost predicate AnyFaulty(sandbox: Sandbox, code: string, f: Frame, names: seq<string>) {
    exists k: nat :: k < f.rows && Faulty(sandbox, code, f, names, k)
  }

  ghost predicate HitsFaulty(sandbox: Sandbox, code: string, f: Frame, names: seq<string>, positions: seq<nat>) {
    exists j :: 0 <= j < |positions| && Faulty(sandbox, code, f, names, positions[j])
  }

  /** The proposed names whose label the output repeats. */
  function Repeats(sandbox: Sandbox, code: string, f: Frame, names: seq<string>): set<string> {
    var none := sandbox(code, Take(f, []));
    if none.None? then {} else RepeatedIn(none.value.columns, names)
  }

  lemma TakeNone(f: Frame, positions: seq<nat>)
    ensures Take(Take(f, positions), []) == Take(f, [])
  {
    var a, b := Take(Take(f, positions), []), Take(f, []);
    assert forall i :: 0 <= i < |f.columns| ==> a.columns[i] == b.columns[i];
  }

  lemma TakeOne(f: Frame, positions: seq<nat>, j: nat)
    requires j < |positions|
    ensures Take(Take(f, positions), [j]) == Take(f, [positions[j]])
  {
    var a, b := Take(Take(f, positions), [j]), Take(f, [positions[j]]);
    forall i | 0 <= i < |f.columns| ensures a.columns[i] == b.columns[i] {
      assert a.columns[i].cells[0] == b.columns[i].cells[0];
      assert a.columns[i].cells == b.columns[i].cells;
    }
  }

  lemma LocalRuns(sandbox: Sandbox, code: string, each: RowCode, f: Frame)
    requires RowLocalBy(sandbox, code, each) && Rectangular(f)
    ensures sandbox(code, f).Some? <==> forall k :: 0 <= k < f.rows ==> each.row(Labels(f.columns), RowOf(f, k)).Some?
  {
  }

  lemma RowRuns(sandbox: Sandbox, code: string, each: RowCode, f: Frame, k: nat)
    requires RowLocalBy(sandbox, code, each) && Rectangular(f) && k < f.rows
    ensures sandbox(code, Take(f, [k])).Some? <==> each.row(Labels(f.columns), RowOf(f, k)).Some?
  {
    hide RowLocalBy, RowOf, Labels;
    LocalRuns(sandbox, code, each, Take(f, [k]));
    TakenRow(f, [k], 0);
    assert Take(f, [k]).rows == 1;
  }

  /** Row-local code runs on a frame exactly if it runs on each of its rows. */
  lemma RunsRowByRow(sandbox: Sandbox, code: string, each: RowCode, f: Frame)
    requires RowLocalBy(sandbox, code, each) && Rectangular(f)
    ensures sandbox(code, f).Some? <==> forall k: nat :: k < f.rows ==> sandbox(code, Take(f, [k])).Some?
    ensures sandbox(code, Take(f, [])).Some?
  {
    hide *;
    LocalRuns(sandbox, code, each, f);
    LocalRuns(sandbox, code, each, Take(f, []));
    forall k: nat | k < f.rows
      ensures sandbox(code, Take(f, [k])).Some? <==> each.row(Labels(f.columns), RowOf(f, k)).Some?
    {
      RowRuns(sandbox, code, each, f, k);
    }
  }

  predicate MissingAt(columns: seq<Column>, k: nat) {
    AnyMissing(TakeColumns(columns, [k]))
  }

  lemma MissingByRow(columns: seq<Column>, rows: nat)
    requires forall i :: 0 <= i < |columns| ==> |columns[i].cells| == rows
    ensures AnyMissing(columns) <==> exists k: nat :: k < rows && MissingAt(columns, k)
  {
    if AnyMissing(columns) {
      var i, k :| 0 <= i < |columns| && 0 <= k < |columns[i].cells| && columns[i].cells[k] == Missing;
      assert TakeColumns(columns, [k])[i].cells[0] == Missing;
      assert MissingAt(columns, k);
    }
    if k: nat :| k < rows && MissingAt(columns, k) {
      var taken := TakeColumns(columns, [k]);
      var i, j :| 0 <= i < |taken| && 0 <= j < |taken[i].cells| && taken[i].cells[j] == Missing;
      assert columns[i].cells[k] == Missing;
    }
  }

  /** The output of row-local code, row by row. */
  lemma OutputByRow(sandbox: Sandbox, code: string, each: RowCode, f: Frame, names: seq<string>)
    requires RowLocalBy(sandbox, code, each) && Rectangular(f) && sandbox(code, f).Some?
    ensures var full := sandbox(code, f).value;
            && full.rows == f.rows && Rectangular(full)
            && (Lacks(sandbox, code, f, names) <==> exists n :: n in names && !Has(full.columns, n))
            && Repeats(sandbox, code, f, names) == RepeatedIn(full.columns, names)
            && (AnyMissing(Select(full.columns, names)) <==> AnyFaulty(sandbox, code, f, names))
  {
    var full := sandbox(code, f).value;
    assert RowWise(f, full, each);
    RowLocalCommutes(sandbox, code, each, f, []);
    forall n ensures (Has(Take(full, []).columns, n) <==> Has(full.columns, n))
                     && |Labelled(Take(full, []).columns, n)| == |Labelled(full.columns, n)| {
      HasTaken(full.columns, n, []);
      LabelledTaken(full.columns, n, []);
    }
    assert RepeatedIn(Take(full, []).columns, names) == RepeatedIn(full.columns, names);
    SelectFits(full.columns, names, full.rows);
    MissingByRow(Select(full.columns, names), full.rows);
    forall k: nat | k < f.rows
      ensures Faulty(sandbox, code, f, names, k) <==> MissingAt(Select(full.columns, names), k)
    {
      RowLocalCommutes(sandbox, code, each, f, [k]);
      SelectTaken(full.columns, names, [k]);
    }
    hide Faulty, AnyMissing, Take, Has, Select, Labelled, RowLocalBy;
  }

  /** A batch of row-local code, judged from its rows: it ends in an error exactly if a name is not
      among the labels or a row is faulty, and otherwise its repeated labels are rejected, if the
      frame has three rows or more. */
  lemma JudgeByRows(p: Prober, code: string, each: RowCode, f: Frame, names: seq<string>)
    requires Sound(p) && RowLocalBy(p.sandbox, code, each) && Rectangular(f)
    ensures var judged := Judge(p.sandbox, HoldoutGate(p), f, code, names);
            && (judged.None? <==> Lacks(p.sandbox, code, f, names) || AnyFaulty(p.sandbox, code, f, names))
            && (judged.Some? ==>
                  && p.sandbox(code, f) == Some(judged.value.output)
                  && judged.value.violations == if f.rows >= 3 then Repeats(p.sandbox, code, f, names) else {})
  {
    RunsRowByRow(p.sandbox, code, each, f);
    if p.sandbox(code, f).None? {
      var k: nat :| k < f.rows && p.sandbox(code, Take(f, [k])).None?;
      assert Faulty(p.sandbox, code, f, names, k);
    } else {
      var full := p.sandbox(code, f).value;
      OutputByRow(p.sandbox, code, each, f, names);
      hide HoldoutGate, RowLocalBy, AnyMissing, Select, Sound, Lacks, AnyFaulty, Repeats, RepeatedIn;
      if (forall n :: n in names ==> Has(full.columns, n)) && !AnyMissing(Select(full.columns, names)) {
        RowLocalPasses(p, code, each, f, full, names);
      }
    }
  }

  /** The same batch on selected rows: it ends in an error exactly if a name is not among the labels
      or the selection hits a faulty row. */
  lemma JudgeCommutes(p: Prober, code: string, each: RowCode, f: Frame, names: seq<string>, positions: seq<nat>)
    requires Sound(p) && RowLocalBy(p.sandbox, code, each) && Rectangular(f) && InRange(positions, f.rows)
    ensures var taken := Judge(p.sandbox, HoldoutGate(p), Take(f, positions), code, names);
            && (taken.None? <==> Lacks(p.sandbox, code, f, names) || HitsFaulty(p.sandbox, code, f, names, positions))
            && (taken.Some? ==>
                  && taken.value.violations == (if |positions| >= 3 then Repeats(p.sandbox, code, f, names) else {})
                  && (p.sandbox(code, f).Some? ==> taken.value.output == Take(p.sandbox(code, f).value, positions)))
  {
    var taken := Take(f, positions);
    JudgeByRows(p, code, each, taken, names);
    TakeNone(f, positions);
    forall j: nat | j < |positions|
      ensures Faulty(p.sandbox, code, taken, names, j) <==> Faulty(p.sandbox, code, f, names, positions[j])
    {
      TakeOne(f, positions, j);
    }
    hide Faulty, Judge, HoldoutGate, Sound;
    if p.sandbox(code, f).Some? { RowLocalCommutes(p.sandbox, code, each, f, positions); }
  }

  lemma JoinTaken(w: Frame, a: Frame, positions: seq<nat>)
    requires Rectangular(w) && Rectangular(a) && w.rows == a.rows && InRange(positions, w.rows)
    ensures Take(Concat([w, a]), positions) == Concat([Take(w, positions), Take(a, positions)])
    ensures Concat([w, a]).rows == w.rows && Rectangular(Concat([w, a]))
  {
    JoinEqualRows(w, a);
    JoinEqualRows(Take(w, positions), Take(a, positions));
  }

  /** What a selection must keep of a batch: a faulty row if that is what its error is due to, and
      otherwise, where labels are repeated, whether there are rows enough for the probes. */
  ghost predicate BatchKept(p: Prober, items: seq<Candidate>, code: string, f: Frame, positions: seq<nat>) {
    var names := Names(items);
    || items == []
    || Lacks(p.sandbox, code, f, names)
    || (if AnyFaulty(p.sandbox, code, f, names) then HitsFaulty(p.sandbox, code, f, names, positions)
        else Repeats(p.sandbox, code, f, names) == {} || (f.rows >= 3 <==> |positions| >= 3))
  }

  ghost predicate AllKept(p: Prober, candidates: seq<Candidate>, scripts: seq<Script>, g: Generated, positions: seq<nat>)
    decreases |scripts|
  {
    if scripts == [] then true
    else
      var items := ItemsOf(candidates, scripts[0].path);
      && BatchKept(p, items, scripts[0].code, g.working, positions)
      && AllKept(p, candidates, scripts[1..], GenerateOne(p.sandbox, HoldoutGate(p), items, scripts[0].code, g), positions)
  }

  /** A batch of row-local code keeps the rows of its frame. */
  lemma RowsKept(p: Prober, items: seq<Candidate>, code: string, each: RowCode, g: Generated)
    requires Sound(p) && RowLocalBy(p.sandbox, code, each) && Rectangular(g.working)
    ensures var next := GenerateOne(p.sandbox, HoldoutGate(p), items, code, g).working;
            Rectangular(next) && next.rows == g.working.rows
  {
    var names, gate := Names(items), HoldoutGate(p);
    JudgeByRows(p, code, each, g.working, names);
    hide Judge, HoldoutGate, Concat, Select, Passing;
    var judged := Judge(p.sandbox, gate, g.working, code, names);
    if judged.Some? {
      var full, passing := judged.value.output, Passing(names, judged.value.violations);
      assert RowWise(g.working, full, each);
      SelectFits(full.columns, passing, full.rows);
      var accepted := Frame(full.rows, Select(full.columns, passing));
      JoinTaken(g.working, accepted, []);
    }
  }

  lemma JudgedTaken(p: Prober, items: seq<Candidate>, code: string, each: RowCode, f: Frame, positions: seq<nat>)
    requires Sound(p) && RowLocalBy(p.sandbox, code, each) && Rectangular(f) && InRange(positions, f.rows)
    requires items != [] && BatchKept(p, items, code, f, positions)
    ensures Judge(p.sandbox, HoldoutGate(p), Take(f, positions), code, Names(items)) ==
            match Judge(p.sandbox, HoldoutGate(p), f, code, Names(items))
            case None => None
            case Some(judged) => Some(Judged(Take(judged.output, positions), judged.violations))
  {
    JudgeByRows(p, code, each, f, Names(items));
    JudgeCommutes(p, code, each, f, Names(items), positions);
    SelectionHits(p.sandbox, code, f, Names(items), positions);
    hide Judge, HoldoutGate, Lacks, AnyFaulty, HitsFaulty, Repeats, Sound, RowLocalBy, Rectangular, Take, InRange;
  }

  lemma OutputFits(p: Prober, code: string, each: RowCode, f: Frame, names: seq<string>)
    requires Sound(p) && RowLocalBy(p.sandbox, code, each) && Rectangular(f)
    ensures var judged := Judge(p.sandbox, HoldoutGate(p), f, code, names);
            judged.Some? ==> judged.value.output.rows == f.rows && Rectangular(judged.value.output)
  {
    JudgeByRows(p, code, each, f, names);
    hide Judge, HoldoutGate, Lacks, AnyFaulty, Repeats, Sound;
    var judged := Judge(p.sandbox, HoldoutGate(p), f, code, names);
    if judged.Some? { assert RowWise(f, judged.value.output, each); }
  }

  /** One turn of the generation loop commutes with a selection that keeps the batch. */
  lemma OneCommutes(p: Prober, items: seq<Candidate>, code: string, each: RowCode, g: Generated, positions: seq<nat>)
    requires Sound(p) && RowLocalBy(p.sandbox, code, each) && Rectangular(g.working) && InRange(positions, g.working.rows)
    requires items != [] && BatchKept(p, items, code, g.working, positions)
    ensures GenerateOne(p.sandbox, HoldoutGate(p), items, code, TakeRun(g, positions)) ==
            TakeRun(GenerateOne(p.sandbox, HoldoutGate(p), items, code, g), positions)
  {
    hide Judge, HoldoutGate, BatchKept, Sound, RowLocalBy, Select, Passing, Concat, TakeColumns, Rectangular, InRange;
    JudgedTaken(p, items, code, each, g.working, positions);
    OutputFits(p, code, each, g.working, Names(items));
    var judged := Judge(p.sandbox, HoldoutGate(p), g.working, code, Names(items));
    if judged.Some? {
      var full, passing := judged.value.output, Passing(Names(items), judged.value.violations);
      if passing != [] {
        var accepted := Frame(full.rows, Select(full.columns, passing));
        AcceptedTaken(g.working, full, accepted, passing, positions);
        assert TakeEach(g.outputs + [accepted], positions) == TakeEach(g.outputs, positions) + [Take(accepted, positions)];
      }
    }
  }

  lemma AcceptedTaken(w: Frame, full: Frame, accepted: Frame, names: seq<string>, positions: seq<nat>)
    requires Rectangular(w) && Rectangular(full) && w.rows == full.rows && InRange(positions, w.rows)
    requires accepted == Frame(full.rows, Select(full.columns, names))
    ensures Take(accepted, positions) == Frame(|positions|, Select(Take(full, positions).columns, names))
    ensures Take(Concat([w, accepted]), positions) == Concat([Take(w, positions), Take(accepted, positions)])
  {
    SelectFits(full.columns, names, full.rows);
    SelectTaken(full.columns, names, positions);
    JoinTaken(w, accepted, positions);
  }

  lemma SelectionHits(sandbox: Sandbox, code: string, f: Frame, names: seq<string>, positions: seq<nat>)
    requires InRange(positions, f.rows)
    ensures HitsFaulty(sandbox, code, f, names, positions) ==> AnyFaulty(sandbox, code, f, names)
    ensures AnyFaulty(sandbox, code, f, names) && Covers(positions, f.rows) ==> HitsFaulty(sandbox, code, f, names, positions)
  {
    hide Faulty;
    if AnyFaulty(sandbox, code, f, names) && Covers(positions, f.rows) {
      var k: nat :| k < f.rows && Faulty(sandbox, code, f, names, k);
      assert k in positions;
      var j :| 0 <= j < |positions| && positions[j] == k;
    }
  }

  /** The candidate ends differently on the two frames. */
  predicate OtherState(p: Prober, code: string, f: Frame, h: Frame, items: seq<Candidate>, i: nat)
    requires i < |items|
  {
    StateIn(p.sandbox, HoldoutGate(p), f, code, Names(items), items[i]) !=
    StateIn(p.sandbox, HoldoutGate(p), h, code, Names(items), items[i])
  }

  lemma StatesDiffer(p: Prober, items: seq<Candidate>, code: string, each: RowCode, f: Frame, positions: seq<nat>)
    requires Sound(p) && RowLocalBy(p.sandbox, code, each) && Rectangular(f) && InRange(positions, f.rows)
    requires !BatchKept(p, items, code, f, positions)
    ensures exists i :: 0 <= i < |items| && OtherState(p, code, Take(f, positions), f, items, i)
  {
    var names, gate := Names(items), HoldoutGate(p);
    var taken := Take(f, positions);
    JudgeByRows(p, code, each, f, names);
    JudgeCommutes(p, code, each, f, names, positions);
    SelectionHits(p.sandbox, code, f, names, positions);
    hide Judge, HoldoutGate, Lacks, AnyFaulty, HitsFaulty, Sound, RowLocalBy, Rectangular;
    var i := if AnyFaulty(p.sandbox, code, f, names) then 0 else SomeRepeated(p.sandbox, code, f, items);
    assert OtherState(p, code, taken, f, items, i);
  }

  lemma DecisionsDiffer(sandbox: Sandbox, gate: Gate, items: seq<Candidate>, code: string, g: Generated, h: Generated, i: nat)
    requires i < |items| && |g.decisions| == |h.decisions|
    requires StateIn(sandbox, gate, g.working, code, Names(items), items[i]) != StateIn(sandbox, gate, h.working, code, Names(items), items[i])
    ensures var a, b := GenerateOne(sandbox, gate, items, code, g).decisions, GenerateOne(sandbox, gate, items, code, h).decisions;
            exists i :: 0 <= i < |a| && |a| == |b| && a[i] != b[i]
  {
    hide *;
    OneExtends(sandbox, gate, items, code, g);
    OneExtends(sandbox, gate, items, code, h);
    var a, b := GenerateOne(sandbox, gate, items, code, g).decisions, GenerateOne(sandbox, gate, items, code, h).decisions;
    assert a[|g.decisions| + i].state != b[|g.decisions| + i].state;
  }

  /** A selection that does not keep the batch changes a decision. */
  lemma OneDiffers(p: Prober, items: seq<Candidate>, code: string, each: RowCode, g: Generated, positions: seq<nat>)
    requires Sound(p) && RowLocalBy(p.sandbox, code, each) && Rectangular(g.working) && InRange(positions, g.working.rows)
    requires !BatchKept(p, items, code, g.working, positions)
    ensures var a, b := GenerateOne(p.sandbox, HoldoutGate(p), items, code, TakeRun(g, positions)).decisions,
                        GenerateOne(p.sandbox, HoldoutGate(p), items, code, g).decisions;
            exists i :: 0 <= i < |a| && |a| == |b| && a[i] != b[i]
  {
    StatesDiffer(p, items, code, each, g.working, positions);
    hide StateIn, GenerateOne, HoldoutGate, Sound, RowLocalBy, BatchKept, Rectangular, Take;
    var i :| 0 <= i < |items| && OtherState(p, code, Take(g.working, positions), g.working, items, i);
    DecisionsDiffer(p.sandbox, HoldoutGate(p), items, code, TakeRun(g, positions), g, i);
  }

  ghost function SomeRepeated(sandbox: Sandbox, code: string, f: Frame, items: seq<Candidate>): (i: nat)
    requires Repeats(sandbox, code, f, Names(items)) != {}
    ensures i < |items| && items[i].name in Repeats(sandbox, code, f, Names(items))
  {
    var n :| n in Repeats(sandbox, code, f, Names(items));
    assert n in Names(items);
    var i :| 0 <= i < |items| && Names(items)[i] == n;
    i
  }

  /** A script without candidates leaves everything as it is. */
  lemma NothingProposed(sandbox: Sandbox, gate: Gate, code: string, g: Generated)
    ensures GenerateOne(sandbox, gate, [], code, g) == g
  {
    assert g.decisions + [] == g.decisions;
    hide Judge;
  }

  /** When every batch is row-local, generating from selected rows gives the selected rows of
      everything generated, with the same decisions, exactly if the selection keeps every batch
      of the whole frame. */
  lemma {:induction false} GenerationCommutes(p: Prober, candidates: seq<Candidate>, scripts: seq<Script>, g: Generated,
                                              positions: seq<nat>)
    requires Sound(p) && Rectangular(g.working) && InRange(positions, g.working.rows)
    requires forall i :: 0 <= i < |scripts| ==> RowLocal(p.sandbox, scripts[i].code)
    ensures GenerateAll(p.sandbox, HoldoutGate(p), candidates, scripts, TakeRun(g, positions)) ==
            TakeRun(GenerateAll(p.sandbox, HoldoutGate(p), candidates, scripts, g), positions)
            <==> AllKept(p, candidates, scripts, g, positions)
    decreases |scripts|
  {
    if scripts != [] {
      var gate, code := HoldoutGate(p), scripts[0].code;
      var items := ItemsOf(candidates, scripts[0].path);
      var each :| RowLocalBy(p.sandbox, code, each);
      RowsKept(p, items, code, each, g);
      hide Judge, HoldoutGate, GenerateOne, RowLocalBy, Sound, Rectangular, RowLocal, InRange;
      if BatchKept(p, items, code, g.working, positions) {
        hide TakeRun;
        if items == [] {
          NothingProposed(p.sandbox, gate, code, g);
          NothingProposed(p.sandbox, gate, code, TakeRun(g, positions));
        } else {
          OneCommutes(p, items, code, each, g, positions);
        }
        GenerationCommutes(p, candidates, scripts[1..], GenerateOne(p.sandbox, gate, items, code, g), positions);
      } else {
        OneDiffers(p, items, code, each, g, positions);
        hide BatchKept;
        DecisionsExtend(p.sandbox, gate, candidates, scripts[1..], GenerateOne(p.sandbox, gate, items, code, g));
        DecisionsExtend(p.sandbox, gate, candidates, scripts[1..], GenerateOne(p.sandbox, gate, items, code, TakeRun(g, positions)));
      }
    }
  }

  /** Any permutation of the rows, and any other selection that covers them and leaves rows enough
      for the probes exactly if there were, keeps every batch. */
  lemma {:induction false} CoveringKeeps(p: Prober, candidates: seq<Candidate>, scripts: seq<Script>, g: Generated, positions: seq<nat>)
    requires Sound(p) && Rectangular(g.working) && InRange(positions, g.working.rows)
    requires forall i :: 0 <= i < |scripts| ==> RowLocal(p.sandbox, scripts[i].code)
    requires Covers(positions, g.working.rows) && (g.working.rows >= 3 <==> |positions| >= 3)
    ensures AllKept(p, candidates, scripts, g, positions)
    decreases |scripts|
  {
    if scripts != [] {
      var items := ItemsOf(candidates, scripts[0].path);
      var each :| RowLocalBy(p.sandbox, scripts[0].code, each);
      RowsKept(p, items, scripts[0].code, each, g);
      SelectionHits(p.sandbox, scripts[0].code, g.working, Names(items), positions);
      hide Judge, HoldoutGate, GenerateOne, RowLocalBy, Sound, Rectangular, AnyFaulty, HitsFaulty, Lacks, Repeats;
      CoveringKeeps(p, candidates, scripts[1..], GenerateOne(p.sandbox, HoldoutGate(p), items, scripts[0].code, g), positions);
    }
  }

  // ---- a selection that loses an error --------------------------------------------------------

  predicate ZeroIn(f: Frame) {
    exists i, k :: 0 <= i < |f.columns| && 0 <= k < |f.columns[i].cells| && f.columns[i].cells[k] == Known(0)
  }

  lemma ZeroByRow(f: Frame)
    requires Rectangular(f)
    ensures ZeroIn(f) <==> exists k :: 0 <= k < f.rows && Known(0) in RowOf(f, k)
  {
    if ZeroIn(f) {
      var i, k :| 0 <= i < |f.columns| && 0 <= k < |f.columns[i].cells| && f.columns[i].cells[k] == Known(0);
      assert RowOf(f, k)[i] == Known(0);
    }
    if k :| 0 <= k < f.rows && Known(0) in RowOf(f, k) {
      var i :| 0 <= i < |f.columns| && RowOf(f, k)[i] == Known(0);
      assert f.columns[i].cells[k] == Known(0);
    }
  }

  /** Code that returns its input and raises on a zero. */
  function NoZeros(code: string, f: Frame): Option<Frame> {
    if ZeroIn(f) then None else Some(f)
  }

  function NoZerosRow(labels: seq<string>, row: seq<Cell>): Option<seq<Cell>> {
    if Known(0) in row then None else Some(row)
  }

  function SameLabels(labels: seq<string>): seq<string> { labels }

  function CompleteOnly(a: seq<Column>, b: seq<Column>): Option<bool> {
    if |a| == 1 then Some(a == b) else None
  }

  function NoPositions(n: nat): seq<nat> { [] }

  lemma NoZerosIsRowLocal(code: string)
    ensures RowLocalBy(NoZeros, code, RowCode(SameLabels, NoZerosRow))
  {
    forall f | Rectangular(f)
      ensures ZeroIn(f) <==> exists k :: 0 <= k < f.rows && Known(0) in RowOf(f, k)
    {
      ZeroByRow(f);
    }
    hide ZeroIn;
  }

  lemma NoZerosIsSound()
    ensures Sound(Prober(NoZeros, NoPositions, CompleteOnly))
  {
  }

  lemma OneCell(f: Frame, name: string, value: int)
    requires f == Frame(1, [Column(name, [Known(value)])])
    ensures ZeroIn(f) <==> value == 0
    ensures Select(f.columns, [name]) == f.columns && !AnyMissing(f.columns)
  {
    if value == 0 { assert f.columns[0].cells[0] == Known(0); }
    assert f.columns[1..] == [] && [name][1..] == [];
    LabelledCons(f.columns, name);
  }

  /** A selection that drops the only row on which the code raises turns the error into an acceptance. */
  lemma DroppedRowDiffers() returns (p: Prober, candidates: seq<Candidate>, scripts: seq<Script>, silver: Frame, positions: seq<nat>)
    ensures Sound(p) && Rectangular(silver) && InRange(positions, silver.rows)
    ensures forall i :: 0 <= i < |scripts| ==> RowLocal(p.sandbox, scripts[i].code)
    ensures var g := Generated(silver, [], []);
            GenerateAll(p.sandbox, HoldoutGate(p), candidates, scripts, TakeRun(g, positions)) !=
            TakeRun(GenerateAll(p.sandbox, HoldoutGate(p), candidates, scripts, g), positions)
  {
    hide *;
    p := Prober(NoZeros, NoPositions, CompleteOnly);
    var candidate, script := Candidate("id", "x", "path"), Script("path", "code");
    candidates, scripts, positions := [candidate], [script], [1];
    silver := Frame(2, [Column("x", [Known(0), Known(1)])]);
    NoZerosIsSound();
    NoZerosIsRowLocal("code");
    RowLocalIs(NoZeros, "code", RowCode(SameLabels, NoZerosRow));
    OneItem(candidate);
    DroppedIsLost(silver, candidates);
    TwoRows(silver, positions);
    OneScript(p, candidates, scripts, silver, positions);
  }

  lemma RowLocalIs(sandbox: Sandbox, code: string, each: RowCode)
    requires RowLocalBy(sandbox, code, each)
    ensures RowLocal(sandbox, code)
  {
  }

  lemma OneItem(candidate: Candidate)
    ensures ItemsOf([candidate], candidate.path) == [candidate]
  {
    assert [candidate][1..] == [];
  }

  lemma TwoRows(silver: Frame, positions: seq<nat>)
    requires silver == Frame(2, [Column("x", [Known(0), Known(1)])]) && positions == [1]
    ensures Rectangular(silver) && InRange(positions, silver.rows)
  {
  }

  lemma OneScript(p: Prober, candidates: seq<Candidate>, scripts: seq<Script>, silver: Frame, positions: seq<nat>)
    requires Sound(p) && Rectangular(silver) && InRange(positions, silver.rows)
    requires |scripts| == 1 && RowLocal(p.sandbox, scripts[0].code)
    requires !BatchKept(p, ItemsOf(candidates, scripts[0].path), scripts[0].code, silver, positions)
    ensures var g := Generated(silver, [], []);
            GenerateAll(p.sandbox, HoldoutGate(p), candidates, scripts, TakeRun(g, positions)) !=
            TakeRun(GenerateAll(p.sandbox, HoldoutGate(p), candidates, scripts, g), positions)
  {
    hide RowLocal, BatchKept, HoldoutGate, GenerateOne, GenerateAll, TakeRun, Sound, Rectangular, ItemsOf;
    GenerationCommutes(p, candidates, scripts, Generated(silver, [], []), positions);
  }

  lemma DroppedIsLost(silver: Frame, items: seq<Candidate>)
    requires items == [Candidate("id", "x", "path")] && silver == Frame(2, [Column("x", [Known(0), Known(1)])])
    ensures !BatchKept(Prober(NoZeros, NoPositions, CompleteOnly), items, "code", silver, [1])
  {
    hide HoldoutGate;
    var first, second := Take(silver, [0]), Take(silver, [1]);
    assert first.columns[0].cells == [Known(0)] && first == Frame(1, [Column("x", [Known(0)])]);
    assert second.columns[0].cells == [Known(1)] && second == Frame(1, [Column("x", [Known(1)])]);
    OneCell(first, "x", 0);
    OneCell(second, "x", 1);
    assert Names(items) == ["x"];
    assert Faulty(NoZeros, "code", silver, ["x"], 0) && !Faulty(NoZeros, "code", silver, ["x"], 1);
    var none := Take(silver, []);
    assert none.columns[0].name == "x";
    assert !ZeroIn(none);
    assert !Lacks(NoZeros, "code", silver, ["x"]);
  }

  // ---- rejections --------------------------------------------------------------------------

  /** No batch that ends without an error repeats a proposed label on a frame of three rows or more. */
  ghost predicate NothingToReject(p: Prober, candidates: seq<Candidate>, scripts: seq<Script>, g: Generated)
    decreases |scripts|
  {
    if scripts == [] then true
    else
      var items, code := ItemsOf(candidates, scripts[0].path), scripts[0].code;
      && !Rejects(p, code, g.working, Names(items))
      && NothingToReject(p, candidates, scripts[1..], GenerateOne(p.sandbox, HoldoutGate(p), items, code, g))
  }

  ghost predicate NoRejection(decisions: seq<Decision>) {
    forall i :: 0 <= i < |decisions| ==> decisions[i].state != Rejected
  }

  /** The batch has repeated labels to reject. */
  ghost predicate Rejects(p: Prober, code: string, f: Frame, names: seq<string>) {
    && f.rows >= 3 && !Lacks(p.sandbox, code, f, names) && !AnyFaulty(p.sandbox, code, f, names)
    && Repeats(p.sandbox, code, f, names) != {}
  }

  predicate SomeRejected(sandbox: Sandbox, gate: Gate, f: Frame, code: string, items: seq<Candidate>) {
    exists i :: 0 <= i < |items| && StateIn(sandbox, gate, f, code, Names(items), items[i]) == Rejected
  }

  lemma StatesRejected(p: Prober, items: seq<Candidate>, code: string, each: RowCode, f: Frame)
    requires Sound(p) && Rectangular(f) && RowLocalBy(p.sandbox, code, each)
    ensures Rejects(p, code, f, Names(items)) <==>
            SomeRejected(p.sandbox, HoldoutGate(p), f, code, items)
  {
    JudgeByRows(p, code, each, f, Names(items));
    hide Judge, HoldoutGate, RowLocalBy, Sound, Rectangular, Lacks, AnyFaulty;
    if Repeats(p.sandbox, code, f, Names(items)) != {} {
      var i := SomeRepeated(p.sandbox, code, f, items);
      assert items[i].name in Repeats(p.sandbox, code, f, Names(items));
    }
  }

  lemma RejectionsIn(sandbox: Sandbox, gate: Gate, items: seq<Candidate>, code: string, g: Generated)
    requires NoRejection(g.decisions)
    ensures NoRejection(GenerateOne(sandbox, gate, items, code, g).decisions) <==>
            !SomeRejected(sandbox, gate, g.working, code, items)
  {
    OneExtends(sandbox, gate, items, code, g);
    hide GenerateOne, StateIn;
    var next, n := GenerateOne(sandbox, gate, items, code, g).decisions, |g.decisions|;
    if i :| 0 <= i < |items| && StateIn(sandbox, gate, g.working, code, Names(items), items[i]) == Rejected {
      assert next[n + i].state == Rejected;
    }
    if i :| 0 <= i < |next| && next[i].state == Rejected {
      assert i >= n;
      assert next[|g.decisions| + (i - n)] == next[i];
      assert StateIn(sandbox, gate, g.working, code, Names(items), items[i - n]) == Rejected;
    }
  }

  /** One batch of row-local code rejects exactly the repeated labels. */
  lemma OneRejects(p: Prober, items: seq<Candidate>, code: string, each: RowCode, g: Generated)
    requires Sound(p) && Rectangular(g.working) && RowLocalBy(p.sandbox, code, each) && NoRejection(g.decisions)
    ensures NoRejection(GenerateOne(p.sandbox, HoldoutGate(p), items, code, g).decisions) <==>
            !Rejects(p, code, g.working, Names(items))
  {
    hide *;
    StatesRejected(p, items, code, each, g.working);
    RejectionsIn(p.sandbox, HoldoutGate(p), items, code, g);
  }

  /** Row-local candidates are rejected for a repeated label and for nothing else. */
  lemma {:induction false} NoneRejected(p: Prober, candidates: seq<Candidate>, scripts: seq<Script>, g: Generated)
    requires Sound(p) && Rectangular(g.working) && NoRejection(g.decisions)
    requires forall i :: 0 <= i < |scripts| ==> RowLocal(p.sandbox, scripts[i].code)
    ensures NoRejection(GenerateAll(p.sandbox, HoldoutGate(p), candidates, scripts, g).decisions) <==>
            NothingToReject(p, candidates, scripts, g)
    decreases |scripts|
  {
    if scripts != [] {
      var items, code := ItemsOf(candidates, scripts[0].path), scripts[0].code;
      var next := GenerateOne(p.sandbox, HoldoutGate(p), items, code, g);
      var each :| RowLocalBy(p.sandbox, code, each);
      OneRejects(p, items, code, each, g);
      RowsKept(p, items, code, each, g);
      DecisionsExtend(p.sandbox, HoldoutGate(p), candidates, scripts[1..], next);
      hide Judge, HoldoutGate, GenerateOne, RowLocalBy, Sound, Rectangular, Rejects;
      if NoRejection(next.decisions) {
        NoneRejected(p, candidates, scripts[1..], next);
      }
    }
  }
}
