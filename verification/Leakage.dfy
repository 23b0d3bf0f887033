/** A feature that looks at the whole frame, and when the row-local gate sees it. */
module Leakage {
  import opened Prelude
  import opened Ordering
  import opened Gold
  import opened RowLocal

  // ---- code that subtracts the sum of its column ------------------------------------------

  function Value(c: Cell): int { if c.Known? then c.value else 0 }

  function Total(cells: seq<Cell>): int {
    if cells == [] then 0 else Value(cells[0]) + Total(cells[1..])
  }

  function Shifted(cells: seq<Cell>, shift: int): (r: seq<Cell>)
    ensures |r| == |cells| && forall i :: 0 <= i < |r| ==> r[i] == Known(Value(cells[i]) - shift)
  {
    seq(|cells|, i requires 0 <= i < |cells| => Known(Value(cells[i]) - shift))
  }

  /** `y = x - sum(x)` */
  function Centre(code: string, f: Frame): Option<Frame> {
    if f.columns == [] then None
    else Some(Frame(f.rows, [Column("y", Shifted(f.columns[0].cells, Total(f.columns[0].cells)))]))
  }

  function TotalAt(cells: seq<Cell>, positions: seq<nat>): int {
    if positions == [] then 0 else Value(At(cells, positions[0])) + TotalAt(cells, positions[1..])
  }

  function Identity(n: nat): (r: seq<nat>)
    ensures |r| == n && forall i :: 0 <= i < n ==> r[i] == i
  {
    seq(n, i requires 0 <= i < n => i as nat)
  }

  // ---- sums over selected rows ---------------------------------------------------------------

  lemma {:induction false} TotalTaken(c: Column, positions: seq<nat>)
    ensures Total(TakeColumn(c, positions).cells) == TotalAt(c.cells, positions)
  {
    if positions != [] {
      TotalTaken(c, positions[1..]);
      assert TakeColumn(c, positions).cells[1..] == TakeColumn(c, positions[1..]).cells;
    }
  }

  lemma TotalOfAll(c: Column)
    ensures TotalAt(c.cells, Identity(|c.cells|)) == Total(c.cells)
  {
    TotalTaken(c, Identity(|c.cells|));
    assert TakeColumn(c, Identity(|c.cells|)).cells == c.cells;
  }

  lemma {:induction false} TotalSplit(cells: seq<Cell>, a: seq<nat>, b: seq<nat>)
    ensures TotalAt(cells, a + b) == TotalAt(cells, a) + TotalAt(cells, b)
  {
    if a == [] {
      assert a + b == b;
    } else {
      assert (a + b)[1..] == a[1..] + b;
      TotalSplit(cells, a[1..], b);
    }
  }

  lemma {:induction false} TotalPermuted(cells: seq<Cell>, a: seq<nat>, b: seq<nat>)
    requires multiset(a) == multiset(b)
    ensures TotalAt(cells, a) == TotalAt(cells, b)
    decreases |a|
  {
    if a == [] {
      assert |multiset(b)| == 0;
    } else {
      assert a[0] in multiset(b);
      var j :| 0 <= j < |b| && b[j] == a[0];
      RemoveMultiset(a, 0);
      RemoveMultiset(b, j);
      assert a[..0] + a[1..] == a[1..];
      hide Value;
      TotalPermuted(cells, a[1..], b[..j] + b[j + 1..]);
      TotalAround(cells, b, j);
    }
  }

  lemma TotalAround(cells: seq<Cell>, b: seq<nat>, j: nat)
    requires j < |b|
    ensures TotalAt(cells, b) == Value(At(cells, b[j])) + TotalAt(cells, b[..j] + b[j + 1..])
  {
    hide Value;
    TotalSplit(cells, b[..j], b[j..]);
    TotalSplit(cells, b[..j], b[j + 1..]);
    assert b[..j] + b[j..] == b && b[j..][1..] == b[j + 1..];
  }

  // ---- what the probes see ---------------------------------------------------------------------

  lemma YOnly(columns: seq<Column>)
    requires |columns| == 1 && columns[0].name == "y"
    ensures Has(columns, "y") && Labelled(columns, "y") == columns
  {
    LabelledCons(columns, "y");
    assert columns[1..] == [];
  }

  lemma ShiftedTaken(cells: seq<Cell>, taken: seq<Cell>, positions: seq<nat>, a: int, b: int)
    requires positions != [] && InRange(positions, |cells|) && |taken| == |positions|
    requires forall j :: 0 <= j < |positions| ==> taken[j] == cells[positions[j]]
    ensures Shifted(taken, a) == TakeColumn(Column("y", Shifted(cells, b)), positions).cells <==> a == b
  {
    var left, right := Shifted(taken, a), TakeColumn(Column("y", Shifted(cells, b)), positions).cells;
    hide Value;
    assert left[0] == Known(Value(cells[positions[0]]) - a) && right[0] == Known(Value(cells[positions[0]]) - b);
  }

  /** The values on selected rows are those of the full output exactly if the rows add up to the whole sum. */
  lemma CentreAgrees(p: Prober, code: string, frame: Frame, x: Column, full: Frame, positions: seq<nat>)
    requires p.sandbox == Centre && p.matches == CompleteOnly && frame == Frame(|x.cells|, [x]) && Centre(code, frame) == Some(full)
    requires positions != [] && InRange(positions, |x.cells|)
    ensures Agrees(p, code, frame, full, "y", positions) <==> TotalAt(x.cells, positions) == Total(x.cells)
  {
    var output := Centre(code, Take(frame, positions)).value;
    TotalTaken(x, positions);
    ShiftedTaken(x.cells, TakeColumn(x, positions).cells, positions, TotalAt(x.cells, positions), Total(x.cells));
    hide Total, TotalAt, Value;
    YOnly(output.columns);
    YOnly(full.columns);
    var expected := TakeColumns(full.columns, positions);
    assert output.columns == expected <==> output.columns[0].cells == expected[0].cells;
  }

  lemma CentreIsJudged(p: Prober, code: string, frame: Frame, x: Column, full: Frame)
    requires p.sandbox == Centre && frame == Frame(|x.cells|, [x]) && Centre(code, frame) == Some(full)
    requires InRange(p.permutation(|x.cells|), |x.cells|)
    ensures HoldoutGate(p)(code, frame, full, ["y"]).Some?
  {
    GateRaises(p, code, frame, full, ["y"]);
    ProbesAre(p, frame.rows);
    hide HoldoutGate, Probes;
  }

  /** The gate rejects the difference to the whole sum exactly on four rows or more, and only if the even
      rows do not add up to that sum: the permutation never shows it. */
  lemma SumIsSeen(p: Prober, code: string, frame: Frame, x: Column, full: Frame)
    requires p.sandbox == Centre && p.matches == CompleteOnly && frame == Frame(|x.cells|, [x]) && Centre(code, frame) == Some(full)
    requires multiset(p.permutation(|x.cells|)) == multiset(Identity(|x.cells|))
    ensures HoldoutGate(p)(code, frame, full, ["y"]).Some?
    ensures "y" in HoldoutGate(p)(code, frame, full, ["y"]).value <==>
            |x.cells| >= 4 && TotalAt(x.cells, EvenPositions(|x.cells|)) != Total(x.cells)
  {
    var n, permutation := |x.cells|, p.permutation(|x.cells|);
    forall j | 0 <= j < |permutation| ensures permutation[j] < n {
      assert permutation[j] in multiset(Identity(n));
    }
    assert |permutation| == |multiset(permutation)| == n;
    CentreIsJudged(p, code, frame, x, full);
    GateDecides(p, code, frame, full, ["y"], "y", EvenPositions(n));
    hide HoldoutGate, Agrees, Centre;
    if n >= 3 {
      CentreAgrees(p, code, frame, x, full, permutation);
      TotalPermuted(x.cells, permutation, Identity(n));
      TotalOfAll(x);
    }
    if n >= 4 {
      CentreAgrees(p, code, frame, x, full, EvenPositions(n));
    }
  }

  /** The rows 1, 2, 3 and 10 show it. */
  lemma FourRows(p: Prober, code: string, x: Column)
    requires p.sandbox == Centre && p.matches == CompleteOnly && x == Column("x", [Known(1), Known(2), Known(3), Known(10)])
    requires multiset(p.permutation(4)) == multiset(Identity(4))
    ensures var frame := Frame(4, [x]);
            var gate := HoldoutGate(p)(code, frame, Centre(code, frame).value, ["y"]);
            gate.Some? && "y" in gate.value
  {
    var frame := Frame(4, [x]);
    assert |x.cells| == 4;
    SumIsSeen(p, code, frame, x, Centre(code, frame).value);
    hide HoldoutGate, Centre;
    assert EvenPositions(4) == [0, 2] && [0, 2][1..] == [2];
    assert TotalAt(x.cells, [2]) == 3 && TotalAt(x.cells, [0, 2]) == 4;
    var tail := x.cells[2..];
    assert x.cells[1..][1..] == tail && tail[1..] == [Known(10)];
    assert Total(tail) == 13;
    assert Total(x.cells[1..]) == 15;
  }
}
