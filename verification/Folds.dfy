/** Partitions and validation folds of the Silver rows, and the arms evaluated over them. */
module Folds {
  import opened Prelude

  datatype Part = Discovery | Evaluation

  // ---- partition labels -----------------------------------------------------------------

  /** What the shuffle splitter gives: the discovery and the evaluation positions. */
  datatype Shuffled = Shuffled(discovery: seq<nat>, evaluation: seq<nat>)

  /** A splitter's promise: both sides are positions, no position is on both, and none is left out. */
  ghost predicate Tiles(n: nat, s: Shuffled) {
    && (forall i :: 0 <= i < |s.discovery| ==> s.discovery[i] < n)
    && (forall i :: 0 <= i < |s.evaluation| ==> s.evaluation[i] < n)
    && (forall i, j :: 0 <= i < j < |s.discovery| ==> s.discovery[i] != s.discovery[j])
    && (forall i, j :: 0 <= i < j < |s.evaluation| ==> s.evaluation[i] != s.evaluation[j])
    && (forall v :: 0 <= v < n ==> (v in s.discovery) != (v in s.evaluation))
  }

  /** `assign_row_partitions`: None where the splitter rejects, or a side cannot host the folds. */
  method AssignRowPartitions(n: nat, holdout: bool, shuffled: Option<Shuffled>, cvFolds: nat)
    returns (r: Option<seq<Part>>)
    requires holdout && shuffled.Some? ==> Tiles(n, shuffled.value)
    ensures r.None? <==> holdout && (shuffled.None? || |shuffled.value.discovery| < cvFolds || |shuffled.value.evaluation| < cvFolds)
    ensures r.Some? ==> |r.value| == n
    ensures r.Some? ==> forall i :: 0 <= i < n ==>
      r.value[i] == if holdout && i in shuffled.value.evaluation then Evaluation else Discovery
  {
    if holdout {
      if shuffled.None? || |shuffled.value.discovery| < cvFolds || |shuffled.value.evaluation| < cvFolds {
        return None;
      }
    }
    var labels := new Part[n](_ => Discovery);
    if holdout && shuffled.value.evaluation != [] {
      var marked := shuffled.value.evaluation;
      for k := 0 to |marked|
        invariant forall i :: 0 <= i < n ==> labels[i] == if i in marked[..k] then Evaluation else Discovery
      {
        labels[marked[k]] := Evaluation;
        assert marked[..k + 1] == marked[..k] + [marked[k]];
      }
      assert marked[..|marked|] == marked;
    }
    return Some(labels[..]);
  }

  // ---- positions of a partition --------------------------------------------------------------

  function Count(labels: seq<Part>, part: Part): nat {
    if labels == [] then 0
    else Count(labels[..|labels| - 1], part) + if labels[|labels| - 1] == part then 1 else 0
  }

  /** `np.flatnonzero(labels == part)` */
  function Positions(labels: seq<Part>, part: Part): (r: seq<nat>)
    ensures |r| == Count(labels, part)
    ensures forall j :: 0 <= j < |r| ==> r[j] < |labels| && labels[r[j]] == part && Count(labels[..r[j]], part) == j
  {
    if labels == [] then []
    else
      var n := |labels| - 1;
      var rest := Positions(labels[..n], part);
      assert forall j :: 0 <= j < |rest| ==> labels[..n][..rest[j]] == labels[..rest[j]];
      if labels[n] == part then rest + [n] else rest
  }

  lemma {:induction false} PositionOf(labels: seq<Part>, i: nat)
    requires i < |labels|
    ensures var part := labels[i]; var at := Count(labels[..i], part);
            at < |Positions(labels, part)| && Positions(labels, part)[at] == i
    decreases |labels|
  {
    var n := |labels| - 1;
    if i < n {
      assert labels[..n][..i] == labels[..i];
      PositionOf(labels[..n], i);
    }
  }

  lemma SomeRow(labels: seq<Part>, part: Part)
    requires Count(labels, part) > 0
    ensures exists i :: 0 <= i < |labels| && labels[i] == part
  {
    assert labels[Positions(labels, part)[0]] == part;
  }

  // ---- folds -------------------------------------------------------------------------------------

  /** The validation sets of a fold splitter over `m` rows. */
  type Sets = seq<seq<nat>>

  /** A splitter's promise: `k` validation sets, none empty, that share no row and cover every row. */
  ghost predicate Splits(k: nat, m: nat, sets: Sets) {
    && |sets| == k
    && (forall f :: 0 <= f < k ==> sets[f] != [] && forall j :: 0 <= j < |sets[f]| ==> sets[f][j] < m)
    && (forall f, g, v :: 0 <= f < g < k && v in sets[f] ==> v !in sets[g])
    && (forall v :: 0 <= v < m ==> InSome(sets, v))
  }

  ghost predicate InSome(sets: Sets, v: nat) {
    exists f :: 0 <= f < |sets| && v in sets[f]
  }

  /** The fold last written for a row of the partition, -1 where none was. */
  function FoldOf(sets: Sets, v: nat): (f: int)
    ensures -1 <= f < |sets|
    ensures f >= 0 ==> v in sets[f] && forall g :: f < g < |sets| ==> v !in sets[g]
    ensures f < 0 ==> forall g :: 0 <= g < |sets| ==> v !in sets[g]
  {
    if sets == [] then -1
    else if v in sets[|sets| - 1] then |sets| - 1
    else FoldOf(sets[..|sets| - 1], v)
  }

  method WriteFold(labels: seq<Part>, part: Part, positions: seq<nat>, chosen: seq<nat>, fold: int, folds: array<int>)
    requires folds.Length == |labels| && positions == Positions(labels, part)
    requires forall j :: 0 <= j < |chosen| ==> chosen[j] < |positions|
    requires forall i :: 0 <= i < |labels| && labels[i] == part ==>
      Count(labels[..i], part) < |positions| && positions[Count(labels[..i], part)] == i
    modifies folds
    ensures forall i :: 0 <= i < folds.Length ==>
      folds[i] == if labels[i] == part && Count(labels[..i], part) in chosen then fold else old(folds[i])
  {
    for j := 0 to |chosen|
      invariant forall i :: 0 <= i < folds.Length ==>
        folds[i] == if labels[i] == part && Count(labels[..i], part) in chosen[..j] then fold else old(folds[i])
    {
      folds[positions[chosen[j]]] := fold;
      assert chosen[..j + 1] == chosen[..j] + [chosen[j]];
    }
    assert chosen[..|chosen|] == chosen;
  }

  /** Writes the folds of one partition: `folds[partition_idx[validation_indices]] = fold`. */
  method FillFolds(labels: seq<Part>, part: Part, sets: Sets, folds: array<int>)
    requires folds.Length == |labels|
    requires forall f :: 0 <= f < |sets| ==> forall j :: 0 <= j < |sets[f]| ==> sets[f][j] < Count(labels, part)
    modifies folds
    ensures forall i :: 0 <= i < folds.Length ==>
      folds[i] == if labels[i] == part && FoldOf(sets, Count(labels[..i], part)) >= 0
                  then FoldOf(sets, Count(labels[..i], part)) else old(folds[i])
  {
    var positions := Positions(labels, part);
    forall i | 0 <= i < |labels| && labels[i] == part
      ensures Count(labels[..i], part) < |positions| && positions[Count(labels[..i], part)] == i
    {
      PositionOf(labels, i);
    }
    for fold := 0 to |sets|
      invariant forall i :: 0 <= i < folds.Length ==>
        folds[i] == if labels[i] == part && FoldOf(sets[..fold], Count(labels[..i], part)) >= 0
                    then FoldOf(sets[..fold], Count(labels[..i], part)) else old(folds[i])
    {
      WriteFold(labels, part, positions, sets[fold], fold, folds);
      assert sets[..fold + 1][..fold] == sets[..fold] && sets[..fold + 1][fold] == sets[fold];
    }
    assert sets[..|sets|] == sets;
  }

  datatype Row = Row(part: Part, fold: int)

  function FoldAt(labels: seq<Part>, split: (Part, nat) -> Option<Sets>, i: nat): int
    requires i < |labels|
  {
    match split(labels[i], Count(labels, labels[i]))
    case None => -1
    case Some(sets) => FoldOf(sets, Count(labels[..i], labels[i]))
  }

  function Assigned(labels: seq<Part>, split: (Part, nat) -> Option<Sets>): Option<seq<Row>> {
    if exists i :: 0 <= i < |labels| && FoldAt(labels, split, i) < 0 then None
    else Some(seq(|labels|, i requires 0 <= i < |labels| => Row(labels[i], FoldAt(labels, split, i))))
  }

  lemma AssignedIs(labels: seq<Part>, split: (Part, nat) -> Option<Sets>, folds: seq<int>)
    requires |folds| == |labels| && forall i :: 0 <= i < |labels| ==> folds[i] == FoldAt(labels, split, i)
    ensures Assigned(labels, split).None? <==> exists i :: 0 <= i < |folds| && folds[i] < 0
    ensures Assigned(labels, split).Some? ==> |Assigned(labels, split).value| == |labels|
    ensures Assigned(labels, split).Some? ==>
      forall i :: 0 <= i < |labels| ==> Assigned(labels, split).value[i] == Row(labels[i], folds[i])
  {
    hide FoldAt;
    if i :| 0 <= i < |folds| && folds[i] < 0 {
      assert FoldAt(labels, split, i) < 0;
    }
    if i :| 0 <= i < |labels| && FoldAt(labels, split, i) < 0 {
      assert folds[i] < 0;
    }
  }

  ghost predicate InBounds(labels: seq<Part>, split: (Part, nat) -> Option<Sets>, part: Part) {
    var sets := split(part, Count(labels, part));
    sets.Some? ==> forall f :: 0 <= f < |sets.value| ==>
      forall j :: 0 <= j < |sets.value[f]| ==> sets.value[f][j] < Count(labels, part)
  }

  /** The folds of one partition; false where its splitter raises. */
  method FoldPart(labels: seq<Part>, part: Part, split: (Part, nat) -> Option<Sets>, folds: array<int>) returns (ok: bool)
    requires folds.Length == |labels| && InBounds(labels, split, part)
    requires forall i :: 0 <= i < |labels| && labels[i] == part ==> folds[i] == -1
    modifies folds
    ensures !ok ==> Assigned(labels, split).None?
    ensures ok ==> forall i :: 0 <= i < |labels| ==>
      folds[i] == if labels[i] == part then FoldAt(labels, split, i) else old(folds[i])
  {
    if Count(labels, part) == 0 {
      forall i | 0 <= i < |labels| ensures labels[i] != part { PositionOf(labels, i); }
      return true;
    }
    var sets := split(part, Count(labels, part));
    if sets.None? {
      SomeRow(labels, part);
      ghost var i :| 0 <= i < |labels| && labels[i] == part;
      assert FoldAt(labels, split, i) < 0;
      return false;
    }
    FillFolds(labels, part, sets.value, folds);
    return true;
  }

  /** `fold_assignments`: None where a splitter raises or leaves a row without a fold. */
  method FoldAssignments(labels: seq<Part>, split: (Part, nat) -> Option<Sets>) returns (r: Option<seq<Row>>)
    requires forall part: Part :: InBounds(labels, split, part)
    ensures r == Assigned(labels, split)
  {
    hide FoldAt, Count, FoldOf, InBounds, Assigned;
    var folds := new int[|labels|](_ => -1);
    var ok := FoldPart(labels, Discovery, split, folds);
    if !ok {
      return None;
    }
    ok := FoldPart(labels, Evaluation, split, folds);
    if !ok {
      return None;
    }
    AssignedIs(labels, split, folds[..]);
    if exists i :: 0 <= i < folds.Length && folds[i] < 0 {
      ghost var i :| 0 <= i < folds.Length && folds[i] < 0;
      assert folds[..][i] < 0;
      return None;
    }
    var given := folds[..];
    var rows := seq(|labels|, i requires 0 <= i < |labels| => Row(labels[i], given[i]));
    assert Assigned(labels, split).Some? ==> Assigned(labels, split).value == rows;
    return Some(rows);
  }

  // ---- every row gets exactly one fold, and every partition all of them ---------------------------

  ghost predicate SplitsParts(labels: seq<Part>, split: (Part, nat) -> Option<Sets>, k: nat) {
    forall part: Part :: Count(labels, part) > 0 ==>
      (&& split(part, Count(labels, part)).Some?
       && Splits(k, Count(labels, part), split(part, Count(labels, part)).value))
  }

  /** Both partitions' rows have folds below `k`, and each partition that has rows has every fold. */
  ghost predicate FullyFolded(labels: seq<Part>, rows: seq<Row>, k: nat) {
    && |rows| == |labels|
    && (forall i :: 0 <= i < |rows| ==> rows[i].part == labels[i] && 0 <= rows[i].fold < k)
    && forall part: Part, f: int :: Count(labels, part) > 0 && 0 <= f < k ==> Row(part, f) in rows
  }

  lemma FoldInRange(labels: seq<Part>, split: (Part, nat) -> Option<Sets>, k: nat, i: nat)
    requires SplitsParts(labels, split, k) && i < |labels|
    ensures 0 <= FoldAt(labels, split, i) < k
  {
    PositionOf(labels, i);
    var part, at := labels[i], Count(labels[..i], labels[i]);
    assert InSome(split(part, Count(labels, part)).value, at);
  }

  lemma FoldReached(labels: seq<Part>, split: (Part, nat) -> Option<Sets>, k: nat, part: Part, f: nat) returns (i: nat)
    requires SplitsParts(labels, split, k) && Count(labels, part) > 0 && f < k
    ensures i < |labels| && labels[i] == part && FoldAt(labels, split, i) == f
  {
    var sets := split(part, Count(labels, part)).value;
    var v := sets[f][0];
    assert v in sets[f];
    i := Positions(labels, part)[v];
    assert FoldOf(sets, v) >= f;
    assert v in sets[FoldOf(sets, v)];
  }

  /** With splitters that keep their promise, no row is left without a fold, every row's fold is the
      one validation set that holds it, and every partition that has rows has rows in all folds. */
  lemma EveryRowFolded(labels: seq<Part>, split: (Part, nat) -> Option<Sets>, k: nat)
    requires SplitsParts(labels, split, k)
    ensures Assigned(labels, split).Some? && FullyFolded(labels, Assigned(labels, split).value, k)
    ensures forall i :: 0 <= i < |labels| ==>
      var sets := split(labels[i], Count(labels, labels[i]));
      sets.Some? && forall f :: 0 <= f < |sets.value| ==>
        (Count(labels[..i], labels[i]) in sets.value[f] <==> Assigned(labels, split).value[i].fold == f)
  {
    forall i | 0 <= i < |labels| ensures 0 <= FoldAt(labels, split, i) < k { FoldInRange(labels, split, k, i); }
    var rows := Assigned(labels, split).value;
    forall part: Part, f: int | Count(labels, part) > 0 && 0 <= f < k ensures Row(part, f) in rows {
      var i := FoldReached(labels, split, k, part, f);
      assert rows[i] == Row(part, f);
    }
    forall i | 0 <= i < |labels|
      ensures var sets := split(labels[i], Count(labels, labels[i]));
        sets.Some? && forall f :: 0 <= f < |sets.value| ==>
          (Count(labels[..i], labels[i]) in sets.value[f] <==> rows[i].fold == f)
    {
      OneFold(labels, split, k, i);
    }
  }

  lemma OneFold(labels: seq<Part>, split: (Part, nat) -> Option<Sets>, k: nat, i: nat)
    requires SplitsParts(labels, split, k) && i < |labels|
    ensures var sets := split(labels[i], Count(labels, labels[i]));
            sets.Some? && forall f :: 0 <= f < |sets.value| ==>
              (Count(labels[..i], labels[i]) in sets.value[f] <==> FoldAt(labels, split, i) == f)
  {
    PositionOf(labels, i);
    FoldInRange(labels, split, k, i);
    hide Positions, Count;
  }

  // ---- the SILVER.SPLIT.NON_OVERLAP check ------------------------------------------------------------

  function FoldsOf(rows: seq<Row>): set<int> {
    set i | 0 <= i < |rows| :: rows[i].fold
  }

  function FoldsOfPart(rows: seq<Row>, part: Part): set<int> {
    set i | 0 <= i < |rows| && rows[i].part == part :: rows[i].fold
  }

  function PartsOf(rows: seq<Row>): set<Part> {
    set i | 0 <= i < |rows| :: rows[i].part
  }

  /** The fold clauses of the check, for row ids that are aligned. */
  predicate NonOverlapCheck(rows: seq<Row>, k: nat, holdout: bool) {
    && |FoldsOf(rows)| == k && (forall i | 0 <= i < |rows| :: rows[i].fold >= 0)
    && PartsOf(rows) == (if holdout then {Discovery, Evaluation} else {Discovery})
    && (holdout ==> |FoldsOfPart(rows, Discovery)| == k && |FoldsOfPart(rows, Evaluation)| == k)
  }

  /** The folds `0..k-1`. */
  function AllFolds(k: nat): (r: set<int>)
    ensures |r| == k && forall f :: f in r <==> 0 <= f < k
  {
    if k == 0 then {} else AllFolds(k - 1) + {k - 1}
  }

  /** The check passes on what the assignment produces, with and without a holdout. */
  lemma CheckPasses(labels: seq<Part>, rows: seq<Row>, k: nat, holdout: bool)
    requires FullyFolded(labels, rows, k) && Count(labels, Discovery) > 0 && (Count(labels, Evaluation) > 0 <==> holdout)
    ensures NonOverlapCheck(rows, k, holdout)
  {
    forall i | 0 <= i < |labels| ensures Count(labels, labels[i]) > 0 { PositionOf(labels, i); }
    FoldsAre(labels, rows, k, Discovery);
    if holdout { FoldsAre(labels, rows, k, Evaluation); }
    assert FoldsOf(rows) == AllFolds(k) by {
      forall f ensures f in FoldsOf(rows) ==> f in AllFolds(k) {
      }
      assert FoldsOfPart(rows, Discovery) <= FoldsOf(rows);
    }
    hide Count, AllFolds, FoldsOf, FoldsOfPart;
    forall part: Part ensures part in PartsOf(rows) <==> Count(labels, part) > 0 {
      if Count(labels, part) > 0 { SomeRow(labels, part); }
    }
    PartsAre(rows, holdout);
  }

  lemma FoldsAre(labels: seq<Part>, rows: seq<Row>, k: nat, part: Part)
    requires FullyFolded(labels, rows, k) && Count(labels, part) > 0
    ensures FoldsOfPart(rows, part) == AllFolds(k)
  {
    hide Count, AllFolds;
    forall f | f in AllFolds(k) ensures f in FoldsOfPart(rows, part) {
      assert Row(part, f) in rows;
      var i :| 0 <= i < |rows| && rows[i] == Row(part, f);
    }
  }

  /** What `AssignRowPartitions` returns. */
  ghost predicate Labelled(n: nat, holdout: bool, shuffled: Option<Shuffled>, cvFolds: nat, labels: seq<Part>) {
    && |labels| == n
    && (holdout ==> shuffled.Some? && Tiles(n, shuffled.value)
                    && |shuffled.value.discovery| >= cvFolds && |shuffled.value.evaluation| >= cvFolds)
    && forall i :: 0 <= i < n ==> labels[i] == if holdout && i in shuffled.value.evaluation then Evaluation else Discovery
  }

  /** From the two splitters to the check: with at least one fold and one row, splitters that keep
      their promises give an assignment that passes it, under a holdout and without one. */
  lemma AssignmentPassesCheck(n: nat, holdout: bool, shuffled: Option<Shuffled>, cvFolds: nat, labels: seq<Part>,
                              split: (Part, nat) -> Option<Sets>)
    requires n > 0 && cvFolds > 0 && Labelled(n, holdout, shuffled, cvFolds, labels) && SplitsParts(labels, split, cvFolds)
    ensures Assigned(labels, split).Some? && NonOverlapCheck(Assigned(labels, split).value, cvFolds, holdout)
  {
    EveryRowFolded(labels, split, cvFolds);
    if holdout {
      var e, d := shuffled.value.evaluation[0], shuffled.value.discovery[0];
      assert e in shuffled.value.evaluation && d in shuffled.value.discovery;
      PositionOf(labels, e);
      PositionOf(labels, d);
    } else {
      PositionOf(labels, 0);
      if Count(labels, Evaluation) > 0 { SomeRow(labels, Evaluation); }
    }
    hide *;
    CheckPasses(labels, Assigned(labels, split).value, cvFolds, holdout);
  }

  lemma PartsAre(rows: seq<Row>, holdout: bool)
    requires Discovery in PartsOf(rows) && (Evaluation in PartsOf(rows) <==> holdout)
    ensures PartsOf(rows) == if holdout then {Discovery, Evaluation} else {Discovery}
  {
    var expected := if holdout then {Discovery, Evaluation} else {Discovery};
    forall part ensures part in PartsOf(rows) <==> part in expected {
      match part
      case Discovery =>
      case Evaluation =>
    }
  }

  // ---- what passing the check says ---------------------------------------------------------------------

  ghost predicate Present(rows: seq<Row>, part: Part) {
    exists i :: 0 <= i < |rows| && rows[i].part == part
  }

  /** The partition has a row in every fold. */
  ghost predicate Covers(rows: seq<Row>, part: Part, k: nat) {
    forall f: int :: 0 <= f < k ==> Row(part, f) in rows
  }

  lemma SubsetCount(a: set<int>, b: set<int>)
    requires a <= b
    ensures |a| <= |b| && (|a| == |b| <==> a == b)
  {
    assert b == a + (b - a) && a * (b - a) == {};
  }

  lemma FoldsCover(rows: seq<Row>, part: Part, k: nat)
    requires forall i :: 0 <= i < |rows| ==> 0 <= rows[i].fold < k
    ensures |FoldsOfPart(rows, part)| == k <==> Covers(rows, part, k)
  {
    var folds, all := FoldsOfPart(rows, part), AllFolds(k);
    SubsetCount(folds, all);
    forall f ensures f in folds <==> Row(part, f) in rows {
      if f in folds {
        var i :| 0 <= i < |rows| && rows[i].part == part && rows[i].fold == f;
        assert rows[i] == Row(part, f);
      }
      if Row(part, f) in rows {
        var i :| 0 <= i < |rows| && rows[i] == Row(part, f);
      }
    }
    hide FoldsOfPart, AllFolds;
    if Covers(rows, part, k) { assert folds == all; }
  }

  lemma PartsPresent(rows: seq<Row>, part: Part)
    ensures part in PartsOf(rows) <==> Present(rows, part)
  {
  }

  /** For folds below `k`, the check passes exactly if no fold is negative, the partitions that have rows are
      the ones that the protocol asks for, and each of them has a row in every fold. */
  lemma CheckDecides(rows: seq<Row>, k: nat, holdout: bool)
    requires forall i :: 0 <= i < |rows| ==> rows[i].fold < k
    ensures NonOverlapCheck(rows, k, holdout) <==>
            && (forall i :: 0 <= i < |rows| ==> rows[i].fold >= 0)
            && Present(rows, Discovery) && (Present(rows, Evaluation) <==> holdout)
            && Covers(rows, Discovery, k) && (holdout ==> Covers(rows, Evaluation, k))
  {
    PartsPresent(rows, Discovery);
    PartsPresent(rows, Evaluation);
    if Present(rows, Discovery) && (Present(rows, Evaluation) <==> holdout) { PartsAre(rows, holdout); }
    if forall i :: 0 <= i < |rows| ==> rows[i].fold >= 0 {
      FoldsCover(rows, Discovery, k);
      FoldsCover(rows, Evaluation, k);
      SubsetCount(FoldsOf(rows), AllFolds(k));
      SubsetCount(FoldsOfPart(rows, Discovery), FoldsOf(rows));
      if !Present(rows, Evaluation) { OnePartition(rows); }
    }
    hide FoldsOf, FoldsOfPart, AllFolds, Present, Covers;
  }

  lemma OnePartition(rows: seq<Row>)
    requires !Present(rows, Evaluation)
    ensures FoldsOf(rows) == FoldsOfPart(rows, Discovery)
  {
    forall i | 0 <= i < |rows| ensures rows[i].part == Discovery {
      match rows[i].part
      case Discovery =>
      case Evaluation => assert false;
    }
  }

  // ---- arms over one partition -------------------------------------------------------------------------

  function Train(rows: seq<Row>, part: Part, fold: int): set<nat> {
    set i | 0 <= i < |rows| && rows[i].part == part && rows[i].fold != fold
  }

  function Validation(rows: seq<Row>, part: Part, fold: int): set<nat> {
    set i | 0 <= i < |rows| && rows[i].part == part && rows[i].fold == fold
  }

  function Scope(rows: seq<Row>, part: Part): set<nat> {
    set i | 0 <= i < |rows| && rows[i].part == part
  }

  function ValidationTotal(rows: seq<Row>, part: Part, k: nat): nat {
    if k == 0 then 0 else ValidationTotal(rows, part, k - 1) + |Validation(rows, part, k - 1)|
  }

  /** An arm's train and validation rows are disjoint, stay inside their partition and tile it, and
      over all folds the validation rows count the partition exactly once. */
  lemma ArmsTile(rows: seq<Row>, part: Part, k: nat)
    requires forall i :: 0 <= i < |rows| ==> 0 <= rows[i].fold < k
    ensures forall f :: Train(rows, part, f) * Validation(rows, part, f) == {}
                        && Train(rows, part, f) + Validation(rows, part, f) == Scope(rows, part)
    ensures ValidationTotal(rows, part, k) == |Scope(rows, part)|
  {
    BelowTotal(rows, part, k);
    assert (set i | 0 <= i < |rows| && rows[i].part == part && rows[i].fold < k) == Scope(rows, part);
  }

  lemma {:induction false} BelowTotal(rows: seq<Row>, part: Part, k: nat)
    requires forall i :: 0 <= i < |rows| ==> 0 <= rows[i].fold
    ensures ValidationTotal(rows, part, k) == |set i | 0 <= i < |rows| && rows[i].part == part && rows[i].fold < k|
  {
    var below := set i | 0 <= i < |rows| && rows[i].part == part && rows[i].fold < k;
    if k == 0 {
      assert below == {};
    } else {
      BelowTotal(rows, part, k - 1);
      var fewer := set i | 0 <= i < |rows| && rows[i].part == part && rows[i].fold < k - 1;
      assert below == fewer + Validation(rows, part, k - 1) && fewer * Validation(rows, part, k - 1) == {};
    }
  }
}
