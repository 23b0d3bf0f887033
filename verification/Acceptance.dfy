/** What it means that a committed Gold package replays. */
module Acceptance {
  import opened Prelude
  import opened Ordering
  import opened Gold

  function Replayed(sandbox: Sandbox, package: Package, silver: Frame): Option<Frame> {
    ReplayAll(sandbox, package, SortBy(Paths(package.scripts), StrLeq), silver)
  }

  // ---- the recomputed columns ---------------------------------------------------------

  /** What one turn of the replay loop appends to the working frame. */
  function OutputOf(sandbox: Sandbox, package: Package, path: string, working: Frame): seq<Frame> {
    var batch := AcceptedOf(ItemsOf(package.candidates, path), package.decisions);
    var output := sandbox(CodeAt(package.scripts, path), working);
    if batch == [] || output.None? then []
    else [Frame(output.value.rows, Select(output.value.columns, Names(batch)))]
  }

  function OutputsOf(sandbox: Sandbox, package: Package, paths: seq<string>, working: Frame): seq<Frame>
    decreases |paths|
  {
    if paths == [] then []
    else match ReplayOne(sandbox, package, paths[0], working)
      case None => []
      case Some(next) => OutputOf(sandbox, package, paths[0], working) + OutputsOf(sandbox, package, paths[1..], next)
  }

  /** The columns that replay computed, aligned with the frame it ended with. */
  function Recomputed(sandbox: Sandbox, package: Package, silver: Frame): seq<Column> {
    var outputs := OutputsOf(sandbox, package, SortBy(Paths(package.scripts), StrLeq), silver);
    PadAll(AllColumns(outputs), MaxRows([silver] + outputs))
  }

  lemma OneAppended(sandbox: Sandbox, package: Package, path: string, silver: Frame, outputs: seq<Frame>)
    requires SandboxOk(sandbox) && AllRectangular([silver] + outputs)
    requires ReplayOne(sandbox, package, path, Concat([silver] + outputs)).Some?
    ensures var more := outputs + OutputOf(sandbox, package, path, Concat([silver] + outputs));
            && AllRectangular([silver] + more)
            && ReplayOne(sandbox, package, path, Concat([silver] + outputs)).value == Concat([silver] + more)
  {
    var working := Concat([silver] + outputs);
    ConcatRectangular([silver] + outputs);
    var added := OutputOf(sandbox, package, path, working);
    hide Concat, Has, AcceptedOf, ItemsOf;
    if added == [] {
      assert outputs + added == outputs;
    } else {
      var batch := AcceptedOf(ItemsOf(package.candidates, path), package.decisions);
      var output := sandbox(CodeAt(package.scripts, path), working).value;
      SelectFits(output.columns, Names(batch), output.rows);
      ConcatOneMore([silver] + outputs, added[0]);
      assert ([silver] + outputs) + [added[0]] == [silver] + (outputs + added);
    }
  }

  lemma {:induction false} ReplaySplits(sandbox: Sandbox, package: Package, paths: seq<string>, silver: Frame, outputs: seq<Frame>)
    requires SandboxOk(sandbox) && AllRectangular([silver] + outputs)
    requires ReplayAll(sandbox, package, paths, Concat([silver] + outputs)).Some?
    ensures ReplayAll(sandbox, package, paths, Concat([silver] + outputs)).value ==
            Concat([silver] + (outputs + OutputsOf(sandbox, package, paths, Concat([silver] + outputs))))
    decreases |paths|
  {
    var working := Concat([silver] + outputs);
    hide Concat, ReplayOne, OutputOf, AllRectangular;
    if paths == [] {
      assert outputs + OutputsOf(sandbox, package, paths, working) == outputs;
    } else {
      OneAppended(sandbox, package, paths[0], silver, outputs);
      var added := OutputOf(sandbox, package, paths[0], working);
      ReplaySplits(sandbox, package, paths[1..], silver, outputs + added);
      var rest := OutputsOf(sandbox, package, paths[1..], Concat([silver] + (outputs + added)));
      assert outputs + (added + rest) == (outputs + added) + rest;
    }
  }

  /** The frame replay ends with is the Silver columns beside the recomputed ones. */
  lemma ReplayedIsSplit(sandbox: Sandbox, package: Package, silver: Frame)
    requires SandboxOk(sandbox) && Rectangular(silver) && Replayed(sandbox, package, silver).Some?
    ensures var working := Replayed(sandbox, package, silver).value;
            working.columns == PadAll(silver.columns, working.rows) + Recomputed(sandbox, package, silver)
  {
    var paths := SortBy(Paths(package.scripts), StrLeq);
    SilverAlone(silver);
    var none: seq<Frame> := [];
    assert [silver] + none == [silver];
    ReplaySplits(sandbox, package, paths, silver, none);
    var outputs := OutputsOf(sandbox, package, paths, silver);
    assert none + outputs == outputs;
    assert ([silver] + outputs)[1..] == outputs;
    PadAllConcat(silver.columns, AllColumns(outputs), MaxRows([silver] + outputs));
  }

  // ---- what replay refuses ----------------------------------------------------------------

  /** A script with accepted candidates must still run and still output each of their names; the rest of its output does
      not matter. Without accepted candidates it is not run. */
  lemma ReplayOneDecides(sandbox: Sandbox, package: Package, path: string, working: Frame)
    ensures var batch := AcceptedOf(ItemsOf(package.candidates, path), package.decisions);
            var output := sandbox(CodeAt(package.scripts, path), working);
            && (ReplayOne(sandbox, package, path, working).None? <==>
                  batch != [] && (output.None? || exists c :: c in batch && !Has(output.value.columns, c.name)))
            && (batch == [] ==> ReplayOne(sandbox, package, path, working) == Some(working))
  {
    var batch := AcceptedOf(ItemsOf(package.candidates, path), package.decisions);
    hide Concat, Select, Has, ItemsOf, AcceptedOf, CodeAt;
    forall n: string ensures n in Names(batch) <==> exists c :: c in batch && c.name == n {
      if c :| c in batch && c.name == n {
        var i :| 0 <= i < |batch| && batch[i] == c;
        assert Names(batch)[i] == n;
      }
    }
  }

  /** A committed frame of several columns without row ids never replays. */
  lemma RowIdsNeeded(sandbox: Sandbox, package: Package, silver: Frame)
    requires |package.accepted.columns| >= 2 && !Has(package.accepted.columns, ROW_ID)
    ensures !Replays(sandbox, package, silver)
  {
    WithoutLength(package.accepted.columns, ROW_ID);
    hide ReplayAll, Has;
  }

  // ---- what acceptance says ---------------------------------------------------------

  lemma {:induction false} WithoutKeeps(columns: seq<Column>, name: string, i: nat)
    requires i < |columns| && columns[i].name != name
    ensures columns[i] in Without(columns, name)
  {
    if i > 0 { WithoutKeeps(columns[1..], name, i - 1); }
  }

  lemma {:induction false} WithoutFrom(columns: seq<Column>, name: string)
    ensures forall c :: c in Without(columns, name) ==> c in columns
  {
    if columns != [] { WithoutFrom(columns[1..], name); }
  }

  lemma {:induction false} LabelledHolds(columns: seq<Column>, i: nat)
    requires i < |columns|
    ensures columns[i] in Labelled(columns, columns[i].name)
  {
    if i > 0 { LabelledHolds(columns[1..], i - 1); }
  }

  /** A package with at least one feature column replays only if every one of its features is an
      unchanged Silver column or a recomputed one: recomputed if no Silver column has its name,
      and exactly then where no recomputed column repeats a Silver name. */
  lemma AcceptedIsRecomputed(sandbox: Sandbox, package: Package, silver: Frame)
    requires SandboxOk(sandbox) && Rectangular(silver)
    requires Replays(sandbox, package, silver) && |package.accepted.columns| >= 2
    ensures Replayed(sandbox, package, silver).Some?
    ensures var columns := Recomputed(sandbox, package, silver);
            forall c :: c in package.accepted.columns && c.name != ROW_ID ==>
              && (c in columns || c in PadAll(silver.columns, Replayed(sandbox, package, silver).value.rows))
              && (!Has(silver.columns, c.name) ==> c in columns)
              && (Fresh(silver.columns, columns) ==> (c in columns <==> !Has(silver.columns, c.name)))
  {
    var working := Replayed(sandbox, package, silver).value;
    var columns := Recomputed(sandbox, package, silver);
    ReplayedIsSplit(sandbox, package, silver);
    hide Replayed, Recomputed;
    forall c | c in package.accepted.columns && c.name != ROW_ID
      ensures c in columns || c in PadAll(silver.columns, working.rows)
      ensures !Has(silver.columns, c.name) ==> c in columns
      ensures Fresh(silver.columns, columns) && c in columns ==> !Has(silver.columns, c.name)
    {
      FeatureInWorking(package.accepted, working, c);
      PaddedNames(silver.columns, working.rows, c.name);
    }
  }

  lemma FeatureInWorking(accepted: Frame, working: Frame, c: Column)
    requires |accepted.columns| >= 2 && (SameTail(accepted, working) || SameByName(accepted, working))
    requires c in accepted.columns && c.name != ROW_ID
    ensures c in working.columns
  {
    var i :| 0 <= i < |accepted.columns| && accepted.columns[i] == c;
    if SameTail(accepted, working) {
      WithoutKeeps(accepted.columns, ROW_ID, i);
      WithoutFrom(working.columns, ROW_ID);
    } else {
      LabelledHolds(accepted.columns, i);
      assert c in Labelled(working.columns, c.name);
    }
  }

  // ---- exactly which committed frames replay -------------------------------------------

  /** No two columns but `row_id` share a name. */
  ghost predicate NamesApart(columns: seq<Column>) {
    forall i, j :: 0 <= i < j < |columns| && columns[i].name == columns[j].name ==> columns[i].name == ROW_ID
  }

  lemma NamesApartCons(columns: seq<Column>)
    requires columns != []
    ensures NamesApart(columns) <==>
            NamesApart(columns[1..]) && (columns[0].name == ROW_ID || !Has(columns[1..], columns[0].name))
  {
    var tail := columns[1..];
    assert forall i :: 0 < i < |columns| ==> columns[i] == tail[i - 1];
    if NamesApart(tail) && (columns[0].name == ROW_ID || !Has(tail, columns[0].name)) {
      forall i, j | 0 <= i < j < |columns| && columns[i].name == columns[j].name ensures columns[i].name == ROW_ID {
        assert tail[j - 1] == columns[j];
        if i > 0 { assert tail[i - 1] == columns[i]; }
      }
    }
    if NamesApart(columns) && Has(tail, columns[0].name) {
      var j :| 0 <= j < |tail| && tail[j].name == columns[0].name;
      assert columns[j + 1].name == columns[0].name;
    }
    if NamesApart(columns) {
      forall i, j | 0 <= i < j < |tail| && tail[i].name == tail[j].name ensures tail[i].name == ROW_ID {
        assert columns[i + 1] == tail[i] && columns[j + 1] == tail[j];
      }
    }
  }

  lemma {:induction false} WithoutNames(columns: seq<Column>, name: string)
    requires name != ROW_ID
    ensures Has(Without(columns, ROW_ID), name) <==> Has(columns, name)
  {
    if columns != [] {
      WithoutNames(columns[1..], name);
      HasCons(columns, name);
      var rest := Without(columns[1..], ROW_ID);
      assert ([columns[0]] + rest)[1..] == rest;
      HasCons([columns[0]] + rest, name);
    }
  }

  lemma {:induction false} WithoutApart(columns: seq<Column>)
    ensures NamesApart(Without(columns, ROW_ID)) <==> NamesApart(columns)
  {
    if columns != [] {
      NamesApartCons(columns);
      WithoutApart(columns[1..]);
      if columns[0].name != ROW_ID {
        var rest := Without(columns[1..], ROW_ID);
        assert ([columns[0]] + rest)[1..] == rest;
        NamesApartCons([columns[0]] + rest);
        WithoutNames(columns[1..], columns[0].name);
      }
    }
  }

  lemma {:induction false} LabelledApart(columns: seq<Column>, i: nat)
    requires NamesApart(columns) && i < |columns| && columns[i].name != ROW_ID
    ensures Labelled(columns, columns[i].name) == [columns[i]]
  {
    NamesApartCons(columns);
    LabelledCons(columns, columns[i].name);
    if i > 0 {
      assert columns[1..][i - 1] == columns[i];
      assert columns[0].name != columns[i].name;
      LabelledApart(columns[1..], i - 1);
    }
  }

  lemma {:induction false} LabelledTwice(columns: seq<Column>, i: nat, j: nat)
    requires i < j < |columns| && columns[i].name == columns[j].name
    ensures |Labelled(columns, columns[i].name)| >= 2
  {
    LabelledCons(columns, columns[i].name);
    assert columns[1..][j - 1] == columns[j];
    if i > 0 {
      LabelledTwice(columns[1..], i - 1, j - 1);
    } else {
      LabelledHolds(columns[1..], j - 1);
    }
  }

  /** Every feature is a column of the frame, and no two share a name. */
  ghost predicate DrawnFrom(accepted: seq<Column>, working: seq<Column>) {
    && NamesApart(accepted)
    && forall c :: c in accepted && c.name != ROW_ID ==> c in working
  }

  lemma ByNameIsDrawn(accepted: Frame, working: Frame)
    requires NamesApart(working.columns) && Has(accepted.columns, ROW_ID)
    ensures SameByName(accepted, working) <==> DrawnFrom(accepted.columns, working.columns)
  {
    var a, w := accepted.columns, working.columns;
    hide Has, Labelled;
    if SameByName(accepted, working) {
      forall i | 0 <= i < |a| && a[i].name != ROW_ID
        ensures a[i] in w && Labelled(a, a[i].name) == [a[i]]
      {
        FoundOnce(w, a[i].name);
        LabelledHolds(a, i);
      }
      forall i, j | 0 <= i < j < |a| && a[i].name == a[j].name ensures a[i].name == ROW_ID {
        LabelledTwice(a, i, j);
      }
    }
    if DrawnFrom(a, w) {
      forall i | 0 <= i < |a| && a[i].name != ROW_ID
        ensures Has(w, a[i].name) && Labelled(a, a[i].name) == Labelled(w, a[i].name)
      {
        assert a[i] in a;
        var j :| 0 <= j < |w| && w[j] == a[i];
        LabelledApart(a, i);
        LabelledApart(w, j);
        HasAt(w, j);
      }
    }
  }

  lemma HasAt(columns: seq<Column>, i: nat)
    requires i < |columns|
    ensures Has(columns, columns[i].name)
  {
  }

  lemma FoundOnce(columns: seq<Column>, name: string)
    requires NamesApart(columns) && name != ROW_ID && Has(columns, name)
    ensures exists c :: c in columns && c.name == name && Labelled(columns, name) == [c]
  {
    var i :| 0 <= i < |columns| && columns[i].name == name;
    LabelledApart(columns, i);
  }

  lemma TailIsDrawn(accepted: Frame, working: Frame)
    requires NamesApart(working.columns) && SameTail(accepted, working) && |accepted.columns| >= 2
    ensures DrawnFrom(accepted.columns, working.columns)
  {
    WithoutApart(accepted.columns);
    WithoutApart(working.columns);
    forall c | c in accepted.columns && c.name != ROW_ID ensures c in working.columns {
      FeatureInWorking(accepted, working, c);
    }
  }

  /** Where the recomputed frame's names are distinct, a committed frame with row ids and at least
      one feature replays exactly if its features are distinct columns of that frame. Replay
      therefore also accepts a Silver column, and a frame that leaves a recomputed column out. */
  lemma AcceptedExactly(sandbox: Sandbox, package: Package, silver: Frame)
    requires |package.accepted.columns| >= 2 && Has(package.accepted.columns, ROW_ID)
    requires var working := Replayed(sandbox, package, silver); working.Some? ==> NamesApart(working.value.columns)
    ensures var working := Replayed(sandbox, package, silver);
            Replays(sandbox, package, silver) <==>
            working.Some? && DrawnFrom(package.accepted.columns, working.value.columns)
  {
    var working := Replayed(sandbox, package, silver);
    hide NamesApart, Has, DrawnFrom, ReplayAll, SameTail, SameByName;
    if working.Some? {
      ByNameIsDrawn(package.accepted, working.value);
      if SameTail(package.accepted, working.value) {
        TailIsDrawn(package.accepted, working.value);
      }
    }
  }

  /** The committed features are the recomputed columns. */
  ghost predicate SameFeatures(accepted: seq<Column>, recomputed: seq<Column>) {
    forall c: Column :: c.name != ROW_ID ==> (c in accepted <==> c in recomputed)
  }

  /** When replay succeeds, the committed features are exactly the recomputed columns if and only if
      no feature has a Silver column's name and no recomputed column's name is left out. */
  lemma AcceptedIsAll(sandbox: Sandbox, package: Package, silver: Frame)
    requires SandboxOk(sandbox) && Rectangular(silver)
    requires Replays(sandbox, package, silver) && |package.accepted.columns| >= 2
    requires NamesApart(Replayed(sandbox, package, silver).value.columns)
    ensures var accepted, recomputed := package.accepted.columns, Recomputed(sandbox, package, silver);
            SameFeatures(accepted, recomputed) <==>
            && (forall c :: c in accepted && c.name != ROW_ID ==> !Has(silver.columns, c.name))
            && (forall c :: c in recomputed && c.name != ROW_ID ==> Has(accepted, c.name))
  {
    var working := Replayed(sandbox, package, silver).value;
    var accepted, recomputed := package.accepted.columns, Recomputed(sandbox, package, silver);
    var padded := PadAll(silver.columns, working.rows);
    AcceptedIsRecomputed(sandbox, package, silver);
    ReplayedIsSplit(sandbox, package, silver);
    hide *;
    FreshIfApart(padded, recomputed);
    forall name ensures Has(padded, name) <==> Has(silver.columns, name) {
      PaddedNames(silver.columns, working.rows, name);
    }
    FreshPadded(silver.columns, padded, recomputed);
    FeaturesExact(accepted, recomputed, silver.columns, padded);
  }

  lemma FreshPadded(silver: seq<Column>, padded: seq<Column>, recomputed: seq<Column>)
    requires Fresh(padded, recomputed) && forall name :: Has(padded, name) <==> Has(silver, name)
    ensures Fresh(silver, recomputed)
  {
    hide Has;
  }

  lemma FreshIfApart(silver: seq<Column>, outputs: seq<Column>)
    requires NamesApart(silver + outputs)
    ensures Fresh(silver, outputs)
  {
    forall j | 0 <= j < |outputs| ensures outputs[j].name == ROW_ID || !Has(silver, outputs[j].name) {
      if Has(silver, outputs[j].name) {
        var i :| 0 <= i < |silver| && silver[i].name == outputs[j].name;
        assert (silver + outputs)[i] == silver[i] && (silver + outputs)[|silver| + j] == outputs[j];
      }
    }
  }

  lemma FeaturesExact(accepted: seq<Column>, recomputed: seq<Column>, silver: seq<Column>, padded: seq<Column>)
    requires NamesApart(padded + recomputed) && Fresh(silver, recomputed)
    requires forall c :: c in accepted && c.name != ROW_ID ==> (c in recomputed <==> !Has(silver, c.name))
    ensures SameFeatures(accepted, recomputed) <==>
            && (forall c :: c in accepted && c.name != ROW_ID ==> !Has(silver, c.name))
            && (forall c :: c in recomputed && c.name != ROW_ID ==> Has(accepted, c.name))
  {
    if SameFeatures(accepted, recomputed) {
      forall c | c in recomputed && c.name != ROW_ID ensures Has(accepted, c.name) {
        var i :| 0 <= i < |accepted| && accepted[i] == c;
      }
    }
    if && (forall c :: c in accepted && c.name != ROW_ID ==> !Has(silver, c.name))
       && (forall c :: c in recomputed && c.name != ROW_ID ==> Has(accepted, c.name)) {
      forall c: Column | c.name != ROW_ID && c in recomputed ensures c in accepted {
        var i :| 0 <= i < |accepted| && accepted[i].name == c.name;
        assert accepted[i] in accepted;
        SameNameSameColumn(padded, recomputed, accepted[i], c);
      }
    }
  }

  lemma SameNameSameColumn(front: seq<Column>, columns: seq<Column>, a: Column, b: Column)
    requires NamesApart(front + columns) && a in columns && b in columns && a.name == b.name != ROW_ID
    ensures a == b
  {
    var i :| 0 <= i < |columns| && columns[i] == a;
    var j :| 0 <= j < |columns| && columns[j] == b;
    assert (front + columns)[|front| + i] == a && (front + columns)[|front| + j] == b;
  }

  /** A Silver column passes as a feature although no script ran and nothing was accepted. */
  lemma SilverColumnPasses(sandbox: Sandbox, silver: Frame, id: Column, c: Column)
    requires NamesApart(silver.columns) && c in silver.columns && id.name == ROW_ID != c.name
    ensures Replays(sandbox, Package([], [], [], Frame(silver.rows, [id, c])), silver)
    ensures Recomputed(sandbox, Package([], [], [], Frame(silver.rows, [id, c])), silver) == []
  {
    var package := Package([], [], [], Frame(silver.rows, [id, c]));
    assert Paths(package.scripts) == [] && SortBy(Paths(package.scripts), StrLeq) == [];
    assert Replayed(sandbox, package, silver) == Some(silver);
    assert package.accepted.columns[0] == id;
    AcceptedExactly(sandbox, package, silver);
  }

  /** Leaving features out of a frame that replays gives a frame that replays. */
  lemma OmittedColumnPasses(sandbox: Sandbox, package: Package, silver: Frame, fewer: Frame)
    requires Replays(sandbox, package, silver) && |package.accepted.columns| >= 2 && Has(package.accepted.columns, ROW_ID)
    requires NamesApart(Replayed(sandbox, package, silver).value.columns)
    requires Has(fewer.columns, ROW_ID) && NamesApart(fewer.columns)
    requires forall c :: c in fewer.columns && c.name != ROW_ID ==> c in package.accepted.columns
    ensures Replays(sandbox, package.(accepted := fewer), silver)
  {
    SamePaths(sandbox, package, fewer, SortBy(Paths(package.scripts), StrLeq), silver);
    AcceptedExactly(sandbox, package, silver);
    if |fewer.columns| >= 2 {
      AcceptedExactly(sandbox, package.(accepted := fewer), silver);
    }
  }

  /** A package with a single accepted column is not compared at all: any other single column in
      its place gives the same verdict. */
  lemma LoneColumnIsNotCompared(sandbox: Sandbox, package: Package, silver: Frame, other: Frame)
    requires |package.accepted.columns| <= 1 && |other.columns| <= 1
    ensures Replays(sandbox, package.(accepted := other), silver) == Replays(sandbox, package, silver)
  {
    SamePaths(sandbox, package, other, SortBy(Paths(package.scripts), StrLeq), silver);
  }

  lemma {:induction false} SamePaths(sandbox: Sandbox, package: Package, other: Frame, paths: seq<string>, working: Frame)
    ensures ReplayAll(sandbox, package.(accepted := other), paths, working) == ReplayAll(sandbox, package, paths, working)
    decreases |paths|
  {
    if paths != [] {
      assert ReplayOne(sandbox, package.(accepted := other), paths[0], working) == ReplayOne(sandbox, package, paths[0], working);
      hide ReplayOne;
      if ReplayOne(sandbox, package, paths[0], working).Some? {
        SamePaths(sandbox, package, other, paths[1..], ReplayOne(sandbox, package, paths[0], working).value);
      }
    }
  }
}
