/** Replay executes scripts in string order: from 10001 batches on, order-dependent code is replayed wrongly. */
module BatchOrder {
  import opened Prelude
  import opened Ordering
  import opened Gold
  import opened Acceptance

  // ---- code that records when it ran ---------------------------------------------------

  /** One column named like the code, holding the number of columns there were. */
  function CountColumns(code: string, working: Frame): Option<Frame> {
    Some(Frame(1, [Counted(code, |working.columns|)]))
  }

  function Counted(name: string, count: nat): Column { Column(name, [Known(count)]) }

  function AcceptAll(code: string, working: Frame, output: Frame, names: seq<string>): Option<set<string>> { Some({}) }

  /** The columns that scripts of these names leave when run in this order. */
  function InTurn(paths: seq<string>): (r: seq<Column>)
    ensures |r| == |paths| && forall i :: 0 <= i < |r| ==> r[i] == Counted(paths[i], i)
  {
    seq(|paths|, i requires 0 <= i < |paths| => Counted(paths[i], i))
  }

  lemma OneMoreTurn(paths: seq<string>, path: string)
    ensures Concat([Frame(1, InTurn(paths)), Frame(1, [Counted(path, |paths|)])]) == Frame(1, InTurn(paths + [path]))
  {
    JoinEqualRows(Frame(1, InTurn(paths)), Frame(1, [Counted(path, |paths|)]));
    assert InTurn(paths) + [Counted(path, |paths|)] == InTurn(paths + [path]);
  }

  lemma OwnColumn(code: string, count: nat)
    ensures Select([Counted(code, count)], [code]) == [Counted(code, count)]
    ensures Has([Counted(code, count)], code) && !AnyMissing([Counted(code, count)])
  {
    var columns := [Counted(code, count)];
    assert columns[0].name == code && columns[1..] == [] && [code][1..] == [];
    LabelledCons(columns, code);
    assert Labelled(columns, code) == columns;
  }

  /** Generating one such batch accepts its candidate and appends its column. */
  lemma OneGenerated(items: seq<Candidate>, code: string, g: Generated)
    requires |items| == 1 && items[0].name == code
    ensures var next := GenerateOne(CountColumns, AcceptAll, items, code, g);
            next.working == Concat([g.working, Frame(1, [Counted(code, |g.working.columns|)])])
    ensures StateIn(CountColumns, AcceptAll, g.working, code, Names(items), items[0]) == Accepted
  {
    OwnColumn(code, |g.working.columns|);
    assert Names(items) == [code];
    assert Passing([code], {}) == [code];
    hide Concat, Select, Has, AnyMissing;
  }

  /** Replaying it appends the column that the present frame calls for. */
  lemma OneReplayed(package: Package, path: string, working: Frame)
    requires ItemsOf(package.candidates, path) != [] && |ItemsOf(package.candidates, path)| == 1
    requires var c := ItemsOf(package.candidates, path)[0];
             c.name == CodeAt(package.scripts, path) == path && Find(package.decisions, c.id) == Some(Accepted)
    ensures ReplayOne(CountColumns, package, path, working) ==
            Some(Concat([working, Frame(1, [Counted(path, |working.columns|)])]))
  {
    var items := ItemsOf(package.candidates, path);
    assert items == [items[0]] && items[1..] == [];
    assert AcceptedOf(items[1..], package.decisions) == [];
    assert AcceptedOf(items, package.decisions) == items;
    assert Names(items) == [path];
    OwnColumn(path, |working.columns|);
    hide Concat, Select, Has, ItemsOf, CodeAt, Find, AcceptedOf;
    forall name | name in [path] ensures name == path {
    }
  }

  // ---- whole runs -----------------------------------------------------------------------

  /** Batch `i` proposes one feature, called like its path. */
  function NamesFor(n: nat): (r: seq<seq<string>>)
    ensures |r| == n && forall i :: 0 <= i < n ==> r[i] == [PathOf(i)]
  {
    seq(n, i requires 0 <= i < n => [PathOf(i)])
  }

  function CandidatesFor(runId: string, n: nat): seq<Candidate> { CandidatesFrom(runId, NamesFor(n), 0, 0) }

  lemma OneItem(runId: string, n: nat, m: nat)
    requires m < n
    ensures var items := ItemsOf(CandidatesFor(runId, n), PathOf(m)); |items| == 1 && items[0].name == PathOf(m)
  {
    hide ItemsOf, CandidatesFrom, PathOf, IdOf;
    ItemsFoundBack(runId, NamesFor(n), 0, 0, m);
  }

  /** The candidate of batch `m` is accepted. */
  ghost predicate AcceptedAt(runId: string, n: nat, decisions: seq<Decision>, m: nat) {
    var items := ItemsOf(CandidatesFor(runId, n), PathOf(m));
    items != [] && Find(decisions, items[0].id) == Some(Accepted)
  }

  function GeneratedFrom(runId: string, n: nat, i: nat, g: Generated): Generated
    requires i <= n
  {
    GenerateAll(CountColumns, AcceptAll, CandidatesFor(runId, n), ScriptsOf(PathsOf(n))[i..], g)
  }

  function NextBatch(runId: string, n: nat, i: nat, g: Generated): Generated {
    GenerateOne(CountColumns, AcceptAll, ItemsOf(CandidatesFor(runId, n), PathOf(i)), PathOf(i), g)
  }

  lemma NextTurn(runId: string, n: nat, i: nat, g: Generated)
    requires i < n
    ensures GeneratedFrom(runId, n, i, g) == GeneratedFrom(runId, n, i + 1, NextBatch(runId, n, i, g))
    ensures NextBatch(runId, n, i, g).decisions <= GeneratedFrom(runId, n, i, g).decisions
  {
    hide PathOf, CandidatesFor, GenerateOne, GenerateAll, ItemsOf;
    var rest := ScriptsOf(PathsOf(n))[i..];
    assert rest[0] == Script(PathOf(i), PathOf(i)) && rest[1..] == ScriptsOf(PathsOf(n))[i + 1..];
    GenerateStep(CountColumns, AcceptAll, CandidatesFor(runId, n), rest, g);
    DecisionsExtend(CountColumns, AcceptAll, CandidatesFor(runId, n), rest[1..], NextBatch(runId, n, i, g));
  }

  /** One more batch appends its column, and its candidate is accepted. */
  lemma BatchInTurn(runId: string, n: nat, i: nat, g: Generated, all: seq<Decision>)
    requires i < n && g.working == Frame(1, InTurn(PathsOf(n)[..i]))
    requires NextBatch(runId, n, i, g).decisions <= all && DistinctIds(all)
    ensures NextBatch(runId, n, i, g).working == Frame(1, InTurn(PathsOf(n)[..i + 1]))
    ensures AcceptedAt(runId, n, all, i)
  {
    hide PathOf, CandidatesFor, GenerateOne, ItemsOf, DistinctIds, StateIn, Find, Concat;
    var items := ItemsOf(CandidatesFor(runId, n), PathOf(i));
    OneItem(runId, n, i);
    OneGenerated(items, PathOf(i), g);
    OneMoreTurn(PathsOf(n)[..i], PathOf(i));
    assert PathsOf(n)[..i + 1] == PathsOf(n)[..i] + [PathOf(i)];
    FindBatch(CountColumns, AcceptAll, items, PathOf(i), g, all);
  }

  /** Generation from batch `i` on leaves the columns in path order and accepts every candidate. */
  lemma {:induction false} GeneratedInTurn(runId: string, n: nat, i: nat, g: Generated, all: seq<Decision>)
    requires i <= n && g.working == Frame(1, InTurn(PathsOf(n)[..i])) && DistinctIds(all)
    requires GeneratedFrom(runId, n, i, g).decisions == all
    ensures GeneratedFrom(runId, n, i, g).working == Frame(1, InTurn(PathsOf(n)))
    ensures forall m: nat :: i <= m < n ==> AcceptedAt(runId, n, all, m)
    decreases n - i
  {
    if i == n {
      assert PathsOf(n)[..n] == PathsOf(n) && ScriptsOf(PathsOf(n))[n..] == [];
    } else {
      hide *;
      NextTurn(runId, n, i, g);
      BatchInTurn(runId, n, i, g, all);
      GeneratedInTurn(runId, n, i + 1, NextBatch(runId, n, i, g), all);
    }
  }

  /** Replay leaves the columns in the order of the paths it follows. */
  lemma {:induction false} ReplayedInTurn(runId: string, n: nat, package: Package, paths: seq<string>, i: nat, working: Frame)
    requires package.candidates == CandidatesFor(runId, n) && package.scripts == ScriptsOf(PathsOf(n))
    requires forall m: nat :: m < n ==> AcceptedAt(runId, n, package.decisions, m)
    requires forall j :: 0 <= j < |paths| ==> paths[j] in PathsOf(n)
    requires i <= |paths| && working == Frame(1, InTurn(paths[..i]))
    ensures ReplayAll(CountColumns, package, paths[i..], working) == Some(Frame(1, InTurn(paths)))
    decreases |paths| - i
  {
    if i == |paths| {
      assert paths[..i] == paths && paths[i..] == [];
    } else {
      assert paths[i..][0] == paths[i] && paths[i..][1..] == paths[i + 1..] && paths[..i + 1] == paths[..i] + [paths[i]];
      OnePathReplayed(runId, n, package, paths[i], working);
      OneMoreTurn(paths[..i], paths[i]);
      hide CandidatesFor, AcceptedAt, ReplayOne, Concat;
      ReplayedInTurn(runId, n, package, paths, i + 1, Frame(1, InTurn(paths[..i + 1])));
    }
  }

  lemma OnePathReplayed(runId: string, n: nat, package: Package, path: string, working: Frame)
    requires package.candidates == CandidatesFor(runId, n) && package.scripts == ScriptsOf(PathsOf(n))
    requires forall m: nat :: m < n ==> AcceptedAt(runId, n, package.decisions, m)
    requires path in PathsOf(n)
    ensures ReplayOne(CountColumns, package, path, working) ==
            Some(Concat([working, Frame(1, [Counted(path, |working.columns|)])]))
  {
    hide PathOf, CandidatesFor, ReplayOne, Concat;
    var m: nat :| m < n && PathsOf(n)[m] == path;
    OneItem(runId, n, m);
    assert AcceptedAt(runId, n, package.decisions, m);
    PathsDistinct(package.scripts);
    assert package.scripts[m] == Script(path, path);
    CodeFound(package.scripts, package.scripts[m]);
    OneReplayed(package, path, working);
  }

  // ---- the limit --------------------------------------------------------------------------

  /** The verdict on an honest package is the one its names call for. */
  ghost predicate HonestVerdict(sandbox: Sandbox, gate: Gate, runId: string, codes: seq<string>, names: seq<seq<string>>,
                                silver: Frame, ids: Frame, stored: seq<Script>)
    requires |names| == |codes|
  {
    var candidates := CandidatesFrom(runId, names, 0, 0);
    var g := GenerateAll(sandbox, gate, candidates, ScriptsOf(codes), Generated(silver, [], []));
    Replays(sandbox, Committed(g, candidates, stored, ids), silver)
    <==> !Has(AllColumns(g.outputs), ROW_ID) || Fresh(silver.columns, AllColumns(g.outputs))
  }

  const IDS := Column(ROW_ID, [Known(0)])

  lemma PathIsNotRowId(i: nat)
    ensures PathOf(i) != ROW_ID
  {
    assert PathOf(i)[0] == 'g';
  }

  function WholeRun(runId: string, n: nat): Generated {
    GenerateAll(CountColumns, AcceptAll, CandidatesFor(runId, n), ScriptsOf(PathsOf(n)), Generated(Frame(1, []), [], []))
  }

  lemma WholeRunInTurn(runId: string, n: nat)
    ensures WholeRun(runId, n).working == Frame(1, InTurn(PathsOf(n)))
    ensures forall m: nat :: m < n ==> AcceptedAt(runId, n, WholeRun(runId, n).decisions, m)
  {
    var silver, scripts := Frame(1, []), ScriptsOf(PathsOf(n));
    var start := Generated(silver, [], []);
    assert scripts[0..] == scripts && InTurn(PathsOf(n)[..0]) == [];
    hide GenerateAll, CandidatesFrom, AcceptedAt, DistinctIds, PathOf;
    PathsDistinct(scripts);
    CandidatesDistinct(runId, NamesFor(n));
    DecisionsDistinct(CountColumns, AcceptAll, CandidatesFor(runId, n), scripts, silver);
    GeneratedInTurn(runId, n, 0, start, WholeRun(runId, n).decisions);
  }

  lemma WholeRunIsConcat(runId: string, n: nat)
    ensures WholeRun(runId, n).working == Concat([Frame(1, [])] + WholeRun(runId, n).outputs)
  {
    var silver := Frame(1, []);
    var start := Generated(silver, [], []);
    SilverAlone(silver);
    assert [silver] + start.outputs == [silver];
    hide Concat, GenerateAll, CandidatesFor;
    WorkingIsConcat(CountColumns, AcceptAll, CandidatesFor(runId, n), ScriptsOf(PathsOf(n)), start, silver);
  }

  /** The accepted frame is the row ids beside the columns in path order. */
  lemma CommittedInTurn(runId: string, n: nat)
    ensures var columns := AcceptedFrame(Frame(1, [IDS]), WholeRun(runId, n).outputs).columns;
            |columns| == n + 1 && columns[1..] == InTurn(PathsOf(n))
  {
    var silver, outputs := Frame(1, []), WholeRun(runId, n).outputs;
    WholeRunInTurn(runId, n);
    WholeRunIsConcat(runId, n);
    SharedTail(silver, Frame(1, [IDS]), IDS, outputs);
    hide AcceptedFrame, Concat, AllColumns, WholeRun, AcceptedAt, Pad;
    var rows: nat :|
      && AcceptedFrame(Frame(1, [IDS]), outputs).columns == [Pad(IDS, rows)] + PadAll(AllColumns(outputs), rows)
      && Concat([silver] + outputs).columns == PadAll(silver.columns, rows) + PadAll(AllColumns(outputs), rows);
    assert PadAll(silver.columns, rows) == [];
    assert PadAll(AllColumns(outputs), rows) == InTurn(PathsOf(n));
  }

  lemma SamePermutation(a: seq<string>, b: seq<string>)
    requires |a| == |b| && multiset(a) == multiset(b)
    ensures forall i :: 0 <= i < |a| ==> a[i] in b
  {
    forall i | 0 <= i < |a| ensures a[i] in b {
      assert a[i] in multiset(b);
    }
  }

  /** Beyond 10000 batches the package of this run does not replay. */
  lemma LongRunFails(runId: string, n: nat)
    requires n > 10000
    ensures !Replays(CountColumns, Committed(WholeRun(runId, n), CandidatesFor(runId, n), ScriptsOf(PathsOf(n)), Frame(1, [IDS])),
                     Frame(1, []))
  {
    var g, scripts := WholeRun(runId, n), ScriptsOf(PathsOf(n));
    var package := Committed(g, CandidatesFor(runId, n), scripts, Frame(1, [IDS]));
    var sorted := SortBy(PathsOf(n), StrLeq);
    assert Paths(scripts) == PathsOf(n);
    WholeRunInTurn(runId, n);
    CommittedInTurn(runId, n);
    SamePermutation(sorted, PathsOf(n));
    assert sorted[..0] == [] && sorted[0..] == sorted && InTurn(sorted[..0]) == [];
    assert package.accepted == AcceptedFrame(Frame(1, [IDS]), g.outputs) && package.scripts == scripts;
    SortedPathsAreInOrder(n);
    hide *;
    ReplayedInTurn(runId, n, package, sorted, 0, Frame(1, []));
    Misplaced(CountColumns, package, n, sorted);
  }

  lemma CountedAt(paths: seq<string>, c: Column, i: nat)
    requires i < |paths| && c.cells == [Known(i)]
    ensures c in InTurn(paths) ==> c.name == paths[i]
  {
    if j :| 0 <= j < |paths| && InTurn(paths)[j] == c {
      assert c.cells[0] == Known(j);
    }
  }

  lemma Misplaced(sandbox: Sandbox, package: Package, n: nat, sorted: seq<string>)
    requires n > 0 && |sorted| == n && sorted != PathsOf(n)
    requires |package.accepted.columns| == n + 1 && package.accepted.columns[1..] == InTurn(PathsOf(n))
    requires sorted == SortBy(Paths(package.scripts), StrLeq)
    requires ReplayAll(sandbox, package, sorted, Frame(1, [])) == Some(Frame(1, InTurn(sorted)))
    ensures !Replays(sandbox, package, Frame(1, []))
  {
    hide PathOf, ReplayAll, SameTail, SameByName;
    var i :| 0 <= i < n && sorted[i] != PathsOf(n)[i];
    var c := Counted(PathOf(i), i);
    assert InTurn(PathsOf(n))[i] == c && package.accepted.columns[i + 1] == c;
    PathIsNotRowId(i);
    CountedAt(sorted, c, i);
    if Replays(sandbox, package, Frame(1, [])) {
      FeatureInWorking(package.accepted, Frame(1, InTurn(sorted)), c);
    }
  }

  /** For every number of batches: every honest package gets the verdict its names call for, in every
      sandbox and under every gate, exactly if there are at most 10000 of them. */
  lemma BatchLimit(runId: string, n: nat)
    ensures (forall sandbox: Sandbox, gate: Gate, codes: seq<string>, names: seq<seq<string>>, silver: Frame, id: Column,
                    stored: seq<Script> |
              Honest(sandbox, n, codes, names, silver, id, stored)
              :: HonestVerdict(sandbox, gate, runId, codes, names, silver, Frame(silver.rows, [id]), stored))
            <==> n <= 10000
  {
    if n <= 10000 {
      forall sandbox: Sandbox, gate: Gate, codes: seq<string>, names: seq<seq<string>>, silver: Frame, id: Column,
             stored: seq<Script> | Honest(sandbox, n, codes, names, silver, id, stored)
        ensures HonestVerdict(sandbox, gate, runId, codes, names, silver, Frame(silver.rows, [id]), stored)
      {
        HonestPackageReplays(sandbox, gate, runId, codes, names, silver, Frame(silver.rows, [id]), id, stored);
      }
    } else {
      LongRunFails(runId, n);
      LongRunIsHonest(runId, n);
      hide Replays, WholeRun;
    }
  }

  /** What generation commits from Silver features and the candidates of `n` batches. */
  ghost predicate Honest(sandbox: Sandbox, n: nat, codes: seq<string>, names: seq<seq<string>>, silver: Frame, id: Column,
                         stored: seq<Script>) {
    && |names| == |codes| == n && multiset(stored) == multiset(ScriptsOf(codes))
    && SandboxOk(sandbox) && Rectangular(silver) && |id.cells| == silver.rows && id.name == ROW_ID
  }

  lemma LongRunIsHonest(runId: string, n: nat)
    ensures Honest(CountColumns, n, PathsOf(n), NamesFor(n), Frame(1, []), IDS, ScriptsOf(PathsOf(n)))
    ensures Replays(CountColumns, Committed(WholeRun(runId, n), CandidatesFor(runId, n), ScriptsOf(PathsOf(n)), Frame(1, [IDS])),
                    Frame(1, []))
            <==> HonestVerdict(CountColumns, AcceptAll, runId, PathsOf(n), NamesFor(n), Frame(1, []), Frame(1, [IDS]), ScriptsOf(PathsOf(n)))
  {
    var outputs := WholeRun(runId, n).outputs;
    assert Fresh([], AllColumns(outputs));
    hide Replays, GenerateAll, CandidatesFrom, AllColumns, Fresh;
  }
}
