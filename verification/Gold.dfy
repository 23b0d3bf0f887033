/** Gold feature generation and its offline replay over a shared working frame. */
module Gold {
  import opened Prelude
  import opened Ordering
  import opened Json

  // ---- frames --------------------------------------------------------------

  datatype Cell = Missing | Known(value: int)

  datatype Column = Column(name: string, cells: seq<Cell>)

  datatype Frame = Frame(rows: nat, columns: seq<Column>)

  predicate Rectangular(f: Frame) {
    forall i :: 0 <= i < |f.columns| ==> |f.columns[i].cells| == f.rows
  }

  /** Alignment on the row index fills what is not there with missing values. */
  function Pad(c: Column, rows: nat): (r: Column)
    ensures r.name == c.name
    ensures |c.cells| <= rows ==> |r.cells| == rows
  {
    if |c.cells| <= rows then Column(c.name, c.cells + seq(rows - |c.cells|, _ => Missing)) else c
  }

  function PadAll(columns: seq<Column>, rows: nat): (r: seq<Column>)
    ensures |r| == |columns| && forall i :: 0 <= i < |r| ==> r[i] == Pad(columns[i], rows)
  {
    seq(|columns|, i requires 0 <= i < |columns| => Pad(columns[i], rows))
  }

  function MaxRows(frames: seq<Frame>): (n: nat)
    ensures forall i :: 0 <= i < |frames| ==> frames[i].rows <= n
  {
    if frames == [] then 0
    else
      var rest := MaxRows(frames[1..]);
      if frames[0].rows > rest then frames[0].rows else rest
  }

  function AllColumns(frames: seq<Frame>): seq<Column> {
    if frames == [] then [] else frames[0].columns + AllColumns(frames[1..])
  }

  /** `pd.concat(frames, axis=1)` */
  function Concat(frames: seq<Frame>): Frame {
    Frame(MaxRows(frames), PadAll(AllColumns(frames), MaxRows(frames)))
  }

  predicate Has(columns: seq<Column>, name: string) {
    exists i :: 0 <= i < |columns| && columns[i].name == name
  }

  /** `frame[[name]]`: every column of that name. */
  function Labelled(columns: seq<Column>, name: string): (r: seq<Column>)
    ensures forall i :: 0 <= i < |r| ==> r[i].name == name && r[i] in columns
    ensures r == [] <==> !Has(columns, name)
  {
    if columns == [] then []
    else
      var rest := Labelled(columns[1..], name);
      assert Has(columns[1..], name) ==> Has(columns, name);
      assert Has(columns, name) && columns[0].name != name ==> Has(columns[1..], name) by {
        if Has(columns, name) && columns[0].name != name {
          var i :| 0 <= i < |columns| && columns[i].name == name;
          assert columns[1..][i - 1].name == name;
        }
      }
      if columns[0].name == name then [columns[0]] + rest else rest
  }

  /** `frame[names]` */
  function Select(columns: seq<Column>, names: seq<string>): seq<Column> {
    if names == [] then [] else Labelled(columns, names[0]) + Select(columns, names[1..])
  }

  /** `frame.drop(columns=[name])` */
  function Without(columns: seq<Column>, name: string): seq<Column> {
    if columns == [] then []
    else if columns[0].name == name then Without(columns[1..], name)
    else [columns[0]] + Without(columns[1..], name)
  }

  predicate AnyMissing(columns: seq<Column>) {
    exists i, k :: 0 <= i < |columns| && 0 <= k < |columns[i].cells| && columns[i].cells[k] == Missing
  }

  lemma {:induction false} MaxRowsConcat(a: seq<Frame>, b: seq<Frame>)
    ensures MaxRows(a + b) == if MaxRows(a) > MaxRows(b) then MaxRows(a) else MaxRows(b)
  {
    if a == [] {
      assert a + b == b;
    } else {
      assert (a + b)[1..] == a[1..] + b;
      MaxRowsConcat(a[1..], b);
    }
  }

  lemma {:induction false} AllColumnsConcat(a: seq<Frame>, b: seq<Frame>)
    ensures AllColumns(a + b) == AllColumns(a) + AllColumns(b)
  {
    if a == [] {
      assert a + b == b;
    } else {
      assert (a + b)[1..] == a[1..] + b;
      AllColumnsConcat(a[1..], b);
    }
  }

  ghost predicate AllRectangular(frames: seq<Frame>) {
    forall i :: 0 <= i < |frames| ==> Rectangular(frames[i])
  }

  lemma {:induction false} ColumnsFit(frames: seq<Frame>)
    requires AllRectangular(frames)
    ensures forall i :: 0 <= i < |AllColumns(frames)| ==> |AllColumns(frames)[i].cells| <= MaxRows(frames)
  {
    if frames != [] {
      ColumnsFit(frames[1..]);
      var head, tail := frames[0].columns, AllColumns(frames[1..]);
      var both: seq<Column> := head + tail;
      forall i | 0 <= i < |both| ensures |both[i].cells| <= MaxRows(frames) {
        if i >= |head| { assert both[i] == tail[i - |head|]; }
      }
    }
  }

  /** Adding frames one at a time builds the frame that adding them at once builds. */
  lemma ConcatOneMore(frames: seq<Frame>, f: Frame)
    requires AllRectangular(frames) && Rectangular(f)
    ensures Concat([Concat(frames), f]) == Concat(frames + [f])
  {
    var inner := Concat(frames);
    var rows := MaxRows(frames + [f]);
    MaxRowsConcat(frames, [f]);
    AllColumnsConcat(frames, [f]);
    ColumnsFit(frames);
    var none: seq<Frame> := [];
    assert [f][1..] == none && [inner, f][1..] == [f];
    assert MaxRows([f]) == f.rows && MaxRows([inner, f]) == rows;
    assert AllColumns([f]) == f.columns && AllColumns([inner, f]) == inner.columns + f.columns;
    var a, b := inner.columns + f.columns, AllColumns(frames) + f.columns;
    forall i | 0 <= i < |b| ensures Pad(a[i], rows) == Pad(b[i], rows) {
      if i < |inner.columns| {
        PadTwice(b[i], inner.rows, rows);
      }
    }
  }

  lemma PadTwice(c: Column, a: nat, b: nat)
    requires |c.cells| <= a <= b
    ensures Pad(Pad(c, a), b) == Pad(c, b)
  {
  }

  // ---- candidates and decisions ---------------------------------------------

  datatype Candidate = Candidate(id: string, name: string, path: string)

  datatype State = Accepted | Rejected | Errored

  datatype Decision = Decision(id: string, state: State)

  datatype Script = Script(path: string, code: string)

  type Sandbox = (string, Frame) -> Option<Frame>

  /** Names whose candidates the gate rejects, from the code, the frame it ran on and its output;
      None where the gate itself raises. */
  type Gate = (string, Frame, Frame, seq<string>) -> Option<set<string>>

  datatype Judged = Judged(output: Frame, violations: set<string>)

  function ItemsOf(candidates: seq<Candidate>, path: string): (r: seq<Candidate>)
    ensures forall c :: c in r <==> c in candidates && c.path == path
  {
    if candidates == [] then []
    else if candidates[0].path == path then [candidates[0]] + ItemsOf(candidates[1..], path)
    else ItemsOf(candidates[1..], path)
  }

  function Names(items: seq<Candidate>): (r: seq<string>)
    ensures |r| == |items| && forall i :: 0 <= i < |r| ==> r[i] == items[i].name
  {
    seq(|items|, i requires 0 <= i < |items| => items[i].name)
  }

  /** `[name for name in names if name not in violations]` */
  function Passing(names: seq<string>, violations: set<string>): (r: seq<string>)
    ensures forall n :: n in r ==> n in names && n !in violations
  {
    if names == [] then []
    else if names[0] in violations then Passing(names[1..], violations)
    else [names[0]] + Passing(names[1..], violations)
  }

  function Stamp(items: seq<Candidate>, state: Candidate -> State): (r: seq<Decision>)
    ensures |r| == |items| && forall i :: 0 <= i < |r| ==> r[i] == Decision(items[i].id, state(items[i]))
  {
    seq(|items|, i requires 0 <= i < |items| => Decision(items[i].id, state(items[i])))
  }

  datatype Generated = Generated(working: Frame, outputs: seq<Frame>, decisions: seq<Decision>)

  /** The output of a batch and the names its gate rejects, or None where the batch ends in an error. */
  function Judge(sandbox: Sandbox, gate: Gate, working: Frame, code: string, names: seq<string>): Option<Judged> {
    match sandbox(code, working)
    case None => None
    case Some(output) =>
      if exists n :: n in names && !Has(output.columns, n) then None
      else if AnyMissing(Select(output.columns, names)) then None
      else match gate(code, working, output, names)
        case None => None
        case Some(violations) => Some(Judged(output, violations))
  }

  /** One turn of the generation loop. */
  function GenerateOne(sandbox: Sandbox, gate: Gate, items: seq<Candidate>, code: string, g: Generated): Generated {
    var names := Names(items);
    match Judge(sandbox, gate, g.working, code, names)
    case None => g.(decisions := g.decisions + Stamp(items, _ => Errored))
    case Some(judged) =>
      var passing := Passing(names, judged.violations);
      var decisions := g.decisions + Stamp(items, (c: Candidate) => if c.name in judged.violations then Rejected else Accepted);
      if passing == [] then g.(decisions := decisions)
      else
        var accepted := Frame(judged.output.rows, Select(judged.output.columns, passing));
        Generated(Concat([g.working, accepted]), g.outputs + [accepted], decisions)
  }

  function GenerateAll(sandbox: Sandbox, gate: Gate, candidates: seq<Candidate>, scripts: seq<Script>, g: Generated): Generated
    decreases |scripts|
  {
    if scripts == [] then g
    else
      GenerateAll(sandbox, gate, candidates, scripts[1..],
                  GenerateOne(sandbox, gate, ItemsOf(candidates, scripts[0].path), scripts[0].code, g))
  }

  /** `candidate_execution_batches` */
  method ExecuteBatches(sandbox: Sandbox, gate: Gate, candidates: seq<Candidate>, scripts: seq<Script>, silver: Frame)
    returns (g: Generated)
    ensures g == GenerateAll(sandbox, gate, candidates, scripts, Generated(silver, [], []))
  {
    var working, outputs, decisions := silver, [], [];
    for i := 0 to |scripts|
      invariant GenerateAll(sandbox, gate, candidates, scripts, Generated(silver, [], [])) ==
                GenerateAll(sandbox, gate, candidates, scripts[i..], Generated(working, outputs, decisions))
    {
      assert scripts[i..][0] == scripts[i] && scripts[i..][1..] == scripts[i + 1..];
      var items := ItemsOf(candidates, scripts[i].path);
      var code := scripts[i].code;
      var names := Names(items);
      var judged := Judge(sandbox, gate, working, code, names);
      if judged.None? {
        decisions := decisions + Stamp(items, _ => Errored);
      } else {
        var output, violations := judged.value.output, judged.value.violations;
        var passing := Passing(names, violations);
        decisions := decisions + Stamp(items, (c: Candidate) => if c.name in violations then Rejected else Accepted);
        if passing != [] {
          var accepted := Frame(output.rows, Select(output.columns, passing));
          outputs := outputs + [accepted];
          working := Concat([working, accepted]);
        }
      }
    }
    return Generated(working, outputs, decisions);
  }

  // ---- paths and ids ---------------------------------------------------------

  /** `f"{k:04d}"` */
  function Pad4(k: nat): string {
    if k < 10000
    then [Digit(k / 1000), Digit(k / 100 % 10), Digit(k / 10 % 10), Digit(k % 10)]
    else NatText(k)
  }

  function Digit(d: nat): char
    requires d < 10
  {
    (48 + d) as char
  }

  const PREFIX := "generated_code/batch_"

  function PathOf(index: nat): string { PREFIX + Pad4(index) + ".py" }

  function IdOf(runId: string, k: nat): string { runId + "-candidate-" + Pad4(k) }

  function PathsOf(n: nat): (r: seq<string>)
    ensures |r| == n && forall i :: 0 <= i < n ==> r[i] == PathOf(i)
  {
    seq(n, i requires 0 <= i < n => PathOf(i))
  }

  lemma {:induction false} NatTextLength(n: nat)
    ensures n >= 10000 ==> |NatText(n)| >= 5
    ensures n >= 1000 ==> |NatText(n)| >= 4
    ensures n >= 100 ==> |NatText(n)| >= 3
    ensures n >= 10 ==> |NatText(n)| >= 2
    ensures |NatText(n)| >= 1
  {
    if n >= 10 { NatTextLength(n / 10); }
  }

  lemma FourDigits(k: nat)
    requires k < 10000
    ensures k == 1000 * (k / 1000) + 100 * (k / 100 % 10) + 10 * (k / 10 % 10) + k % 10
  {
    var a := k / 10;
    var b := a / 10;
    assert k / 100 == b && k / 1000 == b / 10;
    assert k == 10 * a + k % 10 && a == 10 * b + a % 10 && b == 10 * (b / 10) + b % 10;
  }

  lemma Pad4Injective(a: nat, b: nat)
    requires Pad4(a) == Pad4(b)
    ensures a == b
  {
    if a < 10000 && b < 10000 {
      FourDigits(a);
      FourDigits(b);
      var x, y := Pad4(a), Pad4(b);
      assert x[0] == Digit(a / 1000) && x[1] == Digit(a / 100 % 10) && x[2] == Digit(a / 10 % 10) && x[3] == Digit(a % 10);
      assert y[0] == Digit(b / 1000) && y[1] == Digit(b / 100 % 10) && y[2] == Digit(b / 10 % 10) && y[3] == Digit(b % 10);
    } else {
      NatTextLength(a);
      NatTextLength(b);
      NatTextValue(a);
      NatTextValue(b);
    }
  }

  lemma TextStep(n: nat, d: nat)
    requires d < 10
    ensures NatText(10 * n + d) == (if n == 0 then [] else NatText(n)) + [Digit(d)]
  {
    var m := 10 * n + d;
    assert m / 10 == n && m % 10 == d;
    if n == 0 { assert NatText(m) == [(48 + m) as char]; }
  }

  lemma ThreeText(a: nat, b: nat, c: nat, n: nat, m: nat)
    requires a < 10 && b < 10 && c < 10 && n == 10 * a + b && m == 10 * n + c
    ensures NatText(m) == if a > 0 then [Digit(a), Digit(b), Digit(c)] else if b > 0 then [Digit(b), Digit(c)] else [Digit(c)]
    ensures m == 0 <==> a == b == c == 0
  {
    TextStep(0, a);
    TextStep(a, b);
    TextStep(n, c);
    hide NatText, Digit;
  }

  lemma FourText(a: nat, b: nat, c: nat, d: nat, n: nat, m: nat, k: nat)
    requires a < 10 && b < 10 && c < 10 && d < 10 && n == 10 * a + b && m == 10 * n + c && k == 10 * m + d
    ensures NatText(k) ==
            if a > 0 then [Digit(a), Digit(b), Digit(c), Digit(d)]
            else if b > 0 then [Digit(b), Digit(c), Digit(d)]
            else if c > 0 then [Digit(c), Digit(d)]
            else [Digit(d)]
  {
    ThreeText(a, b, c, n, m);
    TextStep(m, d);
    hide NatText, Digit;
  }

  lemma DigitsOf(k: nat)
    requires k < 10000
    ensures k / 100 == (k / 10) / 10 && k / 1000 == (k / 100) / 10 && k / 1000 < 10
    ensures k == 10 * (k / 10) + k % 10
    ensures k / 10 == 10 * (k / 100) + k / 10 % 10 && k / 100 == 10 * (k / 1000) + k / 100 % 10
  {
  }

  lemma PadOf(k: nat)
    requires k < 10000
    ensures Pad4(k) == [Digit(k / 1000), Digit(k / 100 % 10), Digit(k / 10 % 10), Digit(k % 10)]
    ensures Digit(0) == '0'
  {
  }

  /** A number is padded with zeros to four digits, and left as it is if it has more. */
  lemma PaddedNumber(k: nat)
    ensures k >= 10000 ==> Pad4(k) == NatText(k)
    ensures k < 10000 ==>
      && |Pad4(k)| == 4 && 1 <= |NatText(k)| <= 4 && Pad4(k)[4 - |NatText(k)|..] == NatText(k)
      && forall i :: 0 <= i < 4 - |NatText(k)| ==> Pad4(k)[i] == '0'
  {
    if k < 10000 {
      hide Pad4, NatText, Digit;
      DigitsOf(k);
      PadOf(k);
      var a, b, c, d := k / 1000, k / 100 % 10, k / 10 % 10, k % 10;
      FourText(a, b, c, d, k / 100, k / 10, k);
      Padding(Pad4(k), NatText(k), Digit(a), Digit(b), Digit(c), Digit(d));
    }
  }

  lemma Padding(all: string, text: string, a: char, b: char, c: char, d: char)
    requires all == [a, b, c, d]
    requires text == all || (a == '0' && text == [b, c, d]) || (a == b == '0' && text == [c, d]) || (a == b == c == '0' && text == [d])
    ensures |all| == 4 && 1 <= |text| <= 4 && all[4 - |text|..] == text && forall i :: 0 <= i < 4 - |text| ==> all[i] == '0'
  {
  }

  lemma IdsAreDistinct(runId: string, a: nat, b: nat)
    requires IdOf(runId, a) == IdOf(runId, b)
    ensures a == b
  {
    var p := runId + "-candidate-";
    assert IdOf(runId, a)[|p|..] == Pad4(a) && IdOf(runId, b)[|p|..] == Pad4(b);
    Pad4Injective(a, b);
  }

  lemma PathsAreDistinct(a: nat, b: nat)
    requires PathOf(a) == PathOf(b)
    ensures a == b
  {
    var x, y := PathOf(a), PathOf(b);
    assert x[|PREFIX|..|x| - 3] == Pad4(a) && y[|PREFIX|..|y| - 3] == Pad4(b);
    Pad4Injective(a, b);
  }

  /** Whether the first four entries of `u` come before those of `v`. */
  predicate FourLess(u: seq<int>, v: seq<int>)
    requires |u| >= 4 && |v| >= 4
  {
    u[0] < v[0] || (u[0] == v[0] && (u[1] < v[1] || (u[1] == v[1] &&
      (u[2] < v[2] || (u[2] == v[2] && u[3] < v[3])))))
  }

  lemma FourDecide(u: seq<int>, v: seq<int>)
    requires |u| >= 4 && |v| >= 4 && FourLess(u, v)
    ensures LexLeq(u, v) && !LexLeq(v, u)
  {
    LexStep(u, v);
    LexStep(u[1..], v[1..]);
    LexStep(u[2..], v[2..]);
    LexStep(u[3..], v[3..]);
    assert u[1..][1..] == u[2..] && u[2..][1..] == u[3..] && v[1..][1..] == v[2..] && v[2..][1..] == v[3..];
    hide LexLeq;
  }

  lemma LexStep(u: seq<int>, v: seq<int>)
    requires u != [] && v != []
    ensures LexLeq(u, v) <==> u[0] < v[0] || (u[0] == v[0] && LexLeq(u[1..], v[1..]))
    ensures LexLeq(v, u) <==> v[0] < u[0] || (u[0] == v[0] && LexLeq(v[1..], u[1..]))
  {
  }

  lemma DigitsDecide(a: nat, b: nat)
    requires a < b < 10000
    ensures FourLess([a / 1000, a / 100 % 10, a / 10 % 10, a % 10], [b / 1000, b / 100 % 10, b / 10 % 10, b % 10])
  {
    FourDigits(a);
    FourDigits(b);
  }

  lemma PathOrder(a: nat, b: nat)
    ensures StrLeq(PathOf(a), PathOf(b)) <==> LexLeq(Codes(Pad4(a) + ".py"), Codes(Pad4(b) + ".py"))
  {
    var x, y := Pad4(a) + ".py", Pad4(b) + ".py";
    hide Pad4;
    assert PathOf(a) == PREFIX + x && PathOf(b) == PREFIX + y;
    CodesConcat(PREFIX, x);
    CodesConcat(PREFIX, y);
    LexAfterPrefix(Codes(PREFIX), Codes(x), Codes(y));
  }

  lemma FourDigitsOrdered(a: nat, b: nat)
    requires a <= b < 10000
    ensures StrLeq(PathOf(a), PathOf(b))
  {
    PathOrder(a, b);
    var u, v := Codes(Pad4(a) + ".py"), Codes(Pad4(b) + ".py");
    if a == b {
      LexTotal(u, v);
    } else {
      DigitsDecide(a, b);
      FourDecide(u, v);
    }
  }

  lemma FiveDigitsMisplaced()
    ensures !StrLeq(PathOf(1001), PathOf(10000))
  {
    PathOrder(1001, 10000);
    assert NatText(10) == "10" && NatText(100) == "100" && NatText(1000) == "1000" && NatText(10000) == "10000";
    FourDecide(Codes(Pad4(10000) + ".py"), Codes(Pad4(1001) + ".py"));
  }

  /** Sorting the script paths as strings keeps the generation order exactly up to 10000 batches. */
  lemma SortedPathsAreInOrder(n: nat)
    ensures SortBy(PathsOf(n), StrLeq) == PathsOf(n) <==> n <= 10000
  {
    if n <= 10000 {
      forall i, j | 0 <= i < j < n ensures StrLeq(PathsOf(n)[i], PathsOf(n)[j]) {
        FourDigitsOrdered(i, j);
      }
      SortOfOrdered(PathsOf(n), StrLeq);
    } else {
      StrIsTotalPreorder();
      SortOrders(PathsOf(n), StrLeq);
      FiveDigitsMisplaced();
      assert PathsOf(n)[1001] == PathOf(1001) && PathsOf(n)[10000] == PathOf(10000);
    }
  }

  // ---- replay ----------------------------------------------------------------

  /** `{item.candidate_id: item for item in decisions}[id]` */
  function Find(decisions: seq<Decision>, id: string): Option<State>
    decreases |decisions|
  {
    if decisions == [] then None
    else
      var last := decisions[|decisions| - 1];
      if last.id == id then Some(last.state) else Find(decisions[..|decisions| - 1], id)
  }

  function AcceptedOf(items: seq<Candidate>, decisions: seq<Decision>): seq<Candidate> {
    if items == [] then []
    else if Find(decisions, items[0].id) == Some(Accepted) then [items[0]] + AcceptedOf(items[1..], decisions)
    else AcceptedOf(items[1..], decisions)
  }

  datatype Package = Package(candidates: seq<Candidate>, decisions: seq<Decision>, scripts: seq<Script>, accepted: Frame)

  function CodeAt(scripts: seq<Script>, path: string): string {
    if scripts == [] then "" else if scripts[0].path == path then scripts[0].code else CodeAt(scripts[1..], path)
  }

  /** One turn of the replay loop; None for each DatasetError. */
  function ReplayOne(sandbox: Sandbox, package: Package, path: string, working: Frame): Option<Frame> {
    var batch := AcceptedOf(ItemsOf(package.candidates, path), package.decisions);
    if batch == [] then Some(working)
    else match sandbox(CodeAt(package.scripts, path), working)
      case None => None
      case Some(output) =>
        var names := Names(batch);
        if exists n :: n in names && !Has(output.columns, n) then None
        else Some(Concat([working, Frame(output.rows, Select(output.columns, names))]))
  }

  function ReplayAll(sandbox: Sandbox, package: Package, paths: seq<string>, working: Frame): Option<Frame>
    decreases |paths|
  {
    if paths == [] then Some(working)
    else match ReplayOne(sandbox, package, paths[0], working)
      case None => None
      case Some(next) => ReplayAll(sandbox, package, paths[1..], next)
  }

  const ROW_ID := "row_id"

  function LastColumns(columns: seq<Column>, k: int): seq<Column>
    requires k >= 0
  {
    if k >= |columns| then columns else columns[|columns| - k..]
  }

  /** The whole-frame comparison of accepted and recomputed columns. */
  predicate SameTail(accepted: Frame, working: Frame) {
    |accepted.columns| <= 1 ||
    Without(accepted.columns, ROW_ID) == LastColumns(Without(working.columns, ROW_ID), |accepted.columns| - 1)
  }

  /** The comparison by name that decides when the tails differ; dropping an absent
      `row_id` label is an error. */
  predicate SameByName(accepted: Frame, working: Frame) {
    && Has(accepted.columns, ROW_ID)
    && forall i | 0 <= i < |accepted.columns| ::
      accepted.columns[i].name == ROW_ID ||
      (&& Has(working.columns, accepted.columns[i].name)
       && Labelled(accepted.columns, accepted.columns[i].name) == Labelled(working.columns, accepted.columns[i].name))
  }

  function Replays(sandbox: Sandbox, package: Package, silver: Frame): bool {
    match ReplayAll(sandbox, package, SortBy(Paths(package.scripts), StrLeq), silver)
    case None => false
    case Some(working) => SameTail(package.accepted, working) || SameByName(package.accepted, working)
  }

  function Paths(scripts: seq<Script>): (r: seq<string>)
    ensures |r| == |scripts| && forall i :: 0 <= i < |r| ==> r[i] == scripts[i].path
  {
    seq(|scripts|, i requires 0 <= i < |scripts| => scripts[i].path)
  }

  /** `replay_gold_package` */
  method ReplayPackage(sandbox: Sandbox, package: Package, silver: Frame) returns (ok: bool)
    ensures ok == Replays(sandbox, package, silver)
  {
    var working := silver;
    var paths := SortBy(Paths(package.scripts), StrLeq);
    for i := 0 to |paths|
      invariant ReplayAll(sandbox, package, paths, silver) == ReplayAll(sandbox, package, paths[i..], working)
    {
      var path := paths[i];
      assert paths[i..][0] == path && paths[i..][1..] == paths[i + 1..];
      var batch := AcceptedOf(ItemsOf(package.candidates, path), package.decisions);
      if batch == [] {
        continue;
      }
      var output := sandbox(CodeAt(package.scripts, path), working);
      if output.None? {
        return false;
      }
      var names := Names(batch);
      if exists n :: n in names && !Has(output.value.columns, n) {
        return false;
      }
      working := Concat([working, Frame(output.value.rows, Select(output.value.columns, names))]);
    }
    if !SameTail(package.accepted, working) {
      ok := CompareByName(package.accepted, working);
      return ok;
    }
    return true;
  }

  method CompareByName(accepted: Frame, working: Frame) returns (ok: bool)
    ensures ok == SameByName(accepted, working)
  {
    if !Has(accepted.columns, ROW_ID) {
      return false;
    }
    for i := 0 to |accepted.columns|
      invariant forall k :: 0 <= k < i ==>
        accepted.columns[k].name == ROW_ID ||
        (&& Has(working.columns, accepted.columns[k].name)
         && Labelled(accepted.columns, accepted.columns[k].name) == Labelled(working.columns, accepted.columns[k].name))
    {
      var name := accepted.columns[i].name;
      if name != ROW_ID {
        if !Has(working.columns, name) || Labelled(accepted.columns, name) != Labelled(working.columns, name) {
          return false;
        }
      }
    }
    return true;
  }

  // ---- the candidates of a generation ------------------------------------------

  lemma {:induction false} ItemsConcat(a: seq<Candidate>, b: seq<Candidate>, path: string)
    ensures ItemsOf(a + b, path) == ItemsOf(a, path) + ItemsOf(b, path)
  {
    if a == [] {
      assert a + b == b;
    } else {
      assert (a + b)[1..] == a[1..] + b;
      ItemsConcat(a[1..], b, path);
    }
  }

  /** The candidates of one script, numbered from `k`. */
  function BatchItems(runId: string, path: string, names: seq<string>, k: nat): (r: seq<Candidate>)
    ensures |r| == |names|
    ensures forall j :: 0 <= j < |r| ==> r[j] == Candidate(IdOf(runId, k + j), names[j], path)
  {
    seq(|names|, j requires 0 <= j < |names| => Candidate(IdOf(runId, k + j), names[j], path))
  }

  function CandidatesFrom(runId: string, names: seq<seq<string>>, i: nat, k: nat): seq<Candidate>
    requires i <= |names|
    decreases |names| - i
  {
    if i == |names| then []
    else BatchItems(runId, PathOf(i), names[i], k) + CandidatesFrom(runId, names, i + 1, k + |names[i]|)
  }

  /** `candidate_feature_specs`: each script gets its padded path, each name a numbered candidate. */
  method CandidateSpecs(runId: string, codes: seq<string>, names: seq<seq<string>>)
    returns (scripts: seq<Script>, candidates: seq<Candidate>)
    requires |names| == |codes|
    ensures Paths(scripts) == PathsOf(|codes|)
    ensures forall i :: 0 <= i < |codes| ==> scripts[i].code == codes[i]
    ensures candidates == CandidatesFrom(runId, names, 0, 0)
  {
    hide IdOf, PathOf;
    scripts, candidates := [], [];
    for index := 0 to |codes|
      invariant |scripts| == index
      invariant forall i :: 0 <= i < index ==> scripts[i] == Script(PathOf(i), codes[i])
      invariant candidates + CandidatesFrom(runId, names, index, |candidates|) == CandidatesFrom(runId, names, 0, 0)
    {
      scripts := scripts + [Script(PathOf(index), codes[index])];
      ghost var batch := BatchItems(runId, PathOf(index), names[index], |candidates|);
      ghost var rest := CandidatesFrom(runId, names, index + 1, |candidates| + |batch|);
      assert CandidatesFrom(runId, names, index, |candidates|) == batch + rest;
      hide CandidatesFrom, BatchItems;
      Regroup(candidates, batch, rest);
      candidates := AddNames(runId, PathOf(index), names[index], candidates);
    }
    assert forall i :: 0 <= i < |codes| ==> Paths(scripts)[i] == PathsOf(|codes|)[i];
  }

  method AddNames(runId: string, path: string, names: seq<string>, before: seq<Candidate>) returns (candidates: seq<Candidate>)
    ensures candidates == before + BatchItems(runId, path, names, |before|)
  {
    hide IdOf;
    candidates := before;
    for k := 0 to |names|
      invariant |candidates| == |before| + k
      invariant forall j :: 0 <= j < |before| ==> candidates[j] == before[j]
      invariant forall j :: 0 <= j < k ==> candidates[|before| + j] == Candidate(IdOf(runId, |before| + j), names[j], path)
    {
      candidates := candidates + [Candidate(IdOf(runId, |candidates|), names[k], path)];
    }
  }

  lemma {:induction false} NumberedFrom(runId: string, names: seq<seq<string>>, i: nat, k: nat)
    requires i <= |names|
    ensures forall j :: 0 <= j < |CandidatesFrom(runId, names, i, k)| ==>
      CandidatesFrom(runId, names, i, k)[j].id == IdOf(runId, k + j)
    ensures forall c :: c in CandidatesFrom(runId, names, i, k) ==> exists m: nat :: i <= m && c.path == PathOf(m)
    decreases |names| - i
  {
    hide IdOf, PathOf;
    if i < |names| {
      NumberedFrom(runId, names, i + 1, k + |names[i]|);
      var batch := BatchItems(runId, PathOf(i), names[i], k);
      forall c | c in batch ensures c.path == PathOf(i) {
      }
    }
  }

  lemma {:induction false} OwnItems(items: seq<Candidate>, path: string)
    requires forall j :: 0 <= j < |items| ==> items[j].path == path
    ensures ItemsOf(items, path) == items
  {
    if items != [] { OwnItems(items[1..], path); }
  }

  lemma NoItems(items: seq<Candidate>, path: string)
    requires forall c :: c in items ==> c.path != path
    ensures ItemsOf(items, path) == []
  {
    if ItemsOf(items, path) != [] {
      assert ItemsOf(items, path)[0] in ItemsOf(items, path);
    }
  }

  lemma NoLaterItems(rest: seq<Candidate>, from: nat, m: nat)
    requires m < from && forall c :: c in rest ==> exists l: nat :: from <= l && c.path == PathOf(l)
    ensures ItemsOf(rest, PathOf(m)) == []
  {
    hide PathOf;
    forall c | c in rest ensures c.path != PathOf(m) {
      var l: nat :| from <= l && c.path == PathOf(l);
      if PathOf(l) == PathOf(m) { PathsAreDistinct(l, m); }
    }
    NoItems(rest, PathOf(m));
  }

  /** How many names the scripts from `i` up to `m` propose. */
  function NamesBetween(names: seq<seq<string>>, i: nat, m: nat): nat
    requires i <= m <= |names|
    decreases m - i
  {
    if i == m then 0 else |names[i]| + NamesBetween(names, i + 1, m)
  }

  lemma CandidatesStep(runId: string, names: seq<seq<string>>, i: nat, k: nat, m: nat)
    requires i < |names|
    ensures CandidatesFrom(runId, names, i, k) ==
            BatchItems(runId, PathOf(i), names[i], k) + CandidatesFrom(runId, names, i + 1, k + |names[i]|)
    ensures i <= m < |names| ==>
      NamesBetween(names, i, m) == if i == m then 0 else |names[i]| + NamesBetween(names, i + 1, m)
  {
    hide IdOf, PathOf, BatchItems;
  }

  /** The loop that filters by path finds back each script's own candidates, in order and
      numbered on from those of the scripts before it. */
  lemma {:induction false} ItemsFoundBack(runId: string, names: seq<seq<string>>, i: nat, k: nat, m: nat)
    requires i <= m < |names|
    ensures ItemsOf(CandidatesFrom(runId, names, i, k), PathOf(m)) ==
            BatchItems(runId, PathOf(m), names[m], k + NamesBetween(names, i, m))
    decreases |names| - i
  {
    hide *;
    CandidatesStep(runId, names, i, k, m);
    var batch, rest := BatchItems(runId, PathOf(i), names[i], k), CandidatesFrom(runId, names, i + 1, k + |names[i]|);
    if i == m {
      NumberedFrom(runId, names, i + 1, k + |names[i]|);
      ItemsHere(batch, rest, m);
    } else {
      NoEarlierItems(batch, i, m);
      ItemsFoundBack(runId, names, i + 1, k + |names[i]|, m);
      ItemsConcat(batch, rest, PathOf(m));
      assert [] + ItemsOf(rest, PathOf(m)) == ItemsOf(rest, PathOf(m));
    }
  }

  lemma ItemsHere(batch: seq<Candidate>, rest: seq<Candidate>, m: nat)
    requires forall j :: 0 <= j < |batch| ==> batch[j].path == PathOf(m)
    requires forall c :: c in rest ==> exists l: nat :: m + 1 <= l && c.path == PathOf(l)
    ensures ItemsOf(batch + rest, PathOf(m)) == batch
  {
    ItemsConcat(batch, rest, PathOf(m));
    OwnItems(batch, PathOf(m));
    NoLaterItems(rest, m + 1, m);
    hide *;
    assert batch + [] == batch;
  }

  lemma NoEarlierItems(batch: seq<Candidate>, i: nat, m: nat)
    requires i != m && forall j :: 0 <= j < |batch| ==> batch[j].path == PathOf(i)
    ensures ItemsOf(batch, PathOf(m)) == []
  {
    hide PathOf;
    if PathOf(i) == PathOf(m) { PathsAreDistinct(i, m); }
    NoItems(batch, PathOf(m));
  }

  // ---- lockstep ----------------------------------------------------------------

  ghost predicate DistinctIds(decisions: seq<Decision>) {
    forall i, j :: 0 <= i < j < |decisions| ==> decisions[i].id != decisions[j].id
  }

  lemma {:induction false} FindDistinct(decisions: seq<Decision>, k: nat)
    requires DistinctIds(decisions) && k < |decisions|
    ensures Find(decisions, decisions[k].id) == Some(decisions[k].state)
    decreases |decisions|
  {
    if k + 1 < |decisions| {
      FindDistinct(decisions[..|decisions| - 1], k);
    }
  }

  lemma {:induction false} DecisionsExtend(sandbox: Sandbox, gate: Gate, candidates: seq<Candidate>, scripts: seq<Script>, g: Generated)
    ensures g.decisions <= GenerateAll(sandbox, gate, candidates, scripts, g).decisions
    decreases |scripts|
  {
    if scripts != [] {
      var items := ItemsOf(candidates, scripts[0].path);
      OneExtends(sandbox, gate, items, scripts[0].code, g);
      DecisionsExtend(sandbox, gate, candidates, scripts[1..], GenerateOne(sandbox, gate, items, scripts[0].code, g));
    }
  }

  /** The state one batch gives a candidate. */
  function StateIn(sandbox: Sandbox, gate: Gate, working: Frame, code: string, names: seq<string>, c: Candidate): State {
    match Judge(sandbox, gate, working, code, names)
    case None => Errored
    case Some(judged) => if c.name in judged.violations then Rejected else Accepted
  }

  lemma OneExtends(sandbox: Sandbox, gate: Gate, items: seq<Candidate>, code: string, g: Generated)
    ensures var one := GenerateOne(sandbox, gate, items, code, g).decisions;
            && g.decisions <= one && |one| == |g.decisions| + |items|
            && forall i :: 0 <= i < |items| ==>
                 one[|g.decisions| + i] ==
                 Decision(items[i].id, StateIn(sandbox, gate, g.working, code, Names(items), items[i]))
  {
    hide Judge, Concat, Passing;
  }

  lemma {:induction false} PassingMatches(items: seq<Candidate>, decisions: seq<Decision>, violations: set<string>)
    requires forall i :: 0 <= i < |items| ==>
      Find(decisions, items[i].id) == Some(if items[i].name in violations then Rejected else Accepted)
    ensures Names(AcceptedOf(items, decisions)) == Passing(Names(items), violations)
  {
    if items != [] {
      assert Names(items)[1..] == Names(items[1..]);
      PassingMatches(items[1..], decisions, violations);
      hide Find;
    }
  }

  lemma {:induction false} NoneAccepted(items: seq<Candidate>, decisions: seq<Decision>)
    requires forall i :: 0 <= i < |items| ==> Find(decisions, items[i].id) == Some(Errored)
    ensures AcceptedOf(items, decisions) == []
  {
    if items != [] { NoneAccepted(items[1..], decisions); }
  }

  /** The decisions of one batch, looked up by id in a longer list of distinct ids. */
  lemma FindBatch(sandbox: Sandbox, gate: Gate, items: seq<Candidate>, code: string, g: Generated, all: seq<Decision>)
    requires GenerateOne(sandbox, gate, items, code, g).decisions <= all && DistinctIds(all)
    ensures forall i :: 0 <= i < |items| ==>
      Find(all, items[i].id) == Some(StateIn(sandbox, gate, g.working, code, Names(items), items[i]))
  {
    OneExtends(sandbox, gate, items, code, g);
    hide GenerateOne, StateIn, Find, DistinctIds;
    var one := GenerateOne(sandbox, gate, items, code, g).decisions;
    forall i | 0 <= i < |items|
      ensures Find(all, items[i].id) == Some(StateIn(sandbox, gate, g.working, code, Names(items), items[i]))
    {
      assert all[|g.decisions| + i] == one[|g.decisions| + i];
      FindDistinct(all, |g.decisions| + i);
    }
  }

  /** Replaying one batch makes the working frame generation made. */
  lemma ReplayOneMatches(sandbox: Sandbox, gate: Gate, package: Package, script: Script, g: Generated)
    requires CodeAt(package.scripts, script.path) == script.code
    requires DistinctIds(package.decisions)
    requires GenerateOne(sandbox, gate, ItemsOf(package.candidates, script.path), script.code, g).decisions <= package.decisions
    ensures ReplayOne(sandbox, package, script.path, g.working) ==
            Some(GenerateOne(sandbox, gate, ItemsOf(package.candidates, script.path), script.code, g).working)
  {
    var items := ItemsOf(package.candidates, script.path);
    var names := Names(items);
    FindBatch(sandbox, gate, items, script.code, g, package.decisions);
    hide Find, Concat, Has, AnyMissing, ItemsOf;
    var judged := Judge(sandbox, gate, g.working, script.code, names);
    if judged.None? {
      NoneAccepted(items, package.decisions);
    } else {
      PassingMatches(items, package.decisions, judged.value.violations);
    }
  }

  lemma {:induction false} LockStep(sandbox: Sandbox, gate: Gate, package: Package, scripts: seq<Script>, g: Generated)
    requires forall i :: 0 <= i < |scripts| ==> CodeAt(package.scripts, scripts[i].path) == scripts[i].code
    requires package.decisions == GenerateAll(sandbox, gate, package.candidates, scripts, g).decisions
    requires DistinctIds(package.decisions)
    ensures ReplayAll(sandbox, package, Paths(scripts), g.working) ==
            Some(GenerateAll(sandbox, gate, package.candidates, scripts, g).working)
    decreases |scripts|
  {
    if scripts != [] {
      var next := GenerateOne(sandbox, gate, ItemsOf(package.candidates, scripts[0].path), scripts[0].code, g);
      assert Paths(scripts)[1..] == Paths(scripts[1..]);
      DecisionsExtend(sandbox, gate, package.candidates, scripts[1..], next);
      ReplayOneMatches(sandbox, gate, package, scripts[0], g);
      hide GenerateOne, ReplayOne, CodeAt;
      LockStep(sandbox, gate, package, scripts[1..], next);
    }
  }

  // ---- the ids of a generation are distinct ---------------------------------------

  function Ids(decisions: seq<Decision>): (r: seq<string>)
    ensures |r| == |decisions| && forall i :: 0 <= i < |r| ==> r[i] == decisions[i].id
  {
    seq(|decisions|, i requires 0 <= i < |decisions| => decisions[i].id)
  }

  function CandidateIds(items: seq<Candidate>): (r: seq<string>)
    ensures |r| == |items| && forall i :: 0 <= i < |r| ==> r[i] == items[i].id
  {
    seq(|items|, i requires 0 <= i < |items| => items[i].id)
  }

  function IdsFor(candidates: seq<Candidate>, scripts: seq<Script>): seq<string> {
    if scripts == [] then [] else CandidateIds(ItemsOf(candidates, scripts[0].path)) + IdsFor(candidates, scripts[1..])
  }

  lemma OneIds(sandbox: Sandbox, gate: Gate, items: seq<Candidate>, code: string, g: Generated)
    ensures Ids(GenerateOne(sandbox, gate, items, code, g).decisions) == Ids(g.decisions) + CandidateIds(items)
  {
    hide *;
    OneExtends(sandbox, gate, items, code, g);
    IdsOfOne(items, g.decisions, GenerateOne(sandbox, gate, items, code, g).decisions);
  }

  lemma GenerateStep(sandbox: Sandbox, gate: Gate, candidates: seq<Candidate>, scripts: seq<Script>, g: Generated)
    requires scripts != []
    ensures GenerateAll(sandbox, gate, candidates, scripts, g) ==
            GenerateAll(sandbox, gate, candidates, scripts[1..],
                        GenerateOne(sandbox, gate, ItemsOf(candidates, scripts[0].path), scripts[0].code, g))
    ensures IdsFor(candidates, scripts) ==
            CandidateIds(ItemsOf(candidates, scripts[0].path)) + IdsFor(candidates, scripts[1..])
  {
    hide GenerateOne, ItemsOf;
  }

  lemma {:induction false} IdsGenerated(sandbox: Sandbox, gate: Gate, candidates: seq<Candidate>, scripts: seq<Script>, g: Generated)
    ensures Ids(GenerateAll(sandbox, gate, candidates, scripts, g).decisions) == Ids(g.decisions) + IdsFor(candidates, scripts)
    decreases |scripts|
  {
    if scripts == [] {
      assert GenerateAll(sandbox, gate, candidates, scripts, g) == g && IdsFor(candidates, scripts) == [];
    } else {
      hide *;
      var items := ItemsOf(candidates, scripts[0].path);
      var next := GenerateOne(sandbox, gate, items, scripts[0].code, g);
      GenerateStep(sandbox, gate, candidates, scripts, g);
      OneIds(sandbox, gate, items, scripts[0].code, g);
      IdsGenerated(sandbox, gate, candidates, scripts[1..], next);
      Regroup(Ids(g.decisions), CandidateIds(items), IdsFor(candidates, scripts[1..]));
    }
  }

  lemma IdsOfOne(items: seq<Candidate>, before: seq<Decision>, after: seq<Decision>)
    requires before <= after && |after| == |before| + |items|
    requires forall i :: 0 <= i < |items| ==> after[|before| + i].id == items[i].id
    ensures Ids(after) == Ids(before) + CandidateIds(items)
  {
  }

  lemma {:induction false} ItemsDistinct(candidates: seq<Candidate>, path: string)
    requires Distinct(CandidateIds(candidates))
    ensures Distinct(CandidateIds(ItemsOf(candidates, path)))
  {
    if candidates != [] {
      var head, tail := candidates[0], candidates[1..];
      assert CandidateIds(candidates) == [head.id] + CandidateIds(tail);
      DistinctCons(head.id, CandidateIds(tail));
      ItemsDistinct(tail, path);
      var rest := ItemsOf(tail, path);
      if head.path == path {
        assert CandidateIds([head] + rest) == [head.id] + CandidateIds(rest);
        assert head.id !in CandidateIds(rest) by {
          forall i | 0 <= i < |rest| ensures rest[i].id != head.id {
            assert rest[i] in rest;
            var k :| 0 <= k < |tail| && tail[k] == rest[i];
            assert CandidateIds(tail)[k] == rest[i].id;
          }
        }
        DistinctCons(head.id, CandidateIds(rest));
      }
    }
  }

  lemma {:induction false} IdsForSource(candidates: seq<Candidate>, scripts: seq<Script>, id: string)
    requires id in IdsFor(candidates, scripts)
    ensures exists c :: c in candidates && c.id == id && c.path in Paths(scripts)
  {
    var items := ItemsOf(candidates, scripts[0].path);
    if id in CandidateIds(items) {
      var i :| 0 <= i < |items| && CandidateIds(items)[i] == id;
      assert items[i] in items;
      assert Paths(scripts)[0] == scripts[0].path;
    } else {
      IdsForSource(candidates, scripts[1..], id);
      var c :| c in candidates && c.id == id && c.path in Paths(scripts[1..]);
      var k :| 0 <= k < |scripts| - 1 && Paths(scripts[1..])[k] == c.path;
      assert Paths(scripts)[k + 1] == c.path;
    }
  }

  lemma SameIdSameCandidate(candidates: seq<Candidate>, c: Candidate, d: Candidate)
    requires Distinct(CandidateIds(candidates)) && c in candidates && d in candidates && c.id == d.id
    ensures c == d
  {
    var i :| 0 <= i < |candidates| && candidates[i] == c;
    var j :| 0 <= j < |candidates| && candidates[j] == d;
    assert CandidateIds(candidates)[i] == CandidateIds(candidates)[j];
  }

  lemma {:induction false} DistinctAppend<T>(a: seq<T>, b: seq<T>)
    requires Distinct(a) && Distinct(b) && forall x :: x in a ==> x !in b
    ensures Distinct(a + b)
  {
    forall i, j | 0 <= i < j < |a + b| ensures (a + b)[i] != (a + b)[j] {
      if i < |a| && j >= |a| { assert a[i] in a && b[j - |a|] in b; }
    }
  }

  lemma {:induction false} IdsForDistinct(candidates: seq<Candidate>, scripts: seq<Script>)
    requires Distinct(CandidateIds(candidates)) && Distinct(Paths(scripts))
    ensures Distinct(IdsFor(candidates, scripts))
  {
    if scripts != [] {
      var path, tail := scripts[0].path, scripts[1..];
      var items := ItemsOf(candidates, path);
      assert Paths(scripts) == [path] + Paths(tail);
      DistinctCons(path, Paths(tail));
      ItemsDistinct(candidates, path);
      IdsForDistinct(candidates, tail);
      forall id | id in CandidateIds(items) ensures id !in IdsFor(candidates, tail) {
        if id in IdsFor(candidates, tail) {
          IdsForSource(candidates, tail, id);
          var c :| c in candidates && c.id == id && c.path in Paths(tail);
          var i :| 0 <= i < |items| && CandidateIds(items)[i] == id;
          assert items[i] in items;
          SameIdSameCandidate(candidates, c, items[i]);
        }
      }
      DistinctAppend(CandidateIds(items), IdsFor(candidates, tail));
    }
  }

  lemma DistinctIdsIff(decisions: seq<Decision>)
    ensures DistinctIds(decisions) <==> Distinct(Ids(decisions))
  {
    if Distinct(Ids(decisions)) {
      forall i, j | 0 <= i < j < |decisions| ensures decisions[i].id != decisions[j].id {
        assert Ids(decisions)[i] != Ids(decisions)[j];
      }
    }
  }

  /** A generation decides every candidate once, so looking a decision up by id is unambiguous. */
  lemma DecisionsDistinct(sandbox: Sandbox, gate: Gate, candidates: seq<Candidate>, scripts: seq<Script>, silver: Frame)
    requires Distinct(CandidateIds(candidates)) && Distinct(Paths(scripts))
    ensures DistinctIds(GenerateAll(sandbox, gate, candidates, scripts, Generated(silver, [], [])).decisions)
  {
    hide *;
    var start := Generated(silver, [], []);
    var decisions := GenerateAll(sandbox, gate, candidates, scripts, start).decisions;
    IdsGenerated(sandbox, gate, candidates, scripts, start);
    IdsForDistinct(candidates, scripts);
    assert |Ids([])| == 0;
    assert Ids([]) + IdsFor(candidates, scripts) == IdsFor(candidates, scripts);
    DistinctIdsIff(decisions);
  }

  // ---- the final comparison ---------------------------------------------------------

  ghost predicate SandboxOk(sandbox: Sandbox) {
    forall code, f :: Rectangular(f) && sandbox(code, f).Some? ==> Rectangular(sandbox(code, f).value)
  }

  lemma {:induction false} SelectFits(columns: seq<Column>, names: seq<string>, rows: nat)
    requires forall i :: 0 <= i < |columns| ==> |columns[i].cells| == rows
    ensures forall i :: 0 <= i < |Select(columns, names)| ==> |Select(columns, names)[i].cells| == rows
  {
    if names != [] {
      SelectFits(columns, names[1..], rows);
      var head := Labelled(columns, names[0]);
      forall i | 0 <= i < |head| ensures |head[i].cells| == rows {
        assert head[i] in columns;
      }
    }
  }

  lemma ConcatRectangular(frames: seq<Frame>)
    requires AllRectangular(frames)
    ensures Rectangular(Concat(frames))
  {
    ColumnsFit(frames);
  }

  lemma OneOutput(sandbox: Sandbox, gate: Gate, items: seq<Candidate>, code: string, g: Generated, silver: Frame)
    requires SandboxOk(sandbox) && AllRectangular([silver] + g.outputs) && g.working == Concat([silver] + g.outputs)
    ensures var next := GenerateOne(sandbox, gate, items, code, g);
            AllRectangular([silver] + next.outputs) && next.working == Concat([silver] + next.outputs)
  {
    var next := GenerateOne(sandbox, gate, items, code, g);
    ConcatRectangular([silver] + g.outputs);
    hide Concat, Passing, Has, AnyMissing;
    if next.outputs != g.outputs {
      var names := Names(items);
      var judged := Judge(sandbox, gate, g.working, code, names).value;
      var output, passing := judged.output, Passing(names, judged.violations);
      assert sandbox(code, g.working) == Some(output);
      var accepted := Frame(output.rows, Select(output.columns, passing));
      SelectFits(output.columns, passing, output.rows);
      ConcatOneMore([silver] + g.outputs, accepted);
      assert ([silver] + g.outputs) + [accepted] == [silver] + (g.outputs + [accepted]);
    }
  }

  /** The working frame is always the Silver frame beside everything accepted so far. */
  lemma {:induction false} WorkingIsConcat(sandbox: Sandbox, gate: Gate, candidates: seq<Candidate>, scripts: seq<Script>,
                                           g: Generated, silver: Frame)
    requires SandboxOk(sandbox) && AllRectangular([silver] + g.outputs) && g.working == Concat([silver] + g.outputs)
    ensures var end := GenerateAll(sandbox, gate, candidates, scripts, g);
            AllRectangular([silver] + end.outputs) && end.working == Concat([silver] + end.outputs)
    decreases |scripts|
  {
    if scripts != [] {
      var items := ItemsOf(candidates, scripts[0].path);
      OneOutput(sandbox, gate, items, scripts[0].code, g, silver);
      hide GenerateOne, Concat;
      WorkingIsConcat(sandbox, gate, candidates, scripts[1..], GenerateOne(sandbox, gate, items, scripts[0].code, g), silver);
    }
  }

  lemma {:induction false} WithoutConcat(a: seq<Column>, b: seq<Column>, name: string)
    ensures Without(a + b, name) == Without(a, name) + Without(b, name)
  {
    if a == [] {
      assert a + b == b;
    } else {
      assert (a + b)[1..] == a[1..] + b;
      WithoutConcat(a[1..], b, name);
    }
  }

  lemma {:induction false} LabelledConcat(a: seq<Column>, b: seq<Column>, name: string)
    ensures Labelled(a + b, name) == Labelled(a, name) + Labelled(b, name)
  {
    if a == [] {
      assert a + b == b;
    } else {
      assert (a + b)[1..] == a[1..] + b;
      LabelledConcat(a[1..], b, name);
    }
  }

  lemma {:induction false} WithoutLength(a: seq<Column>, name: string)
    ensures |Without(a, name)| <= |a|
    ensures |Without(a, name)| == |a| <==> !Has(a, name)
    ensures !Has(a, name) ==> Without(a, name) == a
    ensures Without(a, name) == [] <==> forall i :: 0 <= i < |a| ==> a[i].name == name
  {
    if a != [] {
      WithoutLength(a[1..], name);
      HasCons(a, name);
      assert a == [a[0]] + a[1..];
      if a[0].name == name {
        if forall i :: 0 <= i < |a[1..]| ==> a[1..][i].name == name {
          forall i | 0 <= i < |a| ensures a[i].name == name { if i > 0 { assert a[1..][i - 1] == a[i]; } }
        } else {
          var i :| 0 <= i < |a[1..]| && a[1..][i].name != name;
          assert a[i + 1].name != name;
        }
      }
    }
  }

  lemma HasCons(a: seq<Column>, name: string)
    requires a != []
    ensures Has(a, name) <==> a[0].name == name || Has(a[1..], name)
  {
    if Has(a, name) && a[0].name != name {
      var i :| 0 <= i < |a| && a[i].name == name;
      assert a[1..][i - 1].name == name;
    }
    if Has(a[1..], name) {
      var i :| 0 <= i < |a[1..]| && a[1..][i].name == name;
      assert a[i + 1].name == name;
    }
  }

  /** No accepted column but `row_id` carries a Silver column's name. */
  predicate Fresh(silver: seq<Column>, outputs: seq<Column>) {
    forall i | 0 <= i < |outputs| :: outputs[i].name == ROW_ID || !Has(silver, outputs[i].name)
  }

  lemma TailComparison(id: Column, silver: seq<Column>, outputs: seq<Column>, accepted: Frame, working: Frame)
    requires id.name == ROW_ID
    requires accepted.columns == [id] + outputs && working.columns == silver + outputs
    ensures !Has(outputs, ROW_ID) ==> SameTail(accepted, working)
    ensures Has(outputs, ROW_ID) && SameTail(accepted, working) ==> forall i :: 0 <= i < |silver| ==> silver[i].name == ROW_ID
  {
    var left, right := Without(accepted.columns, ROW_ID), Without(working.columns, ROW_ID);
    assert accepted.columns[1..] == outputs;
    assert left == Without(outputs, ROW_ID);
    WithoutConcat(silver, outputs, ROW_ID);
    WithoutLength(outputs, ROW_ID);
    WithoutLength(silver, ROW_ID);
  }

  /** One feature compared by name: equal exactly when no Silver column answers to the name too. */
  lemma OneNameCompared(id: Column, silver: seq<Column>, outputs: seq<Column>, i: nat)
    requires id.name == ROW_ID && i < |outputs| && outputs[i].name != ROW_ID
    ensures var name := outputs[i].name;
            (&& Has(silver + outputs, name)
             && Labelled([id] + outputs, name) == Labelled(silver + outputs, name)) <==> !Has(silver, name)
  {
    var name := outputs[i].name;
    LabelledConcat(silver, outputs, name);
    LabelledConcat([id], outputs, name);
    assert (silver + outputs)[|silver| + i].name == name;
    assert !Has([id], name);
    var own, others := Labelled(outputs, name), Labelled(silver, name);
    assert Labelled([id], name) + own == own;
    assert others == [] ==> others + own == own;
    assert |others + own| == |others| + |own|;
  }

  lemma NameComparison(id: Column, silver: seq<Column>, outputs: seq<Column>, accepted: Frame, working: Frame)
    requires id.name == ROW_ID
    requires accepted.columns == [id] + outputs && working.columns == silver + outputs
    ensures SameByName(accepted, working) <==> Fresh(silver, outputs)
  {
    assert accepted.columns[0].name == ROW_ID;
    assert forall i :: 0 <= i < |outputs| ==> accepted.columns[i + 1] == outputs[i];
    assert forall i :: 0 < i < |accepted.columns| ==> accepted.columns[i] == outputs[i - 1];
    forall i | 0 <= i < |outputs| && outputs[i].name != ROW_ID
      ensures (&& Has(working.columns, outputs[i].name)
               && Labelled(accepted.columns, outputs[i].name) == Labelled(working.columns, outputs[i].name))
              <==> !Has(silver, outputs[i].name)
    {
      OneNameCompared(id, silver, outputs, i);
    }
    assert Has(accepted.columns, ROW_ID);
    hide Has, Labelled;
    if !Fresh(silver, outputs) {
      var i :| 0 <= i < |outputs| && !(outputs[i].name == ROW_ID || !Has(silver, outputs[i].name));
      assert accepted.columns[i + 1].name == outputs[i].name;
    }
  }

  // ---- an honest package replays -----------------------------------------------------

  function ScriptsOf(codes: seq<string>): (r: seq<Script>)
    ensures |r| == |codes| && forall i :: 0 <= i < |r| ==> r[i] == Script(PathOf(i), codes[i])
  {
    seq(|codes|, i requires 0 <= i < |codes| => Script(PathOf(i), codes[i]))
  }

  /** The accepted frame of `candidate_execution_batches`: the row ids beside every accepted output. */
  function AcceptedFrame(ids: Frame, outputs: seq<Frame>): Frame {
    if outputs == [] then ids else Concat([ids] + outputs)
  }

  /** What generation commits; the loader may hand the scripts back in any order. */
  function Committed(g: Generated, candidates: seq<Candidate>, stored: seq<Script>, ids: Frame): Package {
    Package(candidates, g.decisions, stored, AcceptedFrame(ids, g.outputs))
  }

  lemma PathsDistinct(scripts: seq<Script>)
    requires forall i :: 0 <= i < |scripts| ==> scripts[i].path == PathOf(i)
    ensures Distinct(Paths(scripts))
  {
    hide PathOf;
    forall i, j | 0 <= i < j < |scripts| ensures Paths(scripts)[i] != Paths(scripts)[j] {
      if PathOf(i) == PathOf(j) { PathsAreDistinct(i, j); }
    }
  }

  lemma CandidatesDistinct(runId: string, names: seq<seq<string>>)
    ensures Distinct(CandidateIds(CandidatesFrom(runId, names, 0, 0)))
  {
    var all := CandidatesFrom(runId, names, 0, 0);
    NumberedFrom(runId, names, 0, 0);
    hide *;
    DistinctByNumber(runId, all);
  }

  lemma DistinctByNumber(runId: string, all: seq<Candidate>)
    requires forall j :: 0 <= j < |all| ==> all[j].id == IdOf(runId, 0 + j)
    ensures Distinct(CandidateIds(all))
  {
    hide IdOf;
    forall i, j | 0 <= i < j < |all| ensures CandidateIds(all)[i] != CandidateIds(all)[j] {
      assert all[i].id == IdOf(runId, i) && all[j].id == IdOf(runId, j);
      if IdOf(runId, i) == IdOf(runId, j) { IdsAreDistinct(runId, i, j); }
    }
  }

  lemma {:induction false} CodeFound(scripts: seq<Script>, script: Script)
    requires Distinct(Paths(scripts)) && script in scripts
    ensures CodeAt(scripts, script.path) == script.code
  {
    assert Paths(scripts) == [scripts[0].path] + Paths(scripts[1..]);
    DistinctCons(scripts[0].path, Paths(scripts[1..]));
    if scripts[0] != script {
      assert script in scripts[1..];
      var i :| 0 <= i < |scripts[1..]| && scripts[1..][i] == script;
      assert Paths(scripts[1..])[i] == script.path;
      CodeFound(scripts[1..], script);
    }
  }

  lemma StoredPaths(scripts: seq<Script>, stored: seq<Script>)
    requires multiset(stored) == multiset(scripts) && Distinct(Paths(scripts))
    ensures Distinct(Paths(stored)) && SortBy(Paths(stored), StrLeq) == SortBy(Paths(scripts), StrLeq)
    ensures forall i :: 0 <= i < |scripts| ==> CodeAt(stored, scripts[i].path) == scripts[i].code
  {
    var path := (s: Script) => s.path;
    assert Paths(scripts) == MapSeq(path, scripts) && Paths(stored) == MapSeq(path, stored);
    MapPermutation(path, scripts, stored);
    DistinctProjection(scripts, stored, path);
    StrIsTotalPreorder();
    StrAntisymmetricOn(Paths(stored));
    SortOfPermutation(Paths(stored), Paths(scripts), StrLeq);
    forall i | 0 <= i < |scripts| ensures CodeAt(stored, scripts[i].path) == scripts[i].code {
      assert scripts[i] in multiset(stored);
      CodeFound(stored, scripts[i]);
    }
  }

  /** Up to 10000 batches, replaying what a generation committed rebuilds its working frame,
      whatever the sandbox computes, whatever the gate rejects and however the scripts are stored. */
  lemma HonestWorkingFrame(sandbox: Sandbox, gate: Gate, runId: string, codes: seq<string>, names: seq<seq<string>>,
                           silver: Frame, ids: Frame, stored: seq<Script>)
    requires |names| == |codes| <= 10000
    requires multiset(stored) == multiset(ScriptsOf(codes))
    ensures var candidates := CandidatesFrom(runId, names, 0, 0);
            var g := GenerateAll(sandbox, gate, candidates, ScriptsOf(codes), Generated(silver, [], []));
            ReplayAll(sandbox, Committed(g, candidates, stored, ids), SortBy(Paths(stored), StrLeq), silver) == Some(g.working)
  {
    var candidates, scripts := CandidatesFrom(runId, names, 0, 0), ScriptsOf(codes);
    var start := Generated(silver, [], []);
    var package := Committed(GenerateAll(sandbox, gate, candidates, scripts, start), candidates, stored, ids);
    PathsDistinct(scripts);
    CandidatesDistinct(runId, names);
    StoredPaths(scripts, stored);
    assert Paths(scripts) == PathsOf(|codes|);
    SortedPathsAreInOrder(|codes|);
    DecisionsDistinct(sandbox, gate, candidates, scripts, silver);
    assert package.scripts == stored && package.candidates == candidates;
    hide *;
    LockStep(sandbox, gate, package, scripts, start);
  }

  lemma PadAllConcat(a: seq<Column>, b: seq<Column>, rows: nat)
    ensures PadAll(a + b, rows) == PadAll(a, rows) + PadAll(b, rows)
  {
    hide Pad;
  }

  lemma PaddedNames(columns: seq<Column>, rows: nat, name: string)
    ensures Has(PadAll(columns, rows), name) <==> Has(columns, name)
  {
    if Has(columns, name) {
      var i :| 0 <= i < |columns| && columns[i].name == name;
      assert PadAll(columns, rows)[i].name == name;
    }
  }

  lemma PaddedFresh(silver: seq<Column>, outputs: seq<Column>, rows: nat)
    ensures Fresh(PadAll(silver, rows), PadAll(outputs, rows)) <==> Fresh(silver, outputs)
  {
    forall name ensures Has(PadAll(silver, rows), name) <==> Has(silver, name) {
      PaddedNames(silver, rows, name);
    }
    hide Has;
    if Fresh(PadAll(silver, rows), PadAll(outputs, rows)) {
      forall i | 0 <= i < |outputs| ensures outputs[i].name == ROW_ID || !Has(silver, outputs[i].name) {
        assert PadAll(outputs, rows)[i].name == outputs[i].name;
      }
    }
  }

  /** The accepted frame and the working frame hold the same padded outputs, one behind the row
      ids and the other behind the Silver columns. */
  lemma SharedTail(silver: Frame, ids: Frame, id: Column, outputs: seq<Frame>)
    requires Rectangular(silver) && ids == Frame(silver.rows, [id]) && |id.cells| == silver.rows
    ensures exists rows: nat ::
      && AcceptedFrame(ids, outputs).columns == [Pad(id, rows)] + PadAll(AllColumns(outputs), rows)
      && Concat([silver] + outputs).columns == PadAll(silver.columns, rows) + PadAll(AllColumns(outputs), rows)
  {
    var rows := MaxRows([silver] + outputs);
    assert ([silver] + outputs)[1..] == outputs && ([ids] + outputs)[1..] == outputs;
    assert MaxRows([ids] + outputs) == rows;
    PadAllConcat([id], AllColumns(outputs), rows);
    PadAllConcat(silver.columns, AllColumns(outputs), rows);
    assert PadAll([id], rows) == [Pad(id, rows)];
    if outputs == [] {
      assert rows == silver.rows;
      assert id.cells + [] == id.cells && Pad(id, rows) == id;
      assert AllColumns(outputs) == [] && PadAll([], rows) == [];
    }
  }

  lemma FinalComparison(silver: Frame, ids: Frame, id: Column, outputs: seq<Frame>)
    requires Rectangular(silver) && ids == Frame(silver.rows, [id]) && |id.cells| == silver.rows && id.name == ROW_ID
    ensures var accepted, working := AcceptedFrame(ids, outputs), Concat([silver] + outputs);
            SameTail(accepted, working) || SameByName(accepted, working)
            <==> !Has(AllColumns(outputs), ROW_ID) || Fresh(silver.columns, AllColumns(outputs))
  {
    var accepted, working := AcceptedFrame(ids, outputs), Concat([silver] + outputs);
    SharedTail(silver, ids, id, outputs);
    var columns := AllColumns(outputs);
    hide AcceptedFrame, Concat, AllColumns, Rectangular;
    var rows: nat :| && accepted.columns == [Pad(id, rows)] + PadAll(columns, rows)
                     && working.columns == PadAll(silver.columns, rows) + PadAll(columns, rows);
    PaddedNames(columns, rows, ROW_ID);
    PaddedFresh(silver.columns, columns, rows);
    TailComparison(Pad(id, rows), PadAll(silver.columns, rows), PadAll(columns, rows), accepted, working);
    NameComparison(Pad(id, rows), PadAll(silver.columns, rows), PadAll(columns, rows), accepted, working);
    OnlyRowIds(PadAll(silver.columns, rows), PadAll(columns, rows));
    hide *;
  }

  lemma OnlyRowIds(silver: seq<Column>, outputs: seq<Column>)
    ensures (forall i :: 0 <= i < |silver| ==> silver[i].name == ROW_ID) ==> Fresh(silver, outputs)
  {
  }

  /** A package that generation committed replays exactly when no accepted feature is called
      `row_id`, or none but that one repeats the name of a Silver column. */
  lemma HonestPackageReplays(sandbox: Sandbox, gate: Gate, runId: string, codes: seq<string>, names: seq<seq<string>>,
                             silver: Frame, ids: Frame, id: Column, stored: seq<Script>)
    requires |names| == |codes| <= 10000
    requires multiset(stored) == multiset(ScriptsOf(codes))
    requires SandboxOk(sandbox) && Rectangular(silver)
    requires ids == Frame(silver.rows, [id]) && |id.cells| == silver.rows && id.name == ROW_ID
    ensures var candidates := CandidatesFrom(runId, names, 0, 0);
            var g := GenerateAll(sandbox, gate, candidates, ScriptsOf(codes), Generated(silver, [], []));
            Replays(sandbox, Committed(g, candidates, stored, ids), silver)
            <==> !Has(AllColumns(g.outputs), ROW_ID) || Fresh(silver.columns, AllColumns(g.outputs))
  {
    var candidates, scripts := CandidatesFrom(runId, names, 0, 0), ScriptsOf(codes);
    var start := Generated(silver, [], []);
    var g := GenerateAll(sandbox, gate, candidates, scripts, start);
    HonestWorkingFrame(sandbox, gate, runId, codes, names, silver, ids, stored);
    SilverAlone(silver);
    hide Concat;
    assert [silver] + start.outputs == [silver];
    WorkingIsConcat(sandbox, gate, candidates, scripts, start, silver);
    assert Committed(g, candidates, stored, ids).accepted == AcceptedFrame(ids, g.outputs);
    assert Committed(g, candidates, stored, ids).scripts == stored;
    hide *;
    Compared(sandbox, Committed(g, candidates, stored, ids), silver, ids, id, g.outputs);
  }

  /** Replay's verdict once it has rebuilt the working frame that generation ended with. */
  lemma Compared(sandbox: Sandbox, package: Package, silver: Frame, ids: Frame, id: Column, outputs: seq<Frame>)
    requires Rectangular(silver) && ids == Frame(silver.rows, [id]) && |id.cells| == silver.rows && id.name == ROW_ID
    requires package.accepted == AcceptedFrame(ids, outputs)
    requires ReplayAll(sandbox, package, SortBy(Paths(package.scripts), StrLeq), silver) == Some(Concat([silver] + outputs))
    ensures Replays(sandbox, package, silver)
            <==> !Has(AllColumns(outputs), ROW_ID) || Fresh(silver.columns, AllColumns(outputs))
  {
    FinalComparison(silver, ids, id, outputs);
    hide SameTail, SameByName, AcceptedFrame, AllColumns, Has, Fresh, Concat, ReplayAll;
  }

  lemma SilverAlone(silver: Frame)
    requires Rectangular(silver)
    ensures Concat([silver]) == silver && AllRectangular([silver])
  {
    var one: seq<Frame> := [silver];
    var none: seq<Frame> := one[1..];
    assert |none| == 0 && one[0] == silver;
    assert AllColumns(none) == [] && MaxRows(none) == 0;
    assert AllColumns(one) == silver.columns + AllColumns(none);
    assert silver.columns + [] == silver.columns;
    assert MaxRows(one) == silver.rows && AllColumns(one) == silver.columns;
    forall i | 0 <= i < |silver.columns| ensures Pad(silver.columns[i], silver.rows) == silver.columns[i] {
      assert silver.columns[i].cells + [] == silver.columns[i].cells;
    }
    assert PadAll(silver.columns, silver.rows) == silver.columns;
  }

  lemma LabelledCons(columns: seq<Column>, name: string)
    requires columns != []
    ensures Labelled(columns, name) ==
            (if columns[0].name == name then [columns[0]] else []) + Labelled(columns[1..], name)
  {
  }

  lemma JoinEqualRows(w: Frame, a: Frame)
    requires Rectangular(w) && Rectangular(a) && w.rows == a.rows
    ensures Concat([w, a]) == Frame(w.rows, w.columns + a.columns)
  {
    var two: seq<Frame> := [w, a];
    var one := two[1..];
    assert one[0] == a && |one[1..]| == 0;
    assert MaxRows(one[1..]) == 0 && AllColumns(one[1..]) == [];
    assert a.columns + [] == a.columns;
    assert MaxRows(one) == a.rows && AllColumns(one) == a.columns;
    assert MaxRows(two) == w.rows && AllColumns(two) == w.columns + a.columns;
    var columns := w.columns + a.columns;
    forall i | 0 <= i < |columns| ensures Pad(columns[i], w.rows) == columns[i] {
      assert columns[i].cells + [] == columns[i].cells;
    }
    assert PadAll(columns, w.rows) == columns;
  }
}
