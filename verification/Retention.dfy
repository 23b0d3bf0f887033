/** Garbage collection of the node cache: which rows are selected, and what is deleted for them. */
module Retention {
  import opened Prelude
  import opened Ordering

  /** `created` is in seconds. */
  datatype Row = Row(key: string, version: string, created: real)

  /** A serialized result file. */
  datatype File = File(name: string, size: nat)

  /** The metadata rows, the result files, and which strings are well-formed data versions. */
  datatype Cache = Cache(rows: seq<Row>, files: seq<File>, valid: string -> bool)

  // ---- files of a version -----------------------------------------------------------------

  /** `data_version.split(".", maxsplit=1)[0]` */
  function Base(version: string): string {
    if version == "" || version[0] == '.' then "" else [version[0]] + Base(version[1..])
  }

  /** `_paths_for_version`: a result file whose name starts with the base of the version. */
  predicate Holds(c: Cache, version: string, f: File) {
    c.valid(version) && Base(version) <= f.name
  }

  function Total(files: seq<File>): nat {
    if files == [] then 0 else files[0].size + Total(files[1..])
  }

  function HeldBy(c: Cache, files: seq<File>, version: string): (r: seq<File>)
    ensures forall f :: f in r <==> f in files && Holds(c, version, f)
  {
    if files == [] then []
    else if Holds(c, version, files[0]) then [files[0]] + HeldBy(c, files[1..], version)
    else HeldBy(c, files[1..], version)
  }

  /** `serialized_size` */
  function Size(c: Cache, version: string): nat {
    Total(HeldBy(c, c.files, version))
  }

  function Sizes(c: Cache, versions: seq<string>): nat {
    if versions == [] then 0 else Size(c, versions[0]) + Sizes(c, versions[1..])
  }

  // ---- versions of rows ------------------------------------------------------------------------

  /** The distinct versions of some rows. */
  function Versions(rows: seq<Row>): (r: seq<string>)
    ensures forall v :: v in r <==> exists i :: 0 <= i < |rows| && rows[i].version == v
    ensures forall i, j :: 0 <= i < j < |r| ==> r[i] != r[j]
  {
    if rows == [] then []
    else
      var last := rows[|rows| - 1].version;
      var rest := Versions(rows[..|rows| - 1]);
      if last in rest then rest else rest + [last]
  }

  /** When the oldest row of a version was made. */
  function Oldest(rows: seq<Row>, version: string): real {
    if rows == [] then 0.0
    else
      var rest := Oldest(rows[1..], version);
      if rows[0].version != version then rest
      else if version !in Versions(rows[1..]) || rows[0].created < rest then rows[0].created
      else rest
  }

  predicate OlderLeq(rows: seq<Row>, a: string, b: string) {
    Oldest(rows, a) < Oldest(rows, b) || (Oldest(rows, a) == Oldest(rows, b) && StrLeq(a, b))
  }

  function ByAge(rows: seq<Row>): seq<string> {
    SortBy(Versions(rows), (a: string, b: string) => OlderLeq(rows, a, b))
  }

  /** The versions evicted in this order while the current size is over the maximum. */
  function Evicted(c: Cache, order: seq<string>, current: int, maximum: nat): seq<string> {
    if order == [] || current <= maximum then []
    else [order[0]] + Evicted(c, order[1..], current - Size(c, order[0]), maximum)
  }

  // ---- collect ------------------------------------------------------------------------------------

  datatype Limits = Limits(cutoff: Option<real>, maximum: Option<nat>, clear: bool, dryRun: bool)

  /** What the caller of `collect` passes. */
  datatype Arguments = Arguments(maxAgeDays: Option<real>, maxSizeMb: Option<real>, clear: bool, dryRun: bool)

  predicate Rejected(a: Arguments) {
    || (a.maxAgeDays.Some? && a.maxAgeDays.value <= 0.0)
    || (a.maxSizeMb.Some? && a.maxSizeMb.value <= 0.0)
    || (a.clear <==> (a.maxAgeDays.Some? || a.maxSizeMb.Some?))
  }

  function LimitsOf(a: Arguments, now: real): Limits
    requires !Rejected(a)
  {
    Limits(if a.maxAgeDays.Some? then Some(now - a.maxAgeDays.value * 86400.0) else None,
           if a.maxSizeMb.Some? then Some((a.maxSizeMb.value * 1024.0 * 1024.0).Floor) else None,
           a.clear, a.dryRun)
  }

  datatype Report = Report(removed: nat, reclaimed: nat, remaining: nat)

  function AllKeys(rows: seq<Row>): set<string> {
    set i | 0 <= i < |rows| :: rows[i].key
  }

  function AgedKeys(rows: seq<Row>, cutoff: real): set<string> {
    set i | 0 <= i < |rows| && rows[i].created <= cutoff :: rows[i].key
  }

  function VersionKeys(rows: seq<Row>, versions: seq<string>): set<string> {
    set i | 0 <= i < |rows| && rows[i].version in versions :: rows[i].key
  }

  function RowsIn(rows: seq<Row>, keys: set<string>, chosen: bool): (r: seq<Row>)
    ensures forall x :: x in r <==> x in rows && (x.key in keys) == chosen
    ensures |r| <= |rows|
  {
    if rows == [] then []
    else if (rows[0].key in keys) == chosen then [rows[0]] + RowsIn(rows[1..], keys, chosen)
    else RowsIn(rows[1..], keys, chosen)
  }

  function Aged(c: Cache, limits: Limits): set<string> {
    if limits.clear then AllKeys(c.rows)
    else if limits.cutoff.Some? then AgedKeys(c.rows, limits.cutoff.value)
    else {}
  }

  /** The versions that the size limit evicts from the rows that the age limit has left. */
  function SizeEvicted(c: Cache, limits: Limits): seq<string> {
    if limits.clear || limits.maximum.None? then []
    else
      var rest := RowsIn(c.rows, Aged(c, limits), false);
      Evicted(c, ByAge(rest), Sizes(c, Versions(rest)), limits.maximum.value)
  }

  function Selected(c: Cache, limits: Limits): set<string> {
    var rest := RowsIn(c.rows, Aged(c, limits), false);
    Aged(c, limits) + VersionKeys(rest, SizeEvicted(c, limits))
  }

  /** Result files of the selected rows' versions that no remaining row refers to. */
  predicate Dropped(c: Cache, keys: set<string>, clear: bool, f: File) {
    clear || exists v :: v in Versions(RowsIn(c.rows, keys, true)) && v !in Versions(RowsIn(c.rows, keys, false)) && Holds(c, v, f)
  }

  function Kept(c: Cache, files: seq<File>, keys: set<string>, clear: bool): (r: seq<File>)
    ensures forall f :: f in r <==> f in files && !Dropped(c, keys, clear, f)
  {
    if files == [] then []
    else if Dropped(c, keys, clear, files[0]) then Kept(c, files[1..], keys, clear)
    else [files[0]] + Kept(c, files[1..], keys, clear)
  }

  /** What is left when the rows with these keys are deleted. */
  function Deleted(c: Cache, keys: set<string>, clear: bool): Cache {
    c.(rows := RowsIn(c.rows, keys, false), files := Kept(c, c.files, keys, clear))
  }

  function Collected(c: Cache, limits: Limits): Cache {
    if limits.dryRun then c else Deleted(c, Selected(c, limits), limits.clear)
  }

  function ReportOf(c: Cache, limits: Limits): Report {
    var keys := Selected(c, limits);
    var gone := RowsIn(c.rows, keys, true);
    Report(|gone|, if limits.clear then Total(c.files) else Sizes(c, Versions(gone)), |c.rows| - |gone|)
  }

  /** The loop of the size limit. */
  method Evict(c: Cache, order: seq<string>, size: nat, maximum: nat) returns (evicted: seq<string>)
    ensures evicted == Evicted(c, order, size, maximum)
  {
    hide Size;
    evicted := [];
    var current: int := size;
    var i := 0;
    while i < |order| && current > maximum
      invariant 0 <= i <= |order|
      invariant Evicted(c, order, size, maximum) == evicted + Evicted(c, order[i..], current, maximum)
    {
      assert order[i..][0] == order[i] && order[i..][1..] == order[i + 1..];
      current := current - Size(c, order[i]);
      evicted := evicted + [order[i]];
      i := i + 1;
    }
  }

  lemma NothingEvicted(rows: seq<Row>)
    ensures VersionKeys(rows, []) == {}
  {
  }

  method Select(c: Cache, limits: Limits) returns (selected: set<string>)
    ensures selected == Selected(c, limits)
  {
    hide Versions, ByAge, RowsIn, Size, Sizes, Evicted, Aged, VersionKeys;
    selected := Aged(c, limits);
    var rest := RowsIn(c.rows, selected, false);
    if !limits.clear && limits.maximum.Some? {
      var evicted := Evict(c, ByAge(rest), Sizes(c, Versions(rest)), limits.maximum.value);
      selected := selected + VersionKeys(rest, evicted);
    } else {
      NothingEvicted(rest);
    }
  }

  /** `_delete` */
  method Delete(c: Cache, keys: set<string>, clear: bool) returns (after: Cache)
    ensures after == Deleted(c, keys, clear)
  {
    hide Dropped, RowsIn;
    var files := [];
    for i := 0 to |c.files|
      invariant files + Kept(c, c.files[i..], keys, clear) == Kept(c, c.files, keys, clear)
    {
      assert c.files[i..][0] == c.files[i] && c.files[i..][1..] == c.files[i + 1..];
      if !Dropped(c, keys, clear, c.files[i]) {
        Regroup(files, [c.files[i]], Kept(c, c.files[i + 1..], keys, clear));
        files := files + [c.files[i]];
      }
    }
    return c.(rows := RowsIn(c.rows, keys, false), files := files);
  }

  /** The bytes that the report claims: every version once, or every file. */
  method Reclaimed(c: Cache, gone: seq<Row>, clear: bool) returns (bytes: nat)
    ensures bytes == if clear then Total(c.files) else Sizes(c, Versions(gone))
  {
    hide Versions, Size;
    bytes := 0;
    if clear {
      for i := 0 to |c.files|
        invariant bytes + Total(c.files[i..]) == Total(c.files)
      {
        bytes := bytes + c.files[i].size;
      }
    } else {
      var versions := Versions(gone);
      for i := 0 to |versions|
        invariant bytes + Sizes(c, versions[i..]) == Sizes(c, versions)
      {
        bytes := bytes + Size(c, versions[i]);
      }
    }
  }

  /** `collect`; None for the argument errors. */
  method Collect(c: Cache, a: Arguments, now: real) returns (r: Option<(Cache, Report)>)
    ensures r == if Rejected(a) then None else Some((Collected(c, LimitsOf(a, now)), ReportOf(c, LimitsOf(a, now))))
  {
    hide Selected, Deleted, RowsIn, Versions, Total, Sizes;
    if a.maxAgeDays.Some? && a.maxAgeDays.value <= 0.0 {
      return None;
    }
    if a.maxSizeMb.Some? && a.maxSizeMb.value <= 0.0 {
      return None;
    }
    if a.clear && (a.maxAgeDays.Some? || a.maxSizeMb.Some?) {
      return None;
    }
    if !a.clear && a.maxAgeDays.None? && a.maxSizeMb.None? {
      return None;
    }
    var limits := LimitsOf(a, now);
    var selected := Select(c, limits);
    var gone := RowsIn(c.rows, selected, true);
    var bytes := Reclaimed(c, gone, limits.clear);
    var after := c;
    if !limits.dryRun {
      after := Delete(c, selected, limits.clear);
    }
    return Some((after, Report(|gone|, bytes, |c.rows| - |gone|)));
  }

  // ---- sums over versions -------------------------------------------------------------------

  lemma {:induction false} SizesConcat(c: Cache, a: seq<string>, b: seq<string>)
    ensures Sizes(c, a + b) == Sizes(c, a) + Sizes(c, b)
  {
    if a == [] {
      assert a + b == b;
    } else {
      assert (a + b)[1..] == a[1..] + b;
      hide Size;
      SizesConcat(c, a[1..], b);
    }
  }

  /** Sums do not depend on the order. */
  lemma {:induction false} SizesPermuted(c: Cache, a: seq<string>, b: seq<string>)
    requires multiset(a) == multiset(b)
    ensures Sizes(c, a) == Sizes(c, b)
    decreases |a|
  {
    if a == [] {
      assert |multiset(b)| == 0;
    } else {
      hide Size;
      var j := PlaceOf(a, b);
      SizesPermuted(c, a[1..], b[..j] + b[j + 1..]);
      SizesWithout(c, b, j);
    }
  }

  lemma PlaceOf(a: seq<string>, b: seq<string>) returns (j: nat)
    requires a != [] && multiset(a) == multiset(b)
    ensures j < |b| && b[j] == a[0] && multiset(a[1..]) == multiset(b[..j] + b[j + 1..])
  {
    assert a[0] in multiset(b);
    j :| 0 <= j < |b| && b[j] == a[0];
    RemoveMultiset(b, j);
    RemoveMultiset(a, 0);
    assert a[..0] + a[1..] == a[1..];
  }

  lemma SizesWithout(c: Cache, b: seq<string>, j: nat)
    requires j < |b|
    ensures Sizes(c, b) == Size(c, b[j]) + Sizes(c, b[..j] + b[j + 1..])
  {
    assert b[..j] + b[j..] == b && b[j..][1..] == b[j + 1..];
    hide Size;
    SizesConcat(c, b[..j], b[j..]);
    SizesConcat(c, b[..j], b[j + 1..]);
  }

  /** The eviction takes the shortest prefix of the order that brings the rest under the maximum. */
  lemma {:induction false} EvictsPrefix(c: Cache, order: seq<string>, maximum: nat)
    ensures var k := |Evicted(c, order, Sizes(c, order), maximum)|;
            && k <= |order| && Evicted(c, order, Sizes(c, order), maximum) == order[..k]
            && Sizes(c, order[k..]) <= maximum
            && (k > 0 ==> Sizes(c, order[k - 1..]) > maximum)
  {
    if order != [] && Sizes(c, order) > maximum {
      hide Size;
      EvictsPrefix(c, order[1..], maximum);
      var k := |Evicted(c, order[1..], Sizes(c, order[1..]), maximum)|;
      assert order[..k + 1] == [order[0]] + order[1..][..k] && order[k + 1..] == order[1..][k..];
      if k > 0 { assert order[k..] == order[1..][k - 1..]; } else { assert order[k..] == order; }
    } else {
      assert order[..0] == [] && order[0..] == order;
    }
  }

  // ---- what files and ages are ------------------------------------------------------------------

  lemma {:induction false} BaseMeans(version: string)
    ensures Base(version) <= version && '.' !in Base(version)
    ensures |Base(version)| < |version| ==> version[|Base(version)|] == '.'
  {
    if version != "" && version[0] != '.' { BaseMeans(version[1..]); }
  }

  /** A file belongs to a version exactly if the version is well formed and the file's name begins with
      what comes before the version's first dot. */
  lemma FileBelongs(c: Cache, version: string, f: File, k: nat)
    requires k <= |version| && '.' !in version[..k] && (k < |version| ==> version[k] == '.')
    ensures Holds(c, version, f) <==> c.valid(version) && |f.name| >= k && f.name[..k] == version[..k]
  {
    BaseMeans(version);
    assert Base(version) == version[..|Base(version)|];
    FirstDot(version, |Base(version)|, k);
  }

  lemma FirstDot(s: string, n: nat, k: nat)
    requires n <= |s| && '.' !in s[..n] && (n < |s| ==> s[n] == '.')
    requires k <= |s| && '.' !in s[..k] && (k < |s| ==> s[k] == '.')
    ensures n == k
  {
    forall i | 0 <= i < n ensures s[i] != '.' { assert s[..n][i] in s[..n]; }
    forall i | 0 <= i < k ensures s[i] != '.' { assert s[..k][i] in s[..k]; }
  }

  /** The age of a version is that of its oldest row. */
  lemma {:induction false} OldestMeans(rows: seq<Row>, version: string)
    requires version in Versions(rows)
    ensures exists x :: x in rows && x.version == version && x.created == Oldest(rows, version)
    ensures forall x :: x in rows && x.version == version ==> x.created >= Oldest(rows, version)
  {
    var i :| 0 <= i < |rows| && rows[i].version == version;
    assert rows == [rows[0]] + rows[1..];
    if version in Versions(rows[1..]) {
      OldestMeans(rows[1..], version);
    } else {
      assert forall j :: 0 < j < |rows| ==> rows[j] == rows[1..][j - 1] && rows[1..][j - 1].version in Versions(rows[1..]);
    }
    assert rows[0] in rows;
    hide Versions;
  }

  // ---- the size limit -------------------------------------------------------------------------

  /** The metadata table has one row for each cache key. */
  ghost predicate DistinctKeys(rows: seq<Row>) {
    forall x, y :: x in rows && y in rows && x.key == y.key ==> x == y
  }

  function Rest(c: Cache, limits: Limits): seq<Row> { RowsIn(c.rows, Aged(c, limits), false) }

  function Remaining(c: Cache, limits: Limits): seq<Row> { RowsIn(c.rows, Selected(c, limits), false) }

  /** A row survives if and only if the age limit leaves it and its version is not evicted. */
  lemma RowSurvives(c: Cache, limits: Limits, x: Row)
    requires DistinctKeys(c.rows)
    ensures x in Remaining(c, limits) <==> x in Rest(c, limits) && x.version !in SizeEvicted(c, limits)
  {
    var rest, evicted := Rest(c, limits), SizeEvicted(c, limits);
    hide SizeEvicted, Aged;
    if x in rest && x.version in evicted {
      var i :| 0 <= i < |rest| && rest[i] == x;
      assert x.key in VersionKeys(rest, evicted);
    }
    if x in rest && x.key in VersionKeys(rest, evicted) {
      var i :| 0 <= i < |rest| && rest[i].version in evicted && rest[i].key == x.key;
      assert rest[i] in rest;
    }
  }

  lemma {:induction false} SameVersions(a: seq<string>, b: seq<string>)
    requires Distinct(a) && Distinct(b) && forall v :: v in a <==> v in b
    ensures multiset(a) == multiset(b)
  {
    DistinctCount(a);
    DistinctCount(b);
    forall v ensures multiset(a)[v] == multiset(b)[v] {
      assert v in multiset(a) <==> v in a;
      assert v in multiset(b) <==> v in b;
    }
  }

  lemma OlderIsTotalPreorder(rows: seq<Row>)
    ensures TotalPreorder((a: string, b: string) => OlderLeq(rows, a, b))
  {
    StrIsTotalPreorder();
    hide Oldest, StrLeq;
    forall a, b, z | OlderLeq(rows, a, b) && OlderLeq(rows, b, z) ensures OlderLeq(rows, a, z) {
      assert StrLeq(a, b) && StrLeq(b, z) ==> StrLeq(a, z);
    }
    forall a: string, b: string ensures OlderLeq(rows, a, b) || OlderLeq(rows, b, a) {
      assert StrLeq(a, b) || StrLeq(b, a);
    }
  }

  lemma AgeSorted(rows: seq<Row>)
    ensures multiset(ByAge(rows)) == multiset(Versions(rows))
    ensures forall i, j :: 0 <= i < j < |ByAge(rows)| ==> OlderLeq(rows, ByAge(rows)[i], ByAge(rows)[j])
  {
    OlderIsTotalPreorder(rows);
    hide OlderLeq, Versions, TotalPreorder;
    SortOrders(Versions(rows), (a: string, b: string) => OlderLeq(rows, a, b));
  }

  lemma SameElements(a: seq<string>, b: seq<string>)
    requires multiset(a) == multiset(b) && Distinct(b)
    ensures Distinct(a) && forall v :: v in a <==> v in b
  {
    DistinctCount(a);
    DistinctCount(b);
    forall v ensures v in a <==> v in b {
      assert v in multiset(a) <==> v in multiset(b);
    }
  }

  lemma AgeOrder(rows: seq<Row>)
    ensures Distinct(ByAge(rows)) && (forall v :: v in ByAge(rows) <==> v in Versions(rows))
    ensures multiset(ByAge(rows)) == multiset(Versions(rows))
    ensures forall i, j :: 0 <= i < j < |ByAge(rows)| ==> OlderLeq(rows, ByAge(rows)[i], ByAge(rows)[j])
  {
    hide *;
    AgeSorted(rows);
    VersionsDistinct(rows);
    SameElements(ByAge(rows), Versions(rows));
  }

  lemma SlicesApart(order: seq<string>, k: nat)
    requires Distinct(order) && k <= |order|
    ensures Distinct(order[k..]) && forall v :: v in order[k..] <==> v in order && v !in order[..k]
  {
    assert order == order[..k] + order[k..];
  }

  /** After a collection with a size limit the results of the remaining rows' versions fit the
      maximum; the evicted versions are the oldest ones; and the last of them had to go. */
  lemma SizeLimitMet(c: Cache, limits: Limits)
    requires DistinctKeys(c.rows) && !limits.clear && limits.maximum.Some?
    ensures var evicted, left := SizeEvicted(c, limits), Versions(Remaining(c, limits));
            && Sizes(c, left) <= limits.maximum.value
            && (forall v :: v in left <==> v in Versions(Rest(c, limits)) && v !in evicted)
            && (forall v, w :: v in evicted && w in left ==> OlderLeq(Rest(c, limits), v, w))
            && (evicted != [] ==> Sizes(c, left) + Size(c, evicted[|evicted| - 1]) > limits.maximum.value)
  {
    hide *;
    var rest := Rest(c, limits);
    var order, left, evicted := ByAge(rest), Versions(Remaining(c, limits)), SizeEvicted(c, limits);
    var k := |evicted|;
    AgeOrder(rest);
    EvictedPrefix(c, limits);
    SlicesApart(order, k);
    SlicesOrdered(rest, order, k);
    forall x ensures x in Remaining(c, limits) <==> x in rest && x.version !in evicted { RowSurvives(c, limits, x); }
    VersionsLeft(rest, Remaining(c, limits), evicted);
    SameVersions(left, order[k..]);
    SizesPermuted(c, left, order[k..]);
    if k > 0 { LastEvicted(c, order, k); }
  }

  lemma EvictedPrefix(c: Cache, limits: Limits)
    requires !limits.clear && limits.maximum.Some?
    ensures var order, evicted := ByAge(Rest(c, limits)), SizeEvicted(c, limits);
            var k := |evicted|;
            && k <= |order| && evicted == order[..k]
            && Sizes(c, order[k..]) <= limits.maximum.value
            && (k > 0 ==> Sizes(c, order[k - 1..]) > limits.maximum.value)
  {
    var rest := Rest(c, limits);
    AgeOrder(rest);
    SizesPermuted(c, Versions(rest), ByAge(rest));
    EvictsPrefix(c, ByAge(rest), limits.maximum.value);
    hide ByAge, Sizes, Evicted, Versions, Aged, RowsIn, OlderLeq;
  }

  lemma SlicesOrdered(rows: seq<Row>, order: seq<string>, k: nat)
    requires k <= |order| && forall i, j :: 0 <= i < j < |order| ==> OlderLeq(rows, order[i], order[j])
    ensures forall v, w :: v in order[..k] && w in order[k..] ==> OlderLeq(rows, v, w)
  {
    hide OlderLeq;
    forall v, w | v in order[..k] && w in order[k..] ensures OlderLeq(rows, v, w) {
      var i :| 0 <= i < k && order[i] == v;
      var j :| 0 <= j < |order[k..]| && order[k..][j] == w;
      assert OlderLeq(rows, order[i], order[k + j]);
    }
  }

  lemma LastEvicted(c: Cache, order: seq<string>, k: nat)
    requires 0 < k <= |order|
    ensures Sizes(c, order[k - 1..]) == Size(c, order[k - 1]) + Sizes(c, order[k..])
  {
    assert order[k - 1..][1..] == order[k..];
    hide Size;
  }

  lemma VersionsLeft(rest: seq<Row>, left: seq<Row>, evicted: seq<string>)
    requires forall x :: x in left <==> x in rest && x.version !in evicted
    ensures forall v :: v in Versions(left) <==> v in Versions(rest) && v !in evicted
    ensures Distinct(Versions(left))
  {
    forall v ensures v in Versions(left) <==> v in Versions(rest) && v !in evicted {
      if v in Versions(left) {
        var i :| 0 <= i < |left| && left[i].version == v;
        assert left[i] in left;
        var j :| 0 <= j < |rest| && rest[j] == left[i];
      }
      if v in Versions(rest) && v !in evicted {
        var i :| 0 <= i < |rest| && rest[i].version == v;
        assert rest[i] in rest;
        var j :| 0 <= j < |left| && left[j] == rest[i];
      }
    }
  }

  // ---- files and bytes ----------------------------------------------------------------------------

  /** No file belongs to two versions in use. */
  ghost predicate PrefixFree(c: Cache) {
    forall f, v, w :: f in c.files && v in Versions(c.rows) && w in Versions(c.rows) && Holds(c, v, f) && Holds(c, w, f) ==> v == w
  }

  lemma {:induction false} Partitioned(rows: seq<Row>, keys: set<string>)
    ensures |RowsIn(rows, keys, true)| + |RowsIn(rows, keys, false)| == |rows|
  {
    if rows != [] { Partitioned(rows[1..], keys); }
  }

  lemma RowsInVersions(rows: seq<Row>, keys: set<string>, chosen: bool)
    ensures forall v :: v in Versions(RowsIn(rows, keys, chosen)) ==> v in Versions(rows)
  {
    var part := RowsIn(rows, keys, chosen);
    forall v | v in Versions(part) ensures v in Versions(rows) {
      var i :| 0 <= i < |part| && part[i].version == v;
      assert part[i] in rows;
      var j :| 0 <= j < |rows| && rows[j] == part[i];
    }
  }

  /** A remaining row loses a result file exactly when a version that goes shares the file; when no
      file belongs to two versions, it loses none. */
  lemma RemainingKeepResults(c: Cache, limits: Limits, x: Row, f: File)
    requires !limits.clear && !limits.dryRun && x in Remaining(c, limits) && f in c.files && Holds(c, x.version, f)
    ensures PrefixFree(c) ==> f in Collected(c, limits).files
    ensures f !in Collected(c, limits).files <==>
            exists v :: v in Versions(RowsIn(c.rows, Selected(c, limits), true)) && v !in Versions(Remaining(c, limits)) && Holds(c, v, f)
  {
    var keys := Selected(c, limits);
    var left := RowsIn(c.rows, keys, false);
    RowsInVersions(c.rows, keys, true);
    RowsInVersions(c.rows, keys, false);
    var i :| 0 <= i < |left| && left[i] == x;
    assert x.version in Versions(left);
    hide Selected, Holds, Versions, RowsIn;
  }

  function AnyHeld(c: Cache, files: seq<File>, versions: seq<string>): seq<File> {
    if files == [] then []
    else if exists v :: v in versions && Holds(c, v, files[0]) then [files[0]] + AnyHeld(c, files[1..], versions)
    else AnyHeld(c, files[1..], versions)
  }

  function SizesOf(c: Cache, files: seq<File>, versions: seq<string>): nat {
    if versions == [] then 0 else Total(HeldBy(c, files, versions[0])) + SizesOf(c, files, versions[1..])
  }

  function Holders(c: Cache, f: File, versions: seq<string>): nat {
    if versions == [] then 0 else (if Holds(c, versions[0], f) then 1 else 0) + Holders(c, f, versions[1..])
  }

  lemma {:induction false} OneFileMore(c: Cache, files: seq<File>, versions: seq<string>)
    requires files != []
    ensures SizesOf(c, files, versions) == Holders(c, files[0], versions) * files[0].size + SizesOf(c, files[1..], versions)
  {
    if versions != [] {
      OneFileMore(c, files, versions[1..]);
      var own := if Holds(c, versions[0], files[0]) then 1 else 0;
      assert Total(HeldBy(c, files, versions[0])) == own * files[0].size + Total(HeldBy(c, files[1..], versions[0])) by {
        if own == 1 { assert HeldBy(c, files, versions[0])[1..] == HeldBy(c, files[1..], versions[0]); }
      }
      hide Holds, HeldBy, Total;
      TimesSum(own, Holders(c, files[0], versions[1..]), files[0].size);
    }
  }

  lemma TimesSum(a: nat, b: nat, n: nat)
    ensures (a + b) * n == a * n + b * n
  {
  }

  lemma {:induction false} HoldersCount(c: Cache, f: File, versions: seq<string>)
    ensures Holders(c, f, versions) >= 1 <==> exists v :: v in versions && Holds(c, v, f)
    ensures Distinct(versions) && (forall v, w :: v in versions && w in versions && Holds(c, v, f) && Holds(c, w, f) ==> v == w)
            ==> Holders(c, f, versions) <= 1
  {
    hide Holds;
    if versions != [] {
      HoldersCount(c, f, versions[1..]);
      assert versions == [versions[0]] + versions[1..];
      DistinctCons(versions[0], versions[1..]);
    }
  }

  /** The bytes of the files of some versions are at most the sum of the versions' sizes, and exactly
      that when no file belongs to two of them. */
  lemma {:induction false} HeldBytes(c: Cache, files: seq<File>, versions: seq<string>)
    ensures Total(AnyHeld(c, files, versions)) <= SizesOf(c, files, versions)
    ensures Distinct(versions) && (forall f, v, w :: f in files && v in versions && w in versions && Holds(c, v, f) && Holds(c, w, f) ==> v == w)
            ==> Total(AnyHeld(c, files, versions)) == SizesOf(c, files, versions)
  {
    if files == [] {
      NoFiles(c, versions);
    } else {
      HeldBytes(c, files[1..], versions);
      OneFileMore(c, files, versions);
      HoldersCount(c, files[0], versions);
      hide Holds, SizesOf, Holders;
      var n := Holders(c, files[0], versions);
      AtLeastOnce(n, files[0].size);
      if exists v :: v in versions && Holds(c, v, files[0]) {
        assert AnyHeld(c, files, versions)[1..] == AnyHeld(c, files[1..], versions);
      }
    }
  }

  lemma AtLeastOnce(n: nat, size: nat)
    ensures n >= 1 ==> n * size >= size
    ensures n == 1 ==> n * size == size
    ensures n == 0 ==> n * size == 0
  {
    if n >= 1 { TimesSum(1, n - 1, size); }
  }

  lemma {:induction false} NoFiles(c: Cache, versions: seq<string>)
    ensures SizesOf(c, [], versions) == 0
  {
    if versions != [] { NoFiles(c, versions[1..]); }
  }

  lemma {:induction false} SizesAre(c: Cache, versions: seq<string>)
    ensures Sizes(c, versions) == SizesOf(c, c.files, versions)
  {
    if versions != [] { SizesAre(c, versions[1..]); }
  }

  lemma {:induction false} DroppedBytes(c: Cache, files: seq<File>, keys: set<string>, versions: seq<string>)
    requires forall f :: f in files && Dropped(c, keys, false, f) ==> exists v :: v in versions && Holds(c, v, f)
    ensures Total(files) <= Total(Kept(c, files, keys, false)) + Total(AnyHeld(c, files, versions))
    ensures (forall f :: f in files ==> (Dropped(c, keys, false, f) <==> exists v :: v in versions && Holds(c, v, f)))
            ==> Total(files) == Total(Kept(c, files, keys, false)) + Total(AnyHeld(c, files, versions))
  {
    if files != [] {
      hide Dropped, Holds;
      assert forall f :: f in files[1..] ==> f in files;
      DroppedBytes(c, files[1..], keys, versions);
      assert Kept(c, files, keys, false) == (if Dropped(c, keys, false, files[0]) then [] else [files[0]]) + Kept(c, files[1..], keys, false);
      OneMoreTotal(files[0], Kept(c, files[1..], keys, false));
      OneMoreTotal(files[0], AnyHeld(c, files[1..], versions));
    }
  }

  lemma OneMoreTotal(f: File, files: seq<File>)
    ensures Total([f] + files) == f.size + Total(files)
    ensures [] + files == files
  {
    assert ([f] + files)[1..] == files;
  }

  lemma {:induction false} ClearKeepsNothing(c: Cache, files: seq<File>, keys: set<string>)
    ensures Kept(c, files, keys, true) == []
  {
    if files != [] { ClearKeepsNothing(c, files[1..], keys); }
  }

  /** Without an age limit, only rows of evicted versions go, and with them all rows of the version. */
  lemma SizeOnlyGone(c: Cache, limits: Limits, v: string)
    requires DistinctKeys(c.rows) && !limits.clear && limits.cutoff.None?
    requires v in Versions(RowsIn(c.rows, Selected(c, limits), true))
    ensures v !in Versions(Remaining(c, limits))
  {
    var gone, left := RowsIn(c.rows, Selected(c, limits), true), Remaining(c, limits);
    var i :| 0 <= i < |gone| && gone[i].version == v;
    assert gone[i] in gone && gone[i] !in left;
    AllRest(c.rows);
    assert gone[i] in Rest(c, limits);
    RowSurvives(c, limits, gone[i]);
    forall j | 0 <= j < |left| ensures left[j].version != v {
      assert left[j] in left;
      RowSurvives(c, limits, left[j]);
    }
  }

  lemma {:induction false} AllRest(rows: seq<Row>)
    ensures RowsIn(rows, {}, false) == rows
  {
    if rows != [] { AllRest(rows[1..]); }
  }

  lemma VersionsDistinct(rows: seq<Row>)
    ensures Distinct(Versions(rows))
  {
  }

  /** Removed and remaining entries add up to all of them, and the reclaimed bytes are never fewer than
      what deletion frees. They are exactly that when everything is cleared, and, if no file belongs
      to two versions, when only a size limit is given. */
  lemma ReportHonest(c: Cache, limits: Limits)
    requires !limits.dryRun
    ensures var after, report := Collected(c, limits), ReportOf(c, limits);
            && report.removed + report.remaining == |c.rows| && report.remaining == |after.rows|
            && Total(c.files) <= Total(after.files) + report.reclaimed
            && (limits.clear ==> Total(c.files) == Total(after.files) + report.reclaimed)
            && (DistinctKeys(c.rows) && PrefixFree(c) && !limits.clear && limits.cutoff.None? ==>
                  Total(c.files) == Total(after.files) + report.reclaimed)
  {
    var keys := Selected(c, limits);
    var gone := RowsIn(c.rows, keys, true);
    var versions := Versions(gone);
    Partitioned(c.rows, keys);
    if limits.clear {
      ClearKeepsNothing(c, c.files, keys);
    } else {
      DroppedBytes(c, c.files, keys, versions);
      HeldBytes(c, c.files, versions);
      SizesAre(c, versions);
      VersionsDistinct(gone);
      RowsInVersions(c.rows, keys, true);
      assert Collected(c, limits).files == Kept(c, c.files, keys, false) && ReportOf(c, limits).reclaimed == Sizes(c, versions);
      assert forall f :: Dropped(c, keys, false, f) <==>
        exists v :: v in versions && v !in Versions(RowsIn(c.rows, keys, false)) && Holds(c, v, f);
      if DistinctKeys(c.rows) && PrefixFree(c) && limits.cutoff.None? {
        forall v | v in versions ensures v !in Versions(RowsIn(c.rows, keys, false)) { SizeOnlyGone(c, limits, v); }
        hide Dropped, Holds, Selected, Versions, RowsIn, Total, Kept, AnyHeld, SizesOf, Sizes, Collected, ReportOf;
      }
    }
  }

  // ---- what the arguments mean --------------------------------------------------------------

  /** Arguments are refused exactly if a limit is not positive, or if clearing and limiting are asked for
      together or neither is. */
  lemma RefusedArguments(a: Arguments)
    ensures !Rejected(a) <==>
            && (a.maxAgeDays.Some? ==> a.maxAgeDays.value > 0.0) && (a.maxSizeMb.Some? ==> a.maxSizeMb.value > 0.0)
            && (if a.clear then a.maxAgeDays.None? && a.maxSizeMb.None? else a.maxAgeDays.Some? || a.maxSizeMb.Some?)
  {
  }

  /** Clearing removes every row. Otherwise a row older than the age limit, or exactly as old, goes, and
      one that is younger stays unless the size limit takes its version. */
  lemma AgeLimitMeans(c: Cache, a: Arguments, now: real, x: Row)
    requires !Rejected(a) && !a.dryRun && DistinctKeys(c.rows) && x in c.rows
    ensures var limits := LimitsOf(a, now);
            x in Collected(c, limits).rows <==>
            && !a.clear
            && (a.maxAgeDays.Some? ==> now - x.created < a.maxAgeDays.value * 86400.0)
            && (a.maxSizeMb.Some? ==> x.version !in SizeEvicted(c, limits))
  {
    var limits := LimitsOf(a, now);
    RowSurvives(c, limits, x);
    RestMeans(c, limits, x);
    hide SizeEvicted, RowsIn;
    assert a.clear || a.maxSizeMb.None? ==> SizeEvicted(c, limits) == [] by {
      NoSizeLimit(c, limits);
    }
  }

  lemma NoSizeLimit(c: Cache, limits: Limits)
    ensures limits.clear || limits.maximum.None? ==> SizeEvicted(c, limits) == []
  {
  }

  lemma RestMeans(c: Cache, limits: Limits, x: Row)
    requires DistinctKeys(c.rows) && x in c.rows
    ensures x in Rest(c, limits) <==> !limits.clear && (limits.cutoff.Some? ==> x.created > limits.cutoff.value)
  {
    var i :| 0 <= i < |c.rows| && c.rows[i] == x;
    if limits.clear {
      assert x.key in AllKeys(c.rows);
    } else if limits.cutoff.Some? {
      if x.key in AgedKeys(c.rows, limits.cutoff.value) {
        var j :| 0 <= j < |c.rows| && c.rows[j].created <= limits.cutoff.value && c.rows[j].key == x.key;
        assert c.rows[j] in c.rows;
      }
    }
  }

  /** The results that a size limit leaves fit the megabytes that were given. */
  lemma SizeLimitMeans(c: Cache, a: Arguments, now: real)
    requires !Rejected(a) && DistinctKeys(c.rows) && a.maxSizeMb.Some?
    ensures var limits := LimitsOf(a, now);
            var left, bytes := Sizes(c, Versions(Remaining(c, limits))), a.maxSizeMb.value * 1048576.0;
            && left as real <= bytes
            && (SizeEvicted(c, limits) != [] ==>
                  (left + Size(c, SizeEvicted(c, limits)[|SizeEvicted(c, limits)| - 1])) as real > bytes)
  {
    var limits := LimitsOf(a, now);
    var evicted, left := SizeEvicted(c, limits), Sizes(c, Versions(Remaining(c, limits)));
    SizeLimitMet(c, limits);
    MaximumIs(a, now);
    hide *;
    FloorBound(a.maxSizeMb.value * 1048576.0, left);
    if evicted != [] { FloorBound(a.maxSizeMb.value * 1048576.0, left + Size(c, evicted[|evicted| - 1])); }
  }

  lemma MaximumIs(a: Arguments, now: real)
    requires !Rejected(a) && a.maxSizeMb.Some?
    ensures !LimitsOf(a, now).clear && LimitsOf(a, now).maximum.Some?
    ensures LimitsOf(a, now).maximum.value == (a.maxSizeMb.value * 1048576.0).Floor
  {
    assert a.maxSizeMb.value * 1024.0 * 1024.0 == a.maxSizeMb.value * 1048576.0;
  }

  lemma FloorBound(x: real, n: int)
    ensures n <= x.Floor <==> n as real <= x
  {
  }

  /** Evicted versions are older than those left, by their oldest rows, or as old and first by name. */
  lemma EvictedAreOlder(c: Cache, limits: Limits, v: string, w: string)
    requires DistinctKeys(c.rows) && !limits.clear && limits.maximum.Some?
    requires v in SizeEvicted(c, limits) && w in Versions(Remaining(c, limits))
    ensures var rest := Rest(c, limits);
            Oldest(rest, v) < Oldest(rest, w) || (Oldest(rest, v) == Oldest(rest, w) && StrLeq(v, w))
  {
    hide *;
    SizeLimitMet(c, limits);
    OlderMeans(Rest(c, limits), v, w);
  }

  lemma OlderMeans(rows: seq<Row>, v: string, w: string)
    ensures OlderLeq(rows, v, w) <==> Oldest(rows, v) < Oldest(rows, w) || (Oldest(rows, v) == Oldest(rows, w) && StrLeq(v, w))
  {
  }

  /** A dry run changes nothing and reports what the real run would. */
  lemma DryRunReports(c: Cache, limits: Limits)
    requires limits.dryRun
    ensures Collected(c, limits) == c && ReportOf(c, limits) == ReportOf(c, limits.(dryRun := false))
  {
    assert Selected(c, limits) == Selected(c, limits.(dryRun := false));
  }
}
