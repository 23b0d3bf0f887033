/** Reusing verified packages across attempts: the candidate scan, the planner and the executor. */
module Resume {
  import opened Prelude
  import opened Ordering
  import opened Contracts
  import opened Store

  // ---- the artifact root ------------------------------------------------------------------

  /** The package directories of each layer in directory order, their contents and their times. */
  type Packages = map<Namespace, Files>

  datatype Disk = Disk(packages: Packages, listing: Layer -> seq<string>, stamp: (Layer, string) -> int)

  ghost predicate Listed(disk: Disk) {
    forall layer: Layer ::
      && Distinct(disk.listing(layer))
      && forall name :: name in disk.listing(layer) <==> Namespace(layer, name) in disk.packages
  }

  /** `verify` reports no error and does not raise. */
  predicate Loads(codec: Codec, packages: Packages, ref: ManifestRef) {
    && Namespace(ref.layer, ref.runId) in packages
    && var files := packages[Namespace(ref.layer, ref.runId)];
    && Intact(codec, files, ref)
    && forall i | 0 <= i < |files[MANIFEST].manifest.artifacts| :: !IsReserved(files[MANIFEST].manifest.artifacts[i].path)
  }

  function ManifestAt(codec: Codec, packages: Packages, ref: ManifestRef): Manifest
    requires Loads(codec, packages, ref)
  {
    packages[Namespace(ref.layer, ref.runId)][MANIFEST].manifest
  }

  /** `get_manifest_ref` followed by `load_manifest`: None where either raises. */
  function Load(codec: Codec, packages: Packages, ns: Namespace): (r: Option<ManifestRef>)
    ensures r.Some? ==> Loads(codec, packages, r.value) && r.value.layer == ns.layer && r.value.runId == ns.runId
  {
    if !IsSafeId(ns.runId) || ns !in packages then None
    else
      var files := packages[ns];
      if SUCCESS !in files || !files[SUCCESS].Marker? then None
      else
        var ref := ManifestRef(ns.layer, ns.runId, files[SUCCESS].sha);
        if Loads(codec, packages, ref) then Some(ref) else None
  }

  /** A manifest that lists an artifact at a reserved path never loads. */
  lemma ReservedNeverLoads(codec: Codec, packages: Packages, ref: ManifestRef, d: Descriptor)
    requires Namespace(ref.layer, ref.runId) in packages
    requires var files := packages[Namespace(ref.layer, ref.runId)];
             MANIFEST in files && files[MANIFEST].ManifestFile? && d in files[MANIFEST].manifest.artifacts
    requires IsReserved(d.path)
    ensures !Loads(codec, packages, ref)
  {
    var artifacts := packages[Namespace(ref.layer, ref.runId)][MANIFEST].manifest.artifacts;
    var i :| 0 <= i < |artifacts| && artifacts[i] == d;
    hide Intact, IsReserved;
  }

  /** What commit has sealed and published loads under the reference that commit returned, unless it requires
      an artifact at the owner document's path. */
  lemma SealedLoads(codec: Codec, packages: Packages, ns: Namespace, m: Manifest)
    requires ns in packages && WellSealed(codec, packages[ns], ns, m)
    ensures Loads(codec, packages, RefOf(codec, ns, m)) <==> !OwnerArtifactRequired(m)
  {
    var ref := RefOf(codec, ns, m);
    SealedVerifies(codec, packages[ns], ns, m);
    assert Namespace(ref.layer, ref.runId) == ns;
    hide Intact, OwnerArtifactRequired;
    forall i | 0 <= i < |m.artifacts| ensures !IsReserved(m.artifacts[i].path) { assert m.artifacts[i] in m.artifacts; }
  }

  /** `reuse_fingerprint or layer_fingerprint` */
  function Identity(m: Manifest): string {
    if m.reuseFingerprint.Some? && m.reuseFingerprint.value != "" then m.reuseFingerprint.value else m.layerFingerprint
  }

  /** An empty reuse fingerprint counts as none. */
  lemma IdentityMeans(m: Manifest, identity: string)
    ensures Identity(m) == identity <==>
            || (m.reuseFingerprint == Some(identity) && identity != "")
            || ((m.reuseFingerprint == None || m.reuseFingerprint == Some("")) && m.layerFingerprint == identity)
  {
  }

  // ---- find_reusable ------------------------------------------------------------------------

  datatype Query = Query(expected: string, layer: Layer, upstreams: seq<ManifestRef>, preferred: string, allowCross: bool)

  /** `Broken` is the error an invalid preferred package raises. */
  datatype Found = Nothing | Match(ref: ManifestRef) | Broken

  /** The sort key `(name != preferred, -mtime, name)` */
  predicate ScanLeq(stamp: (Layer, string) -> int, q: Query, a: string, b: string) {
    a == q.preferred || (b != q.preferred &&
      (stamp(q.layer, a) > stamp(q.layer, b) ||
       (stamp(q.layer, a) == stamp(q.layer, b) && StrLeq(a, b))))
  }

  function ScanOrder(stamp: (Layer, string) -> int, q: Query): (string, string) -> bool {
    (a: string, b: string) => ScanLeq(stamp, q, a, b)
  }

  predicate Eligible(q: Query, name: string) { q.allowCross || name == q.preferred }

  /** A candidate that loads and has the expected identity and exactly the expected parents. */
  predicate Usable(codec: Codec, packages: Packages, q: Query, name: string) {
    var ref := Load(codec, packages, Namespace(q.layer, name));
    && Eligible(q, name) && ref.Some?
    && Identity(ManifestAt(codec, packages, ref.value)) == q.expected
    && ManifestAt(codec, packages, ref.value).upstream == q.upstreams
  }

  /** What the loop makes of one candidate: None where it goes on. */
  function Consider(codec: Codec, packages: Packages, q: Query, name: string): Option<Found> {
    if !Eligible(q, name) then None
    else
      var ref := Load(codec, packages, Namespace(q.layer, name));
      if ref.None? then if name == q.preferred then Some(Broken) else None
      else if Identity(ManifestAt(codec, packages, ref.value)) != q.expected then None
      else if ManifestAt(codec, packages, ref.value).upstream != q.upstreams then None
      else Some(Match(ref.value))
  }

  function Scan(codec: Codec, packages: Packages, q: Query, names: seq<string>): Found {
    if names == [] then Nothing
    else match Consider(codec, packages, q, names[0])
      case Some(found) => found
      case None => Scan(codec, packages, q, names[1..])
  }

  function Find(codec: Codec, disk: Disk, q: Query): Found {
    Scan(codec, disk.packages, q, SortBy(disk.listing(q.layer), ScanOrder(disk.stamp, q)))
  }

  /** `find_reusable` */
  method FindReusable(codec: Codec, disk: Disk, q: Query) returns (found: Found)
    ensures found == Find(codec, disk, q)
  {
    var candidates := SortBy(disk.listing(q.layer), ScanOrder(disk.stamp, q));
    hide Load, Identity, ManifestAt;
    for i := 0 to |candidates|
      invariant Scan(codec, disk.packages, q, candidates) == Scan(codec, disk.packages, q, candidates[i..])
    {
      var name := candidates[i];
      assert candidates[i..][0] == name && candidates[i..][1..] == candidates[i + 1..];
      if !q.allowCross && name != q.preferred {
        continue;
      }
      var ref := Load(codec, disk.packages, Namespace(q.layer, name));
      if ref.None? {
        if name == q.preferred {
          return Broken;
        }
        continue;
      }
      var manifest := ManifestAt(codec, disk.packages, ref.value);
      if Identity(manifest) != q.expected {
        continue;
      }
      if manifest.upstream != q.upstreams {
        continue;
      }
      return Match(ref.value);
    }
    return Nothing;
  }

  lemma ScanOrderIsTotalPreorder(stamp: (Layer, string) -> int, q: Query)
    ensures TotalPreorder(ScanOrder(stamp, q))
  {
    StrIsTotalPreorder();
    var leq := ScanOrder(stamp, q);
    forall a, b ensures leq(a, b) || leq(b, a) {
      assert StrLeq(a, b) || StrLeq(b, a);
    }
    forall a, b, c | leq(a, b) && leq(b, c) ensures leq(a, c) {
      assert StrLeq(a, b) && StrLeq(b, c) ==> StrLeq(a, c);
    }
  }

  lemma ScanOrderAntisymmetric(stamp: (Layer, string) -> int, q: Query, names: seq<string>)
    ensures Antisymmetric(names, ScanOrder(stamp, q))
  {
    var leq := ScanOrder(stamp, q);
    forall a, b | a in names && b in names && leq(a, b) && leq(b, a) ensures a == b {
      if a != q.preferred && b != q.preferred { StrLeqAntisymmetric(a, b); }
    }
  }

  /** The order in which the directory lists its packages makes no difference. */
  lemma ListingOrderIrrelevant(codec: Codec, disk: Disk, q: Query, listing: Layer -> seq<string>)
    requires multiset(listing(q.layer)) == multiset(disk.listing(q.layer))
    ensures Find(codec, disk.(listing := listing), q) == Find(codec, disk, q)
  {
    ScanOrderIsTotalPreorder(disk.stamp, q);
    ScanOrderAntisymmetric(disk.stamp, q, listing(q.layer));
    hide ScanOrder, Scan;
    SortOfPermutation(listing(q.layer), disk.listing(q.layer), ScanOrder(disk.stamp, q));
  }

  ghost predicate FirstAt(codec: Codec, packages: Packages, q: Query, names: seq<string>, found: Found, i: int) {
    && 0 <= i < |names| && Consider(codec, packages, q, names[i]) == Some(found)
    && forall k :: 0 <= k < i ==> Consider(codec, packages, q, names[k]).None?
  }

  lemma {:induction false} ScanMeans(codec: Codec, packages: Packages, q: Query, names: seq<string>)
    ensures var r := Scan(codec, packages, q, names);
            && (r.Nothing? <==> forall i :: 0 <= i < |names| ==> Consider(codec, packages, q, names[i]).None?)
            && (!r.Nothing? ==> exists i :: FirstAt(codec, packages, q, names, r, i))
  {
    hide Consider;
    if names != [] && Consider(codec, packages, q, names[0]).None? {
      ScanMeans(codec, packages, q, names[1..]);
      var r := Scan(codec, packages, q, names[1..]);
      assert forall i :: 0 < i < |names| ==> names[i] == names[1..][i - 1];
      if r.Nothing? {
      } else {
        var i :| FirstAt(codec, packages, q, names[1..], r, i);
        assert FirstAt(codec, packages, q, names, r, i + 1);
      }
    } else if names != [] {
      var r := Scan(codec, packages, q, names);
      assert FirstAt(codec, packages, q, names, r, 0);
      if r.Nothing? { ConsiderMeans(codec, packages, q, names[0]); }
    }
  }

  lemma ConsiderMeans(codec: Codec, packages: Packages, q: Query, name: string)
    ensures var c := Consider(codec, packages, q, name);
            && (c == Some(Broken) <==> name == q.preferred && Load(codec, packages, Namespace(q.layer, name)).None?)
            && ((c.Some? && c.value.Match?) <==> Usable(codec, packages, q, name))
            && (c.Some? && c.value.Match? ==> Load(codec, packages, Namespace(q.layer, name)) == Some(c.value.ref))
            && c != Some(Nothing)
  {
    hide Load, Identity, ManifestAt;
  }

  predicate PreferredBroken(codec: Codec, disk: Disk, q: Query) {
    q.preferred in disk.listing(q.layer) && Load(codec, disk.packages, Namespace(q.layer, q.preferred)).None?
  }

  /** What the scan returns: an error exactly when the preferred package is there and invalid;
      otherwise the first usable candidate (the preferred one, then the newest, then by name); and
      nothing exactly when there is no usable candidate. Other invalid candidates never matter. */
  lemma FindMeans(codec: Codec, disk: Disk, q: Query)
    ensures var r := Find(codec, disk, q);
            && (r.Broken? <==> PreferredBroken(codec, disk, q))
            && (r.Nothing? <==> !PreferredBroken(codec, disk, q)
                                && forall n :: n in disk.listing(q.layer) ==> !Usable(codec, disk.packages, q, n))
            && (r.Match? ==> FirstUsable(codec, disk, q, r.ref))
  {
    var names := SortBy(disk.listing(q.layer), ScanOrder(disk.stamp, q));
    var r := Find(codec, disk, q);
    ScanMeans(codec, disk.packages, q, names);
    ScanOrderIsTotalPreorder(disk.stamp, q);
    SortOrders(disk.listing(q.layer), ScanOrder(disk.stamp, q));
    forall n ensures n in names <==> n in disk.listing(q.layer) {
      assert n in multiset(names) <==> n in multiset(disk.listing(q.layer));
    }
    hide Find, Scan, ScanOrder, Load, Usable, Consider, FirstAt, FirstUsable, PreferredBroken, TotalPreorder;
    if r.Nothing? {
      NothingFound(codec, disk, q, names);
    } else {
      var i :| FirstAt(codec, disk.packages, q, names, r, i);
      FoundAt(codec, disk, q, names, r, i);
    }
  }

  lemma NothingFound(codec: Codec, disk: Disk, q: Query, names: seq<string>)
    requires forall n :: n in names <==> n in disk.listing(q.layer)
    requires forall i :: 0 <= i < |names| ==> Consider(codec, disk.packages, q, names[i]).None?
    ensures !PreferredBroken(codec, disk, q)
    ensures forall n :: n in disk.listing(q.layer) ==> !Usable(codec, disk.packages, q, n)
  {
    hide Load, Usable, Consider;
    forall n | n in disk.listing(q.layer)
      ensures !Usable(codec, disk.packages, q, n)
      ensures n == q.preferred ==> Load(codec, disk.packages, Namespace(q.layer, n)).Some?
    {
      var i :| 0 <= i < |names| && names[i] == n;
      ConsiderMeans(codec, disk.packages, q, n);
    }
  }

  lemma FoundAt(codec: Codec, disk: Disk, q: Query, names: seq<string>, r: Found, i: int)
    requires Ordered(names, ScanOrder(disk.stamp, q)) && FirstAt(codec, disk.packages, q, names, r, i)
    requires forall n :: n in names <==> n in disk.listing(q.layer)
    ensures !r.Nothing? && (r.Broken? <==> PreferredBroken(codec, disk, q))
    ensures r.Match? ==> FirstUsable(codec, disk, q, r.ref)
  {
    ConsiderMeans(codec, disk.packages, q, names[i]);
    assert names[i] in names;
    hide Load, Usable, Consider;
    if r.Match? {
      forall n | n in disk.listing(q.layer)
        ensures Usable(codec, disk.packages, q, n) ==> ScanLeq(disk.stamp, q, names[i], n)
        ensures n == q.preferred ==> Load(codec, disk.packages, Namespace(q.layer, n)).Some?
      {
        var k :| 0 <= k < |names| && names[k] == n;
        ConsiderMeans(codec, disk.packages, q, n);
        if k > i { assert ScanOrder(disk.stamp, q)(names[i], names[k]); }
        if k == i { assert StrLeq(n, n) by { LexTotal(Codes(n), Codes(n)); } }
      }
    }
  }

  /** The reference belongs to a usable candidate that no usable candidate comes before. */
  ghost predicate FirstUsable(codec: Codec, disk: Disk, q: Query, ref: ManifestRef) {
    && ref.runId in disk.listing(q.layer) && Usable(codec, disk.packages, q, ref.runId)
    && Load(codec, disk.packages, Namespace(q.layer, ref.runId)) == Some(ref)
    && forall n :: n in disk.listing(q.layer) && Usable(codec, disk.packages, q, n) ==> ScanLeq(disk.stamp, q, ref.runId, n)
  }
}
