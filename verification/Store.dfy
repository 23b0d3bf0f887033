/** The package format of the local artifact store: staging, sealing and verification. */
module Store {
  import opened Prelude
  import opened Ordering
  import opened Contracts

  /** What a file holds. The store's own documents are kept parsed. */
  datatype Content =
    | Blob(bytes: seq<int>)
    | ManifestFile(manifest: Manifest)
    | Marker(sha: string)
    | OwnerFile(owner: Owner)

  datatype Owner = Owner(host: string, pid: int, token: nat)

  type Files = map<string, Content>

  /** The functions the model knows nothing about: the digest, the size of the store's own
      documents, and whether arbitrary bytes parse as an owner document. */
  datatype Codec = Codec(hash: Content -> string, ownSize: Content -> nat, parseOwner: seq<int> -> Option<Owner>)
  {
    function Size(c: Content): nat {
      match c
      case Blob(bytes) => |bytes|
      case _ => ownSize(c)
    }
  }

  const MANIFEST := "manifest.json"
  const SUCCESS := "_SUCCESS"
  const OWNER := ".staging-owner.json"

  predicate IsReserved(path: string) { path == MANIFEST || path == SUCCESS }

  // ---- descriptors ---------------------------------------------------------

  predicate DistinctPaths(ds: seq<Descriptor>) {
    forall i, j :: 0 <= i < j < |ds| ==> ds[i].path != ds[j].path
  }

  predicate PathLeq(a: Descriptor, b: Descriptor) { StrLeq(a.path, b.path) }

  function IndexOf(ds: seq<Descriptor>, path: string): (r: Option<nat>)
    ensures r.Some? ==> r.value < |ds| && ds[r.value].path == path
    ensures r.None? ==> forall d :: d in ds ==> d.path != path
  {
    if ds == [] then None
    else if ds[0].path == path then Some(0)
    else
      assert forall d :: d in ds ==> d == ds[0] || d in ds[1..];
      match IndexOf(ds[1..], path)
      case Some(i) => Some(i + 1)
      case None => None
  }

  /** `by_path[d.path] = d` on a dictionary kept in insertion order. */
  function Upsert(ds: seq<Descriptor>, d: Descriptor): (r: seq<Descriptor>)
    ensures DistinctPaths(ds) ==> DistinctPaths(r)
    ensures DistinctPaths(ds) ==> forall e :: e in r <==> e == d || (e in ds && e.path != d.path)
  {
    match IndexOf(ds, d.path)
    case Some(i) =>
      var r := ds[i := d];
      assert r[i] == d && forall k :: 0 <= k < |ds| && k != i ==> r[k] == ds[k];
      r
    case None =>
      var r := ds + [d];
      assert r[|ds|] == d && forall k :: 0 <= k < |ds| ==> ds[k] in ds && r[k] == ds[k];
      r
  }

  predicate Conflicts(ds: seq<Descriptor>, d: Descriptor) {
    exists e :: e in ds && e.path == d.path && e != d
  }

  /** Staged descriptors laid over the declared ones; None on a conflict. */
  function Overlay(declared: seq<Descriptor>, staged: seq<Descriptor>): Option<seq<Descriptor>>
    decreases |staged|
  {
    if staged == [] then Some(declared)
    else if Conflicts(declared, staged[0]) then None
    else Overlay(Upsert(declared, staged[0]), staged[1..])
  }

  /** `_merge_descriptors`: None stands for its ValueErrors. */
  function Merged(declared: seq<Descriptor>, staged: seq<Descriptor>, layer: Layer): Option<seq<Descriptor>> {
    if !DistinctPaths(declared) then None
    else if exists d :: d in declared + staged && d.layer != layer then None
    else match Overlay(declared, staged)
      case Some(ds) => Some(SortBy(ds, PathLeq))
      case None => None
  }

  lemma UpsertSame(ds: seq<Descriptor>, d: Descriptor)
    requires DistinctPaths(ds) && !Conflicts(ds, d)
    ensures forall e :: e in Upsert(ds, d) <==> e == d || e in ds
  {
  }

  lemma {:induction false} OverlayFacts(declared: seq<Descriptor>, staged: seq<Descriptor>)
    requires DistinctPaths(declared) && DistinctPaths(staged)
    ensures Overlay(declared, staged).Some? <==>
            forall d, e :: d in declared && e in staged && d.path == e.path ==> d == e
    ensures Overlay(declared, staged).Some? ==>
            && DistinctPaths(Overlay(declared, staged).value)
            && forall d :: d in Overlay(declared, staged).value <==> d in declared || d in staged
    decreases |staged|
  {
    if staged != [] {
      var head, tail := staged[0], staged[1..];
      assert forall e :: e in staged <==> e == head || e in tail;
      assert forall e :: e in tail ==> e.path != head.path by {
        forall e | e in tail ensures e.path != head.path {
          var i :| 0 <= i < |tail| && tail[i] == e;
          assert staged[i + 1] == e;
        }
      }
      if !Conflicts(declared, head) {
        UpsertSame(declared, head);
        var next := Upsert(declared, head);
        assert DistinctPaths(tail) by {
          forall i, j | 0 <= i < j < |tail| ensures tail[i].path != tail[j].path {
            assert staged[i + 1] == tail[i] && staged[j + 1] == tail[j];
          }
        }
        OverlayFacts(next, tail);
      }
    }
  }

  lemma SortedPaths(ds: seq<Descriptor>)
    requires DistinctPaths(ds)
    ensures DistinctPaths(SortBy(ds, PathLeq))
    ensures Ordered(SortBy(ds, PathLeq), PathLeq)
    ensures forall d :: d in SortBy(ds, PathLeq) <==> d in ds
  {
    StrIsTotalPreorder();
    SortOrders(ds, PathLeq);
    SameElements(ds, SortBy(ds, PathLeq));
    var f := (d: Descriptor) => d.path;
    DistinctProjection(ds, SortBy(ds, PathLeq), f);
  }

  /** Merging succeeds exactly when paths are unique, layers agree and no staged file is
      declared differently; the result is the sorted union of both descriptor sets. */
  lemma MergedFacts(declared: seq<Descriptor>, staged: seq<Descriptor>, layer: Layer)
    requires DistinctPaths(staged)
    ensures Merged(declared, staged, layer).Some? <==>
            && DistinctPaths(declared)
            && (forall d :: d in declared || d in staged ==> d.layer == layer)
            && (forall d, e :: d in declared && e in staged && d.path == e.path ==> d == e)
    ensures Merged(declared, staged, layer).Some? ==>
            var ds := Merged(declared, staged, layer).value;
            && DistinctPaths(ds) && Ordered(ds, PathLeq)
            && forall d :: d in ds <==> d in declared || d in staged
  {
    if DistinctPaths(declared) {
      OverlayFacts(declared, staged);
      if Overlay(declared, staged).Some? {
        SortedPaths(Overlay(declared, staged).value);
      }
    }
    assert forall d :: d in declared + staged <==> d in declared || d in staged;
  }

  // ---- what commit checks --------------------------------------------------

  predicate Matches(codec: Codec, files: Files, d: Descriptor)
    requires d.path in files
  {
    codec.Size(files[d.path]) == d.size && codec.hash(files[d.path]) == d.sha
  }

  /** Present and as described, or optional and absent. */
  predicate Checked(codec: Codec, files: Files, d: Descriptor) {
    if d.path in files then Matches(codec, files, d) else !d.required
  }

  /** The committed manifest, or None for each exception before the first write of `commit`. */
  function Validated(codec: Codec, files: Files, m: Manifest, staged: seq<Descriptor>, layer: Layer): Option<Manifest> {
    if m.state != Succeeded then None
    else match Merged(m.artifacts, staged, layer)
      case None => None
      case Some(ds) =>
        if forall d | d in ds :: !IsReserved(d.path) && Checked(codec, files, d) then Some(m.(artifacts := ds))
        else None
  }

  /** Owner dropped, manifest and completion marker written. */
  function Sealed(codec: Codec, files: Files, m: Manifest): Files {
    (files - {OWNER})[MANIFEST := ManifestFile(m)][SUCCESS := Marker(codec.hash(ManifestFile(m)))]
  }

  // ---- the staging area ----------------------------------------------------

  /** One staging directory and the writer's record of it. */
  class StagingArea {
    const namespace: Namespace
    var files: Files
    var manifest: Option<Manifest>
    var staged: seq<Descriptor>

    ghost predicate Valid()
      reads this
    {
      DistinctPaths(staged)
    }

    constructor (namespace: Namespace, owner: Owner)
      ensures Valid() && this.namespace == namespace
      ensures files == map[OWNER := OwnerFile(owner)] && manifest == None && staged == []
    {
      this.namespace := namespace;
      files, manifest, staged := map[OWNER := OwnerFile(owner)], None, [];
    }

    method SetManifest(m: Manifest) returns (ok: bool)
      requires Valid()
      modifies this`manifest
      ensures Valid()
      ensures ok <==> m.runId == namespace.runId && m.layer == namespace.layer
      ensures manifest == if ok then Some(m) else old(manifest)
    {
      if m.runId != namespace.runId {
        return false;
      }
      if m.layer != namespace.layer {
        return false;
      }
      manifest := Some(m);
      return true;
    }

    /** None for a reserved path; otherwise the file and its descriptor are recorded. */
    method WriteBytes(codec: Codec, path: string, content: seq<int>, required: bool, info: string)
      returns (d: Option<Descriptor>)
      requires Valid()
      modifies this`files, this`staged
      ensures Valid()
      ensures d.None? <==> IsReserved(path)
      ensures d.None? ==> files == old(files) && staged == old(staged)
      ensures d.Some? ==> d.value.path == path && d.value.layer == namespace.layer && d.value.required == required
      ensures d.Some? ==> files == old(files)[path := Blob(content)] && staged == Upsert(old(staged), d.value)
      ensures d.Some? ==> Checked(codec, files, d.value)
    {
      if path == MANIFEST || path == SUCCESS {
        return None;
      }
      files := files[path := Blob(content)];
      var descriptor := Descriptor(path, namespace.layer, |content|, codec.hash(Blob(content)), required, info);
      staged := Upsert(staged, descriptor);
      return Some(descriptor);
    }

    /** `commit` up to the rename: None on each exception, else the manifest digest. */
    method Seal(codec: Codec) returns (sha: Option<string>)
      requires Valid()
      modifies this`files, this`manifest
      ensures Valid()
      ensures old(manifest).None? ==> sha.None? && files == old(files)
      ensures old(manifest).Some? ==>
        var committed := Validated(codec, old(files), old(manifest).value, staged, namespace.layer);
        && (committed.None? ==> sha.None? && files == old(files) && manifest == old(manifest))
        && (committed.Some? ==>
              && manifest == committed
              && (sha.Some? <==> SUCCESS !in old(files))
              && (sha.Some? ==> sha.value == codec.hash(ManifestFile(committed.value)))
              && (sha.Some? ==> files == Sealed(codec, old(files), committed.value)))
    {
      if manifest.None? || manifest.value.state != Succeeded {
        return None;
      }
      var merged := MergeDescriptors(manifest.value.artifacts, staged, namespace.layer);
      if merged.None? {
        return None;
      }
      var ds := merged.value;
      var ok := CheckStaged(codec, files, ds);
      if !ok {
        return None;
      }
      var committed := manifest.value.(artifacts := ds);
      manifest := Some(committed);
      files := files - {OWNER};
      files := files[MANIFEST := ManifestFile(committed)];
      var digest := codec.hash(files[MANIFEST]);
      if SUCCESS in files {
        return None;
      }
      files := files[SUCCESS := Marker(digest)];
      return Some(digest);
    }
  }

  method CheckStaged(codec: Codec, files: Files, ds: seq<Descriptor>) returns (ok: bool)
    ensures ok <==> forall d :: d in ds ==> !IsReserved(d.path) && Checked(codec, files, d)
  {
    for i := 0 to |ds|
      invariant forall k :: 0 <= k < i ==> !IsReserved(ds[k].path) && Checked(codec, files, ds[k])
    {
      var d := ds[i];
      assert d in ds;
      if IsReserved(d.path) {
        return false;
      }
      if d.path !in files {
        if d.required {
          return false;
        }
      } else if codec.Size(files[d.path]) != d.size || codec.hash(files[d.path]) != d.sha {
        return false;
      }
    }
    return true;
  }

  method MergeDescriptors(declared: seq<Descriptor>, staged: seq<Descriptor>, layer: Layer)
    returns (r: Option<seq<Descriptor>>)
    ensures r == Merged(declared, staged, layer)
  {
    var paths: set<string> := {};
    for i := 0 to |declared|
      invariant paths == set k | 0 <= k < i :: declared[k].path
      invariant DistinctPaths(declared[..i])
    {
      if declared[i].path in paths {
        return None;
      }
      paths := paths + {declared[i].path};
    }
    assert declared[..|declared|] == declared;
    var all := declared + staged;
    for i := 0 to |all|
      invariant forall k :: 0 <= k < i ==> all[k].layer == layer
    {
      if all[i].layer != layer {
        assert all[i] in declared + staged;
        return None;
      }
    }
    var byPath := declared;
    for i := 0 to |staged|
      invariant Overlay(declared, staged) == Overlay(byPath, staged[i..])
    {
      var d := staged[i];
      assert staged[i..][0] == d && staged[i..][1..] == staged[i + 1..];
      if Conflicts(byPath, d) {
        return None;
      }
      byPath := Upsert(byPath, d);
    }
    return Some(SortBy(byPath, PathLeq));
  }

  // ---- verification --------------------------------------------------------

  datatype Issue =
    | MarkerMissing | ManifestMissing | ManifestInvalid
    | RunIdMismatch | LayerMismatch | KindMismatch | NotSucceeded
    | MarkerMismatch | ManifestHashMismatch | DuplicatePaths
    | ArtifactLayer(path: string) | ArtifactMissing(path: string)
    | SizeMismatch(path: string) | HashMismatch(path: string)

  datatype Report = Report(errors: seq<Issue>, warnings: seq<Issue>, checked: seq<string>)

  /** What a verified package is, without reference to how it is checked. */
  predicate Intact(codec: Codec, files: Files, ref: ManifestRef) {
    && SUCCESS in files && files[SUCCESS] == Marker(ref.sha)
    && MANIFEST in files && files[MANIFEST].ManifestFile?
    && codec.hash(files[MANIFEST]) == ref.sha
    && var m := files[MANIFEST].manifest;
    && m.runId == ref.runId && m.layer == m.kind == ref.layer && m.state == Succeeded
    && DistinctPaths(m.artifacts)
    && forall i | 0 <= i < |m.artifacts| ::
         m.artifacts[i].layer == ref.layer &&
         (m.artifacts[i].required ==> m.artifacts[i].path in files && Matches(codec, files, m.artifacts[i]))
  }

  /** None stands for the ValueError a reserved artifact path raises. */
  method Verify(codec: Codec, files: Files, ref: ManifestRef) returns (report: Option<Report>)
    ensures report.None? <==>
            && MANIFEST in files && files[MANIFEST].ManifestFile?
            && exists d :: d in files[MANIFEST].manifest.artifacts && IsReserved(d.path)
    ensures report.Some? ==> (report.value.errors == [] <==> Intact(codec, files, ref))
    ensures report.Some? && report.value.errors == [] ==>
            forall d :: d in files[MANIFEST].manifest.artifacts ==>
              (d.path in report.value.checked <==> d.path in files)
  {
    var errors: seq<Issue>, warnings: seq<Issue>, checked: seq<string> := [], [], [];
    var anchored: Option<string> := None;
    if SUCCESS in files && files[SUCCESS].Marker? {
      anchored := Some(files[SUCCESS].sha);
    } else {
      errors := errors + [MarkerMissing];
    }
    if MANIFEST !in files {
      return Some(Report(errors + [ManifestMissing], warnings, checked));
    }
    if !files[MANIFEST].ManifestFile? {
      return Some(Report(errors + [ManifestInvalid], warnings, checked));
    }
    var m := files[MANIFEST].manifest;
    if m.runId != ref.runId { errors := errors + [RunIdMismatch]; }
    if m.layer != ref.layer { errors := errors + [LayerMismatch]; }
    if m.kind != ref.layer { errors := errors + [KindMismatch]; }
    if m.state != Succeeded { errors := errors + [NotSucceeded]; }
    if anchored.Some? && anchored.value != ref.sha { errors := errors + [MarkerMismatch]; }
    if codec.hash(files[MANIFEST]) != ref.sha { errors := errors + [ManifestHashMismatch]; }
    if !DistinctPaths(m.artifacts) { errors := errors + [DuplicatePaths]; }
    ghost var header := errors;
    for i := 0 to |m.artifacts|
      invariant forall k :: 0 <= k < i ==> !IsReserved(m.artifacts[k].path)
      invariant errors == [] <==> header == [] && forall k :: 0 <= k < i ==>
        m.artifacts[k].layer == ref.layer &&
        (m.artifacts[k].required ==> m.artifacts[k].path in files && Matches(codec, files, m.artifacts[k]))
      invariant forall p :: p in checked <==> p in files && exists k :: 0 <= k < i && m.artifacts[k].path == p
    {
      var d := m.artifacts[i];
      if d.layer != ref.layer { errors := errors + [ArtifactLayer(d.path)]; }
      if IsReserved(d.path) {
        assert d in m.artifacts;
        return None;
      }
      if d.path !in files {
        if d.required {
          errors := errors + [ArtifactMissing(d.path)];
        } else {
          warnings := warnings + [ArtifactMissing(d.path)];
        }
        continue;
      }
      checked := checked + [d.path];
      var issues: seq<Issue> := [];
      if codec.Size(files[d.path]) != d.size { issues := issues + [SizeMismatch(d.path)]; }
      if codec.hash(files[d.path]) != d.sha { issues := issues + [HashMismatch(d.path)]; }
      if d.required {
        errors := errors + issues;
      } else {
        warnings := warnings + issues;
      }
    }
    return Some(Report(errors, warnings, checked));
  }

  // ---- what commit publishes verifies, with one exception --------------------

  predicate OwnerArtifactRequired(m: Manifest) {
    exists d :: d in m.artifacts && d.path == OWNER && d.required
  }

  /** A staged package of namespace `ns` that lacks at most the owner document. */
  predicate WellSealed(codec: Codec, files: Files, ns: Namespace, m: Manifest) {
    && SUCCESS in files && files[SUCCESS] == Marker(codec.hash(ManifestFile(m)))
    && MANIFEST in files && files[MANIFEST] == ManifestFile(m)
    && OWNER !in files
    && m.runId == ns.runId && m.layer == m.kind == ns.layer && m.state == Succeeded
    && DistinctPaths(m.artifacts)
    && forall d :: d in m.artifacts ==>
         d.layer == ns.layer && !IsReserved(d.path) && (d.path != OWNER ==> Checked(codec, files, d))
  }

  function RefOf(codec: Codec, ns: Namespace, m: Manifest): ManifestRef {
    ManifestRef(ns.layer, ns.runId, codec.hash(ManifestFile(m)))
  }

  lemma SealedIsWellSealed(codec: Codec, files: Files, m: Manifest, staged: seq<Descriptor>, ns: Namespace)
    requires m.runId == ns.runId && m.layer == m.kind == ns.layer && DistinctPaths(staged)
    requires Validated(codec, files, m, staged, ns.layer).Some?
    ensures var committed := Validated(codec, files, m, staged, ns.layer).value;
            WellSealed(codec, Sealed(codec, files, committed), ns, committed)
  {
    MergedFacts(m.artifacts, staged, ns.layer);
  }

  /** A sealed package verifies unless a required artifact sits where the owner document was. */
  lemma SealedVerifies(codec: Codec, files: Files, ns: Namespace, m: Manifest)
    requires WellSealed(codec, files, ns, m)
    ensures Intact(codec, files, RefOf(codec, ns, m)) <==> !OwnerArtifactRequired(m)
  {
    if !OwnerArtifactRequired(m) {
      forall i | 0 <= i < |m.artifacts|
        ensures m.artifacts[i].layer == ns.layer
        ensures m.artifacts[i].required ==>
          m.artifacts[i].path in files && Matches(codec, files, m.artifacts[i])
      {
        assert m.artifacts[i] in m.artifacts;
      }
    } else {
      var d :| d in m.artifacts && d.path == OWNER && d.required;
      var i :| 0 <= i < |m.artifacts| && m.artifacts[i] == d;
    }
  }

  /** Whatever the hash, a package verifies under one reference only, and only a finished manifest of the
      package's own layer that names no path twice. */
  lemma OneReference(codec: Codec, files: Files, ref: ManifestRef, other: ManifestRef)
    requires Intact(codec, files, ref)
    ensures Intact(codec, files, other) <==> other == ref
    ensures var m := files[MANIFEST].manifest;
            m.state == Succeeded && m.kind == m.layer && forall i, j :: 0 <= i < j < |m.artifacts| ==> m.artifacts[i].path != m.artifacts[j].path
  {
  }

  // ---- tamper evidence -------------------------------------------------------

  /** A required artifact that is gone, of another size or of another hash is always an error. */
  lemma AlteredIsReported(codec: Codec, files: Files, ref: ManifestRef, d: Descriptor)
    requires MANIFEST in files && files[MANIFEST].ManifestFile?
    requires d in files[MANIFEST].manifest.artifacts && d.required
    requires d.path in files ==> codec.hash(files[d.path]) != d.sha || codec.Size(files[d.path]) != d.size
    ensures !Intact(codec, files, ref)
  {
    var artifacts := files[MANIFEST].manifest.artifacts;
    var i :| 0 <= i < |artifacts| && artifacts[i] == d;
  }

  /** `commit` refuses a present artifact of another size or of another hash, required or not. */
  lemma AlteredIsNotSealed(codec: Codec, files: Files, m: Manifest, staged: seq<Descriptor>, layer: Layer, d: Descriptor)
    requires Validated(codec, files, m, staged, layer).Some?
    requires d in Validated(codec, files, m, staged, layer).value.artifacts
    ensures if d.path in files then codec.hash(files[d.path]) == d.sha && codec.Size(files[d.path]) == d.size else !d.required
    ensures m.state == Succeeded && Validated(codec, files, m, staged, layer).value.state == Succeeded
  {
  }

  /** Different contents have different hashes. */
  ghost predicate Injective(codec: Codec) {
    forall a, b :: codec.hash(a) == codec.hash(b) ==> a == b
  }

  /** Both have the file, and it is the same. */
  predicate SameAt(a: Files, b: Files, path: string) {
    path in a && path in b && a[path] == b[path]
  }

  /** Tamper evidence: where hashes do not collide, a copy of a package that verifies does so too if and
      only if it has the same marker, the same manifest and the same content at every required path. */
  lemma TamperEvident(codec: Codec, files: Files, copy: Files, ref: ManifestRef)
    requires Injective(codec) && Intact(codec, files, ref)
    ensures Intact(codec, copy, ref) <==>
            && SameAt(files, copy, SUCCESS) && SameAt(files, copy, MANIFEST)
            && forall d :: d in files[MANIFEST].manifest.artifacts && d.required ==> SameAt(files, copy, d.path)
  {
    var artifacts := files[MANIFEST].manifest.artifacts;
    if Intact(codec, copy, ref) {
      forall d | d in artifacts && d.required ensures SameAt(files, copy, d.path) {
        var i :| 0 <= i < |artifacts| && artifacts[i] == d;
      }
    }
    if && SameAt(files, copy, SUCCESS) && SameAt(files, copy, MANIFEST)
       && forall d :: d in artifacts && d.required ==> SameAt(files, copy, d.path) {
      forall i | 0 <= i < |artifacts|
        ensures artifacts[i].required ==> artifacts[i].path in copy && Matches(codec, copy, artifacts[i])
      {
        assert artifacts[i].required ==> SameAt(files, copy, artifacts[i].path);
      }
    }
  }
}
