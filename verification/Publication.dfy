/** Publication as a transition system: any number of committers, in any number of processes on
    any hosts, run `begin`, the writes and every sub-step of `commit` in any interleaving;
    processes die between any two steps; recovery sweeps run at any time. */
module Publication {
  import opened Prelude
  import opened Contracts
  import opened Store

  /** A name in the `runs` directory of a layer: a package, a staging area or a commit lock. */
  datatype Slot = Slot(layer: Layer, name: string)

  datatype Dir = Dir(files: Files, mtime: int)

  datatype Proc = Proc(host: string, pid: int)

  /** Where a committer stands. `m` is the manifest being committed, `sha` its digest. */
  datatype Phase =
    | Begun
    | Open
    | Checked(m: Manifest)
    | Unowned(m: Manifest)
    | Described(m: Manifest)
    | Marked(m: Manifest, sha: string)
    | LockMade(m: Manifest, sha: string)
    | Locked(m: Manifest, sha: string)
    | Clear(m: Manifest, sha: string)
    | Published(m: Manifest, sha: string)
    | Done(m: Manifest, ref: ManifestRef)
    | Aborting
    | Unlocking

  datatype Committer = Committer(
    proc: Proc,
    ns: Namespace,
    staging: string,
    token: nat,
    phase: Phase,
    manifest: Option<Manifest>,
    staged: seq<Descriptor>,
    crashed: bool)

  datatype World = World(
    dirs: map<Slot, Dir>,
    committers: map<nat, Committer>,
    running: set<Proc>,
    everStaged: set<Slot>,
    now: int)

  datatype Step =
    | Tick(seconds: nat)
    | Begin(c: nat, proc: Proc, ns: Namespace, suffix: string)
    | WriteOwner(c: nat)
    | WriteArtifact(c: nat, path: string, bytes: seq<int>, required: bool, info: string)
    | SetManifest(c: nat, manifest: Manifest)
    | Check(c: nat)
    | DropOwner(c: nat)
    | WriteManifest(c: nat)
    | WriteMarker(c: nat)
    | MakeLock(c: nat)
    | OwnLock(c: nat)
    | CheckAbsent(c: nat)
    | Rename(c: nat)
    | RemoveStaging(c: nat)
    | ReleaseLock(c: nat)
    | Crash(proc: Proc)
    | Sweep(slot: Slot, host: string, at: int, retainStaging: int, staleLock: int)

  const LOCK_OWNER := "owner.json"

  // ---- names ---------------------------------------------------------------

  /** `tempfile` appends eight characters of its own alphabet, which has no dash. */
  predicate IsSuffix(suffix: string) {
    |suffix| == 8 && forall i :: 0 <= i < 8 ==> suffix[i] != '-'
  }

  function StagingName(runId: string, suffix: string): string { "." + runId + ".tmp-" + suffix }

  function LockName(runId: string): string { "." + runId + ".commit-lock" }

  /** The names `recover_abandoned` looks at: it does not ask whether they start with a dot. */
  predicate Sweepable(name: string) {
    Contains(name, ".tmp-") || EndsIn(name, ".commit-lock")
  }

  function StagingSlot(c: Committer): Slot { Slot(c.ns.layer, c.staging) }

  function LockSlot(c: Committer): Slot { Slot(c.ns.layer, LockName(c.ns.runId)) }

  function Dest(c: Committer): Slot { Slot(c.ns.layer, c.ns.runId) }

  lemma LockIsNotStaging(runId: string, other: string, suffix: string)
    requires IsSuffix(suffix)
    ensures LockName(runId) != StagingName(other, suffix)
  {
    var a, b := LockName(runId), StagingName(other, suffix);
    assert a[|a| - 5] == '-';
    assert b[|b| - 5] == suffix[3];
  }

  // ---- the file system -----------------------------------------------------

  function FilesAt(w: World, slot: Slot): Files {
    if slot in w.dirs then w.dirs[slot].files else map[]
  }

  /** Create or replace a file through a rename, creating the directory if it is gone. */
  function Put(w: World, slot: Slot, name: string, content: Content): World {
    w.(dirs := w.dirs[slot := Dir(FilesAt(w, slot)[name := content], w.now)])
  }

  /** Write a file in place: the directory's own time moves only for a new name. */
  function Overwrite(w: World, slot: Slot, name: string, content: Content): World {
    if name in FilesAt(w, slot)
    then w.(dirs := w.dirs[slot := Dir(w.dirs[slot].files[name := content], w.dirs[slot].mtime)])
    else Put(w, slot, name, content)
  }

  function Remove(w: World, slot: Slot): World { w.(dirs := w.dirs - {slot}) }

  function Unlink(w: World, slot: Slot, name: string): World {
    if name in FilesAt(w, slot) then w.(dirs := w.dirs[slot := Dir(w.dirs[slot].files - {name}, w.now)]) else w
  }

  /** POSIX rename of a directory: refused onto a directory that is not empty. */
  predicate CanRename(w: World, from: Slot, to: Slot) {
    from in w.dirs && FilesAt(w, to) == map[]
  }

  function Move(w: World, from: Slot, to: Slot): World
    requires from in w.dirs
  {
    w.(dirs := (w.dirs - {from})[to := w.dirs[from]])
  }

  function Goto(w: World, c: nat, phase: Phase): World
    requires c in w.committers
  {
    w.(committers := w.committers[c := w.committers[c].(phase := phase)])
  }

  // ---- recovery ------------------------------------------------------------

  function OwnerOf(codec: Codec, files: Files, name: string): Option<Owner> {
    if name !in files then None
    else match files[name]
      case OwnerFile(owner) => Some(owner)
      case Blob(bytes) => codec.parseOwner(bytes)
      case _ => None
  }

  /** `_owner_is_dead`: missing metadata counts as dead, another host's owner never does. */
  predicate OwnerIsDead(owner: Option<Owner>, host: string, running: set<Proc>) {
    match owner
    case None => true
    case Some(o) => o.host == host && o.pid > 0 && Proc(host, o.pid) !in running
  }

  /** The owner document a sweep would look for under this name. */
  function OwnerDocument(name: string): string { if Contains(name, ".tmp-") then OWNER else LOCK_OWNER }

  /** Whether no sweep ever takes the directory: its name does not match, or its owner document
      names a process id that no sweep calls dead. */
  predicate Lasting(codec: Codec, files: Files, name: string) {
    !Sweepable(name) ||
    match OwnerOf(codec, files, OwnerDocument(name))
    case Some(owner) => owner.pid <= 0
    case None => false
  }

  lemma LastingIsNotSwept(codec: Codec, w: World, s: Step)
    requires s.Sweep? && s.slot in w.dirs && Lasting(codec, w.dirs[s.slot].files, s.slot.name)
    ensures !Swept(codec, w, s)
  {
  }

  /** Whether a sweep by `host` that read the clock at `at` removes this directory. */
  predicate Swept(codec: Codec, w: World, s: Step)
    requires s.Sweep?
  {
    && s.slot in w.dirs && s.at <= w.now
    && var d := w.dirs[s.slot];
    if Contains(s.slot.name, ".tmp-") then
      s.at - d.mtime >= s.retainStaging && OwnerIsDead(OwnerOf(codec, d.files, OWNER), s.host, w.running)
    else
      && EndsIn(s.slot.name, ".commit-lock")
      && s.at - d.mtime >= s.staleLock && OwnerIsDead(OwnerOf(codec, d.files, LOCK_OWNER), s.host, w.running)
  }

  // ---- one step ------------------------------------------------------------

  predicate Live(w: World, c: nat) { c in w.committers && !w.committers[c].crashed }

  function ExecCommitter(codec: Codec, w: World, s: Step): World
    requires !s.Tick? && !s.Begin? && !s.Crash? && !s.Sweep? && Live(w, s.c)
  {
    var me := w.committers[s.c];
    var dir, lock, dest := StagingSlot(me), LockSlot(me), Dest(me);
    match s
    case WriteOwner(c) =>
      if me.phase.Begun?
      then Goto(Put(w, dir, OWNER, OwnerFile(Owner(me.proc.host, me.proc.pid, me.token))), c, Open) else w
    case WriteArtifact(c, path, bytes, required, info) =>
      if me.phase.Open? && !IsReserved(path) then
        var d := Descriptor(path, me.ns.layer, |bytes|, codec.hash(Blob(bytes)), required, info);
        Overwrite(w, dir, path, Blob(bytes)).(
          committers := w.committers[c := me.(staged := Upsert(me.staged, d))])
      else w
    case SetManifest(c, m) =>
      if me.phase.Open? && m.runId == me.ns.runId && m.layer == me.ns.layer && m.kind == m.layer
      then w.(committers := w.committers[c := me.(manifest := Some(m))]) else w
    case Check(c) =>
      if me.phase.Open? && me.manifest.Some? then
        match Validated(codec, FilesAt(w, dir), me.manifest.value, me.staged, me.ns.layer)
        case Some(m) => w.(committers := w.committers[c := me.(manifest := Some(m), phase := Checked(m))])
        case None => w
      else w
    case DropOwner(c) =>
      if me.phase.Checked? then Goto(Unlink(w, dir, OWNER), c, Unowned(me.phase.m)) else w
    case WriteManifest(c) =>
      if me.phase.Unowned?
      then Goto(Put(w, dir, MANIFEST, ManifestFile(me.phase.m)), c, Described(me.phase.m)) else w
    case WriteMarker(c) =>
      if me.phase.Described? then
        var files := FilesAt(w, dir);
        if MANIFEST !in files || SUCCESS in files then Goto(w, c, Open)
        else
          var sha := codec.hash(files[MANIFEST]);
          Goto(Put(w, dir, SUCCESS, Marker(sha)), c, Marked(me.phase.m, sha))
      else w
    case MakeLock(c) =>
      if me.phase.Marked? then
        if lock in w.dirs then Goto(w, c, Open)
        else Goto(w.(dirs := w.dirs[lock := Dir(map[], w.now)]), c, LockMade(me.phase.m, me.phase.sha))
      else w
    case OwnLock(c) =>
      if me.phase.LockMade?
      then Goto(Put(w, lock, LOCK_OWNER, OwnerFile(Owner(me.proc.host, me.proc.pid, me.token))), c,
                Locked(me.phase.m, me.phase.sha))
      else w
    case CheckAbsent(c) =>
      if me.phase.Locked?
      then Goto(w, c, if dest in w.dirs then Aborting else Clear(me.phase.m, me.phase.sha)) else w
    case Rename(c) =>
      if me.phase.Clear? then
        if CanRename(w, dir, dest) then Goto(Move(w, dir, dest), c, Published(me.phase.m, me.phase.sha))
        else Goto(w, c, Aborting)
      else w
    case RemoveStaging(c) =>
      if me.phase.Aborting? then Goto(Remove(w, dir), c, Unlocking) else w
    case ReleaseLock(c) =>
      if me.phase.Published? then
        Goto(Released(w, lock, me.token), c,
             Done(me.phase.m, ManifestRef(me.ns.layer, me.ns.runId, me.phase.sha)))
      else if me.phase.Unlocking? then Goto(Released(w, lock, me.token), c, Open)
      else w
  }

  /** `_remove_owned_lock`: only with our token still in it, and only if nothing else is left. */
  function Released(w: World, lock: Slot, token: nat): World {
    var files := FilesAt(w, lock);
    if LOCK_OWNER in files && files[LOCK_OWNER].OwnerFile? && files[LOCK_OWNER].owner.token == token then
      if files - {LOCK_OWNER} == map[] then Remove(w, lock) else Unlink(w, lock, LOCK_OWNER)
    else w
  }

  /** A step that is not enabled leaves the world as it is. */
  function Exec(codec: Codec, w: World, s: Step): World {
    match s
    case Tick(seconds) => w.(now := w.now + seconds)
    case Begin(c, proc, ns, suffix) =>
      var slot := Slot(ns.layer, StagingName(ns.runId, suffix));
      if c !in w.committers && IsSafeId(ns.runId) && IsSuffix(suffix) && slot !in w.dirs && slot !in w.everStaged
      then
        w.(dirs := w.dirs[slot := Dir(map[], w.now)],
           committers := w.committers[c := Committer(proc, ns, slot.name, c, Begun, None, [], false)],
           running := w.running + {proc},
           everStaged := w.everStaged + {slot})
      else w
    case Crash(proc) =>
      w.(running := w.running - {proc},
         committers := map c | c in w.committers ::
           if w.committers[c].proc == proc then w.committers[c].(crashed := true) else w.committers[c])
    case Sweep(slot, host, at, retain, stale) => if Swept(codec, w, s) then Remove(w, slot) else w
    case _ => if Live(w, s.c) then ExecCommitter(codec, w, s) else w
  }

  function Run(codec: Codec, w: World, steps: seq<Step>): World
    decreases |steps|
  {
    if steps == [] then w else Run(codec, Exec(codec, w, steps[0]), steps[1..])
  }

  const Empty := World(map[], map[], {}, {}, 0)

  // ---- what holds with no assumption on time ---------------------------------

  predicate Succeeding(p: Phase) { p.Published? || p.Done? }

  /** Between writing the marker and leaving the staging directory. */
  predicate Sealing(p: Phase) { p.Marked? || p.LockMade? || p.Locked? || p.Clear? }

  /** A directory at a package path. */
  predicate IsPackage(w: World, slot: Slot) { slot in w.dirs && IsSafeId(slot.name) }

  ghost predicate NamesOk(w: World) {
    && (forall c :: c in w.committers ==>
         && IsSafeId(w.committers[c].ns.runId)
         && StagingSlot(w.committers[c]) in w.everStaged
         && exists suffix :: IsSuffix(suffix) && w.committers[c].staging == StagingName(w.committers[c].ns.runId, suffix))
    && (forall c, d :: c in w.committers && d in w.committers && c != d ==>
         StagingSlot(w.committers[c]) != StagingSlot(w.committers[d]))
  }

  ghost predicate SealsOk(w: World) {
    && (forall slot :: IsPackage(w, slot) ==> SUCCESS in w.dirs[slot].files)
    && (forall c :: c in w.committers && Sealing(w.committers[c].phase) && StagingSlot(w.committers[c]) in w.dirs ==>
         SUCCESS in w.dirs[StagingSlot(w.committers[c])].files)
  }

  ghost predicate WinnersOk(w: World) {
    && (forall c :: c in w.committers && Succeeding(w.committers[c].phase) && !Sweepable(w.committers[c].ns.runId) ==>
         Dest(w.committers[c]) in w.dirs)
    && (forall c, d ::
         (&& c in w.committers && d in w.committers && c != d
          && Succeeding(w.committers[c].phase) && Succeeding(w.committers[d].phase)
          && !Sweepable(w.committers[c].ns.runId)) ==> w.committers[c].ns != w.committers[d].ns)
  }

  ghost predicate Inv(w: World) { NamesOk(w) && SealsOk(w) && WinnersOk(w) }

  predicate SameIdentity(a: Committer, b: Committer) {
    a.proc == b.proc && a.ns == b.ns && a.staging == b.staging && a.token == b.token && a.crashed == b.crashed
  }

  predicate IsCommitterStep(s: Step) { !s.Tick? && !s.Begin? && !s.Crash? && !s.Sweep? }

  /** Everything a committer's own step may change, apart from a successful rename. */
  ghost predicate OwnEffect(w: World, w': World, c: nat) {
    && c in w.committers && c in w'.committers
    && var me, me' := w.committers[c], w'.committers[c];
    && w'.committers == w.committers[c := me'] && SameIdentity(me, me')
    && w'.everStaged == w.everStaged && w'.running == w.running && w'.now == w.now
    && (Succeeding(me'.phase) <==> Succeeding(me.phase))
    && w'.dirs - {StagingSlot(me), LockSlot(me)} == w.dirs - {StagingSlot(me), LockSlot(me)}
  }

  ghost predicate KeepsSeal(w: World, w': World, c: nat)
    requires c in w.committers && c in w'.committers
  {
    var dir := StagingSlot(w.committers[c]);
    (Sealing(w.committers[c].phase) && dir in w.dirs ==> SUCCESS in w.dirs[dir].files) ==>
    (Sealing(w'.committers[c].phase) && dir in w'.dirs ==> SUCCESS in w'.dirs[dir].files)
  }

  predicate Renames(w: World, s: Step) {
    && s.Rename? && Live(w, s.c) && w.committers[s.c].phase.Clear?
    && CanRename(w, StagingSlot(w.committers[s.c]), Dest(w.committers[s.c]))
  }

  lemma EffectBeforeMarker(codec: Codec, w: World, s: Step)
    requires IsCommitterStep(s) && Live(w, s.c)
    requires s.WriteOwner? || s.WriteArtifact? || s.SetManifest? || s.Check? || s.DropOwner? || s.WriteManifest?
    ensures OwnEffect(w, Exec(codec, w, s), s.c)
  {
    hide Validated, Upsert, IsReserved;
  }

  lemma EffectOfStep(codec: Codec, w: World, s: Step)
    requires IsCommitterStep(s) && Live(w, s.c) && !Renames(w, s)
    ensures OwnEffect(w, Exec(codec, w, s), s.c)
  {
    if s.WriteOwner? || s.WriteArtifact? || s.SetManifest? || s.Check? || s.DropOwner? || s.WriteManifest? {
      EffectBeforeMarker(codec, w, s);
    }
    hide Validated;
  }

  lemma SealOfStep(codec: Codec, w: World, s: Step)
    requires IsCommitterStep(s) && Live(w, s.c) && !Renames(w, s)
    requires StagingSlot(w.committers[s.c]) != LockSlot(w.committers[s.c])
    ensures OwnEffect(w, Exec(codec, w, s), s.c) && KeepsSeal(w, Exec(codec, w, s), s.c)
  {
    EffectOfStep(codec, w, s);
    hide Validated;
  }

  lemma LockApart(w: World, c: nat, d: nat)
    requires NamesOk(w) && c in w.committers && d in w.committers
    ensures StagingSlot(w.committers[c]) != LockSlot(w.committers[d])
  {
    var suffix :| IsSuffix(suffix) && w.committers[c].staging == StagingName(w.committers[c].ns.runId, suffix);
    LockIsNotStaging(w.committers[d].ns.runId, w.committers[c].ns.runId, suffix);
  }

  lemma DottedNames(w: World, c: nat)
    requires NamesOk(w) && c in w.committers
    ensures !IsSafeId(StagingSlot(w.committers[c]).name) && !IsSafeId(LockSlot(w.committers[c]).name)
    ensures IsSafeId(Dest(w.committers[c]).name)
  {
    var suffix :| IsSuffix(suffix) && w.committers[c].staging == StagingName(w.committers[c].ns.runId, suffix);
    assert StagingSlot(w.committers[c]).name[0] == '.' && LockSlot(w.committers[c]).name[0] == '.';
  }

  /** The slots a committer's own step leaves alone. */
  lemma Untouched(w: World, w': World, c: nat, slot: Slot)
    requires OwnEffect(w, w', c)
    requires slot != StagingSlot(w.committers[c]) && slot != LockSlot(w.committers[c])
    ensures slot in w.dirs <==> slot in w'.dirs
    ensures slot in w.dirs ==> w'.dirs[slot] == w.dirs[slot]
  {
    var me := w.committers[c];
    var both := {StagingSlot(me), LockSlot(me)};
    assert slot in w.dirs <==> slot in w.dirs - both;
    assert slot in w'.dirs <==> slot in w'.dirs - both;
    assert slot in w.dirs ==> (w.dirs - both)[slot] == w.dirs[slot];
    assert slot in w'.dirs ==> (w'.dirs - both)[slot] == w'.dirs[slot];
  }

  lemma EffectKeepsInv(w: World, w': World, c: nat)
    requires Inv(w) && OwnEffect(w, w', c) && KeepsSeal(w, w', c)
    ensures Inv(w')
    ensures forall slot: Slot :: IsPackage(w, slot) ==> slot in w'.dirs && w'.dirs[slot] == w.dirs[slot]
  {
    assert NamesOk(w');
    DottedNames(w, c);
    forall slot: Slot | IsSafeId(slot.name)
      ensures slot in w.dirs <==> slot in w'.dirs
      ensures slot in w.dirs ==> w'.dirs[slot] == w.dirs[slot]
    {
      Untouched(w, w', c, slot);
    }
    forall d | d in w'.committers && Sealing(w'.committers[d].phase) && StagingSlot(w'.committers[d]) in w'.dirs
      ensures SUCCESS in w'.dirs[StagingSlot(w'.committers[d])].files
    {
      if d != c {
        LockApart(w, d, c);
        Untouched(w, w', c, StagingSlot(w.committers[d]));
      }
    }
    assert SealsOk(w');
    assert WinnersOk(w');
  }

  lemma RenameKeepsInv(codec: Codec, w: World, s: Step)
    requires Inv(w) && Renames(w, s)
    ensures Inv(Exec(codec, w, s))
    ensures forall slot: Slot :: IsPackage(w, slot) ==>
      slot in Exec(codec, w, s).dirs && Exec(codec, w, s).dirs[slot] == w.dirs[slot]
  {
    assert Exec(codec, w, s) == Moved(w, s.c);
    hide Exec, ExecCommitter, Inv, Moved;
    MoveKeepsInv(w, s.c);
  }

  /** The world after the rename of committer `c` went through. */
  function Moved(w: World, c: nat): World
    requires c in w.committers && w.committers[c].phase.Clear? && StagingSlot(w.committers[c]) in w.dirs
  {
    var me := w.committers[c];
    Goto(Move(w, StagingSlot(me), Dest(me)), c, Published(me.phase.m, me.phase.sha))
  }

  lemma MoveKeepsSeals(w: World, c: nat)
    requires NamesOk(w) && SealsOk(w) && c in w.committers && w.committers[c].phase.Clear?
    requires StagingSlot(w.committers[c]) in w.dirs
    ensures SealsOk(Moved(w, c))
  {
    var me, w' := w.committers[c], Moved(w, c);
    forall slot | IsPackage(w', slot) ensures SUCCESS in w'.dirs[slot].files {
      assert slot == Dest(me) || IsPackage(w, slot);
    }
    forall d | d in w'.committers && Sealing(w'.committers[d].phase) && StagingSlot(w'.committers[d]) in w'.dirs
      ensures SUCCESS in w'.dirs[StagingSlot(w'.committers[d])].files
    {
      DottedNames(w, d);
      DottedNames(w, c);
      assert d != c;
    }
  }

  lemma MoveKeepsWinners(w: World, c: nat)
    requires NamesOk(w) && WinnersOk(w) && c in w.committers && w.committers[c].phase.Clear?
    requires StagingSlot(w.committers[c]) in w.dirs && Dest(w.committers[c]) !in w.dirs
    ensures WinnersOk(Moved(w, c))
  {
    var me, w' := w.committers[c], Moved(w, c);
    forall d | d in w.committers ensures Dest(w.committers[d]) != StagingSlot(me) {
      DottedNames(w, c);
      DottedNames(w, d);
    }
    hide Sweepable, IsSafeId, NamesOk;
    forall d | d in w.committers && Succeeding(w.committers[d].phase) && !Sweepable(w.committers[d].ns.runId)
      ensures Dest(w.committers[d]) != Dest(me)
    {
    }
  }

  lemma PackageIsNotEmpty(w: World, slot: Slot)
    requires SealsOk(w) && IsPackage(w, slot)
    ensures FilesAt(w, slot) != map[]
  {
    assert SUCCESS in FilesAt(w, slot);
  }

  lemma MoveKeepsInv(w: World, c: nat)
    requires Inv(w) && c in w.committers && w.committers[c].phase.Clear?
    requires CanRename(w, StagingSlot(w.committers[c]), Dest(w.committers[c]))
    ensures var w' := Moved(w, c);
            && Inv(w')
            && Dest(w.committers[c]) !in w.dirs
            && forall slot: Slot :: IsPackage(w, slot) ==> slot in w'.dirs && w'.dirs[slot] == w.dirs[slot]
  {
    var me, w' := w.committers[c], Moved(w, c);
    DottedNames(w, c);
    if Dest(me) in w.dirs { PackageIsNotEmpty(w, Dest(me)); }
    assert NamesOk(w');
    MoveKeepsSeals(w, c);
    MoveKeepsWinners(w, c);
    hide NamesOk, SealsOk, WinnersOk;
  }

  /** The world after a staging directory was created. */
  function WithStaging(w: World, s: Step): World
    requires s.Begin?
  {
    var slot := Slot(s.ns.layer, StagingName(s.ns.runId, s.suffix));
    w.(dirs := w.dirs[slot := Dir(map[], w.now)],
       committers := w.committers[s.c := Committer(s.proc, s.ns, slot.name, s.c, Begun, None, [], false)],
       running := w.running + {s.proc},
       everStaged := w.everStaged + {slot})
  }

  lemma BeginKeepsNames(w: World, s: Step)
    requires NamesOk(w) && s.Begin? && s.c !in w.committers && IsSafeId(s.ns.runId) && IsSuffix(s.suffix)
    requires Slot(s.ns.layer, StagingName(s.ns.runId, s.suffix)) !in w.everStaged
    ensures NamesOk(WithStaging(w, s))
  {
    assert WithStaging(w, s).committers[s.c].staging == StagingName(s.ns.runId, s.suffix);
    hide IsSafeId, IsSuffix, StagingName;
  }

  lemma BeginKeepsSeals(w: World, s: Step)
    requires NamesOk(w) && SealsOk(w) && WinnersOk(w) && s.Begin? && s.c !in w.committers
    requires Slot(s.ns.layer, StagingName(s.ns.runId, s.suffix)) !in w.everStaged + w.dirs.Keys
    ensures SealsOk(WithStaging(w, s)) && WinnersOk(WithStaging(w, s))
  {
    var w', slot := WithStaging(w, s), Slot(s.ns.layer, StagingName(s.ns.runId, s.suffix));
    assert slot.name[0] == '.';
    assert !IsSafeId(slot.name);
    hide IsSafeId, Sweepable, StagingName;
    forall d | d in w'.committers && Sealing(w'.committers[d].phase) && StagingSlot(w'.committers[d]) in w'.dirs
      ensures SUCCESS in w'.dirs[StagingSlot(w'.committers[d])].files
    {
      assert d != s.c && StagingSlot(w.committers[d]) in w.everStaged;
    }
  }

  lemma BeginKeepsInv(codec: Codec, w: World, s: Step)
    requires Inv(w) && s.Begin?
    ensures Inv(Exec(codec, w, s))
    ensures forall slot: Slot :: IsPackage(w, slot) ==>
      slot in Exec(codec, w, s).dirs && Exec(codec, w, s).dirs[slot] == w.dirs[slot]
  {
    var w' := Exec(codec, w, s);
    assert w' == w || w' == WithStaging(w, s);
    if w' != w {
      BeginKeepsNames(w, s);
      BeginKeepsSeals(w, s);
    }
    hide Exec, NamesOk, SealsOk, WinnersOk;
  }

  /** Time passing, a process dying or a sweep: the committers keep their roles, and at most
      one directory goes. */
  ghost predicate OnlyRemoves(w: World, w': World, gone: set<Slot>) {
    && w'.committers.Keys == w.committers.Keys
    && (forall c :: c in w.committers ==>
         && w'.committers[c].ns == w.committers[c].ns && w'.committers[c].staging == w.committers[c].staging
         && w'.committers[c].phase == w.committers[c].phase)
    && w'.everStaged == w.everStaged
    && w'.dirs == w.dirs - gone
    && forall slot: Slot :: slot in gone ==> Sweepable(slot.name)
  }

  lemma RemovingKeepsInv(w: World, w': World, gone: set<Slot>)
    requires Inv(w) && OnlyRemoves(w, w', gone)
    ensures Inv(w')
    ensures forall slot: Slot :: IsPackage(w, slot) && slot !in gone ==>
      slot in w'.dirs && w'.dirs[slot] == w.dirs[slot]
  {
    hide Sweepable, IsSafeId, IsSuffix, StagingName;
    assert NamesOk(w');
    assert SealsOk(w');
    assert WinnersOk(w');
  }

  lemma OutsideStep(codec: Codec, w: World, s: Step)
    requires s.Tick? || s.Crash? || s.Sweep?
    ensures OnlyRemoves(w, Exec(codec, w, s), if s.Sweep? && Swept(codec, w, s) then {s.slot} else {})
  {
    hide Contains, EndsIn, OwnerIsDead, OwnerOf;
  }

  lemma CommitterKeepsInv(codec: Codec, w: World, s: Step)
    requires Inv(w) && IsCommitterStep(s)
    ensures Inv(Exec(codec, w, s))
    ensures forall slot: Slot :: IsPackage(w, slot) ==>
      slot in Exec(codec, w, s).dirs && Exec(codec, w, s).dirs[slot] == w.dirs[slot]
  {
    if !Live(w, s.c) {
      assert Exec(codec, w, s) == w;
    } else if Renames(w, s) {
      RenameKeepsInv(codec, w, s);
    } else {
      hide Exec, ExecCommitter;
      LockApart(w, s.c, s.c);
      SealOfStep(codec, w, s);
      EffectKeepsInv(w, Exec(codec, w, s), s.c);
    }
    hide Exec, ExecCommitter, Inv;
  }

  /** Every step of every process keeps the invariant and every package that no sweep can mistake
      for its own litter. */
  lemma StepKeepsInv(codec: Codec, w: World, s: Step)
    requires Inv(w)
    ensures Inv(Exec(codec, w, s))
    ensures forall slot: Slot :: IsPackage(w, slot) && Lasting(codec, w.dirs[slot].files, slot.name) ==>
      slot in Exec(codec, w, s).dirs && Exec(codec, w, s).dirs[slot] == w.dirs[slot]
  {
    hide Exec, ExecCommitter, Inv, Lasting, Swept;
    if IsCommitterStep(s) {
      CommitterKeepsInv(codec, w, s);
    } else if s.Begin? {
      BeginKeepsInv(codec, w, s);
    } else {
      OutsideStep(codec, w, s);
      if s.Sweep? && s.slot in w.dirs && Lasting(codec, w.dirs[s.slot].files, s.slot.name) { LastingIsNotSwept(codec, w, s); }
      RemovingKeepsInv(w, Exec(codec, w, s), if s.Sweep? && Swept(codec, w, s) then {s.slot} else {});
    }
  }

  /** Write once, with no assumption on time or locks: what is visible at a package path, and is not
      what a sweep may take, stays there unchanged for ever. */
  lemma {:induction false} WriteOnce(codec: Codec, w: World, steps: seq<Step>, slot: Slot)
    requires Inv(w) && IsPackage(w, slot) && Lasting(codec, w.dirs[slot].files, slot.name)
    ensures Inv(Run(codec, w, steps))
    ensures slot in Run(codec, w, steps).dirs && Run(codec, w, steps).dirs[slot] == w.dirs[slot]
    decreases |steps|
  {
    if steps != [] {
      StepKeepsInv(codec, w, steps[0]);
      hide Lasting, Exec, Inv;
      WriteOnce(codec, Exec(codec, w, steps[0]), steps[1..], slot);
    }
  }

  lemma {:induction false} InvReachable(codec: Codec, w: World, steps: seq<Step>)
    requires Inv(w)
    ensures Inv(Run(codec, w, steps))
    decreases |steps|
  {
    if steps != [] {
      StepKeepsInv(codec, w, steps[0]);
      InvReachable(codec, Exec(codec, w, steps[0]), steps[1..]);
    }
  }

  /** At most one commit of a namespace ever succeeds, in every run of any committers. */
  lemma OneWinner(codec: Codec, steps: seq<Step>, c: nat, d: nat)
    requires var w := Run(codec, Empty, steps);
             && c in w.committers && d in w.committers
             && Succeeding(w.committers[c].phase) && Succeeding(w.committers[d].phase)
             && w.committers[c].ns == w.committers[d].ns
             && !Sweepable(w.committers[c].ns.runId)
    ensures c == d
  {
    InvReachable(codec, Empty, steps);
  }

  /** Wait until the directory is old enough, then sweep it; if it names an owner, that process
      ends first and its own host sweeps. */
  function SweepAway(codec: Codec, w: World, slot: Slot, retain: nat): seq<Step>
    requires slot in w.dirs
  {
    var age := w.now - w.dirs[slot].mtime;
    var wait: nat := if age < retain then retain - age else 0;
    match OwnerOf(codec, w.dirs[slot].files, OwnerDocument(slot.name))
    case None => [Tick(wait), Sweep(slot, "", w.now + wait, retain, retain)]
    case Some(o) => [Crash(Proc(o.host, o.pid)), Tick(wait), Sweep(slot, o.host, w.now + wait, retain, retain)]
  }

  lemma SweptAway(codec: Codec, w: World, slot: Slot, retain: nat)
    requires slot in w.dirs && !Lasting(codec, w.dirs[slot].files, slot.name)
    ensures slot !in Run(codec, w, SweepAway(codec, w, slot, retain)).dirs
  {
    var steps, owner := SweepAway(codec, w, slot, retain), OwnerOf(codec, w.dirs[slot].files, OwnerDocument(slot.name));
    hide OwnerOf, Contains, EndsIn;
    var k, w0 := |steps| - 2, if owner.None? then w else Exec(codec, w, steps[0]);
    assert w0.dirs == w.dirs && w0.now == w.now;
    var w1 := Exec(codec, w0, steps[k]);
    assert w1.dirs == w.dirs;
    assert Swept(codec, w1, steps[k + 1]);
    RunTwo(codec, w0, steps[k], steps[k + 1]);
    hide Exec, Swept;
    assert steps[k..] == [steps[k], steps[k + 1]];
    if owner.Some? { RunOne(codec, w, steps); } else { assert steps[0..] == steps; }
  }

  /** A package survives all runs exactly when its run id is not one the sweep matches, or it holds
      an owner document that no sweep calls dead. */
  lemma SurvivesAllRuns(codec: Codec, w: World, slot: Slot)
    requires Inv(w) && IsPackage(w, slot)
    ensures Lasting(codec, w.dirs[slot].files, slot.name) <==> forall steps :: slot in Run(codec, w, steps).dirs
  {
    hide Lasting;
    if Lasting(codec, w.dirs[slot].files, slot.name) {
      forall steps ensures slot in Run(codec, w, steps).dirs { WriteOnce(codec, w, steps, slot); }
    } else {
      SweptAway(codec, w, slot, 0);
    }
  }

  lemma RunTwo(codec: Codec, w: World, a: Step, b: Step)
    ensures Run(codec, w, [a, b]) == Exec(codec, Exec(codec, w, a), b)
  {
    assert [a, b][1..] == [b] && [b][1..] == [];
    assert Run(codec, Exec(codec, w, a), [b]) == Run(codec, Exec(codec, Exec(codec, w, a), b), []);
  }

  /** Both identifiers are accepted, and a sweep takes their packages for its own litter. */
  lemma SweptRunIds()
    ensures IsSafeId("a.tmp-b") && Sweepable("a.tmp-b")
    ensures IsSafeId("a.commit-lock") && Sweepable("a.commit-lock")
  {
    assert "a.tmp-b"[1..] == ".tmp-b";
    assert Contains(".tmp-b", ".tmp-");
    assert |"a.commit-lock"| - |".commit-lock"| == 1;
    assert "a.commit-lock"[1..] == ".commit-lock";
  }

  // ---- what holds when sweeps leave young staging areas alone -------------------

  predicate InWindow(p: Phase) { p.Checked? || p.Unowned? || p.Described? || Sealing(p) }

  /** The assumption on time: no sweep finds the staging directory of a living commit that is
      between its check and its rename older than the retention it was given. */
  ghost predicate Timely(w: World, s: Step) {
    s.Sweep? ==>
      forall c :: Live(w, c) && InWindow(w.committers[c].phase) && StagingSlot(w.committers[c]) == s.slot && s.slot in w.dirs ==>
        s.at - w.dirs[s.slot].mtime < s.retainStaging
  }

  ghost predicate TimelyRun(codec: Codec, w: World, steps: seq<Step>)
    decreases |steps|
  {
    steps == [] || (Timely(w, steps[0]) && TimelyRun(codec, Exec(codec, w, steps[0]), steps[1..]))
  }

  predicate ManifestOk(m: Manifest, ns: Namespace) {
    && m.runId == ns.runId && m.layer == m.kind == ns.layer && m.state == Succeeded
    && DistinctPaths(m.artifacts)
    && forall d :: d in m.artifacts ==> d.layer == ns.layer && !IsReserved(d.path)
  }

  predicate ArtifactsOk(codec: Codec, files: Files, m: Manifest) {
    OWNER !in files && forall d :: d in m.artifacts && d.path != OWNER ==> Store.Checked(codec, files, d)
  }

  /** What the commit of `me` has established about its staging directory so far. */
  predicate CommitOk(codec: Codec, files: Files, me: Committer) {
    match me.phase
    case Checked(m) => ManifestOk(m, me.ns) && forall d :: d in m.artifacts ==> Store.Checked(codec, files, d)
    case Unowned(m) => ManifestOk(m, me.ns) && ArtifactsOk(codec, files, m)
    case Described(m) =>
      && ManifestOk(m, me.ns) && ArtifactsOk(codec, files, m)
      && MANIFEST in files && files[MANIFEST] == ManifestFile(m)
    case Marked(m, sha) => WellSealed(codec, files, me.ns, m) && sha == codec.hash(ManifestFile(m))
    case LockMade(m, sha) => WellSealed(codec, files, me.ns, m) && sha == codec.hash(ManifestFile(m))
    case Locked(m, sha) => WellSealed(codec, files, me.ns, m) && sha == codec.hash(ManifestFile(m))
    case Clear(m, sha) => WellSealed(codec, files, me.ns, m) && sha == codec.hash(ManifestFile(m))
    case _ => true
  }

  predicate RecordsOk(me: Committer) {
    && DistinctPaths(me.staged)
    && (me.manifest.Some? ==>
         me.manifest.value.runId == me.ns.runId && me.manifest.value.layer == me.manifest.value.kind == me.ns.layer)
  }

  predicate PackageOk(codec: Codec, slot: Slot, files: Files) {
    && MANIFEST in files && files[MANIFEST].ManifestFile?
    && WellSealed(codec, files, Namespace(slot.layer, slot.name), files[MANIFEST].manifest)
  }

  /** The package of a successful commit holds its manifest, and its reference names that manifest. */
  predicate ResultOk(codec: Codec, files: Files, me: Committer) {
    match me.phase
    case Published(m, sha) =>
      MANIFEST in files && files[MANIFEST] == ManifestFile(m) && sha == codec.hash(ManifestFile(m))
    case Done(m, ref) =>
      MANIFEST in files && files[MANIFEST] == ManifestFile(m) && ref == RefOf(codec, me.ns, m)
    case _ => true
  }

  ghost predicate CommitsOk(codec: Codec, w: World) {
    && (forall c :: c in w.committers ==> RecordsOk(w.committers[c]))
    && (forall c :: Live(w, c) ==> CommitOk(codec, FilesAt(w, StagingSlot(w.committers[c])), w.committers[c]))
  }

  ghost predicate PackagesOk(codec: Codec, w: World) {
    && (forall slot: Slot :: IsPackage(w, slot) ==> PackageOk(codec, slot, w.dirs[slot].files))
    && (forall c :: c in w.committers && !Sweepable(w.committers[c].ns.runId) ==>
         ResultOk(codec, FilesAt(w, Dest(w.committers[c])), w.committers[c]))
  }

  ghost predicate Safe(codec: Codec, w: World) {
    Inv(w) && CommitsOk(codec, w) && PackagesOk(codec, w)
  }

  lemma CheckEstablishes(codec: Codec, files: Files, me: Committer)
    requires RecordsOk(me) && me.manifest.Some?
    requires Validated(codec, files, me.manifest.value, me.staged, me.ns.layer).Some?
    ensures var m := Validated(codec, files, me.manifest.value, me.staged, me.ns.layer).value;
            && ManifestOk(m, me.ns)
            && m.runId == me.ns.runId && m.layer == m.kind == me.ns.layer
            && forall d :: d in m.artifacts ==> Store.Checked(codec, files, d)
  {
    MergedFacts(me.manifest.value.artifacts, me.staged, me.ns.layer);
  }

  lemma OwnRecords(codec: Codec, w: World, s: Step)
    requires IsCommitterStep(s) && Live(w, s.c) && RecordsOk(w.committers[s.c])
    ensures RecordsOk(Exec(codec, w, s).committers[s.c])
  {
    var me := w.committers[s.c];
    if s.Check? && me.manifest.Some? && Validated(codec, FilesAt(w, StagingSlot(me)), me.manifest.value, me.staged, me.ns.layer).Some? {
      CheckEstablishes(codec, FilesAt(w, StagingSlot(me)), me);
    }
    hide Validated;
  }

  /** Each sub-step of a commit establishes its own phase's facts from those before it. */
  lemma OwnCommit(codec: Codec, w: World, s: Step)
    requires IsCommitterStep(s) && Live(w, s.c) && RecordsOk(w.committers[s.c])
    requires CommitOk(codec, FilesAt(w, StagingSlot(w.committers[s.c])), w.committers[s.c])
    requires StagingSlot(w.committers[s.c]) != LockSlot(w.committers[s.c])
    requires !Renames(w, s)
    ensures var w' := Exec(codec, w, s);
            CommitOk(codec, FilesAt(w', StagingSlot(w.committers[s.c])), w'.committers[s.c])
  {
    var me := w.committers[s.c];
    var files := FilesAt(w, StagingSlot(me));
    if s.Check? && me.manifest.Some? && Validated(codec, files, me.manifest.value, me.staged, me.ns.layer).Some? {
      CheckEstablishes(codec, files, me);
    }
    hide Validated;
  }

  lemma CommitterKeepsCommits(codec: Codec, w: World, s: Step)
    requires Safe(codec, w) && IsCommitterStep(s) && Live(w, s.c) && !Renames(w, s)
    ensures CommitsOk(codec, Exec(codec, w, s)) && PackagesOk(codec, Exec(codec, w, s))
  {
    var w', c := Exec(codec, w, s), s.c;
    LockApart(w, c, c);
    EffectOfStep(codec, w, s);
    OwnRecords(codec, w, s);
    OwnCommit(codec, w, s);
    ResultsUntouched(codec, w, s);
    hide Exec, ExecCommitter, RecordsOk, CommitOk, ResultOk, PackageOk;
    forall d | Live(w', d) && d != c
      ensures CommitOk(codec, FilesAt(w', StagingSlot(w'.committers[d])), w'.committers[d])
    {
      LockApart(w, d, c);
      Untouched(w, w', c, StagingSlot(w.committers[d]));
    }
    assert CommitsOk(codec, w');
    PackagesUntouched(codec, w, w', c);
  }

  /** A step other than the rename does not touch the manifest or reference of a success. */
  lemma ResultsUntouched(codec: Codec, w: World, s: Step)
    requires IsCommitterStep(s) && Live(w, s.c) && !Renames(w, s) && PackagesOk(codec, w)
    requires OwnEffect(w, Exec(codec, w, s), s.c)
    ensures !Sweepable(w.committers[s.c].ns.runId) ==>
      ResultOk(codec, FilesAt(w, Dest(w.committers[s.c])), Exec(codec, w, s).committers[s.c])
  {
    hide Validated, Sweepable, PackageOk;
  }

  lemma PackagesUntouched(codec: Codec, w: World, w': World, c: nat)
    requires Inv(w) && PackagesOk(codec, w) && OwnEffect(w, w', c)
    requires !Sweepable(w.committers[c].ns.runId) ==>
      ResultOk(codec, FilesAt(w, Dest(w.committers[c])), w'.committers[c])
    ensures PackagesOk(codec, w')
  {
    hide ResultOk, PackageOk, Sweepable;
    DottedNames(w, c);
    forall slot: Slot | IsSafeId(slot.name)
      ensures slot in w.dirs <==> slot in w'.dirs
      ensures slot in w.dirs ==> w'.dirs[slot] == w.dirs[slot]
    {
      Untouched(w, w', c, slot);
    }
    forall d | d in w'.committers ensures IsSafeId(Dest(w'.committers[d]).name) {
      assert w'.committers[d].ns == w.committers[d].ns;
    }
  }

  lemma RenameKeepsCommits(codec: Codec, w: World, c: nat)
    requires Safe(codec, w) && Live(w, c) && w.committers[c].phase.Clear?
    requires CanRename(w, StagingSlot(w.committers[c]), Dest(w.committers[c]))
    ensures CommitsOk(codec, Moved(w, c))
  {
    var w', me := Moved(w, c), w.committers[c];
    assert RecordsOk(w'.committers[c]) && CommitOk(codec, FilesAt(w', StagingSlot(me)), w'.committers[c]);
    hide CommitOk, RecordsOk, WellSealed, Sweepable;
    forall d | Live(w', d) && d != c
      ensures CommitOk(codec, FilesAt(w', StagingSlot(w'.committers[d])), w'.committers[d])
    {
      DottedNames(w, d);
      DottedNames(w, c);
    }
  }

  lemma RenameKeepsPackages(codec: Codec, w: World, c: nat)
    requires Safe(codec, w) && Live(w, c) && w.committers[c].phase.Clear?
    requires CanRename(w, StagingSlot(w.committers[c]), Dest(w.committers[c]))
    ensures PackagesOk(codec, Moved(w, c))
  {
    var w', me := Moved(w, c), w.committers[c];
    var dir, dest := StagingSlot(me), Dest(me);
    DottedNames(w, c);
    assert WellSealed(codec, FilesAt(w, dir), me.ns, me.phase.m);
    assert ResultOk(codec, FilesAt(w', dest), w'.committers[c]);
    assert PackageOk(codec, dest, w'.dirs[dest].files);
    hide ResultOk, PackageOk, CommitOk, WellSealed, Sweepable;
    forall slot: Slot | IsPackage(w', slot) ensures PackageOk(codec, slot, w'.dirs[slot].files) {
      assert slot == dest || IsPackage(w, slot);
    }
    forall d | d in w'.committers && d != c && !Sweepable(w'.committers[d].ns.runId)
      ensures ResultOk(codec, FilesAt(w', Dest(w'.committers[d])), w'.committers[d])
    {
      OtherResult(codec, w, w', c, d);
    }
  }

  lemma OtherResult(codec: Codec, w: World, w': World, c: nat, d: nat)
    requires Safe(codec, w) && Live(w, c) && w.committers[c].phase.Clear?
    requires CanRename(w, StagingSlot(w.committers[c]), Dest(w.committers[c])) && w' == Moved(w, c)
    requires d in w.committers && d != c && !Sweepable(w.committers[d].ns.runId)
    ensures ResultOk(codec, FilesAt(w', Dest(w.committers[d])), w.committers[d])
  {
    DottedNames(w, c);
    DottedNames(w, d);
    MoveKeepsInv(w, c);
    if Succeeding(w.committers[d].phase) {
      assert IsPackage(w, Dest(w.committers[d]));
      assert FilesAt(w', Dest(w.committers[d])) == FilesAt(w, Dest(w.committers[d]));
    }
    hide Moved, WellSealed;
  }

  lemma BeginKeepsCommits(codec: Codec, w: World, s: Step)
    requires Safe(codec, w) && s.Begin? && s.c !in w.committers
    requires Slot(s.ns.layer, StagingName(s.ns.runId, s.suffix)) !in w.everStaged + w.dirs.Keys
    ensures CommitsOk(codec, WithStaging(w, s)) && PackagesOk(codec, WithStaging(w, s))
  {
    var w', slot := WithStaging(w, s), Slot(s.ns.layer, StagingName(s.ns.runId, s.suffix));
    assert slot.name[0] == '.';
    assert !IsSafeId(slot.name);
    assert RecordsOk(w'.committers[s.c]) && CommitOk(codec, map[], w'.committers[s.c]);
    assert ResultOk(codec, FilesAt(w', Dest(w'.committers[s.c])), w'.committers[s.c]);
    hide ResultOk, PackageOk, CommitOk, RecordsOk, Sweepable, StagingName;
    forall d | Live(w', d) && d != s.c
      ensures CommitOk(codec, FilesAt(w', StagingSlot(w'.committers[d])), w'.committers[d])
    {
      assert Live(w, d) && StagingSlot(w.committers[d]) in w.everStaged;
    }
    forall d | d in w.committers ensures FilesAt(w', Dest(w.committers[d])) == FilesAt(w, Dest(w.committers[d])) {
      DottedNames(w, d);
    }
  }

  /** A timely sweep never takes the staging directory of a commit under way. */
  lemma TimelySweepSpares(codec: Codec, w: World, s: Step, c: nat)
    requires NamesOk(w) && Live(w, c) && InWindow(w.committers[c].phase)
    requires s.Sweep? && Timely(w, s) && s.slot == StagingSlot(w.committers[c])
    ensures !Swept(codec, w, s)
  {
    var me := w.committers[c];
    var suffix :| IsSuffix(suffix) && me.staging == StagingName(me.ns.runId, suffix);
    ContainsInside("." + me.ns.runId, ".tmp-", suffix);
  }

  lemma OutsideKeepsCommits(codec: Codec, w: World, s: Step)
    requires Safe(codec, w) && Timely(w, s) && (s.Tick? || s.Crash? || s.Sweep?)
    ensures CommitsOk(codec, Exec(codec, w, s))
  {
    var w' := Exec(codec, w, s);
    OutsideStep(codec, w, s);
    OutsideLives(codec, w, s);
    hide Exec, Swept, IsSafeId, Sweepable;
    forall d | Live(w', d)
      ensures CommitOk(codec, FilesAt(w', StagingSlot(w'.committers[d])), w'.committers[d])
    {
      if InWindow(w.committers[d].phase) {
        if s.Sweep? && s.slot == StagingSlot(w.committers[d]) {
          TimelySweepSpares(codec, w, s, d);
        }
        assert FilesAt(w', StagingSlot(w.committers[d])) == FilesAt(w, StagingSlot(w.committers[d]));
      }
    }
    hide CommitOk, WellSealed;
  }

  lemma RemovalKeepsPackages(codec: Codec, w: World, w': World, gone: set<Slot>)
    requires OnlyRemoves(w, w', gone)
    requires forall slot: Slot :: IsPackage(w, slot) ==> PackageOk(codec, slot, w.dirs[slot].files)
    ensures forall slot: Slot :: IsPackage(w', slot) ==> PackageOk(codec, slot, w'.dirs[slot].files)
  {
    hide PackageOk;
  }

  lemma OutsideKeepsPackages(codec: Codec, w: World, s: Step)
    requires Safe(codec, w) && (s.Tick? || s.Crash? || s.Sweep?)
    ensures PackagesOk(codec, Exec(codec, w, s))
  {
    var w' := Exec(codec, w, s);
    var gone := if s.Sweep? && Swept(codec, w, s) then {s.slot} else {};
    OutsideStep(codec, w, s);
    OutsideLives(codec, w, s);
    RemovalKeepsPackages(codec, w, w', gone);
    hide Exec, Swept, CommitsOk, WellSealed, PackageOk, Sweepable, IsPackage;
    forall d | d in w'.committers && !Sweepable(w'.committers[d].ns.runId)
      ensures ResultOk(codec, FilesAt(w', Dest(w'.committers[d])), w'.committers[d])
    {
      assert Dest(w.committers[d]) !in gone;
      assert FilesAt(w', Dest(w.committers[d])) == FilesAt(w, Dest(w.committers[d]));
    }
    hide ResultOk;
  }

  lemma OutsideLives(codec: Codec, w: World, s: Step)
    requires s.Tick? || s.Crash? || s.Sweep?
    ensures forall c :: c in w.committers ==>
      (&& c in Exec(codec, w, s).committers
       && Exec(codec, w, s).committers[c].manifest == w.committers[c].manifest
       && Exec(codec, w, s).committers[c].staged == w.committers[c].staged)
    ensures forall c :: Live(Exec(codec, w, s), c) ==> Live(w, c) && Exec(codec, w, s).committers[c] == w.committers[c]
  {
    hide Swept;
  }

  lemma StepKeepsSafe(codec: Codec, w: World, s: Step)
    requires Safe(codec, w) && Timely(w, s)
    ensures Safe(codec, Exec(codec, w, s))
  {
    StepKeepsInv(codec, w, s);
    if IsCommitterStep(s) {
      if !Live(w, s.c) {
        assert Exec(codec, w, s) == w;
      } else if Renames(w, s) {
        assert Exec(codec, w, s) == Moved(w, s.c);
        RenameKeepsCommits(codec, w, s.c);
        RenameKeepsPackages(codec, w, s.c);
      } else {
        CommitterKeepsCommits(codec, w, s);
      }
    } else if s.Begin? {
      if Exec(codec, w, s) != w {
        BeginKeepsCommits(codec, w, s);
      }
    } else {
      OutsideKeepsCommits(codec, w, s);
      OutsideKeepsPackages(codec, w, s);
    }
    hide Inv, CommitsOk, PackagesOk, ExecCommitter;
  }

  lemma {:induction false} SafeReachable(codec: Codec, w: World, steps: seq<Step>)
    requires Safe(codec, w) && TimelyRun(codec, w, steps)
    ensures Safe(codec, Run(codec, w, steps))
    decreases |steps|
  {
    if steps != [] {
      StepKeepsSafe(codec, w, steps[0]);
      SafeReachable(codec, Exec(codec, w, steps[0]), steps[1..]);
    }
  }

  /** In every timely run, what is visible at a package path verifies against its own marker,
      unless the package declares a required artifact at the owner document's path. */
  lemma VisiblePackagesVerify(codec: Codec, steps: seq<Step>, slot: Slot)
    requires TimelyRun(codec, Empty, steps) && IsPackage(Run(codec, Empty, steps), slot)
    ensures var files := Run(codec, Empty, steps).dirs[slot].files;
            && SUCCESS in files && files[SUCCESS].Marker?
            && MANIFEST in files && files[MANIFEST].ManifestFile?
            && (Intact(codec, files, ManifestRef(slot.layer, slot.name, files[SUCCESS].sha)) <==>
                !OwnerArtifactRequired(files[MANIFEST].manifest))
  {
    SafeReachable(codec, Empty, steps);
    var files := Run(codec, Empty, steps).dirs[slot].files;
    assert PackageOk(codec, slot, files);
    SealedVerifies(codec, files, Namespace(slot.layer, slot.name), files[MANIFEST].manifest);
    hide Run, Inv, CommitsOk;
  }

  lemma {:induction false} RunConcat(codec: Codec, w: World, a: seq<Step>, b: seq<Step>)
    ensures Run(codec, w, a + b) == Run(codec, Run(codec, w, a), b)
    decreases |a|
  {
    if a == [] {
      assert a + b == b;
    } else {
      assert (a + b)[1..] == a[1..] + b;
      RunConcat(codec, Exec(codec, w, a[0]), a[1..], b);
    }
  }

  /** The reference a commit returned verifies in every later state, whatever happens next:
      the assumption on time is needed only up to the moment it was returned. */
  lemma ReturnedRefVerifies(codec: Codec, before: seq<Step>, c: nat, after: seq<Step>)
    requires TimelyRun(codec, Empty, before)
    requires var w := Run(codec, Empty, before);
             c in w.committers && w.committers[c].phase.Done? && !Sweepable(w.committers[c].ns.runId)
    ensures var me := Run(codec, Empty, before).committers[c];
            var files := FilesAt(Run(codec, Empty, before + after), Dest(me));
            && me.phase.ref == RefOf(codec, me.ns, me.phase.m)
            && (Intact(codec, files, me.phase.ref) <==> !OwnerArtifactRequired(me.phase.m))
  {
    var w := Run(codec, Empty, before);
    var me := w.committers[c];
    SafeReachable(codec, Empty, before);
    var files := FilesAt(w, Dest(me));
    DottedNames(w, c);
    assert IsPackage(w, Dest(me));
    assert ResultOk(codec, files, me) && PackageOk(codec, Dest(me), files);
    assert Namespace(Dest(me).layer, Dest(me).name) == me.ns;
    SealedVerifies(codec, files, me.ns, me.phase.m);
    WriteOnce(codec, w, after, Dest(me));
    RunConcat(codec, Empty, before, after);
    hide Run, Inv, CommitsOk, PackagesOk, WellSealed, Intact;
  }

  /** The reference to a package that a sweep can take may stop verifying. */
  lemma ReturnedRefLost(codec: Codec, before: seq<Step>, c: nat)
    requires var w := Run(codec, Empty, before);
             && c in w.committers && w.committers[c].phase.Done? && Dest(w.committers[c]) in w.dirs
             && !Lasting(codec, w.dirs[Dest(w.committers[c])].files, w.committers[c].ns.runId)
    ensures var me := Run(codec, Empty, before).committers[c];
            exists after :: !Intact(codec, FilesAt(Run(codec, Empty, before + after), Dest(me)), me.phase.ref)
  {
    hide Lasting, Intact;
    var w := Run(codec, Empty, before);
    var me := w.committers[c];
    SweptAway(codec, w, Dest(me), 0);
    var after := SweepAway(codec, w, Dest(me), 0);
    RunConcat(codec, Empty, before, after);
    hide Run, SweepAway;
    NothingIsIntact(codec, me.phase.ref);
    assert FilesAt(Run(codec, Empty, before + after), Dest(me)) == map[];
  }

  lemma NothingIsIntact(codec: Codec, ref: ManifestRef)
    ensures !Intact(codec, map[], ref)
  {
  }

  /** Writing an artifact, again or for the first time, leaves exactly its bytes at its path and a descriptor of
      them, and touches no other file; a reserved path is refused. */
  lemma ArtifactWritten(codec: Codec, w: World, c: nat, path: string, bytes: seq<int>, required: bool, info: string)
    requires Live(w, c) && w.committers[c].phase.Open?
    ensures var me, w' := w.committers[c], Exec(codec, w, WriteArtifact(c, path, bytes, required, info));
            if IsReserved(path) then w' == w
            else
              && c in w'.committers
              && FilesAt(w', StagingSlot(me)) == FilesAt(w, StagingSlot(me))[path := Blob(bytes)]
              && w'.dirs - {StagingSlot(me)} == w.dirs - {StagingSlot(me)}
              && w'.committers == w.committers[c := w'.committers[c]] && SameIdentity(me, w'.committers[c])
              && exists d :: d in w'.committers[c].staged && d.path == path && d.required == required
                   && d.size == |bytes| && d.sha == codec.hash(Blob(bytes))
  {
    var me, w' := w.committers[c], Exec(codec, w, WriteArtifact(c, path, bytes, required, info));
    var d := Descriptor(path, me.ns.layer, |bytes|, codec.hash(Blob(bytes)), required, info);
    UpsertHolds(me.staged, d);
    hide IsReserved, Upsert, StagingName;
    if !IsReserved(path) {
      assert w'.committers[c].staged == Upsert(me.staged, d);
      assert w'.dirs == Overwrite(w, StagingSlot(me), path, Blob(bytes)).dirs;
      OverwriteGives(w, StagingSlot(me), path, Blob(bytes));
      assert FilesAt(w', StagingSlot(me)) == FilesAt(Overwrite(w, StagingSlot(me), path, Blob(bytes)), StagingSlot(me));
      assert SameIdentity(me, w'.committers[c]);
      assert w'.committers == w.committers[c := w'.committers[c]];
      assert d in w'.committers[c].staged;
    }
  }

  lemma OverwriteGives(w: World, slot: Slot, name: string, content: Content)
    ensures FilesAt(Overwrite(w, slot, name, content), slot) == FilesAt(w, slot)[name := content]
    ensures Overwrite(w, slot, name, content).dirs - {slot} == w.dirs - {slot}
  {
  }

  lemma UpsertHolds(ds: seq<Descriptor>, d: Descriptor)
    ensures d in Upsert(ds, d)
  {
    match IndexOf(ds, d.path)
    case Some(i) => assert Upsert(ds, d)[i] == d;
    case None => assert Upsert(ds, d)[|ds|] == d;
  }

  // ---- a commit that meets nobody, and the two ways it still goes wrong ----------

  /** A living committer may start its commit: the checks will pass and nobody is in the way. */
  ghost predicate Unopposed(codec: Codec, w: World, c: nat, m: Manifest) {
    && NamesOk(w) && Live(w, c)
    && var me := w.committers[c];
    && me.phase.Open? && me.manifest.Some?
    && Validated(codec, FilesAt(w, StagingSlot(me)), me.manifest.value, me.staged, me.ns.layer) == Some(m)
    && StagingSlot(me) in w.dirs && SUCCESS !in FilesAt(w, StagingSlot(me))
    && LockSlot(me) !in w.dirs && Dest(me) !in w.dirs
  }

  ghost predicate ReadyToPublish(w: World, c: nat, m: Manifest, sha: string, files: Files) {
    && NamesOk(w) && Live(w, c)
    && var me := w.committers[c];
    && me.phase == Marked(m, sha)
    && StagingSlot(me) in w.dirs && FilesAt(w, StagingSlot(me)) == files
    && LockSlot(me) !in w.dirs && Dest(me) !in w.dirs
  }

  function SealSteps(c: nat): seq<Step> { [Check(c), DropOwner(c), WriteManifest(c), WriteMarker(c)] }

  function PublishSteps(c: nat): seq<Step> {
    [MakeLock(c), OwnLock(c), CheckAbsent(c), Rename(c), ReleaseLock(c)]
  }

  lemma RunOne(codec: Codec, w: World, steps: seq<Step>)
    requires steps != []
    ensures Run(codec, w, steps) == Run(codec, Exec(codec, w, steps[0]), steps[1..])
  {
  }

  lemma DoCheck(codec: Codec, w: World, c: nat, m: Manifest)
    requires Live(w, c) && w.committers[c].phase.Open? && w.committers[c].manifest.Some?
    requires var me := w.committers[c];
             Validated(codec, FilesAt(w, StagingSlot(me)), me.manifest.value, me.staged, me.ns.layer) == Some(m)
    ensures Exec(codec, w, Check(c)) ==
            w.(committers := w.committers[c := w.committers[c].(manifest := Some(m), phase := Checked(m))])
  {
    hide Validated;
  }

  lemma DoDropOwner(codec: Codec, w: World, c: nat, m: Manifest)
    requires Live(w, c) && w.committers[c].phase == Checked(m)
    ensures Exec(codec, w, DropOwner(c)) == Goto(Unlink(w, StagingSlot(w.committers[c]), OWNER), c, Unowned(m))
  {
  }

  lemma DoWriteManifest(codec: Codec, w: World, c: nat, m: Manifest)
    requires Live(w, c) && w.committers[c].phase == Unowned(m)
    ensures Exec(codec, w, WriteManifest(c)) ==
            Goto(Put(w, StagingSlot(w.committers[c]), MANIFEST, ManifestFile(m)), c, Described(m))
  {
  }

  lemma DoWriteMarker(codec: Codec, w: World, c: nat, m: Manifest)
    requires Live(w, c) && w.committers[c].phase == Described(m)
    requires var files := FilesAt(w, StagingSlot(w.committers[c]));
             MANIFEST in files && files[MANIFEST] == ManifestFile(m) && SUCCESS !in files
    ensures var sha := codec.hash(ManifestFile(m));
            Exec(codec, w, WriteMarker(c)) ==
            Goto(Put(w, StagingSlot(w.committers[c]), SUCCESS, Marker(sha)), c, Marked(m, sha))
  {
  }

  lemma DoMakeLock(codec: Codec, w: World, c: nat, m: Manifest, sha: string)
    requires Live(w, c) && w.committers[c].phase == Marked(m, sha) && LockSlot(w.committers[c]) !in w.dirs
    ensures Exec(codec, w, MakeLock(c)) ==
            Goto(w.(dirs := w.dirs[LockSlot(w.committers[c]) := Dir(map[], w.now)]), c, LockMade(m, sha))
  {
  }

  lemma DoOwnLock(codec: Codec, w: World, c: nat, m: Manifest, sha: string)
    requires Live(w, c) && w.committers[c].phase == LockMade(m, sha)
    ensures var me := w.committers[c];
            Exec(codec, w, OwnLock(c)) ==
            Goto(Put(w, LockSlot(me), LOCK_OWNER, OwnerFile(Owner(me.proc.host, me.proc.pid, me.token))), c, Locked(m, sha))
  {
  }

  lemma DoCheckAbsent(codec: Codec, w: World, c: nat, m: Manifest, sha: string)
    requires Live(w, c) && w.committers[c].phase == Locked(m, sha) && Dest(w.committers[c]) !in w.dirs
    ensures Exec(codec, w, CheckAbsent(c)) == Goto(w, c, Clear(m, sha))
  {
  }

  lemma DoRename(codec: Codec, w: World, c: nat)
    requires Live(w, c) && Renames(w, Rename(c))
    ensures Exec(codec, w, Rename(c)) == Moved(w, c)
  {
  }

  lemma DoRelease(codec: Codec, w: World, c: nat, m: Manifest, sha: string)
    requires Live(w, c) && w.committers[c].phase == Published(m, sha)
    ensures var me := w.committers[c];
            Exec(codec, w, ReleaseLock(c)) ==
            Goto(Released(w, LockSlot(me), me.token), c, Done(m, ManifestRef(me.ns.layer, me.ns.runId, sha)))
  {
  }

  lemma LockSteps(codec: Codec, w: World, c: nat, m: Manifest, sha: string, files: Files)
    requires ReadyToPublish(w, c, m, sha, files)
    ensures var me := w.committers[c];
            var owner := OwnerFile(Owner(me.proc.host, me.proc.pid, me.token));
            Run(codec, w, PublishSteps(c)[..3]) ==
            Goto(w.(dirs := w.dirs[LockSlot(me) := Dir(map[LOCK_OWNER := owner], w.now)]), c, Clear(m, sha))
  {
    hide Exec, NamesOk;
    var me := w.committers[c];
    var lock := LockSlot(me);
    DottedNames(w, c);
    hide IsSafeId, LockName;
    DoMakeLock(codec, w, c, m, sha);
    var w1 := Exec(codec, w, MakeLock(c));
    DoOwnLock(codec, w1, c, m, sha);
    var w2 := Exec(codec, w1, OwnLock(c));
    var owner := OwnerFile(Owner(me.proc.host, me.proc.pid, me.token));
    assert w2.dirs == w.dirs[lock := Dir(map[LOCK_OWNER := owner], w.now)];
    DoCheckAbsent(codec, w2, c, m, sha);
    var steps := PublishSteps(c)[..3];
    assert steps == [MakeLock(c), OwnLock(c), CheckAbsent(c)];
    RunOne(codec, w, steps);
    assert steps[1..] == [OwnLock(c), CheckAbsent(c)];
    RunTwo(codec, w1, OwnLock(c), CheckAbsent(c));
  }

  lemma RenameAndRelease(codec: Codec, w: World, c: nat, m: Manifest, sha: string, files: Files)
    requires NamesOk(w) && Live(w, c) && w.committers[c].phase == Clear(m, sha)
    requires var me := w.committers[c];
             && StagingSlot(me) in w.dirs && FilesAt(w, StagingSlot(me)) == files && Dest(me) !in w.dirs
             && FilesAt(w, LockSlot(me)) == map[LOCK_OWNER := OwnerFile(Owner(me.proc.host, me.proc.pid, me.token))]
    ensures var me := w.committers[c];
            var w' := Exec(codec, Exec(codec, w, Rename(c)), ReleaseLock(c));
            && c in w'.committers
            && w'.committers[c].phase == Done(m, ManifestRef(me.ns.layer, me.ns.runId, sha))
            && Dest(me) in w'.dirs && w'.dirs[Dest(me)].files == files
            && StagingSlot(me) !in w'.dirs && LockSlot(me) !in w'.dirs
  {
    hide Exec, NamesOk;
    var me := w.committers[c];
    DottedNames(w, c);
    LockApart(w, c, c);
    hide IsSafeId, LockName;
    DoRename(codec, w, c);
    var w4 := Moved(w, c);
    DoRelease(codec, w4, c, m, sha);
    ReleaseOwn(w4, LockSlot(me), me);
  }

  /** From the marker on, an unopposed commit publishes its directory as it is and cleans up. */
  lemma PublishAlone(codec: Codec, w: World, c: nat, m: Manifest, sha: string, files: Files)
    requires ReadyToPublish(w, c, m, sha, files)
    ensures var me := w.committers[c];
            var w' := Run(codec, w, PublishSteps(c));
            && c in w'.committers
            && w'.committers[c].phase == Done(m, ManifestRef(me.ns.layer, me.ns.runId, sha))
            && Dest(me) in w'.dirs && w'.dirs[Dest(me)].files == files
            && StagingSlot(me) !in w'.dirs && LockSlot(me) !in w'.dirs
  {
    hide Exec, Run;
    LockSteps(codec, w, c, m, sha, files);
    var steps := PublishSteps(c);
    var w3 := Run(codec, w, steps[..3]);
    assert steps == steps[..3] + [Rename(c), ReleaseLock(c)];
    RunConcat(codec, w, steps[..3], [Rename(c), ReleaseLock(c)]);
    RunTwo(codec, w3, Rename(c), ReleaseLock(c));
    DottedNames(w, c);
    LockApart(w, c, c);
    hide IsSafeId, LockName;
    SameNames(w, w3, c);
    hide NamesOk;
    RenameAndRelease(codec, w3, c, m, sha, files);
  }

  lemma ReleaseOwn(w: World, lock: Slot, me: Committer)
    requires FilesAt(w, lock) == map[LOCK_OWNER := OwnerFile(Owner(me.proc.host, me.proc.pid, me.token))]
    ensures Released(w, lock, me.token) == Remove(w, lock)
  {
    assert FilesAt(w, lock) - {LOCK_OWNER} == map[];
  }

  lemma SameNames(w: World, w': World, c: nat)
    requires NamesOk(w) && c in w.committers && c in w'.committers
    requires w'.committers == w.committers[c := w'.committers[c]] && w'.everStaged == w.everStaged
    requires w'.committers[c].ns == w.committers[c].ns && w'.committers[c].staging == w.committers[c].staging
    ensures NamesOk(w')
  {
  }

  lemma SealAlone(codec: Codec, w: World, c: nat, m: Manifest)
    requires Unopposed(codec, w, c, m)
    ensures var files := Sealed(codec, FilesAt(w, StagingSlot(w.committers[c])), m);
            ReadyToPublish(Run(codec, w, SealSteps(c)), c, m, codec.hash(ManifestFile(m)), files)
    ensures var w' := Run(codec, w, SealSteps(c));
            w'.committers[c].ns == w.committers[c].ns && w'.committers[c].staging == w.committers[c].staging
  {
    hide Exec, Validated, NamesOk;
    var me := w.committers[c];
    var dir, files := StagingSlot(me), FilesAt(w, StagingSlot(me));
    DottedNames(w, c);
    LockApart(w, c, c);
    hide IsSafeId, LockName;
    DoCheck(codec, w, c, m);
    var w1 := Exec(codec, w, Check(c));
    DoDropOwner(codec, w1, c, m);
    var w2 := Exec(codec, w1, DropOwner(c));
    assert FilesAt(w2, dir) == files - {OWNER};
    DoWriteManifest(codec, w2, c, m);
    var w3 := Exec(codec, w2, WriteManifest(c));
    assert FilesAt(w3, dir) == (files - {OWNER})[MANIFEST := ManifestFile(m)];
    DoWriteMarker(codec, w3, c, m);
    var w4 := Exec(codec, w3, WriteMarker(c));
    assert FilesAt(w4, dir) == Sealed(codec, files, m);
    SameNames(w, w4, c);
    assert ReadyToPublish(w4, c, m, codec.hash(ManifestFile(m)), Sealed(codec, files, m));
    hide Sealed;
    var steps := SealSteps(c);
    assert steps == [Check(c), DropOwner(c)] + [WriteManifest(c), WriteMarker(c)];
    RunConcat(codec, w, [Check(c), DropOwner(c)], [WriteManifest(c), WriteMarker(c)]);
    RunTwo(codec, w, Check(c), DropOwner(c));
    RunTwo(codec, w2, WriteManifest(c), WriteMarker(c));
  }

  /** Progress: an unopposed commit succeeds and publishes its sealed staging directory. */
  lemma CommitAlone(codec: Codec, w: World, c: nat, m: Manifest)
    requires Unopposed(codec, w, c, m)
    ensures var me := w.committers[c];
            var w' := Run(codec, w, SealSteps(c) + PublishSteps(c));
            && c in w'.committers && w'.committers[c].phase == Done(m, RefOf(codec, me.ns, m))
            && Dest(me) in w'.dirs
            && w'.dirs[Dest(me)].files == Sealed(codec, FilesAt(w, StagingSlot(me)), m)
            && StagingSlot(me) !in w'.dirs && LockSlot(me) !in w'.dirs
  {
    SealAlone(codec, w, c, m);
    hide Sealed;
    var w1 := Run(codec, w, SealSteps(c));
    PublishAlone(codec, w1, c, m, codec.hash(ManifestFile(m)), Sealed(codec, FilesAt(w, StagingSlot(w.committers[c])), m));
    RunConcat(codec, w, SealSteps(c), PublishSteps(c));
  }

  /** A required artifact at the owner document's path passes the checks of commit, is deleted
      by commit, and leaves a published package that does not verify. */
  lemma OwnerArtifactIsLost(codec: Codec, w: World, c: nat, m: Manifest)
    requires Unopposed(codec, w, c, m) && RecordsOk(w.committers[c]) && OwnerArtifactRequired(m)
    ensures var me := w.committers[c];
            var w' := Run(codec, w, SealSteps(c) + PublishSteps(c));
            && c in w'.committers && w'.committers[c].phase.Done?
            && !Intact(codec, FilesAt(w', Dest(me)), w'.committers[c].phase.ref)
  {
    var me := w.committers[c];
    var files := FilesAt(w, StagingSlot(me));
    CommitAlone(codec, w, c, m);
    SealedIsWellSealed(codec, files, me.manifest.value, me.staged, me.ns);
    SealedVerifies(codec, Sealed(codec, files, m), me.ns, m);
    hide Run, Intact, Sealed;
  }

  /** The schedule that breaks a commit when sweeps are not timely: the staging directory goes
      right after its owner document, and the manifest write brings it back without artifacts. */
  function UntimelySteps(c: nat, dir: Slot, now: int, retain: nat): seq<Step> {
    [Check(c), DropOwner(c), Tick(retain), Sweep(dir, "", now + retain, retain, retain), WriteManifest(c), WriteMarker(c)]
  }

  /** After the owner document is dropped the directory is there, without it. */
  lemma DropAlone(codec: Codec, w: World, c: nat, m: Manifest)
    requires Unopposed(codec, w, c, m) && w.dirs[StagingSlot(w.committers[c])].mtime <= w.now
    ensures var me, dir := w.committers[c], StagingSlot(w.committers[c]);
            var w2 := Exec(codec, Exec(codec, w, Check(c)), DropOwner(c));
            && w2.committers == w.committers[c := me.(manifest := Some(m), phase := Unowned(m))]
            && w2.now == w.now && LockSlot(me) !in w2.dirs && Dest(me) !in w2.dirs
            && dir in w2.dirs && OWNER !in w2.dirs[dir].files && w2.dirs[dir].mtime <= w.now
            && NamesOk(w2)
  {
    hide Exec, Validated, NamesOk;
    DottedNames(w, c);
    LockApart(w, c, c);
    hide IsSafeId, LockName;
    DoCheck(codec, w, c, m);
    var w1 := Exec(codec, w, Check(c));
    DoDropOwner(codec, w1, c, m);
    SameNames(w, Exec(codec, w1, DropOwner(c)), c);
  }

  /** Writing the manifest and the marker after the directory is gone brings it back with just these. */
  lemma RebuildAlone(codec: Codec, w: World, c: nat, m: Manifest)
    requires NamesOk(w) && Live(w, c) && w.committers[c].phase == Unowned(m) && StagingSlot(w.committers[c]) !in w.dirs
    requires LockSlot(w.committers[c]) !in w.dirs && Dest(w.committers[c]) !in w.dirs
    ensures var sha := codec.hash(ManifestFile(m));
            var w' := Exec(codec, Exec(codec, w, WriteManifest(c)), WriteMarker(c));
            && ReadyToPublish(w', c, m, sha, map[MANIFEST := ManifestFile(m), SUCCESS := Marker(sha)])
            && w'.committers[c].ns == w.committers[c].ns && w'.committers[c].staging == w.committers[c].staging
  {
    hide Exec, NamesOk;
    DottedNames(w, c);
    LockApart(w, c, c);
    hide IsSafeId, LockName;
    var dir := StagingSlot(w.committers[c]);
    DoWriteManifest(codec, w, c, m);
    var w1 := Exec(codec, w, WriteManifest(c));
    assert FilesAt(w1, dir) == map[MANIFEST := ManifestFile(m)];
    DoWriteMarker(codec, w1, c, m);
    SameNames(w, Exec(codec, w1, WriteMarker(c)), c);
  }

  lemma SweepAndRebuild(codec: Codec, w: World, c: nat, m: Manifest, retain: nat)
    requires NamesOk(w) && Live(w, c) && w.committers[c].phase == Unowned(m)
    requires var dir := StagingSlot(w.committers[c]);
             dir in w.dirs && OWNER !in w.dirs[dir].files && w.dirs[dir].mtime <= w.now
    requires LockSlot(w.committers[c]) !in w.dirs && Dest(w.committers[c]) !in w.dirs
    ensures var me, sha := w.committers[c], codec.hash(ManifestFile(m));
            var w1 := Exec(codec, Exec(codec, w, Tick(retain)), Sweep(StagingSlot(me), "", w.now + retain, retain, retain));
            var w' := Exec(codec, Exec(codec, w1, WriteManifest(c)), WriteMarker(c));
            && ReadyToPublish(w', c, m, sha, map[MANIFEST := ManifestFile(m), SUCCESS := Marker(sha)])
            && w'.committers[c].ns == me.ns
  {
    hide Exec, IsSafeId, LockName;
    SweepUnowned(codec, w, c, retain);
    var w1 := Remove(w.(now := w.now + retain), StagingSlot(w.committers[c]));
    SameNames(w, w1, c);
    hide NamesOk;
    RebuildAlone(codec, w1, c, m);
  }

  /** The world after the owner document is dropped, whatever the clock says. */
  lemma DroppedState(codec: Codec, w: World, c: nat, m: Manifest, w1: World, w2: World)
    requires Unopposed(codec, w, c, m) && w.dirs[StagingSlot(w.committers[c])].mtime <= w.now
    requires w1 == Exec(codec, w, Check(c)) && w2 == Exec(codec, w1, DropOwner(c))
    ensures NamesOk(w2) && Live(w2, c) && w2.committers[c].phase == Unowned(m) && w2.now == w.now
    ensures w2.committers[c].ns == w.committers[c].ns && w2.committers[c].staging == w.committers[c].staging
    ensures StagingSlot(w2.committers[c]) in w2.dirs && OWNER !in w2.dirs[StagingSlot(w2.committers[c])].files
    ensures w2.dirs[StagingSlot(w2.committers[c])].mtime <= w2.now
    ensures LockSlot(w2.committers[c]) !in w2.dirs && Dest(w2.committers[c]) !in w2.dirs
  {
    DropAlone(codec, w, c, m);
    hide Exec, Unopposed, NamesOk;
  }

  /** A sweep that does not wait removes the directory; the manifest is then written into a new one. */
  lemma RebuiltState(codec: Codec, w2: World, c: nat, m: Manifest, retain: nat, w3: World, w4: World, w5: World, w6: World)
    requires NamesOk(w2) && Live(w2, c) && w2.committers[c].phase == Unowned(m)
    requires StagingSlot(w2.committers[c]) in w2.dirs && OWNER !in w2.dirs[StagingSlot(w2.committers[c])].files
    requires w2.dirs[StagingSlot(w2.committers[c])].mtime <= w2.now
    requires LockSlot(w2.committers[c]) !in w2.dirs && Dest(w2.committers[c]) !in w2.dirs
    requires w3 == Exec(codec, w2, Tick(retain))
    requires w4 == Exec(codec, w3, Sweep(StagingSlot(w2.committers[c]), "", w2.now + retain, retain, retain))
    requires w5 == Exec(codec, w4, WriteManifest(c)) && w6 == Exec(codec, w5, WriteMarker(c))
    ensures var sha := codec.hash(ManifestFile(m));
            && ReadyToPublish(w6, c, m, sha, map[MANIFEST := ManifestFile(m), SUCCESS := Marker(sha)])
            && w6.committers[c].ns == w2.committers[c].ns
  {
    hide *;
    SweepAndRebuild(codec, w2, c, m, retain);
  }

  lemma RunSixThrough(codec: Codec, w: World, steps: seq<Step>, w1: World, w2: World, w3: World, w4: World, w5: World, w6: World)
    requires |steps| == 6
    requires w1 == Exec(codec, w, steps[0]) && w2 == Exec(codec, w1, steps[1]) && w3 == Exec(codec, w2, steps[2])
    requires w4 == Exec(codec, w3, steps[3]) && w5 == Exec(codec, w4, steps[4]) && w6 == Exec(codec, w5, steps[5])
    ensures Run(codec, w, steps) == w6
  {
    hide *;
    assert steps == [steps[0], steps[1], steps[2], steps[3], steps[4], steps[5]];
    RunSix(codec, w, steps[0], steps[1], steps[2], steps[3], steps[4], steps[5]);
  }

  lemma StepsAre(c: nat, dir: Slot, now: int, retain: nat)
    ensures var steps := UntimelySteps(c, dir, now, retain);
            && |steps| == 6 && steps[0] == Check(c) && steps[1] == DropOwner(c) && steps[2] == Tick(retain)
            && steps[3] == Sweep(dir, "", now + retain, retain, retain) && steps[4] == WriteManifest(c) && steps[5] == WriteMarker(c)
  {
  }

  lemma SlotsStay(a: Committer, b: Committer)
    requires a.ns == b.ns && a.staging == b.staging
    ensures StagingSlot(a) == StagingSlot(b)
  {
  }

  lemma CommitterThere(codec: Codec, w: World, c: nat, m: Manifest)
    requires Unopposed(codec, w, c, m)
    ensures c in w.committers
  {
  }

  lemma IsThere(w: World, c: nat)
    requires Live(w, c)
    ensures c in w.committers
  {
  }

  lemma UntimelySeal(codec: Codec, w: World, c: nat, m: Manifest, retain: nat)
    requires Unopposed(codec, w, c, m) && w.dirs[StagingSlot(w.committers[c])].mtime <= w.now
    ensures var me, sha := w.committers[c], codec.hash(ManifestFile(m));
            var w' := Run(codec, w, UntimelySteps(c, StagingSlot(me), w.now, retain));
            && ReadyToPublish(w', c, m, sha, map[MANIFEST := ManifestFile(m), SUCCESS := Marker(sha)])
            && w'.committers[c].ns == me.ns
  {
    hide *;
    CommitterThere(codec, w, c, m);
    var me := w.committers[c];
    var dir := StagingSlot(me);
    var steps := UntimelySteps(c, dir, w.now, retain);
    StepsAre(c, dir, w.now, retain);
    var w1 := Exec(codec, w, steps[0]);
    var w2 := Exec(codec, w1, steps[1]);
    var w3 := Exec(codec, w2, steps[2]);
    var w4 := Exec(codec, w3, steps[3]);
    var w5 := Exec(codec, w4, steps[4]);
    var w6 := Exec(codec, w5, steps[5]);
    DroppedState(codec, w, c, m, w1, w2);
    IsThere(w2, c);
    SlotsStay(w2.committers[c], me);
    RebuiltState(codec, w2, c, m, retain, w3, w4, w5, w6);
    RunSixThrough(codec, w, steps, w1, w2, w3, w4, w5, w6);
  }

  lemma UntimelySweepBreaks(codec: Codec, w: World, c: nat, m: Manifest, retain: nat)
    requires Unopposed(codec, w, c, m) && w.dirs[StagingSlot(w.committers[c])].mtime <= w.now
    requires exists d :: d in m.artifacts && d.required && !IsReserved(d.path)
    ensures var me := w.committers[c];
            var w' := Run(codec, w, UntimelySteps(c, StagingSlot(me), w.now, retain) + PublishSteps(c));
            && c in w'.committers && w'.committers[c].phase.Done?
            && Dest(me) in w'.dirs
            && !Intact(codec, w'.dirs[Dest(me)].files, w'.committers[c].phase.ref)
  {
    var me := w.committers[c];
    var steps := UntimelySteps(c, StagingSlot(me), w.now, retain);
    hide Exec, Validated, NamesOk, IsSafeId, Intact, Run;
    UntimelySeal(codec, w, c, m, retain);
    var sha := codec.hash(ManifestFile(m));
    var files := map[MANIFEST := ManifestFile(m), SUCCESS := Marker(sha)];
    RunConcat(codec, w, steps, PublishSteps(c));
    PublishAlone(codec, Run(codec, w, steps), c, m, sha, files);
    NotIntact(codec, files, RefOf(codec, me.ns, m), m);
  }

  lemma SweepUnowned(codec: Codec, w: World, c: nat, retain: nat)
    requires NamesOk(w) && Live(w, c)
    requires var dir := StagingSlot(w.committers[c]);
             dir in w.dirs && OWNER !in w.dirs[dir].files && w.dirs[dir].mtime <= w.now
    ensures var dir := StagingSlot(w.committers[c]);
            Exec(codec, Exec(codec, w, Tick(retain)), Sweep(dir, "", w.now + retain, retain, retain)) ==
            Remove(w.(now := w.now + retain), dir)
  {
    var me := w.committers[c];
    var suffix :| IsSuffix(suffix) && me.staging == StagingName(me.ns.runId, suffix);
    ContainsInside("." + me.ns.runId, ".tmp-", suffix);
  }

  lemma RunSix(codec: Codec, w: World, s1: Step, s2: Step, s3: Step, s4: Step, s5: Step, s6: Step)
    ensures Run(codec, w, [s1, s2, s3, s4, s5, s6]) ==
            Exec(codec, Exec(codec, Exec(codec, Exec(codec, Exec(codec, Exec(codec, w, s1), s2), s3), s4), s5), s6)
  {
    hide Exec;
    assert [s1, s2, s3, s4, s5, s6] == [s1, s2] + ([s3, s4] + [s5, s6]);
    RunConcat(codec, w, [s1, s2], [s3, s4] + [s5, s6]);
    RunTwo(codec, w, s1, s2);
    var w2 := Run(codec, w, [s1, s2]);
    RunConcat(codec, w2, [s3, s4], [s5, s6]);
    RunTwo(codec, w2, s3, s4);
    RunTwo(codec, Run(codec, w2, [s3, s4]), s5, s6);
  }

  lemma NotIntact(codec: Codec, files: Files, ref: ManifestRef, m: Manifest)
    requires MANIFEST in files && files[MANIFEST] == ManifestFile(m)
    requires exists d :: d in m.artifacts && d.required && d.path !in files
    ensures !Intact(codec, files, ref)
  {
    var d :| d in m.artifacts && d.required && d.path !in files;
    var i :| 0 <= i < |m.artifacts| && m.artifacts[i] == d;
  }
}
