/** Mutual exclusion by commit locks, and which sweeps break it. */
module Locking {
  import opened Prelude
  import opened Contracts
  import opened Store
  import opened Publication

  // ---- who holds a lock ------------------------------------------------------------

  /** Between making the lock and releasing it. */
  predicate Holding(p: Phase) {
    p.LockMade? || p.Locked? || p.Clear? || p.Published? || p.Aborting? || p.Unlocking?
  }

  ghost predicate Holds(w: World, c: nat) { Live(w, c) && Holding(w.committers[c].phase) }

  /** What a holder has put in its lock. */
  function LockFiles(me: Committer): Files {
    if me.phase.LockMade? then map[] else map[LOCK_OWNER := OwnerFile(Owner(me.proc.host, me.proc.pid, me.token))]
  }

  /** A living committer's process is running, and the lock of a holder is there as it made it. */
  ghost predicate LocksHeld(w: World) {
    && (forall c :: Live(w, c) ==> w.committers[c].proc in w.running)
    && (forall c :: Holds(w, c) ==>
          LockSlot(w.committers[c]) in w.dirs && w.dirs[LockSlot(w.committers[c])].files == LockFiles(w.committers[c]))
  }

  /** No two living committers of one namespace hold its lock. */
  ghost predicate Exclusive(w: World) {
    forall c, d :: Holds(w, c) && Holds(w, d) && c != d ==> w.committers[c].ns != w.committers[d].ns
  }

  /** Once a holder has seen its package path free, it stays free. */
  ghost predicate PathsFree(w: World) {
    forall c :: Live(w, c) && w.committers[c].phase.Clear? ==> Dest(w.committers[c]) !in w.dirs
  }

  ghost predicate LocksOk(w: World) { LocksHeld(w) && Exclusive(w) && PathsFree(w) }

  lemma SameLockSameNs(a: Committer, b: Committer)
    ensures LockSlot(a) == LockSlot(b) <==> a.ns == b.ns
    ensures Dest(a) == Dest(b) <==> a.ns == b.ns
  {
    if LockSlot(a) == LockSlot(b) {
      var x, y := LockName(a.ns.runId), LockName(b.ns.runId);
      assert |x| == |y|;
      assert x[1..1 + |a.ns.runId|] == a.ns.runId && y[1..1 + |b.ns.runId|] == b.ns.runId;
    }
  }

  // ---- a committer's own step ----------------------------------------------------------

  /** What a step of its own does to a committer's lock: only making creates it, only releasing
      removes it, and it is made only where there was none. */
  ghost predicate LockMoves(w: World, w': World, c: nat) {
    && c in w.committers && c in w'.committers
    && var me, me' := w.committers[c], w'.committers[c];
    var lock := LockSlot(me);
    && (!Holding(me.phase) && lock in w.dirs ==> lock in w'.dirs && w'.dirs[lock] == w.dirs[lock] && !Holding(me'.phase))
    && (!Holding(me.phase) && Holding(me'.phase) ==> me'.phase.LockMade?)
    && (Holding(me'.phase) && (Holding(me.phase) ==> lock in w.dirs && w.dirs[lock].files == LockFiles(me)) ==>
          lock in w'.dirs && w'.dirs[lock].files == LockFiles(me'))
  }

  /** Making a lock: refused, with no directory changed, exactly if the lock is there. */
  lemma MeetsLock(codec: Codec, w: World, c: nat)
    requires Live(w, c) && w.committers[c].phase.Marked?
    ensures var w', lock := Exec(codec, w, MakeLock(c)), LockSlot(w.committers[c]);
            && c in w'.committers && (Holding(w'.committers[c].phase) <==> lock !in w.dirs)
            && (lock in w.dirs ==> w'.dirs == w.dirs && w'.committers[c].phase == Open)
            && (lock !in w.dirs ==> w'.dirs.Keys == w.dirs.Keys + {lock})
  {
  }

  lemma OwnLockMoves(codec: Codec, w: World, s: Step)
    requires IsCommitterStep(s) && Live(w, s.c) && !Renames(w, s)
    requires StagingSlot(w.committers[s.c]) != LockSlot(w.committers[s.c])
    ensures LockMoves(w, Exec(codec, w, s), s.c)
  {
    hide Validated, Upsert, IsReserved, StagingName, LockName;
  }

  lemma ClearMoves(codec: Codec, w: World, s: Step)
    requires IsCommitterStep(s) && Live(w, s.c)
    ensures s.c in Exec(codec, w, s).committers
    ensures Exec(codec, w, s).committers[s.c].phase.Clear? ==>
            w.committers[s.c].phase.Clear? || Dest(w.committers[s.c]) !in w.dirs
  {
    hide Validated, Upsert, IsReserved, StagingName, LockName;
  }

  lemma OwnStepKeepsHeld(w: World, w': World, c: nat)
    requires NamesOk(w) && LocksHeld(w) && Exclusive(w) && OwnEffect(w, w', c) && LockMoves(w, w', c) && Live(w, c)
    ensures LocksHeld(w') && Exclusive(w')
  {
    hide IsSafeId, StagingName, LockName;
    forall d | Holds(w', d)
      ensures LockSlot(w'.committers[d]) in w'.dirs && w'.dirs[LockSlot(w'.committers[d])].files == LockFiles(w'.committers[d])
    {
      if d != c {
        SameLockSameNs(w.committers[c], w.committers[d]);
        LockApart(w, c, d);
        if w.committers[c].ns != w.committers[d].ns { Untouched(w, w', c, LockSlot(w.committers[d])); }
      }
    }
    forall d | Holds(w', d) && Holds(w', c) && d != c ensures w'.committers[c].ns != w'.committers[d].ns {
      SameLockSameNs(w.committers[c], w.committers[d]);
    }
  }

  lemma OwnStepKeepsPaths(w: World, w': World, c: nat)
    requires NamesOk(w) && PathsFree(w) && OwnEffect(w, w', c)
    requires w'.committers[c].phase.Clear? ==> w.committers[c].phase.Clear? || Dest(w.committers[c]) !in w.dirs
    ensures PathsFree(w')
  {
    forall d | Live(w', d) && w'.committers[d].phase.Clear? ensures Dest(w'.committers[d]) !in w'.dirs {
      DottedNames(w, c);
      DottedNames(w, d);
      Untouched(w, w', c, Dest(w.committers[d]));
    }
  }

  /** A rename takes nobody's lock, and nobody else had seen that path free. */
  lemma MoveKeepsLocks(w: World, c: nat)
    requires NamesOk(w) && LocksOk(w) && Live(w, c) && w.committers[c].phase.Clear? && StagingSlot(w.committers[c]) in w.dirs
    ensures LocksOk(Moved(w, c))
  {
    var w' := Moved(w, c);
    DottedNames(w, c);
    forall d | Holds(w', d)
      ensures LockSlot(w'.committers[d]) in w'.dirs && w'.dirs[LockSlot(w'.committers[d])].files == LockFiles(w'.committers[d])
    {
      LockApart(w, c, d);
      DottedNames(w, d);
    }
    forall d | Live(w', d) && w'.committers[d].phase.Clear? ensures Dest(w'.committers[d]) !in w'.dirs {
      SameLockSameNs(w.committers[c], w.committers[d]);
    }
  }

  lemma CommitterKeepsLocks(codec: Codec, w: World, s: Step)
    requires NamesOk(w) && LocksOk(w) && IsCommitterStep(s)
    ensures LocksOk(Exec(codec, w, s))
  {
    hide NamesOk;
    var w' := Exec(codec, w, s);
    if Live(w, s.c) && Renames(w, s) {
      MoveKeepsLocks(w, s.c);
      assert w' == Moved(w, s.c);
    } else if Live(w, s.c) {
      LockApart(w, s.c, s.c);
      EffectOfStep(codec, w, s);
      OwnLockMoves(codec, w, s);
      ClearMoves(codec, w, s);
      hide Exec, LockMoves, LocksHeld, Exclusive, PathsFree, OwnEffect;
      OwnStepKeepsHeld(w, w', s.c);
      OwnEffectThere(w, w', s.c);
      OwnStepKeepsPaths(w, w', s.c);
    }
  }

  lemma OwnEffectThere(w: World, w': World, c: nat)
    requires OwnEffect(w, w', c)
    ensures c in w.committers && c in w'.committers
  {
  }

  // ---- everything else -----------------------------------------------------------------

  /** A sweep spares the locks of living holders. */
  ghost predicate SparesLocks(codec: Codec, w: World, s: Step) {
    s.Sweep? && Swept(codec, w, s) ==> forall c :: Holds(w, c) ==> LockSlot(w.committers[c]) != s.slot
  }

  ghost predicate SparingRun(codec: Codec, w: World, steps: seq<Step>)
    decreases |steps|
  {
    steps == [] || (SparesLocks(codec, w, steps[0]) && SparingRun(codec, Exec(codec, w, steps[0]), steps[1..]))
  }

  lemma BeginKeepsLocks(codec: Codec, w: World, s: Step)
    requires NamesOk(w) && LocksOk(w) && s.Begin?
    ensures LocksOk(Exec(codec, w, s))
  {
    var w', slot := Exec(codec, w, s), Slot(s.ns.layer, StagingName(s.ns.runId, s.suffix));
    if w' != w {
      assert w' == WithStaging(w, s);
      assert slot.name[0] == '.' && !IsSafeId(slot.name);
      forall d | d in w.committers ensures LockSlot(w.committers[d]) != slot && Dest(w.committers[d]) != slot {
        LockIsNotStaging(w.committers[d].ns.runId, s.ns.runId, s.suffix);
        DottedNames(w, d);
      }
      hide Exec, NamesOk, StagingName, LockName, IsSafeId;
      StagedKeepsLocks(w, s, slot);
    }
  }

  lemma StagedKeepsLocks(w: World, s: Step, slot: Slot)
    requires LocksOk(w) && s.Begin? && slot == Slot(s.ns.layer, StagingName(s.ns.runId, s.suffix)) && s.c !in w.committers
    requires forall d :: d in w.committers ==> LockSlot(w.committers[d]) != slot && Dest(w.committers[d]) != slot
    ensures LocksOk(WithStaging(w, s))
  {
    hide StagingName, LockName;
  }

  lemma OutsideKeepsLocks(codec: Codec, w: World, s: Step)
    requires LocksOk(w) && SparesLocks(codec, w, s) && (s.Tick? || s.Crash? || s.Sweep?)
    ensures LocksOk(Exec(codec, w, s))
  {
    hide Swept;
  }

  lemma StepKeepsLocks(codec: Codec, w: World, s: Step)
    requires Inv(w) && LocksOk(w) && SparesLocks(codec, w, s)
    ensures Inv(Exec(codec, w, s)) && LocksOk(Exec(codec, w, s))
  {
    StepKeepsInv(codec, w, s);
    hide Exec, LocksOk, SparesLocks, NamesOk;
    if IsCommitterStep(s) {
      CommitterKeepsLocks(codec, w, s);
    } else if s.Begin? {
      BeginKeepsLocks(codec, w, s);
    } else {
      OutsideKeepsLocks(codec, w, s);
    }
  }

  lemma {:induction false} LocksReachable(codec: Codec, w: World, steps: seq<Step>)
    requires Inv(w) && LocksOk(w) && SparingRun(codec, w, steps)
    ensures Inv(Run(codec, w, steps)) && LocksOk(Run(codec, w, steps))
    decreases |steps|
  {
    hide Exec, LocksOk, Inv, SparesLocks;
    if steps != [] {
      StepKeepsLocks(codec, w, steps[0]);
      LocksReachable(codec, Exec(codec, w, steps[0]), steps[1..]);
    }
  }

  // ---- mutual exclusion ----------------------------------------------------------------

  /** In every run in which sweeps spare the locks of living holders, two living committers of one
      namespace are never both between making the lock and releasing it. */
  lemma MutualExclusion(codec: Codec, steps: seq<Step>, c: nat, d: nat)
    requires SparingRun(codec, Empty, steps)
    requires Holds(Run(codec, Empty, steps), c) && Holds(Run(codec, Empty, steps), d)
    requires Run(codec, Empty, steps).committers[c].ns == Run(codec, Empty, steps).committers[d].ns
    ensures c == d
  {
    LocksReachable(codec, Empty, steps);
    hide Run, LocksHeld, PathsFree, SparingRun;
  }

  /** In such a run the look at the package path stays true: a holder that has seen the path free
      publishes if its staging directory is still there, and no rename of its own ever meets a package. */
  lemma HolderPublishes(codec: Codec, steps: seq<Step>, c: nat)
    requires SparingRun(codec, Empty, steps)
    requires Live(Run(codec, Empty, steps), c) && Run(codec, Empty, steps).committers[c].phase.Clear?
    ensures var w := Run(codec, Empty, steps);
            var w' := Exec(codec, w, Rename(c));
            && c in w'.committers
            && (w'.committers[c].phase.Published? <==> StagingSlot(w.committers[c]) in w.dirs)
  {
    LocksReachable(codec, Empty, steps);
    hide Run, LocksHeld, Exclusive, SparingRun, Inv;
    RenameAlone(codec, Run(codec, Empty, steps), c);
  }

  lemma RenameAlone(codec: Codec, w: World, c: nat)
    requires Live(w, c) && w.committers[c].phase.Clear? && Dest(w.committers[c]) !in w.dirs
    ensures var w' := Exec(codec, w, Rename(c));
            c in w'.committers && (w'.committers[c].phase.Published? <==> StagingSlot(w.committers[c]) in w.dirs)
  {
  }

  /** Releasing leaves every directory alone unless the lock still holds the committer's own token; with
      nothing else in it, it is then gone. */
  lemma ForeignLockStays(codec: Codec, w: World, c: nat)
    requires Live(w, c) && (w.committers[c].phase.Published? || w.committers[c].phase.Unlocking?)
    ensures var me, w' := w.committers[c], Exec(codec, w, ReleaseLock(c));
            var files := FilesAt(w, LockSlot(me));
            if LOCK_OWNER in files && files[LOCK_OWNER].OwnerFile? && files[LOCK_OWNER].owner.token == me.token
            then
              && (files.Keys == {LOCK_OWNER} ==> w'.dirs == w.dirs - {LockSlot(me)})
              && (files.Keys != {LOCK_OWNER} ==> LockSlot(me) in w'.dirs && FilesAt(w', LockSlot(me)) == files - {LOCK_OWNER})
            else w'.dirs == w.dirs
  {
    var files := FilesAt(w, LockSlot(w.committers[c]));
    assert files.Keys == {LOCK_OWNER} <==> LOCK_OWNER in files && files - {LOCK_OWNER} == map[] by {
      if LOCK_OWNER in files && files - {LOCK_OWNER} == map[] {
        assert forall name :: name in files && name != LOCK_OWNER ==> name in files - {LOCK_OWNER};
      }
    }
    hide LockName;
  }

  /** A committer that finds a package in its place removes its own staging directory and lock, leaves the
      package and everything else alone, and may start again. */
  lemma LoserCleansUp(codec: Codec, w: World, c: nat)
    requires NamesOk(w) && LocksHeld(w) && Live(w, c) && w.committers[c].phase.Locked? && Dest(w.committers[c]) in w.dirs
    ensures var me, w' := w.committers[c], Run(codec, w, [CheckAbsent(c), RemoveStaging(c), ReleaseLock(c)]);
            && w'.dirs == w.dirs - {StagingSlot(me), LockSlot(me)} && Dest(me) in w'.dirs
            && w'.committers == w.committers[c := me.(phase := Open)]
  {
    var me := w.committers[c];
    LockApart(w, c, c);
    DottedNames(w, c);
    ThreeSteps(codec, w, CheckAbsent(c), RemoveStaging(c), ReleaseLock(c));
    hide NamesOk, StagingName, LockName, IsSafeId, Exec, Run, Released;
    DoCheckTaken(codec, w, c);
    var w1 := Goto(w, c, Aborting);
    DoRemoveStaging(codec, w1, c);
    var w2 := Goto(Remove(w1, StagingSlot(me)), c, Unlocking);
    DoReleaseAborted(codec, w2, c);
    ReleaseOwn(w2, LockSlot(me), me);
    assert (w.dirs - {StagingSlot(me)}) - {LockSlot(me)} == w.dirs - {StagingSlot(me), LockSlot(me)};
  }

  lemma DoCheckTaken(codec: Codec, w: World, c: nat)
    requires Live(w, c) && w.committers[c].phase.Locked? && Dest(w.committers[c]) in w.dirs
    ensures Exec(codec, w, CheckAbsent(c)) == Goto(w, c, Aborting)
  {
  }

  lemma DoRemoveStaging(codec: Codec, w: World, c: nat)
    requires Live(w, c) && w.committers[c].phase.Aborting?
    ensures Exec(codec, w, RemoveStaging(c)) == Goto(Remove(w, StagingSlot(w.committers[c])), c, Unlocking)
  {
  }

  lemma DoReleaseAborted(codec: Codec, w: World, c: nat)
    requires Live(w, c) && w.committers[c].phase.Unlocking?
    ensures Exec(codec, w, ReleaseLock(c)) == Goto(Released(w, LockSlot(w.committers[c]), w.committers[c].token), c, Open)
  {
  }

  lemma ThreeSteps(codec: Codec, w: World, a: Step, b: Step, c: Step)
    ensures Run(codec, w, [a, b, c]) == Exec(codec, Exec(codec, Exec(codec, w, a), b), c)
  {
    assert [a, b, c][1..] == [b, c];
    RunTwo(codec, Exec(codec, w, a), b, c);
    hide Exec;
  }

  /** A process that dies takes exactly its own committers with it. */
  lemma CrashTakes(codec: Codec, w: World, proc: Proc, c: nat)
    ensures var w' := Exec(codec, w, Crash(proc));
            && w'.dirs == w.dirs && w'.running == w.running - {proc}
            && (Live(w', c) <==> Live(w, c) && w.committers[c].proc != proc)
            && (Live(w', c) ==> w'.committers[c] == w.committers[c])
  {
  }

  // ---- which sweeps take a held lock ------------------------------------------------------

  /** A sweep takes the lock of a living holder exactly if the lock is old enough and its owner is
      not written yet, or if the lock's own name reads as that of a staging directory. */
  lemma SweptLock(codec: Codec, w: World, c: nat, host: string, at: int, retain: nat, stale: nat)
    requires LocksHeld(w) && Holds(w, c)
    ensures var slot := LockSlot(w.committers[c]);
            var age := at - w.dirs[slot].mtime;
            Swept(codec, w, Sweep(slot, host, at, retain, stale)) <==>
            && at <= w.now
            && if Contains(slot.name, ".tmp-") then age >= retain else age >= stale && w.committers[c].phase.LockMade?
  {
    var me := w.committers[c];
    var name := LockSlot(me).name;
    assert name[|name| - 12..] == ".commit-lock";
    hide Contains, LockName;
  }

  /** `.tmp-` stands at this place. */
  predicate TmpAt(s: string, k: int) {
    0 <= k <= |s| - 5 && s[k] == '.' && s[k + 1] == 't' && s[k + 2] == 'm' && s[k + 3] == 'p' && s[k + 4] == '-'
  }

  lemma TmpFirst(s: string)
    ensures ".tmp-" <= s <==> TmpAt(s, 0)
  {
    if TmpAt(s, 0) { assert s[..5] == ".tmp-"; }
    if ".tmp-" <= s { assert s[..5] == ".tmp-"; }
  }

  lemma {:induction false} ContainsTmp(s: string)
    ensures Contains(s, ".tmp-") <==> exists k :: TmpAt(s, k)
  {
    TmpFirst(s);
    if s != [] && !TmpAt(s, 0) {
      ContainsTmp(s[1..]);
      if k :| TmpAt(s, k) { assert TmpAt(s[1..], k - 1); }
      if k :| TmpAt(s[1..], k) { assert TmpAt(s, k + 1); }
    }
  }

  lemma LockTmpAt(runId: string, k: int)
    ensures TmpAt(LockName(runId), k) <==> (k == 0 && "tmp-" <= runId) || TmpAt(runId, k - 1)
  {
    var name, n := LockName(runId), |runId|;
    assert name[0] == '.' && forall i :: 0 <= i < n ==> name[i + 1] == runId[i];
    forall i | 0 <= i < 12 ensures name[n + 1 + i] == ".commit-lock"[i] {
    }
    assert name[n + 1] == '.' && name[n + 2] == 'c';
    hide LockName;
    if TmpAt(name, k) {
      assert k + 4 <= n;
      if k == 0 { assert runId[..4] == "tmp-"; }
    }
    if "tmp-" <= runId { assert runId[..4] == "tmp-"; assert runId[0] == 't' && runId[1] == 'm' && runId[2] == 'p' && runId[3] == '-'; }
  }

  /** The locks that a sweep takes for staging directories: those of run ids that contain `.tmp-`
      and those of run ids that begin with `tmp-`. */
  lemma LockReadsAsStaging(runId: string)
    ensures Contains(LockName(runId), ".tmp-") <==> "tmp-" <= runId || Contains(runId, ".tmp-")
  {
    ContainsTmp(LockName(runId));
    ContainsTmp(runId);
    forall k ensures TmpAt(LockName(runId), k) <==> (k == 0 && "tmp-" <= runId) || TmpAt(runId, k - 1) {
      LockTmpAt(runId, k);
    }
    hide *;
    if "tmp-" <= runId { assert TmpAt(LockName(runId), 0); }
    if k :| TmpAt(runId, k) { assert TmpAt(LockName(runId), k + 1); }
  }

  /** Such a run id need not be one whose packages are swept. */
  lemma TmpRunIds()
    ensures IsSafeId("tmp-a") && !Sweepable("tmp-a") && Contains(LockName("tmp-a"), ".tmp-")
  {
    LockReadsAsStaging("tmp-a");
    assert "tmp-a"[..4] == "tmp-";
    ContainsTmp("tmp-a");
  }

  // ---- owners that are alive ------------------------------------------------------------

  /** A sweep by any host never takes a directory whose owner document names a running process. */
  lemma LivingOwnerIsSpared(codec: Codec, w: World, s: Step)
    requires s.Sweep? && s.slot in w.dirs
    requires var owner := OwnerOf(codec, w.dirs[s.slot].files, OwnerDocument(s.slot.name));
             owner.Some? && Proc(owner.value.host, owner.value.pid) in w.running
    ensures !Swept(codec, w, s) && Exec(codec, w, s) == w
  {
    hide OwnerOf, Contains, EndsIn;
  }
}
