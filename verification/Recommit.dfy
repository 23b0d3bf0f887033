/** A second commit of a namespace: impossible unless a sweep can take the first package. */
module Recommit {
  import opened Prelude
  import opened Contracts
  import opened Store
  import opened Publication

  // ---- what a committer's steps leave alone ------------------------------------------

  /** The slots one committer works on. */
  function Own(me: Committer): set<Slot> { {StagingSlot(me), LockSlot(me), Dest(me)} }

  /** Between the worlds, only committer `c` and its own directories moved. */
  ghost predicate OnlyOwn(w: World, w': World, c: nat) {
    && c in w.committers && c in w'.committers
    && w'.committers == w.committers[c := w'.committers[c]] && SameIdentity(w.committers[c], w'.committers[c])
    && w'.everStaged == w.everStaged
    && w'.dirs - Own(w.committers[c]) == w.dirs - Own(w.committers[c])
  }

  lemma StepIsOwn(codec: Codec, w: World, s: Step)
    requires IsCommitterStep(s) && s.c in w.committers
    ensures OnlyOwn(w, Exec(codec, w, s), s.c)
  {
    if !Live(w, s.c) {
      assert Exec(codec, w, s) == w;
    } else if Renames(w, s) {
      assert Exec(codec, w, s) == Moved(w, s.c);
    } else {
      EffectOfStep(codec, w, s);
      hide Exec;
      OwnEffectIsOwn(w, Exec(codec, w, s), s.c);
    }
  }

  lemma OwnEffectIsOwn(w: World, w': World, c: nat)
    requires OwnEffect(w, w', c)
    ensures OnlyOwn(w, w', c)
  {
    var me := w.committers[c];
    var two := {StagingSlot(me), LockSlot(me)};
    assert w.dirs - Own(me) == (w.dirs - two) - {Dest(me)};
    assert w'.dirs - Own(me) == (w'.dirs - two) - {Dest(me)};
  }

  predicate AllBy(steps: seq<Step>, c: nat) {
    forall i :: 0 <= i < |steps| ==> IsCommitterStep(steps[i]) && steps[i].c == c
  }

  lemma {:induction false} StepsAreOwn(codec: Codec, w: World, c: nat, steps: seq<Step>)
    requires c in w.committers && AllBy(steps, c)
    ensures OnlyOwn(w, Run(codec, w, steps), c)
    decreases |steps|
  {
    if steps != [] {
      var w1 := Exec(codec, w, steps[0]);
      StepIsOwn(codec, w, steps[0]);
      hide Exec;
      StepsAreOwn(codec, w1, c, steps[1..]);
      assert Own(w1.committers[c]) == Own(w.committers[c]);
    }
  }

  // ---- commit, sweep, commit again -------------------------------------------------------

  function CommitSteps(c: nat): (r: seq<Step>)
    ensures AllBy(r, c)
  {
    SealSteps(c) + PublishSteps(c)
  }

  /** Ready to commit, apart from what may stand at the lock and at the package path. */
  ghost predicate Prepared(codec: Codec, w: World, c: nat, m: Manifest) {
    && Live(w, c)
    && var me := w.committers[c];
    && me.phase.Open? && me.manifest.Some?
    && Validated(codec, FilesAt(w, StagingSlot(me)), me.manifest.value, me.staged, me.ns.layer) == Some(m)
    && StagingSlot(me) in w.dirs && SUCCESS !in FilesAt(w, StagingSlot(me))
  }

  lemma PreparedIsUnopposed(codec: Codec, w: World, c: nat, m: Manifest)
    requires c in w.committers
    ensures Unopposed(codec, w, c, m) <==>
            NamesOk(w) && Prepared(codec, w, c, m) && LockSlot(w.committers[c]) !in w.dirs && Dest(w.committers[c]) !in w.dirs
  {
    hide NamesOk, Validated;
  }

  /** The staging directories of two committers of a namespace do not meet. */
  lemma StagingApart(w: World, c: nat, d: nat)
    requires NamesOk(w) && c in w.committers && d in w.committers && c != d
    ensures StagingSlot(w.committers[d]) !in Own(w.committers[c])
  {
    LockApart(w, c, d);
    LockApart(w, d, c);
    DottedNames(w, d);
    DottedNames(w, c);
  }

  lemma PreparedStays(codec: Codec, w: World, w': World, d: nat, m: Manifest)
    requires Prepared(codec, w, d, m) && d in w'.committers && w'.committers[d] == w.committers[d]
    requires var slot := StagingSlot(w.committers[d]); slot in w'.dirs && w'.dirs[slot] == w.dirs[slot]
    ensures Prepared(codec, w', d, m)
  {
    hide Validated;
  }

  lemma Outside(w: World, w': World, c: nat, slot: Slot)
    requires OnlyOwn(w, w', c) && slot !in Own(w.committers[c]) && slot in w.dirs
    ensures slot in w'.dirs && w'.dirs[slot] == w.dirs[slot]
  {
    assert slot in w.dirs - Own(w.committers[c]);
    assert (w'.dirs - Own(w.committers[c]))[slot] == w'.dirs[slot];
  }

  /** After one commit the package is there, the lock is gone, and the other committer is as ready. */
  lemma FirstCommit(codec: Codec, w: World, c: nat, d: nat, m: Manifest)
    requires Inv(w) && Unopposed(codec, w, c, m) && Prepared(codec, w, d, m) && c != d
    ensures var me, w' := w.committers[c], Run(codec, w, CommitSteps(c));
            && c in w'.committers && w'.committers[c].phase.Done? && w'.committers[c].ns == me.ns
            && d in w'.committers && w'.committers[d] == w.committers[d] && Prepared(codec, w', d, m)
            && Inv(w') && LockSlot(me) !in w'.dirs
            && Dest(me) in w'.dirs && w'.dirs[Dest(me)].files == Sealed(codec, FilesAt(w, StagingSlot(me)), m)
  {
    PreparedIsUnopposed(codec, w, c, m);
    CommitAlone(codec, w, c, m);
    StepsAreOwn(codec, w, c, CommitSteps(c));
    StagingApart(w, c, d);
    InvReachable(codec, w, CommitSteps(c));
    var w' := Run(codec, w, CommitSteps(c));
    hide Run, Inv, Sealed, Unopposed, Validated;
    Outside(w, w', c, StagingSlot(w.committers[d]));
    PreparedStays(codec, w, w', d, m);
  }

  /** A sweep that finds no owner document takes the package and nothing else. */
  lemma SweepTakes(codec: Codec, w: World, slot: Slot)
    requires slot in w.dirs && Sweepable(slot.name) && OwnerDocument(slot.name) !in w.dirs[slot].files
    ensures var w' := Run(codec, w, SweepAway(codec, w, slot, 0));
            w'.committers == w.committers && w'.everStaged == w.everStaged && w'.dirs == w.dirs - {slot}
  {
    hide Contains, EndsIn;
    SweptAway(codec, w, slot, 0);
    var steps := SweepAway(codec, w, slot, 0);
    assert steps == [steps[0], steps[1]];
    RunTwo(codec, w, steps[0], steps[1]);
    hide Run, Swept;
    var w1 := Exec(codec, w, steps[0]);
    assert w1.dirs == w.dirs;
    var w2 := Exec(codec, w1, steps[1]);
    assert w2 == w1 || w2 == Remove(w1, slot);
  }

  lemma SweptIsClear(codec: Codec, w: World, w': World, slot: Slot, d: nat, m: Manifest)
    requires Inv(w) && Prepared(codec, w, d, m) && Dest(w.committers[d]) == slot && LockSlot(w.committers[d]) !in w.dirs
    requires w'.committers == w.committers && w'.everStaged == w.everStaged && w'.dirs == w.dirs - {slot}
    ensures Unopposed(codec, w', d, m)
  {
    DottedNames(w, d);
    PreparedStays(codec, w, w', d, m);
    PreparedIsUnopposed(codec, w', d, m);
  }

  /** Once the first package is swept, the other commit meets nobody. */
  lemma SweptAndReady(codec: Codec, w: World, c: nat, d: nat, m: Manifest)
    requires Inv(w) && Unopposed(codec, w, c, m) && Prepared(codec, w, d, m) && c != d
    requires w.committers[c].ns == w.committers[d].ns && Sweepable(w.committers[c].ns.runId)
    requires OwnerDocument(w.committers[c].ns.runId) !in Sealed(codec, FilesAt(w, StagingSlot(w.committers[c])), m)
    ensures var w1, dest := Run(codec, w, CommitSteps(c)), Dest(w.committers[c]);
            && dest in w1.dirs
            && var w2 := Run(codec, w1, SweepAway(codec, w1, dest, 0));
            && Unopposed(codec, w2, d, m) && d in w2.committers && w2.committers[d].ns == w.committers[c].ns
            && c in w2.committers && w2.committers[c].phase.Done? && w2.committers[c].ns == w.committers[c].ns
  {
    CommitterThere(codec, w, c, m);
    hide Unopposed, Inv, Run, Sealed, Sweepable, OwnerDocument, Prepared, Validated, SweepAway, CommitSteps;
    FirstCommit(codec, w, c, d, m);
    var w1, dest := Run(codec, w, CommitSteps(c)), Dest(w.committers[c]);
    SweepTakes(codec, w1, dest);
    SweptIsClear(codec, w1, Run(codec, w1, SweepAway(codec, w1, dest, 0)), dest, d, m);
  }

  /** The second commit of the same namespace succeeds, and so has the first. */
  lemma ThenAgain(codec: Codec, w: World, c: nat, d: nat, m: Manifest)
    requires Unopposed(codec, w, d, m) && c in w.committers && d in w.committers && c != d
    requires w.committers[c].phase.Done? && w.committers[c].ns == w.committers[d].ns
    ensures BothSucceed(Run(codec, w, CommitSteps(d)), c, d, w.committers[c].ns)
  {
    CommitAlone(codec, w, d, m);
    StepsAreOwn(codec, w, d, CommitSteps(d));
    hide Run, Unopposed, Sealed;
  }

  /** A package whose name the sweep matches, and that holds no owner document, is published twice. */
  lemma SecondCommit(codec: Codec, w: World, c: nat, d: nat, m: Manifest)
    requires Inv(w) && Unopposed(codec, w, c, m) && Prepared(codec, w, d, m) && c != d
    requires w.committers[c].ns == w.committers[d].ns && Sweepable(w.committers[c].ns.runId)
    requires OwnerDocument(w.committers[c].ns.runId) !in Sealed(codec, FilesAt(w, StagingSlot(w.committers[c])), m)
    ensures exists steps :: BothSucceed(Run(codec, w, steps), c, d, w.committers[c].ns)
  {
    hide *;
    CommitterThere(codec, w, c, m);
    SweptAndReady(codec, w, c, d, m);
    var w1 := Run(codec, w, CommitSteps(c));
    var sweep := SweepAway(codec, w1, Dest(w.committers[c]), 0);
    var w2 := Run(codec, w1, sweep);
    ThenAgain(codec, w2, c, d, m);
    RunConcat(codec, w1, sweep, CommitSteps(d));
    RunConcat(codec, w, CommitSteps(c), sweep + CommitSteps(d));
  }

  ghost predicate BothSucceed(w: World, c: nat, d: nat, ns: Namespace) {
    && c in w.committers && d in w.committers
    && Succeeding(w.committers[c].phase) && Succeeding(w.committers[d].phase)
    && w.committers[c].ns == w.committers[d].ns == ns
  }

  // ---- from the empty store ---------------------------------------------------------------

  const PROC := Proc("host", 1)

  /** A successful run without artifacts. */
  function Bare(ns: Namespace): Manifest { Manifest(ns.layer, ns.layer, ns.runId, Succeeded, [], "", None, [], "") }

  function Prepare(c: nat, ns: Namespace, suffix: string): seq<Step> {
    [Begin(c, PROC, ns, suffix), WriteOwner(c), SetManifest(c, Bare(ns))]
  }

  function Opened(c: nat, ns: Namespace, suffix: string): Committer {
    Committer(PROC, ns, StagingName(ns.runId, suffix), c, Open, Some(Bare(ns)), [], false)
  }

  lemma PrepareOpens(codec: Codec, w: World, c: nat, ns: Namespace, suffix: string)
    requires c !in w.committers && IsSafeId(ns.runId) && IsSuffix(suffix)
    requires var slot := Slot(ns.layer, StagingName(ns.runId, suffix)); slot !in w.dirs && slot !in w.everStaged
    ensures var w', slot := Run(codec, w, Prepare(c, ns, suffix)), Slot(ns.layer, StagingName(ns.runId, suffix));
            && w'.committers == w.committers[c := Opened(c, ns, suffix)]
            && w'.dirs == w.dirs[slot := Dir(map[OWNER := OwnerFile(Owner(PROC.host, PROC.pid, c))], w.now)]
            && w'.everStaged == w.everStaged + {slot}
  {
    hide IsSafeId, IsSuffix, StagingName;
    var steps := Prepare(c, ns, suffix);
    var w1 := Exec(codec, w, steps[0]);
    var w2 := Exec(codec, w1, steps[1]);
    RunOne(codec, w, steps);
    assert steps[1..] == [steps[1], steps[2]];
    RunTwo(codec, w1, steps[1], steps[2]);
    hide Run;
    assert w1.committers[c] == Committer(PROC, ns, StagingName(ns.runId, suffix), c, Begun, None, [], false);
    assert w2.committers[c] == w1.committers[c].(phase := Open);
  }

  lemma BareIsValid(codec: Codec, ns: Namespace, files: Files)
    ensures Validated(codec, files, Bare(ns), [], ns.layer) == Some(Bare(ns))
  {
    assert Merged([], [], ns.layer) == Some([]);
  }

  lemma SuffixesApart(runId: string, a: string, b: string)
    requires |a| == |b| && StagingName(runId, a) == StagingName(runId, b)
    ensures a == b
  {
    var x, y := StagingName(runId, a), StagingName(runId, b);
    assert x[|x| - |a|..] == a && y[|y| - |b|..] == b;
  }

  const FIRST := "aaaaaaaa"
  const SECOND := "bbbbbbbb"

  function TwoOpen(codec: Codec, ns: Namespace): World {
    Run(codec, Run(codec, Empty, Prepare(0, ns, FIRST)), Prepare(1, ns, SECOND))
  }

  lemma OpenIsPrepared(codec: Codec, w: World, c: nat, ns: Namespace, suffix: string, owner: Content)
    requires c in w.committers && w.committers[c] == Opened(c, ns, suffix)
    requires var slot := Slot(ns.layer, StagingName(ns.runId, suffix));
             slot in w.dirs && w.dirs[slot].files == map[OWNER := owner]
    ensures Prepared(codec, w, c, Bare(ns)) && StagingSlot(w.committers[c]) == Slot(ns.layer, StagingName(ns.runId, suffix))
  {
    BareIsValid(codec, ns, map[OWNER := owner]);
    hide Validated, StagingName;
  }

  /** Two committers of one namespace, both ready, and nothing else in the store. */
  lemma TwoOpened(codec: Codec, ns: Namespace)
    requires IsSafeId(ns.runId)
    ensures var w := TwoOpen(codec, ns);
            && Inv(w) && Unopposed(codec, w, 0, Bare(ns)) && Prepared(codec, w, 1, Bare(ns))
            && w.committers[0] == Opened(0, ns, FIRST) && w.committers[1] == Opened(1, ns, SECOND)
            && FilesAt(w, StagingSlot(w.committers[0])).Keys == {OWNER}
  {
    hide *;
    TwoOpenWorld(codec, ns);
    var w := TwoOpen(codec, ns);
    var a, b := Slot(ns.layer, StagingName(ns.runId, FIRST)), Slot(ns.layer, StagingName(ns.runId, SECOND));
    OpenIsPrepared(codec, w, 0, ns, FIRST, OwnerFile(Owner(PROC.host, PROC.pid, 0)));
    OpenIsPrepared(codec, w, 1, ns, SECOND, OwnerFile(Owner(PROC.host, PROC.pid, 1)));
    InvHasNames(w);
    NothingInTheWay(w, a, b);
    PreparedIsUnopposed(codec, w, 0, Bare(ns));
    FilesThere(w, a);
  }

  lemma InvHasNames(w: World)
    requires Inv(w)
    ensures NamesOk(w)
  {
  }

  lemma FilesThere(w: World, slot: Slot)
    requires slot in w.dirs
    ensures FilesAt(w, slot) == w.dirs[slot].files
  {
  }

  lemma TwoOpenWorld(codec: Codec, ns: Namespace)
    requires IsSafeId(ns.runId)
    ensures var w := TwoOpen(codec, ns);
            var a, b := Slot(ns.layer, StagingName(ns.runId, FIRST)), Slot(ns.layer, StagingName(ns.runId, SECOND));
            && Inv(w) && w.dirs.Keys == {a, b}
            && w.committers == map[0 := Opened(0, ns, FIRST), 1 := Opened(1, ns, SECOND)]
            && w.dirs[a].files == map[OWNER := OwnerFile(Owner(PROC.host, PROC.pid, 0))]
            && w.dirs[b].files == map[OWNER := OwnerFile(Owner(PROC.host, PROC.pid, 1))]
  {
    hide Run, IsSafeId, StagingName, Prepare, Opened, Inv;
    var w1 := Run(codec, Empty, Prepare(0, ns, FIRST));
    EmptyIsFine();
    InvReachable(codec, Empty, Prepare(0, ns, FIRST));
    InvReachable(codec, w1, Prepare(1, ns, SECOND));
    var a, b := Slot(ns.layer, StagingName(ns.runId, FIRST)), Slot(ns.layer, StagingName(ns.runId, SECOND));
    if a == b { SuffixesApart(ns.runId, FIRST, SECOND); }
    PrepareOpens(codec, Empty, 0, ns, FIRST);
    PrepareOpens(codec, w1, 1, ns, SECOND);
  }

  lemma EmptyIsFine()
    ensures Inv(Empty)
  {
  }

  lemma NothingInTheWay(w: World, a: Slot, b: Slot)
    requires NamesOk(w) && 0 in w.committers && 1 in w.committers
    requires a == StagingSlot(w.committers[0]) && b == StagingSlot(w.committers[1]) && w.dirs.Keys == {a, b}
    ensures LockSlot(w.committers[0]) !in w.dirs && Dest(w.committers[0]) !in w.dirs
  {
    LockApart(w, 0, 1);
    LockApart(w, 1, 0);
    LockApart(w, 0, 0);
    DottedNames(w, 0);
    DottedNames(w, 1);
  }

  /** At most one commit of a namespace ever succeeds, in every run of any committers, exactly if
      its run id is not one that the sweep matches. */
  lemma OneWinnerLimit(codec: Codec, ns: Namespace)
    requires IsSafeId(ns.runId)
    ensures (forall steps, c: nat, d: nat :: BothSucceed(Run(codec, Empty, steps), c, d, ns) ==> c == d)
            <==> !Sweepable(ns.runId)
  {
    hide Run, Inv, IsSafeId;
    if Sweepable(ns.runId) {
      var w := TwoOpen(codec, ns);
      TwoOpened(codec, ns);
      assert OwnerDocument(ns.runId) !in Sealed(codec, FilesAt(w, StagingSlot(w.committers[0])), Bare(ns));
      SecondCommit(codec, w, 0, 1, Bare(ns));
      var steps :| BothSucceed(Run(codec, w, steps), 0, 1, ns);
      hide BothSucceed;
      RunConcat(codec, Run(codec, Empty, Prepare(0, ns, FIRST)), Prepare(1, ns, SECOND), steps);
      RunConcat(codec, Empty, Prepare(0, ns, FIRST), Prepare(1, ns, SECOND) + steps);
    } else {
      forall steps, c: nat, d: nat | BothSucceed(Run(codec, Empty, steps), c, d, ns) ensures c == d {
        OneWinner(codec, steps, c, d);
      }
    }
  }
}
