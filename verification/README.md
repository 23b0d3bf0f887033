# Feature Forge: a verified model of the experiment pipeline

Feature Forge runs experiment cases through four durable layers, Bronze, Silver, Gold and Platinum.
Each layer commits a package of files once and for ever; later runs reuse packages that still verify.
The numerics are opaque here. What is modelled is the code around them: the artifact store and its
commit protocol, canonical hashing, the case scheduler, Gold generation and its replay, greedy feature
selection and the offline verifier of its evidence, the resume planner and executor, cache retention,
fold assignment, structured completion, schema normalisation and the seccomp program.

Hashes, the sandbox, scores, Student's t, comparisons of columns and the provider are function
parameters that nothing is assumed about, except where a statement says so.

## Modules

- `Prelude`, `Ordering`: options; Python's stable `sorted`, its permutation laws and string order.
- `Json`: JSON trees, the ASCII printer with escapes (section 7 of RFC 8259) and a reader.
- `Hashing`: secret-free normalisation and canonical bytes. `Structured`: finding a JSON payload in prose.
- `Contracts`, `Store`, `Publication`, `Locking`, `Recommit`: packages, sealing and verification; the commit
  protocol as a transition system over any number of committers, crashes, sweeps and the clock; mutual
  exclusion by commit locks; second commits.
- `Scheduler`: the bounded process pool and its sequential twin.
- `Gold`, `Acceptance`, `BatchOrder`, `RowLocal`, `Leakage`: generation and replay over a shared frame; what
  a package that replays may contain; the limit on batches; the row-local gate and what it sees.
- `Selection`, `Evidence`, `Collision`, `Offline`: greedy selection, arm labels, scores that break
  ambiguous labels, the persisted package and its verifier.
- `Resume`, `Planner`, `Replan`: the candidate scan, plans, and runs of plans followed by planning again.
- `Completion`, `StrictSchema`: structured completion and strict schemas.
- `Retention`, `Folds`, `Seccomp`: cache collection, partitions and folds, the BPF program.

## What the proofs found

- A run id that contains `.tmp-` or ends in `.commit-lock` is accepted as an identifier, and
  `recover_abandoned` removes its published package, after which a second commit of the same namespace
  can succeed. All other packages survive every run, and their namespaces have one winner.
- The commit lock of a run id that begins with `tmp-` has a name that `recover_abandoned` reads as that of a
  staging directory. It finds no `.staging-owner.json` in it, and takes the lock of a living committer once
  it is old enough. Any other lock is safe from sweeps as soon as its owner is written.
- A required artifact staged at `.staging-owner.json` passes every check of `commit`, is deleted by
  `commit`, and leaves a published package that does not verify. All other packages verify, as long as
  no sweep takes a live commit's directory; one that does can make `commit` publish a broken package.
- Two lone surrogates and the character they encode have the same canonical bytes. Normalised trees
  without such pairs have equal bytes only if they are equal.
- `{"configured": false}` under a secret key becomes `true` when it is normalised again.
- A stop by the token can leave `max_workers` results to be stored, one more than a stop by a verdict ever
  does: it happens in some world exactly when there are that many cases and the first of them do not raise.
- Replay sorts script paths as strings, which is the generation order up to 10000 batches and no further;
  beyond that some honest packages do not replay.
- Replay's whole-frame comparison and its comparison by name together accept an honest package unless an
  accepted feature is called `row_id` while another repeats a Silver column. A package whose accepted
  frame has a single column is not compared at all.
- Replay also accepts a frame that commits a Silver column as a feature, and one that leaves out a feature
  that was accepted: it asks that the features are columns of the recomputed frame, not that they are all.
- The row-local gate runs its subset probe from four rows on, and its permutation cannot show a sum over the
  whole frame, so on three rows or fewer such a feature passes.
- The row-local gate says the same of any permutation of the rows, but a selection that drops the only row
  on which a script raises turns its error into an acceptance.
- Labels of discovery arms join names with `+`. Honest evidence is accepted for all scores exactly when
  no candidate's name is the join of at least two others that selection can reach.
- The planner looks for one parent where a Platinum package lists two, so Platinum is never planned as
  reused. The executor compares the layer fingerprint, the planner the reuse fingerprint if there is one.
- A structured answer that is cached before the client degrades is asked for again afterwards, unless the
  key without a response format holds the same answer.

## Model

| member | source | states |
|---|---|---|
| Json.HexRoundTrip | src/feature_forge/storage/hashing.py:91-99 | reading the four hexadecimal digits of an escape gives the code unit back |
| Json.TextRoundTrip | src/feature_forge/storage/hashing.py:91-99 | reading an escaped string literal back gives the text with its surrogate pairs merged, whatever follows |
| Json.MergeIsIdentity | src/feature_forge/storage/hashing.py:91-99 | merging surrogate pairs changes a text if and only if it holds one |
| Json.IntTextInjective | src/feature_forge/storage/hashing.py:91-99 | different integers print differently |
| Json.RoundTrip | src/feature_forge/storage/hashing.py:91-99 | reading any printed tree gives it back with surrogate pairs merged, and leaves the rest of the input |
| Json.PrintCollision | src/feature_forge/storage/hashing.py:91-99 | two trees print alike if and only if they are equal once surrogate pairs are merged |
| Json.TextDenotesTree | src/feature_forge/storage/hashing.py:91-99 | a printed tree reads back as itself if and only if no string in it holds a surrogate pair |
| Json.PrintInjective | src/feature_forge/storage/hashing.py:91-99 | printing is injective on trees without surrogate pairs |
| Json.SurrogatePairCollides | src/feature_forge/storage/hashing.py:91-99 | a concrete pair of different trees with the same text |
| Hashing.SecretKeyMeans | src/feature_forge/storage/hashing.py:15-42 | a key is secret exactly if it spells a listed word, in any mixture of cases and with dashes for underscores, or ends in a listed ending so spelled |
| Hashing.SecretIsFlag | src/feature_forge/storage/hashing.py:45-48 | all that is left of a value under a secret key is whether it is neither None nor empty |
| Hashing.LeavesApart | src/feature_forge/storage/hashing.py:49-62 | a wrapped secret leaves only whether it is empty; bytes are told apart by hash and size, dates, paths and texts by themselves |
| Hashing.OwnKeysAreNotSecret | src/feature_forge/storage/hashing.py:38-88 | none of the keys that normalisation writes is a secret key |
| Hashing.SameAgrees | src/feature_forge/storage/hashing.py:45-88 | mapping order, set order and the value of a present secret, at any depth, change neither the canonical text nor whether normalisation succeeds |
| Hashing.FingerprintInvariant | src/feature_forge/storage/hashing.py:91-118 | values that differ only in those ways have the same canonical text, hence the same fingerprint |
| Hashing.SecondPass | src/feature_forge/storage/hashing.py:45-88 | normalising a normalised value changes nothing if and only if no secret in the value is absent |
| Hashing.NormalizedIsKeySorted | src/feature_forge/storage/hashing.py:45-99 | normalised objects are already in key order, so the printer's own sorting is the identity on them |
| Hashing.CanonicalCollision | src/feature_forge/storage/hashing.py:45-99 | equal canonical bytes if and only if equal normalised trees up to surrogate pairs, and if and only if equal trees without such pairs |
| Hashing.AbsentSecretIsNotStable | src/feature_forge/storage/hashing.py:45-52 | an absent secret reads as configured on the second pass |
| Structured.FirstBalanced | src/feature_forge/llm/structured.py:110-135 | the loop over depth, string and escape state returns exactly the span that the specification gives |
| Structured.FragmentPasses | src/feature_forge/llm/structured.py:110-135 | inside the outer bracket every well-formed JSON text leaves the scanner as it found it, though only one kind of bracket is counted |
| Structured.PayloadFound | src/feature_forge/llm/structured.py:110-135 | any JSON object or array is found whole, at its place, if and only if the prose before it has no opening bracket, whatever follows |
| Structured.PrintedPayloadFound | src/feature_forge/llm/structured.py:110-135 | a printed object or array is cut out of bracket-free prose and reads back as itself |
| Contracts.SafeIdMeans | src/feature_forge/contracts/artifacts.py:15-50 | an accepted identifier starts with a letter or digit, goes on with those, underscores, dots and dashes, and does not end in a dot |
| Store.MergedFacts | src/feature_forge/storage/local.py:567-588 | merged descriptors are sorted, have distinct paths and hold exactly the declared and staged ones |
| Store.MergeDescriptors | src/feature_forge/storage/local.py:567-588 | the loops over declared and staged descriptors compute the merge, or reject duplicates, foreign layers and conflicts |
| Store.StagingArea.constructor | src/feature_forge/storage/local.py:83-94 | a new staging area holds only its owner document |
| Store.StagingArea.SetManifest | src/feature_forge/storage/local.py:100-106 | the manifest is taken if and only if its run and layer are the area's |
| Store.StagingArea.WriteBytes | src/feature_forge/storage/local.py:108-129 | reserved paths are refused and change nothing; any other write records the file and a matching descriptor |
| Store.StagingArea.Seal | src/feature_forge/storage/local.py:236-265 | the steps of commit before the rename give exactly the sealed files and their digest, or fail and leave the files alone |
| Store.CheckStaged | src/feature_forge/storage/local.py:245-261 | the loop accepts if and only if no path is reserved and every present or required artifact matches |
| Store.Verify | src/feature_forge/storage/local.py:384-462 | the report has no error if and only if the package is intact, and lists exactly the present artifacts as checked |
| Store.SealedIsWellSealed | src/feature_forge/storage/local.py:236-265 | what passes the checks of commit is well sealed |
| Store.SealedVerifies | src/feature_forge/storage/local.py:258-265 | a sealed package verifies if and only if no required artifact sits at the owner document's path |
| Store.AlteredIsReported | src/feature_forge/storage/local.py:439-452 | a required artifact that is gone, or of another size or hash, always makes the report an error |
| Store.AlteredIsNotSealed | src/feature_forge/storage/local.py:245-261 | commit refuses a present artifact of another size or hash, required or not, and a required one that is absent |
| Store.OneReference | src/feature_forge/storage/local.py:422-441 | a package verifies under one reference only, and only with a finished manifest of its own layer that names no path twice |
| Store.TamperEvident | src/feature_forge/storage/local.py:384-462 | where hashes do not collide, a copy of a package that verifies does so too if and only if marker, manifest and every required file are the same |
| Publication.ArtifactWritten | src/feature_forge/storage/local.py:108-129 | writing an artifact, again or for the first time, leaves exactly its bytes at its path and a descriptor of them, and touches no other file |
| Publication.EffectOfStep | src/feature_forge/storage/atomic.py:40-70 | every sub-step of every committer has one of a few effects on the directories |
| Publication.StepKeepsInv | src/feature_forge/storage/atomic.py:40-70 | every step of every actor keeps the invariant, by the rename failing onto a non-empty directory and not by the lock, and every package that no sweep can take for its own litter |
| Publication.InvReachable | src/feature_forge/storage/local.py:236-274 | the invariant holds in every reachable state |
| Publication.WriteOnce | src/feature_forge/storage/local.py:236-274 | what is visible at a package path stays there unchanged in every run, with no assumption on time, unless its run id is one that the sweep matches and it holds no owner document with a process id of zero or less |
| Publication.OneWinner | src/feature_forge/storage/atomic.py:40-70 | at most one commit per namespace whose run id the sweep does not match succeeds in any run of any committers |
| Publication.SweptAway | src/feature_forge/storage/local.py:342-382 | every directory whose name the sweep matches is removed by some run, unless its owner document names a process id of zero or less |
| Publication.SurvivesAllRuns | src/feature_forge/storage/local.py:342-382 | a package survives all runs if and only if its run id is not one that the sweep matches or it holds an owner document with a process id of zero or less |
| Contracts.ContainsMeans | src/feature_forge/storage/local.py:362 | the sweep's name test holds exactly for names with the word somewhere inside |
| Contracts.EndsInMeans | src/feature_forge/storage/local.py:370 | and the other one exactly for names that end in it |
| Publication.SweptRunIds | src/feature_forge/storage/local.py:355-372 | two accepted run ids that the sweep matches |
| Publication.TimelySweepSpares | src/feature_forge/storage/local.py:355-365 | a sweep under the age assumption never takes the staging directory of a commit under way |
| Publication.StepKeepsSafe | src/feature_forge/storage/local.py:236-274 | every timely step keeps every sealed package verifiable |
| Publication.SafeReachable | src/feature_forge/storage/local.py:236-274 | every state of a timely run is safe |
| Publication.VisiblePackagesVerify | src/feature_forge/storage/local.py:384-462 | in every timely run each visible package verifies against its own marker, unless it requires an artifact at the owner document's path |
| Publication.ReturnedRefVerifies | src/feature_forge/storage/local.py:270-274 | a returned reference to a run id that the sweep does not match verifies in every later state, whatever happens, under the same condition |
| Publication.ReturnedRefLost | src/feature_forge/storage/local.py:342-382 | a returned reference to a package that a sweep can take stops verifying in some later state |
| Publication.CommitAlone | src/feature_forge/storage/local.py:236-274 | an unopposed commit succeeds, publishes its sealed files and leaves neither staging directory nor lock |
| Publication.OwnerArtifactIsLost | src/feature_forge/storage/local.py:258-265 | a commit with a required artifact at the owner document's path succeeds and does not verify |
| Publication.UntimelySweepBreaks | src/feature_forge/storage/local.py:355-365 | a sweep that comes too early lets a commit succeed with a package that does not verify |
| Locking.MeetsLock | src/feature_forge/storage/atomic.py:45-48 | a committer that meets a lock goes back and changes no directory; only one that meets none comes to hold it |
| Locking.StepKeepsLocks | src/feature_forge/storage/atomic.py:40-70 | every step of every actor keeps the locks, as long as sweeps spare those of living holders |
| Locking.MutualExclusion | src/feature_forge/storage/atomic.py:40-70 | in every run in which sweeps spare the locks of living holders, two living committers of a namespace never both hold its lock |
| Locking.HolderPublishes | src/feature_forge/storage/atomic.py:60-63 | in such a run a holder that saw its path free publishes unless its staging directory is gone |
| Locking.ForeignLockStays | src/feature_forge/storage/atomic.py:98-111 | releasing leaves every directory alone unless the lock still holds the committer's own token |
| Locking.LoserCleansUp | src/feature_forge/storage/atomic.py:60-70 | a committer that finds a package in its place removes its own staging directory and lock, leaves everything else alone and may start again |
| Locking.CrashTakes | src/feature_forge/storage/atomic.py:40-70 | a process that dies takes exactly its own committers with it |
| Locking.SweptLock | src/feature_forge/storage/local.py:342-378 | a sweep takes the lock of a living holder exactly if it is old enough and its owner is not written yet, or if its name reads as that of a staging directory |
| Locking.LockReadsAsStaging | src/feature_forge/storage/local.py:355-372 | the locks that read as staging directories are those of run ids that contain `.tmp-` or begin with `tmp-` |
| Locking.TmpRunIds | src/feature_forge/storage/local.py:355-372 | such a run id that is accepted and whose packages are not swept |
| Locking.LivingOwnerIsSpared | src/feature_forge/storage/local.py:599-614 | a sweep by any host leaves alone every directory whose owner document names a running process |
| Recommit.StepsAreOwn | src/feature_forge/storage/local.py:236-274 | the steps of a committer move nothing but its own staging directory, lock and package path |
| Recommit.SecondCommit | src/feature_forge/storage/local.py:342-382 | two ready committers of a namespace whose run id the sweep matches can both succeed, one after the other's package was swept |
| Recommit.OneWinnerLimit | src/feature_forge/storage/local.py:236-382 | from the empty store at most one commit of a namespace succeeds in every run if and only if its run id is not one that the sweep matches |
| Scheduler.CancellationToken.Cancel | src/feature_forge/experiment/execution.py:175-180 | the first reason is kept |
| Scheduler.CancelThrough | src/feature_forge/experiment/execution.py:153-190 | any sequence of calls leaves the token with the reason that the specification gives |
| Scheduler.FirstReasonWins | src/feature_forge/experiment/execution.py:175-185 | a reason never changes and is that of the earliest call |
| Scheduler.RunSequential | src/feature_forge/platform.py:380-419 | the loop returns the sequential schedule's rows and reasons |
| Scheduler.SequentialRow | src/feature_forge/platform.py:380-419 | with any token and verdict a case runs exactly if no token reason was given by its turn and no earlier row tripped the verdict; otherwise it is cancelled for the earlier of the two causes, `operator_request` for an empty reason |
| Scheduler.Refill | src/feature_forge/experiment/execution.py:310-318 | the submission loop leaves the pool that the specification gives |
| Scheduler.CancelPending | src/feature_forge/experiment/execution.py:325-328 | the loop over the futures in flight leaves the pool that the specification gives |
| Scheduler.RefilledKeeps | src/feature_forge/experiment/execution.py:310-318 | refilling submits the next cases only, up to the worker limit, nothing after a stop, and stops short only for the token |
| Scheduler.CancelEachKeeps | src/feature_forge/experiment/execution.py:325-328 | only futures that have not started are cancelled, with the stop reason, and every one left has started |
| Scheduler.FrozenKeeps | src/feature_forge/experiment/execution.py:321-330 | after a stop the tail is frozen, everything left in flight has started, and no result is lost |
| Scheduler.CollectedKeeps | src/feature_forge/experiment/execution.py:331-343 | each completed future stores its own result; a worker that raises is reported by index |
| Scheduler.Collect | src/feature_forge/experiment/execution.py:331-343 | the loop over the completed futures leaves the pool, log and failure that the specification gives |
| Scheduler.EveryCompletion | src/feature_forge/experiment/execution.py:331 | any futures in flight, at least one, in any order, may complete |
| Scheduler.RunPool | src/feature_forge/experiment/execution.py:257-372 | the loops compute the specified run of the given world, which is accounted for as below |
| Scheduler.PoolFacts | src/feature_forge/experiment/execution.py:257-372 | for every completion order, cancel outcome and token time: bounded flight, a submitted prefix, no submission after the stop; on return every slot holds the worker's result exactly if its case started and a cancelled row otherwise; a failure names a case that raised; an interrupt arrived if one is reported |
| Scheduler.LateBound | src/feature_forge/experiment/execution.py:310-343 | in every world at most one result less than there are workers is stored after a stop, if and only if no token is given, the run is refused, there are fewer cases than workers or one of the first of them raises |
| Scheduler.RefilledBeforeToken | src/feature_forge/experiment/execution.py:310-316 | every case is submitted at a moment when the token has no reason yet |
| Scheduler.LookStops | src/feature_forge/experiment/execution.py:317-318 | the look at the token stops the run with its reason, `operator_request` for an empty one, unless it has stopped already, and for nothing else |
| Scheduler.NothingSubmittedAfter | src/feature_forge/experiment/execution.py:307-330 | whatever happens in the rest of a run, nothing is submitted once it has stopped or the token has a reason |
| Scheduler.RunPlain | src/feature_forge/experiment/execution.py:307-372 | without stop inputs and with a total worker the result is the worker's results in input order, for any worker count and completion order, unless Ctrl-C arrives |
| Scheduler.RunSingle | src/feature_forge/platform.py:380-419 | one worker and no token give the rows of the sequential scheduler, unless Ctrl-C arrives |
| Scheduler.SingleRows | src/feature_forge/platform.py:380-419 | rows that run a prefix whose last case may trip the verdict are the sequential schedule's |
| Scheduler.JournalIsUnstarted | src/feature_forge/experiment/execution.py:344-359 | an interrupt journals exactly the cases that never started |
| Gold.CandidateSpecs | src/feature_forge/dataflows/gold.py:83-117 | the loops give every script its padded path and every name a candidate numbered in order |
| Gold.ItemsFoundBack | src/feature_forge/dataflows/gold.py:155-158 | filtering by path finds back each script's own candidates, in order, numbered on from those before |
| Gold.SortedPathsAreInOrder | src/feature_forge/dataflows/_io.py:387-388 | sorting the paths as strings keeps the generation order if and only if there are at most 10000 batches |
| Gold.PaddedNumber | src/feature_forge/dataflows/gold.py:83-117 | numbers are padded with zeros to four digits and left as they are if they have more |
| Gold.IdsAreDistinct | src/feature_forge/dataflows/gold.py:105-111 | candidates with different numbers have different ids, of any number of digits |
| Gold.ConcatOneMore | src/feature_forge/dataflows/gold.py:180-183 | joining frames one at a time builds what joining them at once builds, padding included |
| Gold.ExecuteBatches | src/feature_forge/dataflows/gold.py:128-222 | the generation loop computes the specified working frame, outputs and decisions |
| Gold.DecisionsDistinct | src/feature_forge/dataflows/gold.py:184-210 | a generation decides every candidate once |
| Gold.WorkingIsConcat | src/feature_forge/dataflows/gold.py:180-216 | the working frame is always the Silver frame beside everything accepted so far |
| Gold.ReplayPackage | src/feature_forge/dataflows/_io.py:373-421 | the replay loop and its two comparisons compute the specified verdict |
| Gold.CompareByName | src/feature_forge/dataflows/_io.py:415-420 | the loop over accepted names accepts if and only if each name finds the same columns in both frames |
| Gold.ReplayOneMatches | src/feature_forge/dataflows/_io.py:387-407 | replaying one batch makes the working frame that generating it made |
| Gold.LockStep | src/feature_forge/dataflows/_io.py:385-407 | replaying a generation's scripts in order rebuilds its working frame, for any sandbox and any gate |
| Gold.HonestWorkingFrame | src/feature_forge/dataflows/_io.py:373-407 | up to 10000 batches, the exact bound, replay rebuilds the working frame, in whatever order the scripts are stored |
| Gold.HonestPackageReplays | src/feature_forge/dataflows/_io.py:373-421 | up to 10000 batches, the exact bound, a package that generation committed replays if and only if no accepted feature is called row_id, or none of the others repeats a Silver column |
| Acceptance.ReplayedIsSplit | src/feature_forge/dataflows/_io.py:385-407 | the frame that replay ends with is the padded Silver columns beside the columns it recomputed |
| Acceptance.AcceptedIsRecomputed | src/feature_forge/dataflows/_io.py:408-420 | a package with a feature column replays only if every feature is an unchanged Silver column or a recomputed one; it is recomputed if no Silver column has its name, and only then where no recomputed column repeats one |
| Acceptance.AcceptedExactly | src/feature_forge/dataflows/_io.py:408-420 | where the names of that frame are distinct, a committed frame with row ids and features replays if and only if its features are distinct columns of it |
| Acceptance.AcceptedIsAll | src/feature_forge/dataflows/_io.py:408-420 | in a package that replays the features are exactly the recomputed columns if and only if none has a Silver name and no recomputed name is left out |
| Acceptance.ReplayOneDecides | src/feature_forge/dataflows/_io.py:388-405 | a script with accepted candidates must still run and still output each of their names; one without is not run |
| Acceptance.RowIdsNeeded | src/feature_forge/dataflows/_io.py:408-420 | a committed frame of several columns without row ids never replays |
| Acceptance.SilverColumnPasses | src/feature_forge/dataflows/_io.py:408-420 | a Silver column replays as a feature although no script ran and nothing was accepted |
| Acceptance.OmittedColumnPasses | src/feature_forge/dataflows/_io.py:408-420 | leaving features out of a frame that replays gives a frame that replays |
| Acceptance.LoneColumnIsNotCompared | src/feature_forge/dataflows/_io.py:408-414 | a single accepted column can be replaced by any other without changing the verdict |
| BatchOrder.LongRunFails | src/feature_forge/dataflows/_io.py:387-407 | for every number of batches above 10000 there is code whose honest package does not replay |
| BatchOrder.BatchLimit | src/feature_forge/dataflows/_io.py:373-421 | every honest package gets the verdict that its names call for, in every sandbox and under every gate, if and only if there are at most 10000 batches |
| RowLocal.RunProbe | src/feature_forge/evaluation/scope.py:107-139 | one probe reports exactly the names that fail it; earlier reasons stay |
| RowLocal.RowLocalViolations | src/feature_forge/evaluation/scope.py:90-139 | the loops report the names that some probe fails, each with the reason of the first |
| RowLocal.GateDecides | src/feature_forge/evaluation/scope.py:88-139 | a name is rejected exactly if, on four rows or more, running the code on rows 0, 2, 4, ... or, on three or more, on the permuted rows does not give the full output's values there |
| RowLocal.GateRaises | src/feature_forge/evaluation/scope.py:119-129 | the gate raises exactly if it looks up a row that the full output does not have |
| Leakage.SumIsSeen | src/feature_forge/evaluation/scope.py:88-139 | the difference to the whole column's sum is rejected exactly on four rows or more whose even rows do not add up to that sum; no permutation shows it |
| Leakage.FourRows | src/feature_forge/evaluation/scope.py:88-139 | the values 1, 2, 3 and 10 show it |
| RowLocal.RowLocalCommutes | src/feature_forge/evaluation/scope.py:1-9 | running row-local code on selected rows gives the selected rows of its output |
| RowLocal.RowLocalPasses | src/feature_forge/evaluation/scope.py:90-139 | against row-local code with the proposed names and no missing value the probes find exactly the repeated labels, and on fewer than three rows nothing |
| RowLocal.JudgeByRows | src/feature_forge/dataflows/gold.py:159-178 | a row-local batch ends in an error if and only if a name is not among its labels or some row alone raises or leaves a cell missing |
| RowLocal.JudgeCommutes | src/feature_forge/dataflows/gold.py:159-178 | on selected rows a row-local batch errors if and only if a name is not among its labels or the selection hits a faulty row; otherwise its output is the selected output rows and its repeated labels are rejected if there are three rows |
| RowLocal.GenerationCommutes | src/feature_forge/dataflows/gold.py:152-200 | generating row-local batches from selected rows gives the selected rows of everything generated, with the same decisions, if and only if of every batch that errors for its rows the selection keeps a faulty row, and of every batch with repeated labels whether there are three rows |
| RowLocal.CoveringKeeps | src/feature_forge/evaluation/scope.py:107-125 | every permutation, and every covering selection with rows enough for the probes if there were, keeps what the statement above asks for |
| RowLocal.DroppedRowDiffers | src/feature_forge/dataflows/gold.py:152-200 | a selection that drops the only row on which the code raises, and generates something else |
| RowLocal.NoneRejected | src/feature_forge/dataflows/gold.py:184-198 | row-local candidates are rejected for a repeated label on three rows or more and for nothing else, whatever accepted columns earlier batches added |
| Selection.GreedyForwardSelection | src/feature_forge/dataflows/platinum.py:282-393 | the greedy loop computes the specified steps, selection and arms, and terminates |
| Selection.ElectLoop | src/feature_forge/dataflows/platinum.py:359-367 | the loop over the ranking elects the first entry that meets the policy |
| Selection.RankedNames | src/feature_forge/dataflows/platinum.py:318-358 | a ranking holds an entry if and only if it is the entry of a feature that is left |
| Selection.FirstStepRight | src/feature_forge/dataflows/platinum.py:314-384 | a step ranks what is left by its own gain and elects the feature that meets the policy with the greatest gain, then the first name, or none if none does |
| Selection.GreedySteps | src/feature_forge/dataflows/platinum.py:305-387 | every recorded step is right, from what the steps before it chose |
| Selection.StepAt | src/feature_forge/dataflows/platinum.py:314-384 | the step at an index starts from exactly the features chosen before it |
| Selection.SelectionRuns | src/feature_forge/dataflows/platinum.py:282-393 | the whole selection elects distinct candidates within the limit, step by step as above |
| Selection.GainMeans | src/feature_forge/dataflows/platinum.py:339-349 | a gain is the difference of the mean scores after and before, in the direction of the metric |
| Selection.BoundMeans | src/feature_forge/dataflows/platinum.py:258-271 | there is a bound from two folds on, it is at most the mean, and its distance is the critical value times the standard error, stated without roots |
| Selection.ElectionMeans | src/feature_forge/dataflows/platinum.py:352-367 | a step elects a feature exactly if it meets the policy, stated on the scores, and no other that does has a greater gain or the same gain and an earlier name |
| Selection.SelectionMeans | src/feature_forge/dataflows/platinum.py:282-393 | every selected feature met the policy over those before it, none that met it was ahead, and at the end the limit is reached or no feature that is left meets it |
| Selection.GainsTelescope | src/feature_forge/dataflows/platinum.py:339-349 | the chosen gains add up to the mean directional difference between the last arm and the first |
| Selection.SelectionGain | src/feature_forge/dataflows/platinum.py:282-393 | the selected arm beats the baseline by the sum of the recorded gains, at least the practical minimum for every feature |
| Evidence.LookupFindsLast | src/feature_forge/dataflows/_io.py:495-502 | with a common fold set, looking up a label finds the scores of the last arm persisted under it |
| Evidence.FindsOwnArm | src/feature_forge/dataflows/_io.py:495-502 | where no two arms share a label every lookup finds the arm the producer meant |
| Evidence.GreedyArmsExtend | src/feature_forge/dataflows/platinum.py:318-338 | every greedy arm is a proper prefix of the final selection and one candidate more |
| Evidence.LabelsUnique | src/feature_forge/dataflows/platinum.py:331 | unless the names are ambiguous no two discovery arms of a run share a label |
| Evidence.UnambiguousReconstructs | src/feature_forge/dataflows/_io.py:620-668 | with unambiguous names the persisted steps pass the greedy checks for all scores |
| Collision.TargetIsEvaluated | src/feature_forge/dataflows/platinum.py:305-387 | scores that reward one order make selection go on to the arm with the whole order |
| Collision.AmbiguousFails | src/feature_forge/dataflows/_io.py:620-668 | ambiguous names have scores for which a run's own evidence does not reconstruct |
| Collision.StepsReconstructIff | src/feature_forge/dataflows/_io.py:620-668 | the greedy checks pass for all scores if and only if the names are not ambiguous |
| Offline.VerifyPackage | src/feature_forge/dataflows/_io.py:505-683 | the verifier's loops accept exactly the packages that the specification accepts |
| Offline.CheckStepLoop | src/feature_forge/dataflows/_io.py:620-668 | the loop over one step's ranking decides that step |
| Offline.EvaluationReconstructs | src/feature_forge/dataflows/platinum.py:468-565 | the interval, the aggregates and the preprocessing keys that the pipeline persists always reconstruct |
| Offline.ProducedAccepted | src/feature_forge/dataflows/platinum.py:715-814 | what the pipeline persists is accepted if and only if its greedy steps pass |
| Offline.HonestEvidenceAccepted | src/feature_forge/dataflows/_io.py:505-683 | honest evidence is accepted for all scores if and only if no candidate's name is the join of two or more others that selection can reach |
| Offline.IntervalMeans | src/feature_forge/dataflows/platinum.py:468-565 | the interval is the mean with the same margin on both sides, the critical value times the standard error |
| Offline.ArmMeans | src/feature_forge/dataflows/_io.py:564-565 | the rows of an arm are the metric rows that carry its name, in the order of the folds |
| Offline.AcceptedEvaluation | src/feature_forge/dataflows/_io.py:545-618 | in an accepted package means, gains and interval are, within the tolerance, those of the persisted rows; every decision carries the bound; the selected set is the decided one; the preprocessing covers every fold |
| Offline.AcceptedGainsTelescope | src/feature_forge/dataflows/_io.py:620-668 | in accepted chained steps the recorded gains are within tolerance of numbers that add up exactly to what the rows give |
| Offline.AcceptedPackageTelescopes | src/feature_forge/dataflows/_io.py:505-683 | the same for an accepted package, from the baseline to the selected set it names |
| Offline.RankingOrderIsNotChecked | src/feature_forge/dataflows/_io.py:633-653 | reordering, repeating or dropping ranking entries, and any lower bounds, are accepted alike |
| Resume.ReservedNeverLoads | src/feature_forge/storage/local.py:440-443 | a manifest that lists an artifact at a reserved path never loads |
| Resume.SealedLoads | src/feature_forge/storage/local.py:384-462 | what commit has published loads under the reference it returned if and only if it requires nothing at the owner document's path |
| Resume.IdentityMeans | src/feature_forge/storage/local.py:334 | the identity is the reuse fingerprint, or the layer fingerprint where that is absent or empty |
| Resume.FindReusable | src/feature_forge/storage/local.py:276-340 | the loop over the sorted candidates computes the scan's result |
| Resume.ListingOrderIrrelevant | src/feature_forge/storage/local.py:306-318 | the directory's own order makes no difference |
| Resume.FindMeans | src/feature_forge/storage/local.py:311-340 | an error exactly when the preferred package is there and invalid; otherwise the first usable candidate in the order preferred, newest, name; nothing exactly when none is usable |
| Planner.BuildResumePlan | src/feature_forge/experiment/resume.py:59-136 | the planner's loop computes the specified decisions, next layer and completeness, or the fatal error |
| Planner.PlanMeans | src/feature_forge/experiment/resume.py:71-136 | a plan reuses a prefix and executes the rest; each reused package is what scan and validator accept under those before it; the first executed layer is next and had nothing reusable; complete means nothing is executed |
| Planner.PlanDecides | src/feature_forge/experiment/resume.py:79-136 | a plan decides exactly the expected layers in order; reused ones are recorded as succeeded unless it is a dry run, and only the first executed one gives a reason of its own |
| Planner.DefaultReuse | src/feature_forge/experiment/resume.py:31-56 | with the default validator the reused layers are Bronze, Silver and Gold in this order and each manifest lists exactly the package before it |
| Planner.PlatinumIsExecuted | src/feature_forge/experiment/resume.py:51-56 | with the default validator a plan that expects Platinum is never complete |
| Planner.ExecuteResumePlan | src/feature_forge/experiment/resume.py:139-205 | the executor's loop computes the specified run: returned plan, partial plan with failed layer, or error |
| Replan.RunProgress | src/feature_forge/experiment/resume.py:149-205 | a run calls the stage of each executed layer once, in order, with the chain before it; a failure carries exactly the settled prefix and the failed layer |
| Replan.LayerForced | src/feature_forge/experiment/resume.py:172-179 | a stage cannot pass a package of another layer through the default validator and the lineage check |
| Replan.FinishedRunStands | src/feature_forge/experiment/resume.py:149-205 | after a run from Bronze every named package still loads, is of its planned layer and lists exactly its planned parents |
| Replan.HonestRunFinishes | src/feature_forge/experiment/resume.py:149-205 | a run from Bronze finishes with every layer settled if each stage returns a package that loads, of its layer, with the planned fingerprint and the chain's parents |
| Replan.PlannedRunFinishes | src/feature_forge/experiment/resume.py:59-205 | from planner to executor: where the first layers are expected and their stages do their work, the run of any plan over the same packages finishes with every decision settled |
| Replan.FailureIsRecorded | src/feature_forge/experiment/resume.py:185-200 | a stage that fails is recorded as failed, with its own layer and expectation |
| Replan.OwnPackageFound | src/feature_forge/storage/local.py:319-339 | the scan returns the run's own package if and only if identity and parents are the expected ones |
| Replan.OwnPackageReused | src/feature_forge/experiment/resume.py:80-96 | under the earlier packages a layer's own package is reused if and only if its identity is expected and it is not Platinum |
| Replan.ReplanAfterRun | src/feature_forge/experiment/resume.py:59-205 | planning after a finished run reuses its packages in order for as long as their identities are expected |
| Replan.ExecutedButNotReused | src/feature_forge/experiment/resume.py:172-173 | a package with another reuse fingerprint passes the executor and is not what the planner reuses |
| Completion.Client.CompleteStructured | src/feature_forge/llm/base.py:474-591 | one call changes flag and cache, returns and sends exactly as the attempt specification says |
| Completion.AttemptBounds | src/feature_forge/llm/base.py:484-591 | at most three calls and one repair, the repair last; the flag is never cleared and is set only by a rejected structured call |
| Completion.AttemptAnswers | src/feature_forge/llm/base.py:501-591 | a call ends with a value exactly if the cached content, the first answer or the answer after degradation validates to it, or does not validate and the one repair does |
| Completion.AttemptCalls | src/feature_forge/llm/base.py:501-591 | how many calls that takes, and that the client degrades exactly when the structured call was rejected |
| Completion.AttemptStores | src/feature_forge/llm/base.py:579-591 | a failure leaves the cache alone; a success stores one validating content under the key of its final mode |
| Completion.FormatIsDroppedForGood | src/feature_forge/llm/base.py:484-488 | over any session the calls with a response format all come before those without |
| Completion.SessionCachesValid | src/feature_forge/llm/base.py:579-591 | everything a session adds to the cache validates |
| Completion.FreeAnswer | src/feature_forge/llm/base.py:501-522 | in every state a call is answered with a value and no provider call if and only if the key of the current mode holds content that validates to it |
| Completion.RepeatIsCached | src/feature_forge/llm/base.py:501-522 | after any session, repeating a successful call returns the same value with no provider call if and only if the session has not switched the mode or the prompt's key in the other mode holds that value too |
| Completion.SwitchLosesAnswer | src/feature_forge/llm/base.py:484-506 | a session that switches the mode and makes a repeated call go to the provider again |
| StrictSchema.StrictIsIdempotent | src/feature_forge/llm/structured.py:58-78 | a schema is in the strict subset if and only if normalising leaves it alone, and normalising always ends there |
| StrictSchema.StrictIsNormal | src/feature_forge/llm/structured.py:58-78 | every object node reached admits no other keys, requires all its properties in sorted order and gives none a default |
| StrictSchema.StrictGives | src/feature_forge/llm/structured.py:58-78 | key by key what a normalised schema holds: demands, properties without defaults, tables, items and choices normalised, everything else untouched |
| StrictSchema.StrictifyDecides | src/feature_forge/llm/structured.py:58-78 | exactly where the traversal raises, and that it otherwise gives the normalised schema |
| StrictSchema.PropertyNamesKept | src/feature_forge/llm/structured.py:61-68 | property names and their order are kept, and a property is normalised without its default |
| Retention.Collect | src/feature_forge/storage/hamilton_cache.py:219-280 | the selection, eviction loop, deletion loop and report are the specified ones for the age and size given, and each kind of bad argument is refused |
| Retention.RefusedArguments | src/feature_forge/storage/hamilton_cache.py:228-235 | the arguments are refused exactly for a limit that is not positive, for clearing together with a limit and for neither |
| Retention.AgeLimitMeans | src/feature_forge/storage/hamilton_cache.py:239-246 | a row stays exactly if nothing is cleared, it is younger than the age limit and the size limit does not take its version |
| Retention.SizeLimitMeans | src/feature_forge/storage/hamilton_cache.py:247-262 | what a size limit leaves fits the megabytes given, and would not with the last version evicted |
| Retention.FileBelongs | src/feature_forge/storage/hamilton_cache.py:327-337 | a file belongs to a version exactly if the version is well formed and the name begins with what comes before its first dot |
| Retention.OldestMeans | src/feature_forge/storage/hamilton_cache.py:254-257 | the age of a version is that of its oldest row |
| Retention.Evict | src/feature_forge/storage/hamilton_cache.py:254-262 | the eviction loop takes the specified versions |
| Retention.EvictsPrefix | src/feature_forge/storage/hamilton_cache.py:254-262 | eviction takes the shortest prefix of the order that brings the rest under the maximum |
| Retention.SizeLimitMet | src/feature_forge/storage/hamilton_cache.py:247-262 | the remaining versions fit the maximum, the evicted ones are the oldest, and the last of them had to go |
| Retention.EvictedAreOlder | src/feature_forge/storage/hamilton_cache.py:254-262 | evicted versions are older than those left by their oldest rows, or as old and first by name |
| Retention.DryRunReports | src/feature_forge/storage/hamilton_cache.py:264-280 | a dry run changes nothing and reports what the real run would |
| Retention.RemainingKeepResults | src/feature_forge/storage/hamilton_cache.py:286-318 | a remaining row loses a file if and only if a version that goes shares it |
| Retention.HeldBytes | src/feature_forge/storage/hamilton_cache.py:282-284 | the bytes of some versions' files are at most the sum of their sizes, and exactly that when they share none |
| Retention.ReportHonest | src/feature_forge/storage/hamilton_cache.py:264-280 | removed and remaining add up; reclaimed bytes are never too few, exact for clearing, and exact for a size limit when versions share no file |
| Folds.AssignRowPartitions | src/feature_forge/evaluation/holdout.py:128-162 | every row gets the label of its side, or the holdout is refused |
| Folds.FillFolds | src/feature_forge/dataflows/silver.py:158-160 | the nested writes give each row of the partition its own fold and touch no other row |
| Folds.FoldAssignments | src/feature_forge/dataflows/silver.py:122-171 | the two passes over the fold array give the specified assignment, or the errors |
| Folds.EveryRowFolded | src/feature_forge/dataflows/silver.py:135-171 | with splitters that keep their promise every row's fold is the one validation set that holds it, and each partition has all folds |
| Folds.CheckPasses | src/feature_forge/dataflows/silver.py:265-299 | such an assignment passes the split check, with and without a holdout |
| Folds.CheckDecides | src/feature_forge/dataflows/silver.py:265-299 | for folds below the number asked for, the check passes exactly if none is negative, the partitions are those of the protocol and each has a row in every fold |
| Folds.AssignmentPassesCheck | src/feature_forge/dataflows/silver.py:122-299 | from the two splitters to the check in one statement |
| Folds.ArmsTile | src/feature_forge/dataflows/platinum.py:126-160 | an arm's train and validation rows tile their partition, and over all folds the validation rows count it once |
| Seccomp.Assemble | src/feature_forge/evaluation/sandbox.py:284-291 | the loop assembles the specified program |
| Seccomp.FilterDecides | src/feature_forge/evaluation/sandbox.py:284-291 | for every list and every number the program ends inside itself, denying exactly the listed numbers |

## Left out

- Publication.WriteOnce: directories are flat maps from paths to contents; nested directories, symbolic links, fsync and partial writes of one file are not modelled, and removing a tree is one step.
- Publication.VisiblePackagesVerify: rests on an age assumption about sweeps, stated as `TimelyRun`; random staging names are assumed never to repeat.
- Publication.SweptAway: a sweep tests whether the owner is alive and removes the directory in one step.
- Publication.OneWinner: rename is the one of POSIX.1-2017, which fails onto a non-empty directory; Windows reserved names in identifiers are not modelled. For run ids that the sweep matches it is false, as `Recommit.OneWinnerLimit` shows.
- Locking.MutualExclusion: rests on sweeps sparing the locks of living holders; `Locking.SweptLock` says exactly which sweeps do not.
- Store.Verify: `_SUCCESS` is a parsed marker; its hexadecimal syntax and the manifest's own schema validation are not modelled. Nor are `resolve` and `read_json_artifact`, which only call it.
- Scheduler.RunPool: an interrupt arrives only at a wait. A future that is cancelled and one that starts are told apart by the environment's choice. The log of a run is part of its specification, not of the original.
- Scheduler.RunSequential: planning a case and its identity are part of `execute`; an interrupt inside a case is not modelled.
- Gold.ReplayPackage: columns are sequences of integers and missing values; dtypes, the index and the lineage check at the start of the function are not modelled. The sandbox is a deterministic partial function.
- Gold.HonestPackageReplays: stated for at most 10000 batches; `BatchOrder.BatchLimit` shows that the bound is exact. Parquet refuses frames with repeated column names, so persisted packages satisfy its condition.
- RowLocal.RowLocalPasses: comparison is any relation that accepts a complete column against itself and raises on repeated labels; floating-point tolerance is inside it.
- Selection.GreedyForwardSelection: scores are reals and the lower bound takes the square root and the critical value as functions; evaluation of an arm is a function of its features and the fold.
- Selection.SelectionMeans: critical values are taken to be non-negative and roots to be roots, over real numbers.
- Offline.VerifyPackage: the index's partition, protocol and confidence level, the discovery label of each row, and the column checks of the tables are not modelled; fold keys are numbers rather than their decimal strings. Arms of different length are refused, as the loader does before.
- Offline.AcceptedPackageTelescopes: needs the steps to be chained and each choice to be ranked, which the verifier does not look at.
- Resume.FindReusable: the listing and the times are read once; unreadable directories and symbolic links are not modelled.
- Replan.FinishedRunStands: assumes that a stage adds packages and changes none, which `Publication.WriteOnce` proves of commits.
- Completion.Client.CompleteStructured: one attempt at a time; attempts that interleave at their awaits, the outer retry and the requests inside one provider call are not modelled. `complete_json`, which parses cached content differently, is not part of this model.
- StrictSchema.StrictIsNormal: about the normalised schema; where a property's schema, a table of definitions or a list of alternatives has the wrong type, `Strictify` is None and the original raises.
- Retention.SizeLimitMet: times, ages and sizes are real numbers; the original compares times as normalised ISO strings, rounds ages to microseconds, and fails on ages beyond the calendar. One row per cache key is assumed, and one process.
- Folds.EveryRowFolded: the splitters' promises are assumptions; stratification and the features that scikit-learn looks at are not modelled.
- Seccomp.FilterDecides: the program only; installing it, and filtering by architecture, are not modelled.
- Hashing.CanonicalCollision: floats are opaque decimal tokens; dataclasses and models are taken as mappings; lower-casing of keys covers ASCII.
- Structured.FirstBalanced: the fences and thinking tags that `parse_json_payload` tries before it use regular expressions and are not modelled.
- Landlock rules, resource limits, the sandbox's source rules, telemetry, trackers, the command line, configuration validators and reports: plumbing, or fixed lists of names.
