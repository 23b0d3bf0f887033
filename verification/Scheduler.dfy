/** Case scheduling: the bounded process pool and its sequential twin. */
module Scheduler {
  import opened Prelude

  /** The world around one run, indexed by a clock that ticks at every observation: who calls
      `token.cancel`, which futures start, which complete at a wait, when Ctrl-C arrives.
      Every choice is allowed; `Completing` and `Begun` keep it to futures in flight. */
  datatype Env = Env(
    cancels: nat -> Option<string>,
    starts: nat -> set<nat>,
    finishes: nat -> seq<nat>,
    interrupts: nat -> bool)

  /** Parent-process cancellation: the first reason wins. */
  class CancellationToken {
    var reason: Option<string>

    constructor ()
      ensures reason == None
    {
      reason := None;
    }

    method Cancel(why: string)
      modifies this
      ensures reason == if old(reason).Some? then old(reason) else Some(why)
    {
      if reason.None? {
        reason := Some(why);
      }
    }
  }

  /** The token's reason after the calls of the first `t` ticks. */
  function TokenReason(cancels: nat -> Option<string>, t: nat): Option<string> {
    if t == 0 then None
    else match TokenReason(cancels, t - 1)
      case Some(why) => Some(why)
      case None => cancels(t - 1)
  }

  /** The token holds what the calls of any number of ticks leave in it. */
  method CancelThrough(token: CancellationToken, cancels: nat -> Option<string>, ticks: nat)
    requires token.reason == None
    modifies token
    ensures token.reason == TokenReason(cancels, ticks)
  {
    for t := 0 to ticks
      invariant token.reason == TokenReason(cancels, t)
    {
      if cancels(t).Some? {
        token.Cancel(cancels(t).value);
      }
    }
  }

  /** Once given, a reason never changes, and it is that of the earliest call. */
  lemma {:induction false} FirstReasonWins(cancels: nat -> Option<string>, t: nat, u: nat)
    requires t <= u && TokenReason(cancels, t).Some?
    ensures TokenReason(cancels, u) == TokenReason(cancels, t)
    ensures exists k: nat :: k < t && cancels(k) == TokenReason(cancels, t) && forall j: nat :: j < k ==> cancels(j).None?
    decreases u
  {
    if t < u {
      FirstReasonWins(cancels, t, u - 1);
    } else if TokenReason(cancels, t - 1).Some? {
      FirstReasonWins(cancels, t - 1, t - 1);
    } else {
      NoReasonYet(cancels, t - 1);
      assert cancels(t - 1) == TokenReason(cancels, t);
    }
  }

  lemma {:induction false} NoReasonYet(cancels: nat -> Option<string>, t: nat)
    requires TokenReason(cancels, t).None?
    ensures forall j: nat :: j < t ==> cancels(j).None?
  {
    if t > 0 { NoReasonYet(cancels, t - 1); }
  }

  /** `token.reason or "operator_request"` */
  function TokenStop(why: string): string { if why == "" then "operator_request" else why }

  const KEYBOARD_INTERRUPT := "keyboard_interrupt"

  datatype Outcome<Out> =
    | Misused
    | Returned(outputs: seq<Out>)
    | Failed(index: nat)
    | Interrupted(journal: map<nat, string>)

  /** What a run did. `late` counts results stored from futures in flight when it stopped;
      `frozen` is what had started when the pending futures were cancelled. */
  datatype Log = Log(
    submitted: nat,
    started: set<nat>,
    completed: set<nat>,
    stop: Option<string>,
    byToken: bool,
    submittedAtStop: nat,
    late: nat,
    peak: nat,
    frozen: Option<set<nat>>)

  // ---- in-flight futures, in submission order --------------------------------

  function Indices(xs: seq<nat>): set<nat> { set x | x in xs }

  function Range(a: nat, b: nat): (r: set<nat>)
    ensures forall i: nat :: i in r <==> a <= i < b
  {
    if a >= b then {} else Range(a, b - 1) + {b - 1}
  }

  ghost predicate DistinctSeq(xs: seq<nat>) {
    forall i, j :: 0 <= i < j < |xs| ==> xs[i] != xs[j]
  }

  /** `del in_flight[future]` */
  function Drop(xs: seq<nat>, x: nat): (r: seq<nat>)
    ensures Indices(r) == Indices(xs) - {x}
    ensures x !in xs ==> r == xs
    ensures DistinctSeq(xs) ==> DistinctSeq(r)
    ensures DistinctSeq(xs) && x in xs ==> |r| == |xs| - 1
  {
    if xs == [] then []
    else
      var rest := Drop(xs[1..], x);
      HeadApart(xs);
      if xs[0] == x then
        assert DistinctSeq(xs) ==> rest == xs[1..];
        rest
      else
        HeadApart([xs[0]] + rest);
        assert ([xs[0]] + rest)[1..] == rest;
        [xs[0]] + rest
  }

  lemma HeadApart(xs: seq<nat>)
    requires xs != []
    ensures Indices(xs) == {xs[0]} + Indices(xs[1..]) && xs == [xs[0]] + xs[1..]
    ensures DistinctSeq(xs) <==> xs[0] !in Indices(xs[1..]) && DistinctSeq(xs[1..])
  {
    var head, tail := xs[0], xs[1..];
    assert xs == [head] + tail;
    assert forall x :: x in xs <==> x == head || x in tail;
    TailApart(xs, tail);
  }

  lemma TailApart(xs: seq<nat>, tail: seq<nat>)
    requires xs != [] && tail == xs[1..]
    ensures DistinctSeq(xs) <==> xs[0] !in tail && DistinctSeq(tail)
  {
    if DistinctSeq(xs) {
      forall i, j | 0 <= i < j < |tail| ensures tail[i] != tail[j] { assert xs[i + 1] != xs[j + 1]; }
      forall k | 0 <= k < |tail| ensures tail[k] != xs[0] { assert xs[k + 1] != xs[0]; }
    }
    if xs[0] !in tail && DistinctSeq(tail) {
      forall i, j | 0 <= i < j < |xs| ensures xs[i] != xs[j] {
        assert xs[j] == tail[j - 1];
        if i > 0 { assert xs[i] == tail[i - 1]; }
      }
    }
  }

  function Keep(xs: seq<nat>, allowed: set<nat>): (r: seq<nat>)
    ensures Indices(r) <= allowed
    ensures DistinctSeq(r)
    ensures (exists x :: x in xs && x in allowed) ==> r != []
    decreases |xs|
  {
    if xs == [] then []
    else if xs[0] in allowed then
      var rest := Keep(xs[1..], allowed - {xs[0]});
      assert forall k :: 0 <= k < |rest| ==> rest[k] in Indices(rest);
      [xs[0]] + rest
    else
      Keep(xs[1..], allowed)
  }

  /** What `wait(..., FIRST_COMPLETED)` returns: some futures in flight, at least one. */
  function Completing(choice: seq<nat>, inFlight: seq<nat>): (done: seq<nat>)
    requires inFlight != []
    ensures done != [] && DistinctSeq(done) && Indices(done) <= Indices(inFlight)
  {
    var done := Keep(choice, Indices(inFlight));
    if done == [] then [inFlight[0]] else done
  }

  lemma {:induction false} KeepAll(xs: seq<nat>, allowed: set<nat>)
    requires DistinctSeq(xs) && Indices(xs) <= allowed
    ensures Keep(xs, allowed) == xs
  {
    if xs != [] {
      HeadApart(xs);
      KeepAll(xs[1..], allowed - {xs[0]});
    }
  }

  /** No completion is left out: any futures in flight, at least one, in any order, may complete. */
  lemma EveryCompletion(done: seq<nat>, inFlight: seq<nat>)
    requires done != [] && inFlight != [] && DistinctSeq(done) && Indices(done) <= Indices(inFlight)
    ensures Completing(done, inFlight) == done
  {
    KeepAll(done, Indices(inFlight));
  }

  // ---- the sequential scheduler ----------------------------------------------

  /** The rows of cases `i..`, given the stop reason so far: a stopped schedule cancels the
      rest in order, the token is looked at before each start, and a failure stops a
      fail-fast schedule after its own row. */
  function Rows<In, Out>(cases: seq<In>, execute: In -> Out, cancelled: (In, string) -> Out,
                         verdict: Option<Out -> bool>, reason: string,
                         token: Option<nat -> Option<string>>, i: nat, stop: Option<string>): (rows: seq<Out>)
    requires i <= |cases|
    ensures |rows| == |cases| - i
    decreases |cases| - i
  {
    if i == |cases| then []
    else
      var stopped := StopBefore(token, i, stop);
      if stopped.Some? then
        [cancelled(cases[i], stopped.value)] + Rows(cases, execute, cancelled, verdict, reason, token, i + 1, stopped)
      else
        var row := execute(cases[i]);
        var after := if verdict.Some? && verdict.value(row) then Some(reason) else None;
        [row] + Rows(cases, execute, cancelled, verdict, reason, token, i + 1, after)
  }

  function StopBefore(token: Option<nat -> Option<string>>, i: nat, stop: Option<string>): Option<string> {
    if stop.Some? || token.None? then stop
    else match TokenReason(token.value, i)
      case Some(why) => Some(TokenStop(why))
      case None => None
  }

  /** `_run_sequential`, tick `i` being the look at the token before case `i`. */
  method RunSequential<In, Out>(cases: seq<In>, execute: In -> Out, cancelled: (In, string) -> Out,
                                verdict: Option<Out -> bool>, reason: string,
                                token: Option<nat -> Option<string>>) returns (rows: seq<Out>)
    ensures rows == Rows(cases, execute, cancelled, verdict, reason, token, 0, None)
  {
    rows := [];
    var stop: Option<string> := None;
    var position := 0;
    while position < |cases|
      invariant position <= |cases|
      invariant rows + Rows(cases, execute, cancelled, verdict, reason, token, position, stop) ==
                Rows(cases, execute, cancelled, verdict, reason, token, 0, None)
    {
      ghost var rest := Rows(cases, execute, cancelled, verdict, reason, token, position, stop);
      var row;
      if stop.None? && token.Some? {
        var seen := TokenReason(token.value, position);
        if seen.Some? {
          stop := Some(TokenStop(seen.value));
        }
      }
      if stop.Some? {
        row := cancelled(cases[position], stop.value);
      } else {
        row := execute(cases[position]);
        if verdict.Some? && verdict.value(row) {
          stop := Some(reason);
        }
      }
      assert rest == [row] + Rows(cases, execute, cancelled, verdict, reason, token, position + 1, stop);
      hide Rows;
      AppendRow(rows, row, Rows(cases, execute, cancelled, verdict, reason, token, position + 1, stop));
      rows := rows + [row];
      position := position + 1;
    }
  }

  lemma AppendRow<T>(rows: seq<T>, row: T, rest: seq<T>)
    ensures rows + ([row] + rest) == (rows + [row]) + rest
  {
  }

  /** Whether the row of case `k` would trip the verdict. */
  predicate Trips<In, Out>(cases: seq<In>, execute: In -> Out, verdict: Option<Out -> bool>, k: int) {
    0 <= k < |cases| && verdict.Some? && verdict.value(execute(cases[k]))
  }

  /** Why the schedule stops before case `k`, had it not stopped earlier: the row just before it trips the
      verdict, or the token has a reason by now. */
  function Cause<In, Out>(cases: seq<In>, execute: In -> Out, verdict: Option<Out -> bool>, reason: string,
                          token: Option<nat -> Option<string>>, k: nat): Option<string> {
    if Trips(cases, execute, verdict, k - 1) then Some(reason)
    else if token.None? then None
    else match TokenReason(token.value, k)
      case None => None
      case Some(why) => Some(if why == "" then "operator_request" else why)
  }

  /** `k` is the first case at or after `from` before which the schedule has a cause to stop. */
  ghost predicate FirstCause<In, Out>(cases: seq<In>, execute: In -> Out, verdict: Option<Out -> bool>, reason: string,
                                      token: Option<nat -> Option<string>>, from: nat, k: nat) {
    && from <= k && Cause(cases, execute, verdict, reason, token, k).Some?
    && forall j: nat :: from <= j < k ==> Cause(cases, execute, verdict, reason, token, j).None?
  }

  lemma {:induction false} StoppedRows<In, Out>(cases: seq<In>, execute: In -> Out, cancelled: (In, string) -> Out,
                                                verdict: Option<Out -> bool>, reason: string,
                                                token: Option<nat -> Option<string>>, from: nat, why: string, i: nat)
    requires from <= i < |cases|
    ensures Rows(cases, execute, cancelled, verdict, reason, token, from, Some(why))[i - from] == cancelled(cases[i], why)
    decreases |cases| - from
  {
    if from < i { StoppedRows(cases, execute, cancelled, verdict, reason, token, from + 1, why, i); }
  }

  /** The rest of a schedule that has run every case before `from`. */
  lemma {:induction false} RowsFrom<In, Out>(cases: seq<In>, execute: In -> Out, cancelled: (In, string) -> Out,
                                             verdict: Option<Out -> bool>, reason: string,
                                             token: Option<nat -> Option<string>>, from: nat, k: nat, i: nat)
    requires from <= i < |cases|
    ensures var stop := if Trips(cases, execute, verdict, from - 1) then Some(reason) else None;
            var row := Rows(cases, execute, cancelled, verdict, reason, token, from, stop)[i - from];
            && ((forall j: nat :: from <= j <= i ==> Cause(cases, execute, verdict, reason, token, j).None?) ==>
                  row == execute(cases[i]))
            && (FirstCause(cases, execute, verdict, reason, token, from, k) && k <= i ==>
                  row == cancelled(cases[i], Cause(cases, execute, verdict, reason, token, k).value))
    decreases |cases| - from
  {
    hide *;
    if Cause(cases, execute, verdict, reason, token, from).Some? {
      StoppedFrom(cases, execute, cancelled, verdict, reason, token, from, i);
      FirstIs(cases, execute, verdict, reason, token, from, k);
    } else {
      RanFrom(cases, execute, cancelled, verdict, reason, token, from, i);
      if from < i {
        RowsFrom(cases, execute, cancelled, verdict, reason, token, from + 1, k, i);
      }
      FirstIs(cases, execute, verdict, reason, token, from, k);
    }
  }

  lemma FirstIs<In, Out>(cases: seq<In>, execute: In -> Out, verdict: Option<Out -> bool>, reason: string,
                         token: Option<nat -> Option<string>>, from: nat, k: nat)
    ensures FirstCause(cases, execute, verdict, reason, token, from, k) ==>
            && from <= k && Cause(cases, execute, verdict, reason, token, k).Some?
            && (Cause(cases, execute, verdict, reason, token, from).Some? ==> k == from)
            && (Cause(cases, execute, verdict, reason, token, from).None? ==>
                  k > from && FirstCause(cases, execute, verdict, reason, token, from + 1, k))
  {
    hide Cause;
  }

  lemma RanFrom<In, Out>(cases: seq<In>, execute: In -> Out, cancelled: (In, string) -> Out,
                         verdict: Option<Out -> bool>, reason: string,
                         token: Option<nat -> Option<string>>, from: nat, i: nat)
    requires from <= i < |cases| && Cause(cases, execute, verdict, reason, token, from).None?
    ensures var stop := if Trips(cases, execute, verdict, from - 1) then Some(reason) else None;
            var after := if Trips(cases, execute, verdict, from) then Some(reason) else None;
            Rows(cases, execute, cancelled, verdict, reason, token, from, stop)[i - from] ==
            if i == from then execute(cases[i])
            else Rows(cases, execute, cancelled, verdict, reason, token, from + 1, after)[i - from - 1]
  {
  }

  lemma StoppedFrom<In, Out>(cases: seq<In>, execute: In -> Out, cancelled: (In, string) -> Out,
                             verdict: Option<Out -> bool>, reason: string,
                             token: Option<nat -> Option<string>>, from: nat, i: nat)
    requires from <= i < |cases| && Cause(cases, execute, verdict, reason, token, from).Some?
    ensures var stop := if Trips(cases, execute, verdict, from - 1) then Some(reason) else None;
            Rows(cases, execute, cancelled, verdict, reason, token, from, stop)[i - from] ==
            cancelled(cases[i], Cause(cases, execute, verdict, reason, token, from).value)
  {
    var why := Cause(cases, execute, verdict, reason, token, from).value;
    if i > from { StoppedRows(cases, execute, cancelled, verdict, reason, token, from + 1, why, i); }
  }

  /** What the sequential schedule does with every case, for any token and any verdict: it runs the case
      exactly if there was no cause to stop up to then, and cancels it for the earliest cause otherwise. */
  lemma SequentialRow<In, Out>(cases: seq<In>, execute: In -> Out, cancelled: (In, string) -> Out,
                               verdict: Option<Out -> bool>, reason: string,
                               token: Option<nat -> Option<string>>, i: nat)
    requires i < |cases|
    ensures var row := Rows(cases, execute, cancelled, verdict, reason, token, 0, None)[i];
            if forall j: nat :: j <= i ==> Cause(cases, execute, verdict, reason, token, j).None?
            then row == execute(cases[i])
            else exists k: nat :: k <= i && FirstCause(cases, execute, verdict, reason, token, 0, k)
                                  && row == cancelled(cases[i], Cause(cases, execute, verdict, reason, token, k).value)
  {
    if j: nat :| j <= i && Cause(cases, execute, verdict, reason, token, j).Some? {
      var k := Earliest(cases, execute, verdict, reason, token, j);
      RowsFrom(cases, execute, cancelled, verdict, reason, token, 0, k, i);
    } else {
      RowsFrom(cases, execute, cancelled, verdict, reason, token, 0, 0, i);
    }
  }

  lemma {:induction false} Earliest<In, Out>(cases: seq<In>, execute: In -> Out, verdict: Option<Out -> bool>, reason: string,
                                             token: Option<nat -> Option<string>>, j: nat) returns (k: nat)
    requires Cause(cases, execute, verdict, reason, token, j).Some?
    ensures k <= j && FirstCause(cases, execute, verdict, reason, token, 0, k)
  {
    if i: nat :| i < j && Cause(cases, execute, verdict, reason, token, i).Some? {
      k := Earliest(cases, execute, verdict, reason, token, i);
    } else {
      k := j;
    }
  }

  // ---- the process pool --------------------------------------------------------

  /** The variables of the pool's loop. */
  datatype Pool<Out> = Pool(
    next: nat,
    inFlight: seq<nat>,
    started: set<nat>,
    notStarted: map<nat, string>,
    stop: Option<string>,
    outputs: seq<Option<Out>>,
    tick: nat)

  /** A pool and the history that led to it. */
  datatype Machine<Out> = Machine(pool: Pool<Out>, log: Log)

  /** What the caller of `run` passes. A worker of None is one that raises; a watched job has the
      token whose calls are the environment's. */
  datatype Job<!In, !Out> = Job(
    cases: seq<In>,
    worker: In -> Option<Out>,
    workers: nat,
    verdict: Option<Out -> bool>,
    reason: string,
    watched: bool)

  predicate Fired<In, Out>(job: Job<In, Out>, env: Env, t: nat) {
    job.watched && TokenReason(env.cancels, t).Some?
  }

  function Fresh<In, Out>(job: Job<In, Out>): Machine<Out> {
    Machine(Pool(0, [], {}, map[], None, seq(|job.cases|, _ => None), 0), Log(0, {}, {}, None, false, 0, 0, 0, None))
  }

  /** Submission up to the worker limit, while nothing stops it. */
  function Refilled<In, Out>(job: Job<In, Out>, env: Env, pool: Pool<Out>): Pool<Out>
    decreases |job.cases| - pool.next
  {
    if pool.stop.None? && pool.next < |job.cases| && |pool.inFlight| < job.workers && !Fired(job, env, pool.tick) then
      Refilled(job, env, pool.(inFlight := pool.inFlight + [pool.next], next := pool.next + 1, tick := pool.tick + 1))
    else pool
  }

  /** A refill, then the look at the token. */
  function Submitted<In, Out>(job: Job<In, Out>, env: Env, m: Machine<Out>): Machine<Out> {
    var pool := Refilled(job, env, m.pool);
    var log := m.log.(submitted := pool.next, peak := if |pool.inFlight| > m.log.peak then |pool.inFlight| else m.log.peak);
    if pool.stop.None? && Fired(job, env, pool.tick) then
      var stop := Some(TokenStop(TokenReason(env.cancels, pool.tick).value));
      Machine(pool.(stop := stop), log.(stop := stop, byToken := true, submittedAtStop := pool.next))
    else Machine(pool, log)
  }

  /** Cancelling the listed futures one by one, each if it has not started by then. */
  function CancelEach<Out>(env: Env, why: string, pending: seq<nat>, pool: Pool<Out>): Pool<Out>
    decreases |pending|
  {
    if pending == [] then pool
    else
      var started := pool.started + (env.starts(pool.tick) * Indices(pool.inFlight));
      var looked := pool.(started := started, tick := pool.tick + 1);
      CancelEach(env, why, pending[1..],
                 if pending[0] in started then looked
                 else looked.(notStarted := pool.notStarted[pending[0] := why], inFlight := Drop(pool.inFlight, pending[0])))
  }

  /** The tail that was never submitted, frozen with the stop reason. */
  function Tailed<In, Out>(job: Job<In, Out>, pool: Pool<Out>): Pool<Out>
    requires pool.stop.Some?
  {
    pool.(notStarted := pool.notStarted + map i | i in Range(pool.next, |job.cases|) :: pool.stop.value)
  }

  function Frozen<In, Out>(job: Job<In, Out>, env: Env, m: Machine<Out>): Machine<Out>
    requires m.pool.stop.Some?
  {
    var pool := CancelEach(env, m.pool.stop.value, m.pool.inFlight, Tailed(job, m.pool));
    Machine(pool, m.log.(started := pool.started, frozen := Some(pool.started)))
  }

  /** Time passes: some of the futures in flight start. */
  function Begun<Out>(env: Env, m: Machine<Out>): Machine<Out> {
    var started := m.pool.started + (env.starts(m.pool.tick) * Indices(m.pool.inFlight));
    Machine(m.pool.(started := started), m.log.(started := started))
  }

  /** What completes has started. */
  function Awaited<Out>(m: Machine<Out>, done: seq<nat>): Machine<Out> {
    var started := m.pool.started + Indices(done);
    Machine(m.pool.(started := started, tick := m.pool.tick + 1), m.log.(started := started))
  }

  function Stored<In, Out>(job: Job<In, Out>, m: Machine<Out>, index: nat, result: Out): Machine<Out>
    requires index < |m.pool.outputs|
  {
    var pool := m.pool.(inFlight := Drop(m.pool.inFlight, index), outputs := m.pool.outputs[index := Some(result)]);
    var log := m.log.(completed := m.log.completed + {index}, late := if pool.stop.Some? then m.log.late + 1 else 0);
    if pool.stop.None? && job.verdict.Some? && job.verdict.value(result) then
      Machine(pool.(stop := Some(job.reason)), log.(stop := Some(job.reason), submittedAtStop := pool.next))
    else Machine(pool, log)
  }

  /** Results stored in the order in which the futures completed, up to one whose worker raised. */
  function Collected<In, Out>(job: Job<In, Out>, m: Machine<Out>, done: seq<nat>): (Machine<Out>, Option<nat>)
    requires |m.pool.outputs| == |job.cases| && forall k :: 0 <= k < |done| ==> done[k] < |job.cases|
    decreases |done|
  {
    if done == [] then (m, None)
    else match job.worker(job.cases[done[0]])
      case None => (m, Some(done[0]))
      case Some(result) => Collected(job, Stored(job, m, done[0], result), done[1..])
  }

  /** The cancellations written after Ctrl-C: futures that had not started, and the tail. */
  function Journal<Out>(n: nat, pool: Pool<Out>): map<nat, string> {
    pool.notStarted
    + (map i | i in Indices(pool.inFlight) - pool.started :: KEYBOARD_INTERRUPT)
    + (map i | i in Range(pool.next, n) :: KEYBOARD_INTERRUPT)
  }

  datatype RoundEnd<Out> = Continue | Drained | Ended(outcome: Outcome<Out>)

  // ---- what every state of a run keeps -------------------------------------------

  predicate Triggers<In, Out>(job: Job<In, Out>, i: nat) {
    && i < |job.cases| && job.verdict.Some?
    && job.worker(job.cases[i]).Some? && job.verdict.value(job.worker(job.cases[i]).value)
  }

  predicate IsTokenStop(cancels: nat -> Option<string>, t: nat, why: string) {
    TokenReason(cancels, t).Some? && why == TokenStop(TokenReason(cancels, t).value)
  }

  /** Who is where: every submitted case is in exactly one of completed, in flight and
      cancelled-before-start; what started is completed or still in flight. */
  ghost predicate PoolOk<Out>(n: nat, workers: nat, pool: Pool<Out>, completed: set<nat>) {
    && pool.next <= n && |pool.inFlight| <= workers && DistinctSeq(pool.inFlight)
    && completed !! Indices(pool.inFlight)
    && completed <= pool.started <= completed + Indices(pool.inFlight)
    && pool.notStarted.Keys !! (completed + Indices(pool.inFlight))
    && (forall i :: i in completed || i in Indices(pool.inFlight) ==> i < pool.next)
    && (forall i :: 0 <= i < pool.next ==> i in completed || i in Indices(pool.inFlight) || i in pool.notStarted)
    && (forall i :: i in pool.notStarted ==> i < n && pool.stop == Some(pool.notStarted[i]))
  }

  /** Where the stop reason came from: the token, or the verdict on a completed result. */
  ghost predicate StopExplained<In(!new), Out(!new)>(job: Job<In, Out>, env: Env, log: Log) {
    && (log.stop.None? ==> !log.byToken && forall i :: i in log.completed ==> !Triggers(job, i))
    && (log.stop.Some? && log.byToken ==> job.watched && exists t: nat :: IsTokenStop(env.cancels, t, log.stop.value))
    && (log.stop.Some? && !log.byToken ==> log.stop.value == job.reason && exists i :: i in log.completed && Triggers(job, i))
  }

  /** The results so far, and room for at most `workers` more after the token, one less after a
      verdict. Room for all of them is left only if no submitted case was cancelled. */
  ghost predicate ResultsOk<In(!new), Out(!new)>(job: Job<In, Out>, pool: Pool<Out>, log: Log) {
    && |pool.outputs| == |job.cases|
    && (forall i :: 0 <= i < |job.cases| ==> (pool.outputs[i].Some? <==> i in log.completed))
    && (forall i :: 0 <= i < |job.cases| && i in log.completed ==> pool.outputs[i] == job.worker(job.cases[i]))
    && (log.stop.None? ==> log.late == 0)
    && (log.stop.Some? ==> log.late + |pool.inFlight| <= (if log.byToken then job.workers else job.workers - 1))
    && (log.stop.Some? ==> log.submittedAtStop == log.submitted)
    && log.peak <= job.workers
    && (log.stop.Some? && log.late + |pool.inFlight| == job.workers ==>
          pool.next >= job.workers && forall i :: 0 <= i < pool.next ==> i in log.completed || i in Indices(pool.inFlight))
  }

  ghost predicate Good<In(!new), Out(!new)>(job: Job<In, Out>, env: Env, m: Machine<Out>) {
    && job.workers >= 1
    && PoolOk(|job.cases|, job.workers, m.pool, m.log.completed)
    && ResultsOk(job, m.pool, m.log)
    && StopExplained(job, env, m.log)
    && m.log.stop == m.pool.stop && m.log.submitted == m.pool.next && m.log.started == m.pool.started
    && (m.log.frozen.None? ==> m.pool.notStarted == map[])
    && (m.log.frozen.Some? ==>
          m.pool.stop.Some? && Indices(m.pool.inFlight) <= m.pool.started && m.log.frozen.value == m.pool.started)
    && (m.pool.stop.Some? ==> job.verdict.Some? || job.watched)
  }

  /** With one worker and no token, cases complete in order and only the last can trigger. */
  ghost predicate OneByOne<In(!new), Out(!new)>(job: Job<In, Out>, log: Log) {
    && log.completed == Range(0, log.submitted) && !log.byToken
    && (forall i: nat :: i + 1 < log.submitted ==> !Triggers(job, i))
    && (log.stop.Some? ==> log.submitted > 0 && Triggers(job, log.submitted - 1))
  }

  ghost predicate InOrder<In(!new), Out(!new)>(job: Job<In, Out>, m: Machine<Out>) {
    job.workers == 1 && !job.watched ==> m.pool.inFlight == [] && OneByOne(job, m.log)
  }

  /** With one worker and no token: nothing in flight, or exactly the case submitted last. */
  ghost predicate InStep<In(!new), Out(!new)>(job: Job<In, Out>, m: Machine<Out>) {
    job.workers == 1 && !job.watched ==>
      || (m.pool.inFlight == [] && OneByOne(job, m.log))
      || (&& m.pool.next > 0 && m.pool.inFlight == [m.pool.next - 1] && m.pool.stop.None?
          && OneByOne(job, m.log.(submitted := m.pool.next - 1)))
  }

  predicate Busy<In, Out>(job: Job<In, Out>, pool: Pool<Out>) {
    pool.inFlight != [] || pool.next < |job.cases|
  }

  function Measure<In, Out>(job: Job<In, Out>, pool: Pool<Out>): int {
    |pool.inFlight| + (|job.cases| - pool.next)
  }

  lemma FreshKeeps<In(!new), Out(!new)>(job: Job<In, Out>, env: Env)
    requires job.workers >= 1
    ensures Good(job, env, Fresh(job)) && InOrder(job, Fresh(job))
  {
  }

  lemma OneMore(xs: seq<nat>, x: nat)
    ensures Indices(xs + [x]) == Indices(xs) + {x}
    ensures DistinctSeq(xs) && x !in Indices(xs) ==> DistinctSeq(xs + [x])
  {
    assert forall i :: 0 <= i < |xs| ==> xs[i] in Indices(xs);
  }

  lemma {:induction false} RefilledKeeps<In, Out>(job: Job<In, Out>, env: Env, pool: Pool<Out>)
    requires pool.next <= |job.cases| && |pool.inFlight| <= job.workers && DistinctSeq(pool.inFlight)
    requires forall i :: i in Indices(pool.inFlight) ==> i < pool.next
    ensures var r := Refilled(job, env, pool);
            && r == pool.(next := r.next, inFlight := r.inFlight, tick := r.tick)
            && pool.next <= r.next <= |job.cases| && |r.inFlight| <= job.workers && DistinctSeq(r.inFlight)
            && Indices(r.inFlight) == Indices(pool.inFlight) + Range(pool.next, r.next)
            && |r.inFlight| == |pool.inFlight| + (r.next - pool.next)
            && (pool.stop.Some? ==> r == pool)
            && (pool.stop.None? ==> r.next == |job.cases| || |r.inFlight| == job.workers || Fired(job, env, r.tick))
    decreases |job.cases| - pool.next
  {
    if pool.stop.None? && pool.next < |job.cases| && |pool.inFlight| < job.workers && !Fired(job, env, pool.tick) {
      var more := pool.(inFlight := pool.inFlight + [pool.next], next := pool.next + 1, tick := pool.tick + 1);
      OneMore(pool.inFlight, pool.next);
      hide DistinctSeq, Indices;
      RefilledKeeps(job, env, more);
      var r := Refilled(job, env, more);
      assert {pool.next} + Range(pool.next + 1, r.next) == Range(pool.next, r.next);
    } else {
      assert Range(pool.next, pool.next) == {};
    }
  }

  lemma {:induction false} DistinctBound(xs: seq<nat>, n: nat)
    requires DistinctSeq(xs) && forall i :: i in Indices(xs) ==> i < n
    ensures |xs| <= n
    decreases n
  {
    if n > 0 {
      var rest := Drop(xs, n - 1);
      DistinctBound(rest, n - 1);
      if n - 1 !in xs { assert rest == xs; }
    } else {
      NoneBelow(xs);
    }
  }

  lemma NoneBelow(xs: seq<nat>)
    ensures Indices(xs) == {} ==> xs == []
  {
    if xs != [] { assert xs[0] in Indices(xs); }
  }

  lemma SubmittedKeeps<In(!new), Out(!new)>(job: Job<In, Out>, env: Env, m: Machine<Out>)
    requires Good(job, env, m) && InOrder(job, m)
    ensures var r := Submitted(job, env, m);
            && Good(job, env, r) && InStep(job, r) && Measure(job, r.pool) == Measure(job, m.pool)
            && (Busy(job, m.pool) && r.pool.inFlight == [] ==> r.pool.stop.Some?)
            && (Busy(job, m.pool) && r.pool.stop.None? ==> r.pool.inFlight != [])
  {
    RefilledKeeps(job, env, m.pool);
    var pool, r := Refilled(job, env, m.pool), Submitted(job, env, m);
    assert PoolOk(|job.cases|, job.workers, pool, m.log.completed);
    DistinctBound(pool.inFlight, pool.next);
    if pool.stop.None? && Fired(job, env, pool.tick) {
      assert IsTokenStop(env.cancels, pool.tick, r.pool.stop.value);
    }
    if job.workers == 1 && !job.watched && pool.inFlight != [] {
      assert pool.inFlight[0] in Indices(pool.inFlight);
    }
  }

  /** What cancelling some of the futures in flight may do to a pool. */
  ghost predicate CancelsOnly<Out>(why: string, pool: Pool<Out>, r: Pool<Out>) {
    && r == pool.(inFlight := r.inFlight, started := r.started, notStarted := r.notStarted, tick := r.tick)
    && DistinctSeq(r.inFlight) && |r.inFlight| <= |pool.inFlight| && Indices(r.inFlight) <= Indices(pool.inFlight)
    && pool.started <= r.started <= pool.started + Indices(pool.inFlight)
    && r.started !! (Indices(pool.inFlight) - Indices(r.inFlight))
    && r.notStarted.Keys == pool.notStarted.Keys + (Indices(pool.inFlight) - Indices(r.inFlight))
    && (forall i :: i in r.notStarted ==> r.notStarted[i] == if i in pool.notStarted then pool.notStarted[i] else why)
    && (|r.inFlight| == |pool.inFlight| ==> r.inFlight == pool.inFlight)
  }

  lemma CancelOne<Out>(env: Env, why: string, first: nat, pool: Pool<Out>)
    requires DistinctSeq(pool.inFlight) && pool.notStarted.Keys !! Indices(pool.inFlight) && first in Indices(pool.inFlight)
    ensures var r := CancelEach(env, why, [first], pool);
            && CancelsOnly(why, pool, r) && (first in Indices(r.inFlight) ==> first in r.started)
            && Indices(pool.inFlight) - {first} <= Indices(r.inFlight)
            && r.notStarted.Keys !! Indices(r.inFlight)
  {
    assert [first][1..] == [];
  }

  lemma CancelMore<Out>(why: string, pool: Pool<Out>, middle: Pool<Out>, r: Pool<Out>)
    requires CancelsOnly(why, pool, middle) && CancelsOnly(why, middle, r)
    ensures CancelsOnly(why, pool, r)
  {
  }

  lemma CancelHead<Out>(env: Env, why: string, pending: seq<nat>, pool: Pool<Out>)
    requires pending != []
    ensures CancelEach(env, why, pending, pool) == CancelEach(env, why, pending[1..], CancelEach(env, why, [pending[0]], pool))
  {
    assert [pending[0]][1..] == [];
  }

  lemma {:induction false} CancelEachKeeps<Out>(env: Env, why: string, pending: seq<nat>, pool: Pool<Out>)
    requires DistinctSeq(pool.inFlight) && DistinctSeq(pending) && Indices(pending) <= Indices(pool.inFlight)
    requires pool.notStarted.Keys !! Indices(pool.inFlight)
    ensures CancelsOnly(why, pool, CancelEach(env, why, pending, pool))
    ensures Indices(pending) * Indices(CancelEach(env, why, pending, pool).inFlight) <= CancelEach(env, why, pending, pool).started
    decreases |pending|
  {
    if pending != [] {
      var first := pending[0];
      var middle := CancelEach(env, why, [first], pool);
      assert Indices(pending) == {first} + Indices(pending[1..]);
      assert forall x :: x in Indices(pending[1..]) ==> x != first;
      CancelOne(env, why, first, pool);
      CancelHead(env, why, pending, pool);
      hide CancelEach;
      CancelEachKeeps(env, why, pending[1..], middle);
      CancelMore(why, pool, middle, CancelEach(env, why, pending, pool));
    }
  }

  lemma TailedFacts<In(!new), Out(!new)>(job: Job<In, Out>, env: Env, m: Machine<Out>)
    requires Good(job, env, m) && m.pool.stop.Some?
    ensures var tailed := Tailed(job, m.pool);
            && tailed == m.pool.(notStarted := tailed.notStarted)
            && tailed.notStarted.Keys == m.pool.notStarted.Keys + Range(m.pool.next, |job.cases|)
            && (forall i :: i in tailed.notStarted ==> tailed.notStarted[i] == m.pool.stop.value)
            && tailed.notStarted.Keys !! Indices(m.pool.inFlight) && DistinctSeq(m.pool.inFlight)
  {
  }

  lemma CancelledPool<Out>(n: nat, workers: nat, pool: Pool<Out>, tailed: Pool<Out>, r: Pool<Out>, completed: set<nat>)
    requires PoolOk(n, workers, pool, completed) && pool.stop.Some?
    requires tailed == pool.(notStarted := tailed.notStarted) && tailed.notStarted.Keys == pool.notStarted.Keys + Range(pool.next, n)
    requires forall i :: i in tailed.notStarted ==> tailed.notStarted[i] == pool.stop.value
    requires CancelsOnly(pool.stop.value, tailed, r)
    ensures PoolOk(n, workers, r, completed)
  {
    assert completed !! Indices(pool.inFlight);
  }

  lemma FrozenKeeps<In(!new), Out(!new)>(job: Job<In, Out>, env: Env, m: Machine<Out>)
    requires Good(job, env, m) && InStep(job, m) && m.pool.stop.Some?
    ensures var r := Frozen(job, env, m);
            && Good(job, env, r) && InOrder(job, r) && Measure(job, r.pool) <= Measure(job, m.pool)
            && r.pool.stop.Some? && r.pool.next == m.pool.next && r.log.late == m.log.late
            && Range(m.pool.next, |job.cases|) <= r.pool.notStarted.Keys
  {
    hide CancelEach, PoolOk, Tailed, DistinctSeq, Triggers, IsTokenStop;
    var tailed := Tailed(job, m.pool);
    TailedFacts(job, env, m);
    CancelEachKeeps(env, m.pool.stop.value, m.pool.inFlight, tailed);
    var r := Frozen(job, env, m);
    CancelledPool(|job.cases|, job.workers, m.pool, tailed, r.pool, m.log.completed);
  }

  lemma BegunKeeps<In(!new), Out(!new)>(job: Job<In, Out>, env: Env, m: Machine<Out>)
    requires Good(job, env, m) && InStep(job, m)
    ensures Good(job, env, Begun(env, m)) && InStep(job, Begun(env, m))
  {
  }

  lemma AwaitedKeeps<In(!new), Out(!new)>(job: Job<In, Out>, env: Env, m: Machine<Out>, done: seq<nat>)
    requires Good(job, env, m) && InStep(job, m) && Indices(done) <= Indices(m.pool.inFlight)
    ensures Good(job, env, Awaited(m, done)) && InStep(job, Awaited(m, done))
  {
  }

  lemma StoredKeeps<In(!new), Out(!new)>(job: Job<In, Out>, env: Env, m: Machine<Out>, index: nat, result: Out)
    requires Good(job, env, m) && InStep(job, m)
    requires index in Indices(m.pool.inFlight) && index in m.pool.started
    requires index < |job.cases| && job.worker(job.cases[index]) == Some(result)
    ensures var r := Stored(job, m, index, result);
            && Good(job, env, r) && InOrder(job, r)
            && r.pool.next == m.pool.next && r.pool.started == m.pool.started && |r.pool.inFlight| == |m.pool.inFlight| - 1
            && (m.pool.stop.Some? ==> r.pool.stop == m.pool.stop && r.log.late == m.log.late + 1)
            && Indices(r.pool.inFlight) == Indices(m.pool.inFlight) - {index}
  {
    var r := Stored(job, m, index, result);
    if m.pool.stop.None? && r.pool.stop.Some? {
      assert Triggers(job, index);
    }
    assert PoolOk(|job.cases|, job.workers, r.pool, r.log.completed);
    assert ResultsOk(job, r.pool, r.log);
    assert StopExplained(job, env, r.log);
  }

  lemma OrderIsStep<In(!new), Out(!new)>(job: Job<In, Out>, m: Machine<Out>)
    requires InOrder(job, m)
    ensures InStep(job, m)
  {
  }

  lemma {:induction false} CollectedKeeps<In(!new), Out(!new)>(job: Job<In, Out>, env: Env, m: Machine<Out>, done: seq<nat>)
    requires Good(job, env, m) && InStep(job, m) && (done == [] ==> InOrder(job, m))
    requires DistinctSeq(done) && Indices(done) <= Indices(m.pool.inFlight) && Indices(done) <= m.pool.started
    ensures |m.pool.outputs| == |job.cases| && forall k :: 0 <= k < |done| ==> done[k] < |job.cases|
    ensures var (r, failed) := Collected(job, m, done);
            && Good(job, env, r)
            && (failed.None? ==> InOrder(job, r) && r.pool.next == m.pool.next && |r.pool.inFlight| == |m.pool.inFlight| - |done|)
            && (failed.None? && m.pool.stop.Some? ==> r.pool.stop == m.pool.stop && r.log.late == m.log.late + |done|)
            && (failed.Some? ==> failed.value < m.pool.next)
            && (failed.Some? ==> failed.value in r.log.started && failed.value < |job.cases| && job.worker(job.cases[failed.value]).None?)
    decreases |done|
  {
    assert forall k :: 0 <= k < |done| ==> done[k] in Indices(done);
    if done != [] && job.worker(job.cases[done[0]]).Some? {
      var result := job.worker(job.cases[done[0]]).value;
      var next := Stored(job, m, done[0], result);
      StoredKeeps(job, env, m, done[0], result);
      OrderIsStep(job, next);
      hide Good, InStep, InOrder, Stored;
      assert forall x :: x in Indices(done[1..]) ==> x in Indices(done) && x != done[0];
      CollectedKeeps(job, env, next, done[1..]);
    }
  }

  // ---- whole runs ----------------------------------------------------------------

  /** The wait and what follows it, once the stop conditions were looked at. */
  ghost function Waited<In(!new), Out(!new)>(job: Job<In, Out>, env: Env, m: Machine<Out>): (Machine<Out>, RoundEnd<Out>)
    requires Good(job, env, m) && InStep(job, m) && m.pool.inFlight != []
  {
    var begun := Begun(env, m);
    if env.interrupts(begun.pool.tick) then (begun, Ended(Interrupted(Journal(|job.cases|, begun.pool))))
    else
      var done := Completing(env.finishes(begun.pool.tick), begun.pool.inFlight);
      AwaitedReady(job, env, m, done);
      var (r, failed) := Collected(job, Awaited(begun, done), done);
      (r, if failed.Some? then Ended(Failed(failed.value)) else Continue)
  }

  /** One turn of the loop: refill, look at the stop conditions, wait, store results. */
  ghost function RoundOf<In(!new), Out(!new)>(job: Job<In, Out>, env: Env, m: Machine<Out>): (Machine<Out>, RoundEnd<Out>)
    requires Good(job, env, m) && InOrder(job, m) && Busy(job, m.pool)
  {
    SubmittedKeeps(job, env, m);
    var submitted := Submitted(job, env, m);
    if submitted.pool.stop.None? then Waited(job, env, submitted)
    else
      FrozenKeeps(job, env, submitted);
      var frozen := Frozen(job, env, submitted);
      OrderIsStep(job, frozen);
      if frozen.pool.inFlight == [] then (frozen, Drained) else Waited(job, env, frozen)
  }

  lemma AwaitedReady<In(!new), Out(!new)>(job: Job<In, Out>, env: Env, m: Machine<Out>, done: seq<nat>)
    requires Good(job, env, m) && InStep(job, m)
    requires done != [] && DistinctSeq(done) && Indices(done) <= Indices(m.pool.inFlight)
    ensures var a := Awaited(Begun(env, m), done);
            && Good(job, env, a) && InStep(job, a) && Indices(done) <= a.pool.started
            && a.pool == m.pool.(started := a.pool.started, tick := a.pool.tick) && a.log == m.log.(started := a.log.started)
            && |a.pool.outputs| == |job.cases|
    ensures forall k :: 0 <= k < |done| ==> done[k] < |job.cases|
  {
    BegunKeeps(job, env, m);
    AwaitedKeeps(job, env, Begun(env, m), done);
    CollectedKeeps(job, env, Awaited(Begun(env, m), done), done);
  }

  /** What one way of ending a turn says. */
  ghost predicate EndOk<In(!new), Out(!new)>(job: Job<In, Out>, env: Env, m: Machine<Out>, end: RoundEnd<Out>) {
    && Good(job, env, m)
    && (end == Continue ==> InOrder(job, m))
    && (end == Drained ==>
          && InOrder(job, m) && m.pool.inFlight == [] && m.pool.stop.Some?
          && Range(m.pool.next, |job.cases|) <= m.pool.notStarted.Keys)
    && (end.Ended? ==> FaultOk(job, env, m, end.outcome))
  }

  ghost predicate FaultOk<In(!new), Out(!new)>(job: Job<In, Out>, env: Env, m: Machine<Out>, outcome: Outcome<Out>) {
    match outcome
    case Failed(index) => index < |job.cases| && index in m.log.started && job.worker(job.cases[index]).None?
    case Interrupted(journal) => journal == Journal(|job.cases|, m.pool) && exists t: nat :: env.interrupts(t)
    case _ => false
  }

  lemma WaitedKeeps<In(!new), Out(!new)>(job: Job<In, Out>, env: Env, m: Machine<Out>)
    requires Good(job, env, m) && InStep(job, m) && m.pool.inFlight != []
    ensures var (r, end) := Waited(job, env, m);
            EndOk(job, env, r, end) && !end.Drained? && (end == Continue ==> Measure(job, r.pool) < Measure(job, m.pool))
  {
    hide Good, InStep, InOrder, Collected, Journal, Awaited, Completing, Indices;
    BegunKeeps(job, env, m);
    var begun := Begun(env, m);
    assert begun.pool.inFlight == m.pool.inFlight;
    hide Begun;
    if !env.interrupts(begun.pool.tick) {
      var done := Completing(env.finishes(begun.pool.tick), begun.pool.inFlight);
      AwaitedReady(job, env, m, done);
      var awaited := Awaited(begun, done);
      CollectedKeeps(job, env, awaited, done);
      assert Waited(job, env, m).0 == Collected(job, awaited, done).0;
    }
  }

  lemma RoundKeeps<In(!new), Out(!new)>(job: Job<In, Out>, env: Env, m: Machine<Out>)
    requires Good(job, env, m) && InOrder(job, m) && Busy(job, m.pool)
    ensures var (r, end) := RoundOf(job, env, m);
            EndOk(job, env, r, end) && (end == Continue ==> 0 <= Measure(job, r.pool) < Measure(job, m.pool))
  {
    SubmittedKeeps(job, env, m);
    var submitted := Submitted(job, env, m);
    NextWithin(job, env, RoundOf(job, env, m).0);
    hide Good, InStep, InOrder, Waited, Submitted, Frozen;
    if submitted.pool.stop.None? {
      WaitedKeeps(job, env, submitted);
    } else {
      FrozenKeeps(job, env, submitted);
      var frozen := Frozen(job, env, submitted);
      OrderIsStep(job, frozen);
      if frozen.pool.inFlight != [] {
        WaitedKeeps(job, env, frozen);
      }
    }
  }

  lemma NextWithin<In(!new), Out(!new)>(job: Job<In, Out>, env: Env, m: Machine<Out>)
    ensures Good(job, env, m) ==> m.pool.next <= |job.cases| && 0 <= Measure(job, m.pool)
  {
  }

  /** The rest of a run: how it was stopped from outside, or None once it is drained. */
  ghost function RunFrom<In(!new), Out(!new)>(job: Job<In, Out>, env: Env, m: Machine<Out>): (Machine<Out>, Option<Outcome<Out>>)
    requires Good(job, env, m) && InOrder(job, m)
    decreases Measure(job, m.pool)
  {
    if !Busy(job, m.pool) then (m, None)
    else
      RoundKeeps(job, env, m);
      var (r, end) := RoundOf(job, env, m);
      match end
      case Continue => RunFrom(job, env, r)
      case Drained => (r, None)
      case Ended(outcome) => (r, Some(outcome))
  }

  /** Nothing is in flight and every case has a result or a stop reason. */
  ghost predicate Settled<In(!new), Out(!new)>(job: Job<In, Out>, env: Env, m: Machine<Out>) {
    && Good(job, env, m) && InOrder(job, m) && m.pool.inFlight == []
    && Range(m.pool.next, |job.cases|) <= m.pool.notStarted.Keys
  }

  lemma {:induction false} RunKeeps<In(!new), Out(!new)>(job: Job<In, Out>, env: Env, m: Machine<Out>)
    requires Good(job, env, m) && InOrder(job, m)
    ensures var (r, end) := RunFrom(job, env, m);
            if end.None? then Settled(job, env, r) else Good(job, env, r) && FaultOk(job, env, r, end.value)
    decreases Measure(job, m.pool)
  {
    NextWithin(job, env, m);
    hide Good, InOrder, RoundOf, FaultOk;
    if Busy(job, m.pool) {
      RoundKeeps(job, env, m);
      var (r, end) := RoundOf(job, env, m);
      if end == Continue {
        RunKeeps(job, env, r);
      }
    } else {
      assert Range(|job.cases|, |job.cases|) == {};
    }
  }

  /** The row of case `i`: its own result, or the cancelled row the caller builds. */
  function RowAt<In, Out>(job: Job<In, Out>, cancelled: Option<(In, string) -> Out>, pool: Pool<Out>, i: nat): Option<Out>
    requires i < |job.cases| && |pool.outputs| == |job.cases|
  {
    if i !in pool.notStarted then pool.outputs[i]
    else if cancelled.Some? then Some(cancelled.value(job.cases[i], pool.notStarted[i]))
    else None
  }

  function Assembled<In, Out>(job: Job<In, Out>, cancelled: Option<(In, string) -> Out>, pool: Pool<Out>, n: nat): (rows: seq<Out>)
    requires n <= |job.cases| && |pool.outputs| == |job.cases|
    requires forall i: nat :: i < n ==> RowAt(job, cancelled, pool, i).Some?
    ensures |rows| == n && forall i: nat :: i < n ==> rows[i] == RowAt(job, cancelled, pool, i).value
  {
    if n == 0 then [] else Assembled(job, cancelled, pool, n - 1) + [RowAt(job, cancelled, pool, n - 1).value]
  }

  lemma SettledRows<In(!new), Out(!new)>(job: Job<In, Out>, cancelled: Option<(In, string) -> Out>, env: Env, m: Machine<Out>)
    requires Settled(job, env, m) && (job.verdict.Some? || job.watched ==> cancelled.Some?)
    ensures |m.pool.outputs| == |job.cases| && m.log.started == m.log.completed
    ensures forall i: nat :: i < |job.cases| ==>
      RowAt(job, cancelled, m.pool, i) ==
      if i in m.log.started then job.worker(job.cases[i])
      else if m.log.stop.Some? && cancelled.Some? then Some(cancelled.value(job.cases[i], m.log.stop.value))
      else None
    ensures forall i: nat :: i < |job.cases| ==> RowAt(job, cancelled, m.pool, i).Some?
    ensures m.log.started != Range(0, |job.cases|) ==> m.log.frozen.Some?
  {
    forall i: nat | i < |job.cases| && i !in m.log.started
      ensures i in m.pool.notStarted
    {
      assert i < m.pool.next || i in Range(m.pool.next, |job.cases|);
    }
  }

  /** `ProcessPoolExecutionAdapter.run` in a world: how it ends and what it did. */
  ghost function PoolRun<In(!new), Out(!new)>(job: Job<In, Out>, cancelled: Option<(In, string) -> Out>, env: Env): (Outcome<Out>, Log)
    requires job.workers >= 1
  {
    if (job.verdict.Some? || job.watched) && cancelled.None? then (Misused, Fresh(job).log)
    else if job.cases == [] then (Returned([]), Fresh(job).log)
    else
      FreshKeeps(job, env);
      RunKeeps(job, env, Fresh(job));
      var (m, end) := RunFrom(job, env, Fresh(job));
      match end
      case Some(outcome) => (outcome, m.log)
      case None =>
        SettledRows(job, cancelled, env, m);
        (Returned(Assembled(job, cancelled, m.pool, |job.cases|)), m.log)
  }

  /** What the log of any run says, however it ends. */
  ghost predicate Accounted<In(!new), Out(!new)>(job: Job<In, Out>, env: Env, log: Log) {
    && log.peak <= job.workers
    && log.completed <= log.started <= Range(0, log.submitted) && log.submitted <= |job.cases|
    && StopExplained(job, env, log)
    && (log.stop.Some? ==> log.submitted == log.submittedAtStop)
    && log.late <= job.workers && (!log.byToken ==> log.late < job.workers)
    && (log.late == job.workers ==> log.submitted >= job.workers && log.completed == Range(0, log.submitted))
    && (forall i :: i in log.completed ==> job.worker(job.cases[i]).Some?)
    && (log.frozen.Some? ==> log.stop.Some? && log.frozen.value == log.started)
    && (job.verdict.None? && !job.watched ==> log.stop.None?)
  }

  /** Exactly the cases that never started are journaled as cancelled. */
  ghost predicate JournalOk(n: nat, journal: map<nat, string>, log: Log) {
    && journal.Keys == Range(0, n) - log.started
    && forall i :: i in journal ==>
         journal[i] == KEYBOARD_INTERRUPT || (i < log.submitted && log.stop == Some(journal[i]))
  }

  lemma JournalIsUnstarted<In(!new), Out(!new)>(job: Job<In, Out>, env: Env, m: Machine<Out>)
    requires Good(job, env, m)
    ensures JournalOk(|job.cases|, Journal(|job.cases|, m.pool), m.log)
  {
  }

  lemma Account<In(!new), Out(!new)>(job: Job<In, Out>, env: Env, m: Machine<Out>)
    requires Good(job, env, m)
    ensures Accounted(job, env, m.log)
  {
    var log := m.log;
    if log.late == job.workers && log.stop.Some? {
      assert m.pool.inFlight == [];
    }
  }

  /** At most `workers` futures are in flight, what was submitted is a prefix, nothing is submitted
      after the stop. On return every slot holds the worker's own result exactly if its case
      started, else its cancelled row; a run is interrupted only when Ctrl-C arrives. */
  ghost predicate RunOk<In(!new), Out(!new)>(job: Job<In, Out>, cancelled: Option<(In, string) -> Out>, env: Env,
                                             r: Outcome<Out>, log: Log) {
    && Accounted(job, env, log)
    && match r
       case Misused => (job.verdict.Some? || job.watched) && cancelled.None?
       case Returned(rows) =>
         && RowsOk(job, cancelled, rows, log) && log.started == log.completed
         && (log.started != Range(0, |job.cases|) ==> log.frozen.Some?)
         && (job.workers == 1 && !job.watched ==>
               OneByOne(job, log) && (log.stop.None? ==> log.submitted == |job.cases|))
       case Failed(index) => index < |job.cases| && index in log.started && job.worker(job.cases[index]).None?
       case Interrupted(journal) => JournalOk(|job.cases|, journal, log) && exists t: nat :: env.interrupts(t)
  }

  ghost predicate RowsOk<In(!new), Out(!new)>(job: Job<In, Out>, cancelled: Option<(In, string) -> Out>, rows: seq<Out>, log: Log) {
    && |rows| == |job.cases|
    && forall i: nat :: i < |job.cases| ==>
      if i in log.started then job.worker(job.cases[i]) == Some(rows[i])
      else log.stop.Some? && cancelled.Some? && rows[i] == cancelled.value(job.cases[i], log.stop.value)
  }

  lemma SettledOk<In(!new), Out(!new)>(job: Job<In, Out>, cancelled: Option<(In, string) -> Out>, env: Env, m: Machine<Out>, rows: seq<Out>)
    requires Settled(job, env, m) && (job.verdict.Some? || job.watched ==> cancelled.Some?)
    requires |rows| == |job.cases| && |m.pool.outputs| == |job.cases|
    requires forall i: nat :: i < |rows| ==> RowAt(job, cancelled, m.pool, i) == Some(rows[i])
    ensures RunOk(job, cancelled, env, Returned(rows), m.log)
  {
    Account(job, env, m);
    SettledRows(job, cancelled, env, m);
    hide RowAt, StopExplained, ResultsOk, Triggers, Accounted;
  }

  lemma PoolFacts<In(!new), Out(!new)>(job: Job<In, Out>, cancelled: Option<(In, string) -> Out>, env: Env)
    requires job.workers >= 1
    ensures var (r, log) := PoolRun(job, cancelled, env);
            && RunOk(job, cancelled, env, r, log)
            && (r.Misused? <==> (job.verdict.Some? || job.watched) && cancelled.None?)
  {
    FreshKeeps(job, env);
    Account(job, env, Fresh(job));
    if !((job.verdict.Some? || job.watched) && cancelled.None?) && job.cases != [] {
      RunKeeps(job, env, Fresh(job));
      hide RunFrom, Good, Accounted, OneByOne, JournalOk, RowsOk;
      var (m, end) := RunFrom(job, env, Fresh(job));
      if end.None? {
        SettledRows(job, cancelled, env, m);
        SettledOk(job, cancelled, env, m, Assembled(job, cancelled, m.pool, |job.cases|));
        hide RunOk;
      } else {
        Account(job, env, m);
        JournalIsUnstarted(job, env, m);
      }
    }
  }

  // ---- the loops -------------------------------------------------------------------

  method Refill<In(!new), Out(!new)>(job: Job<In, Out>, env: Env, pool0: Pool<Out>) returns (pool: Pool<Out>)
    ensures pool == Refilled(job, env, pool0)
  {
    pool := pool0;
    while pool.stop.None? && pool.next < |job.cases| && |pool.inFlight| < job.workers
      invariant Refilled(job, env, pool) == Refilled(job, env, pool0)
      decreases |job.cases| - pool.next
    {
      if Fired(job, env, pool.tick) {
        break;
      }
      pool := pool.(inFlight := pool.inFlight + [pool.next], next := pool.next + 1, tick := pool.tick + 1);
    }
  }

  method CancelPending<Out(!new)>(env: Env, why: string, pool0: Pool<Out>) returns (pool: Pool<Out>)
    ensures pool == CancelEach(env, why, pool0.inFlight, pool0)
  {
    pool := pool0;
    var pending: seq<nat> := pool0.inFlight;
    while pending != []
      invariant CancelEach(env, why, pending, pool) == CancelEach(env, why, pool0.inFlight, pool0)
      decreases |pending|
    {
      var index := pending[0];
      pool := pool.(started := pool.started + (env.starts(pool.tick) * Indices(pool.inFlight)), tick := pool.tick + 1);
      if index !in pool.started {
        pool := pool.(notStarted := pool.notStarted[index := why], inFlight := Drop(pool.inFlight, index));
      }
      pending := pending[1..];
    }
  }

  method Collect<In(!new), Out(!new)>(job: Job<In, Out>, m0: Machine<Out>, completed: seq<nat>)
    returns (m: Machine<Out>, failed: Option<nat>)
    requires |m0.pool.outputs| == |job.cases| && forall k :: 0 <= k < |completed| ==> completed[k] < |job.cases|
    ensures (m, failed) == Collected(job, m0, completed)
  {
    m, failed := m0, None;
    var done: seq<nat> := completed;
    while done != []
      invariant |m.pool.outputs| == |job.cases| && forall k :: 0 <= k < |done| ==> done[k] < |job.cases|
      invariant Collected(job, m, done) == Collected(job, m0, completed)
      decreases |done|
    {
      var result := job.worker(job.cases[done[0]]);
      if result.None? {
        return m, Some(done[0]);
      }
      m := Stored(job, m, done[0], result.value);
      done := done[1..];
    }
  }

  method Round<In(!new), Out(!new)>(job: Job<In, Out>, env: Env, m0: Machine<Out>) returns (m: Machine<Out>, end: RoundEnd<Out>)
    requires Good(job, env, m0) && InOrder(job, m0) && Busy(job, m0.pool)
    ensures (m, end) == RoundOf(job, env, m0)
  {
    SubmittedKeeps(job, env, m0);
    var pool := Refill(job, env, m0.pool);
    var log := m0.log.(submitted := pool.next, peak := if |pool.inFlight| > m0.log.peak then |pool.inFlight| else m0.log.peak);
    if pool.stop.None? && Fired(job, env, pool.tick) {
      pool := pool.(stop := Some(TokenStop(TokenReason(env.cancels, pool.tick).value)));
      log := log.(stop := pool.stop, byToken := true, submittedAtStop := pool.next);
    }
    m := Machine(pool, log);
    assert m == Submitted(job, env, m0);
    hide Good, InStep, InOrder, Submitted, Refilled, CancelEach;
    if pool.stop.Some? {
      FrozenKeeps(job, env, m);
      pool := CancelPending(env, pool.stop.value, Tailed(job, pool));
      m := Machine(pool, log.(started := pool.started, frozen := Some(pool.started)));
      OrderIsStep(job, m);
      if pool.inFlight == [] {
        return m, Drained;
      }
    }
    m, end := Wait(job, env, m);
  }

  method Wait<In(!new), Out(!new)>(job: Job<In, Out>, env: Env, m0: Machine<Out>) returns (m: Machine<Out>, end: RoundEnd<Out>)
    requires Good(job, env, m0) && InStep(job, m0) && m0.pool.inFlight != []
    ensures (m, end) == Waited(job, env, m0)
  {
    m := Begun(env, m0);
    if env.interrupts(m.pool.tick) {
      return m, Ended(Interrupted(Journal(|job.cases|, m.pool)));
    }
    var done := Completing(env.finishes(m.pool.tick), m.pool.inFlight);
    AwaitedReady(job, env, m0, done);
    var failed;
    m, failed := Collect(job, Awaited(m, done), done);
    end := if failed.Some? then Ended(Failed(failed.value)) else Continue;
  }

  method RunPool<In(!new), Out(!new)>(job: Job<In, Out>, cancelled: Option<(In, string) -> Out>, env: Env)
    returns (r: Outcome<Out>)
    requires job.workers >= 1
    ensures r == PoolRun(job, cancelled, env).0
    ensures RunOk(job, cancelled, env, r, PoolRun(job, cancelled, env).1)
  {
    PoolFacts(job, cancelled, env);
    if (job.verdict.Some? || job.watched) && cancelled.None? {
      return Misused;
    }
    if job.cases == [] {
      return Returned([]);
    }
    FreshKeeps(job, env);
    RunKeeps(job, env, Fresh(job));
    hide Good, InOrder, RoundOf, RunOk;
    var m := Fresh(job);
    while Busy(job, m.pool)
      invariant Good(job, env, m) && InOrder(job, m)
      invariant RunFrom(job, env, m) == RunFrom(job, env, Fresh(job))
      decreases Measure(job, m.pool)
    {
      RoundKeeps(job, env, m);
      NextWithin(job, env, m);
      var end;
      m, end := Round(job, env, m);
      match end {
        case Continue =>
        case Drained => break;
        case Ended(outcome) => return outcome;
      }
    }
    SettledRows(job, cancelled, env, m);
    var rows := Assemble(job, cancelled, m.pool);
    return Returned(rows);
  }

  method Assemble<In(!new), Out(!new)>(job: Job<In, Out>, cancelled: Option<(In, string) -> Out>, pool: Pool<Out>)
    returns (rows: seq<Out>)
    requires |pool.outputs| == |job.cases|
    requires forall i: nat :: i < |job.cases| ==> RowAt(job, cancelled, pool, i).Some?
    ensures rows == Assembled(job, cancelled, pool, |job.cases|)
  {
    rows := [];
    for i := 0 to |job.cases|
      invariant rows == Assembled(job, cancelled, pool, i)
    {
      rows := rows + [RowAt(job, cancelled, pool, i).value];
    }
  }

  // ---- the pool refines the sequential scheduler -------------------------------

  ghost predicate Undisturbed(env: Env) {
    forall t: nat :: !env.interrupts(t)
  }

  function Results<In, Out>(cases: seq<In>, execute: In -> Out): (r: seq<Out>)
    ensures |r| == |cases| && forall i :: 0 <= i < |cases| ==> r[i] == execute(cases[i])
  {
    seq(|cases|, i requires 0 <= i < |cases| => execute(cases[i]))
  }

  /** With no stop inputs and a worker that never raises, the pool returns the worker's results
      in input order, for every worker count and every completion order. */
  lemma RunPlain<In(!new), Out(!new)>(job: Job<In, Out>, execute: In -> Out, env: Env)
    requires job.workers >= 1 && job.verdict.None? && !job.watched
    requires forall i :: 0 <= i < |job.cases| ==> job.worker(job.cases[i]) == Some(execute(job.cases[i]))
    ensures var r := PoolRun(job, None, env).0;
            && (r == Returned(Results(job.cases, execute)) || r.Interrupted?)
            && (Undisturbed(env) ==> r == Returned(Results(job.cases, execute)))
  {
    PoolFacts(job, None, env);
    hide PoolRun, OneByOne, JournalOk;
    var r := PoolRun(job, None, env).0;
    if r.Returned? {
      assert r.outputs == Results(job.cases, execute);
    }
  }

  /** One worker and no token: the rows are those of the sequential scheduler. */
  lemma RunSingle<In(!new), Out(!new)>(job: Job<In, Out>, execute: In -> Out, cancelled: (In, string) -> Out, env: Env)
    requires job.workers == 1 && !job.watched
    requires forall i :: 0 <= i < |job.cases| ==> job.worker(job.cases[i]) == Some(execute(job.cases[i]))
    ensures var r := PoolRun(job, Some(cancelled), env).0;
            var rows := Rows(job.cases, execute, cancelled, job.verdict, job.reason, None, 0, None);
            (r == Returned(rows) || r.Interrupted?) && (Undisturbed(env) ==> r == Returned(rows))
  {
    PoolFacts(job, Some(cancelled), env);
    hide PoolRun, JournalOk;
    var (r, log) := PoolRun(job, Some(cancelled), env);
    if r.Returned? {
      assert forall i: nat :: i < |job.cases| && job.verdict.Some? ==>
        (Triggers(job, i) <==> job.verdict.value(execute(job.cases[i])));
      SingleRows(job.cases, execute, cancelled, job.verdict, job.reason, log.submitted, log.stop, r.outputs, 0);
      assert r.outputs[0..] == r.outputs;
    }
  }

  /** Rows that run a prefix in which only the last case may trip the verdict, and cancel the
      rest, are the sequential schedule's. */
  lemma {:induction false} SingleRows<In, Out>(cases: seq<In>, execute: In -> Out, cancelled: (In, string) -> Out,
                                               verdict: Option<Out -> bool>, reason: string,
                                               ran: nat, stop: Option<string>, rows: seq<Out>, i: nat)
    requires i <= |cases| && |rows| == |cases| && ran <= |cases|
    requires forall j: nat :: j < |cases| ==>
      rows[j] == if j < ran then execute(cases[j]) else cancelled(cases[j], reason)
    requires forall j: nat :: j + 1 < ran ==> !(verdict.Some? && verdict.value(execute(cases[j])))
    requires stop.Some? ==> ran > 0 && verdict.Some? && verdict.value(execute(cases[ran - 1]))
    requires stop.None? ==> ran == |cases|
    requires stop.None? && ran > 0 ==> !(verdict.Some? && verdict.value(execute(cases[ran - 1])))
    ensures rows[i..] ==
            Rows(cases, execute, cancelled, verdict, reason, None, i, if i >= ran && stop.Some? then Some(reason) else None)
    decreases |cases| - i
  {
    if i < |cases| {
      SingleRows(cases, execute, cancelled, verdict, reason, ran, stop, rows, i + 1);
      assert rows[i..] == [rows[i]] + rows[i + 1..];
    }
  }

  // ---- no submission after the token -----------------------------------------------

  /** Every case that a refill submits is submitted at a tick at which the token has no reason yet. */
  lemma {:induction false} RefilledBeforeToken<In, Out>(job: Job<In, Out>, env: Env, pool: Pool<Out>, k: nat)
    ensures var r := Refilled(job, env, pool);
            && r.tick - pool.tick == r.next - pool.next >= 0
            && (pool.next <= k < r.next ==> !(job.watched && TokenReason(env.cancels, pool.tick + (k - pool.next)).Some?))
    decreases |job.cases| - pool.next
  {
    if pool.stop.None? && pool.next < |job.cases| && |pool.inFlight| < job.workers && !Fired(job, env, pool.tick) {
      RefilledBeforeToken(job, env, pool.(inFlight := pool.inFlight + [pool.next], next := pool.next + 1, tick := pool.tick + 1), k);
    }
  }

  /** Once the token has a reason the look at the stop conditions stops the run with it, unless it has
      stopped already; and it stops for nothing else. */
  lemma LookStops<In(!new), Out(!new)>(job: Job<In, Out>, env: Env, m: Machine<Out>)
    ensures var r := Submitted(job, env, m);
            var seen := if job.watched then TokenReason(env.cancels, r.pool.tick) else None;
            r.pool.stop == if m.pool.stop.Some? then m.pool.stop
                           else if seen.Some? then Some(if seen.value == "" then "operator_request" else seen.value)
                           else None
    ensures var peak := Submitted(job, env, m).log.peak;
            peak == if |Submitted(job, env, m).pool.inFlight| <= m.log.peak then m.log.peak
                    else |Submitted(job, env, m).pool.inFlight|
  {
    RefilledBeforeToken(job, env, m.pool, 0);
    RefilledStop(job, env, m.pool);
  }

  lemma {:induction false} RefilledStop<In, Out>(job: Job<In, Out>, env: Env, pool: Pool<Out>)
    ensures Refilled(job, env, pool).stop == pool.stop
    ensures pool.stop.Some? || Fired(job, env, pool.tick) ==> Refilled(job, env, pool) == pool
    decreases |job.cases| - pool.next
  {
    if pool.stop.None? && pool.next < |job.cases| && |pool.inFlight| < job.workers && !Fired(job, env, pool.tick) {
      RefilledStop(job, env, pool.(inFlight := pool.inFlight + [pool.next], next := pool.next + 1, tick := pool.tick + 1));
    }
  }

  /** Stopped, or about to be. */
  predicate Stopping<In, Out>(job: Job<In, Out>, env: Env, pool: Pool<Out>) {
    pool.stop.Some? || (job.watched && TokenReason(env.cancels, pool.tick).Some?)
  }

  lemma {:induction false} CancelTicks<Out>(env: Env, why: string, pending: seq<nat>, pool: Pool<Out>)
    ensures CancelEach(env, why, pending, pool).tick == pool.tick + |pending|
    ensures CancelEach(env, why, pending, pool).next == pool.next && CancelEach(env, why, pending, pool).stop == pool.stop
    decreases |pending|
  {
    if pending != [] {
      var started := pool.started + (env.starts(pool.tick) * Indices(pool.inFlight));
      var looked := pool.(started := started, tick := pool.tick + 1);
      CancelTicks(env, why, pending[1..],
                  if pending[0] in started then looked
                  else looked.(notStarted := pool.notStarted[pending[0] := why], inFlight := Drop(pool.inFlight, pending[0])));
    }
  }

  lemma {:induction false} CollectedStops<In(!new), Out(!new)>(job: Job<In, Out>, m: Machine<Out>, done: seq<nat>)
    requires |m.pool.outputs| == |job.cases| && forall k :: 0 <= k < |done| ==> done[k] < |job.cases|
    ensures var r := Collected(job, m, done).0;
            r.pool.tick == m.pool.tick && r.pool.next == m.pool.next && (m.pool.stop.Some? ==> r.pool.stop == m.pool.stop)
    decreases |done|
  {
    if done != [] && job.worker(job.cases[done[0]]).Some? {
      CollectedStops(job, Stored(job, m, done[0], job.worker(job.cases[done[0]]).value), done[1..]);
    }
  }

  lemma WaitStops<In(!new), Out(!new)>(job: Job<In, Out>, env: Env, m: Machine<Out>)
    requires Good(job, env, m) && InStep(job, m) && m.pool.inFlight != []
    ensures var r := Waited(job, env, m).0;
            r.pool.next == m.pool.next && (m.pool.stop.Some? ==> r.pool.stop.Some?)
  {
    var begun := Begun(env, m);
    var done := Completing(env.finishes(begun.pool.tick), begun.pool.inFlight);
    AwaitedReady(job, env, m, done);
    CollectedStops(job, Awaited(begun, done), done);
    hide Good, InStep, Collected, Completing, Journal;
  }

  lemma RoundStops<In(!new), Out(!new)>(job: Job<In, Out>, env: Env, m: Machine<Out>)
    requires Good(job, env, m) && InOrder(job, m) && Busy(job, m.pool) && Stopping(job, env, m.pool)
    ensures var r := RoundOf(job, env, m).0;
            r.pool.next == m.pool.next && r.pool.stop.Some?
  {
    RefilledStop(job, env, m.pool);
    SubmittedKeeps(job, env, m);
    var submitted := Submitted(job, env, m);
    assert submitted.pool.next == m.pool.next && submitted.pool.stop.Some?;
    hide Good, InStep, InOrder, Waited, Submitted;
    FrozenKeeps(job, env, submitted);
    CancelTicks(env, submitted.pool.stop.value, submitted.pool.inFlight, Tailed(job, submitted.pool));
    var frozen := Frozen(job, env, submitted);
    OrderIsStep(job, frozen);
    if frozen.pool.inFlight != [] { WaitStops(job, env, frozen); }
  }

  /** Whatever the rest of a run does, nothing is submitted once it has stopped or the token has a reason. */
  lemma {:induction false} NothingSubmittedAfter<In(!new), Out(!new)>(job: Job<In, Out>, env: Env, m: Machine<Out>)
    requires Good(job, env, m) && InOrder(job, m) && Stopping(job, env, m.pool)
    ensures var r := RunFrom(job, env, m).0;
            r.log.submitted == m.log.submitted && (Busy(job, m.pool) ==> r.log.stop.Some?)
    decreases Measure(job, m.pool)
  {
    NextWithin(job, env, m);
    RunKeeps(job, env, m);
    LogOfPool(job, env, m);
    LogOfPool(job, env, RunFrom(job, env, m).0);
    hide Good, InOrder, RoundOf;
    if Busy(job, m.pool) {
      RoundKeeps(job, env, m);
      RoundStops(job, env, m);
      var (r, end) := RoundOf(job, env, m);
      if end == Continue {
        LogOfPool(job, env, r);
        NothingSubmittedAfter(job, env, r);
      }
    }
  }

  lemma LogOfPool<In(!new), Out(!new)>(job: Job<In, Out>, env: Env, m: Machine<Out>)
    ensures Good(job, env, m) ==> m.log.stop == m.pool.stop && m.log.submitted == m.pool.next
  {
  }

  // ---- how many results a stop can leave -----------------------------------------

  /** Stopped by the token with as many results stored or in flight as there are workers. */
  predicate Full<In, Out>(job: Job<In, Out>, m: Machine<Out>) {
    m.pool.stop.Some? && m.pool.next == job.workers && m.log.late + |m.pool.inFlight| == job.workers
  }

  /** The token is cancelled once the pool is full, before anything completes, and every
      future starts as soon as it is submitted. */
  function FullEnv(workers: nat): Env {
    Env((t: nat) => if t == workers - 1 then Some("stop") else None, t => Range(0, workers), t => [], t => false)
  }

  lemma {:induction false} FullToken(workers: nat, t: nat)
    requires 1 <= workers && t <= workers
    ensures TokenReason(FullEnv(workers).cancels, t).Some? <==> t == workers
  {
    if t > 0 { FullToken(workers, t - 1); }
  }

  lemma {:induction false} FullRefill<In(!new), Out(!new)>(job: Job<In, Out>, pool: Pool<Out>)
    requires job.workers >= 1 && job.watched && |job.cases| >= job.workers
    requires pool.stop.None? && |pool.inFlight| == pool.next == pool.tick <= job.workers
    ensures var r := Refilled(job, FullEnv(job.workers), pool);
            |r.inFlight| == r.next == r.tick == job.workers && r.stop.None?
    decreases job.workers - pool.next
  {
    FullToken(job.workers, pool.tick);
    if pool.next < job.workers {
      FullRefill(job, pool.(inFlight := pool.inFlight + [pool.next], next := pool.next + 1, tick := pool.tick + 1));
    }
  }

  lemma {:induction false} AllStarted<Out>(env: Env, why: string, pending: seq<nat>, pool: Pool<Out>)
    requires Indices(pending) <= Indices(pool.inFlight)
    requires forall t: nat :: Indices(pool.inFlight) <= env.starts(t)
    ensures CancelEach(env, why, pending, pool).inFlight == pool.inFlight
    decreases |pending|
  {
    if pending != [] {
      assert pending[0] in Indices(pending) && Indices(pending[1..]) <= Indices(pending);
      var started := pool.started + (env.starts(pool.tick) * Indices(pool.inFlight));
      AllStarted(env, why, pending[1..], pool.(started := started, tick := pool.tick + 1));
    }
  }

  lemma FullWait<In(!new), Out(!new)>(job: Job<In, Out>, m: Machine<Out>)
    requires Good(job, FullEnv(job.workers), m) && InStep(job, m) && m.pool.inFlight != [] && Full(job, m)
    requires forall i :: 0 <= i < job.workers && i < |job.cases| ==> job.worker(job.cases[i]).Some?
    ensures var (r, end) := Waited(job, FullEnv(job.workers), m);
            end == Continue && Full(job, r)
  {
    var env := FullEnv(job.workers);
    BegunKeeps(job, env, m);
    var begun := Begun(env, m);
    var done := Completing(env.finishes(begun.pool.tick), begun.pool.inFlight);
    AwaitedReady(job, env, m, done);
    var awaited := Awaited(begun, done);
    CollectedKeeps(job, env, awaited, done);
    assert m.pool.next <= |job.cases|;
  }

  lemma FullRound<In(!new), Out(!new)>(job: Job<In, Out>, m: Machine<Out>)
    requires Good(job, FullEnv(job.workers), m) && InOrder(job, m) && Busy(job, m.pool)
    requires Full(job, Submitted(job, FullEnv(job.workers), m))
    requires forall i :: 0 <= i < job.workers && i < |job.cases| ==> job.worker(job.cases[i]).Some?
    ensures var (r, end) := RoundOf(job, FullEnv(job.workers), m);
            !end.Ended? && Full(job, r)
  {
    var env := FullEnv(job.workers);
    SubmittedKeeps(job, env, m);
    var submitted := Submitted(job, env, m);
    var frozen := Frozen(job, env, submitted);
    FrozenKeeps(job, env, submitted);
    OrderIsStep(job, frozen);
    AllStarted(env, submitted.pool.stop.value, submitted.pool.inFlight, Tailed(job, submitted.pool));
    assert Full(job, frozen);
    hide Good, InStep, InOrder, Frozen, Submitted;
    if frozen.pool.inFlight != [] { FullWait(job, frozen); }
  }

  lemma {:induction false} FullRun<In(!new), Out(!new)>(job: Job<In, Out>, m: Machine<Out>)
    requires Good(job, FullEnv(job.workers), m) && InOrder(job, m)
    requires if Busy(job, m.pool) then Full(job, Submitted(job, FullEnv(job.workers), m)) else Full(job, m)
    requires forall i :: 0 <= i < job.workers && i < |job.cases| ==> job.worker(job.cases[i]).Some?
    ensures var (r, end) := RunFrom(job, FullEnv(job.workers), m);
            end.None? && r.log.late == job.workers
    decreases Measure(job, m.pool)
  {
    var env := FullEnv(job.workers);
    NextWithin(job, env, m);
    if Busy(job, m.pool) {
      RoundKeeps(job, env, m);
      FullRound(job, m);
      var (r, end) := RoundOf(job, env, m);
      if end == Continue {
        assert Full(job, Submitted(job, env, r));
        FullRun(job, r);
      }
    }
  }

  /** With as many cases as workers and none of the first raising, `workers` results can be stored
      after a stop exactly if a token is given (and the run is not refused); otherwise the bound
      is one less, in every world. */
  lemma LateBound<In(!new), Out(!new)>(job: Job<In, Out>, cancelled: Option<(In, string) -> Out>)
    requires job.workers >= 1
    ensures (forall env: Env :: PoolRun(job, cancelled, env).1.late <= job.workers - 1) <==>
            !(&& job.watched && cancelled.Some? && |job.cases| >= job.workers
              && forall i :: 0 <= i < job.workers ==> job.worker(job.cases[i]).Some?)
  {
    if job.watched && cancelled.Some? && |job.cases| >= job.workers && forall i :: 0 <= i < job.workers ==> job.worker(job.cases[i]).Some? {
      var env := FullEnv(job.workers);
      FreshKeeps(job, env);
      FullToken(job.workers, job.workers);
      FullRefill(job, Fresh(job).pool);
      FullRun(job, Fresh(job));
      assert PoolRun(job, cancelled, env).1.late == job.workers;
    } else {
      forall env: Env ensures PoolRun(job, cancelled, env).1.late <= job.workers - 1 {
        PoolFacts(job, cancelled, env);
      }
    }
  }
}
