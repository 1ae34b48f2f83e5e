/** Whole runs of one context of the plain engine, with rejected submissions, retries and cleanup. */
module TaskRuns {
  import opened Arith
  import opened Counting
  import opened Workload
  import opened TaskLifecycle

  /** What can happen next. `Error` is the part of `io_complete` that looks at an error status. */
  datatype Event =
    | Start(attempt: Attempt)
    | Deliver(task: nat, attempt: Attempt)
    | Retry(attempts: seq<Attempt>)
    | Error(hotplug: bool)
    | SetDraining
    | WarmupReset

  function Init(cfg: Config): State {
    State([], [], 0, 0, 0, false, 0, false, [])
  }

  predicate Enabled(cfg: Config, s: State, e: Event) {
    match e
    case Start(_) => |s.tasks| < cfg.queueDepth
    case Deliver(t, _) => |s.tasks| == cfg.queueDepth && t < |s.tasks| && s.tasks[t].status == InFlight
    case Retry(attempts) =>
      && |s.tasks| == cfg.queueDepth && cfg.continueOnError && !s.draining
      && |s.queued| <= |attempts| && forall i :: 0 <= i < |s.queued| ==> s.queued[i] < |s.tasks|
    case Error(_) => |s.tasks| == cfg.queueDepth && !cfg.continueOnError
    case SetDraining => |s.tasks| == cfg.queueDepth
    case WarmupReset => |s.tasks| == cfg.queueDepth && cfg.warmup
  }

  /** An event that is not enabled changes nothing, so every event sequence is a run. */
  function Step(cfg: Config, s: State, e: Event): State
    requires cfg.Valid()
  {
    if !Enabled(cfg, s, e) then s else
    match e
    case Start(a) => Submit(cfg, s.(tasks := s.tasks + [Task(Parked, 0, false)]), |s.tasks|, a)
    case Deliver(t, a) => Complete(cfg, s, t, a)
    case Retry(attempts) => RetryPass(cfg, s, attempts)
    case Error(hotplug) => s.(failed := true, draining := s.draining || hotplug)
    case SetDraining => s.(draining := true)
    case WarmupReset => s.(submitted := 0, completed := 0)
  }

  function Exec(cfg: Config, s: State, run: seq<Event>): State
    requires cfg.Valid()
    decreases |run|
  {
    if run == [] then s else Exec(cfg, Step(cfg, s, run[0]), run[1..])
  }

  /** `Inv`, no task parked between steps, and no draining before all tasks exist. */
  ghost predicate RunInv(cfg: Config, s: State)
    requires cfg.Valid()
  {
    && Inv(cfg, s, [])
    && Count(s.tasks, Is(Parked)) == 0
    && (|s.tasks| < cfg.queueDepth ==> !s.draining && s.submitted <= |s.tasks|)
  }

  lemma {:induction false} ParkedNone(s: State, s': State, t: nat)
    requires t < |s.tasks| && |s'.tasks| == |s.tasks|
    requires forall u :: 0 <= u < |s.tasks| && u != t ==> s.tasks[u].status != Parked && s'.tasks[u] == s.tasks[u]
    requires s'.tasks[t].status != Parked
    ensures Count(s'.tasks, Is(Parked)) == 0
  {
    CountNone(s'.tasks, Is(Parked));
  }

  lemma {:induction false} CompleteOther(cfg: Config, s: State, t: nat, a: Attempt)
    requires cfg.Valid() && t < |s.tasks|
    ensures var s' := Complete(cfg, s, t, a);
            && |s'.tasks| == |s.tasks| && s'.tasks[t].status != Parked
            && forall u :: 0 <= u < |s.tasks| && u != t ==> s'.tasks[u] == s.tasks[u]
  {
  }

  lemma {:induction false} AllocateKeeps(cfg: Config, s: State)
    requires cfg.Valid() && RunInv(cfg, s) && |s.tasks| < cfg.queueDepth
    ensures Inv(cfg, s.(tasks := s.tasks + [Task(Parked, 0, false)]), [])
  {
    var task := Task(Parked, 0, false);
    CountAppend(s.tasks, task, Is(Queued));
    CountAppend(s.tasks, task, Is(Freed));
    CountAppend(s.tasks, task, Is(InFlight));
  }

  lemma {:induction false} StartKeeps(cfg: Config, s: State, a: Attempt)
    requires cfg.Valid() && RunInv(cfg, s) && |s.tasks| < cfg.queueDepth
    ensures RunInv(cfg, Step(cfg, s, Start(a)))
  {
    hide Lists;
    var t := |s.tasks|;
    var s1 := s.(tasks := s.tasks + [Task(Parked, 0, false)]);
    AllocateKeeps(cfg, s);
    SubmitKeeps(cfg, s1, t, a, []);
    CountNone(s.tasks, Is(Parked));
    ParkedNone(s1, Submit(cfg, s1, t, a), t);
  }

  lemma {:induction false} RetryAllUnparked(cfg: Config, s: State, held: seq<nat>, attempts: seq<Attempt>)
    requires cfg.Valid() && |held| <= |attempts|
    requires forall i :: 0 <= i < |held| ==> held[i] < |s.tasks|
    requires forall u :: 0 <= u < |s.tasks| ==> s.tasks[u].status != Parked
    ensures var s' := RetryAll(cfg, s, held, attempts);
            |s'.tasks| == |s.tasks| && forall u :: 0 <= u < |s.tasks| ==> s'.tasks[u].status != Parked
    decreases |held|
  {
    if held != [] {
      RetryAllUnparked(cfg, RetryOne(cfg, s, held[0], attempts[0]), held[1..], attempts[1..]);
    }
  }

  lemma {:induction false} StepKeeps(cfg: Config, s: State, e: Event)
    requires cfg.Valid() && RunInv(cfg, s)
    ensures RunInv(cfg, Step(cfg, s, e))
  {
    hide Lists, Submit;
    if Enabled(cfg, s, e) {
      CountNone(s.tasks, Is(Parked));
      match e
      case Start(a) => StartKeeps(cfg, s, a);
      case Deliver(t, a) =>
        CompleteKeeps(cfg, s, t, a, []);
        CompleteOther(cfg, s, t, a);
        ParkedNone(s, Complete(cfg, s, t, a), t);
      case Retry(attempts) =>
        RetryPassKeeps(cfg, s, attempts);
        RetryAllUnparked(cfg, s.(queued := []), s.queued, attempts);
        CountNone(RetryPass(cfg, s, attempts).tasks, Is(Parked));
      case Error(_) =>
      case SetDraining =>
      case WarmupReset =>
    }
  }

  lemma {:induction false} ExecKeeps(cfg: Config, s: State, run: seq<Event>)
    requires cfg.Valid() && RunInv(cfg, s)
    ensures RunInv(cfg, Exec(cfg, s, run))
    decreases |run|
  {
    if run != [] {
      StepKeeps(cfg, s, run[0]);
      ExecKeeps(cfg, Step(cfg, s, run[0]), run[1..]);
    }
  }

  lemma {:induction false} EveryRun(cfg: Config, run: seq<Event>)
    requires cfg.Valid()
    ensures RunInv(cfg, Exec(cfg, Init(cfg), run))
  {
    ExecKeeps(cfg, Init(cfg), run);
  }

  // ---------------------------------------------------------------- partition and cap

  lemma {:induction false} StatusesCover(tasks: seq<Task>)
    ensures Count(tasks, Is(InFlight)) + Count(tasks, Is(Queued)) + Count(tasks, Is(Parked)) + Count(tasks, Is(Freed))
            == |tasks|
  {
    if tasks != [] {
      StatusesCover(tasks[..|tasks| - 1]);
    }
  }

  /** In every run each task is in flight, named once in the queue, or named once in the log of frees;
      the three sizes add up, and the number of accepted submissions respects the cap. */
  lemma {:induction false} TaskPartition(cfg: Config, run: seq<Event>)
    requires cfg.Valid()
    ensures var s := Exec(cfg, Init(cfg), run);
            && NoDup(s.queued) && NoDup(s.freed)
            && (forall t: nat :: t in s.queued <==> t < |s.tasks| && s.tasks[t].status == Queued)
            && (forall t: nat :: t in s.freed <==> t < |s.tasks| && s.tasks[t].status == Freed)
            && s.depth == Count(s.tasks, Is(InFlight))
            && s.depth + |s.queued| + |s.freed| == |s.tasks| <= cfg.queueDepth
            && (cfg.cap > 0 ==> s.submitted <= cfg.cap)
  {
    EveryRun(cfg, run);
    var s := Exec(cfg, Init(cfg), run);
    assert s.queued + [] == s.queued;
    StatusesCover(s.tasks);
  }

  // ---------------------------------------------------------------- failures

  /** With continue-on-error nothing fails or is freed before draining; without it nothing is ever queued,
      and a task freed before draining has marked the context as failed. */
  ghost predicate FailureInv(cfg: Config, s: State) {
    if cfg.continueOnError then !s.failed && (s.draining || s.freed == [])
    else s.queued == [] && (s.draining || s.failed || s.freed == [])
  }

  lemma {:induction false} RetryFailure(cfg: Config, s: State, swap: seq<nat>, attempts: seq<Attempt>)
    requires cfg.Valid() && cfg.continueOnError && FailureInv(cfg, s) && |swap| <= |attempts|
    requires forall i :: 0 <= i < |swap| ==> swap[i] < |s.tasks|
    ensures FailureInv(cfg, RetryAll(cfg, s, swap, attempts))
    decreases |swap|
  {
    if swap != [] {
      RetryFailure(cfg, RetryOne(cfg, s, swap[0], attempts[0]), swap[1..], attempts[1..]);
    }
  }

  lemma {:induction false} FailureRun(cfg: Config, s: State, run: seq<Event>)
    requires cfg.Valid() && FailureInv(cfg, s)
    ensures FailureInv(cfg, Exec(cfg, s, run))
    decreases |run|
  {
    if run != [] {
      if run[0].Retry? && Enabled(cfg, s, run[0]) {
        RetryFailure(cfg, s.(queued := []), s.queued, run[0].attempts);
      }
      FailureRun(cfg, Step(cfg, s, run[0]), run[1..]);
    }
  }

  /** In every run: with continue-on-error no context fails and no task is lost, so that the tasks in
      flight and in the queue make up the queue depth until draining starts; without it the queue stays
      empty, and fewer tasks in flight than allocated means draining or failed. */
  lemma {:induction false} NothingLost(cfg: Config, run: seq<Event>)
    requires cfg.Valid()
    ensures var s := Exec(cfg, Init(cfg), run);
            && (cfg.continueOnError ==> !s.failed && (!s.draining ==> s.depth + |s.queued| == |s.tasks|))
            && (!cfg.continueOnError ==> s.queued == [] && (!s.draining && !s.failed ==> s.depth == |s.tasks|))
  {
    TaskPartition(cfg, run);
    FailureRun(cfg, Init(cfg), run);
  }

  // ---------------------------------------------------------------- draining

  /** The tasks that complete during a run, in order. */
  ghost function Completions(cfg: Config, s: State, run: seq<Event>): seq<nat>
    requires cfg.Valid()
    decreases |run|
  {
    if run == [] then []
    else Completion(cfg, s, run[0]) + Completions(cfg, Step(cfg, s, run[0]), run[1..])
  }

  ghost function Completion(cfg: Config, s: State, e: Event): seq<nat> {
    if e.Deliver? && Enabled(cfg, s, e) then [e.task] else []
  }

  lemma {:induction false} DrainStep(cfg: Config, s: State, e: Event)
    requires cfg.Valid() && RunInv(cfg, s) && s.draining
    ensures var s' := Step(cfg, s, e);
            var done := Completion(cfg, s, e);
            && s'.draining && s'.queued == s.queued && s'.cursor == s.cursor && s'.submitted <= s.submitted
            && s'.depth + |done| == s.depth && s'.freed == s.freed + done
  {
    hide Lists;
    assert s.freed + [] == s.freed;
    if e.Deliver? && Enabled(cfg, s, e) {
      AccountKeeps(cfg, s, e.task, []);
    }
  }

  /** Drain safety: once a context drains no continuation submits or retries anything; exactly the tasks that
      complete are freed, in that order, and each takes one request out of flight. */
  lemma {:induction false} DrainSafety(cfg: Config, s: State, run: seq<Event>)
    requires cfg.Valid() && RunInv(cfg, s) && s.draining
    ensures var s' := Exec(cfg, s, run);
            var done := Completions(cfg, s, run);
            && s'.draining && s'.queued == s.queued && s'.cursor == s.cursor && s'.submitted <= s.submitted
            && s'.depth + |done| == s.depth && s'.freed == s.freed + done
    decreases |run|
  {
    hide Inv, Step, Completion;
    if run == [] {
      assert s.freed + [] == s.freed;
    } else {
      var s1 := Step(cfg, s, run[0]);
      DrainStep(cfg, s, run[0]);
      StepKeeps(cfg, s, run[0]);
      DrainSafety(cfg, s1, run[1..]);
      assert s.freed + Completion(cfg, s, run[0]) + Completions(cfg, s1, run[1..])
          == s.freed + (Completion(cfg, s, run[0]) + Completions(cfg, s1, run[1..]));
    }
  }

  // ---------------------------------------------------------------- the retry pass

  /** How many tasks a pass attempts: all of them, or those before it starts to drain. */
  ghost function Attempted(cfg: Config, s: State, swap: seq<nat>, attempts: seq<Attempt>): (n: nat)
    requires cfg.Valid() && |swap| <= |attempts|
    requires forall i :: 0 <= i < |swap| ==> swap[i] < |s.tasks|
    ensures n <= |swap|
    decreases |swap|
  {
    if swap == [] || s.draining then 0
    else 1 + Attempted(cfg, RetryOne(cfg, s, swap[0], attempts[0]), swap[1..], attempts[1..])
  }

  /** The tasks of a list whose attempt was rejected, in order. */
  ghost function Rejected(list: seq<nat>, attempts: seq<Attempt>): seq<nat>
    requires |list| <= |attempts|
  {
    if list == [] then []
    else (if attempts[0].accept then [] else [list[0]]) + Rejected(list[1..], attempts[1..])
  }

  /** The cursor after `n` more draws. */
  ghost function Moved(cfg: Config, cursor: nat, n: nat): nat
    decreases n
  {
    if n == 0 then cursor else Moved(cfg, NextCursor(cfg.mode, cursor, cfg.size), n - 1)
  }

  /** A pass attempts a prefix of the queue, once each, and stops only by draining; the new queue is the
      rejected ones followed by the untouched ones, both in the old order. Every attempt draws a fresh
      offset, rejected or not. */
  lemma {:induction false} RetryOrder(cfg: Config, s: State, swap: seq<nat>, attempts: seq<Attempt>)
    requires cfg.Valid() && cfg.continueOnError && |swap| <= |attempts|
    requires forall i :: 0 <= i < |swap| ==> swap[i] < |s.tasks|
    ensures var n := Attempted(cfg, s, swap, attempts);
            var s' := RetryAll(cfg, s, swap, attempts);
            && s'.queued == s.queued + Rejected(swap[..n], attempts) + swap[n..]
            && s'.submitted == s.submitted + n - |Rejected(swap[..n], attempts)|
            && s'.cursor == Moved(cfg, s.cursor, n)
            && (n < |swap| ==> s'.draining)
    decreases |swap|
  {
    hide Submit;
    if s.draining {
      RetryDraining(cfg, s, swap, attempts);
      assert swap[0..] == swap && Rejected(swap[..0], attempts) == [];
    } else if swap != [] {
      var s1 := RetryOne(cfg, s, swap[0], attempts[0]);
      var first := if attempts[0].accept then [] else [swap[0]];
      SubmitQueues(cfg, s, swap[0], attempts[0]);
      RetryOrder(cfg, s1, swap[1..], attempts[1..]);
      RejectedSplit(s.queued, swap, attempts, Attempted(cfg, s1, swap[1..], attempts[1..]));
    }
  }

  lemma {:induction false} SubmitQueues(cfg: Config, s: State, t: nat, a: Attempt)
    requires cfg.Valid() && cfg.continueOnError && t < |s.tasks|
    ensures var s' := Submit(cfg, s, t, a);
            && |s'.tasks| == |s.tasks|
            && s'.queued == s.queued + (if a.accept then [] else [t])
            && s'.submitted == s.submitted + (if a.accept then 1 else 0)
            && s'.cursor == NextCursor(cfg.mode, s.cursor, cfg.size)
  {
  }

  lemma {:induction false} Regroup(a: seq<nat>, b: seq<nat>, c: seq<nat>, d: seq<nat>)
    ensures a + b + c + d == a + (b + c) + d
  {
  }

  lemma {:induction false} RejectedTake(swap: seq<nat>, attempts: seq<Attempt>, n: nat)
    requires n < |swap| <= |attempts|
    ensures Rejected(swap[..n + 1], attempts)
            == (if attempts[0].accept then [] else [swap[0]]) + Rejected(swap[1..][..n], attempts[1..])
  {
    assert swap[..n + 1][1..] == swap[1..][..n] && swap[..n + 1][0] == swap[0];
  }

  lemma {:induction false} RejectedSplit(before: seq<nat>, swap: seq<nat>, attempts: seq<Attempt>, n: nat)
    requires n < |swap| <= |attempts|
    ensures var first := if attempts[0].accept then [] else [swap[0]];
            var rest := Rejected(swap[1..][..n], attempts[1..]);
            && Rejected(swap[..n + 1], attempts) == first + rest
            && before + first + rest + swap[1..][n..] == before + (first + rest) + swap[n + 1..]
  {
    var first := if attempts[0].accept then [] else [swap[0]];
    RejectedTake(swap, attempts, n);
    assert swap[1..][n..] == swap[n + 1..];
    Regroup(before, first, Rejected(swap[1..][..n], attempts[1..]), swap[n + 1..]);
  }

  lemma {:induction false} RetryDraining(cfg: Config, s: State, swap: seq<nat>, attempts: seq<Attempt>)
    requires cfg.Valid() && s.draining && |swap| <= |attempts|
    requires forall i :: 0 <= i < |swap| ==> swap[i] < |s.tasks|
    ensures RetryAll(cfg, s, swap, attempts) == s.(queued := s.queued + swap)
    decreases |swap|
  {
    if swap != [] {
      RetryDraining(cfg, s.(queued := s.queued + [swap[0]]), swap[1..], attempts[1..]);
      assert s.queued + [swap[0]] + swap[1..] == s.queued + swap;
    }
  }

  // ---------------------------------------------------------------- counters and cleanup

  function Carry(s: State): int { s.completed + s.depth - s.submitted }

  lemma {:induction false} RetryCarry(cfg: Config, s: State, swap: seq<nat>, attempts: seq<Attempt>)
    requires cfg.Valid() && |swap| <= |attempts|
    requires forall i :: 0 <= i < |swap| ==> swap[i] < |s.tasks|
    ensures Carry(RetryAll(cfg, s, swap, attempts)) == Carry(s)
    decreases |swap|
  {
    if swap != [] {
      RetryCarry(cfg, RetryOne(cfg, s, swap[0], attempts[0]), swap[1..], attempts[1..]);
    }
  }

  lemma {:induction false} CarryDeliver(cfg: Config, s: State, t: nat, a: Attempt)
    requires cfg.Valid() && RunInv(cfg, s) && t < |s.tasks| && s.tasks[t].status == InFlight
    ensures Carry(Complete(cfg, s, t, a)) == Carry(s)
  {
    hide Inv;
    AccountKeeps(cfg, s, t, []);
  }

  lemma {:induction false} CarryStep(cfg: Config, s: State, e: Event)
    requires cfg.Valid() && RunInv(cfg, s) && e != WarmupReset
    ensures Carry(Step(cfg, s, e)) == Carry(s)
  {
    hide Inv;
    if Enabled(cfg, s, e) {
      match e
      case Deliver(t, a) => CarryDeliver(cfg, s, t, a);
      case Retry(attempts) => RetryCarry(cfg, s.(queued := []), s.queued, attempts);
      case Start(_) =>
      case Error(_) =>
      case SetDraining =>
    }
  }

  /** Without a warm-up reset, submitted equals completed plus in flight up to the exit of the drain loop. */
  lemma {:induction false} CarryFixed(cfg: Config, s: State, run: seq<Event>)
    requires cfg.Valid() && RunInv(cfg, s) && forall i :: 0 <= i < |run| ==> run[i] != WarmupReset
    ensures Carry(Exec(cfg, s, run)) == Carry(s)
    decreases |run|
  {
    if run != [] {
      CarryStep(cfg, s, run[0]);
      StepKeeps(cfg, s, run[0]);
      CarryFixed(cfg, Step(cfg, s, run[0]), run[1..]);
    }
  }

  /** After a warm-up reset the imbalance of the counters stays what was in flight at the reset. */
  lemma {:induction false} WarmupCarry(cfg: Config, before: seq<Event>, after: seq<Event>)
    requires cfg.Valid() && forall i :: 0 <= i < |after| ==> after[i] != WarmupReset
    requires Enabled(cfg, Exec(cfg, Init(cfg), before), WarmupReset)
    ensures var s0 := Exec(cfg, Init(cfg), before);
            var s := Exec(cfg, Step(cfg, s0, WarmupReset), after);
            s.submitted + s0.depth == s.completed + s.depth
  {
    var s0 := Exec(cfg, Init(cfg), before);
    EveryRun(cfg, before);
    StepKeeps(cfg, s0, WarmupReset);
    CarryFixed(cfg, Step(cfg, s0, WarmupReset), after);
  }

  /** `cleanup_ns_worker_ctx`: every queued task is completed, although it was never submitted. */
  function Cleanup(cfg: Config, s: State): State
    requires cfg.Valid() && s.draining
    requires forall i :: 0 <= i < |s.queued| ==> s.queued[i] < |s.tasks|
    decreases |s.queued|
  {
    if s.queued == [] then s
    else
      var t := s.queued[0];
      Cleanup(cfg, Complete(cfg, s.(queued := s.queued[1..]), t, Attempt(Choice(0, 0, 0), false)))
  }

  /** After `n` decrements of a zero depth. */
  function Below(n: nat): nat
    requires n < UINT64
  {
    if n == 0 then 0 else UINT64 - n
  }

  /** Completing the first queued task moves it to the freed ones. */
  lemma {:induction false} CleanupOne(cfg: Config, s: State)
    requires cfg.Valid() && s.draining && Inv(cfg, s.(depth := 0), []) && s.queued != []
    requires s.queued[0] < |s.tasks|
    ensures var s1 := Complete(cfg, s.(queued := s.queued[1..]), s.queued[0], Attempt(Choice(0, 0, 0), false));
            && Inv(cfg, s1.(depth := 0), [])
            && Count(s1.tasks, Is(Parked)) == Count(s.tasks, Is(Parked))
  {
    hide Lists;
    var t := s.queued[0];
    var z := s.(depth := 0, queued := []);
    assert s.queued + [] == s.queued == [] + s.queued;
    TakeKeeps(cfg, z, s.queued);
    var z1 := Put(z, t, Parked).(queued := s.queued[1..]);
    assert s.queued[1..] + [] == [] + s.queued[1..];
    assert Inv(cfg, z1, []);
    FreeKeeps(cfg, z1, t, []);
    var s1 := Complete(cfg, s.(queued := s.queued[1..]), t, Attempt(Choice(0, 0, 0), false));
    assert s1.tasks == Free(z1, t).tasks;
    StatusUpdate(s.tasks, t, s1.tasks[t], Parked);
  }

  lemma {:induction false} CleanupFrom(cfg: Config, s: State, done: nat)
    requires cfg.Valid() && s.draining && done + |s.queued| < UINT64
    requires Inv(cfg, s.(depth := 0), []) && s.depth == Below(done)
    ensures forall i :: 0 <= i < |s.queued| ==> s.queued[i] < |s.tasks|
    ensures var s' := Cleanup(cfg, s);
            && Inv(cfg, s'.(depth := 0), []) && s'.queued == []
            && |s'.tasks| == |s.tasks| && s'.submitted == s.submitted
            && s'.depth == Below(done + |s.queued|) && s'.completed == s.completed + |s.queued|
            && Count(s'.tasks, Is(Parked)) == Count(s.tasks, Is(Parked))
    decreases |s.queued|
  {
    hide NoDup, NextCursor;
    assert s.queued + [] == s.queued;
    assert forall i :: 0 <= i < |s.queued| ==> s.queued[i] in s.queued;
    if s.queued != [] {
      CleanupOne(cfg, s);
      CleanupFrom(cfg, Complete(cfg, s.(queued := s.queued[1..]), s.queued[0], Attempt(Choice(0, 0, 0), false)), done + 1);
    }
  }

  /** A run that ends with every task in the queue: the device rejects everything, then time is up. */
  lemma {:induction false} AllQueuedRun(cfg: Config, n: nat) returns (run: seq<Event>)
    requires cfg.Valid() && cfg.continueOnError && n <= cfg.queueDepth
    ensures var s := Exec(cfg, Init(cfg), run);
            |s.tasks| == |s.queued| == n && s.depth == s.submitted == s.completed == 0 && !s.draining
  {
    if n == 0 {
      run := [];
    } else {
      var before := AllQueuedRun(cfg, n - 1);
      var e := Start(Attempt(Choice(0, 0, 0), false));
      ExecAppend(cfg, Init(cfg), before, [e]);
      assert [e][1..] == [];
      run := before + [e];
    }
  }

  lemma {:induction false} ExecAppend(cfg: Config, s: State, x: seq<Event>, y: seq<Event>)
    requires cfg.Valid()
    ensures Exec(cfg, s, x + y) == Exec(cfg, Exec(cfg, s, x), y)
    decreases |x|
  {
    if x == [] {
      assert x + y == y;
    } else {
      assert (x + y)[0] == x[0] && (x + y)[1..] == x[1..] + y;
      ExecAppend(cfg, Step(cfg, s, x[0]), x[1..], y);
    }
  }

  /** So with continue-on-error there is always a run whose cleanup unbalances the counters and wraps the depth. */
  lemma {:induction false} CleanupUnbalancedRun(cfg: Config) returns (run: seq<Event>)
    requires cfg.Valid() && cfg.continueOnError
    ensures var s := Exec(cfg, Init(cfg), run);
            && RunInv(cfg, s) && |s.tasks| == cfg.queueDepth && s.draining && s.depth == 0
            && (forall i :: 0 <= i < |s.queued| ==> s.queued[i] < |s.tasks|)
            && Carry(Cleanup(cfg, s)) != Carry(s) && Cleanup(cfg, s).depth != 0
  {
    var before := AllQueuedRun(cfg, cfg.queueDepth);
    ExecAppend(cfg, Init(cfg), before, [SetDraining]);
    assert [SetDraining][1..] == [];
    run := before + [SetDraining];
    EveryRun(cfg, run);
    CleanupFreesAll(cfg, Exec(cfg, Init(cfg), run));
  }

  /** At the exit of the drain loop cleanup frees what is left, so that every task is freed exactly once;
      but the counters then balance if and only if no task was left in the queue. */
  lemma {:induction false} CleanupFreesAll(cfg: Config, s: State)
    requires cfg.Valid() && RunInv(cfg, s) && |s.tasks| == cfg.queueDepth
    requires s.draining && s.depth == 0
    ensures forall i :: 0 <= i < |s.queued| ==> s.queued[i] < |s.tasks|
    ensures var s' := Cleanup(cfg, s);
            && NoDup(s'.freed) && |s'.freed| == cfg.queueDepth
            && (forall t: nat :: t in s'.freed <==> t < cfg.queueDepth)
            && s'.completed == s.completed + |s.queued|
            && (Carry(s') == Carry(s) <==> s.queued == [])
            && (s'.depth == 0 <==> s.queued == [])
  {
    StatusesCover(s.tasks);
    assert s.queued + [] == s.queued;
    assert s.(depth := 0) == s;
    CleanupFrom(cfg, s, 0);
    var s' := Cleanup(cfg, s);
    StatusesCover(s'.tasks);
    assert s'.queued + [] == [];
    CountNone(s'.tasks, Is(InFlight));
    CountAll(s'.tasks, Is(Freed));
  }
}
