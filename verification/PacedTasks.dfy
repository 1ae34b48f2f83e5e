/** The paced engine for single tasks, with rejected submissions parked in retry queues. */
module PacedTasks {
  import opened Counting
  import opened Workload
  import T = TaskLifecycle
  import TR = TaskRuns

  /** One configuration per context, with continue-on-error; `target` is `batch_size * perf_num`. */
  datatype Config = Config(ctxs: seq<T.Config>, target: nat)
  {
    ghost predicate Valid() {
      && (forall k :: 0 <= k < |ctxs| ==> ctxs[k].Valid() && ctxs[k].continueOnError)
      && 1 <= target <= Allocated(ctxs)
    }
  }

  /** Tasks allocated on all contexts. */
  function Allocated(ctxs: seq<T.Config>): nat {
    if ctxs == [] then 0 else Allocated(ctxs[..|ctxs| - 1]) + ctxs[|ctxs| - 1].queueDepth
  }

  /** A task of some context. */
  datatype Ref = Ref(ctx: nat, task: nat)

  datatype State = State(ctxs: seq<T.State>, pending: seq<Ref>, batch: nat, submitBatch: nat)

  datatype Event =
    | Deliver(ref: Ref)
    | Retry(ctx: nat, attempts: seq<T.Attempt>)
    | Pace(attempts: seq<T.Attempt>)
    | SetDraining(ctx: nat)
    | WarmupReset

  predicate IsTask(s: State, r: Ref) { r.ctx < |s.ctxs| && r.task < |s.ctxs[r.ctx].tasks| }

  function With(s: State, k: nat, c: T.State): State
    requires k < |s.ctxs|
  {
    s.(ctxs := s.ctxs[k := c])
  }

  /** `task_complete` with pacing on. */
  function TaskComplete(s: State, r: Ref): State
    requires IsTask(s, r)
  {
    var c := T.Account(s.ctxs[r.ctx]);
    if c.draining then With(s, r.ctx, T.Free(c, r.task))
    else With(s, r.ctx, T.Put(c, r.task, T.Parked)).(pending := s.pending + [r], batch := s.batch + 1)
  }

  function PopOne(cfg: Config, s: State, a: T.Attempt): State
    requires cfg.Valid() && |s.ctxs| == |cfg.ctxs| && s.pending != [] && IsTask(s, s.pending[0])
  {
    var r := s.pending[0];
    With(s, r.ctx, T.Submit(cfg.ctxs[r.ctx], s.ctxs[r.ctx], r.task, a))
      .(pending := s.pending[1..], submitBatch := s.submitBatch + 1)
  }

  /** The pop loop; it stops at an empty list, where the program would dereference null. */
  function PopLoop(cfg: Config, s: State, attempts: seq<T.Attempt>): State
    requires cfg.Valid() && |s.ctxs| == |cfg.ctxs|
    decreases |attempts|
  {
    if s.submitBatch >= cfg.target || attempts == [] || s.pending == [] || !IsTask(s, s.pending[0]) then s
    else PopLoop(cfg, PopOne(cfg, s, attempts[0]), attempts[1..])
  }

  function PaceBlock(cfg: Config, s: State, attempts: seq<T.Attempt>): State
    requires cfg.Valid() && |s.ctxs| == |cfg.ctxs|
  {
    var s1 := PopLoop(cfg, s, attempts);
    if s1.batch >= cfg.target then s1.(batch := 0, submitBatch := 0) else s1
  }

  predicate Enabled(cfg: Config, s: State, e: Event) {
    && |s.ctxs| == |cfg.ctxs|
    && match e
       case Deliver(r) => IsTask(s, r) && s.ctxs[r.ctx].tasks[r.task].status == T.InFlight
       case Retry(k, attempts) =>
         && k < |s.ctxs| && !s.ctxs[k].draining && |s.ctxs[k].queued| <= |attempts|
         && forall i :: 0 <= i < |s.ctxs[k].queued| ==> s.ctxs[k].queued[i] < |s.ctxs[k].tasks|
       case Pace(attempts) => |attempts| == cfg.target
       case SetDraining(k) => k < |s.ctxs|
       case WarmupReset => forall k :: 0 <= k < |cfg.ctxs| ==> cfg.ctxs[k].warmup
  }

  function Step(cfg: Config, s: State, e: Event): State
    requires cfg.Valid()
  {
    if !Enabled(cfg, s, e) then s else
    match e
    case Deliver(r) => TaskComplete(s, r)
    case Retry(k, attempts) => With(s, k, T.RetryPass(cfg.ctxs[k], s.ctxs[k], attempts))
    case Pace(attempts) => PaceBlock(cfg, s, attempts)
    case SetDraining(k) => With(s, k, s.ctxs[k].(draining := true))
    case WarmupReset =>
      s.(ctxs := seq(|s.ctxs|, k requires 0 <= k < |s.ctxs| => s.ctxs[k].(submitted := 0, completed := 0)))
  }

  function Exec(cfg: Config, s: State, run: seq<Event>): State
    requires cfg.Valid()
    decreases |run|
  {
    if run == [] then s else Exec(cfg, Step(cfg, s, run[0]), run[1..])
  }

  // ---------------------------------------------------------------- sums over the contexts

  ghost function Sum(ctxs: seq<T.State>, f: T.State -> nat): nat {
    if ctxs == [] then 0 else Sum(ctxs[..|ctxs| - 1], f) + f(ctxs[|ctxs| - 1])
  }

  lemma {:induction false} SumUpdate(ctxs: seq<T.State>, k: nat, c: T.State, f: T.State -> nat)
    requires k < |ctxs|
    ensures Sum(ctxs[k := c], f) + f(ctxs[k]) == Sum(ctxs, f) + f(c)
  {
    var m := |ctxs| - 1;
    if k == m {
      assert ctxs[k := c][..m] == ctxs[..m];
    } else {
      assert ctxs[k := c][..m] == ctxs[..m][k := c];
      SumUpdate(ctxs[..m], k, c, f);
    }
  }

  /** Tasks of a context that wait in the pacing list. */
  ghost function Waiting(): T.State -> nat { (c: T.State) => Count(c.tasks, T.Is(T.Parked)) }

  /** Tasks of a context in flight or in its retry queue. */
  ghost function Busy(): T.State -> nat { (c: T.State) => c.depth + |c.queued| }

  /** Tasks of a context that have been freed. */
  ghost function Gone(): T.State -> nat { (c: T.State) => |c.freed| }

  // ---------------------------------------------------------------- invariant

  /** The context without its cap, which popping into a draining context may exceed. */
  function Uncapped(cfg: T.Config): T.Config { cfg.(cap := 0) }

  /** Each task is in one place; a context that does not drain has freed nothing and is below the cap. */
  ghost predicate CtxInv(cfg: T.Config, c: T.State)
    requires cfg.Valid()
  {
    && T.Inv(Uncapped(cfg), c, []) && |c.tasks| == cfg.queueDepth
    && (!c.draining ==> c.freed == [] && (cfg.cap > 0 ==> c.submitted < cfg.cap))
  }

  /** The list names each parked task once. */
  ghost predicate PendingInv(s: State) {
    && NoDup(s.pending)
    && (forall r :: r in s.pending <==> IsTask(s, r) && s.ctxs[r.ctx].tasks[r.task].status == T.Parked)
    && |s.pending| == Sum(s.ctxs, Waiting())
  }

  ghost predicate ListInv(cfg: Config, s: State)
    requires cfg.Valid()
  {
    && |s.ctxs| == |cfg.ctxs|
    && (forall k :: 0 <= k < |s.ctxs| ==> CtxInv(cfg.ctxs[k], s.ctxs[k]))
    && PendingInv(s)
  }

  predicate AnyDraining(s: State) { exists k :: 0 <= k < |s.ctxs| && s.ctxs[k].draining }

  /** The credit scheme between two rounds of the main loop. */
  ghost predicate Credit(cfg: Config, s: State) {
    && (s.submitBatch == 0 || s.submitBatch == cfg.target) && s.batch <= s.submitBatch
    && |s.pending| + s.submitBatch - s.batch == Allocated(cfg.ctxs)
  }

  /** What every run keeps: each task in one place, and the credit scheme until a context drains. */
  ghost predicate RunInv(cfg: Config, s: State)
    requires cfg.Valid()
  {
    ListInv(cfg, s) && (AnyDraining(s) || Credit(cfg, s))
  }

  /** Every allocated task waits in the list, is busy or has been freed, and none is freed before draining. */
  lemma {:induction false} WaitingOrBusy(cfgs: seq<T.Config>, ctxs: seq<T.State>)
    requires |cfgs| == |ctxs|
    requires forall k :: 0 <= k < |ctxs| ==> cfgs[k].Valid() && CtxInv(cfgs[k], ctxs[k])
    ensures Sum(ctxs, Waiting()) + Sum(ctxs, Busy()) + Sum(ctxs, Gone()) == Allocated(cfgs)
    ensures (forall k :: 0 <= k < |ctxs| ==> !ctxs[k].draining) ==> Sum(ctxs, Gone()) == 0
  {
    if ctxs != [] {
      var m := |ctxs| - 1;
      assert forall k :: 0 <= k < m ==> cfgs[..m][k] == cfgs[k] && ctxs[..m][k] == ctxs[k];
      WaitingOrBusy(cfgs[..m], ctxs[..m]);
      TR.StatusesCover(ctxs[m].tasks);
      assert ctxs[m].queued + [] == ctxs[m].queued;
    }
  }

  // ---------------------------------------------------------------- one context

  /** A submission with continue-on-error: in flight, or queued. */
  lemma {:induction false} SubmitEffect(cfg: T.Config, c: T.State, t: nat, a: T.Attempt)
    requires cfg.Valid() && cfg.continueOnError && t < |c.tasks|
    ensures var c' := T.Submit(cfg, c, t, a);
            && (c.draining ==> c'.draining) && c'.freed == c.freed && |c'.tasks| == |c.tasks|
            && c'.tasks == c.tasks[t := c'.tasks[t]]
            && (c'.tasks[t].status == T.InFlight || c'.tasks[t].status == T.Queued)
  {
  }

  lemma {:induction false} CtxSubmit(cfg: T.Config, c: T.State, t: nat, a: T.Attempt)
    requires cfg.Valid() && cfg.continueOnError && CtxInv(cfg, c)
    requires t < |c.tasks| && c.tasks[t].status == T.Parked
    ensures var c' := T.Submit(cfg, c, t, a);
            && CtxInv(cfg, c') && c'.tasks == c.tasks[t := c'.tasks[t]] && c'.tasks[t].status != T.Parked
            && Waiting()(c') + 1 == Waiting()(c)
  {
    hide T.Lists;
    var c' := T.Submit(cfg, c, t, a);
    SubmitEffect(cfg, c, t, a);
    T.MoveKeeps(Uncapped(cfg), c, t, c', []);
    CountUpdate(c.tasks, t, c'.tasks[t], T.Is(T.Parked));
  }

  /** A completed task waits in the list. */
  lemma {:induction false} CtxDeliver(cfg: T.Config, c: T.State, t: nat)
    requires cfg.Valid() && CtxInv(cfg, c) && t < |c.tasks| && c.tasks[t].status == T.InFlight
    ensures var c' := T.Put(T.Account(c), t, T.Parked);
            && CtxInv(cfg, c') && c'.tasks == c.tasks[t := c'.tasks[t]] && c'.tasks[t].status == T.Parked
            && Waiting()(c') == Waiting()(c) + 1
  {
    T.AccountKeeps(Uncapped(cfg), c, t, []);
    CountUpdate(c.tasks, t, c.tasks[t].(status := T.Parked), T.Is(T.Parked));
  }

  /** A task completed while draining is freed. */
  lemma {:induction false} CtxFree(cfg: T.Config, c: T.State, t: nat)
    requires cfg.Valid() && CtxInv(cfg, c) && c.draining && t < |c.tasks| && c.tasks[t].status == T.InFlight
    ensures var c' := T.Free(T.Account(c), t);
            && CtxInv(cfg, c') && |c'.tasks| == |c.tasks|
            && (forall u :: 0 <= u < |c.tasks| && u != t ==> c'.tasks[u] == c.tasks[u])
            && c'.tasks[t].status == T.Freed && Waiting()(c') == Waiting()(c)
  {
    hide T.Lists;
    T.AccountKeeps(Uncapped(cfg), c, t, []);
    var c1 := T.Put(T.Account(c), t, T.Parked);
    T.FreeKeeps(Uncapped(cfg), c1, t, []);
    assert T.Free(c1, t) == T.Free(T.Account(c), t) by {
      assert T.Free(c1, t).tasks == T.Free(T.Account(c), t).tasks;
    }
    CountUpdate(c.tasks, t, c.tasks[t].(status := T.Freed), T.Is(T.Parked));
  }

  ghost predicate SameParked(c: T.State, c': T.State) {
    && |c'.tasks| == |c.tasks| && c'.freed == c.freed
    && forall t :: 0 <= t < |c.tasks| ==> (c'.tasks[t].status == T.Parked <==> c.tasks[t].status == T.Parked)
  }

  /** A retry pass moves no task into or out of the pacing list. */
  lemma {:induction false} RetryParked(cfg: T.Config, c: T.State, held: seq<nat>, attempts: seq<T.Attempt>)
    requires cfg.Valid() && cfg.continueOnError
    requires |held| <= |attempts|
    requires forall i :: 0 <= i < |held| ==> held[i] < |c.tasks| && c.tasks[held[i]].status != T.Parked
    ensures SameParked(c, T.RetryAll(cfg, c, held, attempts))
    ensures c.draining ==> T.RetryAll(cfg, c, held, attempts).draining
    decreases |held|
  {
    if held != [] {
      SubmitEffect(cfg, c, held[0], attempts[0]);
      var c1 := T.RetryOne(cfg, c, held[0], attempts[0]);
      forall i | 0 <= i < |held[1..]|
        ensures held[1..][i] < |c1.tasks| && c1.tasks[held[1..][i]].status != T.Parked
      {
        assert held[1..][i] == held[i + 1];
      }
      RetryParked(cfg, c1, held[1..], attempts[1..]);
    }
  }

  lemma {:induction false} CtxRetry(cfg: T.Config, c: T.State, attempts: seq<T.Attempt>)
    requires cfg.Valid() && cfg.continueOnError && CtxInv(cfg, c) && !c.draining && |c.queued| <= |attempts|
    ensures forall i :: 0 <= i < |c.queued| ==> c.queued[i] < |c.tasks|
    ensures var c' := T.RetryPass(cfg, c, attempts);
            CtxInv(cfg, c') && SameParked(c, c') && Waiting()(c') == Waiting()(c)
  {
    T.RetryPassKeeps(cfg, c, attempts);
    assert c.queued + [] == c.queued;
    assert forall i :: 0 <= i < |c.queued| ==> c.queued[i] in c.queued;
    RetryParked(cfg, c.(queued := []), c.queued, attempts);
    CountSame(c.tasks, T.Is(T.Parked), T.RetryPass(cfg, c, attempts).tasks, T.Is(T.Parked));
  }

  // ---------------------------------------------------------------- all contexts

  lemma {:induction false} ReplacePending(s: State, k: nat, c: T.State, s': State)
    requires PendingInv(s) && k < |s.ctxs|
    requires s'.ctxs == s.ctxs[k := c] && NoDup(s'.pending)
    requires |s'.pending| + Waiting()(s.ctxs[k]) == |s.pending| + Waiting()(c)
    requires forall x :: x in s'.pending <==>
               if x.ctx == k then x.task < |c.tasks| && c.tasks[x.task].status == T.Parked else x in s.pending
    ensures PendingInv(s')
  {
    SumUpdate(s.ctxs, k, c, Waiting());
    forall r: Ref
      ensures r in s'.pending <==> IsTask(s', r) && s'.ctxs[r.ctx].tasks[r.task].status == T.Parked
    {
      if r.ctx != k {
        assert r in s'.pending <==> r in s.pending;
        assert r.ctx < |s.ctxs| ==> s'.ctxs[r.ctx] == s.ctxs[r.ctx];
      }
    }
  }

  /** One context changes, and the list follows. */
  lemma {:induction false} ReplaceKeeps(cfg: Config, s: State, k: nat, c: T.State, s': State)
    requires cfg.Valid() && ListInv(cfg, s) && k < |s.ctxs| && CtxInv(cfg.ctxs[k], c)
    requires s'.ctxs == s.ctxs[k := c] && PendingInv(s')
    ensures ListInv(cfg, s')
  {
    forall j | 0 <= j < |s'.ctxs|
      ensures CtxInv(cfg.ctxs[j], s'.ctxs[j])
    {
      if j != k {
        assert s'.ctxs[j] == s.ctxs[j];
      }
    }
  }

  lemma {:induction false} PushPending(s: State, r: Ref, c: T.State, s': State)
    requires PendingInv(s) && IsTask(s, r) && s.ctxs[r.ctx].tasks[r.task].status != T.Parked
    requires |c.tasks| == |s.ctxs[r.ctx].tasks| && c.tasks == s.ctxs[r.ctx].tasks[r.task := c.tasks[r.task]]
    requires c.tasks[r.task].status == T.Parked && Waiting()(c) == Waiting()(s.ctxs[r.ctx]) + 1
    requires s'.ctxs == s.ctxs[r.ctx := c] && s'.pending == s.pending + [r]
    ensures PendingInv(s')
  {
    assert r !in s.pending;
    assert forall i :: 0 <= i < |s.pending| ==> s.pending[i] in s.pending;
    forall x: Ref
      ensures x in s'.pending <==>
              if x.ctx == r.ctx then x.task < |c.tasks| && c.tasks[x.task].status == T.Parked else x in s.pending
    {
      assert x in s'.pending <==> x in s.pending || x == r;
    }
    ReplacePending(s, r.ctx, c, s');
  }

  lemma {:induction false} PopPending(s: State, c: T.State, s': State)
    requires PendingInv(s) && s.pending != [] && IsTask(s, s.pending[0])
    requires var r := s.pending[0];
             && |c.tasks| == |s.ctxs[r.ctx].tasks| && c.tasks == s.ctxs[r.ctx].tasks[r.task := c.tasks[r.task]]
             && c.tasks[r.task].status != T.Parked && Waiting()(c) + 1 == Waiting()(s.ctxs[r.ctx])
             && s'.ctxs == s.ctxs[r.ctx := c] && s'.pending == s.pending[1..]
    ensures PendingInv(s')
  {
    var r := s.pending[0];
    assert s.pending == [r] + s.pending[1..];
    forall x: Ref
      ensures x in s'.pending <==>
              if x.ctx == r.ctx then x.task < |c.tasks| && c.tasks[x.task].status == T.Parked else x in s.pending
    {
      assert x in s'.pending <==> x in s.pending && x != r;
    }
    ReplacePending(s, r.ctx, c, s');
  }

  lemma {:induction false} DeliverKeeps(cfg: Config, s: State, r: Ref)
    requires cfg.Valid() && ListInv(cfg, s) && IsTask(s, r)
    requires s.ctxs[r.ctx].tasks[r.task].status == T.InFlight
    ensures ListInv(cfg, TaskComplete(s, r))
  {
    var s' := TaskComplete(s, r);
    var c, c' := s.ctxs[r.ctx], s'.ctxs[r.ctx];
    if c.draining {
      CtxFree(cfg.ctxs[r.ctx], c, r.task);
      FreePending(s, r, c', s');
    } else {
      CtxDeliver(cfg.ctxs[r.ctx], c, r.task);
      PushPending(s, r, c', s');
    }
    ReplaceKeeps(cfg, s, r.ctx, c', s');
  }

  lemma {:induction false} FreePending(s: State, r: Ref, c: T.State, s': State)
    requires PendingInv(s) && IsTask(s, r) && s.ctxs[r.ctx].tasks[r.task].status != T.Parked
    requires |c.tasks| == |s.ctxs[r.ctx].tasks| && c.tasks[r.task].status != T.Parked
    requires forall u :: 0 <= u < |c.tasks| && u != r.task ==> c.tasks[u] == s.ctxs[r.ctx].tasks[u]
    requires Waiting()(c) == Waiting()(s.ctxs[r.ctx])
    requires s'.ctxs == s.ctxs[r.ctx := c] && s'.pending == s.pending
    ensures PendingInv(s')
  {
    ReplacePending(s, r.ctx, c, s');
  }

  /** A popped task goes in flight or into its retry queue. */
  lemma {:induction false} PopKeeps(cfg: Config, s: State, a: T.Attempt)
    requires cfg.Valid() && ListInv(cfg, s) && s.pending != []
    ensures IsTask(s, s.pending[0]) && ListInv(cfg, PopOne(cfg, s, a))
  {
    var r := s.pending[0];
    assert r in s.pending;
    var c := T.Submit(cfg.ctxs[r.ctx], s.ctxs[r.ctx], r.task, a);
    CtxSubmit(cfg.ctxs[r.ctx], s.ctxs[r.ctx], r.task, a);
    PopPending(s, c, PopOne(cfg, s, a));
    ReplaceKeeps(cfg, s, r.ctx, c, PopOne(cfg, s, a));
  }

  lemma {:induction false} RetryKeeps(cfg: Config, s: State, k: nat, attempts: seq<T.Attempt>)
    requires cfg.Valid() && ListInv(cfg, s) && Enabled(cfg, s, Retry(k, attempts))
    ensures ListInv(cfg, Step(cfg, s, Retry(k, attempts)))
  {
    CtxRetry(cfg.ctxs[k], s.ctxs[k], attempts);
    var c' := T.RetryPass(cfg.ctxs[k], s.ctxs[k], attempts);
    ReplacePending(s, k, c', With(s, k, c'));
    ReplaceKeeps(cfg, s, k, c', With(s, k, c'));
  }

  lemma {:induction false} DrainKeeps(cfg: Config, s: State, k: nat)
    requires cfg.Valid() && ListInv(cfg, s) && k < |s.ctxs|
    ensures ListInv(cfg, Step(cfg, s, SetDraining(k)))
  {
    var c := s.ctxs[k].(draining := true);
    assert CtxInv(cfg.ctxs[k], s.ctxs[k]);
    ReplacePending(s, k, c, With(s, k, c));
    ReplaceKeeps(cfg, s, k, c, With(s, k, c));
  }

  /** The pop loop takes entries off the front, a whole batch if the list has as many. */
  lemma {:induction false} PopLoopKeeps(cfg: Config, s: State, attempts: seq<T.Attempt>)
    requires cfg.Valid() && ListInv(cfg, s) && cfg.target <= s.submitBatch + |attempts|
    ensures var s' := PopLoop(cfg, s, attempts);
            var n := Taken(cfg, s);
            && ListInv(cfg, s') && s'.batch == s.batch && s'.submitBatch == s.submitBatch + n
            && n <= |s.pending| && s'.pending == s.pending[n..]
            && (AnyDraining(s) ==> AnyDraining(s'))
    decreases |attempts|
  {
    hide CtxInv, PendingInv, T.Submit;
    if s.submitBatch < cfg.target && s.pending != [] {
      var r := s.pending[0];
      PopKeeps(cfg, s, attempts[0]);
      PopUnfold(cfg, s, attempts);
      var s1 := PopOne(cfg, s, attempts[0]);
      PopLoopKeeps(cfg, s1, attempts[1..]);
      assert s.pending[1..][Taken(cfg, s1)..] == s.pending[Taken(cfg, s)..];
      if k :| 0 <= k < |s.ctxs| && s.ctxs[k].draining {
        assert s1.ctxs[k].draining;
      }
    }
  }

  /** How many entries a block takes. */
  function Taken(cfg: Config, s: State): nat {
    if s.submitBatch >= cfg.target then 0
    else if cfg.target - s.submitBatch <= |s.pending| then cfg.target - s.submitBatch else |s.pending|
  }

  lemma {:induction false} PopUnfold(cfg: Config, s: State, attempts: seq<T.Attempt>)
    requires cfg.Valid() && |s.ctxs| == |cfg.ctxs| && s.submitBatch < cfg.target && attempts != []
    requires s.pending != [] && IsTask(s, s.pending[0]) && |PopOne(cfg, s, attempts[0]).ctxs| == |cfg.ctxs|
    ensures PopLoop(cfg, s, attempts) == PopLoop(cfg, PopOne(cfg, s, attempts[0]), attempts[1..])
  {
  }

  lemma {:induction false} StepKeeps(cfg: Config, s: State, e: Event)
    requires cfg.Valid() && RunInv(cfg, s)
    ensures RunInv(cfg, Step(cfg, s, e))
    ensures AnyDraining(s) ==> AnyDraining(Step(cfg, s, e))
  {
    hide ListInv;
    if Enabled(cfg, s, e) {
      match e
      case Deliver(r) =>
        DeliverKeeps(cfg, s, r);
        if AnyDraining(s) {
          StaysDraining(s, r.ctx, Step(cfg, s, e));
        } else {
          SomeBusy(cfg, s, r);
        }
      case Retry(k, attempts) =>
        RetryKeeps(cfg, s, k, attempts);
        if AnyDraining(s) {
          StaysDraining(s, k, Step(cfg, s, e));
        }
      case Pace(attempts) => PaceKeeps(cfg, s, attempts);
      case SetDraining(k) =>
        DrainKeeps(cfg, s, k);
        assert Step(cfg, s, e).ctxs[k].draining;
      case WarmupReset => ResetKeeps(cfg, s);
    }
  }

  /** A step that changes one context, and does not stop its draining, keeps something draining. */
  lemma {:induction false} StaysDraining(s: State, k: nat, s': State)
    requires AnyDraining(s) && k < |s.ctxs| == |s'.ctxs| && s'.ctxs == s.ctxs[k := s'.ctxs[k]]
    requires s.ctxs[k].draining ==> s'.ctxs[k].draining
    ensures AnyDraining(s')
  {
    var j :| 0 <= j < |s.ctxs| && s.ctxs[j].draining;
    assert s'.ctxs[j].draining;
  }

  lemma {:induction false} PaceKeeps(cfg: Config, s: State, attempts: seq<T.Attempt>)
    requires cfg.Valid() && RunInv(cfg, s) && |attempts| == cfg.target
    ensures RunInv(cfg, PaceBlock(cfg, s, attempts))
    ensures AnyDraining(s) ==> AnyDraining(PaceBlock(cfg, s, attempts))
  {
    hide CtxInv, PendingInv;
    PopLoopKeeps(cfg, s, attempts);
    var s1, s' := PopLoop(cfg, s, attempts), PaceBlock(cfg, s, attempts);
    SameLists(cfg, s1, s');
    assert AnyDraining(s1) ==> AnyDraining(s');
  }

  lemma {:induction false} SameLists(cfg: Config, s: State, s': State)
    requires cfg.Valid() && s'.ctxs == s.ctxs && s'.pending == s.pending
    ensures ListInv(cfg, s) ==> ListInv(cfg, s')
  {
  }

  lemma {:induction false} ResetKeeps(cfg: Config, s: State)
    requires cfg.Valid() && RunInv(cfg, s) && Enabled(cfg, s, WarmupReset)
    ensures var s' := Step(cfg, s, WarmupReset);
            RunInv(cfg, s') && (AnyDraining(s) ==> AnyDraining(s'))
  {
    var s' := Step(cfg, s, WarmupReset);
    hide PendingInv, CtxInv;
    forall k | 0 <= k < |s.ctxs|
      ensures CtxInv(cfg.ctxs[k], s'.ctxs[k])
    {
      ResetCtx(cfg.ctxs[k], s.ctxs[k]);
    }
    SamePending(s, s');
    assert forall k :: 0 <= k < |s.ctxs| ==> s'.ctxs[k].draining == s.ctxs[k].draining;
  }

  lemma {:induction false} ResetCtx(cfg: T.Config, c: T.State)
    requires cfg.Valid() && CtxInv(cfg, c)
    ensures CtxInv(cfg, c.(submitted := 0, completed := 0))
  {
  }

  lemma {:induction false} SamePending(s: State, s': State)
    requires PendingInv(s) && s'.pending == s.pending && |s'.ctxs| == |s.ctxs|
    requires forall k :: 0 <= k < |s.ctxs| ==> s'.ctxs[k].tasks == s.ctxs[k].tasks
    ensures PendingInv(s')
  {
    SameWaiting(s.ctxs, s'.ctxs);
    forall r: Ref
      ensures IsTask(s', r) && s'.ctxs[r.ctx].tasks[r.task].status == T.Parked <==>
              IsTask(s, r) && s.ctxs[r.ctx].tasks[r.task].status == T.Parked
    {
    }
  }

  lemma {:induction false} SameWaiting(a: seq<T.State>, b: seq<T.State>)
    requires |a| == |b| && forall k :: 0 <= k < |a| ==> a[k].tasks == b[k].tasks
    ensures Sum(a, Waiting()) == Sum(b, Waiting())
  {
    if a != [] {
      var m := |a| - 1;
      assert forall k :: 0 <= k < m ==> a[..m][k] == a[k] && b[..m][k] == b[k];
      SameWaiting(a[..m], b[..m]);
    }
  }

  /** A task in flight is one the counters still wait for. */
  lemma {:induction false} SomeBusy(cfg: Config, s: State, r: Ref)
    requires cfg.Valid() && RunInv(cfg, s) && !AnyDraining(s) && IsTask(s, r)
    requires s.ctxs[r.ctx].tasks[r.task].status == T.InFlight
    ensures s.submitBatch == cfg.target && s.batch < cfg.target
  {
    T.AccountKeeps(Uncapped(cfg.ctxs[r.ctx]), s.ctxs[r.ctx], r.task, []);
    WaitingOrBusy(cfg.ctxs, s.ctxs);
    SumUpdate(s.ctxs, r.ctx, s.ctxs[r.ctx].(depth := 0, queued := []), Busy());
  }

  // ---------------------------------------------------------------- runs

  /** Every context has its tasks, all of them in the list, context after context. */
  function Init(cfg: Config): State {
    State(seq(|cfg.ctxs|, k requires 0 <= k < |cfg.ctxs| => NewCtx(cfg.ctxs[k])), AllRefs(cfg.ctxs), 0, 0)
  }

  function NewCtx(cfg: T.Config): T.State {
    T.State(seq(cfg.queueDepth, _ => T.Task(T.Parked, 0, false)), [], 0, 0, 0, false, 0, false, [])
  }

  function AllRefs(ctxs: seq<T.Config>): seq<Ref> {
    if ctxs == [] then []
    else
      var m := |ctxs| - 1;
      AllRefs(ctxs[..m]) + seq(ctxs[m].queueDepth, (t: nat) => Ref(m, t))
  }

  lemma {:induction false} AllRefsComplete(ctxs: seq<T.Config>)
    ensures var refs := AllRefs(ctxs);
            && NoDup(refs) && |refs| == Allocated(ctxs)
            && forall r :: r in refs <==> r.ctx < |ctxs| && r.task < ctxs[r.ctx].queueDepth
  {
    if ctxs != [] {
      var m := |ctxs| - 1;
      AllRefsComplete(ctxs[..m]);
      var before, added := AllRefs(ctxs[..m]), seq(ctxs[m].queueDepth, (t: nat) => Ref(m, t));
      assert forall i :: 0 <= i < |before| ==> before[i] in before;
      forall r: Ref
        ensures r in before + added <==> r.ctx < |ctxs| && r.task < ctxs[r.ctx].queueDepth
      {
        assert r in before + added <==> r in before || r in added;
        if r.ctx == m && r.task < ctxs[m].queueDepth {
          assert added[r.task] == r;
        }
      }
    }
  }

  lemma {:induction false} NewCtxHolds(cfg: T.Config)
    requires cfg.Valid()
    ensures CtxInv(cfg, NewCtx(cfg)) && Waiting()(NewCtx(cfg)) == cfg.queueDepth
  {
    var c := NewCtx(cfg);
    CountNone(c.tasks, T.Is(T.InFlight));
    CountNone(c.tasks, T.Is(T.Queued));
    CountNone(c.tasks, T.Is(T.Freed));
    CountAll(c.tasks, T.Is(T.Parked));
  }

  lemma {:induction false} NewCtxsWait(cfgs: seq<T.Config>, ctxs: seq<T.State>)
    requires |ctxs| == |cfgs|
    requires forall k :: 0 <= k < |cfgs| ==> cfgs[k].Valid() && ctxs[k] == NewCtx(cfgs[k])
    ensures Sum(ctxs, Waiting()) == Allocated(cfgs)
  {
    if ctxs != [] {
      var m := |ctxs| - 1;
      assert forall k :: 0 <= k < m ==> cfgs[..m][k] == cfgs[k] && ctxs[..m][k] == ctxs[k];
      NewCtxsWait(cfgs[..m], ctxs[..m]);
      NewCtxHolds(cfgs[m]);
    }
  }

  lemma {:induction false} InitHolds(cfg: Config)
    requires cfg.Valid()
    ensures RunInv(cfg, Init(cfg))
  {
    var s := Init(cfg);
    AllRefsComplete(cfg.ctxs);
    NewCtxsWait(cfg.ctxs, s.ctxs);
    forall k | 0 <= k < |s.ctxs|
      ensures CtxInv(cfg.ctxs[k], s.ctxs[k])
    {
      NewCtxHolds(cfg.ctxs[k]);
    }
    InitPending(cfg);
  }

  lemma {:induction false} InitPending(cfg: Config)
    requires cfg.Valid()
    ensures PendingInv(Init(cfg))
  {
    var s := Init(cfg);
    AllRefsComplete(cfg.ctxs);
    NewCtxsWait(cfg.ctxs, s.ctxs);
  }

  lemma {:induction false} ExecKeeps(cfg: Config, s: State, run: seq<Event>)
    requires cfg.Valid() && RunInv(cfg, s)
    ensures RunInv(cfg, Exec(cfg, s, run))
    decreases |run|
  {
    hide RunInv;
    if run != [] {
      StepKeeps(cfg, s, run[0]);
      ExecKeeps(cfg, Step(cfg, s, run[0]), run[1..]);
    }
  }

  /** In every state of every run in which no context drains, across rejected and retried submissions, the
      tasks in flight and in the retry queues are exactly those the two counters are waiting for; so a
      pacing block finds enough entries. */
  lemma {:induction false} CreditWithRetry(cfg: Config, run: seq<Event>)
    requires cfg.Valid()
    ensures var s := Exec(cfg, Init(cfg), run);
            !AnyDraining(s) ==>
              && Sum(s.ctxs, Busy()) == s.submitBatch - s.batch <= cfg.target
              && |s.pending| + Sum(s.ctxs, Busy()) == Allocated(cfg.ctxs)
              && cfg.target - s.submitBatch <= |s.pending|
  {
    InitHolds(cfg);
    ExecKeeps(cfg, Init(cfg), run);
    var s := Exec(cfg, Init(cfg), run);
    if !AnyDraining(s) {
      WaitingOrBusy(cfg.ctxs, s.ctxs);
    }
  }
}
