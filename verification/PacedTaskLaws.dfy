/** What the paced single-task engine promises over all its runs, draining included. */
module PacedTaskLaws {
  import opened Counting
  import opened Workload
  import opened SubmissionLog
  import opened PacedTasks
  import Fifo
  import T = TaskLifecycle
  import TL = TaskLog
  import TR = TaskRuns

  lemma {:induction false} EveryRun(cfg: Config, run: seq<Event>)
    requires cfg.Valid()
    ensures RunInv(cfg, Exec(cfg, Init(cfg), run))
  {
    InitHolds(cfg);
    ExecKeeps(cfg, Init(cfg), run);
  }

  // ---------------------------------------------------------------- places

  function One(b: bool): nat { if b then 1 else 0 }

  /** In every run, draining included, each task is in exactly one place: in flight, once in its retry queue,
      once in the pacing list, or freed once; and the places add up to all the tasks. */
  lemma {:induction false} TaskPlaces(cfg: Config, run: seq<Event>, r: Ref)
    requires cfg.Valid()
    ensures var s := Exec(cfg, Init(cfg), run);
            && |s.ctxs| == |cfg.ctxs| && NoDup(s.pending)
            && |s.pending| + Sum(s.ctxs, Busy()) + Sum(s.ctxs, Gone()) == Allocated(cfg.ctxs)
            && (r.ctx < |s.ctxs| && r.task < cfg.ctxs[r.ctx].queueDepth ==>
                  var c := s.ctxs[r.ctx];
                  && |c.tasks| == cfg.ctxs[r.ctx].queueDepth && c.depth == Count(c.tasks, T.Is(T.InFlight))
                  && NoDup(c.queued) && NoDup(c.freed)
                  && One(c.tasks[r.task].status == T.InFlight) + One(r.task in c.queued)
                     + One(r in s.pending) + One(r.task in c.freed) == 1)
  {
    hide CtxInv;
    EveryRun(cfg, run);
    var s := Exec(cfg, Init(cfg), run);
    WaitingOrBusy(cfg.ctxs, s.ctxs);
    if r.ctx < |s.ctxs| && r.task < cfg.ctxs[r.ctx].queueDepth {
      InOnePlace(cfg.ctxs[r.ctx], s.ctxs[r.ctx], r.task);
    }
  }

  /** Inside one context, a task that does not wait in the list is in exactly one of three places. */
  lemma {:induction false} InOnePlace(cfg: T.Config, c: T.State, t: nat)
    requires cfg.Valid() && CtxInv(cfg, c) && t < cfg.queueDepth
    ensures |c.tasks| == cfg.queueDepth && c.depth == Count(c.tasks, T.Is(T.InFlight))
    ensures NoDup(c.queued) && NoDup(c.freed)
    ensures One(c.tasks[t].status == T.InFlight) + One(t in c.queued) + One(c.tasks[t].status == T.Parked)
            + One(t in c.freed) == 1
  {
    assert c.queued + [] == c.queued;
  }

  // ---------------------------------------------------------------- draining

  ghost predicate CompletesOn(cfg: Config, s: State, e: Event, k: nat) {
    e.Deliver? && e.ref.ctx == k && Enabled(cfg, s, e)
  }

  /** The tasks of context `k` that complete during a run, in order. */
  ghost function CompletedOn(cfg: Config, s: State, run: seq<Event>, k: nat): seq<nat>
    requires cfg.Valid()
    decreases |run|
  {
    if run == [] then []
    else (if CompletesOn(cfg, s, run[0], k) then [run[0].ref.task] else [])
         + CompletedOn(cfg, Step(cfg, s, run[0]), run[1..], k)
  }

  lemma {:induction false} PopLoopDrain(cfg: Config, s: State, attempts: seq<T.Attempt>, k: nat)
    requires cfg.Valid() && |s.ctxs| == |cfg.ctxs| && k < |s.ctxs| && s.ctxs[k].draining
    ensures var s' := PopLoop(cfg, s, attempts);
            && |s'.ctxs| == |s.ctxs| && s'.ctxs[k].draining && s'.ctxs[k].freed == s.ctxs[k].freed
            && (forall r :: r in s'.pending ==> r in s.pending)
    decreases |attempts|
  {
    hide T.Submit;
    if s.submitBatch < cfg.target && attempts != [] && s.pending != [] && IsTask(s, s.pending[0]) {
      var r := s.pending[0];
      SubmitEffect(cfg.ctxs[r.ctx], s.ctxs[r.ctx], r.task, attempts[0]);
      PopLoopDrain(cfg, PopOne(cfg, s, attempts[0]), attempts[1..], k);
    }
  }

  /** While context `k` drains, no step lists one of its tasks; a completion on it changes neither the list nor
      the counter of finished tasks, and frees exactly its task; no other step frees a task of it. */
  lemma {:induction false} DrainLaw(cfg: Config, s: State, e: Event, k: nat)
    requires cfg.Valid() && |s.ctxs| == |cfg.ctxs| && k < |s.ctxs| && s.ctxs[k].draining
    ensures var s' := Step(cfg, s, e);
            && |s'.ctxs| == |s.ctxs| && s'.ctxs[k].draining
            && (forall r :: r in s'.pending && r.ctx == k ==> r in s.pending)
            && (CompletesOn(cfg, s, e, k) ==> s'.pending == s.pending && s'.batch == s.batch)
            && s'.ctxs[k].freed == s.ctxs[k].freed + if CompletesOn(cfg, s, e, k) then [e.ref.task] else []
  {
    assert s.ctxs[k].freed + [] == s.ctxs[k].freed;
    if e.Pace? && Enabled(cfg, s, e) {
      PopLoopDrain(cfg, s, e.attempts, k);
    }
  }

  /** Over every continuation: a draining context goes on draining, none of its tasks enters the list, and its
      freed tasks are those freed before and then exactly the completed ones, in order. */
  lemma {:induction false} DrainRun(cfg: Config, s: State, run: seq<Event>, k: nat)
    requires cfg.Valid() && |s.ctxs| == |cfg.ctxs| && k < |s.ctxs| && s.ctxs[k].draining
    ensures var s' := Exec(cfg, s, run);
            && |s'.ctxs| == |s.ctxs| && s'.ctxs[k].draining
            && (forall r :: r in s'.pending && r.ctx == k ==> r in s.pending)
            && s'.ctxs[k].freed == s.ctxs[k].freed + CompletedOn(cfg, s, run, k)
    decreases |run|
  {
    hide Step;
    if run == [] {
      assert s.ctxs[k].freed + [] == s.ctxs[k].freed;
    } else {
      var s1 := Step(cfg, s, run[0]);
      var first := if CompletesOn(cfg, s, run[0], k) then [run[0].ref.task] else [];
      DrainLaw(cfg, s, run[0], k);
      DrainRun(cfg, s1, run[1..], k);
      assert s.ctxs[k].freed + first + CompletedOn(cfg, s1, run[1..], k)
          == s.ctxs[k].freed + (first + CompletedOn(cfg, s1, run[1..], k));
    }
  }

  // ---------------------------------------------------------------- what drains a context

  ghost predicate Stops(cfg: Config, s: State, e: Event, k: nat) {
    e.SetDraining? && e.ctx == k && Enabled(cfg, s, e)
  }

  ghost predicate Stopped(cfg: Config, s: State, run: seq<Event>, k: nat)
    requires cfg.Valid()
    decreases |run|
  {
    run != [] && (Stops(cfg, s, run[0], k) || Stopped(cfg, Step(cfg, s, run[0]), run[1..], k))
  }

  /** Context `k` drains because it was stopped or has reached its cap. */
  ghost predicate Caused(cfg: Config, s: State, k: nat, stopped: bool)
    requires k < |s.ctxs| == |cfg.ctxs|
  {
    s.ctxs[k].draining <==> stopped || TL.AtCap(cfg.ctxs[k], s.ctxs[k])
  }

  lemma {:induction false} PopLoopCause(cfg: Config, s: State, attempts: seq<T.Attempt>, k: nat, stopped: bool)
    requires cfg.Valid() && k < |s.ctxs| == |cfg.ctxs| && Caused(cfg, s, k, stopped)
    ensures |PopLoop(cfg, s, attempts).ctxs| == |cfg.ctxs| && Caused(cfg, PopLoop(cfg, s, attempts), k, stopped)
    decreases |attempts|
  {
    if s.submitBatch < cfg.target && attempts != [] && s.pending != [] && IsTask(s, s.pending[0]) {
      PopLoopCause(cfg, PopOne(cfg, s, attempts[0]), attempts[1..], k, stopped);
    }
  }

  lemma {:induction false} DrainCause(cfg: Config, s: State, e: Event, k: nat, stopped: bool)
    requires cfg.Valid() && k < |s.ctxs| == |cfg.ctxs| && Caused(cfg, s, k, stopped)
    ensures |Step(cfg, s, e).ctxs| == |cfg.ctxs|
    ensures Caused(cfg, Step(cfg, s, e), k, stopped || Stops(cfg, s, e, k))
  {
    if Enabled(cfg, s, e) {
      if e.Pace? {
        PopLoopCause(cfg, s, e.attempts, k, stopped);
      } else if e.Retry? && e.ctx == k {
        var c := s.ctxs[k];
        TL.RetryAtCap(cfg.ctxs[k], c.(queued := []), c.queued, e.attempts);
      }
    }
  }

  lemma {:induction false} DrainCauses(cfg: Config, s: State, run: seq<Event>, k: nat, stopped: bool)
    requires cfg.Valid() && k < |s.ctxs| == |cfg.ctxs| && Caused(cfg, s, k, stopped)
    ensures |Exec(cfg, s, run).ctxs| == |cfg.ctxs|
    ensures Caused(cfg, Exec(cfg, s, run), k, stopped || Stopped(cfg, s, run, k))
    decreases |run|
  {
    hide Step, Stops, Caused;
    if run != [] {
      DrainCause(cfg, s, run[0], k, stopped);
      DrainCauses(cfg, Step(cfg, s, run[0]), run[1..], k, stopped || Stops(cfg, s, run[0], k));
    }
  }

  /** A context drains if and only if it was stopped itself or has reached its cap. */
  lemma {:induction false} DrainsIff(cfg: Config, run: seq<Event>, k: nat)
    requires cfg.Valid() && k < |cfg.ctxs|
    ensures var s := Exec(cfg, Init(cfg), run);
            && |s.ctxs| == |cfg.ctxs|
            && (s.ctxs[k].draining <==>
                  Stopped(cfg, Init(cfg), run, k) || (cfg.ctxs[k].cap > 0 && s.ctxs[k].submitted >= cfg.ctxs[k].cap))
  {
    DrainCauses(cfg, Init(cfg), run, k, false);
  }

  // ---------------------------------------------------------------- first in, first out

  /** What a step does to the list. */
  ghost function ListEvents(cfg: Config, s: State, e: Event): seq<Fifo.Event<Ref>> {
    if !Enabled(cfg, s, e) then []
    else
      match e
      case Deliver(r) => if s.ctxs[r.ctx].draining then [] else [Fifo.Push(r)]
      case Pace(_) => [Fifo.Batch(Taken(cfg, s))]
      case Retry(_, _) => []
      case SetDraining(_) => []
      case WarmupReset => []
  }

  ghost function History(cfg: Config, s: State, run: seq<Event>): seq<Fifo.Event<Ref>>
    requires cfg.Valid()
    decreases |run|
  {
    if run == [] then [] else ListEvents(cfg, s, run[0]) + History(cfg, Step(cfg, s, run[0]), run[1..])
  }

  lemma {:induction false} ListStep(cfg: Config, s: State, e: Event)
    requires cfg.Valid() && RunInv(cfg, s)
    ensures var es := ListEvents(cfg, s, e);
            && |es| <= 1 && Fifo.Enough(s.pending, es) && Step(cfg, s, e).pending == Fifo.Exec(s.pending, es)
  {
    hide CtxInv, PendingInv;
    if e.Pace? && Enabled(cfg, s, e) {
      PopLoopKeeps(cfg, s, e.attempts);
    }
  }

  /** Over every run, draining included, the list is a queue: the listed and pushed tasks are the popped and
      the still listed ones, in order. */
  lemma {:induction false} ListRun(cfg: Config, s: State, run: seq<Event>)
    requires cfg.Valid() && RunInv(cfg, s)
    ensures var es := History(cfg, s, run);
            && Fifo.Enough(s.pending, es)
            && Exec(cfg, s, run).pending == Fifo.Exec(s.pending, es)
            && s.pending + Fifo.Pushed(es) == Fifo.Popped(s.pending, es) + Exec(cfg, s, run).pending
    decreases |run|
  {
    hide RunInv, Step, ListEvents;
    if run != [] {
      var s1 := Step(cfg, s, run[0]);
      var first, rest := ListEvents(cfg, s, run[0]), History(cfg, s1, run[1..]);
      ListStep(cfg, s, run[0]);
      StepKeeps(cfg, s, run[0]);
      ListRun(cfg, s1, run[1..]);
      if first == [] {
        assert first + rest == rest;
      } else {
        assert first[1..] == [] && (first + rest)[0] == first[0] && (first + rest)[1..] == rest;
      }
    }
    Fifo.FifoLaw(s.pending, History(cfg, s, run));
  }

  // ---------------------------------------------------------------- offsets and directions

  /** The submissions on context `k` of one event. */
  ghost function StepEntries(cfg: Config, s: State, e: Event, k: nat): seq<Entry>
    requires k < |s.ctxs|
  {
    if !Enabled(cfg, s, e) then []
    else if e.Retry? && e.ctx == k then
      TL.PassEntries(cfg.ctxs[k], s.ctxs[k].submitted, s.ctxs[k].queued, e.attempts)
    else if e.Pace? then PopEntries(s.pending, e.attempts, Taken(cfg, s), k)
    else []
  }

  /** Those of the first `n` entries of the list that belong to context `k`. */
  ghost function PopEntries(pending: seq<Ref>, attempts: seq<T.Attempt>, n: nat, k: nat): seq<Entry> {
    if n == 0 || pending == [] || attempts == [] then []
    else (if pending[0].ctx == k then [Entry(pending[0].task, attempts[0].choice, attempts[0].accept)] else [])
         + PopEntries(pending[1..], attempts[1..], n - 1, k)
  }

  ghost function Log(cfg: Config, s: State, run: seq<Event>, k: nat): seq<Entry>
    requires cfg.Valid() && k < |s.ctxs| == |cfg.ctxs|
    decreases |run|
  {
    StepLength(cfg, s, if run == [] then WarmupReset else run[0]);
    if run == [] then [] else StepEntries(cfg, s, run[0], k) + Log(cfg, Step(cfg, s, run[0]), run[1..], k)
  }

  lemma {:induction false} PopLoopLength(cfg: Config, s: State, attempts: seq<T.Attempt>)
    requires cfg.Valid() && |s.ctxs| == |cfg.ctxs|
    ensures |PopLoop(cfg, s, attempts).ctxs| == |cfg.ctxs|
    decreases |attempts|
  {
    if s.submitBatch < cfg.target && attempts != [] && s.pending != [] && IsTask(s, s.pending[0]) {
      PopLoopLength(cfg, PopOne(cfg, s, attempts[0]), attempts[1..]);
    }
  }

  lemma {:induction false} StepLength(cfg: Config, s: State, e: Event)
    requires cfg.Valid() && |s.ctxs| == |cfg.ctxs|
    ensures |Step(cfg, s, e).ctxs| == |cfg.ctxs|
  {
    if e.Pace? {
      PopLoopLength(cfg, s, e.attempts);
    }
  }

  ghost predicate Logged(cfg: Config, s: State, log: seq<Entry>, k: nat)
    requires cfg.Valid() && k < |s.ctxs| == |cfg.ctxs|
  {
    TL.LoggedBut(cfg.ctxs[k], s.ctxs[k], log, -1)
  }

  lemma {:induction false} PopLogs(cfg: Config, s: State, a: T.Attempt, log: seq<Entry>, k: nat)
    requires cfg.Valid() && k < |s.ctxs| == |cfg.ctxs| && s.pending != [] && IsTask(s, s.pending[0])
    requires Logged(cfg, s, log, k)
    ensures var r := s.pending[0];
            Logged(cfg, PopOne(cfg, s, a), log + (if r.ctx == k then [Entry(r.task, a.choice, a.accept)] else []), k)
  {
    hide TL.Shows, T.Submit;
    assert log + [] == log;
    var r := s.pending[0];
    if r.ctx == k {
      TL.SubmitLogs(cfg.ctxs[k], s.ctxs[k], r.task, a, log);
    }
  }

  lemma {:induction false} PopLoopLogs(cfg: Config, s: State, attempts: seq<T.Attempt>, log: seq<Entry>, k: nat)
    requires cfg.Valid() && ListInv(cfg, s) && k < |s.ctxs| && cfg.target <= s.submitBatch + |attempts|
    requires Logged(cfg, s, log, k)
    ensures |PopLoop(cfg, s, attempts).ctxs| == |cfg.ctxs|
    ensures Logged(cfg, PopLoop(cfg, s, attempts), log + PopEntries(s.pending, attempts, Taken(cfg, s), k), k)
    decreases |attempts|
  {
    hide CtxInv, PendingInv, Logged, T.Submit;
    assert log + [] == log;
    if s.submitBatch < cfg.target && s.pending != [] {
      var r, a := s.pending[0], attempts[0];
      PopKeeps(cfg, s, a);
      var s1 := PopOne(cfg, s, a);
      var first := if r.ctx == k then [Entry(r.task, a.choice, a.accept)] else [];
      var rest := PopEntries(s1.pending, attempts[1..], Taken(cfg, s1), k);
      PopLogs(cfg, s, a, log, k);
      PopLoopLogs(cfg, s1, attempts[1..], log + first, k);
      PopUnfold(cfg, s, attempts);
      assert log + first + rest == log + (first + rest);
    }
  }

  lemma {:induction false} DeliverLogs(cfg: Config, s: State, r: Ref, log: seq<Entry>, k: nat)
    requires cfg.Valid() && k < |s.ctxs| == |cfg.ctxs| && IsTask(s, r) && Logged(cfg, s, log, k)
    requires s.ctxs[r.ctx].tasks[r.task].status == T.InFlight
    ensures Logged(cfg, TaskComplete(s, r), log, k)
  {
    hide OffsetOf, CursorOf, PickRead;
  }

  lemma {:induction false} RetryLogs(cfg: Config, s: State, attempts: seq<T.Attempt>, log: seq<Entry>, k: nat)
    requires cfg.Valid() && k < |s.ctxs| == |cfg.ctxs| && CtxInv(cfg.ctxs[k], s.ctxs[k]) && Logged(cfg, s, log, k)
    requires Enabled(cfg, s, Retry(k, attempts))
    ensures Logged(cfg, Step(cfg, s, Retry(k, attempts)), log + StepEntries(cfg, s, Retry(k, attempts), k), k)
  {
    hide T.Inv, TL.Shows;
    TL.RetryLogs(cfg.ctxs[k], s.ctxs[k].(queued := []), s.ctxs[k].queued, attempts, log);
  }

  lemma {:induction false} StepLogs(cfg: Config, s: State, e: Event, log: seq<Entry>, k: nat)
    requires cfg.Valid() && RunInv(cfg, s) && k < |s.ctxs| && Logged(cfg, s, log, k)
    ensures |Step(cfg, s, e).ctxs| == |cfg.ctxs|
    ensures Logged(cfg, Step(cfg, s, e), log + StepEntries(cfg, s, e, k), k)
  {
    hide PendingInv, CtxInv, TL.Shows;
    assert log + [] == log;
    StepLength(cfg, s, e);
    if Enabled(cfg, s, e) {
      match e
      case Deliver(r) => DeliverLogs(cfg, s, r, log, k);
      case Retry(j, attempts) =>
        if j == k {
          RetryLogs(cfg, s, attempts, log, k);
        }
      case Pace(attempts) => PopLoopLogs(cfg, s, attempts, log, k);
      case SetDraining(_) =>
      case WarmupReset =>
    }
  }

  lemma {:induction false} RunLogs(cfg: Config, s: State, run: seq<Event>, log: seq<Entry>, k: nat)
    requires cfg.Valid() && RunInv(cfg, s) && k < |s.ctxs| && Logged(cfg, s, log, k)
    ensures |Exec(cfg, s, run).ctxs| == |cfg.ctxs|
    ensures Logged(cfg, Exec(cfg, s, run), log + Log(cfg, s, run, k), k)
    decreases |run|
  {
    hide ListInv, Step, Logged, StepEntries;
    HasContexts(cfg, s);
    if run == [] {
      assert log + [] == log;
    } else {
      var s1 := Step(cfg, s, run[0]);
      var first := StepEntries(cfg, s, run[0], k);
      StepLogs(cfg, s, run[0], log, k);
      StepKeeps(cfg, s, run[0]);
      RunLogs(cfg, s1, run[1..], log + first, k);
      assert log + (first + Log(cfg, s1, run[1..], k)) == log + first + Log(cfg, s1, run[1..], k);
    }
  }

  lemma {:induction false} HasContexts(cfg: Config, s: State)
    requires cfg.Valid() && ListInv(cfg, s)
    ensures |s.ctxs| == |cfg.ctxs|
  {
  }

  /** In every paced run every task of a context is where its latest submission put it, popped or retried. If
      that was the n-th of the context, rejected ones counted: in sequential mode it is at n modulo the size, in
      the other modes at what the generator drew, and its direction is what the roll decided. */
  lemma {:induction false} OffsetLaw(cfg: Config, run: seq<Event>, r: Ref)
    requires cfg.Valid() && r.ctx < |cfg.ctxs|
    ensures var c := Exec(cfg, Init(cfg), run).ctxs;
            var log := Log(cfg, Init(cfg), run, r.ctx);
            && |c| == |cfg.ctxs|
            && c[r.ctx].cursor == CursorOf(cfg.ctxs[r.ctx].mode, cfg.ctxs[r.ctx].size, |log|)
            && (r.task < |c[r.ctx].tasks| ==>
                  TL.Shows(cfg.ctxs[r.ctx], c[r.ctx].tasks[r.task], log, Last(log, r.task)))
  {
    InitHolds(cfg);
    RunLogs(cfg, Init(cfg), run, [], r.ctx);
    assert [] + Log(cfg, Init(cfg), run, r.ctx) == Log(cfg, Init(cfg), run, r.ctx);
  }

  // ---------------------------------------------------------------- counters

  ghost predicate NoReset(run: seq<Event>) { forall i :: 0 <= i < |run| ==> run[i] != WarmupReset }

  lemma {:induction false} PopLoopCarry(cfg: Config, s: State, attempts: seq<T.Attempt>, k: nat)
    requires cfg.Valid() && k < |s.ctxs| == |cfg.ctxs|
    ensures var s' := PopLoop(cfg, s, attempts);
            |s'.ctxs| == |cfg.ctxs| && TR.Carry(s'.ctxs[k]) == TR.Carry(s.ctxs[k])
    decreases |attempts|
  {
    if s.submitBatch < cfg.target && attempts != [] && s.pending != [] && IsTask(s, s.pending[0]) {
      PopLoopCarry(cfg, PopOne(cfg, s, attempts[0]), attempts[1..], k);
    }
  }

  lemma {:induction false} CarryStep(cfg: Config, s: State, e: Event, k: nat)
    requires cfg.Valid() && RunInv(cfg, s) && k < |s.ctxs| && e != WarmupReset
    ensures var s' := Step(cfg, s, e);
            |s'.ctxs| == |s.ctxs| && TR.Carry(s'.ctxs[k]) == TR.Carry(s.ctxs[k])
  {
    hide PendingInv, CtxInv;
    if Enabled(cfg, s, e) {
      match e
      case Deliver(r) =>
        assert CtxInv(cfg.ctxs[r.ctx], s.ctxs[r.ctx]);
        HasDepth(cfg.ctxs[r.ctx], s.ctxs[r.ctx], r.task);
      case Retry(j, attempts) =>
        TR.RetryCarry(cfg.ctxs[j], s.ctxs[j].(queued := []), s.ctxs[j].queued, attempts);
      case Pace(attempts) => PopLoopCarry(cfg, s, attempts, k);
      case SetDraining(_) =>
    }
  }

  lemma {:induction false} HasDepth(cfg: T.Config, c: T.State, t: nat)
    requires cfg.Valid() && CtxInv(cfg, c) && t < |c.tasks| && c.tasks[t].status == T.InFlight
    ensures c.depth >= 1
  {
    T.AccountKeeps(Uncapped(cfg), c, t, []);
  }

  lemma {:induction false} CarryFixed(cfg: Config, s: State, run: seq<Event>, k: nat)
    requires cfg.Valid() && RunInv(cfg, s) && k < |s.ctxs| && NoReset(run)
    ensures var s' := Exec(cfg, s, run);
            |s'.ctxs| == |s.ctxs| && TR.Carry(s'.ctxs[k]) == TR.Carry(s.ctxs[k])
    decreases |run|
  {
    hide RunInv, Step;
    if run != [] {
      CarryStep(cfg, s, run[0], k);
      StepKeeps(cfg, s, run[0]);
      CarryFixed(cfg, Step(cfg, s, run[0]), run[1..], k);
    }
  }

  /** Without a warm-up reset submitted equals completed plus in flight on every context, draining or not. */
  lemma {:induction false} CountersBalance(cfg: Config, run: seq<Event>, k: nat)
    requires cfg.Valid() && k < |cfg.ctxs| && NoReset(run)
    ensures var c := Exec(cfg, Init(cfg), run).ctxs;
            |c| == |cfg.ctxs| && c[k].submitted == c[k].completed + c[k].depth
  {
    hide ListInv;
    EveryRun(cfg, []);
    CarryFixed(cfg, Init(cfg), run, k);
  }

  /** After a warm-up reset the imbalance stays what was in flight at the reset. */
  lemma {:induction false} WarmupCarry(cfg: Config, before: seq<Event>, after: seq<Event>, k: nat)
    requires cfg.Valid() && k < |cfg.ctxs| && NoReset(after)
    requires Enabled(cfg, Exec(cfg, Init(cfg), before), WarmupReset)
    ensures var s0 := Exec(cfg, Init(cfg), before);
            var s := Exec(cfg, Step(cfg, s0, WarmupReset), after);
            && |s0.ctxs| == |s.ctxs| == |cfg.ctxs|
            && s.ctxs[k].submitted + s0.ctxs[k].depth == s.ctxs[k].completed + s.ctxs[k].depth
  {
    hide ListInv;
    var s0 := Exec(cfg, Init(cfg), before);
    EveryRun(cfg, before);
    StepKeeps(cfg, s0, WarmupReset);
    CarryFixed(cfg, Step(cfg, s0, WarmupReset), after, k);
  }
}
