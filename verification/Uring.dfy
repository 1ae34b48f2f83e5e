/** The kernel-ring back end: requests prepared, handed to the kernel, and handed back. */
module Uring {
  import opened Counting
  import opened Workload
  import opened TaskLifecycle
  import opened TaskRuns
  import opened TaskWorker

  /** What a completion reports: the whole transfer, a short one, or `-EIO`, the device being gone. */
  datatype Outcome = Full | Short | Gone

  datatype Cqe = Cqe(task: nat, res: Outcome)

  /** Requests that are in flight, each once. */
  predicate InFlightOnce(tasks: seq<Task>, done: seq<Cqe>) {
    && (forall i :: 0 <= i < |done| ==> done[i].task < |tasks| && tasks[done[i].task].status == InFlight)
    && (forall i, j :: 0 <= i < j < |done| ==> done[i].task != done[j].task)
  }

  /** A context with the two counters of its ring. */
  datatype RingView = RingView(io: State, pending: nat, inflight: nat)

  /** A status other than a full transfer marks the context; a vanished device makes it drain. */
  function Mark(s: State, res: Outcome): State {
    if res == Full then s else s.(failed := true, draining := s.draining || res == Gone)
  }

  /** One completion: the status, then `task_complete`, which prepares the task again unless it drains. */
  function OneCqe(cfg: Config, v: RingView, cqe: Cqe, a: Attempt): (w: RingView)
    requires cfg.Valid() && cqe.task < |v.io.tasks|
    ensures |w.io.tasks| == |v.io.tasks| && w.inflight == v.inflight
  {
    var s := Mark(v.io, cqe.res);
    RingView(Complete(cfg, s, cqe.task, a), if !s.draining && a.accept then v.pending + 1 else v.pending, v.inflight)
  }

  /** The delivery loop. */
  function AllCqes(cfg: Config, v: RingView, done: seq<Cqe>, attempts: seq<Attempt>): RingView
    requires cfg.Valid() && |done| == |attempts| && forall i :: 0 <= i < |done| ==> done[i].task < |v.io.tasks|
    decreases |done|
  {
    if done == [] then v else AllCqes(cfg, OneCqe(cfg, v, done[0], attempts[0]), done[1..], attempts[1..])
  }

  /** `uring_check_io`: hand over what is prepared, unless the kernel refuses, then deliver what is done. */
  function Poll(cfg: Config, v: RingView, submitOk: bool, done: seq<Cqe>, attempts: seq<Attempt>): RingView
    requires cfg.Valid() && |done| == |attempts| && forall i :: 0 <= i < |done| ==> done[i].task < |v.io.tasks|
    requires |done| <= if submitOk then v.pending + v.inflight else v.inflight
  {
    if v.pending > 0 && !submitOk then v.(io := v.io.(failed := true))
    else AllCqes(cfg, RingView(v.io, 0, v.pending + v.inflight - |done|), done, attempts)
  }

  /** The kernel can hand back `done`: requests in flight, each once, no more than it has. */
  predicate Possible(v: RingView, r: Round) {
    && |r.attempts| == |r.done| && InFlightOnce(v.io.tasks, r.done)
    && |r.done| <= if r.submitOk then v.pending + v.inflight else v.inflight
  }

  /** A retry pass over the ring: what is accepted is prepared. */
  function RetryRing(cfg: Config, v: RingView, attempts: seq<Attempt>): RingView
    requires cfg.Valid()
  {
    var io := Step(cfg, v.io, Retry(attempts));
    RingView(io, if io.depth >= v.io.depth then v.pending + io.depth - v.io.depth else v.pending, v.inflight)
  }

  /** One round of the main loop. */
  function OneRound(cfg: Config, v: RingView, r: Round): RingView
    requires cfg.Valid()
  {
    var v1 := RetryRing(cfg, v, r.retries);
    var v2 := if Possible(v1, r) then Poll(cfg, v1, r.submitOk, r.done, r.attempts) else v1;
    var io3 := if r.reset then Step(cfg, v2.io, WarmupReset) else v2.io;
    v2.(io := if r.drain then Step(cfg, io3, SetDraining) else io3)
  }

  function AllRounds(cfg: Config, v: RingView, rounds: seq<Round>): RingView
    requires cfg.Valid()
    decreases |rounds|
  {
    if rounds == [] then v else AllRounds(cfg, OneRound(cfg, v, rounds[0]), rounds[1..])
  }

  /** One round of the main loop: the answers to the retries, what the poll finds, and how it ends. */
  datatype Round = Round(retries: seq<Attempt>, submitOk: bool, done: seq<Cqe>, attempts: seq<Attempt>,
                         reset: bool, drain: bool)

  /** After one completion: the task is in flight again, prepared, with the depth as it was, if and only if the
      context does not drain and the submission is accepted; otherwise the depth is one less and nothing is
      prepared. The context has failed if and only if it had, the transfer was not full, or a submission was
      rejected without continue-on-error; it drains if and only if it did, the device is gone, or the cap is
      reached. */
  lemma {:induction false} CqeEffect(cfg: Config, v: RingView, cqe: Cqe, a: Attempt)
    requires cfg.Valid() && RunInv(cfg, v.io) && |v.io.tasks| == cfg.queueDepth
    requires cqe.task < |v.io.tasks| && v.io.tasks[cqe.task].status == InFlight
    ensures var w := OneCqe(cfg, v, cqe, a);
            var stops := v.io.draining || cqe.res == Gone;
            && RunInv(cfg, w.io) && w.io.completed == v.io.completed + 1
            && (forall u :: 0 <= u < |v.io.tasks| && u != cqe.task ==> w.io.tasks[u] == v.io.tasks[u])
            && (if !stops && a.accept
                then w.io.tasks[cqe.task].status == InFlight && w.io.depth == v.io.depth && w.pending == v.pending + 1
                else w.io.tasks[cqe.task].status != InFlight && w.io.depth == v.io.depth - 1 && w.pending == v.pending)
            && (w.io.failed <==> v.io.failed || cqe.res != Full || (!stops && !a.accept && !cfg.continueOnError))
            && (w.io.draining <==> stops || (a.accept && cfg.cap > 0 && v.io.submitted + 1 >= cfg.cap))
  {
    hide Lists;
    MarkKeeps(cfg, v.io, cqe.res);
    CompletionEffect(cfg, Mark(v.io, cqe.res), cqe.task, a);
  }

  /** A round with enough answers retries the whole queue: if the device takes everything, nothing is left in
      it and as many requests are prepared. */
  lemma {:induction false} RoundRetries(cfg: Config, v: RingView, attempts: seq<Attempt>)
    requires cfg.Valid() && cfg.continueOnError && cfg.cap == 0 && RunInv(cfg, v.io)
    requires |v.io.tasks| == cfg.queueDepth && !v.io.draining && |v.io.queued| <= |attempts|
    requires forall i :: 0 <= i < |attempts| ==> attempts[i].accept
    ensures var w := OneRound(cfg, v, Round(attempts, true, [], [], false, false));
            w.io.queued == [] && w.pending + w.inflight == v.pending + v.inflight + |v.io.queued|
  {
    hide Inv, Submit;
    var s := v.io.(queued := []);
    QueueInRange(cfg, v.io);
    RetryOrder(cfg, s, v.io.queued, attempts);
    NoneRejected(v.io.queued[..Attempted(cfg, s, v.io.queued, attempts)], attempts);
    RetryCarry(cfg, s, v.io.queued, attempts);
    NeverDrains(cfg, s, v.io.queued, attempts);
  }

  lemma {:induction false} NoneRejected(list: seq<nat>, attempts: seq<Attempt>)
    requires |list| <= |attempts| && forall i :: 0 <= i < |attempts| ==> attempts[i].accept
    ensures Rejected(list, attempts) == []
  {
    if list != [] {
      NoneRejected(list[1..], attempts[1..]);
    }
  }

  lemma {:induction false} NeverDrains(cfg: Config, s: State, swap: seq<nat>, attempts: seq<Attempt>)
    requires cfg.Valid() && cfg.cap == 0 && !s.draining && |swap| <= |attempts|
    requires forall i :: 0 <= i < |swap| ==> swap[i] < |s.tasks|
    ensures !RetryAll(cfg, s, swap, attempts).draining
    ensures RetryAll(cfg, s, swap, attempts).completed == s.completed
    decreases |swap|
  {
    if swap != [] {
      NeverDrains(cfg, RetryOne(cfg, s, swap[0], attempts[0]), swap[1..], attempts[1..]);
    }
  }

  class Ring {
    const io: NsWorker
    var ioPending: nat
    var ioInflight: nat
    const cqes: array<Cqe>

    /** Every request counted in the queue depth is either prepared or in the kernel. */
    ghost predicate Valid()
      reads this, io
    {
      io.Valid() && cqes.Length == io.cfg.queueDepth && ioPending + ioInflight == io.depth
    }

    function View(): RingView
      reads this, io
    {
      RingView(io.View(), ioPending, ioInflight)
    }

    /** All tasks have been allocated. */
    ghost predicate Started()
      reads this, io
    {
      |io.tasks| == io.cfg.queueDepth
    }

    /** `uring_init_ns_worker_ctx`, on a context that has submitted nothing: both counters are 0. */
    constructor (io: NsWorker)
      requires io.Valid() && io.View() == Init(io.cfg)
      ensures Valid() && this.io == io && fresh(cqes) && ioPending == ioInflight == 0
    {
      this.io := io;
      cqes := new Cqe[io.cfg.queueDepth](_ => Cqe(0, Full));
      ioPending, ioInflight := 0, 0;
    }

    /** `uring_submit_io`: a request is prepared if the ring has an entry left. */
    method UringSubmitIo(entry: bool) returns (rc: int)
      modifies this`ioPending
      ensures rc == (if entry then 0 else -1) && ioPending == old(ioPending) + if entry then 1 else 0
    {
      if !entry {
        return -1;
      }
      ioPending := ioPending + 1;
      return 0;
    }

    /** `submit_single_io` over the ring: an accepted submission counts in both books. */
    method SubmitSingleIo(t: nat, a: Attempt)
      requires io.cfg.Valid() && t < |io.tasks| && !io.draining
      modifies this`ioPending, io
      ensures io.View() == Submit(io.cfg, old(io.View()), t, a)
      ensures ioPending - io.depth == old(ioPending - io.depth) && io.depth >= old(io.depth)
    {
      var rc := UringSubmitIo(a.accept);
      io.SubmitSingleIo(t, Attempt(a.choice, rc == 0));
    }

    /** `submit_io` over the ring. */
    method SubmitIo(attempts: seq<Attempt>)
      requires Valid() && io.tasks == [] && |attempts| == io.cfg.queueDepth
      modifies this`ioPending, io
      ensures Valid() && Started() && ioInflight == old(ioInflight)
      ensures io.View() == Exec(io.cfg, old(io.View()),
                                seq(|attempts|, i requires 0 <= i < |attempts| => Start(attempts[i])))
    {
      hide Inv, Submit;
      ghost var run := seq(|attempts|, i requires 0 <= i < |attempts| => Start(attempts[i]));
      ghost var s0 := io.View();
      assert run[0..] == run;
      for i := 0 to io.cfg.queueDepth
        invariant Valid() && |io.tasks| == i
        invariant Exec(io.cfg, s0, run) == Exec(io.cfg, io.View(), run[i..])
      {
        assert run[i..][0] == Start(attempts[i]) && run[i..][1..] == run[i + 1..];
        StepKeeps(io.cfg, io.View(), Start(attempts[i]));
        io.tasks := io.tasks + [Task(Parked, 0, false)];
        SubmitSingleIo(i, attempts[i]);
      }
    }

    /** The retry pass between two polls, over the ring. */
    method RetryQueued(attempts: seq<Attempt>)
      requires Valid() && Started() && io.cfg.continueOnError && !io.draining && |io.queued| <= |attempts|
      modifies this`ioPending, io
      ensures Valid() && Started()
      ensures io.View() == Step(io.cfg, old(io.View()), Retry(attempts)) && io.depth >= old(io.depth)
    {
      hide Inv, Submit;
      ghost var s0 := io.View();
      RetryPassKeeps(io.cfg, s0, attempts);
      StepKeeps(io.cfg, s0, Retry(attempts));
      var swap := io.queued;
      io.queued := [];
      var i := 0;
      while i < |swap|
        invariant 0 <= i <= |swap| && |io.tasks| == |s0.tasks|
        invariant RetryPass(io.cfg, s0, attempts) == RetryAll(io.cfg, io.View(), swap[i..], attempts[i..])
        invariant ioPending + ioInflight == io.depth >= old(io.depth)
      {
        var t := swap[i];
        assert swap[i..][0] == t && swap[i..][1..] == swap[i + 1..];
        assert attempts[i..][0] == attempts[i] && attempts[i..][1..] == attempts[i + 1..];
        if io.draining {
          io.queued := io.queued + [t];
        } else {
          SubmitSingleIo(t, attempts[i]);
        }
        i := i + 1;
      }
    }

    /** `io_uring_peek_batch_cqe`: the kernel fills the first slots with requests it has finished. */
    method PeekBatch(done: seq<Cqe>) returns (count: nat)
      requires |done| <= cqes.Length
      modifies cqes
      ensures count == |done| && cqes[..count] == done
    {
      count := |done|;
      for i := 0 to count
        invariant forall j :: 0 <= j < i ==> cqes[j] == done[j]
      {
        cqes[i] := done[i];
      }
    }

    /** `uring_check_io`. The kernel may refuse the submission, and finishes any of the requests in flight,
        at most `ioInflight`; each delivery may prepare a new request. */
    method CheckIo(submitOk: bool, done: seq<Cqe>, attempts: seq<Attempt>) returns (count: int)
      requires Valid() && Started() && |attempts| == |done| && InFlightOnce(io.tasks, done)
      requires |done| <= if submitOk then ioPending + ioInflight else ioInflight
      modifies this, io, cqes
      ensures Valid() && Started()
      ensures View() == Poll(io.cfg, old(View()), submitOk, done, attempts)
      ensures count == if old(ioPending) > 0 && !submitOk then -1 else |done|
      ensures count >= 0 ==> io.completed == old(io.completed) + |done|
    {
      hide RunInv, OneCqe;
      EveryDepthBounded(io.cfg, io.View());
      MarkKeeps(io.cfg, io.View(), Short);
      if ioPending > 0 {
        if !submitOk {
          io.failed := true;
          return -1;
        }
        ioInflight := ioInflight + ioPending;
        ioPending := 0;
      }
      count := 0;
      if ioInflight > 0 {
        count := PeekBatch(done);
        ioInflight := ioInflight - count;
        Deliver(count, done, attempts);
      }
    }

    /** The delivery loop: inside it the undelivered completions make up the difference. */
    method Deliver(count: nat, ghost done: seq<Cqe>, attempts: seq<Attempt>)
      requires io.Valid() && Started() && cqes.Length == io.cfg.queueDepth
      requires count <= cqes.Length && cqes[..count] == done && |attempts| == count && InFlightOnce(io.tasks, done)
      requires ioPending + ioInflight + count == io.depth
      modifies this, io
      ensures Valid() && Started() && io.completed == old(io.completed) + count
      ensures View() == AllCqes(io.cfg, old(View()), done, attempts)
    {
      hide RunInv, OneCqe;
      ghost var v0 := View();
      assert done[0..] == done && attempts[0..] == attempts;
      for i := 0 to count
        invariant io.Valid() && Started()
        invariant forall j :: i <= j < count ==> done[j].task < |io.tasks| && io.tasks[done[j].task].status == InFlight
        invariant ioPending + ioInflight + (count - i) == io.depth
        invariant io.completed == old(io.completed) + i
        invariant AllCqes(io.cfg, v0, done, attempts) == AllCqes(io.cfg, View(), done[i..], attempts[i..])
      {
        assert cqes[i] == done[i];
        assert done[i..][0] == done[i] && done[i..][1..] == done[i + 1..];
        assert attempts[i..][0] == attempts[i] && attempts[i..][1..] == attempts[i + 1..];
        DeliverOne(cqes[i], attempts[i]);
      }
    }

    /** One completion: note an error status, then complete the task, which may prepare it again. */
    method DeliverOne(cqe: Cqe, a: Attempt)
      requires io.Valid() && Started()
      requires cqe.task < |io.tasks| && io.tasks[cqe.task].status == InFlight
      modifies this`ioPending, io
      ensures io.Valid() && Started()
      ensures View() == OneCqe(io.cfg, old(View()), cqe, a)
      ensures forall u :: 0 <= u < |io.tasks| && u != cqe.task ==> io.tasks[u] == old(io.tasks[u])
      ensures ioPending - io.depth == old(ioPending - io.depth) + 1
      ensures io.completed == old(io.completed) + 1
    {
      hide Inv, Submit;
      CqeEffect(io.cfg, View(), cqe, a);
      if cqe.res != Full {
        io.failed := true;
        if cqe.res == Gone {
          io.draining := true;
        }
      }
      if !io.draining {
        var rc := UringSubmitIo(a.accept);
      }
      io.TaskComplete(cqe.task, a);
    }

    /** `work_fn` over the ring, from the first submission on: retry passes and polls in turn, with a drain or
        a warm-up reset in between. Whatever the kernel does, the state is that of the rounds, and the two
        books agree after every one of them. */
    method WorkFn(starts: seq<Attempt>, rounds: seq<Round>)
      requires Valid() && io.tasks == [] && |starts| == io.cfg.queueDepth
      modifies this, io, cqes
      ensures Valid() && Started()
      ensures var io0 := Exec(io.cfg, old(io.View()), seq(|starts|, i requires 0 <= i < |starts| => Start(starts[i])));
              View() == AllRounds(io.cfg, RingView(io0, io0.depth, 0), rounds)
    {
      hide RunInv, OneRound, Exec;
      NoTasksNoDepth(io.cfg, io.View());
      SubmitIo(starts);
      ghost var v0 := View();
      assert rounds[0..] == rounds;
      for i := 0 to |rounds|
        invariant Valid() && Started()
        invariant AllRounds(io.cfg, v0, rounds) == AllRounds(io.cfg, View(), rounds[i..])
      {
        assert rounds[i..][0] == rounds[i] && rounds[i..][1..] == rounds[i + 1..];
        OnePass(rounds[i]);
      }
    }

    method OnePass(r: Round)
      requires Valid() && Started()
      modifies this, io, cqes
      ensures Valid() && Started()
      ensures View() == OneRound(io.cfg, old(View()), r)
    {
      hide RunInv, Step, Poll;
      RetryIfAny(r.retries);
      if Possible(View(), r) {
        var count := CheckIo(r.submitOk, r.done, r.attempts);
      }
      EndRound(r.reset, r.drain);
    }

    method RetryIfAny(retries: seq<Attempt>)
      requires Valid() && Started()
      modifies this`ioPending, io
      ensures Valid() && Started()
      ensures View() == RetryRing(io.cfg, old(View()), retries)
    {
      hide Inv;
      QueueInRange(io.cfg, io.View());
      if io.cfg.continueOnError && !io.draining && |io.queued| <= |retries| {
        RetryQueued(retries);
      }
    }

    method EndRound(reset: bool, drain: bool)
      requires Valid() && Started()
      modifies io
      ensures Valid() && Started()
      ensures var io1 := if reset then Step(io.cfg, old(io.View()), WarmupReset) else old(io.View());
              View() == old(View()).(io := if drain then Step(io.cfg, io1, SetDraining) else io1)
    {
      hide RunInv;
      if reset && io.cfg.warmup {
        StepKeeps(io.cfg, io.View(), WarmupReset);
        io.submitted, io.completed := 0, 0;
      }
      if drain {
        StepKeeps(io.cfg, io.View(), SetDraining);
        io.draining := true;
      }
    }
  }

  lemma {:induction false} NoTasksNoDepth(cfg: Config, s: State)
    requires cfg.Valid() && RunInv(cfg, s) && s.tasks == []
    ensures s.depth == 0
  {
  }

  lemma {:induction false} QueueInRange(cfg: Config, s: State)
    requires cfg.Valid() && RunInv(cfg, s)
    ensures forall i :: 0 <= i < |s.queued| ==> s.queued[i] < |s.tasks|
  {
    assert s.queued + [] == s.queued;
    assert forall i :: 0 <= i < |s.queued| ==> s.queued[i] in s.queued;
  }

  /** An error status touches no task and no counter. */
  lemma {:induction false} MarkKeeps(cfg: Config, s: State, res: Outcome)
    requires cfg.Valid() && RunInv(cfg, s) && |s.tasks| == cfg.queueDepth
    ensures RunInv(cfg, Mark(s, res))
  {
  }

  /** A completion changes only its own task, and the depth falls by one unless the task goes out again. */
  lemma {:induction false} CompletionEffect(cfg: Config, s: State, t: nat, a: Attempt)
    requires cfg.Valid() && RunInv(cfg, s) && |s.tasks| == cfg.queueDepth
    requires t < |s.tasks| && s.tasks[t].status == InFlight
    ensures var s' := Complete(cfg, s, t, a);
            && RunInv(cfg, s') && |s'.tasks| == |s.tasks|
            && (forall u :: 0 <= u < |s.tasks| && u != t ==> s'.tasks[u] == s.tasks[u])
            && s'.depth == s.depth - (if !s.draining && a.accept then 0 else 1)
            && s'.completed == s.completed + 1
  {
    TaskRuns.StepKeeps(cfg, s, TaskRuns.Deliver(t, a));
    AccountKeeps(cfg, s, t, []);
  }

  /** So a peek for everything in flight fits the completion array. */
  lemma {:induction false} EveryDepthBounded(cfg: Config, s: State)
    requires cfg.Valid() && RunInv(cfg, s)
    ensures s.depth <= cfg.queueDepth
  {
  }
}
