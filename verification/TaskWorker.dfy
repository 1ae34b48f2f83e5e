/** One namespace context of the plain engine, its tasks and its queue updated in place. */
module TaskWorker {
  import opened Arith
  import opened Counting
  import opened Workload
  import opened TaskLifecycle
  import opened TaskRuns

  class NsWorker {
    const cfg: Config
    var tasks: seq<Task>
    var queued: seq<nat>
    var depth: nat
    var submitted: nat
    var completed: nat
    var draining: bool
    var cursor: nat
    var failed: bool
    var freed: seq<nat>

    function View(): State
      reads this
    {
      State(tasks, queued, depth, submitted, completed, draining, cursor, failed, freed)
    }

    ghost predicate Valid()
      reads this
    {
      cfg.Valid() && RunInv(cfg, View())
    }

    constructor (cfg: Config)
      requires cfg.Valid()
      ensures this.cfg == cfg && View() == Init(cfg) && Valid()
    {
      this.cfg := cfg;
      tasks, queued, freed := [], [], [];
      depth, submitted, completed, cursor := 0, 0, 0, 0;
      draining, failed := false, false;
      new;
      EveryRun(cfg, []);
    }

    /** `submit_single_io`. */
    method SubmitSingleIo(t: nat, a: Attempt)
      requires cfg.Valid() && t < |tasks| && !draining
      modifies this
      ensures View() == Submit(cfg, old(View()), t, a)
    {
      var offset := PickOffset(cfg.mode, cursor, cfg.size, a.choice);
      cursor := NextCursor(cfg.mode, cursor, cfg.size);
      tasks := tasks[t := tasks[t].(offset := offset, isRead := PickRead(cfg.rwPercentage, a.choice))];
      if !a.accept {
        if cfg.continueOnError {
          tasks := tasks[t := tasks[t].(status := Queued)];
          queued := queued + [t];
        } else {
          tasks := tasks[t := tasks[t].(status := Freed)];
          freed := freed + [t];
          failed := true;
        }
      } else {
        tasks := tasks[t := tasks[t].(status := InFlight)];
        depth := depth + 1;
        submitted := submitted + 1;
      }
      if cfg.cap > 0 && submitted >= cfg.cap {
        draining := true;
      }
    }

    /** `task_complete`. */
    method TaskComplete(t: nat, a: Attempt)
      requires cfg.Valid() && t < |tasks|
      modifies this
      ensures View() == Complete(cfg, old(View()), t, a)
    {
      depth := Dec64(depth);
      completed := completed + 1;
      if draining {
        tasks := tasks[t := tasks[t].(status := Freed)];
        freed := freed + [t];
      } else {
        SubmitSingleIo(t, a);
      }
    }

    /** `io_complete`: looks at the status, then completes the task. */
    method IoComplete(t: nat, error: bool, hotplug: bool, a: Attempt)
      requires Valid() && |tasks| == cfg.queueDepth && t < |tasks| && tasks[t].status == InFlight
      modifies this
      ensures Valid() && |tasks| == cfg.queueDepth
      ensures View() == Step(cfg, if error then Step(cfg, old(View()), Error(hotplug)) else old(View()), Deliver(t, a))
    {
      hide Inv, Submit;
      if error && !cfg.continueOnError {
        StepKeeps(cfg, View(), Error(hotplug));
        if hotplug {
          draining := true;
        }
        failed := true;
      }
      StepKeeps(cfg, View(), Deliver(t, a));
      TaskComplete(t, a);
    }

    /** `submit_io`: allocates and submits the tasks one by one; none of them finds the context draining. */
    method SubmitIo(attempts: seq<Attempt>)
      requires Valid() && tasks == [] && |attempts| == cfg.queueDepth
      modifies this
      ensures Valid() && |tasks| == cfg.queueDepth
      ensures View() == Exec(cfg, old(View()), seq(|attempts|, i requires 0 <= i < |attempts| => Start(attempts[i])))
    {
      hide Inv, Submit;
      ghost var run := seq(|attempts|, i requires 0 <= i < |attempts| => Start(attempts[i]));
      ghost var s0 := View();
      assert run[0..] == run;
      for i := 0 to cfg.queueDepth
        invariant Valid() && |tasks| == i
        invariant Exec(cfg, s0, run) == Exec(cfg, View(), run[i..])
      {
        assert run[i..][0] == Start(attempts[i]) && run[i..][1..] == run[i + 1..];
        StepKeeps(cfg, View(), Start(attempts[i]));
        tasks := tasks + [Task(Parked, 0, false)];
        SubmitSingleIo(i, attempts[i]);
      }
    }

    /** The retry pass of the main loop: the queue is swapped out and gone through once. */
    method RetryQueued(attempts: seq<Attempt>)
      requires Valid() && !draining && |queued| <= |attempts|
      modifies this
      ensures forall i :: 0 <= i < |old(queued)| ==> old(queued)[i] < old(|tasks|)
      ensures View() == RetryPass(cfg, old(View()), attempts)
    {
      hide Inv, Submit;
      ghost var s0 := View();
      RetryPassKeeps(cfg, s0, attempts);
      var swap := queued;
      queued := [];
      var i := 0;
      while i < |swap|
        invariant 0 <= i <= |swap| && |tasks| == |s0.tasks|
        invariant RetryPass(cfg, s0, attempts) == RetryAll(cfg, View(), swap[i..], attempts[i..])
      {
        var t := swap[i];
        assert swap[i..][0] == t && swap[i..][1..] == swap[i + 1..];
        assert attempts[i..][0] == attempts[i] && attempts[i..][1..] == attempts[i + 1..];
        if draining {
          queued := queued + [t];
        } else {
          SubmitSingleIo(t, attempts[i]);
        }
        i := i + 1;
      }
    }

    /** `cleanup_ns_worker_ctx`. */
    method CleanupNsWorkerCtx()
      requires cfg.Valid() && draining
      requires forall i :: 0 <= i < |queued| ==> queued[i] < |tasks|
      modifies this
      ensures View() == Cleanup(cfg, old(View()))
    {
      ghost var s0 := View();
      while queued != []
        invariant draining && forall i :: 0 <= i < |queued| ==> queued[i] < |tasks|
        invariant Cleanup(cfg, s0) == Cleanup(cfg, View())
        decreases |queued|
      {
        var t := queued[0];
        queued := queued[1..];
        TaskComplete(t, Attempt(Choice(0, 0, 0), false));
      }
    }
  }
}
