/** What the submissions of a run leave at the tasks of a context, and what made the context fail or drain. */
module TaskLog {
  import opened Counting
  import opened Workload
  import opened SubmissionLog
  import opened TaskLifecycle
  import opened TaskRuns

  // ---------------------------------------------------------------- the log of a run

  /** The submissions of a retry pass: the queue in order, until the accepted ones reach the cap. */
  ghost function PassEntries(cfg: Config, submitted: nat, swap: seq<nat>, attempts: seq<Attempt>): seq<Entry>
    requires |swap| <= |attempts|
    decreases |swap|
  {
    if swap == [] || (cfg.cap > 0 && submitted >= cfg.cap) then []
    else
      [Entry(swap[0], attempts[0].choice, attempts[0].accept)]
      + PassEntries(cfg, if attempts[0].accept then submitted + 1 else submitted, swap[1..], attempts[1..])
  }

  /** The submissions of one event. */
  ghost function StepEntries(cfg: Config, s: State, e: Event): seq<Entry> {
    if !Enabled(cfg, s, e) then []
    else
      match e
      case Start(a) => [Entry(|s.tasks|, a.choice, a.accept)]
      case Deliver(t, a) => if s.draining then [] else [Entry(t, a.choice, a.accept)]
      case Retry(attempts) => PassEntries(cfg, s.submitted, s.queued, attempts)
      case Error(_) => []
      case SetDraining => []
      case WarmupReset => []
  }

  ghost function Log(cfg: Config, s: State, run: seq<Event>): seq<Entry>
    requires cfg.Valid()
    decreases |run|
  {
    if run == [] then [] else StepEntries(cfg, s, run[0]) + Log(cfg, Step(cfg, s, run[0]), run[1..])
  }

  // ---------------------------------------------------------------- offsets and directions

  /** The task shows its latest submission: offset, direction, and the device's answer. A task that was never
      submitted is held by the engine. */
  ghost predicate Shows(cfg: Config, task: Task, log: seq<Entry>, n: int)
    requires cfg.Valid() && n < |log|
  {
    if n < 0 then task.status == Parked
    else
      && task.offset == OffsetOf(cfg.mode, cfg.size, cfg.size, n, log[n].choice)
      && task.isRead == PickRead(cfg.rwPercentage, log[n].choice)
      && (task.status == InFlight ==> log[n].accept)
      && (task.status == Queued ==> !log[n].accept)
  }

  /** Every task but `t` shows its latest submission. */
  ghost predicate LoggedBut(cfg: Config, s: State, log: seq<Entry>, t: int)
    requires cfg.Valid()
  {
    && s.cursor == CursorOf(cfg.mode, cfg.size, |log|)
    && forall u :: 0 <= u < |s.tasks| && u != t ==> Shows(cfg, s.tasks[u], log, Last(log, u))
  }

  lemma {:induction false} SubmitLogs(cfg: Config, s: State, t: nat, a: Attempt, log: seq<Entry>)
    requires cfg.Valid() && t < |s.tasks| && LoggedBut(cfg, s, log, t)
    ensures LoggedBut(cfg, Submit(cfg, s, t, a), log + [Entry(t, a.choice, a.accept)], -1)
  {
    hide OffsetOf, CursorOf, PickRead, PickOffset, NextCursor;
    var e := Entry(t, a.choice, a.accept);
    var s' := Submit(cfg, s, t, a);
    Draws(cfg.mode, cfg.size, cfg.size, |log|, a.choice);
    forall u | 0 <= u < |s'.tasks|
      ensures Shows(cfg, s'.tasks[u], log + [e], Last(log + [e], u))
    {
      LastAppend(log, e, u);
      if u != t {
        assert s'.tasks[u] == s.tasks[u] && Shows(cfg, s.tasks[u], log, Last(log, u));
      }
    }
  }

  lemma {:induction false} Requeued(cfg: Config, s: State, queued: seq<nat>, log: seq<Entry>)
    requires cfg.Valid() && LoggedBut(cfg, s, log, -1)
    ensures LoggedBut(cfg, s.(queued := queued), log, -1)
    ensures forall t: nat :: LoggedBut(cfg, s, log, t)
  {
  }

  lemma {:induction false} SubmitCounts(cfg: Config, s: State, t: nat, a: Attempt)
    requires cfg.Valid() && t < |s.tasks|
    ensures Submit(cfg, s, t, a).submitted == if a.accept then s.submitted + 1 else s.submitted
  {
  }

  lemma {:induction false} RetryLogs(cfg: Config, s: State, swap: seq<nat>, attempts: seq<Attempt>, log: seq<Entry>)
    requires cfg.Valid() && |swap| <= |attempts| && forall i :: 0 <= i < |swap| ==> swap[i] < |s.tasks|
    requires LoggedBut(cfg, s, log, -1) && (s.draining <==> cfg.cap > 0 && s.submitted >= cfg.cap)
    ensures LoggedBut(cfg, RetryAll(cfg, s, swap, attempts), log + PassEntries(cfg, s.submitted, swap, attempts), -1)
    decreases |swap|
  {
    hide LoggedBut, Submit;
    if s.draining {
      RetryDraining(cfg, s, swap, attempts);
      Requeued(cfg, s, s.queued + swap, log);
      assert log + [] == log;
    } else if swap == [] {
      assert log + [] == log;
    } else {
      var a := attempts[0];
      var s1 := Submit(cfg, s, swap[0], a);
      var e := Entry(swap[0], a.choice, a.accept);
      Requeued(cfg, s, s.queued, log);
      SubmitLogs(cfg, s, swap[0], a, log);
      SubmitCounts(cfg, s, swap[0], a);
      RetryLogs(cfg, s1, swap[1..], attempts[1..], log + [e]);
      assert log + [e] + PassEntries(cfg, s1.submitted, swap[1..], attempts[1..])
          == log + ([e] + PassEntries(cfg, s1.submitted, swap[1..], attempts[1..]));
    }
  }

  lemma {:induction false} StepLogs(cfg: Config, s: State, e: Event, log: seq<Entry>)
    requires cfg.Valid() && RunInv(cfg, s) && LoggedBut(cfg, s, log, -1)
    ensures LoggedBut(cfg, Step(cfg, s, e), log + StepEntries(cfg, s, e), -1)
  {
    hide Lists, Submit, OffsetOf, CursorOf, PickRead;
    assert log + [] == log;
    if Enabled(cfg, s, e) {
      match e
      case Start(a) =>
        SubmitLogs(cfg, s.(tasks := s.tasks + [Task(Parked, 0, false)]), |s.tasks|, a, log);
      case Deliver(t, a) =>
        if !s.draining {
          SubmitLogs(cfg, Account(s), t, a, log);
        }
      case Retry(attempts) =>
        RetryLogs(cfg, s.(queued := []), s.queued, attempts, log);
      case Error(_) =>
      case SetDraining =>
      case WarmupReset =>
    }
  }

  lemma {:induction false} RunLogs(cfg: Config, s: State, run: seq<Event>, log: seq<Entry>)
    requires cfg.Valid() && RunInv(cfg, s) && LoggedBut(cfg, s, log, -1)
    ensures LoggedBut(cfg, Exec(cfg, s, run), log + Log(cfg, s, run), -1)
    decreases |run|
  {
    hide RunInv, Step, LoggedBut, StepEntries;
    if run == [] {
      assert log + [] == log;
    } else {
      var first := StepEntries(cfg, s, run[0]);
      StepLogs(cfg, s, run[0], log);
      StepKeeps(cfg, s, run[0]);
      RunLogs(cfg, Step(cfg, s, run[0]), run[1..], log + first);
      assert log + (first + Log(cfg, Step(cfg, s, run[0]), run[1..]))
          == log + first + Log(cfg, Step(cfg, s, run[0]), run[1..]);
    }
  }

  /** In every run, with rejections and retry passes, every task is where its latest submission put it. If that
      was the n-th of the context, counting rejected ones: in sequential mode it is at n modulo the size, in the
      other modes at what the generator drew; its direction is what the roll decided; it is in flight only if
      the device took that submission, and queued only if it did not. */
  lemma {:induction false} OffsetLaw(cfg: Config, run: seq<Event>, t: nat)
    requires cfg.Valid()
    ensures var s := Exec(cfg, Init(cfg), run);
            var log := Log(cfg, Init(cfg), run);
            && s.cursor == CursorOf(cfg.mode, cfg.size, |log|)
            && (t < |s.tasks| ==> Last(log, t) >= 0 && Shows(cfg, s.tasks[t], log, Last(log, t)))
  {
    EveryRun(cfg, []);
    EveryRun(cfg, run);
    CountNone(Exec(cfg, Init(cfg), run).tasks, Is(Parked));
    RunLogs(cfg, Init(cfg), run, []);
    assert [] + Log(cfg, Init(cfg), run) == Log(cfg, Init(cfg), run);
  }

  // ---------------------------------------------------------------- what fails and what drains a context

  /** Some error status was seen. */
  ghost predicate Erred(cfg: Config, s: State, run: seq<Event>)
    requires cfg.Valid()
    decreases |run|
  {
    run != [] && ((run[0].Error? && Enabled(cfg, s, run[0])) || Erred(cfg, Step(cfg, s, run[0]), run[1..]))
  }

  ghost predicate AnyRejected(log: seq<Entry>) { exists i :: 0 <= i < |log| && !log[i].accept }

  lemma {:induction false} RejectedAppend(a: seq<Entry>, b: seq<Entry>)
    ensures AnyRejected(a + b) <==> AnyRejected(a) || AnyRejected(b)
  {
    if i :| 0 <= i < |a| && !a[i].accept {
      assert (a + b)[i] == a[i];
    } else if i :| 0 <= i < |b| && !b[i].accept {
      assert (a + b)[|a| + i] == b[i];
    }
  }

  lemma {:induction false} FailedRun(cfg: Config, s: State, run: seq<Event>)
    requires cfg.Valid() && !cfg.continueOnError
    ensures Exec(cfg, s, run).failed <==> s.failed || Erred(cfg, s, run) || AnyRejected(Log(cfg, s, run))
    decreases |run|
  {
    if run != [] {
      var s1 := Step(cfg, s, run[0]);
      var first := StepEntries(cfg, s, run[0]);
      FailedRun(cfg, s1, run[1..]);
      RejectedAppend(first, Log(cfg, s1, run[1..]));
      assert |first| <= 1 && (first != [] ==> (AnyRejected(first) <==> !first[0].accept));
    }
  }

  /** A context has failed if and only if continue-on-error is off and an error status was seen or a
      submission was rejected. */
  lemma {:induction false} FailedIff(cfg: Config, run: seq<Event>)
    requires cfg.Valid()
    ensures Exec(cfg, Init(cfg), run).failed <==>
            !cfg.continueOnError && (Erred(cfg, Init(cfg), run) || AnyRejected(Log(cfg, Init(cfg), run)))
  {
    if cfg.continueOnError {
      NothingLost(cfg, run);
    } else {
      FailedRun(cfg, Init(cfg), run);
    }
  }

  /** Time was up, or a status said that the namespace is gone. */
  ghost predicate Stopped(cfg: Config, s: State, run: seq<Event>)
    requires cfg.Valid()
    decreases |run|
  {
    run != [] &&
    ((Enabled(cfg, s, run[0]) && (run[0].SetDraining? || (run[0].Error? && run[0].hotplug)))
     || Stopped(cfg, Step(cfg, s, run[0]), run[1..]))
  }

  ghost predicate AtCap(cfg: Config, s: State) { cfg.cap > 0 && s.submitted >= cfg.cap }

  lemma {:induction false} RetryAtCap(cfg: Config, s: State, swap: seq<nat>, attempts: seq<Attempt>)
    requires cfg.Valid() && |swap| <= |attempts| && forall i :: 0 <= i < |swap| ==> swap[i] < |s.tasks|
    requires s.draining <==> AtCap(cfg, s)
    ensures var s' := RetryAll(cfg, s, swap, attempts); s'.draining <==> AtCap(cfg, s')
    decreases |swap|
  {
    if swap != [] {
      RetryAtCap(cfg, RetryOne(cfg, s, swap[0], attempts[0]), swap[1..], attempts[1..]);
    }
  }

  lemma {:induction false} DrainCause(cfg: Config, s: State, e: Event, stopped: bool)
    requires cfg.Valid() && RunInv(cfg, s) && (s.draining <==> stopped || AtCap(cfg, s))
    ensures var s' := Step(cfg, s, e);
            var stops := Enabled(cfg, s, e) && (e.SetDraining? || (e.Error? && e.hotplug));
            s'.draining <==> stopped || stops || AtCap(cfg, s')
  {
    hide Lists;
    if e.Retry? && Enabled(cfg, s, e) {
      RetryAtCap(cfg, s.(queued := []), s.queued, e.attempts);
    }
  }

  lemma {:induction false} DrainCauses(cfg: Config, s: State, run: seq<Event>, stopped: bool)
    requires cfg.Valid() && RunInv(cfg, s) && (s.draining <==> stopped || AtCap(cfg, s))
    ensures var s' := Exec(cfg, s, run); s'.draining <==> stopped || Stopped(cfg, s, run) || AtCap(cfg, s')
    decreases |run|
  {
    hide RunInv, Step, Enabled, AtCap;
    if run != [] {
      var stops := Enabled(cfg, s, run[0]) && (run[0].SetDraining? || (run[0].Error? && run[0].hotplug));
      DrainCause(cfg, s, run[0], stopped);
      StepKeeps(cfg, s, run[0]);
      DrainCauses(cfg, Step(cfg, s, run[0]), run[1..], stopped || stops);
    }
  }

  /** A context drains if and only if time was up, a status said that the namespace is gone, or exactly the cap
      has been submitted; no other error status drains it. */
  lemma {:induction false} DrainsIff(cfg: Config, run: seq<Event>)
    requires cfg.Valid()
    ensures var s := Exec(cfg, Init(cfg), run);
            s.draining <==> Stopped(cfg, Init(cfg), run) || (cfg.cap > 0 && s.submitted == cfg.cap)
  {
    EveryRun(cfg, []);
    EveryRun(cfg, run);
    DrainCauses(cfg, Init(cfg), run, false);
  }
}
