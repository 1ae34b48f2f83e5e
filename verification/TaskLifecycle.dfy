/** The life of the tasks of one namespace context: submission, failure, retry, completion and cleanup. */
module TaskLifecycle {
  import opened Counting
  import opened Workload
  import opened Arith

  datatype Config = Config(queueDepth: nat, cap: nat, size: nat, mode: Mode, rwPercentage: nat,
                           continueOnError: bool, warmup: bool)
  {
    /** The option guards; random mode needs a divisor. */
    ghost predicate Valid() {
      && 1 <= queueDepth < 0x1_0000_0000
      && (mode.Random? ==> 1 <= size)
      && (cap > 0 ==> !warmup && queueDepth <= cap)
    }
  }

  /** Where a task is. `Parked` is a task the engine holds itself, as the paced engine does. */
  datatype Status = InFlight | Queued | Parked | Freed

  datatype Task = Task(status: Status, offset: nat, isRead: bool)

  /** `queued` is `queued_tasks`, `failed` the context's `status`, `freed` logs the freed tasks in order. */
  datatype State = State(tasks: seq<Task>, queued: seq<nat>, depth: nat, submitted: nat, completed: nat,
                         draining: bool, cursor: nat, failed: bool, freed: seq<nat>)

  /** One submission: what the generators draw, and whether the device takes it. */
  datatype Attempt = Attempt(choice: Choice, accept: bool)

  // ---------------------------------------------------------------- operations

  function Put(s: State, t: nat, status: Status): State
    requires t < |s.tasks|
  {
    s.(tasks := s.tasks[t := s.tasks[t].(status := status)])
  }

  function Free(s: State, t: nat): State
    requires t < |s.tasks|
  {
    Put(s, t, Freed).(freed := s.freed + [t])
  }

  function CapCheck(cfg: Config, s: State): State {
    if cfg.cap > 0 && s.submitted >= cfg.cap then s.(draining := true) else s
  }

  /** The offset and direction are drawn, and the sequential cursor moves, before the device answers. */
  function Draw(cfg: Config, s: State, t: nat, choice: Choice): State
    requires cfg.Valid() && t < |s.tasks|
  {
    var task := s.tasks[t].(offset := PickOffset(cfg.mode, s.cursor, cfg.size, choice),
                            isRead := PickRead(cfg.rwPercentage, choice));
    s.(tasks := s.tasks[t := task], cursor := NextCursor(cfg.mode, s.cursor, cfg.size))
  }

  /** `submit_single_io`. */
  function Submit(cfg: Config, s: State, t: nat, a: Attempt): (s': State)
    requires cfg.Valid() && t < |s.tasks|
    ensures |s'.tasks| == |s.tasks| && s'.draining == (s.draining || (cfg.cap > 0 && s'.submitted >= cfg.cap))
  {
    var s1 := Draw(cfg, s, t, a.choice);
    CapCheck(cfg,
      if a.accept then Put(s1, t, InFlight).(depth := s1.depth + 1, submitted := s1.submitted + 1)
      else if cfg.continueOnError then Put(s1, t, Queued).(queued := s1.queued + [t])
      else Free(s1, t).(failed := true))
  }

  /** The counters of `task_complete`. */
  function Account(s: State): State {
    s.(depth := Dec64(s.depth), completed := s.completed + 1)
  }

  /** `task_complete`. */
  function Complete(cfg: Config, s: State, t: nat, a: Attempt): State
    requires cfg.Valid() && t < |s.tasks|
  {
    if s.draining then Free(Account(s), t) else Submit(cfg, Account(s), t, a)
  }

  /** One turn of the retry loop: a task is attempted unless the pass has started to drain. */
  function RetryOne(cfg: Config, s: State, t: nat, a: Attempt): State
    requires cfg.Valid() && t < |s.tasks|
  {
    if s.draining then s.(queued := s.queued + [t]) else Submit(cfg, s, t, a)
  }

  /** The retry loop over the swapped-out list. */
  function RetryAll(cfg: Config, s: State, swap: seq<nat>, attempts: seq<Attempt>): State
    requires cfg.Valid() && |swap| <= |attempts|
    requires forall i :: 0 <= i < |swap| ==> swap[i] < |s.tasks|
    decreases |swap|
  {
    if swap == [] then s
    else RetryAll(cfg, RetryOne(cfg, s, swap[0], attempts[0]), swap[1..], attempts[1..])
  }

  /** One retry pass of the main loop: swap the queue out, then go through it. */
  function RetryPass(cfg: Config, s: State, attempts: seq<Attempt>): State
    requires cfg.Valid() && |s.queued| <= |attempts|
    requires forall i :: 0 <= i < |s.queued| ==> s.queued[i] < |s.tasks|
  {
    RetryAll(cfg, s.(queued := []), s.queued, attempts)
  }

  // ---------------------------------------------------------------- invariant

  ghost function Is(st: Status): Task -> bool { (t: Task) => t.status == st }

  /** A list that names, once each, the tasks of one status. */
  ghost predicate Lists(list: seq<nat>, tasks: seq<Task>, st: Status) {
    && NoDup(list)
    && |list| == Count(tasks, Is(st))
    && forall t: nat :: t in list <==> t < |tasks| && tasks[t].status == st
  }

  /** `held` are queued tasks that a retry pass has taken off the queue and not yet looked at. */
  ghost predicate Inv(cfg: Config, s: State, held: seq<nat>)
    requires cfg.Valid()
  {
    && |s.tasks| <= cfg.queueDepth
    && Within(s.cursor, cfg.size)
    && Lists(s.queued + held, s.tasks, Queued)
    && Lists(s.freed, s.tasks, Freed)
    && s.depth == Count(s.tasks, Is(InFlight))
    && (cfg.cap > 0 ==> s.submitted <= cfg.cap && (s.submitted == cfg.cap ==> s.draining))
    && (cfg.mode != Zipf ==> forall t :: 0 <= t < |s.tasks| ==> Within(s.tasks[t].offset, cfg.size))
  }

  lemma {:induction false} StatusUpdate(tasks: seq<Task>, t: nat, task: Task, st: Status)
    requires t < |tasks|
    ensures Count(tasks[t := task], Is(st)) + (if tasks[t].status == st then 1 else 0)
            == Count(tasks, Is(st)) + (if task.status == st then 1 else 0)
  {
    CountUpdate(tasks, t, task, Is(st));
  }

  /** Changing a task that is neither before nor after of the listed status leaves the list right. */
  lemma {:induction false} ListsSame(list: seq<nat>, tasks: seq<Task>, st: Status, t: nat, task: Task)
    requires Lists(list, tasks, st) && t < |tasks|
    requires (tasks[t].status == st) == (task.status == st)
    ensures Lists(list, tasks[t := task], st)
  {
    StatusUpdate(tasks, t, task, st);
  }

  /** A task that takes the listed status may be named anywhere in the list. */
  lemma {:induction false} ListsInsert(a: seq<nat>, b: seq<nat>, tasks: seq<Task>, st: Status, t: nat, task: Task)
    requires Lists(a + b, tasks, st) && t < |tasks|
    requires tasks[t].status != st && task.status == st
    ensures Lists(a + [t] + b, tasks[t := task], st)
  {
    StatusUpdate(tasks, t, task, st);
    var list, old_ := a + [t] + b, a + b;
    assert t !in old_;
    assert forall i :: 0 <= i < |list| ==>
             list[i] == if i < |a| then old_[i] else if i == |a| then t else old_[i - 1];
    forall i, j | 0 <= i < j < |list|
      ensures list[i] != list[j]
    {
      if i == |a| {
        assert old_[j - 1] in old_;
      } else if j == |a| {
        assert old_[i] in old_;
      } else {
        assert old_[if i < |a| then i else i - 1] != old_[if j < |a| then j else j - 1];
      }
    }
    forall x: nat
      ensures x in list <==> x in old_ || x == t
    {
      assert list[|a|] == t;
    }
  }

  /** A task that leaves the listed status is taken off the middle of the list. */
  lemma {:induction false} ListsRemove(a: seq<nat>, b: seq<nat>, tasks: seq<Task>, st: Status, t: nat, task: Task)
    requires Lists(a + [t] + b, tasks, st)
    requires t < |tasks| && tasks[t].status == st && task.status != st
    ensures Lists(a + b, tasks[t := task], st)
  {
    StatusUpdate(tasks, t, task, st);
    var list := a + [t] + b;
    assert forall i :: 0 <= i < |a + b| ==> (a + b)[i] == list[if i < |a| then i else i + 1];
    assert list[|a|] == t;
    forall x: nat
      ensures x in a + b <==> x in list && x != t
    {
    }
  }

  /** What a submission does to a task does not depend on where the task was. */
  lemma {:induction false} SubmitParked(cfg: Config, s: State, t: nat, a: Attempt)
    requires cfg.Valid() && t < |s.tasks|
    ensures Submit(cfg, s, t, a) == Submit(cfg, Put(s, t, Parked), t, a)
    ensures Free(s, t) == Free(Put(s, t, Parked), t)
  {
    assert Put(Put(s, t, Parked), t, Freed).tasks == Put(s, t, Freed).tasks;
    var d, d' := Draw(cfg, s, t, a.choice), Draw(cfg, Put(s, t, Parked), t, a.choice);
    assert d'.tasks == Put(d, t, Parked).tasks;
    forall st: Status
      ensures Put(d', t, st).tasks == Put(d, t, st).tasks
    {
    }
  }

  /** A parked task moves to another status, and the lists follow. */
  lemma {:induction false} MoveKeeps(cfg: Config, s: State, t: nat, s': State, held: seq<nat>)
    requires cfg.Valid() && Inv(cfg, s, held) && t < |s.tasks| && s.tasks[t].status == Parked
    requires |s'.tasks| == |s.tasks| && s'.tasks == s.tasks[t := s'.tasks[t]] && s'.tasks[t].status != Parked
    requires s'.queued == s.queued + if s'.tasks[t].status == Queued then [t] else []
    requires s'.freed == s.freed + if s'.tasks[t].status == Freed then [t] else []
    requires s'.depth == s.depth + if s'.tasks[t].status == InFlight then 1 else 0
    requires cfg.cap > 0 ==> s'.submitted <= cfg.cap && (s'.submitted == cfg.cap ==> s'.draining)
    requires Within(s'.cursor, cfg.size)
    requires cfg.mode != Zipf ==> Within(s'.tasks[t].offset, cfg.size)
    ensures Inv(cfg, s', held)
  {
    var task := s'.tasks[t];
    StatusUpdate(s.tasks, t, task, InFlight);
    assert s.queued + [] == s.queued && s.freed + [] == s.freed && s.freed + [t] + [] == s.freed + [t];
    if task.status == Queued {
      ListsInsert(s.queued, held, s.tasks, Queued, t, task);
    } else {
      ListsSame(s.queued + held, s.tasks, Queued, t, task);
    }
    if task.status == Freed {
      ListsInsert(s.freed, [], s.tasks, Freed, t, task);
    } else {
      ListsSame(s.freed, s.tasks, Freed, t, task);
    }
  }

  lemma {:induction false} SubmitKeeps(cfg: Config, s: State, t: nat, a: Attempt, held: seq<nat>)
    requires cfg.Valid() && Inv(cfg, s, held) && t < |s.tasks|
    requires s.tasks[t].status == Parked && !s.draining
    ensures Inv(cfg, Submit(cfg, s, t, a), held)
  {
    MoveKeeps(cfg, s, t, Submit(cfg, s, t, a), held);
  }

  lemma {:induction false} FreeKeeps(cfg: Config, s: State, t: nat, held: seq<nat>)
    requires cfg.Valid() && Inv(cfg, s, held) && t < |s.tasks| && s.tasks[t].status == Parked
    ensures Inv(cfg, Free(s, t), held)
  {
    MoveKeeps(cfg, s, t, Free(s, t), held);
  }

  /** A completed task is the engine's again. */
  lemma {:induction false} AccountKeeps(cfg: Config, s: State, t: nat, held: seq<nat>)
    requires cfg.Valid() && Inv(cfg, s, held) && t < |s.tasks| && s.tasks[t].status == InFlight
    ensures s.depth >= 1
    ensures Inv(cfg, Put(Account(s), t, Parked), held)
  {
    var task := s.tasks[t].(status := Parked);
    CountNone(s.tasks, Is(InFlight));
    assert Is(InFlight)(s.tasks[t]);
    StatusUpdate(s.tasks, t, task, InFlight);
    ListsSame(s.queued + held, s.tasks, Queued, t, task);
    ListsSame(s.freed, s.tasks, Freed, t, task);
  }

  lemma {:induction false} CompleteKeeps(cfg: Config, s: State, t: nat, a: Attempt, held: seq<nat>)
    requires cfg.Valid() && Inv(cfg, s, held) && t < |s.tasks| && s.tasks[t].status == InFlight
    ensures Inv(cfg, Complete(cfg, s, t, a), held)
  {
    AccountKeeps(cfg, s, t, held);
    SubmitParked(cfg, Account(s), t, a);
    var s1 := Put(Account(s), t, Parked);
    if s.draining {
      FreeKeeps(cfg, s1, t, held);
    } else {
      SubmitKeeps(cfg, s1, t, a, held);
    }
  }

  /** Taking the first held task. */
  lemma {:induction false} TakeKeeps(cfg: Config, s: State, held: seq<nat>)
    requires cfg.Valid() && held != [] && Inv(cfg, s, held)
    ensures held[0] < |s.tasks| && s.tasks[held[0]].status == Queued
    ensures Inv(cfg, Put(s, held[0], Parked), held[1..])
  {
    var t := held[0];
    assert held[0] == (s.queued + held)[|s.queued|];
    assert t in s.queued + held;
    var task := s.tasks[t].(status := Parked);
    assert s.queued + held == s.queued + [t] + held[1..];
    ListsRemove(s.queued, held[1..], s.tasks, Queued, t, task);
    StatusUpdate(s.tasks, t, task, InFlight);
    ListsSame(s.freed, s.tasks, Freed, t, task);
  }

  lemma {:induction false} RetryOneKeeps(cfg: Config, s: State, held: seq<nat>, a: Attempt)
    requires cfg.Valid() && held != [] && Inv(cfg, s, held)
    ensures held[0] < |s.tasks|
    ensures Inv(cfg, RetryOne(cfg, s, held[0], a), held[1..])
  {
    TakeKeeps(cfg, s, held);
    if s.draining {
      assert s.queued + [held[0]] + held[1..] == s.queued + held;
    } else {
      SubmitParked(cfg, s, held[0], a);
      SubmitKeeps(cfg, Put(s, held[0], Parked), held[0], a, held[1..]);
    }
  }

  lemma {:induction false} RetryAllKeeps(cfg: Config, s: State, held: seq<nat>, attempts: seq<Attempt>)
    requires cfg.Valid() && Inv(cfg, s, held) && |held| <= |attempts|
    ensures forall i :: 0 <= i < |held| ==> held[i] < |s.tasks|
    ensures Inv(cfg, RetryAll(cfg, s, held, attempts), [])
    decreases |held|
  {
    if held != [] {
      RetryOneKeeps(cfg, s, held, attempts[0]);
      var s1 := RetryOne(cfg, s, held[0], attempts[0]);
      RetryAllKeeps(cfg, s1, held[1..], attempts[1..]);
      assert forall i :: 1 <= i < |held| ==> held[i] == held[1..][i - 1];
    }
  }

  lemma {:induction false} RetryPassKeeps(cfg: Config, s: State, attempts: seq<Attempt>)
    requires cfg.Valid() && Inv(cfg, s, []) && |s.queued| <= |attempts|
    ensures forall i :: 0 <= i < |s.queued| ==> s.queued[i] < |s.tasks|
    ensures Inv(cfg, RetryPass(cfg, s, attempts), [])
  {
    assert s.queued + [] == s.queued == [] + s.queued;
    RetryAllKeeps(cfg, s.(queued := []), s.queued, attempts);
  }
}
