/** The replica engine as the program runs it: one worker whose contexts and groups are updated in place. */
module ReplicaWorker {
  import opened Arith
  import opened Counting
  import opened Workload
  import opened ReplicaGroup
  import opened ReplicaRuns
  import opened ReplicaTheorems
  import opened ReplicaDrain

  /** What one group owns: the shared buffers, and per replica an iovec array and the task itself. */
  datatype Resource = DataBuffer | MetadataBuffer | Iovs(ns: nat) | TaskMemory(ns: nat)

  /** The order of `rep_tasks`: each context once, the main task of context 0 first, or last with
      `g_send_main_rep_finally`, the copies in the order of the contexts. */
  function RepOrder(cfg: Config): (order: seq<nat>)
    requires cfg.Valid()
    ensures |order| == cfg.R() && NoDup(order)
    ensures forall i :: 0 <= i < |order| ==> order[i] < cfg.R()
    ensures forall k: nat :: k < cfg.R() ==> k in order
    ensures order[if cfg.mainLast then cfg.R() - 1 else 0] == 0
    ensures forall i, j :: 0 <= i < j < |order| && order[i] != 0 && order[j] != 0 ==> order[i] < order[j]
  {
    var R := cfg.R();
    var order := seq(R, i requires 0 <= i < R => if !cfg.mainLast then i else if i == R - 1 then 0 else i + 1);
    assert forall k: nat :: k < R ==> k in order by {
      forall k: nat | k < R
        ensures k in order
      {
        assert order[if !cfg.mainLast then k else if k == 0 then R - 1 else k - 1] == k;
      }
    }
    order
  }

  class Worker {
    const cfg: Config
    var ctxs: seq<Ctx>
    var groups: seq<Group>
    var cursor: nat
    var released: seq<nat>

    function View(): State
      reads this
    {
      State(ctxs, groups, cursor, released)
    }

    ghost predicate Valid()
      reads this
    {
      cfg.Valid() && Inv(cfg, View())
    }

    /** The part of `Valid` a submission needs for its own group. */
    ghost predicate Ready(slot: nat)
      reads this
    {
      && cfg.Valid() && |ctxs| == cfg.R()
      && slot < |groups| && groups[slot].Live? && |groups[slot].reps| == cfg.R()
    }

    constructor (cfg: Config)
      requires cfg.Valid()
      ensures this.cfg == cfg && View() == Init(cfg) && Valid()
    {
      this.cfg := cfg;
      ctxs := seq(cfg.R(), _ => Ctx(0, 0, 0, false));
      groups := [];
      cursor := 0;
      released := [];
      new;
      EveryRun(cfg, []);
    }

    /** `get_min_size_in_ios`. */
    method GetMinSizeInIos() returns (m: nat)
      requires cfg.Valid()
      ensures m == MinSize(cfg.sizes)
    {
      m := cfg.sizes[0];
      for i := 0 to |cfg.sizes|
        invariant m in cfg.sizes
        invariant forall j :: 0 <= j < i ==> m <= cfg.sizes[j]
      {
        if cfg.sizes[i] < m {
          m := cfg.sizes[i];
        }
      }
    }

    /** The body of the submission loop: one replica goes out. */
    method SubmitOne(slot: nat, ns: nat, offset: nat, isRead: bool)
      requires Ready(slot) && ns < cfg.R()
      modifies this
      ensures cursor == old(cursor) && released == old(released)
      ensures ctxs == old(ctxs)[ns := Bump(cfg.cap, old(ctxs[ns]))]
      ensures var g := old(groups[slot]);
              groups == old(groups)[slot := g.(reps := g.reps[ns := Replica(offset, isRead, g.reps[ns].ioId, true)])]
    {
      var g := groups[slot];
      groups := groups[slot := g.(reps := g.reps[ns := Replica(offset, isRead, g.reps[ns].ioId, true)])];
      var c := ctxs[ns];
      c := c.(depth := c.depth + 1, submitted := c.submitted + 1);
      if cfg.cap > 0 && c.submitted >= cfg.cap {
        c := c.(draining := true);
      }
      ctxs := ctxs[ns := c];
    }

    /** `submit_single_io_rep`, all submissions accepted. */
    method SubmitSingleIoRep(slot: nat, choice: Choice) returns (sent: seq<nat>)
      requires Ready(slot) && !ctxs[0].draining
      modifies this
      ensures View() == SubmitRound(cfg, old(View()), slot, choice)
      ensures sent == RepOrder(cfg)
    {
      var minSize := GetMinSizeInIos();
      var offset := PickOffset(cfg.mode, cursor, cfg.sizes[0], choice);
      cursor := NextCursor(cfg.mode, cursor, minSize);
      var isRead := PickRead(cfg.rwPercentage, choice);
      sent := SubmitReplicas(slot, offset, isRead);
      ghost var s' := SubmitRound(cfg, old(View()), slot, choice);
      assert ctxs == s'.ctxs && groups[slot].reps == s'.groups[slot].reps;
    }

    /** The loop of `submit_single_io_rep` over the replicas. */
    method SubmitReplicas(slot: nat, offset: nat, isRead: bool) returns (sent: seq<nat>)
      requires Ready(slot)
      modifies this
      ensures Ready(slot) && cursor == old(cursor) && released == old(released) && sent == RepOrder(cfg)
      ensures |groups| == old(|groups|)
      ensures groups == old(groups)[slot := old(groups[slot]).(reps := groups[slot].reps)]
      ensures forall k :: 0 <= k < cfg.R() ==>
                && groups[slot].reps[k] == Replica(offset, isRead, old(groups[slot].reps[k].ioId), true)
                && ctxs[k] == Bump(cfg.cap, old(ctxs[k]))
    {
      hide Bump;
      var order := RepOrder(cfg);
      sent := [];
      for i := 0 to |order|
        invariant Ready(slot) && cursor == old(cursor) && released == old(released) && sent == order[..i]
        invariant |groups| == old(|groups|)
        invariant groups == old(groups)[slot := old(groups[slot]).(reps := groups[slot].reps)]
        invariant forall k: nat :: k < cfg.R() ==>
                    if k in sent
                    then groups[slot].reps[k] == Replica(offset, isRead, old(groups[slot].reps[k].ioId), true)
                         && ctxs[k] == Bump(cfg.cap, old(ctxs[k]))
                    else groups[slot].reps[k] == old(groups[slot].reps[k]) && ctxs[k] == old(ctxs[k])
      {
        assert order[i] !in sent;
        SubmitOne(slot, order[i], offset, isRead);
        sent := sent + [order[i]];
      }
      assert order[..|order|] == order;
    }

    /** The first half of `task_complete`, up to the barrier. */
    method ArriveAtBarrier(slot: nat, ns: nat) returns (last: bool)
      requires Ready(slot) && Outstanding(View(), slot, ns)
      modifies this
      ensures View() == Arrive(old(View()), slot, ns) && last == old(IsLast(View(), slot))
      ensures Ready(slot)
    {
      ctxs := ctxs[ns := ctxs[ns].(depth := Dec64(ctxs[ns].depth), completed := ctxs[ns].completed + 1)];
      var g := groups[slot];
      g := g.(reps := g.reps[ns := g.reps[ns].(outstanding := false)], finished := g.finished + 1);
      if g.finished < cfg.R() {
        groups := groups[slot := g];
        return false;
      }
      groups := groups[slot := g.(finished := 0)];
      return true;
    }

    /** `rep_task_release`: what is freed, in order. */
    method RepTaskRelease(slot: nat) returns (freed: seq<Resource>)
      requires Ready(slot)
      modifies this
      ensures View() == Release(old(View()), slot)
      ensures NoDup(freed) && |freed| == 2 * cfg.R() + 2
      ensures DataBuffer in freed && MetadataBuffer in freed
      ensures forall k :: 0 <= k < cfg.R() ==> Iovs(k) in freed && TaskMemory(k) in freed
      ensures freed[|freed| - 1] == TaskMemory(0)
    {
      freed := [DataBuffer, MetadataBuffer];
      var order := RepOrder(cfg);
      for i := 0 to |order|
        invariant NoDup(freed)
        invariant |freed| == 2 + 2 * i - if 0 in order[..i] then 1 else 0
        invariant DataBuffer in freed && MetadataBuffer in freed
        invariant forall k: nat :: Iovs(k) in freed <==> k in order[..i]
        invariant forall k: nat :: TaskMemory(k) in freed <==> k in order[..i] && k != 0
      {
        var ns := order[i];
        assert order[..i + 1] == order[..i] + [ns];
        assert ns !in order[..i];
        freed := freed + [Iovs(ns)];
        if ns != 0 {
          freed := freed + [TaskMemory(ns)];
        }
      }
      assert order[..|order|] == order;
      freed := freed + [TaskMemory(0)];
      groups := groups[slot := Released(groups[slot].round + 1)];
      released := released + [slot];
    }

    /** The scan of `task_complete`: gives every replica the new id, unless it meets a draining context. */
    method HandOutId(slot: nat) returns (alive: bool)
      requires Ready(slot)
      modifies this
      ensures ctxs == old(ctxs) && cursor == old(cursor) && released == old(released) && Ready(slot)
      ensures alive == forall k :: 0 <= k < cfg.R() ==> !ctxs[k].draining
      ensures |groups| == old(|groups|) && groups == old(groups)[slot := groups[slot]]
      ensures groups[slot] == old(groups[slot]).(reps := groups[slot].reps)
      ensures alive ==> var id := NextId(old(groups[slot].reps[0].ioId), cfg.queueDepth);
                        forall k :: 0 <= k < cfg.R() ==> groups[slot].reps[k] == old(groups[slot].reps[k]).(ioId := id)
    {
      var id := NextId(groups[slot].reps[0].ioId, cfg.queueDepth);
      var order := RepOrder(cfg);
      for i := 0 to |order|
        invariant Ready(slot) && ctxs == old(ctxs) && cursor == old(cursor) && released == old(released)
        invariant groups == old(groups)[slot := old(groups[slot]).(reps := groups[slot].reps)]
        invariant forall k: nat :: k < cfg.R() ==>
                    groups[slot].reps[k] == if k in order[..i] then old(groups[slot].reps[k]).(ioId := id)
                                            else old(groups[slot].reps[k])
        invariant forall k: nat :: k in order[..i] ==> k < cfg.R() && !ctxs[k].draining
      {
        var ns := order[i];
        assert order[..i + 1] == order[..i] + [ns];
        assert ns !in order[..i];
        if ctxs[ns].draining {
          return false;
        }
        var g := groups[slot];
        groups := groups[slot := g.(reps := g.reps[ns := g.reps[ns].(ioId := id)])];
      }
      assert order[..|order|] == order;
      return true;
    }

    /** The second half of `task_complete`: scan the contexts, then go on or release the group. */
    method ScanOrRelease(slot: nat) returns (alive: bool)
      requires Ready(slot)
      modifies this
      ensures alive == !old(AnyDraining(View()))
      ensures View() == if alive then AdvanceId(cfg, old(View()), slot) else Release(old(View()), slot)
    {
      alive := HandOutId(slot);
      if alive {
        groups := groups[slot := groups[slot].(round := groups[slot].round + 1)];
        assert groups[slot].reps == AdvanceId(cfg, old(View()), slot).groups[slot].reps;
      } else {
        var freed := RepTaskRelease(slot);
      }
    }

    /** `task_complete`. */
    method TaskComplete(slot: nat, ns: nat, choice: Choice)
      requires Valid() && |groups| == cfg.queueDepth && Outstanding(View(), slot, ns)
      modifies this
      ensures View() == ReplicaGroup.TaskComplete(cfg, old(View()), slot, ns, choice)
      ensures Valid() && |groups| == cfg.queueDepth
    {
      ghost var s := View();
      StepKeeps(cfg, s, Deliver(slot, ns, choice));
      assert GroupInv(cfg, groups[slot], slot, false);
      var last := ArriveAtBarrier(slot, ns);
      if last {
        ghost var s1 := View();
        var alive := ScanOrRelease(slot);
        if alive {
          assert !s1.ctxs[0].draining;
          var sent := SubmitSingleIoRep(slot, choice);
        }
      }
    }

    /** `allocate_main_task` and `copy_task` for every context: the tasks, and the list `rep_tasks`. */
    method AllocateGroup(ioId: nat) returns (reps: seq<Replica>, order: seq<nat>)
      requires cfg.Valid()
      ensures |reps| == cfg.R() && forall k :: 0 <= k < |reps| ==> reps[k] == Replica(0, false, ioId, false)
      ensures order == RepOrder(cfg)
    {
      reps, order := [], [];
      for ns := 0 to cfg.R()
        invariant |reps| == ns && forall k :: 0 <= k < ns ==> reps[k] == Replica(0, false, ioId, false)
        invariant |order| == if cfg.mainLast && ns > 0 then ns - 1 else ns
        invariant forall i :: 0 <= i < |order| ==> order[i] == if cfg.mainLast then i + 1 else i
      {
        reps := reps + [Replica(0, false, ioId, false)];
        if ns > 0 || !cfg.mainLast {
          order := order + [ns];
        }
      }
      if cfg.mainLast {
        order := order + [0];
      }
    }

    /** One turn of the loop of `submit_io_rep`. */
    method StartGroup(choice: Choice)
      requires Valid() && |groups| < cfg.queueDepth
      modifies this
      ensures View() == Step(cfg, old(View()), Start(choice))
      ensures Valid() && |groups| == old(|groups|) + 1
    {
      hide GroupInv, MinSize, CapInv, ReleaseInv;
      var i := |groups|;
      StepKeeps(cfg, View(), Start(choice));
      var reps, order := AllocateGroup(i + 1);
      assert Live(reps, 0, 0) == NewGroup(cfg, i);
      groups := groups + [Live(reps, 0, 0)];
      var sent := SubmitSingleIoRep(i, choice);
    }

    /** `submit_io_rep`: allocate a main task and its copies, then submit the round, `queueDepth` times. */
    method SubmitIoRep(choices: seq<Choice>)
      requires Valid() && groups == [] && |choices| == cfg.queueDepth
      modifies this
      ensures View() == Exec(cfg, old(View()), seq(|choices|, i requires 0 <= i < |choices| => Start(choices[i])))
      ensures Valid() && |groups| == cfg.queueDepth
    {
      hide Inv, Step;
      ghost var run := seq(|choices|, i requires 0 <= i < |choices| => Start(choices[i]));
      ghost var s0 := View();
      for i := 0 to cfg.queueDepth
        invariant Valid() && |groups| == i
        invariant Exec(cfg, s0, run) == Exec(cfg, View(), run[i..])
      {
        assert run[i..][0] == Start(choices[i]) && run[i..][1..] == run[i + 1..];
        StartGroup(choices[i]);
      }
    }

    /** `check_io` on one context while something drains: every replica the device hands back is completed. */
    method CheckIo(ns: nat, returned: Poll)
      requires Valid() && |groups| == cfg.queueDepth && ns < cfg.R() && AnyDraining(View())
      modifies this
      ensures Valid() && |groups| == cfg.queueDepth
      ensures View() == Exec(cfg, old(View()), Polls(ns, returned))
      ensures forall slot :: slot in Slots(returned) ==> !Outstanding(View(), slot, ns)
      ensures ctxs[ns].depth + |Hits(old(View()), ns, returned)| == old(ctxs[ns].depth)
    {
      hide Inv, Step;
      ghost var s0 := View();
      ContextCount(cfg, s0);
      PollEffect(cfg, s0, ns, returned);
      ghost var events := Polls(ns, returned);
      assert events[0..] == events;
      for i := 0 to |returned|
        invariant Valid() && |groups| == cfg.queueDepth
        invariant Exec(cfg, s0, events) == Exec(cfg, View(), events[i..])
      {
        assert events[i..][0] == Deliver(returned[i].0, ns, returned[i].1) && events[i..][1..] == events[i + 1..];
        HandBack(returned[i].0, ns, returned[i].1);
      }
    }

    /** One completion, if the device has that request at all. */
    method HandBack(slot: nat, ns: nat, choice: Choice)
      requires Valid() && |groups| == cfg.queueDepth
      modifies this
      ensures Valid() && |groups| == cfg.queueDepth
      ensures View() == Step(cfg, old(View()), Deliver(slot, ns, choice))
    {
      if Outstanding(View(), slot, ns) {
        TaskComplete(slot, ns, choice);
      }
    }

    /** The body of the drain loop for one context. */
    method DrainOne(ns: nat, returned: Poll) returns (busy: bool)
      requires Valid() && |groups| == cfg.queueDepth && ns < cfg.R()
      modifies this
      ensures Valid() && |groups| == cfg.queueDepth
      ensures View() == Exec(cfg, old(View()), Turn(ns, returned))
      ensures busy == (ctxs[ns].depth > 0)
    {
      ghost var s0 := View();
      TurnEffect(cfg, s0, ns, returned);
      StepKeeps(cfg, s0, SetDraining(ns));
      if !ctxs[ns].draining {
        ctxs := ctxs[ns := ctxs[ns].(draining := true)];
      }
      assert View() == Step(cfg, s0, SetDraining(ns));
      assert AnyDraining(View()) by {
        assert View().ctxs[ns].draining;
      }
      if ctxs[ns].depth > 0 {
        CheckIo(ns, returned);
        return ctxs[ns].depth > 0;
      }
      EmptyIff(cfg, View(), ns);
      QuietPoll(cfg, View(), ns, returned);
      return false;
    }

    /** One pass of the drain loop. The contexts are looked at one after the other; still, the pass counts
        exactly those that have something in flight at its end, and none if and only if every group has been
        released exactly once. */
    method DrainPass(pass: seq<Poll>) returns (unfinished: nat)
      requires Valid() && |groups| == cfg.queueDepth && |pass| == cfg.R()
      modifies this
      ensures Valid() && |groups| == cfg.queueDepth
      ensures View() == Exec(cfg, old(View()), Pass(pass))
      ensures unfinished == Count(ctxs, IsBusy())
      ensures unfinished == 0 <==> HandsBack(old(View()), pass)
      ensures unfinished == 0 <==> |released| == cfg.queueDepth
      ensures NoDup(released) && forall k :: 0 <= k < cfg.R() ==> ctxs[k].draining
    {
      ghost var s0 := View();
      PassEffect(cfg, s0, pass);
      unfinished := PassLoop(pass);
      CountNone(ctxs, IsBusy());
      AllReleased(cfg, View());
    }

    method PassLoop(pass: seq<Poll>) returns (unfinished: nat)
      requires Valid() && |groups| == cfg.queueDepth && |pass| == cfg.R()
      modifies this
      ensures Valid() && |groups| == cfg.queueDepth
      ensures View() == Exec(cfg, old(View()), Pass(pass))
      ensures unfinished == Count(ctxs, IsBusy())
    {
      hide CoreInv, Turn, Outstanding, Slots;
      ghost var s0 := View();
      ContextCount(cfg, s0);
      unfinished := 0;
      for ns := 0 to cfg.R()
        invariant Valid() && |groups| == cfg.queueDepth && |ctxs| == cfg.R()
        invariant Exec(cfg, s0, Pass(pass)) == Exec(cfg, View(), PassFrom(ns, pass))
        invariant unfinished == Count(ctxs[..ns], IsBusy())
      {
        ghost var s1 := View();
        TurnEffect(cfg, s1, ns, pass[ns]);
        ExecAppend(cfg, s1, Turn(ns, pass[ns]), PassFrom(ns + 1, pass));
        var busy := DrainOne(ns, pass[ns]);
        assert ctxs[..ns] == s1.ctxs[..ns];
        assert ctxs[..ns + 1] == ctxs[..ns] + [ctxs[ns]];
        CountAppend(ctxs[..ns], ctxs[ns], IsBusy());
        if busy {
          unfinished := unfinished + 1;
        }
      }
      assert ctxs[..cfg.R()] == ctxs;
    }

    /** The drain loop, for as many passes as it needs or the script has. It ends if and only if some pass hands
        back, per context, every slot outstanding there when the pass begins; in particular if some pass does
        so for the slots outstanding at the start. Then every group has been released exactly once. */
    method DrainLoop(script: seq<seq<Poll>>) returns (finished: bool, passes: nat)
      requires Valid() && |groups| == cfg.queueDepth
      requires forall i :: 0 <= i < |script| ==> |script[i]| == cfg.R()
      modifies this
      ensures Valid() && |groups| == cfg.queueDepth
      ensures passes <= |script| && View() == Exec(cfg, old(View()), Passes(script, passes))
      ensures finished <==> SomePass(cfg, old(View()), script)
      ensures (exists i :: 0 <= i < |script| && HandsBack(old(View()), script[i])) ==> finished
      ensures finished ==>
                && NoDup(released) && |released| == cfg.queueDepth
                && forall k :: 0 <= k < cfg.R() ==> ctxs[k].draining && ctxs[k].depth == 0
      ensures !finished ==> passes == |script|
    {
      hide CoreInv, HandsBack, Passes, Exec;
      ghost var s0 := View();
      SomePassFromStart(cfg, s0, script);
      finished, passes := PassUntilDone(script);
      AllReleased(cfg, View());
    }

    method PassUntilDone(script: seq<seq<Poll>>) returns (finished: bool, passes: nat)
      requires Valid() && |groups| == cfg.queueDepth
      requires forall i :: 0 <= i < |script| ==> |script[i]| == cfg.R()
      modifies this
      ensures Valid() && |groups| == cfg.queueDepth
      ensures passes <= |script| && View() == Exec(cfg, old(View()), Passes(script, passes))
      ensures finished ==> |released| == cfg.queueDepth && forall k :: 0 <= k < cfg.R() && k < |ctxs| ==> ctxs[k].draining
      ensures finished ==> 0 < passes && HandsBack(Exec(cfg, old(View()), Passes(script, passes - 1)), script[passes - 1])
      ensures !finished ==> passes == |script|
                            && forall i :: 0 <= i < |script| ==>
                                 !HandsBack(Exec(cfg, old(View()), Passes(script, i)), script[i])
    {
      hide Inv, HandsBack, Pass, Exec;
      ghost var s0 := View();
      ExecNone(cfg, s0);
      passes := 0;
      while passes < |script|
        invariant passes <= |script| && Valid() && |groups| == cfg.queueDepth
        invariant View() == Exec(cfg, s0, Passes(script, passes))
        invariant forall i :: 0 <= i < passes ==> !HandsBack(Exec(cfg, s0, Passes(script, i)), script[i])
      {
        ExecAppend(cfg, s0, Passes(script, passes), Pass(script[passes]));
        var unfinished := DrainPass(script[passes]);
        passes := passes + 1;
        if unfinished == 0 {
          return true, passes;
        }
      }
      return false, passes;
    }
  }

  lemma {:induction false} ExecNone(cfg: Config, s: State)
    requires cfg.Valid()
    ensures Exec(cfg, s, []) == s
  {
  }

  ghost function IsBusy(): Ctx -> bool { (c: Ctx) => c.depth > 0 }

  lemma {:induction false} AllReleased(cfg: Config, s: State)
    requires cfg.Valid() && Inv(cfg, s) && |s.groups| == cfg.queueDepth
    ensures NoDup(s.released)
    ensures |s.ctxs| == cfg.R()
    ensures (forall k :: 0 <= k < cfg.R() ==> s.ctxs[k].depth == 0) <==> |s.released| == cfg.queueDepth
  {
    DrainComplete(cfg, s);
    if |s.released| == cfg.queueDepth {
      assert forall i :: 0 <= i < |s.released| ==> s.released[i] in s.released;
      FullMembers(s.released, cfg.queueDepth);
    }
  }
}
