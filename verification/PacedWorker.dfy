/** The paced replica engine as the program runs it: the worker, the heap list and the two counters. */
module PacedWorker {
  import opened Counting
  import opened Workload
  import opened ReplicaGroup
  import opened PacedReplica
  import opened PacedTheorems
  import opened LinkQueue
  import ReplicaWorker
  import ReplicaRuns

  class Pacer {
    const cfg: PConfig
    const worker: ReplicaWorker.Worker
    const links: TaskLinks
    var batch: nat
    var submitBatch: nat

    ghost function View(): PState
      requires links.Valid()
      reads this, worker, links, links.Repr
    {
      PState(worker.View(), links.Contents(), batch, submitBatch)
    }

    ghost predicate Wired()
      reads this, worker, links, links.Repr
    {
      cfg.Valid() && worker.cfg == cfg.base && links.Valid()
    }

    ghost predicate Valid()
      reads this, worker, links, links.Repr
    {
      Wired() && PInv(cfg, View())
    }

    /** The sentinel alone, all counters zero. */
    constructor (cfg: PConfig)
      requires cfg.Valid()
      ensures this.cfg == cfg && Wired() && View() == PState(ReplicaRuns.Init(cfg.base), [], 0, 0)
      ensures fresh(worker) && fresh(links) && fresh(links.Repr)
    {
      this.cfg := cfg;
      worker := new ReplicaWorker.Worker(cfg.base);
      links := new TaskLinks();
      batch, submitBatch := 0, 0;
    }

    /** `submit_io_rep` with pacing on: all groups are allocated and put into the list. */
    method SubmitIoRep()
      requires Wired() && View() == PState(ReplicaRuns.Init(cfg.base), [], 0, 0)
      modifies this, worker, links, links.Repr
      ensures Valid() && View() == Init(cfg)
    {
      for i := 0 to cfg.base.queueDepth
        invariant Wired() && batch == 0 && submitBatch == 0
        invariant worker.View() == ReplicaRuns.Init(cfg.base).(groups := seq(i, (g: nat) => NewGroup(cfg.base, g)))
        invariant links.Contents() == seq(i, (g: nat) => g)
        invariant fresh(links.Repr - old(links.Repr))
      {
        worker.groups := worker.groups + [NewGroup(cfg.base, i)];
        links.Push(i);
      }
      InitHolds(cfg);
    }

    /** `task_complete` with pacing on. */
    method TaskComplete(slot: nat, ns: nat)
      requires Valid() && Outstanding(worker.View(), slot, ns)
      modifies this, worker, links, links.Repr
      ensures Wired() && View() == PacedReplica.TaskComplete(cfg, old(View()), slot, ns)
      ensures Valid() && fresh(links.Repr - old(links.Repr))
    {
      ghost var p := View();
      ReturnKeeps(cfg, p, slot, ns, false);
      DepthPositive(cfg.base, p.rep, slot, ns, Idle(p.pending));
      assert GroupInv(cfg.base, p.rep.groups[slot], slot, false);
      Finish(slot, ns);
    }

    method Finish(slot: nat, ns: nat)
      requires Wired() && worker.Ready(slot) && Outstanding(worker.View(), slot, ns)
      modifies this, worker, links, links.Repr
      ensures Wired() && View() == PacedReplica.TaskComplete(cfg, old(View()), slot, ns)
      ensures fresh(links.Repr - old(links.Repr))
    {
      var last := worker.ArriveAtBarrier(slot, ns);
      if last {
        var alive := worker.ScanOrRelease(slot);
        if alive {
          links.Push(slot);
          batch := batch + 1;
        }
      }
    }

    /** One turn of the pop loop. */
    method PopAndSubmit(choice: Choice)
      requires Wired() && CanPop(View()) && worker.Ready(View().pending[0]) && !worker.ctxs[0].draining
      modifies this, worker, links, links.Repr
      ensures Wired() && View() == PopOne(cfg, old(View()), choice)
      ensures links.Repr == old(links.Repr)
    {
      ghost var p := View();
      var slot := links.Pop();
      assert [slot] + links.Contents() == p.pending;
      var sent := worker.SubmitSingleIoRep(slot, choice);
      submitBatch := submitBatch + 1;
    }

    /** The loop of the pacing block. It is aborted by the assertion of the submission exactly when the pops
        of the batch are not all safe; it never meets an empty list. */
    method PopBatch(choices: seq<Choice>) returns (aborted: bool)
      requires Wired() && MidBatch(cfg, View()) && |choices| == cfg.batchSize && submitBatch == 0
      modifies this, worker, links, links.Repr
      ensures Wired() && links.Repr == old(links.Repr)
      ensures aborted <==> !PopsSafely(cfg, old(View()), choices)
      ensures !aborted ==> View() == PopLoop(cfg, old(View()), choices)
    {
      hide ListInv, SubmitRound;
      ghost var p := View();
      assert choices[0..] == choices;
      while submitBatch < cfg.batchSize
        invariant Wired() && MidBatch(cfg, View()) && links.Repr == old(links.Repr)
        invariant PopLoop(cfg, p, choices) == PopLoop(cfg, View(), choices[submitBatch..])
        invariant PopsSafely(cfg, p, choices) == PopsSafely(cfg, View(), choices[submitBatch..])
      {
        ghost var q := View();
        HasMain(cfg, q);
        if worker.ctxs[0].draining {
          return true;
        }
        MidBatchStep(cfg, q, choices[submitBatch..]);
        assert choices[submitBatch..][1..] == choices[submitBatch + 1..];
        FrontReady(cfg, q);
        PopAndSubmit(choices[submitBatch]);
      }
      return false;
    }

    /** The pacing block of the main loop: it is aborted if and only if the cap leaves less room than a batch,
        and otherwise keeps the credit scheme. */
    method PacingBlock(choices: seq<Choice>) returns (aborted: bool)
      requires Valid() && |choices| == cfg.batchSize
      modifies this, worker, links, links.Repr
      ensures Wired() && links.Repr == old(links.Repr)
      ensures aborted <==> !PopsSafely(cfg, old(View()), choices)
      ensures aborted <==> !old(Room(cfg, View()))
      ensures !aborted ==> Valid() && View() == PaceBlock(cfg, old(View()), choices)
    {
      SafeIffRoom(cfg, View(), choices);
      if Room(cfg, View()) {
        PaceKeeps(cfg, View(), choices);
      }
      BlockStart(cfg, View(), choices);
      aborted := PopAndRestart(choices);
    }

    method PopAndRestart(choices: seq<Choice>) returns (aborted: bool)
      requires Wired() && |choices| == cfg.batchSize
      requires submitBatch < cfg.batchSize ==> submitBatch == 0 && MidBatch(cfg, View())
      modifies this, worker, links, links.Repr
      ensures Wired() && links.Repr == old(links.Repr)
      ensures aborted <==> !PopsSafely(cfg, old(View()), choices)
      ensures !aborted ==> View() == PaceBlock(cfg, old(View()), choices)
    {
      hide MidBatch;
      if submitBatch < cfg.batchSize {
        aborted := PopBatch(choices);
        if aborted {
          return;
        }
      }
      if batch >= cfg.batchSize {
        batch := 0;
        submitBatch := 0;
      }
      return false;
    }
  }

  lemma {:induction false} BlockStart(cfg: PConfig, p: PState, choices: seq<Choice>)
    requires cfg.Valid() && PInv(cfg, p)
    ensures p.submitBatch < cfg.batchSize ==> p.submitBatch == 0 && MidBatch(cfg, p)
  {
  }

  lemma {:induction false} HasMain(cfg: PConfig, p: PState)
    requires cfg.Valid() && ListInv(cfg, p)
    ensures p.rep.ctxs != [] && |p.rep.ctxs| == cfg.base.R()
  {
  }

  lemma {:induction false} FrontReady(cfg: PConfig, p: PState)
    requires cfg.Valid() && ListInv(cfg, p) && p.pending != [] && !AnyDraining(p.rep)
    ensures p.pending[0] < |p.rep.groups| && p.rep.groups[p.pending[0]].Live?
    ensures |p.rep.groups[p.pending[0]].reps| == cfg.base.R() == |p.rep.ctxs| && !p.rep.ctxs[0].draining
  {
    assert GroupInv(cfg.base, p.rep.groups[p.pending[0]], p.pending[0], true);
  }
}
