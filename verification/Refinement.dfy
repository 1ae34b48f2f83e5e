/** The replica engine refines the plain engine: a group behaves as one task, whatever the order of completions. */
module Refinement {
  import opened Counting
  import opened Workload
  import G = ReplicaGroup
  import GR = ReplicaRuns
  import GT = ReplicaTheorems
  import T = TaskLifecycle
  import TR = TaskRuns

  /** The plain engine on a namespace that wraps where the replicas wrap. */
  function Plain(cfg: G.Config): T.Config
    requires cfg.Valid()
  {
    T.Config(cfg.queueDepth, cfg.cap, if cfg.mode.Sequential? then G.MinSize(cfg.sizes) else cfg.sizes[0],
             cfg.mode, cfg.rwPercentage, false, cfg.warmup)
  }

  ghost predicate SameTask(g: G.Group, t: T.Task) {
    if g.Live? then
      t.status == T.InFlight && g.reps != [] && t.offset == g.reps[0].offset && t.isRead == g.reps[0].isRead
    else t.status == T.Freed
  }

  /** `a` is the plain engine's view of `c`. */
  ghost predicate Refines(c: G.State, a: T.State) {
    && |a.tasks| == |c.groups| && c.ctxs != []
    && (forall g :: 0 <= g < |c.groups| ==> SameTask(c.groups[g], a.tasks[g]))
    && a.queued == [] && a.freed == c.released && !a.failed
    && a.submitted == c.ctxs[0].submitted
    && a.draining == G.AnyDraining(c)
    && a.cursor == c.cursor
  }

  /** What a step of the group protocol is for the plain engine: nothing, or one step. */
  function Lift(cfg: G.Config, c: G.State, e: GR.Event): seq<TR.Event> {
    if !GR.Enabled(cfg, c, e) then []
    else
      match e
      case Start(choice) => [TR.Start(T.Attempt(choice, true))]
      case Deliver(slot, _, choice) =>
        if G.IsLast(c, slot) then [TR.Deliver(slot, T.Attempt(choice, true))] else []
      case SetDraining(_) => [TR.SetDraining]
      case WarmupReset => [TR.WarmupReset]
  }

  function LiftRun(cfg: G.Config, c: G.State, run: seq<GR.Event>): seq<TR.Event>
    requires cfg.Valid()
    decreases |run|
  {
    if run == [] then [] else Lift(cfg, c, run[0]) + LiftRun(cfg, GR.Step(cfg, c, run[0]), run[1..])
  }

  /** A round submitted to all replicas is one accepted submission of the task. */
  lemma {:induction false} SubmitRefines(cfg: G.Config, c: G.State, a: T.State, slot: nat, choice: Choice)
    requires cfg.Valid() && Plain(cfg).Valid()
    requires |c.ctxs| == cfg.R() && G.CapInv(cfg, c) && !G.AnyDraining(c)
    requires slot < |c.groups| && c.groups[slot].Live? && |c.groups[slot].reps| == cfg.R()
    requires |a.tasks| == |c.groups|
    requires forall g :: 0 <= g < |c.groups| && g != slot ==> SameTask(c.groups[g], a.tasks[g])
    requires a.queued == [] && a.freed == c.released && !a.failed && a.cursor == c.cursor
    requires a.submitted == c.ctxs[0].submitted && !a.draining
    ensures Refines(G.SubmitRound(cfg, c, slot, choice), T.Submit(Plain(cfg), a, slot, T.Attempt(choice, true)))
  {
    var c', a' := G.SubmitRound(cfg, c, slot, choice), T.Submit(Plain(cfg), a, slot, T.Attempt(choice, true));
    assert c'.ctxs[0] == G.Bump(cfg.cap, c.ctxs[0]);
    assert SameTask(c'.groups[slot], a'.tasks[slot]);
    if a'.draining {
      assert c'.ctxs[0].draining;
    }
  }

  /** A replica that is not the last one changes nothing the plain engine sees. */
  lemma {:induction false} ArriveStutters(cfg: G.Config, c: G.State, a: T.State, slot: nat, ns: nat)
    requires cfg.Valid() && G.CoreInv(cfg, c, {}) && Refines(c, a) && G.Outstanding(c, slot, ns)
    ensures Refines(G.Arrive(c, slot, ns), a)
  {
    assert G.GroupInv(cfg, c.groups[slot], slot, false);
    G.SameDraining(c, slot, ns);
    var c1 := G.Arrive(c, slot, ns);
    assert c1.ctxs[0].submitted == c.ctxs[0].submitted;
    assert SameTask(c.groups[slot], a.tasks[slot]);
  }

  lemma {:induction false} ReleaseRefines(c: G.State, a: T.State, slot: nat)
    requires Refines(c, a) && slot < |c.groups| && c.groups[slot].Live?
    ensures Refines(G.Release(c, slot), T.Free(T.Account(a), slot))
  {
    var c', a' := G.Release(c, slot), T.Free(T.Account(a), slot);
    assert G.AnyDraining(c') == G.AnyDraining(c);
  }

  lemma {:induction false} DeliverRefines(cfg: G.Config, c: G.State, a: T.State, slot: nat, ns: nat, choice: Choice)
    requires cfg.Valid() && GR.Inv(cfg, c) && Refines(c, a)
    requires G.Outstanding(c, slot, ns)
    ensures Refines(G.TaskComplete(cfg, c, slot, ns, choice),
                    if G.IsLast(c, slot) then T.Complete(Plain(cfg), a, slot, T.Attempt(choice, true)) else a)
  {
    var c1 := G.Arrive(c, slot, ns);
    ArriveStutters(cfg, c, a, slot, ns);
    if G.IsLast(c, slot) {
      if G.AnyDraining(c1) {
        ReleaseRefines(c1, a, slot);
      } else {
        G.ArriveKeeps(cfg, c, slot, ns, {});
        var idle := {} + {slot};
        G.AdvanceIdKeeps(cfg, c1, slot, idle);
        AdvancedRefines(cfg, c1, a, slot, idle, choice);
      }
    }
  }

  lemma {:induction false} AdvancedRefines(cfg: G.Config, c1: G.State, a: T.State, slot: nat, idle: set<nat>,
                                           choice: Choice)
    requires cfg.Valid() && Refines(c1, a) && slot in idle && G.CoreInv(cfg, c1, idle) && !G.AnyDraining(c1)
    requires c1.groups[slot].Live?
    ensures c1.groups[slot].reps != []
    ensures Refines(G.SubmitRound(cfg, G.AdvanceId(cfg, c1, slot), slot, choice),
                    T.Submit(Plain(cfg), T.Account(a), slot, T.Attempt(choice, true)))
  {
    assert G.GroupInv(cfg, c1.groups[slot], slot, true);
    SubmitRefines(cfg, G.AdvanceId(cfg, c1, slot), T.Account(a), slot, choice);
  }

  lemma {:induction false} StartRefines(cfg: G.Config, c: G.State, a: T.State, choice: Choice)
    requires cfg.Valid() && GR.Inv(cfg, c) && Refines(c, a) && |c.groups| < cfg.queueDepth
    ensures Refines(GR.Step(cfg, c, GR.Start(choice)),
                    TR.Step(Plain(cfg), a, TR.Start(T.Attempt(choice, true))))
  {
    var slot := |c.groups|;
    SubmitRefines(cfg, c.(groups := c.groups + [G.NewGroup(cfg, slot)]),
                  a.(tasks := a.tasks + [T.Task(T.Parked, 0, false)]), slot, choice);
  }

  lemma {:induction false} OtherRefines(cfg: G.Config, c: G.State, a: T.State, e: GR.Event)
    requires cfg.Valid() && GR.Inv(cfg, c) && Refines(c, a) && GR.Enabled(cfg, c, e)
    requires e.SetDraining? || e.WarmupReset?
    ensures Refines(GR.Step(cfg, c, e), TR.Step(Plain(cfg), a, if e.SetDraining? then TR.SetDraining else TR.WarmupReset))
  {
    var c' := GR.Step(cfg, c, e);
    if e.SetDraining? {
      assert c'.ctxs[e.ns].draining;
    } else {
      assert forall k :: 0 <= k < |c.ctxs| ==> c'.ctxs[k].draining == c.ctxs[k].draining;
    }
  }

  /** One step is matched by the lifted step, or by none. */
  lemma {:induction false} StepRefines(cfg: G.Config, c: G.State, a: T.State, e: GR.Event)
    requires cfg.Valid() && GR.Inv(cfg, c) && Refines(c, a) && TR.RunInv(Plain(cfg), a)
    ensures Refines(GR.Step(cfg, c, e), TR.Exec(Plain(cfg), a, Lift(cfg, c, e)))
  {
    hide G.CoreInv, T.Inv, G.MinSize, G.SubmitRound, T.Submit;
    var lifted := Lift(cfg, c, e);
    if lifted != [] {
      OneStep(cfg, a, lifted[0]);
    }
    if GR.Enabled(cfg, c, e) {
      match e
      case Start(choice) => StartRefines(cfg, c, a, choice);
      case Deliver(slot, ns, choice) =>
        assert SameTask(c.groups[slot], a.tasks[slot]);
        DeliverRefines(cfg, c, a, slot, ns, choice);
      case SetDraining(_) => OtherRefines(cfg, c, a, e);
      case WarmupReset => OtherRefines(cfg, c, a, e);
    }
  }

  lemma {:induction false} OneStep(cfg: G.Config, a: T.State, e: TR.Event)
    requires cfg.Valid()
    ensures TR.Exec(Plain(cfg), a, [e]) == TR.Step(Plain(cfg), a, e)
  {
    assert [e][1..] == [];
  }

  lemma {:induction false} RunRefines(cfg: G.Config, c: G.State, a: T.State, run: seq<GR.Event>)
    requires cfg.Valid() && GR.Inv(cfg, c) && Refines(c, a) && TR.RunInv(Plain(cfg), a)
    ensures Refines(GR.Exec(cfg, c, run), TR.Exec(Plain(cfg), a, LiftRun(cfg, c, run)))
    decreases |run|
  {
    if run != [] {
      var lifted := Lift(cfg, c, run[0]);
      var c1, a1 := GR.Step(cfg, c, run[0]), TR.Exec(Plain(cfg), a, lifted);
      StepRefines(cfg, c, a, run[0]);
      GR.StepKeeps(cfg, c, run[0]);
      TR.ExecKeeps(Plain(cfg), a, lifted);
      RunRefines(cfg, c1, a1, run[1..]);
      TR.ExecAppend(Plain(cfg), a, lifted, LiftRun(cfg, c1, run[1..]));
    }
  }

  /** Every run of the group protocol is, seen through `Refines`, a run of the plain engine. */
  lemma {:induction false} Simulation(cfg: G.Config, run: seq<GR.Event>)
    requires cfg.Valid()
    ensures Refines(GR.Exec(cfg, GR.Init(cfg), run),
                    TR.Exec(Plain(cfg), TR.Init(Plain(cfg)), LiftRun(cfg, GR.Init(cfg), run)))
  {
    GR.EveryRun(cfg, []);
    TR.EveryRun(Plain(cfg), []);
    RunRefines(cfg, GR.Init(cfg), TR.Init(Plain(cfg)), run);
  }

  lemma {:induction false} LiftNoReset(cfg: G.Config, c: G.State, run: seq<GR.Event>)
    requires cfg.Valid() && GT.NoReset(run)
    ensures forall i :: 0 <= i < |LiftRun(cfg, c, run)| ==> LiftRun(cfg, c, run)[i] != TR.WarmupReset
    decreases |run|
  {
    if run != [] {
      LiftNoReset(cfg, GR.Step(cfg, c, run[0]), run[1..]);
    }
  }

  /** The plain engine completes a task as often as the groups complete rounds. */
  lemma {:induction false} RoundsAreCompletions(cfg: G.Config, run: seq<GR.Event>)
    requires cfg.Valid() && GT.NoReset(run)
    ensures var c := GR.Exec(cfg, GR.Init(cfg), run);
            var a := TR.Exec(Plain(cfg), TR.Init(Plain(cfg)), LiftRun(cfg, GR.Init(cfg), run));
            a.completed == GT.Rounds(c.groups)
  {
    Simulation(cfg, run);
    LiveGroupsAreDepth(cfg, run);
    GT.RoundAgreement(cfg, run, 0);
    LiftNoReset(cfg, GR.Init(cfg), run);
    TR.EveryRun(Plain(cfg), []);
    TR.CarryFixed(Plain(cfg), TR.Init(Plain(cfg)), LiftRun(cfg, GR.Init(cfg), run));
  }

  /** The live groups are what the plain engine counts as its queue depth. */
  lemma {:induction false} LiveGroupsAreDepth(cfg: G.Config, run: seq<GR.Event>)
    requires cfg.Valid()
    ensures var c := GR.Exec(cfg, GR.Init(cfg), run);
            var a := TR.Exec(Plain(cfg), TR.Init(Plain(cfg)), LiftRun(cfg, GR.Init(cfg), run));
            a.depth == Count(c.groups, GT.IsLive())
  {
    Simulation(cfg, run);
    var c := GR.Exec(cfg, GR.Init(cfg), run);
    var a := TR.Exec(Plain(cfg), TR.Init(Plain(cfg)), LiftRun(cfg, GR.Init(cfg), run));
    TR.EveryRun(Plain(cfg), LiftRun(cfg, GR.Init(cfg), run));
    forall g | 0 <= g < |c.groups|
      ensures GT.IsLive()(c.groups[g]) == T.Is(T.InFlight)(a.tasks[g])
    {
      assert SameTask(c.groups[g], a.tasks[g]);
    }
    CountSame(c.groups, GT.IsLive(), a.tasks, T.Is(T.InFlight));
  }
}
