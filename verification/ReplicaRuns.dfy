/** Whole runs of the replica engine: every interleaving of completions, drains and warm-up resets. */
module ReplicaRuns {
  import opened Counting
  import opened Workload
  import opened ReplicaGroup

  /** What can happen next. `Start` is one turn of the `submit_io_rep` loop, which precedes all the rest. */
  datatype Event =
    | Start(choice: Choice)
    | Deliver(slot: nat, ns: nat, choice: Choice)
    | SetDraining(ns: nat)
    | WarmupReset

  function Init(cfg: Config): State {
    State(seq(cfg.R(), _ => Ctx(0, 0, 0, false)), [], 0, [])
  }

  predicate Enabled(cfg: Config, s: State, e: Event) {
    match e
    case Start(_) => |s.groups| < cfg.queueDepth
    case Deliver(slot, ns, _) => |s.groups| == cfg.queueDepth && Outstanding(s, slot, ns)
    case SetDraining(ns) => |s.groups| == cfg.queueDepth && ns < |s.ctxs|
    case WarmupReset => |s.groups| == cfg.queueDepth && cfg.warmup
  }

  /** An event that is not enabled changes nothing, so every event sequence is a run. */
  function Step(cfg: Config, s: State, e: Event): State
    requires cfg.Valid()
  {
    if !Enabled(cfg, s, e) then s else
    match e
    case Start(choice) =>
      SubmitRound(cfg, s.(groups := s.groups + [NewGroup(cfg, |s.groups|)]), |s.groups|, choice)
    case Deliver(slot, ns, choice) => TaskComplete(cfg, s, slot, ns, choice)
    case SetDraining(ns) => Drain(s, ns)
    case WarmupReset => ResetStats(s)
  }

  function Exec(cfg: Config, s: State, run: seq<Event>): State
    requires cfg.Valid()
    decreases |run|
  {
    if run == [] then s else Exec(cfg, Step(cfg, s, run[0]), run[1..])
  }

  lemma {:induction false} ExecAppend(cfg: Config, s: State, x: seq<Event>, y: seq<Event>)
    requires cfg.Valid()
    ensures Exec(cfg, s, x + y) == Exec(cfg, Exec(cfg, s, x), y)
    decreases |x|
  {
    if x == [] {
      assert x + y == y;
    } else {
      assert (x + y)[0] == x[0] && (x + y)[1..] == x[1..] + y;
      ExecAppend(cfg, Step(cfg, s, x[0]), x[1..], y);
    }
  }

  lemma {:induction false} ExecOne(cfg: Config, s: State, e: Event)
    requires cfg.Valid()
    ensures Exec(cfg, s, [e]) == Step(cfg, s, e)
  {
    assert [e][1..] == [];
  }

  ghost predicate Inv(cfg: Config, s: State)
    requires cfg.Valid()
  {
    && CoreInv(cfg, s, {})
    && |s.groups| <= cfg.queueDepth
    && (|s.groups| < cfg.queueDepth ==> !AnyDraining(s) && s.ctxs[0].submitted == |s.groups|)
  }

  // ---------------------------------------------------------------- every step keeps the invariant

  lemma {:induction false} StartKeeps(cfg: Config, s: State, choice: Choice)
    requires cfg.Valid() && Inv(cfg, s) && |s.groups| < cfg.queueDepth
    ensures Inv(cfg, Step(cfg, s, Start(choice)))
  {
    hide CoreInv, NextCursor, MinSize;
    var slot := |s.groups|;
    var s1 := s.(groups := s.groups + [NewGroup(cfg, slot)]);
    AllocateKeeps(cfg, s);
    SubmitKeeps(cfg, s1, slot, choice, {slot});
    assert {slot} - {slot} == {};
    SubmitBump(cfg, s1, slot, choice);
  }

  lemma {:induction false} AllocateKeeps(cfg: Config, s: State)
    requires cfg.Valid() && CoreInv(cfg, s, {})
    ensures CoreInv(cfg, s.(groups := s.groups + [NewGroup(cfg, |s.groups|)]), {|s.groups|})
    ensures cfg.R() == |s.ctxs|
    ensures CapInv(cfg, s)
  {
    var slot := |s.groups|;
    var g := NewGroup(cfg, slot);
    var s1 := s.(groups := s.groups + [g]);
    CountNone(g.reps, IsOut());
    forall k | 0 <= k < cfg.R()
      ensures Count(s1.groups, OutOn(k)) == Count(s.groups, OutOn(k))
    {
      CountAppend(s.groups, g, OutOn(k));
    }
    forall h | 0 <= h < |s1.groups|
      ensures GroupInv(cfg, s1.groups[h], h, h in {slot})
    {
      assert h < slot ==> GroupInv(cfg, s.groups[h], h, false);
    }
  }

  /** A submission below the cap makes nothing drain. */
  lemma {:induction false} SubmitBump(cfg: Config, s: State, slot: nat, choice: Choice)
    requires cfg.Valid() && slot < |s.groups| && s.groups[slot].Live? && |s.ctxs| == cfg.R() && CapInv(cfg, s)
    ensures var s' := SubmitRound(cfg, s, slot, choice);
            && s'.ctxs[0].submitted == s.ctxs[0].submitted + 1
            && (!AnyDraining(s) && (cfg.cap > 0 ==> s.ctxs[0].submitted + 1 < cfg.cap) ==> !AnyDraining(s'))
  {
    var s' := SubmitRound(cfg, s, slot, choice);
    assert forall k :: 0 <= k < |s.ctxs| ==> s'.ctxs[k] == Bump(cfg.cap, s.ctxs[k]);
  }

  /** No context drains, so the cap is not reached. */
  lemma {:induction false} BelowCap(cfg: Config, s: State)
    requires cfg.Valid() && |s.ctxs| == cfg.R() && CapInv(cfg, s) && !AnyDraining(s)
    ensures cfg.cap > 0 ==> s.ctxs[0].submitted < cfg.cap
  {
  }

  lemma {:induction false} DeliverKeeps(cfg: Config, s: State, slot: nat, ns: nat, choice: Choice)
    requires cfg.Valid() && CoreInv(cfg, s, {}) && Outstanding(s, slot, ns)
    ensures CoreInv(cfg, TaskComplete(cfg, s, slot, ns, choice), {})
  {
    var s1 := Arrive(s, slot, ns);
    ArriveKeeps(cfg, s, slot, ns, {});
    if IsLast(s, slot) {
      assert {} + {slot} == {slot} && {slot} - {slot} == {};
      if AnyDraining(s1) {
        ReleaseKeeps(cfg, s1, slot, {slot});
      } else {
        AdvanceIdKeeps(cfg, s1, slot, {slot});
        BelowCap(cfg, s1);
        SubmitKeeps(cfg, AdvanceId(cfg, s1, slot), slot, choice, {slot});
      }
    }
  }

  lemma {:induction false} StepKeeps(cfg: Config, s: State, e: Event)
    requires cfg.Valid() && Inv(cfg, s)
    ensures Inv(cfg, Step(cfg, s, e))
  {
    hide GroupInv, MinSize;
    if Enabled(cfg, s, e) {
      match e
      case Start(choice) => StartKeeps(cfg, s, choice);
      case Deliver(slot, ns, choice) => DeliverKeeps(cfg, s, slot, ns, choice);
      case SetDraining(ns) =>
      case WarmupReset =>
    }
  }

  lemma {:induction false} ExecKeeps(cfg: Config, s: State, run: seq<Event>)
    requires cfg.Valid() && Inv(cfg, s)
    ensures Inv(cfg, Exec(cfg, s, run))
    decreases |run|
  {
    if run != [] {
      StepKeeps(cfg, s, run[0]);
      ExecKeeps(cfg, Step(cfg, s, run[0]), run[1..]);
    }
  }

  lemma {:induction false} ContextCount(cfg: Config, s: State)
    requires cfg.Valid() && Inv(cfg, s)
    ensures |s.ctxs| == cfg.R()
  {
  }

  lemma {:induction false} EveryRun(cfg: Config, run: seq<Event>)
    requires cfg.Valid()
    ensures Inv(cfg, Exec(cfg, Init(cfg), run))
  {
    assert Inv(cfg, Init(cfg));
    ExecKeeps(cfg, Init(cfg), run);
  }
}
