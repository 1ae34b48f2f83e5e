/** What the replica engine promises over all its runs. */
module ReplicaTheorems {
  import opened Arith
  import opened Counting
  import opened Workload
  import opened ReplicaGroup
  import opened ReplicaRuns

  // ---------------------------------------------------------------- sums

  /** Requests in flight on all contexts together. */
  ghost function Depths(ctxs: seq<Ctx>): nat {
    if ctxs == [] then 0 else Depths(ctxs[..|ctxs| - 1]) + ctxs[|ctxs| - 1].depth
  }

  lemma {:induction false} DepthsUpdate(ctxs: seq<Ctx>, k: nat, c: Ctx)
    requires k < |ctxs|
    ensures Depths(ctxs[k := c]) + ctxs[k].depth == Depths(ctxs) + c.depth
  {
    var m := |ctxs| - 1;
    if k == m {
      assert ctxs[k := c][..m] == ctxs[..m];
    } else {
      assert ctxs[k := c][..m] == ctxs[..m][k := c];
      DepthsUpdate(ctxs[..m], k, c);
    }
  }

  lemma {:induction false} DepthsAdd(a: seq<Ctx>, b: seq<Ctx>, reps: seq<Replica>)
    requires |a| == |b| == |reps|
    requires forall k :: 0 <= k < |a| ==> b[k].depth == a[k].depth + if reps[k].outstanding then 1 else 0
    ensures Depths(b) == Depths(a) + Count(reps, IsOut())
  {
    if a != [] {
      var m := |a| - 1;
      assert forall k :: 0 <= k < m ==> a[..m][k] == a[k] && b[..m][k] == b[k] && reps[..m][k] == reps[k];
      DepthsAdd(a[..m], b[..m], reps[..m]);
    }
  }

  /** Replicas the live groups still wait for. */
  ghost function Missing(groups: seq<Group>, R: nat): int {
    if groups == [] then 0
    else
      var g := groups[|groups| - 1];
      Missing(groups[..|groups| - 1], R) + if g.Live? then R - g.finished else 0
  }

  /** Counting the outstanding replicas by context or by group gives the same number. */
  lemma {:induction false} DoubleCount(cfg: Config, ctxs: seq<Ctx>, groups: seq<Group>)
    requires |ctxs| == cfg.R()
    requires forall g :: 0 <= g < |groups| && groups[g].Live? ==>
               |groups[g].reps| == cfg.R() && groups[g].finished + Count(groups[g].reps, IsOut()) == cfg.R()
    requires forall k :: 0 <= k < cfg.R() ==> ctxs[k].depth == Count(groups, OutOn(k))
    ensures Depths(ctxs) == Missing(groups, cfg.R())
    decreases |groups|
  {
    var R := cfg.R();
    if groups == [] {
      var none := seq(R, _ => Replica(0, false, 0, false));
      var zero := seq(R, _ => Ctx(0, 0, 0, false));
      CountNone(none, IsOut());
      DepthsAdd(zero, ctxs, none);
      DepthsZero(zero);
    } else {
      var m := |groups| - 1;
      var g := groups[m];
      var below := seq(R, k requires 0 <= k < R => Ctx(Count(groups[..m], OutOn(k)), 0, 0, false));
      assert forall h :: 0 <= h < m ==> groups[..m][h] == groups[h];
      DoubleCount(cfg, below, groups[..m]);
      var row := if g.Live? then g.reps else seq(R, _ => Replica(0, false, 0, false));
      if g.Released? {
        CountNone(row, IsOut());
      }
      DepthsAdd(below, ctxs, row);
    }
  }

  lemma {:induction false} DepthsZero(ctxs: seq<Ctx>)
    ensures Depths(ctxs) == 0 <==> forall k :: 0 <= k < |ctxs| ==> ctxs[k].depth == 0
  {
    if ctxs != [] {
      DepthsZero(ctxs[..|ctxs| - 1]);
      assert forall k :: 0 <= k < |ctxs| - 1 ==> ctxs[..|ctxs| - 1][k] == ctxs[k];
    }
  }

  // ---------------------------------------------------------------- conservation

  /** In every run each depth is at most the queue depth, and the depths add up to the missing replicas. */
  lemma {:induction false} Conservation(cfg: Config, run: seq<Event>)
    requires cfg.Valid()
    ensures var s := Exec(cfg, Init(cfg), run);
            && |s.ctxs| == cfg.R()
            && Depths(s.ctxs) == Missing(s.groups, cfg.R())
            && forall k :: 0 <= k < cfg.R() ==>
                 s.ctxs[k].depth == Count(s.groups, OutOn(k)) && s.ctxs[k].depth <= cfg.queueDepth
  {
    var s := Exec(cfg, Init(cfg), run);
    EveryRun(cfg, run);
    assert forall g :: 0 <= g < |s.groups| ==> GroupInv(cfg, s.groups[g], g, false);
    DoubleCount(cfg, s.ctxs, s.groups);
  }

  ghost predicate NoReset(run: seq<Event>) { forall i :: 0 <= i < |run| ==> run[i] != WarmupReset }

  /** What the counters of context `k` miss to balance. */
  function Carry(s: State, k: nat): int
    requires k < |s.ctxs|
  {
    s.ctxs[k].completed + s.ctxs[k].depth - s.ctxs[k].submitted
  }

  lemma {:induction false} CarryStep(cfg: Config, s: State, e: Event, k: nat)
    requires cfg.Valid() && Inv(cfg, s) && k < cfg.R() && e != WarmupReset
    ensures |Step(cfg, s, e).ctxs| == cfg.R() && Carry(Step(cfg, s, e), k) == Carry(s, k)
  {
    hide GroupInv, IdAt, MinSize;
    if e.Deliver? && Enabled(cfg, s, e) {
      DepthPositive(cfg, s, e.slot, e.ns, {});
    }
  }

  lemma {:induction false} CarryFixed(cfg: Config, s: State, run: seq<Event>, k: nat)
    requires cfg.Valid() && Inv(cfg, s) && k < cfg.R() && NoReset(run)
    ensures |Exec(cfg, s, run).ctxs| == cfg.R() && Carry(Exec(cfg, s, run), k) == Carry(s, k)
    decreases |run|
  {
    if run != [] {
      CarryStep(cfg, s, run[0], k);
      StepKeeps(cfg, s, run[0]);
      CarryFixed(cfg, Step(cfg, s, run[0]), run[1..], k);
    }
  }

  /** Without a warm-up reset, submitted equals completed plus in flight on every context. */
  lemma {:induction false} CountersBalance(cfg: Config, run: seq<Event>, k: nat)
    requires cfg.Valid() && k < cfg.R() && NoReset(run)
    ensures var s := Exec(cfg, Init(cfg), run);
            |s.ctxs| == cfg.R() && s.ctxs[k].submitted == s.ctxs[k].completed + s.ctxs[k].depth
  {
    EveryRun(cfg, []);
    CarryFixed(cfg, Init(cfg), run, k);
  }

  /** After the warm-up reset the imbalance stays what was in flight at the reset. */
  lemma {:induction false} WarmupCarry(cfg: Config, before: seq<Event>, after: seq<Event>, k: nat)
    requires cfg.Valid() && k < cfg.R() && NoReset(after)
    requires Enabled(cfg, Exec(cfg, Init(cfg), before), WarmupReset)
    ensures var s0 := Exec(cfg, Init(cfg), before);
            var s := Exec(cfg, Step(cfg, s0, WarmupReset), after);
            && |s0.ctxs| == |s.ctxs| == cfg.R()
            && s.ctxs[k].submitted + s0.ctxs[k].depth == s.ctxs[k].completed + s.ctxs[k].depth
  {
    var s0 := Exec(cfg, Init(cfg), before);
    EveryRun(cfg, before);
    StepKeeps(cfg, s0, WarmupReset);
    CarryFixed(cfg, Step(cfg, s0, WarmupReset), after, k);
  }

  // ---------------------------------------------------------------- rounds

  /** Rounds completed by all groups, released ones included. */
  ghost function Rounds(groups: seq<Group>): nat {
    if groups == [] then 0 else Rounds(groups[..|groups| - 1]) + groups[|groups| - 1].round
  }

  lemma {:induction false} RoundsUpdate(groups: seq<Group>, i: nat, g: Group)
    requires i < |groups|
    ensures Rounds(groups[i := g]) + groups[i].round == Rounds(groups) + g.round
  {
    var m := |groups| - 1;
    if i == m {
      assert groups[i := g][..m] == groups[..m];
    } else {
      assert groups[i := g][..m] == groups[..m][i := g];
      RoundsUpdate(groups[..m], i, g);
    }
  }

  ghost function IsLive(): Group -> bool { (g: Group) => g.Live? }

  /** Every context has been sent one request for each round that any group started. */
  ghost predicate OncePerRound(s: State) {
    forall k :: 0 <= k < |s.ctxs| ==> s.ctxs[k].submitted == Rounds(s.groups) + Count(s.groups, IsLive())
  }

  lemma {:induction false} OncePerRoundStep(cfg: Config, s: State, e: Event)
    requires cfg.Valid() && Inv(cfg, s) && OncePerRound(s) && (e != WarmupReset || !cfg.warmup)
    ensures OncePerRound(Step(cfg, s, e))
  {
    hide GroupInv, IdAt, MinSize, CapInv, CoreInv;
    var s' := Step(cfg, s, e);
    if Enabled(cfg, s, e) {
      match e
      case Start(choice) =>
        var g := s'.groups[|s.groups|];
        assert s'.groups == s.groups + [g];
        assert (s.groups + [g])[..|s.groups|] == s.groups;
        CountAppend(s.groups, g, IsLive());
      case Deliver(slot, ns, choice) =>
        OncePerRoundDeliver(cfg, s, slot, ns, choice);
      case SetDraining(_) =>
      case WarmupReset =>
    }
  }

  lemma {:induction false} OncePerRoundDeliver(cfg: Config, s: State, slot: nat, ns: nat, choice: Choice)
    requires cfg.Valid() && OncePerRound(s) && Outstanding(s, slot, ns)
    ensures OncePerRound(TaskComplete(cfg, s, slot, ns, choice))
  {
    hide IdAt, MinSize, NextId, PickOffset, PickRead, NextCursor, OncePerRound;
    var s' := TaskComplete(cfg, s, slot, ns, choice);
    var g := s'.groups[slot];
    assert s'.groups == s.groups[slot := g];
    RoundsUpdate(s.groups, slot, g);
    CountUpdate(s.groups, slot, g, IsLive());
    RoundsBalance(s, s', if IsLast(s, slot) && g.Live? then 1 else 0);
  }

  lemma {:induction false} RoundsBalance(s: State, s': State, n: nat)
    requires OncePerRound(s) && |s'.ctxs| == |s.ctxs|
    requires forall k :: 0 <= k < |s.ctxs| ==> s'.ctxs[k].submitted == s.ctxs[k].submitted + n
    requires Rounds(s'.groups) + Count(s'.groups, IsLive()) == Rounds(s.groups) + Count(s.groups, IsLive()) + n
    ensures OncePerRound(s')
  {
  }

  lemma {:induction false} OncePerRoundRun(cfg: Config, s: State, run: seq<Event>)
    requires cfg.Valid() && Inv(cfg, s) && OncePerRound(s) && (NoReset(run) || !cfg.warmup)
    ensures OncePerRound(Exec(cfg, s, run))
    decreases |run|
  {
    if run != [] {
      OncePerRoundStep(cfg, s, run[0]);
      StepKeeps(cfg, s, run[0]);
      OncePerRoundRun(cfg, Step(cfg, s, run[0]), run[1..]);
    }
  }

  /** How often replica `k` of `slot` comes back during a run. */
  ghost function Returned(cfg: Config, s: State, run: seq<Event>, slot: nat, k: nat): nat
    requires cfg.Valid()
    decreases |run|
  {
    if run == [] then 0
    else (if Returns(cfg, s, run[0], slot, k) then 1 else 0) + Returned(cfg, Step(cfg, s, run[0]), run[1..], slot, k)
  }

  ghost predicate Returns(cfg: Config, s: State, e: Event, slot: nat, k: nat) {
    e.Deliver? && e.slot == slot && e.ns == k && Enabled(cfg, s, e)
  }

  /** Once for every completed round, and once more if it is back before its group. */
  ghost function Expected(s: State, slot: nat, k: nat): nat {
    if slot >= |s.groups| then 0
    else
      var g := s.groups[slot];
      if g.Live? && k < |g.reps| && !g.reps[k].outstanding then g.round + 1 else g.round
  }

  lemma {:induction false} ReturnStep(cfg: Config, s: State, e: Event, slot: nat, k: nat)
    requires cfg.Valid() && Inv(cfg, s) && k < cfg.R()
    ensures Expected(Step(cfg, s, e), slot, k) == Expected(s, slot, k) + if Returns(cfg, s, e, slot, k) then 1 else 0
  {
    hide IdAt, MinSize, CapInv, NextId, ReleaseInv, Bump, PickOffset, PickRead, NextCursor;
    if e.Deliver? && Enabled(cfg, s, e) && e.slot == slot {
      assert GroupInv(cfg, s.groups[slot], slot, false);
      if IsLast(s, slot) {
        OthersBack(cfg, s, slot, e.ns);
      }
    }
  }

  /** When the last replica of a round comes back, the others are back. */
  lemma {:induction false} OthersBack(cfg: Config, s: State, slot: nat, ns: nat)
    requires cfg.Valid() && Inv(cfg, s) && Outstanding(s, slot, ns) && IsLast(s, slot)
    ensures forall k :: 0 <= k < cfg.R() && k != ns ==> !s.groups[slot].reps[k].outstanding
  {
    var g := s.groups[slot];
    var reps := g.reps[ns := g.reps[ns].(outstanding := false)];
    assert GroupInv(cfg, g, slot, false);
    CountUpdate(g.reps, ns, reps[ns], IsOut());
    CountNone(reps, IsOut());
    forall k | 0 <= k < cfg.R() && k != ns
      ensures !g.reps[k].outstanding
    {
      assert g.reps[k] == reps[k];
    }
  }

  lemma {:induction false} ReturnRun(cfg: Config, s: State, run: seq<Event>, slot: nat, k: nat)
    requires cfg.Valid() && Inv(cfg, s) && k < cfg.R()
    ensures Expected(Exec(cfg, s, run), slot, k) == Expected(s, slot, k) + Returned(cfg, s, run, slot, k)
    decreases |run|
  {
    hide Step, CoreInv, Expected, Returns;
    if run != [] {
      ReturnStep(cfg, s, run[0], slot, k);
      StepKeeps(cfg, s, run[0]);
      ReturnRun(cfg, Step(cfg, s, run[0]), run[1..], slot, k);
    }
  }

  /** In every run each replica of each group comes back exactly once per round: once for every completed
      round, and in the current one if and only if it is not in flight. So it went out once per round. */
  lemma {:induction false} OncePerReplica(cfg: Config, run: seq<Event>, slot: nat, k: nat)
    requires cfg.Valid() && k < cfg.R()
    ensures var s := Exec(cfg, Init(cfg), run);
            var n := Returned(cfg, Init(cfg), run, slot, k);
            slot < |s.groups| ==>
              var g := s.groups[slot];
              if g.Live? then |g.reps| == cfg.R() && n + (if g.reps[k].outstanding then 1 else 0) == g.round + 1
              else n == g.round
  {
    EveryRun(cfg, []);
    EveryRun(cfg, run);
    ReturnRun(cfg, Init(cfg), run, slot, k);
    var s := Exec(cfg, Init(cfg), run);
    if slot < |s.groups| {
      assert GroupInv(cfg, s.groups[slot], slot, false);
    }
  }

  /** Round agreement in every run: one offset, one direction and one id per live group, and the barrier
      counts exactly the replicas that are back. Every context is sent one request per round. */
  lemma {:induction false} RoundAgreement(cfg: Config, run: seq<Event>, slot: nat)
    requires cfg.Valid()
    ensures var s := Exec(cfg, Init(cfg), run);
            && (slot < |s.groups| && s.groups[slot].Live? ==>
                  var g := s.groups[slot];
                  && |g.reps| == cfg.R() && Agree(g.reps)
                  && g.finished < cfg.R() && g.finished == cfg.R() - Count(g.reps, IsOut()))
            && (NoReset(run) || !cfg.warmup ==> OncePerRound(s))
  {
    EveryRun(cfg, run);
    var s := Exec(cfg, Init(cfg), run);
    if slot < |s.groups| {
      assert GroupInv(cfg, s.groups[slot], slot, false);
    }
    if NoReset(run) || !cfg.warmup {
      EveryRun(cfg, []);
      OncePerRoundRun(cfg, Init(cfg), run);
    }
  }

  // ---------------------------------------------------------------- draining

  /** Completions that reach the engine during a run. */
  ghost function Delivered(cfg: Config, s: State, run: seq<Event>): nat
    requires cfg.Valid()
    decreases |run|
  {
    if run == [] then 0
    else (if run[0].Deliver? && Enabled(cfg, s, run[0]) then 1 else 0)
         + Delivered(cfg, Step(cfg, s, run[0]), run[1..])
  }

  /** `s'` can follow the draining state `s`: nothing was submitted and no group restarted. */
  ghost predicate Drained(s: State, s': State) {
    && |s'.ctxs| == |s.ctxs| && |s'.groups| == |s.groups|
    && AnyDraining(s')
    && (forall k :: 0 <= k < |s.ctxs| ==>
          && s'.ctxs[k].submitted <= s.ctxs[k].submitted && s'.ctxs[k].depth <= s.ctxs[k].depth
          && (s.ctxs[k].draining ==> s'.ctxs[k].draining))
    && (forall g :: 0 <= g < |s.groups| && s'.groups[g].Live? ==>
          s.groups[g].Live? && s'.groups[g].round == s.groups[g].round)
  }

  /** With a draining context a completion never leads to a submission. */
  lemma {:induction false} DrainDeliver(cfg: Config, s: State, slot: nat, ns: nat, choice: Choice)
    requires cfg.Valid() && AnyDraining(s) && Outstanding(s, slot, ns)
    ensures var s1 := Arrive(s, slot, ns);
            TaskComplete(cfg, s, slot, ns, choice) == if IsLast(s, slot) then Release(s1, slot) else s1
  {
    var k :| 0 <= k < |s.ctxs| && s.ctxs[k].draining;
    assert Arrive(s, slot, ns).ctxs[k].draining;
  }

  ghost predicate SameSubmitted(a: seq<Ctx>, b: seq<Ctx>) {
    |a| == |b| && forall k :: 0 <= k < |a| ==> a[k].submitted == b[k].submitted
  }

  lemma {:induction false} DrainArrive(s: State, slot: nat, ns: nat)
    requires AnyDraining(s) && Outstanding(s, slot, ns) && s.ctxs[ns].depth >= 1
    ensures var s1 := Arrive(s, slot, ns);
            var s' := if IsLast(s, slot) then Release(s1, slot) else s1;
            Drained(s, s') && SameSubmitted(s.ctxs, s'.ctxs) && Depths(s'.ctxs) + 1 == Depths(s.ctxs)
  {
    var k :| 0 <= k < |s.ctxs| && s.ctxs[k].draining;
    var s1 := Arrive(s, slot, ns);
    assert s1.ctxs[k].draining;
    DepthsUpdate(s.ctxs, ns, s1.ctxs[ns]);
  }

  lemma {:induction false} DrainOther(cfg: Config, s: State, e: Event)
    requires cfg.Valid() && Inv(cfg, s) && AnyDraining(s)
    requires e.SetDraining? || e.WarmupReset?
    ensures Drained(s, Step(cfg, s, e)) && Depths(Step(cfg, s, e).ctxs) == Depths(s.ctxs)
    ensures e.SetDraining? ==> SameSubmitted(s.ctxs, Step(cfg, s, e).ctxs)
  {
    var k :| 0 <= k < |s.ctxs| && s.ctxs[k].draining;
    var s' := Step(cfg, s, e);
    assert s'.ctxs[k].draining;
    SameDepths(s.ctxs, s'.ctxs);
  }

  lemma {:induction false} DrainStep(cfg: Config, s: State, e: Event)
    requires cfg.Valid() && Inv(cfg, s) && AnyDraining(s)
    ensures Drained(s, Step(cfg, s, e))
    ensures e != WarmupReset ==> SameSubmitted(s.ctxs, Step(cfg, s, e).ctxs)
    ensures Depths(Step(cfg, s, e).ctxs) + (if e.Deliver? && Enabled(cfg, s, e) then 1 else 0) == Depths(s.ctxs)
  {
    if e.SetDraining? || e.WarmupReset? {
      DrainOther(cfg, s, e);
    } else if e.Deliver? && Enabled(cfg, s, e) {
      DepthPositive(cfg, s, e.slot, e.ns, {});
      DrainDeliver(cfg, s, e.slot, e.ns, e.choice);
      DrainArrive(s, e.slot, e.ns);
    } else {
      assert !Enabled(cfg, s, e);
    }
  }

  lemma {:induction false} SameDepths(a: seq<Ctx>, b: seq<Ctx>)
    requires |a| == |b| && forall k :: 0 <= k < |a| ==> a[k].depth == b[k].depth
    ensures Depths(a) == Depths(b)
  {
    var none := seq(|a|, _ => Replica(0, false, 0, false));
    CountNone(none, IsOut());
    DepthsAdd(a, b, none);
  }

  lemma {:induction false} DrainedTrans(a: State, b: State, c: State)
    requires Drained(a, b) && Drained(b, c)
    ensures Drained(a, c)
  {
  }

  /** Drain safety: once one context drains nothing is submitted any more, in no continuation, and
      every completion takes one request out for good. */
  lemma {:induction false} DrainSafety(cfg: Config, s: State, run: seq<Event>)
    requires cfg.Valid() && Inv(cfg, s) && AnyDraining(s)
    ensures Drained(s, Exec(cfg, s, run))
    ensures Depths(Exec(cfg, s, run).ctxs) + Delivered(cfg, s, run) == Depths(s.ctxs)
    decreases |run|
  {
    hide CoreInv, Step, Enabled;
    if run != [] {
      var s1 := Step(cfg, s, run[0]);
      DrainStep(cfg, s, run[0]);
      StepKeeps(cfg, s, run[0]);
      DrainSafety(cfg, s1, run[1..]);
    }
  }

  /** A live group keeps some context busy. */
  lemma {:induction false} LiveHasDepth(cfg: Config, s: State, g: nat)
    requires cfg.Valid() && Inv(cfg, s) && g < |s.groups|
    ensures s.groups[g].Live? ==> exists k :: 0 <= k < cfg.R() && s.ctxs[k].depth > 0
  {
    if s.groups[g].Live? {
      assert GroupInv(cfg, s.groups[g], g, false);
      CountNone(s.groups[g].reps, IsOut());
      var k :| 0 <= k < cfg.R() && IsOut()(s.groups[g].reps[k]);
      assert OutOn(k)(s.groups[g]);
      CountNone(s.groups, OutOn(k));
    }
  }

  /** The exit test of the drain loop: all depths zero, and every group was released exactly once. */
  lemma {:induction false} DrainComplete(cfg: Config, s: State)
    requires cfg.Valid() && Inv(cfg, s) && |s.groups| == cfg.queueDepth
    ensures (forall k :: 0 <= k < cfg.R() ==> s.ctxs[k].depth == 0) <==>
            (NoDup(s.released) && |s.released| == cfg.queueDepth
             && forall g :: 0 <= g < cfg.queueDepth ==> g in s.released && s.groups[g].Released?)
  {
    if forall k :: 0 <= k < cfg.R() ==> s.ctxs[k].depth == 0 {
      forall g: nat | g < |s.groups|
        ensures s.groups[g].Released?
      {
        LiveHasDepth(cfg, s, g);
      }
      assert forall i :: 0 <= i < |s.released| ==> s.released[i] in s.released;
      FullLength(s.released, cfg.queueDepth);
    } else {
      var k :| 0 <= k < cfg.R() && s.ctxs[k].depth != 0;
      CountNone(s.groups, OutOn(k));
    }
  }

  /** A group's shared buffer goes when, and only when, its last outstanding replica comes back. */
  lemma {:induction false} ReleasedLast(cfg: Config, s: State, e: Event, slot: nat)
    requires cfg.Valid() && Inv(cfg, s)
    requires slot < |s.groups| && s.groups[slot].Live? && Step(cfg, s, e).groups[slot].Released?
    ensures e.Deliver? && e.slot == slot && Outstanding(s, slot, e.ns)
    ensures forall k :: 0 <= k < cfg.R() && k != e.ns ==> !s.groups[slot].reps[k].outstanding
  {
    OthersBack(cfg, s, slot, e.ns);
  }

  /** The drain loop can always end: as many completions as there are requests in flight release everything. */
  lemma {:induction false} DrainCanFinish(cfg: Config, s: State) returns (run: seq<Event>)
    requires cfg.Valid() && Inv(cfg, s) && AnyDraining(s) && |s.groups| == cfg.queueDepth
    ensures |run| == Depths(s.ctxs) == Delivered(cfg, s, run)
    ensures forall g :: 0 <= g < |Exec(cfg, s, run).groups| ==> Exec(cfg, s, run).groups[g].Released?
    decreases Depths(s.ctxs)
  {
    hide Step, GroupInv, AnyDraining;
    DepthsZero(s.ctxs);
    if Depths(s.ctxs) == 0 {
      DrainComplete(cfg, s);
      run := [];
    } else {
      var slot, ns := SomeOutstanding(cfg, s);
      var e := Deliver(slot, ns, Choice(0, 0, 0));
      StepKeeps(cfg, s, e);
      DrainStep(cfg, s, e);
      var rest := DrainCanFinish(cfg, Step(cfg, s, e));
      run := [e] + rest;
      assert run[1..] == rest;
    }
  }

  /** A busy context has a request the device can hand back. */
  lemma {:induction false} SomeOutstanding(cfg: Config, s: State) returns (slot: nat, ns: nat)
    requires cfg.Valid() && Inv(cfg, s) && exists k :: 0 <= k < |s.ctxs| && s.ctxs[k].depth != 0
    ensures Outstanding(s, slot, ns)
  {
    ns :| ns < |s.ctxs| && s.ctxs[ns].depth != 0;
    CountNone(s.groups, OutOn(ns));
    slot :| slot < |s.groups| && OutOn(ns)(s.groups[slot]);
  }

  // ---------------------------------------------------------------- sequential offsets

  /** Sequential mode: the shared cursor is the number of rounds submitted, modulo the smallest namespace. */
  ghost predicate CursorCounts(cfg: Config, s: State)
    requires cfg.Valid()
  {
    |s.ctxs| == cfg.R() && s.cursor == CursorAfter(s.ctxs[0].submitted, MinSize(cfg.sizes))
  }

  /** A step submits at most one round; a round it submits is at the offset the cursor shows. */
  lemma {:induction false} SweepStep(cfg: Config, s: State, e: Event)
    requires cfg.Valid() && Inv(cfg, s) && CursorCounts(cfg, s) && cfg.mode == Sequential
    requires e != WarmupReset || !cfg.warmup
    ensures CursorCounts(cfg, Step(cfg, s, e))
    ensures var s' := Step(cfg, s, e);
            s'.ctxs[0].submitted != s.ctxs[0].submitted ==>
              && s'.ctxs[0].submitted == s.ctxs[0].submitted + 1
              && exists slot :: 0 <= slot < |s'.groups| && RoundAt(s', slot, s.cursor)
  {
    hide GroupInv, IdAt, MinSize, CapInv;
    var s' := Step(cfg, s, e);
    if s'.ctxs[0].submitted != s.ctxs[0].submitted {
      var slot := if e.Start? then |s.groups| else e.slot;
      assert RoundAt(s', slot, s.cursor);
    }
  }

  /** All replicas of the group are in flight for the same offset. */
  ghost predicate RoundAt(s: State, slot: nat, offset: nat)
    requires slot < |s.groups|
  {
    && s.groups[slot].Live? && s.groups[slot].finished == 0
    && forall k :: 0 <= k < |s.groups[slot].reps| ==>
         s.groups[slot].reps[k].outstanding && s.groups[slot].reps[k].offset == offset
  }

  lemma {:induction false} SweepRun(cfg: Config, s: State, run: seq<Event>)
    requires cfg.Valid() && Inv(cfg, s) && CursorCounts(cfg, s) && cfg.mode == Sequential
    requires NoReset(run) || !cfg.warmup
    ensures CursorCounts(cfg, Exec(cfg, s, run))
    decreases |run|
  {
    if run != [] {
      SweepStep(cfg, s, run[0]);
      StepKeeps(cfg, s, run[0]);
      SweepRun(cfg, Step(cfg, s, run[0]), run[1..]);
    }
  }

  /** In every sequential run the n-th round submitted, counting from 0, is at n modulo the smallest
      namespace on every replica, whichever group it belongs to and however completions interleave. */
  lemma {:induction false} SequentialSweep(cfg: Config, run: seq<Event>, e: Event)
    requires cfg.Valid() && cfg.mode == Sequential
    requires (NoReset(run) && e != WarmupReset) || !cfg.warmup
    ensures var s := Exec(cfg, Init(cfg), run);
            var s' := Step(cfg, s, e);
            && |s.ctxs| == |s'.ctxs| == cfg.R()
            && s.cursor == Nth(s.ctxs[0].submitted, MinSize(cfg.sizes))
            && (s'.ctxs[0].submitted != s.ctxs[0].submitted ==>
                  exists slot :: 0 <= slot < |s'.groups|
                    && RoundAt(s', slot, Nth(s.ctxs[0].submitted, MinSize(cfg.sizes))))
  {
    EveryRun(cfg, []);
    EveryRun(cfg, run);
    SweepRun(cfg, Init(cfg), run);
    var s := Exec(cfg, Init(cfg), run);
    SweepStep(cfg, s, e);
    CursorIsNth(s.ctxs[0].submitted, MinSize(cfg.sizes));
  }

  // ---------------------------------------------------------------- the cap

  /** The cap is exact on every namespace of every run. */
  lemma {:induction false} ExactCap(cfg: Config, run: seq<Event>)
    requires cfg.Valid() && cfg.cap > 0
    ensures var s := Exec(cfg, Init(cfg), run);
            |s.ctxs| == cfg.R() && forall k :: 0 <= k < cfg.R() ==> s.ctxs[k].submitted <= cfg.cap
  {
    EveryRun(cfg, run);
  }

  ghost predicate OnlyCapDrains(run: seq<Event>) {
    NoReset(run) && forall i :: 0 <= i < |run| ==> !run[i].SetDraining?
  }

  ghost predicate DrainsAtCap(cfg: Config, s: State) {
    AnyDraining(s) ==> cfg.cap > 0 && forall k :: 0 <= k < |s.ctxs| ==> s.ctxs[k].submitted >= cfg.cap
  }

  lemma {:induction false} CapRun(cfg: Config, s: State, run: seq<Event>)
    requires cfg.Valid() && Inv(cfg, s) && DrainsAtCap(cfg, s) && OnlyCapDrains(run)
    ensures DrainsAtCap(cfg, Exec(cfg, s, run))
    decreases |run|
  {
    hide CoreInv, Step, AnyDraining;
    if run != [] {
      var s1 := Step(cfg, s, run[0]);
      StepKeeps(cfg, s, run[0]);
      CapStep(cfg, s, run[0]);
      CapRun(cfg, s1, run[1..]);
    }
  }

  lemma {:induction false} CapStep(cfg: Config, s: State, e: Event)
    requires cfg.Valid() && Inv(cfg, s) && DrainsAtCap(cfg, s) && !e.SetDraining? && !e.WarmupReset?
    ensures DrainsAtCap(cfg, Step(cfg, s, e))
  {
    hide GroupInv, IdAt, MinSize;
    StepKeeps(cfg, s, e);
    if AnyDraining(s) {
      DrainStep(cfg, s, e);
    } else {
      NewDrain(cfg, s, e);
      var s' := Step(cfg, s, e);
      if AnyDraining(s') {
        forall k: nat | k < |s'.ctxs|
          ensures cfg.cap > 0 && s'.ctxs[k].submitted >= cfg.cap
        {
          DrainAtCap(cfg, s, e, k);
        }
      }
    }
  }

  /** A run that only the cap ends submits exactly the cap on every namespace, and completes exactly that. */
  lemma {:induction false} CapIsReached(cfg: Config, run: seq<Event>, k: nat)
    requires cfg.Valid() && k < cfg.R() && OnlyCapDrains(run)
    ensures var s := Exec(cfg, Init(cfg), run);
            && |s.ctxs| == cfg.R()
            && (AnyDraining(s) ==> cfg.cap > 0 && s.ctxs[k].submitted == cfg.cap)
            && (AnyDraining(s) && s.ctxs[k].depth == 0 ==> s.ctxs[k].completed == cfg.cap)
  {
    EveryRun(cfg, []);
    EveryRun(cfg, run);
    CapRun(cfg, Init(cfg), run);
    CountersBalance(cfg, run, k);
  }

  /** Context `k` was stopped: time was up, or its namespace gone. */
  ghost predicate Stopped(cfg: Config, s: State, run: seq<Event>, k: nat)
    requires cfg.Valid()
    decreases |run|
  {
    run != [] && (Stops(cfg, s, run[0], k) || Stopped(cfg, Step(cfg, s, run[0]), run[1..], k))
  }

  ghost predicate Stops(cfg: Config, s: State, e: Event, k: nat) {
    e.SetDraining? && e.ns == k && Enabled(cfg, s, e)
  }

  ghost predicate AtCap(cfg: Config, c: Ctx) { cfg.cap > 0 && c.submitted >= cfg.cap }

  lemma {:induction false} DrainCause(cfg: Config, s: State, e: Event, k: nat, stopped: bool)
    requires cfg.Valid() && |s.ctxs| == cfg.R() && k < |s.ctxs|
    requires s.ctxs[k].draining <==> stopped || AtCap(cfg, s.ctxs[k])
    ensures var s' := Step(cfg, s, e);
            && |s'.ctxs| == cfg.R()
            && (s'.ctxs[k].draining <==> stopped || Stops(cfg, s, e, k) || AtCap(cfg, s'.ctxs[k]))
  {
    hide IdAt, MinSize;
  }

  lemma {:induction false} DrainCauses(cfg: Config, s: State, run: seq<Event>, k: nat, stopped: bool)
    requires cfg.Valid() && |s.ctxs| == cfg.R() && k < |s.ctxs|
    requires s.ctxs[k].draining <==> stopped || AtCap(cfg, s.ctxs[k])
    ensures var s' := Exec(cfg, s, run);
            && |s'.ctxs| == cfg.R()
            && (s'.ctxs[k].draining <==> stopped || Stopped(cfg, s, run, k) || AtCap(cfg, s'.ctxs[k]))
    decreases |run|
  {
    hide Step, Stops, AtCap;
    if run != [] {
      DrainCause(cfg, s, run[0], k, stopped);
      DrainCauses(cfg, Step(cfg, s, run[0]), run[1..], k, stopped || Stops(cfg, s, run[0], k));
    }
  }

  /** A context drains if and only if it was stopped itself, or exactly the cap has been submitted to it. */
  lemma {:induction false} DrainsIff(cfg: Config, run: seq<Event>, k: nat)
    requires cfg.Valid() && k < cfg.R()
    ensures var s := Exec(cfg, Init(cfg), run);
            && |s.ctxs| == cfg.R()
            && (s.ctxs[k].draining <==>
                  Stopped(cfg, Init(cfg), run, k) || (cfg.cap > 0 && s.ctxs[k].submitted == cfg.cap))
  {
    EveryRun(cfg, run);
    DrainCauses(cfg, Init(cfg), run, k, false);
  }

  /** A step that submits found no context draining, and if it makes one drain it makes all drain. */
  lemma {:induction false} SubmitSites(cfg: Config, s: State, e: Event, k: nat)
    requires cfg.Valid() && Inv(cfg, s) && k < cfg.R() && e != WarmupReset
    ensures var s' := Step(cfg, s, e);
            && |s'.ctxs| == cfg.R()
            && (s'.ctxs[k].submitted != s.ctxs[k].submitted ==> !AnyDraining(s))
            && (!AnyDraining(s) && AnyDraining(s') && !e.SetDraining? ==>
                  forall j :: 0 <= j < cfg.R() ==> s'.ctxs[j].draining)
  {
    StepKeeps(cfg, s, e);
    if AnyDraining(s) {
      DrainStep(cfg, s, e);
    } else if !e.SetDraining? {
      NewDrain(cfg, s, e);
    }
  }

  /** Only a submission that reaches the cap makes a context drain by itself, and then all of them. */
  lemma {:induction false} NewDrain(cfg: Config, s: State, e: Event)
    requires cfg.Valid() && Inv(cfg, s) && !AnyDraining(s) && !e.SetDraining?
    ensures AnyDraining(Step(cfg, s, e)) ==> forall j :: 0 <= j < cfg.R() ==> Step(cfg, s, e).ctxs[j].draining
  {
    hide GroupInv, IdAt, MinSize, Step;
    var s' := Step(cfg, s, e);
    StepKeeps(cfg, s, e);
    if AnyDraining(s') {
      var j :| 0 <= j < |s'.ctxs| && s'.ctxs[j].draining;
      DrainAtCap(cfg, s, e, j);
    }
  }

  lemma {:induction false} DrainAtCap(cfg: Config, s: State, e: Event, j: nat)
    requires cfg.Valid() && Inv(cfg, s) && !AnyDraining(s) && !e.SetDraining?
    requires j < |Step(cfg, s, e).ctxs| && Step(cfg, s, e).ctxs[j].draining
    ensures cfg.cap > 0 && Step(cfg, s, e).ctxs[j].submitted >= cfg.cap
  {
    assert !s.ctxs[j].draining;
    if e.Deliver? {
      assert !Arrive(s, e.slot, e.ns).ctxs[j].draining;
    }
  }
}
