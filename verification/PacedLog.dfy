/** What a run of the paced replica engine leaves at the groups and the contexts: ids, offsets, counters. */
module PacedLog {
  import opened Arith
  import opened Counting
  import opened Workload
  import opened SubmissionLog
  import opened ReplicaGroup
  import opened PacedReplica
  import opened PacedTheorems
  import Fifo
  import ReplicaIds
  import RT = ReplicaTheorems

  // ---------------------------------------------------------------- ids

  /** How often `slot` was put into the list. */
  ghost function Pushes(es: seq<Fifo.Event<nat>>, slot: nat): nat {
    if es == [] then 0 else Pushes(es[1..], slot) + if es[0] == Fifo.Push(slot) then 1 else 0
  }

  lemma {:induction false} PushesAppend(a: seq<Fifo.Event<nat>>, b: seq<Fifo.Event<nat>>, slot: nat)
    ensures Pushes(a + b, slot) == Pushes(a, slot) + Pushes(b, slot)
  {
    if a == [] {
      assert a + b == b;
    } else {
      assert (a + b)[0] == a[0] && (a + b)[1..] == a[1..] + b;
      PushesAppend(a[1..], b, slot);
    }
  }

  /** If `slot` is live, all its replicas carry the id of round `n`. */
  ghost predicate HasId(cfg: PConfig, s: State, slot: nat, n: nat) {
    slot < |s.groups| && s.groups[slot].Live? ==>
      && s.groups[slot].reps != []
      && forall k :: 0 <= k < |s.groups[slot].reps| ==> s.groups[slot].reps[k].ioId == IdAt(slot, n, cfg.base.queueDepth)
  }

  lemma {:induction false} PopLoopIds(cfg: PConfig, p: PState, choices: seq<Choice>, slot: nat, n: nat)
    requires cfg.Legal() && HasId(cfg, p.rep, slot, n)
    ensures HasId(cfg, PopLoop(cfg, p, choices).rep, slot, n)
    decreases |choices|
  {
    hide IdAt, MinSize;
    if p.submitBatch < cfg.batchSize && choices != [] && CanPop(p) {
      PopLoopIds(cfg, PopOne(cfg, p, choices[0]), choices[1..], slot, n);
    }
  }

  lemma {:induction false} IdStep(cfg: PConfig, p: PState, e: Event, slot: nat, n: nat)
    requires cfg.Valid() && HasId(cfg, p.rep, slot, n)
    ensures HasId(cfg, Step(cfg, p, e).rep, slot, n + Pushes(ListEvents(cfg, p, e), slot))
  {
    hide NextId, MinSize, SubmitRound;
    if Enabled(cfg, p, e) {
      match e
      case Deliver(g, ns) =>
        SameDraining(p.rep, g, ns);
        DeliverId(cfg, p, g, ns, slot, n);
      case Hotplug(g, ns) =>
        var d := p.(rep := Drain(p.rep, ns));
        assert d.rep.ctxs[ns].draining;
        SameDraining(d.rep, g, ns);
        DeliverId(cfg, d, g, ns, slot, n);
      case WarmupReset =>
      case Pace(choices) => PopLoopIds(cfg, p, choices, slot, n);
    }
  }

  /** A completion hands out the next id exactly when it ends a round while nothing drains. */
  lemma {:induction false} DeliverId(cfg: PConfig, p: PState, g: nat, ns: nat, slot: nat, n: nat)
    requires cfg.Valid() && HasId(cfg, p.rep, slot, n) && Outstanding(p.rep, g, ns)
    ensures HasId(cfg, PacedReplica.TaskComplete(cfg, p, g, ns).rep, slot,
                  if g == slot && IsLast(p.rep, g) && !AnyDraining(p.rep) then n + 1 else n)
  {
    hide NextId;
    SameDraining(p.rep, g, ns);
  }

  lemma {:induction false} IdRun(cfg: PConfig, p: PState, run: seq<Event>, slot: nat, n: nat)
    requires cfg.Valid() && HasId(cfg, p.rep, slot, n)
    ensures HasId(cfg, Exec(cfg, p, run).rep, slot, n + Pushes(History(cfg, p, run), slot))
    decreases |run|
  {
    hide HasId, Step, ListEvents;
    if run != [] {
      IdStep(cfg, p, run[0], slot, n);
      IdRun(cfg, Step(cfg, p, run[0]), run[1..], slot, n + Pushes(ListEvents(cfg, p, run[0]), slot));
      PushesAppend(ListEvents(cfg, p, run[0]), History(cfg, Step(cfg, p, run[0]), run[1..]), slot);
    }
  }

  /** In every paced run all replicas of a live group that was put into the list n times carry the id of its
      n-th round, which below the wrap is slot + 1 + n * queueDepth. */
  lemma {:induction false} PacedIds(cfg: PConfig, run: seq<Event>, slot: nat, k: nat)
    requires cfg.Valid() && k < cfg.base.R()
    ensures var s := Exec(cfg, Init(cfg), run).rep;
            var n := Pushes(History(cfg, Init(cfg), run), slot);
            slot < |s.groups| && s.groups[slot].Live? ==>
              && |s.groups[slot].reps| == cfg.base.R()
              && s.groups[slot].reps[k].ioId == IdAt(slot, n, cfg.base.queueDepth)
              && (slot + 1 + n * cfg.base.queueDepth < UINT32 ==>
                    s.groups[slot].reps[k].ioId == slot + 1 + n * cfg.base.queueDepth)
  {
    hide History;
    var p := Exec(cfg, Init(cfg), run);
    EveryRun(cfg, run);
    IdRun(cfg, Init(cfg), run, slot, 0);
    if slot < |p.rep.groups| && p.rep.groups[slot].Live? {
      assert GroupInv(NoCap(cfg).base, p.rep.groups[slot], slot, slot in Idle(p.pending));
      ReplicaIds.IdValue(slot, Pushes(History(cfg, Init(cfg), run), slot), cfg.base.queueDepth);
    }
  }

  // ---------------------------------------------------------------- offsets and directions

  /** The rounds that an event submits: a pacing block with a batch due takes the front of the list. */
  ghost function StepEntries(cfg: PConfig, p: PState, e: Event): seq<Entry> {
    if e.Pace? && Enabled(cfg, p, e) && p.submitBatch < cfg.batchSize <= |p.pending|
    then Batch(p.pending, e.choices, cfg.batchSize)
    else []
  }

  ghost function Batch(pending: seq<nat>, choices: seq<Choice>, n: nat): seq<Entry>
    requires n <= |pending| && n <= |choices|
  {
    if n == 0 then [] else [Entry(pending[0], choices[0], true)] + Batch(pending[1..], choices[1..], n - 1)
  }

  ghost function Log(cfg: PConfig, p: PState, run: seq<Event>): seq<Entry>
    requires cfg.Valid()
    decreases |run|
  {
    if run == [] then [] else StepEntries(cfg, p, run[0]) + Log(cfg, Step(cfg, p, run[0]), run[1..])
  }

  /** All replicas of the group show round `n`. */
  ghost predicate Shows(cfg: PConfig, g: Group, log: seq<Entry>, n: int)
    requires cfg.Valid() && n < |log|
  {
    g.Live? && n >= 0 ==>
      forall k :: 0 <= k < |g.reps| ==>
        && g.reps[k].offset == OffsetOf(cfg.base.mode, cfg.base.sizes[0], MinSize(cfg.base.sizes), n, log[n].choice)
        && g.reps[k].isRead == PickRead(cfg.base.rwPercentage, log[n].choice)
  }

  ghost predicate Logged(cfg: PConfig, p: PState, log: seq<Entry>)
    requires cfg.Valid()
  {
    && p.rep.cursor == CursorOf(cfg.base.mode, MinSize(cfg.base.sizes), |log|)
    && (forall g :: 0 <= g < |p.rep.groups| ==> Shows(cfg, p.rep.groups[g], log, Last(log, g)))
    && (forall g :: 0 <= g < |p.rep.groups| && p.rep.groups[g].Live? && Last(log, g) < 0 ==> g in p.pending)
  }

  lemma {:induction false} PopLogs(cfg: PConfig, p: PState, choice: Choice, log: seq<Entry>)
    requires cfg.Valid() && CanPop(p) && Logged(cfg, p, log)
    ensures Logged(cfg, PopOne(cfg, p, choice), log + [Entry(p.pending[0], choice, true)])
  {
    hide OffsetOf, CursorOf, PickRead, PickOffset, NextCursor, MinSize;
    var e := Entry(p.pending[0], choice, true);
    var q := PopOne(cfg, p, choice);
    Draws(cfg.base.mode, cfg.base.sizes[0], MinSize(cfg.base.sizes), |log|, choice);
    assert p.pending == [p.pending[0]] + p.pending[1..];
    forall g | 0 <= g < |q.rep.groups|
      ensures Shows(cfg, q.rep.groups[g], log + [e], Last(log + [e], g))
      ensures q.rep.groups[g].Live? && Last(log + [e], g) < 0 ==> g in q.pending
    {
      LastAppend(log, e, g);
      if g != p.pending[0] {
        assert q.rep.groups[g] == p.rep.groups[g] && Shows(cfg, p.rep.groups[g], log, Last(log, g));
      }
    }
  }

  lemma {:induction false} PopLoopLogs(cfg: PConfig, p: PState, choices: seq<Choice>, log: seq<Entry>)
    requires cfg.Valid() && ListInv(NoCap(cfg), p) && Logged(cfg, p, log)
    requires p.submitBatch <= cfg.batchSize && cfg.batchSize - p.submitBatch <= |choices|
    requires cfg.batchSize - p.submitBatch <= |p.pending|
    ensures Logged(cfg, PopLoop(cfg, p, choices), log + Batch(p.pending, choices, cfg.batchSize - p.submitBatch))
    decreases |choices|
  {
    hide ListInv, Logged, SubmitRound;
    var n := cfg.batchSize - p.submitBatch;
    if n == 0 {
      assert log + [] == log;
    } else {
      PopPlaces(cfg, p, choices[0]);
      var q := PopOne(cfg, p, choices[0]);
      var e := Entry(p.pending[0], choices[0], true);
      PopLogs(cfg, p, choices[0], log);
      PopLoopLogs(cfg, q, choices[1..], log + [e]);
      assert log + [e] + Batch(q.pending, choices[1..], n - 1) == log + ([e] + Batch(q.pending, choices[1..], n - 1));
    }
  }

  lemma {:induction false} ReturnLogs(cfg: PConfig, p: PState, slot: nat, ns: nat, log: seq<Entry>)
    requires cfg.Valid() && Logged(cfg, p, log) && Outstanding(p.rep, slot, ns)
    ensures Logged(cfg, PacedReplica.TaskComplete(cfg, p, slot, ns), log)
  {
    hide OffsetOf, CursorOf, PickRead, MinSize, NextId;
  }

  lemma {:induction false} StepLogs(cfg: PConfig, p: PState, e: Event, log: seq<Entry>)
    requires cfg.Valid() && RunInv(cfg, p) && Logged(cfg, p, log)
    ensures Logged(cfg, Step(cfg, p, e), log + StepEntries(cfg, p, e))
  {
    hide CoreInv, SubmitRound, MinSize, OffsetOf, CursorOf, PickRead;
    assert log + [] == log;
    if Enabled(cfg, p, e) {
      match e
      case Deliver(slot, ns) => ReturnLogs(cfg, p, slot, ns, log);
      case Hotplug(slot, ns) => ReturnLogs(cfg, p.(rep := Drain(p.rep, ns)), slot, ns, log);
      case WarmupReset =>
      case Pace(choices) =>
        if p.submitBatch < cfg.batchSize {
          PaceEffect(cfg, p, choices);
          PopLoopLogs(cfg, p, choices, log);
        } else {
          PaceRests(cfg, p, choices);
        }
    }
  }

  lemma {:induction false} RunLogs(cfg: PConfig, p: PState, run: seq<Event>, log: seq<Entry>)
    requires cfg.Valid() && RunInv(cfg, p) && Logged(cfg, p, log)
    ensures Logged(cfg, Exec(cfg, p, run), log + Log(cfg, p, run))
    decreases |run|
  {
    hide RunInv, Step, Logged, StepEntries;
    if run == [] {
      assert log + [] == log;
    } else {
      var q := Step(cfg, p, run[0]);
      var first := StepEntries(cfg, p, run[0]);
      StepLogs(cfg, p, run[0], log);
      StepKeeps(cfg, p, run[0]);
      RunLogs(cfg, q, run[1..], log + first);
      assert log + (first + Log(cfg, q, run[1..])) == log + first + Log(cfg, q, run[1..]);
    }
  }

  /** In every paced run all replicas of a live group show its latest round. If that was the n-th round of the
      run: in sequential mode the offset is n modulo the smallest size, in the other modes what the generator
      drew for it, and the direction is what its roll decided. A live group without a round is in the list. */
  lemma {:induction false} PacedOffsets(cfg: PConfig, run: seq<Event>, g: nat)
    requires cfg.Valid()
    ensures var p := Exec(cfg, Init(cfg), run);
            var log := Log(cfg, Init(cfg), run);
            && p.rep.cursor == CursorOf(cfg.base.mode, MinSize(cfg.base.sizes), |log|)
            && (g < |p.rep.groups| ==> Shows(cfg, p.rep.groups[g], log, Last(log, g)))
            && (g < |p.rep.groups| && p.rep.groups[g].Live? && Last(log, g) < 0 ==> g in p.pending)
  {
    var p := Init(cfg);
    EveryRun(cfg, []);
    forall g | 0 <= g < |p.rep.groups|
      ensures g in p.pending
    {
      assert p.pending[g] == g;
    }
    RunLogs(cfg, p, run, []);
    assert [] + Log(cfg, p, run) == Log(cfg, p, run);
  }

  // ---------------------------------------------------------------- counters

  ghost predicate NoReset(run: seq<Event>) { forall i :: 0 <= i < |run| ==> run[i] != WarmupReset }

  lemma {:induction false} PopLoopCarry(cfg: PConfig, p: PState, choices: seq<Choice>, k: nat)
    requires cfg.Legal() && k < |p.rep.ctxs|
    ensures var q := PopLoop(cfg, p, choices);
            |q.rep.ctxs| == |p.rep.ctxs| && RT.Carry(q.rep, k) == RT.Carry(p.rep, k)
    decreases |choices|
  {
    hide MinSize;
    if p.submitBatch < cfg.batchSize && choices != [] && CanPop(p) {
      PopLoopCarry(cfg, PopOne(cfg, p, choices[0]), choices[1..], k);
    }
  }

  lemma {:induction false} CarryStep(cfg: PConfig, p: PState, e: Event, k: nat)
    requires cfg.Valid() && RunInv(cfg, p) && k < cfg.base.R() && e != WarmupReset
    ensures var q := Step(cfg, p, e);
            |q.rep.ctxs| == |p.rep.ctxs| == cfg.base.R() && RT.Carry(q.rep, k) == RT.Carry(p.rep, k)
  {
    hide PInv, GroupInv, IdAt, MinSize;
    if Enabled(cfg, p, e) {
      match e
      case Deliver(slot, ns) => DepthPositive(NoCap(cfg).base, p.rep, slot, ns, Idle(p.pending));
      case Hotplug(slot, ns) => DepthPositive(NoCap(cfg).base, p.rep, slot, ns, Idle(p.pending));
      case Pace(choices) => PopLoopCarry(cfg, p, choices, k);
    }
  }

  lemma {:induction false} CarryFixed(cfg: PConfig, p: PState, run: seq<Event>, k: nat)
    requires cfg.Valid() && RunInv(cfg, p) && k < cfg.base.R() && NoReset(run)
    ensures var q := Exec(cfg, p, run);
            |q.rep.ctxs| == |p.rep.ctxs| == cfg.base.R() && RT.Carry(q.rep, k) == RT.Carry(p.rep, k)
    decreases |run|
  {
    hide Step;
    if run != [] {
      CarryStep(cfg, p, run[0], k);
      StepKeeps(cfg, p, run[0]);
      CarryFixed(cfg, Step(cfg, p, run[0]), run[1..], k);
    }
  }

  /** In every paced run each depth counts the groups with a request out on its context, and without a reset
      submitted equals completed plus in flight, draining or not. */
  lemma {:induction false} PacedCounters(cfg: PConfig, run: seq<Event>, k: nat)
    requires cfg.Valid() && k < cfg.base.R()
    ensures var s := Exec(cfg, Init(cfg), run).rep;
            && |s.ctxs| == cfg.base.R() && s.ctxs[k].depth == Count(s.groups, OutOn(k)) <= cfg.base.queueDepth
            && (NoReset(run) ==> s.ctxs[k].submitted == s.ctxs[k].completed + s.ctxs[k].depth)
  {
    EveryRun(cfg, []);
    EveryRun(cfg, run);
    if NoReset(run) {
      CarryFixed(cfg, Init(cfg), run, k);
    }
  }

  /** After a warm-up reset the imbalance stays what was in flight at the reset. */
  lemma {:induction false} PacedWarmupCarry(cfg: PConfig, before: seq<Event>, after: seq<Event>, k: nat)
    requires cfg.Valid() && k < cfg.base.R() && NoReset(after) && cfg.base.warmup
    ensures var p0 := Exec(cfg, Init(cfg), before);
            var s := Exec(cfg, Step(cfg, p0, WarmupReset), after).rep;
            && |p0.rep.ctxs| == |s.ctxs| == cfg.base.R()
            && s.ctxs[k].submitted + p0.rep.ctxs[k].depth == s.ctxs[k].completed + s.ctxs[k].depth
  {
    hide PInv;
    var p0 := Exec(cfg, Init(cfg), before);
    EveryRun(cfg, before);
    StepKeeps(cfg, p0, WarmupReset);
    CarryFixed(cfg, Step(cfg, p0, WarmupReset), after, k);
  }

  // ---------------------------------------------------------------- the drain loop

  /** After the main loop: a context is stopped, or a request comes back. */
  datatype DrainEvent = Stop(ns: nat) | Return(slot: nat, ns: nat)

  function DrainStep(cfg: PConfig, p: PState, e: DrainEvent): PState
    requires cfg.Valid()
  {
    match e
    case Stop(ns) => if ns < |p.rep.ctxs| then p.(rep := Drain(p.rep, ns)) else p
    case Return(slot, ns) =>
      if Outstanding(p.rep, slot, ns) then PacedReplica.TaskComplete(cfg, p, slot, ns) else p
  }

  function DrainExec(cfg: PConfig, p: PState, es: seq<DrainEvent>): PState
    requires cfg.Valid()
    decreases |es|
  {
    if es == [] then p else DrainExec(cfg, DrainStep(cfg, p, es[0]), es[1..])
  }

  lemma {:induction false} DrainStepKeeps(cfg: PConfig, p: PState, e: DrainEvent)
    requires cfg.Valid() && ListInv(NoCap(cfg), p) && AnyDraining(p.rep)
    ensures var q := DrainStep(cfg, p, e);
            && ListInv(NoCap(cfg), q) && AnyDraining(q.rep) && q.pending == p.pending
            && RT.SameSubmitted(p.rep.ctxs, q.rep.ctxs)
  {
    hide ListInv;
    match e
    case Stop(ns) =>
      if ns < |p.rep.ctxs| {
        DrainKeeps(NoCap(cfg), p, ns);
        assert DrainStep(cfg, p, e).rep.ctxs[ns].draining;
      }
    case Return(slot, ns) =>
      if Outstanding(p.rep, slot, ns) {
        ReturnPlaces(cfg, p, slot, ns);
        SameDraining(p.rep, slot, ns);
      }
  }

  /** However the main loop ended, once one context is stopped the drain loop submits nothing, leaves the list
      alone and keeps the groups in order. */
  lemma {:induction false} PacedDrainLoop(cfg: PConfig, p: PState, es: seq<DrainEvent>)
    requires cfg.Valid() && ListInv(NoCap(cfg), p) && AnyDraining(p.rep)
    ensures var q := DrainExec(cfg, p, es);
            && ListInv(NoCap(cfg), q) && q.pending == p.pending && RT.SameSubmitted(p.rep.ctxs, q.rep.ctxs)
    decreases |es|
  {
    hide ListInv, DrainStep, AnyDraining;
    if es != [] {
      DrainStepKeeps(cfg, p, es[0]);
      PacedDrainLoop(cfg, DrainStep(cfg, p, es[0]), es[1..]);
    }
  }

  /** The exit test of the drain loop: nothing is in flight if and only if every group has been released, once,
      or waits in the list. */
  lemma {:induction false} PacedDrainComplete(cfg: PConfig, p: PState)
    requires cfg.Valid() && ListInv(NoCap(cfg), p)
    ensures (forall k :: 0 <= k < |p.rep.ctxs| ==> p.rep.ctxs[k].depth == 0) <==>
            (forall g: nat :: g < cfg.base.queueDepth ==> g in p.rep.released || g in p.pending)
    ensures NoDup(p.rep.released) && NoDup(p.pending)
    ensures forall g :: g in p.pending ==> g !in p.rep.released
  {
    hide PInv, GroupInv, IdAt;
    if forall k :: 0 <= k < |p.rep.ctxs| ==> p.rep.ctxs[k].depth == 0 {
      forall g: nat | g < cfg.base.queueDepth
        ensures g in p.rep.released || g in p.pending
      {
        if p.rep.groups[g].Live? {
          QuietGroup(NoCap(cfg), p, g);
        }
      }
    } else {
      var k :| 0 <= k < |p.rep.ctxs| && p.rep.ctxs[k].depth != 0;
      CountNone(p.rep.groups, OutOn(k));
      var g: nat :| g < |p.rep.groups| && OutOn(k)(p.rep.groups[g]);
      DepthPositive(NoCap(cfg).base, p.rep, g, k, Idle(p.pending));
      assert g !in p.rep.released && g !in p.pending;
    }
  }

  // ---------------------------------------------------------------- what drains a context

  ghost predicate Stops(cfg: PConfig, p: PState, e: Event, k: nat) {
    e.Hotplug? && e.ns == k && Enabled(cfg, p, e)
  }

  /** A completion on context `k` said that its namespace is gone. */
  ghost predicate Stopped(cfg: PConfig, p: PState, run: seq<Event>, k: nat)
    requires cfg.Valid()
    decreases |run|
  {
    run != [] && (Stops(cfg, p, run[0], k) || Stopped(cfg, Step(cfg, p, run[0]), run[1..], k))
  }

  lemma {:induction false} PopLoopDrains(cfg: PConfig, p: PState, choices: seq<Choice>, k: nat, stopped: bool)
    requires cfg.Valid() && k < |p.rep.ctxs|
    requires p.rep.ctxs[k].draining <==> stopped || RT.AtCap(cfg.base, p.rep.ctxs[k])
    ensures var q := PopLoop(cfg, p, choices);
            && |q.rep.ctxs| == |p.rep.ctxs|
            && (q.rep.ctxs[k].draining <==> stopped || RT.AtCap(cfg.base, q.rep.ctxs[k]))
    decreases |choices|
  {
    hide MinSize;
    if p.submitBatch < cfg.batchSize && choices != [] && CanPop(p) {
      PopLoopDrains(cfg, PopOne(cfg, p, choices[0]), choices[1..], k, stopped);
    }
  }

  lemma {:induction false} DrainCause(cfg: PConfig, p: PState, e: Event, k: nat, stopped: bool)
    requires cfg.Valid() && k < |p.rep.ctxs|
    requires p.rep.ctxs[k].draining <==> stopped || RT.AtCap(cfg.base, p.rep.ctxs[k])
    ensures var q := Step(cfg, p, e);
            && |q.rep.ctxs| == |p.rep.ctxs|
            && (q.rep.ctxs[k].draining <==> stopped || Stops(cfg, p, e, k) || RT.AtCap(cfg.base, q.rep.ctxs[k]))
  {
    hide NextId;
    if e.Pace? && Enabled(cfg, p, e) {
      PopLoopDrains(cfg, p, e.choices, k, stopped);
    }
  }

  lemma {:induction false} DrainCauses(cfg: PConfig, p: PState, run: seq<Event>, k: nat, stopped: bool)
    requires cfg.Valid() && k < |p.rep.ctxs|
    requires p.rep.ctxs[k].draining <==> stopped || RT.AtCap(cfg.base, p.rep.ctxs[k])
    ensures var q := Exec(cfg, p, run);
            && |q.rep.ctxs| == |p.rep.ctxs|
            && (q.rep.ctxs[k].draining <==> stopped || Stopped(cfg, p, run, k) || RT.AtCap(cfg.base, q.rep.ctxs[k]))
    decreases |run|
  {
    hide Step, Stops, RT.AtCap;
    if run != [] {
      DrainCause(cfg, p, run[0], k, stopped);
      DrainCauses(cfg, Step(cfg, p, run[0]), run[1..], k, stopped || Stops(cfg, p, run[0], k));
    }
  }

  /** In the main loop a context drains if and only if its own namespace is gone, or the cap has been reached. */
  lemma {:induction false} PacedDrainsIff(cfg: PConfig, run: seq<Event>, k: nat)
    requires cfg.Valid() && k < cfg.base.R()
    ensures var s := Exec(cfg, Init(cfg), run).rep;
            && |s.ctxs| == cfg.base.R()
            && (s.ctxs[k].draining <==>
                  Stopped(cfg, Init(cfg), run, k) || (cfg.base.cap > 0 && s.ctxs[k].submitted >= cfg.base.cap))
  {
    DrainCauses(cfg, Init(cfg), run, k, false);
  }
}
