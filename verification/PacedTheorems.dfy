/** What the paced replica engine promises over all its runs, and exactly when its assertion holds. */
module PacedTheorems {
  import opened Arith
  import opened Counting
  import opened Workload
  import opened ReplicaGroup
  import opened PacedReplica
  import opened ReplicaTheorems
  import Fifo
  import ReplicaRuns

  // ---------------------------------------------------------------- credit

  /** Groups submitted and not yet back: live and not in the list. */
  ghost function Out(p: PState): set<nat> {
    set g: nat | g < |p.rep.groups| && p.rep.groups[g].Live? && g !in p.pending
  }

  lemma {:induction false} LiveSize(groups: seq<Group>)
    requires forall g :: 0 <= g < |groups| ==> groups[g].Live?
    ensures |set g: nat | g < |groups| && groups[g].Live?| == |groups|
  {
    if groups != [] {
      var m := |groups| - 1;
      assert forall g :: 0 <= g < m ==> groups[..m][g] == groups[g];
      LiveSize(groups[..m]);
      assert (set g: nat | g < |groups| && groups[g].Live?) == (set g: nat | g < m && groups[..m][g].Live?) + {m};
    }
  }

  lemma {:induction false} IdleSize(pending: seq<nat>)
    requires NoDup(pending)
    ensures |Idle(pending)| == |pending|
  {
    if pending != [] {
      IdlePop(pending);
      IdleSize(pending[1..]);
      assert pending[0] in Idle(pending);
    }
  }

  /** While nothing drains, list and groups out make up the queue depth, and the counters say how many are out. */
  lemma {:induction false} CreditInvariant(cfg: PConfig, run: seq<Event>)
    requires cfg.Valid()
    ensures var p := Exec(cfg, Init(cfg), run);
            !AnyDraining(p.rep) ==>
              && |p.pending| + |Out(p)| == cfg.base.queueDepth
              && |Out(p)| == p.submitBatch - p.batch <= cfg.batchSize
  {
    EveryRun(cfg, run);
    var p := Exec(cfg, Init(cfg), run);
    if !AnyDraining(p.rep) {
      var live := set g: nat | g < |p.rep.groups| && p.rep.groups[g].Live?;
      AllLive(cfg, p);
      LiveSize(p.rep.groups);
      IdleSize(p.pending);
      forall x | x in Idle(p.pending)
        ensures x in live
      {
        var i :| 0 <= i < |p.pending| && p.pending[i] == x;
      }
      assert live == Out(p) + Idle(p.pending);
    }
  }

  lemma {:induction false} AllLive(cfg: PConfig, p: PState)
    requires cfg.Valid() && PInv(cfg, p) && !AnyDraining(p.rep)
    ensures forall g :: 0 <= g < |p.rep.groups| ==> p.rep.groups[g].Live?
  {
    forall g: nat | g < |p.rep.groups|
      ensures p.rep.groups[g].Live?
    {
      assert g !in p.rep.released;
    }
  }

  /** All groups wait in the list exactly when no request is in flight anywhere. */
  lemma {:induction false} QuietIffAllPending(cfg: PConfig, p: PState)
    requires cfg.Valid() && PInv(cfg, p) && !AnyDraining(p.rep)
    ensures Depths(p.rep.ctxs) == 0 <==> |p.pending| == cfg.base.queueDepth
  {
    hide GroupInv, IdAt;
    AllLive(cfg, p);
    DepthsZero(p.rep.ctxs);
    if Depths(p.rep.ctxs) == 0 {
      forall g: nat | g < cfg.base.queueDepth
        ensures g in p.pending
      {
        QuietGroup(cfg, p, g);
      }
      FullLength(p.pending, cfg.base.queueDepth);
    } else {
      var k :| 0 <= k < |p.rep.ctxs| && p.rep.ctxs[k].depth != 0;
      CountNone(p.rep.groups, OutOn(k));
      var g :| 0 <= g < |p.rep.groups| && OutOn(k)(p.rep.groups[g]);
      DepthPositive(cfg.base, p.rep, g, k, Idle(p.pending));
      assert forall i :: 0 <= i < |p.pending| ==> p.pending[i] in p.pending;
      BoundedLength(p.pending + [g], cfg.base.queueDepth);
    }
  }

  lemma {:induction false} QuietGroup(cfg: PConfig, p: PState, g: nat)
    requires cfg.Valid() && ListInv(cfg, p) && g < |p.rep.groups| && p.rep.groups[g].Live?
    requires forall k :: 0 <= k < |p.rep.ctxs| ==> p.rep.ctxs[k].depth == 0
    ensures g in p.pending
  {
    var grp := p.rep.groups[g];
    assert GroupInv(cfg.base, grp, g, g in Idle(p.pending));
    forall k | 0 <= k < |grp.reps|
      ensures !IsOut()(grp.reps[k])
    {
      CountNone(p.rep.groups, OutOn(k));
      assert !OutOn(k)(grp);
    }
    CountNone(grp.reps, IsOut());
  }

  lemma {:induction false} ReturnSubmitsNothing(cfg: PConfig, p: PState, e: Event)
    requires cfg.Valid() && (e.Deliver? || e.Hotplug?)
    ensures SameSubmitted(p.rep.ctxs, Step(cfg, p, e).rep.ctxs)
  {
  }

  /** Two-level barrier: a step submits only if it is a pacing block that finds every replica of every
      group back, and then it submits one whole batch from the front of the list. */
  lemma {:induction false} BatchBarrier(cfg: PConfig, p: PState, e: Event)
    requires cfg.Valid() && RunInv(cfg, p) && e != WarmupReset
    ensures var q := Step(cfg, p, e);
            SameSubmitted(p.rep.ctxs, q.rep.ctxs) ||
            (&& e.Pace? && Depths(p.rep.ctxs) == 0 && !AnyDraining(p.rep)
             && q.rep.ctxs != [] && cfg.batchSize <= |p.pending|
             && q.rep.ctxs[0].submitted == p.rep.ctxs[0].submitted + cfg.batchSize
             && q.pending == p.pending[cfg.batchSize..])
  {
    hide ListInv;
    if e.Deliver? || e.Hotplug? {
      ReturnSubmitsNothing(cfg, p, e);
    } else if Enabled(cfg, p, e) {
      if p.submitBatch < cfg.batchSize {
        PaceEffect(cfg, p, e.choices);
        QuietIffAllPending(cfg, p);
      } else {
        PaceRests(cfg, p, e.choices);
      }
    }
  }

  /** The barrier in every run. */
  lemma {:induction false} BatchesNeverOverlap(cfg: PConfig, run: seq<Event>, e: Event)
    requires cfg.Valid() && e != WarmupReset
    ensures var p := Exec(cfg, Init(cfg), run);
            var q := Step(cfg, p, e);
            !SameSubmitted(p.rep.ctxs, q.rep.ctxs) ==> e.Pace? && Depths(p.rep.ctxs) == 0
  {
    EveryRun(cfg, run);
    BatchBarrier(cfg, Exec(cfg, Init(cfg), run), e);
  }

  /** Pacing never gets stuck: with nothing in flight, a batch goes out within two pacing blocks. */
  lemma {:induction false} NeverStuck(cfg: PConfig, p: PState, a: seq<Choice>, b: seq<Choice>)
    requires cfg.Valid() && RunInv(cfg, p)
    requires !AnyDraining(p.rep) && Depths(p.rep.ctxs) == 0
    requires |a| == |b| == cfg.batchSize
    ensures var q := Step(cfg, p, Pace(a));
            var r := Step(cfg, q, Pace(b));
            r.rep.ctxs != [] && p.rep.ctxs != [] && r.rep.ctxs[0].submitted > p.rep.ctxs[0].submitted
  {
    hide ListInv;
    QuietIffAllPending(cfg, p);
    var q := PaceBlock(cfg, p, a);
    if p.submitBatch < cfg.batchSize {
      PaceEffect(cfg, p, a);
      PaceRests(cfg, q, b);
    } else {
      PaceRests(cfg, p, a);
      StepKeeps(cfg, p, Pace(a));
      PaceEffect(cfg, q, b);
    }
  }

  // ---------------------------------------------------------------- draining

  lemma {:induction false} DrainStays(cfg: PConfig, p: PState, e: Event)
    requires cfg.Valid() && RunInv(cfg, p) && AnyDraining(p.rep) && e != WarmupReset
    ensures var q := Step(cfg, p, e);
            RunInv(cfg, q) && AnyDraining(q.rep) && q.pending == p.pending && SameSubmitted(p.rep.ctxs, q.rep.ctxs)
  {
    ShutKeeps(cfg, p, e);
    BatchBarrier(cfg, p, e);
  }

  /** Once a context drains the paced engine submits nothing more, in no continuation of the main loop. */
  lemma {:induction false} PacedDrainSafety(cfg: PConfig, p: PState, run: seq<Event>)
    requires cfg.Valid() && RunInv(cfg, p) && AnyDraining(p.rep)
    requires forall i :: 0 <= i < |run| ==> run[i] != WarmupReset
    ensures var q := Exec(cfg, p, run); q.pending == p.pending && SameSubmitted(p.rep.ctxs, q.rep.ctxs)
    decreases |run|
  {
    hide RunInv, Step;
    if run != [] {
      DrainStays(cfg, p, run[0]);
      PacedDrainSafety(cfg, Step(cfg, p, run[0]), run[1..]);
    }
  }

  // ---------------------------------------------------------------- bounded waiting

  /** What a step does to the list. */
  ghost function ListEvents(cfg: PConfig, p: PState, e: Event): seq<Fifo.Event<nat>>
    requires cfg.Valid()
  {
    if !Enabled(cfg, p, e) || AnyDraining(p.rep) then []
    else
      match e
      case Deliver(slot, ns) => if IsLast(p.rep, slot) then [Fifo.Push(slot)] else []
      case Hotplug(_, _) => []
      case WarmupReset => []
      case Pace(_) => if p.submitBatch < cfg.batchSize then [Fifo.Batch(cfg.batchSize)] else []
  }

  ghost function History(cfg: PConfig, p: PState, run: seq<Event>): seq<Fifo.Event<nat>>
    requires cfg.Valid()
    decreases |run|
  {
    if run == [] then [] else ListEvents(cfg, p, run[0]) + History(cfg, Step(cfg, p, run[0]), run[1..])
  }

  lemma {:induction false} ListStep(cfg: PConfig, p: PState, e: Event)
    requires cfg.Valid() && RunInv(cfg, p)
    ensures var es := ListEvents(cfg, p, e);
            && Step(cfg, p, e).pending ==
                 (if es == [] then p.pending
                  else if es[0].Push? then p.pending + [es[0].id] else p.pending[cfg.batchSize..])
            && (es != [] && es[0].Batch? ==> cfg.batchSize <= |p.pending|)
  {
    hide ListInv, SubmitRound;
    if AnyDraining(p.rep) {
      ShutKeeps(cfg, p, e);
    } else if Enabled(cfg, p, e) {
      match e
      case Deliver(slot, ns) => SameDraining(p.rep, slot, ns);
      case Hotplug(slot, ns) =>
        var d := Drain(p.rep, ns);
        assert d.ctxs[ns].draining;
        SameDraining(d, slot, ns);
      case WarmupReset =>
      case Pace(choices) =>
        if p.submitBatch < cfg.batchSize {
          PaceEffect(cfg, p, choices);
        } else {
          PaceRests(cfg, p, choices);
        }
    }
  }

  ghost predicate BatchesOf(es: seq<Fifo.Event<nat>>, size: nat) {
    forall i :: 0 <= i < |es| && es[i].Batch? ==> es[i].n == size
  }

  lemma {:induction false} Prepend(q: seq<nat>, q': seq<nat>, first: seq<Fifo.Event<nat>>,
                                   rest: seq<Fifo.Event<nat>>, size: nat)
    requires |first| <= 1 && BatchesOf(first, size) && BatchesOf(rest, size)
    requires q' == if first == [] then q else if first[0].Push? then q + [first[0].id]
                   else if size <= |q| then q[size..] else []
    requires first != [] && first[0].Batch? ==> size <= |q|
    requires Fifo.Enough(q', rest)
    ensures Fifo.Enough(q, first + rest) && Fifo.Exec(q, first + rest) == Fifo.Exec(q', rest)
    ensures BatchesOf(first + rest, size)
  {
    if first == [] {
      assert first + rest == rest;
    } else {
      assert (first + rest)[0] == first[0] && (first + rest)[1..] == rest;
    }
  }

  /** The list behaves as a queue over the whole run. */
  lemma {:induction false} ListRun(cfg: PConfig, p: PState, run: seq<Event>)
    requires cfg.Valid() && RunInv(cfg, p)
    ensures var es := History(cfg, p, run);
            && Fifo.Enough(p.pending, es)
            && Exec(cfg, p, run).pending == Fifo.Exec(p.pending, es)
            && BatchesOf(es, cfg.batchSize)
    decreases |run|
  {
    hide RunInv, Step;
    if run != [] {
      var q := Step(cfg, p, run[0]);
      ListStep(cfg, p, run[0]);
      StepKeeps(cfg, p, run[0]);
      ListRun(cfg, q, run[1..]);
      Prepend(p.pending, q.pending, ListEvents(cfg, p, run[0]), History(cfg, q, run[1..]), cfg.batchSize);
    }
  }

  /** Every group in the list goes out in the order of the list, the one at position `pos` in batch
      `pos / batchSize`, hence within the first ceil(queueDepth / batchSize) batches. */
  lemma {:induction false} PacedBoundedWait(cfg: PConfig, s: PState, run: seq<Event>, pos: nat)
    requires cfg.Valid() && RunInv(cfg, s)
    requires pos < |s.pending| && Fifo.BatchOf(pos, cfg.batchSize) < Fifo.Batches(History(cfg, s, run))
    ensures Fifo.Enough(s.pending, History(cfg, s, run))
    ensures var popped := Fifo.Popped(s.pending, History(cfg, s, run));
            pos < |popped| && popped[pos] == s.pending[pos]
    ensures Fifo.BatchOf(pos, cfg.batchSize) <= Fifo.BatchOf(cfg.base.queueDepth - 1, cfg.batchSize)
  {
    hide PInv, CoreInv, History;
    ListRun(cfg, s, run);
    Fifo.BoundedWait(s.pending, History(cfg, s, run), cfg.batchSize, pos);
    BoundedLength(s.pending, cfg.base.queueDepth);
    Fifo.BatchOfMonotone(pos, cfg.base.queueDepth - 1, cfg.batchSize);
  }

  // ---------------------------------------------------------------- the assertion in the pop loop

  /** Every pop of every pacing block of the run finds an entry, and the main context not draining. */
  ghost predicate SafeRun(cfg: PConfig, p: PState, run: seq<Event>)
    requires cfg.Legal()
    decreases |run|
  {
    run != [] ==>
      && (run[0].Pace? && Enabled(cfg, p, run[0]) ==> PopsSafely(cfg, p, run[0].choices))
      && SafeRun(cfg, Step(cfg, p, run[0]), run[1..])
  }

  lemma {:induction false} FitsIsSafe(cfg: PConfig, p: PState, run: seq<Event>)
    requires cfg.Valid() && PInv(cfg, p) && CapFits(cfg)
    ensures SafeRun(cfg, p, run)
    decreases |run|
  {
    if run != [] {
      FitsRoom(cfg, p);
      if run[0].Pace? && Enabled(cfg, p, run[0]) {
        PaceKeeps(cfg, p, run[0].choices);
      }
      CreditKeeps(cfg, p, run[0]);
      FitsIsSafe(cfg, Step(cfg, p, run[0]), run[1..]);
    }
  }

  lemma {:induction false} SafeAppend(cfg: PConfig, p: PState, x: seq<Event>, y: seq<Event>)
    requires cfg.Legal()
    ensures Exec(cfg, p, x + y) == Exec(cfg, Exec(cfg, p, x), y)
    ensures SafeRun(cfg, p, x + y) ==> SafeRun(cfg, Exec(cfg, p, x), y)
    decreases |x|
  {
    if x == [] {
      assert x + y == y;
    } else {
      assert (x + y)[0] == x[0] && (x + y)[1..] == x[1..] + y;
      SafeAppend(cfg, Step(cfg, p, x[0]), x[1..], y);
    }
  }

  /** A replica that comes back while nothing drains. */
  lemma {:induction false} DeliverOne(cfg: PConfig, p: PState, slot: nat, ns: nat)
    requires cfg.Valid() && PInv(cfg, p) && !AnyDraining(p.rep) && Outstanding(p.rep, slot, ns)
    ensures var q := Step(cfg, p, Deliver(slot, ns));
            && PInv(cfg, q) && !AnyDraining(q.rep)
            && SameSubmitted(p.rep.ctxs, q.rep.ctxs) && q.submitBatch == p.submitBatch
            && Depths(q.rep.ctxs) + 1 == Depths(p.rep.ctxs)
  {
    ReturnKeeps(cfg, p, slot, ns, false);
    SameDraining(p.rep, slot, ns);
    DepthPositive(cfg.base, p.rep, slot, ns, Idle(p.pending));
    hide PInv, GroupInv, IdAt;
    DepthsUpdate(p.rep.ctxs, ns, Arrive(p.rep, slot, ns).ctxs[ns]);
  }

  /** Everything in flight can come back. */
  lemma {:induction false} Quiesce(cfg: PConfig, p: PState) returns (run: seq<Event>)
    requires cfg.Valid() && PInv(cfg, p) && !AnyDraining(p.rep)
    ensures var q := Exec(cfg, p, run);
            && PInv(cfg, q) && !AnyDraining(q.rep) && Depths(q.rep.ctxs) == 0
            && SameSubmitted(p.rep.ctxs, q.rep.ctxs) && q.submitBatch == p.submitBatch
    decreases Depths(p.rep.ctxs)
  {
    DepthsZero(p.rep.ctxs);
    if Depths(p.rep.ctxs) == 0 {
      run := [];
    } else {
      var k :| 0 <= k < |p.rep.ctxs| && p.rep.ctxs[k].depth != 0;
      CountNone(p.rep.groups, OutOn(k));
      var g :| 0 <= g < |p.rep.groups| && OutOn(k)(p.rep.groups[g]);
      DeliverOne(cfg, p, g, k);
      var rest := Quiesce(cfg, Step(cfg, p, Deliver(g, k)));
      run := [Deliver(g, k)] + rest;
      assert run[1..] == rest;
    }
  }

  /** A whole batch can go out and come back. */
  lemma {:induction false} NextBatch(cfg: PConfig, p: PState, choices: seq<Choice>) returns (run: seq<Event>)
    requires cfg.Valid() && PInv(cfg, p) && !AnyDraining(p.rep) && p.submitBatch == 0
    requires |choices| == cfg.batchSize && p.rep.ctxs[0].submitted + cfg.batchSize < cfg.base.cap
    ensures var q := Exec(cfg, p, run);
            && PInv(cfg, q) && !AnyDraining(q.rep) && q.submitBatch == 0
            && q.rep.ctxs[0].submitted == p.rep.ctxs[0].submitted + cfg.batchSize
  {
    var p1 := PaceBlock(cfg, p, choices);
    PaceKeeps(cfg, p, choices);
    PaceEffect(cfg, p, choices);
    var back := Quiesce(cfg, p1);
    var p2 := Exec(cfg, p1, back);
    QuietIffAllPending(cfg, p2);
    PaceKeeps(cfg, p2, choices);
    PaceRests(cfg, p2, choices);
    run := [Pace(choices)] + (back + [Pace(choices)]);
    ThreeParts(cfg, p, Pace(choices), back, Pace(choices));
  }

  lemma {:induction false} ThreeParts(cfg: PConfig, p: PState, a: Event, mid: seq<Event>, b: Event)
    requires cfg.Valid()
    ensures Exec(cfg, p, [a] + (mid + [b])) == Step(cfg, Exec(cfg, Step(cfg, p, a), mid), b)
  {
    assert ([a] + (mid + [b]))[1..] == mid + [b];
    SafeAppend(cfg, Step(cfg, p, a), mid, [b]);
    assert [b][1..] == [];
  }

  /** The engine can reach any number of whole batches below the cap. */
  lemma {:induction false} ReachBatches(cfg: PConfig, j: nat) returns (run: seq<Event>)
    requires cfg.Valid() && j * cfg.batchSize < cfg.base.cap
    ensures var q := Exec(cfg, Init(cfg), run);
            && PInv(cfg, q) && !AnyDraining(q.rep) && q.submitBatch == 0
            && q.rep.ctxs[0].submitted == j * cfg.batchSize
  {
    InitHolds(cfg);
    if j == 0 {
      run := [];
    } else {
      assert j * cfg.batchSize == (j - 1) * cfg.batchSize + cfg.batchSize;
      var before := ReachBatches(cfg, j - 1);
      var next := NextBatch(cfg, Exec(cfg, Init(cfg), before), seq(cfg.batchSize, _ => Choice(0, 0, 0)));
      SafeAppend(cfg, Init(cfg), before, next);
      run := before + next;
    }
  }

  /** A batch the cap has no room for pops while draining. */
  lemma {:induction false} NoRoomUnsafe(cfg: PConfig, p: PState, choices: seq<Choice>)
    requires cfg.Valid() && ListInv(cfg, p) && cfg.base.cap > 0
    requires p.submitBatch < cfg.batchSize <= p.submitBatch + |choices|
    requires p.rep.ctxs[0].submitted + cfg.batchSize - p.submitBatch > cfg.base.cap
    requires AnyDraining(p.rep) ==> p.rep.ctxs[0].draining
    ensures !PopsSafely(cfg, p, choices)
    decreases |choices|
  {
    if CanPop(p) && !p.rep.ctxs[0].draining {
      PopOneKeeps(cfg, p, choices[0]);
      ReplicaRuns.BelowCap(cfg.base, p.rep);
      NoRoomUnsafe(cfg, PopOne(cfg, p, choices[0]), choices[1..]);
    }
  }

  /** The pops of a block are safe exactly when the cap has room for the batch. */
  lemma {:induction false} SafeIffRoom(cfg: PConfig, p: PState, choices: seq<Choice>)
    requires cfg.Valid() && PInv(cfg, p) && |choices| == cfg.batchSize
    ensures PopsSafely(cfg, p, choices) <==> Room(cfg, p)
  {
    if Room(cfg, p) {
      PaceKeeps(cfg, p, choices);
    } else {
      NoRoomUnsafe(cfg, p, choices);
    }
  }

  /** A cap the batch size does not divide is met in the middle of a batch. */
  lemma {:induction false} UnsafeRun(cfg: PConfig) returns (run: seq<Event>)
    requires cfg.Valid() && !CapFits(cfg)
    ensures !SafeRun(cfg, Init(cfg), run)
  {
    var j := cfg.base.cap / cfg.batchSize;
    InTheMiddle(cfg.base.cap, cfg.batchSize);
    var before := ReachBatches(cfg, j);
    var choices := seq(cfg.batchSize, _ => Choice(0, 0, 0));
    NoRoomUnsafe(cfg, Exec(cfg, Init(cfg), before), choices);
    SafeAppend(cfg, Init(cfg), before, [Pace(choices)]);
    run := before + [Pace(choices)];
  }

  lemma {:induction false} InTheMiddle(n: nat, q: nat)
    requires 1 <= q && n % q != 0
    ensures (n / q) * q < n < (n / q) * q + q
  {
    DivBounds(n, q);
  }

  /** A batch larger than the list runs into its end. */
  lemma {:induction false} OversizedUnsafe(cfg: PConfig, p: PState, choices: seq<Choice>)
    requires cfg.Legal() && p.submitBatch + |p.pending| < cfg.batchSize <= p.submitBatch + |choices|
    ensures !PopsSafely(cfg, p, choices)
    decreases |choices|
  {
    if CanPop(p) {
      OversizedUnsafe(cfg, PopOne(cfg, p, choices[0]), choices[1..]);
    }
  }

  lemma {:induction false} OversizedRun(cfg: PConfig) returns (run: seq<Event>)
    requires cfg.Legal() && cfg.base.queueDepth < cfg.batchSize
    ensures !SafeRun(cfg, Init(cfg), run)
  {
    var choices := seq(cfg.batchSize, _ => Choice(0, 0, 0));
    OversizedUnsafe(cfg, Init(cfg), choices);
    run := [Pace(choices)];
  }

  /** With a batch size of 0 the block pops nothing, and no run ever submits anything. */
  lemma {:induction false} ZeroBatch(cfg: PConfig, p: PState, run: seq<Event>)
    requires cfg.Legal() && cfg.batchSize == 0
    requires forall k :: 0 <= k < |p.rep.ctxs| ==> p.rep.ctxs[k].submitted == 0
    ensures SafeRun(cfg, p, run)
    ensures forall k :: 0 <= k < |Exec(cfg, p, run).rep.ctxs| ==> Exec(cfg, p, run).rep.ctxs[k].submitted == 0
    decreases |run|
  {
    if run != [] {
      ZeroBatch(cfg, Step(cfg, p, run[0]), run[1..]);
    }
  }

  /** What a caller has to check before the run: a batch no larger than the queue depth that divides the cap
      (0, no cap, included), or the useless batch size 0. */
  predicate BatchFits(cfg: PConfig) {
    cfg.batchSize == 0 || (cfg.batchSize <= cfg.base.queueDepth && cfg.base.cap % cfg.batchSize == 0)
  }

  /** The program's assertion and the non-empty list hold at every pop of every run if and only if the batch
      size fits. */
  lemma {:induction false} AssertionIffBatchFits(cfg: PConfig)
    requires cfg.Legal()
    ensures (forall run: seq<Event> :: SafeRun(cfg, Init(cfg), run)) <==> BatchFits(cfg)
  {
    if BatchFits(cfg) {
      forall run: seq<Event>
        ensures SafeRun(cfg, Init(cfg), run)
      {
        if cfg.batchSize == 0 {
          ZeroBatch(cfg, Init(cfg), run);
        } else {
          InitHolds(cfg);
          FitsIsSafe(cfg, Init(cfg), run);
        }
      }
    } else if cfg.base.queueDepth < cfg.batchSize {
      var run := OversizedRun(cfg);
    } else {
      var run := UnsafeRun(cfg);
    }
  }
}
