/** The paced replica engine: groups are resubmitted in batches, from a list, behind two counters. */
module PacedReplica {
  import opened Arith
  import opened Counting
  import opened Workload
  import opened ReplicaGroup
  import ReplicaRuns

  /** One worker; `batch_size` groups per batch. */
  datatype PConfig = PConfig(base: Config, batchSize: nat)
  {
    /** What the options allow: the batch size may be any number. */
    ghost predicate Legal() {
      base.Valid()
    }

    ghost predicate Valid() {
      Legal() && 1 <= batchSize <= base.queueDepth
    }
  }

  /** `pending` is the content of the pacing list. */
  datatype PState = PState(rep: State, pending: seq<nat>, batch: nat, submitBatch: nat)

  /** `Hotplug` is a completion that reports the namespace gone; `Pace` is the pacing block. */
  datatype Event =
    | Deliver(slot: nat, ns: nat)
    | Hotplug(slot: nat, ns: nat)
    | WarmupReset
    | Pace(choices: seq<Choice>)

  /** All groups allocated and waiting in the list. */
  function Init(cfg: PConfig): PState {
    var Q := cfg.base.queueDepth;
    PState(State(seq(cfg.base.R(), _ => Ctx(0, 0, 0, false)), seq(Q, (g: nat) => NewGroup(cfg.base, g)), 0, []),
           seq(Q, (g: nat) => g), 0, 0)
  }

  /** `task_complete` with pacing on: a finished group joins the list instead of being resubmitted. */
  function TaskComplete(cfg: PConfig, p: PState, slot: nat, ns: nat): PState
    requires cfg.Legal() && Outstanding(p.rep, slot, ns)
  {
    var s1 := Arrive(p.rep, slot, ns);
    if !IsLast(p.rep, slot) then p.(rep := s1)
    else if AnyDraining(s1) then p.(rep := Release(s1, slot))
    else p.(rep := AdvanceId(cfg.base, s1, slot), pending := p.pending + [slot], batch := p.batch + 1)
  }

  /** The first entry of the list is a group that can be submitted. */
  predicate CanPop(p: PState) {
    p.pending != [] && p.pending[0] < |p.rep.groups| && p.rep.groups[p.pending[0]].Live?
  }

  function PopOne(cfg: PConfig, p: PState, choice: Choice): PState
    requires cfg.Legal() && CanPop(p)
  {
    PState(SubmitRound(cfg.base, p.rep, p.pending[0], choice), p.pending[1..], p.batch, p.submitBatch + 1)
  }

  /** The loop of the pacing block. It stops at an empty list, where the program would dereference null. */
  function PopLoop(cfg: PConfig, p: PState, choices: seq<Choice>): PState
    requires cfg.Legal()
    decreases |choices|
  {
    if p.submitBatch >= cfg.batchSize || choices == [] || !CanPop(p) then p
    else PopLoop(cfg, PopOne(cfg, p, choices[0]), choices[1..])
  }

  /** What the program relies on at every pop: a non-empty list, and its own assertion that the context of
      the main task does not drain. */
  predicate PopsSafely(cfg: PConfig, p: PState, choices: seq<Choice>)
    requires cfg.Legal()
    decreases |choices|
  {
    p.submitBatch >= cfg.batchSize || choices == [] ||
    (&& CanPop(p) && p.rep.ctxs != [] && !p.rep.ctxs[0].draining
     && PopsSafely(cfg, PopOne(cfg, p, choices[0]), choices[1..]))
  }

  /** The pacing block. */
  function PaceBlock(cfg: PConfig, p: PState, choices: seq<Choice>): PState
    requires cfg.Legal()
  {
    var p1 := PopLoop(cfg, p, choices);
    if p1.batch >= cfg.batchSize then p1.(batch := 0, submitBatch := 0) else p1
  }

  predicate Enabled(cfg: PConfig, p: PState, e: Event) {
    match e
    case Deliver(slot, ns) => Outstanding(p.rep, slot, ns)
    case Hotplug(slot, ns) => Outstanding(p.rep, slot, ns)
    case WarmupReset => cfg.base.warmup
    case Pace(choices) => |choices| == cfg.batchSize
  }

  function Step(cfg: PConfig, p: PState, e: Event): PState
    requires cfg.Legal()
  {
    if !Enabled(cfg, p, e) then p else
    match e
    case Deliver(slot, ns) => TaskComplete(cfg, p, slot, ns)
    case Hotplug(slot, ns) => TaskComplete(cfg, p.(rep := Drain(p.rep, ns)), slot, ns)
    case WarmupReset => p.(rep := ResetStats(p.rep))
    case Pace(choices) => PaceBlock(cfg, p, choices)
  }

  function Exec(cfg: PConfig, p: PState, run: seq<Event>): PState
    requires cfg.Legal()
    decreases |run|
  {
    if run == [] then p else Exec(cfg, Step(cfg, p, run[0]), run[1..])
  }

  // ---------------------------------------------------------------- invariant

  ghost function Idle(pending: seq<nat>): set<nat> { set x | x in pending }

  ghost predicate Multiple(n: nat, q: nat) { exists j: nat :: n == j * q }

  /** What holds of the groups and the list, inside the pop loop too. */
  ghost predicate ListInv(cfg: PConfig, p: PState)
    requires cfg.Valid()
  {
    && |p.rep.groups| == cfg.base.queueDepth
    && NoDup(p.pending)
    && (forall i :: 0 <= i < |p.pending| ==>
          p.pending[i] < |p.rep.groups| && p.rep.groups[p.pending[i]].Live?)
    && CoreInv(cfg.base, p.rep, Idle(p.pending))
  }

  /** The credit scheme between two rounds of the main loop. While nothing drains, the groups that are not
      in the list are those submitted and not counted back; once something drains the block is shut. */
  ghost predicate PInv(cfg: PConfig, p: PState)
    requires cfg.Valid()
  {
    && ListInv(cfg, p)
    && p.batch <= p.submitBatch
    && if AnyDraining(p.rep) then p.submitBatch == cfg.batchSize && p.batch < cfg.batchSize
       else
         && (p.submitBatch == 0 || p.submitBatch == cfg.batchSize)
         && p.rep.released == []
         && |p.pending| + p.submitBatch - p.batch == cfg.base.queueDepth
         && (cfg.base.cap > 0 ==> Multiple(p.rep.ctxs[0].submitted, cfg.batchSize))
  }

  lemma {:induction false} InitHolds(cfg: PConfig)
    requires cfg.Valid()
    ensures PInv(cfg, Init(cfg))
  {
    var p := Init(cfg);
    forall k | 0 <= k < cfg.base.R()
      ensures Count(p.rep.groups, OutOn(k)) == 0
    {
      CountNone(p.rep.groups, OutOn(k));
    }
    forall g | 0 <= g < |p.rep.groups|
      ensures GroupInv(cfg.base, p.rep.groups[g], g, g in Idle(p.pending))
    {
      assert p.pending[g] == g;
      CountNone(p.rep.groups[g].reps, IsOut());
    }
    assert 0 == 0 * cfg.batchSize;
  }

  lemma {:induction false} IdlePush(pending: seq<nat>, x: nat)
    ensures Idle(pending + [x]) == Idle(pending) + {x}
  {
  }

  lemma {:induction false} IdlePop(pending: seq<nat>)
    requires pending != [] && NoDup(pending)
    ensures Idle(pending[1..]) == Idle(pending) - {pending[0]}
  {
    assert pending == [pending[0]] + pending[1..];
  }

  /** The last replica of a group comes back: the group is idle, outside the list. */
  lemma {:induction false} LastKeeps(cfg: PConfig, p: PState, slot: nat, ns: nat)
    requires cfg.Valid() && ListInv(cfg, p) && Outstanding(p.rep, slot, ns) && IsLast(p.rep, slot)
    ensures slot !in p.pending
    ensures CoreInv(cfg.base, Arrive(p.rep, slot, ns), Idle(p.pending) + {slot})
  {
    DepthPositive(cfg.base, p.rep, slot, ns, Idle(p.pending));
    ArriveKeeps(cfg.base, p.rep, slot, ns, Idle(p.pending));
  }

  lemma {:induction false} PushKeeps(cfg: PConfig, p: PState, s1: State, slot: nat)
    requires cfg.Valid() && ListInv(cfg, p) && slot !in p.pending
    requires |s1.groups| == cfg.base.queueDepth && slot < |s1.groups| && s1.groups[slot].Live?
    requires CoreInv(cfg.base, s1, Idle(p.pending) + {slot})
    requires forall i :: 0 <= i < |p.pending| ==> s1.groups[p.pending[i]].Live?
    ensures s1.groups[slot].reps != []
    ensures ListInv(cfg, p.(rep := AdvanceId(cfg.base, s1, slot), pending := p.pending + [slot], batch := p.batch + 1))
  {
    assert GroupInv(cfg.base, s1.groups[slot], slot, true);
    AdvanceIdKeeps(cfg.base, s1, slot, Idle(p.pending) + {slot});
    IdlePush(p.pending, slot);
    assert forall i :: 0 <= i < |p.pending| ==> p.pending[i] in p.pending;
  }

  /** A replica that comes back. */
  lemma {:induction false} DeliverKeeps(cfg: PConfig, p: PState, slot: nat, ns: nat)
    requires cfg.Valid() && ListInv(cfg, p) && Outstanding(p.rep, slot, ns)
    ensures ListInv(cfg, TaskComplete(cfg, p, slot, ns))
  {
    hide GroupInv, IdAt, MinSize, CapInv, ReleaseInv;
    var s1 := Arrive(p.rep, slot, ns);
    if !IsLast(p.rep, slot) {
      ArriveKeeps(cfg.base, p.rep, slot, ns, Idle(p.pending));
    } else {
      LastKeeps(cfg, p, slot, ns);
      if AnyDraining(s1) {
        ReleaseKeeps(cfg.base, s1, slot, Idle(p.pending) + {slot});
        assert Idle(p.pending) + {slot} - {slot} == Idle(p.pending);
        assert forall i :: 0 <= i < |p.pending| ==> p.pending[i] in p.pending;
      } else {
        PushKeeps(cfg, p, s1, slot);
      }
    }
  }

  /** Some group is out, so not all of the batch has come back. */
  lemma {:induction false} SomeOut(cfg: PConfig, p: PState, slot: nat, ns: nat)
    requires cfg.Valid() && PInv(cfg, p) && !AnyDraining(p.rep) && Outstanding(p.rep, slot, ns)
    ensures p.submitBatch == cfg.batchSize && p.batch < cfg.batchSize
  {
    DepthPositive(cfg.base, p.rep, slot, ns, Idle(p.pending));
    assert forall i :: 0 <= i < |p.pending| ==> p.pending[i] in p.pending;
    BoundedLength(p.pending + [slot], cfg.base.queueDepth);
  }

  lemma {:induction false} ReturnKeeps(cfg: PConfig, p: PState, slot: nat, ns: nat, gone: bool)
    requires cfg.Valid() && PInv(cfg, p) && Outstanding(p.rep, slot, ns)
    ensures PInv(cfg, Step(cfg, p, if gone then Hotplug(slot, ns) else Deliver(slot, ns)))
  {
    if !AnyDraining(p.rep) {
      SomeOut(cfg, p, slot, ns);
    }
    var q := if gone then p.(rep := Drain(p.rep, ns)) else p;
    if gone {
      assert q.rep.ctxs[ns].draining;
      DrainKeeps(cfg, p, ns);
    }
    DeliverKeeps(cfg, q, slot, ns);
    SameDraining(q.rep, slot, ns);
  }

  lemma {:induction false} DrainKeeps(cfg: PConfig, p: PState, ns: nat)
    requires cfg.Valid() && ListInv(cfg, p) && ns < |p.rep.ctxs|
    ensures ListInv(cfg, p.(rep := Drain(p.rep, ns)))
  {
  }

  // ---------------------------------------------------------------- the pacing block

  lemma {:induction false} PopOneKeeps(cfg: PConfig, p: PState, choice: Choice)
    requires cfg.Valid() && ListInv(cfg, p) && p.pending != [] && !AnyDraining(p.rep)
    ensures CanPop(p) && ListInv(cfg, PopOne(cfg, p, choice))
    ensures var q := PopOne(cfg, p, choice);
            && q.rep.ctxs[0].submitted == p.rep.ctxs[0].submitted + 1
            && q.rep.released == p.rep.released
            && (AnyDraining(q.rep) <==> cfg.base.cap > 0 && q.rep.ctxs[0].submitted == cfg.base.cap)
  {
    ReplicaRuns.BelowCap(cfg.base, p.rep);
    SubmitKeeps(cfg.base, p.rep, p.pending[0], choice, Idle(p.pending));
    IdlePop(p.pending);
    var q := PopOne(cfg, p, choice);
    assert q.rep.ctxs[0] == Bump(cfg.base.cap, p.rep.ctxs[0]);
    assert forall k :: 0 <= k < |q.rep.ctxs| ==> q.rep.ctxs[k] == Bump(cfg.base.cap, p.rep.ctxs[k]);
  }

  /** `q` is `p` with the rest of the batch submitted: taken from the front of the list, draining only at its end. */
  ghost predicate Submitted(cfg: PConfig, p: PState, q: PState)
    requires cfg.Valid()
  {
    && p.submitBatch <= cfg.batchSize && cfg.batchSize - p.submitBatch <= |p.pending|
    && p.rep.ctxs != [] && q.rep.ctxs != []
    && ListInv(cfg, q)
    && q.pending == p.pending[cfg.batchSize - p.submitBatch..]
    && q.batch == p.batch && q.submitBatch == cfg.batchSize
    && q.rep.ctxs[0].submitted == p.rep.ctxs[0].submitted + cfg.batchSize - p.submitBatch
    && q.rep.released == p.rep.released
    && (if p.submitBatch == cfg.batchSize then q == p
        else AnyDraining(q.rep) <==> cfg.base.cap > 0 && q.rep.ctxs[0].submitted == cfg.base.cap)
  }

  lemma {:induction false} SubmittedStep(cfg: PConfig, p: PState, q: PState, r: PState)
    requires cfg.Valid() && Submitted(cfg, q, r)
    requires p.submitBatch < cfg.batchSize && cfg.batchSize - p.submitBatch <= |p.pending| && p.rep.ctxs != []
    requires q.pending == p.pending[1..] && q.batch == p.batch && q.submitBatch == p.submitBatch + 1
    requires q.rep.ctxs[0].submitted == p.rep.ctxs[0].submitted + 1 && q.rep.released == p.rep.released
    requires AnyDraining(q.rep) <==> cfg.base.cap > 0 && q.rep.ctxs[0].submitted == cfg.base.cap
    ensures Submitted(cfg, p, r)
  {
    assert p.pending[1..][cfg.batchSize - q.submitBatch..] == p.pending[cfg.batchSize - p.submitBatch..];
  }

  lemma {:induction false} PopUnfold(cfg: PConfig, p: PState, choices: seq<Choice>)
    requires cfg.Valid() && p.submitBatch < cfg.batchSize && choices != [] && CanPop(p)
    requires p.rep.ctxs != [] && !p.rep.ctxs[0].draining
    ensures PopLoop(cfg, p, choices) == PopLoop(cfg, PopOne(cfg, p, choices[0]), choices[1..])
    ensures PopsSafely(cfg, p, choices) == PopsSafely(cfg, PopOne(cfg, p, choices[0]), choices[1..])
  {
  }

  /** A batch that the cap leaves room for is popped safely. */
  lemma {:induction false} PopLoopKeeps(cfg: PConfig, p: PState, choices: seq<Choice>)
    requires cfg.Valid() && ListInv(cfg, p)
    requires p.submitBatch <= cfg.batchSize <= p.submitBatch + |choices|
    requires cfg.batchSize - p.submitBatch <= |p.pending|
    requires p.submitBatch < cfg.batchSize ==> !AnyDraining(p.rep)
    requires cfg.base.cap > 0 ==> p.rep.ctxs[0].submitted + cfg.batchSize - p.submitBatch <= cfg.base.cap
    ensures PopsSafely(cfg, p, choices) && Submitted(cfg, p, PopLoop(cfg, p, choices))
    decreases |choices|
  {
    if p.submitBatch < cfg.batchSize {
      PopOneKeeps(cfg, p, choices[0]);
      PopUnfold(cfg, p, choices);
      var q := PopOne(cfg, p, choices[0]);
      PopLoopKeeps(cfg, q, choices[1..]);
      SubmittedStep(cfg, p, q, PopLoop(cfg, q, choices[1..]));
    }
  }

  /** What the pop loop keeps: entries enough, and no context draining before the main one. */
  ghost predicate MidBatch(cfg: PConfig, p: PState)
    requires cfg.Valid()
  {
    && ListInv(cfg, p)
    && p.submitBatch <= cfg.batchSize && cfg.batchSize - p.submitBatch <= |p.pending|
    && (AnyDraining(p.rep) ==> p.rep.ctxs[0].draining)
  }

  lemma {:induction false} MidBatchStep(cfg: PConfig, p: PState, choices: seq<Choice>)
    requires cfg.Valid() && MidBatch(cfg, p) && p.submitBatch < cfg.batchSize && choices != []
    requires !p.rep.ctxs[0].draining
    ensures CanPop(p) && MidBatch(cfg, PopOne(cfg, p, choices[0]))
    ensures PopLoop(cfg, p, choices) == PopLoop(cfg, PopOne(cfg, p, choices[0]), choices[1..])
    ensures PopsSafely(cfg, p, choices) == PopsSafely(cfg, PopOne(cfg, p, choices[0]), choices[1..])
  {
    PopOneKeeps(cfg, p, choices[0]);
    PopUnfold(cfg, p, choices);
  }

  /** The cap still has room for a whole batch. */
  ghost predicate Room(cfg: PConfig, p: PState)
    requires p.rep.ctxs != []
  {
    cfg.base.cap > 0 && p.submitBatch < cfg.batchSize ==>
      p.rep.ctxs[0].submitted + cfg.batchSize <= cfg.base.cap
  }

  lemma {:induction false} PaceKeeps(cfg: PConfig, p: PState, choices: seq<Choice>)
    requires cfg.Valid() && PInv(cfg, p) && |choices| == cfg.batchSize && Room(cfg, p)
    ensures PopsSafely(cfg, p, choices)
    ensures PInv(cfg, PaceBlock(cfg, p, choices))
  {
    if p.submitBatch < cfg.batchSize {
      PopLoopKeeps(cfg, p, choices);
      if cfg.base.cap > 0 {
        var j: nat :| p.rep.ctxs[0].submitted == j * cfg.batchSize;
        assert j * cfg.batchSize + cfg.batchSize == (j + 1) * cfg.batchSize;
      }
    }
  }

  /** The batch size divides the cap, or there is no cap. */
  predicate CapFits(cfg: PConfig)
    requires cfg.Valid()
  {
    cfg.base.cap % cfg.batchSize == 0
  }

  lemma {:induction false} FitsRoom(cfg: PConfig, p: PState)
    requires cfg.Valid() && PInv(cfg, p) && CapFits(cfg)
    ensures Room(cfg, p)
  {
    if cfg.base.cap > 0 && p.submitBatch < cfg.batchSize {
      var j: nat :| p.rep.ctxs[0].submitted == j * cfg.batchSize;
      ReplicaRuns.BelowCap(cfg.base, p.rep);
      NextMultiple(j, cfg.base.cap, cfg.batchSize);
    }
  }

  /** Between two multiples of `q` there is room for `q`. */
  lemma {:induction false} NextMultiple(j: nat, n: nat, q: nat)
    requires 1 <= q && n % q == 0 && j * q < n
    ensures j * q + q <= n
  {
    var m := n / q;
    assert n == m * q;
    if j < m {
      MulLe(j + 1, m, q);
      assert (j + 1) * q == j * q + q;
    } else {
      MulLe(m, j, q);
    }
  }

  /** While the cap has room for whole batches the credit scheme is kept, into the draining phase too. */
  lemma {:induction false} CreditKeeps(cfg: PConfig, p: PState, e: Event)
    requires cfg.Valid() && PInv(cfg, p)
    requires e.Pace? ==> Room(cfg, p)
    ensures PInv(cfg, Step(cfg, p, e))
  {
    if Enabled(cfg, p, e) {
      match e
      case Deliver(slot, ns) => ReturnKeeps(cfg, p, slot, ns, false);
      case Hotplug(slot, ns) => ReturnKeeps(cfg, p, slot, ns, true);
      case WarmupReset => ResetKeeps(cfg, p);
      case Pace(choices) => PaceKeeps(cfg, p, choices);
    }
  }

  lemma {:induction false} ResetKeeps(cfg: PConfig, p: PState)
    requires cfg.Valid() && PInv(cfg, p) && cfg.base.warmup
    ensures PInv(cfg, Step(cfg, p, WarmupReset))
  {
    var q := Step(cfg, p, WarmupReset);
    assert forall k :: 0 <= k < |q.rep.ctxs| ==> q.rep.ctxs[k].draining == p.rep.ctxs[k].draining;
  }

  // ---------------------------------------------------------------- every run

  /** The same configuration without the cap. */
  function NoCap(cfg: PConfig): PConfig { cfg.(base := Uncapped(cfg.base)) }

  /** What every run keeps, whatever the cap. The groups and the list stay in order; the credit scheme holds
      until something drains; afterwards, even if the cap was met in the middle of a batch, the block is shut. */
  ghost predicate RunInv(cfg: PConfig, p: PState)
    requires cfg.Valid()
  {
    && ListInv(NoCap(cfg), p)
    && if AnyDraining(p.rep) then p.submitBatch == cfg.batchSize && p.batch < cfg.batchSize else PInv(cfg, p)
  }

  lemma {:induction false} CreditIsRun(cfg: PConfig, p: PState)
    requires cfg.Valid() && PInv(cfg, p)
    ensures RunInv(cfg, p)
  {
    UncappedHolds(cfg.base, p.rep, Idle(p.pending));
  }

  /** One pop keeps the groups and the list in order, also past the cap. */
  lemma {:induction false} PopPlaces(cfg: PConfig, p: PState, choice: Choice)
    requires cfg.Valid() && ListInv(NoCap(cfg), p) && p.pending != []
    ensures CanPop(p) && ListInv(NoCap(cfg), PopOne(cfg, p, choice))
    ensures PopOne(cfg, p, choice).rep.ctxs[0] == Bump(cfg.base.cap, p.rep.ctxs[0])
  {
    hide GroupInv, IdAt, MinSize;
    SubmitPlaces(cfg.base, p.rep, p.pending[0], choice, Idle(p.pending));
    IdlePop(p.pending);
    var q := PopOne(cfg, p, choice);
    assert forall i :: 0 <= i < |q.pending| ==> q.pending[i] == p.pending[i + 1];
  }

  /** The pop loop takes a whole batch even when the cap is met on the way; then something drains at the end. */
  lemma {:induction false} PopAll(cfg: PConfig, p: PState, choices: seq<Choice>)
    requires cfg.Valid() && ListInv(NoCap(cfg), p)
    requires p.submitBatch <= cfg.batchSize <= p.submitBatch + |choices|
    requires cfg.batchSize - p.submitBatch <= |p.pending|
    ensures var q := PopLoop(cfg, p, choices);
            var n := cfg.batchSize - p.submitBatch;
            && ListInv(NoCap(cfg), q)
            && q.pending == p.pending[n..] && q.batch == p.batch && q.submitBatch == cfg.batchSize
            && q.rep.ctxs[0].submitted == p.rep.ctxs[0].submitted + n
            && (p.rep.ctxs[0].draining ==> q.rep.ctxs[0].draining)
            && (n > 0 && cfg.base.cap > 0 && q.rep.ctxs[0].submitted >= cfg.base.cap ==> q.rep.ctxs[0].draining)
    decreases |choices|
  {
    hide CoreInv, SubmitRound;
    ListHasMain(cfg, p);
    if p.submitBatch < cfg.batchSize {
      var q := PopOne(cfg, p, choices[0]);
      PopPlaces(cfg, p, choices[0]);
      ListHasMain(cfg, q);
      PopAll(cfg, q, choices[1..]);
      assert p.pending[1..][cfg.batchSize - q.submitBatch..] == p.pending[cfg.batchSize - p.submitBatch..];
    }
  }

  lemma {:induction false} ListHasMain(cfg: PConfig, p: PState)
    requires cfg.Valid() && ListInv(NoCap(cfg), p)
    ensures |p.rep.ctxs| == cfg.base.R() && p.rep.ctxs != []
  {
  }

  /** A pacing block that submits takes one whole batch from the front of the list. */
  lemma {:induction false} PaceEffect(cfg: PConfig, p: PState, choices: seq<Choice>)
    requires cfg.Valid() && PInv(cfg, p) && |choices| == cfg.batchSize && p.submitBatch < cfg.batchSize
    ensures var q := PaceBlock(cfg, p, choices);
            && q == PopLoop(cfg, p, choices)
            && ListInv(NoCap(cfg), q) && !AnyDraining(p.rep) && cfg.batchSize <= |p.pending|
            && |q.rep.ctxs| == |p.rep.ctxs| == cfg.base.R()
            && q.rep.ctxs[0].submitted == p.rep.ctxs[0].submitted + cfg.batchSize
            && q.pending == p.pending[cfg.batchSize..] && q.batch == p.batch == 0 && q.submitBatch == cfg.batchSize
            && (AnyDraining(q.rep) <==> cfg.base.cap > 0 && q.rep.ctxs[0].submitted >= cfg.base.cap)
  {
    hide GroupInv, IdAt;
    CreditIsRun(cfg, p);
    PopAll(cfg, p, choices);
    if Room(cfg, p) {
      PopLoopKeeps(cfg, p, choices);
    }
  }

  /** A block that does not submit only restarts the counters. */
  lemma {:induction false} PaceRests(cfg: PConfig, p: PState, choices: seq<Choice>)
    requires cfg.Valid() && p.submitBatch >= cfg.batchSize
    ensures PaceBlock(cfg, p, choices) == if p.batch >= cfg.batchSize then p.(batch := 0, submitBatch := 0) else p
  {
  }

  /** A completion keeps the groups and the list in order, also past the cap. */
  lemma {:induction false} ReturnPlaces(cfg: PConfig, p: PState, slot: nat, ns: nat)
    requires cfg.Valid() && ListInv(NoCap(cfg), p) && Outstanding(p.rep, slot, ns)
    ensures ListInv(NoCap(cfg), TaskComplete(cfg, p, slot, ns))
  {
    hide ListInv;
    DeliverKeeps(NoCap(cfg), p, slot, ns);
  }

  /** Draining persists, and with it the list and the counters. */
  lemma {:induction false} ShutKeeps(cfg: PConfig, p: PState, e: Event)
    requires cfg.Valid() && RunInv(cfg, p) && AnyDraining(p.rep)
    ensures var q := Step(cfg, p, e);
            RunInv(cfg, q) && AnyDraining(q.rep) && q.pending == p.pending
  {
    hide PInv, ListInv;
    if Enabled(cfg, p, e) {
      match e
      case Deliver(slot, ns) =>
        ReturnPlaces(cfg, p, slot, ns);
        SameDraining(p.rep, slot, ns);
      case Hotplug(slot, ns) =>
        var d := p.(rep := Drain(p.rep, ns));
        assert d.rep.ctxs[ns].draining;
        DrainKeeps(NoCap(cfg), p, ns);
        ReturnPlaces(cfg, d, slot, ns);
        SameDraining(d.rep, slot, ns);
      case WarmupReset =>
        var k :| 0 <= k < |p.rep.ctxs| && p.rep.ctxs[k].draining;
        assert Step(cfg, p, e).rep.ctxs[k].draining;
        ResetPlaces(NoCap(cfg), p);
      case Pace(choices) => PaceRests(cfg, p, choices);
    }
  }

  lemma {:induction false} ResetPlaces(cfg: PConfig, p: PState)
    requires cfg.Valid() && ListInv(cfg, p) && cfg.base.cap == 0
    ensures ListInv(cfg, p.(rep := ResetStats(p.rep)))
  {
  }

  lemma {:induction false} StepKeeps(cfg: PConfig, p: PState, e: Event)
    requires cfg.Valid() && RunInv(cfg, p)
    ensures RunInv(cfg, Step(cfg, p, e))
  {
    if AnyDraining(p.rep) {
      ShutKeeps(cfg, p, e);
    } else if e.Pace? && !Room(cfg, p) {
      if Enabled(cfg, p, e) {
        PaceEffect(cfg, p, e.choices);
      }
    } else {
      hide PInv;
      CreditKeeps(cfg, p, e);
      CreditIsRun(cfg, Step(cfg, p, e));
    }
  }

  lemma {:induction false} ExecKeeps(cfg: PConfig, p: PState, run: seq<Event>)
    requires cfg.Valid() && RunInv(cfg, p)
    ensures RunInv(cfg, Exec(cfg, p, run))
    decreases |run|
  {
    hide RunInv;
    if run != [] {
      StepKeeps(cfg, p, run[0]);
      ExecKeeps(cfg, Step(cfg, p, run[0]), run[1..]);
    }
  }

  lemma {:induction false} EveryRun(cfg: PConfig, run: seq<Event>)
    requires cfg.Valid()
    ensures RunInv(cfg, Exec(cfg, Init(cfg), run))
  {
    InitHolds(cfg);
    CreditIsRun(cfg, Init(cfg));
    ExecKeeps(cfg, Init(cfg), run);
  }
}
