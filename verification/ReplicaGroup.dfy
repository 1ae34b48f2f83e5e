/** The replica group protocol: every logical I/O is a group of one task per namespace context. */
module ReplicaGroup {
  import opened Arith
  import opened Counting
  import opened Workload

  /** `sizes` are the sizes in I/Os of the worker's namespaces, main namespace first. */
  datatype Config = Config(queueDepth: nat, cap: nat, sizes: seq<nat>, mode: Mode,
                           rwPercentage: nat, warmup: bool, mainLast: bool)
  {
    /** `g_rep_num`, equal to the number of contexts of the worker. */
    function R(): nat { |sizes| }

    /** The option guards, and one context per replica. A size may be 0, where an I/O limit divides it;
        only random mode needs a divisor. */
    ghost predicate Valid() {
      && 1 <= R()
      && 1 <= queueDepth < UINT32
      && (mode.Random? ==> 1 <= sizes[0])
      && (cap > 0 ==> !warmup && queueDepth <= cap)
    }
  }

  /** `get_min_size_in_ios`. */
  function MinSize(sizes: seq<nat>): (m: nat)
    requires sizes != []
    ensures m in sizes && forall i :: 0 <= i < |sizes| ==> m <= sizes[i]
  {
    if |sizes| == 1 then sizes[0]
    else
      var m := MinSize(sizes[..|sizes| - 1]);
      assert forall i :: 0 <= i < |sizes| - 1 ==> sizes[i] == sizes[..|sizes| - 1][i];
      if sizes[|sizes| - 1] < m then sizes[|sizes| - 1] else m
  }

  datatype Ctx = Ctx(depth: nat, submitted: nat, completed: nat, draining: bool)

  /** One copy of the task; `outstanding` is what the device knows: accepted and not completed. */
  datatype Replica = Replica(offset: nat, isRead: bool, ioId: nat, outstanding: bool)

  /** `finished` is `rep_completed_num`; `round` counts the rounds all replicas have completed. */
  datatype Group = Live(reps: seq<Replica>, finished: nat, round: nat) | Released(round: nat)

  /** `cursor` is the main context's `offset_in_ios`; `released` logs the groups given back, in order. */
  datatype State = State(ctxs: seq<Ctx>, groups: seq<Group>, cursor: nat, released: seq<nat>)

  predicate AnyDraining(s: State) { exists k :: 0 <= k < |s.ctxs| && s.ctxs[k].draining }

  /** `io_id + g_queue_depth` in 32 bits, with 0 skipped. */
  function NextId(id: nat, queueDepth: nat): nat {
    var n := (id + queueDepth) % UINT32;
    if n == 0 then 1 else n
  }

  /** The id of `slot` once it has completed `round` rounds. */
  function IdAt(slot: nat, round: nat, queueDepth: nat): nat {
    if round == 0 then slot + 1 else NextId(IdAt(slot, round - 1, queueDepth), queueDepth)
  }

  // ---------------------------------------------------------------- operations

  function NewGroup(cfg: Config, slot: nat): Group {
    Live(seq(cfg.R(), _ => Replica(0, false, slot + 1, false)), 0, 0)
  }

  function Bump(cap: nat, c: Ctx): Ctx {
    c.(depth := c.depth + 1,
       submitted := c.submitted + 1,
       draining := c.draining || (cap > 0 && c.submitted + 1 >= cap))
  }

  /** `submit_single_io_rep`: one offset and one direction for all replicas, every one accepted. */
  function SubmitRound(cfg: Config, s: State, slot: nat, choice: Choice): State
    requires cfg.Valid()
    requires slot < |s.groups| && s.groups[slot].Live?
  {
    var offset := PickOffset(cfg.mode, s.cursor, cfg.sizes[0], choice);
    var isRead := PickRead(cfg.rwPercentage, choice);
    var g := s.groups[slot];
    var reps := seq(|g.reps|, k requires 0 <= k < |g.reps| => Replica(offset, isRead, g.reps[k].ioId, true));
    s.(ctxs := seq(|s.ctxs|, k requires 0 <= k < |s.ctxs| => Bump(cfg.cap, s.ctxs[k])),
       groups := s.groups[slot := g.(reps := reps)],
       cursor := NextCursor(cfg.mode, s.cursor, MinSize(cfg.sizes)))
  }

  predicate Outstanding(s: State, slot: nat, ns: nat) {
    && slot < |s.groups| && s.groups[slot].Live?
    && ns < |s.groups[slot].reps| && ns < |s.ctxs|
    && s.groups[slot].reps[ns].outstanding
  }

  predicate IsLast(s: State, slot: nat)
    requires slot < |s.groups| && s.groups[slot].Live?
  {
    s.groups[slot].finished + 1 >= |s.groups[slot].reps|
  }

  /** The first half of `task_complete`: the replica comes back, the last one rearms the barrier. */
  function Arrive(s: State, slot: nat, ns: nat): State
    requires Outstanding(s, slot, ns)
  {
    var c := s.ctxs[ns];
    var g := s.groups[slot];
    s.(ctxs := s.ctxs[ns := c.(depth := Dec64(c.depth), completed := c.completed + 1)],
       groups := s.groups[slot := g.(reps := g.reps[ns := g.reps[ns].(outstanding := false)],
                                     finished := if IsLast(s, slot) then 0 else g.finished + 1)])
  }

  /** Hands the next id to every replica. */
  function AdvanceId(cfg: Config, s: State, slot: nat): State
    requires slot < |s.groups| && s.groups[slot].Live? && s.groups[slot].reps != []
  {
    var g := s.groups[slot];
    var id := NextId(g.reps[0].ioId, cfg.queueDepth);
    var reps := seq(|g.reps|, k requires 0 <= k < |g.reps| => g.reps[k].(ioId := id));
    s.(groups := s.groups[slot := g.(reps := reps, round := g.round + 1)])
  }

  /** `rep_task_release`. */
  function Release(s: State, slot: nat): State
    requires slot < |s.groups| && s.groups[slot].Live?
  {
    s.(groups := s.groups[slot := Released(s.groups[slot].round + 1)], released := s.released + [slot])
  }

  /** `task_complete`. */
  function TaskComplete(cfg: Config, s: State, slot: nat, ns: nat, choice: Choice): State
    requires cfg.Valid()
    requires Outstanding(s, slot, ns)
  {
    var s1 := Arrive(s, slot, ns);
    if !IsLast(s, slot) then s1
    else if AnyDraining(s1) then Release(s1, slot)
    else SubmitRound(cfg, AdvanceId(cfg, s1, slot), slot, choice)
  }

  lemma {:induction false} SameDraining(s: State, slot: nat, ns: nat)
    requires Outstanding(s, slot, ns)
    ensures AnyDraining(Arrive(s, slot, ns)) == AnyDraining(s)
  {
    var s1 := Arrive(s, slot, ns);
    assert forall k :: 0 <= k < |s1.ctxs| ==> s1.ctxs[k].draining == s.ctxs[k].draining;
  }

  /** A context stops, because time is up or its namespace is gone. */
  function Drain(s: State, ns: nat): State
    requires ns < |s.ctxs|
  {
    s.(ctxs := s.ctxs[ns := s.ctxs[ns].(draining := true)])
  }

  /** The statistics are cleared at the end of the warm-up. */
  function ResetStats(s: State): State {
    s.(ctxs := seq(|s.ctxs|, k requires 0 <= k < |s.ctxs| => s.ctxs[k].(submitted := 0, completed := 0)))
  }

  // ---------------------------------------------------------------- invariant

  ghost function IsOut(): Replica -> bool { (r: Replica) => r.outstanding }

  /** Groups with an outstanding replica on context `k`. */
  ghost function OutOn(k: nat): Group -> bool {
    (g: Group) => g.Live? && k < |g.reps| && g.reps[k].outstanding
  }

  /** All replicas carry the offset, direction and id of the main task. */
  ghost predicate Agree(reps: seq<Replica>) {
    forall k :: 0 <= k < |reps| ==>
      reps[k].offset == reps[0].offset && reps[k].isRead == reps[0].isRead && reps[k].ioId == reps[0].ioId
  }

  /** An idle group waits between two rounds; an active one misses `R - finished > 0` replicas. */
  ghost predicate GroupInv(cfg: Config, g: Group, slot: nat, idle: bool)
    requires cfg.Valid()
  {
    if g.Released? then !idle
    else
      && |g.reps| == cfg.R()
      && Agree(g.reps)
      && g.reps[0].ioId == IdAt(slot, g.round, cfg.queueDepth)
      && (cfg.mode.Sequential? ==> Within(g.reps[0].offset, MinSize(cfg.sizes)))
      && (if idle then g.finished == 0 && Count(g.reps, IsOut()) == 0
          else g.finished < cfg.R() && g.finished + Count(g.reps, IsOut()) == cfg.R())
  }

  ghost predicate CapInv(cfg: Config, s: State)
    requires |s.ctxs| == cfg.R()
  {
    && (forall k :: 0 <= k < cfg.R() ==> s.ctxs[k].submitted == s.ctxs[0].submitted)
    && (cfg.cap > 0 ==> forall k :: 0 <= k < cfg.R() ==>
          s.ctxs[k].submitted <= cfg.cap && (s.ctxs[k].submitted == cfg.cap ==> s.ctxs[k].draining))
  }

  ghost predicate ReleaseInv(s: State) {
    && NoDup(s.released)
    && forall g: nat :: g in s.released <==> g < |s.groups| && s.groups[g].Released?
  }

  /** What every engine keeps; `idle` are the live groups that wait between two rounds. */
  ghost predicate CoreInv(cfg: Config, s: State, idle: set<nat>)
    requires cfg.Valid()
  {
    && |s.ctxs| == cfg.R()
    && Within(s.cursor, MinSize(cfg.sizes))
    && (forall g :: g in idle ==> g < |s.groups|)
    && (forall g :: 0 <= g < |s.groups| ==> GroupInv(cfg, s.groups[g], g, g in idle))
    && (forall k :: 0 <= k < cfg.R() ==> s.ctxs[k].depth == Count(s.groups, OutOn(k)))
    && ReleaseInv(s)
    && CapInv(cfg, s)
  }

  /** Replacing one live group, with the counters of the contexts moved accordingly. */
  lemma {:induction false} ReplaceKeeps(cfg: Config, s: State, slot: nat, g: Group, ctxs: seq<Ctx>, cursor: nat,
                     idle: set<nat>, idle': set<nat>)
    requires cfg.Valid() && CoreInv(cfg, s, idle)
    requires slot < |s.groups| && s.groups[slot].Live? && g.Live?
    requires GroupInv(cfg, g, slot, slot in idle') && idle - {slot} == idle' - {slot}
    requires Within(cursor, MinSize(cfg.sizes))
    requires |ctxs| == cfg.R()
    requires forall k :: 0 <= k < cfg.R() ==>
               ctxs[k].depth + (if OutOn(k)(s.groups[slot]) then 1 else 0)
               == s.ctxs[k].depth + (if OutOn(k)(g) then 1 else 0)
    requires CapInv(cfg, s.(ctxs := ctxs))
    ensures CoreInv(cfg, State(ctxs, s.groups[slot := g], cursor, s.released), idle')
  {
    var s1 := State(ctxs, s.groups[slot := g], cursor, s.released);
    forall k | 0 <= k < cfg.R()
      ensures ctxs[k].depth == Count(s1.groups, OutOn(k))
    {
      CountUpdate(s.groups, slot, g, OutOn(k));
    }
    forall h | 0 <= h < |s1.groups|
      ensures GroupInv(cfg, s1.groups[h], h, h in idle')
    {
      assert h != slot ==> (h in idle <==> h in idle - {slot}) && (h in idle' <==> h in idle' - {slot});
      assert GroupInv(cfg, s.groups[h], h, h in idle);
    }
    forall h | h in idle'
      ensures h < |s1.groups|
    {
      assert h != slot ==> h in idle' - {slot};
    }
  }

  /** A replica counted as outstanding keeps its context's depth positive: no decrement underflows. */
  lemma {:induction false} DepthPositive(cfg: Config, s: State, slot: nat, ns: nat, idle: set<nat>)
    requires cfg.Valid() && CoreInv(cfg, s, idle)
    requires Outstanding(s, slot, ns)
    ensures slot !in idle && s.ctxs[ns].depth >= 1
  {
    assert GroupInv(cfg, s.groups[slot], slot, slot in idle);
    CountNone(s.groups[slot].reps, IsOut());
    CountNone(s.groups, OutOn(ns));
    assert OutOn(ns)(s.groups[slot]);
  }

  lemma {:induction false} ArriveKeeps(cfg: Config, s: State, slot: nat, ns: nat, idle: set<nat>)
    requires cfg.Valid() && CoreInv(cfg, s, idle)
    requires Outstanding(s, slot, ns)
    ensures CoreInv(cfg, Arrive(s, slot, ns), if IsLast(s, slot) then idle + {slot} else idle)
  {
    var g := s.groups[slot];
    var s1 := Arrive(s, slot, ns);
    DepthPositive(cfg, s, slot, ns, idle);
    CountUpdate(g.reps, ns, g.reps[ns].(outstanding := false), IsOut());
    ReplaceKeeps(cfg, s, slot, s1.groups[slot], s1.ctxs, s.cursor, idle,
                 if IsLast(s, slot) then idle + {slot} else idle);
  }

  lemma {:induction false} AdvanceIdKeeps(cfg: Config, s: State, slot: nat, idle: set<nat>)
    requires cfg.Valid() && CoreInv(cfg, s, idle) && slot in idle && s.groups[slot].Live?
    ensures CoreInv(cfg, AdvanceId(cfg, s, slot), idle)
  {
    var s1 := AdvanceId(cfg, s, slot);
    assert GroupInv(cfg, s.groups[slot], slot, true);
    CountSame(s.groups[slot].reps, IsOut(), s1.groups[slot].reps, IsOut());
    ReplaceKeeps(cfg, s, slot, s1.groups[slot], s1.ctxs, s.cursor, idle, idle);
  }

  lemma {:induction false} SubmitKeeps(cfg: Config, s: State, slot: nat, choice: Choice, idle: set<nat>)
    requires cfg.Valid() && CoreInv(cfg, s, idle) && slot in idle && s.groups[slot].Live?
    requires cfg.cap > 0 ==> s.ctxs[0].submitted < cfg.cap
    ensures CoreInv(cfg, SubmitRound(cfg, s, slot, choice), idle - {slot})
  {
    var s1 := SubmitRound(cfg, s, slot, choice);
    assert GroupInv(cfg, s.groups[slot], slot, true);
    CountNone(s.groups[slot].reps, IsOut());
    CountAll(s1.groups[slot].reps, IsOut());
    ReplaceKeeps(cfg, s, slot, s1.groups[slot], s1.ctxs, s1.cursor, idle, idle - {slot});
  }

  /** The same invariant, but for the cap. */
  function Uncapped(cfg: Config): Config { cfg.(cap := 0) }

  lemma {:induction false} UncappedHolds(cfg: Config, s: State, idle: set<nat>)
    requires cfg.Valid() && CoreInv(cfg, s, idle)
    ensures CoreInv(Uncapped(cfg), s, idle)
  {
    forall g | 0 <= g < |s.groups|
      ensures GroupInv(Uncapped(cfg), s.groups[g], g, g in idle)
    {
      assert GroupInv(cfg, s.groups[g], g, g in idle);
    }
  }

  /** Whatever the cap, a submission of an idle group keeps all but the cap. */
  lemma {:induction false} SubmitPlaces(cfg: Config, s: State, slot: nat, choice: Choice, idle: set<nat>)
    requires cfg.Valid() && CoreInv(Uncapped(cfg), s, idle) && slot in idle && s.groups[slot].Live?
    ensures CoreInv(Uncapped(cfg), SubmitRound(cfg, s, slot, choice), idle - {slot})
  {
    var s1 := SubmitRound(cfg, s, slot, choice);
    assert GroupInv(Uncapped(cfg), s.groups[slot], slot, true);
    CountNone(s.groups[slot].reps, IsOut());
    CountAll(s1.groups[slot].reps, IsOut());
    ReplaceKeeps(Uncapped(cfg), s, slot, s1.groups[slot], s1.ctxs, s1.cursor, idle, idle - {slot});
  }

  lemma {:induction false} ReleaseKeeps(cfg: Config, s: State, slot: nat, idle: set<nat>)
    requires cfg.Valid() && CoreInv(cfg, s, idle) && slot in idle && s.groups[slot].Live?
    ensures CoreInv(cfg, Release(s, slot), idle - {slot})
  {
    var s1 := Release(s, slot);
    assert GroupInv(cfg, s.groups[slot], slot, true);
    CountNone(s.groups[slot].reps, IsOut());
    forall k | 0 <= k < cfg.R()
      ensures Count(s1.groups, OutOn(k)) == Count(s.groups, OutOn(k))
    {
      CountUpdate(s.groups, slot, s1.groups[slot], OutOn(k));
    }
  }
}
