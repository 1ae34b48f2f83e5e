/** The I/O ids of the replica engine: 32-bit numbers handed out by adding the queue depth. */
module ReplicaIds {
  import opened Arith
  import opened Counting
  import opened ReplicaGroup
  import opened ReplicaRuns
  import opened ReplicaTheorems
  import opened ReplicaScenarios

  lemma {:induction false} IdValue(slot: nat, round: nat, queueDepth: nat)
    requires slot < queueDepth < UINT32
    ensures 1 <= IdAt(slot, round, queueDepth) < UINT32
    ensures slot + 1 + round * queueDepth < UINT32 ==> IdAt(slot, round, queueDepth) == slot + 1 + round * queueDepth
  {
    if round > 0 {
      IdValue(slot, round - 1, queueDepth);
      assert (round - 1) * queueDepth + queueDepth == round * queueDepth;
    }
  }

  lemma {:induction false} LaterRoundLater(a: nat, i: nat, b: nat, j: nat, queueDepth: nat)
    requires a < queueDepth && i < j
    ensures a + i * queueDepth < b + j * queueDepth
    decreases j
  {
    assert j * queueDepth == (j - 1) * queueDepth + queueDepth;
    if i < j - 1 {
      LaterRoundLater(a, i, 0, j - 1, queueDepth);
    }
  }

  /** Below the 32-bit wrap, (slot, round) to id is injective. */
  lemma {:induction false} IdInjective(a: nat, i: nat, b: nat, j: nat, queueDepth: nat)
    requires a < queueDepth < UINT32 && b < queueDepth
    requires a + 1 + i * queueDepth < UINT32 && b + 1 + j * queueDepth < UINT32
    ensures IdAt(a, i, queueDepth) == IdAt(b, j, queueDepth) <==> a == b && i == j
  {
    IdValue(a, i, queueDepth);
    IdValue(b, j, queueDepth);
    if i < j {
      LaterRoundLater(a, i, b, j, queueDepth);
    } else if j < i {
      LaterRoundLater(b, j, a, i, queueDepth);
    }
  }

  /** In every run each replica of a live group carries the id of the rounds it has been through: `n` if it has
      come back n times and is in flight, and the same until the rest of the round is back. */
  lemma {:induction false} IdLaw(cfg: Config, run: seq<Event>, slot: nat, k: nat)
    requires cfg.Valid() && k < cfg.R()
    ensures var s := Exec(cfg, Init(cfg), run);
            var n := Returned(cfg, Init(cfg), run, slot, k);
            slot < |s.groups| && s.groups[slot].Live? ==>
              && |s.groups[slot].reps| == cfg.R()
              && var r := s.groups[slot].reps[k];
                 && (r.outstanding || n >= 1)
                 && r.ioId == IdAt(slot, if r.outstanding then n else n - 1, cfg.queueDepth)
  {
    EveryRun(cfg, run);
    OncePerReplica(cfg, run, slot, k);
    var s := Exec(cfg, Init(cfg), run);
    if slot < |s.groups| {
      assert GroupInv(cfg, s.groups[slot], slot, false);
    }
  }

  // ---------------------------------------------------------------- the wrap

  /** How many rounds it takes the first group to come back to an id that was handed out before. */
  function WrapRounds(queueDepth: nat): nat
    requires 1 <= queueDepth < UINT32
  {
    if UINT32 % queueDepth == 0 then UINT32 / queueDepth - 1 else UINT32 / queueDepth
  }

  /** Which group that is. */
  function WrapSlot(queueDepth: nat): nat
    requires 1 <= queueDepth
  {
    if UINT32 % queueDepth == 0 then queueDepth - 1 else UINT32 % queueDepth
  }

  /** The wrap in numbers: `WrapRounds` rounds fit below it, and `WrapSlot` then meets it or passes it by one. */
  lemma {:induction false} WrapArithmetic(queueDepth: nat)
    requires 1 <= queueDepth < UINT32
    ensures 1 <= WrapRounds(queueDepth) && WrapRounds(queueDepth) * queueDepth < UINT32
    ensures WrapSlot(queueDepth) < queueDepth && (queueDepth >= 2 ==> WrapSlot(queueDepth) > 0)
    ensures var n := WrapSlot(queueDepth) + 1 + WrapRounds(queueDepth) * queueDepth;
            UINT32 <= n <= UINT32 + 1
  {
    var q, m := UINT32 / queueDepth, UINT32 % queueDepth;
    assert q * queueDepth + m == UINT32;
    DivAbove(0, queueDepth, UINT32);
    if m == 0 {
      assert (q - 1) * queueDepth + queueDepth == q * queueDepth;
      assert q != 1;
    }
  }

  /** Fewer rounds do not reach the wrap. */
  lemma {:induction false} NoWrap(slot: nat, round: nat, queueDepth: nat)
    requires slot < queueDepth < UINT32 && round < WrapRounds(queueDepth)
    ensures slot + 1 + round * queueDepth < UINT32
  {
    WrapArithmetic(queueDepth);
    MulLe(round + 1, WrapRounds(queueDepth), queueDepth);
    assert (round + 1) * queueDepth == round * queueDepth + queueDepth;
  }

  /** At the wrap `WrapSlot` gets the first id of slot 0. */
  lemma {:induction false} IdsCollideAfterWrap(queueDepth: nat)
    requires 2 <= queueDepth < UINT32
    ensures IdAt(WrapSlot(queueDepth), WrapRounds(queueDepth), queueDepth) == 1 == IdAt(0, 0, queueDepth)
  {
    hide WrapSlot, WrapRounds, NextId;
    var slot, round := WrapSlot(queueDepth), WrapRounds(queueDepth);
    WrapArithmetic(queueDepth);
    NoWrap(slot, round - 1, queueDepth);
    IdValue(slot, round - 1, queueDepth);
    assert (round - 1) * queueDepth + queueDepth == round * queueDepth;
    WrapToOne(IdAt(slot, round - 1, queueDepth), queueDepth);
  }

  lemma {:induction false} WrapToOne(id: nat, queueDepth: nat)
    requires UINT32 <= id + queueDepth <= UINT32 + 1
    ensures NextId(id, queueDepth) == 1
  {
  }

  /** In every run no id is 0, and live groups that have not wrapped have different ids. */
  lemma {:induction false} IdsUnique(cfg: Config, run: seq<Event>, a: nat, b: nat)
    requires cfg.Valid()
    ensures var s := Exec(cfg, Init(cfg), run);
            a < b < |s.groups| && s.groups[a].Live? && s.groups[b].Live? ==>
              && s.groups[a].reps != [] && s.groups[b].reps != []
              && s.groups[a].reps[0].ioId != 0
              && (a + 1 + s.groups[a].round * cfg.queueDepth < UINT32
                  && b + 1 + s.groups[b].round * cfg.queueDepth < UINT32 ==>
                  s.groups[a].reps[0].ioId != s.groups[b].reps[0].ioId)
  {
    EveryRun(cfg, run);
    var s := Exec(cfg, Init(cfg), run);
    if a < b < |s.groups| && s.groups[a].Live? && s.groups[b].Live? {
      assert GroupInv(cfg, s.groups[a], a, false) && GroupInv(cfg, s.groups[b], b, false);
      IdValue(a, s.groups[a].round, cfg.queueDepth);
      if a + 1 + s.groups[a].round * cfg.queueDepth < UINT32 && b + 1 + s.groups[b].round * cfg.queueDepth < UINT32 {
        IdInjective(a, s.groups[a].round, b, s.groups[b].round, cfg.queueDepth);
      }
    }
  }

  // ---------------------------------------------------------------- exactly when ids are unique

  ghost predicate ReleasedLate(s: State) {
    forall g :: 0 <= g < |s.groups| && s.groups[g].Released? ==> s.groups[g].round >= 1
  }

  lemma {:induction false} ReleasedLateRun(cfg: Config, s: State, run: seq<Event>)
    requires cfg.Valid() && ReleasedLate(s)
    ensures ReleasedLate(Exec(cfg, s, run))
    decreases |run|
  {
    if run != [] {
      ReleasedLateStep(cfg, s, run[0]);
      ReleasedLateRun(cfg, Step(cfg, s, run[0]), run[1..]);
    }
  }

  lemma {:induction false} ReleasedLateStep(cfg: Config, s: State, e: Event)
    requires cfg.Valid() && ReleasedLate(s)
    ensures ReleasedLate(Step(cfg, s, e))
  {
    hide IdAt, MinSize;
  }

  /** Every group accounts for one round started; a live one for all it has completed besides. */
  lemma {:induction false} RoundsAtLeast(groups: seq<Group>, g: nat)
    requires g < |groups| && groups[g].Live?
    requires forall h :: 0 <= h < |groups| && groups[h].Released? ==> groups[h].round >= 1
    ensures groups[g].round + |groups| <= Rounds(groups) + Count(groups, IsLive())
    decreases |groups|
  {
    var m := |groups| - 1;
    assert forall h :: 0 <= h < m ==> groups[..m][h] == groups[h];
    if g < m {
      RoundsAtLeast(groups[..m], g);
    } else {
      EachAtLeastOne(groups[..m]);
    }
  }

  lemma {:induction false} EachAtLeastOne(groups: seq<Group>)
    requires forall h :: 0 <= h < |groups| && groups[h].Released? ==> groups[h].round >= 1
    ensures |groups| <= Rounds(groups) + Count(groups, IsLive())
  {
    if groups != [] {
      var m := |groups| - 1;
      assert forall h :: 0 <= h < m ==> groups[..m][h] == groups[h];
      EachAtLeastOne(groups[..m]);
    }
  }

  /** With a cap, a live group of any run has completed at most as many rounds as the cap exceeds the
      queue depth: the other groups have each used up a round. */
  lemma {:induction false} RoundBound(cfg: Config, run: seq<Event>, g: nat)
    requires cfg.Valid() && cfg.cap > 0
    ensures var s := Exec(cfg, Init(cfg), run);
            g < |s.groups| && s.groups[g].Live? ==> s.groups[g].round + cfg.queueDepth <= cfg.cap
  {
    var s := Exec(cfg, Init(cfg), run);
    EveryRun(cfg, run);
    RoundAgreement(cfg, run, g);
    ReleasedLateRun(cfg, Init(cfg), run);
    if g < |s.groups| && s.groups[g].Live? {
      RoundsAtLeast(s.groups, g);
      assert s.ctxs[0].submitted == Rounds(s.groups) + Count(s.groups, IsLive());
      assert s.groups[g].round + |s.groups| <= s.ctxs[0].submitted <= cfg.cap;
      assert |s.groups| < cfg.queueDepth ==> s.groups[g].round == 0;
    }
  }

  /** Two different live groups never share an id. */
  ghost predicate DistinctIds(s: State) {
    forall a, b :: 0 <= a < b < |s.groups| && HasId(s.groups[a]) && HasId(s.groups[b]) ==>
      s.groups[a].reps[0].ioId != s.groups[b].reps[0].ioId
  }

  ghost predicate HasId(g: Group) { g.Live? && g.reps != [] }

  lemma {:induction false} CapBelowWrap(cfg: Config, run: seq<Event>)
    requires cfg.Valid() && 0 < cfg.cap < cfg.queueDepth + WrapRounds(cfg.queueDepth)
    ensures DistinctIds(Exec(cfg, Init(cfg), run))
  {
    var s := Exec(cfg, Init(cfg), run);
    EveryRun(cfg, run);
    forall a, b | 0 <= a < b < |s.groups| && HasId(s.groups[a]) && HasId(s.groups[b])
      ensures s.groups[a].reps[0].ioId != s.groups[b].reps[0].ioId
    {
      RoundBound(cfg, run, a);
      RoundBound(cfg, run, b);
      NoWrap(a, s.groups[a].round, cfg.queueDepth);
      NoWrap(b, s.groups[b].round, cfg.queueDepth);
      IdsUnique(cfg, run, a, b);
    }
  }

  /** Otherwise slot 0 waits in flight with id 1 while another group goes around until it gets that id too. */
  lemma {:induction false} CollidingRun(cfg: Config) returns (run: seq<Event>)
    requires cfg.Valid() && 2 <= cfg.queueDepth && Allowed(cfg, cfg.queueDepth + WrapRounds(cfg.queueDepth))
    ensures !DistinctIds(Exec(cfg, Init(cfg), run))
  {
    var slot, n := WrapSlot(cfg.queueDepth), WrapRounds(cfg.queueDepth);
    WrapArithmetic(cfg.queueDepth);
    run := GoAround(cfg, slot, n);
    EveryRun(cfg, run);
    IdsCollideAfterWrap(cfg.queueDepth);
    var s := Exec(cfg, Init(cfg), run);
    assert GroupInv(cfg, s.groups[0], 0, false) && GroupInv(cfg, s.groups[slot], slot, false);
    assert HasId(s.groups[0]) && HasId(s.groups[slot]);
  }

  /** What a caller can check: one group only, or a cap that stops the run before the wrap. */
  predicate IdsFit(cfg: Config)
    requires cfg.Valid()
  {
    cfg.queueDepth == 1 || (0 < cfg.cap < cfg.queueDepth + WrapRounds(cfg.queueDepth))
  }

  /** In all runs live groups have different ids, if and only if the configuration fits. */
  lemma {:induction false} IdsUniqueIff(cfg: Config)
    requires cfg.Valid()
    ensures (forall run: seq<Event> :: DistinctIds(Exec(cfg, Init(cfg), run))) <==> IdsFit(cfg)
  {
    if IdsFit(cfg) {
      forall run: seq<Event>
        ensures DistinctIds(Exec(cfg, Init(cfg), run))
      {
        EveryRun(cfg, run);
        if cfg.queueDepth > 1 {
          CapBelowWrap(cfg, run);
        }
      }
    } else {
      var run := CollidingRun(cfg);
    }
  }
}
