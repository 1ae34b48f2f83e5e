/** Runs of the replica engine given explicitly: all groups start, then one of them goes around again and again. */
module ReplicaScenarios {
  import opened Arith
  import opened Counting
  import opened Workload
  import opened ReplicaGroup
  import opened ReplicaRuns
  import opened ReplicaTheorems

  const NO_CHOICE := Choice(0, 0, 0)

  /** The cap, if any, allows `n` rounds. */
  predicate Allowed(cfg: Config, n: nat) { cfg.cap == 0 || n <= cfg.cap }

  /** The first `k` replicas of the round are back, the others in flight. */
  ghost predicate BackUpTo(cfg: Config, s: State, slot: nat, k: nat) {
    && slot < |s.groups| && s.groups[slot].Live? && |s.groups[slot].reps| == cfg.R() == |s.ctxs|
    && s.groups[slot].finished == k < cfg.R()
    && forall j :: 0 <= j < cfg.R() ==> (s.groups[slot].reps[j].outstanding <==> k <= j)
  }

  /** One more round was submitted, for `slot`, at the offset the cursor shows. */
  ghost predicate Resubmitted(cfg: Config, s: State, s': State, slot: nat)
    requires slot < |s.groups| && s.ctxs != []
  {
    && BackUpTo(cfg, s', slot, 0)
    && |s'.groups| == |s.groups| && s'.groups == s.groups[slot := s'.groups[slot]]
    && s'.groups[slot].round == s.groups[slot].round + 1
    && s'.ctxs[0].submitted == s.ctxs[0].submitted + 1
    && (cfg.mode == Sequential ==> forall j :: 0 <= j < cfg.R() ==> s'.groups[slot].reps[j].offset == s.cursor)
    && (AnyDraining(s') ==> cfg.cap > 0 && s'.ctxs[0].submitted == cfg.cap)
  }

  lemma {:induction false} NotLast(cfg: Config, s: State, slot: nat, k: nat)
    requires cfg.Valid() && BackUpTo(cfg, s, slot, k) && k + 1 < cfg.R()
    ensures var s1 := TaskComplete(cfg, s, slot, k, NO_CHOICE);
            && s1 == Arrive(s, slot, k) && BackUpTo(cfg, s1, slot, k + 1) && s1.cursor == s.cursor
            && s1.groups == s.groups[slot := s1.groups[slot]] && s1.groups[slot].round == s.groups[slot].round
            && s1.ctxs[0].submitted == s.ctxs[0].submitted
            && AnyDraining(s1) == AnyDraining(s)
  {
    SameDraining(s, slot, k);
  }

  lemma {:induction false} Last(cfg: Config, s: State, slot: nat)
    requires cfg.Valid() && BackUpTo(cfg, s, slot, cfg.R() - 1) && CapInv(cfg, s) && !AnyDraining(s)
    ensures Resubmitted(cfg, s, TaskComplete(cfg, s, slot, cfg.R() - 1, NO_CHOICE), slot)
  {
    hide IdAt, MinSize;
    SameDraining(s, slot, cfg.R() - 1);
    var s1 := AdvanceId(cfg, Arrive(s, slot, cfg.R() - 1), slot);
    SubmitBump(cfg, s1, slot, NO_CHOICE);
    BelowCap(cfg, s);
  }

  /** The rest of a round: the missing replicas come back one by one, and the group goes out again. */
  lemma {:induction false} RestOfRound(cfg: Config, s: State, slot: nat, k: nat) returns (run: seq<Event>)
    requires cfg.Valid() && Inv(cfg, s) && |s.groups| == cfg.queueDepth && !AnyDraining(s) && BackUpTo(cfg, s, slot, k)
    ensures var s' := Exec(cfg, s, run);
            OnlyCapDrains(run) && Inv(cfg, s') && Resubmitted(cfg, s, s', slot)
    decreases cfg.R() - k
  {
    hide CoreInv, AnyDraining;
    var e := Deliver(slot, k, NO_CHOICE);
    StepKeeps(cfg, s, e);
    var s1 := Step(cfg, s, e);
    ExecOne(cfg, s, e);
    if k + 1 == cfg.R() {
      CoreCap(cfg, s);
      Last(cfg, s, slot);
      run := [e];
    } else {
      NotLast(cfg, s, slot, k);
      var rest := RestOfRound(cfg, s1, slot, k + 1);
      run := [e] + rest;
      ExecAppend(cfg, s, [e], rest);
    }
  }

  lemma {:induction false} CoreCap(cfg: Config, s: State)
    requires cfg.Valid() && Inv(cfg, s)
    ensures |s.ctxs| == cfg.R() && CapInv(cfg, s)
  {
  }

  /** All groups have started and are in flight; the rounds are numbered from 0. */
  ghost predicate Started(cfg: Config, s: State)
    requires cfg.Valid()
  {
    && |s.ctxs| == cfg.R() && s.ctxs[0].submitted == |s.groups| <= cfg.queueDepth
    && (forall g :: 0 <= g < |s.groups| ==> BackUpTo(cfg, s, g, 0) && s.groups[g].round == 0)
    && (cfg.mode == Sequential ==> forall g, j :: 0 <= g < |s.groups| && 0 <= j < cfg.R() ==>
          s.groups[g].reps[j].offset == CursorAfter(g, MinSize(cfg.sizes)))
  }

  lemma {:induction false} StartOne(cfg: Config, s: State)
    requires cfg.Valid() && Inv(cfg, s) && Started(cfg, s) && |s.groups| < cfg.queueDepth
    requires cfg.mode == Sequential ==> CursorCounts(cfg, s)
    ensures Started(cfg, Step(cfg, s, Start(NO_CHOICE)))
    ensures |Step(cfg, s, Start(NO_CHOICE)).groups| == |s.groups| + 1
  {
    hide GroupInv, IdAt, MinSize, CoreInv;
  }

  lemma {:induction false} StartMany(cfg: Config, n: nat) returns (run: seq<Event>)
    requires cfg.Valid() && n <= cfg.queueDepth
    ensures OnlyCapDrains(run) && |Exec(cfg, Init(cfg), run).groups| == n && Started(cfg, Exec(cfg, Init(cfg), run))
  {
    if n == 0 {
      run := [];
    } else {
      var before := StartMany(cfg, n - 1);
      EveryRun(cfg, before);
      CursorOf(cfg, before);
      StartOne(cfg, Exec(cfg, Init(cfg), before));
      run := before + [Start(NO_CHOICE)];
      ExecAppend(cfg, Init(cfg), before, [Start(NO_CHOICE)]);
      ExecOne(cfg, Exec(cfg, Init(cfg), before), Start(NO_CHOICE));
    }
  }

  lemma {:induction false} CursorOf(cfg: Config, run: seq<Event>)
    requires cfg.Valid() && NoReset(run)
    ensures cfg.mode == Sequential ==> CursorCounts(cfg, Exec(cfg, Init(cfg), run))
  {
    if cfg.mode == Sequential {
      EveryRun(cfg, []);
      SweepRun(cfg, Init(cfg), run);
    }
  }

  /** All groups are in flight; `slot` has completed `n` rounds, the others none. */
  ghost predicate Ahead(cfg: Config, s: State, slot: nat, n: nat)
    requires cfg.Valid()
  {
    && slot < |s.groups| == cfg.queueDepth && |s.ctxs| == cfg.R() && s.ctxs[0].submitted == cfg.queueDepth + n
    && BackUpTo(cfg, s, slot, 0) && s.groups[slot].round == n
    && (forall g :: 0 <= g < |s.groups| && g != slot ==> s.groups[g].Live? && s.groups[g].round == 0)
    && (cfg.mode == Sequential && n > 0 ==> forall j :: 0 <= j < cfg.R() ==>
          s.groups[slot].reps[j].offset == CursorAfter(cfg.queueDepth + n - 1, MinSize(cfg.sizes)))
  }

  lemma {:induction false} AheadStep(cfg: Config, s: State, s': State, slot: nat, n: nat)
    requires cfg.Valid() && Ahead(cfg, s, slot, n) && Resubmitted(cfg, s, s', slot)
    requires cfg.mode == Sequential ==> CursorCounts(cfg, s)
    ensures Ahead(cfg, s', slot, n + 1)
  {
  }

  /** As far as the cap allows, any group can go around any number of times while the others wait. */
  lemma {:induction false} GoAround(cfg: Config, slot: nat, n: nat) returns (run: seq<Event>)
    requires cfg.Valid() && slot < cfg.queueDepth && Allowed(cfg, cfg.queueDepth + n)
    ensures OnlyCapDrains(run) && Ahead(cfg, Exec(cfg, Init(cfg), run), slot, n)
  {
    hide CoreInv, Step, MinSize;
    if n == 0 {
      run := StartMany(cfg, cfg.queueDepth);
    } else {
      var before := GoAround(cfg, slot, n - 1);
      var s := Exec(cfg, Init(cfg), before);
      EveryRun(cfg, before);
      CursorOf(cfg, before);
      CapIsReached(cfg, before, 0);
      var more := RestOfRound(cfg, s, slot, 0);
      AheadStep(cfg, s, Exec(cfg, s, more), slot, n - 1);
      ExecAppend(cfg, Init(cfg), before, more);
      run := before + more;
    }
  }
}
