/** The drain loop of the replica engine as events: what a poll, a pass and the whole loop leave in flight. */
module ReplicaDrain {
  import opened Counting
  import opened Workload
  import opened ReplicaGroup
  import opened ReplicaRuns
  import opened ReplicaTheorems

  /** What one poll hands back: the slots whose replica on the polled context is done. */
  type Poll = seq<(nat, Choice)>

  ghost function Slots(returned: Poll): set<nat> { set i | 0 <= i < |returned| :: returned[i].0 }

  function Polls(ns: nat, returned: Poll): seq<Event> {
    seq(|returned|, i requires 0 <= i < |returned| => Deliver(returned[i].0, ns, returned[i].1))
  }

  /** The handed back slots that were outstanding on `ns`. */
  ghost function Hits(s: State, ns: nat, returned: Poll): set<nat> {
    set slot | slot in Slots(returned) && Outstanding(s, slot, ns)
  }

  /** `s'` is `s` with the slots handed back on `ns` taken out. */
  ghost predicate TakenOut(s: State, s': State, ns: nat, slots: set<nat>) {
    && |s'.ctxs| == |s.ctxs| && |s'.groups| == |s.groups|
    && (forall slot: nat, k: nat :: Outstanding(s', slot, k) <==> Outstanding(s, slot, k) && !(k == ns && slot in slots))
    && forall k :: 0 <= k < |s.ctxs| && k != ns ==> s'.ctxs[k] == s.ctxs[k]
  }

  // ---------------------------------------------------------------- one poll

  /** One completion while something drains takes exactly its replica out. */
  lemma {:induction false} DeliverTakesOut(cfg: Config, s: State, slot: nat, ns: nat, choice: Choice)
    requires cfg.Valid() && Inv(cfg, s) && AnyDraining(s) && Outstanding(s, slot, ns)
    ensures var s' := TaskComplete(cfg, s, slot, ns, choice);
            && TakenOut(s, s', ns, {slot}) && AnyDraining(s')
            && s'.ctxs[ns].draining == s.ctxs[ns].draining && s'.ctxs[ns].depth + 1 == s.ctxs[ns].depth
  {
    hide GroupInv, IdAt, MinSize;
    DepthPositive(cfg, s, slot, ns, {});
    DrainDeliver(cfg, s, slot, ns, choice);
    SameDraining(s, slot, ns);
    GroupSizes(cfg, s, slot);
    if IsLast(s, slot) {
      OthersBack(cfg, s, slot, ns);
    }
  }

  lemma {:induction false} GroupSizes(cfg: Config, s: State, slot: nat)
    requires cfg.Valid() && Inv(cfg, s) && slot < |s.groups| && s.groups[slot].Live?
    ensures |s.groups[slot].reps| == cfg.R() == |s.ctxs|
  {
    assert GroupInv(cfg, s.groups[slot], slot, false);
  }

  lemma {:induction false} PollUnfold(cfg: Config, s: State, ns: nat, returned: Poll)
    requires cfg.Valid() && returned != []
    ensures Exec(cfg, s, Polls(ns, returned))
            == Exec(cfg, Step(cfg, s, Deliver(returned[0].0, ns, returned[0].1)), Polls(ns, returned[1..]))
    ensures Slots(returned) == {returned[0].0} + Slots(returned[1..])
  {
    assert Polls(ns, returned)[1..] == Polls(ns, returned[1..]);
    assert forall i :: 0 <= i < |returned[1..]| ==> returned[1..][i] == returned[i + 1];
    forall x | x in Slots(returned)
      ensures x in {returned[0].0} + Slots(returned[1..])
    {
      var i :| 0 <= i < |returned| && returned[i].0 == x;
      if i > 0 {
        assert returned[1..][i - 1].0 == x;
      }
    }
  }

  /** A poll of `ns` while something drains takes out exactly the slots it hands back, and the depth of `ns`
      falls by the number of different ones that were outstanding. */
  lemma {:induction false} PollEffect(cfg: Config, s: State, ns: nat, returned: Poll)
    requires cfg.Valid() && Inv(cfg, s) && |s.groups| == cfg.queueDepth && AnyDraining(s) && ns < |s.ctxs|
    ensures var s' := Exec(cfg, s, Polls(ns, returned));
            && Inv(cfg, s') && AnyDraining(s') && TakenOut(s, s', ns, Slots(returned))
            && s'.ctxs[ns].draining == s.ctxs[ns].draining
            && s'.ctxs[ns].depth + |Hits(s, ns, returned)| == s.ctxs[ns].depth
    decreases |returned|
  {
    hide CoreInv, AnyDraining, Outstanding;
    if returned == [] {
      assert Hits(s, ns, returned) == {};
    } else {
      var slot, rest := returned[0].0, returned[1..];
      var e := Deliver(slot, ns, returned[0].1);
      var s1 := Step(cfg, s, e);
      PollUnfold(cfg, s, ns, returned);
      StepKeeps(cfg, s, e);
      if Outstanding(s, slot, ns) {
        DeliverTakesOut(cfg, s, slot, ns, returned[0].1);
        PollEffect(cfg, s1, ns, rest);
        assert Hits(s, ns, returned) == Hits(s1, ns, rest) + {slot};
      } else {
        PollEffect(cfg, s, ns, rest);
        assert Hits(s, ns, returned) == Hits(s, ns, rest);
      }
    }
  }

  /** Without a request in flight there is nothing to poll for. */
  lemma {:induction false} QuietPoll(cfg: Config, s: State, ns: nat, returned: Poll)
    requires cfg.Valid() && forall slot: nat :: !Outstanding(s, slot, ns)
    ensures Exec(cfg, s, Polls(ns, returned)) == s
    decreases |returned|
  {
    if returned != [] {
      PollUnfold(cfg, s, ns, returned);
      QuietPoll(cfg, s, ns, returned[1..]);
    }
  }

  /** A context is empty exactly when nothing is outstanding on it. */
  lemma {:induction false} EmptyIff(cfg: Config, s: State, k: nat)
    requires cfg.Valid() && Inv(cfg, s) && k < |s.ctxs|
    ensures s.ctxs[k].depth == 0 <==> forall slot: nat :: !Outstanding(s, slot, k)
  {
    CountNone(s.groups, OutOn(k));
    if s.ctxs[k].depth == 0 {
      forall slot: nat
        ensures !Outstanding(s, slot, k)
      {
        assert slot < |s.groups| ==> !OutOn(k)(s.groups[slot]);
      }
    } else {
      var slot: nat :| slot < |s.groups| && OutOn(k)(s.groups[slot]);
      GroupSizes(cfg, s, slot);
      assert Outstanding(s, slot, k);
    }
  }

  // ---------------------------------------------------------------- one pass

  /** The turn of one context in a pass. */
  function Turn(ns: nat, returned: Poll): seq<Event> { [SetDraining(ns)] + Polls(ns, returned) }

  lemma {:induction false} TurnEffect(cfg: Config, s: State, ns: nat, returned: Poll)
    requires cfg.Valid() && Inv(cfg, s) && |s.groups| == cfg.queueDepth && ns < |s.ctxs|
    ensures var s' := Exec(cfg, s, Turn(ns, returned));
            && Inv(cfg, s') && TakenOut(s, s', ns, Slots(returned)) && s'.ctxs[ns].draining
            && Exec(cfg, s, Turn(ns, returned)) == Exec(cfg, Step(cfg, s, SetDraining(ns)), Polls(ns, returned))
  {
    hide CoreInv, IsLast;
    var s1 := Step(cfg, s, SetDraining(ns));
    assert Turn(ns, returned)[1..] == Polls(ns, returned);
    StepKeeps(cfg, s, SetDraining(ns));
    assert s1.ctxs[ns].draining;
    PollEffect(cfg, s1, ns, returned);
  }

  /** The turns of the contexts from `ns` on. */
  function PassFrom(ns: nat, pass: seq<Poll>): seq<Event>
    requires ns <= |pass|
    decreases |pass| - ns
  {
    if ns == |pass| then [] else Turn(ns, pass[ns]) + PassFrom(ns + 1, pass)
  }

  function Pass(pass: seq<Poll>): seq<Event> { PassFrom(0, pass) }

  /** The pass hands back, per context, every slot that is outstanding there. */
  ghost predicate HandsBack(s: State, pass: seq<Poll>) {
    forall slot: nat, k: nat :: k < |pass| && Outstanding(s, slot, k) ==> slot in Slots(pass[k])
  }

  lemma {:induction false} PassFromEffect(cfg: Config, s: State, ns: nat, pass: seq<Poll>)
    requires cfg.Valid() && Inv(cfg, s) && |s.groups| == cfg.queueDepth && ns <= |pass| == |s.ctxs|
    ensures var s' := Exec(cfg, s, PassFrom(ns, pass));
            && Inv(cfg, s') && |s'.groups| == cfg.queueDepth && |s'.ctxs| == |s.ctxs|
            && (forall k :: 0 <= k < ns ==> s'.ctxs[k] == s.ctxs[k])
            && (forall k :: ns <= k < |pass| ==> s'.ctxs[k].draining)
            && (forall slot: nat, k: nat :: k < |pass| ==>
                  (Outstanding(s', slot, k) <==> Outstanding(s, slot, k) && !(ns <= k && slot in Slots(pass[k]))))
    decreases |pass| - ns
  {
    hide CoreInv, Outstanding, Turn, Slots;
    if ns < |pass| {
      var s1 := Exec(cfg, s, Turn(ns, pass[ns]));
      TurnEffect(cfg, s, ns, pass[ns]);
      PassFromEffect(cfg, s1, ns + 1, pass);
      ExecAppend(cfg, s, Turn(ns, pass[ns]), PassFrom(ns + 1, pass));
    }
  }

  /** A pass leaves all contexts draining, and all of them empty if and only if it hands back everything. */
  lemma {:induction false} PassEffect(cfg: Config, s: State, pass: seq<Poll>)
    requires cfg.Valid() && Inv(cfg, s) && |s.groups| == cfg.queueDepth && |pass| == |s.ctxs|
    ensures var s' := Exec(cfg, s, Pass(pass));
            && Inv(cfg, s') && |s'.groups| == cfg.queueDepth && |s'.ctxs| == |s.ctxs|
            && (forall k :: 0 <= k < |pass| ==> s'.ctxs[k].draining)
            && (forall slot: nat, k: nat :: k < |pass| && Outstanding(s', slot, k) ==> Outstanding(s, slot, k))
            && ((forall k :: 0 <= k < |pass| ==> s'.ctxs[k].depth == 0) <==> HandsBack(s, pass))
  {
    hide CoreInv, Outstanding, Slots, PassFrom;
    var s' := Exec(cfg, s, Pass(pass));
    PassFromEffect(cfg, s, 0, pass);
    forall k: nat | k < |pass|
      ensures s'.ctxs[k].depth == 0 <==> forall slot: nat :: !Outstanding(s', slot, k)
    {
      EmptyIff(cfg, s', k);
    }
    if forall k :: 0 <= k < |pass| ==> s'.ctxs[k].depth == 0 {
      forall slot: nat, k: nat | k < |pass| && Outstanding(s, slot, k)
        ensures slot in Slots(pass[k])
      {
        assert s'.ctxs[k].depth == 0;
        assert !Outstanding(s', slot, k);
      }
    }
  }

  // ---------------------------------------------------------------- the loop

  /** The first `n` passes. */
  function Passes(script: seq<seq<Poll>>, n: nat): seq<Event>
    requires n <= |script|
  {
    if n == 0 then [] else Passes(script, n - 1) + Pass(script[n - 1])
  }

  /** Nothing new goes out between the passes. */
  lemma {:induction false} PassesShrink(cfg: Config, s: State, script: seq<seq<Poll>>, n: nat)
    requires cfg.Valid() && Inv(cfg, s) && |s.groups| == cfg.queueDepth && n <= |script|
    requires forall i :: 0 <= i < |script| ==> |script[i]| == cfg.R()
    ensures var s' := Exec(cfg, s, Passes(script, n));
            && Inv(cfg, s') && |s'.groups| == cfg.queueDepth
            && forall slot: nat, k: nat :: k < cfg.R() && Outstanding(s', slot, k) ==> Outstanding(s, slot, k)
  {
    hide Outstanding, Pass, GroupInv;
    if n > 0 {
      var s1 := Exec(cfg, s, Passes(script, n - 1));
      PassesShrink(cfg, s, script, n - 1);
      PassEffect(cfg, s1, script[n - 1]);
      ExecAppend(cfg, s, Passes(script, n - 1), Pass(script[n - 1]));
    }
  }

  /** So a pass that hands back everything outstanding at the start does so later as well. */
  lemma {:induction false} HandsBackLater(cfg: Config, s: State, script: seq<seq<Poll>>, n: nat)
    requires cfg.Valid() && Inv(cfg, s) && |s.groups| == cfg.queueDepth && n < |script|
    requires forall i :: 0 <= i < |script| ==> |script[i]| == cfg.R()
    ensures HandsBack(s, script[n]) ==> HandsBack(Exec(cfg, s, Passes(script, n)), script[n])
  {
    PassesShrink(cfg, s, script, n);
  }

  /** Some pass hands back everything that is outstanding when it begins. */
  ghost predicate SomePass(cfg: Config, s: State, script: seq<seq<Poll>>)
    requires cfg.Valid()
  {
    exists i :: 0 <= i < |script| && HandsBack(Exec(cfg, s, Passes(script, i)), script[i])
  }

  lemma {:induction false} SomePassFromStart(cfg: Config, s: State, script: seq<seq<Poll>>)
    requires cfg.Valid() && Inv(cfg, s) && |s.groups| == cfg.queueDepth
    requires forall i :: 0 <= i < |script| ==> |script[i]| == cfg.R()
    ensures (exists i :: 0 <= i < |script| && HandsBack(s, script[i])) ==> SomePass(cfg, s, script)
  {
    hide HandsBack, Inv, Exec, Passes;
    if i :| 0 <= i < |script| && HandsBack(s, script[i]) {
      HandsBackLater(cfg, s, script, i);
    }
  }
}
