/** Where an I/O lands on its namespace. */
module Lba {
  import opened Arith
  import opened Workload
  import G = ReplicaGroup
  import GR = ReplicaRuns
  import GS = ReplicaScenarios
  import GT = ReplicaTheorems

  /** What `register_ns` accepts: at least one I/O fits, and a sector is not larger than an I/O. */
  datatype Namespace = Namespace(bytes: nat, sector: nat)

  predicate Accepted(ns: Namespace, ioSize: nat) {
    1 <= ns.sector <= ioSize <= ns.bytes
  }

  function SizeInIos(ns: Namespace, ioSize: nat): nat
    requires 1 <= ioSize
  {
    ns.bytes / ioSize
  }

  function BlocksPerIo(ns: Namespace, ioSize: nat): nat
    requires 1 <= ns.sector
  {
    ioSize / ns.sector
  }

  function FirstBlock(ns: Namespace, ioSize: nat, offset: nat): nat
    requires 1 <= ns.sector
  {
    offset * BlocksPerIo(ns, ioSize)
  }

  /** The blocks of an I/O cover all of it but less than a sector, and one more I/O than the size does not fit. */
  lemma {:induction false} NothingWasted(ns: Namespace, ioSize: nat)
    requires Accepted(ns, ioSize)
    ensures var blocks := BlocksPerIo(ns, ioSize);
            1 <= blocks && blocks * ns.sector <= ioSize < blocks * ns.sector + ns.sector
    ensures var size := SizeInIos(ns, ioSize);
            1 <= size && size * ioSize <= ns.bytes < (size + 1) * ioSize
  {
    DivBounds(ioSize, ns.sector);
    DivBounds(ns.bytes, ioSize);
    DivAbove(0, ns.sector, ioSize);
    DivAbove(0, ioSize, ns.bytes);
    assert (ns.bytes / ioSize + 1) * ioSize == (ns.bytes / ioSize) * ioSize + ioSize;
  }

  /** I/Os stand side by side from the first block on. */
  lemma {:induction false} SideBySide(ns: Namespace, ioSize: nat, offset: nat)
    requires Accepted(ns, ioSize)
    ensures FirstBlock(ns, ioSize, 0) == 0
    ensures FirstBlock(ns, ioSize, offset + 1) == FirstBlock(ns, ioSize, offset) + BlocksPerIo(ns, ioSize)
  {
    var blocks := BlocksPerIo(ns, ioSize);
    assert (offset + 1) * blocks == offset * blocks + blocks;
  }

  /** An I/O below the size ends inside the namespace. */
  lemma {:induction false} InsideNamespace(ns: Namespace, ioSize: nat, offset: nat)
    requires Accepted(ns, ioSize) && offset < SizeInIos(ns, ioSize)
    ensures (FirstBlock(ns, ioSize, offset) + BlocksPerIo(ns, ioSize)) * ns.sector <= ns.bytes
  {
    var blocks := BlocksPerIo(ns, ioSize);
    DivBounds(ioSize, ns.sector);
    DivAbove(offset, ioSize, ns.bytes);
    calc {
      (offset * blocks + blocks) * ns.sector;
    ==
      ((offset + 1) * blocks) * ns.sector;
    == { Associate(offset + 1, blocks, ns.sector); }
      (offset + 1) * (blocks * ns.sector);
    <= { MulLe2(offset + 1, blocks * ns.sector, ioSize); }
      (offset + 1) * ioSize;
    ==
      offset * ioSize + ioSize;
    }
  }

  lemma {:induction false} Associate(a: nat, b: nat, c: nat)
    ensures (a * b) * c == a * (b * c)
  {
  }

  /** Different offsets touch different blocks. */
  lemma {:induction false} DisjointBlocks(ns: Namespace, ioSize: nat, a: nat, b: nat)
    requires Accepted(ns, ioSize) && a < b
    ensures FirstBlock(ns, ioSize, a) + BlocksPerIo(ns, ioSize) <= FirstBlock(ns, ioSize, b)
  {
    var blocks := BlocksPerIo(ns, ioSize);
    MulLe(a + 1, b, blocks);
    assert (a + 1) * blocks == a * blocks + blocks;
  }

  /** In sequential mode every replica of every live group, in every run, stays inside its own namespace,
      although the namespaces differ in size and in sector size. */
  lemma {:induction false} ReplicasInside(cfg: G.Config, run: seq<GR.Event>, nss: seq<Namespace>,
                                          ioSize: nat, slot: nat, k: nat)
    requires cfg.Valid() && cfg.mode.Sequential? && |nss| == cfg.R() && 1 <= ioSize
    requires forall i :: 0 <= i < |nss| ==> Accepted(nss[i], ioSize) && cfg.sizes[i] == SizeInIos(nss[i], ioSize)
    requires k < |nss|
    ensures var s := GR.Exec(cfg, GR.Init(cfg), run);
            slot < |s.groups| && s.groups[slot].Live? ==>
              && |s.groups[slot].reps| == cfg.R() && Accepted(nss[k], ioSize)
              && (FirstBlock(nss[k], ioSize, s.groups[slot].reps[k].offset) + BlocksPerIo(nss[k], ioSize)) * nss[k].sector
                 <= nss[k].bytes
  {
    GR.EveryRun(cfg, run);
    var s := GR.Exec(cfg, GR.Init(cfg), run);
    if slot < |s.groups| && s.groups[slot].Live? {
      assert G.GroupInv(cfg, s.groups[slot], slot, false);
      InsideNamespace(nss[k], ioSize, s.groups[slot].reps[k].offset);
    }
  }

  // ---------------------------------------------------------------- random offsets

  ghost predicate OffsetsBelow(s: G.State, bound: nat) {
    forall g, k :: 0 <= g < |s.groups| && s.groups[g].Live? && 0 <= k < |s.groups[g].reps| ==>
      s.groups[g].reps[k].offset < bound
  }

  /** What the event makes a submission draw in random mode is below `bound`. */
  ghost predicate DrawsBelow(cfg: G.Config, e: GR.Event, bound: nat)
    requires cfg.Valid() && cfg.mode.Random?
  {
    e.Start? || e.Deliver? ==> e.choice.draw % cfg.sizes[0] < bound
  }

  lemma {:induction false} RandomStep(cfg: G.Config, s: G.State, e: GR.Event, bound: nat)
    requires cfg.Valid() && cfg.mode.Random? && OffsetsBelow(s, bound) && DrawsBelow(cfg, e, bound)
    ensures OffsetsBelow(GR.Step(cfg, s, e), bound)
  {
    hide G.IdAt, G.MinSize;
  }

  lemma {:induction false} RandomRun(cfg: G.Config, s: G.State, run: seq<GR.Event>, bound: nat)
    requires cfg.Valid() && cfg.mode.Random? && OffsetsBelow(s, bound)
    requires forall i :: 0 <= i < |run| ==> DrawsBelow(cfg, run[i], bound)
    ensures OffsetsBelow(GR.Exec(cfg, s, run), bound)
    decreases |run|
  {
    if run != [] {
      RandomStep(cfg, s, run[0], bound);
      RandomRun(cfg, GR.Step(cfg, s, run[0]), run[1..], bound);
    }
  }

  /** Every replica of every live group aims inside its own namespace. */
  ghost predicate AllInside(sizes: seq<nat>, s: G.State) {
    forall g, k :: 0 <= g < |s.groups| && s.groups[g].Live? && 0 <= k < |s.groups[g].reps| && k < |sizes| ==>
      s.groups[g].reps[k].offset < sizes[k]
  }

  /** No draw of the run exceeds what the generator can return. */
  ghost predicate Drawable(run: seq<GR.Event>, randMax: nat) {
    forall i :: 0 <= i < |run| && (run[i].Start? || run[i].Deliver?) ==> run[i].choice.draw <= randMax
  }

  /** Random offsets are drawn over the main namespace: in all runs they stay inside every replica's
      namespace if and only if the main namespace is a smallest one, or the smallest is larger than
      anything the generator returns. */
  lemma {:induction false} RandomReplicas(cfg: G.Config, randMax: nat)
    requires cfg.Valid() && cfg.mode.Random?
    ensures (forall run: seq<GR.Event> :: Drawable(run, randMax) ==>
               AllInside(cfg.sizes, GR.Exec(cfg, GR.Init(cfg), run)))
            <==> cfg.sizes[0] == G.MinSize(cfg.sizes) || G.MinSize(cfg.sizes) > randMax
  {
    var min := G.MinSize(cfg.sizes);
    if cfg.sizes[0] == min || min > randMax {
      forall run: seq<GR.Event> | Drawable(run, randMax)
        ensures AllInside(cfg.sizes, GR.Exec(cfg, GR.Init(cfg), run))
      {
        forall i | 0 <= i < |run|
          ensures DrawsBelow(cfg, run[i], min)
        {
          if run[i].Start? || run[i].Deliver? {
            RemainderSmall(run[i].choice.draw, cfg.sizes[0]);
          }
        }
        RandomRun(cfg, GR.Init(cfg), run, min);
      }
    } else {
      var run := OutsideRun(cfg, randMax);
    }
  }

  lemma {:induction false} RemainderSmall(n: nat, q: nat)
    requires 1 <= q
    ensures n % q < q && n % q <= n
  {
    DivBounds(n, q);
    assert n == (n / q) * q + n % q;
  }

  /** The first submission of a run can draw the smallest size. */
  lemma {:induction false} OutsideRun(cfg: G.Config, randMax: nat) returns (run: seq<GR.Event>)
    requires cfg.Valid() && cfg.mode.Random? && G.MinSize(cfg.sizes) < cfg.sizes[0] && G.MinSize(cfg.sizes) <= randMax
    ensures Drawable(run, randMax) && !AllInside(cfg.sizes, GR.Exec(cfg, GR.Init(cfg), run))
  {
    var k :| 0 <= k < cfg.R() && cfg.sizes[k] == G.MinSize(cfg.sizes);
    var e := GR.Start(Choice(cfg.sizes[k], 0, 0));
    run := [e];
    var s := GR.Init(cfg);
    assert run[1..] == [];
    var s' := GR.Step(cfg, s, e);
    assert GR.Exec(cfg, s, run) == s';
    RemainderOf(0, cfg.sizes[k], cfg.sizes[0]);
    assert s'.groups[0].reps[k].offset == cfg.sizes[k];
  }

  // ---------------------------------------------------------------- sequential offsets under a limit

  /** The paced replica engine divides every size by `io_limit`. */
  function Limited(sizes: seq<nat>, ioLimit: nat): seq<nat>
    requires 1 <= ioLimit
  {
    seq(|sizes|, i requires 0 <= i < |sizes| => sizes[i] / ioLimit)
  }

  /** The cursor wraps at the quotient of the smallest size. */
  lemma {:induction false} LimitedMin(sizes: seq<nat>, ioLimit: nat)
    requires sizes != [] && 1 <= ioLimit
    ensures G.MinSize(Limited(sizes, ioLimit)) == G.MinSize(sizes) / ioLimit
  {
    var limited := Limited(sizes, ioLimit);
    var i :| 0 <= i < |limited| && limited[i] == G.MinSize(limited);
    var k :| 0 <= k < |sizes| && sizes[k] == G.MinSize(sizes);
    assert limited[k] == sizes[k] / ioLimit && limited[i] == sizes[i] / ioLimit;
    assert |limited| == |sizes|;
    assert G.MinSize(sizes) <= sizes[i] && G.MinSize(limited) <= limited[k];
    DivMonotone(sizes[k], sizes[i], ioLimit);
  }

  lemma {:induction false} DivMonotone(a: nat, b: nat, q: nat)
    requires a <= b && 1 <= q
    ensures a / q <= b / q
  {
    if b / q < a / q {
      DivAbove(b / q, q, a);
      DivBounds(b, q);
    }
  }

  lemma {:induction false} CursorValue(n: nat, wrap: nat)
    ensures wrap >= 1 ==> CursorAfter(n, wrap) < wrap
    ensures wrap == 0 ==> CursorAfter(n, wrap) == n
  {
    if n > 0 {
      CursorValue(n - 1, wrap);
    }
  }

  /** Every offset of the sequential cursor is inside every namespace, for ever, if and only if the limit
      does not exceed the smallest size: a quotient of 0 never wraps. */
  lemma {:induction false} LimitedCursor(sizes: seq<nat>, ioLimit: nat)
    requires sizes != [] && 1 <= ioLimit
    ensures (forall n: nat, i: nat :: i < |sizes| ==> CursorAfter(n, G.MinSize(Limited(sizes, ioLimit))) < sizes[i])
            <==> ioLimit <= G.MinSize(sizes)
  {
    var min := G.MinSize(sizes);
    var wrap := min / ioLimit;
    LimitedMin(sizes, ioLimit);
    DivAbove(0, ioLimit, min);
    LimitedSize(min, ioLimit);
    if ioLimit <= min {
      forall n: nat, i: nat | i < |sizes|
        ensures CursorAfter(n, wrap) < sizes[i]
      {
        CursorValue(n, wrap);
      }
    } else {
      var k: nat :| k < |sizes| && sizes[k] == min;
      CursorValue(min, wrap);
      assert !(CursorAfter(min, wrap) < sizes[k]);
    }
  }

  lemma {:induction false} LimitedSize(size: nat, ioLimit: nat)
    requires 1 <= ioLimit
    ensures size / ioLimit <= size
  {
    DivBounds(size, ioLimit);
    MulLe2(size / ioLimit, 1, ioLimit);
  }

  /** Without a wrap every offset in use is the number of a round submitted before. */
  ghost predicate Numbered(s: G.State) {
    s.ctxs != [] && s.cursor == s.ctxs[0].submitted && OffsetsBelow(s, s.ctxs[0].submitted)
  }

  lemma {:induction false} NumberedStep(cfg: G.Config, s: G.State, e: GR.Event)
    requires cfg.Valid() && cfg.mode.Sequential? && G.MinSize(cfg.sizes) == 0 && !cfg.warmup
    requires |s.ctxs| == cfg.R() && Numbered(s)
    ensures Numbered(GR.Step(cfg, s, e))
  {
    hide G.IdAt, G.MinSize;
  }

  lemma {:induction false} NumberedRun(cfg: G.Config, s: G.State, run: seq<GR.Event>)
    requires cfg.Valid() && cfg.mode.Sequential? && G.MinSize(cfg.sizes) == 0 && !cfg.warmup
    requires GR.Inv(cfg, s) && Numbered(s)
    ensures Numbered(GR.Exec(cfg, s, run))
    decreases |run|
  {
    if run != [] {
      NumberedStep(cfg, s, run[0]);
      GR.StepKeeps(cfg, s, run[0]);
      NumberedRun(cfg, GR.Step(cfg, s, run[0]), run[1..]);
    }
  }

  /** The runs of the engine under a limit: the offsets of all replicas stay inside their namespaces if and
      only if the limit does not exceed the smallest size, or the cap ends the run before it matters. */
  lemma {:induction false} LimitedRuns(cfg: G.Config, sizes: seq<nat>, ioLimit: nat)
    requires cfg.Valid() && cfg.mode.Sequential? && 1 <= ioLimit && cfg.sizes == Limited(sizes, ioLimit)
    ensures (forall run: seq<GR.Event> :: AllInside(sizes, GR.Exec(cfg, GR.Init(cfg), run)))
            <==> ioLimit <= G.MinSize(sizes) || 0 < cfg.cap <= G.MinSize(sizes)
  {
    var min := G.MinSize(sizes);
    if ioLimit <= min || 0 < cfg.cap <= min {
      forall run: seq<GR.Event>
        ensures AllInside(sizes, GR.Exec(cfg, GR.Init(cfg), run))
      {
        LimitedInside(cfg, sizes, ioLimit, run);
      }
    } else {
      var run := LimitedFailingRun(cfg, sizes, ioLimit);
    }
  }

  lemma {:induction false} LimitedInside(cfg: G.Config, sizes: seq<nat>, ioLimit: nat, run: seq<GR.Event>)
    requires cfg.Valid() && cfg.mode.Sequential? && 1 <= ioLimit && cfg.sizes == Limited(sizes, ioLimit)
    requires ioLimit <= G.MinSize(sizes) || 0 < cfg.cap <= G.MinSize(sizes)
    ensures AllInside(sizes, GR.Exec(cfg, GR.Init(cfg), run))
  {
    var min := G.MinSize(sizes);
    LimitedMin(sizes, ioLimit);
    DivAbove(0, ioLimit, min);
    LimitedSize(min, ioLimit);
    hide Limited, G.MinSize;
    if ioLimit <= min {
      BelowWrap(cfg, run);
    } else {
      BelowCount(cfg, run);
    }
    var s := GR.Exec(cfg, GR.Init(cfg), run);
    assert OffsetsBelow(s, min);
  }

  lemma {:induction false} BelowWrap(cfg: G.Config, run: seq<GR.Event>)
    requires cfg.Valid() && cfg.mode.Sequential? && 1 <= G.MinSize(cfg.sizes)
    ensures OffsetsBelow(GR.Exec(cfg, GR.Init(cfg), run), G.MinSize(cfg.sizes))
  {
    hide G.MinSize;
    var s := GR.Exec(cfg, GR.Init(cfg), run);
    GR.EveryRun(cfg, run);
    forall g, k | 0 <= g < |s.groups| && s.groups[g].Live? && 0 <= k < |s.groups[g].reps|
      ensures s.groups[g].reps[k].offset < G.MinSize(cfg.sizes)
    {
      assert G.GroupInv(cfg, s.groups[g], g, false);
    }
  }

  lemma {:induction false} BelowCount(cfg: G.Config, run: seq<GR.Event>)
    requires cfg.Valid() && cfg.mode.Sequential? && G.MinSize(cfg.sizes) == 0 && cfg.cap > 0
    ensures OffsetsBelow(GR.Exec(cfg, GR.Init(cfg), run), cfg.cap)
  {
    hide G.MinSize, GR.Inv;
    GR.EveryRun(cfg, []);
    NumberedRun(cfg, GR.Init(cfg), run);
    GT.ExactCap(cfg, run);
  }

  /** Otherwise the round that carries the smallest size as its number leaves the smallest namespace. */
  lemma {:induction false} LimitedFailingRun(cfg: G.Config, sizes: seq<nat>, ioLimit: nat) returns (run: seq<GR.Event>)
    requires cfg.Valid() && cfg.mode.Sequential? && 1 <= ioLimit && cfg.sizes == Limited(sizes, ioLimit)
    requires G.MinSize(sizes) < ioLimit && (cfg.cap == 0 || G.MinSize(sizes) < cfg.cap)
    ensures !AllInside(sizes, GR.Exec(cfg, GR.Init(cfg), run))
  {
    var min := G.MinSize(sizes);
    var k :| 0 <= k < |sizes| && sizes[k] == min;
    LimitedMin(sizes, ioLimit);
    DivAbove(0, ioLimit, min);
    hide Limited, G.MinSize;
    var slot;
    run, slot := NumberedRound(cfg, min);
    assert GR.Exec(cfg, GR.Init(cfg), run).groups[slot].reps[k].offset == min;
  }

  /** Without a wrap, a run in which some group is in flight at offset `n`, for any `n` below the cap. */
  lemma {:induction false} NumberedRound(cfg: G.Config, n: nat) returns (run: seq<GR.Event>, slot: nat)
    requires cfg.Valid() && cfg.mode.Sequential? && G.MinSize(cfg.sizes) == 0 && (cfg.cap == 0 || n < cfg.cap)
    ensures var s := GR.Exec(cfg, GR.Init(cfg), run);
            && slot < |s.groups| && s.groups[slot].Live? && |s.groups[slot].reps| == cfg.R()
            && forall k :: 0 <= k < cfg.R() ==> s.groups[slot].reps[k].offset == n
  {
    hide G.MinSize;
    CursorValue(n, 0);
    if n < cfg.queueDepth {
      run := GS.StartMany(cfg, cfg.queueDepth);
      slot := n;
    } else {
      run := GS.GoAround(cfg, 0, n + 1 - cfg.queueDepth);
      slot := 0;
    }
  }
}
