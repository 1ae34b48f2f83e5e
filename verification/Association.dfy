/** Which worker polls which namespace. */
module Association {
  import opened Arith
  import opened Counting

  /** A namespace and a worker, by position in their lists. */
  datatype Pair = Pair(ns: nat, worker: nat)

  /** Where the `i`-th step of a walk around a list of `n` elements stands, and how often it came around. */
  function Pos(i: nat, n: nat): (p: nat)
    requires 1 <= n
    ensures p < n
  {
    if i == 0 then 0
    else
      var p := Pos(i - 1, n);
      if p + 1 == n then 0 else p + 1
  }

  function Laps(i: nat, n: nat): nat
    requires 1 <= n
  {
    if i == 0 then 0 else Laps(i - 1, n) + if Pos(i - 1, n) + 1 == n then 1 else 0
  }

  lemma {:induction false} PosIsRemainder(i: nat, n: nat)
    requires 1 <= n
    ensures i == Laps(i, n) * n + Pos(i, n)
    ensures Pos(i, n) == i % n
  {
    if i > 0 {
      PosIsRemainder(i - 1, n);
      assert (Laps(i - 1, n) + 1) * n == Laps(i - 1, n) * n + n;
    }
    RemainderOf(Laps(i, n), Pos(i, n), n);
  }

  lemma {:induction false} PosBelow(i: nat, n: nat)
    requires i < n
    ensures Pos(i, n) == i
  {
    if i > 0 {
      PosBelow(i - 1, n);
    }
  }

  function Max(a: nat, b: nat): nat { if a < b then b else a }

  /** The first `count` pairs of the two walks. */
  ghost function Walks(count: nat, namespaces: nat, workers: nat): seq<Pair>
    requires 1 <= namespaces && 1 <= workers
  {
    seq(count, (i: nat) => Pair(Pos(i, namespaces), Pos(i, workers)))
  }

  /** The default association. */
  ghost function RoundRobin(namespaces: nat, workers: nat): seq<Pair>
    requires 1 <= workers
  {
    if namespaces == 0 then [] else Walks(Max(namespaces, workers), namespaces, workers)
  }

  /** Worker after worker, each with its namespaces in the order of the list; so no pair comes twice. */
  ghost predicate InOrder(pairs: seq<Pair>) {
    forall i, j :: 0 <= i < j < |pairs| ==>
      pairs[i].worker < pairs[j].worker || (pairs[i].worker == pairs[j].worker && pairs[i].ns < pairs[j].ns)
  }

  /** `associate_workers_with_ns`. */
  method Associate(namespaces: nat, workers: nat, everyCore: bool) returns (pairs: seq<Pair>)
    requires 1 <= workers
    ensures !everyCore ==> pairs == RoundRobin(namespaces, workers)
    ensures everyCore ==> InOrder(pairs) && forall p :: p in pairs <==> p.ns < namespaces && p.worker < workers
  {
    if everyCore {
      pairs := EveryCore(namespaces, workers);
    } else if namespaces == 0 {
      pairs := [];
    } else {
      pairs := RoundRobinLoop(Max(namespaces, workers), namespaces, workers);
    }
  }

  method RoundRobinLoop(count: nat, namespaces: nat, workers: nat) returns (pairs: seq<Pair>)
    requires 1 <= namespaces && 1 <= workers
    ensures pairs == Walks(count, namespaces, workers)
  {
    pairs := [];
    var entry, worker := 0, 0;
    for i := 0 to count
      invariant pairs == Walks(i, namespaces, workers)
      invariant entry == Pos(i, namespaces) && worker == Pos(i, workers)
    {
      pairs := pairs + [Pair(entry, worker)];
      worker := if worker + 1 == workers then 0 else worker + 1;
      entry := if entry + 1 == namespaces then 0 else entry + 1;
    }
  }

  method EveryCore(namespaces: nat, workers: nat) returns (pairs: seq<Pair>)
    ensures InOrder(pairs) && forall p :: p in pairs <==> p.ns < namespaces && p.worker < workers
  {
    pairs := [];
    for w := 0 to workers
      invariant InOrder(pairs) && forall p :: p in pairs <==> p.ns < namespaces && p.worker < w
    {
      for n := 0 to namespaces
        invariant InOrder(pairs)
        invariant forall p :: p in pairs <==> p.ns < namespaces && (p.worker < w || (p.worker == w && p.ns < n))
      {
        assert forall i :: 0 <= i < |pairs| ==> pairs[i] in pairs;
        pairs := pairs + [Pair(n, w)];
      }
    }
  }

  // ---------------------------------------------------------------- properties of the round robin

  /** The i-th pair of the default association: both lists are walked around and around. */
  lemma {:induction false} PairAt(namespaces: nat, workers: nat, i: nat)
    requires 1 <= namespaces && 1 <= workers && i < Max(namespaces, workers)
    ensures |RoundRobin(namespaces, workers)| == Max(namespaces, workers)
    ensures RoundRobin(namespaces, workers)[i] == Pair(i % namespaces, i % workers)
  {
    PosIsRemainder(i, namespaces);
    PosIsRemainder(i, workers);
  }

  /** As many pairs as the longer list has elements, all different, and none left out on either side. */
  lemma {:induction false} CoversAll(namespaces: nat, workers: nat)
    requires 1 <= namespaces && 1 <= workers
    ensures var pairs := RoundRobin(namespaces, workers);
            && |pairs| == Max(namespaces, workers) && NoDup(pairs)
            && (forall n: nat :: n < namespaces ==> pairs[n].ns == n)
            && (forall w: nat :: w < workers ==> pairs[w].worker == w)
  {
    var pairs := RoundRobin(namespaces, workers);
    forall i: nat | i < |pairs|
      ensures i < namespaces ==> pairs[i].ns == i
      ensures i < workers ==> pairs[i].worker == i
    {
      if i < namespaces {
        PosBelow(i, namespaces);
      }
      if i < workers {
        PosBelow(i, workers);
      }
    }
  }

  ghost function OnWorker(w: nat): Pair -> bool { (p: Pair) => p.worker == w }

  ghost function OnNamespace(n: nat): Pair -> bool { (p: Pair) => p.ns == n }

  /** Every element of a list of `n` has been visited once per lap, and once more before the position. */
  lemma {:induction false} Visits(pairs: seq<Pair>, n: nat, x: nat, byWorker: bool)
    requires x < n
    requires forall i :: 0 <= i < |pairs| ==> (if byWorker then pairs[i].worker else pairs[i].ns) == Pos(i, n)
    ensures Count(pairs, if byWorker then OnWorker(x) else OnNamespace(x))
            == Laps(|pairs|, n) + if x < Pos(|pairs|, n) then 1 else 0
  {
    if pairs != [] {
      var m := |pairs| - 1;
      assert forall i :: 0 <= i < m ==> pairs[..m][i] == pairs[i];
      Visits(pairs[..m], n, x, byWorker);
    }
  }

  /** Two workers differ by at most one namespace, and two namespaces by at most one worker. */
  lemma {:induction false} Balanced(namespaces: nat, workers: nat, x: nat, y: nat)
    requires 1 <= namespaces && 1 <= workers
    ensures var pairs := RoundRobin(namespaces, workers);
            && (x < workers && y < workers ==> Count(pairs, OnWorker(x)) <= Count(pairs, OnWorker(y)) + 1)
            && (x < namespaces && y < namespaces ==> Count(pairs, OnNamespace(x)) <= Count(pairs, OnNamespace(y)) + 1)
  {
    var pairs := RoundRobin(namespaces, workers);
    if x < workers && y < workers {
      Visits(pairs, workers, x, true);
      Visits(pairs, workers, y, true);
    }
    if x < namespaces && y < namespaces {
      Visits(pairs, namespaces, x, false);
      Visits(pairs, namespaces, y, false);
    }
  }

  /** A worker of the default association gets all namespaces, as the replica engine needs, if and only if
      there is one worker or one namespace. */
  lemma {:induction false} AllNamespaces(namespaces: nat, workers: nat, w: nat)
    requires 1 <= namespaces && w < workers
    ensures (forall n: nat :: n < namespaces ==> Pair(n, w) in RoundRobin(namespaces, workers))
            <==> workers == 1 || namespaces == 1
  {
    var pairs := RoundRobin(namespaces, workers);
    CoversAll(namespaces, workers);
    if workers == 1 || namespaces == 1 {
      forall n: nat | n < namespaces
        ensures Pair(n, w) in pairs
      {
        assert pairs[if workers == 1 then n else w] == Pair(n, w);
      }
    } else if workers <= namespaces {
      var n := if w == 0 then 1 else 0;
      OnlyOne(namespaces, workers, n, w);
    } else {
      PosBelow(w, workers);
      var n := if Pos(w, namespaces) == 0 then 1 else 0;
      forall i: nat | i < |pairs|
        ensures pairs[i] != Pair(n, w)
      {
        PosBelow(i, workers);
      }
      assert Pair(n, w) !in pairs;
    }
  }

  lemma {:induction false} OnlyOne(namespaces: nat, workers: nat, n: nat, w: nat)
    requires 2 <= workers <= namespaces && n < 2 && w != n
    ensures Pair(n, w) !in RoundRobin(namespaces, workers)
  {
    var pairs := RoundRobin(namespaces, workers);
    forall i: nat | i < |pairs|
      ensures pairs[i] != Pair(n, w)
    {
      PosBelow(i, namespaces);
      PosBelow(n, workers);
    }
  }
}
