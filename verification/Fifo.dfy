/** The pacing list as a queue: what goes in, what comes out, and how long an entry waits. */
module Fifo {
  import opened Arith

  /** An entry comes back, or a batch takes `n` entries off the front. */
  datatype Event<T> = Push(id: T) | Batch(n: nat)

  function Exec<T>(q: seq<T>, es: seq<Event<T>>): seq<T>
    decreases |es|
  {
    if es == [] then q
    else
      match es[0]
      case Push(id) => Exec(q + [id], es[1..])
      case Batch(n) => Exec(if n <= |q| then q[n..] else [], es[1..])
  }

  /** No batch finds fewer entries than it takes. */
  ghost predicate Enough<T>(q: seq<T>, es: seq<Event<T>>)
    decreases |es|
  {
    es == [] ||
    match es[0]
    case Push(id) => Enough(q + [id], es[1..])
    case Batch(n) => n <= |q| && Enough(q[n..], es[1..])
  }

  ghost function Pushed<T>(es: seq<Event<T>>): seq<T> {
    if es == [] then []
    else (if es[0].Push? then [es[0].id] else []) + Pushed(es[1..])
  }

  /** The entries taken off, batch after batch. */
  ghost function Popped<T>(q: seq<T>, es: seq<Event<T>>): seq<T>
    requires Enough(q, es)
    decreases |es|
  {
    if es == [] then []
    else
      match es[0]
      case Push(id) => Popped(q + [id], es[1..])
      case Batch(n) => q[..n] + Popped(q[n..], es[1..])
  }

  ghost function Batches<T>(es: seq<Event<T>>): nat {
    if es == [] then 0 else (if es[0].Batch? then 1 else 0) + Batches(es[1..])
  }

  /** First in, first out, over every history. */
  lemma {:induction false} FifoLaw<T>(q: seq<T>, es: seq<Event<T>>)
    requires Enough(q, es)
    ensures q + Pushed(es) == Popped(q, es) + Exec(q, es)
    decreases |es|
  {
    if es != [] {
      match es[0]
      case Push(id) =>
        FifoLaw(q + [id], es[1..]);
        assert q + ([id] + Pushed(es[1..])) == q + [id] + Pushed(es[1..]);
      case Batch(n) =>
        FifoLaw(q[n..], es[1..]);
        assert q == q[..n] + q[n..];
        assert q[..n] + q[n..] + Pushed(es[1..]) == q[..n] + (q[n..] + Pushed(es[1..]));
        assert q[..n] + (Popped(q[n..], es[1..]) + Exec(q[n..], es[1..]))
            == q[..n] + Popped(q[n..], es[1..]) + Exec(q[n..], es[1..]);
    }
  }

  /** The batch, counted from 0, that takes the entry at position `p`. */
  function BatchOf(p: nat, size: nat): nat
    requires 1 <= size
  {
    if p < size then 0 else 1 + BatchOf(p - size, size)
  }

  /** That is `p / size`, and a list of `n` entries takes ceil(n / size) batches. */
  lemma {:induction false} BatchOfIsQuotient(p: nat, size: nat)
    requires 1 <= size
    ensures BatchOf(p, size) == p / size
    ensures BatchOf(p, size) + 1 == (p + 1 + size - 1) / size
    decreases p
  {
    DivBounds(p, size);
    if p >= size {
      BatchOfIsQuotient(p - size, size);
      DivStep(p, size);
    }
    DivStep(p + size, size);
  }

  lemma {:induction false} DivStep(n: nat, size: nat)
    requires 1 <= size <= n
    ensures n / size == (n - size) / size + 1
  {
    var d := (n - size) / size;
    DivBounds(n - size, size);
    assert (d + 1) * size == d * size + size;
    DivBounds(n, size);
    DivAbove(d, size, n);
    DivAbove(d + 1, size, n);
  }

  lemma {:induction false} BatchOfMonotone(p: nat, r: nat, size: nat)
    requires p <= r && 1 <= size
    ensures BatchOf(p, size) <= BatchOf(r, size)
    decreases p
  {
    if p >= size {
      BatchOfMonotone(p - size, r - size, size);
    }
  }

  /** With batches of `size`, the entry at position `p` leaves in batch `BatchOf(p, size)`. */
  lemma {:induction false} BoundedWait<T>(q: seq<T>, es: seq<Event<T>>, size: nat, p: nat)
    requires Enough(q, es) && forall i :: 0 <= i < |es| && es[i].Batch? ==> es[i].n == size
    requires 1 <= size && p < |q| && BatchOf(p, size) < Batches(es)
    ensures p < |Popped(q, es)| && Popped(q, es)[p] == q[p]
    decreases |es|
  {
    match es[0]
    case Push(id) =>
      BoundedWait(q + [id], es[1..], size, p);
    case Batch(n) =>
      if p >= size {
        BoundedWait(q[n..], es[1..], size, p - size);
      }
  }
}
