/** The scatter-gather list of a task: built over one buffer, and walked by the driver from any offset. */
module Sgl {
  import opened Arith

  /** A piece of the buffer; `base` counts bytes from the start of the buffer. */
  datatype Iov = Iov(base: nat, len: nat)

  function Min(a: nat, b: nat): nat { if a <= b then a else b }

  function CeilDiv(n: nat, q: nat): nat
    requires 1 <= q
  {
    (n + q - 1) / q
  }

  /** The positions `lo`, `lo + 1`, ..., `hi - 1`. */
  ghost function Range(lo: nat, hi: nat): seq<nat>
    requires lo <= hi
  {
    seq(hi - lo, i requires 0 <= i < hi - lo => lo + i)
  }

  /** The buffer positions that a list of pieces covers, in order. */
  ghost function Bytes(pieces: seq<Iov>): seq<nat> {
    if pieces == [] then []
    else
      var last := pieces[|pieces| - 1];
      Bytes(pieces[..|pieces| - 1]) + Range(last.base, last.base + last.len)
  }

  /** Where piece `i` starts. */
  function At(i: nat, unit: nat): nat {
    if i == 0 then 0 else At(i - 1, unit) + unit
  }

  lemma {:induction false} AtIsProduct(i: nat, unit: nat)
    ensures At(i, unit) == i * unit
  {
    if i > 0 {
      AtIsProduct(i - 1, unit);
      assert i * unit == (i - 1) * unit + unit;
    }
  }

  /** `p` pieces are not enough exactly when they end before the end of the buffer. */
  lemma {:induction false} BelowCount(p: nat, unit: nat, length: nat)
    requires 1 <= unit
    ensures p < CeilDiv(length, unit) <==> At(p, unit) < length
  {
    AtIsProduct(p, unit);
    DivAbove(p, unit, length + unit - 1);
  }

  /** Aligned units keep the count of pieces in a signed 32-bit integer. */
  lemma {:induction false} CountFits(length: nat, unit: nat)
    requires length < UINT32 && 4 <= unit
    ensures CeilDiv(length, unit) <= 0x4000_0000
  {
    var most := 0x4000_0000;
    DivAbove(most, unit, length + unit - 1);
    MulLe2(most, 4, unit);
  }

  class SglTask {
    const length: nat
    const unit: nat
    var iovs: array<Iov>
    var iovpos: nat
    var iovOffset: nat

    /** Sizes in 32 bits; the unit is non-zero and 4-byte aligned, as the option guard demands. */
    ghost predicate Sized() {
      length < UINT32 && 1 <= unit < UINT32 && unit % 4 == 0
    }

    ghost predicate Built()
      reads this, iovs
    {
      && Sized()
      && iovs.Length == CeilDiv(length, unit)
      && forall i :: 0 <= i < iovs.Length ==> Piece(iovs[i], i, unit, length)
    }

    /** `nvme_perf_allocate_iovs`. */
    constructor (length: nat, unit: nat)
      requires length < UINT32 && 1 <= unit < UINT32 && unit % 4 == 0
      ensures this.length == length && this.unit == unit
      ensures Built() && fresh(iovs) && iovs.Length <= 0x4000_0000
      ensures Bytes(iovs[..]) == Range(0, length)
    {
      this.length := length;
      this.unit := unit;
      CountFits(length, unit);
      var v := new Iov[CeilDiv(length, unit)](_ => Iov(0, 0));
      forall p: nat
        ensures p < v.Length <==> At(p, unit) < length
      {
        BelowCount(p, unit, length);
      }
      Fill(v, length, unit);
      iovs := v;
      iovpos, iovOffset := 0, 0;
    }

    /** `nvme_perf_reset_sgl`: the cursor is the quotient and the remainder; it is on a piece, as
        `nvme_perf_next_sge` asserts, if and only if the offset lies inside the buffer. */
    method ResetSgl(offset: nat)
      requires Built() && offset < UINT32
      modifies this`iovpos, this`iovOffset
      ensures Built() && iovs == old(iovs)
      ensures iovpos < iovs.Length <==> offset < length
      ensures offset < length ==>
                && iovpos == offset / unit && iovOffset == offset % unit
                && iovOffset < iovs[iovpos].len && iovs[iovpos].base + iovOffset == offset
      ensures offset >= length ==> iovpos == iovs.Length && iovOffset == offset - length
    {
      iovOffset := offset;
      iovpos := 0;
      BelowCount(0, unit, length);
      while iovpos < iovs.Length
        invariant iovpos <= iovs.Length && iovs == old(iovs) && Built()
        invariant iovpos < iovs.Length ==> offset == At(iovpos, unit) + iovOffset
        invariant iovpos == iovs.Length ==> length <= offset && iovOffset == offset - length
        decreases iovs.Length - iovpos
      {
        if iovOffset < iovs[iovpos].len {
          Quotient(iovpos, iovOffset, unit);
          return;
        }
        BelowCount(iovpos + 1, unit, length);
        iovOffset := iovOffset - iovs[iovpos].len;
        iovpos := iovpos + 1;
      }
    }

    /** `nvme_perf_next_sge`. */
    method NextSge() returns (piece: Iov)
      requires Built() && iovpos < iovs.Length && iovOffset <= iovs[iovpos].len
      modifies this`iovpos, this`iovOffset
      ensures piece == Iov(old(iovs[iovpos].base + iovOffset), old(iovs[iovpos].len - iovOffset))
      ensures iovpos == old(iovpos) + 1 && iovOffset == 0 && iovs == old(iovs) && Built()
    {
      var iov := iovs[iovpos];
      piece := Iov(iov.base + iovOffset, iov.len - iovOffset);
      iovpos := iovpos + 1;
      iovOffset := 0;
    }

    /** What the driver does with the two callbacks: the pieces cover exactly the bytes from the offset
        to the end of the buffer, in order. */
    method Gather(offset: nat) returns (pieces: seq<Iov>)
      requires Built() && offset < length
      modifies this`iovpos, this`iovOffset
      ensures Bytes(pieces) == Range(offset, length)
      ensures forall i :: 0 <= i < |pieces| ==> 1 <= pieces[i].len <= unit
    {
      ResetSgl(offset);
      pieces := [];
      ghost var reached := offset;
      while iovpos < iovs.Length
        invariant iovs == old(iovs) && Built() && iovpos <= iovs.Length
        invariant offset <= reached <= length && Bytes(pieces) == Range(offset, reached)
        invariant iovpos < iovs.Length ==> iovOffset < iovs[iovpos].len && iovs[iovpos].base + iovOffset == reached
        invariant iovpos == iovs.Length ==> reached == length
        invariant forall i :: 0 <= i < |pieces| ==> 1 <= pieces[i].len <= unit
        decreases iovs.Length - iovpos
      {
        BelowCount(iovpos + 1, unit, length);
        var piece := NextSge();
        BytesAppend(pieces, piece, offset);
        pieces := pieces + [piece];
        reached := reached + piece.len;
      }
    }
  }

  lemma {:induction false} BytesAppend(pieces: seq<Iov>, piece: Iov, lo: nat)
    requires lo <= piece.base && Bytes(pieces) == Range(lo, piece.base)
    ensures Bytes(pieces + [piece]) == Range(lo, piece.base + piece.len)
  {
    assert (pieces + [piece])[..|pieces|] == pieces;
  }

  lemma {:induction false} Quotient(q: nat, r: nat, unit: nat)
    requires r < unit
    ensures (At(q, unit) + r) / unit == q && (At(q, unit) + r) % unit == r
  {
    AtIsProduct(q, unit);
    QuotientOf(q, r, unit);
    RemainderOf(q, r, unit);
  }

  /** Piece `i` starts at `At(i, unit)` and is `unit` bytes long, the last one as long as what is left. */
  ghost predicate Piece(iov: Iov, i: nat, unit: nat, length: nat) {
    iov.base == At(i, unit) < length && iov.len == Min(unit, length - At(i, unit))
  }

  /** The loop of `nvme_perf_allocate_iovs`. */
  method Fill(v: array<Iov>, length: nat, unit: nat)
    requires 1 <= unit && forall p: nat :: p < v.Length <==> At(p, unit) < length
    modifies v
    ensures forall i :: 0 <= i < v.Length ==> Piece(v[i], i, unit, length)
    ensures Bytes(v[..]) == Range(0, length)
  {
    var left, offset, pos := length, 0, 0;
    assert At(0, unit) == 0;
    while left > 0
      invariant 0 <= pos <= v.Length && offset + left == length
      invariant left > 0 ==> pos < v.Length && offset == At(pos, unit)
      invariant left == 0 ==> pos == v.Length
      invariant forall i :: 0 <= i < pos ==> Piece(v[i], i, unit, length)
      invariant Bytes(v[..pos]) == Range(0, offset)
      decreases left
    {
      var len := Min(left, unit);
      v[pos] := Iov(offset, len);
      assert v[..pos + 1] == v[..pos] + [v[pos]];
      BytesAppend(v[..pos], Iov(offset, len), 0);
      assert At(pos + 1, unit) == At(pos, unit) + unit;
      left := left - len;
      offset := offset + len;
      pos := pos + 1;
    }
    assert v[..pos] == v[..];
  }
}
