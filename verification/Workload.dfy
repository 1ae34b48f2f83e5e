/** How an engine picks the offset and the direction of its next I/O. */
module Workload {
  import opened Arith

  datatype Mode = Sequential | Random | Zipf

  /** What the random generators would return at one submission. */
  datatype Choice = Choice(draw: nat, zipf: nat, roll: nat)

  /** `cursor` is the context's `offset_in_ios`, `size` the namespace size in I/Os. */
  function PickOffset(mode: Mode, cursor: nat, size: nat, choice: Choice): nat
    requires mode.Random? ==> 1 <= size
  {
    match mode
    case Zipf => choice.zipf
    case Random => choice.draw % size
    case Sequential => cursor
  }

  /** Below the wrap; a wrap of 0, which the cursor never meets, bounds nothing. */
  predicate Within(offset: nat, wrap: nat) {
    wrap == 0 || offset < wrap
  }

  /** The cursor after one submission: only sequential mode moves it, and only equality wraps it. */
  function NextCursor(mode: Mode, cursor: nat, wrap: nat): nat {
    if mode.Sequential? then (if cursor + 1 == wrap then 0 else cursor + 1) else cursor
  }

  /** The sequential cursor after `n` submissions. */
  function CursorAfter(n: nat, wrap: nat): nat {
    if n == 0 then 0 else NextCursor(Sequential, CursorAfter(n - 1, wrap), wrap)
  }

  /** The offset of the n-th draw, counting from 0: it wraps at the size, but never at size 0. */
  function Nth(n: nat, wrap: nat): nat {
    if wrap == 0 then n else n % wrap
  }

  lemma {:induction false} CursorIsNth(n: nat, wrap: nat)
    ensures CursorAfter(n, wrap) == Nth(n, wrap)
  {
    if wrap == 0 {
      NeverWraps(n);
    } else {
      CursorIsRemainder(n, wrap);
    }
  }

  /** The cursor sweeps the namespace: it visits every offset in turn, over and over. */
  lemma {:induction false} CursorIsRemainder(n: nat, wrap: nat)
    requires 1 <= wrap
    ensures CursorAfter(n, wrap) == n % wrap
  {
    if n == 0 {
      RemainderOf(0, 0, wrap);
    } else {
      CursorIsRemainder(n - 1, wrap);
      var q, r := (n - 1) / wrap, (n - 1) % wrap;
      assert q * wrap + r == n - 1;
      if r + 1 == wrap {
        RemainderOf(q + 1, 0, wrap);
        assert (q + 1) * wrap == q * wrap + wrap;
      } else {
        RemainderOf(q, r + 1, wrap);
      }
    }
  }

  /** A wrap of 0 is never met. */
  lemma {:induction false} NeverWraps(n: nat)
    ensures CursorAfter(n, 0) == n
  {
    if n > 0 {
      NeverWraps(n - 1);
    }
  }

  predicate PickRead(rwPercentage: nat, choice: Choice) {
    rwPercentage == 100 || (rwPercentage != 0 && choice.roll % 100 < rwPercentage)
  }

  /** How many of the `n` rolls from `first` on make a read. */
  ghost function Reads(rwPercentage: nat, first: nat, n: nat): nat {
    if n == 0 then 0
    else Reads(rwPercentage, first, n - 1) + if PickRead(rwPercentage, Choice(0, 0, first + n - 1)) then 1 else 0
  }

  lemma {:induction false} ReadsBelow(rwPercentage: nat, n: nat)
    requires rwPercentage <= 100 && n <= 100
    ensures Reads(rwPercentage, 0, n) == if n < rwPercentage then n else rwPercentage
  {
    if n > 0 {
      ReadsBelow(rwPercentage, n - 1);
    }
  }

  /** Moving the window by one roll drops the first and adds the one behind it. */
  lemma {:induction false} ReadsShift(rwPercentage: nat, first: nat, n: nat)
    ensures Reads(rwPercentage, first + 1, n) + (if PickRead(rwPercentage, Choice(0, 0, first)) then 1 else 0)
            == Reads(rwPercentage, first, n + 1)
  {
    if n > 0 {
      ReadsShift(rwPercentage, first, n - 1);
    }
  }

  /** The two special percentages are the limits of the general rule. */
  lemma {:induction false} ReadIff(rwPercentage: nat, choice: Choice)
    requires rwPercentage <= 100
    ensures PickRead(rwPercentage, choice) <==> choice.roll % 100 < rwPercentage
  {
  }

  /** Of any hundred consecutive rolls exactly `rwPercentage` read. */
  lemma {:induction false} ReadShare(rwPercentage: nat, first: nat)
    requires rwPercentage <= 100
    ensures Reads(rwPercentage, first, 100) == rwPercentage
  {
    if first == 0 {
      ReadsBelow(rwPercentage, 100);
    } else {
      ReadShare(rwPercentage, first - 1);
      ReadsShift(rwPercentage, first - 1, 100);
      assert (first - 1 + 100) % 100 == (first - 1) % 100;
    }
  }
}
