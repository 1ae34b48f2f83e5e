/** Counting the elements of a sequence that satisfy a predicate, and sequences without repetitions. */
module Counting {

  /** The number of positions of `s` whose element satisfies `p`. */
  ghost function Count<T>(s: seq<T>, p: T -> bool): (n: nat)
    ensures n <= |s|
  {
    if s == [] then 0
    else Count(s[..|s| - 1], p) + if p(s[|s| - 1]) then 1 else 0
  }

  lemma {:induction false} CountUpdate<T>(s: seq<T>, i: nat, v: T, p: T -> bool)
    requires i < |s|
    ensures Count(s[i := v], p) + (if p(s[i]) then 1 else 0) == Count(s, p) + (if p(v) then 1 else 0)
  {
    var m := |s| - 1;
    if i == m {
      assert s[i := v][..m] == s[..m];
    } else {
      assert s[i := v][..m] == s[..m][i := v];
      CountUpdate(s[..m], i, v, p);
    }
  }

  lemma {:induction false} CountAppend<T>(s: seq<T>, v: T, p: T -> bool)
    ensures Count(s + [v], p) == Count(s, p) + if p(v) then 1 else 0
  {
    assert (s + [v])[..|s|] == s;
  }

  lemma {:induction false} CountNone<T>(s: seq<T>, p: T -> bool)
    ensures Count(s, p) == 0 <==> forall i :: 0 <= i < |s| ==> !p(s[i])
  {
    if s != [] {
      CountNone(s[..|s| - 1], p);
      assert forall i :: 0 <= i < |s| - 1 ==> s[..|s| - 1][i] == s[i];
    }
  }

  lemma {:induction false} CountAll<T>(s: seq<T>, p: T -> bool)
    ensures Count(s, p) == |s| <==> forall i :: 0 <= i < |s| ==> p(s[i])
  {
    if s != [] {
      CountAll(s[..|s| - 1], p);
      assert forall i :: 0 <= i < |s| - 1 ==> s[..|s| - 1][i] == s[i];
    }
  }

  /** Two sequences that agree pointwise on the predicates have the same count. */
  lemma {:induction false} CountSame<T, U>(s: seq<T>, p: T -> bool, t: seq<U>, q: U -> bool)
    requires |s| == |t|
    requires forall i :: 0 <= i < |s| ==> p(s[i]) == q(t[i])
    ensures Count(s, p) == Count(t, q)
  {
    if s != [] {
      assert forall i :: 0 <= i < |s| - 1 ==> s[..|s| - 1][i] == s[i] && t[..|s| - 1][i] == t[i];
      CountSame(s[..|s| - 1], p, t[..|s| - 1], q);
    }
  }

  ghost predicate NoDup<T>(s: seq<T>) {
    forall i, j :: 0 <= i < j < |s| ==> s[i] != s[j]
  }

  /** Taking one entry out of a list of different ones leaves the others, in order. */
  lemma {:induction false} Without(s: seq<nat>, i: nat)
    requires NoDup(s) && i < |s|
    ensures var t := s[..i] + s[i + 1..];
            && |t| == |s| - 1 && NoDup(t)
            && (forall j :: 0 <= j < |t| ==> t[j] == s[if j < i then j else j + 1] && t[j] != s[i])
            && (forall x :: x in s && x != s[i] ==> x in t)
  {
    var t := s[..i] + s[i + 1..];
    assert forall j :: 0 <= j < |t| ==> t[j] == s[if j < i then j else j + 1];
    forall x | x in s && x != s[i]
      ensures x in t
    {
      var j :| 0 <= j < |s| && s[j] == x;
      assert t[if j < i then j else j - 1] == x;
    }
  }

  /** A list of indices below `n`, without repetition and with every one of them, has length `n`. */
  lemma {:induction false} FullLength(s: seq<nat>, n: nat)
    requires NoDup(s)
    requires forall i :: 0 <= i < |s| ==> s[i] < n
    requires forall x: nat :: x < n ==> x in s
    ensures |s| == n
  {
    assert n > 0 ==> n - 1 in s;
    if s != [] {
      assert s[0] < n;
      var i :| 0 <= i < |s| && s[i] == n - 1;
      Without(s, i);
      FullLength(s[..i] + s[i + 1..], n - 1);
    }
  }

  /** A list of different indices below `n` has at most `n` of them. */
  lemma {:induction false} BoundedLength(s: seq<nat>, n: nat)
    requires NoDup(s)
    requires forall i :: 0 <= i < |s| ==> s[i] < n
    ensures |s| <= n
  {
    if s != [] {
      assert s[0] < n;
      if n - 1 in s {
        var i :| 0 <= i < |s| && s[i] == n - 1;
        Without(s, i);
        BoundedLength(s[..i] + s[i + 1..], n - 1);
      } else {
        assert forall i :: 0 <= i < |s| ==> s[i] in s;
        BoundedLength(s, n - 1);
      }
    }
  }

  /** `n` different indices below `n` are all of them. */
  lemma {:induction false} FullMembers(s: seq<nat>, n: nat)
    requires NoDup(s) && |s| == n
    requires forall i :: 0 <= i < |s| ==> s[i] < n
    ensures forall x: nat :: x < n ==> x in s
  {
    forall x: nat | x < n
      ensures x in s
    {
      if x !in s {
        BoundedLength(s + [x], n);
      }
    }
  }
}
