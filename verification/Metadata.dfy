/** The metadata option: a text of `key=value` pairs, and the protection flags it sets. */
module Metadata {

  const KEY_BUFFER: nat := 32
  const VALUE_BUFFER: nat := 1024

  predicate IsSep(c: char) { c == ',' || c == ' ' || c == '\t' || c == '\n' }

  /** `strspn` with the separators. */
  function SepSpan(s: string): (n: nat)
    ensures n <= |s| && (forall i :: 0 <= i < n ==> IsSep(s[i])) && (n < |s| ==> !IsSep(s[n]))
  {
    if s == "" || !IsSep(s[0]) then 0 else 1 + SepSpan(s[1..])
  }

  /** `strcspn` with the separators. */
  function ValueSpan(s: string): (n: nat)
    ensures n <= |s| && (forall i :: 0 <= i < n ==> !IsSep(s[i])) && (n < |s| ==> IsSep(s[n]))
  {
    if s == "" || IsSep(s[0]) then 0 else 1 + ValueSpan(s[1..])
  }

  /** `strchr` for the equals sign; the length of the text if there is none. */
  function FindEquals(s: string): (n: nat)
    ensures n <= |s| && (forall i :: 0 <= i < n ==> s[i] != '=') && (n < |s| ==> s[n] == '=')
  {
    if s == "" || s[0] == '=' then 0 else 1 + FindEquals(s[1..])
  }

  datatype KeyValue = KeyValue(key: string, value: string)

  datatype Option<+T> = None | Some(value: T)

  datatype Next = Malformed | Found(kv: KeyValue, rest: string)

  function AfterSeps(s: string): string { s[SepSpan(s)..] }

  /** The key in front of the equals sign, and what follows it. */
  function SplitKey(s: string): (r: Option<(string, string)>)
    ensures r.Some? ==> |r.value.0| < KEY_BUFFER && |r.value.1| < |s|
  {
    var n := FindEquals(s);
    if n == |s| || n >= KEY_BUFFER then None else Some((s[..n], s[n + 1..]))
  }

  /** The value up to the next separator, and what follows it. */
  function SplitValue(s: string): (r: Option<(string, string)>)
    ensures r.Some? ==> 1 <= |r.value.0| < VALUE_BUFFER && |r.value.1| < |s|
  {
    var n := ValueSpan(s);
    if n == 0 || n >= VALUE_BUFFER then None else Some((s[..n], s[n..]))
  }

  /** `parse_next_key`. */
  function ParseNextKey(s: string): (r: Next)
    ensures r.Found? ==> |r.rest| < |s| && |r.kv.key| < KEY_BUFFER && 1 <= |r.kv.value| < VALUE_BUFFER
  {
    match SplitKey(AfterSeps(s))
    case None => Malformed
    case Some((key, s2)) =>
      match SplitValue(s2)
      case None => Malformed
      case Some((value, rest)) => Found(KeyValue(key, value), rest)
  }

  /** The pairs found before the end or the first error, and which of the two it was. */
  datatype Parsed = Parsed(pairs: seq<KeyValue>, ok: bool)

  function ParseAll(s: string): Parsed
    decreases |s|
  {
    if s == "" then Parsed([], true)
    else
      match ParseNextKey(s)
      case Malformed => Parsed([], false)
      case Found(kv, rest) => var p := ParseAll(rest); Parsed([kv] + p.pairs, p.ok)
  }

  // ---------------------------------------------------------------- the accepted language

  /** A pair with the separators in front of it. */
  datatype Item = Item(seps: string, kv: KeyValue)

  function Text(it: Item, rest: string): string {
    it.seps + (it.kv.key + "=" + (it.kv.value + rest))
  }

  function Render(items: seq<Item>): string {
    if items == [] then "" else Text(items[0], Render(items[1..]))
  }

  /** A key has no equals sign and does not start with a separator, a value has no separator, both fit their
      buffers, and only the first pair may come without a separator in front. */
  ghost predicate WellFormed(it: Item, first: bool) {
    && (forall i :: 0 <= i < |it.seps| ==> IsSep(it.seps[i]))
    && (first || it.seps != "")
    && |it.kv.key| < KEY_BUFFER && (forall i :: 0 <= i < |it.kv.key| ==> it.kv.key[i] != '=')
    && (it.kv.key != "" ==> !IsSep(it.kv.key[0]))
    && 1 <= |it.kv.value| < VALUE_BUFFER && (forall i :: 0 <= i < |it.kv.value| ==> !IsSep(it.kv.value[i]))
  }

  ghost predicate AllWellFormed(items: seq<Item>, first: bool) {
    forall i :: 0 <= i < |items| ==> WellFormed(items[i], first && i == 0)
  }

  function Pairs(items: seq<Item>): seq<KeyValue> {
    seq(|items|, i requires 0 <= i < |items| => items[i].kv)
  }

  lemma {:induction false} AfterSepsOf(seps: string, t: string)
    requires forall i :: 0 <= i < |seps| ==> IsSep(seps[i])
    requires t == "" || !IsSep(t[0])
    ensures SepSpan(seps + t) == |seps| && AfterSeps(seps + t) == t
  {
    if seps == "" {
      assert seps + t == t && t[0..] == t;
    } else {
      assert (seps + t)[1..] == seps[1..] + t;
      AfterSepsOf(seps[1..], t);
    }
  }

  lemma {:induction false} FindEqualsOf(key: string, t: string)
    requires forall i :: 0 <= i < |key| ==> key[i] != '='
    ensures FindEquals(key + "=" + t) == |key|
  {
    if key != "" {
      assert (key + "=" + t)[1..] == key[1..] + "=" + t;
      FindEqualsOf(key[1..], t);
    }
  }

  lemma {:induction false} SplitKeyOf(key: string, t: string)
    requires |key| < KEY_BUFFER && forall i :: 0 <= i < |key| ==> key[i] != '='
    ensures SplitKey(key + "=" + t) == Some((key, t))
  {
    FindEqualsOf(key, t);
    var s := key + "=" + t;
    assert s[..|key|] == key && s[|key| + 1..] == t;
  }

  lemma {:induction false} ValueSpanOf(value: string, rest: string)
    requires forall i :: 0 <= i < |value| ==> !IsSep(value[i])
    requires rest == "" || IsSep(rest[0])
    ensures ValueSpan(value + rest) == |value|
  {
    if value == "" {
      assert value + rest == rest;
    } else {
      assert (value + rest)[1..] == value[1..] + rest;
      ValueSpanOf(value[1..], rest);
    }
  }

  lemma {:induction false} SplitValueOf(value: string, rest: string)
    requires 1 <= |value| < VALUE_BUFFER && forall i :: 0 <= i < |value| ==> !IsSep(value[i])
    requires rest == "" || IsSep(rest[0])
    ensures SplitValue(value + rest) == Some((value, rest))
  {
    ValueSpanOf(value, rest);
    var s := value + rest;
    assert s[..|value|] == value && s[|value|..] == rest;
  }

  lemma {:induction false} ParseItem(it: Item, rest: string, first: bool)
    requires WellFormed(it, first) && (rest == "" || IsSep(rest[0]))
    ensures ParseNextKey(Text(it, rest)) == Found(it.kv, rest)
  {
    var s2 := it.kv.value + rest;
    var s1 := it.kv.key + "=" + s2;
    assert s1[0] == if it.kv.key == "" then '=' else it.kv.key[0];
    AfterSepsOf(it.seps, s1);
    SplitKeyOf(it.kv.key, s2);
    SplitValueOf(it.kv.value, rest);
  }

  lemma {:induction false} RenderStart(items: seq<Item>)
    requires AllWellFormed(items, false)
    ensures Render(items) == "" || IsSep(Render(items)[0])
  {
    if items != [] {
      assert WellFormed(items[0], false);
      assert Render(items)[0] == items[0].seps[0];
    }
  }

  /** Round trip: parsing what well-formed pairs render to gives back exactly those pairs. */
  lemma {:induction false} ParseOfRender(items: seq<Item>, first: bool)
    requires AllWellFormed(items, first)
    ensures ParseAll(Render(items)) == Parsed(Pairs(items), true)
    decreases |items|
  {
    if items != [] {
      var it, tail := items[0], items[1..];
      assert items == [it] + tail;
      TailWellFormed(items, first);
      RenderStart(tail);
      ParseItem(it, Render(tail), first);
      ParseOfRender(tail, false);
      Prepended(it, tail, first);
      ParseAllStep(Text(it, Render(tail)), it.kv, Render(tail));
    }
  }

  lemma {:induction false} ParseAllStep(s: string, kv: KeyValue, rest: string)
    requires ParseNextKey(s) == Found(kv, rest)
    ensures ParseAll(s) == Parsed([kv] + ParseAll(rest).pairs, ParseAll(rest).ok)
  {
  }

  lemma {:induction false} TailWellFormed(items: seq<Item>, first: bool)
    requires items != [] && AllWellFormed(items, first)
    ensures WellFormed(items[0], first) && AllWellFormed(items[1..], false)
  {
    forall i | 0 <= i < |items[1..]|
      ensures WellFormed(items[1..][i], false)
    {
      assert items[1..][i] == items[i + 1];
      assert WellFormed(items[i + 1], first && i + 1 == 0);
    }
  }

  lemma {:induction false} SplitKeyInverse(s: string)
    requires SplitKey(s).Some?
    ensures var (key, rest) := SplitKey(s).value;
            && s == key + "=" + rest && |key| < KEY_BUFFER
            && (forall i :: 0 <= i < |key| ==> key[i] != '=') && (key != "" ==> key[0] == s[0])
  {
    var n := FindEquals(s);
    assert s == s[..n] + [s[n]] + s[n + 1..];
  }

  lemma {:induction false} SplitValueInverse(s: string)
    requires SplitValue(s).Some?
    ensures var (value, rest) := SplitValue(s).value;
            && s == value + rest && 1 <= |value| < VALUE_BUFFER
            && (forall i :: 0 <= i < |value| ==> !IsSep(value[i])) && (rest == "" || IsSep(rest[0]))
  {
  }

  /** What was split off, put together again. */
  lemma {:induction false} ParsedItem(s: string) returns (it: Item)
    requires ParseNextKey(s).Found?
    ensures var r := ParseNextKey(s);
            && it.kv == r.kv && s == Text(it, r.rest)
            && WellFormed(it, s == "" || !IsSep(s[0]))
            && (r.rest == "" || IsSep(r.rest[0]))
  {
    var n := SepSpan(s);
    var s1 := AfterSeps(s);
    SplitKeyInverse(s1);
    SplitValueInverse(SplitKey(s1).value.1);
    it := Item(s[..n], ParseNextKey(s).kv);
    assert s == s[..n] + s1;
  }

  /** Conversely, every accepted text is the rendering of well-formed pairs, those that were found. */
  lemma {:induction false} RenderOfParse(s: string, first: bool) returns (items: seq<Item>)
    requires ParseAll(s).ok && (first || s == "" || IsSep(s[0]))
    ensures AllWellFormed(items, first) && Render(items) == s && Pairs(items) == ParseAll(s).pairs
    decreases |s|
  {
    if s == "" {
      items := [];
      assert Pairs(items) == [];
    } else {
      var it := ParsedItem(s);
      var tail := RenderOfParse(ParseNextKey(s).rest, false);
      items := [it] + tail;
      Prepended(it, tail, first);
    }
  }

  lemma {:induction false} Prepended(it: Item, tail: seq<Item>, first: bool)
    requires AllWellFormed(tail, false) && (WellFormed(it, first) || (first && WellFormed(it, false)))
    ensures AllWellFormed([it] + tail, first)
    ensures Render([it] + tail) == Text(it, Render(tail)) && Pairs([it] + tail) == [it.kv] + Pairs(tail)
  {
    assert ([it] + tail)[1..] == tail;
  }

  /** So the parser accepts exactly the renderings of well-formed pairs: in particular a separator after the
      last pair is an error. */
  lemma {:induction false} AcceptedLanguage(s: string)
    ensures ParseAll(s).ok <==> exists items :: AllWellFormed(items, true) && Render(items) == s
  {
    if ParseAll(s).ok {
      var items := RenderOfParse(s, true);
    }
    forall items | AllWellFormed(items, true) && Render(items) == s
      ensures ParseAll(s).ok
    {
      ParseOfRender(items, true);
    }
  }

  // ---------------------------------------------------------------- the flags

  datatype Check = Guard | Reftag | Apptag

  function Name(c: Check): string {
    match c
    case Guard => "GUARD"
    case Reftag => "REFTAG"
    case Apptag => "APPTAG"
  }

  /** The action flag, and the set of check flags. */
  datatype Flags = Flags(pract: bool, checks: set<Check>)

  predicate OccursAt(s: string, pattern: string, i: int) {
    0 <= i <= |s| - |pattern| && s[i..i + |pattern|] == pattern
  }

  /** `strstr` found something. */
  predicate Contains(s: string, pattern: string) {
    exists i :: 0 <= i <= |s| && OccursAt(s, pattern, i)
  }

  /** The pattern stands somewhere in the text. */
  lemma {:induction false} ContainsIff(s: string, pattern: string)
    ensures Contains(s, pattern) <==> exists a, b :: s == a + pattern + b
  {
    if i :| 0 <= i <= |s| && OccursAt(s, pattern, i) {
      assert s == s[..i] + pattern + s[i + |pattern|..];
    }
    forall a: string, b: string | s == a + pattern + b
      ensures Contains(s, pattern)
    {
      assert s[|a|..|a| + |pattern|] == pattern;
      assert OccursAt(s, pattern, |a|);
    }
  }

  predicate SetsPract(kv: KeyValue) { kv.key == "PRACT" && kv.value != "" && kv.value[0] == '1' }

  predicate SetsCheck(kv: KeyValue, c: Check) { kv.key == "PRCHK" && Contains(kv.value, Name(c)) }

  /** What one pair does; an unknown key does nothing. */
  function Apply(f: Flags, kv: KeyValue): Flags {
    Flags(f.pract || SetsPract(kv), f.checks + set c: Check | SetsCheck(kv, c))
  }

  function ApplyAll(f: Flags, pairs: seq<KeyValue>): Flags
    decreases |pairs|
  {
    if pairs == [] then f else ApplyAll(Apply(f, pairs[0]), pairs[1..])
  }

  predicate AnyPract(pairs: seq<KeyValue>) { exists i :: 0 <= i < |pairs| && SetsPract(pairs[i]) }

  predicate AnyCheck(pairs: seq<KeyValue>, c: Check) { exists i :: 0 <= i < |pairs| && SetsCheck(pairs[i], c) }

  /** A flag is set afterwards if and only if it was set before or some pair sets it. */
  lemma {:induction false} FlagsMeaning(f: Flags, pairs: seq<KeyValue>)
    ensures var r := ApplyAll(f, pairs);
            && (r.pract <==> f.pract || AnyPract(pairs))
            && forall c :: c in r.checks <==> c in f.checks || AnyCheck(pairs, c)
    decreases |pairs|
  {
    if pairs != [] {
      FlagsMeaning(Apply(f, pairs[0]), pairs[1..]);
      AnyStep(pairs);
    }
  }

  lemma {:induction false} AnyStep(pairs: seq<KeyValue>)
    requires pairs != []
    ensures AnyPract(pairs) <==> SetsPract(pairs[0]) || AnyPract(pairs[1..])
    ensures forall c :: AnyCheck(pairs, c) <==> SetsCheck(pairs[0], c) || AnyCheck(pairs[1..], c)
  {
    assert forall i :: 0 <= i < |pairs[1..]| ==> pairs[1..][i] == pairs[i + 1];
    assert forall i :: 1 <= i < |pairs| ==> pairs[i] == pairs[1..][i - 1];
  }

  lemma {:induction false} MoreSetters(a: seq<KeyValue>, b: seq<KeyValue>)
    requires forall i :: 0 <= i < |a| ==> a[i] in b
    ensures (AnyPract(a) ==> AnyPract(b)) && forall c :: AnyCheck(a, c) ==> AnyCheck(b, c)
  {
  }

  /** The order of the pairs, and repeating one, make no difference. */
  lemma {:induction false} OrderIrrelevant(f: Flags, a: seq<KeyValue>, b: seq<KeyValue>)
    requires forall kv :: kv in a <==> kv in b
    ensures ApplyAll(f, a) == ApplyAll(f, b)
  {
    MoreSetters(a, b);
    MoreSetters(b, a);
    FlagsMeaning(f, a);
    FlagsMeaning(f, b);
    assert ApplyAll(f, a).checks == ApplyAll(f, b).checks;
  }

  const EINVAL: int := 22

  /** The global flags and the parser that sets them. */
  class MetaConfig {
    var flags: Flags

    constructor ()
      ensures flags == Flags(false, {})
    {
      flags := Flags(false, {});
    }

    method ApplyPair(kv: KeyValue)
      requires kv.value != ""
      modifies this
      ensures flags == Apply(old(flags), kv)
    {
      if kv.key == "PRACT" {
        if kv.value[0] == '1' {
          flags := flags.(pract := true);
        }
      } else if kv.key == "PRCHK" {
        if Contains(kv.value, "GUARD") {
          flags := flags.(checks := flags.checks + {Guard});
        }
        if Contains(kv.value, "REFTAG") {
          flags := flags.(checks := flags.checks + {Reftag});
        }
        if Contains(kv.value, "APPTAG") {
          flags := flags.(checks := flags.checks + {Apptag});
        }
      }
      forall c: Check
        ensures c in flags.checks <==> c in old(flags).checks || SetsCheck(kv, c)
      {
        match c
        case Guard =>
        case Reftag =>
        case Apptag =>
      }
      assert flags.checks == Apply(old(flags), kv).checks;
    }

    /** `parse_metadata`: the pairs before an error have taken effect all the same. */
    method ParseMetadata(arg: Option<string>) returns (rc: int)
      modifies this
      ensures arg.None? ==> rc == -EINVAL && flags == old(flags)
      ensures arg.Some? ==>
                && rc == (if ParseAll(arg.value).ok then 0 else -EINVAL)
                && flags == ApplyAll(old(flags), ParseAll(arg.value).pairs)
    {
      if arg.None? {
        return -EINVAL;
      }
      var s := arg.value;
      while s != ""
        invariant ParseAll(arg.value).ok == ParseAll(s).ok
        invariant ApplyAll(old(flags), ParseAll(arg.value).pairs) == ApplyAll(flags, ParseAll(s).pairs)
        decreases |s|
      {
        match ParseNextKey(s)
        case Malformed =>
          return -EINVAL;
        case Found(kv, rest) =>
          ParseAllStep(s, kv, rest);
          assert ParseAll(s).pairs[1..] == ParseAll(rest).pairs;
          ApplyPair(kv);
          s := rest;
      }
      return 0;
    }
  }
}
