/** The handful of JavaScript string operations the scripts rely on, over `seq<char>`. */
module Strings {
  import opened Wrappers

  /** `s.startsWith(p)` */
  predicate StartsWith(s: string, p: string) {
    |p| <= |s| && s[..|p|] == p
  }

  /** A text that differs from `p` at a position inside both does not start with `p`. */
  lemma DiffersAt(s: string, p: string, k: nat)
    requires k < |p| && k < |s| && s[k] != p[k]
    ensures !StartsWith(s, p)
  {
  }

  lemma PrefixOfConcat(a: string, b: string)
    ensures StartsWith(a + b, a)
  {
    assert (a + b)[..|a|] == a;
  }

  lemma PrefixTransitive(s: string, p: string, q: string)
    requires StartsWith(s, p) && StartsWith(p, q)
    ensures StartsWith(s, q)
  {
    assert s[..|q|] == s[..|p|][..|q|];
  }

  /** `s.endsWith(p)` */
  predicate EndsWith(s: string, p: string) {
    |p| <= |s| && s[|s| - |p|..] == p
  }

  /** `p` occurs in `s` starting at index `i`. */
  predicate OccursAt(s: string, p: string, i: nat) {
    i + |p| <= |s| && s[i..i + |p|] == p
  }

  /** `s.includes(p)` */
  predicate Contains(s: string, p: string) {
    exists i: nat | i <= |s| :: OccursAt(s, p, i)
  }

  /** The first index at or after `from` where `p` occurs in `s`. */
  function IndexOfFrom(s: string, p: string, from: nat): (r: Option<nat>)
    decreases |s| - from
    ensures r.Some? ==> from <= r.value && OccursAt(s, p, r.value)
    ensures r.Some? ==> forall j: nat :: from <= j < r.value ==> !OccursAt(s, p, j)
    ensures r.None? ==> forall j: nat :: from <= j ==> !OccursAt(s, p, j)
  {
    if from + |p| > |s| then None
    else if s[from..from + |p|] == p then Some(from)
    else IndexOfFrom(s, p, from + 1)
  }

  /** `s.indexOf(p)`, with None for -1. */
  function IndexOf(s: string, p: string): Option<nat> {
    IndexOfFrom(s, p, 0)
  }

  lemma IndexOfIsFirst(s: string, p: string, i: nat)
    requires OccursAt(s, p, i)
    requires forall j: nat :: j < i ==> !OccursAt(s, p, j)
    ensures IndexOf(s, p) == Some(i)
  {
  }

  lemma OccursAtStart(p: string, rest: string)
    ensures OccursAt(p + rest, p, 0) && Contains(p + rest, p)
  {
    assert (p + rest)[0..|p|] == p;
    assert OccursAt(p + rest, p, 0);
  }

  /** A pattern whose first character does not occur in `s` does not occur in `s`. */
  lemma AbsentFirstChar(s: string, p: string)
    requires |p| > 0 && p[0] !in s
    ensures !Contains(s, p)
  {
    forall i: nat | i <= |s| ensures !OccursAt(s, p, i) {
      if i + |p| <= |s| {
        assert s[i..i + |p|][0] == s[i];
      }
    }
  }

  /**
   * A pattern of two or more characters does not occur in `a + [c] + b` when its first
   * character occurs neither in `a` nor in `b`, and `c`, if it is that character, is not
   * followed by the pattern's second one.
   */
  lemma AbsentAround(a: string, c: char, b: string, p: string)
    requires |p| >= 2 && p[0] !in a && p[0] !in b
    requires c == p[0] ==> |b| > 0 && b[0] != p[1]
    ensures !Contains(a + [c] + b, p)
  {
    var s := a + [c] + b;
    forall i: nat | i <= |s| ensures !OccursAt(s, p, i) {
      if i + |p| <= |s| {
        assert s[i..i + |p|][0] == s[i] && s[i..i + |p|][1] == s[i + 1];
        if i < |a| {
          assert s[i] == a[i];
        } else if i > |a| {
          assert s[i] == b[i - |a| - 1];
        } else {
          assert s[i + 1] == b[0];
        }
      }
    }
  }

  /**
   * `s.replace(p, r)` with a string pattern: only the first occurrence is replaced.
   * (The replacements used in this model never contain `$`, so JavaScript's
   * replacement patterns do not arise.)
   */
  function ReplaceFirst(s: string, p: string, r: string): string {
    match IndexOf(s, p)
    case None => s
    case Some(i) => s[..i] + r + s[i + |p|..]
  }

  lemma ReplaceFirstAbsent(s: string, p: string, r: string)
    ensures !Contains(s, p) ==> ReplaceFirst(s, p, r) == s
  {
    if IndexOf(s, p).Some? {
      assert OccursAt(s, p, IndexOf(s, p).value);
    }
  }

  lemma ReplaceFirstAt(s: string, p: string, r: string, i: nat)
    requires OccursAt(s, p, i)
    requires forall j: nat :: j < i ==> !OccursAt(s, p, j)
    ensures ReplaceFirst(s, p, r) == s[..i] + r + s[i + |p|..]
  {
    IndexOfIsFirst(s, p, i);
  }

  /** When the pattern's first character does not occur in `a`, its first occurrence in `a + p + rest` is right after `a`. */
  lemma ReplaceFirstAfter(a: string, p: string, rest: string, r: string)
    requires |p| > 0 && p[0] !in a
    ensures ReplaceFirst(a + p + rest, p, r) == a + r + rest
  {
    var s := a + p + rest;
    assert s[|a|..|a| + |p|] == p;
    forall j: nat | j < |a| ensures !OccursAt(s, p, j) {
      if j + |p| <= |s| {
        assert s[j..j + |p|][0] == s[j] == a[j];
      }
    }
    ReplaceFirstAt(s, p, r, |a|);
    assert s[..|a|] == a && s[|a| + |p|..] == rest;
  }

  /** `s.split(c)[0]`: the text before the first `c`, or all of `s`. */
  function TakeUntil(s: string, c: char): (r: string)
    ensures StartsWith(s, r) && c !in r
    ensures |r| < |s| ==> s[|r|] == c
  {
    if s == [] || s[0] == c then [] else [s[0]] + TakeUntil(s[1..], c)
  }

  /** The text after the first `c` in `s`, or the empty string if there is none. */
  function DropThrough(s: string, c: char): (r: string)
    ensures c in s ==> s == TakeUntil(s, c) + [c] + r
  {
    if s == [] then []
    else if s[0] == c then
      assert s == [c] + s[1..];
      s[1..]
    else
      var r := DropThrough(s[1..], c);
      assert c in s ==> s == [s[0]] + (TakeUntil(s[1..], c) + [c] + r) by {
        if c in s {
          assert s == [s[0]] + s[1..];
        }
      }
      r
  }

  /** `s.split(c)[1]` for an `s` that contains `c`: the text between the first and second `c`. */
  function SecondField(s: string, c: char): (r: string)
    requires c in s
    ensures c !in r
  {
    TakeUntil(DropThrough(s, c), c)
  }

  lemma TakeUntilAll(s: string, c: char)
    requires c !in s
    ensures TakeUntil(s, c) == s
  {
  }

  lemma {:induction false} DropThroughPrefix(p: string, v: string, c: char)
    requires c !in p
    ensures DropThrough(p + [c] + v, c) == v
  {
    var s := p + [c] + v;
    if p == [] {
      assert s == [c] + v && s[1..] == v;
    } else {
      assert s[0] == p[0] != c;
      assert s[1..] == p[1..] + [c] + v;
      DropThroughPrefix(p[1..], v, c);
    }
  }

  /** A flag `name=value` whose name has no `c` yields the value up to its next `c`. */
  lemma SecondFieldOfFlag(name: string, v: string, c: char)
    requires c !in name
    ensures c in name + [c] + v
    ensures SecondField(name + [c] + v, c) == TakeUntil(v, c)
  {
    assert (name + [c] + v)[|name|] == c;
    DropThroughPrefix(name, v, c);
  }

  function Repeat(c: char, n: nat): (r: string)
    ensures |r| == n && forall k :: 0 <= k < n ==> r[k] == c
  {
    seq(n, _ => c)
  }

  /** `s.padStart(n, c)` for a one-character pad string. */
  function PadStart(s: string, n: nat, c: char): (r: string)
    ensures |r| == if |s| >= n then |s| else n
    ensures EndsWith(r, s)
    ensures forall k :: 0 <= k < |r| - |s| ==> r[k] == c
  {
    if |s| >= n then s else Repeat(c, n - |s|) + s
  }

  predicate IsDigit(c: char) {
    '0' <= c <= '9'
  }

  function DigitChar(d: nat): (c: char)
    requires d < 10
    ensures IsDigit(c) && (c as int) - ('0' as int) == d
  {
    (('0' as int) + d) as char
  }

  /** `String(n)` for a non-negative integer: its decimal digits without leading zeros. */
  function NatToString(n: nat): (s: string)
    decreases n
    ensures |s| >= 1
    ensures forall k :: 0 <= k < |s| ==> IsDigit(s[k])
    ensures |s| > 1 ==> s[0] != '0'
  {
    if n < 10 then [DigitChar(n)] else NatToString(n / 10) + [DigitChar(n % 10)]
  }

  /** The number a string of decimal digits denotes. */
  function DecimalValue(s: string): nat
    requires forall k :: 0 <= k < |s| ==> IsDigit(s[k])
  {
    if s == [] then 0
    else
      assert IsDigit(s[|s| - 1]);
      10 * DecimalValue(s[..|s| - 1]) + ((s[|s| - 1] as int) - ('0' as int))
  }

  /** Rendering a number and reading it back gives the number. */
  lemma {:induction false} NatToStringRoundTrip(n: nat)
    ensures DecimalValue(NatToString(n)) == n
  {
    if n >= 10 {
      NatToStringRoundTrip(n / 10);
      var s := NatToString(n);
      assert s[..|s| - 1] == NatToString(n / 10);
    }
  }

  /** `String(i)` for any integer. */
  function IntToString(i: int): (s: string)
    ensures |s| >= 1
    ensures forall k :: 0 <= k < |s| ==> IsDigit(s[k]) || (k == 0 && s[k] == '-')
  {
    if i < 0 then "-" + NatToString(-i) else NatToString(i)
  }
}
