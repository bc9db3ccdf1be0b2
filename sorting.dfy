/**
 * The two sorts the scripts ask the JavaScript runtime for: `Array.prototype.sort()`
 * with no comparator (strings in code-unit order) and `sort((a, b) => key(a) - key(b))`.
 * Both are written as insertion sorts; what the scripts depend on is the
 * contract: the result is ordered and is a permutation of the input.
 */
module Sorting {

  /**
   * The default string order of `sort()`: lexicographic by character.
   * Characters are compared by code point, which agrees with JavaScript's UTF-16
   * code-unit order for every character of the Basic Multilingual Plane.
   */
  predicate LexLe(a: string, b: string)
    decreases |a|
  {
    if a == [] then true
    else if b == [] then false
    else if a[0] != b[0] then a[0] < b[0]
    else LexLe(a[1..], b[1..])
  }

  lemma {:induction false} LexLeTotal(a: string, b: string)
    ensures LexLe(a, b) || LexLe(b, a)
    decreases |a|
  {
    if a != [] && b != [] && a[0] == b[0] {
      LexLeTotal(a[1..], b[1..]);
    }
  }

  lemma {:induction false} LexLeTransitive(a: string, b: string, c: string)
    requires LexLe(a, b) && LexLe(b, c)
    ensures LexLe(a, c)
    decreases |a|
  {
    if a != [] && b != [] && c != [] && a[0] == b[0] && b[0] == c[0] {
      LexLeTransitive(a[1..], b[1..], c[1..]);
    }
  }

  ghost predicate SortedLex(s: seq<string>) {
    forall i, j :: 0 <= i < j < |s| ==> LexLe(s[i], s[j])
  }

  /** An element of `a` with `multiset(a) == multiset(b) + {x}` is `x` or an element of `b`. */
  lemma MemberOfInsertion<T>(y: T, a: seq<T>, b: seq<T>, x: T)
    requires multiset(a) == multiset(b) + multiset{x} && y in a
    ensures y == x || y in b
  {
    assert y in multiset(a);
  }

  lemma ConsSortedLex(h: string, rest: seq<string>)
    requires SortedLex(rest) && forall y :: y in rest ==> LexLe(h, y)
    ensures SortedLex([h] + rest)
  {
    forall i, j | 0 <= i < j < |[h] + rest| ensures LexLe(([h] + rest)[i], ([h] + rest)[j]) {
      assert ([h] + rest)[j] == rest[j - 1];
      if i > 0 {
        assert ([h] + rest)[i] == rest[i - 1];
      }
    }
  }

  /** Inserts `x` before the first element it does not come after. */
  function InsertLex(x: string, t: seq<string>): (r: seq<string>)
    requires SortedLex(t)
    ensures SortedLex(r)
    ensures multiset(r) == multiset(t) + multiset{x}
  {
    if t == [] || LexLe(x, t[0]) then
      assert forall y :: y in t ==> LexLe(x, y) by {
        forall y | y in t ensures LexLe(x, y) {
          var k :| 0 <= k < |t| && t[k] == y;
          if k > 0 { LexLeTransitive(x, t[0], t[k]); }
        }
      }
      ConsSortedLex(x, t);
      [x] + t
    else
      LexLeTotal(x, t[0]);
      var rest := InsertLex(x, t[1..]);
      assert t == [t[0]] + t[1..];
      assert forall y :: y in rest ==> LexLe(t[0], y) by {
        forall y | y in rest ensures LexLe(t[0], y) {
          MemberOfInsertion(y, rest, t[1..], x);
          if y != x {
            var k :| 0 <= k < |t[1..]| && t[1..][k] == y;
            assert t[k + 1] == y;
          }
        }
      }
      ConsSortedLex(t[0], rest);
      [t[0]] + rest
  }

  /** `names.sort()`: the sorted permutation of `names`. */
  function SortLex(s: seq<string>): (r: seq<string>)
    ensures SortedLex(r)
    ensures multiset(r) == multiset(s)
    ensures |r| == |s|
  {
    if s == [] then []
    else
      assert s == [s[0]] + s[1..];
      InsertLex(s[0], SortLex(s[1..]))
  }

  /** Sorting a list that is already in order leaves it as it is. */
  lemma {:induction false} SortLexOfSorted(s: seq<string>)
    requires SortedLex(s)
    ensures SortLex(s) == s
  {
    if s != [] {
      assert SortedLex(s[1..]) by {
        forall i, j | 0 <= i < j < |s[1..]| ensures LexLe(s[1..][i], s[1..][j]) {
          assert s[1..][i] == s[i + 1] && s[1..][j] == s[j + 1];
        }
      }
      SortLexOfSorted(s[1..]);
      assert s == [s[0]] + s[1..];
    }
  }

  ghost predicate SortedByKey<T>(s: seq<T>, key: T -> int) {
    forall i, j :: 0 <= i < j < |s| ==> key(s[i]) <= key(s[j])
  }

  lemma ConsSortedByKey<T>(h: T, rest: seq<T>, key: T -> int)
    requires SortedByKey(rest, key) && forall y :: y in rest ==> key(h) <= key(y)
    ensures SortedByKey([h] + rest, key)
  {
    forall i, j | 0 <= i < j < |[h] + rest| ensures key(([h] + rest)[i]) <= key(([h] + rest)[j]) {
      assert ([h] + rest)[j] == rest[j - 1];
      if i > 0 {
        assert ([h] + rest)[i] == rest[i - 1];
      }
    }
  }

  function InsertByKey<T(==)>(x: T, t: seq<T>, key: T -> int): (r: seq<T>)
    requires SortedByKey(t, key)
    ensures SortedByKey(r, key)
    ensures multiset(r) == multiset(t) + multiset{x}
  {
    if t == [] || key(x) <= key(t[0]) then
      assert forall y :: y in t ==> key(x) <= key(y) by {
        forall y | y in t ensures key(x) <= key(y) {
          var k :| 0 <= k < |t| && t[k] == y;
        }
      }
      ConsSortedByKey(x, t, key);
      [x] + t
    else
      var rest := InsertByKey(x, t[1..], key);
      assert t == [t[0]] + t[1..];
      assert forall y :: y in rest ==> key(t[0]) <= key(y) by {
        forall y | y in rest ensures key(t[0]) <= key(y) {
          MemberOfInsertion(y, rest, t[1..], x);
          if y != x {
            var k :| 0 <= k < |t[1..]| && t[1..][k] == y;
            assert t[k + 1] == y;
          }
        }
      }
      ConsSortedByKey(t[0], rest, key);
      [t[0]] + rest
  }

  /** `s.sort((a, b) => key(a) - key(b))`: a permutation of `s` ordered by `key`. */
  function SortByKey<T(==)>(s: seq<T>, key: T -> int): (r: seq<T>)
    ensures SortedByKey(r, key)
    ensures multiset(r) == multiset(s)
    ensures |r| == |s|
  {
    if s == [] then []
    else
      assert s == [s[0]] + s[1..];
      InsertByKey(s[0], SortByKey(s[1..], key), key)
  }
}
