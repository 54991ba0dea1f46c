/**
 * Python's string built-ins as the modelled code uses them: `sub in s`,
 * `s.split(sep)`, `sep.join(parts)`, `str(n)` for integers, `s.lower()` on
 * ASCII letters and `s.replace(c, d)` for single characters.
 */
module Strings {
  import opened Py

  /** `sub` occurs in `s` starting at index `i`. */
  predicate OccursAt(s: string, sub: string, i: nat)
  {
    i + |sub| <= |s| && s[i..i + |sub|] == sub
  }

  lemma OccursAtShift(s: string, sub: string, k: nat)
    requires |s| > 0
    ensures OccursAt(s, sub, k + 1) <==> OccursAt(s[1..], sub, k)
  {
    if k + 1 + |sub| <= |s| {
      assert s[k + 1..k + 1 + |sub|] == s[1..][k..k + |sub|];
    }
  }

  /** The leftmost index at which `sub` occurs in `s` (Python's `s.find(sub)`, None for -1). */
  function Find(s: string, sub: string): (r: Option<nat>)
    ensures r.Some? ==> OccursAt(s, sub, r.value)
    ensures r.Some? ==> forall j: nat :: j < r.value ==> !OccursAt(s, sub, j)
    ensures r.None? ==> forall j: nat :: !OccursAt(s, sub, j)
    decreases |s|
  {
    if |s| < |sub| then None
    else if s[..|sub|] == sub then Some(0)
    else
      var rest := Find(s[1..], sub);
      assert !OccursAt(s, sub, 0) by {
        assert s[0..|sub|] == s[..|sub|];
      }
      forall j: nat | 0 < j ensures OccursAt(s, sub, j) <==> OccursAt(s[1..], sub, j - 1) {
        OccursAtShift(s, sub, j - 1);
      }
      match rest
      case None => None
      case Some(k) => Some(k + 1)
  }

  /** Python's `sub in s` for strings: `sub` is a substring of `s`. */
  function Contains(s: string, sub: string): (b: bool)
    ensures b <==> exists i: nat :: OccursAt(s, sub, i)
  {
    Find(s, sub).Some?
  }

  /** Python's `sep.join(parts)`. */
  function Join(parts: seq<string>, sep: string): string
  {
    if |parts| == 0 then ""
    else if |parts| == 1 then parts[0]
    else parts[0] + sep + Join(parts[1..], sep)
  }

  lemma OccursInPrefix(s: string, sub: string, i: nat, j: nat)
    requires i <= |s|
    ensures OccursAt(s[..i], sub, j) ==> OccursAt(s, sub, j)
  {
    if j + |sub| <= i {
      assert s[..i][j..j + |sub|] == s[j..j + |sub|];
    }
  }

  lemma OccursInSuffix(s: string, sub: string, i: nat, j: nat)
    requires i <= |s| && OccursAt(s[i..], sub, j)
    ensures OccursAt(s, sub, i + j)
  {
    assert s[i..][j..j + |sub|] == s[i + j..i + j + |sub|];
  }

  /**
   * Python's `s.split(sep)` for a non-empty separator: the pieces between
   * the non-overlapping occurrences of `sep`, found from the left. Joining
   * the pieces with `sep` gives back `s`, and no piece contains `sep`.
   */
  function Split(s: string, sep: string): (r: seq<string>)
    requires sep != ""
    ensures |r| >= 1
    ensures Join(r, sep) == s
    ensures forall k :: 0 <= k < |r| ==> !Contains(r[k], sep)
    decreases |s|
  {
    match Find(s, sep)
    case None => [s]
    case Some(i) =>
      var head, rest := s[..i], Split(s[i + |sep|..], sep);
      assert !Contains(head, sep) by {
        forall j: nat ensures OccursAt(head, sep, j) ==> OccursAt(s, sep, j) {
          OccursInPrefix(s, sep, i, j);
        }
      }
      assert s == head + sep + s[i + |sep|..];
      [head] + rest
  }

  lemma SplitEmpty(s: string, sep: string)
    requires sep != ""
    ensures Split(s, sep) == [""] <==> s == ""
  {
    if s == "" {
      assert !OccursAt(s, sep, 0);
    }
  }

  /** A separator none of whose proper prefixes is also a suffix of it. */
  predicate Unbordered(sep: string)
  {
    forall m :: 0 < m < |sep| ==> sep[..m] != sep[|sep| - m..]
  }

  /**
   * Splitting `head + sep + rest` where `head` does not contain an
   * unbordered `sep` yields `head` first and then the pieces of `rest`.
   */
  lemma SplitCons(head: string, sep: string, rest: string)
    requires sep != "" && Unbordered(sep) && !Contains(head, sep)
    ensures Split(head + sep + rest, sep) == [head] + Split(rest, sep)
  {
    var s := head + sep + rest;
    assert OccursAt(s, sep, |head|) by {
      assert s[|head|..|head| + |sep|] == sep;
    }
    forall j: nat | j < |head| ensures !OccursAt(s, sep, j) {
      if j + |sep| <= |head| {
        assert !OccursAt(head, sep, j);
        assert head[j..j + |sep|] == s[j..j + |sep|];
      } else {
        StraddleFails(head, sep, rest, j);
      }
    }
    assert Find(s, sep) == Some(|head|);
    assert s[|head| + |sep|..] == rest;
  }

  /** An unbordered separator cannot occur across the end of the text before it. */
  lemma StraddleFails(head: string, sep: string, rest: string, j: nat)
    requires Unbordered(sep)
    ensures j < |head| < j + |sep| ==> !OccursAt(head + sep + rest, sep, j)
  {
    if j < |head| < j + |sep| {
      var s := head + sep + rest;
      var m := j + |sep| - |head|;
      assert sep[..m] != sep[|sep| - m..];
      assert exists k :: 0 <= k < m && sep[..m][k] != sep[|sep| - m..][k];
      var k :| 0 <= k < m && sep[..m][k] != sep[|sep| - m..][k];
      assert s[|head| + k] == sep[k];
      assert j + (|sep| - m + k) == |head| + k;
      if j + |sep| <= |s| {
        assert s[j..j + |sep|][|sep| - m + k] == s[|head| + k];
      }
    }
  }

  /**
   * The round trip of `split` and `join`: splitting the join of pieces
   * that do not contain an unbordered separator gives back the pieces.
   */
  lemma {:induction false} SplitJoin(parts: seq<string>, sep: string)
    requires sep != "" && Unbordered(sep) && |parts| >= 1
    requires forall k :: 0 <= k < |parts| ==> !Contains(parts[k], sep)
    ensures Split(Join(parts, sep), sep) == parts
    decreases |parts|
  {
    if |parts| == 1 {
      assert Find(parts[0], sep).None?;
    } else {
      SplitJoin(parts[1..], sep);
      SplitCons(parts[0], sep, Join(parts[1..], sep));
    }
  }

  /** The position of the first occurrence of `x` in `s`. */
  function FirstIndex(s: seq<string>, x: string): (i: nat)
    requires x in s
    ensures i < |s| && s[i] == x && x !in s[..i]
  {
    if s[0] == x then 0
    else
      var k := FirstIndex(s[1..], x);
      assert s[1..][..k] == s[1..k + 1];
      k + 1
  }

  lemma FirstIndexUnique(s: seq<string>, x: string, i: nat)
    requires i < |s| && s[i] == x && x !in s[..i]
    ensures FirstIndex(s, x) == i
  {
    var k := FirstIndex(s, x);
    assert forall m :: 0 <= m < i ==> s[..i][m] == s[m];
    assert forall m :: 0 <= m < k ==> s[..k][m] == s[m];
  }

  /** An element before the last position is first found where it is first found in the prefix. */
  lemma FirstIndexOfInit(s: seq<string>, x: string)
    requires |s| > 0 && x in s[..|s| - 1]
    ensures FirstIndex(s, x) == FirstIndex(s[..|s| - 1], x)
  {
    var init := s[..|s| - 1];
    var k := FirstIndex(init, x);
    assert s[..k] == init[..k];
    FirstIndexUnique(s, x, k);
  }

  /**
   * The keys of the dictionary `{k: ... for k in s}`: every element of `s`
   * once, in the order of its first occurrence.
   */
  function Distinct(s: seq<string>): (r: seq<string>)
    ensures forall x :: x in r <==> x in s
    ensures NoDuplicates(r)
    ensures forall i, j :: 0 <= i < j < |r| ==> FirstIndex(s, r[i]) < FirstIndex(s, r[j])
  {
    if s == [] then []
    else
      var init, last := s[..|s| - 1], s[|s| - 1];
      var d := Distinct(init);
      forall x | x in init ensures FirstIndex(s, x) == FirstIndex(init, x) {
        FirstIndexOfInit(s, x);
      }
      assert s == init + [last];
      if last in d then d
      else
        assert s[..|s| - 1] == init;
        FirstIndexUnique(s, last, |s| - 1);
        d + [last]
  }

  /** A decimal digit character for `d < 10`. */
  function Digit(d: nat): char
    requires d < 10
  {
    "0123456789"[d]
  }

  predicate IsDigit(c: char)
  {
    '0' <= c <= '9'
  }

  /** The value of a string of decimal digits. */
  function DecimalValue(s: string): int
    requires forall k :: 0 <= k < |s| ==> IsDigit(s[k])
  {
    if s == [] then 0
    else DecimalValue(s[..|s| - 1]) * 10 + (s[|s| - 1] as int - '0' as int)
  }

  /** Python's `str(n)` for a non-negative integer: its decimal digits. */
  function NatToString(n: nat): (r: string)
    ensures |r| >= 1
    ensures forall k :: 0 <= k < |r| ==> IsDigit(r[k])
    ensures DecimalValue(r) == n
  {
    if n < 10 then [Digit(n)]
    else
      var r := NatToString(n / 10) + [Digit(n % 10)];
      assert r[..|r| - 1] == NatToString(n / 10);
      r
  }

  /** Python's `str(i)` for an integer, with a leading `-` when negative. */
  function IntToString(i: int): (r: string)
    ensures |r| >= 1 && '_' !in r
    ensures r[0] == '-' <==> i < 0
  {
    if i < 0 then "-" + NatToString(-i) else NatToString(i)
  }

  /** Different integers print differently. */
  lemma IntToStringInjective(a: int, b: int)
    requires IntToString(a) == IntToString(b)
    ensures a == b
  {
    if a < 0 {
      assert NatToString(-a) == IntToString(a)[1..];
      assert NatToString(-b) == IntToString(b)[1..];
    }
  }

  /** Python's `s.replace(from, to)` for single characters. */
  function ReplaceChar(s: string, from: char, to: char): (r: string)
    ensures |r| == |s|
    ensures forall k :: 0 <= k < |s| ==> r[k] == if s[k] == from then to else s[k]
  {
    if s == [] then [] else [if s[0] == from then to else s[0]] + ReplaceChar(s[1..], from, to)
  }

  /** Python's `s.lower()` restricted to ASCII: `A`-`Z` become `a`-`z`. */
  function Lower(s: string): (r: string)
    ensures |r| == |s|
    ensures forall k :: 0 <= k < |s| ==> r[k] == if 'A' <= s[k] <= 'Z' then (s[k] as int + 32) as char else s[k]
  {
    if s == [] then []
    else [if 'A' <= s[0] <= 'Z' then (s[0] as int + 32) as char else s[0]] + Lower(s[1..])
  }

  predicate StartsWith(s: string, prefix: string)
  {
    |prefix| <= |s| && s[..|prefix|] == prefix
  }
}
