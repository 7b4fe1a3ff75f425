/**
 * The handful of Rust `str` operations the core relies on, written out over
 * `seq<char>`: `starts_with`, `contains`, `find`, `split`, `splitn(2, ..)`,
 * `trim` (Unicode White_Space), ASCII lowercasing and byte-wise ordering.
 */
module Strings {

  /** `s.starts_with(p)`. */
  predicate StartsWith(s: string, p: string)
  {
    |p| <= |s| && s[..|p|] == p
  }

  /** `s.contains(t)`: `t` occurs in `s` at some offset. */
  predicate Contains(s: string, t: string)
    decreases |s|
  {
    StartsWith(s, t) || (|s| > 0 && Contains(s[1..], t))
  }

  /** Anything a string contains, a longer string built around it also contains. */
  lemma {:induction false} ContainsInfix(a: string, t: string, b: string)
    ensures Contains(a + t + b, t)
    decreases |a|
  {
    if a == [] {
      assert (a + t + b)[..|t|] == t;
    } else {
      assert (a + t + b)[1..] == a[1..] + t + b;
      ContainsInfix(a[1..], t, b);
    }
  }

  /** Index of the first `c` in `s`, or `|s|` when there is none (`find`). */
  function IndexOf(s: string, c: char): (r: nat)
    ensures r <= |s|
    ensures r < |s| ==> s[r] == c
    ensures forall j :: 0 <= j < r ==> s[j] != c
    ensures r == |s| <==> c !in s
  {
    if s == [] then 0
    else if s[0] == c then 0
    else 1 + IndexOf(s[1..], c)
  }

  /** `s.split(c).next()`: the text before the first `c`, or all of `s`. */
  function Before(s: string, c: char): (r: string)
    ensures c !in r
    ensures StartsWith(s, r)
    ensures r == s <==> c !in s
    ensures c in s ==> |r| < |s| && s[|r|] == c
  {
    s[..IndexOf(s, c)]
  }

  /** The text after the first `c` (the second piece of `splitn(2, c)`). */
  function After(s: string, c: char): (r: string)
    requires c in s
    ensures s == Before(s, c) + [c] + r
  {
    s[IndexOf(s, c) + 1..]
  }

  /** `Before` of a string put together around its first separator. */
  lemma {:induction false} BeforeJoin(a: string, c: char, b: string)
    requires c !in a
    ensures c in a + [c] + b
    ensures Before(a + [c] + b, c) == a
    ensures After(a + [c] + b, c) == b
  {
    var s := a + [c] + b;
    assert s[|a|] == c;
    assert forall j :: 0 <= j < |a| ==> s[j] == a[j];
    assert IndexOf(s, c) == |a|;
    assert s[..|a|] == a;
  }

  /** `s.split(c)`: all pieces between separators, at least one. */
  function Split(s: string, c: char): (r: seq<string>)
    ensures |r| >= 1
    ensures r[0] == Before(s, c)
    ensures forall i :: 0 <= i < |r| ==> c !in r[i]
    ensures c !in s <==> |r| == 1
    decreases |s|
  {
    if c !in s then [s]
    else [Before(s, c)] + Split(After(s, c), c)
  }

  /** Joining split pieces with the separator gives back the string. */
  function Join(parts: seq<string>, c: char): string
    requires |parts| >= 1
  {
    if |parts| == 1 then parts[0] else parts[0] + [c] + Join(parts[1..], c)
  }

  lemma {:induction false} JoinSplit(s: string, c: char)
    ensures Join(Split(s, c), c) == s
    decreases |s|
  {
    if c in s {
      JoinSplit(After(s, c), c);
    }
  }

  /** Splitting a `c`-free string after a prefix and a `c` yields that prefix first. */
  lemma SplitJoin(a: string, c: char, b: string)
    requires c !in a
    ensures Split(a + [c] + b, c) == [a] + Split(b, c)
  {
    BeforeJoin(a, c, b);
  }

  /** `splitn(2, c)`: one piece when `c` is absent, else the text before and after the first `c`. */
  function SplitN2(s: string, c: char): (r: seq<string>)
    ensures 1 <= |r| <= 2
    ensures |r| == 2 <==> c in s
    ensures r[0] == Before(s, c)
    ensures |r| == 2 ==> s == r[0] + [c] + r[1]
    ensures |r| == 1 ==> r[0] == s
  {
    if c in s then [Before(s, c), After(s, c)] else [s]
  }

  /** The Unicode White_Space property, which `str::trim` and the regex class `\s` use. */
  predicate IsWhitespace(ch: char)
  {
    InRanges(ch as int, WhiteSpaceRanges, 0)
  }

  /** The code-point ranges, inclusive, of the White_Space property. */
  const WhiteSpaceRanges: seq<(int, int)> := [
    (0x09, 0x0D), (0x20, 0x20), (0x85, 0x85), (0xA0, 0xA0), (0x1680, 0x1680),
    (0x2000, 0x200A), (0x2028, 0x2029), (0x202F, 0x202F), (0x205F, 0x205F), (0x3000, 0x3000)]

  /** `n` lies in one of `ranges[i..]`. */
  predicate InRanges(n: int, ranges: seq<(int, int)>, i: nat)
    decreases |ranges| - i
  {
    i < |ranges| && ((ranges[i].0 <= n <= ranges[i].1) || InRanges(n, ranges, i + 1))
  }

  lemma {:induction false} InRangesBound(n: int, ranges: seq<(int, int)>, i: nat, lo: int, hi: int)
    requires forall k :: i <= k < |ranges| ==> ranges[k].1 < lo || hi < ranges[k].0
    requires lo <= n <= hi
    ensures !InRanges(n, ranges, i)
    decreases |ranges| - i
  {
    if i < |ranges| {
      InRangesBound(n, ranges, i + 1, lo, hi);
    }
  }

  /** No printable ASCII character other than the space is white space. */
  lemma PrintableNotWhitespace(ch: char)
    requires 0x21 <= ch as int <= 0x7E
    ensures !IsWhitespace(ch)
  {
    InRangesBound(ch as int, WhiteSpaceRanges, 0, 0x21, 0x7E);
  }

  /** `trim_start`: drops leading white space. */
  function TrimStart(s: string): (r: string)
    ensures |r| <= |s| && r == s[|s| - |r|..]
    ensures r != [] ==> !IsWhitespace(r[0])
    ensures forall j :: 0 <= j < |s| - |r| ==> IsWhitespace(s[j])
  {
    if s != [] && IsWhitespace(s[0]) then TrimStart(s[1..]) else s
  }

  /** `trim_end`: drops trailing white space. */
  function TrimEnd(s: string): (r: string)
    ensures |r| <= |s| && r == s[..|r|]
    ensures r != [] ==> !IsWhitespace(r[|r| - 1])
    ensures forall j :: |r| <= j < |s| ==> IsWhitespace(s[j])
  {
    if s != [] && IsWhitespace(s[|s| - 1]) then TrimEnd(s[..|s| - 1]) else s
  }

  /** `str::trim`. */
  function Trim(s: string): string
  {
    TrimEnd(TrimStart(s))
  }

  /** A string without white space at either end is its own trimmed form. */
  lemma TrimNoop(s: string)
    requires s == [] || (!IsWhitespace(s[0]) && !IsWhitespace(s[|s| - 1]))
    ensures Trim(s) == s
  {
  }

  /** Lowercasing of one character; only ASCII letters are folded. */
  function LowerChar(ch: char): (r: char)
    ensures 'A' <= ch <= 'Z' ==> 'a' <= r <= 'z'
    ensures !('A' <= ch <= 'Z') ==> r == ch
  {
    if 'A' <= ch <= 'Z' then (ch as int + 32) as char else ch
  }

  /** `to_lowercase`, restricted to ASCII folding. */
  function ToLower(s: string): (r: string)
    ensures |r| == |s|
    ensures forall i :: 0 <= i < |s| ==> r[i] == LowerChar(s[i])
  {
    seq(|s|, i requires 0 <= i < |s| => LowerChar(s[i]))
  }

  lemma ToLowerIdempotent(s: string)
    ensures ToLower(ToLower(s)) == ToLower(s)
  {
  }

  /** Strict lexicographic order on code points, which is also UTF-8 byte order. */
  predicate Less(a: string, b: string)
    decreases |a|
  {
    if a == [] then b != []
    else if b == [] then false
    else a[0] < b[0] || (a[0] == b[0] && Less(a[1..], b[1..]))
  }

  /** Strings that agree up to `k` and differ at `k` are ordered by that character. */
  lemma {:induction false} LessAt(a: string, b: string, k: nat)
    requires k < |a| && k < |b| && a[..k] == b[..k] && a[k] < b[k]
    ensures Less(a, b)
    decreases k
  {
    if k > 0 {
      assert a[0] == a[..k][0] == b[..k][0] == b[0];
      assert a[1..][..k - 1] == a[..k][1..] == b[..k][1..] == b[1..][..k - 1];
      LessAt(a[1..], b[1..], k - 1);
    }
  }

  lemma {:induction false} LessIrreflexive(a: string)
    ensures !Less(a, a)
    decreases |a|
  {
    if a != [] {
      LessIrreflexive(a[1..]);
    }
  }

  lemma {:induction false} LessTransitive(a: string, b: string, c: string)
    requires Less(a, b) && Less(b, c)
    ensures Less(a, c)
    decreases |a|
  {
    if a != [] && b != [] && c != [] && a[0] == b[0] == c[0] {
      LessTransitive(a[1..], b[1..], c[1..]);
    }
  }

  lemma {:induction false} LessTotal(a: string, b: string)
    requires a != b
    ensures Less(a, b) || Less(b, a)
    decreases |a|
  {
    if a != [] && b != [] && a[0] == b[0] {
      assert a[1..] != b[1..];
      LessTotal(a[1..], b[1..]);
    }
  }

  lemma {:induction false} LessAsymmetric(a: string, b: string)
    requires Less(a, b)
    ensures !Less(b, a)
  {
    if Less(b, a) {
      LessTransitive(a, b, a);
      LessIrreflexive(a);
    }
  }
}
