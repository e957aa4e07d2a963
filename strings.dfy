/**
 * The handful of Python `str` operations the résumé code relies on, on
 * `string` (a sequence of Unicode scalar values): `isspace`, `strip`,
 * `startswith`, the `in` substring test, `sep.join(parts)`, `s.split(c)` for
 * a one-character separator, and `str(n)` for a non-negative integer.
 */
module Strings {

  /** Python's `str.isspace` on one character: the code points `str.strip()` removes. */
  predicate IsSpace(c: char) {
    var n := c as int;
    (0x09 <= n <= 0x0D) || (0x1C <= n <= 0x20) || n == 0x85 || n == 0xA0 || n == 0x1680
    || (0x2000 <= n <= 0x200A) || n == 0x2028 || n == 0x2029 || n == 0x202F || n == 0x205F
    || n == 0x3000
  }

  /** Every character is whitespace (the empty string included). */
  predicate IsBlank(s: string) {
    forall i :: 0 <= i < |s| ==> IsSpace(s[i])
  }

  /** Python's `s.lstrip()`: the suffix left after dropping leading whitespace. */
  function LStrip(s: string): (r: string)
    ensures |r| <= |s| && r == s[|s| - |r|..]
    ensures forall i :: 0 <= i < |s| - |r| ==> IsSpace(s[i])
    ensures r == [] || !IsSpace(r[0])
    decreases |s|
  {
    if |s| > 0 && IsSpace(s[0]) then LStrip(s[1..]) else s
  }

  /** Python's `s.rstrip()`: the prefix left after dropping trailing whitespace. */
  function RStrip(s: string): (r: string)
    ensures |r| <= |s| && r == s[..|r|]
    ensures forall i :: |r| <= i < |s| ==> IsSpace(s[i])
    ensures r == [] || !IsSpace(r[|r| - 1])
    decreases |s|
  {
    if |s| > 0 && IsSpace(s[|s| - 1]) then RStrip(s[..|s| - 1]) else s
  }

  /**
   * Python's `s.strip()`: both ends are non-blank, and only a blank string
   * strips to nothing.
   */
  function Strip(s: string): (r: string)
    ensures r != [] ==> !IsSpace(r[0]) && !IsSpace(r[|r| - 1])
    ensures r == [] <==> IsBlank(s)
  {
    StripEmptyIffBlank(s);
    RStrip(LStrip(s))
  }

  lemma StripEmptyIffBlank(s: string)
    ensures RStrip(LStrip(s)) == [] <==> IsBlank(s)
  {
    var l := LStrip(s);
    if RStrip(l) == [] {
      assert l == [];
      assert s[..|s| - |l|] == s;
    }
  }

  /** What `strip` keeps is a substring of `s` with only whitespace around it. */
  lemma StripIsTrimmedSubstring(s: string)
    ensures exists i :: 0 <= i <= |s| - |Strip(s)| && s[i..i + |Strip(s)|] == Strip(s)
                        && IsBlank(s[..i]) && IsBlank(s[i + |Strip(s)|..])
  {
    var l := LStrip(s);
    var r := RStrip(l);
    var i := |s| - |l|;
    LStripDropsBlank(s);
    RStripDropsBlank(l);
    assert s[i..i + |r|] == l[..|r|];
    assert s[i + |r|..] == l[|r|..];
    assert 0 <= i <= |s| - |r| && s[i..i + |r|] == r && IsBlank(s[..i]) && IsBlank(s[i + |r|..]);
  }

  /** `lstrip` removes a blank prefix. */
  lemma LStripDropsBlank(s: string)
    ensures IsBlank(s[..|s| - |LStrip(s)|])
  {
    var pre := s[..|s| - |LStrip(s)|];
    forall k | 0 <= k < |pre| ensures IsSpace(pre[k]) {
      assert pre[k] == s[k];
    }
  }

  /** `rstrip` removes a blank suffix. */
  lemma RStripDropsBlank(s: string)
    ensures IsBlank(s[|RStrip(s)|..])
  {
    var tail := s[|RStrip(s)|..];
    forall k | 0 <= k < |tail| ensures IsSpace(tail[k]) {
      assert tail[k] == s[|RStrip(s)| + k];
    }
  }

  /** Python's `s.startswith(prefix)`. */
  predicate StartsWith(s: string, prefix: string) {
    |prefix| <= |s| && s[..|prefix|] == prefix
  }

  /** Python's `t in s` for two strings. */
  predicate Contains(s: string, t: string) {
    exists i :: 0 <= i <= |s| - |t| && OccursAt(s, t, i)
  }

  /** `t` stands in `s` at position `i`. */
  predicate OccursAt(s: string, t: string, i: int) {
    0 <= i <= |s| - |t| && s[i..i + |t|] == t
  }

  /** Python's `sep.join(parts)`. */
  function Join(sep: string, parts: seq<string>): (r: string)
    ensures |parts| > 0 ==> StartsWith(r, parts[0])
    decreases |parts|
  {
    if |parts| == 0 then ""
    else if |parts| == 1 then parts[0]
    else parts[0] + sep + Join(sep, parts[1..])
  }

  /** The first position of `c` in `s`. */
  function FirstIndex(s: string, c: char): (i: nat)
    requires c in s
    ensures i < |s| && s[i] == c && c !in s[..i]
  {
    if s[0] == c then 0 else 1 + FirstIndex(s[1..], c)
  }

  /**
   * Python's `s.split(c)` for a one-character separator: never empty, no
   * piece holds the separator, and joining the pieces gives `s` back.
   */
  function Split(s: string, c: char): (parts: seq<string>)
    ensures |parts| >= 1
    ensures forall k :: 0 <= k < |parts| ==> c !in parts[k]
    ensures Join([c], parts) == s
    decreases |s|
  {
    if c !in s then [s]
    else
      var i := FirstIndex(s, c);
      var rest := Split(s[i + 1..], c);
      assert ([s[..i]] + rest)[1..] == rest;
      assert s == s[..i] + [c] + s[i + 1..];
      [s[..i]] + rest
  }

  /** A decimal digit as a character. */
  function DigitChar(d: nat): (c: char)
    requires d < 10
    ensures '0' <= c <= '9' && c as int - '0' as int == d
  {
    ('0' as int + d) as char
  }

  /** Python's `str(n)` for `n >= 0`: decimal digits, no leading zero. */
  function NatToString(n: nat): (r: string)
    ensures |r| >= 1
    ensures forall i :: 0 <= i < |r| ==> '0' <= r[i] <= '9'
    ensures r[0] == '0' ==> n == 0
    ensures DecimalValue(r) == n
    decreases n
  {
    if n < 10 then [DigitChar(n)]
    else
      var front := NatToString(n / 10);
      var r := front + [DigitChar(n % 10)];
      assert r[..|r| - 1] == front;
      r
  }

  /**
   * `digits` is the numeral `str(n)` writes: decimal digits, at least one,
   * no leading zero unless the numeral is `0`, denoting `n`.
   */
  predicate IsNumeralOf(digits: string, n: nat) {
    && |digits| > 0
    && (forall i :: 0 <= i < |digits| ==> '0' <= digits[i] <= '9')
    && (digits[0] == '0' ==> |digits| == 1)
    && DecimalValue(digits) == n
  }

  /** The number a string of decimal digits denotes. */
  function DecimalValue(s: string): nat
    requires forall i :: 0 <= i < |s| ==> '0' <= s[i] <= '9'
    decreases |s|
  {
    if s == [] then 0 else 10 * DecimalValue(s[..|s| - 1]) + (s[|s| - 1] as int - '0' as int)
  }

  // ---------------------------------------------------------------------------
  // Lemmas

  /** Joining two non-empty lists is joining each and gluing with one separator. */
  lemma {:induction false} JoinAppend(sep: string, a: seq<string>, b: seq<string>)
    requires |a| > 0 && |b| > 0
    ensures Join(sep, a + b) == Join(sep, a) + sep + Join(sep, b)
    decreases |a|
  {
    if |a| == 1 {
      assert (a + b)[1..] == b;
    } else {
      assert (a + b)[1..] == a[1..] + b;
      JoinAppend(sep, a[1..], b);
    }
  }

  /** Splitting at the first separator. */
  lemma SplitAtFirst(a: string, c: char, b: string)
    requires c !in a
    ensures Split(a + [c] + b, c) == [a] + Split(b, c)
  {
    var s := a + [c] + b;
    assert s[|a|] == c;
    var i := FirstIndex(s, c);
    assert s[..i] == a;
    assert s[i + 1..] == b;
  }

  /** Splitting a join of separator-free pieces gives the pieces back. */
  lemma {:induction false} SplitOfJoin(parts: seq<string>, c: char)
    requires |parts| >= 1
    requires forall k :: 0 <= k < |parts| ==> c !in parts[k]
    ensures Split(Join([c], parts), c) == parts
    decreases |parts|
  {
    if |parts| > 1 {
      var rest := parts[1..];
      SplitAtFirst(parts[0], c, Join([c], rest));
      SplitOfJoin(rest, c);
    }
  }

  /** Every string contains itself. */
  lemma ContainsSelf(s: string)
    ensures Contains(s, s)
  {
    assert OccursAt(s, s, 0);
  }

  /** Stripping trailing whitespace never reaches past a non-blank tail. */
  lemma RStripAppend(a: string, b: string)
    requires !IsBlank(b)
    ensures RStrip(a + b) == a + RStrip(b)
    decreases |b|
  {
    if |b| > 0 && IsSpace(b[|b| - 1]) {
      assert (a + b)[..|a + b| - 1] == a + b[..|b| - 1];
      assert !IsBlank(b[..|b| - 1]) by {
        var k :| 0 <= k < |b| && !IsSpace(b[k]);
        assert b[..|b| - 1][k] == b[k];
      }
      RStripAppend(a, b[..|b| - 1]);
    }
  }

  /** A join holds a character only if the separator or some piece does. */
  lemma {:induction false} JoinAvoids(sep: string, parts: seq<string>, c: char)
    requires c !in sep
    requires forall k :: 0 <= k < |parts| ==> c !in parts[k]
    ensures c !in Join(sep, parts)
    decreases |parts|
  {
    if |parts| > 1 {
      JoinAvoids(sep, parts[1..], c);
    }
  }

  /** One step of unfolding a join, at any offset. */
  lemma JoinDrop(sep: string, parts: seq<string>, k: nat)
    requires k + 1 < |parts|
    ensures Join(sep, parts[k..]) == parts[k] + sep + Join(sep, parts[k + 1..])
  {
    assert parts[k..][1..] == parts[k + 1..];
  }

  /** Putting text in front of a join puts it in front of the first piece. */
  lemma PrefixJoin(sep: string, pad: string, parts: seq<string>)
    requires |parts| > 0
    ensures pad + Join(sep, parts) == Join(sep, [pad + parts[0]] + parts[1..])
  {
    assert ([pad + parts[0]] + parts[1..])[1..] == parts[1..];
  }

  /** Joining five non-empty lists in a row. */
  lemma JoinFive(sep: string, a: seq<string>, b: seq<string>, c: seq<string>, d: seq<string>, e: seq<string>)
    requires |a| > 0 && |b| > 0 && |c| > 0 && |d| > 0 && |e| > 0
    ensures Join(sep, a + b + c + d + e)
         == Join(sep, a) + sep + Join(sep, b) + sep + Join(sep, c) + sep + Join(sep, d) + sep + Join(sep, e)
  {
    JoinAppend(sep, a, b);
    JoinAppend(sep, a + b, c);
    JoinAppend(sep, a + b + c, d);
    JoinAppend(sep, a + b + c + d, e);
  }

  /**
   * Stripping a text that starts and ends with an empty line and has a
   * non-blank last line: the two empty lines go, the leading text is kept,
   * and only the last line loses its trailing whitespace.
   */
  lemma TrimmedJoin(r: seq<string>)
    requires |r| >= 4 && r[0] == "" && r[|r| - 1] == ""
    requires |r[1]| > 0 && !IsSpace(r[1][0])
    requires !IsBlank(r[|r| - 2])
    ensures Strip(Join("\n", r)) == Join("\n", r[1..|r| - 2] + [RStrip(r[|r| - 2])])
  {
    var front, last := r[1..|r| - 2], r[|r| - 2];
    var mid := front + [last];
    assert r == [""] + mid + [""];
    JoinAppend("\n", [""] + mid, [""]);
    JoinAppend("\n", [""], mid);
    var x := Join("\n", mid);
    assert Join("\n", r) == "\n" + x + "\n";
    assert x[0] == r[1][0];
    LStripThroughSpace(x);
    var y := x + "\n";
    assert y[..|y| - 1] == x;
    assert RStrip(y) == RStrip(x);
    JoinAppend("\n", front, [last]);
    RStripAppend(Join("\n", front) + "\n", last);
    JoinAppend("\n", front, [RStrip(last)]);
  }

  /** Stripping one leading newline before a non-blank start. */
  lemma LStripThroughSpace(x: string)
    requires |x| > 0 && !IsSpace(x[0])
    ensures LStrip("\n" + x + "\n") == x + "\n"
  {
    var y := x + "\n";
    assert "\n" + x + "\n" == ['\n'] + y;
    LStripOneSpace('\n', y);
  }

  /** One leading whitespace character before a non-blank start. */
  lemma LStripOneSpace(c: char, y: string)
    requires IsSpace(c) && |y| > 0 && !IsSpace(y[0])
    ensures LStrip([c] + y) == y
  {
    assert ([c] + y)[1..] == y;
  }
}
