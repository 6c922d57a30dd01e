/**
 * The handful of Python `str` operations the collector relies on, written out
 * for the exact cases it uses: `in`, `startswith`, `strip`, `splitlines`,
 * `split` on one character, `rfind`, `"sep".join`, and decimal conversion.
 */
module Text {

  import opened Wrappers

  /** Python's `str.isspace`: the characters `strip()` removes. */
  predicate IsSpace(c: char) {
    var n := c as int;
    n == 0x20 || 0x09 <= n <= 0x0d || 0x1c <= n <= 0x1f || n == 0x85 || n == 0xa0 ||
    n == 0x1680 || 0x2000 <= n <= 0x200a || n == 0x2028 || n == 0x2029 ||
    n == 0x202f || n == 0x205f || n == 0x3000
  }

  /** A line boundary of Python's `str.splitlines` (`\r\n` counts once). */
  predicate IsLineBreak(c: char) {
    var n := c as int;
    0x0a <= n <= 0x0d || 0x1c <= n <= 0x1e || n == 0x85 || n == 0x2028 || n == 0x2029
  }

  predicate NoLineBreak(s: string) {
    forall i :: 0 <= i < |s| ==> !IsLineBreak(s[i])
  }

  /** ASCII digits only; Unicode digits are not modelled. */
  predicate IsDigit(c: char) {
    '0' <= c <= '9'
  }

  predicate StartsWith(s: string, p: string) {
    |p| <= |s| && s[..|p|] == p
  }

  /** Python's `p in s`. */
  predicate Contains(s: string, p: string)
    decreases |s|
  {
    StartsWith(s, p) || (|s| > 0 && Contains(s[1..], p))
  }

  /** Neither end of `s` is whitespace: `s.strip() == s`. */
  predicate Trimmed(s: string) {
    s == [] || (!IsSpace(s[0]) && !IsSpace(s[|s| - 1]))
  }

  function LStrip(s: string): (r: string)
    ensures |r| <= |s|
    ensures r == [] || !IsSpace(r[0])
  {
    if s != [] && IsSpace(s[0]) then LStrip(s[1..]) else s
  }

  function RStrip(s: string): (r: string)
    ensures |r| <= |s|
    ensures r == [] || !IsSpace(r[|r| - 1])
  {
    if s != [] && IsSpace(s[|s| - 1]) then RStrip(s[..|s| - 1]) else s
  }

  /** `lstrip` removes a prefix: what is left is a suffix of `s`. */
  lemma {:induction false} LStripSuffix(s: string)
    ensures LStrip(s) == s[|s| - |LStrip(s)|..]
    decreases |s|
  {
    if s != [] && IsSpace(s[0]) {
      LStripSuffix(s[1..]);
    }
  }

  /** `rstrip` removes a suffix: what is left is a prefix of `s`. */
  lemma {:induction false} RStripPrefix(s: string)
    ensures RStrip(s) == s[..|RStrip(s)|]
    decreases |s|
  {
    if s != [] && IsSpace(s[|s| - 1]) {
      RStripPrefix(s[..|s| - 1]);
    }
  }

  /** `strip` keeps a contiguous slice of `s`. */
  lemma StripSlice(s: string)
    ensures var off := |s| - |LStrip(s)|; off + |Strip(s)| <= |s| && Strip(s) == s[off..off + |Strip(s)|]
  {
    LStripSuffix(s);
    RStripPrefix(LStrip(s));
  }

  /** Python's `str.strip()`. */
  function Strip(s: string): (r: string)
    ensures Trimmed(r)
    ensures Trimmed(s) ==> r == s
  {
    RStripPrefix(LStrip(s));
    RStrip(LStrip(s))
  }

  /** Index of the first `c` in `s`, or `|s|` when there is none. */
  function IndexOf(s: string, c: char): (k: nat)
    ensures k <= |s| && (k < |s| ==> s[k] == c)
    ensures forall i :: 0 <= i < k ==> s[i] != c
  {
    if s == [] || s[0] == c then 0 else 1 + IndexOf(s[1..], c)
  }

  /** Python's `s.rfind(c)`, with `None` for -1. */
  function LastIndexOf(s: string, c: char): (r: Option<nat>)
    ensures r.Some? ==> r.value < |s| && s[r.value] == c
    ensures r.Some? ==> forall i :: r.value < i < |s| ==> s[i] != c
    ensures r.None? <==> c !in s
  {
    if s == [] then None
    else if s[|s| - 1] == c then Some(|s| - 1)
    else LastIndexOf(s[..|s| - 1], c)
  }

  /** Python's `sep.join(parts)`. */
  function Join(parts: seq<string>, sep: string): string {
    if parts == [] then ""
    else if |parts| == 1 then parts[0]
    else parts[0] + sep + Join(parts[1..], sep)
  }

  /** Python's `s.split(c)` for a one-character separator. */
  function Split(s: string, c: char): (parts: seq<string>)
    ensures |parts| >= 1
    ensures forall i :: 0 <= i < |parts| ==> c !in parts[i]
    ensures Join(parts, [c]) == s
    ensures c in s <==> |parts| >= 2
    decreases |s|
  {
    var k := IndexOf(s, c);
    if k == |s| then
      assert c !in s;
      [s]
    else
      var rest := Split(s[k + 1..], c);
      assert s == s[..k] + [c] + s[k + 1..];
      [s[..k]] + rest
  }

  /** Index of the first line boundary in `s`, or `|s|`. */
  function FirstBreak(s: string): (k: nat)
    ensures k <= |s| && (k < |s| ==> IsLineBreak(s[k]))
    ensures forall i :: 0 <= i < k ==> !IsLineBreak(s[i])
  {
    if s == [] || IsLineBreak(s[0]) then 0 else 1 + FirstBreak(s[1..])
  }

  /** Python's `str.splitlines()`: no empty line after a final boundary. */
  function SplitLines(s: string): (lines: seq<string>)
    ensures forall i :: 0 <= i < |lines| ==> NoLineBreak(lines[i])
    ensures s == [] <==> lines == []
    decreases |s|
  {
    if s == [] then []
    else
      var k := FirstBreak(s);
      if k == |s| then [s]
      else
        var width := if s[k] == '\r' && k + 1 < |s| && s[k + 1] == '\n' then 2 else 1;
        [s[..k]] + SplitLines(s[k + width..])
  }

  /** Value of a run of decimal digits (Python's `int(ds)`). */
  function DecimalValue(ds: string): nat
    requires forall i :: 0 <= i < |ds| ==> IsDigit(ds[i])
  {
    if ds == [] then 0
    else 10 * DecimalValue(ds[..|ds| - 1]) + DigitValue(ds[|ds| - 1])
  }

  function DigitValue(c: char): (d: nat)
    requires IsDigit(c)
    ensures d < 10
  {
    (c as int) - ('0' as int)
  }

  /** Canonical decimal digits: non-empty, no leading zero unless the number is 0. */
  predicate Canonical(ds: string) {
    |ds| > 0 && (forall i :: 0 <= i < |ds| ==> IsDigit(ds[i])) && (ds[0] == '0' ==> |ds| == 1)
  }

  /** Python's `str(n)` / `f"{n}"` for a natural number. */
  function IntToDecimal(n: nat): (r: string)
    ensures Canonical(r)
  {
    var d := (n % 10 + '0' as int) as char;
    if n < 10 then [d] else IntToDecimal(n / 10) + [d]
  }

  // ---------------------------------------------------------------- lemmas

  /** Decimal printing and `int()` parsing are inverse to each other. */
  lemma {:induction false} DecimalRoundTrip(n: nat)
    ensures DecimalValue(IntToDecimal(n)) == n
  {
    var r := IntToDecimal(n);
    if n >= 10 {
      DecimalRoundTrip(n / 10);
      assert r[..|r| - 1] == IntToDecimal(n / 10);
    }
  }

  lemma {:induction false} DecimalValuePositive(ds: string)
    requires Canonical(ds) && ds[0] != '0'
    ensures DecimalValue(ds) > 0
    decreases |ds|
  {
    if |ds| > 1 {
      DecimalValuePositive(ds[..|ds| - 1]);
    }
  }

  /** ...and every canonical digit string is what printing its value gives. */
  lemma {:induction false} DecimalParseRoundTrip(ds: string)
    requires Canonical(ds)
    ensures IntToDecimal(DecimalValue(ds)) == ds
    decreases |ds|
  {
    if |ds| > 1 {
      var init := ds[..|ds| - 1];
      assert Canonical(init);
      DecimalValuePositive(init);
      DecimalParseRoundTrip(init);
      var v := DecimalValue(ds);
      assert v / 10 == DecimalValue(init) && v % 10 == DigitValue(ds[|ds| - 1]);
    }
  }

  /** `splitlines` undoes `"\n".join` on lines without boundaries and a non-empty last line. */
  lemma {:induction false} SplitLinesJoin(lines: seq<string>)
    requires forall i :: 0 <= i < |lines| ==> NoLineBreak(lines[i])
    requires |lines| > 0 ==> lines[|lines| - 1] != []
    ensures SplitLines(Join(lines, "\n")) == lines
    decreases |lines|
  {
    if |lines| == 1 {
      assert Join(lines, "\n") == lines[0];
      assert NoLineBreak(lines[0]) && lines[0] != [];
      FirstBreakNone(lines[0]);
      assert SplitLines(lines[0]) == [lines[0]];
      assert lines == [lines[0]];
    } else if |lines| > 1 {
      var rest := Join(lines[1..], "\n");
      assert Join(lines, "\n") == lines[0] + "\n" + rest;
      SplitLinesAfterBreak(lines[0], rest);
      SplitLinesJoin(lines[1..]);
      assert lines == [lines[0]] + lines[1..];
    }
  }

  /** A line ended by `\n` is split off whole, and the rest is split on its own. */
  lemma SplitLinesAfterBreak(first: string, rest: string)
    requires NoLineBreak(first)
    ensures SplitLines(first + "\n" + rest) == [first] + SplitLines(rest)
  {
    var s := first + "\n" + rest;
    FirstBreakAt(first, "\n" + rest);
    assert s[|first|] == '\n';
    assert s[|first| + 1..] == rest;
    assert s[..|first|] == first;
  }

  lemma FirstBreakNone(s: string)
    requires NoLineBreak(s)
    ensures FirstBreak(s) == |s|
  {
  }

  lemma FirstBreakAt(a: string, b: string)
    requires NoLineBreak(a) && b != [] && IsLineBreak(b[0])
    ensures FirstBreak(a + b) == |a|
  {
    assert (a + b)[|a|] == b[0];
    assert forall i :: 0 <= i < |a| ==> (a + b)[i] == a[i];
  }

  lemma {:induction false} ContainsIffChar(s: string, c: char)
    ensures Contains(s, [c]) <==> c in s
    decreases |s|
  {
    if s != [] {
      ContainsIffChar(s[1..], c);
      assert s == [s[0]] + s[1..];
    }
  }

  /** `p` occurs in `s` at offset `k`. */
  predicate OccursAt(s: string, p: string, k: nat) {
    k + |p| <= |s| && s[k..k + |p|] == p
  }

  /** `p in s` holds exactly when `p` occurs at some offset of `s`. */
  lemma {:induction false} ContainsAt(s: string, p: string)
    ensures Contains(s, p) <==> exists k: nat :: OccursAt(s, p, k)
    decreases |s|
  {
    if StartsWith(s, p) {
      assert OccursAt(s, p, 0);
    } else if |s| > 0 {
      ContainsAt(s[1..], p);
      if Contains(s[1..], p) {
        var k: nat :| OccursAt(s[1..], p, k);
        assert s[k + 1..k + 1 + |p|] == s[1..][k..k + |p|];
        assert OccursAt(s, p, k + 1);
      }
      forall k: nat | OccursAt(s, p, k) ensures OccursAt(s[1..], p, k - 1) {
        assert k != 0;
        assert s[1..][k - 1..k - 1 + |p|] == s[k..k + |p|];
      }
    } else {
      forall k: nat ensures !OccursAt(s, p, k) {
      }
    }
  }

  lemma {:induction false} ContainsSuffix(x: string, p: string)
    ensures Contains(x + p, p)
    decreases |x|
  {
    if x == [] {
      assert (x + p)[..|p|] == p;
    } else {
      assert (x + p)[1..] == x[1..] + p;
      ContainsSuffix(x[1..], p);
    }
  }

  /**
   * A pattern without `c` that occurs in neither `a` nor `b` does not occur in
   * `a + [c] + b` either: no occurrence can straddle the separator.
   */
  lemma {:induction false} NotContainsAcross(a: string, c: char, b: string, p: string)
    requires !Contains(a, p) && !Contains(b, p) && c !in p
    ensures !Contains(a + [c] + b, p)
    decreases |a|
  {
    var s := a + [c] + b;
    assert p != [] by { assert StartsWith(a, p) ==> Contains(a, p); }
    if a == [] {
      assert s == [c] + b;
      assert s[0] == c && p[0] in p;
      assert s[1..] == b;
    } else {
      assert |p| <= |a| ==> s[..|p|] == a[..|p|];
      assert |p| > |a| ==> s[|a|] == c && p[|a|] in p;
      assert !Contains(a[1..], p);
      assert s[1..] == a[1..] + [c] + b;
      NotContainsAcross(a[1..], c, b, p);
    }
  }

  lemma {:induction false} NotContainsPrefix(s: string, p: string, n: nat)
    requires !Contains(s, p) && n <= |s|
    ensures !Contains(s[..n], p)
    decreases |s|
  {
    assert |p| <= n ==> s[..n][..|p|] == s[..|p|];
    if n > 0 {
      assert s[..n][1..] == s[1..][..n - 1];
      NotContainsPrefix(s[1..], p, n - 1);
    }
  }

  lemma IndexOfAfter(a: string, c: char, b: string)
    requires c !in a
    ensures IndexOf(a + [c] + b, c) == |a|
  {
    var s := a + [c] + b;
    assert s[|a|] == c;
    assert forall i :: 0 <= i < |a| ==> s[i] == a[i];
  }

  /** Splitting `a + [c] + b` on `c` gives back `a` and `b` when neither holds `c`. */
  lemma SplitPair(a: string, c: char, b: string)
    requires c !in a && c !in b
    ensures Split(a + [c] + b, c) == [a, b]
  {
    var s := a + [c] + b;
    IndexOfAfter(a, c, b);
    assert s[..|a|] == a && s[|a| + 1..] == b;
  }
}
