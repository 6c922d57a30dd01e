/**
 * Channel names: `clean_name` (collector.py:115-119) and `natural_key`
 * (collector.py:121-123), with the two regular expressions and the
 * `re.split(r'(\d+)')` of the source written as dedicated string functions.
 */
module Names {

  import opened Wrappers
  import opened Text
  import opened Orders

  // ------------------------------------------------------------ clean_name

  /** The pattern `_.+M.+` matches inside one line (no `\n` in `line`). */
  ghost predicate MarkerMatch(line: string) {
    exists p, q :: 0 <= p && p + 2 <= q < |line| - 1 && line[p] == '_' && line[q] == 'M'
  }

  /**
   * `re.sub(r'_.+M.+', '', line)` on a single line: the leftmost match starts
   * at the first `_` (any later `_` leaves fewer places for the `M`), and the
   * greedy `.+` runs it to the end of the line.
   */
  function CutMarker(line: string): (r: string)
    ensures MarkerMatch(line) ==> r == line[..IndexOf(line, '_')] && '_' !in r
    ensures !MarkerMatch(line) ==> r == line
  {
    var p := IndexOf(line, '_');
    if p + 2 <= |line| - 2 && 'M' in line[p + 2..|line| - 1] then
      var q :| p + 2 <= q < |line| - 1 && line[q] == 'M' && line[q] == line[p + 2..|line| - 1][q - p - 2];
      assert MarkerMatch(line) by { assert line[p] == '_' && line[q] == 'M'; }
      line[..p]
    else
      assert !MarkerMatch(line) by {
        forall p', q' | 0 <= p' && p' + 2 <= q' < |line| - 1 && line[p'] == '_'
          ensures line[q'] != 'M'
        {
          assert p <= p';
          assert line[q'] == line[p + 2..|line| - 1][q' - p - 2];
        }
      }
      line
  }

  /** `re.sub(r'_.+M.+', '', s)`: `.` does not match `\n`, so each line is treated on its own. */
  function StripMarkers(s: string): string
    decreases |s|
  {
    var e := IndexOf(s, '\n');
    if e == |s| then CutMarker(s)
    else CutMarker(s[..e]) + "\n" + StripMarkers(s[e + 1..])
  }

  /** The pattern `\(.*?\)` matches somewhere in `s`: a `(` and a later `)` with no `\n` between. */
  ghost predicate HasParenGroup(s: string) {
    exists i, j :: 0 <= i < j < |s| && s[i] == '(' && s[j] == ')' && NoNewlineBetween(s, i, j)
  }

  ghost predicate NoNewlineBetween(s: string, i: int, j: int)
    requires 0 <= i < j <= |s|
  {
    forall k :: i < k < j ==> s[k] != '\n'
  }

  /** The first `)` at or after `i` that comes before any `\n`. */
  function CloseParen(s: string, i: nat): (r: Option<nat>)
    requires i <= |s|
    ensures r.Some? ==> i <= r.value < |s| && s[r.value] == ')'
    ensures r.Some? ==> forall k :: i <= k < r.value ==> s[k] != '\n'
    ensures r.None? ==> forall j :: i <= j < |s| && s[j] == ')' ==> exists k :: i <= k < j && s[k] == '\n'
    decreases |s| - i
  {
    if i == |s| || s[i] == '\n' then None
    else if s[i] == ')' then Some(i)
    else CloseParen(s, i + 1)
  }

  /**
   * `re.sub(r'\(.*?\)', '', s)`: scanning left to right, a `(` that has a `)`
   * later on its line is removed together with everything up to the first such `)`.
   */
  function RemoveParens(s: string): string
    decreases |s|
  {
    if s == [] then []
    else if s[0] == '(' && CloseParen(s, 1).Some? then RemoveParens(s[CloseParen(s, 1).value + 1..])
    else [s[0]] + RemoveParens(s[1..])
  }

  /** `clean_name(name)` (collector.py:115-119). */
  function CleanName(name: string): (r: string)
    ensures Trimmed(r)
    ensures !HasParenGroup(r)
  {
    var s := RemoveParens(StripMarkers(name));
    RemoveParensComplete(StripMarkers(name));
    StripKeepsNoParenGroup(s);
    Strip(s)
  }

  lemma StripKeepsNoParenGroup(s: string)
    requires !HasParenGroup(s)
    ensures !HasParenGroup(Strip(s))
  {
    StripSlice(s);
    var off := |s| - |LStrip(s)|;
    SliceKeepsNoParenGroup(s, off, off + |Strip(s)|);
  }

  lemma SliceKeepsNoParenGroup(s: string, a: nat, b: nat)
    requires a <= b <= |s| && !HasParenGroup(s)
    ensures !HasParenGroup(s[a..b])
  {
    var r := s[a..b];
    forall i, j | 0 <= i < j < |r| && r[i] == '(' && r[j] == ')'
      ensures !NoNewlineBetween(r, i, j)
    {
      assert s[i + a] == '(' && s[j + a] == ')';
      assert !NoNewlineBetween(s, i + a, j + a);
      var k :| i + a < k < j + a && s[k] == '\n';
      assert r[k - a] == '\n';
    }
  }

  /** No `\(.*?\)` match survives `RemoveParens`. */
  lemma {:induction false} RemoveParensComplete(s: string)
    ensures !HasParenGroup(RemoveParens(s))
    decreases |s|
  {
    if s == [] {
    } else if s[0] == '(' && CloseParen(s, 1).Some? {
      RemoveParensComplete(s[CloseParen(s, 1).value + 1..]);
    } else {
      var t := s[1..];
      var rest := RemoveParens(t);
      var r := [s[0]] + rest;
      RemoveParensComplete(t);
      if s[0] == '(' {
        // the `(` is not closed on its line, so neither is any `(` before the next `\n`
        UnclosedPrefix(t);
      }
      forall i, j | 0 <= i < j < |r| && r[i] == '(' && r[j] == ')'
        ensures !NoNewlineBetween(r, i, j)
      {
        if i > 0 {
          assert rest[i - 1] == '(' && rest[j - 1] == ')';
          assert !NoNewlineBetween(rest, i - 1, j - 1);
          var k :| i - 1 < k < j - 1 && rest[k] == '\n';
          assert r[k + 1] == '\n';
        } else {
          assert s[0] == '(' && rest[j - 1] == ')';
          var k :| 0 <= k < j - 1 && rest[k] == '\n';
          assert r[k + 1] == '\n';
        }
      }
    }
  }

  /**
   * When no `)` precedes the first `\n` of `t`, `RemoveParens` copies `t` up to
   * that `\n`: any `)` of its result is preceded by a `\n`.
   */
  lemma {:induction false} UnclosedPrefix(t: string)
    requires CloseParen(t, 0).None?
    ensures forall j :: 0 <= j < |RemoveParens(t)| && RemoveParens(t)[j] == ')' ==>
      exists k :: 0 <= k < j && RemoveParens(t)[k] == '\n'
    decreases |t|
  {
    if t != [] && t[0] != '\n' {
      assert t[0] != ')';
      assert CloseParen(t, 0) == CloseParen(t, 1);
      CloseParenShift(t);
      var rest := RemoveParens(t[1..]);
      if t[0] == '(' {
        assert CloseParen(t, 1).None?;
      }
      assert RemoveParens(t) == [t[0]] + rest;
      UnclosedPrefix(t[1..]);
      forall j | 0 <= j < |RemoveParens(t)| && RemoveParens(t)[j] == ')'
        ensures exists k :: 0 <= k < j && RemoveParens(t)[k] == '\n'
      {
        assert j > 0 && rest[j - 1] == ')';
        var k :| 0 <= k < j - 1 && rest[k] == '\n';
        assert RemoveParens(t)[k + 1] == '\n';
      }
    } else if t != [] {
      var r := RemoveParens(t);
      assert r == [t[0]] + RemoveParens(t[1..]);
      assert r[0] == '\n';
    }
  }

  lemma {:induction false} CloseParenShift(t: string)
    requires t != []
    ensures CloseParen(t, 1).None? <==> CloseParen(t[1..], 0).None?
  {
    CloseParenShiftFrom(t, 1);
  }

  lemma {:induction false} CloseParenShiftFrom(t: string, i: nat)
    requires 1 <= i <= |t|
    ensures CloseParen(t, i).None? <==> CloseParen(t[1..], i - 1).None?
    decreases |t| - i
  {
    if i < |t| && t[i] != '\n' && t[i] != ')' {
      CloseParenShiftFrom(t, i + 1);
    }
  }

  // ----------------------------------------------------------- natural_key

  /** One element of a natural key: a digit-free run (a `str`) or a digit run's value (an `int`). */
  datatype KeyPart = Text(text: string) | Num(value: nat)

  predicate NoDigits(s: string) {
    forall i :: 0 <= i < |s| ==> !IsDigit(s[i])
  }

  function NonDigitRun(s: string): (k: nat)
    ensures k <= |s| && NoDigits(s[..k]) && (k < |s| ==> IsDigit(s[k]))
  {
    if s == [] || IsDigit(s[0]) then 0
    else
      var k := 1 + NonDigitRun(s[1..]);
      assert s[..k] == [s[0]] + s[1..][..k - 1];
      k
  }

  function DigitRun(s: string): (k: nat)
    ensures k <= |s| && (forall i :: 0 <= i < k ==> IsDigit(s[i])) && (k < |s| ==> !IsDigit(s[k]))
  {
    if s == [] || !IsDigit(s[0]) then 0 else 1 + DigitRun(s[1..])
  }

  /**
   * `natural_key(s)`: the pieces of `re.split(r'(\d+)', s)`, digit runs turned
   * into their integer value.
   */
  function NaturalKey(s: string): seq<KeyPart>
    decreases |s|
  {
    var i := NonDigitRun(s);
    if i == |s| then [Text(s)]
    else
      var j := i + DigitRun(s[i..]);
      [Text(s[..i]), Num(DecimalValue(s[i..j]))] + NaturalKey(s[j..])
  }

  /**
   * The shape of a natural key: odd length, digit-free strings at even
   * positions (only the first and last may be empty), integers at odd positions.
   */
  predicate WellShaped(key: seq<KeyPart>) {
    && |key| % 2 == 1
    && (forall p :: 0 <= p < |key| ==> (key[p].Text? <==> p % 2 == 0))
    && (forall p :: 0 <= p < |key| && key[p].Text? ==> NoDigits(key[p].text))
    && (forall p :: 0 < p < |key| - 1 && key[p].Text? ==> key[p].text != [])
  }

  lemma {:induction false} NaturalKeyShape(s: string)
    ensures WellShaped(NaturalKey(s))
    decreases |s|, 1
  {
    var i := NonDigitRun(s);
    if i == |s| {
      assert s[..i] == s;
    } else {
      NaturalKeyShapeStep(s);
    }
  }

  /** The shape of a key with a digit run: the first text and number, then the key of the rest. */
  lemma {:induction false} NaturalKeyShapeStep(s: string)
    requires NonDigitRun(s) < |s|
    ensures WellShaped(NaturalKey(s))
    decreases |s|, 0
  {
    var i := NonDigitRun(s);
    var d := s[i..];
    var m := DigitRun(d);
    var head, ds, t := s[..i], d[..m], d[m..];
    assert d[0] == s[i];
    assert forall x :: 0 <= x < |ds| ==> ds[x] == d[x];
    assert t != [] ==> t[0] == d[m];
    assert s == head + ds + t;
    NaturalKeyStep(head, ds, t);
    var n, rest := DecimalValue(ds), NaturalKey(t);
    NaturalKeyShape(t);
    if t == [] {
      assert rest == [Text([])];
    } else {
      NaturalKeyHead(t);
    }
    ShapeCons(head, n, rest);
  }

  /** A key of text that starts with a non-digit starts with a non-empty text part. */
  lemma NaturalKeyHead(t: string)
    requires t != [] && !IsDigit(t[0])
    ensures NaturalKey(t) != [] && NaturalKey(t)[0].Text? && NaturalKey(t)[0].text != []
  {
    var i := NonDigitRun(t);
    assert t[..i][0] == t[0];
  }

  /** A digit-free text and a number in front of a well-shaped key whose inner first text is not empty. */
  lemma ShapeCons(head: string, n: nat, rest: seq<KeyPart>)
    requires NoDigits(head) && WellShaped(rest)
    requires |rest| > 1 ==> rest[0].text != []
    ensures WellShaped([Text(head), Num(n)] + rest)
  {
    var key := [Text(head), Num(n)] + rest;
    forall p | 2 <= p < |key| ensures key[p] == rest[p - 2] {
    }
  }

  /** Comparing two parts of natural keys; the two kinds are never compared with each other. */
  function CmpPart(x: KeyPart, y: KeyPart): Ordering {
    match (x, y)
    case (Text(a), Text(b)) => CmpString(a, b)
    case (Num(m), Num(n)) => CmpInt(m, n)
    case (Text(_), Num(_)) => Lt
    case (Num(_), Text(_)) => Gt
  }

  /** Python's comparison of two `natural_key` lists. */
  function CmpNatural(a: seq<KeyPart>, b: seq<KeyPart>): Ordering {
    Lex(a, b, CmpPart)
  }

  /** At every position two natural keys share, both hold a `str` or both an `int`: no `TypeError`. */
  lemma NaturalKeysAligned(s: string, t: string)
    ensures forall p :: 0 <= p < |NaturalKey(s)| && p < |NaturalKey(t)| ==>
      NaturalKey(s)[p].Text? == NaturalKey(t)[p].Text?
  {
    NaturalKeyShape(s);
    NaturalKeyShape(t);
  }

  lemma CmpPartTotal()
    ensures TotalOrder(CmpPart)
  {
    CmpStringTotal();
  }

  lemma CmpNaturalTotal()
    ensures TotalOrder(CmpNatural)
  {
    CmpPartTotal();
    LexTotal(CmpPart);
    assert forall a, b :: CmpNatural(a, b) == ((x: seq<KeyPart>, y: seq<KeyPart>) => Lex(x, y, CmpPart))(a, b);
  }

  lemma NonDigitRunAll(t: string)
    requires NoDigits(t)
    ensures NonDigitRun(t) == |t|
  {
  }

  lemma NonDigitRunUntil(t: string, u: string)
    requires NoDigits(t) && u != [] && IsDigit(u[0])
    ensures NonDigitRun(t + u) == |t|
  {
    var k := NonDigitRun(t + u);
    assert (t + u)[|t|] == u[0];
    assert forall i :: 0 <= i < |t| ==> (t + u)[i] == t[i];
  }

  lemma DigitRunUntil(ds: string, u: string)
    requires forall i :: 0 <= i < |ds| ==> IsDigit(ds[i])
    requires u == [] || !IsDigit(u[0])
    ensures DigitRun(ds + u) == |ds|
  {
    var k := DigitRun(ds + u);
    if |ds| < |ds + u| {
      assert (ds + u)[|ds|] == u[0];
    }
    assert forall i :: 0 <= i < |ds| ==> (ds + u)[i] == ds[i];
  }

  /** A digit-free run, a digit run and the rest split as `re.split(r'(\d+)')` splits them. */
  lemma NaturalKeyStep(t: string, ds: string, u: string)
    requires NoDigits(t) && ds != [] && (forall i :: 0 <= i < |ds| ==> IsDigit(ds[i]))
    requires u == [] || !IsDigit(u[0])
    ensures NaturalKey(t + ds + u) == [Text(t), Num(DecimalValue(ds))] + NaturalKey(u)
  {
    var s := t + ds + u;
    assert s == t + (ds + u);
    NonDigitRunUntil(t, ds + u);
    assert s[|t|..] == ds + u;
    DigitRunUntil(ds, u);
    assert s[..|t|] == t && s[|t|..|t| + |ds|] == ds && s[|t| + |ds|..] == u;
  }

  lemma NaturalKeyText(t: string)
    requires NoDigits(t)
    ensures NaturalKey(t) == [Text(t)]
  {
    NonDigitRunAll(t);
  }

  /** A text, one digit run and a digit-free rest: three parts. */
  lemma NaturalKeyOneNumber(t: string, ds: string, u: string, n: nat)
    requires NoDigits(t) && NoDigits(u) && ds != [] && (forall i :: 0 <= i < |ds| ==> IsDigit(ds[i]))
    requires n == DecimalValue(ds)
    ensures NaturalKey(t + ds + u) == [Text(t), Num(n), Text(u)]
  {
    NaturalKeyStep(t, ds, u);
    NaturalKeyText(u);
  }

  lemma DecimalTen()
    ensures DecimalValue("10") == 10
  {
    assert "10"[..1] == "1";
  }

  lemma NaturalKeyCctv2()
    ensures NaturalKey("CCTV2") == [Text("CCTV"), Num(2), Text("")]
  {
    assert "CCTV2" == "CCTV" + "2" + "";
    NaturalKeyOneNumber("CCTV", "2", "", 2);
  }

  lemma NaturalKeyCctv10()
    ensures NaturalKey("CCTV10") == [Text("CCTV"), Num(10), Text("")]
  {
    assert "CCTV10" == "CCTV" + "10" + "";
    DecimalTen();
    NaturalKeyOneNumber("CCTV", "10", "", 10);
  }

  lemma NaturalKeyCctv10Hd()
    ensures NaturalKey("CCTV10HD") == [Text("CCTV"), Num(10), Text("HD")]
  {
    assert "CCTV10HD" == "CCTV" + "10" + "HD";
    DecimalTen();
    NaturalKeyOneNumber("CCTV", "10", "HD", 10);
  }

  lemma CmpKeysCctv2Cctv10()
    ensures CmpNatural([Text("CCTV"), Num(2), Text("")], [Text("CCTV"), Num(10), Text("")]) == Lt
  {
    CmpCharTotal();
    LexEq("CCTV", "CCTV", CmpChar);
  }

  lemma CmpKeysCctv10Cctv10Hd()
    ensures CmpNatural([Text("CCTV"), Num(10), Text("")], [Text("CCTV"), Num(10), Text("HD")]) == Lt
  {
    CmpCharTotal();
    LexEq("CCTV", "CCTV", CmpChar);
  }

  /** The ordering the source's comment promises: CCTV2 < CCTV10 < CCTV10HD. */
  lemma NaturalOrderExample()
    ensures CmpNatural(NaturalKey("CCTV2"), NaturalKey("CCTV10")) == Lt
    ensures CmpNatural(NaturalKey("CCTV10"), NaturalKey("CCTV10HD")) == Lt
  {
    NaturalKeyCctv2();
    NaturalKeyCctv10();
    NaturalKeyCctv10Hd();
    CmpKeysCctv2Cctv10();
    CmpKeysCctv10Cctv10Hd();
  }

  lemma RemoveParensNoOpen(s: string)
    requires '(' !in s
    ensures RemoveParens(s) == s
  {
    if s != [] {
      RemoveParensNoOpen(s[1..]);
    }
  }

  /** A trimmed single-line name with no `_` and no `(` is already clean. */
  lemma CleanNamePlain(a: string)
    requires '_' !in a && '(' !in a && '\n' !in a && Trimmed(a)
    ensures CleanName(a) == a
  {
    assert IndexOf(a, '\n') == |a|;
    assert !MarkerMatch(a);
    RemoveParensNoOpen(a);
  }

  /** The first `)` at or after `i`, with no `\n` before it, is the one `CloseParen` finds. */
  lemma {:induction false} CloseParenFirst(s: string, i: nat, j: nat)
    requires i <= j < |s| && s[j] == ')'
    requires forall k :: i <= k < j ==> s[k] != ')' && s[k] != '\n'
    ensures CloseParen(s, i) == Some(j)
    decreases j - i
  {
    if i < j {
      CloseParenFirst(s, i + 1, j);
    }
  }

  /** Text without a `(` passes through `RemoveParens` unchanged, whatever follows it. */
  lemma {:induction false} RemoveParensKeepsPrefix(a: string, t: string)
    requires '(' !in a
    ensures RemoveParens(a + t) == a + RemoveParens(t)
    decreases |a|
  {
    if a != [] {
      var s := a + t;
      assert s[0] == a[0] && s[0] != '(' && s[1..] == a[1..] + t;
      assert RemoveParens(s) == [s[0]] + RemoveParens(s[1..]);
      RemoveParensKeepsPrefix(a[1..], t);
      assert a == [a[0]] + a[1..];
    } else {
      assert a + t == t;
    }
  }

  /** A group `(g)` on one line is removed whole, and scanning resumes after its `)`. */
  lemma RemoveParensDropsGroup(g: string, b: string)
    requires ')' !in g && '\n' !in g
    ensures RemoveParens("(" + g + ")" + b) == RemoveParens(b)
  {
    var s := "(" + g + ")" + b;
    var j := |g| + 1;
    assert s[j] == ')';
    assert forall k :: 1 <= k < j ==> s[k] == g[k - 1];
    CloseParenFirst(s, 1, j);
    assert s[j + 1..] == b;
  }

  /** The text around a parenthesised group is kept: `a(g)b` becomes `a` followed by what `b` becomes. */
  lemma RemoveParensKeepsOutside(a: string, g: string, b: string)
    requires '(' !in a && ')' !in g && '\n' !in g
    ensures RemoveParens(a + "(" + g + ")" + b) == a + RemoveParens(b)
  {
    assert a + "(" + g + ")" + b == a + ("(" + g + ")" + b);
    RemoveParensKeepsPrefix(a, "(" + g + ")" + b);
    RemoveParensDropsGroup(g, b);
  }

  /** A single-line name with no `_` loses its first group and the surrounding whitespace only. */
  lemma CleanNameDropsGroup(a: string, g: string, b: string)
    requires '_' !in a + "(" + g + ")" + b && '\n' !in a + "(" + g + ")" + b
    requires '(' !in a && ')' !in g
    ensures CleanName(a + "(" + g + ")" + b) == Strip(a + RemoveParens(b))
  {
    var s := a + "(" + g + ")" + b;
    assert IndexOf(s, '\n') == |s|;
    assert !MarkerMatch(s);
    assert '\n' !in g by {
      forall k | 0 <= k < |g| ensures g[k] != '\n' { assert s[|a| + 1 + k] == g[k]; }
    }
    RemoveParensKeepsOutside(a, g, b);
  }

  /** `CCTV1(HD)` cleans to `CCTV1`. */
  lemma CleanNameParenExample()
    ensures CleanName("CCTV1(HD)") == "CCTV1"
  {
    var a, g := "CCTV1", "HD";
    assert a + "(" + g + ")" + "" == "CCTV1(HD)";
    CleanNameDropsGroup(a, g, "");
    assert a + RemoveParens("") == a;
    assert !IsSpace(a[0]) && !IsSpace(a[4]);
  }

  /** A single-line name `a + "_" + b` whose `b` has an `M` inside loses `_` and `b`. */
  lemma {:induction false} CleanNameCutsMarker(a: string, b: string, q: nat)
    requires '_' !in a && '(' !in a && Trimmed(a)
    requires '\n' !in a && '\n' !in b
    requires 1 <= q < |b| - 1 && b[q] == 'M'
    ensures CleanName(a + "_" + b) == a
  {
    var s := a + "_" + b;
    assert s == a + ['_'] + b;
    assert '\n' !in s;
    assert IndexOf(s, '\n') == |s|;
    IndexOfAfter(a, '_', b);
    assert s[|a| + 1 + q] == 'M' && s[|a|] == '_';
    assert MarkerMatch(s);
    assert s[..|a|] == a;
    RemoveParensNoOpen(a);
  }

  /** The scenario name `CCTV-1_1080M2000(HD)` cleans to `CCTV-1`. */
  lemma CleanNameExample()
    ensures CleanName("CCTV-1_1080M2000(HD)") == "CCTV-1"
  {
    var a, b := "CCTV-1", "1080M2000(HD)";
    assert a + "_" + b == "CCTV-1_1080M2000(HD)";
    assert b[4] == 'M';
    assert '_' !in a && '(' !in a && '\n' !in a && '\n' !in b;
    CleanNameCutsMarker(a, b, 4);
  }
}
