/**
 * Reading back what generate_m3u writes (collector.py:440-469) with
 * parse_m3u (collector.py:53-101): every channel comes back with its clean
 * name as the name and its URL, in order.
 */
module M3uRoundTrip {

  import opened Wrappers
  import opened Text
  import opened Channels
  import opened M3u
  import Txt

  /** No key or value of the dict holds a line break. */
  predicate AttrsNoBreak(a: Attributes) {
    forall i :: 0 <= i < |a| ==> NoLineBreak(a[i].0) && NoLineBreak(a[i].1)
  }

  /**
   * A channel whose `#EXTINF` line and URL line survive the trip: a clean name
   * without comma or line break and without surrounding whitespace, a stripped
   * URL that is neither empty nor a comment, and attributes on one line.
   */
  predicate FitsM3U(c: Channel) {
    && Printable(c)
    && var name := c.cleanName.value;
    && ',' !in name && NoLineBreak(name) && Trimmed(name)
    && c.url != [] && c.url[0] != '#' && NoLineBreak(c.url) && Trimmed(c.url)
    && AttrsNoBreak(c.attributes)
  }

  /** The name and URL of each channel, in order. */
  function NamesAndUrls(s: seq<Channel>): (r: seq<(string, string)>)
    ensures |r| == |s|
  {
    if s == [] then [] else [(s[0].name, s[0].url)] + NamesAndUrls(s[1..])
  }

  /** The clean name and URL of each channel, in order. */
  function CleanNamesAndUrls(s: seq<Channel>): (r: seq<(string, string)>)
    requires forall i :: 0 <= i < |s| ==> s[i].cleanName.Some?
    ensures |r| == |s| && forall i :: 0 <= i < |s| ==> r[i] == (s[i].cleanName.value, s[i].url)
  {
    if s == [] then [] else [(s[0].cleanName.value, s[0].url)] + CleanNamesAndUrls(s[1..])
  }

  lemma SetDefaultNoBreak(a: Attributes, k: string, v: string)
    requires UniqueKeys(a) && AttrsNoBreak(a) && NoLineBreak(k) && NoLineBreak(v)
    ensures AttrsNoBreak(SetDefault(a, k, v))
  {
  }

  lemma LiteralsNoBreak()
    ensures NoLineBreak("tvg-name") && NoLineBreak("tvg-logo") && NoLineBreak(LogoBase) && NoLineBreak(".png")
    ensures NoLineBreak("#EXTINF:-1") && NoLineBreak(",")
  {
    var b := LogoBase;
    forall i | 0 <= i < |b| ensures !IsLineBreak(b[i]) {
    }
  }

  /** The decorated attributes of a fitting channel stay on one line. */
  lemma DecoratedNoBreak(c: Channel)
    requires FitsM3U(c)
    ensures AttrsNoBreak(Decorate(c).attributes)
  {
    var name := c.cleanName.value;
    LiteralsNoBreak();
    Txt.NoBreakAppend(LogoBase, name);
    Txt.NoBreakAppend(LogoBase + name, ".png");
    SetDefaultNoBreak(c.attributes, "tvg-name", name);
    SetDefaultNoBreak(SetDefault(c.attributes, "tvg-name", name), "tvg-logo", LogoOf(name));
  }

  lemma {:induction false} AttrStringNoBreak(a: Attributes)
    requires AttrsNoBreak(a)
    ensures NoLineBreak(AttrString(a))
    decreases |a|
  {
    if a != [] {
      AttrStringNoBreak(a[..|a| - 1]);
      var kv := a[|a| - 1];
      if kv.0 != "group-title" {
        LiteralsNoBreak();
        Txt.NoBreakAppend(" ", kv.0);
        Txt.NoBreakAppend(" " + kv.0, "=\"");
        Txt.NoBreakAppend(" " + kv.0 + "=\"", kv.1);
        Txt.NoBreakAppend(" " + kv.0 + "=\"" + kv.1, "\"");
      }
      Txt.NoBreakAppend(AttrString(a[..|a| - 1]), PieceOf(kv));
    }
  }

  /** The last comma of `a + "," + b` is the one added, when `b` has none. */
  lemma {:induction false} LastCommaAt(a: string, b: string)
    requires ',' !in b
    ensures LastIndexOf(a + [','] + b, ',') == Some(|a|)
    decreases |b|
  {
    var s := a + [','] + b;
    if b == [] {
      assert s[|s| - 1] == ',';
    } else {
      var b' := b[..|b| - 1];
      assert s[|s| - 1] == b[|b| - 1] != ',';
      assert s[..|s| - 1] == a + [','] + b';
      LastCommaAt(a, b');
    }
  }

  /** An `#EXTINF` line written for a fitting name is one line, starts an entry and gives the name back. */
  lemma ExtinfLineReadsBack(name: string, attrs: Attributes)
    requires ',' !in name && NoLineBreak(name) && Trimmed(name) && NoLineBreak(AttrString(attrs))
    ensures var line := ExtinfLine(name, attrs);
      NoLineBreak(line) && IsExtinf(line) && NameOf(Strip(line)) == name
  {
    var p := "#EXTINF:-1" + AttrString(attrs);
    var line := ExtinfLine(name, attrs);
    assert line == p + [','] + name;
    LiteralsNoBreak();
    Txt.NoBreakAppend("#EXTINF:-1", AttrString(attrs));
    Txt.NoBreakAppend(p, ",");
    Txt.NoBreakAppend(p + ",", name);
    assert line[0] == '#';
    assert line[|line| - 1] == if name == [] then ',' else name[|name| - 1];
    assert Trimmed(line);
    assert line[..|ExtinfTag|] == ExtinfTag;
    LastCommaAt(p, name);
    assert line[|p| + 1..] == name;
  }

  lemma HeaderNoBreak()
    ensures NoLineBreak(HeaderLine())
  {
    var front := "#EXTM3U x-tvg-url=\"";
    var url := EpgUrl;
    forall i | 0 <= i < |front| ensures !IsLineBreak(front[i]) {
    }
    forall i | 0 <= i < |url| ensures !IsLineBreak(url[i]) {
    }
    Txt.NoBreakAppend(front, url);
    Txt.NoBreakAppend(front + url, "\"");
  }

  lemma HeaderFacts()
    ensures NoLineBreak(HeaderLine()) && HeaderLine() != [] && !IsExtinf(HeaderLine())
  {
    var h := HeaderLine();
    HeaderNoBreak();
    assert h[4] == 'M';
    assert Trimmed(h);
  }

  /**
   * Lines `2k` and `2k + 1` of the body are one line each and read back as
   * channel `k`'s `#EXTINF` line and its URL line.
   */
  predicate PairAt(body: seq<string>, ds: seq<Channel>, k: nat)
    requires forall i :: 0 <= i < |ds| ==> ds[i].cleanName.Some?
    requires |body| == 2 * |ds| && k < |ds|
  {
    && NoLineBreak(body[2 * k]) && IsExtinf(body[2 * k]) && NameOf(Strip(body[2 * k])) == ds[k].cleanName.value
    && NoLineBreak(body[2 * k + 1]) && body[2 * k + 1] != []
    && IsUrlLine(body[2 * k + 1]) && Strip(body[2 * k + 1]) == ds[k].url
  }

  /** An `#EXTINF` line followed directly by a URL line yields one entry with that name and URL. */
  lemma PairEntry(lines: seq<string>, i: nat, next: nat, pair: (string, string))
    requires next == i + 2 && next <= |lines|
    requires IsExtinf(lines[i]) && NameOf(Strip(lines[i])) == pair.0
    requires IsUrlLine(lines[i + 1]) && Strip(lines[i + 1]) == pair.1
    ensures NamesAndUrls(M3UFrom(lines, i)) == [pair] + NamesAndUrls(M3UFrom(lines, next))
  {
    NextUrlFirst(lines, i + 1, i + 1);
    M3UFromEntry(lines, i, i + 1, next);
    var e := ExtinfEntry(lines[i], lines[i + 1]);
    var rest := M3UFrom(lines, next);
    assert ([e] + rest)[1..] == rest;
  }

  /** Lines `1 + 2k` and `2 + 2k`, after a header line, are the pair of channel `k`. */
  predicate PairAfterHeader(lines: seq<string>, ds: seq<Channel>, k: nat)
    requires forall i :: 0 <= i < |ds| ==> ds[i].cleanName.Some?
    requires |lines| == 1 + 2 * |ds| && k < |ds|
  {
    && IsExtinf(lines[1 + 2 * k]) && NameOf(Strip(lines[1 + 2 * k])) == ds[k].cleanName.value
    && IsUrlLine(lines[2 + 2 * k]) && Strip(lines[2 + 2 * k]) == ds[k].url
  }

  lemma HeaderShift(h: string, body: seq<string>, ds: seq<Channel>)
    requires forall i :: 0 <= i < |ds| ==> ds[i].cleanName.Some?
    requires |body| == 2 * |ds| && forall k: nat :: k < |ds| ==> PairAt(body, ds, k)
    ensures forall k: nat :: k < |ds| ==> PairAfterHeader([h] + body, ds, k)
  {
    var lines := [h] + body;
    forall k: nat | k < |ds| ensures PairAfterHeader(lines, ds, k) {
      assert PairAt(body, ds, k);
      assert lines[1 + 2 * k] == body[2 * k] && lines[2 + 2 * k] == body[2 * k + 1];
    }
  }

  /** A chain of values where each odd position is one pair followed by the value two further on. */
  lemma {:induction false} Chain(f: nat -> seq<(string, string)>, ps: seq<(string, string)>, j: nat)
    requires j <= |ps|
    requires forall k: nat :: j <= k < |ps| ==> f(1 + 2 * k) == [ps[k]] + f(3 + 2 * k)
    requires f(1 + 2 * |ps|) == []
    ensures f(1 + 2 * j) == ps[j..]
    decreases |ps| - j
  {
    if j < |ps| {
      Chain(f, ps, j + 1);
      assert ps[j..] == [ps[j]] + ps[j + 1..];
    } else {
      assert ps[j..] == [];
    }
  }

  /** The whole chain, from its first value on. */
  lemma ChainAll(f: nat -> seq<(string, string)>, ps: seq<(string, string)>)
    requires forall k: nat :: k < |ps| ==> f(1 + 2 * k) == [ps[k]] + f(3 + 2 * k)
    requires f(1 + 2 * |ps|) == []
    ensures f(1) == ps
  {
    Chain(f, ps, 0);
    assert ps[0..] == ps;
  }

  /** After the header line, the parse yields every channel's name and URL, in order. */
  lemma {:induction false} M3UFromPairs(lines: seq<string>, ds: seq<Channel>)
    requires forall i :: 0 <= i < |ds| ==> ds[i].cleanName.Some?
    requires |lines| == 1 + 2 * |ds|
    requires forall k: nat :: k < |ds| ==> PairAfterHeader(lines, ds, k)
    ensures NamesAndUrls(M3UFrom(lines, 1)) == CleanNamesAndUrls(ds)
  {
    var f: nat -> seq<(string, string)> := (k: nat) => NamesAndUrls(M3UFrom(lines, k));
    var ps := CleanNamesAndUrls(ds);
    forall k: nat | k < |ps| ensures f(1 + 2 * k) == [ps[k]] + f(3 + 2 * k) {
      assert PairAfterHeader(lines, ds, k);
      PairEntry(lines, 1 + 2 * k, 3 + 2 * k, ps[k]);
    }
    M3UFromEnd(lines);
    assert f(1 + 2 * |ps|) == [];
    ChainAll(f, ps);
    assert f(1) == NamesAndUrls(M3UFrom(lines, 1));
  }

  /** A fitting channel, decorated, writes two lines that read back as its clean name and URL. */
  lemma DecoratedReadsBack(c: Channel)
    requires FitsM3U(c)
    ensures var d := Decorate(c);
      var line := ExtinfLine(d.cleanName.value, d.attributes);
      && NoLineBreak(line) && IsExtinf(line) && NameOf(Strip(line)) == d.cleanName.value
      && NoLineBreak(d.url) && d.url != [] && IsUrlLine(d.url) && Strip(d.url) == d.url
  {
    var d := Decorate(c);
    DecoratedNoBreak(c);
    AttrStringNoBreak(d.attributes);
    ExtinfLineReadsBack(d.cleanName.value, d.attributes);
  }

  /** Every pair of lines generate_m3u writes for fitting channels reads back. */
  lemma GeneratedPairs(chs: seq<Channel>)
    requires forall i :: 0 <= i < |chs| ==> FitsM3U(chs[i])
    ensures AllPrintable(chs)
    ensures forall k: nat :: k < |chs| ==> PairAt(M3ULines(DecorateAll(chs)), DecorateAll(chs), k)
  {
    var ds := DecorateAll(chs);
    M3ULinesAt(ds);
    forall k: nat | k < |chs| ensures PairAt(M3ULines(ds), ds, k) {
      DecoratedReadsBack(chs[k]);
    }
  }

  /** A header that is one line and no `#EXTINF`, then pairs that read back: the split finds exactly these lines. */
  lemma {:induction false} HeaderedLines(h: string, body: seq<string>, ds: seq<Channel>)
    requires forall i :: 0 <= i < |ds| ==> ds[i].cleanName.Some?
    requires NoLineBreak(h) && h != [] && !IsExtinf(h)
    requires |body| == 2 * |ds| && forall k: nat :: k < |ds| ==> PairAt(body, ds, k)
    ensures SplitLines(Join([h] + body, "\n")) == [h] + body
  {
    var lines := [h] + body;
    forall n | 0 <= n < |lines| ensures NoLineBreak(lines[n]) {
      if n > 0 {
        var k: nat := (n - 1) / 2;
        assert PairAt(body, ds, k);
        assert n == 1 + 2 * k || n == 2 + 2 * k;
      }
    }
    if ds != [] {
      assert PairAt(body, ds, |ds| - 1);
    }
    SplitLinesJoin(lines);
  }

  /**
   * parse_m3u reads back from generate_m3u's text one entry per channel, in
   * order, named by the channel's clean name and carrying its URL.
   */
  lemma M3URoundTrip(chs: seq<Channel>)
    requires forall i :: 0 <= i < |chs| ==> FitsM3U(chs[i])
    ensures AllPrintable(chs)
    ensures NamesAndUrls(M3UFrom(SplitLines(Join([HeaderLine()] + M3ULines(DecorateAll(chs)), "\n")), 0))
            == CleanNamesAndUrls(chs)
  {
    GeneratedPairs(chs);
    var ds := DecorateAll(chs);
    var h, body := HeaderLine(), M3ULines(ds);
    HeaderFacts();
    HeaderedLines(h, body, ds);
    HeaderShift(h, body, ds);
    M3UFromSkip([h] + body, 0);
    M3UFromPairs([h] + body, ds);
    CleanNamesAndUrlsDecorated(chs);
  }

  /** generate_m3u's writes leave clean names and URLs as they were. */
  lemma {:induction false} CleanNamesAndUrlsDecorated(chs: seq<Channel>)
    requires AllPrintable(chs)
    ensures CleanNamesAndUrls(DecorateAll(chs)) == CleanNamesAndUrls(chs)
    decreases |chs|
  {
    if chs != [] {
      CleanNamesAndUrlsDecorated(chs[1..]);
      assert DecorateAll(chs)[1..] == DecorateAll(chs[1..]);
    }
  }
}
