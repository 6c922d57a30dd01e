/**
 * The M3U playlist format (collector.py:53-101, 440-469): `#EXTINF:` lines
 * with `key="value"` attributes and a name after the last comma, each followed
 * by its URL line.
 */
module M3u {

  import opened Wrappers
  import opened Text
  import opened Channels

  const ExtinfTag: string := "#EXTINF:"
  const EpgUrl: string := "http://epg.51zmt.top:8000/e.xml"
  const LogoBase: string := "https://tb.zbds.top/logo/"
  const UnknownName: string := "Unknown"

  // ------------------------------------------------ the key="value" scanner

  /** The character class `[a-zA-Z0-9-]`. */
  predicate IsKeyChar(c: char) {
    'a' <= c <= 'z' || 'A' <= c <= 'Z' || '0' <= c <= '9' || c == '-'
  }

  predicate IsKey(k: string) {
    k != [] && forall i :: 0 <= i < |k| ==> IsKeyChar(k[i])
  }

  /** Length of the longest run of key characters at the start of `s`. */
  function KeyRun(s: string): (k: nat)
    ensures k <= |s| && (k < |s| ==> !IsKeyChar(s[k]))
    ensures forall i :: 0 <= i < k ==> IsKeyChar(s[i])
  {
    if s == [] || !IsKeyChar(s[0]) then 0 else 1 + KeyRun(s[1..])
  }

  /**
   * The match of `([a-zA-Z0-9-]+)="([^"]*)"` starting at the first character
   * of `s`: the key, the value and the length of the match. The key run
   * cannot end early, since `=` is not a key character, and the value ends at
   * the first quote, so the match is unique.
   */
  function MatchAt(s: string): (m: Option<(string, string, nat)>)
    ensures m.Some? ==> 0 < m.value.2 <= |s|
    ensures m.Some? ==> IsKey(m.value.0) && '"' !in m.value.1
    ensures m.Some? ==> s[..m.value.2] == m.value.0 + "=\"" + m.value.1 + "\""
  {
    var k := KeyRun(s);
    if k == 0 || k + 2 > |s| || s[k] != '=' || s[k + 1] != '"' then None
    else
      var q := IndexOf(s[k + 2..], '"');
      if k + 2 + q == |s| then None
      else
        var key, value, n := s[..k], s[k + 2..k + 2 + q], k + 3 + q;
        assert IsKey(key);
        assert value == s[k + 2..][..q];
        assert '"' !in value;
        assert s[..n] == key + "=\"" + value + "\"";
        Some((key, value, n))
  }

  /** `re.finditer`: the leftmost match, then the search resumes after it. */
  function Scan(s: string): seq<(string, string)>
    decreases |s|
  {
    if s == [] then []
    else match MatchAt(s)
      case Some(m) => [(m.0, m.1)] + Scan(s[m.2..])
      case None => Scan(s[1..])
  }

  /** `d[k] = v` for each pair in turn. */
  function AssignAll(a: Attributes, pairs: seq<(string, string)>): (r: Attributes)
    requires UniqueKeys(a)
    ensures UniqueKeys(r)
  {
    if pairs == [] then a
    else
      var last := pairs[|pairs| - 1];
      Assign(AssignAll(a, pairs[..|pairs| - 1]), last.0, last.1)
  }

  // ------------------------------------------------------------ parse_m3u

  /** The name after the last comma, stripped, or `Unknown` without a comma. */
  function NameOf(line: string): string {
    match LastIndexOf(line, ',')
    case Some(k) => Strip(line[k + 1..])
    case None => UnknownName
  }

  /** The part before the last comma, where the attributes are read. */
  function MetaOf(line: string): string {
    match LastIndexOf(line, ',')
    case Some(k) => line[..k]
    case None => line
  }

  function AttributesOf(meta: string): (a: Attributes)
    ensures UniqueKeys(a)
  {
    AssignAll([], Scan(meta))
  }

  /** A line the look-ahead takes as the URL: non-empty and not a comment once stripped. */
  predicate IsUrlLine(line: string) {
    var t := Strip(line);
    t != [] && t[0] != '#'
  }

  /** The first line at or after `j` that `isUrl` accepts, or `|lines|`. */
  function NextUrl(lines: seq<string>, j: nat, isUrl: string -> bool): (k: nat)
    requires j <= |lines|
    ensures j <= k <= |lines| && (k < |lines| ==> isUrl(lines[k]))
    decreases |lines| - j
  {
    if j == |lines| || isUrl(lines[j]) then j else NextUrl(lines, j + 1, isUrl)
  }

  /**
   * The entries read from line `i` on: a line that `isStart` accepts and the
   * URL line found after it make one entry, and reading resumes after that URL
   * line; any other line is skipped. The line tests and the entry builder are
   * parameters so that the scan is reasoned about apart from them.
   */
  function EntriesFrom(lines: seq<string>, i: nat, isStart: string -> bool, isUrl: string -> bool,
                       make: (string, string) -> Channel): seq<Channel>
    decreases |lines| - i
  {
    if i >= |lines| then []
    else if isStart(lines[i]) && NextUrl(lines, i + 1, isUrl) < |lines| then
      var j := NextUrl(lines, i + 1, isUrl);
      [make(lines[i], lines[j])] + EntriesFrom(lines, j + 1, isStart, isUrl, make)
    else EntriesFrom(lines, i + 1, isStart, isUrl, make)
  }

  /** Each entry is built from some line and a URL line after it. */
  lemma {:induction false} EntriesFromBuilt(lines: seq<string>, i: nat, isStart: string -> bool,
                                            isUrl: string -> bool, make: (string, string) -> Channel,
                                            ok: Channel -> bool)
    requires forall line, url :: isUrl(url) ==> ok(make(line, url))
    ensures forall n :: 0 <= n < |EntriesFrom(lines, i, isStart, isUrl, make)| ==>
      ok(EntriesFrom(lines, i, isStart, isUrl, make)[n])
    decreases |lines| - i
  {
    if i < |lines| {
      var j := NextUrl(lines, i + 1, isUrl);
      if isStart(lines[i]) && j < |lines| {
        EntriesFromBuilt(lines, j + 1, isStart, isUrl, make, ok);
      } else {
        EntriesFromBuilt(lines, i + 1, isStart, isUrl, make, ok);
      }
    }
  }

  /** A parsed entry: a stripped, non-empty URL that is not a comment, a stripped name, a proper dict. */
  predicate WellFormedEntry(c: Channel) {
    && c.url != [] && c.url[0] != '#' && Trimmed(c.url)
    && Trimmed(c.name) && UniqueKeys(c.attributes)
    && c == Entry(c.name, c.url, c.attributes)
  }

  /** A line that, once stripped, starts an entry. */
  predicate IsExtinf(line: string) {
    StartsWith(Strip(line), ExtinfTag)
  }

  /** The channel of an `#EXTINF` line and the URL line found after it. */
  function ExtinfEntry(line: string, urlLine: string): Channel {
    var info := Strip(line);
    Entry(NameOf(info), Strip(urlLine), AttributesOf(MetaOf(info)))
  }

  /** The channels parse_m3u reads from line `i` on. */
  function M3UFrom(lines: seq<string>, i: nat): seq<Channel> {
    EntriesFrom(lines, i, IsExtinf, IsUrlLine, ExtinfEntry)
  }

  lemma NameTrimmed(line: string)
    ensures Trimmed(NameOf(line))
  {
    if LastIndexOf(line, ',').None? {
      assert NameOf(line) == UnknownName;
    }
  }

  lemma EntryWellFormed(line: string, urlLine: string)
    requires IsUrlLine(urlLine)
    ensures WellFormedEntry(ExtinfEntry(line, urlLine))
  {
    NameTrimmed(Strip(line));
  }

  /** Every entry parse_m3u reads is well formed. */
  lemma M3UFromWellFormed(lines: seq<string>, i: nat)
    ensures forall n :: 0 <= n < |M3UFrom(lines, i)| ==> WellFormedEntry(M3UFrom(lines, i)[n])
  {
    forall line, url | IsUrlLine(url) ensures WellFormedEntry(ExtinfEntry(line, url)) {
      EntryWellFormed(line, url);
    }
    EntriesFromBuilt(lines, i, IsExtinf, IsUrlLine, ExtinfEntry, WellFormedEntry);
  }

  /** The name and the attribute dict of an `#EXTINF` line. */
  method ReadExtinf(line: string) returns (name: string, attributes: Attributes)
    ensures name == NameOf(line) && attributes == AttributesOf(MetaOf(line))
  {
    var meta;
    var lastComma := LastIndexOf(line, ',');
    if lastComma.Some? {
      meta := line[..lastComma.value];
      name := Strip(line[lastComma.value + 1..]);
    } else {
      meta := line;
      name := UnknownName;
    }
    attributes := AssignPairs(Scan(meta));
  }

  /** `attributes[key] = value` for each match in turn, starting from an empty dict. */
  method AssignPairs(pairs: seq<(string, string)>) returns (attributes: Attributes)
    ensures attributes == AssignAll([], pairs)
  {
    attributes := [];
    for n := 0 to |pairs|
      invariant attributes == AssignAll([], pairs[..n])
    {
      assert pairs[..n + 1][..n] == pairs[..n];
      attributes := Assign(attributes, pairs[n].0, pairs[n].1);
    }
    assert pairs[..|pairs|] == pairs;
  }

  /** The look-ahead for the URL line after line `from - 1`. */
  method LookAhead(lines: seq<string>, from: nat) returns (url: string, at: nat)
    requires from <= |lines|
    ensures at == NextUrl(lines, from, IsUrlLine)
    ensures url == if at < |lines| then Strip(lines[at]) else ""
  {
    url := "";
    at := |lines|;
    var j := from;
    while j < |lines|
      invariant from <= j <= |lines|
      invariant forall m :: from <= m < j ==> !IsUrlLine(lines[m])
    {
      var nextLine := Strip(lines[j]);
      if nextLine != [] && nextLine[0] != '#' {
        url := nextLine;
        at := j;
        NextUrlFirst(lines, from, j);
        return;
      }
      j := j + 1;
    }
    NextUrlFirst(lines, from, |lines|);
  }

  lemma {:induction false} NextUrlFirst(lines: seq<string>, from: nat, k: nat)
    requires from <= k <= |lines| && (k < |lines| ==> IsUrlLine(lines[k]))
    requires forall m :: from <= m < k ==> !IsUrlLine(lines[m])
    ensures NextUrl(lines, from, IsUrlLine) == k
    decreases k - from
  {
    if from < k {
      NextUrlFirst(lines, from + 1, k);
    }
  }

  lemma EntriesFromEntry(lines: seq<string>, i: nat, at: nat, next: nat, isStart: string -> bool,
                         isUrl: string -> bool, make: (string, string) -> Channel)
    requires i < at < |lines| && isStart(lines[i]) && at == NextUrl(lines, i + 1, isUrl) && next == at + 1
    ensures EntriesFrom(lines, i, isStart, isUrl, make) ==
      [make(lines[i], lines[at])] + EntriesFrom(lines, next, isStart, isUrl, make)
  {
  }

  lemma EntriesFromSkip(lines: seq<string>, i: nat, isStart: string -> bool, isUrl: string -> bool,
                        make: (string, string) -> Channel)
    requires i < |lines| && (!isStart(lines[i]) || NextUrl(lines, i + 1, isUrl) == |lines|)
    ensures EntriesFrom(lines, i, isStart, isUrl, make) == EntriesFrom(lines, i + 1, isStart, isUrl, make)
  {
  }

  /** An `#EXTINF` line with a URL line after it makes one entry; the scan resumes after the URL line. */
  lemma M3UFromEntry(lines: seq<string>, i: nat, at: nat, next: nat)
    requires i < at < |lines| && IsExtinf(lines[i]) && at == NextUrl(lines, i + 1, IsUrlLine) && next == at + 1
    ensures M3UFrom(lines, i) == [ExtinfEntry(lines[i], lines[at])] + M3UFrom(lines, next)
  {
    EntriesFromEntry(lines, i, at, next, IsExtinf, IsUrlLine, ExtinfEntry);
  }

  /** Any other line is passed over. */
  lemma M3UFromSkip(lines: seq<string>, i: nat)
    requires i < |lines| && (!IsExtinf(lines[i]) || NextUrl(lines, i + 1, IsUrlLine) == |lines|)
    ensures M3UFrom(lines, i) == M3UFrom(lines, i + 1)
  {
    EntriesFromSkip(lines, i, IsExtinf, IsUrlLine, ExtinfEntry);
  }

  /**
   * One pass of parse_m3u's loop at line `i`: the entry it appends, if any,
   * and the line the loop goes on with (after the URL line when one was found).
   */
  method ReadAt(lines: seq<string>, i: nat) returns (entry: Option<Channel>, next: nat)
    requires i < |lines|
    ensures i < next <= |lines|
    ensures entry.Some? ==> M3UFrom(lines, i) == [entry.value] + M3UFrom(lines, next)
    ensures entry.None? ==> M3UFrom(lines, i) == M3UFrom(lines, next)
  {
    var line := Strip(lines[i]);
    if StartsWith(line, ExtinfTag) {
      var name, attributes := ReadExtinf(line);
      var url, at := LookAhead(lines, i + 1);
      if url != "" {
        var c := Entry(name, url, attributes);
        assert c == ExtinfEntry(lines[i], lines[at]);
        entry, next := Some(c), at + 1;
        M3UFromEntry(lines, i, at, next);
        return;
      }
      assert at == |lines|;
    }
    entry := None;
    next := i + 1;
    M3UFromSkip(lines, i);
  }

  /** parse_m3u. */
  method ParseM3U(content: string) returns (playlist: seq<Channel>)
    ensures playlist == M3UFrom(SplitLines(content), 0)
  {
    var lines := SplitLines(content);
    playlist := [];
    var i := 0;
    while i < |lines|
      invariant 0 <= i <= |lines|
      invariant playlist + M3UFrom(lines, i) == M3UFrom(lines, 0)
      decreases |lines| - i
    {
      var entry, next := ReadAt(lines, i);
      var found := if entry.Some? then [entry.value] else [];
      assert M3UFrom(lines, i) == found + M3UFrom(lines, next);
      ConcatAssoc(playlist, found, M3UFrom(lines, next));
      playlist := playlist + found;
      i := next;
    }
    M3UFromEnd(lines);
  }

  lemma TakeSnoc<T>(s: seq<T>, n: nat)
    requires n < |s|
    ensures s[..n + 1] == s[..n] + [s[n]]
  {
  }

  lemma TakeAll<T>(s: seq<T>)
    ensures s[..|s|] == s
  {
  }

  lemma ConcatAssoc<T>(a: seq<T>, b: seq<T>, c: seq<T>)
    ensures a + (b + c) == (a + b) + c
  {
  }

  lemma M3UFromEnd(lines: seq<string>)
    ensures M3UFrom(lines, |lines|) == []
  {
  }

  // ---------------------------------------------------------- generate_m3u

  /** The header line naming the EPG source. */
  function HeaderLine(): string {
    "#EXTM3U x-tvg-url=\"" + EpgUrl + "\""
  }

  function LogoOf(name: string): string {
    LogoBase + name + ".png"
  }

  /** `if k not in d: d[k] = v`. */
  function SetDefault(a: Attributes, k: string, v: string): (r: Attributes)
    requires UniqueKeys(a)
    ensures UniqueKeys(r)
  {
    if k in Keys(a) then a else Assign(a, k, v)
  }

  /** `k` is present afterwards, keeping an existing value; other keys and the key order are kept. */
  lemma SetDefaultLookup(a: Attributes, k: string, v: string)
    requires UniqueKeys(a)
    ensures var r := SetDefault(a, k, v);
      && Lookup(r, k) == Some(Lookup(a, k).GetOr(v))
      && (forall k' :: k' != k ==> Lookup(r, k') == Lookup(a, k'))
      && |Keys(a)| <= |Keys(r)| && Keys(r)[..|Keys(a)|] == Keys(a)
  {
    if k !in Keys(a) {
      AssignLookup(a, k, v);
      AssignKeys(a, k, v);
    }
  }

  /** A `tvg-name` and a `tvg-logo` are added when missing. */
  function WithDefaults(attrs: Attributes, name: string): (r: Attributes)
    requires UniqueKeys(attrs)
    ensures UniqueKeys(r)
  {
    SetDefault(SetDefault(attrs, "tvg-name", name), "tvg-logo", LogoOf(name))
  }

  /**
   * After the defaults, `tvg-name` and `tvg-logo` are present, keeping a value
   * the channel already had; every other key keeps its value, and the
   * existing keys keep their order ahead of any added one.
   */
  lemma WithDefaultsLookup(attrs: Attributes, name: string)
    requires UniqueKeys(attrs)
    ensures var r := WithDefaults(attrs, name);
      && Lookup(r, "tvg-name") == Some(Lookup(attrs, "tvg-name").GetOr(name))
      && Lookup(r, "tvg-logo") == Some(Lookup(attrs, "tvg-logo").GetOr(LogoOf(name)))
      && (forall k :: k != "tvg-name" && k != "tvg-logo" ==> Lookup(r, k) == Lookup(attrs, k))
      && |Keys(attrs)| <= |Keys(r)| && Keys(r)[..|Keys(attrs)|] == Keys(attrs)
  {
    var a := SetDefault(attrs, "tvg-name", name);
    SetDefaultLookup(attrs, "tvg-name", name);
    SetDefaultLookup(a, "tvg-logo", LogoOf(name));
    PrefixTrans(Keys(attrs), Keys(a), Keys(WithDefaults(attrs, name)));
  }

  lemma PrefixTrans<T>(x: seq<T>, y: seq<T>, z: seq<T>)
    requires |x| <= |y| <= |z| && z[..|y|] == y && y[..|x|] == x
    ensures z[..|x|] == x
  {
    assert z[..|x|] == z[..|y|][..|x|];
  }

  function Piece(k: string, v: string): string {
    " " + k + "=\"" + v + "\""
  }

  /** What one attribute adds to the attribute string; `group-title` adds nothing. */
  function PieceOf(kv: (string, string)): string {
    if kv.0 == "group-title" then "" else Piece(kv.0, kv.1)
  }

  /** The attribute string: ` key="value"` per attribute except `group-title`. */
  function AttrString(a: Attributes): string {
    if a == [] then "" else AttrString(a[..|a| - 1]) + PieceOf(a[|a| - 1])
  }

  function ExtinfLine(name: string, attrs: Attributes): string {
    "#EXTINF:-1" + AttrString(attrs) + "," + name
  }

  /** A channel has what generate_m3u reads: a `clean_name` and a proper dict. */
  predicate Printable(c: Channel) {
    c.cleanName.Some? && UniqueKeys(c.attributes)
  }

  predicate AllPrintable(chs: seq<Channel>) {
    forall i :: 0 <= i < |chs| ==> Printable(chs[i])
  }

  /** The channel after generate_m3u's writes into its attribute dict. */
  function Decorate(c: Channel): Channel
    requires Printable(c)
  {
    c.(attributes := WithDefaults(c.attributes, c.cleanName.value))
  }

  /** Two lines per channel: its `#EXTINF` line and its URL. */
  function M3ULines(chs: seq<Channel>): (lines: seq<string>)
    requires forall i :: 0 <= i < |chs| ==> chs[i].cleanName.Some?
    ensures |lines| == 2 * |chs|
  {
    if chs == [] then []
    else
      var last := chs[|chs| - 1];
      M3ULines(chs[..|chs| - 1]) + [ExtinfLine(last.cleanName.value, last.attributes), last.url]
  }

  /** Line `2i` is the `#EXTINF` line of channel `i`, line `2i + 1` its URL. */
  lemma {:induction false} M3ULinesAt(chs: seq<Channel>)
    requires forall i :: 0 <= i < |chs| ==> chs[i].cleanName.Some?
    ensures forall i :: 0 <= i < |chs| ==>
      M3ULines(chs)[2 * i] == ExtinfLine(chs[i].cleanName.value, chs[i].attributes) &&
      M3ULines(chs)[2 * i + 1] == chs[i].url
    decreases |chs|
  {
    if chs != [] {
      var init, last := chs[..|chs| - 1], chs[|chs| - 1];
      M3ULinesAt(init);
      var pre, lines := M3ULines(init), M3ULines(chs);
      assert lines == pre + [ExtinfLine(last.cleanName.value, last.attributes), last.url];
      forall i | 0 <= i < |chs|
        ensures lines[2 * i] == ExtinfLine(chs[i].cleanName.value, chs[i].attributes)
        ensures lines[2 * i + 1] == chs[i].url
      {
        if i < |chs| - 1 {
          assert chs[i] == init[i];
          assert lines[2 * i] == pre[2 * i] && lines[2 * i + 1] == pre[2 * i + 1];
        }
      }
    }
  }

  /** The attribute string of one dict, built as in the loop over `attrs.items()`. */
  method AttrStringOf(attrs: Attributes) returns (attrStr: string)
    ensures attrStr == AttrString(attrs)
  {
    attrStr := "";
    for m := 0 to |attrs|
      invariant attrStr == AttrString(attrs[..m])
    {
      var (k, v) := attrs[m];
      assert attrs[..m + 1][..m] == attrs[..m];
      if k != "group-title" {
        attrStr := attrStr + Piece(k, v);
      }
    }
    assert attrs[..|attrs|] == attrs;
  }

  /** The writes into one channel's attribute dict, and the `#EXTINF` line built from it. */
  method DecorateItem(item: Channel) returns (decorated: Channel, extinf: string)
    requires Printable(item)
    ensures decorated == Decorate(item)
    ensures extinf == ExtinfLine(item.cleanName.value, decorated.attributes)
  {
    var name := item.cleanName.value;
    var attrs := item.attributes;
    if "tvg-name" !in Keys(attrs) {
      attrs := Assign(attrs, "tvg-name", name);
    }
    if "tvg-logo" !in Keys(attrs) {
      attrs := Assign(attrs, "tvg-logo", LogoBase + name + ".png");
    }
    var attrStr := AttrStringOf(attrs);
    decorated := item.(attributes := attrs);
    extinf := "#EXTINF:-1" + attrStr + "," + name;
  }

  lemma M3ULinesAppend(chs: seq<Channel>, c: Channel)
    requires forall i :: 0 <= i < |chs| ==> chs[i].cleanName.Some?
    requires c.cleanName.Some?
    ensures M3ULines(chs + [c]) == M3ULines(chs) + [ExtinfLine(c.cleanName.value, c.attributes), c.url]
  {
    assert (chs + [c])[..|chs|] == chs;
  }

  /** Every channel after generate_m3u's writes. */
  function DecorateAll(chs: seq<Channel>): (r: seq<Channel>)
    requires AllPrintable(chs)
    ensures |r| == |chs| && forall i :: 0 <= i < |chs| ==> r[i] == Decorate(chs[i])
  {
    if chs == [] then [] else [Decorate(chs[0])] + DecorateAll(chs[1..])
  }

  /** `updated` is the first `|updated|` channels of `chs`, decorated. */
  predicate DecoratedPrefix(updated: seq<Channel>, chs: seq<Channel>)
    requires AllPrintable(chs)
  {
    |updated| <= |chs| && forall i :: 0 <= i < |updated| ==> updated[i] == Decorate(chs[i])
  }

  lemma DecoratedPrefixSnoc(updated: seq<Channel>, chs: seq<Channel>, d: Channel)
    requires AllPrintable(chs) && DecoratedPrefix(updated, chs) && |updated| < |chs|
    requires d == Decorate(chs[|updated|])
    ensures DecoratedPrefix(updated + [d], chs)
  {
    var u := updated + [d];
    forall i | 0 <= i < |u| ensures u[i] == Decorate(chs[i]) {
      if i < |updated| {
        assert u[i] == updated[i];
      }
    }
  }

  lemma DecoratedPrefixAll(updated: seq<Channel>, chs: seq<Channel>)
    requires AllPrintable(chs) && DecoratedPrefix(updated, chs) && |updated| == |chs|
    ensures updated == DecorateAll(chs)
  {
  }

  /** generate_m3u: the text, and the channels with the attribute writes it makes. */
  method GenerateM3U(chs: seq<Channel>) returns (text: string, updated: seq<Channel>)
    requires AllPrintable(chs)
    ensures updated == DecorateAll(chs)
    ensures text == Join([HeaderLine()] + M3ULines(updated), "\n")
  {
    var lines := [HeaderLine()];
    updated := [];
    for n := 0 to |chs|
      invariant |updated| == n && DecoratedPrefix(updated, chs)
      invariant lines == [HeaderLine()] + M3ULines(updated)
    {
      var item := chs[n];
      var decorated, extinf := DecorateItem(item);
      M3ULinesAppend(updated, decorated);
      ConcatAssoc([HeaderLine()], M3ULines(updated), [extinf, item.url]);
      DecoratedPrefixSnoc(updated, chs, decorated);
      lines := lines + [extinf, item.url];
      updated := updated + [decorated];
    }
    DecoratedPrefixAll(updated, chs);
    text := Join(lines, "\n");
  }
}
