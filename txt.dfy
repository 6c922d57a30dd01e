/**
 * The TXT playlist format (collector.py:103-113, 471-483): one `name,url`
 * line per channel, grouped under `genre,#genre#` header lines.
 */
module Txt {

  import opened Wrappers
  import opened Text
  import opened Channels

  const GenreMarker: string := "#genre#"

  /** The chinese word for "other", the genre of a channel without a keyword. */
  const OtherGenre: string := "\U{5176}\U{4ed6}"

  /** A line parse_txt turns into a channel: it has a comma and is not a genre header. */
  predicate IsEntryLine(line: string) {
    ',' in line && !Contains(line, GenreMarker)
  }

  /** The channel of an entry line: the stripped first and second comma-separated fields. */
  function EntryOf(line: string): (c: Channel)
    requires ',' in line
    ensures Trimmed(c.name) && Trimmed(c.url) && c.attributes == []
    ensures ',' !in c.name && ',' !in c.url
  {
    var parts := Split(line, ',');
    assert ',' !in parts[0] && ',' !in parts[1];
    StripNoChar(parts[0], ',');
    StripNoChar(parts[1], ',');
    Entry(Strip(parts[0]), Strip(parts[1]), [])
  }

  lemma StripNoChar(s: string, c: char)
    requires c !in s
    ensures c !in Strip(s)
  {
    StripSlice(s);
  }

  /** The channels parse_txt reads from a list of lines. */
  function TxtEntries(lines: seq<string>): (r: seq<Channel>)
    ensures |r| <= |lines|
  {
    if lines == [] then []
    else
      var line := lines[|lines| - 1];
      TxtEntries(lines[..|lines| - 1]) + (if IsEntryLine(line) then [EntryOf(line)] else [])
  }

  /** parse_txt. */
  method ParseTxt(content: string) returns (playlist: seq<Channel>)
    ensures playlist == TxtEntries(SplitLines(content))
  {
    var lines := SplitLines(content);
    playlist := [];
    for n := 0 to |lines|
      invariant playlist == TxtEntries(lines[..n])
    {
      var line := lines[n];
      if ',' in line && !Contains(line, GenreMarker) {
        var parts := Split(line, ',');
        var name := Strip(parts[0]);
        var url := Strip(parts[1]);
        playlist := playlist + [Entry(name, url, [])];
      }
      assert lines[..n + 1][..n] == lines[..n];
    }
    assert lines[..|lines|] == lines;
  }

  /** `item.get('keyword', '其他')`. */
  function Genre(c: Channel): string {
    c.keyword.GetOr(OtherGenre)
  }

  /** Every channel has the `clean_name` generate_txt reads. */
  predicate AllCleaned(chs: seq<Channel>) {
    forall i :: 0 <= i < |chs| ==> chs[i].cleanName.Some?
  }

  function HeaderLine(genre: string): string {
    genre + "," + GenreMarker
  }

  function EntryLine(c: Channel): string
    requires c.cleanName.Some?
  {
    c.cleanName.value + "," + c.url
  }

  /** The lines generate_txt writes after the genre `current`: a header wherever the genre changes. */
  function TxtLines(chs: seq<Channel>, current: Option<string>): seq<string>
    requires AllCleaned(chs)
  {
    if chs == [] then []
    else
      var g := Genre(chs[0]);
      (if current != Some(g) then [HeaderLine(g)] else []) + [EntryLine(chs[0])] + TxtLines(chs[1..], Some(g))
  }

  /** generate_txt. */
  method GenerateTxt(chs: seq<Channel>) returns (text: string)
    requires AllCleaned(chs)
    ensures text == Join(TxtLines(chs, None), "\n")
  {
    var lines: seq<string> := [];
    var current: Option<string> := None;
    for n := 0 to |chs|
      invariant lines + TxtLines(chs[n..], current) == TxtLines(chs, None)
    {
      var item := chs[n];
      var genre := item.keyword.GetOr(OtherGenre);
      var header := if current != Some(genre) then [HeaderLine(genre)] else [];
      var before, rest := lines, TxtLines(chs[n + 1..], Some(genre));
      TxtLinesStep(chs, n, current);
      ConcatAssoc3(before, header, [EntryLine(item)], rest);
      if Some(genre) != current {
        lines := lines + [genre + "," + GenreMarker];
        current := Some(genre);
      }
      lines := lines + [item.cleanName.value + "," + item.url];
      assert lines == before + header + [EntryLine(item)] && current == Some(genre);
    }
    assert chs[|chs|..] == [];
    assert lines + [] == lines;
    text := Join(lines, "\n");
  }

  /** The lines from channel `n` on: its header if the genre changes, its entry, then the rest. */
  lemma TxtLinesStep(chs: seq<Channel>, n: nat, current: Option<string>)
    requires AllCleaned(chs) && n < |chs|
    ensures var g := Genre(chs[n]);
      TxtLines(chs[n..], current) ==
        (if current != Some(g) then [HeaderLine(g)] else []) + [EntryLine(chs[n])] + TxtLines(chs[n + 1..], Some(g))
  {
    assert chs[n..][0] == chs[n] && chs[n..][1..] == chs[n + 1..];
  }

  lemma ConcatAssoc3<T>(a: seq<T>, b: seq<T>, c: seq<T>, d: seq<T>)
    ensures a + (b + c + d) == a + b + c + d
  {
  }

  // ------------------------------------------------------------ properties

  /** One entry line per channel, in order, with a header line each time the genre changes. */
  lemma {:induction false} TxtLinesShape(chs: seq<Channel>, current: Option<string>)
    requires AllCleaned(chs)
    ensures |TxtLines(chs, current)| >= |chs|
    ensures chs != [] ==> TxtLines(chs, current)[|TxtLines(chs, current)| - 1] == EntryLine(chs[|chs| - 1])
    ensures chs != [] && current == Some(Genre(chs[0])) ==> TxtLines(chs, current)[0] == EntryLine(chs[0])
    ensures chs != [] && current != Some(Genre(chs[0])) ==>
      TxtLines(chs, current)[0] == HeaderLine(Genre(chs[0])) && TxtLines(chs, current)[1] == EntryLine(chs[0])
    decreases |chs|
  {
    if chs != [] {
      TxtLinesShape(chs[1..], Some(Genre(chs[0])));
    }
  }

  /** The genre written before channel `i`: `current` for the first, the previous channel's after that. */
  function PreviousGenre(chs: seq<Channel>, current: Option<string>, i: nat): Option<string>
    requires i < |chs|
  {
    if i == 0 then current else Some(Genre(chs[i - 1]))
  }

  /** generate_txt writes a header before channel `i`. */
  predicate GenreChanges(chs: seq<Channel>, current: Option<string>, i: nat)
    requires i < |chs|
  {
    PreviousGenre(chs, current, i) != Some(Genre(chs[i]))
  }

  /** The index in `TxtLines(chs, current)` of channel `i`'s entry line. */
  function EntryPos(chs: seq<Channel>, current: Option<string>, i: nat): nat
    requires i < |chs|
    decreases i
  {
    var h := if current != Some(Genre(chs[0])) then 1 else 0;
    if i == 0 then h else h + 1 + EntryPos(chs[1..], Some(Genre(chs[0])), i - 1)
  }

  /** The entry lines of a list without its first channel follow that channel's header and entry. */
  lemma TxtLinesTail(chs: seq<Channel>, current: Option<string>)
    requires AllCleaned(chs) && chs != []
    ensures AllCleaned(chs[1..])
    ensures var g0 := Genre(chs[0]);
      TxtLines(chs, current) ==
        (if current != Some(g0) then [HeaderLine(g0)] else []) + [EntryLine(chs[0])] + TxtLines(chs[1..], Some(g0))
  {
    forall k | 0 <= k < |chs[1..]| ensures chs[1..][k].cleanName.Some? {
      assert chs[1..][k] == chs[k + 1];
    }
  }

  /** Channel `i`'s entry line sits at `EntryPos`. */
  lemma {:induction false} TxtLinesEntryAt(chs: seq<Channel>, current: Option<string>, i: nat)
    requires AllCleaned(chs) && i < |chs|
    ensures var lines, p := TxtLines(chs, current), EntryPos(chs, current, i);
      p < |lines| && lines[p] == EntryLine(chs[i])
    decreases i
  {
    TxtLinesTail(chs, current);
    if i > 0 {
      TxtLinesEntryAt(chs[1..], Some(Genre(chs[0])), i - 1);
      assert chs[1..][i - 1] == chs[i];
    }
  }

  /**
   * The line before channel `i`'s entry is its genre's header when the genre
   * changes, and otherwise the previous channel's entry; a first channel that
   * continues `current` comes first.
   */
  lemma {:induction false} TxtLinesAt(chs: seq<Channel>, current: Option<string>, i: nat)
    requires AllCleaned(chs) && i < |chs|
    ensures var lines, p := TxtLines(chs, current), EntryPos(chs, current, i);
      && p < |lines| && lines[p] == EntryLine(chs[i])
      && (i == 0 ==> p == if GenreChanges(chs, current, 0) then 1 else 0)
      && (GenreChanges(chs, current, i) ==> p > 0 && lines[p - 1] == HeaderLine(Genre(chs[i])))
      && (!GenreChanges(chs, current, i) && i > 0 ==> p > 0 && lines[p - 1] == EntryLine(chs[i - 1]))
    decreases i
  {
    TxtLinesEntryAt(chs, current, i);
    TxtLinesTail(chs, current);
    var g0 := Genre(chs[0]);
    if i > 0 {
      TxtLinesAt(chs[1..], Some(g0), i - 1);
      assert chs[1..][i - 1] == chs[i];
      if i > 1 {
        assert chs[1..][i - 2] == chs[i - 1];
      }
    }
  }

  /** Consecutive entries are one line apart, or two when a header comes between them. */
  lemma {:induction false} EntryPosNext(chs: seq<Channel>, current: Option<string>, i: nat)
    requires i + 1 < |chs|
    ensures EntryPos(chs, current, i + 1) ==
      EntryPos(chs, current, i) + 1 + if GenreChanges(chs, current, i + 1) then 1 else 0
    decreases i
  {
    var g0 := Genre(chs[0]);
    assert chs[1..][i] == chs[i + 1];
    if i > 0 {
      EntryPosNext(chs[1..], Some(g0), i - 1);
      assert chs[1..][i - 1] == chs[i];
    }
  }

  /** The last channel's entry is the last line: there is no line but headers and entries. */
  lemma {:induction false} TxtLinesLength(chs: seq<Channel>, current: Option<string>)
    requires AllCleaned(chs) && chs != []
    ensures |TxtLines(chs, current)| == EntryPos(chs, current, |chs| - 1) + 1
    decreases |chs|
  {
    var g0 := Genre(chs[0]);
    if |chs| > 1 {
      assert AllCleaned(chs[1..]) by {
        forall k | 0 <= k < |chs[1..]| ensures chs[1..][k].cleanName.Some? { assert chs[1..][k] == chs[k + 1]; }
      }
      TxtLinesLength(chs[1..], Some(g0));
    } else {
      assert chs[1..] == [];
    }
  }

  lemma {:induction false} TxtEntriesAppend(a: seq<string>, b: seq<string>)
    ensures TxtEntries(a + b) == TxtEntries(a) + TxtEntries(b)
    decreases |b|
  {
    if b == [] {
      assert a + b == a;
    } else {
      var init, line := b[..|b| - 1], b[|b| - 1];
      var tail := if IsEntryLine(line) then [EntryOf(line)] else [];
      assert (a + b)[..|a + b| - 1] == a + init;
      assert (a + b)[|a + b| - 1] == line;
      assert TxtEntries(a + b) == TxtEntries(a + init) + tail;
      assert TxtEntries(b) == TxtEntries(init) + tail;
      TxtEntriesAppend(a, init);
    }
  }

  /** A channel that survives a round trip through the TXT format. */
  predicate FitsTxt(c: Channel) {
    && c.cleanName.Some?
    && var n := c.cleanName.value;
    && ',' !in n && ',' !in c.url
    && NoLineBreak(n) && NoLineBreak(c.url) && NoLineBreak(Genre(c))
    && !Contains(n, GenreMarker) && !Contains(c.url, GenreMarker)
    && Trimmed(n) && Trimmed(c.url)
  }

  predicate AllFitTxt(chs: seq<Channel>) {
    AllCleaned(chs) && forall i :: 0 <= i < |chs| ==> FitsTxt(chs[i])
  }

  lemma NoBreakAppend(a: string, b: string)
    requires NoLineBreak(a) && NoLineBreak(b)
    ensures NoLineBreak(a + b)
  {
    assert forall i :: 0 <= i < |a + b| ==> (a + b)[i] == if i < |a| then a[i] else b[i - |a|];
  }

  /** An entry line reads back as its channel's cleaned name and URL. */
  lemma EntryLineRoundTrip(c: Channel)
    requires FitsTxt(c)
    ensures IsEntryLine(EntryLine(c))
    ensures EntryOf(EntryLine(c)) == Entry(c.cleanName.value, c.url, [])
  {
    var n := c.cleanName.value;
    assert EntryLine(c) == n + [','] + c.url;
    NotContainsAcross(n, ',', c.url, GenreMarker);
    SplitPair(n, ',', c.url);
  }

  lemma EntryLineNoBreak(c: Channel)
    requires c.cleanName.Some? && NoLineBreak(c.cleanName.value) && NoLineBreak(c.url)
    ensures NoLineBreak(EntryLine(c))
  {
    NoBreakAppend(c.cleanName.value, ",");
    NoBreakAppend(c.cleanName.value + ",", c.url);
  }

  /** A header line is skipped by parse_txt. */
  lemma HeaderLineSkipped(g: string)
    ensures !IsEntryLine(HeaderLine(g))
  {
    ContainsSuffix(g + ",", GenreMarker);
  }

  lemma HeaderLineNoBreak(g: string)
    requires NoLineBreak(g)
    ensures NoLineBreak(HeaderLine(g))
  {
    NoBreakAppend(g + ",", GenreMarker);
    NoBreakAppend(g, ",");
  }

  /** The channels a TXT file holds: the cleaned name and URL of each, in order. */
  function AsEntries(chs: seq<Channel>): (r: seq<Channel>)
    requires AllCleaned(chs)
    ensures |r| == |chs|
    ensures forall i :: 0 <= i < |chs| ==> r[i] == Entry(chs[i].cleanName.value, chs[i].url, [])
  {
    if chs == [] then [] else [Entry(chs[0].cleanName.value, chs[0].url, [])] + AsEntries(chs[1..])
  }

  /** No line holds a line boundary. */
  predicate AllNoBreak(lines: seq<string>) {
    forall i :: 0 <= i < |lines| ==> NoLineBreak(lines[i])
  }

  lemma AllNoBreakConcat(a: seq<string>, b: seq<string>)
    requires AllNoBreak(a) && AllNoBreak(b)
    ensures AllNoBreak(a + b)
  {
    forall i | 0 <= i < |a + b| ensures NoLineBreak((a + b)[i]) {
      if i < |a| {
        assert (a + b)[i] == a[i];
      } else {
        assert (a + b)[i] == b[i - |a|];
      }
    }
  }

  lemma {:induction false} TxtLinesNoBreak(chs: seq<Channel>, current: Option<string>)
    requires AllFitTxt(chs)
    ensures AllNoBreak(TxtLines(chs, current))
    decreases |chs|
  {
    if chs != [] {
      var c := chs[0];
      var g := Genre(c);
      var head := if current != Some(g) then [HeaderLine(g)] else [];
      var rest := TxtLines(chs[1..], Some(g));
      assert AllFitTxt(chs[1..]) by {
        assert forall i :: 0 <= i < |chs[1..]| ==> chs[1..][i] == chs[i + 1];
      }
      TxtLinesNoBreak(chs[1..], Some(g));
      assert FitsTxt(c);
      EntryLineNoBreak(c);
      HeaderLineNoBreak(g);
      assert AllNoBreak(head);
      assert AllNoBreak([EntryLine(c)]);
      AllNoBreakConcat(head, [EntryLine(c)]);
      AllNoBreakConcat(head + [EntryLine(c)], rest);
      assert TxtLines(chs, current) == head + [EntryLine(c)] + rest;
    }
  }

  lemma {:induction false} TxtLinesEntries(chs: seq<Channel>, current: Option<string>)
    requires AllFitTxt(chs)
    ensures TxtEntries(TxtLines(chs, current)) == AsEntries(chs)
    decreases |chs|
  {
    if chs != [] {
      var c := chs[0];
      var g := Genre(c);
      var head := if current != Some(g) then [HeaderLine(g)] else [];
      var rest := TxtLines(chs[1..], Some(g));
      assert AllFitTxt(chs[1..]) by {
        assert forall i :: 0 <= i < |chs[1..]| ==> chs[1..][i] == chs[i + 1];
      }
      TxtLinesEntries(chs[1..], Some(g));
      EntryLineRoundTrip(c);
      HeaderLineSkipped(g);
      assert TxtLines(chs, current) == head + [EntryLine(c)] + rest;
      TxtEntriesAppend(head + [EntryLine(c)], rest);
      TxtEntriesAppend(head, [EntryLine(c)]);
      assert TxtEntries(head) == [];
      assert TxtEntries([EntryLine(c)]) == [EntryOf(EntryLine(c))];
      assert AsEntries(chs) == [Entry(c.cleanName.value, c.url, [])] + AsEntries(chs[1..]);
    }
  }

  /**
   * Round trip: parse_txt of what generate_txt writes gives back one
   * `{name: clean_name, url: url, attributes: {}}` per channel, in order; the
   * genre header lines are skipped.
   */
  lemma TxtRoundTrip(chs: seq<Channel>)
    requires AllFitTxt(chs)
    ensures TxtEntries(SplitLines(Join(TxtLines(chs, None), "\n"))) == AsEntries(chs)
  {
    var lines := TxtLines(chs, None);
    TxtLinesEntries(chs, None);
    TxtLinesNoBreak(chs, None);
    TxtLinesShape(chs, None);
    if chs != [] {
      assert lines[|lines| - 1] == EntryLine(chs[|chs| - 1]);
    }
    SplitLinesJoin(lines);
  }
}
