/**
 * The bookkeeping of `process_playlists` (collector.py:346-438): gathering the
 * parsed playlists with their `source_url`, filtering, first-seen URL dedup,
 * the whitelist split around the reachability pre-check, the skip-validation
 * stamping or the deep check of each channel, and the final sort. What the
 * network answers is given: the text each playlist fetch returned, which URLs
 * the pre-check found reachable, and what each deep check observed.
 */
module Pipeline {

  import opened Wrappers
  import opened Text
  import opened Channels
  import opened Filter
  import M3u
  import Txt
  import Probe
  import Ranking
  import Sorting
  import Orders

  // ------------------------------------------------- gathering and parsing

  /** `"#EXTM3U" in content` decides between the M3U and the TXT parser. */
  function ParsePlaylist(content: string): seq<Channel> {
    if Contains(content, "#EXTM3U") then M3u.M3UFrom(SplitLines(content), 0)
    else Txt.TxtEntries(SplitLines(content))
  }

  /** `channel['source_url'] = url` on every channel of one playlist. */
  function WithSource(chs: seq<Channel>, url: string): (r: seq<Channel>)
    ensures |r| == |chs|
  {
    if chs == [] then [] else WithSource(chs[..|chs| - 1], url) + [chs[|chs| - 1].(sourceUrl := Some(url))]
  }

  /**
   * The channels of all playlists, in playlist order. Each source is its URL
   * and what `fetch_content` returned for it; a failed fetch (`None`) or an
   * empty body is skipped.
   */
  function Gathered(sources: seq<(string, Option<string>)>): seq<Channel> {
    if sources == [] then [] else Gathered(sources[..|sources| - 1]) + Fetched(sources[|sources| - 1])
  }

  /** The channels one fetched playlist contributes: none when it failed or came back empty. */
  function Fetched(source: (string, Option<string>)): seq<Channel> {
    var (url, content) := source;
    if content.None? || content.value == "" then [] else WithSource(ParsePlaylist(content.value), url)
  }

  lemma GatheredStep(sources: seq<(string, Option<string>)>, n: nat)
    requires n < |sources|
    ensures Gathered(sources[..n + 1]) == Gathered(sources[..n]) + Fetched(sources[n])
  {
    assert sources[..n + 1][..n] == sources[..n];
  }

  method StampSource(chs: seq<Channel>, url: string) returns (stamped: seq<Channel>)
    ensures stamped == WithSource(chs, url)
  {
    stamped := [];
    for n := 0 to |chs|
      invariant stamped == WithSource(chs[..n], url)
    {
      assert chs[..n + 1][..n] == chs[..n];
      stamped := stamped + [chs[n].(sourceUrl := Some(url))];
    }
    assert chs[..|chs|] == chs;
  }

  method ReadPlaylist(url: string, content: string) returns (channels: seq<Channel>)
    ensures channels == WithSource(ParsePlaylist(content), url)
  {
    if Contains(content, "#EXTM3U") {
      channels := M3u.ParseM3U(content);
    } else {
      channels := Txt.ParseTxt(content);
    }
    channels := StampSource(channels, url);
  }

  /** The fetch-and-parse loop (collector.py:351-366). */
  method GatherChannels(sources: seq<(string, Option<string>)>) returns (allChannels: seq<Channel>)
    ensures allChannels == Gathered(sources)
  {
    allChannels := [];
    for n := 0 to |sources|
      invariant allChannels == Gathered(sources[..n])
    {
      GatheredStep(sources, n);
      var (url, content) := sources[n];
      if content.None? || content.value == "" {
        continue;
      }
      var channels := ReadPlaylist(url, content.value);
      allChannels := allChannels + channels;
    }
    assert sources[..|sources|] == sources;
  }

  /** Every gathered channel carries the URL of the playlist it came from: here, the `k`-th. */
  lemma {:induction false} GatheredSource(sources: seq<(string, Option<string>)>, i: nat) returns (k: nat)
    requires i < |Gathered(sources)|
    ensures k < |sources| && Gathered(sources)[i].sourceUrl == Some(sources[k].0)
    decreases |sources|
  {
    var init, last := sources[..|sources| - 1], sources[|sources| - 1];
    var head: seq<Channel> := Gathered(init);
    assert Gathered(sources) == head + Fetched(last);
    if i < |head| {
      k := GatheredSource(init, i);
    } else {
      var chs := ParsePlaylist(last.1.value);
      assert Fetched(last) == WithSource(chs, last.0);
      WithSourceAt(chs, last.0, i - |head|);
      k := |sources| - 1;
    }
  }

  lemma {:induction false} WithSourceAt(chs: seq<Channel>, url: string, i: nat)
    requires i < |chs|
    ensures WithSource(chs, url)[i] == chs[i].(sourceUrl := Some(url))
    decreases |chs|
  {
    if i < |chs| - 1 {
      WithSourceAt(chs[..|chs| - 1], url, i);
    }
  }

  // ----------------------------------------------------------------- dedup

  /** The first channel of each URL, in the order the URLs first occur. */
  function Unique(s: seq<Channel>): seq<Channel> {
    if s == [] then []
    else
      var init := s[..|s| - 1];
      Unique(init) + (if s[|s| - 1].url in Urls(init) then [] else [s[|s| - 1]])
  }

  /** The index in `s` of each channel of `Unique(s)`. */
  function UniqueOrigins(s: seq<Channel>): seq<nat> {
    if s == [] then []
    else
      var init := s[..|s| - 1];
      UniqueOrigins(init) + (if s[|s| - 1].url in Urls(init) then [] else [|s| - 1])
  }

  /** The index of the first channel of `s` with this URL. */
  function FirstWithUrl(s: seq<Channel>, url: string): (k: nat)
    requires url in Urls(s)
    ensures k < |s| && s[k].url == url && forall m :: 0 <= m < k ==> s[m].url != url
  {
    if s[0].url == url then 0
    else
      assert Urls(s[1..]) == Urls(s)[1..];
      1 + FirstWithUrl(s[1..], url)
  }

  lemma {:induction false} UniqueOriginsShape(s: seq<Channel>)
    ensures var u, o := Unique(s), UniqueOrigins(s);
      && |o| == |u|
      && (forall j :: 0 <= j < |o| ==> o[j] < |s| && u[j] == s[o[j]])
      && (forall j, k :: 0 <= j < k < |o| ==> o[j] < o[k])
    decreases |s|
  {
    if s != [] {
      UniqueOriginsShape(s[..|s| - 1]);
    }
  }

  lemma {:induction false} UniqueOriginsFirst(s: seq<Channel>)
    ensures forall j :: 0 <= j < |UniqueOrigins(s)| ==> UniqueOrigins(s)[j] < |s|
    ensures forall j, m :: 0 <= j < |UniqueOrigins(s)| && 0 <= m < UniqueOrigins(s)[j] ==>
      s[m].url != s[UniqueOrigins(s)[j]].url
    decreases |s|
  {
    if s != [] {
      var init, last := s[..|s| - 1], s[|s| - 1];
      UniqueOriginsFirst(init);
      var o, o' := UniqueOrigins(init), UniqueOrigins(s);
      forall j | 0 <= j < |o'| ensures o'[j] < |s| {
        if j < |o| {
          assert o'[j] == o[j];
        }
      }
      forall j, m | 0 <= j < |o'| && 0 <= m < o'[j] ensures s[m].url != s[o'[j]].url {
        if j < |o| {
          assert o'[j] == o[j] && o[j] < |init|;
          assert s[m] == init[m] && s[o[j]] == init[o[j]];
        } else {
          assert o'[j] == |s| - 1 && last.url !in Urls(init);
          assert Urls(init)[m] == init[m].url;
        }
      }
    }
  }

  /** The `j`-th kept channel has the URL of `s[i]`. */
  lemma {:induction false} UniqueOriginOf(s: seq<Channel>, i: nat) returns (j: nat)
    requires i < |s|
    ensures j < |UniqueOrigins(s)| && UniqueOrigins(s)[j] < |s| && s[UniqueOrigins(s)[j]].url == s[i].url
    decreases |s|
  {
    var init, last := s[..|s| - 1], s[|s| - 1];
    var o := UniqueOrigins(init);
    UniqueOriginsShape(init);
    if i < |s| - 1 {
      j := UniqueOriginOf(init, i);
      assert UniqueOrigins(s)[j] == o[j];
    } else if last.url in Urls(init) {
      var m :| 0 <= m < |init| && Urls(init)[m] == last.url;
      j := UniqueOriginOf(init, m);
      assert UniqueOrigins(s)[j] == o[j];
    } else {
      j := |o|;
      assert UniqueOrigins(s)[j] == |s| - 1;
    }
  }

  lemma UniqueOriginsCover(s: seq<Channel>)
    ensures forall i :: 0 <= i < |s| ==> s[i].url in Urls(Unique(s))
  {
    UniqueOriginsShape(s);
    forall i | 0 <= i < |s| ensures s[i].url in Urls(Unique(s)) {
      var j := UniqueOriginOf(s, i);
      assert Urls(Unique(s))[j] == s[i].url;
    }
  }

  /**
   * Dedup keeps exactly the first occurrence of every URL: its channels are
   * the channels at strictly increasing indices of `s`, each the first with
   * its URL, and every URL of `s` has its first channel among them.
   */
  lemma UniqueOriginsCorrect(s: seq<Channel>)
    ensures var u, o := Unique(s), UniqueOrigins(s);
      && |o| == |u|
      && (forall j :: 0 <= j < |o| ==> o[j] < |s| && u[j] == s[o[j]])
      && (forall j :: 0 <= j < |o| ==> forall m :: 0 <= m < o[j] ==> s[m].url != s[o[j]].url)
      && (forall j, k :: 0 <= j < k < |o| ==> o[j] < o[k])
      && (forall i :: 0 <= i < |s| ==> s[i].url in Urls(u))
  {
    UniqueOriginsShape(s);
    UniqueOriginsFirst(s);
    UniqueOriginsCover(s);
  }

  /** After dedup no two channels share a URL, and every channel comes from the input. */
  lemma UniqueDistinct(s: seq<Channel>)
    ensures DistinctUrls(Unique(s))
    ensures forall j :: 0 <= j < |Unique(s)| ==> Unique(s)[j] in s
  {
    UniqueOriginsCorrect(s);
    var u, o := Unique(s), UniqueOrigins(s);
    forall j, k | 0 <= j < k < |u| ensures u[j].url != u[k].url {
      assert o[j] < o[k];
    }
  }

  /** Every URL of the input is represented by its first channel. */
  lemma UniqueRepresents(s: seq<Channel>, url: string)
    requires url in Urls(s)
    ensures s[FirstWithUrl(s, url)] in Unique(s)
  {
    var o := UniqueOrigins(s);
    var i := FirstWithUrl(s, url);
    var j := UniqueOriginOf(s, i);
    UniqueOriginsFirst(s);
    assert !(i < o[j]);
    assert o[j] == i;
    UniqueOriginsShape(s);
    assert Unique(s)[j] == s[i];
  }

  /** The set of URLs of a list. */
  function UrlSet(s: seq<Channel>): set<string> {
    set i | 0 <= i < |s| :: s[i].url
  }

  /** `m` maps the URL of each channel of `values` to that channel. */
  predicate Indexes(m: map<string, Channel>, values: seq<Channel>) {
    forall j :: 0 <= j < |values| ==> values[j].url in m && m[values[j].url] == values[j]
  }

  lemma IndexesExtend(m: map<string, Channel>, values: seq<Channel>, item: Channel)
    requires Indexes(m, values) && item.url !in m
    ensures Indexes(m[item.url := item], values + [item])
  {
    var m', values' := m[item.url := item], values + [item];
    forall j | 0 <= j < |values'| ensures values'[j].url in m' && m'[values'[j].url] == values'[j] {
      if j < |values| {
        assert values'[j] == values[j] && values[j].url != item.url;
      }
    }
  }

  /** One item more: its URL joins the set, and it joins the unique list when its URL is new. */
  lemma DedupStep(s: seq<Channel>, n: nat)
    requires n < |s|
    ensures UrlSet(s[..n + 1]) == UrlSet(s[..n]) + {s[n].url}
    ensures Unique(s[..n + 1]) == Unique(s[..n]) + (if s[n].url in UrlSet(s[..n]) then [] else [s[n]])
  {
    var prefix, item := s[..n], s[n];
    assert s[..n + 1] == prefix + [item];
    assert s[..n + 1][..n] == prefix;
    assert (item.url in Urls(prefix)) == (item.url in UrlSet(prefix)) by {
      if item.url in Urls(prefix) {
        var m :| 0 <= m < |prefix| && Urls(prefix)[m] == item.url;
        assert prefix[m].url == item.url;
      }
    }
  }

  /**
   * The dedup loop (collector.py:375-385). `uniqueUrls` is the dict and
   * `values` its values in insertion order, `list(unique_urls.values())`.
   */
  method Deduplicate(filtered: seq<Channel>) returns (deduped: seq<Channel>)
    ensures deduped == Unique(filtered)
  {
    var uniqueUrls: map<string, Channel> := map[];
    var values: seq<Channel> := [];
    for n := 0 to |filtered|
      invariant values == Unique(filtered[..n])
      invariant uniqueUrls.Keys == UrlSet(filtered[..n])
      invariant Indexes(uniqueUrls, values)
    {
      var item := filtered[n];
      DedupStep(filtered, n);
      if item.url !in uniqueUrls {
        IndexesExtend(uniqueUrls, values, item);
        uniqueUrls := uniqueUrls[item.url := item];
        values := values + [item];
      }
    }
    assert filtered[..|filtered|] == filtered;
    deduped := values;
  }

  // ----------------------------------------------------- the pre-check split

  /** The elements of `s` that satisfy `p`, in order. */
  function Keep<T>(s: seq<T>, p: T -> bool): seq<T> {
    if s == [] then [] else Keep(s[..|s| - 1], p) + (if p(s[|s| - 1]) then [s[|s| - 1]] else [])
  }

  lemma {:induction false} KeepMembers<T>(s: seq<T>, p: T -> bool)
    ensures forall x :: x in Keep(s, p) <==> x in s && p(x)
    decreases |s|
  {
    if s != [] {
      KeepMembers(s[..|s| - 1], p);
      assert s == s[..|s| - 1] + [s[|s| - 1]];
    }
  }

  /** `Keep` with `p` and with its negation split `s` into two parts that together hold all of it. */
  lemma {:induction false} KeepPartition<T>(s: seq<T>, p: T -> bool)
    ensures multiset(Keep(s, p)) + multiset(Keep(s, x => !p(x))) == multiset(s)
    decreases |s|
  {
    if s != [] {
      var init, x := s[..|s| - 1], s[|s| - 1];
      var q := x => !p(x);
      KeepPartition(init, p);
      assert Keep(s, p) == Keep(init, p) + (if p(x) then [x] else []);
      assert Keep(s, q) == Keep(init, q) + (if q(x) then [x] else []);
      assert s == init + [x];
      assert multiset(s) == multiset(init) + multiset{x};
    }
  }

  function IsWhite(whitelist: seq<string>): Channel -> bool {
    (c: Channel) => Whitelisted(c.url, whitelist)
  }

  function IsNotWhite(whitelist: seq<string>): Channel -> bool {
    (c: Channel) => !Whitelisted(c.url, whitelist)
  }

  function IsReachable(reachable: string -> bool): Channel -> bool {
    (c: Channel) => reachable(c.url)
  }

  /**
   * The channels that go on to the deep check. `reachable` says which URLs
   * the asynchronous status check answered with 200; it keeps the order of
   * its input. With a non-empty whitelist, whitelisted channels skip it and
   * are appended after the checked ones.
   */
  function PreChecked(deduped: seq<Channel>, whitelist: seq<string>, reachable: string -> bool): seq<Channel> {
    if whitelist != [] then
      Keep(Keep(deduped, IsNotWhite(whitelist)), IsReachable(reachable)) + Keep(deduped, IsWhite(whitelist))
    else Keep(deduped, IsReachable(reachable))
  }

  /** The split loop of collector.py:392-399. */
  method SplitWhitelisted(deduped: seq<Channel>, whitelist: seq<string>) returns (toCheck: seq<Channel>, skipped: seq<Channel>)
    ensures toCheck == Keep(deduped, IsNotWhite(whitelist))
    ensures skipped == Keep(deduped, IsWhite(whitelist))
  {
    toCheck, skipped := [], [];
    for n := 0 to |deduped|
      invariant toCheck == Keep(deduped[..n], IsNotWhite(whitelist))
      invariant skipped == Keep(deduped[..n], IsWhite(whitelist))
    {
      assert deduped[..n + 1][..n] == deduped[..n];
      var item := deduped[n];
      var white := IsWhitelisted(item.url, whitelist);
      if white {
        skipped := skipped + [item];
      } else {
        toCheck := toCheck + [item];
      }
    }
    assert deduped[..|deduped|] == deduped;
  }

  /** `run_async_check`: the channels whose URL answered 200, in their order. */
  method RunAsyncCheck(items: seq<Channel>, reachable: string -> bool) returns (validItems: seq<Channel>)
    ensures validItems == Keep(items, IsReachable(reachable))
  {
    validItems := [];
    for n := 0 to |items|
      invariant validItems == Keep(items[..n], IsReachable(reachable))
    {
      assert items[..n + 1][..n] == items[..n];
      if reachable(items[n].url) {
        validItems := validItems + [items[n]];
      }
    }
    assert items[..|items|] == items;
  }

  /** Step 4 of process_playlists (collector.py:388-409). */
  method PreCheck(deduped: seq<Channel>, whitelist: seq<string>, reachable: string -> bool) returns (survivors: seq<Channel>)
    ensures survivors == PreChecked(deduped, whitelist, reachable)
  {
    if whitelist != [] {
      var toCheck, skipped := SplitWhitelisted(deduped, whitelist);
      var checked := [];
      if toCheck != [] {
        checked := RunAsyncCheck(toCheck, reachable);
      }
      survivors := checked + skipped;
    } else {
      survivors := RunAsyncCheck(deduped, reachable);
    }
  }

  /**
   * A channel survives the pre-check exactly when it is whitelisted (and the
   * whitelist is not empty) or its URL answered; nothing else enters.
   */
  lemma PreCheckedMembers(deduped: seq<Channel>, whitelist: seq<string>, reachable: string -> bool)
    ensures forall c :: c in PreChecked(deduped, whitelist, reachable) <==>
      c in deduped && ((whitelist != [] && Whitelisted(c.url, whitelist)) || reachable(c.url))
  {
    KeepMembers(deduped, IsNotWhite(whitelist));
    KeepMembers(deduped, IsWhite(whitelist));
    KeepMembers(deduped, IsReachable(reachable));
    KeepMembers(Keep(deduped, IsNotWhite(whitelist)), IsReachable(reachable));
  }

  // ------------------------------------------------------------ validation

  /** Skip-validation mode: every channel is kept with `latency = 0`. */
  function ZeroLatency(s: seq<Channel>): (r: seq<Channel>)
    ensures |r| == |s|
  {
    if s == [] then [] else ZeroLatency(s[..|s| - 1]) + [s[|s| - 1].(latency := Some(0))]
  }

  /**
   * The channels whose deep check succeeded, stamped with latency and
   * resolution. `observe` gives what the check of each URL observed; results
   * are gathered in submission order.
   */
  function Validated(s: seq<Channel>, observe: string -> Probe.Observation, urljoin: (string, string) -> string): seq<Channel> {
    if s == [] then []
    else
      var last := s[|s| - 1];
      Validated(s[..|s| - 1], observe, urljoin) +
        (match Probe.CheckStreamResult(last, observe(last.url), urljoin)
         case Some(c) => [c]
         case None => [])
  }

  method StampZeroLatency(deduped: seq<Channel>) returns (valid: seq<Channel>)
    ensures valid == ZeroLatency(deduped)
  {
    valid := [];
    for n := 0 to |deduped|
      invariant valid == ZeroLatency(deduped[..n])
    {
      assert deduped[..n + 1][..n] == deduped[..n];
      var item := deduped[n].(latency := Some(0));
      valid := valid + [item];
    }
    assert deduped[..|deduped|] == deduped;
  }

  method ValidateAll(deduped: seq<Channel>, observe: string -> Probe.Observation, urljoin: (string, string) -> string)
    returns (valid: seq<Channel>)
    ensures valid == Validated(deduped, observe, urljoin)
  {
    valid := [];
    for n := 0 to |deduped|
      invariant valid == Validated(deduped[..n], observe, urljoin)
    {
      assert deduped[..n + 1][..n] == deduped[..n];
      var result := Probe.CheckStream(deduped[n], observe(deduped[n].url), urljoin);
      if result.Some? {
        valid := valid + [result.value];
      }
    }
    assert deduped[..|deduped|] == deduped;
  }

  /** Skip-validation keeps every one of the N channels, in order, each with latency 0. */
  lemma {:induction false} ZeroLatencyAt(s: seq<Channel>)
    ensures |ZeroLatency(s)| == |s|
    ensures forall i :: 0 <= i < |s| ==> ZeroLatency(s)[i] == s[i].(latency := Some(0))
    decreases |s|
  {
    if s != [] {
      ZeroLatencyAt(s[..|s| - 1]);
    }
  }

  /** Every validated channel is a channel of the input with latency and resolution set. */
  lemma {:induction false} ValidatedFrom(s: seq<Channel>, observe: string -> Probe.Observation, urljoin: (string, string) -> string)
    ensures |Validated(s, observe, urljoin)| <= |s|
    ensures forall j :: 0 <= j < |Validated(s, observe, urljoin)| ==>
      var v := Validated(s, observe, urljoin)[j];
      v.latency.Some? && v.resolution.Some? &&
      exists i :: 0 <= i < |s| && v == s[i].(latency := v.latency, resolution := v.resolution)
    decreases |s|
  {
    if s != [] {
      var init, last := s[..|s| - 1], s[|s| - 1];
      ValidatedFrom(init, observe, urljoin);
      var head := Validated(init, observe, urljoin);
      var r := Probe.CheckStreamResult(last, observe(last.url), urljoin);
      if r.Some? {
        Probe.CheckStreamSuccess(last, observe(last.url), urljoin);
      }
      forall j | 0 <= j < |Validated(s, observe, urljoin)|
        ensures var v := Validated(s, observe, urljoin)[j];
          v.latency.Some? && v.resolution.Some? &&
          exists i :: 0 <= i < |s| && v == s[i].(latency := v.latency, resolution := v.resolution)
      {
        var v := Validated(s, observe, urljoin)[j];
        if j < |head| {
          assert v == head[j];
          var i :| 0 <= i < |init| && v == init[i].(latency := v.latency, resolution := v.resolution);
          assert s[i] == init[i];
        } else {
          assert v == r.value;
          assert v == s[|s| - 1].(latency := v.latency, resolution := v.resolution);
        }
      }
    }
  }

  // -------------------------------------------------------- the whole run

  /** The keys the sort needs from the filter stage: a priority in range and a cleaned name. */
  predicate Prioritised(c: Channel, keywords: seq<string>) {
    c.priority.Some? && 0 <= c.priority.value <= |keywords| && c.cleanName.Some?
  }

  predicate AllPrioritised(s: seq<Channel>, keywords: seq<string>) {
    forall i :: 0 <= i < |s| ==> Prioritised(s[i], keywords)
  }

  /** The channels that reach the sort. */
  function ValidChannels(sources: seq<(string, Option<string>)>, p: Policy, skipValidation: bool,
                         reachable: string -> bool, observe: string -> Probe.Observation,
                         urljoin: (string, string) -> string): seq<Channel> {
    var deduped := Unique(Filtered(Gathered(sources), p));
    if skipValidation then ZeroLatency(deduped)
    else Validated(PreChecked(deduped, p.whitelist, reachable), observe, urljoin)
  }

  /** The deduplicated channels carry what the filter stage wrote. */
  lemma DedupedPrioritised(s: seq<Channel>, p: Policy)
    ensures AllPrioritised(Unique(Filtered(s, p)), p.keywords)
  {
    FilteredRanked(s, p);
    UniqueDistinct(Filtered(s, p));
    var f := Filtered(s, p);
    forall j | 0 <= j < |Unique(f)| ensures Prioritised(Unique(f)[j], p.keywords) {
      var i :| 0 <= i < |f| && f[i] == Unique(f)[j];
    }
  }

  /** Every channel that reaches the sort has a priority in range, a cleaned name and a latency. */
  lemma ValidChannelsRanked(sources: seq<(string, Option<string>)>, p: Policy, skipValidation: bool,
                            reachable: string -> bool, observe: string -> Probe.Observation,
                            urljoin: (string, string) -> string)
    ensures var v := ValidChannels(sources, p, skipValidation, reachable, observe, urljoin);
      AllPrioritised(v, p.keywords) && Ranking.AllRanked(v)
  {
    var deduped := Unique(Filtered(Gathered(sources), p));
    DedupedPrioritised(Gathered(sources), p);
    if skipValidation {
      ZeroLatencyAt(deduped);
    } else {
      var pre := PreChecked(deduped, p.whitelist, reachable);
      PreCheckedMembers(deduped, p.whitelist, reachable);
      ValidatedFrom(pre, observe, urljoin);
      var v := Validated(pre, observe, urljoin);
      forall j | 0 <= j < |v| ensures Prioritised(v[j], p.keywords) && Ranked(v[j]) {
        var i :| 0 <= i < |pre| && v[j] == pre[i].(latency := v[j].latency, resolution := v[j].resolution);
        assert pre[i] in deduped;
      }
    }
  }

  /** The list process_playlists returns. */
  function Processed(sources: seq<(string, Option<string>)>, p: Policy, skipValidation: bool,
                     reachable: string -> bool, observe: string -> Probe.Observation,
                     urljoin: (string, string) -> string): seq<Channel> {
    var v := ValidChannels(sources, p, skipValidation, reachable, observe, urljoin);
    ValidChannelsRanked(sources, p, skipValidation, reachable, observe, urljoin);
    Ranking.SortChannels(v)
  }

  /** process_playlists without the I/O: fetch results, pre-check answers and deep-check observations are given. */
  method ProcessPlaylists(sources: seq<(string, Option<string>)>, p: Policy, skipValidation: bool,
                          reachable: string -> bool, observe: string -> Probe.Observation,
                          urljoin: (string, string) -> string) returns (result: seq<Channel>)
    ensures result == Processed(sources, p, skipValidation, reachable, observe, urljoin)
  {
    var allChannels := GatherChannels(sources);
    var filtered, _ := FilterPlaylist(allChannels, p);
    var deduped := Deduplicate(filtered);
    var valid;
    if skipValidation {
      valid := StampZeroLatency(deduped);
    } else {
      deduped := PreCheck(deduped, p.whitelist, reachable);
      valid := ValidateAll(deduped, observe, urljoin);
    }
    ValidChannelsRanked(sources, p, skipValidation, reachable, observe, urljoin);
    result := Ranking.SortChannels(valid);
  }

  // ------------------------------------------------------------ properties

  /**
   * The result holds no two channels with the same URL, and in skip-validation
   * mode it holds exactly one channel per deduplicated channel, each with
   * latency 0.
   */
  lemma ProcessedDistinct(sources: seq<(string, Option<string>)>, p: Policy, skipValidation: bool,
                          reachable: string -> bool, observe: string -> Probe.Observation,
                          urljoin: (string, string) -> string)
    ensures DistinctUrls(Processed(sources, p, skipValidation, reachable, observe, urljoin))
    ensures skipValidation ==>
      var r := Processed(sources, p, skipValidation, reachable, observe, urljoin);
      |r| == |Unique(Filtered(Gathered(sources), p))| &&
      forall i :: 0 <= i < |r| ==> r[i].latency == Some(0)
  {
    var v := ValidChannels(sources, p, skipValidation, reachable, observe, urljoin);
    var r := Processed(sources, p, skipValidation, reachable, observe, urljoin);
    ValidChannelsRanked(sources, p, skipValidation, reachable, observe, urljoin);
    assert r == Sorting.SortBy(v, Ranking.KeyOf, Ranking.CmpSortKey);
    Sorting.SortPermutation(v, Ranking.KeyOf, Ranking.CmpSortKey);
    ValidDistinct(sources, p, skipValidation, reachable, observe, urljoin);
    PermutationDistinct(v, r);
    if skipValidation {
      var deduped := Unique(Filtered(Gathered(sources), p));
      ZeroLatencyAt(deduped);
      PermutationZeroLatency(v, r);
    }
  }

  /** The channels that reach the sort have distinct URLs, with or without validation. */
  lemma ValidDistinct(sources: seq<(string, Option<string>)>, p: Policy, skipValidation: bool,
                      reachable: string -> bool, observe: string -> Probe.Observation,
                      urljoin: (string, string) -> string)
    ensures DistinctUrls(ValidChannels(sources, p, skipValidation, reachable, observe, urljoin))
  {
    var deduped := Unique(Filtered(Gathered(sources), p));
    UniqueDistinct(Filtered(Gathered(sources), p));
    if skipValidation {
      ZeroLatencyAt(deduped);
    } else {
      var pre := PreChecked(deduped, p.whitelist, reachable);
      DistinctSub(deduped, pre, p.whitelist, reachable);
      ValidatedDistinct(pre, observe, urljoin);
    }
  }

  /** A reordering of channels that all have latency 0 has the same length and the same latencies. */
  lemma PermutationZeroLatency(v: seq<Channel>, r: seq<Channel>)
    requires multiset(r) == multiset(v) && forall i :: 0 <= i < |v| ==> v[i].latency == Some(0)
    ensures |r| == |v| && forall i :: 0 <= i < |r| ==> r[i].latency == Some(0)
  {
    assert |r| == |v| by { assert |multiset(r)| == |multiset(v)|; }
    forall i | 0 <= i < |r| ensures r[i].latency == Some(0) {
      assert r[i] in multiset(v);
      var k :| 0 <= k < |v| && v[k] == r[i];
    }
  }

  /** The pre-check keeps distinct URLs distinct. */
  lemma DistinctSub(deduped: seq<Channel>, pre: seq<Channel>, whitelist: seq<string>, reachable: string -> bool)
    requires DistinctUrls(deduped) && pre == PreChecked(deduped, whitelist, reachable)
    ensures DistinctUrls(pre)
  {
    var white, notWhite, reach := IsWhite(whitelist), IsNotWhite(whitelist), IsReachable(reachable);
    if whitelist != [] {
      var a: seq<Channel> := Keep(Keep(deduped, notWhite), reach);
      var b: seq<Channel> := Keep(deduped, white);
      KeepSubsequence(deduped, notWhite);
      KeepSubsequence(Keep(deduped, notWhite), reach);
      KeepSubsequence(deduped, white);
      KeepMembers(deduped, notWhite);
      KeepMembers(Keep(deduped, notWhite), reach);
      KeepMembers(deduped, white);
      forall i, j | 0 <= i < j < |a + b| ensures (a + b)[i].url != (a + b)[j].url {
        if j < |a| {
        } else if i >= |a| {
          assert (a + b)[i] == b[i - |a|] && (a + b)[j] == b[j - |a|];
        } else {
          var x, y := a[i], b[j - |a|];
          assert x in a && y in b;
          assert !Whitelisted(x.url, whitelist) && Whitelisted(y.url, whitelist);
        }
      }
    } else {
      KeepSubsequence(deduped, reach);
    }
  }

  /** `Keep` takes a subsequence, so it keeps URLs distinct. */
  lemma {:induction false} KeepSubsequence(s: seq<Channel>, p: Channel -> bool)
    requires DistinctUrls(s)
    ensures DistinctUrls(Keep(s, p))
    decreases |s|
  {
    if s != [] {
      var init := s[..|s| - 1];
      KeepSubsequence(init, p);
      KeepMembers(init, p);
      var k := Keep(init, p);
      if p(s[|s| - 1]) {
        forall i | 0 <= i < |k| ensures k[i].url != s[|s| - 1].url {
          assert k[i] in init;
          var m :| 0 <= m < |init| && init[m] == k[i];
        }
      }
    }
  }

  /** Validation keeps distinct URLs distinct: a stamped channel keeps its URL. */
  lemma {:induction false} ValidatedDistinct(s: seq<Channel>, observe: string -> Probe.Observation, urljoin: (string, string) -> string)
    requires DistinctUrls(s)
    ensures DistinctUrls(Validated(s, observe, urljoin))
    decreases |s|
  {
    if s != [] {
      var init, last := s[..|s| - 1], s[|s| - 1];
      ValidatedDistinct(init, observe, urljoin);
      ValidatedFrom(init, observe, urljoin);
      var head := Validated(init, observe, urljoin);
      var r := Probe.CheckStreamResult(last, observe(last.url), urljoin);
      if r.Some? {
        Probe.CheckStreamSuccess(last, observe(last.url), urljoin);
        forall j | 0 <= j < |head| ensures head[j].url != r.value.url {
          var i :| 0 <= i < |init| && head[j] == init[i].(latency := head[j].latency, resolution := head[j].resolution);
        }
      }
    }
  }

  /** A permutation of a list with distinct URLs has distinct URLs. */
  lemma PermutationDistinct(v: seq<Channel>, r: seq<Channel>)
    requires DistinctUrls(v) && multiset(r) == multiset(v)
    ensures DistinctUrls(r)
  {
    forall i, j | 0 <= i < j < |r| ensures r[i].url != r[j].url {
      assert r[i] in multiset(v) && r[j] in multiset(v);
      var a :| 0 <= a < |v| && v[a] == r[i];
      var b :| 0 <= b < |v| && v[b] == r[j];
      DistinctCount(v, a);
      if a == b {
        CountTwice(r, i, j);
        assert false;
      }
    }
  }

  lemma CountTwice(r: seq<Channel>, i: nat, j: nat)
    requires i < j < |r| && r[i] == r[j]
    ensures multiset(r)[r[i]] >= 2
  {
    assert r == r[..i] + [r[i]] + r[i + 1..j] + [r[j]] + r[j + 1..];
  }

  /** In a list with distinct URLs every element occurs once. */
  lemma {:induction false} DistinctCount(v: seq<Channel>, a: nat)
    requires DistinctUrls(v) && a < |v|
    ensures multiset(v)[v[a]] == 1
    decreases |v|
  {
    var init, last := v[..|v| - 1], v[|v| - 1];
    assert v == init + [last];
    if a == |v| - 1 {
      assert v[a] !in init by {
        forall m | 0 <= m < |init| ensures init[m] != last {
          assert init[m].url != last.url;
        }
      }
    } else {
      DistinctCount(init, a);
      assert last.url != v[a].url;
    }
  }

  /**
   * The result is the stable sort of the channels that passed validation: a
   * permutation of them, non-decreasing by `(priority, natural_key(clean_name),
   * latency)`, with exact ties in their prior order.
   */
  lemma ProcessedSorted(sources: seq<(string, Option<string>)>, p: Policy, skipValidation: bool,
                        reachable: string -> bool, observe: string -> Probe.Observation,
                        urljoin: (string, string) -> string)
    ensures var v := ValidChannels(sources, p, skipValidation, reachable, observe, urljoin);
      var r := Processed(sources, p, skipValidation, reachable, observe, urljoin);
      && multiset(r) == multiset(v)
      && (forall i, j :: 0 <= i < j < |r| ==>
            Ranking.CmpSortKey(Ranking.KeyOf(r[i]), Ranking.KeyOf(r[j])) != Orders.Gt)
      && (forall k :: Sorting.WithKey(r, Ranking.KeyOf, k) == Sorting.WithKey(v, Ranking.KeyOf, k))
      && (forall i :: 0 <= i < |r| ==> Prioritised(r[i], p.keywords))
  {
    var v := ValidChannels(sources, p, skipValidation, reachable, observe, urljoin);
    ValidChannelsRanked(sources, p, skipValidation, reachable, observe, urljoin);
    Ranking.SortChannelsCorrect(v);
    var r := Processed(sources, p, skipValidation, reachable, observe, urljoin);
    forall i | 0 <= i < |r| ensures Prioritised(r[i], p.keywords) {
      assert r[i] in multiset(v);
      var k :| 0 <= k < |v| && v[k] == r[i];
    }
  }
}
