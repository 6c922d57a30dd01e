/**
 * Policy filtering (collector.py:125-178): the whitelist and blacklist
 * substring rules, the keyword match on the cleaned name, and the IPv6 block.
 */
module Filter {

  import opened Wrappers
  import opened Text
  import opened Names
  import opened Channels

  /** The chinese word for "whitelist", the keyword given to whitelisted fallbacks. */
  const WhitelistKeyword: string := "\U{767d}\U{540d}\U{5355}"

  /**
   * The arguments of filter_playlist. A missing blacklist or whitelist is the
   * empty list. `hostname` stands for `urlparse(url).hostname` (`None` also
   * when urlparse raises) and `ipv6Supported` for `is_ipv6_supported()`.
   */
  datatype Policy = Policy(
    keywords: seq<string>,
    blacklist: seq<string>,
    whitelist: seq<string>,
    ipv6Supported: bool,
    hostname: string -> Option<string>)

  /** Some whitelist term occurs in the URL. */
  predicate Whitelisted(url: string, whitelist: seq<string>) {
    exists i :: 0 <= i < |whitelist| && Contains(url, whitelist[i])
  }

  /** A blacklist term that also occurs in the channel's own source URL does not apply to it. */
  predicate Exempt(c: Channel, term: string) {
    c.sourceUrl.Some? && Contains(c.sourceUrl.value, term)
  }

  /** Some blacklist term occurs in the URL without being exempt. */
  predicate Blacklisted(c: Channel, blacklist: seq<string>) {
    exists i :: 0 <= i < |blacklist| && Contains(c.url, blacklist[i]) && !Exempt(c, blacklist[i])
  }

  /** is_ipv6_url: the host name is present, non-empty and holds a colon. */
  predicate IsIpv6Url(host: Option<string>) {
    host.Some? && ':' in host.value
  }

  /** The URL is a literal IPv6 address and the machine cannot reach one. */
  predicate Ipv6Blocked(c: Channel, p: Policy) {
    IsIpv6Url(p.hostname(c.url)) && !p.ipv6Supported
  }

  /** Index of the first keyword occurring in `name`, or `|keywords|`. */
  function FirstMatch(keywords: seq<string>, name: string): (k: nat)
    ensures k <= |keywords|
    ensures k < |keywords| ==> Contains(name, keywords[k])
    ensures forall j :: 0 <= j < k ==> !Contains(name, keywords[j])
  {
    if keywords == [] then 0
    else if Contains(name, keywords[0]) then 0
    else 1 + FirstMatch(keywords[1..], name)
  }

  /** Index of the last of the first `n` keywords occurring in `name`. */
  function LastMatch(keywords: seq<string>, name: string, n: nat): (r: Option<nat>)
    requires n <= |keywords|
    ensures r.Some? ==> r.value < n && Contains(name, keywords[r.value])
    ensures r.Some? ==> forall j :: r.value < j < n ==> !Contains(name, keywords[j])
    ensures r.None? ==> forall j :: 0 <= j < n ==> !Contains(name, keywords[j])
  {
    if n == 0 then None
    else if Contains(name, keywords[n - 1]) then Some(n - 1)
    else LastMatch(keywords, name, n - 1)
  }

  /** The three writes `item['priority']`, `item['keyword']`, `item['clean_name']`. */
  function Stamp(c: Channel, priority: int, keyword: string, cleaned: string): Channel {
    c.(priority := Some(priority), keyword := Some(keyword), cleanName := Some(cleaned))
  }

  /**
   * The keyword loop. A blocked IPv6 URL goes on to the next keyword after
   * each match, so it is never accepted here and keeps the writes of the last
   * matching keyword.
   */
  function KeywordStage(c: Channel, p: Policy, cleaned: string): (bool, Channel) {
    var kws := p.keywords;
    var k := FirstMatch(kws, cleaned);
    if k == |kws| then (false, c)
    else if !Ipv6Blocked(c, p) then (true, Stamp(c, k, kws[k], cleaned))
    else
      var l := LastMatch(kws, cleaned, |kws|).GetOr(k);
      (false, Stamp(c, l, kws[l], cleaned))
  }

  /** The fate of one item: whether it is appended, and the dict after the writes. */
  function Judge(c: Channel, p: Policy): (bool, Channel) {
    var white := Whitelisted(c.url, p.whitelist);
    if !white && Blacklisted(c, p.blacklist) then (false, c)
    else
      var cleaned := CleanName(c.name);
      var (matched, c1) := KeywordStage(c, p, cleaned);
      if matched then (true, c1)
      else if white then (true, Stamp(c1, |p.keywords|, WhitelistKeyword, cleaned))
      else (false, c1)
  }

  /** The items a per-item verdict keeps, each as the verdict leaves it, in order. */
  function Select(s: seq<Channel>, judge: Channel -> (bool, Channel)): seq<Channel> {
    if s == [] then []
    else
      var j := judge(s[|s| - 1]);
      Select(s[..|s| - 1], judge) + (if j.0 then [j.1] else [])
  }

  /** The list filter_playlist returns. */
  function Filtered(s: seq<Channel>, p: Policy): seq<Channel> {
    Select(s, c => Judge(c, p))
  }

  /** The input list after the in-place writes filter_playlist leaves in its dicts. */
  function Touched(s: seq<Channel>, p: Policy): seq<Channel> {
    if s == [] then [] else Touched(s[..|s| - 1], p) + [Judge(s[|s| - 1], p).1]
  }

  // ------------------------------------------------------------ the loops

  method IsWhitelisted(url: string, whitelist: seq<string>) returns (found: bool)
    ensures found == Whitelisted(url, whitelist)
  {
    found := false;
    var i := 0;
    while i < |whitelist|
      invariant 0 <= i <= |whitelist|
      invariant !found ==> forall j :: 0 <= j < i ==> !Contains(url, whitelist[j])
      invariant found ==> Whitelisted(url, whitelist)
      decreases |whitelist| - i, !found
    {
      if Contains(url, whitelist[i]) {
        found := true;
        break;
      }
      i := i + 1;
    }
  }

  method IsBlacklisted(c: Channel, blacklist: seq<string>) returns (blocked: bool)
    ensures blocked == Blacklisted(c, blacklist)
  {
    blocked := false;
    var i := 0;
    while i < |blacklist|
      invariant 0 <= i <= |blacklist|
      invariant !blocked ==> forall j :: 0 <= j < i ==> !Contains(c.url, blacklist[j]) || Exempt(c, blacklist[j])
      invariant blocked ==> Blacklisted(c, blacklist)
    {
      var term := blacklist[i];
      if Contains(c.url, term) {
        if c.sourceUrl.Some? && Contains(c.sourceUrl.value, term) {
          i := i + 1;
          continue;
        }
        blocked := true;
        break;
      }
      i := i + 1;
    }
  }

  /**
   * The keyword loop (collector.py:154-170): `continue` on a blocked IPv6 URL
   * moves on to the next keyword, after the three writes have been made.
   */
  method MatchKeywords(c: Channel, p: Policy, cleaned: string) returns (matched: bool, item: Channel)
    ensures (matched, item) == KeywordStage(c, p, cleaned)
  {
    item := c;
    matched := false;
    var kws := p.keywords;
    var blocked := IsIpv6Url(p.hostname(c.url)) && !p.ipv6Supported;
    var i := 0;
    while i < |kws|
      invariant 0 <= i <= |kws|
      invariant !matched ==> blocked || forall j :: 0 <= j < i ==> !Contains(cleaned, kws[j])
      invariant !matched ==> item == (match LastMatch(kws, cleaned, i)
                                      case None => c
                                      case Some(l) => Stamp(c, l, kws[l], cleaned))
      invariant matched ==> (true, item) == KeywordStage(c, p, cleaned)
    {
      if Contains(cleaned, kws[i]) {
        item := Stamp(item, i, kws[i], cleaned);
        if blocked {
          i := i + 1;
          continue;
        }
        matched := true;
        break;
      }
      i := i + 1;
    }
  }

  /** The body of the item loop: returns whether the item is appended and the item after its writes. */
  method FilterItem(c: Channel, p: Policy) returns (keep: bool, item: Channel)
    ensures (keep, item) == Judge(c, p)
  {
    item := c;
    keep := false;
    var white := IsWhitelisted(c.url, p.whitelist);
    if !white {
      var black := IsBlacklisted(c, p.blacklist);
      if black {
        return;
      }
    }
    var cleaned := CleanName(c.name);
    var matched;
    matched, item := MatchKeywords(c, p, cleaned);
    keep := matched;
    if !matched && white {
      item := Stamp(item, |p.keywords|, WhitelistKeyword, cleaned);
      keep := true;
    }
  }

  /** filter_playlist: the kept items in order, and the input after the writes. */
  method FilterPlaylist(playlist: seq<Channel>, p: Policy) returns (filtered: seq<Channel>, touched: seq<Channel>)
    ensures filtered == Filtered(playlist, p)
    ensures touched == Touched(playlist, p)
  {
    filtered := [];
    touched := [];
    ghost var judge := c => Judge(c, p);
    for n := 0 to |playlist|
      invariant filtered == Select(playlist[..n], judge)
      invariant touched == Touched(playlist[..n], p)
    {
      var keep, item := FilterItem(playlist[n], p);
      if keep {
        filtered := filtered + [item];
      }
      touched := touched + [item];
      assert playlist[..n + 1][..n] == playlist[..n];
    }
    assert playlist[..|playlist|] == playlist;
  }

  // ------------------------------------------------------------ properties

  /** A whitelisted item is always kept: the blacklist never rejects it. */
  lemma WhitelistAlwaysKept(c: Channel, p: Policy)
    requires Whitelisted(c.url, p.whitelist)
    ensures Judge(c, p).0
  {
  }

  /**
   * When an item is kept: exactly when it is whitelisted, or it is not
   * blacklisted, some keyword occurs in its cleaned name and its URL is not
   * a blocked IPv6 literal.
   */
  lemma KeptIff(c: Channel, p: Policy)
    ensures Judge(c, p).0 <==>
      Whitelisted(c.url, p.whitelist) ||
      (!Blacklisted(c, p.blacklist) && !Ipv6Blocked(c, p) &&
       exists j :: 0 <= j < |p.keywords| && Contains(CleanName(c.name), p.keywords[j]))
  {
    var k := FirstMatch(p.keywords, CleanName(c.name));
    if exists j :: 0 <= j < |p.keywords| && Contains(CleanName(c.name), p.keywords[j]) {
      assert k < |p.keywords|;
    }
  }

  /** A non-whitelisted item is rejected by the blacklist exactly when an unexempt term occurs in its URL. */
  lemma BlacklistIff(c: Channel, p: Policy)
    requires !Whitelisted(c.url, p.whitelist)
    ensures Blacklisted(c, p.blacklist) ==> !Judge(c, p).0 && Judge(c, p).1 == c
    ensures Blacklisted(c, p.blacklist) <==>
      exists i :: 0 <= i < |p.blacklist| && Contains(c.url, p.blacklist[i]) &&
        !(c.sourceUrl.Some? && Contains(c.sourceUrl.value, p.blacklist[i]))
  {
  }

  /**
   * A kept item carries its cleaned name, and either the first keyword of its
   * cleaned name (its index and text) with a reachable URL, or, when whitelisted
   * and no keyword applies, the priority `|keywords|` and the whitelist keyword.
   */
  lemma KeptPriority(c: Channel, p: Policy)
    requires Judge(c, p).0
    ensures var r := Judge(c, p).1; var kws := p.keywords;
      && r.cleanName == Some(CleanName(c.name))
      && r.priority.Some? && 0 <= r.priority.value <= |kws|
      && (r.priority.value < |kws| ==>
            && r.keyword == Some(kws[r.priority.value])
            && Contains(CleanName(c.name), kws[r.priority.value])
            && !Ipv6Blocked(c, p)
            && forall j :: 0 <= j < r.priority.value ==> !Contains(CleanName(c.name), kws[j]))
      && (r.priority.value == |kws| ==>
            && r.keyword == Some(WhitelistKeyword)
            && Whitelisted(c.url, p.whitelist)
            && (Ipv6Blocked(c, p) || forall j :: 0 <= j < |kws| ==> !Contains(CleanName(c.name), kws[j])))
  {
  }

  /** The writes never touch the parsed fields. */
  lemma JudgeKeepsOrigin(c: Channel, p: Policy)
    ensures var r := Judge(c, p).1;
      r.name == c.name && r.url == c.url && r.attributes == c.attributes &&
      r.sourceUrl == c.sourceUrl && r.latency == c.latency && r.resolution == c.resolution
  {
  }

  /**
   * An IPv6 item that cannot be reached and is not whitelisted is dropped, but
   * keeps the writes of the last keyword that matched its name.
   */
  lemma BlockedStaleWrites(c: Channel, p: Policy, l: nat)
    requires !Whitelisted(c.url, p.whitelist) && !Blacklisted(c, p.blacklist) && Ipv6Blocked(c, p)
    requires LastMatch(p.keywords, CleanName(c.name), |p.keywords|) == Some(l)
    ensures !Judge(c, p).0
    ensures Judge(c, p).1 == Stamp(c, l, p.keywords[l], CleanName(c.name))
  {
  }

  /** Indices of the items a verdict keeps, in order. */
  function Origins(s: seq<Channel>, judge: Channel -> (bool, Channel)): seq<nat> {
    if s == [] then []
    else Origins(s[..|s| - 1], judge) + (if judge(s[|s| - 1]).0 then [|s| - 1] else [])
  }

  /** The kept indices, paired with the selected list. */
  lemma {:induction false} OriginsCorrect(s: seq<Channel>, judge: Channel -> (bool, Channel))
    ensures var o := Origins(s, judge);
      && |o| == |Select(s, judge)|
      && (forall j :: 0 <= j < |o| ==> o[j] < |s| && judge(s[o[j]]).0 && Select(s, judge)[j] == judge(s[o[j]]).1)
      && (forall j, k :: 0 <= j < k < |o| ==> o[j] < o[k])
      && (forall i :: 0 <= i < |s| && judge(s[i]).0 ==> i in o)
    decreases |s|
  {
    if s != [] {
      var init := s[..|s| - 1];
      OriginsCorrect(init, judge);
      assert forall i :: 0 <= i < |init| ==> s[i] == init[i];
    }
  }

  /**
   * The filtered list is an order-preserving subsequence of the input: each
   * kept item is taken once, in input order, with its parsed fields unchanged,
   * and no kept item is missing.
   */
  lemma FilteredSubsequence(s: seq<Channel>, p: Policy)
    ensures var o := Origins(s, c => Judge(c, p)); var f := Filtered(s, p);
      && |o| == |f| && (forall j :: 0 <= j < |o| ==> o[j] < |s|)
      && (forall j, k :: 0 <= j < k < |o| ==> o[j] < o[k])
      && (forall j :: 0 <= j < |f| ==>
            f[j].name == s[o[j]].name && f[j].url == s[o[j]].url &&
            f[j].attributes == s[o[j]].attributes && f[j].sourceUrl == s[o[j]].sourceUrl)
      && (forall i :: 0 <= i < |s| && Judge(s[i], p).0 ==> i in o)
  {
    OriginsCorrect(s, c => Judge(c, p));
    var o := Origins(s, c => Judge(c, p));
    forall j | 0 <= j < |o| {
      JudgeKeepsOrigin(s[o[j]], p);
    }
  }

  /** Every kept item has its priority in `[0, |keywords|]` and a cleaned name. */
  lemma FilteredRanked(s: seq<Channel>, p: Policy)
    ensures forall j :: 0 <= j < |Filtered(s, p)| ==>
      var r := Filtered(s, p)[j];
      r.priority.Some? && 0 <= r.priority.value <= |p.keywords| && r.cleanName.Some? && r.keyword.Some?
  {
    OriginsCorrect(s, c => Judge(c, p));
    var o := Origins(s, c => Judge(c, p));
    forall j | 0 <= j < |o| {
      KeptPriority(s[o[j]], p);
    }
  }

  /** The writes keep the list's length and each item's parsed fields. */
  lemma TouchedShape(s: seq<Channel>, p: Policy)
    ensures |Touched(s, p)| == |s|
    ensures forall i :: 0 <= i < |s| ==> Touched(s, p)[i] == Judge(s[i], p).1
  {
    if s != [] {
      TouchedShape(s[..|s| - 1], p);
    }
  }
}
