/**
 * A worked run of the filter, dedup and sort stages: one M3U channel named
 * `CCTV-1_1080M2000(HD)` at `http://a/x`, and a TXT playlist with `CCTV1` at
 * the same URL and `CCTV2` at `http://b/y`, under the keywords
 * `["CCTV1", "CCTV2"]`.
 */
module Scenario {

  import opened Wrappers
  import opened Text
  import opened Channels
  import opened Names
  import opened Filter
  import opened Pipeline
  import Ranking
  import Orders
  import Sorting

  const Keywords: seq<string> := ["CCTV1", "CCTV2"]

  function M3uChannel(): Channel {
    Entry("CCTV-1_1080M2000(HD)", "http://a/x", []).(sourceUrl := Some("http://one/list.m3u"))
  }

  function TxtFirst(): Channel {
    Entry("CCTV1", "http://a/x", []).(sourceUrl := Some("http://two/list.txt"))
  }

  function TxtSecond(): Channel {
    Entry("CCTV2", "http://b/y", []).(sourceUrl := Some("http://two/list.txt"))
  }

  /** No blacklist, no whitelist, IPv6 reachable; the host parser does not matter then. */
  function ScenarioPolicy(hostname: string -> Option<string>): Policy {
    Policy(Keywords, [], [], true, hostname)
  }

  lemma NotContainsChecks()
    ensures !Contains("CCTV-1", "CCTV1") && !Contains("CCTV-1", "CCTV2") && !Contains("CCTV2", "CCTV1")
  {
    ContainsAt("CCTV-1", "CCTV1");
    ContainsAt("CCTV-1", "CCTV2");
    ContainsAt("CCTV2", "CCTV1");
    forall k: nat ensures !OccursAt("CCTV-1", "CCTV1", k) && !OccursAt("CCTV-1", "CCTV2", k) {
      if k == 0 {
        assert "CCTV-1"[0..5][4] == '-';
      } else if k == 1 {
        assert "CCTV-1"[1..6][1] == 'T';
      }
    }
    forall k: nat ensures !OccursAt("CCTV2", "CCTV1", k) {
      if k == 0 {
        assert "CCTV2"[0..5][4] == '2';
      }
    }
  }

  /** With no lists and IPv6 reachable, an item whose cleaned name first holds keyword `k` is kept and stamped. */
  lemma JudgeAccepts(c: Channel, p: Policy, cleaned: string, k: nat)
    requires p.whitelist == [] && p.blacklist == [] && p.ipv6Supported
    requires CleanName(c.name) == cleaned && k < |p.keywords| && FirstMatch(p.keywords, cleaned) == k
    ensures Judge(c, p) == (true, Stamp(c, k, p.keywords[k], cleaned))
  {
  }

  /** With no lists, an item whose cleaned name holds no keyword is dropped untouched. */
  lemma JudgeDrops(c: Channel, p: Policy, cleaned: string)
    requires p.whitelist == [] && p.blacklist == []
    requires CleanName(c.name) == cleaned && FirstMatch(p.keywords, cleaned) == |p.keywords|
    ensures Judge(c, p) == (false, c)
  {
  }

  lemma FirstMatchM3u()
    ensures FirstMatch(Keywords, "CCTV-1") == 2
  {
    NotContainsChecks();
    var kws := Keywords;
    assert !Contains("CCTV-1", kws[0]) && !Contains("CCTV-1", kws[1]);
  }

  lemma FirstMatchFirst()
    ensures FirstMatch(Keywords, "CCTV1") == 0
  {
    assert StartsWith("CCTV1", "CCTV1");
  }

  lemma FirstMatchSecond()
    ensures FirstMatch(Keywords, "CCTV2") == 1
  {
    NotContainsChecks();
    assert StartsWith("CCTV2", "CCTV2");
    var kws := Keywords;
    assert kws[1..] == ["CCTV2"];
  }

  /** The M3U channel's cleaned name `CCTV-1` holds neither keyword: it is dropped untouched. */
  lemma JudgeM3uChannel(hostname: string -> Option<string>)
    ensures Judge(M3uChannel(), ScenarioPolicy(hostname)) == (false, M3uChannel())
  {
    CleanNameExample();
    FirstMatchM3u();
    JudgeDrops(M3uChannel(), ScenarioPolicy(hostname), "CCTV-1");
  }

  lemma JudgeTxtFirst(hostname: string -> Option<string>)
    ensures Judge(TxtFirst(), ScenarioPolicy(hostname)) == (true, Stamp(TxtFirst(), 0, "CCTV1", "CCTV1"))
  {
    CleanNamePlain("CCTV1");
    FirstMatchFirst();
    JudgeAccepts(TxtFirst(), ScenarioPolicy(hostname), "CCTV1", 0);
  }

  lemma JudgeTxtSecond(hostname: string -> Option<string>)
    ensures Judge(TxtSecond(), ScenarioPolicy(hostname)) == (true, Stamp(TxtSecond(), 1, "CCTV2", "CCTV2"))
  {
    CleanNamePlain("CCTV2");
    FirstMatchSecond();
    JudgeAccepts(TxtSecond(), ScenarioPolicy(hostname), "CCTV2", 1);
  }

  function KeptFirst(): Channel {
    Stamp(TxtFirst(), 0, "CCTV1", "CCTV1")
  }

  function KeptSecond(): Channel {
    Stamp(TxtSecond(), 1, "CCTV2", "CCTV2")
  }

  /** Selecting from three items, one verdict at a time. */
  lemma SelectThree(x: Channel, y: Channel, z: Channel, judge: Channel -> (bool, Channel))
    ensures Select([x, y, z], judge) ==
      (if judge(x).0 then [judge(x).1] else []) +
      (if judge(y).0 then [judge(y).1] else []) +
      (if judge(z).0 then [judge(z).1] else [])
  {
    var s := [x, y, z];
    assert s[..2] == [x, y] && [x, y][..1] == [x] && [x][..0] == [];
    assert Select([x], judge) == Select([], judge) + (if judge(x).0 then [judge(x).1] else []);
    assert Select([x, y], judge) == Select([x], judge) + (if judge(y).0 then [judge(y).1] else []);
    assert Select(s, judge) == Select([x, y], judge) + (if judge(z).0 then [judge(z).1] else []);
  }

  /** Two channels with different URLs survive dedup as they are. */
  lemma UniqueTwo(a: Channel, b: Channel)
    requires a.url != b.url
    ensures Unique([a, b]) == [a, b]
  {
    assert [a, b][..1] == [a] && [a][..0] == [];
    assert Urls([a]) == [a.url];
    assert Unique([a]) == Unique([]) + [a];
    assert Unique([a, b]) == Unique([a]) + [b];
  }

  /** Two ranked channels already in priority order stay put. */
  lemma SortTwo(a: Channel, b: Channel)
    requires Ranked(a) && Ranked(b) && a.priority.value < b.priority.value
    ensures Ranking.SortChannels([a, b]) == [a, b]
  {
    var s := [a, b];
    assert s[..1] == [a] && [a][..0] == [];
    var key, cmp := Ranking.KeyOf, Ranking.CmpSortKey;
    assert cmp(key(b), key(a)) == Orders.Gt;
    assert Sorting.SortBy([a], key, cmp) == Sorting.Insert(a, [], key, cmp) == [a];
    assert Sorting.Insert(b, [a], key, cmp) == [a] + Sorting.Insert(b, [], key, cmp);
    assert Sorting.SortBy(s, key, cmp) == Sorting.Insert(b, [a], key, cmp);
  }

  lemma ScenarioFiltered(hostname: string -> Option<string>)
    ensures Filtered([M3uChannel(), TxtFirst(), TxtSecond()], ScenarioPolicy(hostname)) == [KeptFirst(), KeptSecond()]
  {
    var p := ScenarioPolicy(hostname);
    JudgeM3uChannel(hostname);
    JudgeTxtFirst(hostname);
    JudgeTxtSecond(hostname);
    SelectThree(M3uChannel(), TxtFirst(), TxtSecond(), c => Judge(c, p));
  }

  /**
   * The M3U channel cleans to `CCTV-1`, which holds neither keyword, so it is
   * dropped; dedup then keeps the TXT `CCTV1` (priority 0) and `CCTV2`
   * (priority 1).
   */
  lemma ScenarioRun(hostname: string -> Option<string>)
    ensures CleanName(M3uChannel().name) == "CCTV-1"
    ensures Unique(Filtered([M3uChannel(), TxtFirst(), TxtSecond()], ScenarioPolicy(hostname))) == [KeptFirst(), KeptSecond()]
    ensures KeptFirst().cleanName == Some("CCTV1") && KeptFirst().priority == Some(0) && KeptFirst().url == "http://a/x"
    ensures KeptSecond().cleanName == Some("CCTV2") && KeptSecond().priority == Some(1) && KeptSecond().url == "http://b/y"
  {
    CleanNameExample();
    ScenarioFiltered(hostname);
    UniqueTwo(KeptFirst(), KeptSecond());
  }

  /** Both kept channels pass validation with the same latency: the sort leaves `[CCTV1, CCTV2]`. */
  lemma ScenarioSorted(first: Channel, second: Channel, latency: int, r1: string, r2: string)
    requires first == KeptFirst().(latency := Some(latency), resolution := Some(r1))
    requires second == KeptSecond().(latency := Some(latency), resolution := Some(r2))
    ensures Ranking.SortChannels([first, second]) == [first, second]
  {
    SortTwo(first, second);
  }
}
