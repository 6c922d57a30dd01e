# iptv-collector core, modelled in Dafny

This project models the channel pipeline of `collector.py` in iptv-collector.
The collector gathers IPTV playlists (M3U or `name,url` TXT) from a list of
URLs. It keeps the channels whose cleaned name contains a configured keyword,
applying a blacklist and a whitelist, and drops duplicate stream URLs. It then
checks each remaining stream, first with a fast HTTP status check and then
with a deep check that downloads a bounded prefix of the stream and hands it
to ffprobe. Finally it sorts the survivors by keyword priority, natural name
order and latency, and writes them back out as M3U and TXT.

The model covers:

- the text operations the code relies on (`text.dfy`: Python's `strip`,
  `splitlines`, `in`, `split`, `rfind`, `join` and decimal conversion, written
  out for the cases the code uses);
- `clean_name` and `natural_key` (`names.dfy`), with the two regular
  expressions and `re.split(r'(\d+)')` as dedicated string functions;
- `filter_playlist` with its whitelist, blacklist, keyword and IPv6 rules
  (`filter.dfy`);
- the parsers and writers `parse_m3u`, `generate_m3u` (`m3u.dfy`), `parse_txt`
  and `generate_txt` (`txt.dfy`), with `parse_m3u` reading back the names and
  URLs `generate_m3u` writes (`m3u_roundtrip.dfy`);
- the decisions of `check_stream` and `parse_resolution` (`probe.dfy`);
- the bookkeeping of `process_playlists` (`pipeline.dfy`): parser dispatch
  and `source_url` stamping, first-seen URL dedup, the whitelist split around
  the pre-check, skip-validation stamping or the deep check, and the final
  sort (`ranking.dfy`);
- a worked run of the filter, dedup and sort stages (`scenario.dfy`).

Channel dicts are modelled as the value type `Channels.Channel`. An optional
field stands for a dict key that may be absent. Each in-place write to a dict
is a record update, and each loop that makes such writes is a `method`
returning the updated records. Loops that build lists are methods proved
equal to a recursive specification function; the properties are lemmas about
those functions.

The whole network side is given as values rather than performed:

- the text each fetch returned;
- which URLs the status pre-check answered with 200;
- what the deep check of each URL observed (status codes, response text, the
  downloaded chunks with a flag for those arriving after the deadline, the
  ffprobe result, the elapsed time).

The same goes for `urlparse(url).hostname`, `urljoin` and `is_ipv6_supported()`,
which are parameters.

With keywords `["CCTV1", "CCTV2"]`, an M3U channel named
`CCTV-1_1080M2000(HD)` cleans to `CCTV-1`. That name holds neither keyword, so
the code drops it. A TXT channel `CCTV1` with the same URL is then the one kept,
with priority 0. The M3U channel does not survive under those keywords
(`Scenario.ScenarioRun`).

## Model

| member | source | states |
|---|---|---|
| Text.Strip | collector.py:59 | `str.strip()`: the result has no Python whitespace at either end, and a string already trimmed is returned unchanged |
| Text.StripSlice | collector.py:59 | the stripped string is the contiguous slice of the input left after removing the leading and trailing whitespace |
| Text.SplitLines | collector.py:56 | `str.splitlines()`: no line contains a line boundary, and only the empty string gives no lines |
| Text.SplitLinesJoin | collector.py:469 | splitting `"\n".join(lines)` gives `lines` back when no line holds a boundary and the last is non-empty |
| Text.Split | collector.py:108 | `line.split(",")`: the parts hold no separator, joining them with it gives the input back, and there are at least two parts iff the separator occurs |
| Text.LastIndexOf | collector.py:72 | `rfind`: the index of the last occurrence, or `None` exactly when the character does not occur |
| Text.ContainsAt | collector.py:136 | Python's `p in s` holds iff `p` occurs at some offset of `s` |
| Text.DecimalRoundTrip | collector.py:233 | the decimal digits written for a number read back as that number |
| Text.DecimalParseRoundTrip | collector.py:233 | canonical decimal digits read as a number are written back as the same digits |
| Orders.LexTotal | collector.py:436 | Python's element-wise list comparison is a total order when its element comparison is |
| Orders.CmpStringTotal | collector.py:123 | string comparison by code point is a total order |
| Channels.Lookup | collector.py:452 | `d.get(k)`: present iff the key is a key of the dict, and then the value stored under it |
| Channels.AssignKeys | collector.py:84 | `d[k] = v` keeps the key order, appending `k` only when it is new |
| Channels.AssignLookup | collector.py:84 | after `d[k] = v`, `k` maps to `v` and every other key keeps its value |
| Names.CutMarker | collector.py:117 | `re.sub(r'_.+M.+', '', line)`: when the pattern matches, the line is cut at its first `_`; otherwise it is unchanged |
| Names.CloseParen | collector.py:118 | the non-greedy `\(.*?\)` closes at the first `)` before any line break |
| Names.RemoveParensComplete | collector.py:118 | after removing `(...)` groups no group is left, nor one that the removal joins together |
| Names.CleanName | collector.py:115-119 | `clean_name`: the result is trimmed and holds no parenthesised group within a line |
| Names.CleanNameCutsMarker | collector.py:115-119 | a one-line name `a_b` with an `M` inside `b` cleans to `a` |
| Names.CleanNamePlain | collector.py:115-119 | a trimmed one-line name without `_` or `(` is already clean |
| Names.CleanNameExample | collector.py:115-119 | `CCTV-1_1080M2000(HD)` cleans to `CCTV-1` |
| Names.CloseParenFirst | collector.py:118 | the match closes at the first `)` after the `(` when no line break comes before it |
| Names.RemoveParensKeepsPrefix | collector.py:118 | text with no `(` is kept as it is, whatever follows it |
| Names.RemoveParensDropsGroup | collector.py:118 | a one-line group `(g)` is removed whole, and the text after it is treated on its own |
| Names.RemoveParensKeepsOutside | collector.py:118 | `a(g)b` becomes `a` followed by what `b` becomes, when `a` has no `(` and `g` has no `)` or line break: only the group goes |
| Names.CleanNameDropsGroup | collector.py:115-119 | a one-line name `a(g)b` with no `_` cleans to the stripped `a` followed by what `b` becomes |
| Names.CleanNameParenExample | collector.py:115-119 | `CCTV1(HD)` cleans to `CCTV1` |
| Names.NaturalKeyShape | collector.py:121-123 | `natural_key` alternates text and number parts, starting and ending with text, with no digit in a text part |
| Names.NaturalKeyStep | collector.py:123 | a text run followed by a digit run becomes a text part and the digits' value |
| Names.CmpNaturalTotal | collector.py:121-123 | comparing natural keys is a total order, since aligned parts always have the same kind |
| Names.NaturalOrderExample | collector.py:121-123 | `CCTV2` sorts before `CCTV10`, which sorts before `CCTV10HD` |
| Filter.FirstMatch | collector.py:155-156 | the index of the first keyword contained in the name, or the number of keywords when none is |
| Filter.IsWhitelisted | collector.py:133-138 | the whitelist loop finds a match iff some whitelist term occurs in the URL |
| Filter.IsBlacklisted | collector.py:141-148 | the blacklist loop blocks iff some term occurs in the URL and not in the channel's own source URL |
| Filter.MatchKeywords | collector.py:153-170 | the keyword loop accepts at the first matching keyword unless the URL is blocked IPv6; a blocked URL keeps the writes of the last matching keyword |
| Filter.FilterItem | collector.py:131-177 | the verdict and the writes for one item, equal to the reference `Judge` |
| Filter.FilterPlaylist | collector.py:125-178 | the kept list and the input list with the writes made to its dicts |
| Filter.WhitelistAlwaysKept | collector.py:172-177 | a whitelisted channel is always kept |
| Filter.KeptIff | collector.py:131-177 | kept iff whitelisted, or not blacklisted, not blocked IPv6 and some keyword is in the cleaned name |
| Filter.BlacklistIff | collector.py:141-150 | a blacklisted, non-whitelisted item is dropped untouched; blacklisted iff a term is in the URL and not in the source URL |
| Filter.KeptPriority | collector.py:155-177 | a kept item has its cleaned name and a priority in `0..len(keywords)`: either the first matching keyword's index with that keyword, or `len(keywords)` with the whitelist label |
| Filter.JudgeKeepsOrigin | collector.py:157-159 | filtering writes only priority, keyword and clean name |
| Filter.BlockedStaleWrites | collector.py:161-166 | a blocked IPv6 item that matches is dropped but keeps the writes of its last matching keyword |
| Filter.FilteredSubsequence | collector.py:168 | the kept list is the kept items in input order, each with its original name, URL, attributes and source URL |
| Filter.FilteredRanked | collector.py:157-176 | every kept item has a priority in range, a keyword and a cleaned name |
| Filter.TouchedShape | collector.py:131-177 | the input list after filtering holds each item with exactly its writes |
| M3u.MatchAt | collector.py:81 | the regex `([a-zA-Z0-9-]+)="([^"]*)"` matched at the start of a string: a key of allowed characters and a quote-free value |
| M3u.AttributesOf | collector.py:80-84 | the attribute dict built from the matches has unique keys |
| M3u.ReadExtinf | collector.py:63-84 | the name after the last comma (stripped, or `Unknown`) and the attributes of the part before it |
| M3u.LookAhead | collector.py:86-93 | the first later line that is non-empty and not a comment once stripped, stripped, or `""` |
| M3u.NextUrlFirst | collector.py:88-93 | the look-ahead lands on the first URL line after the `#EXTINF` line |
| M3u.M3UFromEntry | collector.py:95-100 | an `#EXTINF` line with a URL line after it yields one entry, and reading resumes after the URL line |
| M3u.M3UFromSkip | collector.py:98-100 | any other line, or an `#EXTINF` line without a URL after it, yields nothing |
| M3u.ReadAt | collector.py:58-100 | one step of the parse loop: the next position is later, and the entries from here are this step's entry followed by those from the next position |
| M3u.ParseM3U | collector.py:53-101 | `parse_m3u` equals the reference scan of the split lines |
| M3u.M3UFromWellFormed | collector.py:95-97 | each parsed entry has a stripped non-empty non-comment URL, a stripped name and unique attribute keys |
| M3u.SetDefaultLookup | collector.py:452-455 | writing a default sets the key only when it is missing, leaves every other key as it was, keeps the keys unique and keeps the old keys first, in their order |
| M3u.WithDefaultsLookup | collector.py:452-455 | after the defaults `tvg-name` is the existing value or the clean name, `tvg-logo` the existing value or the logo URL built from the clean name, and every other key is unchanged, with the old keys first in their order |
| M3u.AttrStringOf | collector.py:461-465 | the attribute string loop gives ` key="value"` for each attribute except `group-title` |
| M3u.DecorateItem | collector.py:447-467 | one channel's `#EXTINF` line, over its attributes after the defaults are added |
| M3u.DecorateAll | collector.py:446-455 | channel `i` after the loop is channel `i` with the defaults written into its dict |
| M3u.M3ULinesAt | collector.py:467-468 | line `2i` is channel `i`'s `#EXTINF` line and line `2i+1` its URL |
| M3u.GenerateM3U | collector.py:440-469 | the header line, then two lines per channel, joined by `\n`, and the channels with the defaults written into their dicts |
| M3uRoundTrip.ExtinfLineReadsBack | collector.py:467 | an `#EXTINF` line written for a name without comma, line break or outer whitespace is one line, is taken as an `#EXTINF` line by the parser, and its text after the last comma is that name |
| M3uRoundTrip.CleanNamesAndUrlsDecorated | collector.py:452-455 | writing the defaults leaves every clean name and URL as it was |
| M3uRoundTrip.HeaderedLines | collector.py:469 | the joined text splits back into exactly the header line and the channel lines |
| M3uRoundTrip.PairEntry | collector.py:58-100 | an `#EXTINF` line directly followed by a URL line yields one channel with that line's name and URL, and the parse resumes two lines on |
| M3uRoundTrip.M3UFromPairs | collector.py:58-100 | after the header line, lines written as `#EXTINF`/URL pairs parse back to every channel's name and URL, in order |
| M3uRoundTrip.M3URoundTrip | collector.py:440-469 | `parse_m3u` reads `generate_m3u`'s text back as one entry per channel, in order, named by its clean name and with its URL, for channels whose clean name has no comma, line break or outer whitespace and whose URL is stripped, not empty, not a comment and on one line |
| Txt.EntryOf | collector.py:108-112 | the stripped first and second fields of a comma line, with no attributes |
| Txt.TxtEntries | collector.py:106-112 | at most one channel per line |
| Txt.ParseTxt | collector.py:103-113 | `parse_txt` equals the reference line filter |
| Txt.GenerateTxt | collector.py:471-483 | `generate_txt` equals the reference line list joined by `\n` |
| Txt.TxtLinesShape | collector.py:475-481 | at least one line per channel; the last line is the last channel's entry; the first channel's entry is preceded by its genre header exactly when its genre differs from the genre before it |
| Txt.TxtLinesEntryAt | collector.py:475-481 | each channel's entry line `clean_name,url` sits at its computed position |
| Txt.TxtLinesAt | collector.py:475-481 | for every channel, the line before its entry is its genre's `genre,#genre#` header exactly when its genre differs from the previous channel's (or, for the first, from none); otherwise it is the previous channel's entry, or nothing for a first channel |
| Txt.EntryPosNext | collector.py:475-481 | consecutive entries are one line apart, or two when a header comes between them |
| Txt.TxtLinesLength | collector.py:475-481 | the last channel's entry is the last line, so the output holds only headers and entries |
| Txt.HeaderLineSkipped | collector.py:107 | a genre header line is never read back as a channel |
| Txt.EntryLineRoundTrip | collector.py:107-112 | a channel line written by generate_txt is read back as that channel's clean name and URL |
| Txt.TxtRoundTrip | collector.py:103-113 | parsing what generate_txt wrote gives back each channel's clean name and URL, in order |
| Probe.FirstSegmentIndex | collector.py:274 | the index of the first line that is non-blank and does not start with `#` |
| Probe.FirstSegment | collector.py:274-277 | no segment iff no line qualifies; otherwise the first qualifying line, stripped |
| Probe.FirstLate | collector.py:312-313 | the first chunk arriving after the 8-second deadline |
| Probe.DownloadSegment | collector.py:303-321 | the download loop equals the reference `Downloaded` |
| Probe.DownloadedShape | collector.py:311-318 | the data is a prefix of the on-time chunks, all of them when under 512 KiB, and under 512 KiB plus one chunk |
| Probe.Chosen | collector.py:230-231 | `a or b`: a non-zero primary dimension wins; otherwise the coded one, which fails when it is `null` |
| Probe.ParseResolution | collector.py:222-237 | no result for unparseable output or no streams; a result iff both chosen dimensions are positive |
| Probe.ResolutionReadsBack | collector.py:233 | the `WxH` string splits on `x` into the two dimensions' canonical digits |
| Probe.CheckStream | collector.py:239-344 | `check_stream` equals the reference decision function over the observations |
| Probe.SegmentUrlCases | collector.py:250-279 | direct media is probed at its own URL; a manifest without a segment line, or whose fetch failed, fails |
| Probe.EmptyDownloadNone | collector.py:320-321 | an empty download fails whatever ffprobe would say |
| Probe.CheckStreamSuccess | collector.py:331-335 | success needs status 200 at every step, non-empty data and an answer from ffprobe on that data; the resolution written is the one parsed from that answer, and only latency and resolution change |
| Pipeline.WithSource | collector.py:362-363 | stamping keeps the number of channels |
| Pipeline.WithSourceAt | collector.py:362-363 | each channel gets its playlist's URL as `source_url`, and nothing else changes |
| Pipeline.ReadPlaylist | collector.py:357-363 | content holding `#EXTM3U` goes to parse_m3u, anything else to parse_txt, and every channel is stamped |
| Pipeline.GatherChannels | collector.py:351-366 | the fetch-and-parse loop skips failed or empty fetches and concatenates the stamped playlists in order |
| Pipeline.GatheredSource | collector.py:362-366 | every gathered channel carries the URL of a given source |
| Pipeline.Deduplicate | collector.py:375-385 | the dict loop keeps the first channel seen for each URL, in first-seen order |
| Pipeline.UniqueOriginsCorrect | collector.py:375-385 | dedup keeps the channels at increasing input positions, each the first with its URL, and every input URL is among them |
| Pipeline.UniqueDistinct | collector.py:375-385 | after dedup no two channels share a URL, and each comes from the input |
| Pipeline.UniqueRepresents | collector.py:379-380 | the first channel with any given URL is kept |
| Pipeline.KeepPartition | collector.py:392-399 | the whitelisted and the non-whitelisted channels together are the whole list |
| Pipeline.SplitWhitelisted | collector.py:392-399 | the split loop sends whitelisted channels to `skipped` and the others to `to_check`, in order |
| Pipeline.RunAsyncCheck | collector.py:191-212 | the pre-check keeps the channels whose URL answered 200, in their order |
| Pipeline.PreCheck | collector.py:388-409 | with a whitelist, the checked non-whitelisted channels followed by every whitelisted one; without one, all channels checked |
| Pipeline.PreCheckedMembers | collector.py:388-409 | a channel passes the pre-check iff it is whitelisted or its URL answered |
| Pipeline.StampZeroLatency | collector.py:414-418 | skip-validation stamps every channel with latency 0 |
| Pipeline.ZeroLatencyAt | collector.py:414-418 | skip-validation keeps all N channels in order, each with latency 0 and otherwise unchanged |
| Pipeline.ValidateAll | collector.py:419-428 | the deep check keeps the channels whose check succeeded, as the check left them |
| Pipeline.ValidatedFrom | collector.py:424-428 | every validated channel is an input channel with only latency and resolution set |
| Pipeline.ValidChannelsRanked | collector.py:436 | every channel that reaches the sort has a priority, a cleaned name and a latency, so the sort key exists |
| Pipeline.ProcessPlaylists | collector.py:346-438 | `process_playlists` equals the reference composition of the stages |
| Pipeline.ProcessedDistinct | collector.py:375-438 | the result has distinct URLs; under skip-validation it has one channel per deduped channel, each with latency 0 |
| Pipeline.ProcessedSorted | collector.py:436 | the result is a permutation of the validated channels, non-decreasing by `(priority, natural_key(clean_name), latency)`, stable for equal keys, with priorities in range |
| Sorting.SortPermutation | collector.py:436 | the sort is a permutation of its input |
| Sorting.SortSorted | collector.py:436 | the sort output is non-decreasing for a total order |
| Sorting.SortStable | collector.py:436 | the sort keeps the relative order of elements with equal keys |
| Sorting.StableSortIsSortBy | collector.py:436 | any sorted list with the same elements per key, in the same order, equals the sort |
| Ranking.CmpSortKeyTotal | collector.py:436 | the key tuple comparison is a total order |
| Ranking.SortChannelsCorrect | collector.py:436 | the channel sort is a permutation, ordered by the key tuple and stable |
| Scenario.ScenarioRun | collector.py:115-178 | `CCTV-1_1080M2000(HD)` cleans to `CCTV-1` and is dropped; dedup keeps TXT `CCTV1` with priority 0 and `CCTV2` with priority 1 |
| Scenario.ScenarioSorted | collector.py:436 | the two kept channels, with equal latencies, stay in the order `CCTV1`, `CCTV2` |

## Left out

- Probe.CheckStream: a URL that `urlparse` rejects, such as one with an unbalanced `[` (`http://[example.com/x`), makes `check_stream` raise `ValueError` while building its headers (collector.py:243-246), before its `try`. A whitelisted channel skips the pre-check (collector.py:396-399) and can reach that point. `future.result()` (collector.py:426) then re-raises, and process_playlists aborts. The model has no failing run: every check gives a channel or `None`.
- Network and process I/O are given as values. This covers `fetch_content`, the aiohttp pre-check, the `requests` calls of `check_stream`, starting, feeding and killing ffprobe, `time.time()`, and the `print` calls.
- The thread pool and `as_completed`: the model gathers deep-check results in submission order. Channels whose sort keys tie exactly can therefore come out in a different order than a real run, which depends on completion order.
- The semaphore, the 500-way concurrency and the timeouts of the pre-check are not modelled; only its outcome per URL is.
- `is_ipv6_supported` probes the network, so it is a boolean in `Filter.Policy`. `urlparse(url).hostname` is the parameter `hostname`, where `None` stands for no host or a parse error. `urljoin` is a parameter too.
- `json.loads` is not modelled: ffprobe's answer arrives as `Probe.ProbeOutput`, either unparseable or a list of streams. A dimension is absent, `null` or an integer; other JSON values for width and height are not modelled.
- `Probe.DownloadSegment`: the 8-second deadline is a flag on each chunk ("arrived late") instead of a clock reading, and iteration stops at the first late chunk, as in the source.
- Byte decoding is left out: `first_chunk.decode('utf-8', errors='ignore')` is given as the decoded string.
- `Text.IsDigit` (used by `natural_key`) accepts only ASCII digits. Python's `\d` and `str.isdigit` also accept other Unicode digits.
- Python dicts are value records. Aliasing between `all_channels`, the filtered list and the deduplicated list is not modelled, since the code never reads a dict back through a second alias after writing it.
- `list.sort` is modelled by value as a stable insertion sort (`Sorting.SortBy`), proved sorted, a permutation and stable. The in-place update of the Python list is not modelled.
- `main.py` is not part of this model: argument parsing, reading the keyword files and writing the output files.
- M3uRoundTrip.M3URoundTrip: reads back names and URLs only, not attributes. `group-title` is never written, and a value holding a quote does not survive the attribute regex.
- The comment test for segment lines is applied to the unstripped line, as in the code (collector.py:274). parse_m3u's look-ahead tests the stripped line (collector.py:89-90).
