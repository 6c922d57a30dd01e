/**
 * The decisions of the deep check `check_stream` (collector.py:222-344): the
 * manifest test on the first chunk, the choice of the first segment line, the
 * bounded download loop and `parse_resolution`. The network, the clock and
 * the ffprobe process are observations handed in as values.
 */
module Probe {

  import opened Wrappers
  import opened Text
  import opened Channels

  type Bytes = seq<bv8>

  /** The download stops once this much data has arrived (512 KiB). */
  const TargetSize: nat := 512 * 1024

  /** `iter_content(chunk_size=4096)` yields chunks of at most this size. */
  const ChunkSize: nat := 4096

  // ------------------------------------------------------------ manifests

  /** The first chunk (decoded) carries a marker of an HLS manifest. */
  predicate IsManifest(firstChunk: string) {
    Contains(firstChunk, "#EXTM3U") || Contains(firstChunk, "#EXTINF")
  }

  /**
   * A line the segment search accepts: not blank once stripped, and not
   * starting with `#` as it stands (the comment test is on the unstripped line).
   */
  predicate IsSegmentLine(line: string) {
    Strip(line) != [] && !StartsWith(line, "#")
  }

  /** No line of the manifest is a segment line. */
  predicate NoSegmentLine(lines: seq<string>) {
    forall j :: 0 <= j < |lines| ==> !IsSegmentLine(lines[j])
  }

  /** Index of the first segment line, or `|lines|`. */
  function FirstSegmentIndex(lines: seq<string>): (k: nat)
    ensures k <= |lines| && (k < |lines| ==> IsSegmentLine(lines[k]))
    ensures forall j :: 0 <= j < k ==> !IsSegmentLine(lines[j])
  {
    if lines == [] || IsSegmentLine(lines[0]) then 0 else 1 + FirstSegmentIndex(lines[1..])
  }

  /**
   * `next((line.strip() for line in lines if line.strip() and not
   * line.startswith("#")), None)`: the first segment line, stripped.
   */
  function FirstSegment(lines: seq<string>): (r: Option<string>)
    ensures r.None? <==> NoSegmentLine(lines)
    ensures r.Some? ==> r.value != [] && Trimmed(r.value)
    ensures r.Some? ==> exists k :: (0 <= k < |lines| && IsSegmentLine(lines[k]) && r.value == Strip(lines[k]) &&
      forall j :: 0 <= j < k ==> !IsSegmentLine(lines[j]))
  {
    var k := FirstSegmentIndex(lines);
    if k == |lines| then None else Some(Strip(lines[k]))
  }

  // ----------------------------------------------------------- the download

  /** One chunk of the segment response, and whether the 8-second deadline had passed when it arrived. */
  datatype Arrival = Arrival(late: bool, chunk: Bytes)

  /** All the bytes of a sequence of arrivals, in order. */
  function Concat(a: seq<Arrival>): Bytes {
    if a == [] then [] else a[0].chunk + Concat(a[1..])
  }

  /** Index of the first arrival after the deadline, or `|a|`. */
  function FirstLate(a: seq<Arrival>): (k: nat)
    ensures k <= |a| && (k < |a| ==> a[k].late)
    ensures forall j :: 0 <= j < k ==> !a[j].late
  {
    if a == [] || a[0].late then 0 else 1 + FirstLate(a[1..])
  }

  /**
   * The buffer the download loop ends with when it has `data` so far: a late
   * arrival stops it, an empty chunk is passed over, and it stops as soon as
   * the buffer reaches `TargetSize`.
   */
  function DownloadFrom(a: seq<Arrival>, data: Bytes): Bytes {
    if a == [] || a[0].late then data
    else if a[0].chunk == [] then DownloadFrom(a[1..], data)
    else
      var more := data + a[0].chunk;
      if |more| >= TargetSize then more else DownloadFrom(a[1..], more)
  }

  function Downloaded(a: seq<Arrival>): Bytes {
    DownloadFrom(a, [])
  }

  /** The loop of collector.py:303-318 over the chunks of the segment response. */
  method DownloadSegment(arrivals: seq<Arrival>) returns (chunkData: Bytes)
    ensures chunkData == Downloaded(arrivals)
  {
    chunkData := [];
    var i := 0;
    while i < |arrivals|
      invariant 0 <= i <= |arrivals|
      invariant DownloadFrom(arrivals[i..], chunkData) == Downloaded(arrivals)
    {
      assert arrivals[i..][1..] == arrivals[i + 1..];
      var arrival := arrivals[i];
      if arrival.late {
        break;
      }
      if arrival.chunk != [] {
        chunkData := chunkData + arrival.chunk;
        if |chunkData| >= TargetSize {
          break;
        }
      }
      i := i + 1;
    }
  }

  lemma {:induction false} DownloadFromShape(a: seq<Arrival>, data: Bytes)
    requires |data| < TargetSize
    ensures var r := DownloadFrom(a, data); var all := data + Concat(a[..FirstLate(a)]);
      && |r| <= |all| && r == all[..|r|]
      && (|r| < TargetSize ==> r == all)
      && ((forall j :: 0 <= j < |a| ==> |a[j].chunk| <= ChunkSize) ==> |r| < TargetSize + ChunkSize)
    decreases |a|
  {
    if a != [] && !a[0].late {
      var rest := a[1..];
      assert a[..FirstLate(a)] == [a[0]] + rest[..FirstLate(rest)];
      assert Concat(a[..FirstLate(a)]) == a[0].chunk + Concat(rest[..FirstLate(rest)]);
      var all := data + Concat(a[..FirstLate(a)]);
      var more := data + a[0].chunk;
      assert all == more + Concat(rest[..FirstLate(rest)]);
      if a[0].chunk == [] {
        assert more == data;
        DownloadFromShape(rest, data);
      } else if |more| >= TargetSize {
        assert all[..|more|] == more;
      } else {
        DownloadFromShape(rest, more);
      }
    }
  }

  /**
   * What the download keeps: a prefix of the bytes that arrived before the
   * deadline; all of them when it ended below the target size; and, since a
   * chunk holds at most 4096 bytes, less than the target plus one chunk.
   */
  lemma DownloadedShape(a: seq<Arrival>)
    ensures var r := Downloaded(a); var onTime := Concat(a[..FirstLate(a)]);
      && |r| <= |onTime| && r == onTime[..|r|]
      && (|r| < TargetSize ==> r == onTime)
      && ((forall j :: 0 <= j < |a| ==> |a[j].chunk| <= ChunkSize) ==> |r| < TargetSize + ChunkSize)
  {
    DownloadFromShape(a, []);
    assert [] + Concat(a[..FirstLate(a)]) == Concat(a[..FirstLate(a)]);
  }

  // ------------------------------------------------------ parse_resolution

  /** A dimension field of the ffprobe JSON stream entry. */
  datatype Dim = Absent | Null | Num(n: int)

  /** The fields of `streams[0]` that parse_resolution reads. */
  datatype StreamInfo = StreamInfo(width: Dim, codedWidth: Dim, height: Dim, codedHeight: Dim)

  /**
   * ffprobe's output after `json.loads`: unparseable, or the `streams` list
   * (a missing key reads as the empty list).
   */
  datatype ProbeOutput = Unparseable | Parsed(streams: seq<StreamInfo>)

  /**
   * `s.get(key) or s.get(coded, 0)`: a missing, null or zero primary field
   * falls back to the coded one, which defaults to 0; `None` stands for a null
   * coded field, whose comparison with 0 raises.
   */
  function Chosen(primary: Dim, coded: Dim): (r: Option<int>)
    ensures primary.Num? && primary.n != 0 ==> r == Some(primary.n)
    ensures !(primary.Num? && primary.n != 0) ==> (r.None? <==> coded.Null?)
  {
    if primary.Num? && primary.n != 0 then Some(primary.n)
    else match coded
      case Absent => Some(0)
      case Null => None
      case Num(m) => Some(m)
  }

  predicate Positive(d: Option<int>) {
    d.Some? && d.value > 0
  }

  /** `f"{width}x{height}"`. */
  function FormatResolution(w: nat, h: nat): string {
    IntToDecimal(w) + "x" + IntToDecimal(h)
  }

  /**
   * parse_resolution: `"WxH"` from the first stream when both chosen
   * dimensions are positive; `None` for unparseable output, no stream, or any
   * other dimension (a raised comparison is caught and also gives `None`).
   */
  function ParseResolution(out: ProbeOutput): (r: Option<string>)
    ensures out.Unparseable? ==> r.None?
    ensures out.Parsed? && out.streams == [] ==> r.None?
    ensures r.Some? <==>
      out.Parsed? && out.streams != [] &&
      Positive(Chosen(out.streams[0].width, out.streams[0].codedWidth)) &&
      Positive(Chosen(out.streams[0].height, out.streams[0].codedHeight))
  {
    if out.Unparseable? || out.streams == [] then None
    else
      var s := out.streams[0];
      var w := Chosen(s.width, s.codedWidth);
      var h := Chosen(s.height, s.codedHeight);
      if Positive(w) && Positive(h) then Some(FormatResolution(w.value, h.value)) else None
  }

  /** The resolution string reads back as the two chosen dimensions. */
  lemma ResolutionReadsBack(out: ProbeOutput)
    requires ParseResolution(out).Some?
    ensures var s := out.streams[0]; var parts := Split(ParseResolution(out).value, 'x');
      && |parts| == 2
      && Canonical(parts[0]) && DecimalValue(parts[0]) == Chosen(s.width, s.codedWidth).value
      && Canonical(parts[1]) && DecimalValue(parts[1]) == Chosen(s.height, s.codedHeight).value
  {
    var s := out.streams[0];
    var w := Chosen(s.width, s.codedWidth).value;
    var h := Chosen(s.height, s.codedHeight).value;
    var dw, dh := IntToDecimal(w), IntToDecimal(h);
    assert 'x' !in dw && 'x' !in dh by {
      assert forall i :: 0 <= i < |dw| ==> IsDigit(dw[i]);
      assert forall i :: 0 <= i < |dh| ==> IsDigit(dh[i]);
    }
    assert FormatResolution(w, h) == dw + ['x'] + dh;
    SplitPair(dw, 'x', dh);
    DecimalRoundTrip(w);
    DecimalRoundTrip(h);
  }

  // ----------------------------------------------------------- check_stream

  /** One HTTP request: it raised, or it answered with a status, a body and the arrivals of its chunks. */
  datatype Response = Raised | Answered(status: int, text: string, arrivals: seq<Arrival>)

  /**
   * What the network and ffprobe did during one check: the streamed probe of
   * the URL (its `text` is the decoded first chunk), the full manifest request,
   * the segment request for each URL, ffprobe's output for the bytes fed to it
   * (`None` when `communicate` timed out), and the elapsed milliseconds.
   */
  datatype Observation = Observation(
    probe: Response,
    manifest: Response,
    segment: string -> Response,
    ffprobe: Bytes -> Option<ProbeOutput>,
    elapsedMs: int)

  predicate Ok(r: Response) {
    r.Answered? && r.status == 200
  }

  /** The URL whose bytes are downloaded, or `None` when the check gives up before. */
  function SegmentUrl(url: string, obs: Observation, urljoin: (string, string) -> string): Option<string> {
    if !Ok(obs.probe) then None
    else if !IsManifest(obs.probe.text) then Some(url)
    else if !Ok(obs.manifest) then None
    else match FirstSegment(SplitLines(obs.manifest.text))
      case None => None
      case Some(path) => Some(urljoin(url, path))
  }

  /** check_stream's result for `item`: the item with latency and resolution, or `None`. */
  function CheckStreamResult(item: Channel, obs: Observation, urljoin: (string, string) -> string): Option<Channel> {
    match SegmentUrl(item.url, obs, urljoin)
    case None => None
    case Some(segmentUrl) =>
      var resp := obs.segment(segmentUrl);
      if !Ok(resp) then None
      else
        var data := Downloaded(resp.arrivals);
        if data == [] then None
        else match obs.ffprobe(data)
          case None => None
          case Some(out) =>
            match ParseResolution(out)
            case None => None
            case Some(res) => Some(item.(latency := Some(obs.elapsedMs), resolution := Some(res)))
  }

  /** check_stream (collector.py:239-344) without the process lifecycle and the clock. */
  method CheckStream(item: Channel, obs: Observation, urljoin: (string, string) -> string) returns (result: Option<Channel>)
    ensures result == CheckStreamResult(item, obs, urljoin)
  {
    var url := item.url;
    var segmentUrl := url;
    if obs.probe.Raised? || obs.probe.status != 200 {
      return None;
    }
    if IsManifest(obs.probe.text) {
      var playlist := obs.manifest;
      if playlist.Raised? || playlist.status != 200 {
        return None;
      }
      var segmentPath := FirstSegment(SplitLines(playlist.text));
      if segmentPath.None? {
        return None;
      }
      segmentUrl := urljoin(url, segmentPath.value);
    }
    var segment := obs.segment(segmentUrl);
    if segment.Raised? || segment.status != 200 {
      return None;
    }
    var chunkData := DownloadSegment(segment.arrivals);
    if |chunkData| == 0 {
      return None;
    }
    var stdout := obs.ffprobe(chunkData);
    if stdout.None? {
      return None;
    }
    var res := ParseResolution(stdout.value);
    if res.Some? {
      return Some(item.(latency := Some(obs.elapsedMs), resolution := Some(res.value)));
    }
    return None;
  }

  // ------------------------------------------------------------ properties

  /**
   * An empty download gives `None` whatever ffprobe would have said: the
   * result does not depend on the analysis at all.
   */
  lemma EmptyDownloadNone(item: Channel, obs: Observation, urljoin: (string, string) -> string,
                          other: Bytes -> Option<ProbeOutput>)
    requires SegmentUrl(item.url, obs, urljoin).Some?
    requires Ok(obs.segment(SegmentUrl(item.url, obs, urljoin).value))
    requires Downloaded(obs.segment(SegmentUrl(item.url, obs, urljoin).value).arrivals) == []
    ensures CheckStreamResult(item, obs, urljoin) == None
    ensures CheckStreamResult(item, obs.(ffprobe := other), urljoin) == None
  {
    assert SegmentUrl(item.url, obs.(ffprobe := other), urljoin) == SegmentUrl(item.url, obs, urljoin);
  }

  /**
   * A successful check answered 200 to the probe and to the segment request,
   * downloaded some bytes, and returns the item with only its latency and a
   * resolution of two positive dimensions added.
   */
  lemma CheckStreamSuccess(item: Channel, obs: Observation, urljoin: (string, string) -> string)
    requires CheckStreamResult(item, obs, urljoin).Some?
    ensures var r := CheckStreamResult(item, obs, urljoin).value;
      && Ok(obs.probe)
      && SegmentUrl(item.url, obs, urljoin).Some?
      && Ok(obs.segment(SegmentUrl(item.url, obs, urljoin).value))
      && Downloaded(obs.segment(SegmentUrl(item.url, obs, urljoin).value).arrivals) != []
      && r == item.(latency := Some(obs.elapsedMs), resolution := r.resolution)
      && obs.ffprobe(Downloaded(obs.segment(SegmentUrl(item.url, obs, urljoin).value).arrivals)).Some?
      && r.resolution.Some?
      && r.resolution == ParseResolution(
           obs.ffprobe(Downloaded(obs.segment(SegmentUrl(item.url, obs, urljoin).value).arrivals)).value)
  {
  }

  /** A direct stream is downloaded from its own URL; a manifest without a segment line fails. */
  lemma SegmentUrlCases(url: string, obs: Observation, urljoin: (string, string) -> string)
    requires Ok(obs.probe)
    ensures !IsManifest(obs.probe.text) ==> SegmentUrl(url, obs, urljoin) == Some(url)
    ensures IsManifest(obs.probe.text) && Ok(obs.manifest) ==>
      (SegmentUrl(url, obs, urljoin).None? <==> NoSegmentLine(SplitLines(obs.manifest.text)))
    ensures IsManifest(obs.probe.text) && !Ok(obs.manifest) ==> SegmentUrl(url, obs, urljoin).None?
  {
  }
}
