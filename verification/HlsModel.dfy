/** The HLS muxer as a value: the segments it has ever made, the window of them that is listed, and
    what each write does (internal/hls/muxer.go, internal/hls/tsfile.go). */
module HlsModel {
  import opened Common
  import opened Bytes
  import Adts
  import opened Dts

  const PTS_OFFSET := 2 * SECOND
  const SEGMENT_MIN_AU_COUNT := 100
  const NALU_TYPE_IDR := 5

  /** The tracks and the settings of a muxer. */
  datatype Config = Config(hasVideo: bool, sampleRate: nat, channelCount: int, segmentCount: int, segmentDuration: nat)

  predicate WellConfigured(c: Config) {
    c.sampleRate > 0
  }

  /** One group of NALUs or one audio access unit, as handed to the MPEG-TS multiplexer. */
  datatype Unit =
    | Video(dts: int, pts: int, idr: bool, nalus: seq<seq<Byte>>)
    | Audio(pts: int, au: seq<Byte>)

  datatype Segment = Segment(name: string, closed: bool, started: bool, minPTS: int, maxPTS: int, units: seq<Unit>)

  /** `made` holds every segment, evicted ones included; the first `deleted` of them are evicted. */
  datatype State = State(made: seq<Segment>, deleted: nat, byName: map<string, nat>, auCount: nat, est: Estimate)

  function NewSegment(name: string): Segment {
    Segment(name, false, false, 0, 0, [])
  }

  function Duration(g: Segment): int {
    g.maxPTS - g.minPTS
  }

  /** The range of presentation times grows to hold pts. */
  function Stamped(g: Segment, pts: int): Segment {
    if !g.started then g.(started := true, minPTS := pts, maxPTS := pts)
    else g.(minPTS := Min(g.minPTS, pts), maxPTS := Max(g.maxPTS, pts))
  }

  function WithVideo(c: Config, g: Segment, u: Unit): Segment
    requires u.Video?
  {
    var g1 := if c.hasVideo then Stamped(g, u.pts) else g;
    g1.(units := g1.units + [u])
  }

  function StampedByAudio(c: Config, g: Segment, pts: int): Segment {
    if c.hasVideo then g else Stamped(g, pts)
  }

  function WithAudio(c: Config, g: Segment, u: Unit): Segment
    requires u.Audio?
  {
    var g1 := StampedByAudio(c, g, u.pts);
    g1.(units := g1.units + [u])
  }

  /** The audio configuration is one that ADTS headers can express; if not, no unit is ever written. */
  predicate AudioSupported(c: Config) {
    Adts.Supported(Adts.Packet(c.sampleRate, c.channelCount, []))
  }

  function Current(s: State): (g: Segment)
    requires s.made != []
  {
    s.made[|s.made| - 1]
  }

  function SetCurrent(s: State, g: Segment): (t: State)
    requires s.made != []
  {
    s.(made := s.made[|s.made| - 1 := g])
  }

  /** The current segment is closed and a new one takes its place; over the limit, the oldest listed
      segment is evicted. */
  function Rotated(c: Config, s: State, name: string): (t: State)
    requires s.made != [] && s.deleted < |s.made|
    ensures t.made != [] && t.deleted < |t.made|
  {
    var made := SetCurrent(s, Current(s).(closed := true)).made + [NewSegment(name)];
    var byName := s.byName[name := |s.made|];
    if |made| - s.deleted > c.segmentCount
    then s.(made := made, byName := byName - {made[s.deleted].name}, deleted := s.deleted + 1)
    else s.(made := made, byName := byName)
  }

  predicate IsIDR(nalu: seq<Byte>)
    requires nalu != []
  {
    nalu[0] % 32 == NALU_TYPE_IDR
  }

  predicate HasIDR(nalus: seq<seq<Byte>>)
    requires forall i :: 0 <= i < |nalus| ==> nalus[i] != []
  {
    exists i :: 0 <= i < |nalus| && IsIDR(nalus[i])
  }

  predicate NoEmptyNalu(nalus: seq<seq<Byte>>) {
    forall i :: 0 <= i < |nalus| ==> nalus[i] != []
  }

  function WroteGroup(c: Config, s: State, name: string, pts: int, nalus: seq<seq<Byte>>, idr: bool): (t: State)
    requires s.made != [] && s.deleted < |s.made|
  {
    var g := Current(s);
    if !g.started && !idr then s
    else
      var s1 := if idr && g.started && Duration(g) >= c.segmentDuration then Rotated(c, s, name) else s;
      var at := pts + PTS_OFFSET;
      var u := Video(DtsFor(s.est, at), at, idr, nalus);
      SetCurrent(s1, WithVideo(c, Current(s1), u)).(est := Fed(s.est, at))
  }

  /** A group of NALUs with the same presentation time. */
  function WroteH264(c: Config, s: State, name: string, pts: int, nalus: seq<seq<Byte>>): (t: State)
    requires NoEmptyNalu(nalus) && s.made != [] && s.deleted < |s.made|
  {
    WroteGroup(c, s, name, pts, nalus, HasIDR(nalus))
  }

  function AuPTS(c: Config, pts: int, i: nat): int
    requires WellConfigured(c)
  {
    pts + i * 1000 * SECOND / c.sampleRate + PTS_OFFSET
  }

  /** The first n access units of a group have been written. */
  function WroteAUs(c: Config, s: State, pts: int, aus: seq<seq<Byte>>, n: nat): (t: State)
    requires WellConfigured(c) && n <= |aus| && s.made != []
    ensures |t.made| == |s.made| && t.deleted == s.deleted && t.byName == s.byName && t.est == s.est
  {
    if n == 0 then s
    else
      var s1 := WroteAUs(c, s, pts, aus, n - 1);
      SetCurrent(s1, WithAudio(c, Current(s1), Audio(AuPTS(c, pts, n - 1), aus[n - 1]))).(auCount := s1.auCount + 1)
  }

  /** A group of access units; with an inexpressible audio configuration the first unit already fails,
      after it has been counted and has stamped the segment. */
  function WroteAAC(c: Config, s: State, name: string, pts: int, aus: seq<seq<Byte>>): (t: State)
    requires WellConfigured(c) && s.made != [] && s.deleted < |s.made|
  {
    var g := Current(s);
    if c.hasVideo && !g.started then s
    else
      var s1 :=
        if !c.hasVideo && s.auCount >= SEGMENT_MIN_AU_COUNT && g.started && Duration(g) >= c.segmentDuration
        then Rotated(c, s, name).(auCount := 0) else s;
      if AudioSupported(c) then WroteAUs(c, s1, pts, aus, |aus|)
      else if aus == [] then s1
      else SetCurrent(s1, StampedByAudio(c, Current(s1), AuPTS(c, pts, 0))).(auCount := s1.auCount + 1)
  }

  function Start(name: string): State {
    State([NewSegment(name)], 0, map[name := 0], 0, START)
  }

  // ---------------------------------------------------------------- the playlist

  datatype Entry = Entry(duration: int, name: string)

  datatype Playlist = Playlist(targetDuration: nat, mediaSequence: nat, entries: seq<Entry>)

  /** Seconds rounded up. */
  function CeilSeconds(d: nat): nat {
    (d + SECOND - 1) / SECOND
  }

  /** Seconds rounded to the nearest integer, halves up. */
  function RoundSeconds(d: nat): nat {
    (2 * d + SECOND) / (2 * SECOND)
  }

  /** The entry is this segment's, and its rounded duration is within the target. */
  predicate Presents(e: Entry, g: Segment, target: nat) {
    g.minPTS <= g.maxPTS && e == Entry(g.maxPTS - g.minPTS, g.name) && RoundSeconds(g.maxPTS - g.minPTS) <= target
  }
}
