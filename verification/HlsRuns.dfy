/** What holds over whole runs of a muxer. */
module HlsRuns {
  import opened Common
  import opened Bytes
  import opened Dts
  import opened HlsModel

  datatype Event =
    | WriteVideo(name: string, pts: int, nalus: seq<seq<Byte>>)
    | WriteAudio(name: string, pts: int, aus: seq<seq<Byte>>)

  /** What the caller guarantees: no empty NALU, each kind only with its track, and of an audio track
      that ADTS headers can express it, so that no write fails. */
  predicate Allowed(c: Config, ev: Event) {
    match ev
    case WriteVideo(_, _, nalus) => c.hasVideo && NoEmptyNalu(nalus)
    case WriteAudio(_, _, _) => WellConfigured(c) && AudioSupported(c)
  }

  ghost predicate Possible(c: Config, evs: seq<Event>) {
    forall i :: 0 <= i < |evs| ==> Allowed(c, evs[i])
  }

  function Next(c: Config, s: State, ev: Event): (t: State)
    requires Allowed(c, ev) && s.made != [] && s.deleted < |s.made|
    ensures t.made != [] && t.deleted < |t.made|
  {
    match ev
    case WriteVideo(name, pts, nalus) => WroteH264(c, s, name, pts, nalus)
    case WriteAudio(name, pts, aus) => WroteAAC(c, s, name, pts, aus)
  }

  function Run(c: Config, first: string, evs: seq<Event>): (s: State)
    requires Possible(c, evs)
    ensures s.made != [] && s.deleted < |s.made|
  {
    if evs == [] then Start(first)
    else assert Allowed(c, evs[|evs| - 1]); Next(c, Run(c, first, evs[..|evs| - 1]), evs[|evs| - 1])
  }

  // ---------------------------------------------------------------- an independent account of what is accepted

  predicate OpensVideo(ev: Event) {
    ev.WriteVideo? && NoEmptyNalu(ev.nalus) && HasIDR(ev.nalus)
  }

  /** A video muxer takes nothing before the first group with an IDR, and everything from then on. */
  predicate Live(c: Config, evs: seq<Event>) {
    !c.hasVideo || exists i :: 0 <= i < |evs| && OpensVideo(evs[i])
  }

  /** The presentation times of the accepted video groups. */
  function VideoTimes(c: Config, evs: seq<Event>): seq<int> {
    if evs == [] then []
    else VideoTimes(c, evs[..|evs| - 1]) +
         if Live(c, evs) && evs[|evs| - 1].WriteVideo? then [evs[|evs| - 1].pts + PTS_OFFSET] else []
  }

  function AudioUnits(c: Config, pts: int, aus: seq<seq<Byte>>, n: nat): seq<Unit>
    requires WellConfigured(c) && n <= |aus|
  {
    if n == 0 then [] else AudioUnits(c, pts, aus, n - 1) + [Audio(AuPTS(c, pts, n - 1), aus[n - 1])]
  }

  /** The units that one accepted event amounts to; decoding times come from the estimator alone. */
  function UnitsOf(c: Config, times: seq<int>, ev: Event): seq<Unit>
    requires Allowed(c, ev)
  {
    match ev
    case WriteVideo(_, pts, nalus) =>
      [Video(DtsFor(After(START, times), pts + PTS_OFFSET), pts + PTS_OFFSET, HasIDR(nalus), nalus)]
    case WriteAudio(_, pts, aus) => AudioUnits(c, pts, aus, |aus|)
  }

  function Accepted(c: Config, evs: seq<Event>): seq<Unit>
    requires Possible(c, evs)
  {
    if evs == [] then []
    else
      assert Allowed(c, evs[|evs| - 1]);
      Accepted(c, evs[..|evs| - 1]) +
      if Live(c, evs) then UnitsOf(c, VideoTimes(c, evs[..|evs| - 1]), evs[|evs| - 1]) else []
  }

  /** The contents of all segments, in the order in which they were made. */
  function Contents(made: seq<Segment>): seq<Unit> {
    if made == [] then [] else Contents(made[..|made| - 1]) + made[|made| - 1].units
  }

  // ---------------------------------------------------------------- invariant

  predicate Paces(c: Config, u: Unit) {
    u.Video? <==> c.hasVideo
  }

  /** The range of the presentation times of the pacing track. */
  datatype Range = NoTimes | Times(first: int, last: int)

  function RangeOf(c: Config, units: seq<Unit>): Range {
    if units == [] then NoTimes
    else
      var u := units[|units| - 1];
      var r := RangeOf(c, units[..|units| - 1]);
      if !Paces(c, u) then r
      else match r case NoTimes => Times(u.pts, u.pts) case Times(a, b) => Times(Min(a, u.pts), Max(b, u.pts))
  }

  ghost predicate IsRange(c: Config, units: seq<Unit>, first: int, last: int) {
    && (forall u :: u in units && Paces(c, u) ==> first <= u.pts <= last)
    && (exists u :: u in units && Paces(c, u) && u.pts == first)
    && (exists u :: u in units && Paces(c, u) && u.pts == last)
  }

  /** The range is what it says: it holds all times of the pacing track, and its ends are among them. */
  lemma {:induction false} RangeIsExact(c: Config, units: seq<Unit>)
    ensures match RangeOf(c, units)
            case NoTimes => forall u :: u in units ==> !Paces(c, u)
            case Times(first, last) => IsRange(c, units, first, last)
  {
    if units != [] {
      var n := |units| - 1;
      var u := units[n];
      RangeIsExact(c, units[..n]);
      assert units == units[..n] + [u];
      if Paces(c, u) {
        var r := RangeOf(c, units[..n]);
        if r.Times? {
          var a :| a in units[..n] && Paces(c, a) && a.pts == r.first;
          var b :| b in units[..n] && Paces(c, b) && b.pts == r.last;
          assert a in units && b in units && u in units;
        }
      }
    }
  }

  predicate SegmentOk(c: Config, g: Segment) {
    && (g.started <==> g.units != [])
    && RangeOf(c, g.units) == (if g.started then Times(g.minPTS, g.maxPTS) else NoTimes)
    && (c.hasVideo && g.started ==> g.units[0].Video? && g.units[0].idr)
  }

  /** A segment that was rotated out is closed, holds data, and lasts long enough. */
  ghost predicate Finished(c: Config, g: Segment) {
    && g.closed && g.started && Duration(g) >= c.segmentDuration
    && (!c.hasVideo ==> |g.units| >= SEGMENT_MIN_AU_COUNT)
  }

  ghost predicate Inv(c: Config, s: State) {
    && s.made != [] && s.deleted < |s.made|
    && |s.made| - s.deleted <= (if c.segmentCount > 1 then c.segmentCount else 1)
    && (forall k :: 0 <= k < |s.made| ==> SegmentOk(c, s.made[k]))
    && (forall k :: 0 <= k < |s.made| - 1 ==> Finished(c, s.made[k]))
    && !Current(s).closed
    && (!c.hasVideo ==> s.auCount == |Current(s).units|)
    && (c.hasVideo && |s.made| > 1 ==> Current(s).started)
  }

  lemma SetCurrentContents(s: State, g: Segment, us: seq<Unit>)
    requires s.made != [] && g.units == Current(s).units + us
    ensures Contents(SetCurrent(s, g).made) == Contents(s.made) + us
  {
    var n := |s.made| - 1;
    assert SetCurrent(s, g).made[..n] == s.made[..n];
    assert Contents(s.made[..n]) + (Current(s).units + us) == Contents(s.made[..n]) + Current(s).units + us;
  }

  lemma RotatedContents(c: Config, s: State, name: string)
    requires s.made != [] && s.deleted < |s.made|
    ensures Contents(Rotated(c, s, name).made) == Contents(s.made)
  {
    var closed := SetCurrent(s, Current(s).(closed := true));
    SetCurrentContents(s, Current(s).(closed := true), []);
    var made := closed.made + [NewSegment(name)];
    assert made[..|made| - 1] == closed.made;
    assert Contents(s.made) + [] == Contents(s.made);
  }

  lemma UnitAppended(c: Config, g: Segment, u: Unit)
    requires SegmentOk(c, g) && Paces(c, u) && (c.hasVideo && !g.started ==> u.Video? && u.idr)
    ensures SegmentOk(c, Stamped(g, u.pts).(units := g.units + [u]))
  {
    assert (g.units + [u])[..|g.units|] == g.units;
  }

  lemma OtherUnitAppended(c: Config, g: Segment, u: Unit)
    requires SegmentOk(c, g) && !Paces(c, u) && g.started
    ensures SegmentOk(c, g.(units := g.units + [u]))
  {
    assert (g.units + [u])[..|g.units|] == g.units;
  }

  lemma SetCurrentKeepsInv(c: Config, s: State, g: Segment, t: State)
    requires Inv(c, s) && SegmentOk(c, g) && !g.closed
    requires t.made == SetCurrent(s, g).made && t.deleted == s.deleted
    requires !c.hasVideo ==> t.auCount == |g.units|
    requires Current(s).started ==> g.started
    ensures Inv(c, t)
  {
    forall k | 0 <= k < |t.made| ensures SegmentOk(c, t.made[k]) { assert SegmentOk(c, s.made[k]); }
    forall k | 0 <= k < |t.made| - 1 ensures Finished(c, t.made[k]) { assert Finished(c, s.made[k]); }
  }

  /** What rotation leaves: all but the requirement that a video segment has been started. */
  ghost predicate JustRotated(c: Config, s: State) {
    && s.made != [] && s.deleted < |s.made|
    && |s.made| - s.deleted <= (if c.segmentCount > 1 then c.segmentCount else 1)
    && (forall k :: 0 <= k < |s.made| - 1 ==> SegmentOk(c, s.made[k]) && Finished(c, s.made[k]))
    && Current(s).units == [] && !Current(s).closed && !Current(s).started
  }

  lemma RotationLeaves(c: Config, s: State, name: string)
    requires Inv(c, s) && Current(s).started && Duration(Current(s)) >= c.segmentDuration
    requires !c.hasVideo ==> s.auCount >= SEGMENT_MIN_AU_COUNT
    ensures JustRotated(c, Rotated(c, s, name))
    ensures forall k :: 0 <= k < |s.made| - 1 ==> Rotated(c, s, name).made[k] == s.made[k]
  {
    var t := Rotated(c, s, name);
    forall k | 0 <= k < |t.made| - 1 ensures SegmentOk(c, t.made[k]) && Finished(c, t.made[k]) {
      assert SegmentOk(c, s.made[k]);
      if k < |s.made| - 1 { assert Finished(c, s.made[k]); }
    }
  }

  lemma FirstUnitAfterRotation(c: Config, s: State, g: Segment, t: State)
    requires JustRotated(c, s) && SegmentOk(c, g) && !g.closed && g.started
    requires t.made == SetCurrent(s, g).made && t.deleted == s.deleted
    requires !c.hasVideo ==> t.auCount == |g.units|
    ensures Inv(c, t)
  {
    forall k | 0 <= k < |t.made| ensures SegmentOk(c, t.made[k]) {
      if k < |s.made| - 1 { assert SegmentOk(c, s.made[k]); }
    }
    forall k | 0 <= k < |t.made| - 1 ensures Finished(c, t.made[k]) { assert Finished(c, s.made[k]); }
  }

  /** One more unit on the current segment. */
  lemma AppendKeepsInv(c: Config, s: State, u: Unit, g: Segment, t: State)
    requires Inv(c, s) && (c.hasVideo && !Current(s).started ==> u.Video? && u.idr)
    requires g == (if Paces(c, u) then Stamped(Current(s), u.pts) else Current(s)).(units := Current(s).units + [u])
    requires !c.hasVideo ==> u.Audio? && t.auCount == s.auCount + 1
    requires t.made == SetCurrent(s, g).made && t.deleted == s.deleted
    ensures Inv(c, t) && Current(t).started
    ensures Contents(t.made) == Contents(s.made) + [u]
  {
    assert SegmentOk(c, Current(s));
    if Paces(c, u) { UnitAppended(c, Current(s), u); } else { OtherUnitAppended(c, Current(s), u); }
    SetCurrentKeepsInv(c, s, g, t);
    SetCurrentContents(s, g, [u]);
  }

  /** Rotation followed by the IDR group that called for it. */
  lemma RotateAndAppendKeepsInv(c: Config, s: State, name: string, u: Unit, t: State)
    requires Inv(c, s) && c.hasVideo && u.Video? && u.idr
    requires Current(s).started && Duration(Current(s)) >= c.segmentDuration
    requires var s1 := Rotated(c, s, name);
             t.made == SetCurrent(s1, WithVideo(c, Current(s1), u)).made && t.deleted == s1.deleted
    ensures Inv(c, t) && Contents(t.made) == Contents(s.made) + [u] && Current(t).started
  {
    var s1 := Rotated(c, s, name);
    RotationLeaves(c, s, name);
    RotatedContents(c, s, name);
    UnitAppended(c, Current(s1), u);
    FirstUnitAfterRotation(c, s1, WithVideo(c, Current(s1), u), t);
    SetCurrentContents(s1, WithVideo(c, Current(s1), u), [u]);
  }

  /** What a video group does to the state: if it is taken, it becomes the last unit. */
  ghost predicate TookGroup(c: Config, s: State, u: Unit, t: State)
    requires s.made != [] && u.Video?
  {
    var taken := Current(s).started || u.idr;
    && Inv(c, t)
    && Contents(t.made) == Contents(s.made) + (if taken then [u] else [])
    && (Current(t).started <==> taken)
    && t.est == if taken then Fed(s.est, u.pts) else s.est
  }

  lemma GroupKeepsInv(c: Config, s: State, name: string, pts: int, nalus: seq<seq<Byte>>, idr: bool, u: Unit, t: State)
    requires Inv(c, s) && c.hasVideo && t == WroteGroup(c, s, name, pts, nalus, idr)
    requires u == Video(DtsFor(s.est, pts + PTS_OFFSET), pts + PTS_OFFSET, idr, nalus)
    ensures TookGroup(c, s, u, t)
  {
    var g := Current(s);
    if !g.started && !idr {
      assert Contents(s.made) + [] == Contents(s.made);
    } else if idr && g.started && Duration(g) >= c.segmentDuration {
      RotateAndAppendKeepsInv(c, s, name, u, t);
    } else {
      AppendKeepsInv(c, s, u, WithVideo(c, g, u), t);
    }
  }

  lemma VideoKeepsInv(c: Config, s: State, ev: Event, u: Unit, t: State)
    requires Inv(c, s) && Allowed(c, ev) && ev.WriteVideo? && t == Next(c, s, ev)
    requires u == Video(DtsFor(s.est, ev.pts + PTS_OFFSET), ev.pts + PTS_OFFSET, HasIDR(ev.nalus), ev.nalus)
    ensures TookGroup(c, s, u, t)
  {
    GroupKeepsInv(c, s, ev.name, ev.pts, ev.nalus, u.idr, u, t);
  }

  lemma {:induction false} AUsKeepInv(c: Config, s: State, pts: int, aus: seq<seq<Byte>>, n: nat)
    requires Inv(c, s) && WellConfigured(c) && n <= |aus| && (c.hasVideo ==> Current(s).started)
    ensures Inv(c, WroteAUs(c, s, pts, aus, n))
    ensures c.hasVideo ==> Current(WroteAUs(c, s, pts, aus, n)).started
  {
    if n > 0 {
      AUsKeepInv(c, s, pts, aus, n - 1);
      var u := Audio(AuPTS(c, pts, n - 1), aus[n - 1]);
      OneAUKeepsInv(c, WroteAUs(c, s, pts, aus, n - 1), u, WroteAUs(c, s, pts, aus, n));
    }
  }

  lemma {:induction false} AUsContents(c: Config, s: State, pts: int, aus: seq<seq<Byte>>, n: nat)
    requires WellConfigured(c) && n <= |aus| && s.made != []
    ensures Contents(WroteAUs(c, s, pts, aus, n).made) == Contents(s.made) + AudioUnits(c, pts, aus, n)
  {
    if n == 0 {
      assert Contents(s.made) + [] == Contents(s.made);
    } else {
      AUsContents(c, s, pts, aus, n - 1);
      var s1 := WroteAUs(c, s, pts, aus, n - 1);
      var u := Audio(AuPTS(c, pts, n - 1), aus[n - 1]);
      SetCurrentContents(s1, WithAudio(c, Current(s1), u), [u]);
      OneMore(Contents(s.made), AudioUnits(c, pts, aus, n - 1), u);
    }
  }

  lemma OneAUKeepsInv(c: Config, s: State, u: Unit, t: State)
    requires Inv(c, s) && u.Audio? && (c.hasVideo ==> Current(s).started)
    requires t == SetCurrent(s, WithAudio(c, Current(s), u)).(auCount := s.auCount + 1)
    ensures Inv(c, t) && Current(t).started
  {
    AppendKeepsInv(c, s, u, WithAudio(c, Current(s), u), t);
  }

  lemma OneMore(front: seq<Unit>, units: seq<Unit>, u: Unit)
    ensures front + units + [u] == front + (units + [u])
  {
  }

  lemma AudioKeepsInv(c: Config, s: State, ev: Event, t: State)
    requires Inv(c, s) && WellConfigured(c) && AudioSupported(c) && ev.WriteAudio? && t == Next(c, s, ev)
    ensures Inv(c, t)
    ensures Contents(t.made) ==
            Contents(s.made) +
            (if c.hasVideo && !Current(s).started then [] else AudioUnits(c, ev.pts, ev.aus, |ev.aus|))
    ensures c.hasVideo ==> (Current(t).started <==> Current(s).started)
    ensures t.est == s.est
  {
    var g := Current(s);
    if c.hasVideo && !g.started {
      assert Contents(s.made) + [] == Contents(s.made);
    } else if !c.hasVideo && s.auCount >= SEGMENT_MIN_AU_COUNT && g.started && Duration(g) >= c.segmentDuration {
      var s1 := Rotated(c, s, ev.name).(auCount := 0);
      RotatedForAudio(c, s, ev.name, s1);
      AUsKeepInv(c, s1, ev.pts, ev.aus, |ev.aus|);
      AUsContents(c, s1, ev.pts, ev.aus, |ev.aus|);
    } else {
      AUsKeepInv(c, s, ev.pts, ev.aus, |ev.aus|);
      AUsContents(c, s, ev.pts, ev.aus, |ev.aus|);
    }
  }

  lemma RotatedForAudio(c: Config, s: State, name: string, t: State)
    requires Inv(c, s) && !c.hasVideo && s.auCount >= SEGMENT_MIN_AU_COUNT
    requires Current(s).started && Duration(Current(s)) >= c.segmentDuration
    requires t == Rotated(c, s, name).(auCount := 0)
    ensures Inv(c, t) && Contents(t.made) == Contents(s.made)
  {
    RotationLeaves(c, s, name);
    RotatedContents(c, s, name);
  }

  // ---------------------------------------------------------------- the promises

  lemma LiveGrows(c: Config, evs: seq<Event>)
    requires evs != []
    ensures Live(c, evs) <==> Live(c, evs[..|evs| - 1]) || OpensVideo(evs[|evs| - 1])
  {
    var n := |evs| - 1;
    if i :| 0 <= i < |evs| && OpensVideo(evs[i]) {
      if i < n { assert OpensVideo(evs[..n][i]); }
    }
    if i :| 0 <= i < n && OpensVideo(evs[..n][i]) { assert OpensVideo(evs[i]); }
  }

  /** The state is what the independent account says. */
  ghost predicate Accounted(c: Config, s: State, evs: seq<Event>)
    requires Possible(c, evs)
  {
    && Inv(c, s)
    && Contents(s.made) == Accepted(c, evs)
    && s.est == After(START, VideoTimes(c, evs))
    && (c.hasVideo ==> (Current(s).started <==> Live(c, evs)))
  }

  lemma VideoTimesGrow(c: Config, evs: seq<Event>)
    requires evs != []
    ensures var at := evs[|evs| - 1].pts + PTS_OFFSET;
            VideoTimes(c, evs) ==
            VideoTimes(c, evs[..|evs| - 1]) + (if Live(c, evs) && evs[|evs| - 1].WriteVideo? then [at] else [])
  {
  }

  lemma AfterMore(e: Estimate, times: seq<int>, at: int)
    ensures After(e, times + [at]) == Fed(After(e, times), at)
    ensures times + [] == times
  {
    assert (times + [at])[..|times|] == times;
  }

  lemma AcceptedGrows(c: Config, evs: seq<Event>)
    requires Possible(c, evs) && evs != []
    ensures Possible(c, evs[..|evs| - 1]) && Allowed(c, evs[|evs| - 1])
    ensures Accepted(c, evs) ==
            Accepted(c, evs[..|evs| - 1]) +
            (if Live(c, evs) then UnitsOf(c, VideoTimes(c, evs[..|evs| - 1]), evs[|evs| - 1]) else [])
  {
  }

  lemma VideoIsOneUnit(c: Config, times: seq<int>, ev: Event, u: Unit)
    requires ev.WriteVideo? && Allowed(c, ev)
    requires var at := ev.pts + PTS_OFFSET; u == Video(DtsFor(After(START, times), at), at, HasIDR(ev.nalus), ev.nalus)
    ensures UnitsOf(c, times, ev) == [u]
  {
  }

  lemma VideoContentsAccounted(c: Config, evs: seq<Event>, u: Unit, taken: bool, contents: seq<Unit>)
    requires Possible(c, evs) && evs != [] && evs[|evs| - 1].WriteVideo? && taken == Live(c, evs)
    requires Allowed(c, evs[|evs| - 1]) && UnitsOf(c, VideoTimes(c, evs[..|evs| - 1]), evs[|evs| - 1]) == [u]
    requires Possible(c, evs[..|evs| - 1]) && contents == Accepted(c, evs[..|evs| - 1]) + (if taken then [u] else [])
    ensures contents == Accepted(c, evs)
  {
    AcceptedGrows(c, evs);
  }

  lemma VideoEstimateAccounted(c: Config, evs: seq<Event>, taken: bool, est: Estimate, at: int)
    requires evs != [] && evs[|evs| - 1].WriteVideo? && taken == Live(c, evs) && at == evs[|evs| - 1].pts + PTS_OFFSET
    requires var e := After(START, VideoTimes(c, evs[..|evs| - 1])); est == if taken then Fed(e, at) else e
    ensures est == After(START, VideoTimes(c, evs))
  {
    VideoTimesGrow(c, evs);
    AfterMore(START, VideoTimes(c, evs[..|evs| - 1]), at);
  }

  lemma VideoAccounted(c: Config, s: State, evs: seq<Event>, t: State)
    requires Possible(c, evs) && evs != [] && evs[|evs| - 1].WriteVideo? && Allowed(c, evs[|evs| - 1])
    requires Accounted(c, s, evs[..|evs| - 1]) && t == Next(c, s, evs[|evs| - 1])
    ensures Accounted(c, t, evs)
  {
    var ev := evs[|evs| - 1];
    var u := Video(DtsFor(s.est, ev.pts + PTS_OFFSET), ev.pts + PTS_OFFSET, HasIDR(ev.nalus), ev.nalus);
    var taken := Current(s).started || u.idr;
    LiveGrows(c, evs);
    VideoKeepsInv(c, s, ev, u, t);
    VideoIsOneUnit(c, VideoTimes(c, evs[..|evs| - 1]), ev, u);
    VideoContentsAccounted(c, evs, u, taken, Contents(t.made));
    VideoEstimateAccounted(c, evs, taken, t.est, u.pts);
  }

  lemma AudioAccounted(c: Config, s: State, evs: seq<Event>, t: State)
    requires Possible(c, evs) && evs != [] && evs[|evs| - 1].WriteAudio? && Allowed(c, evs[|evs| - 1])
    requires Accounted(c, s, evs[..|evs| - 1]) && t == Next(c, s, evs[|evs| - 1])
    ensures Accounted(c, t, evs)
  {
    var before := evs[..|evs| - 1];
    LiveGrows(c, evs);
    AcceptedGrows(c, evs);
    AudioKeepsInv(c, s, evs[|evs| - 1], t);
    VideoTimesGrow(c, evs);
    assert VideoTimes(c, before) + [] == VideoTimes(c, before);
  }

  /** Over every run, the segments ever made hold exactly the accepted units, in order, each once;
      and every segment meets its promises. */
  lemma {:induction false} SegmentsPartitionTheStream(c: Config, first: string, evs: seq<Event>)
    requires Possible(c, evs)
    ensures Accounted(c, Run(c, first, evs), evs)
  {
    if evs == [] {
      assert Contents([NewSegment(first)]) == Contents([NewSegment(first)][..0]) + [];
    } else {
      var n := |evs| - 1;
      assert Allowed(c, evs[n]);
      SegmentsPartitionTheStream(c, first, evs[..n]);
      var s := Run(c, first, evs[..n]);
      if evs[n].WriteVideo? {
        VideoAccounted(c, s, evs, Next(c, s, evs[n]));
      } else {
        AudioAccounted(c, s, evs, Next(c, s, evs[n]));
      }
    }
  }

  /** Every rotated-out segment, evicted or not, starts with an IDR group (with video), lasts at least
      the configured duration and (for audio alone) holds at least a hundred access units. */
  lemma FinishedSegmentsKeepTheirPromises(c: Config, first: string, evs: seq<Event>, k: nat)
    requires Possible(c, evs) && k < |Run(c, first, evs).made| - 1
    ensures var g := Run(c, first, evs).made[k];
            && g.closed && IsRange(c, g.units, g.minPTS, g.maxPTS) && g.maxPTS - g.minPTS >= c.segmentDuration
            && g.units != [] && (c.hasVideo ==> g.units[0].Video? && g.units[0].idr)
            && (!c.hasVideo ==> |g.units| >= 100)
  {
    SegmentsPartitionTheStream(c, first, evs);
    var s := Run(c, first, evs);
    assert SegmentOk(c, s.made[k]) && Finished(c, s.made[k]);
    RangeIsExact(c, s.made[k].units);
  }

  // ---------------------------------------------------------------- what stays the same

  /** What stays the same from an earlier to a later time: rotated-out segments, and all names; and no
      segment ever loses a unit. */
  ghost predicate Extends(s: State, t: State) {
    && s.deleted <= t.deleted && |s.made| <= |t.made|
    && (forall k :: 0 <= k < |s.made| - 1 ==> t.made[k] == s.made[k])
    && (forall k :: 0 <= k < |s.made| ==> t.made[k].name == s.made[k].name && s.made[k].units <= t.made[k].units)
  }

  lemma ExtendsTransitive(s: State, t: State, u: State)
    requires Extends(s, t) && Extends(t, u)
    ensures Extends(s, u)
  {
  }

  lemma SetCurrentExtends(s: State, g: Segment, t: State)
    requires s.made != [] && g.name == Current(s).name && Current(s).units <= g.units
    requires t.made == SetCurrent(s, g).made && t.deleted == s.deleted
    ensures Extends(s, t)
  {
    assert forall k :: 0 <= k < |s.made| - 1 ==> t.made[k] == s.made[k];
  }

  lemma RotatedExtends(c: Config, s: State, name: string)
    requires s.made != [] && s.deleted < |s.made|
    ensures Extends(s, Rotated(c, s, name))
  {
  }

  lemma {:induction false} AUsExtend(c: Config, s: State, pts: int, aus: seq<seq<Byte>>, n: nat)
    requires WellConfigured(c) && n <= |aus| && s.made != []
    ensures Extends(s, WroteAUs(c, s, pts, aus, n))
  {
    if n > 0 {
      AUsExtend(c, s, pts, aus, n - 1);
      var s1 := WroteAUs(c, s, pts, aus, n - 1);
      var u := Audio(AuPTS(c, pts, n - 1), aus[n - 1]);
      SetCurrentExtends(s1, WithAudio(c, Current(s1), u), WroteAUs(c, s, pts, aus, n));
    }
  }

  lemma VideoExtends(c: Config, s: State, ev: Event)
    requires Allowed(c, ev) && s.made != [] && s.deleted < |s.made| && ev.WriteVideo?
    ensures Extends(s, Next(c, s, ev))
  {
    var idr, g, at := HasIDR(ev.nalus), Current(s), ev.pts + PTS_OFFSET;
    var u := Video(DtsFor(s.est, at), at, idr, ev.nalus);
    if g.started || idr {
      var s1 := if idr && g.started && Duration(g) >= c.segmentDuration then Rotated(c, s, ev.name) else s;
      RotatedExtends(c, s, ev.name);
      SetCurrentExtends(s1, WithVideo(c, Current(s1), u), Next(c, s, ev));
      ExtendsTransitive(s, s1, Next(c, s, ev));
    }
  }

  lemma AudioExtends(c: Config, s: State, ev: Event)
    requires WellConfigured(c) && AudioSupported(c) && s.made != [] && s.deleted < |s.made| && ev.WriteAudio?
    ensures Extends(s, Next(c, s, ev))
  {
    var s1 := Rotated(c, s, ev.name).(auCount := 0);
    RotatedExtends(c, s, ev.name);
    AUsExtend(c, s, ev.pts, ev.aus, |ev.aus|);
    AUsExtend(c, s1, ev.pts, ev.aus, |ev.aus|);
    ExtendsTransitive(s, s1, WroteAUs(c, s1, ev.pts, ev.aus, |ev.aus|));
  }

  lemma NextExtends(c: Config, s: State, ev: Event, t: State)
    requires Allowed(c, ev) && s.made != [] && s.deleted < |s.made| && t == Next(c, s, ev)
    ensures Extends(s, t)
  {
    if ev.WriteVideo? { VideoExtends(c, s, ev); } else { AudioExtends(c, s, ev); }
  }

  /** Once a segment is rotated out it never changes again, and its media sequence number is its place
      among all segments ever made, whatever is evicted in between. */
  lemma {:induction false} SequenceNumbersNeverChange(c: Config, first: string, evs: seq<Event>, n: nat)
    requires Possible(c, evs) && n <= |evs|
    ensures Extends(Run(c, first, evs[..n]), Run(c, first, evs))
  {
    if n == |evs| {
      assert evs[..n] == evs;
    } else {
      var last := |evs| - 1;
      assert evs[..last][..n] == evs[..n];
      SequenceNumbersNeverChange(c, first, evs[..last], n);
      assert Allowed(c, evs[last]);
      var s := Run(c, first, evs[..last]);
      NextExtends(c, s, evs[last], Run(c, first, evs));
      ExtendsTransitive(Run(c, first, evs[..n]), s, Run(c, first, evs));
    }
  }

  // ---------------------------------------------------------------- decoding times in the segments

  function Videos(units: seq<Unit>): (vs: seq<Unit>)
    ensures forall v :: v in vs ==> v.Video?
  {
    if units == [] then []
    else Videos(units[..|units| - 1]) + (if units[|units| - 1].Video? then [units[|units| - 1]] else [])
  }

  lemma {:induction false} VideosConcat(a: seq<Unit>, b: seq<Unit>)
    ensures Videos(a + b) == Videos(a) + Videos(b)
  {
    if b == [] {
      assert a + b == a;
    } else {
      VideosConcat(a, b[..|b| - 1]);
      assert (a + b)[..|a + b| - 1] == a + b[..|b| - 1];
    }
  }

  lemma {:induction false} AudioHasNoVideos(c: Config, pts: int, aus: seq<seq<Byte>>, n: nat)
    requires WellConfigured(c) && n <= |aus|
    ensures Videos(AudioUnits(c, pts, aus, n)) == []
  {
    if n > 0 {
      AudioHasNoVideos(c, pts, aus, n - 1);
      AudioUnitsLength(c, pts, aus, n - 1);
      assert AudioUnits(c, pts, aus, n)[..n - 1] == AudioUnits(c, pts, aus, n - 1);
    }
  }

  lemma {:induction false} AudioUnitsLength(c: Config, pts: int, aus: seq<seq<Byte>>, n: nat)
    requires WellConfigured(c) && n <= |aus|
    ensures |AudioUnits(c, pts, aus, n)| == n
  {
    if n > 0 { AudioUnitsLength(c, pts, aus, n - 1); }
  }

  /** These video units have these presentation times, and the decoding times estimated for them. */
  ghost predicate Timed(vs: seq<Unit>, times: seq<int>) {
    && |vs| == |times|
    && forall j :: 0 <= j < |vs| ==> vs[j].Video? && vs[j].pts == times[j] && vs[j].dts == DtsAt(times, j)
  }

  lemma TimedMore(vs: seq<Unit>, times: seq<int>, u: Unit)
    requires Timed(vs, times) && u.Video? && u.dts == DtsFor(After(START, times), u.pts)
    ensures Timed(vs + [u], times + [u.pts])
  {
    forall j | 0 <= j < |vs + [u]| ensures (vs + [u])[j].dts == DtsAt(times + [u.pts], j) {
      assert (times + [u.pts])[..j] == times[..j];
      assert j == |times| ==> times[..j] == times;
    }
  }

  lemma VideosOne(u: Unit)
    ensures Videos([u]) == if u.Video? then [u] else []
  {
    assert [u][..0] == [];
  }

  lemma VideoStaysTimed(c: Config, before: seq<Unit>, times: seq<int>, ev: Event)
    requires ev.WriteVideo? && Allowed(c, ev) && Timed(Videos(before), times)
    ensures Timed(Videos(before + UnitsOf(c, times, ev)), times + [ev.pts + PTS_OFFSET])
  {
    var at := ev.pts + PTS_OFFSET;
    var u := Video(DtsFor(After(START, times), at), at, HasIDR(ev.nalus), ev.nalus);
    VideoIsOneUnit(c, times, ev, u);
    VideosConcat(before, [u]);
    VideosOne(u);
    TimedMore(Videos(before), times, u);
  }

  lemma AudioStaysTimed(c: Config, before: seq<Unit>, times: seq<int>, ev: Event)
    requires ev.WriteAudio? && Allowed(c, ev) && Timed(Videos(before), times)
    ensures Timed(Videos(before + UnitsOf(c, times, ev)), times + [])
  {
    VideosConcat(before, UnitsOf(c, times, ev));
    AudioHasNoVideos(c, ev.pts, ev.aus, |ev.aus|);
    assert Videos(before) + [] == Videos(before) && times + [] == times;
  }

  lemma {:induction false} AcceptedIsTimed(c: Config, evs: seq<Event>)
    requires Possible(c, evs)
    ensures Timed(Videos(Accepted(c, evs)), VideoTimes(c, evs))
  {
    if evs != [] {
      var before := evs[..|evs| - 1];
      AcceptedGrows(c, evs);
      AcceptedIsTimed(c, before);
      VideoTimesGrow(c, evs);
      StaysTimed(c, Accepted(c, before), VideoTimes(c, before), evs[|evs| - 1], Live(c, evs), Accepted(c, evs),
                 VideoTimes(c, evs));
    }
  }

  lemma StaysTimed(
    c: Config, before: seq<Unit>, times: seq<int>, ev: Event, live: bool, units: seq<Unit>, more: seq<int>)
    requires Allowed(c, ev) && Timed(Videos(before), times)
    requires units == before + (if live then UnitsOf(c, times, ev) else [])
    requires more == times + (if live && ev.WriteVideo? then [ev.pts + PTS_OFFSET] else [])
    ensures Timed(Videos(units), more)
  {
    if !live {
      assert before + [] == before && times + [] == times;
    } else if ev.WriteVideo? {
      VideoStaysTimed(c, before, times, ev);
    } else {
      AudioStaysTimed(c, before, times, ev);
    }
  }

  /** If the accepted video groups come as encoders send them, then over all segments, from first to
      last, the decoding times strictly increase and are never later than the presentation times. */
  lemma SegmentsAreDecodedInOrder(c: Config, first: string, evs: seq<Event>, gs: seq<Group>)
    requires Possible(c, evs) && Stream(gs) && VideoTimes(c, evs) == Frames(gs)
    ensures var vs := Videos(Contents(Run(c, first, evs).made));
            && |vs| == |Frames(gs)|
            && (forall j :: 0 <= j < |vs| ==> vs[j].dts <= vs[j].pts == Frames(gs)[j])
            && (forall j, k :: 0 <= j < k < |vs| ==> vs[j].dts < vs[k].dts)
  {
    SegmentsPartitionTheStream(c, first, evs);
    AcceptedIsTimed(c, evs);
    DecodingTimesAreOrdered(gs);
    var vs, ptss := Videos(Contents(Run(c, first, evs).made)), Frames(gs);
    forall j | 0 <= j < |vs| ensures vs[j].dts <= vs[j].pts == ptss[j] { assert ptss[j] - DtsAt(ptss, j) >= 0; }
    forall j, k | 0 <= j < k < |vs| ensures vs[j].dts < vs[k].dts { assert DtsAt(ptss, j) < DtsAt(ptss, k); }
  }

  // ---------------------------------------------------------------- the name index

  /** The index finds exactly the listed segments, each under its own name. */
  ghost predicate Indexed(s: State) {
    && (forall k :: s.deleted <= k < |s.made| ==> s.made[k].name in s.byName && s.byName[s.made[k].name] == k)
    && (forall name :: name in s.byName ==>
          s.deleted <= s.byName[name] < |s.made| && s.made[s.byName[name]].name == name)
  }

  predicate Listed(s: State, name: string) {
    exists k :: s.deleted <= k < |s.made| && s.made[k].name == name
  }

  lemma RotationKeepsIndex(c: Config, s: State, name: string, t: State)
    requires s.made != [] && s.deleted < |s.made| && Indexed(s) && t == Rotated(c, s, name)
    requires 1 <= |s.made| - s.deleted <= c.segmentCount && !Listed(s, name)
    ensures Indexed(t)
  {
    var n := |s.made|;
    assert forall k :: 0 <= k < n ==> t.made[k].name == s.made[k].name;
    forall k | t.deleted <= k < |t.made| ensures t.made[k].name in t.byName && t.byName[t.made[k].name] == k {
      if k < n {
        assert s.made[k].name in s.byName && s.byName[s.made[k].name] == k;
        assert s.made[s.deleted].name in s.byName && s.byName[s.made[s.deleted].name] == s.deleted;
      }
    }
    forall nm | nm in t.byName ensures t.deleted <= t.byName[nm] < |t.made| && t.made[t.byName[nm]].name == nm {
      if nm != name { assert nm in s.byName; }
    }
  }

  lemma RepeatedNameBreaksIndex(c: Config, s: State, name: string, t: State, k: nat)
    requires s.made != [] && s.deleted < |s.made| && Indexed(s) && t == Rotated(c, s, name)
    requires 1 <= |s.made| - s.deleted <= c.segmentCount
    requires s.deleted <= k < |s.made| && s.made[k].name == name
    ensures !Indexed(t)
  {
    var n := |s.made|;
    assert s.byName[name] == k && t.made[n].name == name && t.made[k].name == name;
    assert name in t.byName ==> t.byName[name] == n && t.deleted <= k;
    assert name !in t.byName ==> t.deleted <= n;
  }

  /** Rotation keeps the index right exactly if the new name is not the name of a listed segment. */
  lemma RotationKeepsIndexExactly(c: Config, s: State, name: string)
    requires s.made != [] && s.deleted < |s.made| && Indexed(s)
    requires 1 <= |s.made| - s.deleted <= c.segmentCount
    ensures Indexed(Rotated(c, s, name)) <==> !Listed(s, name)
  {
    if Listed(s, name) {
      var k :| s.deleted <= k < |s.made| && s.made[k].name == name;
      RepeatedNameBreaksIndex(c, s, name, Rotated(c, s, name), k);
    } else {
      RotationKeepsIndex(c, s, name, Rotated(c, s, name));
    }
  }

  /** The least video group that holds an IDR. */
  const IDR_GROUP: seq<seq<Byte>> := [[5]]

  lemma IdrOpens()
    ensures NoEmptyNalu(IDR_GROUP) && HasIDR(IDR_GROUP)
  {
    assert IsIDR(IDR_GROUP[0]);
  }

  /** With no minimal duration, an IDR group starts a new segment under the name at hand. */
  lemma IdrRotates(c: Config, s: State, name: string, t: State)
    requires c.hasVideo && c.segmentDuration == 0 && s.made != [] && s.deleted == 0 && |s.made| < c.segmentCount
    requires Current(s).started && Duration(Current(s)) >= 0
    requires t == WroteGroup(c, s, name, 0, IDR_GROUP, true)
    ensures |t.made| == |s.made| + 1 && t.deleted == 0 && Current(t).started && Duration(Current(t)) == 0
    ensures Current(t).name == name && t.byName == s.byName[name := |s.made|]
    ensures forall k :: 0 <= k < |s.made| ==> t.made[k].name == s.made[k].name
  {
    var u := Video(DtsFor(s.est, PTS_OFFSET), PTS_OFFSET, true, IDR_GROUP);
    var s1 := Rotated(c, s, name);
    assert Current(s1) == NewSegment(name);
    assert t == SetCurrent(s1, WithVideo(c, NewSegment(name), u)).(est := Fed(s.est, PTS_OFFSET));
  }

  lemma RunMore(c: Config, first: string, evs: seq<Event>, ev: Event)
    requires Possible(c, evs) && Allowed(c, ev)
    ensures Possible(c, evs + [ev]) && Run(c, first, evs + [ev]) == Next(c, Run(c, first, evs), ev)
  {
    assert (evs + [ev])[..|evs|] == evs;
  }

  /** The clock names two segments alike if they begin within one second: the index then leads from the
      common name to the second one, and the first cannot be had though it is listed. */
  lemma TwoRotationsUnderOneName(c: Config, first: string, name: string, evs: seq<Event>, ev: Event)
    requires c.hasVideo && c.segmentDuration == 0 && c.segmentCount >= 3
    requires ev == WriteVideo(name, 0, IDR_GROUP) && evs == [ev, ev, ev]
    ensures Possible(c, evs)
    ensures var s := Run(c, first, evs);
            s.deleted == 0 && |s.made| == 3 && s.made[1].name == s.made[2].name == name
            && name in s.byName && s.byName[name] == 2 && !Indexed(s)
  {
    IdrOpens();
    assert [] + [ev] == [ev] && [ev] + [ev] == [ev, ev] && [ev, ev] + [ev] == evs;
    RunMore(c, first, [], ev);
    RunMore(c, first, [ev], ev);
    RunMore(c, first, [ev, ev], ev);
    var s1, s2, s3 := Run(c, first, [ev]), Run(c, first, [ev, ev]), Run(c, first, evs);
    assert s1 == WroteGroup(c, Start(first), name, 0, IDR_GROUP, true);
    IdrRotates(c, s1, name, s2);
    IdrRotates(c, s2, name, s3);
    assert s3.made[1].name == s2.made[1].name;
  }

  /** Every segment carries the first name or the name given with one of the writes. */
  ghost predicate NamesGiven(s: State, first: string, evs: seq<Event>) {
    forall k :: 0 <= k < |s.made| ==> Given(s.made[k].name, first, evs)
  }

  predicate Given(name: string, first: string, evs: seq<Event>) {
    name == first || exists i :: 0 <= i < |evs| && evs[i].name == name
  }

  ghost predicate DistinctNames(first: string, evs: seq<Event>) {
    && (forall i :: 0 <= i < |evs| ==> evs[i].name != first)
    && (forall i, j :: 0 <= i < j < |evs| ==> evs[i].name != evs[j].name)
  }

  lemma NewNameIsNotListed(s: State, first: string, evs: seq<Event>)
    requires evs != [] && DistinctNames(first, evs) && NamesGiven(s, first, evs[..|evs| - 1])
    ensures !Listed(s, evs[|evs| - 1].name)
  {
    var n := |evs| - 1;
    forall k | 0 <= k < |s.made| ensures s.made[k].name != evs[n].name {
      assert Given(s.made[k].name, first, evs[..n]);
      if s.made[k].name != first {
        var i :| 0 <= i < n && evs[..n][i].name == s.made[k].name;
        assert evs[i].name == s.made[k].name;
      }
    }
  }

  lemma NamesStayGiven(s: State, t: State, first: string, evs: seq<Event>)
    requires evs != [] && NamesGiven(s, first, evs[..|evs| - 1])
    requires Extends(s, t) && AddsAtMost(s, t, evs[|evs| - 1].name)
    ensures NamesGiven(t, first, evs)
  {
    forall k | 0 <= k < |t.made| ensures Given(t.made[k].name, first, evs) {
      if k < |s.made| {
        assert Given(s.made[k].name, first, evs[..|evs| - 1]);
        if s.made[k].name != first {
          var i :| 0 <= i < |evs| - 1 && evs[..|evs| - 1][i].name == s.made[k].name;
          assert evs[i].name == t.made[k].name;
        }
      }
    }
  }

  /** With names that never repeat, the index is right after every write. */
  lemma {:induction false} DistinctNamesKeepIndex(c: Config, first: string, evs: seq<Event>)
    requires Possible(c, evs) && c.segmentCount >= 1 && DistinctNames(first, evs)
    ensures Indexed(Run(c, first, evs)) && NamesGiven(Run(c, first, evs), first, evs)
  {
    if evs != [] {
      var n := |evs| - 1;
      var s, ev := Run(c, first, evs[..n]), evs[n];
      DistinctNamesKeepIndex(c, first, evs[..n]);
      SegmentsPartitionTheStream(c, first, evs[..n]);
      NewNameIsNotListed(s, first, evs);
      assert Allowed(c, ev);
      if ev.WriteVideo? {
        VideoKeepsIndex(c, s, ev);
      } else {
        AudioKeepsIndex(c, s, ev);
      }
      NextExtends(c, s, ev, Run(c, first, evs));
      NamesStayGiven(s, Run(c, first, evs), first, evs);
    }
  }

  lemma SetCurrentIndexed(s: State, g: Segment, t: State)
    requires s.made != [] && g.name == Current(s).name && t.made == SetCurrent(s, g).made
    requires t.deleted == s.deleted && t.byName == s.byName && Indexed(s)
    ensures Indexed(t)
  {
    assert forall k :: 0 <= k < |s.made| ==> t.made[k].name == s.made[k].name;
  }

  lemma {:induction false} AUsIndexed(c: Config, s: State, pts: int, aus: seq<seq<Byte>>, n: nat)
    requires WellConfigured(c) && n <= |aus| && s.made != [] && Indexed(s)
    ensures Indexed(WroteAUs(c, s, pts, aus, n))
  {
    if n > 0 {
      AUsIndexed(c, s, pts, aus, n - 1);
      var s1 := WroteAUs(c, s, pts, aus, n - 1);
      var u := Audio(AuPTS(c, pts, n - 1), aus[n - 1]);
      SetCurrentIndexed(s1, WithAudio(c, Current(s1), u), WroteAUs(c, s, pts, aus, n));
    }
  }

  /** A write makes at most one new segment, with the name it was given. */
  predicate AddsAtMost(s: State, t: State, name: string) {
    |s.made| <= |t.made| <= |s.made| + 1 && (|t.made| > |s.made| ==> t.made[|s.made|].name == name)
  }

  lemma VideoKeepsIndex(c: Config, s: State, ev: Event)
    requires Allowed(c, ev) && s.made != [] && s.deleted < |s.made| && ev.WriteVideo?
    requires Indexed(s) && !Listed(s, ev.name) && |s.made| - s.deleted <= c.segmentCount
    ensures Indexed(Next(c, s, ev)) && AddsAtMost(s, Next(c, s, ev), ev.name)
  {
    var idr, g, at := HasIDR(ev.nalus), Current(s), ev.pts + PTS_OFFSET;
    var u := Video(DtsFor(s.est, at), at, idr, ev.nalus);
    if g.started || idr {
      var s1 := if idr && g.started && Duration(g) >= c.segmentDuration then Rotated(c, s, ev.name) else s;
      RotationKeepsIndexExactly(c, s, ev.name);
      SetCurrentIndexed(s1, WithVideo(c, Current(s1), u), Next(c, s, ev));
    }
  }

  lemma AudioKeepsIndex(c: Config, s: State, ev: Event)
    requires WellConfigured(c) && AudioSupported(c) && s.made != [] && s.deleted < |s.made| && ev.WriteAudio?
    requires Indexed(s) && !Listed(s, ev.name) && |s.made| - s.deleted <= c.segmentCount
    ensures Indexed(Next(c, s, ev)) && AddsAtMost(s, Next(c, s, ev), ev.name)
  {
    var s1 := Rotated(c, s, ev.name).(auCount := 0);
    RotationKeepsIndexExactly(c, s, ev.name);
    assert Indexed(s1);
    AUsIndexed(c, s, ev.pts, ev.aus, |ev.aus|);
    AUsIndexed(c, s1, ev.pts, ev.aus, |ev.aus|);
    AUsExtend(c, s1, ev.pts, ev.aus, |ev.aus|);
  }
}
