/** What each write does to the segments, on the bytes of the NALUs and the times of the units; and what the
    numbers of the playlist mean. */
module HlsLaws {
  import opened Common
  import opened Bytes
  import opened Dts
  import opened HlsModel
  import opened HlsRuns

  // ---------------------------------------------------------------- rotation

  /** No segment but the last is touched, and none is made or dropped. */
  predicate SameSegments(s: State, t: State) {
    && s.made != [] && |t.made| == |s.made| && t.made[..|s.made| - 1] == s.made[..|s.made| - 1]
    && t.made[|s.made| - 1].name == s.made[|s.made| - 1].name
    && t.made[|s.made| - 1].closed == s.made[|s.made| - 1].closed
    && t.deleted == s.deleted && t.byName == s.byName
  }

  /** The last segment is closed as it is and an open one of this name follows it; beyond the limit the oldest
      listed segment is dropped. */
  predicate NextSegment(c: Config, s: State, name: string, t: State) {
    && s.made != [] && s.deleted < |s.made| && |t.made| == |s.made| + 1
    && t.made[..|s.made| - 1] == s.made[..|s.made| - 1]
    && t.made[|s.made| - 1] == s.made[|s.made| - 1].(closed := true)
    && t.made[|s.made|].name == name && !t.made[|s.made|].closed
    && if |s.made| + 1 - s.deleted > c.segmentCount then
         && t.deleted == s.deleted + 1
         && t.byName == s.byName[name := |s.made|] - {t.made[s.deleted].name}
       else t.deleted == s.deleted && t.byName == s.byName[name := |s.made|]
  }

  lemma RotatedLaw(c: Config, s: State, name: string, t: State)
    requires s.made != [] && s.deleted < |s.made| && t == Rotated(c, s, name)
    ensures NextSegment(c, s, name, t) && t.made[|s.made|].units == [] && !t.made[|s.made|].started
    ensures t.est == s.est && t.auCount == s.auCount
  {
    var made := SetCurrent(s, Current(s).(closed := true)).made;
    assert made[..|s.made| - 1] == s.made[..|s.made| - 1];
    assert t.made == made + [NewSegment(name)];
    assert t.made[..|s.made| - 1] == made[..|s.made| - 1];
  }

  lemma NextSegmentStays(c: Config, s: State, name: string, s1: State, t: State)
    requires NextSegment(c, s, name, s1) && SameSegments(s1, t)
    ensures NextSegment(c, s, name, t)
  {
    var n := |s.made|;
    assert t.made[..n - 1] == t.made[..n][..n - 1] && s1.made[..n - 1] == s1.made[..n][..n - 1];
    assert t.made[n - 1] == t.made[..n][n - 1] && s1.made[n - 1] == s1.made[..n][n - 1];
    assert t.made[s.deleted] == t.made[..n][s.deleted] && s1.made[s.deleted] == s1.made[..n][s.deleted];
  }

  /** Whether a write rotates, and the segment that it writes to. */
  ghost predicate RotatesIf(c: Config, rotates: bool, s: State, name: string, t: State) {
    if rotates then NextSegment(c, s, name, t) else SameSegments(s, t)
  }

  // ---------------------------------------------------------------- video

  /** A slice of an IDR picture is among the NALUs: the type is in the lower five bits of the first byte. */
  predicate HoldsIDR(nalus: seq<seq<Byte>>)
    requires NoEmptyNalu(nalus)
  {
    exists i :: 0 <= i < |nalus| && nalus[i][0] % 32 == 5
  }

  lemma HoldsIDRMeans(nalus: seq<seq<Byte>>)
    requires NoEmptyNalu(nalus)
    ensures HasIDR(nalus) <==> HoldsIDR(nalus)
  {
    if i :| 0 <= i < |nalus| && nalus[i][0] % 32 == 5 { assert IsIDR(nalus[i]); }
    if i :| 0 <= i < |nalus| && IsIDR(nalus[i]) { assert nalus[i][0] % 32 == 5; }
  }

  /** A group is taken exactly if the muxer has started or the group holds an IDR slice. It is rotated for
      exactly if it holds one, the segment has started, and the segment spans the configured duration. It becomes
      the last unit, two seconds later, with its NALUs. */
  lemma VideoLaw(c: Config, s: State, name: string, pts: int, nalus: seq<seq<Byte>>)
    requires NoEmptyNalu(nalus) && s.made != [] && s.deleted < |s.made|
    ensures var g, t := Current(s), WroteH264(c, s, name, pts, nalus);
            var rotates := HoldsIDR(nalus) && g.started && g.maxPTS - g.minPTS >= c.segmentDuration;
            if !g.started && !HoldsIDR(nalus) then t == s
            else
              && RotatesIf(c, rotates, s, name, t) && t.auCount == s.auCount
              && TakesVideo(if rotates then [] else g.units, Current(t).units, pts, nalus)
              && (c.hasVideo ==> Current(t).started)
  {
    HoldsIDRMeans(nalus);
    var g := Current(s);
    if g.started || HasIDR(nalus) {
      var rotates := HasIDR(nalus) && g.started && Duration(g) >= c.segmentDuration;
      var s1 := if rotates then Rotated(c, s, name) else s;
      RotatedLaw(c, s, name, Rotated(c, s, name));
      var at := pts + PTS_OFFSET;
      var u := Video(DtsFor(s.est, at), at, HasIDR(nalus), nalus);
      var t := WroteH264(c, s, name, pts, nalus);
      SetCurrentLaw(s1, WithVideo(c, Current(s1), u), t);
      if rotates { NextSegmentStays(c, s, name, s1, t); }
      assert Current(t).units == Current(s1).units + [u];
    }
  }

  /** One more unit, of these NALUs and this time. */
  ghost predicate TakesVideo(before: seq<Unit>, after: seq<Unit>, pts: int, nalus: seq<seq<Byte>>)
    requires NoEmptyNalu(nalus)
  {
    && |after| == |before| + 1 && after[..|before|] == before && after[|before|].Video?
    && after[|before|].pts == pts + 2_000_000_000 && after[|before|].nalus == nalus
    && (after[|before|].idr <==> HoldsIDR(nalus))
  }

  lemma SetCurrentLaw(s: State, g: Segment, t: State)
    requires s.made != [] && g.name == Current(s).name && g.closed == Current(s).closed
    requires t.made == SetCurrent(s, g).made && t.deleted == s.deleted && t.byName == s.byName
    ensures SameSegments(s, t) && Current(t) == g
  {
    assert t.made[..|s.made| - 1] == s.made[..|s.made| - 1];
  }

  // ---------------------------------------------------------------- audio

  /** Access unit k is presented k times a thousand samples after the first, which is presented two seconds after
      the time it came with; in whole nanoseconds, rounded down. */
  predicate PlayedAt(c: Config, pts: int, k: nat, at: int) {
    0 <= k * 1000 * 1_000_000_000 - (at - pts - 2_000_000_000) * c.sampleRate < c.sampleRate
  }

  lemma AuPTSMeans(c: Config, pts: int, k: nat)
    requires WellConfigured(c)
    ensures PlayedAt(c, pts, k, AuPTS(c, pts, k))
  {
    var total := k * 1000 * SECOND;
    assert total == total / c.sampleRate * c.sampleRate + total % c.sampleRate;
    assert AuPTS(c, pts, k) - pts - PTS_OFFSET == total / c.sampleRate;
  }

  /** These are the access units, in order, at their times. */
  ghost predicate PlaysUnits(c: Config, pts: int, aus: seq<seq<Byte>>, units: seq<Unit>) {
    && |units| == |aus|
    && forall k :: 0 <= k < |aus| ==> units[k].Audio? && units[k].au == aus[k] && PlayedAt(c, pts, k, units[k].pts)
  }

  lemma {:induction false} AudioUnitsMean(c: Config, pts: int, aus: seq<seq<Byte>>, n: nat)
    requires WellConfigured(c) && n <= |aus|
    ensures PlaysUnits(c, pts, aus[..n], AudioUnits(c, pts, aus, n))
  {
    if n > 0 {
      AudioUnitsMean(c, pts, aus, n - 1);
      AuPTSMeans(c, pts, n - 1);
      var before, units := AudioUnits(c, pts, aus, n - 1), AudioUnits(c, pts, aus, n);
      assert units == before + [Audio(AuPTS(c, pts, n - 1), aus[n - 1])];
      assert aus[..n][..n - 1] == aus[..n - 1];
      forall k | 0 <= k < n
        ensures units[k].Audio? && units[k].au == aus[..n][k] && PlayedAt(c, pts, k, units[k].pts)
      {
        if k < n - 1 { assert units[k] == before[k] && before[k].au == aus[..n - 1][k]; }
      }
    }
  }

  lemma {:induction false} AUsLaw(c: Config, s: State, pts: int, aus: seq<seq<Byte>>, n: nat)
    requires WellConfigured(c) && n <= |aus| && s.made != []
    ensures var t := WroteAUs(c, s, pts, aus, n);
            && SameSegments(s, t) && t.auCount == s.auCount + n
            && Current(t).units == Current(s).units + AudioUnits(c, pts, aus, n)
  {
    if n == 0 {
      assert Current(s).units + [] == Current(s).units;
    } else {
      AUsLaw(c, s, pts, aus, n - 1);
      var s1, t := WroteAUs(c, s, pts, aus, n - 1), WroteAUs(c, s, pts, aus, n);
      var u := Audio(AuPTS(c, pts, n - 1), aus[n - 1]);
      SetCurrentLaw(s1, WithAudio(c, Current(s1), u), t);
      OneMore(Current(s).units, AudioUnits(c, pts, aus, n - 1), u);
      SameSegmentsTwice(s, s1, t);
    }
  }

  lemma SameSegmentsTwice(s: State, t: State, u: State)
    requires SameSegments(s, t) && SameSegments(t, u)
    ensures SameSegments(s, u)
  {
  }

  /** With video, nothing is taken before the first segment has started. Audio alone rotates exactly if a hundred
      units were counted, the segment has started, and it spans the configured duration. All units are taken, in
      order, at their times; or, with a configuration that the header cannot express, none is. */
  lemma AudioLaw(c: Config, s: State, name: string, pts: int, aus: seq<seq<Byte>>)
    requires WellConfigured(c) && s.made != [] && s.deleted < |s.made|
    ensures var g, t := Current(s), WroteAAC(c, s, name, pts, aus);
            var rotates := !c.hasVideo && s.auCount >= 100 && g.started && g.maxPTS - g.minPTS >= c.segmentDuration;
            var before := if rotates then [] else g.units;
            var counted := if rotates then 0 else s.auCount;
            if c.hasVideo && !g.started then t == s
            else
              && RotatesIf(c, rotates, s, name, t) && t.est == s.est
              && |Current(t).units| >= |before| && Current(t).units[..|before|] == before
              && if AudioSupported(c) then
                   t.auCount == counted + |aus| && PlaysUnits(c, pts, aus, Current(t).units[|before|..])
                 else t.auCount == counted + (if aus == [] then 0 else 1) && Current(t).units == before
  {
    var g := Current(s);
    if !c.hasVideo || g.started {
      var rotates := !c.hasVideo && s.auCount >= SEGMENT_MIN_AU_COUNT && g.started && Duration(g) >= c.segmentDuration;
      var s1 := if rotates then Rotated(c, s, name).(auCount := 0) else s;
      RotatedLaw(c, s, name, Rotated(c, s, name));
      var units := if AudioSupported(c) then AudioUnits(c, pts, aus, |aus|) else [];
      AudioTail(c, AudioSupported(c), s1, pts, aus, WroteAAC(c, s, name, pts, aus));
      TailOf(Current(s1).units, units, Current(WroteAAC(c, s, name, pts, aus)).units);
      AudioUnitsPlay(c, pts, aus, AudioUnits(c, pts, aus, |aus|));
      if rotates { NextSegmentStays(c, s, name, s1, WroteAAC(c, s, name, pts, aus)); }
    }
  }

  lemma AudioUnitsPlay(c: Config, pts: int, aus: seq<seq<Byte>>, units: seq<Unit>)
    requires WellConfigured(c) && units == AudioUnits(c, pts, aus, |aus|)
    ensures PlaysUnits(c, pts, aus, units)
  {
    AudioUnitsMean(c, pts, aus, |aus|);
    assert aus[..|aus|] == aus;
  }

  /** The first unit of a group fails: it has been counted, and may have stamped the segment. */
  function FailedFirst(c: Config, s: State, pts: int): State
    requires WellConfigured(c) && s.made != []
  {
    SetCurrent(s, StampedByAudio(c, Current(s), AuPTS(c, pts, 0))).(auCount := s.auCount + 1)
  }

  lemma FailedFirstLaw(c: Config, s: State, pts: int)
    requires WellConfigured(c) && s.made != []
    ensures var t := FailedFirst(c, s, pts);
            SameSegments(s, t) && t.est == s.est && t.auCount == s.auCount + 1 && Current(t).units == Current(s).units
  {
    SetCurrentLaw(s, StampedByAudio(c, Current(s), AuPTS(c, pts, 0)), FailedFirst(c, s, pts));
  }

  lemma AudioTail(c: Config, supported: bool, s: State, pts: int, aus: seq<seq<Byte>>, t: State)
    requires WellConfigured(c) && s.made != []
    requires t == if supported then WroteAUs(c, s, pts, aus, |aus|)
                  else if aus == [] then s
                  else FailedFirst(c, s, pts)
    ensures SameSegments(s, t) && t.est == s.est
    ensures t.auCount == s.auCount + if supported then |aus| else if aus == [] then 0 else 1
    ensures Current(t).units == Current(s).units + if supported then AudioUnits(c, pts, aus, |aus|) else []
  {
    assert Current(s).units + [] == Current(s).units;
    if supported {
      AUsLaw(c, s, pts, aus, |aus|);
    } else if aus != [] {
      FailedFirstLaw(c, s, pts);
    }
  }

  lemma TailOf(before: seq<Unit>, units: seq<Unit>, all: seq<Unit>)
    requires all == before + units
    ensures all[..|before|] == before && all[|before|..] == units
  {
  }

  // ---------------------------------------------------------------- what the segments hold

  /** Video units are flagged by their NALUs. */
  predicate FlaggedRight(u: Unit) {
    u.Video? ==> NoEmptyNalu(u.nalus) && (u.idr <==> HoldsIDR(u.nalus))
  }

  lemma UnitsAreFlaggedRight(c: Config, times: seq<int>, ev: Event, u: Unit)
    requires Allowed(c, ev) && u in UnitsOf(c, times, ev)
    ensures FlaggedRight(u)
  {
    if ev.WriteVideo? {
      HoldsIDRMeans(ev.nalus);
    } else {
      AudioUnitsMean(c, ev.pts, ev.aus, |ev.aus|);
      var k :| 0 <= k < |UnitsOf(c, times, ev)| && UnitsOf(c, times, ev)[k] == u;
      assert ev.aus[..|ev.aus|] == ev.aus;
    }
  }

  lemma {:induction false} AcceptedIsFlaggedRight(c: Config, evs: seq<Event>, u: Unit)
    requires Possible(c, evs) && u in Accepted(c, evs)
    ensures FlaggedRight(u)
  {
    if evs != [] {
      AcceptedGrows(c, evs);
      if u in Accepted(c, evs[..|evs| - 1]) {
        AcceptedIsFlaggedRight(c, evs[..|evs| - 1], u);
      } else {
        UnitsAreFlaggedRight(c, VideoTimes(c, evs[..|evs| - 1]), evs[|evs| - 1], u);
      }
    }
  }

  lemma {:induction false} ContentsHold(made: seq<Segment>, k: nat, u: Unit)
    requires k < |made| && u in made[k].units
    ensures u in Contents(made)
  {
    if k < |made| - 1 { ContentsHold(made[..|made| - 1], k, u); }
  }

  /** With video, every segment that holds data begins with a group that holds an IDR slice. */
  lemma SegmentsBeginWithIDR(c: Config, first: string, evs: seq<Event>, k: nat)
    requires Possible(c, evs) && c.hasVideo && k < |Run(c, first, evs).made| && Run(c, first, evs).made[k].units != []
    ensures var u := Run(c, first, evs).made[k].units[0];
            u.Video? && NoEmptyNalu(u.nalus) && HoldsIDR(u.nalus)
  {
    var s := Run(c, first, evs);
    SegmentsPartitionTheStream(c, first, evs);
    assert SegmentOk(c, s.made[k]);
    ContentsHold(s.made, k, s.made[k].units[0]);
    AcceptedIsFlaggedRight(c, evs, s.made[k].units[0]);
  }

  // ---------------------------------------------------------------- the window

  /** As many segments are listed as there are, up to the configured number and at least one. */
  predicate WindowIsFull(c: Config, s: State) {
    |s.made| - s.deleted == Min(|s.made|, Max(1, c.segmentCount))
  }

  lemma RotationKeepsWindow(c: Config, s: State, name: string)
    requires s.made != [] && s.deleted < |s.made| && WindowIsFull(c, s)
    ensures WindowIsFull(c, Rotated(c, s, name))
  {
  }

  lemma WritesKeepWindow(c: Config, s: State, ev: Event)
    requires Allowed(c, ev) && s.made != [] && s.deleted < |s.made| && WindowIsFull(c, s)
    ensures WindowIsFull(c, Next(c, s, ev))
  {
    RotationKeepsWindow(c, s, ev.name);
  }

  lemma {:induction false} RunsKeepWindow(c: Config, first: string, evs: seq<Event>)
    requires Possible(c, evs)
    ensures WindowIsFull(c, Run(c, first, evs))
  {
    if evs != [] {
      var n := |evs| - 1;
      assert Allowed(c, evs[n]);
      RunsKeepWindow(c, first, evs[..n]);
      WritesKeepWindow(c, Run(c, first, evs[..n]), evs[n]);
    }
  }

  // ---------------------------------------------------------------- numbers and names

  /** Rounded up. */
  lemma CeilSecondsMeans(d: nat)
    ensures (CeilSeconds(d) - 1) * 1_000_000_000 < d <= CeilSeconds(d) * 1_000_000_000
  {
  }

  /** Rounded to the nearest, and up from the middle. */
  lemma RoundSecondsMeans(d: nat)
    ensures 2 * d - 1_000_000_000 < 2 * 1_000_000_000 * RoundSeconds(d) <= 2 * d + 1_000_000_000
  {
  }
}
