/** The HLS muxer and its segment files as objects (internal/hls/muxer.go, internal/hls/tsfile.go).
    The MPEG-TS multiplexer is foreign: what it turns a unit into, given the units before it in the
    same segment, is a parameter. */
module Hls {
  import opened Bytes
  import opened Dts
  import Buffer
  import opened HlsModel
  import opened HlsRuns

  datatype Packetizer = Packetizer(tables: seq<Byte>, packet: (seq<Unit>, Unit) -> seq<Byte>)

  /** The bytes of a segment: the tables, and then the packets of its units. */
  ghost function Rendered(p: Packetizer, units: seq<Unit>): seq<Byte> {
    if units == [] then p.tables
    else
      var n := |units| - 1;
      Rendered(p, units[..n]) + p.packet(units[..n], units[n])
  }

  lemma RenderedMore(p: Packetizer, units: seq<Unit>, u: Unit)
    ensures Rendered(p, units + [u]) == Rendered(p, units) + p.packet(units, u)
  {
    assert (units + [u])[..|units|] == units;
  }

  /** A segment begins with the tables, so that no packet is lost, and then has one packet for each unit, made in
      view of the units before it. */
  lemma {:induction false} RenderedMeans(p: Packetizer, units: seq<Unit>, k: nat)
    requires k < |units|
    ensures Rendered(p, []) == p.tables && p.tables <= Rendered(p, units[..k]) <= Rendered(p, units)
    ensures Rendered(p, units[..k + 1]) == Rendered(p, units[..k]) + p.packet(units[..k], units[k])
    decreases |units|
  {
    var n := |units| - 1;
    assert units[..k + 1][..k] == units[..k];
    if k < n {
      RenderedMeans(p, units[..n], k);
      assert units[..n][..k] == units[..k] && units[..n][..k + 1] == units[..k + 1];
    } else {
      assert units[..k + 1] == units;
      if k > 0 {
        RenderedMeans(p, units[..n], 0);
        assert units[..n][..0] == [];
      }
    }
  }

  class TSFile {
    const name: string
    const pcrTrackIsVideo: bool
    const mux: Packetizer
    const buf: Buffer.MultiAccessBuffer
    var firstPacketWritten: bool
    var minPTS: int
    var maxPTS: int
    var units: seq<Unit>  // the memory of the multiplexer: everything it was handed

    constructor (name: string, hasVideoTrack: bool, mux: Packetizer)
      ensures this.name == name && pcrTrackIsVideo == hasVideoTrack && this.mux == mux
      ensures fresh(buf) && Valid() && View() == NewSegment(name)
    {
      var b := new Buffer.MultiAccessBuffer();
      var n := b.Write(mux.tables);
      this.name := name;
      pcrTrackIsVideo := hasVideoTrack;
      this.mux := mux;
      buf := b;
      firstPacketWritten := false;
      minPTS := 0;
      maxPTS := 0;
      units := [];
      new;
      assert [] + mux.tables == mux.tables;
    }

    /** Readers get exactly the rendering of what was written, and no segment ends before it starts. */
    ghost predicate Valid()
      reads this, buf
    {
      buf.Valid() && buf.buf == Rendered(mux, units) && minPTS <= maxPTS
    }

    ghost function View(): Segment
      reads this, buf
    {
      Segment(name, buf.closed, firstPacketWritten, minPTS, maxPTS, units)
    }

    method Close()
      requires Valid()
      modifies buf
      ensures Valid() && View() == old(View()).(closed := true)
      ensures buf.buf == old(buf.buf)
    {
      buf.Close();
    }

    function Span(): int
      reads this
    {
      maxPTS - minPTS
    }

    method Stamp(pts: int)
      modifies this`firstPacketWritten, this`minPTS, this`maxPTS
      ensures View() == Stamped(old(View()), pts)
    {
      if !firstPacketWritten {
        firstPacketWritten := true;
        minPTS := pts;
        maxPTS := pts;
      } else {
        if pts < minPTS {
          minPTS := pts;
        }
        if pts > maxPTS {
          maxPTS := pts;
        }
      }
    }

    method Packet(u: Unit)
      requires Valid()
      modifies this`units, buf
      ensures Valid() && View() == old(View()).(units := old(units) + [u])
      ensures old(buf.buf) <= buf.buf
    {
      RenderedMore(mux, units, u);
      var n := buf.Write(mux.packet(units, u));
      units := units + [u];
    }

    method WriteH264(dts: int, pts: int, isIDR: bool, nalus: seq<seq<Byte>>)
      requires Valid()
      modifies this, buf
      ensures Valid() && old(buf.buf) <= buf.buf
      ensures var u := Video(dts, pts, isIDR, nalus);
              View() == (if pcrTrackIsVideo then Stamped(old(View()), pts) else old(View())).(units := old(units) + [u])
    {
      if pcrTrackIsVideo {
        Stamp(pts);
      }
      Packet(Video(dts, pts, isIDR, nalus));
    }

    /** Fails when the ADTS header cannot express the audio configuration; the stamp stays. */
    method WriteAAC(supported: bool, pts: int, au: seq<Byte>) returns (ok: bool)
      requires Valid()
      modifies this, buf
      ensures Valid() && old(buf.buf) <= buf.buf && ok == supported
      ensures var g := if pcrTrackIsVideo then old(View()) else Stamped(old(View()), pts);
              View() == if supported then g.(units := old(units) + [Audio(pts, au)]) else g
    {
      if !pcrTrackIsVideo {
        Stamp(pts);
      }
      if !supported {
        return false;
      }
      Packet(Audio(pts, au));
      ok := true;
    }
  }

  lemma SnocParts<T>(xs: seq<T>, x: T)
    ensures |xs + [x]| == |xs| + 1 && (xs + [x])[..|xs|] == xs && (xs + [x])[|xs|] == x
  {
  }

  lemma UpdateParts<T>(xs: seq<T>, x: T)
    requires xs != []
    ensures xs[|xs| - 1 := x][..|xs| - 1] == xs[..|xs| - 1] && xs[|xs| - 1 := x][|xs| - 1] == x
  {
  }

  ghost function Bufs(files: seq<TSFile>): set<Buffer.MultiAccessBuffer> {
    set f | f in files :: f.buf
  }

  /** These files are these segments. */
  ghost predicate Match(files: seq<TSFile>, gs: seq<Segment>)
    reads files, Bufs(files)
  {
    |files| == |gs| && forall i :: 0 <= i < |files| ==> files[i].Valid() && files[i].View() == gs[i]
  }

  method IdrPresent(nalus: seq<seq<Byte>>) returns (present: bool)
    requires NoEmptyNalu(nalus)
    ensures present == HasIDR(nalus)
  {
    var i := 0;
    while i < |nalus|
      invariant 0 <= i <= |nalus|
      invariant forall k :: 0 <= k < i ==> !IsIDR(nalus[k])
    {
      if nalus[i][0] % 32 == NALU_TYPE_IDR {
        assert IsIDR(nalus[i]);
        return true;
      }
      i := i + 1;
    }
    return false;
  }

  class Muxer {
    const c: Config
    const mux: Packetizer
    const videoDTSEst: DTSEstimator
    var audioAUCount: nat
    var tsCurrent: TSFile
    var tsQueue: seq<TSFile>
    var tsByName: map<string, TSFile>
    var tsDeleteCount: nat
    ghost var made: seq<TSFile>  // every segment file ever made, evicted ones included
    ghost var state: State       // the muxer as a value

    /** The queue is the tail of all files made, the current file is their last, and the index leads to
        the files that the value says. */
    ghost predicate Linked()
      reads this
    {
      && |made| == |state.made| && tsDeleteCount == state.deleted < |made|
      && tsQueue == made[tsDeleteCount..]
      && tsCurrent == made[|made| - 1]
      && audioAUCount == state.auCount
      && tsByName.Keys == state.byName.Keys
      && forall name :: name in tsByName ==> state.byName[name] < |made| && tsByName[name] == made[state.byName[name]]
    }

    /** The files before the current one; nothing changes them any more. */
    ghost function Past(): seq<TSFile>
      requires made != []
      reads this
    {
      made[..|made| - 1]
    }

    ghost predicate Valid()
      reads this, made, Bufs(made), videoDTSEst
    {
      && Linked()
      && (forall f :: f in Past() ==> f in made)
      && tsCurrent !in Past() && tsCurrent.buf !in Bufs(Past())
      && Match(Past(), state.made[..|made| - 1])
      && tsCurrent.Valid() && tsCurrent.View() == Current(state)
      && tsCurrent.mux == mux && tsCurrent.pcrTrackIsVideo == c.hasVideo
      && videoDTSEst.View() == state.est
    }

    /** The value follows a change of the current file. */
    ghost method Follow()
      requires Linked()
      requires tsCurrent !in Past() && tsCurrent.buf !in Bufs(Past())
      requires Match(Past(), state.made[..|made| - 1])
      requires tsCurrent.Valid() && tsCurrent.mux == mux && tsCurrent.pcrTrackIsVideo == c.hasVideo
      requires videoDTSEst.View() == state.est
      modifies this`state
      ensures Valid() && state == SetCurrent(old(state), tsCurrent.View())
    {
      UpdateParts(state.made, tsCurrent.View());
      state := SetCurrent(state, tsCurrent.View());
    }

    constructor (c: Config, mux: Packetizer, name: string)
      ensures this.c == c && this.mux == mux && Valid() && state == Start(name)
      ensures made == [tsCurrent] && fresh(tsCurrent) && fresh(tsCurrent.buf) && fresh(videoDTSEst)
    {
      var est := new DTSEstimator();
      var f := new TSFile(name, c.hasVideo, mux);
      this.c := c;
      this.mux := mux;
      videoDTSEst := est;
      audioAUCount := 0;
      tsCurrent := f;
      tsByName := map[name := f];
      tsQueue := [f];
      tsDeleteCount := 0;
      made := [f];
      state := Start(name);
    }

    method Close()
      requires Valid()
      modifies this`state, tsCurrent.buf
      ensures Valid() && state == SetCurrent(old(state), Current(old(state)).(closed := true))
      ensures tsCurrent.buf.buf == old(tsCurrent.buf.buf)
    {
      tsCurrent.Close();
      Follow();
    }

    method Open(name: string)
      requires Valid()
      modifies this`tsCurrent, this`tsByName, this`tsQueue, this`made, this`state
      ensures Valid() && fresh(tsCurrent) && fresh(tsCurrent.buf) && made == old(made) + [tsCurrent]
      ensures state == old(state).(
                made := old(state).made + [NewSegment(name)],
                byName := old(state).byName[name := |old(made)|])
    {
      MatchAll();
      var f := new TSFile(name, c.hasVideo, mux);
      ghost var before, segments := made, state.made;
      tsCurrent := f;
      tsByName := tsByName[name := f];
      tsQueue := tsQueue + [f];
      state := state.(made := state.made + [NewSegment(name)], byName := state.byName[name := |made|]);
      made := made + [f];
      SnocParts(before, f);
      SnocParts(segments, NewSegment(name));
    }

    lemma MatchAll()
      requires Valid()
      ensures Match(made, state.made)
    {
      forall i | 0 <= i < |made| ensures made[i].Valid() && made[i].View() == state.made[i] {
        if i < |made| - 1 { assert made[i] == Past()[i]; }
      }
    }

    method Evict()
      requires Valid() && |tsQueue| > 1
      modifies this`tsByName, this`tsQueue, this`tsDeleteCount, this`state
      ensures Valid()
      ensures state == old(state).(byName := old(state).byName - {old(state).made[old(tsDeleteCount)].name},
                                   deleted := old(tsDeleteCount) + 1)
    {
      assert tsQueue[0] == Past()[tsDeleteCount];
      tsByName := tsByName - {tsQueue[0].name};
      state := state.(byName := state.byName - {state.made[tsDeleteCount].name}, deleted := tsDeleteCount + 1);
      tsQueue := tsQueue[1..];
      tsDeleteCount := tsDeleteCount + 1;
    }

    method Renew(name: string)
      requires Valid()
      modifies this`tsCurrent, this`tsByName, this`tsQueue, this`made, this`state, tsCurrent.buf
      ensures Valid() && made == old(made) + [tsCurrent] && fresh(tsCurrent) && fresh(tsCurrent.buf)
      ensures var closed := SetCurrent(old(state), Current(old(state)).(closed := true));
              state == closed.(made := closed.made + [NewSegment(name)], byName := closed.byName[name := |closed.made|])
      ensures old(tsCurrent).buf.buf == old(tsCurrent.buf.buf)
    {
      Close();
      Open(name);
    }

    /** The current segment is closed, a new one is opened, and over the limit the oldest listed one
        is dropped from the queue and the index. No file is touched but the one that is closed. */
    method Rotate(name: string)
      requires Valid()
      modifies this, tsCurrent.buf
      ensures Valid() && state == Rotated(c, old(state), name)
      ensures made == old(made) + [tsCurrent] && fresh(tsCurrent) && fresh(tsCurrent.buf)
      ensures old(tsCurrent).buf.buf == old(tsCurrent.buf.buf)
    {
      Renew(name);
      if |tsQueue| > c.segmentCount {
        Evict();
      }
    }

    method RotateIf(due: bool, name: string)
      requires Valid()
      modifies this, tsCurrent.buf
      ensures Valid() && state == if due then Rotated(c, old(state), name) else old(state)
      ensures old(made) <= made && old(tsCurrent).buf.buf == old(tsCurrent.buf.buf)
      ensures || (tsCurrent == old(tsCurrent) && tsCurrent.buf == old(tsCurrent.buf))
              || (fresh(tsCurrent) && fresh(tsCurrent.buf))
    {
      if due {
        Rotate(name);
      }
    }

    method AppendVideo(dts: int, pts: int, idr: bool, nalus: seq<seq<Byte>>)
      requires Valid()
      modifies this`state, tsCurrent, tsCurrent.buf
      ensures Valid() && old(tsCurrent.buf.buf) <= tsCurrent.buf.buf
      ensures state == SetCurrent(old(state), WithVideo(c, Current(old(state)), Video(dts, pts, idr, nalus)))
    {
      tsCurrent.WriteH264(dts, pts, idr, nalus);
      Follow();
    }

    method EstimateDTS(pts: int) returns (dts: int)
      requires Valid()
      modifies this`state, videoDTSEst
      ensures Valid() && dts == DtsFor(old(state.est), pts) && state == old(state).(est := Fed(old(state.est), pts))
    {
      dts := videoDTSEst.Feed(pts);
      state := state.(est := videoDTSEst.View());
    }

    method PushVideo(pts: int, idr: bool, nalus: seq<seq<Byte>>)
      requires Valid()
      modifies this`state, videoDTSEst, tsCurrent, tsCurrent.buf
      ensures Valid() && old(tsCurrent.buf.buf) <= tsCurrent.buf.buf
      ensures var s := old(state);
              var u := Video(DtsFor(s.est, pts), pts, idr, nalus);
              state == SetCurrent(s, WithVideo(c, Current(s), u)).(est := Fed(s.est, pts))
    {
      var dts := EstimateDTS(pts);
      AppendVideo(dts, pts, idr, nalus);
    }

    method WriteH264(name: string, pts: int, nalus: seq<seq<Byte>>)
      requires Valid() && NoEmptyNalu(nalus)
      modifies this, videoDTSEst, tsCurrent, tsCurrent.buf
      ensures Valid() && state == WroteH264(c, old(state), name, pts, nalus)
      ensures old(made) <= made && old(tsCurrent.buf.buf) <= old(tsCurrent).buf.buf
      ensures tsCurrent == old(tsCurrent) || (fresh(tsCurrent) && fresh(tsCurrent.buf))
    {
      var idrPresent := IdrPresent(nalus);
      WriteGroup(name, pts, nalus, idrPresent);
    }

    method WriteGroup(name: string, pts: int, nalus: seq<seq<Byte>>, idrPresent: bool)
      requires Valid()
      modifies this, videoDTSEst, tsCurrent, tsCurrent.buf
      ensures Valid() && state == WroteGroup(c, old(state), name, pts, nalus, idrPresent)
      ensures old(made) <= made && old(tsCurrent.buf.buf) <= old(tsCurrent).buf.buf
      ensures tsCurrent == old(tsCurrent) || (fresh(tsCurrent) && fresh(tsCurrent.buf))
    {
      if !tsCurrent.firstPacketWritten && !idrPresent {
        return;
      }
      RotateIf(idrPresent && tsCurrent.firstPacketWritten && tsCurrent.Span() >= c.segmentDuration, name);
      PushVideo(pts + PTS_OFFSET, idrPresent, nalus);
    }

    method AppendAudio(supported: bool, pts: int, au: seq<Byte>)
      requires Valid()
      modifies this`state, this`audioAUCount, tsCurrent, tsCurrent.buf
      ensures Valid() && old(tsCurrent.buf.buf) <= tsCurrent.buf.buf
      ensures var g := Current(old(state));
              var h := if supported then WithAudio(c, g, Audio(pts, au)) else StampedByAudio(c, g, pts);
              state == SetCurrent(old(state), h)
                       .(auCount := old(state).auCount + 1)
    {
      CountAU();
      var ok := tsCurrent.WriteAAC(supported, pts, au);
      Follow();
    }

    method CountAU()
      requires Valid()
      modifies this`state, this`audioAUCount
      ensures Valid() && state == old(state).(auCount := old(state).auCount + 1)
    {
      audioAUCount := audioAUCount + 1;
      state := state.(auCount := audioAUCount);
    }

    method WriteAUs(pts: int, aus: seq<seq<Byte>>) returns (ok: bool)
      requires Valid() && WellConfigured(c)
      modifies this`state, this`audioAUCount, tsCurrent, tsCurrent.buf
      ensures Valid() && old(tsCurrent.buf.buf) <= tsCurrent.buf.buf
      ensures var s := old(state);
              state == if AudioSupported(c) then WroteAUs(c, s, pts, aus, |aus|)
                       else if aus == [] then s
                       else SetCurrent(s, StampedByAudio(c, Current(s), AuPTS(c, pts, 0))).(auCount := s.auCount + 1)
      ensures ok == (AudioSupported(c) || aus == [])
    {
      ghost var before, s := tsCurrent.buf.buf, state;
      var supported := AudioSupported(c);
      var i := 0;
      while i < |aus|
        invariant 0 <= i <= |aus| && (i > 0 ==> supported)
        invariant Valid() && before <= tsCurrent.buf.buf
        invariant state == WroteAUs(c, s, pts, aus, i)
      {
        AppendAudio(supported, AuPTS(c, pts, i), aus[i]);
        if !supported {
          return false;
        }
        i := i + 1;
      }
      ok := true;
    }

    method ResetAUCount()
      requires Valid()
      modifies this`state, this`audioAUCount
      ensures Valid() && state == old(state).(auCount := 0)
    {
      audioAUCount := 0;
      state := state.(auCount := 0);
    }

    predicate AudioDue()
      reads this, tsCurrent
    {
      audioAUCount >= SEGMENT_MIN_AU_COUNT && tsCurrent.firstPacketWritten && tsCurrent.Span() >= c.segmentDuration
    }

    method RotateAudioIf(due: bool, name: string)
      requires Valid()
      modifies this, tsCurrent.buf
      ensures Valid() && state == if due then Rotated(c, old(state), name).(auCount := 0) else old(state)
      ensures old(made) <= made && old(tsCurrent).buf.buf == old(tsCurrent.buf.buf)
      ensures || (tsCurrent == old(tsCurrent) && tsCurrent.buf == old(tsCurrent.buf))
              || (fresh(tsCurrent) && fresh(tsCurrent.buf))
    {
      if due {
        Rotate(name);
        ResetAUCount();
      }
    }

    /** Reports whether no write failed. */
    method WriteAAC(name: string, pts: int, aus: seq<seq<Byte>>) returns (ok: bool)
      requires Valid() && WellConfigured(c)
      modifies this, tsCurrent, tsCurrent.buf
      ensures Valid() && state == WroteAAC(c, old(state), name, pts, aus)
      ensures ok <==> AudioSupported(c) || aus == [] || (c.hasVideo && !Current(old(state)).started)
      ensures old(made) <= made && old(tsCurrent.buf.buf) <= old(tsCurrent).buf.buf
      ensures tsCurrent == old(tsCurrent) || (fresh(tsCurrent) && fresh(tsCurrent.buf))
    {
      if c.hasVideo && !tsCurrent.firstPacketWritten {
        return true;
      }
      RotateAudioIf(!c.hasVideo && AudioDue(), name);
      ok := WriteAUs(pts, aus);
    }

    // ------------------------------------------------------------ reading

    /** The target duration is the least number of whole seconds that covers the configured duration
        and every listed duration rounded to the nearest second. */
    method TargetDuration() returns (target: nat)
      requires Valid()
      ensures forall k :: 0 <= k < |tsQueue| ==> tsQueue[k].Span() >= 0
      ensures target >= CeilSeconds(c.segmentDuration)
      ensures forall k :: 0 <= k < |tsQueue| ==> RoundSeconds(tsQueue[k].Span()) <= target
      ensures target == CeilSeconds(c.segmentDuration) ||
              exists k :: 0 <= k < |tsQueue| && RoundSeconds(tsQueue[k].Span()) == target
    {
      MatchAll();
      target := CeilSeconds(c.segmentDuration);
      var i := 0;
      while i < |tsQueue|
        invariant 0 <= i <= |tsQueue| && target >= CeilSeconds(c.segmentDuration)
        invariant forall k :: 0 <= k < i ==> RoundSeconds(tsQueue[k].Span()) <= target
        invariant target == CeilSeconds(c.segmentDuration) ||
                  exists k :: 0 <= k < |tsQueue| && RoundSeconds(tsQueue[k].Span()) == target
      {
        var v2 := RoundSeconds(tsQueue[i].Span());
        if v2 > target {
          target := v2;
        }
        i := i + 1;
      }
    }

    method ListEntries() returns (entries: seq<Entry>)
      ensures |entries| == |tsQueue|
      ensures forall k :: 0 <= k < |entries| ==> entries[k] == Entry(tsQueue[k].Span(), tsQueue[k].name)
    {
      entries := [];
      var i := 0;
      while i < |tsQueue|
        invariant 0 <= i <= |tsQueue| && |entries| == i
        invariant forall k :: 0 <= k < i ==> entries[k] == Entry(tsQueue[k].Span(), tsQueue[k].name)
      {
        entries := entries + [Entry(tsQueue[i].Span(), tsQueue[i].name)];
        i := i + 1;
      }
    }

    /** The playlist lists the queue in order; entry k has media sequence number mediaSequence + k,
        which is the place of its segment among all segments ever made. */
    method GetPlaylist() returns (p: Playlist)
      requires Valid()
      ensures |p.entries| == |state.made| - p.mediaSequence
      ensures forall k :: 0 <= k < |p.entries| ==>
                Presents(p.entries[k], state.made[p.mediaSequence + k], p.targetDuration)
      ensures p.targetDuration >= CeilSeconds(c.segmentDuration)
    {
      var target := TargetDuration();
      var entries := ListEntries();
      p := Playlist(target, tsDeleteCount, entries);
      EntriesPresent(target, entries);
    }

    lemma EntriesPresent(target: nat, entries: seq<Entry>)
      requires Valid() && |entries| == |tsQueue|
      requires forall k :: 0 <= k < |tsQueue| ==> tsQueue[k].Span() >= 0
      requires forall k :: 0 <= k < |tsQueue| ==> RoundSeconds(tsQueue[k].Span()) <= target
      requires forall k :: 0 <= k < |entries| ==> entries[k] == Entry(tsQueue[k].Span(), tsQueue[k].name)
      ensures |entries| == |state.made| - tsDeleteCount
      ensures forall k :: 0 <= k < |entries| ==> Presents(entries[k], state.made[tsDeleteCount + k], target)
    {
      forall k | 0 <= k < |entries| ensures Presents(entries[k], state.made[tsDeleteCount + k], target) {
        QueueIsListed(k);
        assert RoundSeconds(tsQueue[k].Span()) <= target;
      }
    }

    lemma QueueIsListed(k: nat)
      requires Valid() && k < |tsQueue|
      ensures var g := state.made[tsDeleteCount + k]; tsQueue[k].Span() == Duration(g) && tsQueue[k].name == g.name
    {
      MatchAll();
      assert tsQueue[k] == made[tsDeleteCount + k];
    }

    /** A listed segment can be read from its beginning; any other name gives nothing. */
    method GetTSFile(fname: string) returns (r: Buffer.Reader?)
      requires Valid()
      ensures r == null <==> TrimSuffix(fname, ".ts") !in state.byName
      ensures r != null ==>
                && fresh(r) && r.Valid() && r.output == []
                && Reading(this, r, state.byName[TrimSuffix(fname, ".ts")])
    {
      var base := TrimSuffix(fname, ".ts");
      if base !in tsByName {
        return null;
      }
      var f := tsByName[base];
      assert f.Valid() by {
        if f != tsCurrent { assert Past()[state.byName[base]].Valid(); }
      }
      r := f.buf.NewReader();
      StillReading(this, r, state.byName[base]);
    }
  }

  // -------------------------------------------------------------- readers and writers together

  lemma {:induction false} RenderedGrows(p: Packetizer, units: seq<Unit>, more: seq<Unit>)
    requires units <= more
    ensures Rendered(p, units) <= Rendered(p, more)
  {
    if |units| < |more| {
      RenderedGrows(p, units, more[..|more| - 1]);
    } else {
      assert units == more;
    }
  }

  /** Over every run and for every segment, evicted or not: what readers could get at some time is a
      prefix of what they can get at any later time. */
  lemma SegmentsOnlyGrow(p: Packetizer, c: Config, first: string, evs: seq<Event>, n: nat, k: nat)
    requires Possible(c, evs) && n <= |evs| && k < |Run(c, first, evs[..n]).made|
    ensures k < |Run(c, first, evs).made|
    ensures Rendered(p, Run(c, first, evs[..n]).made[k].units) <= Rendered(p, Run(c, first, evs).made[k].units)
  {
    SequenceNumbersNeverChange(c, first, evs, n);
    RenderedGrows(p, Run(c, first, evs[..n]).made[k].units, Run(c, first, evs).made[k].units);
  }

  /** What may happen while a reader is out: writes, closing the muxer, and reads, fresh or resumed. */
  datatype Act =
    | PutVideo(name: string, pts: int, nalus: seq<seq<Byte>>)
    | PutAudio(name: string, pts: int, aus: seq<seq<Byte>>)
    | Shut
    | Take(capacity: nat, woken: bool)

  predicate Proper(c: Config, a: Act) {
    (a.PutVideo? ==> NoEmptyNalu(a.nalus)) && (a.PutAudio? ==> WellConfigured(c))
  }

  /** The reader reads segment number k of all segments ever made, and has so far returned a prefix of
      the rendering of that segment. */
  ghost predicate Reading(m: Muxer, r: Buffer.Reader, k: nat)
    reads m, m.made, Bufs(m.made), m.videoDTSEst, r, r.m
  {
    && m.Valid() && r.Valid() && k < |m.made| && r.m == m.made[k].buf
    && r.output <= Rendered(m.made[k].mux, m.state.made[k].units)
  }

  /** A reader of a segment that is still whole is in place. */
  lemma StillReading(m: Muxer, r: Buffer.Reader, k: nat)
    requires m.Valid() && k < |m.made| && r.m == m.made[k].buf && r.output <= r.m.buf && r.readPos == |r.output|
    ensures Reading(m, r, k)
  {
    m.MatchAll();
    assert m.made[k].Valid();
  }

  method WatchVideo(m: Muxer, r: Buffer.Reader, ghost k: nat, name: string, pts: int, nalus: seq<seq<Byte>>)
    requires Reading(m, r, k) && NoEmptyNalu(nalus)
    modifies m, m.videoDTSEst, m.tsCurrent, m.tsCurrent.buf
    ensures Reading(m, r, k) && old(m.made) <= m.made
    ensures (m.tsCurrent == old(m.tsCurrent) && m.tsCurrent.buf == old(m.tsCurrent.buf)) ||
            (fresh(m.tsCurrent) && fresh(m.tsCurrent.buf))
  {
    m.WriteH264(name, pts, nalus);
    StillReading(m, r, k);
  }

  method WatchAudio(m: Muxer, r: Buffer.Reader, ghost k: nat, name: string, pts: int, aus: seq<seq<Byte>>)
    requires Reading(m, r, k) && WellConfigured(m.c)
    modifies m, m.tsCurrent, m.tsCurrent.buf
    ensures Reading(m, r, k) && old(m.made) <= m.made
    ensures (m.tsCurrent == old(m.tsCurrent) && m.tsCurrent.buf == old(m.tsCurrent.buf)) ||
            (fresh(m.tsCurrent) && fresh(m.tsCurrent.buf))
  {
    var ok := m.WriteAAC(name, pts, aus);
    StillReading(m, r, k);
  }

  method WatchClose(m: Muxer, r: Buffer.Reader, ghost k: nat)
    requires Reading(m, r, k)
    modifies m, m.tsCurrent.buf
    ensures Reading(m, r, k) && old(m.made) <= m.made
    ensures (m.tsCurrent == old(m.tsCurrent) && m.tsCurrent.buf == old(m.tsCurrent.buf)) ||
            (fresh(m.tsCurrent) && fresh(m.tsCurrent.buf))
  {
    m.Close();
    StillReading(m, r, k);
  }

  method WatchRead(m: Muxer, r: Buffer.Reader, ghost k: nat, capacity: nat, woken: bool) returns (o: Buffer.Outcome)
    requires Reading(m, r, k)
    modifies r
    ensures Reading(m, r, k) && old(r.output) <= r.output
  {
    if woken {
      o := r.Resume(capacity);
    } else {
      o := r.Read(capacity);
    }
    StillReading(m, r, k);
  }

  /** A reader once obtained is never cut short, whatever is written, rotated out, evicted or closed, in
      whatever order: what it has returned always is a prefix of the rendering of its segment. */
  method Watch(m: Muxer, r: Buffer.Reader, ghost k: nat, acts: seq<Act>)
    requires Reading(m, r, k) && forall i :: 0 <= i < |acts| ==> Proper(m.c, acts[i])
    modifies m, m.videoDTSEst, m.tsCurrent, m.tsCurrent.buf, r
    ensures Reading(m, r, k) && old(m.made) <= m.made && old(r.output) <= r.output
  {
    var i := 0;
    while i < |acts|
      invariant 0 <= i <= |acts|
      invariant Reading(m, r, k) && old(m.made) <= m.made && old(r.output) <= r.output
      invariant (m.tsCurrent == old(m.tsCurrent) && m.tsCurrent.buf == old(m.tsCurrent.buf)) ||
                (fresh(m.tsCurrent) && fresh(m.tsCurrent.buf))
    {
      var a := acts[i];
      if a.Take? {
        var o := WatchRead(m, r, k, a.capacity, a.woken);
      } else if a.PutVideo? {
        WatchVideo(m, r, k, a.name, a.pts, a.nalus);
      } else if a.PutAudio? {
        WatchAudio(m, r, k, a.name, a.pts, a.aus);
      } else {
        WatchClose(m, r, k);
      }
      i := i + 1;
    }
  }

  /** So it is for whoever makes a muxer and takes a reader of its first segment. */
  method WatchFromTheStart(c: Config, mux: Packetizer, name: string, acts: seq<Act>)
    returns (m: Muxer, r: Buffer.Reader?)
    requires forall i :: 0 <= i < |acts| ==> Proper(c, acts[i])
    ensures r != null && Reading(m, r, 0)
  {
    m := new Muxer(c, mux, name);
    assert TrimSuffix(name + ".ts", ".ts") == name;
    r := m.GetTSFile(name + ".ts");
    Watch(m, r, 0, acts);
  }

  /** A suffix goes, once; any other name stays as it is. */
  function TrimSuffix(s: string, suffix: string): (r: string)
    ensures s == r + suffix || (s == r && (suffix == [] || !exists p: string :: s == p + suffix))
  {
    if |suffix| <= |s| && s[|s| - |suffix|..] == suffix then s[..|s| - |suffix|] else s
  }
}
