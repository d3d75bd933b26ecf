/** Estimation of decoding times from presentation times (internal/h264/dtsestimator.go). Times are
    in nanoseconds. */
module Dts {
  const MILLISECOND := 1_000_000
  const SECOND := 1_000_000_000

  datatype Estimate = Estimate(initializing: nat, prevDTS: int, prevPTS: int, prevPrevPTS: int)

  const START := Estimate(2, 0, 0, 0)

  function DtsFor(e: Estimate, pts: int): (dts: int) {
    if e.initializing > 0 then e.prevDTS + MILLISECOND
    else if pts > e.prevPTS then
      if e.prevPTS < e.prevPrevPTS then e.prevPTS else e.prevPrevPTS + MILLISECOND
    else e.prevDTS + MILLISECOND
  }

  function Fed(e: Estimate, pts: int): Estimate {
    Estimate(if e.initializing > 0 then e.initializing - 1 else 0, DtsFor(e, pts), pts, e.prevPTS)
  }

  class DTSEstimator {
    var initializing: nat
    var prevDTS: int
    var prevPTS: int
    var prevPrevPTS: int

    constructor ()
      ensures View() == START
    {
      initializing := 2;
      prevDTS := 0;
      prevPTS := 0;
      prevPrevPTS := 0;
    }

    ghost function View(): Estimate
      reads this
    {
      Estimate(initializing, prevDTS, prevPTS, prevPrevPTS)
    }

    method Feed(pts: int) returns (dts: int)
      modifies this
      ensures dts == DtsFor(old(View()), pts)
      ensures View() == Fed(old(View()), pts)
    {
      if initializing > 0 {
        initializing := initializing - 1;
        dts := prevDTS + MILLISECOND;
        prevPrevPTS := prevPTS;
        prevPTS := pts;
        prevDTS := dts;
        return;
      }
      if pts > prevPTS {
        if prevPTS < prevPrevPTS {
          dts := prevPTS;
        } else {
          dts := prevPrevPTS + MILLISECOND;
        }
      } else {
        dts := prevDTS + MILLISECOND;
      }
      prevPrevPTS := prevPTS;
      prevPTS := pts;
      prevDTS := dts;
    }
  }

  // ---------------------------------------------------------------- streams

  /** An anchor frame in decoding order, with the B frames that follow it. */
  datatype Group = Group(anchor: int, bs: seq<int>)

  /** The estimator after a whole decoding-order sequence of presentation times. */
  function After(e: Estimate, ptss: seq<int>): Estimate {
    if ptss == [] then e else Fed(After(e, ptss[..|ptss| - 1]), ptss[|ptss| - 1])
  }

  function DtsAt(ptss: seq<int>, k: nat): (dts: int)
    requires k < |ptss|
  {
    DtsFor(After(START, ptss[..k]), ptss[k])
  }

  function Frames(gs: seq<Group>): (ptss: seq<int>) {
    if gs == [] then []
    else Frames(gs[..|gs| - 1]) + [gs[|gs| - 1].anchor] + gs[|gs| - 1].bs
  }

  predicate Apart(low: int, high: int) {
    low + MILLISECOND < high
  }

  predicate Follows(low: int, bs: seq<int>, i: nat)
    requires i < |bs|
  {
    Apart(if i == 0 then low else bs[i - 1], bs[i])
  }

  /** B frames in increasing order between two presentation times, all more than a millisecond apart. */
  ghost predicate Between(low: int, bs: seq<int>, high: int) {
    && (forall i :: 0 <= i < |bs| ==> Follows(low, bs, i))
    && (bs == [] || Apart(bs[|bs| - 1], high))
  }

  /** A stream as encoders send it: increasing anchors, each followed by the B frames that are shown
      between the previous anchor and it; the first anchor, at two seconds or later, has none. */
  ghost predicate Stream(gs: seq<Group>) {
    && (gs != [] ==> gs[0].anchor >= 2 * SECOND && gs[0].bs == [])
    && forall k :: 0 < k < |gs| ==>
         Apart(gs[k - 1].anchor, gs[k].anchor) && Between(gs[k - 1].anchor, gs[k].bs, gs[k].anchor)
  }

  // ---------------------------------------------------------------- the state between frames

  /** After an anchor, or after a second B frame: the last two frames came in increasing order. */
  predicate Rising(e: Estimate) {
    e.initializing == 0 && e.prevDTS <= e.prevPrevPTS && Apart(e.prevPrevPTS, e.prevPTS)
  }

  /** After the first B frame of a group. */
  predicate Falling(e: Estimate) {
    e.initializing == 0 && e.prevPTS < e.prevPrevPTS && e.prevDTS < e.prevPTS
  }

  /** The frame is in order: after the previous decoding time, and not after its own presentation. */
  predicate InOrder(e: Estimate, pts: int) {
    e.prevDTS < DtsFor(e, pts) <= pts
  }

  lemma LaterFrame(e: Estimate, pts: int)
    requires Rising(e) || Falling(e)
    requires Apart(e.prevPTS, pts)
    ensures InOrder(e, pts) && Rising(Fed(e, pts))
  {
  }

  lemma FirstBFrame(e: Estimate, pts: int)
    requires Rising(e) && pts < e.prevPTS && Apart(e.prevPrevPTS, pts)
    ensures InOrder(e, pts) && Falling(Fed(e, pts))
  {
  }

  lemma {:induction false} AfterConcat(e: Estimate, a: seq<int>, b: seq<int>)
    ensures After(e, a + b) == After(After(e, a), b)
  {
    if b == [] {
      assert a + b == a;
    } else {
      AfterConcat(e, a, b[..|b| - 1]);
      assert (a + b)[..|a + b| - 1] == a + b[..|b| - 1];
    }
  }

  /** All frames of a sequence are in order when it is fed to the estimator in this state. */
  ghost predicate AllInOrder(e: Estimate, ptss: seq<int>) {
    forall k :: 0 <= k < |ptss| ==> InOrder(After(e, ptss[..k]), ptss[k])
  }

  lemma InOrderConcat(e: Estimate, a: seq<int>, b: seq<int>)
    requires AllInOrder(e, a) && AllInOrder(After(e, a), b)
    ensures AllInOrder(e, a + b)
  {
    forall k | 0 <= k < |a + b| ensures InOrder(After(e, (a + b)[..k]), (a + b)[k]) {
      if k < |a| {
        assert (a + b)[..k] == a[..k];
      } else {
        assert (a + b)[..k] == a + b[..k - |a|];
        AfterConcat(e, a, b[..k - |a|]);
      }
    }
  }

  /** The B frames of a group, fed after its anchor. */
  lemma {:induction false} BFramesInOrder(e: Estimate, low: int, bs: seq<int>)
    requires Rising(e) && e.prevPrevPTS <= low
    requires Between(low, bs, e.prevPTS)
    ensures AllInOrder(e, bs)
    ensures var f := After(e, bs);
            (bs == [] ==> f == e) && (bs != [] ==> (Rising(f) || Falling(f)) && f.prevPTS == bs[|bs| - 1])
  {
    if bs != [] {
      var n := |bs| - 1;
      var front := bs[..n];
      LastBetween(low, bs, e.prevPTS);
      BFramesInOrder(e, low, front);
      var f := After(e, front);
      if n == 0 {
        FirstBFrame(e, bs[0]);
      } else {
        assert Follows(low, bs, n);
        LaterFrame(f, bs[n]);
      }
      assert [bs[n]][..0] == [];
      assert AllInOrder(f, [bs[n]]);
      InOrderConcat(e, front, [bs[n]]);
      assert bs == front + [bs[n]];
    }
  }

  lemma {:induction false} LastBetween(low: int, bs: seq<int>, high: int)
    requires Between(low, bs, high) && bs != []
    ensures Between(low, bs[..|bs| - 1], high)
    ensures forall i :: 0 <= i < |bs| ==> Apart(low, bs[i]) && Apart(bs[i], high)
  {
    var n := |bs| - 1;
    assert Follows(low, bs, n);
    if n > 0 {
      forall i | 0 <= i < n ensures Follows(low, bs[..n], i) { assert Follows(low, bs, i); }
      LastBetween(low, bs[..n], high);
      assert forall i :: 0 <= i < n ==> bs[i] == bs[..n][i];
    }
  }

  /** After the second anchor and its B frames, and after every later group. */
  lemma {:induction false} GroupsInOrder(gs: seq<Group>)
    requires Stream(gs)
    ensures AllInOrder(START, Frames(gs))
    ensures |gs| >= 2 ==>
              var f := After(START, Frames(gs));
              (Rising(f) || Falling(f)) && (f.prevPTS == gs[|gs| - 1].anchor || Apart(f.prevPTS, gs[|gs| - 1].anchor))
    ensures |gs| == 1 ==> After(START, Frames(gs)) == Estimate(1, MILLISECOND, gs[0].anchor, 0)
  {
    if gs != [] {
      var n := |gs| - 1;
      var front, g := Frames(gs[..n]), gs[n];
      assert forall k :: 0 <= k < n ==> gs[..n][k] == gs[k];
      GroupsInOrder(gs[..n]);
      var e := After(START, front);
      var f := Fed(e, g.anchor);
      assert [g.anchor][..0] == [] && After(e, [g.anchor]) == f;
      if n == 0 {
        assert g.bs == [] && front == [];
        assert Frames(gs) == [g.anchor] && [g.anchor][..0] == front;
        assert InOrder(START, g.anchor);
      } else {
        assert Apart(gs[n - 1].anchor, g.anchor);
        AnchorInOrder(gs, e);
        assert AllInOrder(e, [g.anchor]);
        InOrderConcat(START, front, [g.anchor]);
        AfterConcat(START, front, [g.anchor]);
        BFramesInOrder(f, gs[n - 1].anchor, g.bs);
        if g.bs != [] { LastBetween(gs[n - 1].anchor, g.bs, g.anchor); }
        InOrderConcat(START, front + [g.anchor], g.bs);
        AfterConcat(START, front + [g.anchor], g.bs);
      }
    }
  }

  lemma AnchorInOrder(gs: seq<Group>, e: Estimate)
    requires Stream(gs) && |gs| >= 2
    requires var last := gs[|gs| - 2].anchor;
             if |gs| == 2 then e == Estimate(1, MILLISECOND, last, 0)
             else (Rising(e) || Falling(e)) && (e.prevPTS == last || Apart(e.prevPTS, last))
    ensures var anchor := gs[|gs| - 1].anchor;
            InOrder(e, anchor) && Rising(Fed(e, anchor)) && Fed(e, anchor).prevPrevPTS <= gs[|gs| - 2].anchor
  {
    var n := |gs| - 1;
    assert Apart(gs[n - 1].anchor, gs[n].anchor);
    if n > 1 { LaterFrame(e, gs[n].anchor); }
  }

  // ---------------------------------------------------------------- the promise

  /** Over every such stream the estimated decoding times are strictly increasing and never later
      than the presentation times, so the composition offset sent over RTMP is never negative. */
  lemma DecodingTimesAreOrdered(gs: seq<Group>)
    requires Stream(gs)
    ensures var ptss := Frames(gs);
            && (forall k :: 0 <= k < |ptss| ==> ptss[k] - DtsAt(ptss, k) >= 0)
            && (forall j, k :: 0 <= j < k < |ptss| ==> DtsAt(ptss, j) < DtsAt(ptss, k))
  {
    var ptss := Frames(gs);
    GroupsInOrder(gs);
    forall k | 0 <= k < |ptss| ensures ptss[k] - DtsAt(ptss, k) >= 0 {
      assert InOrder(After(START, ptss[..k]), ptss[k]);
    }
    forall j, k | 0 <= j < k < |ptss| ensures DtsAt(ptss, j) < DtsAt(ptss, k) {
      StepsIncrease(ptss, j, k);
    }
  }

  lemma {:induction false} StepsIncrease(ptss: seq<int>, j: nat, k: nat)
    requires AllInOrder(START, ptss) && j < k < |ptss|
    ensures DtsAt(ptss, j) < DtsAt(ptss, k)
  {
    assert ptss[..k][..k - 1] == ptss[..k - 1];
    assert InOrder(After(START, ptss[..k]), ptss[k]);
    assert After(START, ptss[..k]).prevDTS == DtsAt(ptss, k - 1);
    if j < k - 1 { StepsIncrease(ptss, j, k - 1); }
  }

  // ---------------------------------------------------------------- the estimate, frame by frame

  lemma {:induction false} StateAfter(ptss: seq<int>)
    ensures var n, e := |ptss|, After(START, ptss);
            && e.initializing == (if n < 2 then 2 - n else 0)
            && (n >= 1 ==> e.prevPTS == ptss[n - 1] && e.prevDTS == DtsAt(ptss, n - 1))
            && (n >= 2 ==> e.prevPrevPTS == ptss[n - 2])
            && (n == 0 ==> e.prevDTS == 0)
  {
    var n := |ptss|;
    if n > 0 {
      StateAfter(ptss[..n - 1]);
      if n > 1 { assert ptss[..n - 1][n - 2] == ptss[n - 2]; }
    }
  }

  /** The decoding time of frame k, in terms of the frames before it: the first two come one and two milliseconds
      in; a frame that is shown after its predecessor is decoded a millisecond after the one before that was
      shown, or, when the predecessor was a B frame, at the time the predecessor was shown; a B frame is decoded
      a millisecond after its predecessor. */
  lemma EstimateByFrames(ptss: seq<int>, k: nat)
    requires k < |ptss|
    ensures DtsAt(ptss, k) ==
            if k < 2 then (k + 1) * 1_000_000
            else if ptss[k] <= ptss[k - 1] then DtsAt(ptss, k - 1) + 1_000_000
            else if ptss[k - 1] < ptss[k - 2] then ptss[k - 1]
            else ptss[k - 2] + 1_000_000
  {
    StateAfter(ptss[..k]);
    if k > 0 {
      assert ptss[..k][k - 1] == ptss[k - 1] && ptss[..k][..k - 1] == ptss[..k - 1];
      if k == 1 { assert DtsAt(ptss, 0) == 1_000_000 by { assert ptss[..0] == []; } }
      if k > 1 { assert ptss[..k][k - 2] == ptss[k - 2]; }
    }
  }

  // ---------------------------------------------------------------- without B frames

  ghost predicate Increasing(ptss: seq<int>) {
    forall k :: 0 < k < |ptss| ==> ptss[k - 1] < ptss[k]
  }

  lemma {:induction false} IncreasingState(ptss: seq<int>)
    requires Increasing(ptss) && |ptss| >= 2
    ensures var e := After(START, ptss);
            e.initializing == 0 && e.prevPTS == ptss[|ptss| - 1] && e.prevPrevPTS == ptss[|ptss| - 2]
  {
    var n := |ptss| - 1;
    assert ptss[..n][..n - 1] == ptss[..n - 1];
    if n > 1 { IncreasingState(ptss[..n]); }
    else { assert After(START, ptss[..1]) == Fed(After(START, ptss[..0]), ptss[0]); assert ptss[..0] == []; }
  }

  /** For frames in increasing order the estimate keeps its promise exactly if every frame comes at
      least a millisecond after the frame before the previous one (and the first two after one and
      two milliseconds). */
  lemma IncreasingFramesExactly(ptss: seq<int>)
    requires Increasing(ptss)
    ensures (forall k :: 0 <= k < |ptss| ==> DtsAt(ptss, k) <= ptss[k]) <==>
            forall k :: 0 <= k < |ptss| ==> NotEarly(ptss, k)
  {
    forall k | 0 <= k < |ptss| ensures DtsAt(ptss, k) <= ptss[k] <==> NotEarly(ptss, k) {
      assert ptss[..0] == [];
      if k == 1 { assert ptss[..1][..0] == [] && After(START, ptss[..1]) == Fed(START, ptss[0]); }
      if k >= 2 {
        assert forall i :: 0 <= i < k ==> ptss[..k][i] == ptss[i];
        IncreasingState(ptss[..k]);
        assert ptss[k - 2] < ptss[k - 1] < ptss[k];
        assert DtsAt(ptss, k) == ptss[k - 2] + MILLISECOND;
      } else {
        assert DtsAt(ptss, k) == if k == 0 then MILLISECOND else 2 * MILLISECOND;
      }
    }
  }

  predicate NotEarly(ptss: seq<int>, k: nat)
    requires k < |ptss|
  {
    if k < 2 then ptss[k] >= (k + 1) * MILLISECOND else ptss[k] >= ptss[k - 2] + MILLISECOND
  }
}
