/** Carrying payloads: protect each one, join them into an Annex-B stream, and undo both. */
module Transport {
  import opened Bytes
  import opened AnnexB
  import opened Emulation

  // ---------------------------------------------------------------- when protection hides all starts

  /** A one after a run of four, seven, ten, ... zeros: the count was reset by an insertion just so
      that the one follows exactly two zeros of output. */
  predicate IsGap(x: seq<Byte>, i: nat)
    requires i < |x|
  {
    x[i] == 1 && ZeroRun(x, i) >= 4 && ZeroRun(x, i) % 3 == 1
  }

  ghost predicate NoGap(x: seq<Byte>) {
    forall i :: 0 <= i < |x| ==> !IsGap(x, i)
  }

  /** A run of zeros does not reach back across a byte that is not zero. */
  lemma {:induction false} ZeroRunAfter(p: seq<Byte>, t: seq<Byte>, i: nat)
    requires p != [] && p[|p| - 1] != 0 && i <= |t|
    ensures ZeroRun(p + t, |p| + i) == ZeroRun(t, i)
  {
    if i > 0 { ZeroRunAfter(p, t, i - 1); }
  }

  lemma StartsSplit(p: seq<Byte>, t: seq<Byte>)
    requires p != [] && p[|p| - 1] != 0
    ensures NoStart(p + t) <==> NoStart(p) && NoStart(t)
  {
    forall i | 0 <= i < |p| ensures IsStart(p, i) <==> IsStart(p + t, i) { ZeroRunPrefix(p, t, i); }
    forall i | 0 <= i < |t| ensures IsStart(t, i) <==> IsStart(p + t, |p| + i) { ZeroRunAfter(p, t, i); }
    if NoStart(p) && NoStart(t) {
      forall i | 0 <= i < |p + t| ensures !IsStart(p + t, i) {
        if i >= |p| { assert !IsStart(t, i - |p|); } else { assert !IsStart(p, i); }
      }
    }
  }

  lemma GapsSplit(p: seq<Byte>, t: seq<Byte>)
    requires p != [] && p[|p| - 1] != 0
    ensures NoGap(p + t) <==> NoGap(p) && NoGap(t)
  {
    forall i | 0 <= i < |p| ensures IsGap(p, i) <==> IsGap(p + t, i) { ZeroRunPrefix(p, t, i); }
    forall i | 0 <= i < |t| ensures IsGap(t, i) <==> IsGap(p + t, |p| + i) { ZeroRunAfter(p, t, i); }
    if NoGap(p) && NoGap(t) {
      forall i | 0 <= i < |p + t| ensures !IsGap(p + t, i) {
        if i >= |p| { assert !IsGap(t, i - |p|); } else { assert !IsGap(p, i); }
      }
    }
  }

  /** How the scan stands after a run of r zeros: the zeros it has counted, and those ending the output. */
  predicate Counts(r: nat, step: nat, z: nat) {
    step == r % 3 && z == if r < 3 then r else step + 1
  }

  lemma CountsNext(r: nat, step: nat, z: nat)
    requires Counts(r, step, z)
    ensures step < 2 ==> Counts(r + 1, step + 1, z + 1)
    ensures step == 2 ==> Counts(r + 1, 0, 1)
  {
  }

  lemma ZerosAndOne(n: nat, b: Byte)
    requires b != 0
    ensures ZeroRun(Zeros(n) + [b], n) == n
    ensures NoStart(Zeros(n) + [b]) <==> !(b == 1 && 2 <= n <= 3)
    ensures NoGap(Zeros(n) + [b]) <==> !(b == 1 && n >= 4 && n % 3 == 1)
  {
    var s := Zeros(n) + [b];
    ZeroRunIs(s, n, n);
    forall i | 0 <= i < |s| ensures IsStart(s, i) ==> i == n { }
    forall i | 0 <= i < |s| ensures IsGap(s, i) ==> i == n { }
    assert IsStart(s, n) <==> b == 1 && 2 <= n <= 3;
    assert IsGap(s, n) <==> b == 1 && n >= 4 && n % 3 == 1;
  }

  /** The output before and with a byte that is not zero. */
  lemma FrontHasStart(r: nat, step: nat, z: nat, b: Byte)
    requires Counts(r, step, z) && b != 0
    ensures NoStart(Zeros(z) + Chunk(step, b)) <==> NoGap(Zeros(r) + [b])
  {
    ZerosAndOne(r, b);
    ZerosAndOne(z, b);
    if step == 2 && b <= 3 {
      ZerosAndOne(z, 3);
      assert Zeros(z) + Chunk(step, b) == Zeros(z) + [3] + [b];
      StartsSplit(Zeros(z) + [3], [b]);
      ZerosAndOne(0, b);
      assert Zeros(0) + [b] == [b];
    }
  }

  lemma StartsAtNonZero(x: seq<Byte>, r: nat, step: nat, z: nat)
    requires Counts(r, step, z) && x != [] && x[0] != 0
    requires NoStart(Added(x[1..], 0)) <==> NoGap(x[1..])
    ensures NoStart(Zeros(z) + Added(x, step)) <==> NoGap(Zeros(r) + x)
  {
    AddedChunk(Zeros(z), x, step);
    FirstByte(Zeros(r), x);
    FrontHasStart(r, step, z, x[0]);
    FrontsCompare(Zeros(z) + Chunk(step, x[0]), Added(x[1..], 0), Zeros(r) + [x[0]], x[1..]);
  }

  lemma FirstByte(s: seq<Byte>, x: seq<Byte>)
    requires x != []
    ensures s + x == s + [x[0]] + x[1..]
  {
  }

  lemma FrontsCompare(p: seq<Byte>, t: seq<Byte>, q: seq<Byte>, u: seq<Byte>)
    requires p != [] && p[|p| - 1] != 0 && q != [] && q[|q| - 1] != 0
    requires (NoStart(p) <==> NoGap(q)) && (NoStart(t) <==> NoGap(u))
    ensures NoStart(p + t) <==> NoGap(q + u)
  {
    StartsSplit(p, t);
    GapsSplit(q, u);
  }

  lemma InsertionHasNoStart(z: nat, more: seq<Byte>)
    ensures NoStart(Zeros(z) + Chunk(2, 0) + more) <==> NoStart(Zeros(1) + more)
  {
    assert Zeros(z) + Chunk(2, 0) + more == Zeros(z) + [3] + (Zeros(1) + more);
    StartsSplit(Zeros(z) + [3], Zeros(1) + more);
    ZerosAndOne(z, 3);
  }

  lemma {:induction false} StartsAt(x: seq<Byte>, r: nat, step: nat, z: nat)
    requires Counts(r, step, z)
    ensures NoStart(Zeros(z) + Added(x, step)) <==> NoGap(Zeros(r) + x)
    decreases |x|
  {
    if x == [] {
      assert Zeros(z) + Added(x, step) == Zeros(z) && Zeros(r) + x == Zeros(r);
    } else if x[0] != 0 {
      StartsAt(x[1..], 0, 0, 0);
      ZerosMore(0, Added(x[1..], 0));
      ZerosMore(0, x[1..]);
      StartsAtNonZero(x, r, step, z);
    } else {
      CountsNext(r, step, z);
      ZeroStep(x, step, z, Added(x[1..], AddStep(step, 0)));
      ZeroMoves(x, r);
      if step == 2 {
        StartsAt(x[1..], r + 1, 0, 1);
        InsertionHasNoStart(z, Added(x[1..], 0));
      } else {
        StartsAt(x[1..], r + 1, step + 1, z + 1);
      }
    }
  }

  lemma {:induction false} AddedEnds(x: seq<Byte>, step: nat)
    requires step <= 2 && x != []
    ensures Added(x, step) != [] && Added(x, step)[|Added(x, step)| - 1] == x[|x| - 1]
  {
    if |x| > 1 {
      AddedEnds(x[1..], if step == 2 && x[0] <= 3 then 0 else AddStep(step, x[0]));
    } else {
      assert Added(x[1..], 0) == [];
    }
  }

  /** A payload that survives transport: not empty, without a gap, and ending in a non-zero byte
      unless it is the last one. */
  ghost predicate Carries(payload: seq<Byte>, last: bool) {
    payload != [] && NoGap(payload) && (last || payload[|payload| - 1] != 0)
  }

  /** The protected payload is a good NALU exactly if the payload carries. */
  lemma ProtectedIsGoodExactly(payload: seq<Byte>, last: bool)
    ensures Good(Added(payload, 0), last) <==> Carries(payload, last)
  {
    StartsAt(payload, 0, 0, 0);
    ZerosMore(0, Added(payload, 0));
    ZerosMore(0, payload);
    if payload != [] { AddedEnds(payload, 0); }
  }

  // ---------------------------------------------------------------- the whole way

  function ProtectAll(payloads: seq<seq<Byte>>): (nalus: seq<Nalu>)
    ensures |nalus| == |payloads|
    ensures forall i :: 0 <= i < |payloads| ==> nalus[i] == Added(payloads[i], 0)
  {
    seq(|payloads|, i requires 0 <= i < |payloads| => Added(payloads[i], 0))
  }

  function UnprotectAll(nalus: seq<Nalu>): (payloads: seq<seq<Byte>>)
    ensures |payloads| == |nalus|
    ensures forall i :: 0 <= i < |nalus| ==> payloads[i] == Removed(nalus[i], 0)
  {
    seq(|nalus|, i requires 0 <= i < |nalus| => Removed(nalus[i], 0))
  }

  function Sent(payloads: seq<seq<Byte>>): seq<Byte> {
    Encoded(ProtectAll(payloads))
  }

  function Received(bs: seq<Byte>): Result<seq<seq<Byte>>, DecodeError> {
    match Decoded(bs) case Err(e) => Err(e) case Ok(nalus) => Ok(UnprotectAll(nalus))
  }

  // ---------------------------------------------------------------- sizes

  function Size(nalus: seq<Nalu>): (n: nat) {
    if nalus == [] then 0 else 4 + |nalus[0]| + Size(nalus[1..])
  }

  lemma {:induction false} EncodedSize(nalus: seq<Nalu>)
    ensures |Encoded(nalus)| == Size(nalus)
  {
    if nalus != [] {
      EncodedFront(nalus);
      EncodedSize(nalus[1..]);
    }
  }

  lemma {:induction false} SpelledSize(text: seq<Byte>, nalus: seq<Nalu>)
    requires Spells(text, nalus)
    ensures |text| + 4 <= Size(nalus)
  {
    if |nalus| > 1 {
      var d :| 2 <= d <= 3 && SpellsAfter(text, nalus, d);
      SpelledSize(text[|nalus[0]| + d + 1..], nalus[1..]);
    } else {
      assert nalus[1..] == [];
    }
  }

  /** If no NALU of one list is longer than its partner, the lists can only weigh the same when the
      NALUs do. */
  lemma {:induction false} SizesCompare(small: seq<Nalu>, large: seq<Nalu>)
    requires |small| == |large| && forall i :: 0 <= i < |small| ==> |small[i]| <= |large[i]|
    ensures Size(small) <= Size(large)
    ensures Size(small) == Size(large) ==> forall i :: 0 <= i < |small| ==> |small[i]| == |large[i]|
  {
    if small != [] {
      SizesCompare(small[1..], large[1..]);
      if Size(small) == Size(large) {
        forall i | 0 <= i < |small| ensures |small[i]| == |large[i]| {
          if i > 0 { assert |small[1..][i - 1]| == |large[1..][i - 1]|; }
        }
      }
    }
  }

  /** If the payloads come back at all, the decoder must have found exactly the NALUs that were sent. */
  lemma PayloadsComeBackOnlyAsSent(payloads: seq<seq<Byte>>)
    requires Received(Sent(payloads)) == Ok(payloads)
    ensures Decoded(Sent(payloads)) == Ok(ProtectAll(payloads))
  {
    var sent := ProtectAll(payloads);
    var bs := Encoded(sent);
    var found := Decoded(bs).value;
    assert UnprotectAll(found) == payloads;
    DecoderReadsExactlySpelledStreams(bs, found);
    var d :| 2 <= d <= 3 && Delimiter(d) <= bs && Spells(bs[d + 1..], found);
    SpelledSize(bs[d + 1..], found);
    EncodedSize(sent);
    forall i | 0 <= i < |found|
      ensures |found[i]| <= |sent[i]|
      ensures |found[i]| == |sent[i]| ==> found[i] == sent[i]
    {
      AddedIsTheLongestPreimage(found[i], payloads[i], 0);
    }
    SizesCompare(found, sent);
    assert found == sent;
  }

  /** Transport gives the payloads back exactly if there is at least one and all of them carry. */
  lemma TransportExactly(payloads: seq<seq<Byte>>)
    ensures Received(Sent(payloads)) == Ok(payloads) <==>
            payloads != [] && forall i :: 0 <= i < |payloads| ==> Carries(payloads[i], i == |payloads| - 1)
  {
    var nalus := ProtectAll(payloads);
    RoundTripExactlyForGoodNalus(nalus);
    forall i | 0 <= i < |payloads|
      ensures Good(nalus[i], i == |nalus| - 1) <==> Carries(payloads[i], i == |payloads| - 1)
      ensures Removed(nalus[i], 0) == payloads[i]
    {
      ProtectedIsGoodExactly(payloads[i], i == |payloads| - 1);
      RemoveUndoesAdd(payloads[i]);
    }
    assert UnprotectAll(nalus) == payloads;
    if Received(Sent(payloads)) == Ok(payloads) {
      PayloadsComeBackOnlyAsSent(payloads);
    }
  }

  /** A payload that is protected and does not come back: its one follows two zeros of output. */
  lemma GapIsNotCarried(payload: seq<Byte>)
    requires payload == [0, 0, 0, 0, 1]
    ensures Received(Sent([payload])) != Ok([payload])
  {
    ZeroRunIs(payload, 4, 4);
    assert IsGap(payload, 4);
    assert [payload][0] == payload && !Carries(payload, true);
    TransportExactly([payload]);
  }

  /** The plain sufficient condition: payloads that end in a non-zero byte and have no run of four
      zeros are protected and come back. */
  lemma OrdinaryPayloadsAreCarried(payloads: seq<seq<Byte>>)
    requires payloads != []
    requires forall i :: 0 <= i < |payloads| ==> Ordinary(payloads[i])
    ensures Received(Sent(payloads)) == Ok(payloads)
    ensures forall i :: 0 <= i < |payloads| ==> Protected(Added(payloads[i], 0))
  {
    forall i | 0 <= i < |payloads|
      ensures Carries(payloads[i], i == |payloads| - 1) && Protected(Added(payloads[i], 0))
    {
      var p := payloads[i];
      assert Ordinary(p);
      forall k | 0 <= k < |p| ensures !IsGap(p, k) {
        ZeroRunIsMaximal(p, k);
        if ZeroRun(p, k) >= 4 { assert FourZeros(p, k - 4); }
      }
      forall k | 0 <= k < |p| - 4 ensures !IsHole(p, k) { assert !FourZeros(p, k); }
      AddProtectsExactlyWithoutHoles(p);
    }
    TransportExactly(payloads);
  }

  predicate FourZeros(x: seq<Byte>, i: nat)
    requires i + 4 <= |x|
  {
    x[i] == 0 && x[i + 1] == 0 && x[i + 2] == 0 && x[i + 3] == 0
  }

  ghost predicate Ordinary(x: seq<Byte>) {
    x != [] && x[|x| - 1] != 0 && forall i :: 0 <= i < |x| - 3 ==> !FourZeros(x, i)
  }
}
