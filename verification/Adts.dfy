/** ADTS streams of AAC frames (internal/aac/adts.go; Annex 1.A of ISO/IEC 14496-3). Bit fields are
    written as the divisions and remainders that shifts and masks of unsigned bytes amount to. */
module Adts {
  import opened Bytes

  datatype Packet = Packet(sampleRate: int, channelCount: int, frame: seq<Byte>)

  /** OutOfRange stands for the slice and index expressions that fail at run time. */
  datatype DecodeError =
    | OutOfRange
    | InvalidSyncword | CrcUnsupported | NotAacLc | InvalidSampleRateIndex | InvalidChannelConfig
    | FullnessUnsupported | MultipleFrames | InvalidFrameLength

  datatype EncodeError = InvalidChannelCount | InvalidSampleRate

  const FULLNESS := 1800

  // ---------------------------------------------------------------- the two tables

  function RateOf(index: nat): (rate: Result<int, DecodeError>) {
    match index
    case 0 => Ok(96000)
    case 1 => Ok(88200)
    case 2 => Ok(64000)
    case 3 => Ok(48000)
    case 4 => Ok(44100)
    case 5 => Ok(32000)
    case 6 => Ok(24000)
    case 7 => Ok(22050)
    case 8 => Ok(16000)
    case 9 => Ok(12000)
    case 10 => Ok(11025)
    case 11 => Ok(8000)
    case 12 => Ok(7350)
    case _ => Err(InvalidSampleRateIndex)
  }

  function IndexOfRate(rate: int): (index: Result<nat, EncodeError>)
    ensures index.Ok? ==> index.value <= 12
  {
    match rate
    case 96000 => Ok(0)
    case 88200 => Ok(1)
    case 64000 => Ok(2)
    case 48000 => Ok(3)
    case 44100 => Ok(4)
    case 32000 => Ok(5)
    case 24000 => Ok(6)
    case 22050 => Ok(7)
    case 16000 => Ok(8)
    case 12000 => Ok(9)
    case 11025 => Ok(10)
    case 8000 => Ok(11)
    case 7350 => Ok(12)
    case _ => Err(InvalidSampleRate)
  }

  function ChannelsOf(config: nat): (count: Result<int, DecodeError>) {
    if 1 <= config <= 6 then Ok(config) else if config == 7 then Ok(8) else Err(InvalidChannelConfig)
  }

  function ConfigOfChannels(count: int): (config: Result<nat, EncodeError>)
    ensures config.Ok? ==> 1 <= config.value <= 7
  {
    if 1 <= count <= 6 then Ok(count) else if count == 8 then Ok(7) else Err(InvalidChannelCount)
  }

  /** The encoder's tables are the inverses of the decoder's, on both sides. */
  lemma TablesAgree(rate: int, index: nat, count: int, config: nat)
    ensures IndexOfRate(rate) == Ok(index) <==> RateOf(index) == Ok(rate)
    ensures ConfigOfChannels(count) == Ok(config) <==> ChannelsOf(config) == Ok(count)
  {
  }

  // ---------------------------------------------------------------- decoding

  function SyncWord(b0: Byte, b1: Byte): nat { b0 * 16 + b1 / 16 }

  function ChannelConfig(b2: Byte, b3: Byte): nat { b2 % 2 * 4 + b3 / 64 }

  function LengthField(b3: Byte, b4: Byte, b5: Byte): nat { b3 % 4 * 2048 + b4 * 8 + b5 / 32 }

  function Fullness(b5: Byte, b6: Byte): nat { b5 % 32 * 64 + b6 / 4 }

  /** One packet off the front of a stream, and the number of bytes it takes; the checks come in the
      order of the code, each failing as soon as the bytes it looks at are missing. */
  function DecodedOne(bs: seq<Byte>): (r: Result<(Packet, nat), DecodeError>)
    ensures r.Ok? ==> 7 <= r.value.1 <= |bs| && r.value.0.frame == bs[7..r.value.1]
  {
    if |bs| < 2 then Err(OutOfRange)
    else if SyncWord(bs[0], bs[1]) != 0xFFF then Err(InvalidSyncword)
    else if bs[1] % 2 != 1 then Err(CrcUnsupported)
    else if |bs| < 3 then Err(OutOfRange)
    else if bs[2] / 64 != 0 then Err(NotAacLc)
    else if RateOf(bs[2] / 4 % 16).Err? then Err(InvalidSampleRateIndex)
    else if |bs| < 4 then Err(OutOfRange)
    else if ChannelsOf(ChannelConfig(bs[2], bs[3])).Err? then Err(InvalidChannelConfig)
    else if |bs| < 7 then Err(OutOfRange)
    else if Fullness(bs[5], bs[6]) != FULLNESS then Err(FullnessUnsupported)
    else if bs[6] % 4 != 0 then Err(MultipleFrames)
    else
      var frameLen := LengthField(bs[3], bs[4], bs[5]) - 7;
      if |bs| - 7 < frameLen then Err(InvalidFrameLength)
      else if frameLen < 0 then Err(OutOfRange)
      else
        var rate, channels := RateOf(bs[2] / 4 % 16).value, ChannelsOf(ChannelConfig(bs[2], bs[3])).value;
        Ok((Packet(rate, channels, bs[7..7 + frameLen]), 7 + frameLen))
  }

  function Decoded(bs: seq<Byte>): (r: Result<seq<Packet>, DecodeError>)
    decreases |bs|
  {
    if bs == [] then Ok([])
    else
      match DecodedOne(bs)
      case Err(e) => Err(e)
      case Ok(one) => Prepend([one.0], Decoded(bs[one.1..]))
  }

  function Prepend(pkts: seq<Packet>, r: Result<seq<Packet>, DecodeError>): Result<seq<Packet>, DecodeError> {
    match r case Err(e) => Err(e) case Ok(more) => Ok(pkts + more)
  }

  lemma PrependTwice(a: seq<Packet>, b: seq<Packet>, r: Result<seq<Packet>, DecodeError>)
    ensures Prepend(a, Prepend(b, r)) == Prepend(a + b, r)
    ensures Prepend([], r) == r
  {
    if r.Ok? { assert a + (b + r.value) == a + b + r.value && [] + r.value == r.value; }
  }

  method DecodeADTS(bs: seq<Byte>) returns (r: Result<seq<Packet>, DecodeError>)
    ensures r == Decoded(bs)
  {
    var ret: seq<Packet>, byts := [], bs;
    PrependTwice([], [], Decoded(bs));
    while |byts| > 0
      invariant Decoded(bs) == Prepend(ret, Decoded(byts))
      decreases |byts|
    {
      if |byts| < 2 { return Err(OutOfRange); }
      if SyncWord(byts[0], byts[1]) != 0xFFF { return Err(InvalidSyncword); }
      if byts[1] % 2 != 1 { return Err(CrcUnsupported); }
      if |byts| < 3 { return Err(OutOfRange); }
      if byts[2] / 64 != 0 { return Err(NotAacLc); }
      var rate := RateOf(byts[2] / 4 % 16);
      if rate.Err? { return Err(InvalidSampleRateIndex); }
      if |byts| < 4 { return Err(OutOfRange); }
      var channels := ChannelsOf(ChannelConfig(byts[2], byts[3]));
      if channels.Err? { return Err(InvalidChannelConfig); }
      if |byts| < 7 { return Err(OutOfRange); }
      var frameLen := LengthField(byts[3], byts[4], byts[5]) - 7;
      if Fullness(byts[5], byts[6]) != FULLNESS { return Err(FullnessUnsupported); }
      if byts[6] % 4 != 0 { return Err(MultipleFrames); }
      if |byts| - 7 < frameLen { return Err(InvalidFrameLength); }
      if frameLen < 0 { return Err(OutOfRange); }
      var pkt := Packet(rate.value, channels.value, byts[7..7 + frameLen]);
      PrependTwice(ret, [pkt], Decoded(byts[7 + frameLen..]));
      byts := byts[7 + frameLen..];
      ret := ret + [pkt];
    }
    assert byts == [] && ret + [] == ret;
    return Ok(ret);
  }

  // ---------------------------------------------------------------- encoding

  /** The seven header bytes; a length over thirteen bits loses its upper bits. */
  function Header(index: nat, config: nat, frameLen: nat): (h: seq<Byte>)
    requires index <= 12 && config <= 7
    ensures |h| == 7
  {
    [0xFF, 0xF1,
     index * 4 + config / 4,
     config % 4 * 64 + frameLen / 2048 % 4,
     frameLen / 8 % 256,
     frameLen % 8 * 32 + FULLNESS / 64 % 32,
     FULLNESS % 64 * 4]
  }

  function EncodedOne(pkt: Packet): (r: Result<seq<Byte>, EncodeError>)
    ensures r.Ok? ==> |r.value| == 7 + |pkt.frame|
  {
    match ConfigOfChannels(pkt.channelCount)
    case Err(e) => Err(e)
    case Ok(config) =>
      match IndexOfRate(pkt.sampleRate)
      case Err(e) => Err(e)
      case Ok(index) => Ok(Header(index, config, |pkt.frame| + 7) + pkt.frame)
  }

  function Encoded(pkts: seq<Packet>): (r: Result<seq<Byte>, EncodeError>) {
    if pkts == [] then Ok([])
    else
      match Encoded(pkts[..|pkts| - 1])
      case Err(e) => Err(e)
      case Ok(front) =>
        match EncodedOne(pkts[|pkts| - 1])
        case Err(e) => Err(e)
        case Ok(last) => Ok(front + last)
  }

  method EncodeADTS(pkts: seq<Packet>) returns (r: Result<seq<Byte>, EncodeError>)
    ensures r == Encoded(pkts)
  {
    var ret: seq<Byte>, i := [], 0;
    while i < |pkts|
      invariant 0 <= i <= |pkts|
      invariant Encoded(pkts[..i]) == Ok(ret)
    {
      var pkt := pkts[i];
      assert pkts[..i + 1][..i] == pkts[..i];
      var frameLen := |pkt.frame| + 7;
      var config := ConfigOfChannels(pkt.channelCount);
      if config.Err? {
        FirstErrorStays(pkts, i + 1);
        return Err(config.error);
      }
      var index := IndexOfRate(pkt.sampleRate);
      if index.Err? {
        FirstErrorStays(pkts, i + 1);
        return Err(index.error);
      }
      var header := new Byte[7](_ => 0);
      header[0] := 0xFF;
      header[1] := 0xF1;
      header[2] := index.value * 4 + config.value / 4;
      header[3] := config.value % 4 * 64 + frameLen / 2048 % 4;
      header[4] := frameLen / 8 % 256;
      header[5] := frameLen % 8 * 32 + FULLNESS / 64 % 32;
      header[6] := FULLNESS % 64 * 4;
      assert header[..] == Header(index.value, config.value, frameLen);
      ghost var front := ret;
      ret := ret + header[..];
      ret := ret + pkt.frame;
      assert ret == front + (header[..] + pkt.frame);
      i := i + 1;
    }
    assert pkts[..i] == pkts;
    return Ok(ret);
  }

  lemma {:induction false} FirstErrorStays(pkts: seq<Packet>, n: nat)
    requires n <= |pkts| && Encoded(pkts[..n]).Err?
    ensures Encoded(pkts) == Encoded(pkts[..n])
  {
    if n == |pkts| {
      assert pkts[..n] == pkts;
    } else {
      assert pkts[..|pkts| - 1][..n] == pkts[..n];
      FirstErrorStays(pkts[..|pkts| - 1], n);
    }
  }

  // ---------------------------------------------------------------- round trips

  predicate Supported(pkt: Packet) {
    IndexOfRate(pkt.sampleRate).Ok? && ConfigOfChannels(pkt.channelCount).Ok?
  }

  /** The longest frame whose length, header included, fits the thirteen bits of its field. */
  const MAX_FRAME := 8184

  ghost predicate Codable(pkts: seq<Packet>) {
    forall i :: 0 <= i < |pkts| ==> Supported(pkts[i]) && |pkts[i].frame| <= MAX_FRAME
  }

  /** What a decoder reads from a header, field by field. */
  predicate Says(h: seq<Byte>, index: nat, config: nat, length: nat)
    requires |h| >= 7
  {
    && SyncWord(h[0], h[1]) == 0xFFF && h[1] % 2 == 1 && h[2] / 64 == 0
    && h[2] / 4 % 16 == index && ChannelConfig(h[2], h[3]) == config
    && LengthField(h[3], h[4], h[5]) == length
    && Fullness(h[5], h[6]) == FULLNESS && h[6] % 4 == 0
  }

  /** The encoder's header says what went into it, the length modulo its thirteen bits. */
  lemma HeaderFields(index: nat, config: nat, frameLen: nat)
    requires index <= 12 && 1 <= config <= 7
    ensures Says(Header(index, config, frameLen), index, config, frameLen % 8192)
  {
    var h := Header(index, config, frameLen);
    assert h[2] % 2 == config / 4 && h[3] / 64 == config % 4;
    assert h[3] % 4 == frameLen / 2048 % 4 && h[5] / 32 == frameLen % 8;
    LengthDigits(frameLen);
  }

  lemma LengthDigits(n: nat)
    ensures n / 2048 % 4 * 2048 + n / 8 % 256 * 8 + n % 8 == n % 8192
  {
    var a := n / 8;
    assert n / 2048 == a / 256;
    assert a == a / 256 * 256 + a % 256;
    var c := a / 256;
    assert c == c / 4 * 4 + c % 4;
    assert n == c / 4 * 8192 + (c % 4 * 2048 + a % 256 * 8 + n % 8);
  }

  /** Decoding a header that says these things. */
  lemma DecodeSaid(bs: seq<Byte>, index: nat, config: nat, length: nat, rate: int, channels: int)
    requires |bs| >= 7 && Says(bs, index, config, length)
    requires RateOf(index) == Ok(rate) && ChannelsOf(config) == Ok(channels)
    ensures DecodedOne(bs) ==
            if |bs| < length then Err(InvalidFrameLength)
            else if length < 7 then Err(OutOfRange)
            else Ok((Packet(rate, channels, bs[7..length]), length))
  {
  }

  lemma SaysPrefix(h: seq<Byte>, more: seq<Byte>, index: nat, config: nat, length: nat)
    requires |h| == 7 && Says(h, index, config, length)
    ensures Says(h + more, index, config, length)
  {
    var bs := h + more;
    assert bs[0] == h[0] && bs[1] == h[1] && bs[2] == h[2] && bs[3] == h[3];
    assert bs[4] == h[4] && bs[5] == h[5] && bs[6] == h[6];
  }

  lemma DecodeAfterHeader(h: seq<Byte>, pkt: Packet, more: seq<Byte>, index: nat, config: nat, length: nat)
    requires |h| == 7 && Says(h, index, config, length) && length == (7 + |pkt.frame|) % 8192
    requires RateOf(index) == Ok(pkt.sampleRate) && ChannelsOf(config) == Ok(pkt.channelCount)
    ensures var r := DecodedOne(h + (pkt.frame + more));
            if |pkt.frame| <= MAX_FRAME then r == Ok((pkt, 7 + |pkt.frame|)) else r.Ok? ==> r.value.0 != pkt
  {
    var bs := h + (pkt.frame + more);
    SaysPrefix(h, pkt.frame + more, index, config, length);
    DecodeSaid(bs, index, config, length, pkt.sampleRate, pkt.channelCount);
    if |pkt.frame| <= MAX_FRAME {
      assert bs[7..length] == pkt.frame;
    } else {
      assert length < 8192;
    }
  }

  /** An encoded packet is a header that says what it should, and the frame. */
  lemma EncodedOneSays(pkt: Packet, more: seq<Byte>) returns (h: seq<Byte>, index: nat, config: nat)
    requires Supported(pkt)
    ensures EncodedOne(pkt).value + more == h + (pkt.frame + more)
    ensures |h| == 7 && Says(h, index, config, (7 + |pkt.frame|) % 8192)
    ensures RateOf(index) == Ok(pkt.sampleRate) && ChannelsOf(config) == Ok(pkt.channelCount)
  {
    index, config := IndexOfRate(pkt.sampleRate).value, ConfigOfChannels(pkt.channelCount).value;
    h := Header(index, config, |pkt.frame| + 7);
    HeaderFields(index, config, |pkt.frame| + 7);
    TablesAgree(pkt.sampleRate, index, pkt.channelCount, config);
    assert h + pkt.frame + more == h + (pkt.frame + more);
  }

  /** What decoding makes of one encoded packet with more bytes behind it. */
  lemma DecodeOneEncoded(pkt: Packet, more: seq<Byte>)
    requires Supported(pkt)
    ensures var r := DecodedOne(EncodedOne(pkt).value + more);
            if |pkt.frame| <= MAX_FRAME then r == Ok((pkt, 7 + |pkt.frame|)) else r.Ok? ==> r.value.0 != pkt
  {
    var h, index, config := EncodedOneSays(pkt, more);
    DecodeAfterHeader(h, pkt, more, index, config, (7 + |pkt.frame|) % 8192);
  }

  lemma {:induction false} EncodedFront(pkts: seq<Packet>)
    requires pkts != []
    ensures Encoded(pkts).Ok? <==> EncodedOne(pkts[0]).Ok? && Encoded(pkts[1..]).Ok?
    ensures Encoded(pkts).Ok? ==> Encoded(pkts).value == EncodedOne(pkts[0]).value + Encoded(pkts[1..]).value
  {
    var n := |pkts| - 1;
    if n == 0 {
      assert pkts[..0] == [] && pkts[1..] == [];
    } else {
      EncodedFront(pkts[..n]);
      assert pkts[..n][1..] == pkts[1..][..n - 1] && pkts[1..][n - 1] == pkts[n];
      if Encoded(pkts).Ok? {
        assert EncodedOne(pkts[0]).value + (Encoded(pkts[1..][..n - 1]).value + EncodedOne(pkts[n]).value)
            == EncodedOne(pkts[0]).value + Encoded(pkts[1..][..n - 1]).value + EncodedOne(pkts[n]).value;
      }
    }
  }

  /** The encoder accepts exactly the lists of supported packets; decoding what it makes of them
      gives the packets back exactly if no frame is longer than the length field can say. */
  lemma {:induction false} RoundTripExactly(pkts: seq<Packet>)
    ensures Encoded(pkts).Ok? <==> forall i :: 0 <= i < |pkts| ==> Supported(pkts[i])
    ensures Encoded(pkts).Ok? ==> (Decoded(Encoded(pkts).value) == Ok(pkts) <==> Codable(pkts))
  {
    if pkts != [] {
      EncodedFront(pkts);
      RoundTripExactly(pkts[1..]);
      assert pkts == [pkts[0]] + pkts[1..];
      assert forall i :: 0 < i < |pkts| ==> pkts[i] == pkts[1..][i - 1];
      if Encoded(pkts).Ok? { RoundTripFront(pkts); }
    }
  }

  lemma CodableFront(pkts: seq<Packet>)
    requires pkts != []
    ensures Codable(pkts) <==> Supported(pkts[0]) && |pkts[0].frame| <= MAX_FRAME && Codable(pkts[1..])
  {
    if Codable(pkts) {
      assert forall i :: 0 <= i < |pkts[1..]| ==> pkts[1..][i] == pkts[i + 1];
    }
    if Supported(pkts[0]) && |pkts[0].frame| <= MAX_FRAME && Codable(pkts[1..]) {
      assert forall i :: 0 < i < |pkts| ==> pkts[i] == pkts[1..][i - 1];
    }
  }

  /** The first packet of a stream comes back exactly if decoding one gives it and the rest comes back. */
  lemma DecodedFront(first: seq<Byte>, more: seq<Byte>, pkts: seq<Packet>, one: Result<(Packet, nat), DecodeError>)
    requires first != [] && pkts != [] && one == DecodedOne(first + more)
    requires one == Ok((pkts[0], |first|)) || (one.Ok? ==> one.value.0 != pkts[0])
    ensures Decoded(first + more) == Ok(pkts) <==> one == Ok((pkts[0], |first|)) && Decoded(more) == Ok(pkts[1..])
  {
    if one == Ok((pkts[0], |first|)) {
      assert (first + more)[|first|..] == more;
      assert pkts == [pkts[0]] + pkts[1..];
      if Decoded(more).Ok? { assert ([pkts[0]] + Decoded(more).value)[1..] == Decoded(more).value; }
    } else if Decoded(first + more).Ok? {
      assert Decoded(first + more).value[0] == one.value.0;
    }
  }

  lemma RoundTripFront(pkts: seq<Packet>)
    requires pkts != [] && Encoded(pkts).Ok? && Encoded(pkts[1..]).Ok? && Supported(pkts[0])
    requires Encoded(pkts).value == EncodedOne(pkts[0]).value + Encoded(pkts[1..]).value
    requires Decoded(Encoded(pkts[1..]).value) == Ok(pkts[1..]) <==> Codable(pkts[1..])
    ensures Decoded(Encoded(pkts).value) == Ok(pkts) <==> Codable(pkts)
  {
    var first, more := EncodedOne(pkts[0]).value, Encoded(pkts[1..]).value;
    DecodeOneEncoded(pkts[0], more);
    DecodedFront(first, more, pkts, DecodedOne(first + more));
    CodableFront(pkts);
  }

  /** Everything the decoder accepts is made of supported packets with frames that fit. */
  lemma {:induction false} DecodedIsCodable(bs: seq<Byte>)
    requires Decoded(bs).Ok?
    ensures Codable(Decoded(bs).value)
    decreases |bs|
  {
    if bs != [] {
      var one := DecodedOne(bs).value;
      DecodedIsCodable(bs[one.1..]);
      TablesAgree(one.0.sampleRate, bs[2] / 4 % 16, one.0.channelCount, ChannelConfig(bs[2], bs[3]));
      assert Supported(one.0) && |one.0.frame| <= MAX_FRAME;
    }
  }

  lemma {:induction false} EncodedLength(bs: seq<Byte>)
    requires Decoded(bs).Ok? && Encoded(Decoded(bs).value).Ok?
    ensures |Encoded(Decoded(bs).value).value| == |bs|
    decreases |bs|
  {
    if bs != [] {
      var one := DecodedOne(bs).value;
      var pkts := Decoded(bs).value;
      assert pkts[0] == one.0 && pkts[1..] == Decoded(bs[one.1..]).value;
      EncodedFront(pkts);
      EncodedLength(bs[one.1..]);
    }
  }

  /** Every stream the decoder accepts can be re-encoded, to the same length, and decodes again to
      the same packets. */
  lemma ReencodingKeepsPackets(bs: seq<Byte>, pkts: seq<Packet>)
    requires Decoded(bs) == Ok(pkts)
    ensures Encoded(pkts).Ok? && |Encoded(pkts).value| == |bs|
    ensures Decoded(Encoded(pkts).value) == Ok(pkts)
  {
    DecodedIsCodable(bs);
    RoundTripExactly(pkts);
    EncodedLength(bs);
  }

  // ---------------------------------------------------------------- the format, byte by byte

  /** The sampling frequencies by index. */
  const RATES := [96000, 88200, 64000, 48000, 44100, 32000, 24000, 22050, 16000, 12000, 11025, 8000, 7350]

  /** Indexes beyond the table and channel configurations zero and above seven are refused; seven means eight. */
  lemma TablesMean(index: nat, config: nat)
    ensures RateOf(index) == if index < 13 then Ok(RATES[index]) else Err(InvalidSampleRateIndex)
    ensures ChannelsOf(config) ==
            if config == 7 then Ok(8) else if 1 <= config <= 6 then Ok(config) else Err(InvalidChannelConfig)
  {
  }

  lemma SupportedMeans(pkt: Packet)
    ensures Supported(pkt) <==>
            pkt.sampleRate in RATES && (1 <= pkt.channelCount <= 6 || pkt.channelCount == 8)
  {
    if pkt.sampleRate in RATES {
      var i :| 0 <= i < 13 && RATES[i] == pkt.sampleRate;
      TablesMean(i, 1);
      TablesAgree(pkt.sampleRate, i, 1, 1);
    }
  }

  /** The checks on a whole header, in their order: synchronisation word, no CRC, profile, sampling frequency,
      channels, fullness, a single frame, and a length that the stream has. */
  lemma HeaderChecks(bs: seq<Byte>)
    requires |bs| >= 7
    ensures var index: int := bs[2] / 4 % 16;
            var config: int := (bs[2] as int) % 2 * 4 + bs[3] / 64;
            var length: int := (bs[3] as int) % 4 * 2048 + (bs[4] as int) * 8 + bs[5] / 32;
            DecodedOne(bs) ==
            if bs[0] != 0xFF || bs[1] < 0xF0 then Err(InvalidSyncword)
            else if bs[1] % 2 != 1 then Err(CrcUnsupported)
            else if bs[2] >= 64 then Err(NotAacLc)
            else if index >= 13 then Err(InvalidSampleRateIndex)
            else if config == 0 then Err(InvalidChannelConfig)
            else if bs[5] % 32 != 28 || bs[6] / 4 != 8 then Err(FullnessUnsupported)
            else if bs[6] % 4 != 0 then Err(MultipleFrames)
            else if length > |bs| then Err(InvalidFrameLength)
            else if length < 7 then Err(OutOfRange)
            else Ok((Packet(RATES[index], if config == 7 then 8 else config, bs[7..length]), length))
  {
    TablesMean(bs[2] / 4 % 16, ChannelConfig(bs[2], bs[3]));
  }

  /** The bytes that do not depend on the packet: no CRC, and a fullness of 1800 = 28 * 64 + 8. */
  lemma HeaderBytes(index: nat, config: nat, frameLen: nat)
    requires index <= 12 && config <= 7
    ensures var h := Header(index, config, frameLen);
            h[0] == 0xFF && h[1] == 0xF1 && h[2] < 64 && h[5] % 32 == 28 && h[6] == 32
  {
  }

  /** The encoder looks at the channels before the rate. */
  lemma EncodeErrors(pkt: Packet)
    ensures EncodedOne(pkt) == Err(InvalidChannelCount) <==> !(1 <= pkt.channelCount <= 6 || pkt.channelCount == 8)
    ensures EncodedOne(pkt) == Err(InvalidSampleRate) <==>
            (1 <= pkt.channelCount <= 6 || pkt.channelCount == 8) && pkt.sampleRate !in RATES
  {
    SupportedMeans(pkt);
  }
}
