/** The Annex-B byte stream format (internal/h264/annexb.go; Annex B of ITU-T H.264). */
module AnnexB {
  import opened Bytes

  type Nalu = seq<Byte>

  datatype DecodeError = MissingDelimiter | EmptyNalu

  // ---------------------------------------------------------------- what a stream says

  /** A one that the decoder takes for the end of a delimiter: exactly two or three zeros before it. */
  predicate IsStart(s: seq<Byte>, i: nat)
    requires i < |s|
  {
    s[i] == 1 && (ZeroRun(s, i) == 2 || ZeroRun(s, i) == 3)
  }

  ghost predicate NoStart(s: seq<Byte>) {
    forall i :: 0 <= i < |s| ==> !IsStart(s, i)
  }

  /** What a NALU must look like to survive in a stream; only the last one may end in zero. */
  ghost predicate Good(nalu: Nalu, last: bool) {
    nalu != [] && NoStart(nalu) && (last || nalu[|nalu| - 1] != 0)
  }

  function Delimiter(zeros: nat): (d: seq<Byte>)
    ensures |d| == zeros + 1 && d[zeros] == 1 && forall k :: 0 <= k < zeros ==> d[k] == 0
  {
    seq(zeros, _ => 0) + [1]
  }

  /** The text after a delimiter spells these NALUs, separated by delimiters of two or three zeros. */
  ghost predicate Spells(text: seq<Byte>, nalus: seq<Nalu>)
    decreases |nalus|, 1
  {
    && nalus != []
    && if |nalus| == 1 then text == nalus[0] && Good(text, true)
       else Good(nalus[0], false) && exists d :: 2 <= d <= 3 && SpellsAfter(text, nalus, d)
  }

  ghost predicate SpellsAfter(text: seq<Byte>, nalus: seq<Nalu>, d: nat)
    requires |nalus| > 1
    decreases |nalus|, 0
  {
    var n := |nalus[0]| + d + 1;
    n <= |text| && text[..n] == nalus[0] + Delimiter(d) && Spells(text[n..], nalus[1..])
  }

  /** The length of the delimiter that opens a stream, zero if there is none. */
  function OpeningDelimiter(bs: seq<Byte>): (n: nat)
    ensures n == 3 <==> Delimiter(2) <= bs
    ensures n == 4 <==> Delimiter(3) <= bs
    ensures n == 0 || n == 3 || n == 4
    ensures n <= |bs|
  {
    assert Delimiter(2) == [0, 0, 1] && Delimiter(3) == [0, 0, 0, 1];
    if |bs| < 3 || bs[0] != 0 || bs[1] != 0 then 0
    else if bs[2] == 1 then assert bs[..3] == [0, 0, 1]; 3
    else if |bs| < 4 || bs[2] != 0 || bs[3] != 1 then 0
    else assert bs[..4] == [0, 0, 0, 1]; 4
  }

  // ---------------------------------------------------------------- scanning

  /** The decoder's scan: `current` holds the bytes since the last delimiter. */
  function Scan(rest: seq<Byte>, current: Nalu): (r: Result<seq<Nalu>, DecodeError>)
    decreases |rest|
  {
    var zeros := ZeroRun(current, |current|);
    if rest == [] then
      if current == [] then Err(EmptyNalu) else Ok([current])
    else if rest[0] == 1 && (zeros == 2 || zeros == 3) then
      if |current| == zeros then Err(EmptyNalu)
      else match Scan(rest[1..], [])
           case Err(e) => Err(e)
           case Ok(nalus) => Ok([current[..|current| - zeros]] + nalus)
    else Scan(rest[1..], current + [rest[0]])
  }

  function Decoded(bs: seq<Byte>): (r: Result<seq<Nalu>, DecodeError>) {
    var n := OpeningDelimiter(bs);
    if n == 0 then Err(MissingDelimiter) else Scan(bs[n..], [])
  }

  function Prepend(nalus: seq<Nalu>, r: Result<seq<Nalu>, DecodeError>): Result<seq<Nalu>, DecodeError> {
    match r case Err(e) => Err(e) case Ok(more) => Ok(nalus + more)
  }

  lemma PrependNothing(r: Result<seq<Nalu>, DecodeError>)
    ensures Prepend([], r) == r
  {
    if r.Ok? { assert [] + r.value == r.value; }
  }

  /** The loop state: `ret` holds the NALUs before `start`, and the scan is in the one after. */
  ghost predicate Decoding(bs: seq<Byte>, ret: seq<Nalu>, start: nat, i: nat, zeros: nat) {
    && start <= i <= |bs| && zeros == ZeroRun(bs[start..i], i - start)
    && Decoded(bs) == Prepend(ret, Scan(bs[i..], bs[start..i]))
  }

  lemma DecodingBegins(bs: seq<Byte>, n: nat)
    requires n == OpeningDelimiter(bs) && n != 0
    ensures Decoding(bs, [], n, n, 0)
  {
    assert bs[n..n] == [];
    PrependNothing(Scan(bs[n..], []));
  }

  lemma NextByte(bs: seq<Byte>, start: nat, i: nat)
    requires start <= i < |bs|
    ensures bs[i..][1..] == bs[i + 1..] && bs[start..i + 1] == bs[start..i] + [bs[i]]
  {
  }

  lemma DecodingKeeps(bs: seq<Byte>, ret: seq<Nalu>, start: nat, i: nat, zeros: nat)
    requires i < |bs| && Decoding(bs, ret, start, i, zeros) && !(bs[i] == 1 && (zeros == 2 || zeros == 3))
    ensures Decoding(bs, ret, start, i + 1, if bs[i] == 0 then zeros + 1 else 0)
  {
    NextByte(bs, start, i);
    ZeroRunPrefix(bs[start..i], [bs[i]], i - start);
  }

  lemma DecodingDivides(bs: seq<Byte>, ret: seq<Nalu>, start: nat, i: nat, zeros: nat)
    requires i < |bs| && Decoding(bs, ret, start, i, zeros) && bs[i] == 1 && (zeros == 2 || zeros == 3)
    ensures if i - zeros == start then Decoded(bs) == Err(EmptyNalu)
            else Decoding(bs, ret + [bs[start..i - zeros]], i + 1, i + 1, 0)
  {
    var nalu, more := bs[start..i - zeros], Scan(bs[i + 1..], []);
    NextByte(bs, start, i);
    assert nalu == bs[start..i][..i - start - zeros];
    assert bs[i + 1..i + 1] == [];
    if more.Ok? { assert ret + ([nalu] + more.value) == ret + [nalu] + more.value; }
  }

  method DecodeAnnexB(bs: seq<Byte>) returns (r: Result<seq<Nalu>, DecodeError>)
    ensures r == Decoded(bs)
  {
    var n := OpeningDelimiter(bs);
    if n == 0 {
      return Err(MissingDelimiter);
    }
    var ret: seq<Nalu> := [];
    var zeros, start, delimStart := 0, n, 0;
    var i := n;
    DecodingBegins(bs, n);
    while i < |bs|
      invariant 0 <= start <= i <= |bs| && 0 <= zeros <= i - start
      invariant Decoding(bs, ret, start, i, zeros)
      invariant zeros > 0 ==> delimStart == i - zeros
    {
      if bs[i] == 0 {
        DecodingKeeps(bs, ret, start, i, zeros);
        if zeros == 0 {
          delimStart := i;
        }
        zeros := zeros + 1;
      } else {
        if bs[i] == 1 && (zeros == 2 || zeros == 3) {
          DecodingDivides(bs, ret, start, i, zeros);
          var nalu := bs[start..delimStart];
          if |nalu| == 0 {
            return Err(EmptyNalu);
          }
          ret := ret + [nalu];
          start := i + 1;
        } else {
          DecodingKeeps(bs, ret, start, i, zeros);
        }
        zeros := 0;
      }
      i := i + 1;
    }
    var nalu := bs[start..];
    assert bs[start..i] == nalu && bs[i..] == [];
    if |nalu| == 0 {
      return Err(EmptyNalu);
    }
    return Ok(ret + [nalu]);
  }

  // ---------------------------------------------------------------- encoding

  function Encoded(nalus: seq<Nalu>): (bs: seq<Byte>) {
    if nalus == [] then []
    else Encoded(nalus[..|nalus| - 1]) + [0, 0, 0, 1] + nalus[|nalus| - 1]
  }

  method EncodeAnnexB(nalus: seq<Nalu>) returns (ret: seq<Byte>)
    ensures ret == Encoded(nalus)
  {
    ret := [];
    for i := 0 to |nalus|
      invariant ret == Encoded(nalus[..i])
    {
      assert nalus[..i + 1][..i] == nalus[..i];
      ret := ret + [0, 0, 0, 1];
      ret := ret + nalus[i];
    }
    assert nalus[..|nalus|] == nalus;
  }

  lemma {:induction false} EncodedFront(nalus: seq<Nalu>)
    requires nalus != []
    ensures Encoded(nalus) == [0, 0, 0, 1] + nalus[0] + Encoded(nalus[1..])
  {
    var last := |nalus| - 1;
    if last > 0 {
      EncodedFront(nalus[..last]);
      assert nalus[..last][1..] == nalus[1..][..last - 1];
      var mid := Encoded(nalus[1..][..last - 1]);
      assert nalus[1..][last - 1] == nalus[last];
      assert [0, 0, 0, 1] + nalus[0] + mid + [0, 0, 0, 1] + nalus[last]
          == [0, 0, 0, 1] + nalus[0] + (mid + [0, 0, 0, 1] + nalus[last]);
    }
  }

  // ---------------------------------------------------------------- the decoder reads exactly what is spelled

  lemma NoStartExtend(current: Nalu, b: Byte)
    requires NoStart(current)
    requires !(b == 1 && (ZeroRun(current, |current|) == 2 || ZeroRun(current, |current|) == 3))
    ensures NoStart(current + [b])
  {
    forall i | 0 <= i < |current + [b]| ensures !IsStart(current + [b], i) {
      ZeroRunPrefix(current, [b], i);
      if i < |current| { assert !IsStart(current, i); }
    }
  }

  /** A delimiter after a NALU that does not end in zero is a start, and nothing in front of it moves. */
  lemma DelimiterIsStart(nalu: Nalu, d: nat, more: seq<Byte>)
    requires Good(nalu, false) && 2 <= d <= 3
    ensures IsStart(nalu + Delimiter(d) + more, |nalu| + d)
    ensures ZeroRun(nalu + Delimiter(d) + more, |nalu| + d) == d
  {
    ZeroRunIs(nalu + Delimiter(d) + more, |nalu| + d, d);
  }

  /** The first start of a text is where its first delimiter ends. */
  lemma FirstStartEndsDelimiter(nalu: Nalu, d: nat, more: seq<Byte>, k: nat)
    requires Good(nalu, false) && 2 <= d <= 3
    requires var text := nalu + Delimiter(d) + more;
             k < |text| && IsStart(text, k) && forall i :: 0 <= i < k ==> !IsStart(text, i)
    ensures k == |nalu| + d && ZeroRun(nalu + Delimiter(d) + more, k) == d
  {
    var text := nalu + Delimiter(d) + more;
    DelimiterIsStart(nalu, d, more);
    if k < |nalu| + d {
      assert forall j :: |nalu| <= j < |nalu| + d ==> text[j] == Delimiter(d)[j - |nalu|];
      assert text == nalu + (Delimiter(d) + more);
      ZeroRunPrefix(nalu, Delimiter(d) + more, k);
      assert IsStart(nalu, k);
    }
  }

  lemma FirstStartOfText(current: Nalu, rest: seq<Byte>)
    requires NoStart(current) && rest != [] && rest[0] == 1
    requires 2 <= ZeroRun(current, |current|) <= 3
    ensures IsStart(current + rest, |current|)
    ensures ZeroRun(current + rest, |current|) == ZeroRun(current, |current|)
    ensures forall i :: 0 <= i < |current| ==> !IsStart(current + rest, i)
  {
    ZeroRunPrefix(current, rest, |current|);
    forall i | 0 <= i < |current| ensures !IsStart(current + rest, i) {
      ZeroRunPrefix(current, rest, i);
      assert !IsStart(current, i);
    }
  }

  lemma DividesAfter(text: seq<Byte>, nalus: seq<Nalu>, d: nat, k: nat)
    requires |nalus| > 1 && Good(nalus[0], false) && 2 <= d <= 3 && SpellsAfter(text, nalus, d)
    requires k < |text| && IsStart(text, k) && forall i :: 0 <= i < k ==> !IsStart(text, i)
    ensures k == |nalus[0]| + d && ZeroRun(text, k) == d
    ensures nalus[0] == text[..k - d] && Spells(text[k + 1..], nalus[1..])
  {
    var n := |nalus[0]| + d + 1;
    assert text == nalus[0] + Delimiter(d) + text[n..];
    FirstStartEndsDelimiter(nalus[0], d, text[n..], k);
  }

  /** A spelled text divides at its first start. */
  lemma SpelledTextDivides(text: seq<Byte>, nalus: seq<Nalu>, k: nat)
    requires Spells(text, nalus)
    requires k < |text| && IsStart(text, k) && forall i :: 0 <= i < k ==> !IsStart(text, i)
    ensures |nalus| > 1 && nalus[0] == text[..k - ZeroRun(text, k)] && Spells(text[k + 1..], nalus[1..])
  {
    if |nalus| > 1 {
      var d :| 2 <= d <= 3 && SpellsAfter(text, nalus, d);
      DividesAfter(text, nalus, d, k);
    }
  }

  /** Where the scan meets its first start, every spelling has its first delimiter. */
  lemma FirstStartIsDelimiter(current: Nalu, rest: seq<Byte>, nalus: seq<Nalu>)
    requires NoStart(current) && rest != [] && rest[0] == 1
    requires 2 <= ZeroRun(current, |current|) <= 3
    requires Spells(current + rest, nalus)
    ensures |nalus| > 1
    ensures nalus[0] == current[..|current| - ZeroRun(current, |current|)]
    ensures Spells(rest[1..], nalus[1..])
  {
    FirstStartOfText(current, rest);
    SpelledTextDivides(current + rest, nalus, |current|);
    AroundTheStart(current, rest, ZeroRun(current, |current|));
  }

  lemma AroundTheStart(current: Nalu, rest: seq<Byte>, zeros: nat)
    requires zeros <= |current| && rest != []
    ensures (current + rest)[..|current| - zeros] == current[..|current| - zeros]
    ensures (current + rest)[|current| + 1..] == rest[1..]
  {
  }

  lemma PrefixHasNoStart(s: seq<Byte>, n: nat)
    requires NoStart(s) && n <= |s|
    ensures NoStart(s[..n])
  {
    forall i | 0 <= i < n ensures !IsStart(s[..n], i) {
      assert s == s[..n] + s[n..];
      ZeroRunPrefix(s[..n], s[n..], i);
      assert !IsStart(s, i);
    }
  }

  lemma ZerosThenOne(s: seq<Byte>, zeros: nat)
    requires 2 <= zeros <= 3 && zeros < |s|
    requires s[|s| - 1] == 0 && s[|s| - 2] == 0 && (zeros == 3 ==> s[|s| - 3] == 0)
    ensures s + [1] == s[..|s| - zeros] + Delimiter(zeros)
  {
    if zeros == 2 {
      assert Delimiter(2) == [0, 0, 1];
    } else {
      assert Delimiter(3) == [0, 0, 0, 1];
    }
  }

  /** Before a start, the zeros and the one are a delimiter. */
  lemma EndsInDelimiter(current: Nalu, zeros: nat)
    requires zeros == ZeroRun(current, |current|) && 2 <= zeros <= 3 && zeros < |current|
    ensures current + [1] == current[..|current| - zeros] + Delimiter(zeros)
  {
    ZeroRunIsMaximal(current, |current|);
    ZerosThenOne(current, zeros);
  }

  /** What is left of a NALU without its trailing zeros is good in front of a delimiter. */
  lemma GoodWithoutZeros(current: Nalu, zeros: nat)
    requires NoStart(current) && zeros == ZeroRun(current, |current|) && zeros < |current|
    ensures Good(current[..|current| - zeros], false)
  {
    ZeroRunIsMaximal(current, |current|);
    PrefixHasNoStart(current, |current| - zeros);
  }

  lemma SpellsOneMore(nalu: Nalu, d: nat, text: seq<Byte>, more: seq<Nalu>)
    requires Good(nalu, false) && 2 <= d <= 3 && Spells(text, more)
    ensures Spells(nalu + Delimiter(d) + text, [nalu] + more)
  {
    var whole, nalus := nalu + Delimiter(d) + text, [nalu] + more;
    assert nalus[1..] == more;
    assert whole[|nalu| + d + 1..] == text && whole[..|nalu| + d + 1] == nalu + Delimiter(d);
    assert SpellsAfter(whole, nalus, d);
  }

  lemma FirstOut(s: seq<Byte>, t: seq<Byte>)
    requires t != []
    ensures s + t == s + [t[0]] + t[1..]
  {
  }

  lemma StartSplits(current: Nalu, rest: seq<Byte>, zeros: nat, more: seq<Nalu>)
    requires NoStart(current) && rest != [] && rest[0] == 1
    requires zeros == ZeroRun(current, |current|) && 2 <= zeros <= 3 && zeros < |current|
    requires Spells(rest[1..], more)
    ensures Spells(current + rest, [current[..|current| - zeros]] + more)
  {
    var nalu := current[..|current| - zeros];
    GoodWithoutZeros(current, zeros);
    SpellsOneMore(nalu, zeros, rest[1..], more);
    EndsInDelimiter(current, zeros);
    FirstOut(current, rest);
  }

  lemma TextWithoutStartIsOneNalu(text: seq<Byte>, nalus: seq<Nalu>)
    requires NoStart(text)
    ensures Spells(text, nalus) <==> text != [] && nalus == [text]
  {
    if Spells(text, nalus) && |nalus| > 1 {
      var d :| 2 <= d <= 3 && SpellsAfter(text, nalus, d);
      var n := |nalus[0]| + d + 1;
      assert text == nalus[0] + Delimiter(d) + text[n..];
      DelimiterIsStart(nalus[0], d, text[n..]);
      assert false;
    }
  }

  lemma {:induction false} ScanReadsSpelling(rest: seq<Byte>, current: Nalu, nalus: seq<Nalu>)
    requires NoStart(current)
    ensures Scan(rest, current) == Ok(nalus) <==> Spells(current + rest, nalus)
    decreases |rest|
  {
    var zeros := ZeroRun(current, |current|);
    if rest == [] {
      assert current + rest == current;
      TextWithoutStartIsOneNalu(current, nalus);
    } else if rest[0] == 1 && (zeros == 2 || zeros == 3) {
      assert [] + rest[1..] == rest[1..];
      if nalus != [] { ScanReadsSpelling(rest[1..], [], nalus[1..]); }
      ScanAtStart(rest, current, zeros, nalus);
    } else {
      NoStartExtend(current, rest[0]);
      ScanReadsSpelling(rest[1..], current + [rest[0]], nalus);
      assert current + [rest[0]] + rest[1..] == current + rest;
    }
  }

  lemma ScanAtStart(rest: seq<Byte>, current: Nalu, zeros: nat, nalus: seq<Nalu>)
    requires NoStart(current) && rest != [] && rest[0] == 1
    requires zeros == ZeroRun(current, |current|) && 2 <= zeros <= 3
    requires nalus != [] ==> (Scan(rest[1..], []) == Ok(nalus[1..]) <==> Spells(rest[1..], nalus[1..]))
    ensures Scan(rest, current) == Ok(nalus) <==> Spells(current + rest, nalus)
  {
    if Spells(current + rest, nalus) {
      FirstStartIsDelimiter(current, rest, nalus);
      assert nalus == [nalus[0]] + nalus[1..];
      assert nalus[0] != [];
    } else if Scan(rest, current) == Ok(nalus) {
      assert nalus[0] == current[..|current| - zeros] && nalus == [nalus[0]] + nalus[1..];
      StartSplits(current, rest, zeros, nalus[1..]);
      assert false;
    }
  }

  /** The decoder accepts a byte string with a list of NALUs exactly if the string is a delimiter
      followed by a spelling of that list. */
  lemma DecoderReadsExactlySpelledStreams(bs: seq<Byte>, nalus: seq<Nalu>)
    ensures Decoded(bs) == Ok(nalus) <==>
            exists d :: 2 <= d <= 3 && Delimiter(d) <= bs && Spells(bs[d + 1..], nalus)
  {
    var n := OpeningDelimiter(bs);
    if n != 0 {
      assert [] + bs[n..] == bs[n..];
      ScanReadsSpelling(bs[n..], [], nalus);
      assert Delimiter(n - 1) <= bs;
    }
  }

  // ---------------------------------------------------------------- round trips

  ghost predicate AllGood(nalus: seq<Nalu>) {
    nalus != [] && forall i :: 0 <= i < |nalus| ==> Good(nalus[i], i == |nalus| - 1)
  }

  lemma {:induction false} SpelledAreGood(text: seq<Byte>, nalus: seq<Nalu>)
    requires Spells(text, nalus)
    ensures AllGood(nalus)
  {
    if |nalus| > 1 {
      var d :| 2 <= d <= 3 && SpellsAfter(text, nalus, d);
      var n := |nalus[0]| + d + 1;
      SpelledAreGood(text[n..], nalus[1..]);
      forall i | 0 < i < |nalus| ensures Good(nalus[i], i == |nalus| - 1) {
        assert Good(nalus[1..][i - 1], i - 1 == |nalus[1..]| - 1);
      }
    }
  }

  lemma {:induction false} EncodingSpells(nalus: seq<Nalu>)
    requires AllGood(nalus)
    ensures Delimiter(3) <= Encoded(nalus) && Spells(Encoded(nalus)[4..], nalus)
  {
    EncodedFront(nalus);
    assert Delimiter(3) == [0, 0, 0, 1];
    var tail := Encoded(nalus[1..]);
    var text := Encoded(nalus)[4..];
    assert text == nalus[0] + tail;
    if |nalus| == 1 {
      assert text == nalus[0];
    } else {
      forall i | 0 <= i < |nalus[1..]| ensures Good(nalus[1..][i], i == |nalus[1..]| - 1) {
        assert Good(nalus[i + 1], i + 1 == |nalus| - 1);
      }
      EncodingSpells(nalus[1..]);
      var n := |nalus[0]| + 4;
      assert tail == Delimiter(3) + tail[4..];
      assert text[..n] == nalus[0] + Delimiter(3);
      assert text[n..] == tail[4..];
      assert SpellsAfter(text, nalus, 3);
    }
  }

  /** Encoding and decoding gives back a list of NALUs exactly if the list is not empty and every
      NALU is good: not empty, no start inside, and no trailing zero except in the last. */
  lemma RoundTripExactlyForGoodNalus(nalus: seq<Nalu>)
    ensures Decoded(Encoded(nalus)) == Ok(nalus) <==> AllGood(nalus)
  {
    DecoderReadsExactlySpelledStreams(Encoded(nalus), nalus);
    if AllGood(nalus) {
      EncodingSpells(nalus);
    }
    if Decoded(Encoded(nalus)) == Ok(nalus) {
      var d :| 2 <= d <= 3 && Delimiter(d) <= Encoded(nalus) && Spells(Encoded(nalus)[d + 1..], nalus);
      SpelledAreGood(Encoded(nalus)[d + 1..], nalus);
    }
  }

  /** Whatever the decoder accepts, it accepts again after re-encoding, with the same NALUs. */
  lemma ReencodingKeepsNalus(bs: seq<Byte>, nalus: seq<Nalu>)
    requires Decoded(bs) == Ok(nalus)
    ensures AllGood(nalus)
    ensures Decoded(Encoded(nalus)) == Ok(nalus)
  {
    DecoderReadsExactlySpelledStreams(bs, nalus);
    var d :| 2 <= d <= 3 && Delimiter(d) <= bs && Spells(bs[d + 1..], nalus);
    SpelledAreGood(bs[d + 1..], nalus);
    RoundTripExactlyForGoodNalus(nalus);
  }

  /** A stream is refused for its beginning exactly if it starts with neither delimiter. */
  lemma MissingDelimiterExactly(bs: seq<Byte>)
    ensures Decoded(bs) == Err(MissingDelimiter) <==> !([0, 0, 1] <= bs) && !([0, 0, 0, 1] <= bs)
  {
    assert Delimiter(2) == [0, 0, 1] && Delimiter(3) == [0, 0, 0, 1];
    if OpeningDelimiter(bs) != 0 { ScanHasNoSuchError(bs[OpeningDelimiter(bs)..], []); }
  }

  lemma {:induction false} ScanHasNoSuchError(rest: seq<Byte>, current: Nalu)
    ensures Scan(rest, current) != Err(MissingDelimiter)
    decreases |rest|
  {
    if rest != [] {
      ScanHasNoSuchError(rest[1..], []);
      ScanHasNoSuchError(rest[1..], current + [rest[0]]);
    }
  }
}
