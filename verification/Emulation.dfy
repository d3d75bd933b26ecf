/** Emulation prevention bytes (internal/h264/anticompetition.go; section 7.4.1 of ITU-T H.264). */
module Emulation {
  import opened Bytes

  // ---------------------------------------------------------------- adding

  function AddStep(step: nat, b: Byte): (next: nat)
    requires step <= 2
    ensures next <= 2
  {
    if b == 0 && step < 2 then step + 1 else 0
  }

  /** The protected form of x when `step` zeros have been counted before it. */
  function Added(x: seq<Byte>, step: nat): (y: seq<Byte>)
    requires step <= 2
  {
    if x == [] then []
    else if step == 2 && x[0] <= 3 then [3, x[0]] + Added(x[1..], 0)
    else [x[0]] + Added(x[1..], AddStep(step, x[0]))
  }

  /** The loop state: what is written, what is seen and not written, and what is to come. */
  ghost predicate Adding(x: seq<Byte>, ret: seq<Byte>, start: nat, i: nat, step: nat) {
    && step <= 2 && start + step <= i <= |x|
    && (forall k :: i - step <= k < i ==> x[k] == 0)
    && ret + x[start..i] + Added(x[i..], step) == Added(x, 0)
  }

  lemma AddingKeeps(x: seq<Byte>, ret: seq<Byte>, start: nat, i: nat, step: nat)
    requires i < |x| && Adding(x, ret, start, i, step) && !(step == 2 && x[i] <= 3)
    ensures Adding(x, ret, start, i + 1, AddStep(step, x[i]))
  {
    var more := Added(x[i + 1..], AddStep(step, x[i]));
    assert x[i..][1..] == x[i + 1..] && x[start..i + 1] == x[start..i] + [x[i]];
    assert ret + x[start..i] + ([x[i]] + more) == ret + x[start..i + 1] + more;
  }

  lemma AddingInserts(x: seq<Byte>, ret: seq<Byte>, start: nat, i: nat)
    requires i < |x| && Adding(x, ret, start, i, 2) && x[i] <= 3
    ensures Adding(x, ret + x[start..i - 2] + [0, 0, 3, x[i]], i + 1, i + 1, 0)
  {
    var more := Added(x[i + 1..], 0);
    assert x[i..][1..] == x[i + 1..];
    assert x[start..i] == x[start..i - 2] + [0, 0];
    assert ret + x[start..i] + ([3, x[i]] + more) == ret + x[start..i - 2] + [0, 0, 3, x[i]] + x[i + 1..i + 1] + more;
  }

  method AntiCompetitionAdd(nalu: seq<Byte>) returns (ret: seq<Byte>)
    ensures ret == Added(nalu, 0)
  {
    ret := [];
    var step, start, i := 0, 0, 0;
    while i < |nalu|
      invariant i <= |nalu|
      invariant Adding(nalu, ret, start, i, step)
    {
      var b := nalu[i];
      if step == 2 && b <= 3 {
        AddingInserts(nalu, ret, start, i);
        ret := ret + nalu[start..i - 2];
        ret := ret + [0, 0, 3, b];
        step := 0;
        start := i + 1;
      } else {
        AddingKeeps(nalu, ret, start, i, step);
        step := if b == 0 && step < 2 then step + 1 else 0;
      }
      i := i + 1;
    }
    assert nalu[i..] == [] && nalu[start..i] == nalu[start..];
    ret := ret + nalu[start..];
  }

  // ---------------------------------------------------------------- removing

  /** The plain form of y; at step 3 a byte of value three is held back until the next byte is seen. */
  function Removed(y: seq<Byte>, step: nat): (x: seq<Byte>)
    requires step <= 3
    decreases |y|
  {
    if y == [] then (if step == 3 then [3] else [])
    else if step == 3 then (if y[0] <= 3 then [y[0]] else [3, y[0]]) + Removed(y[1..], 0)
    else if step == 2 && y[0] == 3 then Removed(y[1..], 3)
    else [y[0]] + Removed(y[1..], AddStep(step, y[0]))
  }

  function RemoveStep(step: nat, b: Byte): (next: nat)
    requires step <= 3
    ensures next <= 3
  {
    if step == 3 then 0 else if step == 2 && b == 3 then 3 else AddStep(step, b)
  }

  /** What one more byte makes known of the plain form. */
  function Told(step: nat, b: Byte): (t: seq<Byte>) {
    if step == 3 then (if b <= 3 then [b] else [3, b]) else if step == 2 && b == 3 then [] else [b]
  }

  /** The byte held back at step 3. */
  function Held(step: nat): (h: seq<Byte>) {
    if step == 3 then [3] else []
  }

  lemma CopyOne(ret: seq<Byte>, s: seq<Byte>, start: nat, i: nat)
    requires start <= i < |s|
    ensures ret + s[start..i + 1] == ret + s[start..i] + [s[i]]
  {
  }

  lemma RemovedUnroll(plain: seq<Byte>, y: seq<Byte>, i: nat, step: nat)
    requires step <= 3 && i < |y|
    ensures plain + Removed(y[i..], step) == plain + Told(step, y[i]) + Removed(y[i + 1..], RemoveStep(step, y[i]))
  {
    assert y[i..][1..] == y[i + 1..];
  }

  /** The loop state: `plain` is the plain form of the bytes seen so far, what is held back aside. */
  ghost predicate Removing(y: seq<Byte>, ret: seq<Byte>, start: nat, i: nat, step: nat, plain: seq<Byte>) {
    && step <= 3 && start + step <= i <= |y|
    && (step < 3 ==> forall k :: i - step <= k < i ==> y[k] == 0)
    && (step == 3 ==> y[i - 3] == 0 && y[i - 2] == 0 && y[i - 1] == 3)
    && ret + y[start..i] == plain + Held(step)
    && plain + Removed(y[i..], step) == Removed(y, 0)
  }

  lemma RemovingKeeps(y: seq<Byte>, ret: seq<Byte>, start: nat, i: nat, step: nat, plain: seq<Byte>)
    requires i < |y| && Removing(y, ret, start, i, step, plain) && !(step == 3 && y[i] <= 3)
    ensures Removing(y, ret, start, i + 1, RemoveStep(step, y[i]), plain + Told(step, y[i]))
  {
    RemovedUnroll(plain, y, i, step);
    CopyOne(ret, y, start, i);
  }

  /** Copying up to the two zeros, and then the zeros and the new byte, skips the byte held back. */
  lemma RemovingDrops(y: seq<Byte>, ret: seq<Byte>, start: nat, i: nat, plain: seq<Byte>)
    requires i < |y| && Removing(y, ret, start, i, 3, plain) && y[i] <= 3
    ensures Removing(y, ret + y[start..i - 3] + [0, 0, y[i]], i + 1, i + 1, 0, plain + [y[i]])
  {
    RemovedUnroll(plain, y, i, 3);
    assert y[start..i] == y[start..i - 3] + [0, 0, 3];
    var copied := ret + y[start..i - 3] + [0, 0];
    assert copied + [3] == plain + [3];
    assert copied == (copied + [3])[..|copied|] == plain;
    assert ret + y[start..i - 3] + [0, 0, y[i]] + y[i + 1..i + 1] == copied + [y[i]];
  }

  method AntiCompetitionRemove(nalu: seq<Byte>) returns (ret: seq<Byte>)
    ensures ret == Removed(nalu, 0)
  {
    ret := [];
    var step, start, i := 0, 0, 0;
    ghost var plain: seq<Byte> := [];
    while i < |nalu|
      invariant i <= |nalu|
      invariant Removing(nalu, ret, start, i, step, plain)
    {
      var b := nalu[i];
      if step == 3 {
        if b <= 3 {
          RemovingDrops(nalu, ret, start, i, plain);
          ret := ret + nalu[start..i - 3];
          ret := ret + [0, 0, b];
          start := i + 1;
        } else {
          RemovingKeeps(nalu, ret, start, i, step, plain);
        }
        plain := plain + Told(3, b);
        step := 0;
      } else {
        RemovingKeeps(nalu, ret, start, i, step, plain);
        plain := plain + Told(step, b);
        step := if step == 2 && b == 3 then 3 else if b == 0 && step < 2 then step + 1 else 0;
      }
      i := i + 1;
    }
    assert nalu[i..] == [] && nalu[start..] == nalu[start..i];
    ret := ret + nalu[start..];
  }

  // ---------------------------------------------------------------- round trip and size

  lemma {:induction false} RemoveUndoesAddAt(x: seq<Byte>, step: nat)
    requires step <= 2
    ensures Removed(Added(x, step), step) == x
  {
    if x != [] {
      var b := x[0];
      if step == 2 && b <= 3 {
        RemoveUndoesAddAt(x[1..], 0);
        assert ([3, b] + Added(x[1..], 0))[1..] == [b] + Added(x[1..], 0);
        assert ([b] + Added(x[1..], 0))[1..] == Added(x[1..], 0);
      } else {
        RemoveUndoesAddAt(x[1..], AddStep(step, b));
        assert ([b] + Added(x[1..], AddStep(step, b)))[1..] == Added(x[1..], AddStep(step, b));
      }
    }
  }

  /** Removing the prevention bytes undoes adding them, for every byte string. */
  lemma RemoveUndoesAdd(x: seq<Byte>)
    ensures Removed(Added(x, 0), 0) == x
  {
    RemoveUndoesAddAt(x, 0);
  }

  lemma {:induction false} AddedSizeAt(x: seq<Byte>, step: nat)
    requires step <= 2
    ensures |x| <= |Added(x, step)| && 3 * |Added(x, step)| <= 4 * |x| + step
  {
    if x != [] {
      AddedSizeAt(x[1..], if step == 2 && x[0] <= 3 then 0 else AddStep(step, x[0]));
    }
  }

  /** Protection grows a NALU by a third at most. */
  lemma AddedSize(x: seq<Byte>)
    ensures |x| <= |Added(x, 0)| && 3 * |Added(x, 0)| <= 4 * |x|
  {
    AddedSizeAt(x, 0);
  }

  /** Among all the byte strings that a decoder would unprotect to x, the protected form of x is the
      longest, and no other is as long. */
  lemma {:induction false} AddedIsTheLongestPreimage(y: seq<Byte>, x: seq<Byte>, step: nat)
    requires step <= 2 && Removed(y, step) == x
    ensures |y| <= |Added(x, step)|
    ensures |y| == |Added(x, step)| ==> y == Added(x, step)
    decreases |y|
  {
    if y != [] {
      if step == 2 && y[0] == 3 {
        var z := y[1..];
        if z == [] {
          assert x == [3];
        } else {
          var p := Removed(z[1..], 0);
          AddedIsTheLongestPreimage(z[1..], p, 0);
          assert y == [3, z[0]] + z[1..];
          if z[0] <= 3 {
            assert x == [z[0]] + p && x[1..] == p;
          } else {
            assert x == [3, z[0]] + p && x[1..] == [z[0]] + p && x[1..][1..] == p;
          }
        }
      } else {
        var p := Removed(y[1..], AddStep(step, y[0]));
        AddedIsTheLongestPreimage(y[1..], p, AddStep(step, y[0]));
        assert x == [y[0]] + p && x[1..] == p && y == [y[0]] + y[1..];
      }
    }
  }

  /** The prevention byte is a three, put before a byte of at most three that follows two zeros. */
  lemma ThreeIsInserted(b: Byte)
    ensures Added([0, 0, b], 0) == if b <= 3 then [0, 0, 3, b] else [0, 0, b]
  {
    var x: seq<Byte> := [0, 0, b];
    assert x[1..] == [0, b] && x[1..][1..] == [b] && [b][1..] == [];
    assert Added([b], 2) == if b <= 3 then [3, b] else [b];
    assert Added([0, b], 1) == [0] + Added([b], 2);
  }

  // ---------------------------------------------------------------- what stays unprotected

  /** Two zeros and a byte of at most two: the pattern that protection is there to prevent. */
  predicate Forbidden(s: seq<Byte>, i: nat)
    requires i + 2 < |s|
  {
    s[i] == 0 && s[i + 1] == 0 && s[i + 2] <= 2
  }

  ghost predicate Protected(s: seq<Byte>) {
    forall i :: 0 <= i < |s| - 2 ==> !Forbidden(s, i)
  }

  /** Four zeros and a byte of at most two: the hole left by resetting the count after an insertion. */
  predicate IsHole(x: seq<Byte>, i: nat)
    requires i + 4 < |x|
  {
    x[i] == 0 && x[i + 1] == 0 && x[i + 2] == 0 && x[i + 3] == 0 && x[i + 4] <= 2
  }

  ghost predicate NoHole(x: seq<Byte>) {
    forall i :: 0 <= i < |x| - 4 ==> !IsHole(x, i)
  }

  function Zeros(n: nat): (z: seq<Byte>)
    ensures |z| == n && forall k :: 0 <= k < n ==> z[k] == 0
  {
    seq(n, _ => 0)
  }

  /** No pattern reaches across a byte that is not zero. */
  lemma PatternsSplit(p: seq<Byte>, t: seq<Byte>)
    requires p != [] && p[|p| - 1] != 0
    ensures Protected(p + t) <==> Protected(p) && Protected(t)
    ensures NoHole(p + t) <==> NoHole(p) && NoHole(t)
  {
    var s := p + t;
    if Protected(s) {
      forall i | 0 <= i < |p| - 2 ensures !Forbidden(p, i) { assert !Forbidden(s, i); }
      forall i | 0 <= i < |t| - 2 ensures !Forbidden(t, i) { assert !Forbidden(s, |p| + i); }
    }
    if Protected(p) && Protected(t) {
      forall i | 0 <= i < |s| - 2 ensures !Forbidden(s, i) {
        if i + 2 < |p| { assert !Forbidden(p, i); } else if i >= |p| { assert !Forbidden(t, i - |p|); }
      }
    }
    if NoHole(s) {
      forall i | 0 <= i < |p| - 4 ensures !IsHole(p, i) { assert !IsHole(s, i); }
      forall i | 0 <= i < |t| - 4 ensures !IsHole(t, i) { assert !IsHole(s, |p| + i); }
    }
    if NoHole(p) && NoHole(t) {
      forall i | 0 <= i < |s| - 4 ensures !IsHole(s, i) {
        if i + 4 < |p| { assert !IsHole(p, i); } else if i >= |p| { assert !IsHole(t, i - |p|); }
      }
    }
  }

  /** The output written for one byte when `step` zeros have been counted. */
  function Chunk(step: nat, b: Byte): (c: seq<Byte>)
    ensures c != [] && c[|c| - 1] == b
  {
    if step == 2 && b <= 3 then [3, b] else [b]
  }

  lemma AddedChunk(z: seq<Byte>, x: seq<Byte>, step: nat)
    requires x != [] && step <= 2
    ensures z + Added(x, step) == z + Chunk(step, x[0]) + Added(x[1..], AddStep(step, x[0]))
  {
  }

  lemma ZerosMore(n: nat, t: seq<Byte>)
    ensures Zeros(n) + [0] + t == Zeros(n + 1) + t
    ensures Zeros(0) + t == t
  {
  }

  /** How the scan stands after a run of at most four zeros: the zeros counted, and the zeros that
      end the output. */
  predicate Stands(r: nat, step: nat, z: nat) {
    (r <= 2 && step == r && z == r) || (3 <= r <= 4 && step == r - 3 && z == r - 2)
  }

  /** What a byte that is not zero leaves behind in the output and in the input. */
  lemma FrontIsProtected(r: nat, step: nat, z: nat, b: Byte)
    requires Stands(r, step, z) && b != 0
    ensures Protected(Zeros(z) + Chunk(step, b)) <==> !(r == 4 && b <= 2)
    ensures NoHole(Zeros(r) + [b]) <==> !(r == 4 && b <= 2)
  {
    var front, frontIn := Zeros(z) + Chunk(step, b), Zeros(r) + [b];
    assert front[|front| - 1] == b && frontIn[|frontIn| - 1] == b;
    if r == 4 {
      assert front == [0, 0, b] && frontIn == [0, 0, 0, 0, b];
      assert Forbidden(front, 0) <==> b <= 2;
      assert IsHole(frontIn, 0) <==> b <= 2;
    }
  }

  lemma ProtectedAtNonZero(x: seq<Byte>, r: nat, step: nat, z: nat)
    requires Stands(r, step, z) && x != [] && x[0] != 0
    requires Protected(Added(x[1..], 0)) <==> NoHole(x[1..])
    ensures Protected(Zeros(z) + Added(x, step)) <==> NoHole(Zeros(r) + x)
  {
    var b := x[0];
    var front, frontIn := Zeros(z) + Chunk(step, b), Zeros(r) + [b];
    AddedChunk(Zeros(z), x, step);
    assert Zeros(r) + x == frontIn + x[1..];
    assert front[|front| - 1] == b && frontIn[|frontIn| - 1] == b;
    PatternsSplit(front, Added(x[1..], 0));
    PatternsSplit(frontIn, x[1..]);
    FrontIsProtected(r, step, z, b);
  }

  lemma {:induction false} ProtectedAt(x: seq<Byte>, r: nat, step: nat, z: nat)
    requires Stands(r, step, z)
    ensures Protected(Zeros(z) + Added(x, step)) <==> NoHole(Zeros(r) + x)
    decreases |x|, 1
  {
    if x != [] {
      if x[0] != 0 {
        ProtectedAt(x[1..], 0, 0, 0);
        ZerosMore(0, Added(x[1..], 0));
        ZerosMore(0, x[1..]);
        ProtectedAtNonZero(x, r, step, z);
      } else if r == 4 {
        assert Forbidden(Zeros(z) + Added(x, step), 0) && IsHole(Zeros(r) + x, 0);
      } else {
        ProtectedAtZero(x, r, step, z);
      }
    }
  }

  lemma InsertionIsProtected(more: seq<Byte>)
    ensures Protected(Zeros(2) + Chunk(2, 0) + more) <==> Protected(Zeros(1) + more)
  {
    var p: seq<Byte> := [0, 0, 3];
    assert Zeros(2) + Chunk(2, 0) + more == p + (Zeros(1) + more);
    PatternsSplit(p, Zeros(1) + more);
    assert Protected(p);
  }

  lemma ZeroStep(x: seq<Byte>, step: nat, z: nat, more: seq<Byte>)
    requires x != [] && x[0] == 0 && step <= 2 && more == Added(x[1..], AddStep(step, 0))
    ensures step < 2 ==> Zeros(z) + Added(x, step) == Zeros(z + 1) + more
    ensures step == 2 ==> Zeros(z) + Added(x, step) == Zeros(z) + Chunk(2, 0) + more
  {
    AddedChunk(Zeros(z), x, step);
    ZerosMore(z, more);
  }

  lemma ZeroMoves(x: seq<Byte>, r: nat)
    requires x != [] && x[0] == 0
    ensures Zeros(r) + x == Zeros(r + 1) + x[1..]
  {
    ZerosMore(r, x[1..]);
    assert Zeros(r) + x == Zeros(r) + [0] + x[1..];
  }

  lemma ProtectedAtZero(x: seq<Byte>, r: nat, step: nat, z: nat)
    requires Stands(r, step, z) && r < 4 && x != [] && x[0] == 0
    ensures Protected(Zeros(z) + Added(x, step)) <==> NoHole(Zeros(r) + x)
    decreases |x|, 0
  {
    ZeroStep(x, step, z, Added(x[1..], AddStep(step, 0)));
    ZeroMoves(x, r);
    if r == 2 {
      ProtectedAt(x[1..], 3, 0, 1);
      InsertionIsProtected(Added(x[1..], 0));
    } else {
      ProtectedAt(x[1..], r + 1, step + 1, z + 1);
    }
  }

  /** The output is free of the forbidden pattern exactly if the input never has four zeros followed
      by a byte of at most two. */
  lemma AddProtectsExactlyWithoutHoles(x: seq<Byte>)
    ensures Protected(Added(x, 0)) <==> NoHole(x)
  {
    ProtectedAt(x, 0, 0, 0);
    assert Zeros(0) + Added(x, 0) == Added(x, 0) && Zeros(0) + x == x;
  }

  /** The shortest input on which protection fails. */
  lemma FiveZerosStayUnprotected()
    ensures !Protected(Added([0, 0, 0, 0, 0], 0))
  {
    assert IsHole([0, 0, 0, 0, 0], 0);
    AddProtectsExactlyWithoutHoles([0, 0, 0, 0, 0]);
  }
}
