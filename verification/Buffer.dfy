/** A buffer with one writer and any number of readers, each with its own position
    (internal/hls/multiaccessbuffer.go). Each locked region is one atomic step. */
module Buffer {
  import opened Common
  import opened Bytes

  /** What a read returns; Waiting stands for a reader that is put to sleep until the next broadcast, when
      it goes on inside the same read. */
  datatype Outcome = Eof | Waiting | Data(bytes: seq<Byte>)

  /** What a read does from a position; a woken reader goes on behind the check for the end. */
  function OutcomeAt(buf: seq<Byte>, closed: bool, pos: nat, capacity: nat, woken: bool): Outcome {
    if pos < |buf| then Data(buf[pos..pos + Min(capacity, |buf| - pos)])
    else if !closed then Waiting
    else if woken then Data([])
    else Eof
  }

  class MultiAccessBuffer {
    var buf: seq<Byte>
    var closed: bool
    var writePos: nat

    constructor ()
      ensures Valid() && buf == [] && !closed
    {
      buf := [];
      closed := false;
      writePos := 0;
    }

    ghost predicate Valid()
      reads this
    {
      writePos == |buf|
    }

    method Close()
      requires Valid()
      modifies this
      ensures Valid() && closed && buf == old(buf)
    {
      closed := true;
    }

    method Write(p: seq<Byte>) returns (n: nat)
      requires Valid()
      modifies this
      ensures Valid() && n == |p| && closed == old(closed)
      ensures buf == old(buf) + p
    {
      buf := buf + p;
      n := |p|;
      writePos := writePos + n;
    }

    method NewReader() returns (r: Reader)
      requires Valid()
      ensures fresh(r) && r.m == this && r.Valid() && r.output == []
    {
      r := new Reader(this);
    }
  }

  class Reader {
    const m: MultiAccessBuffer
    var readPos: nat
    ghost var output: seq<Byte>  // everything this reader has returned

    constructor (m: MultiAccessBuffer)
      requires m.Valid()
      ensures this.m == m && output == [] && Valid()
    {
      this.m := m;
      readPos := 0;
      output := [];
    }

    /** What was returned so far is a prefix of what was written so far. */
    ghost predicate Valid()
      reads this, m
    {
      m.Valid() && output <= m.buf && readPos == |output|
    }

    /** The end of the stream is reported exactly when the buffer is closed and everything written so
        far has been returned; otherwise the reader gets the bytes that follow, as many as are there
        and fit, and sleeps only if there are none. */
    method Read(capacity: nat) returns (r: Outcome)
      requires Valid()
      modifies this
      ensures Valid() && r == OutcomeAt(m.buf, m.closed, old(readPos), capacity, false)
      ensures r == Eof <==> m.closed && old(output) == m.buf
      ensures r == Waiting <==> !m.closed && old(output) == m.buf
      ensures output == old(output) + (if r.Data? then r.bytes else [])
      ensures r.Data? ==> |r.bytes| == Min(capacity, |m.buf| - |old(output)|)
    {
      if m.closed && m.writePos == readPos {
        return Eof;
      }
      r := Resume(capacity);
    }

    /** The rest of a read, where a woken reader goes on. It does not look for the end again: if the
        buffer was closed with nothing more in it, the reader gets no bytes rather than the end. */
    method Resume(capacity: nat) returns (r: Outcome)
      requires Valid()
      modifies this
      ensures Valid() && r == OutcomeAt(m.buf, m.closed, old(readPos), capacity, true)
      ensures r != Eof
      ensures r == Waiting <==> !m.closed && old(output) == m.buf
      ensures output == old(output) + (if r.Data? then r.bytes else [])
      ensures r.Data? ==> |r.bytes| == Min(capacity, |m.buf| - |old(output)|)
    {
      if !m.closed && m.writePos == readPos {
        return Waiting;
      }
      var n := Min(capacity, |m.buf| - readPos);
      var bytes := m.buf[readPos..readPos + n];
      readPos := readPos + n;
      output := output + bytes;
      return Data(bytes);
    }
  }

  // ---------------------------------------------------------------- all interleavings

  type ReaderId = nat

  /** A read enters with Read, and goes on with Resume after it has slept. */
  datatype Event =
    | Write(p: seq<Byte>)
    | Close
    | Read(reader: ReaderId, capacity: nat)
    | Resume(reader: ReaderId, capacity: nat)

  /** A reader that has not read yet stands at position zero, whenever it is created. */
  datatype State = State(buf: seq<Byte>, closed: bool, positions: map<ReaderId, nat>)

  function Position(s: State, r: ReaderId): nat {
    if r in s.positions then s.positions[r] else 0
  }

  predicate Reads(ev: Event) {
    ev.Read? || ev.Resume?
  }

  function OutcomeOf(s: State, ev: Event): Outcome
    requires Reads(ev)
  {
    OutcomeAt(s.buf, s.closed, Position(s, ev.reader), ev.capacity, ev.Resume?)
  }

  function Next(s: State, ev: Event): State {
    if Reads(ev) then
      var o := OutcomeOf(s, ev);
      if o.Data? then s.(positions := s.positions[ev.reader := Position(s, ev.reader) + |o.bytes|]) else s
    else if ev.Close? then s.(closed := true)
    else s.(buf := s.buf + ev.p)
  }

  function Run(evs: seq<Event>): State {
    if evs == [] then State([], false, map[]) else Next(Run(evs[..|evs| - 1]), evs[|evs| - 1])
  }

  /** All bytes written, in order. */
  function Written(evs: seq<Event>): seq<Byte> {
    if evs == [] then []
    else Written(evs[..|evs| - 1]) + (if evs[|evs| - 1].Write? then evs[|evs| - 1].p else [])
  }

  /** All bytes returned to one reader, in order. */
  function Output(evs: seq<Event>, r: ReaderId): seq<Byte> {
    if evs == [] then []
    else Output(evs[..|evs| - 1], r) + Returned(Run(evs[..|evs| - 1]), evs[|evs| - 1], r)
  }

  function Returned(s: State, ev: Event, r: ReaderId): seq<Byte> {
    if Reads(ev) && ev.reader == r && OutcomeOf(s, ev).Data? then OutcomeOf(s, ev).bytes else []
  }

  lemma NextKeepsPrefix(s: State, ev: Event, r: ReaderId, output: seq<Byte>)
    requires output <= s.buf && Position(s, r) == |output|
    ensures s.buf <= Next(s, ev).buf
    ensures output + Returned(s, ev, r) <= Next(s, ev).buf
    ensures Position(Next(s, ev), r) == |output + Returned(s, ev, r)|
  {
    if Reads(ev) && ev.reader == r && OutcomeOf(s, ev).Data? {
      var n := Min(ev.capacity, |s.buf| - |output|);
      assert s.buf[..|output| + n] == s.buf[..|output|] + s.buf[|output|..|output| + n];
    }
  }

  /** Whatever the interleaving, each reader's output is a prefix of everything written. */
  lemma {:induction false} OutputIsPrefix(evs: seq<Event>, r: ReaderId)
    ensures Run(evs).buf == Written(evs)
    ensures Output(evs, r) <= Written(evs)
    ensures Position(Run(evs), r) == |Output(evs, r)|
  {
    if evs != [] {
      var n := |evs| - 1;
      OutputIsPrefix(evs[..n], r);
      NextKeepsPrefix(Run(evs[..n]), evs[n], r, Output(evs[..n], r));
      assert Next(Run(evs[..n]), evs[n]).buf == Written(evs);
    }
  }

  /** What a fresh read says of a reader that has returned `output` so far. */
  lemma FreshReadSays(buf: seq<Byte>, closed: bool, output: seq<Byte>, capacity: nat)
    requires output <= buf
    ensures var o := OutcomeAt(buf, closed, |output|, capacity, false);
            && (o == Eof <==> closed && output == buf) && (o == Waiting <==> !closed && output == buf)
            && (o.Data? ==> output + o.bytes <= buf && |o.bytes| >= Min(capacity, 1))
  {
  }

  /** At any time a reader is told the end exactly if the buffer is closed and its output is all that
      was written; it sleeps exactly if there is nothing new and the buffer is open; in every other
      case it gets at least one byte, if it has room for one. */
  lemma ReadsTellTheTruth(evs: seq<Event>, r: ReaderId, capacity: nat)
    ensures var o := OutcomeOf(Run(evs), Read(r, capacity));
            && (o == Eof <==> Close in evs && Output(evs, r) == Written(evs))
            && (o == Waiting <==> Close !in evs && Output(evs, r) == Written(evs))
            && (o.Data? ==> Output(evs, r) + o.bytes <= Written(evs) && |o.bytes| >= Min(capacity, 1))
  {
    OutputIsPrefix(evs, r);
    ClosedByClose(evs);
    FreshReadSays(Written(evs), Close in evs, Output(evs, r), capacity);
  }

  /** A reader that falls asleep before the buffer is closed wakes up to an empty read. */
  lemma CloseMeetsASleeper(r: ReaderId, capacity: nat)
    ensures OutcomeOf(Run([]), Read(r, capacity)) == Waiting
    ensures OutcomeOf(Run([Read(r, capacity), Close]), Resume(r, capacity)) == Data([])
  {
    var evs := [Read(r, capacity), Close];
    assert evs[..1] == [Read(r, capacity)] && [Read(r, capacity)][..0] == [];
    assert Run([Read(r, capacity)]) == Run([]);
  }

  /** A reader that has slept is never told the end; with room for a byte it gets none exactly if the
      buffer was closed with nothing new in it, and its next read then tells it the end. */
  lemma WokenReadersAreToldLater(evs: seq<Event>, r: ReaderId, capacity: nat)
    requires capacity > 0
    ensures var ev := Resume(r, capacity);
            var o := OutcomeOf(Run(evs), ev);
            && o != Eof
            && (o == Data([]) <==> Close in evs && Output(evs, r) == Written(evs))
            && (o == Data([]) ==> OutcomeOf(Next(Run(evs), ev), Read(r, capacity)) == Eof)
  {
    OutputIsPrefix(evs, r);
    ClosedByClose(evs);
  }

  lemma {:induction false} ClosedByClose(evs: seq<Event>)
    ensures Run(evs).closed <==> Close in evs
  {
    if evs != [] {
      ClosedByClose(evs[..|evs| - 1]);
      assert evs == evs[..|evs| - 1] + [evs[|evs| - 1]];
    }
  }
}
