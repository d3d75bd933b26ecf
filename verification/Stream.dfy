/** The parties of a path and the live stream that a ready path offers (internal/core/stream.go). */
module Streams {

  /** A reader is known to a path by its identity; only RTSP sessions are served by the RTSP
      library directly, every other reader is fed through the stream's own map. */
  datatype Reader = Reader(id: nat, isRTSP: bool)

  /** The observable part of a stream: its identity and the non-RTSP readers it forwards to. */
  datatype StreamView = StreamView(id: nat, forward: set<Reader>)

  function NonRTSP(rs: set<Reader>): (s: set<Reader>)
    ensures s <= rs
  {
    set r | r in rs && !r.isRTSP
  }

  /** Frames delivered to one reader. */
  ghost function Deliveries(log: seq<Reader>, r: Reader): (n: nat)
    ensures n > 0 <==> r in log
  {
    if log == [] then 0
    else Deliveries(log[..|log| - 1], r) + (if log[|log| - 1] == r then 1 else 0)
  }

  class Stream {
    const id: nat
    var nonRTSP: set<Reader>
    var closed: bool

    constructor (id: nat)
      ensures this.id == id && nonRTSP == {} && !closed
    {
      this.id := id;
      nonRTSP := {};
      closed := false;
    }

    ghost function View(): (v: StreamView)
      reads this
    {
      StreamView(id, nonRTSP)
    }

    method Close()
      modifies this
      ensures closed && View() == StreamView(id, {})
    {
      nonRTSP := {};
      closed := true;
    }

    // Storing into the map of a closed stream would store into a nil map.
    method ReaderAdd(r: Reader)
      requires !closed
      modifies this
      ensures closed == old(closed)
      ensures nonRTSP == old(nonRTSP) + NonRTSP({r})
    {
      if !r.isRTSP {
        nonRTSP := nonRTSP + {r};
      }
      assert NonRTSP({r}) == if r.isRTSP then {} else {r};
    }

    method ReaderRemove(r: Reader)
      modifies this
      ensures closed == old(closed)
      ensures nonRTSP == old(nonRTSP) - NonRTSP({r})
    {
      if !r.isRTSP {
        nonRTSP := nonRTSP - {r};
      }
      assert NonRTSP({r}) == if r.isRTSP then {} else {r};
    }

    /** Forwards one frame. Each reader of the forwarding set gets the frame exactly once, and
        nobody else gets it; a closed stream reaches nobody. */
    method OnFrame() returns (delivered: seq<Reader>)
      ensures forall r :: Deliveries(delivered, r) == if r in nonRTSP then 1 else 0
    {
      delivered := [];
      var todo := nonRTSP;
      while todo != {}
        invariant todo <= nonRTSP
        invariant forall r :: Deliveries(delivered, r) == if r in nonRTSP - todo then 1 else 0
        decreases todo
      {
        var r :| r in todo;
        assert (delivered + [r])[..|delivered|] == delivered;
        delivered := delivered + [r];
        todo := todo - {r};
      }
    }
  }
}
