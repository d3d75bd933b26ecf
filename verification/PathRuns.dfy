/** What holds over whole runs of a path's event loop. */
module PathRuns {
  import opened Common
  import opened Streams
  import opened PathModel
  import opened PathInvariants

  // ---------------------------------------------------------------- runs

  function Run(c: PathConf, evs: seq<Event>): PathState {
    if evs == [] then Start(c) else Next(c, Run(c, evs[..|evs| - 1]), evs[|evs| - 1])
  }

  /** Every message met a running loop and was one the surrounding code may send. */
  ghost predicate Possible(c: PathConf, evs: seq<Event>) {
    evs == [] ||
    (var before := Run(c, evs[..|evs| - 1]);
     Possible(c, evs[..|evs| - 1]) && before.running && Allowed(c, before, evs[|evs| - 1]))
  }

  /** Every prefix of a possible run is possible, and its next message may come. */
  lemma {:induction false} PossibleSoFar(c: PathConf, evs: seq<Event>, n: nat)
    requires Possible(c, evs) && n <= |evs|
    ensures Possible(c, evs[..n])
  {
    if n < |evs| {
      PossibleSoFar(c, evs[..|evs| - 1], n);
      assert evs[..|evs| - 1][..n] == evs[..n];
    } else {
      assert evs[..n] == evs;
    }
  }

  // ---------------------------------------------------------------- whole-run safety

  ghost predicate Ended(s: PathState) {
    && !s.running
    && !s.control.readyTimer && !s.control.closeTimer && !s.control.command
    && s.audience.count == 0
    && (s.audience.stream.Some? ==> s.audience.stream.value.forward == {})
  }

  lemma NextIsSafe(c: PathConf, s: PathState, ev: Event)
    requires Checked(c) && Inv(c, s) && Allowed(c, s, ev)
    ensures Inv(c, Handle(c, s, ev)) && Ended(Terminate(Handle(c, s, ev)))
  {
    HandleKeepsInv(c, s, ev);
    EmptiedInv(Handle(c, s, ev).audience);
  }

  /** In every reachable state the loop either runs with its invariant intact, or has ended with
      both timers stopped, the command stopped, no reader counted and no reader forwarded to. */
  lemma {:induction false} RunsAreSafe(c: PathConf, evs: seq<Event>)
    requires Checked(c) && Possible(c, evs)
    ensures if Run(c, evs).running then Inv(c, Run(c, evs)) else Ended(Run(c, evs))
  {
    if evs == [] {
      assert Playing(map[]) == {};
    } else {
      var n := |evs| - 1;
      RunsAreSafe(c, evs[..n]);
      BeginKeepsInv(c, Run(c, evs[..n]), evs[n]);
      NextIsSafe(c, Begin(Run(c, evs[..n])), evs[n]);
    }
  }

  /** The reading of the invariant that the operators see: an on-demand path is in exactly the state
      that its source and readers call for, and its timers follow that state. */
  lemma OnDemandStateIsDetermined(c: PathConf, evs: seq<Event>)
    requires Checked(c) && IsOnDemand(c) && Possible(c, evs) && Run(c, evs).running
    ensures var s := Run(c, evs);
            && (s.feed.ready <==> s.audience.stream.Some?)
            && (s.feed.ready <==> s.control.state in {Ready, Closing})
            && (s.control.state == Ready <==> s.feed.ready && s.audience.readers != map[])
            && (s.control.state == Closing <==> s.feed.ready && s.audience.readers == map[])
            && (s.control.readyTimer <==> s.control.state == WaitingReady)
            && (s.control.closeTimer <==> s.control.state == Closing)
            && (s.audience.readers != map[] ==> s.feed.ready)
            && (Waiting(s) != multiset{} ==> s.control.state == WaitingReady && s.control.readyTimer)
  {
    RunsAreSafe(c, evs);
  }

  /** The share of the reader statistics is the number of playing readers, and the stream forwards to
      exactly the playing readers that are not RTSP sessions. */
  lemma ReadersAreCounted(c: PathConf, evs: seq<Event>)
    requires Checked(c) && Possible(c, evs)
    ensures var a := Run(c, evs).audience;
            if Run(c, evs).running then
              && a.count == |Playing(a.readers)|
              && (a.stream.Some? ==> forall r :: r in a.stream.value.forward <==> r in Playing(a.readers) && !r.isRTSP)
            else a.count == 0
  {
    RunsAreSafe(c, evs);
  }

  // ---------------------------------------------------------------- requests and replies

  function Ids(replies: seq<Reply>): (ids: seq<ReqId>) {
    if replies == [] then [] else Ids(replies[..|replies| - 1]) + [replies[|replies| - 1].req]
  }

  function Answered(s: PathState): multiset<ReqId> {
    multiset(Ids(s.books.replies))
  }

  function Waiting(s: PathState): multiset<ReqId> {
    if s.running then multiset(s.books.describes) + multiset(SetupIds(s.books.setups)) else multiset{}
  }

  function RequestOf(ev: Event): multiset<ReqId> {
    if ev.ReadyTimerFires? || ev.CloseTimerFires? || ev.ContextDone? then multiset{} else multiset{ev.req}
  }

  function Requests(evs: seq<Event>): multiset<ReqId> {
    if evs == [] then multiset{} else Requests(evs[..|evs| - 1]) + RequestOf(evs[|evs| - 1])
  }

  function Total(b: Books): multiset<ReqId> {
    multiset(Ids(b.replies)) + multiset(b.describes) + multiset(SetupIds(b.setups))
  }

  lemma {:induction false} IdsConcat(a: seq<Reply>, b: seq<Reply>)
    ensures Ids(a + b) == Ids(a) + Ids(b)
  {
    if b == [] {
      assert a + b == a;
    } else {
      IdsConcat(a, b[..|b| - 1]);
      assert (a + b)[..|a + b| - 1] == a + b[..|b| - 1];
    }
  }

  lemma {:induction false} AnswerAllIds(reqs: seq<ReqId>, a: Answer)
    ensures Ids(AnswerAll(reqs, a)) == reqs
  {
    if reqs != [] {
      AnswerAllIds(reqs[..|reqs| - 1], a);
      assert AnswerAll(reqs, a)[..|reqs| - 1] == AnswerAll(reqs[..|reqs| - 1], a);
    }
  }

  lemma FlushTotal(b: Books, a: Answer)
    ensures multiset(Ids(Flush(b, a).replies)) == Total(b)
    ensures Total(Flush(b, a)) == Total(b)
  {
    IdsConcat(b.replies + AnswerAll(b.describes, a), AnswerAll(SetupIds(b.setups), a));
    IdsConcat(b.replies, AnswerAll(b.describes, a));
    AnswerAllIds(b.describes, a);
    AnswerAllIds(SetupIds(b.setups), a);
  }

  lemma WriteTotal(b: Books, req: ReqId, a: Answer)
    ensures Total(Write(b, req, a)) == Total(b) + multiset{req}
  {
    IdsConcat(b.replies, [Reply(req, a)]);
    assert Ids([Reply(req, a)]) == [req];
  }

  lemma QueueTotal(b: Books, req: ReqId, r: Reader)
    ensures Total(b.(describes := b.describes + [req])) == Total(b) + multiset{req}
    ensures Total(b.(setups := b.setups + [SetupReq(req, r)])) == Total(b) + multiset{req}
  {
    assert (b.setups + [SetupReq(req, r)])[..|b.setups|] == b.setups;
  }

  /** The only entries a message can make: it is answered at once, after everybody who waited got
      the same answer, or it is put in a queue; only the ready timer answers without being asked. */
  ghost predicate Entered(b: Books, ev: Event, t: Books) {
    match ev
    case ReadyTimerFires => t == Flush(b, TimedOut)
    case CloseTimerFires => t == b
    case ContextDone => t == b
    case _ =>
      || (exists a :: t == Write(b, ev.req, a))
      || (exists a :: t == Write(Flush(b, a), ev.req, a))
      || t == b.(describes := b.describes + [ev.req])
      || (exists r :: t == b.(setups := b.setups + [SetupReq(ev.req, r)]))
  }

  lemma EnteredTotal(b: Books, ev: Event, t: Books)
    requires Entered(b, ev, t)
    ensures Total(t) == Total(b) + RequestOf(ev)
  {
    if ev.ReadyTimerFires? {
      FlushTotal(b, TimedOut);
    } else if !ev.CloseTimerFires? && !ev.ContextDone? {
      if a :| t == Write(b, ev.req, a) {
        WriteTotal(b, ev.req, a);
      } else if a :| t == Write(Flush(b, a), ev.req, a) {
        FlushTotal(b, a);
        WriteTotal(Flush(b, a), ev.req, a);
      } else if t == b.(describes := b.describes + [ev.req]) {
        QueueTotal(b, ev.req, Reader(0, false));
      } else {
        var r :| t == b.(setups := b.setups + [SetupReq(ev.req, r)]);
        QueueTotal(b, ev.req, r);
      }
    }
  }

  lemma CloseOnDemandBooks(c: PathConf, s: PathState)
    ensures CloseOnDemand(c, s).books == s.books && CloseOnDemand(c, s).running == s.running
    ensures RemovePublisher(c, s).books == s.books && RemovePublisher(c, s).running == s.running
    ensures LoseSource(c, s).books == s.books && LoseSource(c, s).running == s.running
  {
  }

  lemma QueriesEnter(c: PathConf, s: PathState, ev: Event)
    requires ev.Describe? || ev.SetupPlay?
    ensures Handle(c, s, ev).running == s.running
    ensures Entered(s.books, ev, Handle(c, s, ev).books)
  {
    var t := Handle(c, s, ev).books;
    if t.replies != s.books.replies {
      assert t == Write(s.books, ev.req, t.replies[|s.books.replies|].answer);
    } else if ev.SetupPlay? {
      assert t == s.books.(setups := s.books.setups + [SetupReq(ev.req, ev.reader)]);
    }
  }

  lemma ReadinessEnters(c: PathConf, s: PathState, ev: Event)
    requires ev.StaticReady? || ev.Record?
    ensures Handle(c, s, ev).running == s.running
    ensures Entered(s.books, ev, Handle(c, s, ev).books)
  {
    var s1 := if ev.Record? then CountPublisher(s, 1) else s;
    var a := WithStream(s.feed.streams);
    if ev.Record? && s.feed.source != Publisher(ev.publisher) {
      assert Handle(c, s, ev).books == Write(s.books, ev.req, NotAssigned);
    } else {
      assert Handle(c, s, ev).books == Write(BecomeReady(c, s1).books, ev.req, a);
    }
  }

  lemma AnnounceEnters(c: PathConf, s: PathState, ev: Event)
    requires ev.Announce?
    ensures Handle(c, s, ev).running == s.running
    ensures Entered(s.books, ev, Handle(c, s, ev).books)
  {
    CloseOnDemandBooks(c, CloseSource(s));
    var t := Handle(c, s, ev).books;
    assert t == Write(s.books, ev.req, t.replies[|s.books.replies|].answer);
  }

  lemma LossEnters(c: PathConf, s: PathState, ev: Event)
    requires ev.StaticNotReady? || ev.PublisherRemove? || ev.PublisherPause?
    ensures Handle(c, s, ev).running == s.running
    ensures Entered(s.books, ev, Handle(c, s, ev).books)
  {
    CloseOnDemandBooks(c, s);
    CloseOnDemandBooks(c, CountPublisher(s, -1));
    assert Handle(c, s, ev).books == Write(s.books, ev.req, Done);
  }

  lemma TimersEnter(c: PathConf, s: PathState, ev: Event)
    requires ev.ReadyTimerFires? || ev.CloseTimerFires?
    ensures Handle(c, s, ev).running == s.running
    ensures Entered(s.books, ev, Handle(c, s, ev).books)
  {
    CloseOnDemandBooks(c, s.(control := s.control.(closeTimer := false)));
    CloseOnDemandBooks(c, s.(control := s.control.(readyTimer := false), books := Flush(s.books, TimedOut)));
  }

  lemma HandleEnters(c: PathConf, s: PathState, ev: Event)
    ensures Handle(c, s, ev).running == s.running
    ensures Entered(s.books, ev, Handle(c, s, ev).books)
  {
    match ev
    case Describe(_) => QueriesEnter(c, s, ev);
    case SetupPlay(_, _) => QueriesEnter(c, s, ev);
    case StaticReady(_) => ReadinessEnters(c, s, ev);
    case Record(_, _) => ReadinessEnters(c, s, ev);
    case Announce(_, _) => AnnounceEnters(c, s, ev);
    case StaticNotReady(_, _) => LossEnters(c, s, ev);
    case PublisherRemove(_, _) => LossEnters(c, s, ev);
    case PublisherPause(_, _) => LossEnters(c, s, ev);
    case ReadyTimerFires => TimersEnter(c, s, ev);
    case CloseTimerFires => TimersEnter(c, s, ev);
    case ReaderRemove(req, _) => assert Handle(c, s, ev).books == Write(s.books, req, Done);
    case PlayReader(req, _) => assert Handle(c, s, ev).books == Write(s.books, req, Done);
    case PauseReader(req, _) => assert Handle(c, s, ev).books == Write(s.books, req, Done);
    case ContextDone =>
  }

  lemma TerminateConserves(t: PathState)
    requires t.running
    ensures Answered(t) + Waiting(t) == Total(t.books)
    ensures Answered(Terminate(t)) == Total(t.books) && Waiting(Terminate(t)) == multiset{}
  {
    FlushTotal(t.books, Terminated);
  }

  /** Each message adds its own request to the books; nothing is lost and nothing answered twice. */
  lemma NextConserves(c: PathConf, s: PathState, ev: Event, t: PathState)
    requires s.running && t == Handle(c, Begin(s), ev)
    ensures Answered(Next(c, s, ev)) + Waiting(Next(c, s, ev)) == Answered(s) + Waiting(s) + RequestOf(ev)
  {
    HandleEnters(c, Begin(s), ev);
    EnteredTotal(s.books, ev, t.books);
    TerminateConserves(s);
    TerminateConserves(t);
  }

  /** Every message met a running loop. */
  predicate Met(c: PathConf, evs: seq<Event>) {
    evs == [] || (Met(c, evs[..|evs| - 1]) && Run(c, evs[..|evs| - 1]).running)
  }

  lemma {:induction false} PossibleIsMet(c: PathConf, evs: seq<Event>)
    requires Possible(c, evs)
    ensures Met(c, evs)
  {
    if evs != [] { PossibleIsMet(c, evs[..|evs| - 1]); }
  }

  /** Over any run, with no assumption about its messages, what was asked is what was answered plus what
      still waits; once the loop has ended, every request was answered exactly once. */
  lemma {:induction false} RequestsAreConserved(c: PathConf, evs: seq<Event>)
    requires Met(c, evs)
    ensures Answered(Run(c, evs)) + Waiting(Run(c, evs)) == Requests(evs)
    ensures !Run(c, evs).running ==> Answered(Run(c, evs)) == Requests(evs)
  {
    if evs != [] {
      var n := |evs| - 1;
      RequestsAreConserved(c, evs[..n]);
      NextConserves(c, Run(c, evs[..n]), evs[n], Handle(c, Begin(Run(c, evs[..n])), evs[n]));
    }
  }
}
