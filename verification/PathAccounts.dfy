/** The publisher statistics, the life of sources and readers over whole runs, and the exact
    conditions under which the weaker-than-expected handlers meet their promises. */
module PathAccounts {
  import opened Common
  import opened Streams
  import opened PathModel
  import opened PathInvariants
  import opened PathRuns

  // ---------------------------------------------------------------- publishers

  function Publishing(s: PathState): (n: int) {
    if s.feed.ready && s.feed.source.Publisher? then 1 else 0
  }

  /** A ready publisher that is removed, overridden or paused while on-demand control is on takes the
      on-demand source down with it, and is counted out by both handlers. */
  predicate CountsTwice(c: PathConf, s: PathState, ev: Event) {
    && c.runOnDemand && s.feed.ready && s.feed.source.Publisher?
    && match ev
       case PublisherRemove(_, p) => s.feed.source == Publisher(p)
       case PublisherPause(_, p) => s.feed.source == Publisher(p)
       case Announce(_, _) => !c.disableOverride
       case _ => false
  }

  function DoubleCounts(c: PathConf, evs: seq<Event>): (n: nat) {
    if evs == [] then 0
    else DoubleCounts(c, evs[..|evs| - 1]) +
         (if CountsTwice(c, Run(c, evs[..|evs| - 1]), evs[|evs| - 1]) then 1 else 0)
  }

  lemma ClosingCounts(c: PathConf, s: PathState)
    requires c.kind.FromPublisher? && (s.feed.ready ==> s.feed.source.Publisher?)
    ensures CloseOnDemand(c, s).feed.count - Publishing(CloseOnDemand(c, s)) == s.feed.count - Publishing(s)
    ensures Publishing(CloseOnDemand(c, s)) == 0
    ensures PublisherLeaves(s).feed.count - Publishing(PublisherLeaves(s)) == s.feed.count - Publishing(s)
    ensures Publishing(PublisherLeaves(s)) == 0
  {
  }

  lemma HandleCounts(c: PathConf, s: PathState, ev: Event)
    requires Checked(c) && Inv(c, s) && Allowed(c, s, ev) && c.kind.FromPublisher?
    ensures var t := Handle(c, s, ev);
            t.feed.count - Publishing(t) == s.feed.count - Publishing(s) - (if CountsTwice(c, s, ev) then 1 else 0)
  {
    match ev
    case ReadyTimerFires =>
      ClosingCounts(c, s.(control := s.control.(readyTimer := false), books := Flush(s.books, TimedOut)));
    case CloseTimerFires => ClosingCounts(c, s.(control := s.control.(closeTimer := false)));
    case PublisherRemove(_, _) =>
      ClosingCounts(c, s);
      ClosingCounts(c, CountPublisher(s, -1));
    case PublisherPause(_, _) => ClosingCounts(c, CountPublisher(s, -1));
    case Announce(_, _) =>
      ClosingCounts(c, CloseSource(s));
      ClosingCounts(c, CountPublisher(CloseSource(s), -1));
    case Record(_, _) =>
    case StaticReady(_) =>
    case StaticNotReady(_, _) =>
    case Describe(_) =>
    case SetupPlay(_, _) =>
    case ReaderRemove(_, _) =>
    case PlayReader(_, _) =>
    case PauseReader(_, _) =>
    case ContextDone =>
  }

  lemma HandleKeepsNoCount(c: PathConf, s: PathState, ev: Event)
    requires Checked(c) && Inv(c, s) && Allowed(c, s, ev) && !c.kind.FromPublisher?
    ensures Handle(c, s, ev).feed.count == s.feed.count
  {
  }

  lemma NextCounts(c: PathConf, s: PathState, ev: Event)
    requires Checked(c) && Inv(c, s) && Allowed(c, s, ev)
    ensures var t := Handle(c, s, ev);
            t.feed.count - Publishing(t) == s.feed.count - Publishing(s) - (if CountsTwice(c, s, ev) then 1 else 0)
  {
    HandleKeepsInv(c, s, ev);
    if c.kind.FromPublisher? { HandleCounts(c, s, ev); } else { HandleKeepsNoCount(c, s, ev); }
  }

  lemma TerminateKeepsCounts(t: PathState)
    ensures Terminate(t).feed.count == t.feed.count && Publishing(Terminate(t)) == Publishing(t)
  {
  }

  /** Over every run, ended ones included, the share of the publisher statistics is one while a
      publisher's stream is ready, less one for every teardown that counted twice. */
  lemma {:induction false} PublisherShare(c: PathConf, evs: seq<Event>)
    requires Checked(c) && Possible(c, evs)
    ensures Run(c, evs).feed.count == Publishing(Run(c, evs)) - DoubleCounts(c, evs)
  {
    if evs != [] {
      var n := |evs| - 1;
      var s := Run(c, evs[..n]);
      PublisherShare(c, evs[..n]);
      RunsAreSafe(c, evs[..n]);
      BeginKeepsInv(c, s, evs[n]);
      NextCounts(c, Begin(s), evs[n]);
      TerminateKeepsCounts(Handle(c, Begin(s), evs[n]));
    }
  }

  lemma {:induction false} NoOnDemandCommandNoDoubleCount(c: PathConf, evs: seq<Event>)
    requires !c.runOnDemand
    ensures DoubleCounts(c, evs) == 0
  {
    if evs != [] { NoOnDemandCommandNoDoubleCount(c, evs[..|evs| - 1]); }
  }

  /** Without an on-demand command the share is exact; and a publisher that is ready when the loop ends
      stays counted. */
  lemma PublisherShareWithoutCommand(c: PathConf, evs: seq<Event>)
    requires Checked(c) && Possible(c, evs) && c.kind.FromPublisher? && !c.runOnDemand
    ensures Run(c, evs).feed.count == if Run(c, evs).feed.ready then 1 else 0
  {
    PublisherShare(c, evs);
    NoOnDemandCommandNoDoubleCount(c, evs);
    RunsKeepPublisherSources(c, evs);
  }

  lemma {:induction false} RunsKeepPublisherSources(c: PathConf, evs: seq<Event>)
    requires Checked(c) && Possible(c, evs) && c.kind.FromPublisher?
    ensures Run(c, evs).feed.ready ==> Run(c, evs).feed.source.Publisher?
  {
    RunsAreSafe(c, evs);
    if evs != [] && !Run(c, evs).running {
      var n := |evs| - 1;
      RunsAreSafe(c, evs[..n]);
      HandleKeepsInv(c, Begin(Run(c, evs[..n])), evs[n]);
    }
  }

  lemma Extend(c: PathConf, evs: seq<Event>, ev: Event)
    ensures Run(c, evs + [ev]) == Next(c, Run(c, evs), ev)
    ensures Possible(c, evs) && Run(c, evs).running && Allowed(c, Run(c, evs), ev) ==> Possible(c, evs + [ev])
  {
    assert (evs + [ev])[..|evs|] == evs;
  }

  const ON_DEMAND_COMMAND := PathConf(FromPublisher, false, true, false, false, false)

  /** An on-demand-command path with no readers attached or waiting. */
  predicate IsAt(s: PathState, source: Source, ready: bool, count: int, state: OnDemandState) {
    && s.running && s.audience.readers == map[] && s.books.setups == []
    && s.feed.source == source && s.feed.ready == ready && s.feed.count == count && s.control.state == state
  }

  lemma DescribeWakes(c: PathConf, evs: seq<Event>)
    requires c == ON_DEMAND_COMMAND && Possible(c, evs) && IsAt(Run(c, evs), NoSource, false, 0, Initial)
    ensures Possible(c, evs + [Describe(0)]) && IsAt(Run(c, evs + [Describe(0)]), NoSource, false, 0, WaitingReady)
  {
    Extend(c, evs, Describe(0));
  }

  lemma AnnounceAssigns(c: PathConf, evs: seq<Event>)
    requires c == ON_DEMAND_COMMAND && Possible(c, evs) && IsAt(Run(c, evs), NoSource, false, 0, WaitingReady)
    ensures Possible(c, evs + [Announce(1, 7)]) &&
            IsAt(Run(c, evs + [Announce(1, 7)]), Publisher(7), false, 0, WaitingReady)
  {
    Extend(c, evs, Announce(1, 7));
  }

  lemma RecordReadies(c: PathConf, evs: seq<Event>)
    requires c == ON_DEMAND_COMMAND && Possible(c, evs) && IsAt(Run(c, evs), Publisher(7), false, 0, WaitingReady)
    ensures Possible(c, evs + [Record(2, 7)]) && IsAt(Run(c, evs + [Record(2, 7)]), Publisher(7), true, 1, Closing)
  {
    Extend(c, evs, Record(2, 7));
  }

  lemma PauseCountsTwice(c: PathConf, evs: seq<Event>)
    requires c == ON_DEMAND_COMMAND && Possible(c, evs) && IsAt(Run(c, evs), Publisher(7), true, 1, Closing)
    ensures Possible(c, evs + [PublisherPause(3, 7)]) && Run(c, evs + [PublisherPause(3, 7)]).feed.count == -1
  {
    Extend(c, evs, PublisherPause(3, 7));
  }

  /** A run on which the share goes wrong: a reader wakes the command, a publisher records and then
      pauses, and the path ends up with minus one publisher. */
  lemma PauseOnDemandCountsTwice(e1: seq<Event>, e2: seq<Event>, e3: seq<Event>, e4: seq<Event>)
    requires e1 == [] + [Describe(0)] && e2 == e1 + [Announce(1, 7)] && e3 == e2 + [Record(2, 7)]
    requires e4 == e3 + [PublisherPause(3, 7)]
    ensures Possible(ON_DEMAND_COMMAND, e4) && Run(ON_DEMAND_COMMAND, e4).feed.count == -1
  {
    DescribeWakes(ON_DEMAND_COMMAND, []);
    AnnounceAssigns(ON_DEMAND_COMMAND, e1);
    RecordReadies(ON_DEMAND_COMMAND, e2);
    PauseCountsTwice(ON_DEMAND_COMMAND, e3);
  }

  // ---------------------------------------------------------------- removing the publisher

  /** Removing the publisher of a path leaves it with no source, not ready, with no stream and no
      readers, whether or not it went through closing the on-demand source; a ready on-demand path
      is back in its initial state with its command stopped and its close timer off. */
  lemma RemovePublisherOutcome(c: PathConf, s: PathState)
    requires Checked(c) && Inv(c, s) && c.kind.FromPublisher?
    ensures var t := RemovePublisher(c, s);
            && t.feed.source == NoSource && !t.feed.ready
            && t.audience.stream == None && t.audience.readers == map[] && t.audience.count == 0
            && (IsOnDemand(c) && s.feed.ready ==> t.control == Control(Initial, false, false, false))
            && (!s.feed.ready ==> t.control == s.control)
            && Inv(c, t)
  {
    RemovePublisherKeepsInv(c, s);
    EmptiedInv(s.audience);
  }

  // ---------------------------------------------------------------- sources are closed once

  function TimesClosed(s: PathState, index: nat): nat {
    multiset(s.feed.closes)[Static(index)]
  }

  /** Every static source that was ever created has been closed exactly once, except the current one. */
  ghost predicate SourcesInv(s: PathState) {
    forall i: nat ::
      TimesClosed(s, i) == if i < s.feed.statics && (!s.running || s.feed.source != Static(i)) then 1 else 0
  }

  lemma ClosesAppend(closes: seq<Source>, x: Source)
    ensures multiset(closes + [x]) == multiset(closes) + multiset{x}
  {
  }

  /** The closings that one message can cause, from feed f to feed g. */
  predicate Closings(c: PathConf, f: Feed, g: Feed) {
    || (g.closes == f.closes && g.statics == f.statics && (f.source == g.source || !c.kind.FromStatic?))
    || (g.closes == f.closes + [f.source] && g.statics == f.statics && g.source == NoSource && c.kind.FromStatic?)
    || (g.closes == f.closes && g.statics == f.statics + 1 && f.source == NoSource && g.source == Static(f.statics))
    || (!c.kind.FromStatic? && g.statics == f.statics && f.source.Publisher? &&
        (g.closes == f.closes + [f.source] || g.closes == f.closes + [f.source] + [f.source]))
  }

  lemma HandleClosesSources(c: PathConf, s: PathState, ev: Event)
    requires Checked(c) && Inv(c, s) && Allowed(c, s, ev)
    ensures Closings(c, s.feed, Handle(c, s, ev).feed)
  {
  }

  /** Static sources do not leak: over every run, each one is closed exactly once when it is
      replaced or dropped, the current one is open, and after the loop has ended all are closed. */
  lemma {:induction false} SourcesAreClosedOnce(c: PathConf, evs: seq<Event>)
    requires Checked(c) && Possible(c, evs)
    ensures SourcesInv(Run(c, evs))
  {
    if evs != [] {
      var n := |evs| - 1;
      var s := Begin(Run(c, evs[..n]));
      SourcesAreClosedOnce(c, evs[..n]);
      RunsAreSafe(c, evs[..n]);
      HandleKeepsInv(c, s, evs[n]);
      HandleClosesSources(c, s, evs[n]);
      SourcesStep(c, s, evs[n], Handle(c, s, evs[n]));
      TerminateClosesSource(c, Handle(c, s, evs[n]));
    }
  }

  lemma SourcesStep(c: PathConf, s: PathState, ev: Event, t: PathState)
    requires Inv(c, s) && SourcesInv(s) && t.running && FeedInv(c, t)
    requires Closings(c, s.feed, t.feed)
    ensures SourcesInv(t)
  {
    ClosesAppend(s.feed.closes, s.feed.source);
    ClosesAppend(s.feed.closes + [s.feed.source], s.feed.source);
    forall i: nat
      ensures TimesClosed(t, i) == if i < t.feed.statics && t.feed.source != Static(i) then 1 else 0
    {
      assert TimesClosed(s, i) == if i < s.feed.statics && s.feed.source != Static(i) then 1 else 0;
    }
  }

  lemma TerminateClosesSource(c: PathConf, t: PathState)
    requires Inv(c, t) && SourcesInv(t)
    ensures SourcesInv(Terminate(t))
  {
    ClosesAppend(t.feed.closes, t.feed.source);
    forall i: nat
      ensures TimesClosed(Terminate(t), i) == if i < t.feed.statics then 1 else 0
    {
      assert TimesClosed(t, i) == if i < t.feed.statics && t.feed.source != Static(i) then 1 else 0;
    }
  }

  // ---------------------------------------------------------------- readers are not lost

  /** A message tells exactly those readers to close that it drops without their asking. */
  lemma ReadersLeaveKnowingly(c: PathConf, s: PathState, ev: Event, r: Reader)
    requires Checked(c) && Inv(c, s) && Allowed(c, s, ev)
    ensures var t := Handle(c, Begin(s), ev).audience;
            r in t.closes <==>
              r in s.audience.readers && r !in t.readers && !(ev.ReaderRemove? && ev.reader == r)
  {
  }

  // ---------------------------------------------------------------- answers name the live stream

  lemma {:induction false} AnswerAllAnswers(reqs: seq<ReqId>, a: Answer, i: nat)
    requires i < |reqs|
    ensures AnswerAll(reqs, a)[i] == Reply(reqs[i], a)
  {
    if i < |reqs| - 1 { AnswerAllAnswers(reqs[..|reqs| - 1], a, i); }
  }

  predicate NamesLiveStream(s: PathState, r: Reply) {
    r.answer.WithStream? ==>
      s.feed.ready && s.audience.stream.Some? && s.audience.stream.value.id == r.answer.stream
  }

  lemma FlushAnswers(b: Books, a: Answer, i: nat)
    requires |b.replies| <= i < |Flush(b, a).replies|
    ensures Flush(b, a).replies[i].answer == a
  {
    var j := i - |b.replies|;
    if j < |b.describes| {
      AnswerAllAnswers(b.describes, a, j);
    } else {
      AnswerAllAnswers(SetupIds(b.setups), a, j - |b.describes|);
    }
  }

  lemma ReadinessAnswers(c: PathConf, s: PathState, ev: Event, i: nat)
    requires ev.StaticReady? || (ev.Record? && s.feed.source == Publisher(ev.publisher))
    requires |s.books.replies| <= i < |Handle(c, s, ev).books.replies|
    ensures NamesLiveStream(Handle(c, s, ev), Handle(c, s, ev).books.replies[i])
  {
    var rs := BecomeReady(c, if ev.Record? then CountPublisher(s, 1) else s).books.replies;
    if i < |rs| { FlushAnswers(s.books, WithStream(s.feed.streams), i); }
  }

  lemma TimerAnswers(c: PathConf, s: PathState, ev: Event, i: nat)
    requires ev.ReadyTimerFires? || ev.CloseTimerFires?
    requires |s.books.replies| <= i < |Handle(c, s, ev).books.replies|
    ensures NamesLiveStream(Handle(c, s, ev), Handle(c, s, ev).books.replies[i])
  {
    CloseOnDemandBooks(c, s.(control := s.control.(closeTimer := false)));
    CloseOnDemandBooks(c, s.(control := s.control.(readyTimer := false), books := Flush(s.books, TimedOut)));
    if ev.ReadyTimerFires? { FlushAnswers(s.books, TimedOut, i); }
  }

  lemma LossAnswers(c: PathConf, s: PathState, ev: Event, i: nat)
    requires ev.StaticNotReady? || ev.PublisherRemove? || ev.PublisherPause? || ev.Announce?
    requires |s.books.replies| <= i < |Handle(c, s, ev).books.replies|
    ensures NamesLiveStream(Handle(c, s, ev), Handle(c, s, ev).books.replies[i])
  {
    CloseOnDemandBooks(c, s);
    CloseOnDemandBooks(c, CountPublisher(s, -1));
    CloseOnDemandBooks(c, CloseSource(s));
  }

  lemma QueryAnswers(c: PathConf, s: PathState, ev: Event, i: nat)
    requires Inv(c, s)
    requires !ev.StaticReady? && !ev.Record? && !ev.ReadyTimerFires? && !ev.CloseTimerFires?
    requires !ev.StaticNotReady? && !ev.PublisherRemove? && !ev.PublisherPause? && !ev.Announce?
    requires |s.books.replies| <= i < |Handle(c, s, ev).books.replies|
    ensures NamesLiveStream(Handle(c, s, ev), Handle(c, s, ev).books.replies[i])
  {
  }

  /** Whoever is answered with a stream is answered with the stream that is live after the message. */
  lemma AnswersNameTheLiveStream(c: PathConf, s: PathState, ev: Event, i: nat)
    requires Inv(c, s)
    requires |s.books.replies| <= i < |Handle(c, s, ev).books.replies|
    ensures NamesLiveStream(Handle(c, s, ev), Handle(c, s, ev).books.replies[i])
  {
    if ev.StaticReady? {
      ReadinessAnswers(c, s, ev, i);
    } else if ev.Record? {
      if s.feed.source == Publisher(ev.publisher) { ReadinessAnswers(c, s, ev, i); }
    } else if ev.ReadyTimerFires? || ev.CloseTimerFires? {
      TimerAnswers(c, s, ev, i);
    } else if ev.StaticNotReady? || ev.PublisherRemove? || ev.PublisherPause? || ev.Announce? {
      LossAnswers(c, s, ev, i);
    } else {
      QueryAnswers(c, s, ev, i);
    }
  }
}
