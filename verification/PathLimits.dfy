/** Where the assumptions about messages matter: what each kind of message must satisfy for a path to keep
    its invariant, and runs on which it does not. */
module PathLimits {
  import opened Common
  import opened Streams
  import opened PathModel
  import opened PathInvariants
  import opened PathRuns
  import opened PathAccounts
  import opened PathSoundness

  // ---------------------------------------------------------------- exact conditions

  /** The message neither panics nor breaks the invariant. */
  ghost predicate IsKept(c: PathConf, s: PathState, ev: Event) {
    !Panics(c, s, ev) && Inv(c, Handle(c, s, ev))
  }

  lemma AnnounceIsKeptExactly(c: PathConf, s: PathState, ev: Event)
    requires Checked(c) && Inv(c, s) && ev.Announce?
    ensures IsKept(c, s, ev) <==> Allowed(c, s, ev)
  {
    if Allowed(c, s, ev) {
      HandleKeepsInv(c, s, ev);
    }
  }

  lemma SetupIsKeptExactly(c: PathConf, s: PathState, ev: Event)
    requires Checked(c) && Inv(c, s) && ev.SetupPlay?
    ensures IsKept(c, s, ev) <==> Allowed(c, s, ev)
  {
    PlayingUpdate(s.audience.readers, ev.reader);
    if Allowed(c, s, ev) {
      HandleKeepsInv(c, s, ev);
    }
  }

  lemma PlayIsKeptExactly(c: PathConf, s: PathState, ev: Event)
    requires Checked(c) && Inv(c, s) && ev.PlayReader?
    ensures IsKept(c, s, ev) <==> Allowed(c, s, ev)
  {
    PlayingUpdate(s.audience.readers, ev.reader);
    assert ev.reader in Played(s.audience, ev.reader).readers;
    if Allowed(c, s, ev) {
      HandleKeepsInv(c, s, ev);
    }
  }

  lemma StaticNotReadyIsKeptExactly(c: PathConf, s: PathState, ev: Event)
    requires Checked(c) && Inv(c, s) && ev.StaticNotReady? && Receivable(c, s, ev)
    ensures IsKept(c, s, ev) <==> Allowed(c, s, ev)
  {
    if Allowed(c, s, ev) {
      HandleKeepsInv(c, s, ev);
    }
  }

  /** The invariant does not notice a second readiness while nobody is forwarded to; the publisher
      statistics, which it leaves out, may. */
  predicate Unheard(s: PathState) {
    NonRTSP(Playing(s.audience.readers)) == {}
  }

  lemma BecomeReadyIsKeptExactly(c: PathConf, s: PathState)
    requires Checked(c) && Inv(c, s) && !c.kind.FromRedirect? && (c.kind.FromPublisher? ==> s.feed.source.Publisher?)
    ensures Inv(c, BecomeReady(c, s)) <==>
            if s.feed.ready then Unheard(s)
            else (c.kind.FromStatic? ==> s.feed.source.Static?) && (c.runOnDemand ==> s.control.state == WaitingReady)
  {
    AttachKeys(s.audience.readers, s.books.setups);
    if && !s.feed.ready && (c.kind.FromStatic? ==> s.feed.source.Static?)
       && (c.runOnDemand ==> s.control.state == WaitingReady)
    {
      BecomeReadyKeepsInv(c, s);
    }
  }

  lemma RecordIsKeptExactly(c: PathConf, s: PathState, ev: Event)
    requires Checked(c) && Inv(c, s) && ev.Record?
    ensures IsKept(c, s, ev) <==> Harmless(c, s, ev)
    ensures c.runOnDemand && RecordsAssigned(s, ev) && !s.feed.ready && s.control.state != WaitingReady ==>
              Handle(c, s, ev).control == Control(Closing, false, true, false)
  {
    if s.feed.source == Publisher(ev.publisher) {
      BecomeReadyIsKeptExactly(c, CountPublisher(s, 1));
    }
  }

  lemma StaticReadyIsKeptExactly(c: PathConf, s: PathState, ev: Event)
    requires Checked(c) && Inv(c, s) && ev.StaticReady? && Receivable(c, s, ev)
    ensures IsKept(c, s, ev) <==> Harmless(c, s, ev)
  {
    BecomeReadyIsKeptExactly(c, s);
  }

  /** What is allowed, and a second readiness that the invariant does not notice. */
  ghost predicate Harmless(c: PathConf, s: PathState, ev: Event) {
    match ev
    case StaticReady(_) => if s.feed.ready then Unheard(s) else s.feed.source.Static?
    case Record(_, p) =>
      s.feed.source == Publisher(p) ==>
        if s.feed.ready then Unheard(s) else c.runOnDemand ==> s.control.state == WaitingReady
    case _ => Allowed(c, s, ev)
  }

  /** Of all the messages that can arrive, exactly these neither panic nor break the invariant; the
      assumption of the other results differs only in ruling out a second readiness altogether. */
  lemma KeptExactlyWhenHarmless(c: PathConf, s: PathState, ev: Event)
    requires Checked(c) && Inv(c, s) && Receivable(c, s, ev)
    ensures IsKept(c, s, ev) <==> Harmless(c, s, ev)
    ensures Allowed(c, s, ev) <==> Harmless(c, s, ev) && !((ev.StaticReady? || RecordsAssigned(s, ev)) && s.feed.ready)
  {
    match ev
    case Announce(_, _) => AnnounceIsKeptExactly(c, s, ev);
    case SetupPlay(_, _) => SetupIsKeptExactly(c, s, ev);
    case PlayReader(_, _) => PlayIsKeptExactly(c, s, ev);
    case StaticNotReady(_, _) => StaticNotReadyIsKeptExactly(c, s, ev);
    case Record(_, _) => RecordIsKeptExactly(c, s, ev);
    case StaticReady(_) => StaticReadyIsKeptExactly(c, s, ev);
    case _ => HandleKeepsInv(c, s, ev);
  }

  predicate RecordsAssigned(s: PathState, ev: Event) {
    ev.Record? && s.feed.source == Publisher(ev.publisher)
  }

  // ---------------------------------------------------------------- what else is kept

  /** A path that is and stays ready keeps its stream. */
  predicate KeepsStream(s: PathState, t: PathState) {
    match (s.audience.stream, t.audience.stream)
    case (Some(v), Some(w)) => v.id == w.id
    case _ => true
  }

  /** A second readiness does not. */
  lemma BecomeReadyReplacesStream(c: PathConf, s: PathState)
    requires s.audience.stream.Some? && s.audience.stream.value.id < s.feed.streams
    ensures !KeepsStream(s, BecomeReady(c, s))
  {
  }

  /** Streams are numbered as they are made. */
  predicate Numbered(s: PathState) {
    s.audience.stream.Some? ==> s.audience.stream.value.id < s.feed.streams
  }

  lemma CloseOnDemandKeepsNumbered(c: PathConf, s: PathState)
    requires Numbered(s)
    ensures Numbered(CloseOnDemand(c, s))
  {
  }

  lemma LossKeepsNumbered(c: PathConf, s: PathState)
    requires Numbered(s)
    ensures Numbered(CloseOnDemand(c, s)) && Numbered(LoseSource(c, s)) && Numbered(RemovePublisher(c, s))
  {
    CloseOnDemandKeepsNumbered(c, s);
    CloseOnDemandKeepsNumbered(c, CountPublisher(s, -1));
  }

  lemma TimersAndSourcesKeepNumbered(c: PathConf, s: PathState, ev: Event)
    requires Numbered(s) && (ev.ReadyTimerFires? || ev.CloseTimerFires? || ev.StaticNotReady? || ev.PublisherPause?)
    ensures Numbered(Handle(c, s, ev))
  {
    LossKeepsNumbered(c, s.(control := s.control.(readyTimer := false), books := Flush(s.books, TimedOut)));
    LossKeepsNumbered(c, s.(control := s.control.(closeTimer := false)));
    LossKeepsNumbered(c, s);
    LossKeepsNumbered(c, CountPublisher(s, -1));
  }

  lemma PublishersKeepNumbered(c: PathConf, s: PathState, ev: Event)
    requires Numbered(s) && (ev.PublisherRemove? || ev.Announce?)
    ensures Numbered(Handle(c, s, ev))
  {
    LossKeepsNumbered(c, s);
    LossKeepsNumbered(c, CloseSource(s));
  }

  lemma ReadersKeepNumbered(c: PathConf, s: PathState, ev: Event)
    requires Numbered(s) && (ev.ReaderRemove? || ev.SetupPlay? || ev.PlayReader? || ev.PauseReader?)
    ensures Numbered(Handle(c, s, ev))
  {
  }

  lemma HandleKeepsNumbered(c: PathConf, s: PathState, ev: Event)
    requires Numbered(s)
    ensures Numbered(Handle(c, s, ev))
  {
    if ev.ReadyTimerFires? || ev.CloseTimerFires? || ev.StaticNotReady? || ev.PublisherPause? {
      TimersAndSourcesKeepNumbered(c, s, ev);
    } else if ev.PublisherRemove? || ev.Announce? {
      PublishersKeepNumbered(c, s, ev);
    } else if ev.ReaderRemove? || ev.SetupPlay? || ev.PlayReader? || ev.PauseReader? {
      ReadersKeepNumbered(c, s, ev);
    }
  }

  lemma {:induction false} RunsAreNumbered(c: PathConf, evs: seq<Event>)
    ensures Numbered(Run(c, evs))
  {
    if evs != [] {
      var n := |evs| - 1;
      RunsAreNumbered(c, evs[..n]);
      HandleKeepsNumbered(c, Begin(Run(c, evs[..n])), evs[n]);
    }
  }

  /** Exactly the allowed messages neither panic nor break the invariant, and let a ready path keep its
      stream. */
  lemma AllowedExactly(c: PathConf, s: PathState, ev: Event)
    requires Checked(c) && Inv(c, s) && Numbered(s) && Receivable(c, s, ev)
    ensures Allowed(c, s, ev) <==> IsKept(c, s, ev) && KeepsStream(s, Handle(c, s, ev))
  {
    KeptExactlyWhenHarmless(c, s, ev);
    if ev.StaticReady? || ev.Record? {
      ReadinessIsAllowedExactly(c, s, ev);
    } else if Allowed(c, s, ev) {
      HandleKeepsStream(c, s, ev);
    }
  }

  lemma ReadinessIsAllowedExactly(c: PathConf, s: PathState, ev: Event)
    requires Checked(c) && Inv(c, s) && Numbered(s) && (ev.StaticReady? || ev.Record?)
    ensures Harmless(c, s, ev) ==> (Allowed(c, s, ev) <==> KeepsStream(s, Handle(c, s, ev)))
  {
    if s.feed.ready && (ev.StaticReady? || RecordsAssigned(s, ev)) {
      BecomeReadyReplacesStream(c, if ev.Record? then CountPublisher(s, 1) else s);
    }
  }

  lemma HandleKeepsStream(c: PathConf, s: PathState, ev: Event)
    requires Checked(c) && Inv(c, s) && !ev.StaticReady? && !ev.Record?
    ensures KeepsStream(s, Handle(c, s, ev))
  {
  }

  /** One message leaves the share of the publisher statistics what it should be exactly if it neither
      counts a teardown twice nor records a publisher that is ready already. */
  lemma ShareIsKeptExactly(c: PathConf, s: PathState, ev: Event)
    requires Checked(c) && Inv(c, s) && Receivable(c, s, ev) && !Panics(c, s, ev)
    ensures var t := Handle(c, s, ev);
            t.feed.count - Publishing(t) == s.feed.count - Publishing(s) <==>
            !CountsTwice(c, s, ev) && !(RecordsAssigned(s, ev) && s.feed.ready)
  {
    if Allowed(c, s, ev) { NextCounts(c, s, ev); }
  }

  // ---------------------------------------------------------------- runs under the weakest assumption

  /** Every message met a running loop and was harmless. */
  ghost predicate HarmlessRun(c: PathConf, evs: seq<Event>) {
    evs == [] ||
    (var before := Run(c, evs[..|evs| - 1]);
     var ev := evs[|evs| - 1];
     HarmlessRun(c, evs[..|evs| - 1]) && before.running && Receivable(c, before, ev) && Harmless(c, before, ev))
  }

  /** The invariant holds over all runs of harmless messages, the weakest assumption there is. */
  lemma {:induction false} HarmlessRunsAreSafe(c: PathConf, evs: seq<Event>)
    requires Checked(c) && HarmlessRun(c, evs)
    ensures if Run(c, evs).running then Inv(c, Run(c, evs)) else Ended(Run(c, evs))
  {
    if evs == [] {
      RunsAreSafe(c, []);
    } else {
      var n := |evs| - 1;
      var s := Run(c, evs[..n]);
      HarmlessRunsAreSafe(c, evs[..n]);
      BeginKeepsAll(c, s, evs[n]);
      KeptExactlyWhenHarmless(c, Begin(s), evs[n]);
      EmptiedInv(Handle(c, Begin(s), evs[n]).audience);
    }
  }

  // ---------------------------------------------------------------- runs that leave the invariant

  /** Any announcement reaches the path of a redirection, which is then asked to close as a publisher. */
  lemma AnnouncingToARedirectionPanics(c: PathConf, ev: Event)
    requires Checked(c) && c.kind.FromRedirect? && !c.disableOverride && ev.Announce?
    ensures Inv(c, Start(c)) && Receivable(c, Start(c), ev) && Panics(c, Start(c), ev)
  {
    RunsAreSafe(c, []);
  }

  /** An announcement to an idle static path installs a publisher, which the next description replaces by
      a static source without closing it. */
  lemma AnnouncingToAnIdleStaticPathIsForgotten(c: PathConf, announce: ReqId, describe: ReqId, p: nat)
    requires Checked(c) && c.kind.FromStatic? && c.sourceOnDemand
    ensures var s1 := Next(c, Start(c), Announce(announce, p));
            var s2 := Next(c, s1, Describe(describe));
            && !Panics(c, Start(c), Announce(announce, p)) && s1.feed.source == Publisher(p) && !Inv(c, s1)
            && s2.feed.source == Static(0) && s2.feed.closes == []
  {
  }

  /** A static source that gets ready just when its path has given it up makes the path ready without a
      source; when the close timer fires, there is nothing to close. */
  lemma LateReadinessLeavesNoSource(c: PathConf, evs: seq<Event>, ready: ReqId)
    requires Checked(c) && c.kind.FromStatic? && c.sourceOnDemand && evs == [] + [Describe(0)] + [ReadyTimerFires]
    ensures Possible(c, evs) && Run(c, evs).running
    ensures var s := Next(c, Run(c, evs), StaticReady(ready));
            && s.feed.ready && s.feed.source == NoSource && s.control.state == Closing && s.control.closeTimer
            && !Inv(c, s) && Panics(c, s, CloseTimerFires)
  {
    Extend(c, [], Describe(0));
    Extend(c, [Describe(0)], ReadyTimerFires);
    assert [] + [Describe(0)] == [Describe(0)];
  }

  const PUBLISHED := PathConf(FromPublisher, false, false, false, false, false)

  lemma Announces(c: PathConf, evs: seq<Event>)
    requires c == PUBLISHED && evs == [] + [Announce(0, 7)]
    ensures Possible(c, evs) && IsAt(Run(c, evs), Publisher(7), false, 0, Initial)
  {
    Extend(c, [], Announce(0, 7));
  }

  /** A publisher records on a path without an on-demand source. */
  lemma Publishes(c: PathConf, evs: seq<Event>)
    requires c == PUBLISHED && evs == [] + [Announce(0, 7)] + [Record(1, 7)]
    ensures Possible(c, evs) && IsAt(Run(c, evs), Publisher(7), true, 1, Initial)
  {
    var e1 := [] + [Announce(0, 7)];
    Announces(c, e1);
    Extend(c, e1, Record(1, 7));
  }

  /** A publisher that is ready at the end stays in the statistics. */
  lemma EndingWhileReadyStaysCounted(c: PathConf, evs: seq<Event>)
    requires c == PUBLISHED && evs == [] + [Announce(0, 7)] + [Record(1, 7)]
    ensures Possible(c, evs + [ContextDone])
    ensures !Run(c, evs + [ContextDone]).running && Run(c, evs + [ContextDone]).feed.count == 1
  {
    Publishes(c, evs);
    Extend(c, evs, ContextDone);
  }

  lemma SetsUp(c: PathConf, evs: seq<Event>, r: Reader)
    requires c == PUBLISHED && Possible(c, evs) && IsAt(Run(c, evs), Publisher(7), true, 1, Initial)
    ensures var s := Run(c, evs + [SetupPlay(2, r)]);
            Possible(c, evs + [SetupPlay(2, r)]) && s.running && s.feed.source == Publisher(7) && s.feed.ready
  {
    RunsAreSafe(c, evs);
    Extend(c, evs, SetupPlay(2, r));
  }

  /** A reader that was set up plays after the publisher has paused, and meets a nil stream. */
  lemma PlayingAfterALossPanics(c: PathConf, evs: seq<Event>, more: seq<Event>, r: Reader, play: ReqId)
    requires c == PUBLISHED && evs == [] + [Announce(0, 7)] + [Record(1, 7)] && !r.isRTSP
    requires more == evs + [SetupPlay(2, r)] + [PublisherPause(3, 7)]
    ensures Possible(c, more) && Run(c, more).running && Panics(c, Run(c, more), PlayReader(play, r))
  {
    Publishes(c, evs);
    SetsUp(c, evs, r);
    Extend(c, evs + [SetupPlay(2, r)], PublisherPause(3, 7));
  }

  /** A publisher records on an on-demand path that nobody has woken: no assumption rules out the
      announcement, and the path ends up closing, with the timer armed and no command to close. */
  lemma RecordingUnwokenLeavesNoCommand(c: PathConf, evs: seq<Event>)
    requires c == ON_DEMAND_COMMAND && evs == [] + [Announce(0, 7)]
    ensures Possible(c, evs) && Run(c, evs).running && !Panics(c, Run(c, evs), Record(1, 7))
    ensures var s := Next(c, Run(c, evs), Record(1, 7));
            s.control == Control(Closing, false, true, false) && Panics(c, s, CloseTimerFires)
  {
    Extend(c, [], Announce(0, 7));
  }
}
