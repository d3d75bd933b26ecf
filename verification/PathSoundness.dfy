/** What a path keeps whatever messages arrive, as long as none of them makes it panic. */
module PathSoundness {
  import opened Common
  import opened Streams
  import opened PathModel
  import opened PathInvariants
  import opened PathRuns

  /** A path that keeps its invariant is sound. */
  lemma InvIsSound(c: PathConf, s: PathState)
    requires Checked(c) && Inv(c, s)
    ensures Sound(c, s)
  {
  }

  lemma BeginKeepsAll(c: PathConf, s: PathState, ev: Event)
    ensures Sound(c, Begin(s)) <==> Sound(c, s)
    ensures Inv(c, Begin(s)) <==> Inv(c, s)
    ensures Allowed(c, Begin(s), ev) <==> Allowed(c, s, ev)
    ensures Receivable(c, Begin(s), ev) <==> Receivable(c, s, ev)
    ensures Panics(c, Begin(s), ev) <==> Panics(c, s, ev)
  {
  }

  lemma CloseOnDemandKeepsSound(c: PathConf, s: PathState)
    requires Checked(c) && IsOnDemand(c) && s.running && !s.feed.source.Redirecting?
    requires s.feed.ready <==> s.audience.stream.Some?
    requires s.audience.stream.None? ==> OnlySessionsPlay(s.audience.readers)
    requires s.books.setups != [] ==> !s.feed.ready
    ensures Sound(c, CloseOnDemand(c, s))
  {
    assert Playing(map[]) == {};
  }

  lemma PublisherLeavesSoundly(c: PathConf, s: PathState)
    requires Checked(c) && Sound(c, s) && !c.kind.FromRedirect?
    requires s.feed.ready ==> s.control.state == Initial
    ensures Sound(c, PublisherLeaves(s))
  {
    assert Playing(map[]) == {};
  }

  lemma RemovePublisherKeepsSound(c: PathConf, s: PathState)
    requires Checked(c) && Sound(c, s) && !c.kind.FromRedirect?
    ensures Sound(c, RemovePublisher(c, s))
  {
    assert Playing(map[]) == {};
    if s.feed.ready && IsOnDemand(c) && s.control.state != Initial {
      CloseOnDemandKeepsSound(c, CountPublisher(s, -1));
    } else {
      PublisherLeavesSoundly(c, s);
    }
  }

  lemma LoseSourceKeepsSound(c: PathConf, s: PathState)
    requires Checked(c) && Sound(c, s) && !c.kind.FromRedirect?
    ensures Sound(c, LoseSource(c, s))
  {
    assert Playing(map[]) == {};
    if IsOnDemand(c) && s.control.state != Initial { CloseOnDemandKeepsSound(c, s); }
  }

  lemma BecomeReadyKeepsSound(c: PathConf, s: PathState)
    requires Checked(c) && Sound(c, s) && !c.kind.FromRedirect?
    ensures Sound(c, BecomeReady(c, s))
  {
  }

  lemma TimersKeepSound(c: PathConf, s: PathState, ev: Event)
    requires Checked(c) && Sound(c, s) && Receivable(c, s, ev) && !Panics(c, s, ev)
    requires ev.ReadyTimerFires? || ev.CloseTimerFires?
    ensures Sound(c, Handle(c, s, ev))
  {
    CloseOnDemandKeepsSound(c, s.(control := s.control.(closeTimer := false)));
    CloseOnDemandKeepsSound(c, s.(control := s.control.(readyTimer := false), books := Flush(s.books, TimedOut)));
  }

  lemma SourceMessagesKeepSound(c: PathConf, s: PathState, ev: Event)
    requires Checked(c) && Sound(c, s) && Receivable(c, s, ev) && !Panics(c, s, ev)
    requires ev.StaticReady? || ev.StaticNotReady? || ev.Record? || ev.PublisherPause?
    ensures Sound(c, Handle(c, s, ev))
  {
    if !c.kind.FromRedirect? {
      BecomeReadyKeepsSound(c, s);
      BecomeReadyKeepsSound(c, CountPublisher(s, 1));
      LoseSourceKeepsSound(c, s);
      LoseSourceKeepsSound(c, CountPublisher(s, -1));
    }
  }

  lemma PublisherMessagesKeepSound(c: PathConf, s: PathState, ev: Event)
    requires Checked(c) && Sound(c, s) && !Panics(c, s, ev)
    requires ev.PublisherRemove? || ev.Announce?
    ensures Sound(c, Handle(c, s, ev))
  {
    if !c.kind.FromRedirect? {
      RemovePublisherKeepsSound(c, s);
      RemovePublisherKeepsSound(c, CloseSource(s));
    }
  }

  lemma ReaderMessagesKeepSound(c: PathConf, s: PathState, ev: Event)
    requires Checked(c) && Sound(c, s) && !Panics(c, s, ev)
    requires ev.ReaderRemove? || ev.SetupPlay? || ev.PlayReader? || ev.PauseReader?
    ensures Sound(c, Handle(c, s, ev))
  {
    PlayingUpdate(s.audience.readers, ev.reader);
  }

  lemma HandleKeepsSound(c: PathConf, s: PathState, ev: Event)
    requires Checked(c) && Sound(c, s) && Receivable(c, s, ev) && !Panics(c, s, ev)
    ensures Sound(c, Handle(c, s, ev))
  {
    if ev.ReadyTimerFires? || ev.CloseTimerFires? {
      TimersKeepSound(c, s, ev);
    } else if ev.StaticReady? || ev.StaticNotReady? || ev.Record? || ev.PublisherPause? {
      SourceMessagesKeepSound(c, s, ev);
    } else if ev.PublisherRemove? || ev.Announce? {
      PublisherMessagesKeepSound(c, s, ev);
    } else if ev.ReaderRemove? || ev.SetupPlay? || ev.PlayReader? || ev.PauseReader? {
      ReaderMessagesKeepSound(c, s, ev);
    }
  }

  /** One turn of the loop, up to the decision to leave it. */
  lemma TurnKeeps(c: PathConf, s: PathState, ev: Event, t: PathState)
    requires Checked(c) && Sound(c, s) && Receivable(c, s, ev) && !Panics(c, s, ev) && t == Handle(c, Begin(s), ev)
    ensures Sound(c, t)
    ensures Inv(c, s) && Allowed(c, s, ev) ==> Inv(c, t)
  {
    BeginKeepsAll(c, s, ev);
    HandleKeepsSound(c, Begin(s), ev);
    if Inv(c, s) && Allowed(c, s, ev) { HandleKeepsInv(c, Begin(s), ev); }
  }

  // ---------------------------------------------------------------- runs

  /** Every message met a running loop, could arrive and did not make the path panic. */
  ghost predicate Alive(c: PathConf, evs: seq<Event>) {
    evs == [] ||
    (var before := Run(c, evs[..|evs| - 1]);
     var ev := evs[|evs| - 1];
     Alive(c, evs[..|evs| - 1]) && before.running && Receivable(c, before, ev) && !Panics(c, before, ev))
  }

  lemma {:induction false} AliveIsMet(c: PathConf, evs: seq<Event>)
    requires Alive(c, evs)
    ensures Met(c, evs)
  {
    if evs != [] { AliveIsMet(c, evs[..|evs| - 1]); }
  }

  lemma {:induction false} AliveSoFar(c: PathConf, evs: seq<Event>, n: nat)
    requires Alive(c, evs) && n <= |evs|
    ensures Alive(c, evs[..n])
  {
    if n < |evs| {
      AliveSoFar(c, evs[..|evs| - 1], n);
      assert evs[..|evs| - 1][..n] == evs[..n];
    } else {
      assert evs[..n] == evs;
    }
  }

  /** Over every run without a panic, and with no assumption about its messages: while the loop runs, a
      ready source and its stream come together, only RTSP sessions play without one, an on-demand path
      that is Ready or Closing is ready, and nobody waits to be set up on a ready path. */
  lemma {:induction false} RunsAreSound(c: PathConf, evs: seq<Event>)
    requires Checked(c) && Alive(c, evs) && Run(c, evs).running
    ensures Sound(c, Run(c, evs))
  {
    if evs == [] {
      assert Playing(map[]) == {};
    } else {
      var n := |evs| - 1;
      var s := Run(c, evs[..n]);
      RunsAreSound(c, evs[..n]);
      BeginKeepsAll(c, s, evs[n]);
      HandleKeepsSound(c, Begin(s), evs[n]);
    }
  }

  /** The state before message i of a run, and what message i makes of it. */
  lemma StepOfRun(c: PathConf, evs: seq<Event>, i: nat, s: PathState)
    requires Checked(c) && Alive(c, evs) && i < |evs| && s == Run(c, evs[..i])
    ensures Sound(c, s) && Receivable(c, s, evs[i]) && !Panics(c, s, evs[i])
    ensures Run(c, evs[..i + 1]) == Next(c, s, evs[i])
  {
    var upto := evs[..i + 1];
    assert upto[..i] == evs[..i];
    AliveSoFar(c, evs, i + 1);
    RunsAreSound(c, upto[..i]);
  }

  lemma AllowedIsReceived(c: PathConf, s: PathState, ev: Event)
    requires Checked(c) && Inv(c, s) && Allowed(c, s, ev)
    ensures Receivable(c, s, ev) && !Panics(c, s, ev)
  {
  }

  /** The runs of the other results are such runs. */
  lemma {:induction false} PossibleIsAlive(c: PathConf, evs: seq<Event>)
    requires Checked(c) && Possible(c, evs)
    ensures Alive(c, evs)
  {
    if evs != [] {
      var n := |evs| - 1;
      PossibleIsAlive(c, evs[..n]);
      RunsAreSafe(c, evs[..n]);
      AllowedIsReceived(c, Run(c, evs[..n]), evs[n]);
    }
  }
}
