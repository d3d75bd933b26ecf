/** Every message keeps the invariant of a path. */
module PathInvariants {
  import opened Common
  import opened Streams
  import opened PathModel

  // ---------------------------------------------------------------- readers

  lemma PlayingUpdate(readers: map<Reader, ReaderState>, r: Reader)
    ensures Playing(readers[r := Play]) == Playing(readers) + {r}
    ensures Playing(readers[r := PrePlay]) == Playing(readers) - {r}
    ensures Playing(readers - {r}) == Playing(readers) - {r}
  {
  }

  lemma NonRTSPUpdate(rs: set<Reader>, r: Reader)
    ensures NonRTSP(rs + {r}) == NonRTSP(rs) + NonRTSP({r})
    ensures NonRTSP(rs - {r}) == NonRTSP(rs) - NonRTSP({r})
  {
  }

  lemma AttachKeys(readers: map<Reader, ReaderState>, setups: seq<SetupReq>)
    ensures Playing(Attach(readers, setups)) <= Playing(readers)
    ensures setups != [] || readers != map[] ==> Attach(readers, setups) != map[]
  {
    if setups != [] {
      AttachKeys(readers, setups[..|setups| - 1]);
      assert setups[|setups| - 1].author in Attach(readers, setups);
    }
  }

  /** One more waiting reader: its id, its answer and its place among the readers come last. */
  lemma OneMoreSetup(readers: map<Reader, ReaderState>, setups: seq<SetupReq>, i: nat, a: Answer)
    requires i < |setups|
    ensures Attach(readers, setups[..i + 1]) == Attach(readers, setups[..i])[setups[i].author := PrePlay]
    ensures AnswerAll(SetupIds(setups[..i + 1]), a) == AnswerAll(SetupIds(setups[..i]), a) + [Reply(setups[i].req, a)]
  {
    assert setups[..i + 1][..i] == setups[..i];
    var ids := SetupIds(setups[..i]);
    assert SetupIds(setups[..i + 1]) == ids + [setups[i].req];
    assert (ids + [setups[i].req])[..i] == ids;
  }

  lemma UnforwardOneByOne(stream: Option<StreamView>, players: set<Reader>, r: Reader)
    requires r in players
    ensures Unforward(Unforward(stream, {r}), players - {r}) == Unforward(stream, players)
  {
    assert players - {r} + {r} == players;
    NonRTSPUpdate(players - {r}, r);
    assert stream.Some? ==>
      stream.value.forward - NonRTSP({r}) - NonRTSP(players - {r}) == stream.value.forward - NonRTSP(players);
  }

  /** Dropping one reader and then all the others drops all of them. */
  lemma EmptiedOneByOne(a: Audience, r: Reader)
    requires r in a.readers
    ensures Emptied(Without(a, r).(closes := a.closes + {r})) == Emptied(a)
  {
    PlayingUpdate(a.readers, r);
    var players := Playing(a.readers);
    assert a.closes + {r} + (a.readers - {r}).Keys == a.closes + a.readers.Keys;
    if r in players {
      UnforwardOneByOne(a.stream, players, r);
    } else {
      assert players - {r} == players;
    }
  }

  lemma EmptiedNobody(a: Audience)
    requires a.readers == map[]
    ensures Emptied(a) == a
  {
    assert Playing(map[]) == {} && NonRTSP({}) == {};
    assert a.stream.Some? ==> a.stream.value.forward - {} == a.stream.value.forward;
  }

  lemma EmptiedInv(a: Audience)
    requires AudienceInv(a)
    ensures Emptied(a).count == 0
    ensures AudienceInv(Emptied(a)) && AudienceInv(Emptied(a).(stream := None))
    ensures a.readers == map[] ==> Emptied(a) == a
  {
    assert Playing(map[]) == {} && NonRTSP({}) == {};
  }

  lemma PlayedInv(a: Audience, r: Reader)
    requires AudienceInv(a) && a.stream.Some? && r !in Playing(a.readers)
    ensures AudienceInv(Played(a, r))
    ensures r in Played(a, r).readers
  {
    PlayingUpdate(a.readers, r);
    NonRTSPUpdate(Playing(a.readers), r);
  }

  lemma PausedInv(a: Audience, r: Reader)
    requires AudienceInv(a)
    ensures AudienceInv(Paused(a, r))
    ensures Paused(a, r).readers.Keys == a.readers.Keys
    ensures Playing(Paused(a, r).readers) == Playing(a.readers) - {r}
  {
    PlayingUpdate(a.readers, r);
    NonRTSPUpdate(Playing(a.readers), r);
  }

  lemma WithoutInv(a: Audience, r: Reader)
    requires AudienceInv(a)
    ensures AudienceInv(Without(a, r))
  {
    PausedInv(a, r);
    PlayingUpdate(a.readers, r);
  }

  lemma SetUpInv(a: Audience, r: Reader)
    requires AudienceInv(a) && a.stream.Some? && r !in Playing(a.readers)
    ensures AudienceInv(a.(readers := a.readers[r := PrePlay]))
    ensures a.readers[r := PrePlay] != map[]
  {
    PlayingUpdate(a.readers, r);
    assert r in a.readers[r := PrePlay];
  }

  // ---------------------------------------------------------------- source life cycle

  lemma PublisherLeavesInv(s: PathState)
    requires AudienceInv(s.audience)
    requires s.feed.ready <==> s.audience.stream.Some?
    ensures var t := PublisherLeaves(s);
            && AudienceInv(t.audience) && t.audience.stream == None && t.audience.readers == map[]
            && t.feed.source == NoSource && !t.feed.ready && t.feed.statics == s.feed.statics
            && t.control == s.control && t.books == s.books && t.running == s.running
  {
    EmptiedInv(s.audience);
    EmptiedNobody(Emptied(s.audience).(stream := None));
    EmptiedNobody(Emptied(s.audience));
  }

  lemma CloseOnDemandKeepsInv(c: PathConf, s: PathState)
    requires Checked(c) && IsOnDemand(c) && s.running && AudienceInv(s.audience)
    requires s.feed.ready <==> s.audience.stream.Some?
    requires s.books.describes == [] && s.books.setups == [] && !s.control.readyTimer
    requires s.control.closeTimer ==> s.control.state == Closing
    requires c.kind.FromStatic? ==> !s.control.command
    requires c.kind.FromPublisher? ==> s.feed.statics == 0
    requires s.feed.ready ==> !s.feed.source.NoSource?
    ensures Inv(c, CloseOnDemand(c, s))
    ensures CloseOnDemand(c, s).feed.source.NoSource?
    ensures Detach(Evict(CloseOnDemand(c, s))) == CloseOnDemand(c, s)
  {
    EmptiedInv(s.audience);
    var idle := s.control.(state := Initial, closeTimer := s.control.closeTimer && s.control.state != Closing);
    PublisherLeavesInv(CloseSource(s.(control := idle.(command := false))));
    EmptiedInv(CloseOnDemand(c, s).audience);
  }

  lemma BecomeReadyKeepsInv(c: PathConf, s: PathState)
    requires Checked(c) && Inv(c, s) && !s.feed.ready
    requires c.kind.FromStatic? ==> s.feed.source.Static?
    requires c.kind.FromPublisher? ==> s.feed.source.Publisher?
    requires !c.kind.FromRedirect?
    requires c.runOnDemand ==> s.control.state == WaitingReady
    ensures Inv(c, BecomeReady(c, s))
  {
    AttachKeys(s.audience.readers, s.books.setups);
  }

  lemma RemovePublisherKeepsInv(c: PathConf, s: PathState)
    requires Checked(c) && Inv(c, s) && c.kind.FromPublisher?
    ensures Inv(c, RemovePublisher(c, s))
    ensures RemovePublisher(c, s).feed.source.NoSource?
  {
    if s.feed.ready && IsOnDemand(c) && s.control.state != Initial {
      CloseOnDemandKeepsInv(c, CountPublisher(s, -1));
    } else {
      PublisherLeavesInv(s);
    }
  }

  lemma LoseSourceKeepsInv(c: PathConf, s: PathState)
    requires Checked(c) && Inv(c, s) && s.feed.ready && !c.kind.FromRedirect?
    ensures Inv(c, LoseSource(c, s))
  {
    if IsOnDemand(c) {
      CloseOnDemandKeepsInv(c, s);
    } else {
      EmptiedInv(s.audience);
    }
  }

  // ---------------------------------------------------------------- messages

  lemma BeginKeepsInv(c: PathConf, s: PathState, ev: Event)
    requires Inv(c, s)
    ensures Inv(c, Begin(s)) && (Allowed(c, Begin(s), ev) <==> Allowed(c, s, ev))
  {
  }

  lemma TimersKeepInv(c: PathConf, s: PathState, ev: Event)
    requires Checked(c) && Inv(c, s) && Allowed(c, s, ev)
    requires ev.ReadyTimerFires? || ev.CloseTimerFires?
    ensures Inv(c, Handle(c, s, ev))
  {
    if ev.CloseTimerFires? {
      CloseOnDemandKeepsInv(c, s.(control := s.control.(closeTimer := false)));
    } else {
      CloseOnDemandKeepsInv(c, s.(control := s.control.(readyTimer := false), books := Flush(s.books, TimedOut)));
    }
  }

  lemma StaticMessagesKeepInv(c: PathConf, s: PathState, ev: Event)
    requires Checked(c) && Inv(c, s) && Allowed(c, s, ev)
    requires ev.StaticReady? || ev.StaticNotReady?
    ensures Inv(c, Handle(c, s, ev))
  {
    if ev.StaticReady? {
      BecomeReadyKeepsInv(c, s);
    } else if ev.author == s.feed.source {
      LoseSourceKeepsInv(c, s);
    }
  }

  lemma PublisherMessagesKeepInv(c: PathConf, s: PathState, ev: Event)
    requires Checked(c) && Inv(c, s) && Allowed(c, s, ev)
    requires ev.Record? || ev.PublisherPause? || ev.PublisherRemove? || ev.Announce?
    ensures Inv(c, Handle(c, s, ev))
  {
    if c.kind.FromPublisher? {
      match ev
      case Record(_, p) => if s.feed.source == Publisher(p) { BecomeReadyKeepsInv(c, CountPublisher(s, 1)); }
      case PublisherPause(_, p) =>
        if s.feed.source == Publisher(p) && s.feed.ready { LoseSourceKeepsInv(c, CountPublisher(s, -1)); }
      case PublisherRemove(_, p) => RemovePublisherKeepsInv(c, s);
      case Announce(_, p) => RemovePublisherKeepsInv(c, CloseSource(s));
    }
  }

  lemma ReaderMessagesKeepInv(c: PathConf, s: PathState, ev: Event)
    requires Checked(c) && Inv(c, s) && Allowed(c, s, ev)
    requires ev.ReaderRemove? || ev.PlayReader? || ev.PauseReader?
    ensures Inv(c, Handle(c, s, ev))
  {
    match ev
    case PlayReader(_, r) => PlayedInv(s.audience, r);
    case PauseReader(_, r) => PausedInv(s.audience, r);
    case ReaderRemove(_, r) => WithoutInv(s.audience, r);
  }

  lemma QueriesKeepInv(c: PathConf, s: PathState, ev: Event)
    requires Checked(c) && Inv(c, s) && Allowed(c, s, ev)
    requires ev.SetupPlay? || ev.Describe?
    ensures Inv(c, Handle(c, s, ev))
  {
    if ev.SetupPlay? && s.feed.ready {
      SetUpInv(s.audience, ev.reader);
    }
  }

  /** Every message that may be sent keeps the invariant of the path. */
  lemma HandleKeepsInv(c: PathConf, s: PathState, ev: Event)
    requires Checked(c) && Inv(c, s) && Allowed(c, s, ev)
    ensures Inv(c, Handle(c, s, ev))
  {
    match ev
    case ReadyTimerFires => TimersKeepInv(c, s, ev);
    case CloseTimerFires => TimersKeepInv(c, s, ev);
    case StaticReady(_) => StaticMessagesKeepInv(c, s, ev);
    case StaticNotReady(_, _) => StaticMessagesKeepInv(c, s, ev);
    case Record(_, _) => PublisherMessagesKeepInv(c, s, ev);
    case PublisherPause(_, _) => PublisherMessagesKeepInv(c, s, ev);
    case PublisherRemove(_, _) => PublisherMessagesKeepInv(c, s, ev);
    case Announce(_, _) => PublisherMessagesKeepInv(c, s, ev);
    case Describe(_) => QueriesKeepInv(c, s, ev);
    case SetupPlay(_, _) => QueriesKeepInv(c, s, ev);
    case ReaderRemove(_, _) => ReaderMessagesKeepInv(c, s, ev);
    case PlayReader(_, _) => ReaderMessagesKeepInv(c, s, ev);
    case PauseReader(_, _) => ReaderMessagesKeepInv(c, s, ev);
    case ContextDone =>
  }
}
