/** The path itself: an object whose handlers update it in place (internal/core/path.go). Each
    handler is proved to compute its function of module PathModel; the `requires` clauses are what
    keeps the handlers from dereferencing a source, stream or command that is not there. */
module Paths {
  import opened Common
  import opened Streams
  import opened PathModel
  import PathInvariants
  import PathRuns
  import PathSoundness

  lemma PlayingAmong(readers: map<Reader, ReaderState>, told: set<Reader>, r: Reader)
    requires r in readers && r !in told
    ensures |(told + {r}) * Playing(readers)| == |told * Playing(readers)| + if readers[r] == Play then 1 else 0
  {
    var before := told * Playing(readers);
    assert (told + {r}) * Playing(readers) == if readers[r] == Play then before + {r} else before;
  }

  /** The loop over the readers of an ending path: all are told to close, the playing ones counted. */
  method TellReaders(readers: map<Reader, ReaderState>) returns (playing: nat, told: set<Reader>)
    ensures playing == |Playing(readers)|
    ensures told == readers.Keys
  {
    playing, told := 0, {};
    var todo := readers.Keys;
    while todo != {}
      invariant told !! todo && told + todo == readers.Keys
      invariant playing == |told * Playing(readers)|
      decreases todo
    {
      var r :| r in todo;
      PlayingAmong(readers, told, r);
      if readers[r] == Play {
        playing := playing + 1;
      }
      told, todo := told + {r}, todo - {r};
    }
    assert told * Playing(readers) == Playing(readers);
  }

  class Path {
    const conf: PathConf
    var running: bool
    var source: Source
    var sourceReady: bool
    var stream: Stream?
    var readers: map<Reader, ReaderState>
    var describeRequests: seq<ReqId>
    var setupPlayRequests: seq<SetupReq>
    var onDemandState: OnDemandState
    var onDemandReadyTimer: bool
    var onDemandCloseTimer: bool
    var onDemandCmd: bool
    // shares of the statistics, and what the path has told the outside world
    var countReaders: int
    var countPublishers: int
    var replies: seq<Reply>
    var readerCloses: set<Reader>
    var sourceCloses: seq<Source>
    var streamsMade: nat
    var staticsMade: nat

    // ------------------------------------------------------------ abstraction

    ghost function View(): (v: PathState)
      reads this, stream
    {
      PathState(
        running,
        Feed(source, sourceReady, countPublishers, sourceCloses, staticsMade, streamsMade),
        Audience(if stream == null then None else Some(StreamView(stream.id, stream.nonRTSP)),
                 readers, countReaders, readerCloses),
        Books(describeRequests, setupPlayRequests, replies),
        Control(onDemandState, onDemandReadyTimer, onDemandCloseTimer, onDemandCmd))
    }

    /** The stream of a running path has not been closed. */
    ghost predicate StreamOpen()
      reads this, stream
    {
      stream != null ==> !stream.closed
    }

    /** A ready source and a playing reader that is no RTSP session both need a stream. */
    ghost predicate StreamBacked()
      reads this, stream
    {
      StreamOpen() && (sourceReady || !OnlySessionsPlay(readers) ==> stream != null)
    }

    /** Any message but those on which the code panics. */
    ghost predicate MayReceive(ev: Event)
      reads this, stream
    {
      Checked(conf) && StreamOpen() && Sound(conf, View()) && Receivable(conf, View(), ev) && !Panics(conf, View(), ev)
    }

    // ------------------------------------------------------------ the event loop

    constructor (conf: PathConf)
      requires Checked(conf)
      ensures this.conf == conf && View() == Start(conf) && StreamOpen()
      ensures Inv(conf, View())
    {
      this.conf := conf;
      running := true;
      source := NoSource;
      sourceReady := false;
      stream := null;
      readers := map[];
      describeRequests := [];
      setupPlayRequests := [];
      onDemandState := Initial;
      onDemandReadyTimer := false;
      onDemandCloseTimer := false;
      onDemandCmd := false;
      countReaders := 0;
      countPublishers := 0;
      replies := [];
      readerCloses := {};
      sourceCloses := [];
      streamsMade := 0;
      staticsMade := 0;
      new;
      if conf.kind.FromRedirect? {
        source := Redirecting;
      } else if !conf.sourceOnDemand && HasStaticSource() {
        StaticSourceCreate();
      }
      assert Playing(map[]) == {};
    }

    /** The event loop of a new path, for any run of messages on which it does not panic: it goes through
        the states of the model, so every request was answered once or still waits. */
    method Serve(evs: seq<Event>)
      requires View() == Start(conf) && Checked(conf) && StreamOpen() && PathSoundness.Alive(conf, evs)
      modifies this, stream
      ensures View() == PathRuns.Run(conf, evs)
      ensures PathRuns.Answered(View()) + PathRuns.Waiting(View()) == PathRuns.Requests(evs)
    {
      var i := 0;
      assert evs[..|evs|] == evs && evs[..0] == [];
      while i < |evs|
        invariant 0 <= i <= |evs|
        invariant View() == PathRuns.Run(conf, evs[..i])
        invariant running ==> StreamOpen()
        invariant stream == null || stream == old(stream) || fresh(stream)
      {
        Step(evs, i, evs[i]);
        i := i + 1;
      }
      PathSoundness.AliveIsMet(conf, evs);
      PathRuns.RequestsAreConserved(conf, evs);
    }

    /** Message i of a run. */
    method Step(ghost evs: seq<Event>, ghost i: nat, ev: Event)
      requires Checked(conf) && PathSoundness.Alive(conf, evs) && i < |evs| && ev == evs[i]
      requires View() == PathRuns.Run(conf, evs[..i]) && (running ==> StreamOpen())
      modifies this, stream
      ensures View() == PathRuns.Run(conf, evs[..i + 1]) && (running ==> StreamOpen())
      ensures stream == null || stream == old(stream) || fresh(stream)
    {
      PathSoundness.StepOfRun(conf, evs, i, View());
      Turn(ev);
    }

    /** One turn of the select loop, with the code after the loop when the turn leaves it. */
    method Turn(ev: Event)
      requires MayReceive(ev)
      modifies this, stream
      ensures View() == Next(conf, old(View()), ev)
      ensures running ==> StreamOpen() && Sound(conf, View())
      ensures running && old(Inv(conf, View()) && Allowed(conf, View(), ev)) ==> Inv(conf, View())
      ensures stream == null || stream == old(stream) || fresh(stream)
    {
      ghost var s := View();
      PathSoundness.BeginKeepsAll(conf, s, ev);
      PathSoundness.TurnKeeps(conf, s, ev, Handle(conf, Begin(s), ev));
      readerCloses := {};
      assert View() == Begin(s);
      var leave := Dispatch(ev);
      if leave {
        Finish();
      }
    }

    method Dispatch(ev: Event) returns (leave: bool)
      requires MayReceive(ev)
      modifies this, stream
      ensures View() == Handle(conf, old(View()), ev)
      ensures StreamOpen() && (stream != null ==> stream == old(stream) || fresh(stream))
      ensures leave == Leaves(conf, View(), ev)
    {
      leave := false;
      match ev
      case ReadyTimerFires =>
        HandleReadyTimer();
        leave := conf.isRegexp;
      case CloseTimerFires =>
        HandleCloseTimer();
        leave := conf.isRegexp;
      case StaticReady(req) => HandleStaticReady(req);
      case StaticNotReady(req, author) =>
        HandleStaticNotReady(req, author);
        leave := source == NoSource && conf.isRegexp;
      case Describe(req) => HandleDescribe(req);
      case PublisherRemove(req, p) =>
        HandlePublisherRemove(req, p);
        leave := source == NoSource && conf.isRegexp;
      case Announce(req, p) => HandlePublisherAnnounce(req, p);
      case Record(req, p) => HandlePublisherRecord(req, p);
      case PublisherPause(req, p) =>
        HandlePublisherPause(req, p);
        leave := source == NoSource && conf.isRegexp;
      case ReaderRemove(req, r) => HandleReaderRemove(req, r);
      case SetupPlay(req, r) => HandleReaderSetupPlay(SetupReq(req, r));
      case PlayReader(req, r) => HandleReaderPlay(req, r);
      case PauseReader(req, r) => HandleReaderPause(req, r);
      case ContextDone => leave := true;
    }

    /** The code after the loop. */
    method Finish()
      modifies this, stream
      ensures View() == Terminate(old(View())) && stream == old(stream)
    {
      StopTimers();
      AnswerWaiting(Terminated);
      CloseEverything();
    }

    method StopTimers()
      modifies this`running, this`onDemandReadyTimer, this`onDemandCloseTimer
      ensures !running && !onDemandReadyTimer && !onDemandCloseTimer
    {
      running := false;
      onDemandReadyTimer := false;
      onDemandCloseTimer := false;
    }

    method CloseEverything()
      modifies this`countReaders, this`readerCloses, this`onDemandCmd, this`sourceCloses, stream
      ensures var s := old(View());
              View() == Terminate(s).(running := s.running, books := s.books, control := s.control.(command := false))
    {
      CloseReaders();
      onDemandCmd := false;
      if stream != null {
        stream.Close();
      }
      // every publisher also satisfies the interface of a static source
      if source.Static? || source.Publisher? {
        sourceCloses := sourceCloses + [source];
      }
    }

    method CloseReaders()
      modifies this`countReaders, this`readerCloses
      ensures countReaders == old(countReaders) - |Playing(readers)|
      ensures readerCloses == old(readerCloses) + readers.Keys
    {
      var playing, told := TellReaders(readers);
      countReaders := countReaders - playing;
      readerCloses := readerCloses + told;
    }

    // ------------------------------------------------------------ replies

    method Answer(req: ReqId, a: Answer)
      modifies this`replies
      ensures View().books == Write(old(View().books), req, a)
    {
      replies := replies + [Reply(req, a)];
    }

    method AnswerDescribes(a: Answer)
      modifies this`replies
      ensures replies == old(replies) + AnswerAll(describeRequests, a)
    {
      var i := 0;
      while i < |describeRequests|
        invariant i <= |describeRequests|
        invariant replies == old(replies) + AnswerAll(describeRequests[..i], a)
      {
        assert describeRequests[..i + 1][..i] == describeRequests[..i];
        replies := replies + [Reply(describeRequests[i], a)];
        i := i + 1;
      }
      assert describeRequests[..i] == describeRequests;
    }

    method AnswerSetups(a: Answer)
      modifies this`replies
      ensures replies == old(replies) + AnswerAll(SetupIds(setupPlayRequests), a)
    {
      var i := 0;
      while i < |setupPlayRequests|
        invariant i <= |setupPlayRequests|
        invariant replies == old(replies) + AnswerAll(SetupIds(setupPlayRequests[..i]), a)
      {
        PathInvariants.OneMoreSetup(readers, setupPlayRequests, i, a);
        replies := replies + [Reply(setupPlayRequests[i].req, a)];
        i := i + 1;
      }
      assert setupPlayRequests[..i] == setupPlayRequests;
    }

    method AnswerWaiting(a: Answer)
      modifies this`replies
      ensures replies == Flush(old(View().books), a).replies
    {
      AnswerDescribes(a);
      AnswerSetups(a);
    }

    method TimeOutRequests()
      modifies this`replies, this`describeRequests, this`setupPlayRequests
      ensures View().books == Flush(old(View().books), TimedOut)
    {
      AnswerDescribes(TimedOut);
      describeRequests := [];
      AnswerSetups(TimedOut);
      setupPlayRequests := [];
    }

    // ------------------------------------------------------------ the source

    predicate HasStaticSource()
      reads this
    {
      conf.kind.FromStatic?
    }

    method StaticSourceCreate()
      modifies this`source, this`staticsMade
      ensures source == Static(old(staticsMade)) && staticsMade == old(staticsMade) + 1
    {
      source := Static(staticsMade);
      staticsMade := staticsMade + 1;
    }

    method OnDemandStartSource()
      modifies this`source, this`staticsMade, this`onDemandCmd, this`onDemandReadyTimer, this`onDemandState
      ensures View() == StartOnDemand(conf, old(View()))
    {
      if HasStaticSource() {
        StaticSourceCreate();
      } else {
        onDemandCmd := true;
      }
      onDemandReadyTimer := true;
      onDemandState := WaitingReady;
    }

    method OnDemandScheduleClose()
      modifies this`onDemandCloseTimer, this`onDemandState
      ensures onDemandCloseTimer && onDemandState == Closing
    {
      onDemandCloseTimer := true;
      onDemandState := Closing;
    }

    /** Mutually recursive with DoPublisherRemove. It ends because the state is set to Initial before
        the publisher is removed. */
    method OnDemandCloseSource()
      requires StreamBacked()
      requires !source.Redirecting? && (source.Static? ==> HasStaticSource())
      requires if HasStaticSource() then source != NoSource else onDemandCmd
      modifies this, stream
      ensures View() == CloseOnDemand(conf, old(View()))
      ensures StreamOpen() && (stream != null ==> stream == old(stream))
      decreases 1, 1
    {
      if onDemandState == Closing {
        onDemandCloseTimer := false;
      }
      onDemandState := Initial;
      if HasStaticSource() {
        CloseStaticSource();
      } else {
        assert onDemandCmd;
        onDemandCmd := false;
        if source != NoSource {
          ClosePublisher();
        }
      }
    }

    method CloseStaticSource()
      requires StreamBacked() && (source.Static? || source.Publisher?)
      modifies this`readers, this`countReaders, this`readerCloses, this`sourceReady, this`stream,
               this`sourceCloses, this`source, stream
      ensures var s := CloseSource(old(View())); View() == Detach(if s.feed.ready then Unready(s) else s)
      ensures StreamOpen() && (stream != null ==> stream == old(stream))
    {
      if sourceReady {
        SourceSetNotReady();
      }
      assert source.Static? || source.Publisher?;
      sourceCloses := sourceCloses + [source];
      source := NoSource;
    }

    method ClosePublisher()
      requires StreamBacked() && onDemandState == Initial && source.Publisher?
      modifies this, stream
      ensures View() == PublisherLeaves(CloseSource(old(View())))
      ensures StreamOpen() && (stream != null ==> stream == old(stream))
      decreases 1, 0
    {
      assert source.Publisher?;
      sourceCloses := sourceCloses + [source];
      DoPublisherRemove();
    }

    method DoPublisherRemove()
      requires StreamBacked() && source.Publisher?
      requires sourceReady && IsOnDemand(conf) && onDemandState != Initial && !HasStaticSource() ==> onDemandCmd
      modifies this, stream
      ensures View() == RemovePublisher(conf, old(View()))
      ensures StreamOpen() && (stream != null ==> stream == old(stream))
      decreases if onDemandState != Initial then 2 else 0, 3
    {
      if sourceReady {
        countPublishers := countPublishers - 1;
        LoseTheSource();
      }
      ForgetSource();
    }

    method ForgetSource()
      requires StreamOpen() && (!OnlySessionsPlay(readers) ==> stream != null)
      modifies this`source, this`readers, this`countReaders, this`readerCloses, stream
      ensures View() == Detach(Evict(old(View())))
      ensures StreamOpen()
    {
      source := NoSource;
      DropReaders();
    }

    /** What every message about a lost ready source does: an on-demand source is closed as a whole,
        any other just stops being ready. */
    method LoseTheSource()
      requires StreamBacked() && !source.Redirecting? && (source.Static? ==> HasStaticSource())
      requires if IsOnDemand(conf) && onDemandState != Initial
               then if HasStaticSource() then source != NoSource else onDemandCmd
               else stream != null
      modifies this, stream
      ensures View() == LoseSource(conf, old(View()))
      ensures StreamOpen() && (stream != null ==> stream == old(stream))
      decreases if onDemandState != Initial then 1 else 0, 2
    {
      if IsOnDemand(conf) && onDemandState != Initial {
        OnDemandCloseSource();
      } else {
        SourceSetNotReady();
      }
    }

    method SourceSetReady()
      requires onDemandState == Closing ==> setupPlayRequests == []
      modifies this
      ensures View() == BecomeReady(conf, old(View()))
      ensures fresh(stream) && !stream.closed
    {
      OpenStream();
      if IsOnDemand(conf) {
        EndWaiting();
      }
    }

    method EndWaiting()
      requires stream != null && (onDemandState == Closing ==> setupPlayRequests == [])
      modifies this`onDemandReadyTimer, this`replies, this`describeRequests, this`setupPlayRequests, this`readers,
               this`onDemandState, this`onDemandCloseTimer
      ensures readers == Attach(old(readers), old(setupPlayRequests))
      ensures View().books == Flush(old(View().books), WithStream(stream.id))
      ensures View().control == Control(if readers == map[] then Closing else Ready, false,
                                        old(onDemandCloseTimer) || readers == map[], onDemandCmd)
    {
      onDemandReadyTimer := false;
      ReleaseWaiting();
      ReadyOrClosing();
    }

    method OpenStream()
      modifies this`sourceReady, this`stream, this`streamsMade
      ensures sourceReady && streamsMade == old(streamsMade) + 1
      ensures fresh(stream) && !stream.closed && stream.View() == StreamView(old(streamsMade), {})
    {
      sourceReady := true;
      stream := new Stream(streamsMade);
      streamsMade := streamsMade + 1;
    }

    method ReadyOrClosing()
      modifies this`onDemandState, this`onDemandCloseTimer
      ensures onDemandState == if readers == map[] then Closing else Ready
      ensures onDemandCloseTimer == (old(onDemandCloseTimer) || readers == map[])
    {
      if |readers| > 0 {
        onDemandState := Ready;
      } else {
        OnDemandScheduleClose();
      }
    }

    /** Everybody who waited for the source is answered, and the waiting readers are attached. */
    method ReleaseWaiting()
      requires stream != null && (onDemandState == Closing ==> setupPlayRequests == [])
      modifies this`replies, this`describeRequests, this`setupPlayRequests, this`readers, this`onDemandState,
               this`onDemandCloseTimer
      ensures onDemandState == old(onDemandState) && onDemandCloseTimer == old(onDemandCloseTimer)
      ensures readers == Attach(old(readers), old(setupPlayRequests))
      ensures View().books == Flush(old(View().books), WithStream(stream.id))
    {
      AnswerDescribes(WithStream(stream.id));
      describeRequests := [];
      AttachWaitingReaders();
      setupPlayRequests := [];
    }

    method AttachWaitingReaders()
      requires stream != null && (onDemandState == Closing ==> setupPlayRequests == [])
      modifies this`readers, this`replies, this`onDemandState, this`onDemandCloseTimer
      ensures onDemandState == old(onDemandState) && onDemandCloseTimer == old(onDemandCloseTimer)
      ensures readers == Attach(old(readers), setupPlayRequests)
      ensures replies == old(replies) + AnswerAll(SetupIds(setupPlayRequests), WithStream(stream.id))
    {
      var i := 0;
      while i < |setupPlayRequests|
        invariant i <= |setupPlayRequests|
        invariant onDemandState == old(onDemandState) && onDemandCloseTimer == old(onDemandCloseTimer)
        invariant readers == Attach(old(readers), setupPlayRequests[..i])
        invariant replies == old(replies) + AnswerAll(SetupIds(setupPlayRequests[..i]), WithStream(stream.id))
      {
        PathInvariants.OneMoreSetup(old(readers), setupPlayRequests, i, WithStream(stream.id));
        HandleReaderSetupPlayPost(setupPlayRequests[i]);
        i := i + 1;
      }
      assert setupPlayRequests[..i] == setupPlayRequests;
    }

    method SourceSetNotReady()
      requires StreamBacked() && stream != null
      modifies this`readers, this`countReaders, this`readerCloses, this`sourceReady, this`stream, stream
      ensures View() == Unready(old(View()))
    {
      DropReaders();
      sourceReady := false;
      stream.Close();
      stream := null;
    }

    // ------------------------------------------------------------ readers

    method DoReaderRemove(r: Reader)
      requires StreamOpen() && r in readers && (readers[r] == Play && !r.isRTSP ==> stream != null)
      modifies this`readers, this`countReaders, stream
      ensures View().audience == Without(old(View().audience), r)
      ensures StreamOpen()
    {
      if readers[r] == Play {
        countReaders := countReaders - 1;
        if stream != null || !r.isRTSP {
          stream.ReaderRemove(r);
        }
      }
      readers := readers - {r};
    }

    method DropReader(r: Reader)
      requires StreamOpen() && (!OnlySessionsPlay(readers) ==> stream != null) && r in readers
      modifies this`readers, this`countReaders, this`readerCloses, stream
      ensures readers == old(readers) - {r}
      ensures Emptied(View().audience) == Emptied(old(View().audience))
      ensures StreamOpen() && (!OnlySessionsPlay(readers) ==> stream != null)
    {
      PathInvariants.EmptiedOneByOne(View().audience, r);
      DoReaderRemove(r);
      readerCloses := readerCloses + {r};
    }

    /** The loop that drops every reader and tells it to close. */
    method DropReaders()
      requires StreamOpen() && (!OnlySessionsPlay(readers) ==> stream != null)
      modifies this`readers, this`countReaders, this`readerCloses, stream
      ensures View().audience == Emptied(old(View().audience))
      ensures StreamOpen()
    {
      while readers != map[]
        invariant StreamOpen() && (!OnlySessionsPlay(readers) ==> stream != null)
        invariant Emptied(View().audience) == Emptied(old(View().audience))
        decreases readers.Keys
      {
        assert readers.Keys != {};
        var r :| r in readers;
        DropReader(r);
      }
      PathInvariants.EmptiedNobody(View().audience);
    }

    // ------------------------------------------------------------ handlers

    method HandleReadyTimer()
      requires MayReceive(ReadyTimerFires)
      modifies this, stream
      ensures View() == Handle(conf, old(View()), ReadyTimerFires)
      ensures StreamOpen() && (stream != null ==> stream == old(stream))
    {
      onDemandReadyTimer := false;
      TimeOutRequests();
      OnDemandCloseSource();
    }

    method HandleCloseTimer()
      requires MayReceive(CloseTimerFires)
      modifies this, stream
      ensures View() == Handle(conf, old(View()), CloseTimerFires)
      ensures StreamOpen() && (stream != null ==> stream == old(stream))
    {
      onDemandCloseTimer := false;
      OnDemandCloseSource();
    }

    method HandleStaticReady(req: ReqId)
      requires MayReceive(StaticReady(req))
      modifies this
      ensures View() == Handle(conf, old(View()), StaticReady(req))
      ensures StreamOpen() && fresh(stream)
    {
      SourceSetReady();
      Answer(req, WithStream(stream.id));
    }

    method HandleStaticNotReady(req: ReqId, author: Source)
      requires MayReceive(StaticNotReady(req, author))
      modifies this, stream
      ensures View() == Handle(conf, old(View()), StaticNotReady(req, author))
      ensures StreamOpen() && (stream != null ==> stream == old(stream))
    {
      if author == source {
        LoseTheSource();
      }
      Answer(req, Done);
    }

    method HandleDescribe(req: ReqId)
      requires MayReceive(Describe(req))
      modifies this
      ensures View() == OnDescribe(conf, old(View()), req)
      ensures stream == old(stream)
    {
      if source.Redirecting? {
        Answer(req, Redirected);
        return;
      }
      if sourceReady {
        Answer(req, WithStream(stream.id));
        return;
      }
      if IsOnDemand(conf) {
        if onDemandState == Initial {
          OnDemandStartSource();
        }
        describeRequests := describeRequests + [req];
        return;
      }
      if conf.hasFallback {
        Answer(req, FallbackTo);
        return;
      }
      Answer(req, NoOnePublishing);
    }

    method HandlePublisherRemove(req: ReqId, p: nat)
      requires MayReceive(PublisherRemove(req, p))
      modifies this, stream
      ensures View() == Handle(conf, old(View()), PublisherRemove(req, p))
      ensures StreamOpen() && (stream != null ==> stream == old(stream))
    {
      if source == Publisher(p) {
        DoPublisherRemove();
      }
      Answer(req, Done);
    }

    method HandlePublisherAnnounce(req: ReqId, p: nat)
      requires MayReceive(Announce(req, p))
      modifies this, stream
      ensures View() == OnAnnounce(conf, old(View()), req, p)
      ensures StreamOpen() && (stream != null ==> stream == old(stream))
    {
      if source != NoSource {
        if HasStaticSource() {
          Answer(req, StaticAssigned);
          return;
        }
        if conf.disableOverride {
          Answer(req, AlreadyPublishing);
          return;
        }
        assert source.Publisher?;
        sourceCloses := sourceCloses + [source];
        DoPublisherRemove();
      }
      source := Publisher(p);
      Answer(req, Accepted);
    }

    method HandlePublisherRecord(req: ReqId, p: nat)
      requires MayReceive(Record(req, p))
      modifies this
      ensures View() == OnRecord(conf, old(View()), req, p)
      ensures StreamOpen() && (stream != null ==> stream == old(stream) || fresh(stream))
    {
      if source != Publisher(p) {
        Answer(req, NotAssigned);
        return;
      }
      countPublishers := countPublishers + 1;
      SourceSetReady();
      Answer(req, WithStream(stream.id));
    }

    method HandlePublisherPause(req: ReqId, p: nat)
      requires MayReceive(PublisherPause(req, p))
      modifies this, stream
      ensures View() == Handle(conf, old(View()), PublisherPause(req, p))
      ensures StreamOpen() && (stream != null ==> stream == old(stream))
    {
      if source == Publisher(p) && sourceReady {
        countPublishers := countPublishers - 1;
        LoseTheSource();
      }
      Answer(req, Done);
    }

    method RemoveIfAttached(r: Reader)
      requires StreamBacked()
      modifies this`readers, this`countReaders, stream
      ensures View().audience == Without(old(View().audience), r)
      ensures StreamOpen()
    {
      if r in readers {
        DoReaderRemove(r);
      }
    }

    method HandleReaderRemove(req: ReqId, r: Reader)
      requires StreamBacked()
      modifies this, stream
      ensures View() == Handle(conf, old(View()), ReaderRemove(req, r))
      ensures StreamOpen() && stream == old(stream)
    {
      RemoveIfAttached(r);
      Answer(req, Done);
      CloseIfUnused();
    }

    method CloseIfUnused()
      modifies this`onDemandCloseTimer, this`onDemandState
      ensures View() == Idle(conf, old(View()))
    {
      if IsOnDemand(conf) && |readers| == 0 && onDemandState == Ready {
        OnDemandScheduleClose();
      }
    }

    method HandleReaderSetupPlay(setup: SetupReq)
      requires MayReceive(SetupPlay(setup.req, setup.author))
      modifies this
      ensures View() == OnSetupPlay(conf, old(View()), setup)
      ensures stream == old(stream)
    {
      if sourceReady {
        HandleReaderSetupPlayPost(setup);
        return;
      }
      if IsOnDemand(conf) {
        if onDemandState == Initial {
          OnDemandStartSource();
        }
        setupPlayRequests := setupPlayRequests + [setup];
        return;
      }
      Answer(setup.req, NoOnePublishing);
    }

    method HandleReaderSetupPlayPost(setup: SetupReq)
      requires stream != null
      modifies this`readers, this`replies, this`onDemandState, this`onDemandCloseTimer
      ensures readers == old(readers)[setup.author := PrePlay]
      ensures replies == old(replies) + [Reply(setup.req, WithStream(stream.id))]
      ensures if IsOnDemand(conf) && old(onDemandState) == Closing then onDemandState == Ready && !onDemandCloseTimer
              else onDemandState == old(onDemandState) && onDemandCloseTimer == old(onDemandCloseTimer)
    {
      readers := readers[setup.author := PrePlay];
      if IsOnDemand(conf) && onDemandState == Closing {
        onDemandState := Ready;
        onDemandCloseTimer := false;
      }
      Answer(setup.req, WithStream(stream.id));
    }

    method HandleReaderPlay(req: ReqId, r: Reader)
      requires StreamOpen() && (stream != null || r.isRTSP)
      modifies this, stream
      ensures View() == Handle(conf, old(View()), PlayReader(req, r))
      ensures StreamOpen() && stream == old(stream)
    {
      countReaders := countReaders + 1;
      readers := readers[r := Play];
      if stream != null || !r.isRTSP {
        stream.ReaderAdd(r);
      }
      Answer(req, Done);
    }

    method HandleReaderPause(req: ReqId, r: Reader)
      requires StreamBacked()
      modifies this, stream
      ensures View() == Handle(conf, old(View()), PauseReader(req, r))
      ensures StreamOpen() && stream == old(stream)
    {
      if r in readers && readers[r] == Play {
        countReaders := countReaders - 1;
        readers := readers[r := PrePlay];
        if stream != null || !r.isRTSP {
          stream.ReaderRemove(r);
        }
      }
      Answer(req, Done);
    }

    /** A frame from the source of a running path reaches exactly the playing readers that are not RTSP
        sessions, each of them once. */
    method DeliverFrame() returns (delivered: seq<Reader>)
      requires Inv(conf, View()) && stream != null
      ensures forall r :: Deliveries(delivered, r) == if r in readers && readers[r] == Play && !r.isRTSP then 1 else 0
    {
      delivered := stream.OnFrame();
    }
  }
}
