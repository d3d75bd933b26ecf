/** What each message does to a path, field by field. The laws speak of readers, requests, sources and timers,
    and not of the functions that the model puts the message together from. */
module PathLaws {
  import opened Common
  import opened Streams
  import opened PathModel
  import opened PathInvariants
  import opened PathAccounts

  // ---------------------------------------------------------------- replies

  /** The message is answered, and nothing else happens. */
  predicate OnlyReplied(s: PathState, t: PathState, req: ReqId, a: Answer) {
    t == s.(books := s.books.(replies := s.books.replies + [Reply(req, a)]))
  }

  predicate RepliedDone(s: PathState, t: PathState, req: ReqId) {
    t.running == s.running && t.books == s.books.(replies := s.books.replies + [Reply(req, Done)])
  }

  /** The waiting ones got this answer, the describes first, each kind in its order; nobody waits any more. */
  ghost predicate WaitersAnswered(b: Books, a: Answer, t: Books) {
    var n, d, u := |b.replies|, |b.describes|, |b.setups|;
    && t.describes == [] && t.setups == [] && |t.replies| >= n + d + u && t.replies[..n] == b.replies
    && (forall i :: 0 <= i < d ==> t.replies[n + i] == Reply(b.describes[i], a))
    && (forall i :: 0 <= i < u ==> t.replies[n + d + i] == Reply(b.setups[i].req, a))
  }

  lemma {:induction false} SetupIdAt(setups: seq<SetupReq>, i: nat)
    requires i < |setups|
    ensures SetupIds(setups)[i] == setups[i].req
  {
    if i < |setups| - 1 { SetupIdAt(setups[..|setups| - 1], i); }
  }

  lemma FlushAnswersWaiters(b: Books, a: Answer)
    ensures WaitersAnswered(b, a, Flush(b, a)) && |Flush(b, a).replies| == |b.replies| + |b.describes| + |b.setups|
  {
    forall i | 0 <= i < |b.describes| ensures AnswerAll(b.describes, a)[i] == Reply(b.describes[i], a) {
      AnswerAllAnswers(b.describes, a, i);
    }
    forall i | 0 <= i < |b.setups| ensures AnswerAll(SetupIds(b.setups), a)[i] == Reply(b.setups[i].req, a) {
      AnswerAllAnswers(SetupIds(b.setups), a, i);
      SetupIdAt(b.setups, i);
    }
  }

  // ---------------------------------------------------------------- readers

  /** All readers but one keep their entry. */
  ghost predicate OthersKept(a: map<Reader, ReaderState>, b: map<Reader, ReaderState>, r: Reader) {
    forall q :: q != r ==> (q in b <==> q in a) && (q in a ==> b[q] == a[q])
  }

  /** The stream is the same, and of the forwarding set only this reader's membership may differ. */
  ghost predicate ForwardsAlike(a: Option<StreamView>, b: Option<StreamView>, r: Reader) {
    match (a, b)
    case (Some(v), Some(w)) => v.id == w.id && forall q :: q != r ==> (q in w.forward <==> q in v.forward)
    case (None, None) => true
    case _ => false
  }

  predicate Forwards(a: Audience, r: Reader) {
    a.stream.Some? && r in a.stream.value.forward
  }

  predicate IsPlaying(a: Audience, r: Reader) {
    r in a.readers && a.readers[r] == Play
  }

  /** A reader that is removed is gone, with its share of the statistics and its place in the stream, and an
      on-demand path that loses its last reader is about to close. */
  lemma ReaderRemoveLaw(c: PathConf, s: PathState, req: ReqId, r: Reader)
    ensures var t := Handle(c, s, ReaderRemove(req, r)); var a, b := s.audience, t.audience;
            && r !in b.readers && OthersKept(a.readers, b.readers, r)
            && b.count == a.count - (if IsPlaying(a, r) then 1 else 0) && b.closes == a.closes
            && ForwardsAlike(a.stream, b.stream, r)
            && (Forwards(b, r) <==> Forwards(a, r) && !(IsPlaying(a, r) && !r.isRTSP))
            && t.feed == s.feed && RepliedDone(s, t, req)
            && t.control == if IsOnDemand(c) && s.control.state == Ready && (forall q :: q in a.readers ==> q == r)
                            then s.control.(closeTimer := true, state := Closing) else s.control
  {
    OnlyOrNone(s.audience.readers, Without(s.audience, r).readers, r);
  }

  lemma OnlyOrNone(a: map<Reader, ReaderState>, b: map<Reader, ReaderState>, r: Reader)
    requires b == a - {r} || (r !in a && b == a)
    ensures b == map[] <==> forall q :: q in a ==> q == r
  {
    if b != map[] {
      assert b.Keys != {};
      var q :| q in b;
      assert q in a && q != r;
    } else {
      forall q | q in a ensures q == r {
        assert q == r || q in b;
      }
    }
  }

  /** A reader that plays is marked, counted and, unless it is an RTSP session, forwarded to. */
  lemma PlayLaw(c: PathConf, s: PathState, req: ReqId, r: Reader)
    requires Sound(c, s) && !Panics(c, s, PlayReader(req, r))
    ensures var t := Handle(c, s, PlayReader(req, r)); var a, b := s.audience, t.audience;
            && IsPlaying(b, r) && OthersKept(a.readers, b.readers, r) && b.count == a.count + 1 && b.closes == a.closes
            && ForwardsAlike(a.stream, b.stream, r) && (Forwards(b, r) <==> Forwards(a, r) || !r.isRTSP)
            && t.feed == s.feed && t.control == s.control && RepliedDone(s, t, req)
  {
  }

  /** A reader that pauses stays attached, and is neither counted nor forwarded to; one that does not play is
      left alone. */
  lemma PauseLaw(c: PathConf, s: PathState, req: ReqId, r: Reader)
    ensures var t := Handle(c, s, PauseReader(req, r)); var a, b := s.audience, t.audience;
            if IsPlaying(a, r) then
              && r in b.readers && b.readers[r] == PrePlay && OthersKept(a.readers, b.readers, r)
              && b.count == a.count - 1 && b.closes == a.closes
              && ForwardsAlike(a.stream, b.stream, r) && (Forwards(b, r) <==> Forwards(a, r) && r.isRTSP)
              && t.feed == s.feed && t.control == s.control && RepliedDone(s, t, req)
            else OnlyReplied(s, t, req, Done)
  {
  }

  // ---------------------------------------------------------------- describe and set up

  /** A path that is asked for in vain starts its source or command, unless it has done so already. */
  predicate WokenIfInitial(c: PathConf, s: PathState, t: PathState) {
    if s.control.state != Initial then t.feed == s.feed && t.control == s.control
    else
      && t.control.state == WaitingReady && t.control.readyTimer && t.control.closeTimer == s.control.closeTimer
      && if c.kind.FromStatic? then
           && t.feed == s.feed.(source := Static(s.feed.statics), statics := s.feed.statics + 1)
           && t.control.command == s.control.command
         else t.feed == s.feed && t.control.command
  }

  /** On-demand paths are those with a command, and those with a static source that is wanted on demand only. */
  lemma DescribeLaw(c: PathConf, s: PathState, req: ReqId)
    requires Sound(c, s)
    ensures var t := Handle(c, s, Describe(req));
            if s.feed.source == Redirecting then OnlyReplied(s, t, req, Redirected)
            else if s.feed.ready then OnlyReplied(s, t, req, WithStream(s.audience.stream.value.id))
            else if c.runOnDemand || (c.kind.FromStatic? && c.sourceOnDemand) then
              && t.running == s.running && t.audience == s.audience && WokenIfInitial(c, s, t)
              && t.books == s.books.(describes := s.books.describes + [req])
            else OnlyReplied(s, t, req, if c.hasFallback then FallbackTo else NoOnePublishing)
  {
  }

  /** A reader that is set up on a ready path is attached, and keeps the path from closing; on an on-demand
      path that is not ready it waits, and the source is started. */
  lemma SetupLaw(c: PathConf, s: PathState, req: ReqId, r: Reader)
    requires Sound(c, s)
    ensures var t := Handle(c, s, SetupPlay(req, r));
            var onDemand := c.runOnDemand || (c.kind.FromStatic? && c.sourceOnDemand);
            if s.feed.ready then
              && t.running == s.running && t.feed == s.feed
              && t.audience == s.audience.(readers := s.audience.readers[r := PrePlay])
              && t.books == s.books.(replies := s.books.replies + [Reply(req, WithStream(s.audience.stream.value.id))])
              && t.control == if onDemand && s.control.state == Closing
                              then s.control.(state := Ready, closeTimer := false) else s.control
            else if onDemand then
              && t.running == s.running && t.audience == s.audience && WokenIfInitial(c, s, t)
              && t.books == s.books.(setups := s.books.setups + [SetupReq(req, r)])
            else OnlyReplied(s, t, req, NoOnePublishing)
  {
  }

  // ---------------------------------------------------------------- a source that gets ready

  ghost predicate WaitsToBeSetUp(b: Books, r: Reader) {
    exists i :: 0 <= i < |b.setups| && b.setups[i].author == r
  }

  lemma {:induction false} AttachMeans(readers: map<Reader, ReaderState>, setups: seq<SetupReq>, r: Reader)
    ensures var waits := exists i :: 0 <= i < |setups| && setups[i].author == r;
            var m := Attach(readers, setups);
            && (r in m <==> waits || r in readers)
            && (r in m ==> m[r] == if waits then PrePlay else readers[r])
  {
    if setups != [] {
      var n := |setups| - 1;
      AttachMeans(readers, setups[..n], r);
      if i :| 0 <= i < n && setups[..n][i].author == r { assert setups[i].author == r; }
      if i :| 0 <= i < |setups| && setups[i].author == r { if i < n { assert setups[..n][i].author == r; } }
    }
  }

  /** The waiting readers are attached, and all others keep their entry. */
  ghost predicate WaitersAttached(s: PathState, b: map<Reader, ReaderState>) {
    var a := s.audience.readers;
    forall r ::
      && (r in b <==> WaitsToBeSetUp(s.books, r) || r in a)
      && (r in b ==> b[r] == if WaitsToBeSetUp(s.books, r) then PrePlay else a[r])
  }

  /** A new stream is there; and on an on-demand path everybody who waited is served with it, and the path is
      Ready if it has readers and about to close if not. */
  ghost predicate GotReady(c: PathConf, s: PathState, t: PathState) {
    var n := s.feed.streams;
    && t.running == s.running
    && t.feed == s.feed.(ready := true, streams := n + 1, count := t.feed.count)
    && t.audience == s.audience.(stream := Some(StreamView(n, {})), readers := t.audience.readers)
    && if IsOnDemand(c) then
         && WaitersAttached(s, t.audience.readers) && WaitersAnswered(s.books, WithStream(n), t.books)
         && |t.books.replies| == |s.books.replies| + |s.books.describes| + |s.books.setups| + 1
         && t.control.state == (if |t.audience.readers| > 0 then Ready else Closing) && !t.control.readyTimer
         && t.control.closeTimer == (s.control.closeTimer || |t.audience.readers| == 0)
         && t.control.command == s.control.command
       else
         && t.audience.readers == s.audience.readers && t.control == s.control
         && |t.books.replies| == |s.books.replies| + 1 && t.books == s.books.(replies := t.books.replies)
         && s.books.replies <= t.books.replies
  }

  predicate LastReply(t: PathState, req: ReqId, a: Answer) {
    t.books.replies != [] && t.books.replies[|t.books.replies| - 1] == Reply(req, a)
  }

  lemma BecomeReadyLaw(c: PathConf, s: PathState, t: PathState, req: ReqId)
    requires t == Say(BecomeReady(c, s), req, WithStream(s.feed.streams))
    ensures GotReady(c, s, t) && t.feed.count == s.feed.count && LastReply(t, req, WithStream(s.feed.streams))
  {
    FlushAnswersWaiters(s.books, WithStream(s.feed.streams));
    var a, b := s.audience.readers, Attach(s.audience.readers, s.books.setups);
    forall r
      ensures r in b <==> WaitsToBeSetUp(s.books, r) || r in a
      ensures r in b ==> b[r] == if WaitsToBeSetUp(s.books, r) then PrePlay else a[r]
    {
      AttachMeans(a, s.books.setups, r);
    }
  }

  /** The publisher that is assigned to the path is counted in and makes it ready; any other is refused. */
  lemma RecordLaw(c: PathConf, s: PathState, req: ReqId, p: nat)
    ensures var t := Handle(c, s, Record(req, p));
            if s.feed.source == Publisher(p) then
              GotReady(c, s, t) && t.feed.count == s.feed.count + 1 && LastReply(t, req, WithStream(s.feed.streams))
            else OnlyReplied(s, t, req, NotAssigned)
  {
    if s.feed.source == Publisher(p) {
      BecomeReadyLaw(c, CountPublisher(s, 1), Handle(c, s, Record(req, p)), req);
    }
  }

  lemma StaticReadyLaw(c: PathConf, s: PathState, req: ReqId)
    ensures var t := Handle(c, s, StaticReady(req));
            GotReady(c, s, t) && t.feed.count == s.feed.count && LastReply(t, req, WithStream(s.feed.streams))
  {
    BecomeReadyLaw(c, s, Handle(c, s, StaticReady(req)), req);
  }

  // ---------------------------------------------------------------- a source that is lost

  /** Every reader is dropped, counted out if it played, and told to close. */
  predicate ReadersGone(s: PathState, t: PathState) {
    var a, b := s.audience, t.audience;
    && b.readers == map[] && b.closes == a.closes + a.readers.Keys
    && b.count == a.count - |set r | r in a.readers && a.readers[r] == Play|
  }

  /** And there is no stream any more. */
  predicate StreamGone(s: PathState, t: PathState) {
    !t.feed.ready && t.audience.stream == None && ReadersGone(s, t)
  }

  /** The path waits for its source, or has it on demand. */
  predicate OnDemandIsOn(c: PathConf, s: PathState) {
    IsOnDemand(c) && s.control.state != Initial
  }

  /** The control is back where it started; only a timer that does not belong to the state stays armed. */
  predicate BackToInitial(c: PathConf, s: PathState, t: PathState) {
    && t.control.state == Initial && t.control.readyTimer == s.control.readyTimer
    && t.control.closeTimer == (s.control.closeTimer && s.control.state != Closing)
    && t.control.command == (s.control.command && c.kind.FromStatic?)
  }

  /** The feed has lost its source: these were closed, and the publishers are fewer by this many. */
  predicate SourceGone(s: PathState, t: PathState, closed: seq<Source>, fewer: int) {
    t.feed == s.feed.(source := NoSource, ready := false,
                      closes := s.feed.closes + closed, count := s.feed.count - fewer)
  }

  /** The end of an on-demand source: its static source is closed; or its command is stopped, and a publisher
      is closed and, if it was ready, counted out. */
  predicate OnDemandEnds(c: PathConf, s: PathState, t: PathState) {
    && t.running == s.running
    && if c.kind.FromStatic? then
         && SourceGone(s, t, [s.feed.source], 0)
         && if s.feed.ready then StreamGone(s, t) else t.audience == s.audience
       else if s.feed.source == NoSource then t.feed == s.feed && t.audience == s.audience
       else
         && SourceGone(s, t, [s.feed.source], if s.feed.ready then 1 else 0)
         && ReadersGone(s, t) && t.audience.stream == None
  }

  lemma CloseOnDemandLaw(c: PathConf, s: PathState)
    requires s.audience.stream.None? ==> !s.feed.ready
    requires s.audience.stream.Some? ==> s.feed.ready
    ensures var t := CloseOnDemand(c, s);
            OnDemandEnds(c, s, t) && BackToInitial(c, s, t) && t.books == s.books
  {
    assert Playing(map[]) == {};
  }

  lemma ReadyTimerLaw(c: PathConf, s: PathState)
    requires Sound(c, s) && !Panics(c, s, ReadyTimerFires)
    ensures var t := Handle(c, s, ReadyTimerFires);
            && OnDemandEnds(c, s, t) && WaitersAnswered(s.books, TimedOut, t.books)
            && |t.books.replies| == |s.books.replies| + |s.books.describes| + |s.books.setups|
            && BackToInitial(c, s.(control := s.control.(readyTimer := false)), t)
  {
    FlushAnswersWaiters(s.books, TimedOut);
    CloseOnDemandLaw(c, s.(control := s.control.(readyTimer := false), books := Flush(s.books, TimedOut)));
  }

  lemma CloseTimerLaw(c: PathConf, s: PathState)
    requires Sound(c, s) && !Panics(c, s, CloseTimerFires)
    ensures var t := Handle(c, s, CloseTimerFires);
            && OnDemandEnds(c, s, t) && t.books == s.books
            && BackToInitial(c, s.(control := s.control.(closeTimer := false)), t)
  {
    CloseOnDemandLaw(c, s.(control := s.control.(closeTimer := false)));
  }

  /** A static source that reports its loss takes an on-demand path down; on any other the source stays, and
      the stream and the readers go. A report of another source is only answered. */
  lemma StaticNotReadyLaw(c: PathConf, s: PathState, req: ReqId, author: Source)
    requires Sound(c, s) && !Panics(c, s, StaticNotReady(req, author))
    ensures var t := Handle(c, s, StaticNotReady(req, author));
            if s.feed.source != author then OnlyReplied(s, t, req, Done)
            else
              && RepliedDone(s, t, req)
              && if OnDemandIsOn(c, s) then OnDemandEnds(c, s, t) && BackToInitial(c, s, t)
                 else StreamGone(s, t) && t.feed == s.feed.(ready := false) && t.control == s.control
  {
    CloseOnDemandLaw(c, s);
  }

  /** A ready publisher that pauses is counted out, and once more if it takes an on-demand path down; on any
      other path it stays assigned, and the stream and the readers go. */
  lemma PublisherPauseLaw(c: PathConf, s: PathState, req: ReqId, p: nat)
    requires Sound(c, s) && !Panics(c, s, PublisherPause(req, p))
    ensures var t := Handle(c, s, PublisherPause(req, p));
            if s.feed.source != Publisher(p) || !s.feed.ready then OnlyReplied(s, t, req, Done)
            else
              && RepliedDone(s, t, req)
              && if OnDemandIsOn(c, s) then OnDemandEnds(c, CountPublisher(s, -1), t) && BackToInitial(c, s, t)
                 else
                   && StreamGone(s, t) && t.feed == s.feed.(ready := false, count := s.feed.count - 1)
                   && t.control == s.control
  {
    CloseOnDemandLaw(c, CountPublisher(s, -1));
  }

  /** A publisher leaves: a ready one is counted out and, on demand, closed and counted out again; the source,
      the stream and the readers go. */
  predicate PublisherGone(c: PathConf, s: PathState, t: PathState) {
    && t.running == s.running && ReadersGone(s, t) && t.audience.stream == None
    && if s.feed.ready && OnDemandIsOn(c, s) then
         && SourceGone(s, t, [s.feed.source], if c.kind.FromStatic? then 1 else 2) && BackToInitial(c, s, t)
       else
         && SourceGone(s, t, [], if s.feed.ready then 1 else 0) && t.control == s.control
  }

  lemma RemovePublisherLaw(c: PathConf, s: PathState)
    requires Checked(c) && Sound(c, s) && s.feed.source.Publisher?
    ensures var t := RemovePublisher(c, s); PublisherGone(c, s, t) && t.books == s.books
  {
    assert Playing(map[]) == {};
    if s.feed.ready && OnDemandIsOn(c, s) {
      CloseOnDemandLaw(c, CountPublisher(s, -1));
      EmptiedNobody(CloseOnDemand(c, CountPublisher(s, -1)).audience);
    }
  }

  lemma PublisherRemoveLaw(c: PathConf, s: PathState, req: ReqId, p: nat)
    requires Checked(c) && Sound(c, s) && !Panics(c, s, PublisherRemove(req, p))
    ensures var t := Handle(c, s, PublisherRemove(req, p));
            if s.feed.source == Publisher(p) then PublisherGone(c, s, t) && RepliedDone(s, t, req)
            else OnlyReplied(s, t, req, Done)
  {
    if s.feed.source == Publisher(p) { RemovePublisherLaw(c, s); }
  }

  /** A path with a static source refuses publishers, and one that forbids overriding keeps the one it has;
      otherwise the new publisher is assigned, after the old one was closed and has left. */
  lemma AnnounceLaw(c: PathConf, s: PathState, req: ReqId, p: nat)
    requires Checked(c) && Sound(c, s) && !Panics(c, s, Announce(req, p))
    ensures var t := Handle(c, s, Announce(req, p));
            if s.feed.source != NoSource && c.kind.FromStatic? then OnlyReplied(s, t, req, StaticAssigned)
            else if s.feed.source != NoSource && c.disableOverride then OnlyReplied(s, t, req, AlreadyPublishing)
            else if s.feed.source == NoSource then
              OnlyReplied(s.(feed := s.feed.(source := Publisher(p))), t, req, Accepted)
            else
              && t.feed.source == Publisher(p)
              && t.books == s.books.(replies := s.books.replies + [Reply(req, Accepted)])
              && PublisherGone(c, CloseSource(s), t.(feed := t.feed.(source := NoSource)))
  {
    if s.feed.source.Publisher? { RemovePublisherLaw(c, CloseSource(s)); }
  }

  // ---------------------------------------------------------------- the beginning and the end

  lemma StartLaw(c: PathConf)
    ensures var s := Start(c);
            && s.running && !s.feed.ready && s.feed.count == 0 && s.feed.closes == [] && s.feed.streams == 0
            && s.feed.source == (if c.kind.FromRedirect? then Redirecting
                                 else if c.kind.FromStatic? && !c.sourceOnDemand then Static(0) else NoSource)
            && s.feed.statics == (if s.feed.source == Static(0) then 1 else 0)
            && s.audience == Audience(None, map[], 0, {}) && s.books == Books([], [], [])
            && s.control == Control(Initial, false, false, false)
  {
  }

  /** The loop ends when it is told to; and on a path that was made for a regular expression, when a timer has
      fired, or when a message about the source leaves none. */
  lemma LeaveLaw(c: PathConf, s: PathState, ev: Event)
    ensures var t := Handle(c, s.(audience := s.audience.(closes := {})), ev);
            var timer := ev.ReadyTimerFires? || ev.CloseTimerFires?;
            var aboutSource := ev.StaticNotReady? || ev.PublisherRemove? || ev.PublisherPause?;
            var leaves := ev.ContextDone? || (c.isRegexp && (timer || (aboutSource && t.feed.source == NoSource)));
            Next(c, s, ev) == if leaves then Terminate(t) else t
  {
  }

  lemma ContextDoneLaw(c: PathConf, s: PathState)
    ensures Handle(c, s, ContextDone) == s
  {
  }

  /** At the end everybody who waits is told so, every reader is told to close and counted out if it played, a
      source of either kind is closed, and nothing stays armed, running or forwarded to. */
  lemma EndLaw(s: PathState)
    ensures var t := Terminate(s);
            && !t.running && t.control == s.control.(readyTimer := false, closeTimer := false, command := false)
            && WaitersAnswered(s.books, Terminated, t.books.(describes := [], setups := []))
            && |t.books.replies| == |s.books.replies| + |s.books.describes| + |s.books.setups|
            && t.audience.closes == s.audience.closes + s.audience.readers.Keys
            && t.audience.count ==
               s.audience.count - |set r | r in s.audience.readers && s.audience.readers[r] == Play|
            && (t.audience.stream.Some? ==> t.audience.stream.value.forward == {})
            && t.feed == s.feed.(closes := s.feed.closes +
                                   (if s.feed.source == NoSource || s.feed.source == Redirecting then []
                                    else [s.feed.source]))
  {
    FlushAnswersWaiters(s.books, Terminated);
  }

  // ---------------------------------------------------------------- what can arrive

  /** Only timers and static sources are bound to the state of the path; anybody else may send anything. */
  lemma AnybodyMaySendAnything(c: PathConf, s: PathState, ev: Event)
    ensures Receivable(c, s, ev) <==>
            && (ev == ReadyTimerFires ==> s.control.readyTimer) && (ev == CloseTimerFires ==> s.control.closeTimer)
            && (ev.StaticReady? || ev.StaticNotReady? ==> c.kind.FromStatic?)
            && (ev.StaticNotReady? ==> ev.author.Static?)
  {
  }
}
