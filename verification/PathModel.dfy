/** The state of a path and what each message of its event loop does to it (internal/core/path.go).
    Everything here is in closed form: the loops and the mutual recursion of the handlers live in
    the class of module Paths, which is proved to compute these functions. */
module PathModel {
  import opened Common
  import opened Streams

  // ---------------------------------------------------------------- configuration

  datatype SourceKind = FromPublisher | FromStatic | FromRedirect

  datatype PathConf = PathConf(
    kind: SourceKind,
    sourceOnDemand: bool,
    runOnDemand: bool,
    isRegexp: bool,
    disableOverride: bool,
    hasFallback: bool)

  /** What the configuration loader guarantees of every path configuration it accepts. */
  predicate Checked(c: PathConf) {
    && (c.kind.FromStatic? ==> !c.isRegexp)
    && (c.kind.FromPublisher? ==> !c.sourceOnDemand)
    && (c.runOnDemand ==> c.kind.FromPublisher?)
  }

  predicate IsOnDemand(c: PathConf) {
    (c.kind.FromStatic? && c.sourceOnDemand) || c.runOnDemand
  }

  // ---------------------------------------------------------------- state

  type ReqId = nat

  datatype ReaderState = PrePlay | Play

  datatype OnDemandState = Initial | WaitingReady | Ready | Closing

  datatype Source = NoSource | Redirecting | Static(index: nat) | Publisher(id: nat)

  datatype SetupReq = SetupReq(req: ReqId, author: Reader)

  datatype Answer =
    | WithStream(stream: nat)
    | Redirected | FallbackTo
    | Accepted | Done
    | TimedOut | NoOnePublishing | Terminated
    | StaticAssigned | AlreadyPublishing | NotAssigned

  datatype Reply = Reply(req: ReqId, answer: Answer)

  /** The requests that wait and the replies that were sent. */
  datatype Books = Books(describes: seq<ReqId>, setups: seq<SetupReq>, replies: seq<Reply>)

  /** The live stream, the attached readers, the path's share of the reader statistics and the
      readers that the current message has told to close. */
  datatype Audience = Audience(
    stream: Option<StreamView>,
    readers: map<Reader, ReaderState>,
    count: int,
    closes: set<Reader>)

  /** The source, the path's share of the publisher statistics, the sources told to close, and how
      many static sources and streams were ever created. */
  datatype Feed = Feed(
    source: Source,
    ready: bool,
    count: int,
    closes: seq<Source>,
    statics: nat,
    streams: nat)

  /** The on-demand machinery: its state, its two timers and the on-demand command. */
  datatype Control = Control(state: OnDemandState, readyTimer: bool, closeTimer: bool, command: bool)

  datatype PathState = PathState(running: bool, feed: Feed, audience: Audience, books: Books, control: Control)

  datatype Event =
    | ReadyTimerFires
    | CloseTimerFires
    | StaticReady(req: ReqId)
    | StaticNotReady(req: ReqId, author: Source)
    | Describe(req: ReqId)
    | PublisherRemove(req: ReqId, publisher: nat)
    | Announce(req: ReqId, publisher: nat)
    | Record(req: ReqId, publisher: nat)
    | PublisherPause(req: ReqId, publisher: nat)
    | ReaderRemove(req: ReqId, reader: Reader)
    | SetupPlay(req: ReqId, reader: Reader)
    | PlayReader(req: ReqId, reader: Reader)
    | PauseReader(req: ReqId, reader: Reader)
    | ContextDone

  // ---------------------------------------------------------------- helpers on values

  function Playing(readers: map<Reader, ReaderState>): (rs: set<Reader>)
    ensures rs <= readers.Keys
  {
    set r | r in readers && readers[r] == Play
  }

  function AnswerAll(reqs: seq<ReqId>, a: Answer): (rs: seq<Reply>)
    ensures |rs| == |reqs|
  {
    if reqs == [] then []
    else AnswerAll(reqs[..|reqs| - 1], a) + [Reply(reqs[|reqs| - 1], a)]
  }

  function SetupIds(setups: seq<SetupReq>): (ids: seq<ReqId>)
    ensures |ids| == |setups|
  {
    if setups == [] then []
    else SetupIds(setups[..|setups| - 1]) + [setups[|setups| - 1].req]
  }

  /** Every waiting reader becomes an attached one. */
  function Attach(readers: map<Reader, ReaderState>, setups: seq<SetupReq>): (m: map<Reader, ReaderState>) {
    if setups == [] then readers
    else Attach(readers, setups[..|setups| - 1])[setups[|setups| - 1].author := PrePlay]
  }

  // ---------------------------------------------------------------- books

  function Write(b: Books, req: ReqId, a: Answer): Books {
    b.(replies := b.replies + [Reply(req, a)])
  }

  /** Everybody who waits gets the same answer: first the describes, then the setups. */
  function Flush(b: Books, a: Answer): Books {
    Books([], [], b.replies + AnswerAll(b.describes, a) + AnswerAll(SetupIds(b.setups), a))
  }

  function Say(s: PathState, req: ReqId, a: Answer): PathState {
    s.(books := Write(s.books, req, a))
  }

  // ---------------------------------------------------------------- audience

  function Unforward(stream: Option<StreamView>, rs: set<Reader>): Option<StreamView> {
    match stream
    case None => None
    case Some(v) => Some(v.(forward := v.forward - NonRTSP(rs)))
  }

  /** All readers are dropped and told to close. */
  function Emptied(a: Audience): Audience {
    Audience(Unforward(a.stream, Playing(a.readers)), map[], a.count - |Playing(a.readers)|, a.closes + a.readers.Keys)
  }

  function Played(a: Audience, r: Reader): Audience {
    a.(count := a.count + 1,
       readers := a.readers[r := Play],
       stream := match a.stream
                 case None => None
                 case Some(v) => Some(v.(forward := v.forward + NonRTSP({r}))))
  }

  function Paused(a: Audience, r: Reader): Audience {
    if r in Playing(a.readers)
    then a.(count := a.count - 1, readers := a.readers[r := PrePlay], stream := Unforward(a.stream, {r}))
    else a
  }

  function Without(a: Audience, r: Reader): Audience {
    if r in a.readers then Paused(a, r).(readers := a.readers - {r}) else a
  }

  // ---------------------------------------------------------------- source life cycle

  function Evict(s: PathState): PathState {
    s.(audience := Emptied(s.audience))
  }

  function Unready(s: PathState): PathState {
    s.(feed := s.feed.(ready := false), audience := Emptied(s.audience).(stream := None))
  }

  function CloseSource(s: PathState): PathState {
    s.(feed := s.feed.(closes := s.feed.closes + [s.feed.source]))
  }

  function CountPublisher(s: PathState, n: int): PathState {
    s.(feed := s.feed.(count := s.feed.count + n))
  }

  function Detach(s: PathState): PathState {
    s.(feed := s.feed.(source := NoSource))
  }

  /** The publisher leaves a path that is not, or no longer, under on-demand control. */
  function PublisherLeaves(s: PathState): PathState {
    Detach(Evict(if s.feed.ready then Unready(CountPublisher(s, -1)) else s))
  }

  function CloseOnDemand(c: PathConf, s: PathState): PathState {
    var idle := s.control.(state := Initial, closeTimer := s.control.closeTimer && s.control.state != Closing);
    if c.kind.FromStatic? then
      var s1 := CloseSource(s.(control := idle));
      Detach(if s.feed.ready then Unready(s1) else s1)
    else
      var s1 := s.(control := idle.(command := false));
      if s.feed.source.NoSource? then s1 else PublisherLeaves(CloseSource(s1))
  }

  /** The current publisher is removed. Under on-demand control a ready publisher takes the whole
      on-demand source down with it, and is then counted out twice. */
  function RemovePublisher(c: PathConf, s: PathState): PathState {
    if s.feed.ready && IsOnDemand(c) && s.control.state != Initial
    then Detach(Evict(CloseOnDemand(c, CountPublisher(s, -1))))
    else PublisherLeaves(s)
  }

  function StartOnDemand(c: PathConf, s: PathState): PathState {
    var k := s.control.(readyTimer := true, state := WaitingReady);
    if c.kind.FromStatic?
    then s.(control := k, feed := s.feed.(source := Static(s.feed.statics), statics := s.feed.statics + 1))
    else s.(control := k.(command := true))
  }

  function BecomeReady(c: PathConf, s: PathState): PathState {
    var feed := s.feed.(ready := true, streams := s.feed.streams + 1);
    var stream := Some(StreamView(s.feed.streams, {}));
    if !IsOnDemand(c) then s.(feed := feed, audience := s.audience.(stream := stream))
    else
      var readers := Attach(s.audience.readers, s.books.setups);
      var empty := readers == map[];
      s.(feed := feed,
         audience := s.audience.(stream := stream, readers := readers),
         books := Flush(s.books, WithStream(s.feed.streams)),
         control := Control(if empty then Closing else Ready, false, s.control.closeTimer || empty, s.control.command))
  }

  /** Source loss as seen from a message about a ready source. */
  function LoseSource(c: PathConf, s: PathState): PathState {
    if IsOnDemand(c) && s.control.state != Initial then CloseOnDemand(c, s) else Unready(s)
  }

  // ---------------------------------------------------------------- handlers

  function Wake(c: PathConf, s: PathState): PathState {
    if s.control.state == Initial then StartOnDemand(c, s) else s
  }

  function OnDescribe(c: PathConf, s: PathState, req: ReqId): PathState {
    if s.feed.source.Redirecting? then Say(s, req, Redirected)
    else if s.feed.ready && s.audience.stream.Some? then Say(s, req, WithStream(s.audience.stream.value.id))
    else if IsOnDemand(c) then Wake(c, s).(books := s.books.(describes := s.books.describes + [req]))
    else if c.hasFallback then Say(s, req, FallbackTo)
    else Say(s, req, NoOnePublishing)
  }

  function OnSetupPlay(c: PathConf, s: PathState, setup: SetupReq): PathState {
    if s.feed.ready && s.audience.stream.Some? then
      var s1 := s.(audience := s.audience.(readers := s.audience.readers[setup.author := PrePlay]));
      var s2 := if IsOnDemand(c) && s.control.state == Closing
                then s1.(control := s.control.(state := Ready, closeTimer := false)) else s1;
      Say(s2, setup.req, WithStream(s.audience.stream.value.id))
    else if IsOnDemand(c) then Wake(c, s).(books := s.books.(setups := s.books.setups + [setup]))
    else Say(s, setup.req, NoOnePublishing)
  }

  /** A path that has lost its last reader is scheduled to close. */
  function Idle(c: PathConf, s: PathState): PathState {
    if IsOnDemand(c) && s.audience.readers == map[] && s.control.state == Ready
    then s.(control := s.control.(closeTimer := true, state := Closing))
    else s
  }

  function OnReaderRemove(c: PathConf, s: PathState, r: Reader): PathState {
    Idle(c, s.(audience := Without(s.audience, r)))
  }

  function OnAnnounce(c: PathConf, s: PathState, req: ReqId, p: nat): PathState {
    if !s.feed.source.NoSource? && c.kind.FromStatic? then Say(s, req, StaticAssigned)
    else if !s.feed.source.NoSource? && c.disableOverride then Say(s, req, AlreadyPublishing)
    else
      var s1 := if s.feed.source.NoSource? then s else RemovePublisher(c, CloseSource(s));
      Say(s1.(feed := s1.feed.(source := Publisher(p))), req, Accepted)
  }

  function OnRecord(c: PathConf, s: PathState, req: ReqId, p: nat): PathState {
    if s.feed.source != Publisher(p) then Say(s, req, NotAssigned)
    else Say(BecomeReady(c, CountPublisher(s, 1)), req, WithStream(s.feed.streams))
  }

  function OnPublisherPause(c: PathConf, s: PathState, p: nat): PathState {
    if s.feed.source == Publisher(p) && s.feed.ready then LoseSource(c, CountPublisher(s, -1)) else s
  }

  function Handle(c: PathConf, s: PathState, ev: Event): PathState {
    match ev
    case ReadyTimerFires =>
      CloseOnDemand(c, s.(control := s.control.(readyTimer := false), books := Flush(s.books, TimedOut)))
    case CloseTimerFires => CloseOnDemand(c, s.(control := s.control.(closeTimer := false)))
    case StaticReady(req) => Say(BecomeReady(c, s), req, WithStream(s.feed.streams))
    case StaticNotReady(req, author) => Say(if s.feed.source == author then LoseSource(c, s) else s, req, Done)
    case Describe(req) => OnDescribe(c, s, req)
    case PublisherRemove(req, p) => Say(if s.feed.source == Publisher(p) then RemovePublisher(c, s) else s, req, Done)
    case Announce(req, p) => OnAnnounce(c, s, req, p)
    case Record(req, p) => OnRecord(c, s, req, p)
    case PublisherPause(req, p) => Say(OnPublisherPause(c, s, p), req, Done)
    case ReaderRemove(req, r) => Say(OnReaderRemove(c, s, r), req, Done)
    case SetupPlay(req, r) => OnSetupPlay(c, s, SetupReq(req, r))
    case PlayReader(req, r) => Say(s.(audience := Played(s.audience, r)), req, Done)
    case PauseReader(req, r) => Say(s.(audience := Paused(s.audience, r)), req, Done)
    case ContextDone => s
  }

  /** A path that was created for a regular expression ends its loop once it has no source. */
  predicate Leaves(c: PathConf, s: PathState, ev: Event) {
    match ev
    case ContextDone => true
    case ReadyTimerFires => c.isRegexp
    case CloseTimerFires => c.isRegexp
    case StaticNotReady(_, _) => c.isRegexp && s.feed.source.NoSource?
    case PublisherRemove(_, _) => c.isRegexp && s.feed.source.NoSource?
    case PublisherPause(_, _) => c.isRegexp && s.feed.source.NoSource?
    case _ => false
  }

  /** The code after the loop. The last publisher is closed but never counted out, because every
      publisher also satisfies the interface of a static source (internal/core/source.go:9-12). */
  function Terminate(s: PathState): PathState {
    PathState(
      false,
      if s.feed.source.Static? || s.feed.source.Publisher? then CloseSource(s).feed else s.feed,
      Emptied(s.audience).(
        readers := s.audience.readers,
        stream := match s.audience.stream case None => None case Some(v) => Some(v.(forward := {}))),
      s.books.(replies := Flush(s.books, Terminated).replies),
      Control(s.control.state, false, false, false))
  }

  /** A new message has told nobody to close yet. */
  function Begin(s: PathState): PathState {
    s.(audience := s.audience.(closes := {}))
  }

  function Next(c: PathConf, s: PathState, ev: Event): PathState {
    var s1 := Handle(c, Begin(s), ev);
    if Leaves(c, s1, ev) then Terminate(s1) else s1
  }

  function Start(c: PathConf): PathState {
    var feed :=
      match c.kind
      case FromRedirect => Feed(Redirecting, false, 0, [], 0, 0)
      case FromPublisher => Feed(NoSource, false, 0, [], 0, 0)
      case FromStatic =>
        if c.sourceOnDemand then Feed(NoSource, false, 0, [], 0, 0) else Feed(Static(0), false, 0, [], 1, 0);
    PathState(true, feed, Audience(None, map[], 0, {}), Books([], [], []), Control(Initial, false, false, false))
  }

  // ---------------------------------------------------------------- invariant and environment

  ghost predicate AudienceInv(a: Audience) {
    && (a.stream.Some? ==> a.stream.value.forward == NonRTSP(Playing(a.readers)))
    && a.count == |Playing(a.readers)|
    && (a.readers != map[] ==> a.stream.Some?)
  }

  ghost predicate OnDemandInv(c: PathConf, s: PathState) {
    var k := s.control;
    var empty := s.audience.readers == map[];
    var quiet := s.books.describes == [] && s.books.setups == [];
    if IsOnDemand(c) then
      && (k.state == Ready <==> s.feed.ready && !empty)
      && (k.state == Closing <==> s.feed.ready && empty)
      && (k.readyTimer <==> k.state == WaitingReady)
      && (k.closeTimer <==> k.state == Closing)
      && (!quiet ==> k.state == WaitingReady)
      && (k.command <==> c.runOnDemand && k.state != Initial)
    else
      k == Control(Initial, false, false, false) && quiet
  }

  ghost predicate FeedInv(c: PathConf, s: PathState) {
    var f := s.feed;
    match c.kind
    case FromRedirect => f.source.Redirecting? && !f.ready
    case FromStatic =>
      && (f.source.Static? || f.source.NoSource?)
      && (f.source.Static? <==> c.sourceOnDemand ==> s.control.state != Initial)
      && (f.source.Static? ==> f.source.index + 1 == f.statics)
    case FromPublisher =>
      && (f.source.Publisher? || f.source.NoSource?)
      && (f.ready ==> f.source.Publisher?)
      && f.statics == 0
  }

  ghost predicate Inv(c: PathConf, s: PathState) {
    && s.running
    && (s.feed.ready <==> s.audience.stream.Some?)
    && AudienceInv(s.audience)
    && OnDemandInv(c, s)
    && FeedInv(c, s)
  }

  /** What can arrive at all: a timer fires only when armed, and only static sources of static paths
      report about themselves. */
  predicate Receivable(c: PathConf, s: PathState, ev: Event) {
    match ev
    case ReadyTimerFires => s.control.readyTimer
    case CloseTimerFires => s.control.closeTimer
    case StaticReady(_) => c.kind.FromStatic?
    case StaticNotReady(_, author) => c.kind.FromStatic? && author.Static?
    case _ => true
  }

  predicate OnlySessionsPlay(readers: map<Reader, ReaderState>) {
    forall r :: r in readers && readers[r] == Play ==> r.isRTSP
  }

  /** What every message keeps that does not panic, whether or not it is one the path is made for. */
  ghost predicate Sound(c: PathConf, s: PathState) {
    && s.running
    && (s.feed.ready <==> s.audience.stream.Some?)
    && (s.audience.stream.None? ==> OnlySessionsPlay(s.audience.readers))
    && (s.control.state in {Ready, Closing} ==> s.feed.ready)
    && (s.books.setups != [] ==> IsOnDemand(c) && !s.feed.ready)
    && (!IsOnDemand(c) ==> s.control.state == Initial && !s.control.readyTimer && !s.control.closeTimer)
    && (s.feed.source.Redirecting? <==> c.kind.FromRedirect?)
    && (s.feed.source.Static? ==> c.kind.FromStatic?)
    && (c.kind.FromRedirect? ==> !s.feed.ready)
  }

  /** Closing the on-demand source asserts that there is a source, or dereferences the command. */
  predicate ClosePanics(c: PathConf, s: PathState) {
    if c.kind.FromStatic? then s.feed.source.NoSource? else !s.control.command
  }

  /** Losing the source closes the on-demand source, or else the stream. */
  predicate LossPanics(c: PathConf, s: PathState) {
    if IsOnDemand(c) && s.control.state != Initial then ClosePanics(c, s) else s.audience.stream.None?
  }

  /** The messages on which the code dereferences what is nil, or asserts a type that the source does not
      have. An RTSP session does not touch the stream when it plays. */
  predicate Panics(c: PathConf, s: PathState, ev: Event) {
    match ev
    case ReadyTimerFires => ClosePanics(c, s)
    case CloseTimerFires => ClosePanics(c, s)
    case StaticNotReady(_, author) => author == s.feed.source && LossPanics(c, s)
    case PublisherRemove(_, p) => s.feed.source == Publisher(p) && s.feed.ready && LossPanics(c, s)
    case PublisherPause(_, p) => s.feed.source == Publisher(p) && s.feed.ready && LossPanics(c, s)
    case Announce(_, _) =>
      && !s.feed.source.NoSource? && !c.kind.FromStatic? && !c.disableOverride
      && (s.feed.source.Redirecting? || (s.feed.ready && LossPanics(c, s)))
    case PlayReader(_, r) => s.audience.stream.None? && !r.isRTSP
    case _ => false
  }

  /** The messages under which a path keeps its invariant: an assumption about the surrounding code, which
      does not uphold all of it. */
  ghost predicate Allowed(c: PathConf, s: PathState, ev: Event) {
    match ev
    case ReadyTimerFires => s.control.readyTimer
    case CloseTimerFires => s.control.closeTimer
    case StaticReady(_) => s.feed.source.Static? && !s.feed.ready
    case StaticNotReady(_, author) =>
      c.kind.FromStatic? && author.Static? && (author == s.feed.source ==> s.feed.ready)
    case Announce(_, _) =>
      && (c.kind.FromRedirect? ==> c.disableOverride)
      && (c.kind.FromStatic? ==> s.feed.source.Static?)
    case Record(_, p) =>
      s.feed.source == Publisher(p) ==> !s.feed.ready && (c.runOnDemand ==> s.control.state == WaitingReady)
    case SetupPlay(_, r) => r !in Playing(s.audience.readers)
    case PlayReader(_, r) =>
      && s.feed.ready
      && r !in Playing(s.audience.readers)
      && (r !in s.audience.readers ==> s.control.state != Closing)
    case _ => true
  }
}
