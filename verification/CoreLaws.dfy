/** Which components a configuration asks for, what each is built from, and which changes leave which of them
    alone, field by field of the configuration. */
module CoreLaws {
  import opened Common
  import PathManagers
  import opened CoreModel
  import opened CoreRuns

  // ---------------------------------------------------------------- which components there are

  /** The components that configuration c asks for, and no others. */
  ghost predicate HasComponents(s: State, c: CoreConf) {
    && s.logger.Some? && s.manager.Some?
    && (s.metrics.Some? <==> c.metrics)
    && (s.pprof.Some? <==> c.pprof)
    && (s.rtsp.Some? <==> !c.rtspDisable && (c.encryption == No || c.encryption == Optional))
    && (s.rtsps.Some? <==> !c.rtspDisable && (c.encryption == Strict || c.encryption == Optional))
    && (s.rtmp.Some? <==> !c.rtmpDisable)
    && (s.hls.Some? <==> !c.hlsDisable)
    && (s.api.Some? <==> c.api)
  }

  lemma ComponentsByConf(s: State)
    requires Fits(s) && Complete(s)
    ensures HasComponents(s, s.conf)
  {
    PresentExactlyIfWanted(s, LoggerKind);
    PresentExactlyIfWanted(s, MetricsKind);
    PresentExactlyIfWanted(s, PProfKind);
    PresentExactlyIfWanted(s, ManagerKind);
    PresentExactlyIfWanted(s, RtspKind);
    PresentExactlyIfWanted(s, RtspsKind);
    PresentExactlyIfWanted(s, RtmpKind);
    PresentExactlyIfWanted(s, HlsKind);
    PresentExactlyIfWanted(s, ApiKind);
  }

  // ---------------------------------------------------------------- what they are built from

  predicate BuiltManager(m: Manager, c: CoreConf) {
    && m.params.rtspAddress == c.rtspAddress && m.params.readTimeout == c.readTimeout
    && m.params.writeTimeout == c.writeTimeout && m.params.readBufferCount == c.readBufferCount
    && m.params.readBufferSize == c.readBufferSize
    && m.confs.Keys == c.paths.Keys && forall n :: n in c.paths ==> m.confs[n].fields == c.paths[n].fields
  }

  /** What the two RTSP servers have in common. */
  predicate BuiltEitherRtsp(p: RtspParams, c: CoreConf) {
    && p.authMethods == c.authMethods && p.readTimeout == c.readTimeout && p.writeTimeout == c.writeTimeout
    && p.readBufferCount == c.readBufferCount && p.readBufferSize == c.readBufferSize
    && p.rtspAddress == c.rtspAddress && p.protocols == c.protocols && p.runOnConnect == c.runOnConnect
    && p.runOnConnectRestart == c.runOnConnectRestart
  }

  predicate BuiltRtsp(p: RtspParams, c: CoreConf) {
    && BuiltEitherRtsp(p, c) && p.address == c.rtspAddress && !p.isTLS
    && p.useUDP == c.protocols.udp && p.useMulticast == c.protocols.multicast
    && p.rtpAddress == c.rtpAddress && p.rtcpAddress == c.rtcpAddress && p.multicastIPRange == c.multicastIPRange
    && p.multicastRTPPort == c.multicastRTPPort && p.multicastRTCPPort == c.multicastRTCPPort
  }

  predicate BuiltRtsps(p: RtspParams, c: CoreConf) {
    && BuiltEitherRtsp(p, c) && p.address == c.rtspsAddress && p.isTLS && !p.useUDP && !p.useMulticast
    && p.serverCert == c.serverCert && p.serverKey == c.serverKey
  }

  predicate BuiltRtmp(p: RtmpParams, c: CoreConf) {
    && p.address == c.rtmpAddress && p.readTimeout == c.readTimeout && p.writeTimeout == c.writeTimeout
    && p.readBufferCount == c.readBufferCount && p.rtspAddress == c.rtspAddress && p.runOnConnect == c.runOnConnect
    && p.runOnConnectRestart == c.runOnConnectRestart
  }

  predicate BuiltHls(p: HlsParams, c: CoreConf) {
    && p.address == c.hlsAddress && p.alwaysRemux == c.hlsAlwaysRemux && p.segmentCount == c.hlsSegmentCount
    && p.segmentDuration == c.hlsSegmentDuration && p.allowOrigin == c.hlsAllowOrigin
    && p.readBufferCount == c.readBufferCount
  }

  /** Every component there is was built from the fields of c that concern it, the log level aside. */
  ghost predicate BuiltFrom(s: State, c: CoreConf) {
    && (s.logger.Some? ==> s.logger.value.destinations == c.logDestinations && s.logger.value.file == c.logFile)
    && (s.metrics.Some? ==> s.metrics.value.address == c.metricsAddress)
    && (s.pprof.Some? ==> s.pprof.value.address == c.pprofAddress)
    && (s.manager.Some? ==> BuiltManager(s.manager.value, c))
    && (s.rtsp.Some? ==> BuiltRtsp(s.rtsp.value.params, c))
    && (s.rtsps.Some? ==> BuiltRtsps(s.rtsps.value.params, c))
    && (s.rtmp.Some? ==> BuiltRtmp(s.rtmp.value.params, c))
    && (s.hls.Some? ==> BuiltHls(s.hls.value.params, c))
    && (s.api.Some? ==> s.api.value.address == c.apiAddress && s.api.value.conf == c)
  }

  lemma BuiltByConf(s: State)
    requires Fits(s)
    ensures BuiltFrom(s, s.conf)
  {
  }

  // ---------------------------------------------------------------- which others they know

  /** Every component knows the live others that it works with, and the metrics and the path manager know
      the components that registered with them, the RTMP server aside when there is none. */
  ghost predicate Linked(s: State) {
    && (s.metrics.Some? ==>
          && s.metrics.value.pathManager == ManagerId(s) && s.metrics.value.rtsp == RtspId(s)
          && s.metrics.value.rtsps == RtspsId(s) && (s.rtmp.Some? ==> s.metrics.value.rtmp == RtmpId(s)))
    && (s.manager.Some? ==> s.manager.value.metrics == MetricsId(s) && s.manager.value.hls == HlsId(s))
    && (s.rtsp.Some? ==> s.rtsp.value.metrics == MetricsId(s) && s.rtsp.value.pathManager == ManagerId(s))
    && (s.rtsps.Some? ==> s.rtsps.value.metrics == MetricsId(s) && s.rtsps.value.pathManager == ManagerId(s))
    && (s.rtmp.Some? ==> s.rtmp.value.metrics == MetricsId(s) && s.rtmp.value.pathManager == ManagerId(s))
    && (s.hls.Some? ==> s.hls.value.pathManager == ManagerId(s))
    && (s.api.Some? ==>
          && s.api.value.pathManager == ManagerId(s) && s.api.value.rtsp == RtspId(s)
          && s.api.value.rtsps == RtspsId(s) && s.api.value.rtmp == RtmpId(s))
  }

  lemma FitsAreLinked(s: State)
    requires Fits(s)
    ensures Linked(s)
  {
  }

  /** After any sequence of successful reloads the components are those that the last configuration asks for,
      built from its fields, and linked to the live others. */
  lemma RunsFollowTheConfiguration(first: CoreConf, fails: set<Kind>, rs: seq<Reload>)
    requires Truthful(first, rs) && Run(first, fails, rs).ok
    ensures var s, c := Run(first, fails, rs).state, LastConf(first, rs);
            HasComponents(s, c) && BuiltFrom(s, c) && Linked(s)
  {
    RunsFit(first, fails, rs);
    ComponentsByConf(Run(first, fails, rs).state);
    BuiltByConf(Run(first, fails, rs).state);
    FitsAreLinked(Run(first, fails, rs).state);
  }

  /** The logger has the level of c, and the metrics know of an RTMP server only if there is one. */
  predicate Untouched(s: State, c: CoreConf) {
    && s.logger.Some? && s.logger.value.level == c.logLevel
    && (s.metrics.Some? && s.rtmp.None? ==> s.metrics.value.rtmp.None?)
  }

  lemma TraitsSay(s: State)
    requires Fits(s) && Complete(s) && Level(s) == s.conf.logLevel && !Stale(s)
    ensures Untouched(s, s.conf)
  {
    PresentExactlyIfWanted(s, LoggerKind);
    PresentExactlyIfWanted(s, RtmpKind);
  }

  /** So they are after a fresh start, to which the two exceptions do not apply. */
  lemma FreshStartFollowsTheConfiguration(c: CoreConf, p: Progress)
    requires p == Fresh(c, {})
    ensures HasComponents(p.state, c) && BuiltFrom(p.state, c) && Linked(p.state) && Untouched(p.state, c)
  {
    CreatedSucceeds(Empty(c), p);
    assert Run(c, {}, []) == p;
    RunsFit(c, {}, []);
    RunTraits(c, {}, []);
    ComponentsByConf(p.state);
    BuiltByConf(p.state);
    FitsAreLinked(p.state);
    TraitsSay(p.state);
  }

  // ---------------------------------------------------------------- what a failure leaves

  /** The order in which components are created. */
  function Place(k: Kind): nat {
    match k
    case LoggerKind => 0
    case MetricsKind => 1
    case PProfKind => 2
    case ManagerKind => 3
    case RtspKind => 4
    case RtspsKind => 5
    case RtmpKind => 6
    case HlsKind => 7
    case ApiKind => 8
  }

  /** The start of a component fails, before place i. */
  predicate FailsBefore(s: State, fails: set<Kind>, i: nat) {
    exists k :: k in fails && k != ManagerKind && Needs(s, k) && Place(k) < i
  }

  /** Creation is at place i: it has failed if a component before it did; a component is there if it was, or if
      its turn has come and it is needed and nothing failed up to it. */
  ghost predicate CreatedUpTo(s: State, fails: set<Kind>, i: nat, p: Progress) {
    && p.state.conf == s.conf && (p.ok <==> !FailsBefore(s, fails, i))
    && forall j :: IdOf(p.state, j).Some? <==>
         IdOf(s, j).Some? || (Needs(s, j) && Place(j) < i && !FailsBefore(s, fails, Place(j) + 1))
  }

  lemma TryInOrder(s: State, fails: set<Kind>, k: Kind, p: Progress, q: Progress)
    requires CreatedUpTo(s, fails, Place(k), p) && q == Try(p, k, fails)
    ensures CreatedUpTo(s, fails, Place(k) + 1, q)
  {
    SamePlace(k);
    assert Needs(p.state, k) <==> Needs(s, k);
    assert FailsBefore(s, fails, Place(k) + 1) <==>
           FailsBefore(s, fails, Place(k)) || (k in fails && k != ManagerKind && Needs(s, k));
    if p.ok && Needs(p.state, k) && !(k in fails && k != ManagerKind) {
      MakeOpens(p.state, k);
    }
    forall j ensures IdOf(q.state, j).Some? <==>
      IdOf(s, j).Some? || (Needs(s, j) && Place(j) < Place(k) + 1 && !FailsBefore(s, fails, Place(j) + 1))
    {
      MakeGivesId(p.state, k, j);
      SamePlace(j);
      if Place(j) > Place(k) { assert j != k; }
    }
  }

  lemma SamePlace(k: Kind)
    ensures forall j :: Place(j) == Place(k) <==> j == k
  {
  }

  lemma NothingYet(s: State, fails: set<Kind>)
    ensures CreatedUpTo(s, fails, 0, Progress(s, true))
  {
  }

  lemma FoundationsInOrder(s: State, fails: set<Kind>)
    ensures CreatedUpTo(s, fails, 4, Foundations(s, fails))
  {
    var p0 := Progress(s, true);
    var p1 := Try(p0, LoggerKind, fails);
    var p2 := Try(p1, MetricsKind, fails);
    var p3 := Try(p2, PProfKind, fails);
    NothingYet(s, fails);
    TryInOrder(s, fails, LoggerKind, p0, p1);
    TryInOrder(s, fails, MetricsKind, p1, p2);
    TryInOrder(s, fails, PProfKind, p2, p3);
    TryInOrder(s, fails, ManagerKind, p3, Try(p3, ManagerKind, fails));
  }

  lemma ServersInOrder(s: State, fails: set<Kind>, p4: Progress)
    requires CreatedUpTo(s, fails, 4, p4)
    ensures CreatedUpTo(s, fails, 9, Servers(p4, fails))
  {
    var p5 := Try(p4, RtspKind, fails);
    var p6 := Try(p5, RtspsKind, fails);
    var p7 := Try(p6, RtmpKind, fails);
    var p8 := Try(p7, HlsKind, fails);
    TryInOrder(s, fails, RtspKind, p4, p5);
    TryInOrder(s, fails, RtspsKind, p5, p6);
    TryInOrder(s, fails, RtmpKind, p6, p7);
    TryInOrder(s, fails, HlsKind, p7, p8);
    TryInOrder(s, fails, ApiKind, p8, Try(p8, ApiKind, fails));
  }

  /** Creation fails exactly if a component that is needed does, and then leaves those needed before it. The path
      manager cannot fail. */
  lemma FirstFailureStopsCreation(s: State, fails: set<Kind>, p: Progress, j: Kind)
    requires p == Created(s, fails)
    ensures p.ok <==> !exists k :: k in fails && k != ManagerKind && Needs(s, k)
    ensures IdOf(p.state, j).Some? <==>
            IdOf(s, j).Some? ||
            (Needs(s, j) && !exists k :: k in fails && k != ManagerKind && Needs(s, k) && Place(k) <= Place(j))
  {
    FoundationsInOrder(s, fails);
    ServersInOrder(s, fails, Foundations(s, fails));
    assert CreatedUpTo(s, fails, 9, p);
    assert FailsBefore(s, fails, 9) <==> exists k :: k in fails && k != ManagerKind && Needs(s, k);
    assert FailsBefore(s, fails, Place(j) + 1) <==>
           exists k :: k in fails && k != ManagerKind && Needs(s, k) && Place(k) <= Place(j);
  }

  // ---------------------------------------------------------------- which changes leave which components alone

  /** The components of these kinds are closed, and no others. */
  predicate Closes(o: CoreConf, n: CoreConf, ks: set<Kind>) {
    forall k: Kind :: Flagged(FlagsFor(o, Some(n)), k) ==> k in ks
  }

  /** A new log level or new paths close nothing. */
  lemma LevelAndPathsCloseNothing(o: CoreConf, n: CoreConf)
    requires n == o.(logLevel := n.logLevel, paths := n.paths)
    ensures Closes(o, n, {})
  {
  }

  lemma LogTargetClosesTheLogger(o: CoreConf, n: CoreConf)
    requires n == o.(logDestinations := n.logDestinations, logFile := n.logFile)
    ensures Closes(o, n, {LoggerKind})
  {
  }

  lemma PProfSettingsCloseItAlone(o: CoreConf, n: CoreConf)
    requires n == o.(pprof := n.pprof, pprofAddress := n.pprofAddress)
    ensures Closes(o, n, {PProfKind})
  {
  }

  lemma ApiSettingsCloseItAlone(o: CoreConf, n: CoreConf)
    requires n == o.(api := n.api, apiAddress := n.apiAddress)
    ensures Closes(o, n, {ApiKind})
  {
  }

  lemma HlsSettingsCloseItAlone(o: CoreConf, n: CoreConf)
    requires n == o.(hlsDisable := n.hlsDisable, hlsAddress := n.hlsAddress, hlsAlwaysRemux := n.hlsAlwaysRemux,
                     hlsSegmentCount := n.hlsSegmentCount, hlsSegmentDuration := n.hlsSegmentDuration,
                     hlsAllowOrigin := n.hlsAllowOrigin)
    ensures Closes(o, n, {HlsKind})
  {
  }

  /** The API knows the servers, and is made anew with each of them. */
  lemma RtmpSettingsCloseItAndTheApi(o: CoreConf, n: CoreConf)
    requires n == o.(rtmpDisable := n.rtmpDisable, rtmpAddress := n.rtmpAddress)
    ensures Closes(o, n, {RtmpKind, ApiKind})
  {
  }

  lemma RtspTransportClosesItAndTheApi(o: CoreConf, n: CoreConf)
    requires n == o.(rtpAddress := n.rtpAddress, rtcpAddress := n.rtcpAddress, multicastIPRange := n.multicastIPRange,
                     multicastRTPPort := n.multicastRTPPort, multicastRTCPPort := n.multicastRTCPPort)
    ensures Closes(o, n, {RtspKind, ApiKind})
  {
  }

  lemma RtspsSettingsCloseItAndTheApi(o: CoreConf, n: CoreConf)
    requires n == o.(rtspsAddress := n.rtspsAddress, serverCert := n.serverCert, serverKey := n.serverKey)
    ensures Closes(o, n, {RtspsKind, ApiKind})
  {
  }

  lemma RtspSettingsCloseBothAndTheApi(o: CoreConf, n: CoreConf)
    requires n == o.(rtspDisable := n.rtspDisable, encryption := n.encryption, authMethods := n.authMethods,
                     protocols := n.protocols)
    ensures Closes(o, n, {RtspKind, RtspsKind, ApiKind})
  {
  }

  lemma ConnectCommandSparesHls(o: CoreConf, n: CoreConf)
    requires n == o.(runOnConnect := n.runOnConnect, runOnConnectRestart := n.runOnConnectRestart)
    ensures Closes(o, n, {RtspKind, RtspsKind, RtmpKind, ApiKind})
  {
  }

  /** Whatever changes, the logger only goes by its destinations and file, and the profiler by its own settings. */
  lemma LoggerAndPProfGoAlone(o: CoreConf, n: CoreConf)
    ensures FlagsFor(o, Some(n)).logger <==> n.logDestinations != o.logDestinations || n.logFile != o.logFile
    ensures FlagsFor(o, Some(n)).pprof <==> n.pprof != o.pprof || n.pprofAddress != o.pprofAddress
    ensures FlagsFor(o, Some(n)).metrics <==> n.metrics != o.metrics || n.metricsAddress != o.metricsAddress
  {
  }

  /** A component that is not closed is the same object after the reload. */
  lemma SparedComponentsStay(s: State, n: CoreConf, samePaths: bool, fails: set<Kind>, k: Kind)
    requires Fits(s) && Complete(s) && IdOf(s, k).Some? && !Flagged(FlagsFor(s.conf, Some(n)), k)
    ensures IdOf(Reloaded(s, n, samePaths, fails).state, k) == IdOf(s, k)
  {
    var t := Closed(s, Some(n), samePaths).(conf := n);
    KeptId(s, n, samePaths, FlagsFor(s.conf, Some(n)), t, k);
    CreatedKeepsId(t, fails, k);
  }

  lemma TryKeepsId(p: Progress, j: Kind, fails: set<Kind>, q: Progress, k: Kind)
    requires q == Try(p, j, fails) && IdOf(p.state, k).Some?
    ensures IdOf(q.state, k) == IdOf(p.state, k)
  {
    if Needs(p.state, j) { MakeGivesId(p.state, j, k); }
  }

  lemma FoundationsKeepId(s: State, fails: set<Kind>, k: Kind)
    requires IdOf(s, k).Some?
    ensures IdOf(Foundations(s, fails).state, k) == IdOf(s, k)
  {
    var p1 := Try(Progress(s, true), LoggerKind, fails);
    var p2 := Try(p1, MetricsKind, fails);
    var p3 := Try(p2, PProfKind, fails);
    TryKeepsId(Progress(s, true), LoggerKind, fails, p1, k);
    TryKeepsId(p1, MetricsKind, fails, p2, k);
    TryKeepsId(p2, PProfKind, fails, p3, k);
    TryKeepsId(p3, ManagerKind, fails, Try(p3, ManagerKind, fails), k);
  }

  lemma ServersKeepId(p4: Progress, fails: set<Kind>, k: Kind)
    requires IdOf(p4.state, k).Some?
    ensures IdOf(Servers(p4, fails).state, k) == IdOf(p4.state, k)
  {
    var p5 := Try(p4, RtspKind, fails);
    var p6 := Try(p5, RtspsKind, fails);
    var p7 := Try(p6, RtmpKind, fails);
    var p8 := Try(p7, HlsKind, fails);
    TryKeepsId(p4, RtspKind, fails, p5, k);
    TryKeepsId(p5, RtspsKind, fails, p6, k);
    TryKeepsId(p6, RtmpKind, fails, p7, k);
    TryKeepsId(p7, HlsKind, fails, p8, k);
    TryKeepsId(p8, ApiKind, fails, Try(p8, ApiKind, fails), k);
  }

  lemma CreatedKeepsId(s: State, fails: set<Kind>, k: Kind)
    requires IdOf(s, k).Some?
    ensures IdOf(Created(s, fails).state, k) == IdOf(s, k)
  {
    FoundationsKeepId(s, fails, k);
    ServersKeepId(Foundations(s, fails), fails, k);
  }
}
