/** The components of the server, what each is built from, and what closing and creating them does
    (internal/core/core.go). Addresses, commands, file names and durations are opaque values here:
    the code only compares them. */
module CoreModel {
  import opened Common
  import PathManagers

  type Value = nat

  datatype Encryption = No | Optional | Strict

  datatype Protocols = Protocols(udp: bool, multicast: bool, tcp: bool)

  datatype CoreConf = CoreConf(
    logLevel: Value, logDestinations: Value, logFile: Value,
    metrics: bool, metricsAddress: Value,
    pprof: bool, pprofAddress: Value,
    rtspAddress: Value, readTimeout: Value, writeTimeout: Value, readBufferCount: Value, readBufferSize: Value,
    paths: PathManagers.ConfTable,
    rtspDisable: bool, encryption: Encryption, rtspsAddress: Value, authMethods: Value, protocols: Protocols,
    rtpAddress: Value, rtcpAddress: Value, multicastIPRange: Value, multicastRTPPort: Value, multicastRTCPPort: Value,
    serverCert: Value, serverKey: Value, runOnConnect: Value, runOnConnectRestart: bool,
    rtmpDisable: bool, rtmpAddress: Value,
    hlsDisable: bool, hlsAddress: Value, hlsAlwaysRemux: bool, hlsSegmentCount: Value, hlsSegmentDuration: Value,
    hlsAllowOrigin: Value,
    api: bool, apiAddress: Value)

  // ---------------------------------------------------------------- components

  datatype Kind =
    LoggerKind | MetricsKind | PProfKind | ManagerKind | RtspKind | RtspsKind | RtmpKind | HlsKind | ApiKind

  /** A reference to a component object, if there is one. */
  type Ref = Option<nat>

  datatype Logger = Logger(id: nat, level: Value, destinations: Value, file: Value)

  /** The last four are set by the components themselves as they come and go. */
  datatype Metrics = Metrics(id: nat, address: Value, pathManager: Ref, rtsp: Ref, rtsps: Ref, rtmp: Ref)

  datatype PProf = PProf(id: nat, address: Value)

  datatype ManagerParams = ManagerParams(
    rtspAddress: Value, readTimeout: Value, writeTimeout: Value, readBufferCount: Value, readBufferSize: Value)

  datatype Manager = Manager(id: nat, params: ManagerParams, confs: PathManagers.ConfTable, metrics: Ref, hls: Ref)

  datatype RtspParams = RtspParams(
    address: Value, authMethods: Value, readTimeout: Value, writeTimeout: Value, readBufferCount: Value,
    readBufferSize: Value, useUDP: bool, useMulticast: bool, rtpAddress: Value, rtcpAddress: Value,
    multicastIPRange: Value, multicastRTPPort: Value, multicastRTCPPort: Value, isTLS: bool, serverCert: Value,
    serverKey: Value, rtspAddress: Value, protocols: Protocols, runOnConnect: Value, runOnConnectRestart: bool)

  datatype Rtsp = Rtsp(id: nat, params: RtspParams, metrics: Ref, pathManager: Ref)

  datatype RtmpParams = RtmpParams(
    address: Value, readTimeout: Value, writeTimeout: Value, readBufferCount: Value, rtspAddress: Value,
    runOnConnect: Value, runOnConnectRestart: bool)

  datatype Rtmp = Rtmp(id: nat, params: RtmpParams, metrics: Ref, pathManager: Ref)

  datatype HlsParams = HlsParams(
    address: Value, alwaysRemux: bool, segmentCount: Value, segmentDuration: Value, allowOrigin: Value,
    readBufferCount: Value)

  datatype Hls = Hls(id: nat, params: HlsParams, pathManager: Ref)

  datatype Api = Api(id: nat, address: Value, conf: CoreConf, pathManager: Ref, rtsp: Ref, rtsps: Ref, rtmp: Ref)

  /** The live components; `open` holds all components created and not closed, by kind and
      identity. */
  datatype State = State(
    conf: CoreConf,
    logger: Option<Logger>,
    metrics: Option<Metrics>,
    pprof: Option<PProf>,
    manager: Option<Manager>,
    rtsp: Option<Rtsp>,
    rtsps: Option<Rtsp>,
    rtmp: Option<Rtmp>,
    hls: Option<Hls>,
    api: Option<Api>,
    next: nat,
    open: set<(Kind, nat)>)

  function LoggerId(s: State): Ref { if s.logger.Some? then Some(s.logger.value.id) else None }
  function MetricsId(s: State): Ref { if s.metrics.Some? then Some(s.metrics.value.id) else None }
  function PProfId(s: State): Ref { if s.pprof.Some? then Some(s.pprof.value.id) else None }
  function ManagerId(s: State): Ref { if s.manager.Some? then Some(s.manager.value.id) else None }
  function RtspId(s: State): Ref { if s.rtsp.Some? then Some(s.rtsp.value.id) else None }
  function RtspsId(s: State): Ref { if s.rtsps.Some? then Some(s.rtsps.value.id) else None }
  function RtmpId(s: State): Ref { if s.rtmp.Some? then Some(s.rtmp.value.id) else None }
  function HlsId(s: State): Ref { if s.hls.Some? then Some(s.hls.value.id) else None }
  function ApiId(s: State): Ref { if s.api.Some? then Some(s.api.value.id) else None }

  function IdOf(s: State, k: Kind): Ref {
    match k
    case LoggerKind => LoggerId(s)
    case MetricsKind => MetricsId(s)
    case PProfKind => PProfId(s)
    case ManagerKind => ManagerId(s)
    case RtspKind => RtspId(s)
    case RtspsKind => RtspsId(s)
    case RtmpKind => RtmpId(s)
    case HlsKind => HlsId(s)
    case ApiKind => ApiId(s)
  }

  // ---------------------------------------------------------------- parameters from a configuration

  predicate WantsRtsp(c: CoreConf) { !c.rtspDisable && (c.encryption.No? || c.encryption.Optional?) }

  predicate WantsRtsps(c: CoreConf) { !c.rtspDisable && (c.encryption.Strict? || c.encryption.Optional?) }

  function ManagerParamsOf(c: CoreConf): ManagerParams {
    ManagerParams(c.rtspAddress, c.readTimeout, c.writeTimeout, c.readBufferCount, c.readBufferSize)
  }

  function RtspParamsOf(c: CoreConf): RtspParams {
    RtspParams(c.rtspAddress, c.authMethods, c.readTimeout, c.writeTimeout, c.readBufferCount, c.readBufferSize,
               c.protocols.udp, c.protocols.multicast, c.rtpAddress, c.rtcpAddress, c.multicastIPRange,
               c.multicastRTPPort, c.multicastRTCPPort, false, 0, 0, c.rtspAddress, c.protocols, c.runOnConnect,
               c.runOnConnectRestart)
  }

  function RtspsParamsOf(c: CoreConf): RtspParams {
    RtspParams(c.rtspsAddress, c.authMethods, c.readTimeout, c.writeTimeout, c.readBufferCount, c.readBufferSize,
               false, false, 0, 0, 0, 0, 0, true, c.serverCert, c.serverKey, c.rtspAddress, c.protocols,
               c.runOnConnect, c.runOnConnectRestart)
  }

  function RtmpParamsOf(c: CoreConf): RtmpParams {
    RtmpParams(c.rtmpAddress, c.readTimeout, c.writeTimeout, c.readBufferCount, c.rtspAddress, c.runOnConnect,
               c.runOnConnectRestart)
  }

  function HlsParamsOf(c: CoreConf): HlsParams {
    HlsParams(c.hlsAddress, c.hlsAlwaysRemux, c.hlsSegmentCount, c.hlsSegmentDuration, c.hlsAllowOrigin,
              c.readBufferCount)
  }

  // ---------------------------------------------------------------- what a new configuration closes

  datatype Flags = Flags(
    logger: bool, metrics: bool, pprof: bool, manager: bool, rtsp: bool, rtsps: bool, rtmp: bool, hls: bool, api: bool)

  /** The comparisons of closeResources, in its order; without a new configuration all is closed. */
  function FlagsFor(o: CoreConf, new_: Option<CoreConf>): Flags {
    if new_.None? then Flags(true, true, true, true, true, true, true, true, true)
    else
      var n := new_.value;
      var logger := n.logDestinations != o.logDestinations || n.logFile != o.logFile;
      var metrics := n.metrics != o.metrics || n.metricsAddress != o.metricsAddress;
      var pprof := n.pprof != o.pprof || n.pprofAddress != o.pprofAddress;
      var manager :=
        n.rtspAddress != o.rtspAddress || n.readTimeout != o.readTimeout || n.writeTimeout != o.writeTimeout ||
        n.readBufferCount != o.readBufferCount || n.readBufferSize != o.readBufferSize || metrics;
      var rtsp :=
        n.rtspDisable != o.rtspDisable || n.encryption != o.encryption || n.rtspAddress != o.rtspAddress ||
        n.authMethods != o.authMethods || n.readTimeout != o.readTimeout || n.writeTimeout != o.writeTimeout ||
        n.readBufferCount != o.readBufferCount || n.protocols != o.protocols || n.rtpAddress != o.rtpAddress ||
        n.rtcpAddress != o.rtcpAddress || n.multicastIPRange != o.multicastIPRange ||
        n.multicastRTPPort != o.multicastRTPPort || n.multicastRTCPPort != o.multicastRTCPPort ||
        n.runOnConnect != o.runOnConnect || n.runOnConnectRestart != o.runOnConnectRestart || metrics || manager;
      var rtsps :=
        n.rtspDisable != o.rtspDisable || n.encryption != o.encryption || n.rtspsAddress != o.rtspsAddress ||
        n.authMethods != o.authMethods || n.readTimeout != o.readTimeout || n.writeTimeout != o.writeTimeout ||
        n.readBufferCount != o.readBufferCount || n.serverCert != o.serverCert || n.serverKey != o.serverKey ||
        n.rtspAddress != o.rtspAddress || n.protocols != o.protocols || n.runOnConnect != o.runOnConnect ||
        n.runOnConnectRestart != o.runOnConnectRestart || metrics || manager;
      var rtmp :=
        n.rtmpDisable != o.rtmpDisable || n.rtmpAddress != o.rtmpAddress || n.readTimeout != o.readTimeout ||
        n.writeTimeout != o.writeTimeout || n.readBufferCount != o.readBufferCount || n.rtspAddress != o.rtspAddress ||
        n.runOnConnect != o.runOnConnect || n.runOnConnectRestart != o.runOnConnectRestart || metrics || manager;
      var hls :=
        n.hlsDisable != o.hlsDisable || n.hlsAddress != o.hlsAddress || n.hlsAlwaysRemux != o.hlsAlwaysRemux ||
        n.hlsSegmentCount != o.hlsSegmentCount || n.hlsSegmentDuration != o.hlsSegmentDuration ||
        n.hlsAllowOrigin != o.hlsAllowOrigin || n.readBufferCount != o.readBufferCount || manager;
      var api := n.api != o.api || n.apiAddress != o.apiAddress || manager || rtsp || rtsps || rtmp;
      Flags(logger, metrics, pprof, manager, rtsp, rtsps, rtmp, hls, api)
  }

  // ---------------------------------------------------------------- closing

  predicate Flagged(f: Flags, k: Kind) {
    match k
    case LoggerKind => f.logger
    case MetricsKind => f.metrics
    case PProfKind => f.pprof
    case ManagerKind => f.manager
    case RtspKind => f.rtsp
    case RtspsKind => f.rtsps
    case RtmpKind => f.rtmp
    case HlsKind => f.hls
    case ApiKind => f.api
  }

  function Tagged(k: Kind, r: Ref): set<(Kind, nat)> {
    if r.Some? then {(k, r.value)} else {}
  }

  function Gone(closed: bool, k: Kind, r: Ref): set<(Kind, nat)> {
    if closed then Tagged(k, r) else {}
  }

  /** A path manager that stays is handed the new paths, unless they compare equal to the old ones. */
  function Given(m: Option<Manager>, f: Flags, new_: Option<CoreConf>, samePaths: bool): Option<Manager> {
    if new_.Some? && !f.manager && !samePaths && m.Some?
    then Some(m.value.(confs := PathManagers.Merged(m.value.confs, new_.value.paths)))
    else m
  }

  /** It is told when the HLS server closes. */
  function KeptManager(s: State, f: Flags, new_: Option<CoreConf>, samePaths: bool): Option<Manager> {
    var m := Given(s.manager, f, new_, samePaths);
    if f.manager || m.None? then None
    else Some(m.value.(hls := if f.hls && s.hls.Some? then None else m.value.hls))
  }

  /** Components that close take themselves off the metrics, except that an RTMP server registers itself
      once more (internal/core/rtmp_server.go:214-216). */
  function Told(m: Option<Metrics>, manager: bool, rtsp: bool, rtsps: bool, rtmp: Ref): Option<Metrics> {
    if m.None? then None
    else
      var m := m.value;
      Some(Metrics(m.id, m.address,
                   if manager then None else m.pathManager,
                   if rtsp then None else m.rtsp,
                   if rtsps then None else m.rtsps,
                   if rtmp.Some? then rtmp else m.rtmp))
  }

  function ToldMetrics(s: State, f: Flags): Option<Metrics> {
    Told(s.metrics, f.manager && s.manager.Some?, f.rtsp && s.rtsp.Some?, f.rtsps && s.rtsps.Some?,
         if f.rtmp then RtmpId(s) else None)
  }

  /** An API that stays is handed the new configuration. */
  function KeptApi(s: State, f: Flags, new_: Option<CoreConf>): Option<Api> {
    if f.api || s.api.None? || new_.None? then None else Some(s.api.value.(conf := new_.value))
  }

  function OpenWithoutServers(s: State, f: Flags): set<(Kind, nat)> {
    s.open - Gone(f.api, ApiKind, ApiId(s))
    - Gone(f.rtsps, RtspsKind, RtspsId(s)) - Gone(f.rtsp, RtspKind, RtspId(s))
    - Gone(f.manager, ManagerKind, ManagerId(s))
    - Gone(f.hls, HlsKind, HlsId(s)) - Gone(f.rtmp, RtmpKind, RtmpId(s))
  }

  function OpenAfter(s: State, f: Flags): set<(Kind, nat)> {
    OpenWithoutServers(s, f)
    - Gone(f.pprof, PProfKind, PProfId(s)) - Gone(f.metrics, MetricsKind, MetricsId(s))
    - Gone(f.logger, LoggerKind, LoggerId(s))
  }

  /** What closing for a new configuration, or for good, leaves. `samePaths` is the outcome of comparing
      the path tables. */
  function Closed(s: State, new_: Option<CoreConf>, samePaths: bool): State {
    Closing(s, FlagsFor(s.conf, new_), new_, samePaths)
  }

  function Closing(s: State, f: Flags, new_: Option<CoreConf>, samePaths: bool): State {
    State(s.conf,
          if f.logger then None else s.logger,
          if f.metrics then None else ToldMetrics(s, f),
          if f.pprof then None else s.pprof,
          KeptManager(s, f, new_, samePaths),
          if f.rtsp then None else s.rtsp,
          if f.rtsps then None else s.rtsps,
          if f.rtmp then None else s.rtmp,
          if f.hls then None else s.hls,
          KeptApi(s, f, new_),
          s.next,
          OpenAfter(s, f))
  }

  // ---------------------------------------------------------------- creating, one component at a time

  function Opened(s: State, k: Kind): State { s.(next := s.next + 1, open := s.open + {(k, s.next)}) }

  function MakeLogger(s: State): State {
    Opened(s, LoggerKind).(logger := Some(Logger(s.next, s.conf.logLevel, s.conf.logDestinations, s.conf.logFile)))
  }

  function MakeMetrics(s: State): State {
    Opened(s, MetricsKind).(metrics := Some(Metrics(s.next, s.conf.metricsAddress, None, None, None, None)))
  }

  function MakePProf(s: State): State {
    Opened(s, PProfKind).(pprof := Some(PProf(s.next, s.conf.pprofAddress)))
  }

  function Tell(s: State, m: Metrics): State { s.(metrics := Some(m)) }

  function MakeManager(s: State): State {
    var m := Manager(s.next, ManagerParamsOf(s.conf), s.conf.paths, MetricsId(s), None);
    var s1 := Opened(s, ManagerKind).(manager := Some(m));
    if s.metrics.Some? then Tell(s1, s.metrics.value.(pathManager := Some(s.next))) else s1
  }

  function MakeRtsp(s: State): State {
    var s1 := Opened(s, RtspKind).(rtsp := Some(Rtsp(s.next, RtspParamsOf(s.conf), MetricsId(s), ManagerId(s))));
    if s.metrics.Some? then Tell(s1, s.metrics.value.(rtsp := Some(s.next))) else s1
  }

  function MakeRtsps(s: State): State {
    var s1 := Opened(s, RtspsKind).(rtsps := Some(Rtsp(s.next, RtspsParamsOf(s.conf), MetricsId(s), ManagerId(s))));
    if s.metrics.Some? then Tell(s1, s.metrics.value.(rtsps := Some(s.next))) else s1
  }

  function MakeRtmp(s: State): State {
    var s1 := Opened(s, RtmpKind).(rtmp := Some(Rtmp(s.next, RtmpParamsOf(s.conf), MetricsId(s), ManagerId(s))));
    if s.metrics.Some? then Tell(s1, s.metrics.value.(rtmp := Some(s.next))) else s1
  }

  function MakeHls(s: State): State {
    var s1 := Opened(s, HlsKind).(hls := Some(Hls(s.next, HlsParamsOf(s.conf), ManagerId(s))));
    if s.manager.Some? then s1.(manager := Some(s.manager.value.(hls := Some(s.next)))) else s1
  }

  function MakeApi(s: State): State {
    var a := Api(s.next, s.conf.apiAddress, s.conf, ManagerId(s), RtspId(s), RtspsId(s), RtmpId(s));
    Opened(s, ApiKind).(api := Some(a))
  }

  predicate Wanted(c: CoreConf, k: Kind) {
    match k
    case LoggerKind => true
    case MetricsKind => c.metrics
    case PProfKind => c.pprof
    case ManagerKind => true
    case RtspKind => WantsRtsp(c)
    case RtspsKind => WantsRtsps(c)
    case RtmpKind => !c.rtmpDisable
    case HlsKind => !c.hlsDisable
    case ApiKind => c.api
  }

  /** What is missing for the configuration at hand. */
  predicate Needs(s: State, k: Kind) {
    Wanted(s.conf, k) && IdOf(s, k).None?
  }

  function Make(s: State, k: Kind): State {
    match k
    case LoggerKind => MakeLogger(s)
    case MetricsKind => MakeMetrics(s)
    case PProfKind => MakePProf(s)
    case ManagerKind => MakeManager(s)
    case RtspKind => MakeRtsp(s)
    case RtspsKind => MakeRtsps(s)
    case RtmpKind => MakeRtmp(s)
    case HlsKind => MakeHls(s)
    case ApiKind => MakeApi(s)
  }

  /** A run of createResources: where it has got to, and whether it has failed there. */
  datatype Progress = Progress(state: State, ok: bool)

  /** The path manager is the one component that cannot fail to start. */
  function Try(p: Progress, k: Kind, fails: set<Kind>): Progress {
    if !p.ok || !Needs(p.state, k) then p
    else if k in fails && k != ManagerKind then Progress(p.state, false)
    else Progress(Make(p.state, k), true)
  }

  function Foundations(s: State, fails: set<Kind>): Progress {
    var p1 := Try(Progress(s, true), LoggerKind, fails);
    var p2 := Try(p1, MetricsKind, fails);
    var p3 := Try(p2, PProfKind, fails);
    Try(p3, ManagerKind, fails)
  }

  function Servers(p4: Progress, fails: set<Kind>): Progress {
    var p5 := Try(p4, RtspKind, fails);
    var p6 := Try(p5, RtspsKind, fails);
    var p7 := Try(p6, RtmpKind, fails);
    var p8 := Try(p7, HlsKind, fails);
    Try(p8, ApiKind, fails)
  }

  /** Components are created in order until one fails. */
  function Created(s: State, fails: set<Kind>): Progress {
    Servers(Foundations(s, fails), fails)
  }

  function Reloaded(s: State, conf: CoreConf, samePaths: bool, fails: set<Kind>): Progress {
    Created(Closed(s, Some(conf), samePaths).(conf := conf), fails)
  }

  function Empty(conf: CoreConf): State {
    State(conf, None, None, None, None, None, None, None, None, None, 0, {})
  }

  function Fresh(conf: CoreConf, fails: set<Kind>): Progress {
    Created(Empty(conf), fails)
  }
}
