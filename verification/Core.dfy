/** The core, which holds the components and rebuilds some of them when its configuration changes
    (internal/core/core.go). */
module Cores {
  import opened Common
  import PathManagers
  import opened CoreModel
  import opened CoreRuns

  class Core {
    var conf: CoreConf
    var logger: Option<Logger>
    var metrics: Option<Metrics>
    var pprof: Option<PProf>
    var pathManager: Option<Manager>
    var rtspServer: Option<Rtsp>
    var rtspsServer: Option<Rtsp>
    var rtmpServer: Option<Rtmp>
    var hlsServer: Option<Hls>
    var api: Option<Api>
    var next: nat
    var open: set<(Kind, nat)>  // the components created and not closed

    ghost function View(): State
      reads this
    {
      State(conf, logger, metrics, pprof, pathManager, rtspServer, rtspsServer, rtmpServer, hlsServer, api, next, open)
    }

    /** If a component fails to start, those that did are closed again. */
    constructor (conf: CoreConf, fails: set<Kind>)
      ensures var p := Fresh(conf, fails); View() == if p.ok then p.state else Closed(p.state, None, false)
      ensures !Fresh(conf, fails).ok ==> open == {}
    {
      this.conf := conf;
      logger, metrics, pprof, pathManager := None, None, None, None;
      rtspServer, rtspsServer, rtmpServer, hlsServer, api := None, None, None, None, None;
      next, open := 0, {};
      new;
      var ok := CreateResources(fails);
      if !ok {
        CloseResources(None, false);
      }
      assert Run(conf, fails, []) == Fresh(conf, fails);
      NothingLeaks(conf, fails, [], false);
    }

    // -------------------------------------------------------------- creating

    method Register(k: Kind) returns (id: nat)
      modifies this`next, this`open
      ensures id == old(next) && next == old(next) + 1 && open == old(open) + {(k, id)}
    {
      id := next;
      next := next + 1;
      open := open + {(k, id)};
    }

    method CreateLogger()
      modifies this`next, this`open, this`logger
      ensures View() == MakeLogger(old(View()))
    {
      var id := Register(LoggerKind);
      logger := Some(Logger(id, conf.logLevel, conf.logDestinations, conf.logFile));
    }

    method CreateMetrics()
      modifies this`next, this`open, this`metrics
      ensures View() == MakeMetrics(old(View()))
    {
      var id := Register(MetricsKind);
      metrics := Some(Metrics(id, conf.metricsAddress, None, None, None, None));
    }

    method CreatePProf()
      modifies this`next, this`open, this`pprof
      ensures View() == MakePProf(old(View()))
    {
      var id := Register(PProfKind);
      pprof := Some(PProf(id, conf.pprofAddress));
    }

    method CreatePathManager()
      modifies this`next, this`open, this`pathManager, this`metrics
      ensures View() == MakeManager(old(View()))
    {
      var id := Register(ManagerKind);
      pathManager := Some(Manager(id, ManagerParamsOf(conf), conf.paths, MetricsRef(), None));
      if metrics.Some? {
        metrics := Some(metrics.value.(pathManager := Some(id)));
      }
    }

    function MetricsRef(): Ref
      reads this`metrics
    {
      if metrics.Some? then Some(metrics.value.id) else None
    }

    function ManagerRef(): Ref
      reads this`pathManager
    {
      if pathManager.Some? then Some(pathManager.value.id) else None
    }

    function RtspRef(): Ref
      reads this`rtspServer
    {
      if rtspServer.Some? then Some(rtspServer.value.id) else None
    }

    function RtspsRef(): Ref
      reads this`rtspsServer
    {
      if rtspsServer.Some? then Some(rtspsServer.value.id) else None
    }

    function RtmpRef(): Ref
      reads this`rtmpServer
    {
      if rtmpServer.Some? then Some(rtmpServer.value.id) else None
    }

    method CreateRtspServer()
      modifies this`next, this`open, this`rtspServer, this`metrics
      ensures View() == MakeRtsp(old(View()))
    {
      var id := Register(RtspKind);
      rtspServer := Some(Rtsp(id, RtspParamsOf(conf), MetricsRef(), ManagerRef()));
      if metrics.Some? {
        metrics := Some(metrics.value.(rtsp := Some(id)));
      }
    }

    method CreateRtspsServer()
      modifies this`next, this`open, this`rtspsServer, this`metrics
      ensures View() == MakeRtsps(old(View()))
    {
      var id := Register(RtspsKind);
      rtspsServer := Some(Rtsp(id, RtspsParamsOf(conf), MetricsRef(), ManagerRef()));
      if metrics.Some? {
        metrics := Some(metrics.value.(rtsps := Some(id)));
      }
    }

    method CreateRtmpServer()
      modifies this`next, this`open, this`rtmpServer, this`metrics
      ensures View() == MakeRtmp(old(View()))
    {
      var id := Register(RtmpKind);
      rtmpServer := Some(Rtmp(id, RtmpParamsOf(conf), MetricsRef(), ManagerRef()));
      if metrics.Some? {
        metrics := Some(metrics.value.(rtmp := Some(id)));
      }
    }

    method CreateHlsServer()
      modifies this`next, this`open, this`hlsServer, this`pathManager
      ensures View() == MakeHls(old(View()))
    {
      var id := Register(HlsKind);
      hlsServer := Some(Hls(id, HlsParamsOf(conf), ManagerRef()));
      if pathManager.Some? {
        pathManager := Some(pathManager.value.(hls := Some(id)));
      }
    }

    method CreateApi()
      modifies this`next, this`open, this`api
      ensures View() == MakeApi(old(View()))
    {
      var id := Register(ApiKind);
      api := Some(Api(id, conf.apiAddress, conf, ManagerRef(), RtspRef(), RtspsRef(), RtmpRef()));
    }

    function Has(k: Kind): bool
      reads this
    {
      match k
      case LoggerKind => logger.Some?
      case MetricsKind => metrics.Some?
      case PProfKind => pprof.Some?
      case ManagerKind => pathManager.Some?
      case RtspKind => rtspServer.Some?
      case RtspsKind => rtspsServer.Some?
      case RtmpKind => rtmpServer.Some?
      case HlsKind => hlsServer.Some?
      case ApiKind => api.Some?
    }

    method Create(k: Kind)
      modifies this
      ensures View() == Make(old(View()), k)
    {
      match k
      case LoggerKind => CreateLogger();
      case MetricsKind => CreateMetrics();
      case PProfKind => CreatePProf();
      case ManagerKind => CreatePathManager();
      case RtspKind => CreateRtspServer();
      case RtspsKind => CreateRtspsServer();
      case RtmpKind => CreateRtmpServer();
      case HlsKind => CreateHlsServer();
      case ApiKind => CreateApi();
    }

    /** Creates a component that is wanted and missing. */
    method CreateIfNeeded(k: Kind, fails: set<Kind>) returns (ok: bool)
      modifies this
      ensures Progress(View(), ok) == Try(Progress(old(View()), true), k, fails)
    {
      ok := true;
      if Wanted(conf, k) && !Has(k) {
        ok := k !in fails || k == ManagerKind;
        if ok {
          Create(k);
        }
      }
    }

    method CreateFoundations(fails: set<Kind>) returns (ok: bool)
      modifies this
      ensures Progress(View(), ok) == Foundations(old(View()), fails)
    {
      ok := CreateIfNeeded(LoggerKind, fails);
      if ok { ok := CreateIfNeeded(MetricsKind, fails); }
      if ok { ok := CreateIfNeeded(PProfKind, fails); }
      if ok { ok := CreateIfNeeded(ManagerKind, fails); }
    }

    method CreateServers(fails: set<Kind>) returns (ok: bool)
      modifies this
      ensures Progress(View(), ok) == Servers(Progress(old(View()), true), fails)
    {
      ok := CreateIfNeeded(RtspKind, fails);
      if ok { ok := CreateIfNeeded(RtspsKind, fails); }
      if ok { ok := CreateIfNeeded(RtmpKind, fails); }
      if ok { ok := CreateIfNeeded(HlsKind, fails); }
      if ok { ok := CreateIfNeeded(ApiKind, fails); }
    }

    /** Creates what is missing, in order, until a component fails to start. */
    method CreateResources(fails: set<Kind>) returns (ok: bool)
      modifies this
      ensures Progress(View(), ok) == Created(old(View()), fails)
    {
      ok := CreateFoundations(fails);
      if ok {
        ok := CreateServers(fails);
      }
    }

    // -------------------------------------------------------------- closing

    function LoggerRef(): Ref
      reads this`logger
    {
      if logger.Some? then Some(logger.value.id) else None
    }

    function PProfRef(): Ref
      reads this`pprof
    {
      if pprof.Some? then Some(pprof.value.id) else None
    }

    function HlsRef(): Ref
      reads this`hlsServer
    {
      if hlsServer.Some? then Some(hlsServer.value.id) else None
    }

    function ApiRef(): Ref
      reads this`api
    {
      if api.Some? then Some(api.value.id) else None
    }

    method CloseApi()
      modifies this`api, this`open
      ensures api == None && open == old(open) - Tagged(ApiKind, old(ApiRef()))
    {
      if api.Some? {
        open := open - {(ApiKind, api.value.id)};
        api := None;
      }
    }

    method CloseRtspsServer()
      modifies this`rtspsServer, this`open, this`metrics
      ensures rtspsServer == None && open == old(open) - Tagged(RtspsKind, old(RtspsRef()))
      ensures metrics == if old(rtspsServer).Some? && old(metrics).Some? then Some(old(metrics).value.(rtsps := None))
                         else old(metrics)
    {
      if rtspsServer.Some? {
        if metrics.Some? {
          metrics := Some(metrics.value.(rtsps := None));
        }
        open := open - {(RtspsKind, rtspsServer.value.id)};
        rtspsServer := None;
      }
    }

    method CloseRtspServer()
      modifies this`rtspServer, this`open, this`metrics
      ensures rtspServer == None && open == old(open) - Tagged(RtspKind, old(RtspRef()))
      ensures metrics == if old(rtspServer).Some? && old(metrics).Some? then Some(old(metrics).value.(rtsp := None))
                         else old(metrics)
    {
      if rtspServer.Some? {
        if metrics.Some? {
          metrics := Some(metrics.value.(rtsp := None));
        }
        open := open - {(RtspKind, rtspServer.value.id)};
        rtspServer := None;
      }
    }

    method ClosePathManager()
      modifies this`pathManager, this`open, this`metrics
      ensures pathManager == None && open == old(open) - Tagged(ManagerKind, old(ManagerRef()))
      ensures metrics == if old(pathManager).Some? && old(metrics).Some?
          then Some(old(metrics).value.(pathManager := None))
                         else old(metrics)
    {
      if pathManager.Some? {
        if metrics.Some? {
          metrics := Some(metrics.value.(pathManager := None));
        }
        open := open - {(ManagerKind, pathManager.value.id)};
        pathManager := None;
      }
    }

    method CloseHlsServer()
      modifies this`hlsServer, this`open, this`pathManager
      ensures hlsServer == None && open == old(open) - Tagged(HlsKind, old(HlsRef()))
      ensures pathManager == if old(hlsServer).Some? && old(pathManager).Some?
          then Some(old(pathManager).value.(hls := None))
                             else old(pathManager)
    {
      if hlsServer.Some? {
        if pathManager.Some? {
          pathManager := Some(pathManager.value.(hls := None));
        }
        open := open - {(HlsKind, hlsServer.value.id)};
        hlsServer := None;
      }
    }

    method CloseRtmpServer()
      modifies this`rtmpServer, this`open, this`metrics
      ensures rtmpServer == None && open == old(open) - Tagged(RtmpKind, old(RtmpRef()))
      ensures metrics == if old(rtmpServer).Some? && old(metrics).Some?
          then Some(old(metrics).value.(rtmp := old(RtmpRef())))
                         else old(metrics)
    {
      if rtmpServer.Some? {
        if metrics.Some? {
          metrics := Some(metrics.value.(rtmp := Some(rtmpServer.value.id)));
        }
        open := open - {(RtmpKind, rtmpServer.value.id)};
        rtmpServer := None;
      }
    }

    method ClosePProf()
      modifies this`pprof, this`open
      ensures pprof == None && open == old(open) - Tagged(PProfKind, old(PProfRef()))
    {
      if pprof.Some? {
        open := open - {(PProfKind, pprof.value.id)};
        pprof := None;
      }
    }

    method CloseMetrics()
      modifies this`metrics, this`open
      ensures metrics == None && open == old(open) - Tagged(MetricsKind, old(MetricsRef()))
    {
      if metrics.Some? {
        open := open - {(MetricsKind, metrics.value.id)};
        metrics := None;
      }
    }

    method CloseLogger()
      modifies this`logger, this`open
      ensures logger == None && open == old(open) - Tagged(LoggerKind, old(LoggerRef()))
    {
      if logger.Some? {
        open := open - {(LoggerKind, logger.value.id)};
        logger := None;
      }
    }

    /** What stays of the path manager and of the API is handed the new configuration. */
    method HandOver(f: Flags, newConf: Option<CoreConf>, samePaths: bool)
      requires newConf.None? ==> f.api && f.manager
      modifies this`api, this`pathManager, this`open
      ensures api == KeptApi(old(View()), f, newConf)
      ensures pathManager == Given(old(pathManager), f, newConf, samePaths)
      ensures open == old(open) - Gone(f.api, ApiKind, old(ApiRef()))
    {
      if newConf.Some? && !f.manager && !samePaths && pathManager.Some? {
        pathManager := Some(pathManager.value.(confs :=
          PathManagers.Merged(pathManager.value.confs, newConf.value.paths)));
      }
      if f.api {
        CloseApi();
      } else if api.Some? {
        api := Some(api.value.(conf := newConf.value));
      }
    }

    method CloseServers(f: Flags)
      modifies this`rtspsServer, this`rtspServer, this`pathManager, this`hlsServer, this`rtmpServer, this`metrics,
               this`open
      ensures rtspsServer == if f.rtsps then None else old(rtspsServer)
      ensures rtspServer == if f.rtsp then None else old(rtspServer)
      ensures pathManager == if f.manager || old(pathManager).None? then None else Some(old(pathManager).value.(
                hls := if f.hls && old(hlsServer).Some? then None else old(pathManager).value.hls))
      ensures hlsServer == if f.hls then None else old(hlsServer)
      ensures rtmpServer == if f.rtmp then None else old(rtmpServer)
      ensures metrics == Told(old(metrics), f.manager && old(pathManager).Some?, f.rtsp && old(rtspServer).Some?,
                              f.rtsps && old(rtspsServer).Some?, if f.rtmp then old(RtmpRef()) else None)
      ensures open == old(open) - Gone(f.rtsps, RtspsKind, old(RtspsRef())) - Gone(f.rtsp, RtspKind, old(RtspRef()))
                      - Gone(f.manager, ManagerKind, old(ManagerRef())) - Gone(f.hls, HlsKind, old(HlsRef()))
                      - Gone(f.rtmp, RtmpKind, old(RtmpRef()))
    {
      if f.rtsps { CloseRtspsServer(); }
      if f.rtsp { CloseRtspServer(); }
      if f.manager { ClosePathManager(); }
      if f.hls { CloseHlsServer(); }
      if f.rtmp { CloseRtmpServer(); }
    }

    method CloseBase(f: Flags)
      modifies this`pprof, this`metrics, this`logger, this`open
      ensures pprof == if f.pprof then None else old(pprof)
      ensures metrics == if f.metrics then None else old(metrics)
      ensures logger == if f.logger then None else old(logger)
      ensures open == old(open) - Gone(f.pprof, PProfKind, old(PProfRef()))
                      - Gone(f.metrics, MetricsKind, old(MetricsRef()))
                      - Gone(f.logger, LoggerKind, old(LoggerRef()))
    {
      if f.pprof { ClosePProf(); }
      if f.metrics { CloseMetrics(); }
      if f.logger { CloseLogger(); }
    }

    method CloseMost(f: Flags, newConf: Option<CoreConf>, samePaths: bool)
      requires newConf.None? ==> f.api && f.manager
      modifies this`api, this`pathManager, this`rtspsServer, this`rtspServer, this`hlsServer, this`rtmpServer,
               this`metrics, this`open
      ensures api == KeptApi(old(View()), f, newConf)
      ensures pathManager == KeptManager(old(View()), f, newConf, samePaths)
      ensures metrics == ToldMetrics(old(View()), f)
      ensures rtspsServer == if f.rtsps then None else old(rtspsServer)
      ensures rtspServer == if f.rtsp then None else old(rtspServer)
      ensures hlsServer == if f.hls then None else old(hlsServer)
      ensures rtmpServer == if f.rtmp then None else old(rtmpServer)
      ensures open == OpenWithoutServers(old(View()), f)
    {
      HandOver(f, newConf, samePaths);
      CloseServers(f);
    }

    method CloseFlagged(f: Flags, newConf: Option<CoreConf>, samePaths: bool)
      requires newConf.None? ==> f.api && f.manager
      modifies this
      ensures View() == Closing(old(View()), f, newConf, samePaths)
    {
      CloseMost(f, newConf, samePaths);
      CloseBase(f);
    }

    /** Closes what a new configuration changes, or everything; the path manager, if it stays, is handed
        paths that differ first. */
    method CloseResources(newConf: Option<CoreConf>, samePaths: bool)
      modifies this
      ensures View() == Closed(old(View()), newConf, samePaths)
    {
      CloseFlagged(FlagsFor(conf, newConf), newConf, samePaths);
    }

    method ReloadConf(newConf: CoreConf, samePaths: bool, fails: set<Kind>) returns (ok: bool)
      modifies this
      ensures Progress(View(), ok) == Reloaded(old(View()), newConf, samePaths, fails)
    {
      CloseResources(Some(newConf), samePaths);
      conf := newConf;
      ok := CreateResources(fails);
    }

    /** The main loop: reloads as they come, until one fails or there are no more, and then everything is
        closed. */
    method Serve(ghost first: CoreConf, ghost fails: set<Kind>, rs: seq<Reload>)
      requires Run(first, fails, []).ok && View() == Run(first, fails, []).state && Truthful(first, rs)
      modifies this
      ensures View() == Closed(Run(first, fails, rs).state, None, false) && open == {}
    {
      var i, ok := 0, true;
      assert rs[..0] == [];
      while i < |rs| && ok
        invariant 0 <= i <= |rs|
        invariant Progress(View(), ok) == Run(first, fails, rs[..i])
      {
        assert rs[..i + 1][..i] == rs[..i];
        ok := ReloadConf(rs[i].conf, rs[i].samePaths, rs[i].fails);
        i := i + 1;
      }
      FailureIsFinal(first, fails, rs, i);
      NothingLeaks(first, fails, rs, false);
      CloseResources(None, false);
    }
  }
}
