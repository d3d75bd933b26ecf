/** Reloading configuration after configuration gives the server a fresh start would give. */
module CoreRuns {
  import opened Common
  import PathManagers
  import opened CoreModel

  // ---------------------------------------------------------------- what is kept between calls

  /** Entry by entry equal, though the objects may differ. */
  predicate SameTable(a: PathManagers.ConfTable, b: PathManagers.ConfTable) {
    a.Keys == b.Keys && forall n :: n in a ==> PathManagers.Equal(a[n], b[n])
  }

  predicate LoggerFits(s: State) {
    s.logger.Some? ==> s.logger.value.destinations == s.conf.logDestinations && s.logger.value.file == s.conf.logFile
  }

  /** The reference to the RTMP server is only right while there is one. */
  predicate MetricsFits(s: State) {
    s.metrics.Some? ==>
      var m := s.metrics.value;
      && s.conf.metrics && m.address == s.conf.metricsAddress
      && m.pathManager == ManagerId(s) && m.rtsp == RtspId(s) && m.rtsps == RtspsId(s)
      && (s.rtmp.Some? ==> m.rtmp == RtmpId(s))
  }

  predicate PProfFits(s: State) {
    s.pprof.Some? ==> s.conf.pprof && s.pprof.value.address == s.conf.pprofAddress
  }

  predicate ManagerFits(s: State) {
    s.manager.Some? ==>
      var m := s.manager.value;
      && m.params == ManagerParamsOf(s.conf) && SameTable(m.confs, s.conf.paths)
      && m.metrics == MetricsId(s) && !Needs(s, MetricsKind) && m.hls == HlsId(s)
  }

  predicate RtspFits(s: State) {
    s.rtsp.Some? ==>
      var r := s.rtsp.value;
      && WantsRtsp(s.conf) && r.params == RtspParamsOf(s.conf)
      && r.metrics == MetricsId(s) && !Needs(s, MetricsKind) && r.pathManager == ManagerId(s) && s.manager.Some?
  }

  predicate RtspsFits(s: State) {
    s.rtsps.Some? ==>
      var r := s.rtsps.value;
      && WantsRtsps(s.conf) && r.params == RtspsParamsOf(s.conf)
      && r.metrics == MetricsId(s) && !Needs(s, MetricsKind) && r.pathManager == ManagerId(s) && s.manager.Some?
  }

  predicate RtmpFits(s: State) {
    s.rtmp.Some? ==>
      var r := s.rtmp.value;
      && !s.conf.rtmpDisable && r.params == RtmpParamsOf(s.conf)
      && r.metrics == MetricsId(s) && !Needs(s, MetricsKind) && r.pathManager == ManagerId(s) && s.manager.Some?
  }

  predicate HlsFits(s: State) {
    s.hls.Some? ==>
      var h := s.hls.value;
      !s.conf.hlsDisable && h.params == HlsParamsOf(s.conf) && h.pathManager == ManagerId(s) && s.manager.Some?
  }

  predicate ApiFits(s: State) {
    s.api.Some? ==>
      var a := s.api.value;
      && s.conf.api && a.address == s.conf.apiAddress && a.conf == s.conf
      && a.pathManager == ManagerId(s) && s.manager.Some?
      && a.rtsp == RtspId(s) && !Needs(s, RtspKind) && a.rtsps == RtspsId(s) && !Needs(s, RtspsKind)
      && a.rtmp == RtmpId(s) && !Needs(s, RtmpKind)
  }

  /** Every component there is was built as the configuration says and refers to the live others; none
      refers to a component still to be created. */
  predicate Fits(s: State) {
    LoggerFits(s) && MetricsFits(s) && PProfFits(s) && ManagerFits(s) && RtspFits(s) && RtspsFits(s) && RtmpFits(s) &&
    HlsFits(s) && ApiFits(s)
  }

  predicate Complete(s: State) {
    forall k: Kind :: !Needs(s, k)
  }

  /** The components created and not closed are those the core holds. */
  ghost predicate Accounted(s: State) {
    forall k: Kind, id: nat :: (k, id) in s.open <==> IdOf(s, k) == Some(id)
  }

  // ---------------------------------------------------------------- creating

  lemma MakeGivesId(s: State, k: Kind, j: Kind)
    ensures IdOf(Make(s, k), j) == if j == k then Some(s.next) else IdOf(s, j)
  {
    if j.LoggerKind? || j.MetricsKind? || j.PProfKind? || j.ManagerKind? || j.RtspKind? {
      MakeGivesFirstIds(s, k, j);
    } else {
      MakeGivesLastIds(s, k, j);
    }
  }

  lemma MakeGivesFirstIds(s: State, k: Kind, j: Kind)
    requires j.LoggerKind? || j.MetricsKind? || j.PProfKind? || j.ManagerKind? || j.RtspKind?
    ensures IdOf(Make(s, k), j) == if j == k then Some(s.next) else IdOf(s, j)
  {
  }

  lemma MakeGivesLastIds(s: State, k: Kind, j: Kind)
    requires j.RtspsKind? || j.RtmpKind? || j.HlsKind? || j.ApiKind?
    ensures IdOf(Make(s, k), j) == if j == k then Some(s.next) else IdOf(s, j)
  {
  }

  lemma MakeOpens(s: State, k: Kind)
    ensures Make(s, k).conf == s.conf && Make(s, k).open == s.open + {(k, s.next)}
  {
  }

  /** The components a new one refers to must be there already. */
  predicate InOrder(s: State, k: Kind) {
    && (!k.LoggerKind? && !k.MetricsKind? ==> !Needs(s, MetricsKind))
    && (k.RtspKind? || k.RtspsKind? || k.RtmpKind? || k.HlsKind? || k.ApiKind? ==> !Needs(s, ManagerKind))
    && (k.ApiKind? ==> !Needs(s, RtspKind) && !Needs(s, RtspsKind) && !Needs(s, RtmpKind))
  }

  lemma MakeLoggerFits(s: State)
    requires Fits(s) && Needs(s, LoggerKind) && InOrder(s, LoggerKind)
    ensures Fits(MakeLogger(s))
  {
  }

  lemma MakeMetricsFits(s: State)
    requires Fits(s) && Needs(s, MetricsKind) && InOrder(s, MetricsKind)
    ensures Fits(MakeMetrics(s))
  {
  }

  lemma MakePProfFits(s: State)
    requires Fits(s) && Needs(s, PProfKind) && InOrder(s, PProfKind)
    ensures Fits(MakePProf(s))
  {
  }

  lemma MakeManagerFits(s: State)
    requires Fits(s) && Needs(s, ManagerKind) && InOrder(s, ManagerKind)
    ensures Fits(MakeManager(s))
  {
  }

  lemma MakeRtspFits(s: State)
    requires Fits(s) && Needs(s, RtspKind) && InOrder(s, RtspKind)
    ensures Fits(MakeRtsp(s))
  {
  }

  lemma MakeRtspsFits(s: State)
    requires Fits(s) && Needs(s, RtspsKind) && InOrder(s, RtspsKind)
    ensures Fits(MakeRtsps(s))
  {
  }

  lemma MakeRtmpFits(s: State)
    requires Fits(s) && Needs(s, RtmpKind) && InOrder(s, RtmpKind)
    ensures Fits(MakeRtmp(s))
  {
  }

  lemma MakeHlsFits(s: State)
    requires Fits(s) && Needs(s, HlsKind) && InOrder(s, HlsKind)
    ensures Fits(MakeHls(s))
  {
  }

  lemma MakeApiFits(s: State)
    requires Fits(s) && Needs(s, ApiKind) && InOrder(s, ApiKind)
    ensures Fits(MakeApi(s))
  {
  }

  lemma MakeFits(s: State, k: Kind)
    requires Fits(s) && Needs(s, k) && InOrder(s, k)
    ensures Fits(Make(s, k))
  {
    match k
    case LoggerKind => MakeLoggerFits(s);
    case MetricsKind => MakeMetricsFits(s);
    case PProfKind => MakePProfFits(s);
    case ManagerKind => MakeManagerFits(s);
    case RtspKind => MakeRtspFits(s);
    case RtspsKind => MakeRtspsFits(s);
    case RtmpKind => MakeRtmpFits(s);
    case HlsKind => MakeHlsFits(s);
    case ApiKind => MakeApiFits(s);
  }

  lemma MakeIsAccounted(s: State, k: Kind)
    requires Accounted(s) && Needs(s, k)
    ensures Accounted(Make(s, k))
  {
    MakeOpens(s, k);
    forall j, id ensures (j, id) in Make(s, k).open <==> IdOf(Make(s, k), j) == Some(id) { MakeGivesId(s, k, j); }
  }

  /** One step of createResources: a need that is met stays met. */
  ghost predicate Advanced(p: Progress, k: Kind, q: Progress) {
    && Accounted(q.state) && q.state.conf == p.state.conf
    && (q.ok ==> p.ok && Fits(q.state) && !Needs(q.state, k) && forall j :: Needs(q.state, j) ==> Needs(p.state, j))
  }

  lemma TryStep(p: Progress, k: Kind, fails: set<Kind>, q: Progress)
    requires Accounted(p.state) && (p.ok ==> Fits(p.state) && InOrder(p.state, k)) && q == Try(p, k, fails)
    ensures Advanced(p, k, q)
  {
    if p.ok && Needs(p.state, k) {
      MakeIsAccounted(p.state, k);
      MakeOpens(p.state, k);
      MakeFits(p.state, k);
      forall j ensures Needs(Make(p.state, k), j) <==> Needs(p.state, j) && j != k { MakeGivesId(p.state, k, j); }
    }
  }

  /** Where createResources is, having met the needs `ks` of configuration `c`. */
  ghost predicate Stage(p: Progress, c: CoreConf, ks: set<Kind>) {
    Accounted(p.state) && p.state.conf == c && (p.ok ==> Fits(p.state) && forall k :: k in ks ==> !Needs(p.state, k))
  }

  lemma TryMeets(p: Progress, c: CoreConf, ks: set<Kind>, k: Kind, fails: set<Kind>, q: Progress)
    requires Stage(p, c, ks) && (p.ok ==> InOrder(p.state, k)) && q == Try(p, k, fails)
    ensures Stage(q, c, ks + {k})
  {
    TryStep(p, k, fails, q);
  }

  lemma FoundationsFit(s: State, fails: set<Kind>)
    requires Fits(s) && Accounted(s)
    ensures Stage(Foundations(s, fails), s.conf, {LoggerKind, MetricsKind, PProfKind, ManagerKind})
  {
    var p1 := Try(Progress(s, true), LoggerKind, fails);
    var p2 := Try(p1, MetricsKind, fails);
    var p3 := Try(p2, PProfKind, fails);
    TryMeets(Progress(s, true), s.conf, {}, LoggerKind, fails, p1);
    TryMeets(p1, s.conf, {LoggerKind}, MetricsKind, fails, p2);
    TryMeets(p2, s.conf, {LoggerKind, MetricsKind}, PProfKind, fails, p3);
    TryMeets(p3, s.conf, {LoggerKind, MetricsKind, PProfKind}, ManagerKind, fails, Try(p3, ManagerKind, fails));
  }

  lemma ServersFit(p4: Progress, c: CoreConf, fails: set<Kind>)
    requires Stage(p4, c, {LoggerKind, MetricsKind, PProfKind, ManagerKind})
    ensures Stage(Servers(p4, fails), c, {LoggerKind, MetricsKind, PProfKind, ManagerKind} +
                                         {RtspKind, RtspsKind, RtmpKind, HlsKind, ApiKind})
  {
    var ks := {LoggerKind, MetricsKind, PProfKind, ManagerKind};
    var p5 := Try(p4, RtspKind, fails);
    var p6 := Try(p5, RtspsKind, fails);
    var p7 := Try(p6, RtmpKind, fails);
    var p8 := Try(p7, HlsKind, fails);
    TryMeets(p4, c, ks, RtspKind, fails, p5);
    TryMeets(p5, c, ks + {RtspKind}, RtspsKind, fails, p6);
    TryMeets(p6, c, ks + {RtspKind, RtspsKind}, RtmpKind, fails, p7);
    TryMeets(p7, c, ks + {RtspKind, RtspsKind, RtmpKind}, HlsKind, fails, p8);
    TryMeets(p8, c, ks + {RtspKind, RtspsKind, RtmpKind, HlsKind}, ApiKind, fails, Try(p8, ApiKind, fails));
  }

  lemma AllMet(p: Progress, c: CoreConf, ks: set<Kind>)
    requires Stage(p, c, ks)
    requires forall k :: k in ks
    ensures p.ok ==> Complete(p.state)
  {
  }

  /** Creating the missing components gives a complete and right set of them, or fails; either way each
      component that was opened is held. */
  lemma CreatedFits(s: State, fails: set<Kind>, p: Progress)
    requires Fits(s) && Accounted(s) && p == Created(s, fails)
    ensures Accounted(p.state) && p.state.conf == s.conf && (p.ok ==> Fits(p.state) && Complete(p.state))
  {
    var q := Foundations(s, fails);
    FoundationsFit(s, fails);
    ServersFit(q, s.conf, fails);
    var ks := {LoggerKind, MetricsKind, PProfKind, ManagerKind} + {RtspKind, RtspsKind, RtmpKind, HlsKind, ApiKind};
    assert p == Servers(q, fails);
    forall k: Kind ensures k in ks { match k case LoggerKind => case _ => }
    AllMet(p, s.conf, ks);
  }

  // ---------------------------------------------------------------- closing

  lemma ClosedIds(s: State, new_: Option<CoreConf>, samePaths: bool, f: Flags, t: State, k: Kind)
    requires f == FlagsFor(s.conf, new_) && t == Closed(s, new_, samePaths)
    ensures IdOf(t, k) == if Flagged(f, k) then None else IdOf(s, k)
  {
  }

  lemma OpenAfterExactly(s: State, f: Flags, k: Kind, id: nat)
    ensures (k, id) in OpenAfter(s, f) <==> (k, id) in s.open && !(Flagged(f, k) && IdOf(s, k) == Some(id))
  {
  }

  lemma ClosedIsAccounted(s: State, new_: Option<CoreConf>, samePaths: bool, f: Flags, t: State)
    requires f == FlagsFor(s.conf, new_) && t == Closed(s, new_, samePaths) && Accounted(s)
    ensures Accounted(t)
  {
    forall k: Kind, id: nat ensures (k, id) in t.open <==> IdOf(t, k) == Some(id) {
      ClosedIds(s, new_, samePaths, f, t, k);
      OpenAfterExactly(s, f, k, id);
      assert (k, id) in s.open <==> IdOf(s, k) == Some(id);
    }
  }

  /** Closing for good leaves nothing open. */
  lemma NothingStaysOpen(s: State, samePaths: bool)
    requires Accounted(s)
    ensures Closed(s, None, samePaths).open == {}
  {
    var t := Closed(s, None, samePaths);
    var f := FlagsFor(s.conf, None);
    ClosedIsAccounted(s, None, samePaths, f, t);
    forall o | o in t.open ensures false {
      assert (o.0, o.1) in t.open;
      ClosedIds(s, None, samePaths, f, t, o.0);
    }
  }

  // ---------------------------------------------------------------- what is kept fits the new configuration

  /** `s` is what the core holds under its configuration, `t` what closing for `n` keeps of it. */
  ghost predicate Kept(s: State, n: CoreConf, samePaths: bool, f: Flags, t: State) {
    && Fits(s) && Complete(s) && f == FlagsFor(s.conf, Some(n)) && t == Closed(s, Some(n), samePaths).(conf := n)
    && (samePaths ==> SameTable(s.conf.paths, n.paths))
  }

  lemma KeptId(s: State, n: CoreConf, samePaths: bool, f: Flags, t: State, k: Kind)
    requires f == FlagsFor(s.conf, Some(n)) && t == Closed(s, Some(n), samePaths).(conf := n)
    ensures IdOf(t, k) == if Flagged(f, k) then None else IdOf(s, k)
  {
    ClosedIds(s, Some(n), samePaths, f, Closed(s, Some(n), samePaths), k);
  }

  /** What is still wanted and stays is not missing. */
  lemma KeptIsWanted(s: State, n: CoreConf, samePaths: bool, f: Flags, t: State, k: Kind)
    requires Kept(s, n, samePaths, f, t) && !Flagged(f, k)
    ensures Wanted(n, k) == Wanted(s.conf, k) && !Needs(t, k)
  {
    KeptId(s, n, samePaths, f, t, k);
    assert !Needs(s, k);
  }

  lemma KeptMetricsFits(s: State, n: CoreConf, samePaths: bool, f: Flags, t: State)
    requires Kept(s, n, samePaths, f, t)
    ensures MetricsFits(t)
  {
    assert !Needs(s, RtmpKind);
  }

  lemma KeptManagerFits(s: State, n: CoreConf, samePaths: bool, f: Flags, t: State)
    requires Kept(s, n, samePaths, f, t)
    ensures ManagerFits(t)
  {
    if t.manager.Some? { KeptIsWanted(s, n, samePaths, f, t, MetricsKind); }
  }

  lemma KeptRtspFits(s: State, n: CoreConf, samePaths: bool, f: Flags, t: State)
    requires Kept(s, n, samePaths, f, t)
    ensures RtspFits(t)
  {
    if t.rtsp.Some? { KeptIsWanted(s, n, samePaths, f, t, MetricsKind); }
  }

  lemma KeptRtspsFits(s: State, n: CoreConf, samePaths: bool, f: Flags, t: State)
    requires Kept(s, n, samePaths, f, t)
    ensures RtspsFits(t)
  {
    if t.rtsps.Some? { KeptIsWanted(s, n, samePaths, f, t, MetricsKind); }
  }

  lemma KeptRtmpFits(s: State, n: CoreConf, samePaths: bool, f: Flags, t: State)
    requires Kept(s, n, samePaths, f, t)
    ensures RtmpFits(t)
  {
    if t.rtmp.Some? { KeptIsWanted(s, n, samePaths, f, t, MetricsKind); }
  }

  lemma KeptApiFits(s: State, n: CoreConf, samePaths: bool, f: Flags, t: State)
    requires Kept(s, n, samePaths, f, t)
    ensures ApiFits(t)
  {
    if t.api.Some? {
      KeptIsWanted(s, n, samePaths, f, t, RtspKind);
      KeptIsWanted(s, n, samePaths, f, t, RtspsKind);
      KeptIsWanted(s, n, samePaths, f, t, RtmpKind);
    }
  }

  lemma KeptRestFits(s: State, n: CoreConf, samePaths: bool, f: Flags, t: State)
    requires Kept(s, n, samePaths, f, t)
    ensures LoggerFits(t) && PProfFits(t) && HlsFits(t)
  {
  }

  lemma KeptFits(s: State, n: CoreConf, samePaths: bool, f: Flags, t: State)
    requires Kept(s, n, samePaths, f, t)
    ensures Fits(t)
  {
    KeptRestFits(s, n, samePaths, f, t);
    KeptMetricsFits(s, n, samePaths, f, t);
    KeptManagerFits(s, n, samePaths, f, t);
    KeptRtspFits(s, n, samePaths, f, t);
    KeptRtspsFits(s, n, samePaths, f, t);
    KeptRtmpFits(s, n, samePaths, f, t);
    KeptApiFits(s, n, samePaths, f, t);
  }

  /** One reload: the result holds what it opened, and unless a component failed it is complete and right. */
  lemma ReloadFits(s: State, n: CoreConf, samePaths: bool, fails: set<Kind>, p: Progress)
    requires Fits(s) && Complete(s) && Accounted(s) && p == Reloaded(s, n, samePaths, fails)
    requires samePaths ==> SameTable(s.conf.paths, n.paths)
    ensures Accounted(p.state) && p.state.conf == n && (p.ok ==> Fits(p.state) && Complete(p.state))
  {
    var f := FlagsFor(s.conf, Some(n));
    var c := Closed(s, Some(n), samePaths);
    var t := c.(conf := n);
    ClosedIsAccounted(s, Some(n), samePaths, f, c);
    forall k: Kind, id: nat ensures (k, id) in t.open <==> IdOf(t, k) == Some(id) {
      KeptId(s, n, samePaths, f, t, k);
      ClosedIds(s, Some(n), samePaths, f, c, k);
    }
    KeptFits(s, n, samePaths, f, t);
    CreatedFits(t, fails, p);
  }

  lemma NothingNeeded(p: Progress, fails: set<Kind>)
    requires Complete(p.state)
    ensures Servers(p, fails) == p && (p.ok ==> Foundations(p.state, fails) == p)
  {
  }

  /** Reloading the configuration at hand changes nothing, whether or not the tables compare equal. */
  lemma ReloadingTheSameChangesNothing(s: State, samePaths: bool, fails: set<Kind>)
    requires Fits(s) && Complete(s)
    ensures Reloaded(s, s.conf, samePaths, fails) == Progress(s, true)
  {
    var t := Closed(s, Some(s.conf), samePaths);
    if s.manager.Some? {
      var m := s.manager.value;
      assert PathManagers.Merged(m.confs, s.conf.paths) == m.confs;
    }
    assert t.open == s.open;
    assert t == s;
    NothingNeeded(Progress(s, true), fails);
  }

  // ---------------------------------------------------------------- whole runs

  datatype Reload = Reload(conf: CoreConf, samePaths: bool, fails: set<Kind>)

  /** The core stops at the first failure. */
  function Run(first: CoreConf, fails: set<Kind>, rs: seq<Reload>): Progress {
    if rs == [] then Fresh(first, fails)
    else
      var p := Run(first, fails, rs[..|rs| - 1]);
      var r := rs[|rs| - 1];
      if p.ok then Reloaded(p.state, r.conf, r.samePaths, r.fails) else p
  }

  lemma {:induction false} FailureIsFinal(first: CoreConf, fails: set<Kind>, rs: seq<Reload>, i: nat)
    requires i <= |rs| && (i < |rs| ==> !Run(first, fails, rs[..i]).ok)
    ensures Run(first, fails, rs[..i]) == Run(first, fails, rs)
  {
    if i < |rs| {
      var before := rs[..|rs| - 1];
      assert before[..i] == rs[..i];
      FailureIsFinal(first, fails, before, i);
    } else {
      assert rs[..i] == rs;
    }
  }

  function LastConf(first: CoreConf, rs: seq<Reload>): CoreConf {
    if rs == [] then first else rs[|rs| - 1].conf
  }

  /** Path tables that compare equal have equal entries. */
  predicate Truthful(first: CoreConf, rs: seq<Reload>) {
    forall i :: 0 <= i < |rs| && rs[i].samePaths ==> SameTable(LastConf(first, rs[..i]).paths, rs[i].conf.paths)
  }

  lemma TruthfulSoFar(first: CoreConf, rs: seq<Reload>)
    requires Truthful(first, rs) && rs != []
    ensures Truthful(first, rs[..|rs| - 1])
  {
    var n := |rs| - 1;
    forall i | 0 <= i < n && rs[..n][i].samePaths
      ensures SameTable(LastConf(first, rs[..n][..i]).paths, rs[..n][i].conf.paths)
    {
      assert rs[..n][..i] == rs[..i];
    }
  }

  /** After any sequence of successful reloads every wanted component is there, built as the last
      configuration says, and linked to the live others. Whatever happened, the components opened are
      those held. */
  lemma {:induction false} RunsFit(first: CoreConf, fails: set<Kind>, rs: seq<Reload>)
    requires Truthful(first, rs)
    ensures var p := Run(first, fails, rs);
            && Accounted(p.state)
            && (p.ok ==> Fits(p.state) && Complete(p.state) && p.state.conf == LastConf(first, rs))
  {
    if rs == [] {
      CreatedFits(Empty(first), fails, Fresh(first, fails));
    } else {
      var before := rs[..|rs| - 1];
      var r := rs[|rs| - 1];
      TruthfulSoFar(first, rs);
      RunsFit(first, fails, before);
      var p := Run(first, fails, before);
      if p.ok { ReloadFits(p.state, r.conf, r.samePaths, r.fails, Reloaded(p.state, r.conf, r.samePaths, r.fails)); }
    }
  }

  /** However a run went, failed starts and reloads included, closing for good closes all there was. */
  lemma NothingLeaks(first: CoreConf, fails: set<Kind>, rs: seq<Reload>, samePaths: bool)
    requires Truthful(first, rs)
    ensures Closed(Run(first, fails, rs).state, None, samePaths).open == {}
  {
    RunsFit(first, fails, rs);
    NothingStaysOpen(Run(first, fails, rs).state, samePaths);
  }

  // ---------------------------------------------------------------- compared with a fresh start

  /** Where a reference leads: nowhere, to the component of that kind that is live, or to a closed one. */
  datatype Link = Nowhere | Live | Dangling

  function LinkTo(r: Ref, live: Ref): Link {
    if r.None? then Nowhere else if r == live then Live else Dangling
  }

  predicate SameLogger(s: State, t: State) {
    match (s.logger, t.logger)
    case (Some(a), Some(b)) => a.destinations == b.destinations && a.file == b.file
    case (a, b) => a.None? && b.None?
  }

  predicate SameMetrics(s: State, t: State) {
    match (s.metrics, t.metrics)
    case (Some(a), Some(b)) =>
      && a.address == b.address
      && LinkTo(a.pathManager, ManagerId(s)) == LinkTo(b.pathManager, ManagerId(t))
      && LinkTo(a.rtsp, RtspId(s)) == LinkTo(b.rtsp, RtspId(t))
      && LinkTo(a.rtsps, RtspsId(s)) == LinkTo(b.rtsps, RtspsId(t))
    case (a, b) => a.None? && b.None?
  }

  predicate SamePProf(s: State, t: State) {
    match (s.pprof, t.pprof)
    case (Some(a), Some(b)) => a.address == b.address
    case (a, b) => a.None? && b.None?
  }

  predicate SameManager(s: State, t: State) {
    match (s.manager, t.manager)
    case (Some(a), Some(b)) =>
      && a.params == b.params && SameTable(a.confs, b.confs)
      && LinkTo(a.metrics, MetricsId(s)) == LinkTo(b.metrics, MetricsId(t))
      && LinkTo(a.hls, HlsId(s)) == LinkTo(b.hls, HlsId(t))
    case (a, b) => a.None? && b.None?
  }

  predicate SameRtsp(s: State, a: Option<Rtsp>, t: State, b: Option<Rtsp>) {
    match (a, b)
    case (Some(a), Some(b)) =>
      && a.params == b.params && LinkTo(a.metrics, MetricsId(s)) == LinkTo(b.metrics, MetricsId(t))
      && LinkTo(a.pathManager, ManagerId(s)) == LinkTo(b.pathManager, ManagerId(t))
    case (a, b) => a.None? && b.None?
  }

  predicate SameRtmp(s: State, t: State) {
    match (s.rtmp, t.rtmp)
    case (Some(a), Some(b)) =>
      && a.params == b.params && LinkTo(a.metrics, MetricsId(s)) == LinkTo(b.metrics, MetricsId(t))
      && LinkTo(a.pathManager, ManagerId(s)) == LinkTo(b.pathManager, ManagerId(t))
    case (a, b) => a.None? && b.None?
  }

  predicate SameHls(s: State, t: State) {
    match (s.hls, t.hls)
    case (Some(a), Some(b)) =>
      a.params == b.params && LinkTo(a.pathManager, ManagerId(s)) == LinkTo(b.pathManager, ManagerId(t))
    case (a, b) => a.None? && b.None?
  }

  predicate SameApi(s: State, t: State) {
    match (s.api, t.api)
    case (Some(a), Some(b)) =>
      && a.address == b.address && a.conf == b.conf
      && LinkTo(a.pathManager, ManagerId(s)) == LinkTo(b.pathManager, ManagerId(t))
      && LinkTo(a.rtsp, RtspId(s)) == LinkTo(b.rtsp, RtspId(t))
      && LinkTo(a.rtsps, RtspsId(s)) == LinkTo(b.rtsps, RtspsId(t))
      && LinkTo(a.rtmp, RtmpId(s)) == LinkTo(b.rtmp, RtmpId(t))
    case (a, b) => a.None? && b.None?
  }

  /** The same components with the same parameters, linked in the same way, but for the two things a
      reload can get wrong. */
  predicate Alike(s: State, t: State) {
    && s.conf == t.conf && SameLogger(s, t) && SameMetrics(s, t) && SamePProf(s, t) && SameManager(s, t)
    && SameRtsp(s, s.rtsp, t, t.rtsp) && SameRtsp(s, s.rtsps, t, t.rtsps) && SameRtmp(s, t) && SameHls(s, t)
    && SameApi(s, t)
  }

  function Level(s: State): Value {
    if s.logger.Some? then s.logger.value.level else s.conf.logLevel
  }

  function RtmpLink(s: State): Link {
    if s.metrics.Some? then LinkTo(s.metrics.value.rtmp, RtmpId(s)) else Nowhere
  }

  /** A fresh start in which no component fails. */
  function FreshStart(c: CoreConf): State {
    Fresh(c, {}).state
  }

  /** A component is there exactly if it is wanted. */
  lemma PresentExactlyIfWanted(s: State, k: Kind)
    requires Fits(s) && Complete(s)
    ensures IdOf(s, k).Some? <==> Wanted(s.conf, k)
  {
    assert !Needs(s, k);
  }

  /** Same configuration, both complete and right. */
  predicate Peers(s: State, t: State) {
    s.conf == t.conf && Fits(s) && Complete(s) && Fits(t) && Complete(t)
  }

  lemma PeersHaveTheSame(s: State, t: State, k: Kind)
    requires Peers(s, t)
    ensures IdOf(s, k).Some? <==> IdOf(t, k).Some?
  {
    PresentExactlyIfWanted(s, k);
    PresentExactlyIfWanted(t, k);
  }

  lemma PeersBaseAlike(s: State, t: State)
    requires Peers(s, t)
    ensures SameLogger(s, t) && SamePProf(s, t)
  {
    PeersHaveTheSame(s, t, LoggerKind);
    PeersHaveTheSame(s, t, PProfKind);
  }

  lemma PeersMetricsAlike(s: State, t: State)
    requires Peers(s, t)
    ensures SameMetrics(s, t)
  {
    PeersHaveTheSame(s, t, MetricsKind);
    PeersHaveTheSame(s, t, ManagerKind);
    PeersHaveTheSame(s, t, RtspKind);
    PeersHaveTheSame(s, t, RtspsKind);
  }

  lemma PeersManagerAlike(s: State, t: State)
    requires Peers(s, t)
    ensures SameManager(s, t)
  {
    PeersHaveTheSame(s, t, MetricsKind);
    PeersHaveTheSame(s, t, ManagerKind);
    PeersHaveTheSame(s, t, HlsKind);
  }

  lemma PeersServersAlike(s: State, t: State)
    requires Peers(s, t)
    ensures SameRtsp(s, s.rtsp, t, t.rtsp) && SameRtsp(s, s.rtsps, t, t.rtsps) && SameRtmp(s, t) && SameHls(s, t)
  {
    PeersHaveTheSame(s, t, MetricsKind);
    PeersHaveTheSame(s, t, RtspKind);
    PeersHaveTheSame(s, t, RtspsKind);
    PeersHaveTheSame(s, t, RtmpKind);
    PeersHaveTheSame(s, t, HlsKind);
  }

  lemma PeersApiAlike(s: State, t: State)
    requires Peers(s, t)
    ensures SameApi(s, t)
  {
    PeersHaveTheSame(s, t, RtspKind);
    PeersHaveTheSame(s, t, RtspsKind);
    PeersHaveTheSame(s, t, RtmpKind);
    PeersHaveTheSame(s, t, ApiKind);
  }

  lemma PeersAlike(s: State, t: State)
    requires Peers(s, t)
    ensures Alike(s, t)
  {
    PeersBaseAlike(s, t);
    PeersMetricsAlike(s, t);
    PeersManagerAlike(s, t);
    PeersServersAlike(s, t);
    PeersApiAlike(s, t);
  }

  lemma CreatedSucceeds(s: State, p: Progress)
    requires p == Created(s, {})
    ensures p.ok
  {
  }

  /** After any sequence of successful reloads the components are, up to the two exceptions, those of a
      fresh start with the last configuration. */
  lemma ReloadsMatchFreshStart(first: CoreConf, fails: set<Kind>, rs: seq<Reload>)
    requires Truthful(first, rs) && Run(first, fails, rs).ok
    ensures Alike(Run(first, fails, rs).state, FreshStart(LastConf(first, rs)))
  {
    RunsFit(first, fails, rs);
    var c := LastConf(first, rs);
    CreatedSucceeds(Empty(c), Fresh(c, {}));
    assert Run(c, {}, []) == Fresh(c, {});
    RunsFit(c, {}, []);
    PeersAlike(Run(first, fails, rs).state, FreshStart(c));
  }

  // ---------------------------------------------------------------- the two exceptions

  /** The metrics refer to an RTMP server though none is configured. */
  predicate Stale(s: State) {
    s.conf.rtmpDisable && s.metrics.Some? && s.metrics.value.rtmp.Some?
  }

  lemma MakeKeepsTraits(s: State, k: Kind)
    requires Needs(s, k)
    ensures Level(Make(s, k)) == Level(s) && (Stale(Make(s, k)) <==> Stale(s))
  {
  }

  predicate SameTraits(s: State, t: State) {
    Level(t) == Level(s) && (Stale(t) <==> Stale(s))
  }

  lemma TryKeepsTraits(p: Progress, k: Kind, fails: set<Kind>, q: Progress)
    requires q == Try(p, k, fails)
    ensures SameTraits(p.state, q.state)
  {
    if Needs(p.state, k) { MakeKeepsTraits(p.state, k); }
  }

  lemma FoundationsKeepTraits(s: State, fails: set<Kind>)
    ensures SameTraits(s, Foundations(s, fails).state)
  {
    var p1 := Try(Progress(s, true), LoggerKind, fails);
    var p2 := Try(p1, MetricsKind, fails);
    var p3 := Try(p2, PProfKind, fails);
    TryKeepsTraits(Progress(s, true), LoggerKind, fails, p1);
    TryKeepsTraits(p1, MetricsKind, fails, p2);
    TryKeepsTraits(p2, PProfKind, fails, p3);
    TryKeepsTraits(p3, ManagerKind, fails, Try(p3, ManagerKind, fails));
  }

  lemma ServersKeepTraits(p4: Progress, fails: set<Kind>)
    ensures SameTraits(p4.state, Servers(p4, fails).state)
  {
    var p5 := Try(p4, RtspKind, fails);
    var p6 := Try(p5, RtspsKind, fails);
    var p7 := Try(p6, RtmpKind, fails);
    var p8 := Try(p7, HlsKind, fails);
    TryKeepsTraits(p4, RtspKind, fails, p5);
    TryKeepsTraits(p5, RtspsKind, fails, p6);
    TryKeepsTraits(p6, RtmpKind, fails, p7);
    TryKeepsTraits(p7, HlsKind, fails, p8);
    TryKeepsTraits(p8, ApiKind, fails, Try(p8, ApiKind, fails));
  }

  lemma CreatedKeepsTraits(s: State, fails: set<Kind>, p: Progress)
    requires p == Created(s, fails)
    ensures SameTraits(s, p.state)
  {
    FoundationsKeepTraits(s, fails);
    ServersKeepTraits(Foundations(s, fails), fails);
  }

  predicate SameLogTarget(a: CoreConf, b: CoreConf) {
    a.logDestinations == b.logDestinations && a.logFile == b.logFile
  }

  predicate SameMetricsTarget(a: CoreConf, b: CoreConf) {
    a.metrics == b.metrics && a.metricsAddress == b.metricsAddress
  }

  lemma ReloadTraits(s: State, n: CoreConf, samePaths: bool, fails: set<Kind>, p: Progress)
    requires Fits(s) && Complete(s) && p == Reloaded(s, n, samePaths, fails)
    ensures Level(p.state) == if SameLogTarget(s.conf, n) then Level(s) else n.logLevel
    ensures Stale(p.state) <==>
            n.rtmpDisable && n.metrics && SameMetricsTarget(s.conf, n) && (!s.conf.rtmpDisable || Stale(s))
  {
    PresentExactlyIfWanted(s, LoggerKind);
    PresentExactlyIfWanted(s, MetricsKind);
    PresentExactlyIfWanted(s, RtmpKind);
    CreatedKeepsTraits(Closed(s, Some(n), samePaths).(conf := n), fails, p);
  }

  /** The configuration that was current when the logger was last made. */
  function LoggerConf(first: CoreConf, rs: seq<Reload>): CoreConf {
    if rs == [] then first
    else
      var before := rs[..|rs| - 1];
      if SameLogTarget(LastConf(first, before), rs[|rs| - 1].conf) then LoggerConf(first, before) else rs[|rs| - 1].conf
  }

  /** RTMP has been switched off, and the metrics were on and untouched ever since. */
  predicate RtmpLeftBehind(first: CoreConf, rs: seq<Reload>) {
    rs != [] &&
    var before := rs[..|rs| - 1];
    var last := rs[|rs| - 1].conf;
    && last.rtmpDisable && last.metrics && SameMetricsTarget(LastConf(first, before), last)
    && (!LastConf(first, before).rtmpDisable || RtmpLeftBehind(first, before))
  }

  lemma {:induction false} RunTraits(first: CoreConf, fails: set<Kind>, rs: seq<Reload>)
    requires Truthful(first, rs) && Run(first, fails, rs).ok
    ensures Level(Run(first, fails, rs).state) == LoggerConf(first, rs).logLevel
    ensures Stale(Run(first, fails, rs).state) <==> RtmpLeftBehind(first, rs)
  {
    if rs == [] {
      CreatedKeepsTraits(Empty(first), fails, Fresh(first, fails));
    } else {
      var before := rs[..|rs| - 1];
      var r := rs[|rs| - 1];
      TruthfulSoFar(first, rs);
      RunsFit(first, fails, before);
      RunTraits(first, fails, before);
      var s := Run(first, fails, before).state;
      ReloadTraits(s, r.conf, r.samePaths, r.fails, Reloaded(s, r.conf, r.samePaths, r.fails));
    }
  }

  lemma StaleIsDangling(s: State)
    requires Fits(s) && Complete(s)
    ensures RtmpLink(s) == Dangling <==> Stale(s)
    ensures !Stale(s) ==> RtmpLink(s) == if s.conf.metrics && !s.conf.rtmpDisable then Live else Nowhere
  {
    PresentExactlyIfWanted(s, MetricsKind);
    PresentExactlyIfWanted(s, RtmpKind);
  }

  /** The log level is the last one exactly if it has not changed since the logger was made, and the
      metrics are linked as after a fresh start exactly if RTMP was not switched off under running
      metrics: then, and only then, they still refer to the closed RTMP server. */
  lemma ReloadsEqualFreshStartExactly(first: CoreConf, fails: set<Kind>, rs: seq<Reload>)
    requires Truthful(first, rs) && Run(first, fails, rs).ok
    ensures var s := Run(first, fails, rs).state;
            var t := FreshStart(LastConf(first, rs));
            && (Level(s) == Level(t) <==> LoggerConf(first, rs).logLevel == LastConf(first, rs).logLevel)
            && (RtmpLink(s) == RtmpLink(t) <==> !RtmpLeftBehind(first, rs))
            && (RtmpLeftBehind(first, rs) ==> RtmpLink(s) == Dangling)
  {
    var c := LastConf(first, rs);
    CreatedSucceeds(Empty(c), Fresh(c, {}));
    assert Run(c, {}, []) == Fresh(c, {});
    RunsFit(first, fails, rs);
    RunsFit(c, {}, []);
    RunTraits(first, fails, rs);
    RunTraits(c, {}, []);
    StaleIsDangling(Run(first, fails, rs).state);
    StaleIsDangling(FreshStart(c));
  }

  lemma OneReload(first: CoreConf, n: CoreConf, rs: seq<Reload>)
    requires rs == [Reload(n, false, {})]
    ensures Truthful(first, rs) && Run(first, {}, rs).ok && LastConf(first, rs) == n
    ensures LoggerConf(first, rs) == if SameLogTarget(first, n) then first else n
    ensures RtmpLeftBehind(first, rs) <==>
            n.rtmpDisable && n.metrics && SameMetricsTarget(first, n) && !first.rtmpDisable
  {
    assert rs[..0] == [];
    var p := Run(first, {}, []);
    assert p == Fresh(first, {});
    CreatedSucceeds(Empty(first), p);
    CreatedSucceeds(Closed(p.state, Some(n), false).(conf := n), Run(first, {}, rs));
  }

  /** Such a run: RTMP is switched off, with metrics on, and nothing else changes. */
  lemma SwitchingRtmpOffLeavesALink(first: CoreConf, rs: seq<Reload>)
    requires first.metrics && !first.rtmpDisable && rs == [Reload(first.(rtmpDisable := true), false, {})]
    ensures Truthful(first, rs) && Run(first, {}, rs).ok && RtmpLink(Run(first, {}, rs).state) == Dangling
  {
    OneReload(first, first.(rtmpDisable := true), rs);
    ReloadsEqualFreshStartExactly(first, {}, rs);
  }

  /** Such a run: only the log level changes. */
  lemma ChangingTheLevelLeavesTheOld(first: CoreConf, level: Value, rs: seq<Reload>)
    requires rs == [Reload(first.(logLevel := level), false, {})]
    ensures Truthful(first, rs) && Run(first, {}, rs).ok && Level(Run(first, {}, rs).state) == first.logLevel
  {
    OneReload(first, first.(logLevel := level), rs);
    RunTraits(first, {}, rs);
  }
}
