/** What holds over whole runs of the path manager. */
module PathManagerRuns {
  import opened PathManagers

  // ---------------------------------------------------------------- invariant

  /** Every path is stored under its own name, is bound to the configuration object that its name of
      configuration has now, and is older than the next message; and the open path objects are exactly
      those in the table, so there is at most one for a name. */
  ghost predicate Inv(s: State) {
    && Keyed(s.paths)
    && (forall n :: n in s.paths ==> Survives(s.confs, s.paths[n]) && s.paths[n].born < s.epoch)
    && (forall pa :: pa in s.open <==> pa.name in s.paths && s.paths[pa.name] == pa)
  }

  predicate IsPlain(s: State, n: string) {
    n in s.confs && s.confs[n].pattern.Plain?
  }

  /** What paths and lookups guarantee: a path ends on its own only if it was made for a regular
      expression, and a configuration that was found is in the table. */
  predicate Allowed(s: State, ev: Event) {
    match ev
    case Reload(_) => true
    case PathClose(pa) => pa in s.open ==> pa.conf.pattern.Regexp?
    case Request(_, found, _) => found.FoundConf? ==> found.confName in s.confs
  }

  function Next(s: State, ev: Event): State {
    match ev
    case Reload(confs) => Reloaded(s, confs)
    case PathClose(pa) => Closed(s, pa)
    case Request(name, found, authorized) => Requested(s, name, found, authorized)
  }

  function Run(confs: ConfTable, evs: seq<Event>): State {
    if evs == [] then Start(confs) else Next(Run(confs, evs[..|evs| - 1]), evs[|evs| - 1])
  }

  ghost predicate Possible(confs: ConfTable, evs: seq<Event>) {
    forall i :: 0 <= i < |evs| ==> Allowed(Run(confs, evs[..i]), evs[i])
  }

  lemma ReloadKeepsOpen(s: State, confs: ConfTable, pa: PathObject)
    requires Inv(s)
    ensures var t := Reloaded(s, confs); pa in t.open <==> pa.name in t.paths && t.paths[pa.name] == pa
  {
    var merged := Merged(s.confs, confs);
    var kept := Kept(merged, s.paths);
    var made := Missing(merged, kept, s.epoch);
    assert pa in Objects(made) <==> pa.name in made && made[pa.name] == pa;
    assert pa in s.open ==> (pa in Stale(merged, s.paths) <==> !Survives(merged, pa));
    assert pa.name in kept ==> pa.name !in made;
  }

  lemma ReloadKeepsInv(s: State, confs: ConfTable)
    requires Inv(s)
    ensures Inv(Reloaded(s, confs))
  {
    var t := Reloaded(s, confs);
    forall pa: PathObject ensures pa in t.open <==> pa.name in t.paths && t.paths[pa.name] == pa {
      ReloadKeepsOpen(s, confs, pa);
    }
  }

  lemma CloseKeepsInv(s: State, pa: PathObject)
    requires Inv(s) && Allowed(s, PathClose(pa))
    ensures Inv(Closed(s, pa))
  {
  }

  lemma RequestKeepsInv(s: State, name: string, found: Found, authorized: bool)
    requires Inv(s)
    ensures Inv(Requested(s, name, found, authorized))
  {
  }

  /** Across any interleaving of reloads, requests and closings, late ones included. */
  lemma {:induction false} RunsKeepInv(confs: ConfTable, evs: seq<Event>)
    requires Possible(confs, evs)
    ensures Inv(Run(confs, evs))
  {
    if evs != [] {
      var n := |evs| - 1;
      assert forall i :: 0 <= i < n ==> evs[..n][..i] == evs[..i];
      RunsKeepInv(confs, evs[..n]);
      match evs[n]
      case Reload(cs) => ReloadKeepsInv(Run(confs, evs[..n]), cs);
      case PathClose(pa) => CloseKeepsInv(Run(confs, evs[..n]), pa);
      case Request(name, found, authorized) => RequestKeepsInv(Run(confs, evs[..n]), name, found, authorized);
    }
  }

  // ---------------------------------------------------------------- what one reload does

  /** A reload makes the table equal to the new one, entry by entry, and keeps the object of every
      unchanged entry. */
  lemma ReloadAdoptsTable(s: State, confs: ConfTable, n: string)
    ensures n in Reloaded(s, confs).confs <==> n in confs
    ensures n in confs ==> Equal(Reloaded(s, confs).confs[n], confs[n])
    ensures n in confs && n in s.confs && Equal(s.confs[n], confs[n]) ==> Reloaded(s, confs).confs[n] == s.confs[n]
  {
  }

  /** A reload keeps a path, the same object, exactly if its configuration is still there unchanged;
      every other path is closed. */
  lemma ReloadKeepsExactlyUnchanged(s: State, confs: ConfTable, n: string)
    requires Inv(s) && n in s.paths
    ensures var pa := s.paths[n]; var t := Reloaded(s, confs);
            && ((n in t.paths && t.paths[n] == pa) <==> pa.confName in confs && Equal(pa.conf, confs[pa.confName]))
            && (pa in t.open <==> pa.confName in confs && Equal(pa.conf, confs[pa.confName]))
  {
    ReloadKeepsOpen(s, confs, s.paths[n]);
  }

  /** After a start or a reload every plain name has an open path. */
  lemma ReloadServesPlainNames(s: State, confs: ConfTable, n: string)
    requires Inv(s) && IsPlain(Reloaded(s, confs), n)
    ensures n in Reloaded(s, confs).paths && Reloaded(s, confs).paths[n] in Reloaded(s, confs).open
  {
    ReloadKeepsInv(s, confs);
    var t := Reloaded(s, confs);
    if n !in Kept(t.confs, s.paths) { assert n in Missing(t.confs, Kept(t.confs, s.paths), s.epoch); }
  }

  lemma StartServesPlainNames(confs: ConfTable, n: string)
    requires IsPlain(Start(confs), n)
    ensures Inv(Start(confs)) && n in Start(confs).paths && Start(confs).paths[n].confName == n
  {
    assert n in Missing(confs, map[], 0);
  }

  /** Between reloads a plain name loses its path exactly if that path was made for a pattern, before
      the name was configured, and now ends on its own. */
  lemma PlainNameLosesPathExactly(s: State, ev: Event, n: string)
    requires Inv(s) && Allowed(s, ev) && IsPlain(s, n) && n in s.paths && !ev.Reload?
    ensures n !in Next(s, ev).paths <==>
            s.paths[n].conf.pattern.Regexp? && ev == PathClose(s.paths[n])
  {
  }

  /** A closing message of a path that is not open any more, because it was replaced, changes nothing. */
  lemma LateCloseChangesNothing(s: State, pa: PathObject)
    requires Inv(s) && pa !in s.open
    ensures Closed(s, pa) == s.(epoch := s.epoch + 1)
  {
  }

  /** A request that is let through is handed to an open path of that name, bound to a configuration
      of the table; an existing path is reused. */
  lemma RequestsMeetOpenPaths(s: State, name: string, confName: string)
    requires Inv(s) && confName in s.confs
    ensures var t := Requested(s, name, FoundConf(confName), true);
            && name in t.paths && t.paths[name] in t.open && Survives(t.confs, t.paths[name])
            && (name in s.paths ==> t.paths == s.paths && t.open == s.open)
            && (name !in s.paths ==> t.paths[name].confName == confName && t.paths[name] !in s.open)
  {
  }

  /** A request for which nothing is found, or which is not authorized, changes nothing; neither does one for a
      path that is there. */
  lemma RefusedRequestsChangeNothing(s: State, name: string, found: Found, authorized: bool)
    requires !authorized || !found.FoundConf? || name in s.paths
    ensures var t := Next(s, Request(name, found, authorized));
            t.confs == s.confs && t.paths == s.paths && t.open == s.open
  {
  }

  /** A request that is let through for a name without a path adds this one path, and nothing else. */
  lemma RequestsAddOnePath(s: State, name: string, confName: string)
    requires confName in s.confs && name !in s.paths
    ensures var t := Next(s, Request(name, FoundConf(confName), true));
            && t.confs == s.confs && t.paths.Keys == s.paths.Keys + {name}
            && (forall n :: n in s.paths ==> t.paths[n] == s.paths[n])
            && t.paths[name].name == name && t.paths[name].confName == confName
            && t.paths[name].conf == s.confs[confName]
            && t.open == s.open + {t.paths[name]}
  {
  }

  /** A path of the table that ends is taken out of it and closed, and nothing else changes. */
  lemma ClosingRemovesOnePath(s: State, pa: PathObject)
    requires Inv(s) && pa in s.open
    ensures var t := Next(s, PathClose(pa));
            && t.confs == s.confs && t.paths.Keys == s.paths.Keys - {pa.name} && t.open == s.open - {pa}
            && (forall n :: n in t.paths ==> t.paths[n] == s.paths[n])
  {
  }

  /** After a reload there is a path for a name exactly if it kept its path or is a plain name; a path that is
      new has the name's own configuration. Configurations are compared by their fields. */
  lemma ReloadHasPathsExactly(s: State, confs: ConfTable, n: string)
    requires Inv(s)
    ensures var t := Next(s, Reload(confs));
            var kept := n in s.paths && s.paths[n].confName in confs &&
                        s.paths[n].conf.fields == confs[s.paths[n].confName].fields;
            && (n in t.paths <==> kept || (n in confs && t.confs[n].pattern.Plain?))
            && (kept ==> t.paths[n] == s.paths[n])
            && (n in t.paths && !kept ==> t.paths[n] == PathObject(n, s.epoch, n, t.confs[n]))
            && (n in confs ==>
                  t.confs[n] == if n in s.confs && s.confs[n].fields == confs[n].fields then s.confs[n] else confs[n])
  {
    if n in s.paths { ReloadKeepsExactlyUnchanged(s, confs, n); }
  }

  lemma StartHasPathsExactly(confs: ConfTable, n: string)
    ensures var s := Run(confs, []);
            && s.confs == confs && (n in s.paths <==> n in confs && confs[n].pattern.Plain?)
            && (n in s.paths ==> s.paths[n].name == s.paths[n].confName == n && s.paths[n].conf == confs[n])
  {
  }

  // ---------------------------------------------------------------- which configuration a path has

  /** After a reload the path of a plain name has the configuration of that name exactly if no path
      that was made earlier for another configuration survives under the same name. */
  lemma PlainPathHasItsConfExactly(s: State, confs: ConfTable, n: string)
    requires Inv(s) && IsPlain(Reloaded(s, confs), n)
    ensures n in Reloaded(s, confs).paths
    ensures Reloaded(s, confs).paths[n].confName == n <==>
            !(n in s.paths && s.paths[n].confName != n &&
              s.paths[n].confName in confs && Equal(s.paths[n].conf, confs[s.paths[n].confName]))
  {
    ReloadServesPlainNames(s, confs, n);
    if n in s.paths { ReloadKeepsExactlyUnchanged(s, confs, n); }
  }

  /** Such a run: a path is made for a pattern, then its own name is configured, and the path stays
      with the pattern. */
  lemma PatternPathOutlivesItsName(table: ConfTable, pattern: string, name: string, own: Conf, evs: seq<Event>)
    requires pattern in table && table[pattern].pattern.Regexp? && own.pattern.Plain? && name !in table
    requires evs == [Request(name, FoundConf(pattern), true), Reload(table[name := own])]
    ensures Possible(table, evs)
    ensures var t := Run(table, evs);
            name in t.confs && t.confs[name] == own && name in t.paths && t.paths[name].confName == pattern
  {
    assert evs[..2] == evs && evs[..1] == [evs[0]] && [evs[0]][..0] == [] && evs[..0] == [];
    var s := Next(Start(table), evs[0]);
    assert Run(table, []) == Start(table);
    assert Run(table, [evs[0]]) == s;
    assert name in s.paths && s.paths[name].confName == pattern;
    assert Run(table, evs) == Next(s, evs[1]);
  }

  /** The same run goes on: when that path ends by itself, its name is configured and has no path. */
  lemma PlainNameIsLeftWithoutPath(
    table: ConfTable, pattern: string, name: string, own: Conf, evs: seq<Event>, pa: PathObject)
    requires pattern in table && table[pattern].pattern.Regexp? && own.pattern.Plain? && name !in table
    requires evs == [Request(name, FoundConf(pattern), true), Reload(table[name := own])]
    requires pa == PathObject(name, 1, pattern, table[pattern])
    ensures Possible(table, evs + [PathClose(pa)])
    ensures IsPlain(Run(table, evs + [PathClose(pa)]), name) && name !in Run(table, evs + [PathClose(pa)]).paths
  {
    PatternPathOutlivesItsName(table, pattern, name, own, evs);
    RunsKeepInv(table, evs);
    assert (evs + [PathClose(pa)])[..2] == evs && evs[..1] == [evs[0]] && [evs[0]][..0] == [];
    assert Run(table, [evs[0]]) == Next(Start(table), evs[0]) && Run(table, evs) == Next(Run(table, [evs[0]]), evs[1]);
    assert Run(table, evs).paths[name] == pa;
    forall i | 0 <= i < 3 ensures Allowed(Run(table, (evs + [PathClose(pa)])[..i]), (evs + [PathClose(pa)])[i]) {
      if i < 2 { assert (evs + [PathClose(pa)])[..i] == evs[..i]; }
    }
  }
}
