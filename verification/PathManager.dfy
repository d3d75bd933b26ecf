/** The table of paths and their configurations (internal/core/path_manager.go). */
module PathManagers {

  // ---------------------------------------------------------------- configurations and paths

  /** A path configuration object. Two objects are the same exactly if their identities are; `fields`
      is what is compared when configurations are (internal/conf/path.go:325-329), and a pattern is
      present for names that stand for a regular expression. */
  datatype Conf = Conf(id: nat, fields: string, pattern: Pattern)

  datatype Pattern = Plain | Regexp(source: string)

  predicate Equal(a: Conf, b: Conf) {
    a.fields == b.fields
  }

  type ConfTable = map<string, Conf>

  /** A path object, identified by its name and by the message that made it, since one message makes
      at most one path for a name. */
  datatype PathObject = PathObject(name: string, born: nat, confName: string, conf: Conf)

  datatype State = State(confs: ConfTable, paths: map<string, PathObject>, open: set<PathObject>, epoch: nat)

  // ---------------------------------------------------------------- messages

  /** What became of a request: refused with an error, or handed to a path. */
  datatype Answer = Refused | HandedTo(path: PathObject)

  datatype Event =
    | Reload(confs: ConfTable)
    | PathClose(path: PathObject)
    | Request(name: string, found: Found, authorized: bool)

  /** The result of looking up the configuration for a path name. */
  datatype Found = InvalidName | NoConf | FoundConf(confName: string)

  /** The configuration table after a reload: unchanged entries keep their object. */
  function Merged(old_: ConfTable, new_: ConfTable): (t: ConfTable)
    ensures t.Keys == new_.Keys
  {
    map n | n in new_ :: if n in old_ && Equal(old_[n], new_[n]) then old_[n] else new_[n]
  }

  /** A path survives if its configuration still is the object it was made with. */
  predicate Survives(confs: ConfTable, pa: PathObject) {
    pa.confName in confs && confs[pa.confName] == pa.conf
  }

  function Kept(confs: ConfTable, paths: map<string, PathObject>): (m: map<string, PathObject>) {
    map n | n in paths && Survives(confs, paths[n]) :: paths[n]
  }

  function Missing(confs: ConfTable, paths: map<string, PathObject>, epoch: nat): (m: map<string, PathObject>) {
    map n | n in confs && n !in paths && confs[n].pattern.Plain? :: PathObject(n, epoch, n, confs[n])
  }

  function Objects(paths: map<string, PathObject>): set<PathObject> {
    set n | n in paths :: paths[n]
  }

  function Stale(confs: ConfTable, paths: map<string, PathObject>): set<PathObject> {
    set n | n in paths && !Survives(confs, paths[n]) :: paths[n]
  }

  /** A reload: merge the configurations, close the paths left without theirs, and make a path for
      every plain name that has none. */
  function Reloaded(s: State, confs: ConfTable): State {
    var merged := Merged(s.confs, confs);
    var kept := Kept(merged, s.paths);
    var made := Missing(merged, kept, s.epoch);
    State(merged, kept + made, s.open - Stale(merged, s.paths) + Objects(made), s.epoch + 1)
  }

  function Closed(s: State, pa: PathObject): State {
    if pa.name in s.paths && s.paths[pa.name] == pa
    then s.(paths := s.paths - {pa.name}, open := s.open - {pa}, epoch := s.epoch + 1)
    else s.(epoch := s.epoch + 1)
  }

  function Requested(s: State, name: string, found: Found, authorized: bool): State {
    if !found.FoundConf? || found.confName !in s.confs || !authorized || name in s.paths then s.(epoch := s.epoch + 1)
    else
      var pa := PathObject(name, s.epoch, found.confName, s.confs[found.confName]);
      s.(paths := s.paths[name := pa], open := s.open + {pa}, epoch := s.epoch + 1)
  }

  function Start(confs: ConfTable): State {
    var made := Missing(confs, map[], 0);
    State(confs, made, Objects(made), 1)
  }

  /** Lookups may choose any pattern that matches; the plain name has precedence. */
  ghost predicate Finds(confs: ConfTable, name: string, valid: bool, matches: (string, string) -> bool, found: Found) {
    if !valid then found == InvalidName
    else if name in confs then found == FoundConf(name)
    else if exists n :: n in confs && Fits(confs[n], name, matches) then
      found.FoundConf? && found.confName in confs && Fits(confs[found.confName], name, matches)
    else found == NoConf
  }

  predicate Fits(conf: Conf, name: string, matches: (string, string) -> bool) {
    conf.pattern.Regexp? && matches(conf.pattern.source, name)
  }

  lemma OneMoreObject(m: map<string, PathObject>, n: string, pa: PathObject)
    requires n !in m
    ensures Objects(m[n := pa]) == Objects(m) + {pa}
  {
    assert forall k :: k in m ==> m[n := pa][k] == m[k];
    assert m[n := pa][n] == pa;
  }

  /** Every path is stored under its own name. */
  predicate Keyed(paths: map<string, PathObject>) {
    forall n :: n in paths ==> paths[n].name == n
  }

  class PathManager {
    const nameIsValid: string -> bool
    const matches: (string, string) -> bool
    var pathConfs: ConfTable
    var paths: map<string, PathObject>
    var open: set<PathObject>  // the path objects created and not closed
    var epoch: nat

    ghost function View(): State
      reads this
    {
      State(pathConfs, paths, open, epoch)
    }

    constructor (confs: ConfTable, nameIsValid: string -> bool, matches: (string, string) -> bool)
      ensures this.nameIsValid == nameIsValid && this.matches == matches
      ensures View() == Start(confs)
    {
      this.nameIsValid := nameIsValid;
      this.matches := matches;
      pathConfs := confs;
      paths := map[];
      open := {};
      epoch := 0;
      new;
      AddNewPaths();
      epoch := 1;
    }

    method CreatePath(confName: string, conf: Conf, name: string)
      modifies this`paths, this`open
      ensures paths == old(paths)[name := PathObject(name, epoch, confName, conf)]
      ensures open == old(open) + {PathObject(name, epoch, confName, conf)}
    {
      var pa := PathObject(name, epoch, confName, conf);
      paths := paths[name := pa];
      open := open + {pa};
    }

    method ConfReload(confs: ConfTable)
      requires Keyed(paths)
      modifies this
      ensures View() == Reloaded(old(View()), confs)
    {
      MergeConfs(confs);
      RemoveStalePaths();
      AddNewPaths();
      epoch := epoch + 1;
    }

    /** The first three loops: remove, update and add configurations. */
    method MergeConfs(confs: ConfTable)
      modifies this`pathConfs
      ensures pathConfs == Merged(old(pathConfs), confs)
    {
      RemoveConfs(confs);
      UpdateConfs(confs);
      AddConfs(confs);
    }

    method RemoveConfs(confs: ConfTable)
      modifies this`pathConfs
      ensures pathConfs == map n | n in old(pathConfs) && n in confs :: old(pathConfs)[n]
    {
      var todo := pathConfs.Keys;
      while todo != {}
        invariant todo <= old(pathConfs).Keys
        invariant pathConfs == map n | n in old(pathConfs) && (n in todo || n in confs) :: old(pathConfs)[n]
        decreases todo
      {
        var n :| n in todo;
        if n !in confs {
          pathConfs := pathConfs - {n};
        }
        todo := todo - {n};
      }
    }

    method UpdateConfs(confs: ConfTable)
      requires pathConfs.Keys <= confs.Keys
      modifies this`pathConfs
      ensures pathConfs == map n | n in old(pathConfs) ::
                if Equal(old(pathConfs)[n], confs[n]) then old(pathConfs)[n] else confs[n]
    {
      var todo := pathConfs.Keys;
      while todo != {}
        invariant todo <= pathConfs.Keys
        invariant pathConfs == map n | n in old(pathConfs) ::
                    if n in todo || Equal(old(pathConfs)[n], confs[n]) then old(pathConfs)[n] else confs[n]
        decreases todo
      {
        var n :| n in todo;
        if !Equal(pathConfs[n], confs[n]) {
          pathConfs := pathConfs[n := confs[n]];
        }
        todo := todo - {n};
      }
    }

    method AddConfs(confs: ConfTable)
      requires pathConfs.Keys <= confs.Keys
      modifies this`pathConfs
      ensures pathConfs == map n | n in confs :: if n in old(pathConfs) then old(pathConfs)[n] else confs[n]
    {
      var todo := confs.Keys;
      while todo != {}
        invariant todo <= confs.Keys
        invariant pathConfs == map n | n in confs && (n in old(pathConfs) || n !in todo) ::
                    if n in old(pathConfs) then old(pathConfs)[n] else confs[n]
        decreases todo
      {
        var n :| n in todo;
        if n !in pathConfs {
          pathConfs := pathConfs[n := confs[n]];
        }
        todo := todo - {n};
      }
    }

    /** Paths whose configuration is gone or has been replaced are dropped and closed. */
    method RemoveStalePaths()
      requires Keyed(paths)
      modifies this`paths, this`open
      ensures paths == Kept(pathConfs, old(paths))
      ensures open == old(open) - Stale(pathConfs, old(paths))
    {
      ghost var before := paths;
      var todo := paths.Keys;
      while todo != {}
        invariant todo <= before.Keys
        invariant paths == map n | n in before && (n in todo || Survives(pathConfs, before[n])) :: before[n]
        invariant open ==
                  old(open) - (set n | n in before && n !in todo && !Survives(pathConfs, before[n]) :: before[n])
        decreases todo
      {
        var n :| n in todo;
        var pa := paths[n];
        assert pa == before[n] && pa.name == n;
        ghost var gone := set m | m in before && m !in todo && !Survives(pathConfs, before[m]) :: before[m];
        if !(pa.confName in pathConfs && pathConfs[pa.confName] == pa.conf) {
          paths := paths - {pa.name};
          open := open - {pa};
          assert gone + {pa} ==
                 set m | m in before && m !in todo - {n} && !Survives(pathConfs, before[m]) :: before[m];
        } else {
          assert (set m | m in before && m !in todo - {n} && !Survives(pathConfs, before[m]) :: before[m]) == gone;
        }
        todo := todo - {n};
      }
    }

    method AddNewPaths()
      modifies this`paths, this`open
      ensures var made := Missing(pathConfs, old(paths), epoch);
              paths == old(paths) + made && open == old(open) + Objects(made)
    {
      ghost var before := paths;
      ghost var made: map<string, PathObject> := map[];
      var todo := pathConfs.Keys;
      while todo != {}
        invariant todo <= pathConfs.Keys
        invariant made == map n | n in pathConfs && n !in todo && n !in before && pathConfs[n].pattern.Plain? ::
                    PathObject(n, epoch, n, pathConfs[n])
        invariant paths == before + made && open == old(open) + Objects(made)
        decreases todo
      {
        var n :| n in todo;
        if n !in paths && pathConfs[n].pattern.Plain? {
          ghost var pa := PathObject(n, epoch, n, pathConfs[n]);
          OneMoreObject(made, n, pa);
          CreatePath(n, pathConfs[n], n);
          made := made[n := pa];
        }
        todo := todo - {n};
      }
      assert made == Missing(pathConfs, before, epoch);
    }

    method HandlePathClose(pa: PathObject)
      modifies this
      ensures View() == Closed(old(View()), pa)
    {
      if pa.name in paths && paths[pa.name] == pa {
        paths := paths - {pa.name};
        open := open - {pa};
      }
      epoch := epoch + 1;
    }

    /** A describe, setup or announce request: find the configuration, authenticate, and find or
        create the path. */
    method HandleRequest(name: string, authorized: bool) returns (found: Found, a: Answer)
      modifies this
      ensures Finds(old(pathConfs), name, nameIsValid(name), matches, found)
      ensures found.FoundConf? ==> found.confName in old(pathConfs)
      ensures View() == Requested(old(View()), name, found, authorized)
      ensures if found.FoundConf? && authorized then name in paths && a == HandedTo(paths[name])
              else a == Refused && pathConfs == old(pathConfs) && paths == old(paths) && open == old(open)
      ensures old(paths).Keys <= paths.Keys && forall n :: n in old(paths) ==> paths[n] == old(paths)[n]
    {
      found := FindPathConf(name);
      if found.FoundConf? && authorized {
        if name !in paths {
          CreatePath(found.confName, pathConfs[found.confName], name);
        }
        a := HandedTo(paths[name]);
      } else {
        a := Refused;
      }
      epoch := epoch + 1;
    }

    method FindPathConf(name: string) returns (found: Found)
      ensures Finds(pathConfs, name, nameIsValid(name), matches, found)
      ensures found.FoundConf? ==> found.confName in pathConfs
      ensures found.FoundConf? && found.confName != name ==>
                name !in pathConfs && pathConfs[found.confName].pattern.Regexp? &&
                matches(pathConfs[found.confName].pattern.source, name)
    {
      if !nameIsValid(name) {
        return InvalidName;
      }
      if name in pathConfs {
        return FoundConf(name);
      }
      var todo := pathConfs.Keys;
      while todo != {}
        invariant todo <= pathConfs.Keys
        invariant forall n :: n in pathConfs && n !in todo ==> !Fits(pathConfs[n], name, matches)
        decreases todo
      {
        var n :| n in todo;
        if pathConfs[n].pattern.Regexp? && matches(pathConfs[n].pattern.source, name) {
          assert Fits(pathConfs[n], name, matches);
          return FoundConf(n);
        }
        todo := todo - {n};
      }
      return NoConf;
    }
  }
}
