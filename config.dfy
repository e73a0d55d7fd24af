/** The layered configuration resolver of config/config.go.

    A `Config` owns a value cache keyed by lower-cased name, the table of values read from
    the configuration file, and a one-shot "file loaded" flag. A lookup tries the cache,
    then the process environment (unless the object was built to use the file only), then
    the file, which is read and parsed on first need. Every hit is written into the cache.

    The outside world is an explicit `Host`: the environment, the files by path, and the
    user's home directory. A Go `panic` (a stat error, a refused permission, a load error)
    becomes a `Failure` result.

    As in the source, the existence and permission check looks at the object's
    `configFileName`, but the file that is opened and parsed is always the default path
    under the home directory (config.go:106); `ReadPathIsDefaultPath` shows the effect. */
module Config {
  import opened Wrappers
  import opened Text
  import opened FileModes
  import opened ConfigParser

  /** What a path holds: one the process cannot stat (any stat error other than "does not
      exist"), or a file with its mode, whether this process can open it for reading, and its
      lines. A path missing from `Host.files` does not exist. */
  datatype PathState = Inaccessible | Present(mode: FileMode, openable: bool, lines: seq<string>)

  datatype Host = Host(env: map<string, string>, files: map<string, PathState>, homeDir: string)

  /** `defaultConfigFileName`, built from the current user's home directory. */
  function DefaultConfigFileName(homeDir: string): (path: string)
    ensures homeDir < path
  {
    homeDir + "/.radstack/config"
  }

  datatype ConfigError =
    | StatFailed                    // os.Stat failed other than with "does not exist"
    | BadPermissions                // the mode string is neither -rw------- nor -r--------
    | OpenFailed                    // os.Open of the default path failed
    | AlreadyLoaded                 // the loader ran a second time
    | LoadFailed(cause: ParseError) // the file was malformed, or a slice panicked

  /** The three pieces of state a `Config` changes. */
  datatype ConfigState = ConfigState(valCache: map<string, string>, configFileVals: map<string, string>, configFileIsLoaded: bool)

  function Initial(): ConfigState {
    ConfigState(map[], map[], false)
  }

  function Lookup(m: map<string, string>, k: string): (r: Option<string>)
    ensures r.Some? <==> k in m
    ensures r.Some? ==> r.value == m[k]
  {
    if k in m then Some(m[k]) else None
  }

  /** `configFileExists`: whether the file at `path` exists, or the panic it raises. */
  function ConfigFileExists(host: Host, path: string): (r: Result<bool, ConfigError>)
    ensures r == Success(false) <==> path !in host.files
    ensures r == Failure(StatFailed) <==> path in host.files && host.files[path].Inaccessible?
    ensures r == Success(true) <==>
      path in host.files && host.files[path].Present? &&
      host.files[path].mode.kind == [] && (host.files[path].mode.perm == 0x180 || host.files[path].mode.perm == 0x100)
    ensures r == Failure(BadPermissions) <==>
      path in host.files && host.files[path].Present? &&
      !(host.files[path].mode.kind == [] && (host.files[path].mode.perm == 0x180 || host.files[path].mode.perm == 0x100))
  {
    if path !in host.files then Success(false)
    else match host.files[path]
      case Inaccessible => Failure(StatFailed)
      case Present(mode, _, _) =>
        AdmittedModes(mode);
        if Admitted(ModeString(mode)) then Success(true) else Failure(BadPermissions)
  }

  /** `loadConfigFileVals`: refuse a second load, open the default path, then parse every
      line into the table. The flag is set only when the whole file was consumed; a load
      that stops early keeps whatever entries it wrote. */
  function Load(st: ConfigState, host: Host): (r: (ConfigState, Outcome<ConfigError>))
    ensures r.0.valCache == st.valCache
    ensures st.configFileIsLoaded ==> r == (st, Fail(AlreadyLoaded))
    ensures r.0.configFileIsLoaded <==> st.configFileIsLoaded || r.1.Pass?
  {
    if st.configFileIsLoaded then (st, Fail(AlreadyLoaded))
    else
      var path := DefaultConfigFileName(host.homeDir);
      if path !in host.files || host.files[path].Inaccessible? || !host.files[path].openable then (st, Fail(OpenFailed))
      else
        var s := Parse(st.configFileVals, host.files[path].lines);
        (st.(configFileVals := s.vals, configFileIsLoaded := s.failure.None?),
         if s.failure.None? then Pass else Fail(LoadFailed(s.failure.value)))
  }

  /** `valFromConfigFile`: load the file if it is not loaded yet and exists, then look the
      name up, in its original case, in the file table. */
  function FromFile(st: ConfigState, configFileName: string, host: Host, name: string): (r: (ConfigState, Result<Option<string>, ConfigError>))
    ensures r.0.valCache == st.valCache
    ensures st.configFileIsLoaded ==> r.0 == st
    ensures r.1.Success? ==> r.1.value == Lookup(r.0.configFileVals, name)
  {
    if !st.configFileIsLoaded then
      match ConfigFileExists(host, configFileName)
      case Failure(e) => (st, Failure(e))
      case Success(present) =>
        if !present then (st, Success(Lookup(st.configFileVals, name)))
        else
          var (st', outcome) := Load(st, host);
          if outcome.Fail? then (st', Failure(outcome.error))
          else (st', Success(Lookup(st'.configFileVals, name)))
    else (st, Success(Lookup(st.configFileVals, name)))
  }

  /** `GetValue`: cache under the lower-cased name, then the environment under the name as
      given (skipped when only the file is used), then the file. */
  function Resolve(st: ConfigState, configFileName: string, onlyUseConfigFile: bool, host: Host, name: string): (r: (ConfigState, Result<Option<string>, ConfigError>))
    // existing cache entries are never overwritten or removed
    ensures forall k :: k in st.valCache ==> k in r.0.valCache && r.0.valCache[k] == st.valCache[k]
    // at most the lower-cased name is added
    ensures r.0.valCache.Keys <= st.valCache.Keys + {ToLower(name)}
    // a value found is cached under the lower-cased name
    ensures r.1.Success? && r.1.value.Some? ==>
      ToLower(name) in r.0.valCache && r.0.valCache[ToLower(name)] == r.1.value.value
    // absence and panics are never cached
    ensures !(r.1.Success? && r.1.value.Some?) ==> r.0.valCache == st.valCache
  {
    var nameLower := ToLower(name);
    if nameLower in st.valCache then (st, Success(Some(st.valCache[nameLower])))
    else if name in host.env && !onlyUseConfigFile then
      (st.(valCache := st.valCache[nameLower := host.env[name]]), Success(Some(host.env[name])))
    else
      var (st', v) := FromFile(st, configFileName, host, name);
      if v.Success? && v.value.Some? then (st'.(valCache := st'.valCache[nameLower := v.value.value]), v)
      else (st', v)
  }

  /** `GetValueOrDefault`: the resolved value, or the default when there is none. */
  function ResolveOrDefault(st: ConfigState, configFileName: string, onlyUseConfigFile: bool, host: Host, name: string, defaultValue: string): (r: (ConfigState, Result<string, ConfigError>))
    ensures r.1.Failure? <==> Resolve(st, configFileName, onlyUseConfigFile, host, name).1.Failure?
    ensures r.0 == Resolve(st, configFileName, onlyUseConfigFile, host, name).0
  {
    var (st', v) := Resolve(st, configFileName, onlyUseConfigFile, host, name);
    match v
    case Failure(e) => (st', Failure(e))
    case Success(found) => (st', Success(if found.Some? then found.value else defaultValue))
  }

  /** A process that looks up several names in turn (a panic ends it). */
  function ResolveAll(st: ConfigState, configFileName: string, onlyUseConfigFile: bool, host: Host, names: seq<string>): ConfigState
    decreases |names|
  {
    if names == [] then st
    else
      var (st', v) := Resolve(st, configFileName, onlyUseConfigFile, host, names[0]);
      if v.Failure? then st' else ResolveAll(st', configFileName, onlyUseConfigFile, host, names[1..])
  }

  // ----- Lookup order -----

  /** The first present value of the three sources, in precedence order. */
  function FirstPresent(cached: Option<string>, fromEnv: Option<string>, fromFile: Option<string>): Option<string> {
    if cached.Some? then cached else if fromEnv.Some? then fromEnv else fromFile
  }

  /** Lookup order is strict: cache under the lower-cased name, then the environment under
      the name as given (never when only the file is used), then the file table under the
      name as given, otherwise nothing. */
  lemma LookupOrder(st: ConfigState, configFileName: string, onlyUseConfigFile: bool, host: Host, name: string)
    requires Resolve(st, configFileName, onlyUseConfigFile, host, name).1.Success?
    ensures Resolve(st, configFileName, onlyUseConfigFile, host, name).1.value ==
      FirstPresent(Lookup(st.valCache, ToLower(name)),
                   if onlyUseConfigFile then None else Lookup(host.env, name),
                   Lookup(FromFile(st, configFileName, host, name).0.configFileVals, name))
  {
  }

  /** A cache hit is answered without consulting the environment or the file: the answer
      and the state are the same whatever the host. */
  lemma CacheHitIgnoresHost(st: ConfigState, configFileName: string, onlyUseConfigFile: bool, host: Host, other: Host, name: string)
    requires ToLower(name) in st.valCache
    ensures Resolve(st, configFileName, onlyUseConfigFile, host, name) == (st, Success(Some(st.valCache[ToLower(name)])))
    ensures Resolve(st, configFileName, onlyUseConfigFile, host, name) == Resolve(st, configFileName, onlyUseConfigFile, other, name)
  {
  }

  /** An environment value wins over the file: the file is neither checked nor loaded, so
      the outcome does not depend on the files at all. */
  lemma EnvironmentBeforeFile(st: ConfigState, configFileName: string, host: Host, files: map<string, PathState>, name: string)
    requires ToLower(name) !in st.valCache && name in host.env
    ensures Resolve(st, configFileName, false, host, name).1 == Success(Some(host.env[name]))
    ensures Resolve(st, configFileName, false, host, name).0.configFileVals == st.configFileVals
    ensures Resolve(st, configFileName, false, host, name).0.configFileIsLoaded == st.configFileIsLoaded
    ensures Resolve(st, configFileName, false, host, name) == Resolve(st, configFileName, false, host.(files := files), name)
  {
  }

  /** With only the file in use, the environment is never returned nor cached: the outcome
      is the same for every environment. */
  lemma OnlyFileIgnoresEnvironment(st: ConfigState, configFileName: string, host: Host, env: map<string, string>, name: string)
    ensures Resolve(st, configFileName, true, host, name) == Resolve(st, configFileName, true, host.(env := env), name)
  {
  }

  /** Once a name resolves, a later lookup under any casing of it returns the identical
      value from the cache, whatever has happened to the environment or the files since. */
  lemma AnyCasingHitsCache(st: ConfigState, configFileName: string, onlyUseConfigFile: bool, host: Host, name: string,
                           later: Host, other: string)
    requires Resolve(st, configFileName, onlyUseConfigFile, host, name).1.Success?
    requires Resolve(st, configFileName, onlyUseConfigFile, host, name).1.value.Some?
    requires ToLower(other) == ToLower(name)
    ensures var (st', v) := Resolve(st, configFileName, onlyUseConfigFile, host, name);
      Resolve(st', configFileName, onlyUseConfigFile, later, other) == (st', v)
  {
  }

  /** Absence is not remembered: after a lookup finds nothing, the cache is as it was, and a
      later lookup sees a value that has since appeared in the environment. */
  lemma AbsenceIsRetried(st: ConfigState, configFileName: string, host: Host, name: string, later: Host)
    requires Resolve(st, configFileName, false, host, name).1 == Success(None)
    requires name in later.env
    ensures Resolve(st, configFileName, false, host, name).0.valCache == st.valCache
    ensures Resolve(Resolve(st, configFileName, false, host, name).0, configFileName, false, later, name).1
         == Success(Some(later.env[name]))
  {
  }

  /** `GetValueOrDefault` returns the resolved value if there is one, else the default, and
      never puts the default into the cache. */
  lemma DefaultNeverCached(st: ConfigState, configFileName: string, onlyUseConfigFile: bool, host: Host, name: string, defaultValue: string)
    requires Resolve(st, configFileName, onlyUseConfigFile, host, name).1.Success?
    ensures var v := Resolve(st, configFileName, onlyUseConfigFile, host, name).1.value;
      ResolveOrDefault(st, configFileName, onlyUseConfigFile, host, name, defaultValue).1
        == Success(if v.Some? then v.value else defaultValue)
    ensures Resolve(st, configFileName, onlyUseConfigFile, host, name).1.value.None? ==>
      ResolveOrDefault(st, configFileName, onlyUseConfigFile, host, name, defaultValue).0.valCache == st.valCache
  {
  }

  // ----- The one-shot load -----

  /** A successful load sets the flag, and a second call is refused as already loaded
      without touching the state. */
  lemma SecondLoadRefused(st: ConfigState, host: Host, later: Host)
    requires Load(st, host).1.Pass?
    ensures Load(st, host).0.configFileIsLoaded
    ensures Load(Load(st, host).0, later) == (Load(st, host).0, Fail(AlreadyLoaded))
  {
  }

  /** The flag becomes true only when the parser consumed the whole default file without
      stopping; the table is whatever the parse left, even when it stopped early. */
  lemma LoadConsumesWholeFile(st: ConfigState, host: Host)
    requires !st.configFileIsLoaded
    requires DefaultConfigFileName(host.homeDir) in host.files
    requires host.files[DefaultConfigFileName(host.homeDir)].Present?
    requires host.files[DefaultConfigFileName(host.homeDir)].openable
    ensures var s := Parse(st.configFileVals, host.files[DefaultConfigFileName(host.homeDir)].lines);
      && Load(st, host).0.configFileVals == s.vals
      && (Load(st, host).0.configFileIsLoaded <==> s.failure.None?)
  {
  }

  /** Once loaded, the file is never read again: the table and the flag stay fixed and the
      answer comes from the table. */
  lemma LoadedTableIsFinal(st: ConfigState, configFileName: string, host: Host, name: string)
    requires st.configFileIsLoaded
    ensures FromFile(st, configFileName, host, name) == (st, Success(Lookup(st.configFileVals, name)))
  {
  }

  /** A missing file gives an absent value from the (empty) table and leaves the flag false,
      so the check is repeated on the next lookup. */
  lemma MissingFileLeavesUnloaded(st: ConfigState, configFileName: string, host: Host, name: string)
    requires !st.configFileIsLoaded && configFileName !in host.files
    ensures FromFile(st, configFileName, host, name) == (st, Success(Lookup(st.configFileVals, name)))
    ensures Initial().configFileVals == map[] && FromFile(Initial(), configFileName, host, name) == (Initial(), Success(None))
  {
  }

  /** Permission gate: an existing file is refused, before anything is read, exactly when
      it is not a plain file with permission bits 0600 or 0400. */
  lemma PermissionGate(st: ConfigState, configFileName: string, host: Host, name: string)
    requires !st.configFileIsLoaded
    requires configFileName in host.files && host.files[configFileName].Present?
    ensures var m := host.files[configFileName].mode;
      (FromFile(st, configFileName, host, name) == (st, Failure(BadPermissions))) <==>
      !(m.kind == [] && (m.perm == 0x180 || m.perm == 0x100))
  {
  }

  /** A group- and world-readable file (mode 0644) is refused whatever it holds. */
  lemma WorldReadableFileRefused(st: ConfigState, configFileName: string, host: Host, name: string)
    requires !st.configFileIsLoaded
    requires configFileName in host.files && host.files[configFileName].Present?
    requires host.files[configFileName].mode == FileMode("", 0x1A4)
    ensures FromFile(st, configFileName, host, name) == (st, Failure(BadPermissions))
  {
  }

  /** The gate checks `configFileName` but the load reads the default path: a well-permissioned
      configured file is of no use when the default path is missing or cannot be opened, and
      when the default path can be opened its lines, not the configured file's, fill the table. */
  lemma ReadPathIsDefaultPath(st: ConfigState, configFileName: string, host: Host, name: string)
    requires !st.configFileIsLoaded
    requires configFileName in host.files && host.files[configFileName].Present?
    requires host.files[configFileName].mode == FileMode("", 0x180)
    ensures DefaultConfigFileName(host.homeDir) !in host.files ==>
      FromFile(st, configFileName, host, name) == (st, Failure(OpenFailed))
    ensures DefaultConfigFileName(host.homeDir) in host.files && host.files[DefaultConfigFileName(host.homeDir)].Present? &&
            !host.files[DefaultConfigFileName(host.homeDir)].openable ==>
      FromFile(st, configFileName, host, name) == (st, Failure(OpenFailed))
    ensures DefaultConfigFileName(host.homeDir) in host.files && host.files[DefaultConfigFileName(host.homeDir)].Present? &&
            host.files[DefaultConfigFileName(host.homeDir)].openable ==>
      FromFile(st, configFileName, host, name).0.configFileVals
        == Parse(st.configFileVals, host.files[DefaultConfigFileName(host.homeDir)].lines).vals
  {
  }

  /** A malformed line makes the lookup panic; the entries parsed before it stay in the
      table and the flag stays false. */
  lemma MalformedFileKeepsPartialTable(st: ConfigState, configFileName: string, host: Host, name: string,
                                       before: seq<string>, bad: string, after: seq<string>)
    requires !st.configFileIsLoaded && ConfigFileExists(host, configFileName) == Success(true)
    requires DefaultConfigFileName(host.homeDir) in host.files
    requires host.files[DefaultConfigFileName(host.homeDir)].Present? && host.files[DefaultConfigFileName(host.homeDir)].openable
    requires host.files[DefaultConfigFileName(host.homeDir)].lines == before + [bad] + after
    requires Parse(st.configFileVals, before).failure.None? && Parse(st.configFileVals, before).mode.SingleLine?
    requires Count(bad, Eq) != 1
    ensures FromFile(st, configFileName, host, name)
         == (st.(configFileVals := Parse(st.configFileVals, before).vals), Failure(LoadFailed(Malformed)))
  {
    MalformedKeepsEarlierEntries(st.configFileVals, before, bad, after);
  }

  /** Over any run of lookups, cache entries are never overwritten, and once the file is
      loaded its table and flag never change again: the file is parsed at most once. */
  lemma {:induction false} RunKeepsCacheAndTable(st: ConfigState, configFileName: string, onlyUseConfigFile: bool, host: Host, names: seq<string>)
    ensures var end := ResolveAll(st, configFileName, onlyUseConfigFile, host, names);
      forall k :: k in st.valCache ==> k in end.valCache && end.valCache[k] == st.valCache[k]
    ensures var end := ResolveAll(st, configFileName, onlyUseConfigFile, host, names);
      st.configFileIsLoaded ==> end.configFileIsLoaded && end.configFileVals == st.configFileVals
    decreases |names|
  {
    if names != [] {
      var (st', v) := Resolve(st, configFileName, onlyUseConfigFile, host, names[0]);
      if v.Success? {
        RunKeepsCacheAndTable(st', configFileName, onlyUseConfigFile, host, names[1..]);
      }
    }
  }

  /** A file entry `KEY2=Value2` in a 0600 default file resolves to `Value2` for a fresh
      resolver, and an environment value for the same name wins over the file. */
  lemma FileAndEnvironmentExample(homeDir: string)
    ensures var path := DefaultConfigFileName(homeDir);
      var host := Host(map[], map[path := Present(FileMode("", 0x180), true, ["KEY2=Value2"])], homeDir);
      && Resolve(Initial(), path, false, host, "KEY2").1 == Success(Some("Value2"))
      && Resolve(Initial(), path, false, host.(env := map["KEY2" := "Value"]), "KEY2").1 == Success(Some("Value"))
  {
    var path := DefaultConfigFileName(homeDir);
    var host := Host(map[], map[path := Present(FileMode("", 0x180), true, ["KEY2=Value2"])], homeDir);
    assert Eq !in "KEY2" && Eq !in "Value2" by {
      assert forall i :: 0 <= i < |"KEY2"| ==> "KEY2"[i] != Eq;
      assert forall i :: 0 <= i < |"Value2"| ==> "Value2"[i] != Eq;
    }
    StepPair(map[], "KEY2", "Value2");
    assert "KEY2" + "=" + "Value2" == "KEY2=Value2";
    assert ["KEY2=Value2"][1..] == [];
    assert Parse(map[], ["KEY2=Value2"]) == Scan(map["KEY2" := "Value2"], SingleLine, None);
    assert ConfigFileExists(host, path) == Success(true);
    var loaded := ConfigState(map[], map["KEY2" := "Value2"], true);
    assert Load(Initial(), host) == (loaded, Pass);
    assert FromFile(Initial(), path, host, "KEY2") == (loaded, Success(Some("Value2")));
  }

  class Config {
    var valCache: map<string, string>
    var configFileVals: map<string, string>
    var configFileIsLoaded: bool
    const configFileName: string
    const onlyUseConfigFile: bool  // if true, environment variables are ignored

    function State(): ConfigState
      reads this
    {
      ConfigState(valCache, configFileVals, configFileIsLoaded)
    }

    /** `NewConfigWithFile`. */
    constructor (configFile: string, onlyUseFile: bool)
      ensures State() == Initial()
      ensures configFileName == configFile && onlyUseConfigFile == onlyUseFile
    {
      valCache := map[];
      configFileVals := map[];
      configFileIsLoaded := false;
      configFileName := configFile;
      onlyUseConfigFile := onlyUseFile;
    }

    method GetValue(name: string, host: Host) returns (r: Result<Option<string>, ConfigError>)
      modifies this
      ensures (State(), r) == Resolve(old(State()), configFileName, onlyUseConfigFile, host, name)
    {
      var nameLower := ToLower(name);
      if nameLower in valCache {
        return Success(Some(valCache[nameLower]));
      }
      var fromEnv := Lookup(host.env, name);
      if fromEnv.Some? && !onlyUseConfigFile {
        valCache := valCache[nameLower := fromEnv.value];
        return Success(fromEnv);
      }
      r := ValFromConfigFile(name, host);
      if r.Success? && r.value.Some? {
        valCache := valCache[nameLower := r.value.value];
      }
    }

    method GetValueOrDefault(name: string, defaultValue: string, host: Host) returns (r: Result<string, ConfigError>)
      modifies this
      ensures (State(), r) == ResolveOrDefault(old(State()), configFileName, onlyUseConfigFile, host, name, defaultValue)
    {
      var v := GetValue(name, host);
      if v.Failure? {
        return Failure(v.error);
      }
      if v.value.Some? {
        return Success(v.value.value);
      }
      return Success(defaultValue);
    }

    method ValFromConfigFile(name: string, host: Host) returns (r: Result<Option<string>, ConfigError>)
      modifies this`configFileVals, this`configFileIsLoaded
      ensures (State(), r) == FromFile(old(State()), configFileName, host, name)
    {
      if !configFileIsLoaded {
        var present := ConfigFileExists(host, configFileName);
        if present.Failure? {
          return Failure(present.error);
        }
        if present.value {
          var err := LoadConfigFileVals(host);
          if err.Fail? {
            return Failure(err.error);
          }
        }
      }
      return Success(Lookup(configFileVals, name));
    }

    method LoadConfigFileVals(host: Host) returns (r: Outcome<ConfigError>)
      modifies this`configFileVals, this`configFileIsLoaded
      ensures (State(), r) == Load(old(State()), host)
    {
      if configFileIsLoaded {
        return Fail(AlreadyLoaded);
      }
      // the default path, not configFileName, is what gets opened
      var path := DefaultConfigFileName(host.homeDir);
      if path !in host.files || host.files[path].Inaccessible? || !host.files[path].openable {
        return Fail(OpenFailed);
      }
      var lines := host.files[path].lines;
      ghost var spec := Parse(configFileVals, lines);

      var isInMultiLineString := false;
      var multiLineKey := "";
      var multiLineValueBuilder := "";
      var i := 0;
      while i < |lines|
        invariant 0 <= i <= |lines|
        invariant !configFileIsLoaded
        invariant !isInMultiLineString ==> multiLineValueBuilder == ""
        invariant ScanFrom(Scan(configFileVals,
                                if isInMultiLineString then MultiLine(multiLineKey, multiLineValueBuilder) else SingleLine,
                                None), lines[i..]) == spec
      {
        var line := lines[i];
        assert lines[i..] == [line] + lines[i + 1..];
        ghost var vals0 := configFileVals;
        ghost var mode0 := if isInMultiLineString then MultiLine(multiLineKey, multiLineValueBuilder) else SingleLine;
        if !isInMultiLineString {
          var tokens := Split(line, Eq);
          if |tokens| != 2 {
            return Fail(LoadFailed(Malformed));
          }
          var v := tokens[1];
          configFileVals := configFileVals[tokens[0] := v];
          if |v| == 0 {
            return Fail(LoadFailed(SliceOutOfRange));
          }
          if v[0] == Tick {
            isInMultiLineString := true;
            multiLineKey := tokens[0];
            multiLineValueBuilder := multiLineValueBuilder + v[1..];
            multiLineValueBuilder := multiLineValueBuilder + "\n";
            assert multiLineValueBuilder == v[1..] + "\n";
          }
        } else {
          if |line| == 0 {
            return Fail(LoadFailed(SliceOutOfRange));
          }
          if line[|line| - 1] == Tick {
            multiLineValueBuilder := multiLineValueBuilder + line[..|line| - 1];
            isInMultiLineString := false;
            configFileVals := configFileVals[multiLineKey := multiLineValueBuilder];
            multiLineKey := "";
            multiLineValueBuilder := "";
          } else {
            multiLineValueBuilder := multiLineValueBuilder + line;
            multiLineValueBuilder := multiLineValueBuilder + "\n";
          }
        }
        assert Step(vals0, mode0, line) == Scan(configFileVals,
          if isInMultiLineString then MultiLine(multiLineKey, multiLineValueBuilder) else SingleLine, None);
        i := i + 1;
      }
      configFileIsLoaded := true;
      return Pass;
    }
  }

  /** `NewConfig`: a resolver over the default file that consults the environment. */
  method NewConfig(homeDir: string) returns (c: Config)
    ensures fresh(c) && c.State() == Initial()
    ensures c.configFileName == DefaultConfigFileName(homeDir) && !c.onlyUseConfigFile
  {
    c := new Config(DefaultConfigFileName(homeDir), false);
  }
}
