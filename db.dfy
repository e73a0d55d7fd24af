/** The database identifier of db/db.go, derived from configuration values that a lazily
    created, package-wide `Config` resolves.

    The package-level variable `c` becomes the field of a `Package` object. A `panic` of the
    resolver and a `log.Fatal` of this file both end the process; here they are `Failure`
    results. */
module Db {
  import opened Wrappers
  import opened Text
  import Config

  const KeyDbId: string := "RADSTACK_DB_ID"
  const KeyDbName: string := "RADSTACK_DB_NAME"
  const KeyStage: string := "RADSTACK_STAGE"
  const KeyOrgId: string := "RADSTACK_ORG_ID"

  const MinSanitizedLength: nat := 3

  datatype DbError =
    | ConfigPanic(cause: Config.ConfigError)     // the resolver panicked
    | NotFound(name: string)                     // the value is absent
    | TooShort(name: string, sanitized: string)  // fewer than three letters remain

  /** What `sanitizedConfigValue` does with a looked-up value: refuse an absent one,
      lower-case it and keep only `a`..`z`, and refuse a result shorter than three letters. */
  function SanitizedValue(name: string, v: Option<string>): (r: Result<string, DbError>)
    ensures v.None? ==> r == Failure(NotFound(name))
    ensures v.Some? ==> (r.Success? <==> |KeepLowerAlpha(ToLower(v.value))| >= MinSanitizedLength)
    ensures r.Success? ==> v.Some? && r.value == KeepLowerAlpha(ToLower(v.value))
    ensures r.Success? ==> AllLowerAlpha(r.value) && |r.value| >= MinSanitizedLength
  {
    match v
    case None => Failure(NotFound(name))
    case Some(value) =>
      var vLower := KeepLowerAlpha(ToLower(value));
      if |vLower| < MinSanitizedLength then Failure(TooShort(name, vLower)) else Success(vLower)
  }

  /** `sanitizedConfigValue` against a resolver in state `st`. */
  function SanitizedLookup(st: Config.ConfigState, configFileName: string, onlyUseConfigFile: bool, host: Config.Host, name: string): (r: (Config.ConfigState, Result<string, DbError>))
    ensures r.0 == Config.Resolve(st, configFileName, onlyUseConfigFile, host, name).0
    ensures r.1.Success? ==> AllLowerAlpha(r.1.value) && |r.1.value| >= MinSanitizedLength
    ensures Config.Resolve(st, configFileName, onlyUseConfigFile, host, name).1 == Success(None) ==> r.1 == Failure(NotFound(name))
  {
    var (st', v) := Config.Resolve(st, configFileName, onlyUseConfigFile, host, name);
    match v
    case Failure(e) => (st', Failure(ConfigPanic(e)))
    case Success(found) => (st', SanitizedValue(name, found))
  }

  /** `Id` against a resolver in state `st`: the configured database id verbatim if there is
      one, otherwise the sanitised organisation, database name and stage joined by `-`. */
  function DatabaseId(st: Config.ConfigState, configFileName: string, onlyUseConfigFile: bool, host: Config.Host): (r: (Config.ConfigState, Result<string, DbError>))
    // the lookups only ever add to the cache
    ensures forall k :: k in st.valCache ==> k in r.0.valCache && r.0.valCache[k] == st.valCache[k]
    // a composed id is made of sanitised words and so never shorter than 3 + 1 + 3 + 1 + 3
    ensures r.1.Success? && Config.Resolve(st, configFileName, onlyUseConfigFile, host, KeyDbId).1 == Success(None) ==>
      |r.1.value| >= 11
  {
    var (st1, dbId) := Config.Resolve(st, configFileName, onlyUseConfigFile, host, KeyDbId);
    if dbId.Failure? then (st1, Failure(ConfigPanic(dbId.error)))
    else if dbId.value.Some? then (st1, Success(dbId.value.value))
    else
      var (st2, org) := SanitizedLookup(st1, configFileName, onlyUseConfigFile, host, KeyOrgId);
      if org.Failure? then (st2, Failure(org.error))
      else
        var (st3, db) := SanitizedLookup(st2, configFileName, onlyUseConfigFile, host, KeyDbName);
        if db.Failure? then (st3, Failure(db.error))
        else
          var (st4, stage) := SanitizedLookup(st3, configFileName, onlyUseConfigFile, host, KeyStage);
          if stage.Failure? then (st4, Failure(stage.error))
          else (st4, Success(org.value + "-" + db.value + "-" + stage.value))
  }

  /** A resolved `RADSTACK_DB_ID` is the id, verbatim and unsanitised; a panic while
      resolving it ends `Id`. */
  lemma ConfiguredIdVerbatim(st: Config.ConfigState, configFileName: string, onlyUseConfigFile: bool, host: Config.Host)
    ensures var v := Config.Resolve(st, configFileName, onlyUseConfigFile, host, KeyDbId).1;
      && (v.Success? && v.value.Some? ==> DatabaseId(st, configFileName, onlyUseConfigFile, host).1 == Success(v.value.value))
      && (v.Failure? ==> DatabaseId(st, configFileName, onlyUseConfigFile, host).1 == Failure(ConfigPanic(v.error)))
  {
  }

  /** Without a configured id, a successful `Id` is the sanitised organisation id, database
      name and stage, looked up in that order, joined by `-`: it splits on `-` into exactly
      those three words. */
  lemma ComposedIdSplits(st: Config.ConfigState, configFileName: string, onlyUseConfigFile: bool, host: Config.Host)
    requires Config.Resolve(st, configFileName, onlyUseConfigFile, host, KeyDbId).1 == Success(None)
    requires DatabaseId(st, configFileName, onlyUseConfigFile, host).1.Success?
    ensures var st1 := Config.Resolve(st, configFileName, onlyUseConfigFile, host, KeyDbId).0;
      var (st2, org) := SanitizedLookup(st1, configFileName, onlyUseConfigFile, host, KeyOrgId);
      var (st3, db) := SanitizedLookup(st2, configFileName, onlyUseConfigFile, host, KeyDbName);
      var (st4, stage) := SanitizedLookup(st3, configFileName, onlyUseConfigFile, host, KeyStage);
      && org.Success? && db.Success? && stage.Success?
      && DatabaseId(st, configFileName, onlyUseConfigFile, host) == (st4, Success(org.value + "-" + db.value + "-" + stage.value))
      && Split(DatabaseId(st, configFileName, onlyUseConfigFile, host).1.value, '-') == [org.value, db.value, stage.value]
  {
    var st1 := Config.Resolve(st, configFileName, onlyUseConfigFile, host, KeyDbId).0;
    var (st2, org) := SanitizedLookup(st1, configFileName, onlyUseConfigFile, host, KeyOrgId);
    var (st3, db) := SanitizedLookup(st2, configFileName, onlyUseConfigFile, host, KeyDbName);
    var (st4, stage) := SanitizedLookup(st3, configFileName, onlyUseConfigFile, host, KeyStage);
    var words := [org.value, db.value, stage.value];
    LowerAlphaExcludes(org.value, '-');
    LowerAlphaExcludes(db.value, '-');
    LowerAlphaExcludes(stage.value, '-');
    assert Join(words, '-') == org.value + "-" + db.value + "-" + stage.value by {
      assert words[1..] == [db.value, stage.value];
      assert [db.value, stage.value][1..] == [stage.value];
      assert Join([db.value, stage.value], '-') == db.value + "-" + stage.value;
      assert org.value + ['-'] + (db.value + "-" + stage.value) == org.value + "-" + db.value + "-" + stage.value;
    }
    SplitJoin(words, '-');
  }

  class Package {
    var c: Config.Config?

    constructor ()
      ensures c == null
    {
      c := null;
    }

    /** The resolver's state, a fresh resolver's when none has been created yet. */
    ghost function CurrentState(): Config.ConfigState
      reads this, c
    {
      if c == null then Config.Initial() else c.State()
    }

    /** `configVal`: create the shared resolver on first use, then resolve through it. */
    method ConfigVal(name: string, host: Config.Host) returns (r: Result<Option<string>, Config.ConfigError>)
      modifies this, c
      ensures c != null
      ensures old(c) != null ==> c == old(c)
      ensures old(c) == null ==> fresh(c) && c.configFileName == Config.DefaultConfigFileName(host.homeDir) && !c.onlyUseConfigFile
      ensures (c.State(), r) == Config.Resolve(old(CurrentState()), c.configFileName, c.onlyUseConfigFile, host, name)
    {
      if c == null {
        c := Config.NewConfig(host.homeDir);
      }
      r := c.GetValue(name, host);
    }

    /** `sanitizedConfigValue`. */
    method SanitizedConfigValue(name: string, host: Config.Host) returns (r: Result<string, DbError>)
      modifies this, c
      ensures c != null
      ensures old(c) != null ==> c == old(c)
      ensures old(c) == null ==> fresh(c) && c.configFileName == Config.DefaultConfigFileName(host.homeDir) && !c.onlyUseConfigFile
      ensures (c.State(), r) == SanitizedLookup(old(CurrentState()), c.configFileName, c.onlyUseConfigFile, host, name)
    {
      var v := ConfigVal(name, host);
      if v.Failure? {
        return Failure(ConfigPanic(v.error));
      }
      if v.value.None? {
        return Failure(NotFound(name));
      }
      var vLower := KeepLowerAlpha(ToLower(v.value.value));
      if |vLower| < MinSanitizedLength {
        return Failure(TooShort(name, vLower));
      }
      return Success(vLower);
    }

    /** `mustSanitizedConfigValue`: the sanitised value, or the fatal end of the process. */
    method MustSanitizedConfigValue(name: string, host: Config.Host) returns (r: Result<string, DbError>)
      modifies this, c
      ensures c != null
      ensures old(c) != null ==> c == old(c)
      ensures old(c) == null ==> fresh(c) && c.configFileName == Config.DefaultConfigFileName(host.homeDir) && !c.onlyUseConfigFile
      ensures (c.State(), r) == SanitizedLookup(old(CurrentState()), c.configFileName, c.onlyUseConfigFile, host, name)
    {
      r := SanitizedConfigValue(name, host);
    }

    /** `Id`. */
    method Id(host: Config.Host) returns (r: Result<string, DbError>)
      modifies this, c
      ensures c != null
      ensures old(c) != null ==> c == old(c)
      ensures old(c) == null ==> fresh(c) && c.configFileName == Config.DefaultConfigFileName(host.homeDir) && !c.onlyUseConfigFile
      ensures (c.State(), r) == DatabaseId(old(CurrentState()), c.configFileName, c.onlyUseConfigFile, host)
    {
      var dbId := ConfigVal(KeyDbId, host);
      if dbId.Failure? {
        return Failure(ConfigPanic(dbId.error));
      }
      if dbId.value.Some? {
        return Success(dbId.value.value);
      }
      var org := MustSanitizedConfigValue(KeyOrgId, host);
      if org.Failure? {
        return Failure(org.error);
      }
      var db := MustSanitizedConfigValue(KeyDbName, host);
      if db.Failure? {
        return Failure(db.error);
      }
      var stage := MustSanitizedConfigValue(KeyStage, host);
      if stage.Failure? {
        return Failure(stage.error);
      }
      return Success(org.value + "-" + db.value + "-" + stage.value);
    }
  }
}
