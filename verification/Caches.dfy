/** The process-wide caches of the settings and of the database engine, and the environment they
    are read from. */
module Caches {
  import opened Wrappers
  import DatabaseUrl

  /** What the code reads besides the environment: the values of the `.env` file, and which inputs the
      settings class, `urlsplit` and `create_async_engine` take without raising. */
  datatype World = World(
    dotEnv: map<string, string>,
    settingsAccepted: map<string, string> -> bool,
    netlocAccepted: string -> bool,
    engineAccepted: string -> bool)

  /** The settings, as far as the database is concerned. */
  datatype Settings = Settings(databaseUrl: Option<string>)

  /** An engine, as far as this model goes: the URL it connects to; `None` without a database. */
  type Engine = Option<string>

  /** Each cache holds at most one result. */
  datatype State = State(environment: map<string, string>, settings: Option<Settings>, engine: Option<Engine>)

  function Lookup(values: map<string, string>, name: string): Option<string> {
    if name in values then Some(values[name]) else None
  }

  /** `Settings()`: the environment goes before the file. */
  function LoadSettings(world: World, environment: map<string, string>): Result<Settings> {
    if !world.settingsAccepted(environment) then Err("invalid settings")
    else if "DATABASE_URL" in environment then Ok(Settings(Some(environment["DATABASE_URL"])))
    else Ok(Settings(Lookup(world.dotEnv, "DATABASE_URL")))
  }

  function BuildEngine(world: World, settings: Settings): Result<Engine> {
    match settings.databaseUrl
    case None => Ok(None)
    case Some(raw) =>
      match DatabaseUrl.BuildAsyncDatabaseUrl(raw, world.netlocAccepted)
      case Err(message) => Err(message)
      case Ok(url) => if world.engineAccepted(url) then Ok(Some(url)) else Err("invalid engine URL")
  }

  // ---------------------------------------------------------------- the operations as functions

  /** The name that is read, after the fallback, and its value. */
  function Source(environment: map<string, string>, name: string, fallback: bool): (string, Option<string>) {
    if name !in environment && fallback then ("TEST_DATABASE_URL", Lookup(environment, "TEST_DATABASE_URL"))
    else (name, Lookup(environment, name))
  }

  function AfterConfigure(s: State, name: string, fallback: bool): State {
    match Source(s.environment, name, fallback).1
    case None => s
    case Some(url) => s.(environment := s.environment["DATABASE_URL" := url], settings := None)
  }

  /** Raised exceptions are not cached. */
  function SettingsResult(world: World, s: State): Result<Settings> {
    match s.settings
    case Some(settings) => Ok(settings)
    case None => LoadSettings(world, s.environment)
  }

  function AfterSettings(world: World, s: State): State {
    match SettingsResult(world, s)
    case Ok(settings) => s.(settings := Some(settings))
    case Err(_) => s
  }

  /** A cached engine is returned without looking at the settings. */
  function EngineResult(world: World, s: State): Result<Engine> {
    match s.engine
    case Some(engine) => Ok(engine)
    case None =>
      match SettingsResult(world, s)
      case Err(message) => Err(message)
      case Ok(settings) => BuildEngine(world, settings)
  }

  function AfterEngine(world: World, s: State): State {
    if s.engine.Some? then s
    else
      match EngineResult(world, s)
      case Ok(engine) => AfterSettings(world, s).(engine := Some(engine))
      case Err(_) => AfterSettings(world, s)
  }

  // ---------------------------------------------------------------- the process

  class Process {
    const world: World
    var environment: map<string, string>
    var settings: Option<Settings>
    var engine: Option<Engine>

    constructor (world: World, environment: map<string, string>)
      ensures this.world == world && Contents() == State(environment, None, None)
    {
      this.world := world;
      this.environment := environment;
      settings := None;
      engine := None;
    }

    function Contents(): State
      reads this
    {
      State(environment, settings, engine)
    }

    method ConfigureDatabaseUrl(databaseUrlEnv: string, allowTestFallback: bool) returns (result: Result<string>)
      modifies this
      ensures Contents() == AfterConfigure(old(Contents()), databaseUrlEnv, allowTestFallback)
      ensures databaseUrlEnv in old(environment) ==>
                var url := old(environment)[databaseUrlEnv];
                result == Ok(url) && environment == old(environment)["DATABASE_URL" := url] &&
                settings == None && engine == old(engine)
      ensures databaseUrlEnv !in old(environment) && allowTestFallback && "TEST_DATABASE_URL" in old(environment) ==>
                var url := old(environment)["TEST_DATABASE_URL"];
                result == Ok(url) && environment == old(environment)["DATABASE_URL" := url] &&
                settings == None && engine == old(engine)
      ensures databaseUrlEnv !in old(environment) && !allowTestFallback ==>
                result == Err(databaseUrlEnv + " is not configured") && Contents() == old(Contents())
      ensures databaseUrlEnv !in old(environment) && allowTestFallback &&
              "TEST_DATABASE_URL" !in old(environment) ==>
                result == Err("TEST_DATABASE_URL" + " is not configured") && Contents() == old(Contents())
    {
      var name := databaseUrlEnv;
      var databaseUrl := Lookup(environment, name);
      if databaseUrl.None? && allowTestFallback {
        databaseUrl := Lookup(environment, "TEST_DATABASE_URL");
        name := "TEST_DATABASE_URL";
      }
      if databaseUrl.None? {
        return Err(name + " is not configured");
      }
      environment := environment["DATABASE_URL" := databaseUrl.value];
      settings := None;
      return Ok(databaseUrl.value);
    }

    method GetSettings() returns (result: Result<Settings>)
      modifies this
      ensures Contents() == AfterSettings(world, old(Contents()))
      ensures result == SettingsResult(world, old(Contents()))
    {
      if settings.Some? {
        return Ok(settings.value);
      }
      result := LoadSettings(world, environment);
      if result.Ok? {
        settings := Some(result.value);
      }
    }

    method GetAsyncEngine() returns (result: Result<Engine>)
      modifies this
      ensures Contents() == AfterEngine(world, old(Contents()))
      ensures result == EngineResult(world, old(Contents()))
    {
      if engine.Some? {
        return Ok(engine.value);
      }
      var loaded := GetSettings();
      if loaded.Err? {
        return Err(loaded.message);
      }
      result := BuildEngine(world, loaded.value);
      if result.Ok? {
        engine := Some(result.value);
      }
    }

    /** The URL the factory's sessions connect to; no factory without a database. */
    method GetAsyncSessionFactory() returns (result: Result<Option<string>>)
      modifies this
      ensures Contents() == AfterEngine(world, old(Contents()))
      ensures result == EngineResult(world, old(Contents()))
    {
      result := GetAsyncEngine();
    }
  }

  // ---------------------------------------------------------------- runs

  datatype Event =
    | SetVariable(name: string, value: string)
    | UnsetVariable(name: string)
    | Configure(databaseUrlEnv: string, allowTestFallback: bool)
    | ReadSettings
    | ReadEngine

  function Step(world: World, s: State, event: Event): State {
    match event
    case SetVariable(name, value) => s.(environment := s.environment[name := value])
    case UnsetVariable(name) => s.(environment := s.environment - {name})
    case Configure(name, fallback) => AfterConfigure(s, name, fallback)
    case ReadSettings => AfterSettings(world, s)
    case ReadEngine => AfterEngine(world, s)
  }

  function Run(world: World, s: State, events: seq<Event>): State {
    if events == [] then s
    else Step(world, Run(world, s, events[..|events| - 1]), events[|events| - 1])
  }

  predicate AreReads(events: seq<Event>) {
    forall event | event in events :: event.ReadSettings? || event.ReadEngine?
  }

  lemma {:induction false} RunAppend(world: World, s: State, first: seq<Event>, second: seq<Event>)
    ensures Run(world, s, first + second) == Run(world, Run(world, s, first), second)
  {
    if second == [] {
      assert first + second == first;
    } else {
      assert (first + second)[..|first + second| - 1] == first + second[..|second| - 1];
      RunAppend(world, s, first, second[..|second| - 1]);
    }
  }

  lemma ReadKeeps(world: World, s: State, get: Event)
    requires get.ReadSettings? || get.ReadEngine?
    ensures var after := Step(world, s, get);
            after.environment == s.environment &&
            SettingsResult(world, after) == SettingsResult(world, s) &&
            EngineResult(world, after) == EngineResult(world, s)
  {
  }

  /** Reading never changes what is read, be it cached, loaded or raised. */
  lemma {:induction false} ReadsKeep(world: World, s: State, gets: seq<Event>)
    requires AreReads(gets)
    ensures var after := Run(world, s, gets);
            after.environment == s.environment &&
            SettingsResult(world, after) == SettingsResult(world, s) &&
            EngineResult(world, after) == EngineResult(world, s)
  {
    if gets == [] {
    } else {
      var front := gets[..|gets| - 1];
      var last := gets[|gets| - 1];
      assert gets == front + [last] && last in gets;
      ReadsKeep(world, s, front);
      ReadKeeps(world, Run(world, s, front), last);
    }
  }

  // ---------------------------------------------------------------- what configuring does

  /** The variable that is named decides, whatever TEST_DATABASE_URL holds; that one counts only when the
      named one is absent and the fallback is allowed; otherwise nothing changes. */
  lemma ConfiguredExactly(s: State, name: string, fallback: bool)
    ensures name in s.environment ==>
              AfterConfigure(s, name, fallback) ==
              State(s.environment["DATABASE_URL" := s.environment[name]], None, s.engine)
    ensures name !in s.environment && fallback && "TEST_DATABASE_URL" in s.environment ==>
              AfterConfigure(s, name, fallback) ==
              State(s.environment["DATABASE_URL" := s.environment["TEST_DATABASE_URL"]], None, s.engine)
    ensures name !in s.environment && (!fallback || "TEST_DATABASE_URL" !in s.environment) ==>
              AfterConfigure(s, name, fallback) == s
  {
  }

  /** What a process that has cached nothing reads: the variable DATABASE_URL, or, when that is absent, the
      entry of the file; and it connects to that URL rewritten for asyncpg. */
  lemma UncachedRead(world: World, environment: map<string, string>, engine: Option<Engine>, url: string)
    requires world.settingsAccepted(environment)
    requires if "DATABASE_URL" in environment then environment["DATABASE_URL"] == url
             else "DATABASE_URL" in world.dotEnv && world.dotEnv["DATABASE_URL"] == url
    ensures SettingsResult(world, State(environment, None, engine)) == Ok(Settings(Some(url)))
    ensures EngineResult(world, State(environment, None, None)) ==
            match DatabaseUrl.BuildAsyncDatabaseUrl(url, world.netlocAccepted)
            case Err(message) => Err(message)
            case Ok(built) => if world.engineAccepted(built) then Ok(Some(built)) else Err("invalid engine URL")
  {
  }

  /** Without either there is no database, and that is cached like an engine. */
  lemma NothingToRead(world: World, environment: map<string, string>)
    requires "DATABASE_URL" !in environment && "DATABASE_URL" !in world.dotEnv
    ensures world.settingsAccepted(environment) ==>
              SettingsResult(world, State(environment, None, None)) == Ok(Settings(None)) &&
              EngineResult(world, State(environment, None, None)) == Ok(None) &&
              AfterEngine(world, State(environment, None, None)).engine == Some(None)
  {
  }

  /** When the settings are invalid nothing is read, and nothing cached. */
  lemma InvalidSettings(world: World, environment: map<string, string>)
    requires !world.settingsAccepted(environment)
    ensures var s := State(environment, None, None);
            SettingsResult(world, s).Err? && EngineResult(world, s).Err? &&
            AfterSettings(world, s) == AfterEngine(world, s) == s
  {
  }

  /** Once `configure_database_url` was the last change to the environment, the settings that are read are those
      with the configured URL, whatever happened before and is read after. The engine that is read connects to
      that URL, rewritten, when none had been built before; otherwise it is the one built before. */
  lemma ConfiguredAgreesExactly(world: World, before: State, name: string, fallback: bool, url: string,
                                later: seq<Event>)
    requires if name in before.environment then before.environment[name] == url
             else fallback && "TEST_DATABASE_URL" in before.environment &&
                  before.environment["TEST_DATABASE_URL"] == url
    requires world.settingsAccepted(before.environment["DATABASE_URL" := url]) && AreReads(later)
    ensures var after := Run(world, before, [Configure(name, fallback)] + later);
            after.environment == before.environment["DATABASE_URL" := url] &&
            SettingsResult(world, after) == Ok(Settings(Some(url))) &&
            EngineResult(world, after) ==
            if before.engine.Some? then Ok(before.engine.value)
            else match DatabaseUrl.BuildAsyncDatabaseUrl(url, world.netlocAccepted)
                 case Err(message) => Err(message)
                 case Ok(built) => if world.engineAccepted(built) then Ok(Some(built)) else Err("invalid engine URL")
  {
    var configure := [Configure(name, fallback)];
    var configured := AfterConfigure(before, name, fallback);
    RunAppend(world, before, configure, later);
    assert Run(world, before, configure[..0]) == before;
    assert Run(world, before, configure) == configured;
    ConfiguredExactly(before, name, fallback);
    UncachedRead(world, configured.environment, before.engine, url);
    ReadsKeep(world, configured, later);
  }

  lemma {:induction false} NoEngineWithoutRead(world: World, s: State, events: seq<Event>)
    requires ReadEngine !in events
    ensures Run(world, s, events).engine == s.engine
  {
    if events == [] {
    } else {
      var front := events[..|events| - 1];
      assert events == front + [events[|events| - 1]];
      NoEngineWithoutRead(world, s, front);
    }
  }

  /** So in every run from a fresh process in which the configuration comes before the first read of the engine
      and is the last change, the engine connects to the configured URL. */
  lemma FreshProcessAgrees(world: World, environment: map<string, string>, earlier: seq<Event>,
                           name: string, fallback: bool, url: string, built: string, later: seq<Event>)
    requires ReadEngine !in earlier && AreReads(later)
    requires var now := Run(world, State(environment, None, None), earlier).environment;
             (if name in now then now[name] == url
              else fallback && "TEST_DATABASE_URL" in now && now["TEST_DATABASE_URL"] == url) &&
             world.settingsAccepted(now["DATABASE_URL" := url])
    requires DatabaseUrl.BuildAsyncDatabaseUrl(url, world.netlocAccepted) == Ok(built) && world.engineAccepted(built)
    ensures var start := State(environment, None, None);
            var after := Run(world, start, earlier + ([Configure(name, fallback)] + later));
            SettingsResult(world, after) == Ok(Settings(Some(url))) && EngineResult(world, after) == Ok(Some(built))
  {
    var start := State(environment, None, None);
    RunAppend(world, start, earlier, [Configure(name, fallback)] + later);
    NoEngineWithoutRead(world, start, earlier);
    ConfiguredAgreesExactly(world, Run(world, start, earlier), name, fallback, url, later);
  }

  /** An engine once built is kept for good, through every later change and configuration. */
  lemma {:induction false} EngineIsKept(world: World, s: State, events: seq<Event>)
    requires s.engine.Some?
    ensures Run(world, s, events).engine == s.engine
    ensures EngineResult(world, Run(world, s, events)) == Ok(s.engine.value)
  {
    if events == [] {
    } else {
      EngineIsKept(world, s, events[..|events| - 1]);
    }
  }

  /** So a configuration that changes the database after the first engine does not reach it. */
  lemma StaleEngine(world: World, s: State, name: string, fallback: bool, url: string, built: string)
    requires if name in s.environment then s.environment[name] == url
             else fallback && "TEST_DATABASE_URL" in s.environment && s.environment["TEST_DATABASE_URL"] == url
    requires world.settingsAccepted(s.environment["DATABASE_URL" := url])
    requires DatabaseUrl.BuildAsyncDatabaseUrl(url, world.netlocAccepted) == Ok(built) && world.engineAccepted(built)
    requires s.engine.Some? && s.engine != Some(Some(built))
    ensures var after := Run(world, s, [Configure(name, fallback)]);
            SettingsResult(world, after) == Ok(Settings(Some(url))) &&
            EngineResult(world, after) == Ok(s.engine.value) != EngineResult(world, after.(engine := None))
  {
    var configure := [Configure(name, fallback)];
    assert configure + [] == configure;
    ConfiguredAgreesExactly(world, s, name, fallback, url, []);
    ConfiguredAgreesExactly(world, s.(engine := None), name, fallback, url, []);
    assert Run(world, s, configure[..0]) == s && Run(world, s.(engine := None), configure[..0]) == s.(engine := None);
  }
}
