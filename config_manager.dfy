/**
 * The per-guild configuration store of src/configManager.js: one JSON document
 * per guild at `<module dir>/../databases/<guildId>/config.json`, and the
 * default-filling of its four top-level sections.
 */
module ConfigManager {
  import opened Wrappers
  import opened Json

  // ---------------------------------------------------------------------------
  // Default structure
  // ---------------------------------------------------------------------------

  const StreakSystem := "streakSystem"
  const MessageLeaderSystem := "messageLeaderSystem"
  const LevelSystem := "levelSystem"
  const ReportSettings := "reportSettings"

  /** The four top-level sections that ensureConfigStructure fills in. */
  const Sections: set<string> := {StreakSystem, MessageLeaderSystem, LevelSystem, ReportSettings}

  /** `levelMultiplier: 1.5`, carried as the exact decimal 15 * 10^-1. */
  const LevelMultiplier := Num(15, 1)

  const StreakDefault := Obj(map["enabled" := Bool(false), "streakThreshold" := Int(10)])
  const MessageLeaderDefault := Obj(map["enabled" := Bool(false)])
  const LevelDefault := Obj(map["enabled" := Bool(false), "xpPerMessage" := Int(10),
                                "levelMultiplier" := LevelMultiplier, "rewards" := Obj(map[])])
  const ReportDefault := Obj(map["weeklyReportChannel" := Str(""), "monthlyReportChannel" := Str("")])

  /** The four section names have different lengths, which tells them apart cheaply. */
  lemma SectionNameLengths()
    ensures |StreakSystem| == 12 && |MessageLeaderSystem| == 19 && |LevelSystem| == 11 && |ReportSettings| == 14
  {
  }

  /** The fixed default installed for a section. */
  function DefaultOf(section: string): (d: Value)
    requires section in Sections
    ensures d.Obj? && Truthy(d)
  {
    if section == StreakSystem then StreakDefault
    else if section == MessageLeaderSystem then MessageLeaderDefault
    else if section == LevelSystem then LevelDefault
    else ReportDefault
  }

  /** One guarded statement `if (!config[section]) config[section] = default`. */
  function FillSection(fields: map<string, Value>, section: string): map<string, Value>
    requires section in Sections
  {
    if FieldTruthy(fields, section) then fields else fields[section := DefaultOf(section)]
  }

  /** FillSection touches its own section only, and leaves it truthy. */
  lemma FillSectionFrame(fields: map<string, Value>, section: string)
    requires section in Sections
    ensures FillSection(fields, section).Keys == fields.Keys + {section}
    ensures FillSection(fields, section)[section] ==
            if FieldTruthy(fields, section) then fields[section] else DefaultOf(section)
    ensures forall k :: k in fields && k != section ==> FillSection(fields, section)[k] == fields[k]
  {
  }

  /** What ensureConfigStructure leaves under one key. */
  function FilledAt(fields: map<string, Value>, key: string): Value
    requires key in fields || key in Sections
  {
    if key in Sections && !FieldTruthy(fields, key) then DefaultOf(key) else fields[key]
  }

  /**
   * The configuration as ensureConfigStructure leaves it. The test is
   * truthiness, not presence: a section holding `{}` or a partial object is
   * kept, one holding `null`, `false`, `0` or `""` is replaced. A section holding
   * some other truthy value (`true`, `5`, `"x"`, an array) is kept as it is, so
   * it is not necessarily an object afterwards.
   */
  function WithDefaults(fields: map<string, Value>): (r: map<string, Value>)
    ensures r.Keys == fields.Keys + Sections
    ensures forall k :: k in Sections ==> FieldTruthy(r, k)
    ensures forall k :: k in Sections && FieldTruthy(fields, k) ==> r[k] == fields[k]
    ensures forall k :: k in Sections && !FieldTruthy(fields, k) ==> r[k] == DefaultOf(k)
    ensures forall k :: k in Sections ==> (r[k].Obj? <==> !FieldTruthy(fields, k) || fields[k].Obj?)
    ensures forall k :: k in fields && k !in Sections ==> r[k] == fields[k]
  {
    map k | k in fields.Keys + Sections :: FilledAt(fields, k)
  }

  /** Filling in defaults a second time changes nothing: every section is truthy after the first. */
  lemma WithDefaultsIdempotent(fields: map<string, Value>)
    ensures WithDefaults(WithDefaults(fields)) == WithDefaults(fields)
  {
    var once := WithDefaults(fields);
    var twice := WithDefaults(once);
    forall k | k in twice.Keys ensures k in once && twice[k] == once[k] {
      if k in Sections {
        assert FieldTruthy(once, k);
      }
    }
  }

  /** The four guarded statements, in the order the source runs them. */
  function FillAll(fields: map<string, Value>): map<string, Value> {
    FillSection(FillSection(FillSection(FillSection(fields, StreakSystem), MessageLeaderSystem),
                            LevelSystem), ReportSettings)
  }

  lemma FillAllAt(fields: map<string, Value>, k: string)
    requires k in fields || k in Sections
    ensures k in FillAll(fields) && FillAll(fields)[k] == FilledAt(fields, k)
  {
    var r1 := FillSection(fields, StreakSystem);
    var r2 := FillSection(r1, MessageLeaderSystem);
    var r3 := FillSection(r2, LevelSystem);
    FillSectionFrame(fields, StreakSystem);
    FillSectionFrame(r1, MessageLeaderSystem);
    FillSectionFrame(r2, LevelSystem);
    FillSectionFrame(r3, ReportSettings);
    SectionNameLengths();
    if k == StreakSystem {
    } else if k == MessageLeaderSystem {
    } else if k == LevelSystem {
    } else if k == ReportSettings {
    } else {
      assert k !in Sections;
    }
  }

  /** Running the four guarded statements in order computes WithDefaults. */
  lemma FillInOrder(fields: map<string, Value>)
    ensures FillAll(fields) == WithDefaults(fields)
  {
    var spec := WithDefaults(fields);
    forall k | k in spec ensures k in FillAll(fields) && FillAll(fields)[k] == spec[k] {
      FillAllAt(fields, k);
    }
    forall k | k in FillAll(fields) ensures k in spec {
      FillSectionFrame(fields, StreakSystem);
      FillSectionFrame(FillSection(fields, StreakSystem), MessageLeaderSystem);
      FillSectionFrame(FillSection(FillSection(fields, StreakSystem), MessageLeaderSystem), LevelSystem);
      FillSectionFrame(FillSection(FillSection(FillSection(fields, StreakSystem), MessageLeaderSystem), LevelSystem), ReportSettings);
    }
  }

  /** The JavaScript object passed to ensureConfigStructure, whose properties it assigns in place. */
  class ConfigObject {
    var fields: map<string, Value>

    constructor (fields: map<string, Value>)
      ensures this.fields == fields
    {
      this.fields := fields;
    }
  }

  /** ensureConfigStructure: assigns a default to each falsy section of `config`, in place. */
  method EnsureConfigStructure(config: ConfigObject)
    modifies config
    ensures config.fields == WithDefaults(old(config.fields))
  {
    ghost var r0 := config.fields;
    if !FieldTruthy(config.fields, StreakSystem) {
      config.fields := config.fields[StreakSystem := StreakDefault];
    }
    ghost var r1 := config.fields;
    assert r1 == FillSection(r0, StreakSystem);
    if !FieldTruthy(config.fields, MessageLeaderSystem) {
      config.fields := config.fields[MessageLeaderSystem := MessageLeaderDefault];
    }
    ghost var r2 := config.fields;
    assert r2 == FillSection(r1, MessageLeaderSystem);
    if !FieldTruthy(config.fields, LevelSystem) {
      config.fields := config.fields[LevelSystem := LevelDefault];
    }
    ghost var r3 := config.fields;
    assert r3 == FillSection(r2, LevelSystem);
    if !FieldTruthy(config.fields, ReportSettings) {
      config.fields := config.fields[ReportSettings := ReportDefault];
    }
    assert config.fields == FillSection(r3, ReportSettings);
    FillInOrder(r0);
  }

  // ---------------------------------------------------------------------------
  // Persistence
  // ---------------------------------------------------------------------------

  /** A file path as its sequence of segments, before any normalisation. */
  type Path = seq<string>

  /** What the file system holds at a path: a JSON document, or a file that fails to read or parse. */
  datatype Entry = Document(content: Value) | Unreadable(fault: Fault)

  /** The file system, as far as these two functions can observe it. */
  type FileStore = map<Path, Entry>

  /** `path.join(__dirname, '..', 'databases', guildId, 'config.json')`. */
  function ConfigPath(moduleDir: Path, guildId: string): (p: Path)
    ensures |p| == |moduleDir| + 4 && p[..|moduleDir|] == moduleDir
    ensures p[|p| - 2] == guildId && p[|p| - 1] == "config.json"
  {
    moduleDir + ["..", "databases", guildId, "config.json"]
  }

  /** Distinct guilds never share a configuration file. */
  lemma ConfigPathInjective(moduleDir: Path, g1: string, g2: string)
    requires ConfigPath(moduleDir, g1) == ConfigPath(moduleDir, g2)
    ensures g1 == g2
  {
    var p := ConfigPath(moduleDir, g1);
    assert p[|p| - 2] == g1;
  }

  /**
   * getConfig: a missing file resolves to `null`, a stored document resolves
   * to itself, and a read or parse failure is rethrown unchanged. A stored
   * document that is itself `null` looks the same as a missing file.
   */
  function GetConfig(store: FileStore, moduleDir: Path, guildId: string): (r: Result<Value>)
    ensures ConfigPath(moduleDir, guildId) !in store ==> r == Success(Null)
    ensures ConfigPath(moduleDir, guildId) in store ==>
      match store[ConfigPath(moduleDir, guildId)]
      case Document(v) => r == Success(v)
      case Unreadable(f) => r == Failure(f)
  {
    var path := ConfigPath(moduleDir, guildId);
    if path in store then
      match store[path]
      case Document(v) => Success(v)
      case Unreadable(f) => Failure(f)
    else
      Success(Null)
  }

  /**
   * saveConfig: writes `config` at the guild's path, replacing whatever was
   * there, or rethrows the write failure unchanged (`writeFault`). What a
   * failed write leaves on disk is not modelled.
   */
  function SaveConfig(store: FileStore, moduleDir: Path, guildId: string, config: Value,
                      writeFault: Option<Fault>): (r: Result<FileStore>)
    ensures writeFault.Some? ==> r == Failure(writeFault.value)
    ensures writeFault.None? ==> r.Success? && r.value.Keys == store.Keys + {ConfigPath(moduleDir, guildId)}
  {
    match writeFault
    case Some(f) => Failure(f)
    case None => Success(store[ConfigPath(moduleDir, guildId) := Document(config)])
  }

  /** getConfig reads back exactly what a successful saveConfig wrote for the same guild. */
  lemma SaveThenGet(store: FileStore, moduleDir: Path, guildId: string, config: Value)
    ensures SaveConfig(store, moduleDir, guildId, config, None).Success?
    ensures GetConfig(SaveConfig(store, moduleDir, guildId, config, None).value, moduleDir, guildId)
            == Success(config)
  {
  }

  /** Saving one guild's configuration does not change what getConfig returns for another. */
  lemma SaveIsolatesGuilds(store: FileStore, moduleDir: Path, guildId: string, other: string,
                           config: Value)
    requires other != guildId
    ensures SaveConfig(store, moduleDir, guildId, config, None).Success?
    ensures GetConfig(SaveConfig(store, moduleDir, guildId, config, None).value, moduleDir, other)
            == GetConfig(store, moduleDir, other)
  {
    if ConfigPath(moduleDir, other) == ConfigPath(moduleDir, guildId) {
      ConfigPathInjective(moduleDir, other, guildId);
    }
  }

  /** A guild with no configuration file reads as `null`, without failing. */
  lemma MissingConfigIsNull(store: FileStore, moduleDir: Path, guildId: string)
    requires ConfigPath(moduleDir, guildId) !in store
    ensures GetConfig(store, moduleDir, guildId) == Success(Null)
  {
  }
}
