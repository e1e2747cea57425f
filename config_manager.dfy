/**
 * The configuration store (config_manager.py): one shared manager that
 * caches the JSON file, re-reads it when its modification time advances,
 * and lays the defaults under whatever the file holds. The file is an
 * abstract state: whether it exists, its modification time, and what
 * `json.load` makes of it. The clock is a parameter.
 */
module ConfigManager {
  import opened Common
  import opened JsonValue

  /** `DEFAULT_CONFIG` */
  const DefaultConfig: map<string, Json> := map[
    "model_name" := JStr("gemini-2.5-flash"),
    "temperature" := JReal(0.7),
    "customized_scoring_method" := JBool(false),
    "cache_ttl_hours" := JInt(240),
    "enable_daily_limit" := JBool(true),
    "whitelist_emails" := JArr([]),
    "enable_geoapify" := JBool(true),
    "enable_rentcast" := JBool(true),
    "enable_census" := JBool(true),
    "enable_llm" := JBool(true)
  ]

  /** What reading the file gives: an error (unreadable, not JSON) or the loaded value. */
  datatype Content = ReadError | Loaded(value: Json)

  /** The configuration file on disk. */
  datatype FileState = FileState(present: bool, mtime: real, content: Content)

  /** What writing the file does: it fails, or it succeeds and the file gets this modification time. */
  datatype WriteOutcome = WriteFails | Written(mtime: real)

  /** The manager's fields: the cached file value, the last seen modification time and the last load time. */
  datatype CacheState = CacheState(cache: Json, lastMtime: real, lastLoadTime: real)

  /** The class attributes before any load: an empty cache and times 0. */
  const InitialState := CacheState(JObj(map[]), 0.0, 0.0)

  /** `DEFAULT_CONFIG.copy()` updated with the cache; None when the cache is not a dictionary and `update` raises. */
  function Merge(cache: Json): Option<map<string, Json>> {
    if cache.JObj? then Some(DefaultConfig + cache.fields) else None
  }

  /** The file is re-read when it is newer than the last load or the cache is empty. */
  predicate NeedsReload(file: FileState, s: CacheState) {
    file.mtime > s.lastMtime || !Truthy(s.cache)
  }

  /** `get_config` as a step: the configuration returned and the manager's new fields. */
  function GetConfigStep(s: CacheState, file: FileState, now: real): (map<string, Json>, CacheState) {
    if !file.present then (DefaultConfig, s)
    else
      var s1 := if NeedsReload(file, s) && file.content.Loaded? then CacheState(file.content.value, file.mtime, now) else s;
      if NeedsReload(file, s) && file.content.ReadError? then (DefaultConfig, s)
      else
        var merged := Merge(s1.cache);
        (if merged.Some? then merged.value else DefaultConfig, s1)
  }

  /** The shared manager object. */
  class Manager {
    var cache: Json
    var lastMtime: real
    var lastLoadTime: real

    function State(): CacheState
      reads this
    {
      CacheState(cache, lastMtime, lastLoadTime)
    }

    constructor()
      ensures State() == InitialState
    {
      cache := JObj(map[]);
      lastMtime := 0.0;
      lastLoadTime := 0.0;
    }

    /** `get_config` */
    method GetConfig(file: FileState, now: real) returns (config: map<string, Json>)
      modifies this
      ensures (config, State()) == GetConfigStep(old(State()), file, now)
    {
      if !file.present {
        return DefaultConfig;
      }
      var mtime := file.mtime;
      if mtime > lastMtime || !Truthy(cache) {
        if file.content.ReadError? {
          return DefaultConfig;
        }
        cache := file.content.value;
        lastMtime := mtime;
        lastLoadTime := now;
      }
      if !cache.JObj? {
        return DefaultConfig;
      }
      config := DefaultConfig;
      config := config + cache.fields;
    }

    /** `save_config`: on success the file and the cache both hold the new configuration. */
    method SaveConfig(newConfig: map<string, Json>, file: FileState, write: WriteOutcome, now: real)
      returns (ok: bool, file': FileState)
      modifies this
      ensures ok <==> write.Written?
      ensures ok ==> && State() == CacheState(JObj(newConfig), write.mtime, now)
                     && file' == FileState(true, write.mtime, Loaded(JObj(newConfig)))
      ensures !ok ==> State() == old(State()) && file' == file
    {
      if write.WriteFails? {
        return false, file;
      }
      file' := FileState(true, write.mtime, Loaded(JObj(newConfig)));
      cache := JObj(newConfig);
      lastMtime := write.mtime;
      lastLoadTime := now;
      return true, file';
    }
  }

  /** The class object holding `_instance`. */
  class ManagerClass {
    var instance: Manager?

    constructor()
      ensures instance == null
    {
      instance := null;
    }

    /**
     * `ConfigManager()`: the one instance, created on the first call, which
     * then writes the defaults when the file does not exist.
     */
    method New(file: FileState, write: WriteOutcome, now: real) returns (m: Manager, file': FileState)
      modifies this
      ensures instance == m
      ensures old(instance) != null ==> m == old(instance) && file' == file
      ensures old(instance) == null ==> fresh(m)
      ensures old(instance) == null && file.present ==> m.State() == InitialState && file' == file
      ensures old(instance) == null && !file.present && write.Written? ==>
                && m.State() == CacheState(JObj(DefaultConfig), write.mtime, now)
                && file' == FileState(true, write.mtime, Loaded(JObj(DefaultConfig)))
      ensures old(instance) == null && !file.present && write.WriteFails? ==> m.State() == InitialState && file' == file
    {
      file' := file;
      if instance == null {
        m := new Manager();
        instance := m;
        if !file.present {
          var _, f := m.SaveConfig(DefaultConfig, file, write, now);
          file' := f;
        }
      }
      m := instance;
    }
  }

  /** Every configuration returned holds every default key, on every path. */
  lemma GetConfigHasDefaults(s: CacheState, file: FileState, now: real)
    ensures DefaultConfig.Keys <= GetConfigStep(s, file, now).0.Keys
  {
  }

  /** Values from the file override the defaults, defaults fill the rest, and extra keys are kept. */
  lemma MergeOverrides(fields: map<string, Json>)
    ensures Merge(JObj(fields)).Some?
    ensures var c := Merge(JObj(fields)).value;
            && c.Keys == DefaultConfig.Keys + fields.Keys
            && (forall k :: k in fields ==> c[k] == fields[k])
            && (forall k :: k in DefaultConfig && k !in fields ==> c[k] == DefaultConfig[k])
  {
  }

  /** A missing file gives the defaults and leaves the manager as it was. */
  lemma MissingFile(s: CacheState, file: FileState, now: real)
    requires !file.present
    ensures GetConfigStep(s, file, now) == (DefaultConfig, s)
  {
  }

  /** A file no newer than the last load, with a non-empty cache, is not read: the cache is reused. */
  lemma CacheReused(s: CacheState, file: FileState, now: real)
    requires file.present && file.mtime <= s.lastMtime && Truthy(s.cache) && s.cache.JObj?
    ensures GetConfigStep(s, file, now) == (DefaultConfig + s.cache.fields, s)
  {
  }

  /** A newer file that loads as an object replaces the cache, records its time, and is what is returned. */
  lemma NewerFileReloaded(s: CacheState, file: FileState, fields: map<string, Json>, now: real)
    requires file.present && file.mtime > s.lastMtime && file.content == Loaded(JObj(fields))
    ensures GetConfigStep(s, file, now) == (DefaultConfig + fields, CacheState(JObj(fields), file.mtime, now))
  {
  }

  /** A failed read returns the defaults and keeps the old cache and time. */
  lemma ReadFailure(s: CacheState, file: FileState, now: real)
    requires file.present && NeedsReload(file, s) && file.content.ReadError?
    ensures GetConfigStep(s, file, now) == (DefaultConfig, s)
  {
  }

  /**
   * After a successful save, reading the same file gives the saved values over
   * the defaults, whether or not the (possibly empty) cache forces a reload.
   */
  lemma SaveThenGet(newConfig: map<string, Json>, mtime: real, now: real, later: real)
    ensures var s := CacheState(JObj(newConfig), mtime, now);
            var file := FileState(true, mtime, Loaded(JObj(newConfig)));
            GetConfigStep(s, file, later).0 == DefaultConfig + newConfig
  {
  }

  /**
   * The reload scenario: a configuration loaded at time `t`, then the file
   * rewritten with a new model name at a later time, is picked up by the next read.
   */
  lemma ExternalEditPickedUp(fields: map<string, Json>, t: real, t2: real, now: real, name: string)
    requires t2 > t
    ensures var s := CacheState(JObj(fields), t, now);
            var edited := fields["model_name" := JStr(name)];
            var file := FileState(true, t2, Loaded(JObj(edited)));
            GetConfigStep(s, file, now).0["model_name"] == JStr(name)
  {
  }
}
