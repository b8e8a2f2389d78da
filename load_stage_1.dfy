/**
 * Loading the stored output of stage 1 for a run configuration
 * (src/snncompare/import_results/stage_1_load_input_graphs.py): the JSON
 * file is found by the filename derived from the configuration, its stored
 * run configuration is turned back into a `Run_config` object and must match
 * the current one apart from the unique id, and its graphs must be complete.
 */
module LoadStage1 {
  import opened PyValues
  import opened Environment
  import opened ExportResultsHelper
  import opened ConfigEquality
  import opened VerifyStage1

  const ResultsDir: string := "results/"
  const JsonExtension: string := ".json"
  const RunConfigKey: string := "run_config"
  const GraphsDictKey: string := "graphs_dict"
  const RunConfigClass: string := "Run_config"

  /** The path the stage-1 results of a configuration with this filename are stored under. */
  function Stage1JsonPath(filename: string): string
  {
    ResultsDir + filename + JsonExtension
  }

  /**
   * What `load_results_stage_1` returns or raises, given the dictionary the
   * JSON file holds.
   */
  function CheckLoaded(runConfig: Dict, loaded: Dict, env: Collaborators): Result<Dict>
  {
    match Get(loaded, RunConfigKey)
    case None => Err(KeyError(RunConfigKey))
    case Some(stored) =>
      if !stored.VDict? then Err(TypeError)
      else
        var stage1Dict := Set(loaded, RunConfigKey, VObject(RunConfigClass, stored.entries));
        if !DictsAreEqual(runConfig, stored.entries, true) then Err(Exception(RunConfigMismatch))
        else
          match Get(stage1Dict, GraphsDictKey)
          case None => Err(KeyError(GraphsDictKey))
          case Some(graphs) =>
            if !graphs.VDict? then Err(TypeError)
            else if !GraphsPresent(runConfig, graphs.entries, env) then Err(Exception(GraphMissing))
            else Ok(stage1Dict)
  }

  /** What `load_results_stage_1(run_config)` returns or raises. */
  function LoadStage1Spec(runConfig: Dict, env: Collaborators): Result<Dict>
  {
    LoadWithFilename(runConfig, RunConfigToFilename(runConfig), env)
  }

  /** The rest of the load, once the filename is derived (or failed to be). */
  function LoadWithFilename(runConfig: Dict, filename: Result<string>, env: Collaborators): Result<Dict>
  {
    match filename
    case Err(e) => Err(e)
    case Ok(name) =>
      if JsonExtension !in env.getExtensionsList(runConfig, 1) then Err(UnboundLocalError("filepath"))
      else
        match env.loadResultsFromJson(Stage1JsonPath(name), runConfig)
        case Err(e) => Err(e)
        case Ok(loaded) => CheckLoaded(runConfig, loaded, env)
  }

  /**
   * `load_results_stage_1(run_config)`: the filepath is the last `.json`
   * extension's path, and is unbound when the extensions hold none.
   */
  method LoadResultsStage1(runConfig: Dict, env: Collaborators) returns (r: Result<Dict>)
    ensures r == LoadStage1Spec(runConfig, env)
  {
    var filename := RunConfigToFilename(runConfig);
    r := LoadFromFile(runConfig, filename, env);
  }

  method LoadFromFile(runConfig: Dict, filename: Result<string>, env: Collaborators) returns (r: Result<Dict>)
    ensures r == LoadWithFilename(runConfig, filename, env)
  {
    var stageIndex := 1;
    if filename.Err? {
      return Err(filename.error);
    }
    var extensions := env.getExtensionsList(runConfig, stageIndex);
    var filepath := FindJsonFilepath(extensions, filename.value);
    if filepath.None? {
      return Err(UnboundLocalError("filepath"));
    }
    var loaded := env.loadResultsFromJson(filepath.value, runConfig);
    if loaded.Err? {
      return Err(loaded.error);
    }
    r := ConvertAndVerify(runConfig, loaded.value, env);
  }

  /** The loop over the extensions: the `.json` one gives the path. */
  method FindJsonFilepath(extensions: seq<string>, filename: string) returns (filepath: Option<string>)
    ensures filepath.None? <==> JsonExtension !in extensions
    ensures filepath.Some? ==> filepath.value == Stage1JsonPath(filename)
  {
    filepath := None;
    for i := 0 to |extensions|
      invariant filepath.None? <==> JsonExtension !in extensions[..i]
      invariant filepath.Some? ==> filepath.value == Stage1JsonPath(filename)
    {
      assert extensions[..i + 1] == extensions[..i] + [extensions[i]];
      if extensions[i] == JsonExtension {
        filepath := Some(ResultsDir + filename + extensions[i]);
      }
    }
    assert extensions[..|extensions|] == extensions;
  }

  /** Rebuilding the `Run_config` object and checking it and the graphs. */
  method ConvertAndVerify(runConfig: Dict, loaded: Dict, env: Collaborators) returns (r: Result<Dict>)
    ensures r == CheckLoaded(runConfig, loaded, env)
  {
    var stage1Dict := loaded;
    var stored := Get(stage1Dict, RunConfigKey);
    if stored.None? {
      return Err(KeyError(RunConfigKey));
    }
    if !stored.value.VDict? {
      return Err(TypeError);
    }
    stage1Dict := Set(stage1Dict, RunConfigKey, VObject(RunConfigClass, stored.value.entries));
    if !DictsAreEqual(runConfig, stored.value.entries, true) {
      return Err(Exception(RunConfigMismatch));
    }
    var graphs := Get(stage1Dict, GraphsDictKey);
    if graphs.None? {
      return Err(KeyError(GraphsDictKey));
    }
    if !graphs.value.VDict? {
      return Err(TypeError);
    }
    var outcome := AssertGraphsAreInDict(runConfig, graphs.value.entries, 1, env);
    if outcome.Fail? {
      return Err(outcome.error);
    }
    return Ok(stage1Dict);
  }

  // ---------------------------------------------------------------------
  // What a successful load guarantees
  // ---------------------------------------------------------------------

  /**
   * A successful load read the file `results/<filename>.json` of this very
   * configuration, and returns what that file holds with its run
   * configuration replaced by a `Run_config` object over the stored fields;
   * those fields equal the current configuration apart from the unique id.
   */
  lemma LoadedFromOwnFile(runConfig: Dict, env: Collaborators)
    requires LoadStage1Spec(runConfig, env).Ok?
    ensures RunConfigToFilename(runConfig).Ok? && JsonExtension in env.getExtensionsList(runConfig, 1)
    ensures var loaded := env.loadResultsFromJson(Stage1JsonPath(RunConfigToFilename(runConfig).value), runConfig);
      && loaded.Ok?
      && RunConfigKey in Keys(loaded.value)
      && Get(loaded.value, RunConfigKey).value.VDict?
      && var fields := Get(loaded.value, RunConfigKey).value.entries;
      && DictsAreEqual(runConfig, fields, true)
      && LoadStage1Spec(runConfig, env).value == Set(loaded.value, RunConfigKey, VObject(RunConfigClass, fields))
  {
    LoadedFromFile(runConfig, RunConfigToFilename(runConfig), env);
  }

  lemma LoadedFromFile(runConfig: Dict, filename: Result<string>, env: Collaborators)
    requires LoadWithFilename(runConfig, filename, env).Ok?
    ensures filename.Ok? && JsonExtension in env.getExtensionsList(runConfig, 1)
    ensures var loaded := env.loadResultsFromJson(Stage1JsonPath(filename.value), runConfig);
      && loaded.Ok?
      && RunConfigKey in Keys(loaded.value)
      && Get(loaded.value, RunConfigKey).value.VDict?
      && var fields := Get(loaded.value, RunConfigKey).value.entries;
      && DictsAreEqual(runConfig, fields, true)
      && LoadWithFilename(runConfig, filename, env).value == Set(loaded.value, RunConfigKey, VObject(RunConfigClass, fields))
  {
  }

  /** A successful load holds a complete set of stage-1 graphs and a `Run_config` object. */
  lemma LoadedGraphsComplete(runConfig: Dict, env: Collaborators)
    requires LoadStage1Spec(runConfig, env).Ok?
    ensures var result := LoadStage1Spec(runConfig, env).value;
      && Get(result, RunConfigKey).Some? && Get(result, RunConfigKey).value.VObject?
      && Get(result, RunConfigKey).value.cls == RunConfigClass
      && Get(result, GraphsDictKey).Some? && Get(result, GraphsDictKey).value.VDict?
      && GraphsPresent(runConfig, Get(result, GraphsDictKey).value.entries, env)
  {
    var filename := RunConfigToFilename(runConfig);
    LoadedFromFile(runConfig, filename, env);
    var loaded := env.loadResultsFromJson(Stage1JsonPath(filename.value), runConfig).value;
    CheckedGraphsComplete(runConfig, loaded, env);
  }

  lemma CheckedGraphsComplete(runConfig: Dict, loaded: Dict, env: Collaborators)
    requires CheckLoaded(runConfig, loaded, env).Ok?
    ensures var result := CheckLoaded(runConfig, loaded, env).value;
      && Get(result, RunConfigKey).Some? && Get(result, RunConfigKey).value.VObject?
      && Get(result, RunConfigKey).value.cls == RunConfigClass
      && Get(result, GraphsDictKey).Some? && Get(result, GraphsDictKey).value.VDict?
      && GraphsPresent(runConfig, Get(result, GraphsDictKey).value.entries, env)
  {
    var stored := Get(loaded, RunConfigKey).value;
    GetSet(loaded, RunConfigKey, VObject(RunConfigClass, stored.entries), RunConfigKey);
  }

  /** A stored configuration that differs from the current one only in its unique id is accepted. */
  lemma UniqueIdDoesNotMatter(runConfig: Dict, env: Collaborators, loaded: Dict, id: Value)
    requires RunConfigKey in Keys(loaded) && Get(loaded, RunConfigKey).value == VDict(Set(runConfig, UniqueIdKey, id))
    ensures CheckLoaded(runConfig, loaded, env) != Err(Exception(RunConfigMismatch))
  {
    UniqueIdIgnoredOnRight(runConfig, id);
  }

  /**
   * For configurations that hold each key once, the stored one is refused as
   * a mismatch exactly when its settings, apart from the unique id and in
   * whatever order, disagree with the current ones.
   */
  lemma MismatchIffSettingsDisagree(runConfig: Dict, env: Collaborators, loaded: Dict)
    requires RunConfigKey in Keys(loaded) && Get(loaded, RunConfigKey).value.VDict?
    requires DistinctKeys(runConfig) && DistinctKeys(Get(loaded, RunConfigKey).value.entries)
    ensures CheckLoaded(runConfig, loaded, env) == Err(Exception(RunConfigMismatch))
      <==> !SettingsAgree(runConfig, Get(loaded, RunConfigKey).value.entries)
  {
    DictsAreEqualIffSettingsAgree(runConfig, Get(loaded, RunConfigKey).value.entries);
  }

  /** A stored configuration missing a setting of the current one, other than the unique id, is refused. */
  lemma MismatchRefused(runConfig: Dict, env: Collaborators, loaded: Dict, k: string)
    requires RunConfigKey in Keys(loaded) && Get(loaded, RunConfigKey).value.VDict?
    requires k != UniqueIdKey && k in Keys(runConfig) && k !in Keys(Get(loaded, RunConfigKey).value.entries)
    ensures CheckLoaded(runConfig, loaded, env) == Err(Exception(RunConfigMismatch))
  {
    MissingSettingDetected(runConfig, Get(loaded, RunConfigKey).value.entries, true, k);
  }

  /** A stored configuration holding a setting the current one lacks, other than the unique id, is refused. */
  lemma ExtraSettingRefused(runConfig: Dict, env: Collaborators, loaded: Dict, k: string)
    requires RunConfigKey in Keys(loaded) && Get(loaded, RunConfigKey).value.VDict?
    requires k != UniqueIdKey && k !in Keys(runConfig) && k in Keys(Get(loaded, RunConfigKey).value.entries)
    requires DistinctKeys(runConfig)
    ensures CheckLoaded(runConfig, loaded, env) == Err(Exception(RunConfigMismatch))
  {
    ExtraSettingDetected(runConfig, Get(loaded, RunConfigKey).value.entries, true, k);
  }

  /** A stored configuration holding a setting with a value unequal to the current one's, other than the unique id, is refused. */
  lemma ChangedSettingRefused(runConfig: Dict, env: Collaborators, loaded: Dict, k: string)
    requires RunConfigKey in Keys(loaded) && Get(loaded, RunConfigKey).value.VDict?
    requires var stored := Get(loaded, RunConfigKey).value.entries;
      && k != UniqueIdKey && k in Keys(runConfig) && k in Keys(stored) && DistinctKeys(stored)
      && !Eq(Get(runConfig, k).value, Get(stored, k).value)
    ensures CheckLoaded(runConfig, loaded, env) == Err(Exception(RunConfigMismatch))
  {
    ChangedSettingDetected(runConfig, Get(loaded, RunConfigKey).value.entries, true, k);
  }
}
