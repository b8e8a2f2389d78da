/**
 * Checking that the output of stage 1 holds every graph the run
 * configuration asks for (src/snncompare/export_results/verify_stage_1_graphs.py).
 * A run configuration is represented by its attribute dictionary; whether it
 * has adaptation or radiation is decided by the collaborators.
 */
module VerifyStage1 {
  import opened PyValues
  import opened Environment
  import opened GraphRoles

  const InputGraph: string := "input_graph"

  /**
   * `get_expected_stage_1_graph_names(run_config)`: the input graph and the
   * plain SNN always; the adapted SNN with adaptation; the radiated SNN with
   * radiation; the radiated adapted SNN with both.
   */
  function GetExpectedStage1GraphNames(runConfig: Dict, env: Collaborators): (names: seq<string>)
    ensures |names| >= 2 && names[0] == InputGraph && names[1] == SnnAlgoGraph
    ensures AdaptedSnnGraph in names <==> env.hasAdaptation(runConfig)
    ensures RadSnnAlgoGraph in names <==> env.hasRadiation(runConfig)
    ensures RadAdaptedSnnGraph in names <==> env.hasAdaptation(runConfig) && env.hasRadiation(runConfig)
    ensures forall name :: name in names ==> name == InputGraph || IsSnnGraphName(name)
    ensures forall i, j :: 0 <= i < j < |names| ==> names[i] != names[j]
    ensures |names| <= 5
  {
    var expected := [InputGraph, SnnAlgoGraph];
    var expected := if env.hasAdaptation(runConfig) then expected + [AdaptedSnnGraph] else expected;
    if env.hasRadiation(runConfig) then
      var expected := expected + [RadSnnAlgoGraph];
      if env.hasAdaptation(runConfig) then expected + [RadAdaptedSnnGraph] else expected
    else expected
  }

  /**
   * Stage 1 expects exactly the SNN roles the configuration enables: a role
   * with adaptation only when adaptation is on, with radiation only when
   * radiation is on.
   */
  lemma ExpectedRolesAreEnabledRoles(runConfig: Dict, env: Collaborators, withAdaptation: bool, withRadiation: bool)
    ensures GetSnnGraphName(withAdaptation, withRadiation) in GetExpectedStage1GraphNames(runConfig, env) <==>
      (withAdaptation ==> env.hasAdaptation(runConfig)) && (withRadiation ==> env.hasRadiation(runConfig))
  {
    var names := GetExpectedStage1GraphNames(runConfig, env);
    if !withAdaptation && !withRadiation {
      assert names[1] == SnnAlgoGraph;
    }
  }

  /** Turning on adaptation or radiation only adds expected names. */
  lemma ExpectedNamesMonotone(runConfig: Dict, env: Collaborators, env': Collaborators)
    requires env.hasAdaptation(runConfig) ==> env'.hasAdaptation(runConfig)
    requires env.hasRadiation(runConfig) ==> env'.hasRadiation(runConfig)
    ensures forall name :: name in GetExpectedStage1GraphNames(runConfig, env) ==> name in GetExpectedStage1GraphNames(runConfig, env')
  {
    var names' := GetExpectedStage1GraphNames(runConfig, env');
    assert names'[0] in names' && names'[1] in names';
  }

  /** All expected graph names are keys of `graphs`. */
  predicate GraphsPresent(runConfig: Dict, graphs: Dict, env: Collaborators)
  {
    forall name :: name in GetExpectedStage1GraphNames(runConfig, env) ==> name in Keys(graphs)
  }

  /** Having every expected graph, spelled out per role. */
  lemma GraphsPresentByRole(runConfig: Dict, graphs: Dict, env: Collaborators)
    ensures GraphsPresent(runConfig, graphs, env) <==>
      && InputGraph in Keys(graphs)
      && (forall a: bool, r: bool :: (a ==> env.hasAdaptation(runConfig)) && (r ==> env.hasRadiation(runConfig)) ==>
            GetSnnGraphName(a, r) in Keys(graphs))
  {
    var names := GetExpectedStage1GraphNames(runConfig, env);
    if GraphsPresent(runConfig, graphs, env) {
      assert names[0] in names;
      forall a: bool, r: bool | (a ==> env.hasAdaptation(runConfig)) && (r ==> env.hasRadiation(runConfig))
        ensures GetSnnGraphName(a, r) in Keys(graphs)
      {
        ExpectedRolesAreEnabledRoles(runConfig, env, a, r);
      }
    } else {
      var name :| name in names && name !in Keys(graphs);
      if name != InputGraph {
        NameOfFlags(name);
        var a := GetWithAdaptationBool(name).value;
        var r := GetWithRadiationBool(name).value;
        ExpectedRolesAreEnabledRoles(runConfig, env, a, r);
      }
    }
  }

  /**
   * `expected_graphs_are_in_dict(run_config, graphs, stage)`: only stage 1
   * is implemented; it tells whether every expected graph is in `graphs`.
   */
  function ExpectedGraphsAreInDict(runConfig: Dict, graphs: Dict, stage: int, env: Collaborators): (r: Result<bool>)
    ensures stage != 1 ==> r == Err(Exception(StageNotImplemented))
    ensures stage == 1 ==> r.Ok? && (r.value <==> forall name :: name in GetExpectedStage1GraphNames(runConfig, env) ==> name in Keys(graphs))
  {
    if stage == 1 then
      var expectedGraphs := GetExpectedStage1GraphNames(runConfig, env);
      Ok(AllIn(expectedGraphs, graphs))
    else Err(Exception(StageNotImplemented))
  }

  /** The loop over the expected names, returning false at the first one missing. */
  function AllIn(names: seq<string>, graphs: Dict): (r: bool)
    ensures r <==> forall name :: name in names ==> name in Keys(graphs)
  {
    if names == [] then true
    else if names[0] !in Keys(graphs) then
      assert names[0] in names;
      false
    else
      assert forall name :: name in names <==> name == names[0] || name in names[1..];
      AllIn(names[1..], graphs)
  }

  /** `assert_graphs_are_in_dict(run_config, graphs, stage)`: raises when a graph is missing. */
  function AssertGraphsAreInDict(runConfig: Dict, graphs: Dict, stage: int, env: Collaborators): (r: Outcome)
    ensures stage != 1 ==> r == Fail(Exception(StageNotImplemented))
    ensures stage == 1 ==> (r == Pass <==> GraphsPresent(runConfig, graphs, env))
    ensures stage == 1 && r.Fail? ==> r.error == Exception(GraphMissing)
  {
    match ExpectedGraphsAreInDict(runConfig, graphs, stage, env)
    case Err(e) => Fail(e)
    case Ok(present) => if !present then Fail(Exception(GraphMissing)) else Pass
  }

  /**
   * `verify_stage_1_graphs(exp_config, run_config, graphs)`: the graphs of
   * stage 1 must be complete. The experiment configuration is not consulted.
   */
  function VerifyStage1Graphs(runConfig: Dict, graphs: Dict, env: Collaborators): (r: Outcome)
    ensures r == Pass <==> GraphsPresent(runConfig, graphs, env)
    ensures r.Fail? ==> r.error == Exception(GraphMissing)
  {
    AssertGraphsAreInDict(runConfig, graphs, 1, env)
  }
}
