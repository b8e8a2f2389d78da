/**
 * The four spiking-network graphs a run produces, named by whether they
 * have adaptation and whether radiation is applied to them
 * (src/snncompare/helper.py).
 */
module GraphRoles {
  import opened PyValues

  const SnnAlgoGraph: string := "snn_algo_graph"
  const RadSnnAlgoGraph: string := "rad_snn_algo_graph"
  const AdaptedSnnGraph: string := "adapted_snn_graph"
  const RadAdaptedSnnGraph: string := "rad_adapted_snn_graph"

  /** The names of the four roles. */
  predicate IsSnnGraphName(name: string)
  {
    name == SnnAlgoGraph || name == RadSnnAlgoGraph || name == AdaptedSnnGraph || name == RadAdaptedSnnGraph
  }

  /** `get_snn_graph_name(with_adaptation, with_radiation)` */
  function GetSnnGraphName(withAdaptation: bool, withRadiation: bool): (name: string)
    ensures IsSnnGraphName(name)
    ensures (withAdaptation <==> name in [AdaptedSnnGraph, RadAdaptedSnnGraph])
    ensures (withRadiation <==> name in [RadSnnAlgoGraph, RadAdaptedSnnGraph])
  {
    if withAdaptation then
      if withRadiation then RadAdaptedSnnGraph else AdaptedSnnGraph
    else if withRadiation then RadSnnAlgoGraph
    else SnnAlgoGraph
  }

  /** `get_with_adaptation_bool(graph_name)`: any other name is not supported. */
  function GetWithAdaptationBool(graphName: string): (r: Result<bool>)
    ensures r.Ok? <==> IsSnnGraphName(graphName)
    ensures r.Err? ==> r.error == NotImplementedError
    ensures r.Ok? ==> (r.value <==> graphName == AdaptedSnnGraph || graphName == RadAdaptedSnnGraph)
  {
    if graphName in [AdaptedSnnGraph, RadAdaptedSnnGraph] then Ok(true)
    else if graphName in [SnnAlgoGraph, RadSnnAlgoGraph] then Ok(false)
    else Err(NotImplementedError)
  }

  /** `get_with_radiation_bool(graph_name)`: any other name is not supported. */
  function GetWithRadiationBool(graphName: string): (r: Result<bool>)
    ensures r.Ok? <==> IsSnnGraphName(graphName)
    ensures r.Err? ==> r.error == NotImplementedError
    ensures r.Ok? ==> (r.value <==> graphName == RadSnnAlgoGraph || graphName == RadAdaptedSnnGraph)
  {
    if graphName in [RadSnnAlgoGraph, RadAdaptedSnnGraph] then Ok(true)
    else if graphName in [SnnAlgoGraph, AdaptedSnnGraph] then Ok(false)
    else Err(NotImplementedError)
  }

  /** Naming a role and reading its flags back gives the flags it was named by. */
  lemma FlagsOfName(withAdaptation: bool, withRadiation: bool)
    ensures GetWithAdaptationBool(GetSnnGraphName(withAdaptation, withRadiation)) == Ok(withAdaptation)
    ensures GetWithRadiationBool(GetSnnGraphName(withAdaptation, withRadiation)) == Ok(withRadiation)
  {
  }

  /** Every supported name is the name of the role its flags describe. */
  lemma NameOfFlags(graphName: string)
    requires IsSnnGraphName(graphName)
    ensures GetSnnGraphName(GetWithAdaptationBool(graphName).value, GetWithRadiationBool(graphName).value) == graphName
  {
  }

  /** Different flags give different names. */
  lemma SnnGraphNameInjective(a: bool, r: bool, a': bool, r': bool)
    requires GetSnnGraphName(a, r) == GetSnnGraphName(a', r')
    ensures a == a' && r == r'
  {
    FlagsOfName(a, r);
    FlagsOfName(a', r');
  }

  /**
   * `get_snn_graph_names()`: the names of all four roles, adaptation in the
   * outer loop and radiation in the inner one, each as the false case first.
   */
  method GetSnnGraphNames() returns (graphNames: seq<string>)
    ensures graphNames == [GetSnnGraphName(false, false), GetSnnGraphName(false, true),
                           GetSnnGraphName(true, false), GetSnnGraphName(true, true)]
    ensures |graphNames| == 4
    ensures forall name :: name in graphNames <==> IsSnnGraphName(name)
    ensures forall i, j :: 0 <= i < j < |graphNames| ==> graphNames[i] != graphNames[j]
  {
    var flags := [false, true];
    graphNames := [];
    for i := 0 to |flags|
      invariant graphNames == seq(2 * i, k requires 0 <= k < 2 * i => GetSnnGraphName(flags[k / 2], flags[k % 2]))
    {
      var withAdaptation := flags[i];
      for j := 0 to |flags|
        invariant graphNames == seq(2 * i + j, k requires 0 <= k < 2 * i + j => GetSnnGraphName(flags[k / 2], flags[k % 2]))
      {
        var withRadiation := flags[j];
        var graphName := GetSnnGraphName(withAdaptation, withRadiation);
        graphNames := graphNames + [graphName];
      }
    }
    assert graphNames == [SnnAlgoGraph, RadSnnAlgoGraph, AdaptedSnnGraph, RadAdaptedSnnGraph];
  }

  /** `get_snn_graph_from_graphs_dict`: the graph stored under the role's name. */
  function GetSnnGraphFromGraphsDict(withAdaptation: bool, withRadiation: bool, graphsDict: Dict): (r: Result<Value>)
    ensures r.Ok? <==> GetSnnGraphName(withAdaptation, withRadiation) in Keys(graphsDict)
    ensures r.Ok? ==> Get(graphsDict, GetSnnGraphName(withAdaptation, withRadiation)) == Some(r.value)
    ensures r.Err? ==> r.error == KeyError(GetSnnGraphName(withAdaptation, withRadiation))
  {
    var graphName := GetSnnGraphName(withAdaptation, withRadiation);
    match Get(graphsDict, graphName)
    case Some(graph) => Ok(graph)
    case None => Err(KeyError(graphName))
  }
}
