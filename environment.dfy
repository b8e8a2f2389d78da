/**
 * The functions the modelled code calls but whose source is not part of
 * this model. Each is a total function supplied by the caller; the model
 * assumes only that calling it has no side effect.
 */
module Environment {
  import opened PyValues

  datatype Collaborators = Collaborators(
    /** `has_adaptation(run_config)` of stage_1_get_input_graphs */
    hasAdaptation: Dict -> bool,
    /** `has_radiation(run_config)` of stage_1_get_input_graphs */
    hasRadiation: Dict -> bool,
    /** `get_sim_duration(input_graph, run_config)`, given the graph's attribute dictionary */
    getSimDuration: (Dict, Dict) -> int,
    /** `get_extensions_list(run_config, stage_index)` */
    getExtensionsList: (Dict, int) -> seq<string>,
    /** `load_results_from_json(filepath, run_config)`: the stored dictionary, or the exception it raises */
    loadResultsFromJson: (string, Dict) -> Result<Dict>
  )
}
