# snncompare bookkeeping, modelled in Dafny

snncompare runs spiking-neural-network versions of graph algorithms
(MDSA, a minimum dominating set approximation) through four stages and
stores what each stage produced. This project models the bookkeeping that
decides what a run has produced and what it is called:

- the `completed_stages` record a graph keeps, and the stages expected by
  a given stage (`src/snncompare/helper.py`);
- the four SNN graph roles, named by two flags (adaptation, radiation),
  and the check that a stage-1 graphs dictionary holds every role the run
  configuration asks for (`src/snncompare/helper.py`,
  `src/snncompare/export_results/verify_stage_1_graphs.py`);
- the identity of a run: flattening its configuration and rendering it as
  a filename, and the image paths stage 3 must produce
  (`src/snn_algo_compare/export_results/helper.py`);
- comparing configurations and loading the stored stage-1 results
  (`src/snncompare/helper.py`,
  `src/snncompare/import_results/stage_1_load_input_graphs.py`);
- the integer MDSA helpers: the simulation duration, the start numbers of
  the nodes, and the marking rounds for m > 0 (`src/snncompare/helper.py`).

Python values are the datatype `PyValues.Value`. A Python dict is an
association list `Dict` of key/value pairs in insertion order. Python `==`
on values is `PyValues.Eq`: a bool equals the integer it stands for
(`True == 1`), lists compare element by element, dicts compare regardless
of the order of their entries, and objects compare by class and fields.
Raised exceptions are the `Err`/`Fail` cases of `Result` and `Outcome`.
The functions the modelled code calls but whose source is not part of this
model are fields of `Environment.Collaborators`, passed in as parameters:
`has_adaptation`, `has_radiation`, `get_sim_duration`, `get_extensions_list`
and `load_results_from_json`.

A networkx graph is the class `Graphs.Graph`. It holds the graph-level
attribute dictionary (where `completed_stages` lives), the neighbours of
each node, and the integer node attributes of the marking rounds.
`add_stage_completion_to_graph` and `compute_marks_for_m_larger_than_one`
update these fields in place. The loops of `get_snn_graph_names`,
`get_expected_image_paths_stage_3` and `load_results_stage_1` are methods
with loops. Each is proved equal to a specification function, and lemmas
state what that function means.

Modules, one file each: `PyValues` (py_values.dfy), `Environment`
(environment.dfy), `Graphs` (graphs.dfy), `StageRecord`
(stage_record.dfy), `GraphRoles` (graph_roles.dfy), `ConfigEquality`
(config_equality.dfy), `ExportResultsHelper` (export_results_helper.dfy),
`VerifyStage1` (verify_stage_1_graphs.dfy), `LoadStage1`
(load_stage_1.dfy) and `MdsaHelpers` (mdsa_helpers.dfy).

## Model

| member | source | states |
|---|---|---|
| StageRecord.MarkStage | src/snncompare/helper.py:256-290 | Stage 1 succeeds iff there is no `completed_stages` key yet (ValueError otherwise) and leaves the record `[1]`. Any other stage fails with KeyError when the key is missing, from the lookup at src/snncompare/helper.py:275 before the type check, and TypeError when its value is not a list. Otherwise it fails with ValueError iff some recorded entry is Python-equal to the stage (so `True` counts as stage 1), and appends it when none is. No other attribute changes. |
| StageRecord.AddStageCompletionToGraph | src/snncompare/helper.py:256-290 | Updates the graph's attributes in place to the result of `MarkStage`. On an error the attributes are left as they were, and the same error is raised. |
| StageRecord.MarkStageKeepsRecordValid | src/snncompare/helper.py:283-290 | A record that is a list with no two Python-equal entries stays one after any successful marking: the record never holds a stage twice, even when counting `True` as 1. |
| StageRecord.MarkStageTwiceFails | src/snncompare/helper.py:266-287 | Marking the same stage twice in a row fails the second time with ValueError. |
| StageRecord.GetExpectedStages | src/snncompare/helper.py:336-349 | Holds exactly the integers 1..k other than 3, strictly increasing (so without duplicates). It is empty for k < 1. |
| StageRecord.ExpectedStagesStep | src/snncompare/helper.py:343-346 | Raising k by one appends k to the expected stages, except for k = 3. |
| StageRecord.MarkExpectedStages | src/snncompare/helper.py:256-349 | Marking the expected stages of k in order, on a graph without a record, succeeds. The record ends equal to `get_expected_stages(k)` and every other attribute is unchanged. |
| GraphRoles.GetSnnGraphName | src/snncompare/helper.py:403-415 | The name is one of the four role names. It is an adapted role iff adaptation is on, and a radiated role iff radiation is on. |
| GraphRoles.GetWithAdaptationBool | src/snncompare/helper.py:368-376 | Defined exactly on the four role names, with NotImplementedError for any other name. True exactly for the two adapted roles. |
| GraphRoles.GetWithRadiationBool | src/snncompare/helper.py:379-387 | Defined exactly on the four role names, with NotImplementedError for any other name. True exactly for the two radiated roles. |
| GraphRoles.FlagsOfName | src/snncompare/helper.py:368-415 | Reading the flags back from the name of (a, r) gives a and r. |
| GraphRoles.NameOfFlags | src/snncompare/helper.py:368-415 | Every role name is the name of the flags read from it, so names and flag pairs are in bijection. |
| GraphRoles.SnnGraphNameInjective | src/snncompare/helper.py:403-415 | Different flag pairs give different names. |
| GraphRoles.GetSnnGraphNames | src/snncompare/helper.py:418-431 | The nested loops return the four names in the order snn_algo_graph, rad_snn_algo_graph, adapted_snn_graph, rad_adapted_snn_graph. They are distinct, and a name is among them iff it is a role name. |
| GraphRoles.GetSnnGraphFromGraphsDict | src/snncompare/helper.py:390-400 | Returns the graph stored under the role's name. The lookup succeeds iff that name is a key; otherwise it raises KeyError of that name. |
| ConfigEquality.DictsAreEqual | src/snncompare/helper.py:352-365 | Python `==` of the two dicts, on copies without `unique_id` when `withoutUniqueId`. What that means is stated by the lemmas below: reflexivity, the ignored `unique_id`, and the missing, changed and extra settings that make two configurations unequal. |
| ConfigEquality.DictsAreEqualRefl | src/snncompare/helper.py:352-365 | Every configuration equals itself, with or without `unique_id`. |
| ConfigEquality.UniqueIdIgnored | src/snncompare/helper.py:357-364 | When `unique_id` is ignored, giving a configuration another `unique_id` keeps it equal to the original. |
| ConfigEquality.UniqueIdIgnoredOnRight | src/snncompare/helper.py:357-364 | The same, with the changed configuration on the right. |
| ConfigEquality.MissingSettingDetected | src/snncompare/helper.py:352-365 | A setting of the left configuration that the right one lacks makes them unequal. This holds for `unique_id` itself only when it is not ignored. |
| ConfigEquality.ChangedSettingDetected | src/snncompare/helper.py:352-365 | A setting both hold with unequal values makes them unequal. This holds for `unique_id` itself only when it is not ignored. |
| ConfigEquality.SettingsAgreeEqual | src/snncompare/helper.py:352-365 | Two configurations with distinct keys that hold the same settings apart from `unique_id`, with Python-equal values and in any order, compare equal when `unique_id` is ignored. |
| ConfigEquality.DictsAreEqualIffSettingsAgree | src/snncompare/helper.py:352-365 | For dictionaries with distinct keys, comparing without `unique_id` is true iff the settings other than `unique_id` agree in keys and, up to Python `==`, in values. |
| ConfigEquality.ExtraSettingDetected | src/snncompare/helper.py:352-365 | A setting of the right configuration that the left one (with distinct keys) lacks makes them unequal. This holds for `unique_id` itself only when it is not ignored. |
| ExportResultsHelper.FromItems | src/snn_algo_compare/export_results/helper.py:20 | `dict(items)` has distinct keys, and each of its entries is one of the items. |
| ExportResultsHelper.FromItemsLaterWins | src/snn_algo_compare/export_results/helper.py:20 | In `dict(items)` each key takes the value of its last item. |
| ExportResultsHelper.FromItemsDistinct | src/snn_algo_compare/export_results/helper.py:20 | `dict(items)` of items with distinct keys is those items in order. |
| ExportResultsHelper.Flatten | src/snn_algo_compare/export_results/helper.py:11-20 | The flattened dictionary has distinct keys and no value that is itself a dictionary. |
| ExportResultsHelper.FlattenSound | src/snn_algo_compare/export_results/helper.py:11-20 | Every entry of the flattened dictionary is a leaf of the nested one: a key path through nested dictionaries ends in its value, which is not a dictionary, and its key is the parent key and that path joined by `sep`. |
| ExportResultsHelper.FlattenKeys | src/snn_algo_compare/export_results/helper.py:11-20 | The joined key of every leaf of the nested dictionary is a key of the flattened one. |
| ExportResultsHelper.FlattenKeepsLeaves | src/snn_algo_compare/export_results/helper.py:11-20 | A leaf's joined key maps, in the flattened dictionary, to the value of the last item with that key. When no other leaf joins to the same key, that value is the leaf's own. |
| ExportResultsHelper.FromItemsKeys | src/snn_algo_compare/export_results/helper.py:20 | `dict(items)` has exactly the keys of the items. |
| ExportResultsHelper.FlattenIdentity | src/snn_algo_compare/export_results/helper.py:11-20 | Flattening a dictionary without nested dictionaries returns it unchanged. |
| ExportResultsHelper.FlattenExample | src/snn_algo_compare/export_results/helper.py:23-24 | The documented example flattens to the keys a, c_a, c_b_x, c_b_y and d, in that order, with the list kept as a leaf. The comment in the source lists `c_b_y` after `d`; the order proved is the insertion order Python produces, and the two dicts are equal under `==`, which ignores order. |
| ExportResultsHelper.PopAll | src/snn_algo_compare/export_results/helper.py:36-41 | Popping succeeds only when every key is present and then removes exactly those keys. A failure is a KeyError naming one of them. |
| ExportResultsHelper.RunConfigToFilename | src/snn_algo_compare/export_results/helper.py:27-55 | Raises KeyError iff a volatile key is missing, and names a missing one. The only other failure is the too-long exception. A returned filename has no space and is at most 256 characters long. |
| ExportResultsHelper.FilenameIsRendering | src/snn_algo_compare/export_results/helper.py:36-55 | Given every volatile key, the result is the `str()` of the flattened configuration without those keys, spaces removed: returned iff it is at most 256 characters long, and the too-long exception otherwise. The filename holds every other character as often as that rendering does. |
| ExportResultsHelper.VolatileValuesIgnored | src/snn_algo_compare/export_results/helper.py:36-43 | Changing the value of a volatile key leaves the filename, or the error, as it was. |
| ExportResultsHelper.PopAllIgnoresVolatileValue | src/snn_algo_compare/export_results/helper.py:36-41 | Changing the value of a volatile key leaves the result of popping the volatile keys, success or error, as it was. |
| ExportResultsHelper.PopAllFailsOnKeys | src/snn_algo_compare/export_results/helper.py:36-41 | Whether the pops raise, and the KeyError they raise, depend only on which keys the configuration has. |
| ExportResultsHelper.PopAllFirstMissing | src/snn_algo_compare/export_results/helper.py:36-41 | With distinct keys to pop, the key a failure names was missing from the configuration from the start. |
| PyValues.RemoveSpaces | src/snn_algo_compare/export_results/helper.py:51 | The result has no space and is no longer than the input. |
| PyValues.RemoveSpacesKeeps | src/snn_algo_compare/export_results/helper.py:45-51 | Every other character, quotes included, occurs as often as before. |
| PyValues.RemoveSpacesIdempotent | src/snn_algo_compare/export_results/helper.py:51 | Removing spaces twice is removing them once. |
| ExportResultsHelper.GetExpectedImagePathsStage3 | src/snn_algo_compare/export_results/helper.py:58-92 | The filename's error is raised first. Next, a missing `alg_props` raises. Otherwise the result is the path list of `ExpectedImagePaths` for the filename and the collaborator's simulation duration. |
| ExportResultsHelper.CollectImagePaths | src/snn_algo_compare/export_results/helper.py:80-92 | The three nested loops build exactly `ExpectedImagePaths`. |
| ExportResultsHelper.AppendExtensionImagePaths | src/snn_algo_compare/export_results/helper.py:82-91 | The loop over the graph names appends exactly the paths of one extension, in the order of the names. |
| ExportResultsHelper.AppendGraphImagePaths | src/snn_algo_compare/export_results/helper.py:83-91 | One graph name appends the input-graph path, or its timestep paths in increasing t. |
| ExportResultsHelper.TimestepPathsAt | src/snn_algo_compare/export_results/helper.py:88-91 | The t-th path of a graph is `latex/Images/graphs/{name}_{filename}_{t}{ext}`, in increasing t. |
| ExportResultsHelper.ExtensionImagePathsLength | src/snn_algo_compare/export_results/helper.py:82-91 | One extension gets one path per `input_graph` entry and max(sim_duration, 0) paths per other name. |
| ExportResultsHelper.ExpectedImagePathsLength | src/snn_algo_compare/export_results/helper.py:80-92 | The path count is \|extensions\| · (#input_graph + #other names · max(sim_duration, 0)). |
| ExportResultsHelper.GraphImagePathsMembers | src/snn_algo_compare/export_results/helper.py:83-91 | `input_graph` contributes exactly `results/input_graph_{filename}{ext}`. Any other name contributes exactly its timestep paths for 0 <= t < sim_duration. |
| ExportResultsHelper.ExtensionImagePathsMembers | src/snn_algo_compare/export_results/helper.py:82-91 | For one extension, a path is listed iff some graph name calls for it. |
| ExportResultsHelper.ExpectedImagePathsMembers | src/snn_algo_compare/export_results/helper.py:80-92 | A path is expected iff it belongs to some extension and some graph name as above. |
| VerifyStage1.GetExpectedStage1GraphNames | src/snncompare/export_results/verify_stage_1_graphs.py:45-61 | The list starts with input_graph, snn_algo_graph. adapted_snn_graph is present iff adaptation is on, rad_snn_algo_graph iff radiation is on, and rad_adapted_snn_graph iff both are. Every name is input_graph or a role, the names are distinct, and there are 2 to 5. |
| VerifyStage1.ExpectedRolesAreEnabledRoles | src/snncompare/export_results/verify_stage_1_graphs.py:53-61 | A role is expected iff each of its flags is enabled by the configuration. |
| VerifyStage1.ExpectedNamesMonotone | src/snncompare/export_results/verify_stage_1_graphs.py:53-61 | Turning on adaptation or radiation only adds expected names. |
| VerifyStage1.GraphsPresentByRole | src/snncompare/export_results/verify_stage_1_graphs.py:53-83 | All expected graphs are present iff input_graph and every enabled role are keys; extra keys do not matter. |
| VerifyStage1.AllIn | src/snncompare/export_results/verify_stage_1_graphs.py:80-83 | The early-return loop is true iff every name is a key of the graphs. |
| VerifyStage1.ExpectedGraphsAreInDict | src/snncompare/export_results/verify_stage_1_graphs.py:64-83 | Any stage other than 1 raises. Stage 1 answers true iff every expected name is a key. |
| VerifyStage1.AssertGraphsAreInDict | src/snncompare/export_results/verify_stage_1_graphs.py:86-95 | Passes iff the graphs are complete. Otherwise it raises the missing-graph exception, or the stage exception for a stage other than 1. |
| VerifyStage1.VerifyStage1Graphs | src/snncompare/export_results/verify_stage_1_graphs.py:26-40 | Passes iff the stage-1 graphs are complete, else raises the missing-graph exception. |
| LoadStage1.LoadResultsStage1 | src/snncompare/import_results/stage_1_load_input_graphs.py:16-56 | The procedure returns or raises exactly what the load specification says. |
| LoadStage1.LoadFromFile | src/snncompare/import_results/stage_1_load_input_graphs.py:28-56 | After the filename, the procedure returns or raises what the specification of the rest of the load says: the unbound path, the collaborator's load error, or the checks. |
| LoadStage1.FindJsonFilepath | src/snncompare/import_results/stage_1_load_input_graphs.py:30-33 | The loop binds a path iff `.json` is among the extensions, and then the path is `results/{filename}.json`. |
| LoadStage1.ConvertAndVerify | src/snncompare/import_results/stage_1_load_input_graphs.py:35-56 | Replacing the run configuration and the two checks follow the specification of the checks on the loaded dictionary. |
| LoadStage1.LoadedFromOwnFile | src/snncompare/import_results/stage_1_load_input_graphs.py:28-56 | Take a successful load. The configuration's filename exists, and `.json` is an extension. The file read is `results/{filename}.json`. Its stored configuration equals the current one apart from `unique_id`. The result is the file's dictionary with `run_config` replaced by a `Run_config` object over the stored fields. |
| LoadStage1.LoadedGraphsComplete | src/snncompare/import_results/stage_1_load_input_graphs.py:39-56 | A successful load holds a `Run_config` object and a graphs dictionary with every expected stage-1 graph. |
| LoadStage1.UniqueIdDoesNotMatter | src/snncompare/import_results/stage_1_load_input_graphs.py:42-51 | A stored configuration that differs from the current one only in `unique_id` is not refused as a mismatch. |
| LoadStage1.MismatchIffSettingsDisagree | src/snncompare/import_results/stage_1_load_input_graphs.py:42-51 | For configurations with distinct keys, the stored one is refused as a mismatch iff its settings other than `unique_id`, in any order, disagree with the current ones. |
| LoadStage1.MismatchRefused | src/snncompare/import_results/stage_1_load_input_graphs.py:42-51 | A stored configuration missing a setting of the current one, other than `unique_id`, is refused as a mismatch. |
| LoadStage1.ExtraSettingRefused | src/snncompare/import_results/stage_1_load_input_graphs.py:42-51 | A stored configuration holding a setting, other than `unique_id`, that the current one (with distinct keys) lacks is refused as a mismatch. |
| LoadStage1.ChangedSettingRefused | src/snncompare/import_results/stage_1_load_input_graphs.py:42-51 | A stored configuration (with distinct keys) whose value for a setting other than `unique_id` is unequal to the current one's is refused as a mismatch. |
| MdsaHelpers.GetMaxSimDuration | src/snncompare/helper.py:293-312 | An empty algorithm dictionary raises ValueError, and a first algorithm other than MDSA raises NotImplementedError. Missing `m_val` is a KeyError. Otherwise the duration is n·(n+1)·(m_val+1). |
| MdsaHelpers.SimDurationBounds | src/snncompare/helper.py:300-308 | When `get_max_sim_duration` returns for a graph and m_val >= 0, it also returns for any larger graph with the same settings. The duration is at least the node count, and it does not shrink as the graph grows. |
| MdsaHelpers.GenerateListOfNRandomNrs | src/snncompare/helper.py:19-49 | With no `max_val`, or `max_val == len(G) - 1`, the result is exactly 0..len(G)-1. `max_val >= len(G)` gives len(G) distinct numbers in [0, max_val). Any smaller `max_val` raises ValueError. |
| MdsaHelpers.MaxWeightIsMax | src/snncompare/helper.py:193-196 | The maximum is at least every neighbour's weight and is attained by a neighbour. |
| MdsaHelpers.ComputeMarksForMLargerThanOne | src/snncompare/helper.py:165-202 | Raises ValueError iff m >= 1 and some node has no neighbour. Otherwise the node attributes end as m marking rounds leave them. m <= 0 changes nothing. After a round every node's marks are (rand_ceil+1)·countermarks. `random_number` and the graph attributes are untouched. |
| MdsaHelpers.MarkingRoundsLoop | src/snncompare/helper.py:180-202 | Raises ValueError iff there is a round and some node has no neighbour. Otherwise the attributes are those `RoundCount(m)` rounds leave, starting from the attributes before the loop. |
| MdsaHelpers.MarkingLoop | src/snncompare/helper.py:181-202 | One pass of the loop body fails iff some node has no neighbour. Otherwise it takes the attributes from k rounds to k + 1 rounds. |
| MdsaHelpers.WeighNodes | src/snncompare/helper.py:181-189 | Every node's weight becomes its old marks plus its random number; marks and countermarks become 0. |
| MdsaHelpers.MarkRound | src/snncompare/helper.py:192-202 | Fails iff some node has no neighbour. Otherwise the countermarks are the tally of all nodes marking their neighbours of maximal weight, and the marks are rand_ceil + 1 times them. |
| MdsaHelpers.MarkMaximalNeighbours | src/snncompare/helper.py:193-202 | One node raises, by one, the countermark of each of its neighbours whose weight is the maximum, and the marks stay rand_ceil + 1 times the countermarks. |
| MdsaHelpers.MarkingRoundsScaled | src/snncompare/helper.py:196-202 | After at least one round, every node's marks are rand_ceil + 1 times its countermarks. |
| MdsaHelpers.CountermarksCountMarkingNodes | src/snncompare/helper.py:192-202 | After a round, a node's countermarks are the number of nodes that have it as a neighbour of maximal weight. |
| MdsaHelpers.EveryNodeMarksANeighbour | src/snncompare/helper.py:192-202 | On a graph without isolated nodes, every node has a neighbour with at least one countermark after a round. |

## Left out

- `compute_mark` and `set_node_default_values` (src/snncompare/helper.py:52-77, 230-253): their random numbers and `rand_ceil` are floats.
- `plot_alipour`, `get_alipour_labels` and the `show`/`export` branch of `compute_marks_for_m_larger_than_one`: matplotlib drawing. The marking rounds are modelled with `show` and `export` false, so `seed` and `size` are not used.
- `get_some_duration` and `file_exists`: they read simulator internals and the file system.
- Environment.Collaborators: `get_sim_duration` receives the input graph's attribute dictionary rather than the whole graph (src/snn_algo_compare/export_results/helper.py:74-77), so the duration it gives cannot depend on the node count or the node attributes.
- Environment.Collaborators: `has_adaptation`, `has_radiation`, `get_sim_duration` and `get_extensions_list` are total functions, so any exception they might raise is not modelled; only `load_results_from_json` can fail.
- StageRecord.AddStageCompletionToGraph: the graph attributes are a value, so a `completed_stages` list that several graphs share (as a networkx `copy()` shares the values of `graph.graph`) gets the appended stage only in the graph passed in; the model does not capture that aliasing.
- StageRecord.AddStageCompletionToGraph: a `Simulator` argument is unwrapped to its networkx graph in the source; the model takes the graph itself.
- MdsaHelpers.GenerateListOfNRandomNrs: `random.sample` is an arbitrary choice of distinct numbers below `max_val`, so the seed does not determine the result. The docstring speaks of numbers 1..len(G), but the code returns 0..len(G)-1; the model follows the code.
- MdsaHelpers.GetMaxSimDuration: `run_config.algorithm` is an attribute dictionary. An `m_val` that is a bool or a float is refused with TypeError rather than used in the arithmetic.
- MdsaHelpers.ComputeMarksForMLargerThanOne: the node attributes are integers present on every node (`Graph.Valid`). In the source they come from `set_node_default_values` (src/snncompare/helper.py:243-253) as floats, so weights that differ can round to a tie with `max_weight` at helper.py:198, which the model does not capture. A node lacking `marks` or another attribute would raise KeyError (helper.py:183-186); the model requires every attribute to be present instead.
- MdsaHelpers.ComputeMarksForMLargerThanOne: when `max` raises on a node without neighbours, the partly updated node attributes are not stated.
- MdsaHelpers.ComputeMarksForMLargerThanOne: nodes are 0..n-1 in iteration order. The neighbours of a node are listed once each, as `nx.all_neighbors` lists them on a simple undirected graph.
- StageRecord.GetExpectedStages: the final `list(set(sorted(...)))` is taken to give back the increasing list. That holds for small non-negative integers in CPython, which is what the model states.
- `str()` of a flattened configuration: strings are quoted in single quotes without escaping, and objects render as `<class object>`. Only the absence of spaces, the kept characters and the length are stated about it.
- ExportResultsHelper.Flatten: `collections.MutableMapping` exists only before Python 3.10; the model assumes such a Python and treats exactly the dictionaries as mappings.
- `load_results_stage_1` imports `run_config_to_filename` from src/snncompare/export_results/helper.py and `dicts_are_equal` from load_json_to_nx_graph, neither of which is part of this model. The model uses the `run_config_to_filename` of src/snn_algo_compare/export_results/helper.py on the configuration's attribute dictionary, and the `dicts_are_equal` of src/snncompare/helper.py. That function takes keyword-only arguments (src/snncompare/helper.py:354) while the loader passes them by position (src/snncompare/import_results/stage_1_load_input_graphs.py:42-46), so only its meaning is kept, not its signature.
- `Run_config(**fields)` is modelled as an object whose attributes are the stored fields; the class's own checks are not part of this model.
- The `pprint` calls in `load_results_stage_1` print only, and the `exp_config` argument of `verify_stage_1_graphs` is never read.
- src/snncompare/arg_parser/process_args.py, src/snn_algo_compare/exp_setts/verify_run_completion.py and the tests: command-line plumbing, a wrapper around code that is not part of this model, and test fixtures.
- PyValues.Eq: objects compare by class and fields. Python compares `Run_config` and other plain objects by identity, which values cannot express.
- PyValues.Eq: there are no floats, so `1.0 == 1` and float settings are not modelled.
