/**
 * Config identity and stage-3 artifact naming: flattening a nested run
 * configuration, turning it into a filename, and listing the image files
 * stage 3 is expected to produce (src/snn_algo_compare/export_results/helper.py).
 */
module ExportResultsHelper {
  import opened PyValues
  import opened Environment

  // ---------------------------------------------------------------------
  // dict(items)
  // ---------------------------------------------------------------------

  /** `dict(items)`: a repeated key keeps its first position and takes its last value. */
  function FromItems(items: seq<(string, Value)>): (d: Dict)
    ensures DistinctKeys(d)
    ensures forall e :: e in d ==> e in items
    decreases |items|
  {
    if items == [] then []
    else
      var init := FromItems(items[..|items| - 1]);
      var last := items[|items| - 1];
      SetDistinct(init, last.0, last.1);
      SetEntries(init, last.0, last.1);
      Set(init, last.0, last.1)
  }

  lemma {:induction false} SetDistinct(d: Dict, k: string, v: Value)
    requires DistinctKeys(d)
    ensures DistinctKeys(Set(d, k, v))
  {
    if d != [] {
      DistinctKeysTail(d);
      if d[0].0 != k {
        SetDistinct(d[1..], k, v);
        var r := Set(d[1..], k, v);
        assert Keys(r) == Keys(d[1..]) + {k};
        forall j | 0 < j < |r| + 1
          ensures ([d[0]] + r)[j].0 != d[0].0
        {
          KeysIndex(r, j - 1);
        }
      } else {
        forall i, j | 0 <= i < j < |d|
          ensures ([(k, v)] + d[1..])[i].0 != ([(k, v)] + d[1..])[j].0
        {
        }
      }
    }
  }

  lemma {:induction false} SetEntries(d: Dict, k: string, v: Value)
    ensures forall e :: e in Set(d, k, v) ==> e in d || e == (k, v)
  {
    if d != [] && d[0].0 != k {
      SetEntries(d[1..], k, v);
    }
  }

  /** A key that is new goes to the end. */
  lemma {:induction false} SetNew(d: Dict, k: string, v: Value)
    requires k !in Keys(d)
    ensures Set(d, k, v) == d + [(k, v)]
  {
    if d != [] {
      SetNew(d[1..], k, v);
    }
  }

  /** The value of the last item with key `k`, if there is one. */
  function LastValue(items: seq<(string, Value)>, k: string): Option<Value>
  {
    if items == [] then None
    else if items[|items| - 1].0 == k then Some(items[|items| - 1].1)
    else LastValue(items[..|items| - 1], k)
  }

  /** In `dict(items)` the later of two items with the same key wins. */
  lemma {:induction false} FromItemsLaterWins(items: seq<(string, Value)>, k: string)
    ensures Get(FromItems(items), k) == LastValue(items, k)
    decreases |items|
  {
    if items != [] {
      var last := items[|items| - 1];
      FromItemsLaterWins(items[..|items| - 1], k);
      GetSet(FromItems(items[..|items| - 1]), last.0, last.1, k);
    }
  }

  /** `dict(items)` of items with distinct keys is the same list. */
  lemma {:induction false} FromItemsDistinct(items: seq<(string, Value)>)
    requires DistinctKeys(items)
    ensures FromItems(items) == items
    decreases |items|
  {
    if items != [] {
      var init := items[..|items| - 1];
      assert DistinctKeys(init);
      FromItemsDistinct(init);
      forall j | 0 <= j < |init|
        ensures init[j].0 != items[|items| - 1].0
      {
      }
      KeysAbsent(init, items[|items| - 1].0);
      SetNew(init, items[|items| - 1].0, items[|items| - 1].1);
      assert init + [items[|items| - 1]] == items;
    }
  }

  // ---------------------------------------------------------------------
  // flatten
  // ---------------------------------------------------------------------

  /** The key of a child: `parent_key + sep + k if parent_key else k`. */
  function ChildKey(parentKey: string, sep: string, k: string): string
  {
    if parentKey != "" then parentKey + sep + k else k
  }

  /** `flatten(d, parent_key, sep)`: nested dictionaries become `parent_child` keys. */
  function Flatten(d: Dict, parentKey: string, sep: string): (r: Dict)
    ensures DistinctKeys(r)
    ensures forall e :: e in r ==> !e.1.VDict?
    decreases VDict(d), 1
  {
    FromItems(FlattenItems(d, 0, parentKey, sep))
  }

  /** The `items` list that `flatten` builds from the entries of `d` from position `i` on. */
  function FlattenItems(d: Dict, i: nat, parentKey: string, sep: string): (items: seq<(string, Value)>)
    ensures forall e :: e in items ==> !e.1.VDict?
    decreases VDict(d), 0, |d| - i
  {
    if i >= |d| then []
    else
      var newKey := ChildKey(parentKey, sep, d[i].0);
      var v := d[i].1;
      (if v.VDict? then Flatten(v.entries, newKey, sep) else [(newKey, v)])
      + FlattenItems(d, i + 1, parentKey, sep)
  }

  /**
   * `path` leads from `d` through nested dictionaries to the value `v`,
   * which is not itself a dictionary: a leaf of the configuration.
   */
  ghost predicate IsLeaf(d: Dict, path: seq<string>, v: Value)
    decreases |path|
  {
    path != [] &&
    exists j :: 0 <= j < |d| && d[j].0 == path[0] &&
      if |path| == 1 then !d[j].1.VDict? && d[j].1 == v
      else d[j].1.VDict? && IsLeaf(d[j].1.entries, path[1..], v)
  }

  /** The flat key of a leaf path below `parentKey`: its keys joined by `sep`. */
  function JoinKey(parentKey: string, sep: string, path: seq<string>): string
    requires path != []
    decreases |path|
  {
    if |path| == 1 then ChildKey(parentKey, sep, path[0])
    else JoinKey(ChildKey(parentKey, sep, path[0]), sep, path[1..])
  }

  /** Every entry of the flattened dictionary is a leaf of `d` under its joined key. */
  lemma {:induction false} FlattenSound(d: Dict, parentKey: string, sep: string, e: (string, Value))
    requires e in Flatten(d, parentKey, sep)
    ensures exists path :: IsLeaf(d, path, e.1) && path != [] && e.0 == JoinKey(parentKey, sep, path)
    decreases VDict(d), 1
  {
    FlattenItemsSound(d, 0, parentKey, sep, e);
  }

  lemma {:induction false} FlattenItemsSound(d: Dict, i: nat, parentKey: string, sep: string, e: (string, Value))
    requires e in FlattenItems(d, i, parentKey, sep)
    ensures exists path :: IsLeaf(d, path, e.1) && path != [] && e.0 == JoinKey(parentKey, sep, path)
    decreases VDict(d), 0, |d| - i
  {
    var newKey := ChildKey(parentKey, sep, d[i].0);
    var v := d[i].1;
    var head := if v.VDict? then Flatten(v.entries, newKey, sep) else [(newKey, v)];
    assert FlattenItems(d, i, parentKey, sep) == head + FlattenItems(d, i + 1, parentKey, sep);
    if e in FlattenItems(d, i + 1, parentKey, sep) {
      FlattenItemsSound(d, i + 1, parentKey, sep, e);
    } else if v.VDict? {
      assert v < VDict(d) by {
        assert d[i] in d;
      }
      FlattenSound(v.entries, newKey, sep, e);
      var rest :| IsLeaf(v.entries, rest, e.1) && rest != [] && e.0 == JoinKey(newKey, sep, rest);
      var path := [d[i].0] + rest;
      assert path[1..] == rest;
      assert IsLeaf(d, path, e.1);
    } else {
      assert IsLeaf(d, [d[i].0], e.1);
    }
  }

  /** The joined key of every leaf of `d` is a key of the flattened dictionary. */
  lemma {:induction false} FlattenKeys(d: Dict, parentKey: string, sep: string, path: seq<string>, v: Value)
    requires IsLeaf(d, path, v)
    ensures JoinKey(parentKey, sep, path) in Keys(Flatten(d, parentKey, sep))
    decreases |path|, 1
  {
    var j :| 0 <= j < |d| && d[j].0 == path[0] &&
      if |path| == 1 then !d[j].1.VDict? && d[j].1 == v
      else d[j].1.VDict? && IsLeaf(d[j].1.entries, path[1..], v);
    FlattenItemsKeys(d, 0, parentKey, sep, j, path, v);
    FromItemsKeys(FlattenItems(d, 0, parentKey, sep));
  }

  lemma {:induction false} FlattenItemsKeys(d: Dict, i: nat, parentKey: string, sep: string, j: nat, path: seq<string>, v: Value)
    requires i <= j < |d| && path != [] && d[j].0 == path[0]
    requires if |path| == 1 then !d[j].1.VDict? && d[j].1 == v
      else d[j].1.VDict? && IsLeaf(d[j].1.entries, path[1..], v)
    ensures JoinKey(parentKey, sep, path) in Keys(FlattenItems(d, i, parentKey, sep))
    decreases |path|, 0, |d| - i
  {
    var newKey := ChildKey(parentKey, sep, d[i].0);
    var w := d[i].1;
    var head := if w.VDict? then Flatten(w.entries, newKey, sep) else [(newKey, w)];
    var tail := FlattenItems(d, i + 1, parentKey, sep);
    assert FlattenItems(d, i, parentKey, sep) == head + tail;
    KeysAppend(head, tail);
    if i < j {
      FlattenItemsKeys(d, i + 1, parentKey, sep, j, path, v);
    } else if |path| == 1 {
      assert head == [(newKey, w)];
    } else {
      FlattenKeys(w.entries, newKey, sep, path[1..], v);
    }
  }

  /** `dict(items)` has exactly the keys of `items`. */
  lemma {:induction false} FromItemsKeys(items: seq<(string, Value)>)
    ensures Keys(FromItems(items)) == Keys(items)
    decreases |items|
  {
    if items != [] {
      var init := items[..|items| - 1];
      var last := items[|items| - 1];
      FromItemsKeys(init);
      assert items == init + [last];
      KeysAppend(init, [last]);
    }
  }

  /** Every leaf of `d` whose joined key is `key` holds `v`. */
  ghost predicate OnlyLeafAt(d: Dict, parentKey: string, sep: string, key: string, v: Value)
  {
    forall path, w :: IsLeaf(d, path, w) && path != [] && JoinKey(parentKey, sep, path) == key ==> w == v
  }

  /**
   * Flattening keeps every leaf: its joined key is in the result, with the
   * value of the last item of that key, which is the leaf's own value when
   * no other leaf joins to the same key.
   */
  lemma FlattenKeepsLeaves(d: Dict, parentKey: string, sep: string, path: seq<string>, v: Value)
    requires IsLeaf(d, path, v)
    ensures JoinKey(parentKey, sep, path) in Keys(Flatten(d, parentKey, sep))
    ensures Get(Flatten(d, parentKey, sep), JoinKey(parentKey, sep, path))
      == LastValue(FlattenItems(d, 0, parentKey, sep), JoinKey(parentKey, sep, path))
    ensures OnlyLeafAt(d, parentKey, sep, JoinKey(parentKey, sep, path), v)
      ==> Get(Flatten(d, parentKey, sep), JoinKey(parentKey, sep, path)) == Some(v)
  {
    var key := JoinKey(parentKey, sep, path);
    var flat := Flatten(d, parentKey, sep);
    FlattenKeys(d, parentKey, sep, path, v);
    FromItemsLaterWins(FlattenItems(d, 0, parentKey, sep), key);
    var i := KeyIndex(flat, key);
    assert flat[i] in flat;
    FlattenSound(d, parentKey, sep, flat[i]);
  }

  /** A dictionary none of whose values is a dictionary. */
  ghost predicate NoNestedDicts(d: Dict)
  {
    forall i :: 0 <= i < |d| ==> !d[i].1.VDict?
  }

  lemma {:induction false} FlattenItemsShallow(d: Dict, i: nat, sep: string)
    requires NoNestedDicts(d) && i <= |d|
    ensures FlattenItems(d, i, "", sep) == d[i..]
    decreases |d| - i
  {
    if i < |d| {
      FlattenItemsShallow(d, i + 1, sep);
      assert d[i..] == [d[i]] + d[i + 1..];
    }
  }

  /** Flattening a dictionary without nested dictionaries gives it back unchanged. */
  lemma FlattenIdentity(d: Dict, sep: string)
    requires DistinctKeys(d) && NoNestedDicts(d)
    ensures Flatten(d, "", sep) == d
  {
    FlattenItemsShallow(d, 0, sep);
    assert d[0..] == d;
    FromItemsDistinct(d);
  }

  /** The example `{'a': 1, 'c': {'a': 2, 'b': {'x': 5, 'y': 10}}, 'd': [1, 2, 3]}`. */
  function Example(): Dict
  {
    [("a", VInt(1)),
     ("c", VDict([("a", VInt(2)), ("b", VDict([("x", VInt(5)), ("y", VInt(10))]))])),
     ("d", VList([VInt(1), VInt(2), VInt(3)]))]
  }

  lemma FlattenExampleInner()
    ensures Flatten([("x", VInt(5)), ("y", VInt(10))], "c_b", "_") == [("c_b_x", VInt(5)), ("c_b_y", VInt(10))]
  {
    var b := [("x", VInt(5)), ("y", VInt(10))];
    var fb := [("c_b_x", VInt(5)), ("c_b_y", VInt(10))];
    assert ChildKey("c_b", "_", "x") == "c_b_x";
    assert ChildKey("c_b", "_", "y") == "c_b_y";
    assert FlattenItems(b, 1, "c_b", "_") == [("c_b_y", VInt(10))];
    assert FlattenItems(b, 0, "c_b", "_") == fb;
    FromItemsDistinct(fb);
  }

  lemma FlattenExampleMiddle()
    ensures Flatten([("a", VInt(2)), ("b", VDict([("x", VInt(5)), ("y", VInt(10))]))], "c", "_")
         == [("c_a", VInt(2)), ("c_b_x", VInt(5)), ("c_b_y", VInt(10))]
  {
    var c := [("a", VInt(2)), ("b", VDict([("x", VInt(5)), ("y", VInt(10))]))];
    var fc := [("c_a", VInt(2)), ("c_b_x", VInt(5)), ("c_b_y", VInt(10))];
    assert ChildKey("c", "_", "a") == "c_a";
    assert ChildKey("c", "_", "b") == "c_b";
    FlattenExampleInner();
    assert FlattenItems(c, 1, "c", "_") == fc[1..];
    assert FlattenItems(c, 0, "c", "_") == fc;
    FromItemsDistinct(fc);
  }

  /** flatten turns the example into the keys a, c_a, c_b_x, c_b_y and d, keeping the list as a leaf. */
  lemma FlattenExample()
    ensures Flatten(Example(), "", "_") ==
      [("a", VInt(1)), ("c_a", VInt(2)), ("c_b_x", VInt(5)), ("c_b_y", VInt(10)),
       ("d", VList([VInt(1), VInt(2), VInt(3)]))]
  {
    var all := [("a", VInt(1)), ("c_a", VInt(2)), ("c_b_x", VInt(5)), ("c_b_y", VInt(10)),
                ("d", VList([VInt(1), VInt(2), VInt(3)]))];
    FlattenExampleItems();
    FlatExampleKeysDistinct();
    FromItemsDistinct(all);
  }

  lemma FlatExampleKeysDistinct()
    ensures DistinctKeys([("a", VInt(1)), ("c_a", VInt(2)), ("c_b_x", VInt(5)), ("c_b_y", VInt(10)),
                          ("d", VList([VInt(1), VInt(2), VInt(3)]))])
  {
  }

  lemma FlattenExampleItems()
    ensures FlattenItems(Example(), 0, "", "_") ==
      [("a", VInt(1)), ("c_a", VInt(2)), ("c_b_x", VInt(5)), ("c_b_y", VInt(10)),
       ("d", VList([VInt(1), VInt(2), VInt(3)]))]
  {
    FlattenExampleItemsTail();
    assert ChildKey("", "_", "a") == "a";
  }

  lemma FlattenExampleItemsTail()
    ensures FlattenItems(Example(), 1, "", "_") ==
      [("c_a", VInt(2)), ("c_b_x", VInt(5)), ("c_b_y", VInt(10)), ("d", VList([VInt(1), VInt(2), VInt(3)]))]
  {
    FlattenExampleMiddle();
    assert ChildKey("", "_", "c") == "c";
    assert FlattenItems(Example(), 2, "", "_") == [("d", VList([VInt(1), VInt(2), VInt(3)]))];
  }

  // ---------------------------------------------------------------------
  // run_config_to_filename
  // ---------------------------------------------------------------------

  /** The run-configuration keys that do not take part in a run's identity. */
  const VolatileKeys: seq<string> :=
    ["unique_id", "overwrite_sim_results", "overwrite_visualisation", "show_snns", "export_snns"]

  /** The longest filename a run configuration may produce. */
  const MaxFilenameLength: nat := 256

  /** `d.pop(k)` for each key in turn; the first key that is missing raises KeyError. */
  function PopAll(d: Dict, keys: seq<string>): (r: Result<Dict>)
    ensures r.Ok? ==> Keys(r.value) == Keys(d) - set k | k in keys
    ensures r.Ok? ==> forall k :: k in keys ==> k in Keys(d)
    ensures r.Err? ==> r.error.KeyError? && r.error.key in keys
    decreases keys
  {
    if keys == [] then Ok(d)
    else
      match Pop(d, keys[0])
      case Err(e) => Err(e)
      case Ok(rest) =>
        assert forall k :: k in keys ==> k == keys[0] || k in keys[1..];
        PopAll(rest, keys[1..])
  }

  /** A run configuration that holds every volatile key. */
  predicate HasVolatileKeys(runConfig: Dict)
  {
    forall k :: k in VolatileKeys ==> k in Keys(runConfig)
  }

  /** `str(flatten(stripped))` with its spaces removed, refused when too long. */
  function StrippedToFilename(stripped: Dict): (r: Result<string>)
    ensures r.Ok? ==> |r.value| <= MaxFilenameLength && ' ' !in r.value
    ensures r.Err? ==> r.error == Exception(FilenameTooLong)
  {
    var filename := RemoveSpaces(Render(VDict(Flatten(stripped, "", "_"))));
    if |filename| > MaxFilenameLength then Err(Exception(FilenameTooLong)) else Ok(filename)
  }

  /**
   * `run_config_to_filename(run_config)`: the identity of a run, computed from
   * a copy of the configuration without its volatile keys.
   */
  function RunConfigToFilename(runConfig: Dict): (r: Result<string>)
    ensures r.Err? && r.error.KeyError? <==> !HasVolatileKeys(runConfig)
    ensures r.Err? ==> r.error.KeyError? || r.error == Exception(FilenameTooLong)
    ensures r.Err? && r.error.KeyError? ==>
      r.error.key in VolatileKeys && r.error.key !in Keys(runConfig)
    ensures r.Ok? ==> |r.value| <= MaxFilenameLength && ' ' !in r.value
  {
    match PopAll(runConfig, VolatileKeys)
    case Err(e) =>
      assert e.key !in Keys(runConfig) by { PopAllFirstMissing(runConfig, VolatileKeys); }
      Err(e)
    case Ok(stripped) => StrippedToFilename(stripped)
  }

  /** With distinct keys to pop, the key reported missing was missing from the start. */
  lemma {:induction false} PopAllFirstMissing(d: Dict, keys: seq<string>)
    requires forall i, j :: 0 <= i < j < |keys| ==> keys[i] != keys[j]
    requires PopAll(d, keys).Err?
    ensures PopAll(d, keys).error.key !in Keys(d)
    decreases keys
  {
    if keys[0] in Keys(d) {
      var rest := Remove(d, keys[0]);
      PopAllFirstMissing(rest, keys[1..]);
      assert PopAll(rest, keys[1..]).error.key in keys[1..];
    }
  }

  /** Once every key is present, popping them removes each in turn. */
  function RemoveAll(d: Dict, keys: seq<string>): Dict
    decreases keys
  {
    if keys == [] then d else RemoveAll(Remove(d, keys[0]), keys[1..])
  }

  lemma {:induction false} PopAllPresent(d: Dict, keys: seq<string>)
    requires forall i, j :: 0 <= i < j < |keys| ==> keys[i] != keys[j]
    requires forall k :: k in keys ==> k in Keys(d)
    ensures PopAll(d, keys) == Ok(RemoveAll(d, keys))
    decreases keys
  {
    if keys != [] {
      PopAllPresent(Remove(d, keys[0]), keys[1..]);
    }
  }

  /** `str(flatten(...))` of the configuration without its volatile keys. */
  function RenderedIdentity(runConfig: Dict): string
  {
    Render(VDict(Flatten(RemoveAll(runConfig, VolatileKeys), "", "_")))
  }

  /**
   * Given every volatile key, the filename is the rendering of the flattened
   * configuration without them, with its spaces removed: returned when it is
   * at most 256 characters long and refused otherwise. It holds every other
   * character of the rendering as often as the rendering does.
   */
  lemma FilenameIsRendering(runConfig: Dict)
    requires HasVolatileKeys(runConfig)
    ensures var s := RemoveSpaces(RenderedIdentity(runConfig));
      RunConfigToFilename(runConfig)
        == if |s| <= MaxFilenameLength then Ok(s) else Err(Exception(FilenameTooLong))
    ensures RunConfigToFilename(runConfig).Ok? ==>
      forall c :: c != ' ' ==> Count(RunConfigToFilename(runConfig).value, c) == Count(RenderedIdentity(runConfig), c)
  {
    PopAllPresent(runConfig, VolatileKeys);
    forall c | c != ' '
      ensures Count(RemoveSpaces(RenderedIdentity(runConfig)), c) == Count(RenderedIdentity(runConfig), c)
    {
      RemoveSpacesKeeps(RenderedIdentity(runConfig), c);
    }
  }

  /** Overwriting a key that is removed anyway does not change what is left. */
  lemma {:induction false} RemoveAllSet(d: Dict, keys: seq<string>, k: string, v: Value)
    requires k in keys
    ensures RemoveAll(Set(d, k, v), keys) == RemoveAll(d, keys)
    decreases keys
  {
    if keys[0] == k {
      RemoveSet(d, k, v);
    } else {
      RemoveSetOther(d, k, v, keys[0]);
      RemoveAllSet(Remove(d, keys[0]), keys[1..], k, v);
    }
  }

  /**
   * The filename does not depend on the values of the volatile keys: giving
   * one of them another value leaves the result, success or error, as it was.
   */
  lemma VolatileValuesIgnored(runConfig: Dict, k: string, v: Value)
    requires k in VolatileKeys && k in Keys(runConfig)
    ensures RunConfigToFilename(Set(runConfig, k, v)) == RunConfigToFilename(runConfig)
  {
    PopAllIgnoresVolatileValue(runConfig, k, v);
  }

  /** Popping the volatile keys gives the same result, success or error, whatever value one of them had. */
  lemma PopAllIgnoresVolatileValue(runConfig: Dict, k: string, v: Value)
    requires k in VolatileKeys && k in Keys(runConfig)
    ensures PopAll(Set(runConfig, k, v), VolatileKeys) == PopAll(runConfig, VolatileKeys)
  {
    var changed := Set(runConfig, k, v);
    assert Keys(changed) == Keys(runConfig);
    if HasVolatileKeys(runConfig) {
      PopAllPresent(runConfig, VolatileKeys);
      PopAllPresent(changed, VolatileKeys);
      RemoveAllSet(runConfig, VolatileKeys, k, v);
    } else {
      PopAllFailsOnKeys(changed, runConfig, VolatileKeys);
    }
  }

  /** Whether popping fails, and with which key, depends on the keys of the dictionary only. */
  lemma {:induction false} PopAllFailsOnKeys(d: Dict, d': Dict, keys: seq<string>)
    requires Keys(d) == Keys(d')
    ensures PopAll(d, keys).Err? <==> PopAll(d', keys).Err?
    ensures PopAll(d, keys).Err? ==> PopAll(d, keys) == PopAll(d', keys)
    decreases keys
  {
    if keys != [] && keys[0] in Keys(d) {
      PopAllFailsOnKeys(Remove(d, keys[0]), Remove(d', keys[0]), keys[1..]);
    }
  }

  // ---------------------------------------------------------------------
  // get_expected_image_paths_stage_3
  // ---------------------------------------------------------------------

  const ImageDir: string := "latex/Images/graphs/"

  function TimestepCount(simDuration: int): nat
  {
    if simDuration < 0 then 0 else simDuration
  }

  /** The image of graph `name` at timestep `t`. */
  function TimestepPath(name: string, filename: string, t: nat, extension: string): string
  {
    ImageDir + name + "_" + filename + "_" + NatToString(t) + extension
  }

  /** The single image of the input graph (`name` is "input_graph"). */
  function InputGraphPath(name: string, filename: string, extension: string): string
  {
    "results/" + name + "_" + filename + extension
  }

  /** The images of graph `name` at timesteps 0 .. count - 1, in increasing order. */
  function TimestepPaths(name: string, filename: string, extension: string, count: nat): (r: seq<string>)
    ensures |r| == count
  {
    if count == 0 then []
    else TimestepPaths(name, filename, extension, count - 1) + [TimestepPath(name, filename, count - 1, extension)]
  }

  lemma {:induction false} TimestepPathsAt(name: string, filename: string, extension: string, count: nat, t: nat)
    requires t < count
    ensures TimestepPaths(name, filename, extension, count)[t] == TimestepPath(name, filename, t, extension)
  {
    if t < count - 1 {
      TimestepPathsAt(name, filename, extension, count - 1, t);
    }
  }

  /** The paths one graph contributes for one extension. */
  function GraphImagePaths(name: string, filename: string, extension: string, simDuration: int): seq<string>
  {
    if name == "input_graph" then [InputGraphPath(name, filename, extension)]
    else TimestepPaths(name, filename, extension, TimestepCount(simDuration))
  }

  /** The paths all graphs contribute for one extension, in the order of `names`. */
  function ExtensionImagePaths(names: seq<string>, filename: string, extension: string, simDuration: int): seq<string>
  {
    if names == [] then []
    else
      ExtensionImagePaths(names[..|names| - 1], filename, extension, simDuration)
      + GraphImagePaths(names[|names| - 1], filename, extension, simDuration)
  }

  /** All expected stage-3 image paths: extensions outermost, then graphs, then timesteps. */
  function ExpectedImagePaths(extensions: seq<string>, names: seq<string>, filename: string, simDuration: int): seq<string>
  {
    if extensions == [] then []
    else
      ExpectedImagePaths(extensions[..|extensions| - 1], names, filename, simDuration)
      + ExtensionImagePaths(names, filename, extensions[|extensions| - 1], simDuration)
  }

  /**
   * `get_expected_image_paths_stage_3`: computes the filename first (its
   * errors come first), then needs `alg_props` among the input graph's
   * attributes, then lists the paths.
   */
  method GetExpectedImagePathsStage3(
    graphNames: seq<string>, inputGraphAttrs: Dict, runConfig: Dict,
    extensions: seq<string>, env: Collaborators)
    returns (r: Result<seq<string>>)
    ensures RunConfigToFilename(runConfig).Err? ==> r == Err(RunConfigToFilename(runConfig).error)
    ensures RunConfigToFilename(runConfig).Ok? && "alg_props" !in Keys(inputGraphAttrs) ==>
      r == Err(Exception(AlgPropsMissing))
    ensures RunConfigToFilename(runConfig).Ok? && "alg_props" in Keys(inputGraphAttrs) ==>
      r == Ok(ExpectedImagePaths(extensions, graphNames, RunConfigToFilename(runConfig).value,
                                 env.getSimDuration(inputGraphAttrs, runConfig)))
  {
    var name := RunConfigToFilename(runConfig);
    if name.Err? {
      return Err(name.error);
    }
    if "alg_props" !in Keys(inputGraphAttrs) {
      return Err(Exception(AlgPropsMissing));
    }
    var simDuration := env.getSimDuration(inputGraphAttrs, runConfig);
    var imageFilepaths := CollectImagePaths(graphNames, name.value, extensions, simDuration);
    return Ok(imageFilepaths);
  }

  /** The three nested loops of `get_expected_image_paths_stage_3` that append the paths. */
  method CollectImagePaths(graphNames: seq<string>, filename: string, extensions: seq<string>, simDuration: int)
    returns (imageFilepaths: seq<string>)
    ensures imageFilepaths == ExpectedImagePaths(extensions, graphNames, filename, simDuration)
  {
    imageFilepaths := [];
    for e := 0 to |extensions|
      invariant imageFilepaths == ExpectedImagePaths(extensions[..e], graphNames, filename, simDuration)
    {
      imageFilepaths := AppendExtensionImagePaths(imageFilepaths, graphNames, filename, extensions[e], simDuration);
      assert extensions[..e + 1][..e] == extensions[..e];
    }
    assert extensions[..|extensions|] == extensions;
  }

  /** The middle loop, over the graph names, for one extension. */
  method AppendExtensionImagePaths(done: seq<string>, graphNames: seq<string>, filename: string, extension: string, simDuration: int)
    returns (imageFilepaths: seq<string>)
    ensures imageFilepaths == done + ExtensionImagePaths(graphNames, filename, extension, simDuration)
  {
    imageFilepaths := done;
    for g := 0 to |graphNames|
      invariant imageFilepaths == done + ExtensionImagePaths(graphNames[..g], filename, extension, simDuration)
    {
      imageFilepaths := AppendGraphImagePaths(imageFilepaths, graphNames[g], filename, extension, simDuration);
      assert graphNames[..g + 1][..g] == graphNames[..g];
    }
    assert graphNames[..|graphNames|] == graphNames;
  }

  /** The innermost loop, over the timesteps, or the single input-graph path. */
  method AppendGraphImagePaths(done: seq<string>, graphName: string, filename: string, extension: string, simDuration: int)
    returns (imageFilepaths: seq<string>)
    ensures imageFilepaths == done + GraphImagePaths(graphName, filename, extension, simDuration)
  {
    imageFilepaths := done;
    if graphName == "input_graph" {
      imageFilepaths := imageFilepaths + [InputGraphPath(graphName, filename, extension)];
    } else {
      for t := 0 to TimestepCount(simDuration)
        invariant imageFilepaths == done + TimestepPaths(graphName, filename, extension, t)
      {
        imageFilepaths := imageFilepaths + [TimestepPath(graphName, filename, t, extension)];
      }
    }
  }

  lemma MulSucc(a: int, c: int)
    ensures a * c + c == (a + 1) * c
  {
  }

  lemma {:induction false} ExtensionImagePathsLength(names: seq<string>, filename: string, extension: string, simDuration: int)
    ensures |ExtensionImagePaths(names, filename, extension, simDuration)| ==
      Count(names, "input_graph") + (|names| - Count(names, "input_graph")) * TimestepCount(simDuration)
  {
    if names != [] {
      var init := names[..|names| - 1];
      ExtensionImagePathsLength(init, filename, extension, simDuration);
      var c := TimestepCount(simDuration);
      var o := Count(init, "input_graph");
      var last := names[|names| - 1];
      CountSnoc(init, last, "input_graph");
      assert names == init + [last];
      assert |GraphImagePaths(last, filename, extension, simDuration)| == if last == "input_graph" then 1 else c;
      if last != "input_graph" {
        assert Count(names, "input_graph") == o;
        MulSucc(|init| - o, c);
      } else {
        assert Count(names, "input_graph") == o + 1;
      }
    }
  }

  /**
   * Each extension contributes one path per `input_graph` entry and one per
   * timestep for every other graph name.
   */
  lemma {:induction false} ExpectedImagePathsLength(extensions: seq<string>, names: seq<string>, filename: string, simDuration: int)
    ensures |ExpectedImagePaths(extensions, names, filename, simDuration)| ==
      |extensions| * (Count(names, "input_graph") +
                      (|names| - Count(names, "input_graph")) * TimestepCount(simDuration))
  {
    if extensions != [] {
      ExpectedImagePathsLength(extensions[..|extensions| - 1], names, filename, simDuration);
      ExtensionImagePathsLength(names, filename, extensions[|extensions| - 1], simDuration);
      var x := Count(names, "input_graph") + (|names| - Count(names, "input_graph")) * TimestepCount(simDuration);
      MulSucc(|extensions| - 1, x);
    }
  }

  /** `p` is a path that some extension and some graph name call for. */
  ghost predicate IsExpectedImagePath(p: string, extensions: seq<string>, names: seq<string>, filename: string, simDuration: int)
  {
    exists e :: 0 <= e < |extensions| && IsExtensionImagePath(p, names, filename, extensions[e], simDuration)
  }

  /** `p` is the input-graph path, or a timestep path of any other graph. */
  ghost predicate IsGraphImagePath(p: string, name: string, filename: string, extension: string, simDuration: int)
  {
    if name == "input_graph" then p == InputGraphPath(name, filename, extension)
    else exists t :: 0 <= t < simDuration && p == TimestepPath(name, filename, t, extension)
  }

  lemma GraphImagePathsMembers(p: string, name: string, filename: string, extension: string, simDuration: int)
    ensures p in GraphImagePaths(name, filename, extension, simDuration) <==>
      IsGraphImagePath(p, name, filename, extension, simDuration)
  {
    if name != "input_graph" {
      var ps := GraphImagePaths(name, filename, extension, simDuration);
      if p in ps {
        var t :| 0 <= t < |ps| && ps[t] == p;
        TimestepPathsAt(name, filename, extension, TimestepCount(simDuration), t);
      }
      if IsGraphImagePath(p, name, filename, extension, simDuration) {
        var t :| 0 <= t < simDuration && p == TimestepPath(name, filename, t, extension);
        TimestepPathsAt(name, filename, extension, TimestepCount(simDuration), t);
      }
    }
  }

  /** `p` is a path that some graph name calls for, for one extension. */
  ghost predicate IsExtensionImagePath(p: string, names: seq<string>, filename: string, extension: string, simDuration: int)
  {
    exists n :: 0 <= n < |names| && IsGraphImagePath(p, names[n], filename, extension, simDuration)
  }

  lemma {:induction false} ExtensionImagePathsMembers(p: string, names: seq<string>, filename: string, extension: string, simDuration: int)
    ensures p in ExtensionImagePaths(names, filename, extension, simDuration) <==>
      IsExtensionImagePath(p, names, filename, extension, simDuration)
  {
    if names != [] {
      var init := names[..|names| - 1];
      var last := |names| - 1;
      ExtensionImagePathsMembers(p, init, filename, extension, simDuration);
      GraphImagePathsMembers(p, names[last], filename, extension, simDuration);
      IsExtensionImagePathSnoc(p, names, filename, extension, simDuration);
    }
  }

  /** A graph name calls for `p` when one of the earlier names or the last one does. */
  lemma IsExtensionImagePathSnoc(p: string, names: seq<string>, filename: string, extension: string, simDuration: int)
    requires names != []
    ensures IsExtensionImagePath(p, names, filename, extension, simDuration) <==>
      IsExtensionImagePath(p, names[..|names| - 1], filename, extension, simDuration) ||
      IsGraphImagePath(p, names[|names| - 1], filename, extension, simDuration)
  {
    var init := names[..|names| - 1];
    if IsExtensionImagePath(p, names, filename, extension, simDuration) {
      var n :| 0 <= n < |names| && IsGraphImagePath(p, names[n], filename, extension, simDuration);
      if n < |init| {
        assert init[n] == names[n];
      }
    }
    if IsExtensionImagePath(p, init, filename, extension, simDuration) {
      var n :| 0 <= n < |init| && IsGraphImagePath(p, init[n], filename, extension, simDuration);
      assert names[n] == init[n];
    }
  }

  /** A path is listed exactly when some extension and some graph name call for it. */
  lemma {:induction false} ExpectedImagePathsMembers(p: string, extensions: seq<string>, names: seq<string>, filename: string, simDuration: int)
    ensures p in ExpectedImagePaths(extensions, names, filename, simDuration) <==>
      IsExpectedImagePath(p, extensions, names, filename, simDuration)
  {
    if extensions != [] {
      var init := extensions[..|extensions| - 1];
      var last := |extensions| - 1;
      ExpectedImagePathsMembers(p, init, names, filename, simDuration);
      ExtensionImagePathsMembers(p, names, filename, extensions[last], simDuration);
      IsExpectedImagePathSnoc(p, extensions, names, filename, simDuration);
    }
  }

  /** An extension calls for `p` when one of the earlier extensions or the last one does. */
  lemma IsExpectedImagePathSnoc(p: string, extensions: seq<string>, names: seq<string>, filename: string, simDuration: int)
    requires extensions != []
    ensures IsExpectedImagePath(p, extensions, names, filename, simDuration) <==>
      IsExpectedImagePath(p, extensions[..|extensions| - 1], names, filename, simDuration) ||
      IsExtensionImagePath(p, names, filename, extensions[|extensions| - 1], simDuration)
  {
    var init := extensions[..|extensions| - 1];
    if IsExpectedImagePath(p, extensions, names, filename, simDuration) {
      var e :| 0 <= e < |extensions| && IsExtensionImagePath(p, names, filename, extensions[e], simDuration);
      if e < |init| {
        assert init[e] == extensions[e];
      }
    }
    if IsExpectedImagePath(p, init, names, filename, simDuration) {
      var e :| 0 <= e < |init| && IsExtensionImagePath(p, names, filename, init[e], simDuration);
      assert extensions[e] == init[e];
    }
  }
}
