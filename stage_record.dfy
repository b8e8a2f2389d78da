/**
 * The per-graph stage-completion record: the `completed_stages` list a
 * graph carries among its graph-level attributes, and the stages a run is
 * expected to have recorded by a given stage (src/snncompare/helper.py).
 */
module StageRecord {
  import opened PyValues
  import opened Graphs

  const CompletedStagesKey: string := "completed_stages"

  /** The stage indices as the list holds them. */
  function StageValues(stages: seq<int>): (r: seq<Value>)
    ensures |r| == |stages|
    ensures forall i :: 0 <= i < |stages| ==> r[i] == VInt(stages[i])
  {
    if stages == [] then [] else [VInt(stages[0])] + StageValues(stages[1..])
  }

  /**
   * What `add_stage_completion_to_graph` does to the graph attributes `attrs`:
   * stage 1 creates the list and needs it absent; every other stage needs
   * an existing list; the stage must not be recorded yet and is appended.
   */
  function MarkStage(attrs: Dict, stageIndex: int): (r: Result<Dict>)
    ensures stageIndex == 1 ==> (r.Ok? <==> CompletedStagesKey !in Keys(attrs))
    ensures stageIndex == 1 && r.Err? ==> r.error == ValueError
    ensures stageIndex == 1 && r.Ok? ==> Get(r.value, CompletedStagesKey) == Some(VList([VInt(1)]))
    ensures stageIndex != 1 && CompletedStagesKey !in Keys(attrs) ==> r == Err(KeyError(CompletedStagesKey))
    ensures stageIndex != 1 && CompletedStagesKey in Keys(attrs) && !Get(attrs, CompletedStagesKey).value.VList? ==>
      r == Err(TypeError)
    ensures stageIndex != 1 && CompletedStagesKey in Keys(attrs) && Get(attrs, CompletedStagesKey).value.VList? ==>
      var stages := Get(attrs, CompletedStagesKey).value.items;
      (r.Err? <==> Recorded(stages, stageIndex)) &&
      (r.Err? ==> r.error == ValueError) &&
      (r.Ok? ==> Get(r.value, CompletedStagesKey) == Some(VList(stages + [VInt(stageIndex)])))
    ensures r.Ok? ==> Keys(r.value) == Keys(attrs) + {CompletedStagesKey}
    ensures r.Ok? ==> forall k :: k != CompletedStagesKey ==> Get(r.value, k) == Get(attrs, k)
  {
    if stageIndex == 1 then
      if CompletedStagesKey in Keys(attrs) then Err(ValueError)
      else
        var created := Set(attrs, CompletedStagesKey, VList([]));
        SetTwice(attrs, CompletedStagesKey, VList([]), VList([VInt(1)]));
        assert forall k :: Get(Set(attrs, CompletedStagesKey, VList([VInt(1)])), k) == (if k == CompletedStagesKey then Some(VList([VInt(1)])) else Get(attrs, k)) by {
          forall k { GetSet(attrs, CompletedStagesKey, VList([VInt(1)]), k); }
        }
        assert [] + [VInt(1)] == [VInt(1)];
        Append(created, stageIndex, [])
    else
      match Get(attrs, CompletedStagesKey)
      case None => Err(KeyError(CompletedStagesKey))
      case Some(current) =>
        if !current.VList? then Err(TypeError)
        else Append(attrs, stageIndex, current.items)
  }

  /** `stage_index in stages`: some entry is Python-equal to the stage, so `True` counts as stage 1. */
  predicate Recorded(stages: seq<Value>, stageIndex: int)
  {
    exists j :: 0 <= j < |stages| && Eq(VInt(stageIndex), stages[j])
  }

  /** The membership check and the append shared by all stages. */
  function Append(attrs: Dict, stageIndex: int, stages: seq<Value>): (r: Result<Dict>)
    ensures r.Err? <==> Recorded(stages, stageIndex)
    ensures r.Err? ==> r.error == ValueError
    ensures r.Ok? ==> r.value == Set(attrs, CompletedStagesKey, VList(stages + [VInt(stageIndex)]))
    ensures r.Ok? ==> Keys(r.value) == Keys(attrs) + {CompletedStagesKey}
    ensures r.Ok? ==>
      forall k :: Get(r.value, k) == (if k == CompletedStagesKey then Some(VList(stages + [VInt(stageIndex)])) else Get(attrs, k))
  {
    if Recorded(stages, stageIndex) then Err(ValueError)
    else
      var updated := Set(attrs, CompletedStagesKey, VList(stages + [VInt(stageIndex)]));
      assert forall k :: Get(updated, k) == (if k == CompletedStagesKey then Some(VList(stages + [VInt(stageIndex)])) else Get(attrs, k)) by {
        forall k { GetSet(attrs, CompletedStagesKey, VList(stages + [VInt(stageIndex)]), k); }
      }
      Ok(updated)
  }

  lemma {:induction false} SetTwice(d: Dict, k: string, v: Value, v': Value)
    ensures Set(Set(d, k, v), k, v') == Set(d, k, v')
  {
    if d != [] && d[0].0 != k {
      SetTwice(d[1..], k, v, v');
    }
  }

  /**
   * `add_stage_completion_to_graph(snn, stage_index)`: records the stage in
   * place; when it raises, the graph is left as it was.
   */
  method AddStageCompletionToGraph(snn: Graph, stageIndex: int) returns (r: Outcome)
    modifies snn`attrs
    ensures MarkStage(old(snn.attrs), stageIndex).Ok? ==>
      r == Pass && snn.attrs == MarkStage(old(snn.attrs), stageIndex).value
    ensures MarkStage(old(snn.attrs), stageIndex).Err? ==>
      r == Fail(MarkStage(old(snn.attrs), stageIndex).error) && snn.attrs == old(snn.attrs)
  {
    var stages: seq<Value>;
    if stageIndex == 1 {
      if CompletedStagesKey in Keys(snn.attrs) {
        return Fail(ValueError);
      }
      snn.attrs := Set(snn.attrs, CompletedStagesKey, VList([]));
      SetTwice(old(snn.attrs), CompletedStagesKey, VList([]), VList([VInt(1)]));
      stages := [];
    } else {
      var current := Get(snn.attrs, CompletedStagesKey);
      if current.None? {
        return Fail(KeyError(CompletedStagesKey));
      }
      if !current.value.VList? {
        return Fail(TypeError);
      }
      stages := current.value.items;
    }
    if Recorded(stages, stageIndex) {
      return Fail(ValueError);
    }
    snn.attrs := Set(snn.attrs, CompletedStagesKey, VList(stages + [VInt(stageIndex)]));
    SetTwice(old(snn.attrs), CompletedStagesKey, VList([]), VList([VInt(stageIndex)]));
    return Pass;
  }

  // ---------------------------------------------------------------------
  // The record never holds a stage twice
  // ---------------------------------------------------------------------

  /** The record, where present, is a list no two of whose entries are Python-equal. */
  ghost predicate ValidRecord(attrs: Dict)
  {
    CompletedStagesKey in Keys(attrs) && Get(attrs, CompletedStagesKey).value.VList? ==>
      NoEqualEntries(Get(attrs, CompletedStagesKey).value.items)
  }

  /** No two entries are equal under Python's `==`. */
  ghost predicate NoEqualEntries(xs: seq<Value>)
  {
    forall i, j :: 0 <= i < j < |xs| ==> !Eq(xs[i], xs[j])
  }

  /** Recording a stage keeps the record free of Python-equal entries. */
  lemma MarkStageKeepsRecordValid(attrs: Dict, stageIndex: int)
    requires ValidRecord(attrs)
    requires MarkStage(attrs, stageIndex).Ok?
    ensures ValidRecord(MarkStage(attrs, stageIndex).value)
  {
    if stageIndex != 1 {
      var stages := Get(attrs, CompletedStagesKey).value.items;
      var after := stages + [VInt(stageIndex)];
      assert !Recorded(stages, stageIndex);
      forall i, j | 0 <= i < j < |after|
        ensures !Eq(after[i], after[j])
      {
        if j == |stages| {
          assert after[i] == stages[i];
          assert !Eq(VInt(stageIndex), stages[i]);
        }
      }
    }
  }

  /** Marking a stage twice fails the second time with ValueError. */
  lemma MarkStageTwiceFails(attrs: Dict, stageIndex: int)
    requires MarkStage(attrs, stageIndex).Ok?
    ensures MarkStage(MarkStage(attrs, stageIndex).value, stageIndex) == Err(ValueError)
  {
    var after := MarkStage(attrs, stageIndex).value;
    assert CompletedStagesKey in Keys(after);
    if stageIndex != 1 {
      var stages := Get(attrs, CompletedStagesKey).value.items;
      assert (stages + [VInt(stageIndex)])[|stages|] == VInt(stageIndex);
    }
  }

  // ---------------------------------------------------------------------
  // get_expected_stages
  // ---------------------------------------------------------------------

  /** `list(range(lo, hi))` */
  function Range(lo: int, hi: int): (r: seq<int>)
    ensures |r| == if lo < hi then hi - lo else 0
    ensures forall i :: 0 <= i < |r| ==> r[i] == lo + i
    ensures forall i :: i in r <==> lo <= i < hi
    decreases hi - lo
  {
    if lo >= hi then [] else [lo] + Range(lo + 1, hi)
  }

  /** `xs.remove(x)`: drops the first occurrence of `x`. */
  function RemoveFirst(xs: seq<int>, x: int): (r: seq<int>)
    requires x in xs
    ensures |r| == |xs| - 1
  {
    if xs[0] == x then xs[1..] else [xs[0]] + RemoveFirst(xs[1..], x)
  }

  ghost predicate StrictlyIncreasing(xs: seq<int>)
  {
    forall i, j :: 0 <= i < j < |xs| ==> xs[i] < xs[j]
  }

  /** From an increasing list, `remove` takes out exactly `x` and keeps the order. */
  lemma {:induction false} RemoveFirstIncreasing(xs: seq<int>, x: int)
    requires x in xs && StrictlyIncreasing(xs)
    ensures StrictlyIncreasing(RemoveFirst(xs, x))
    ensures forall y :: y in RemoveFirst(xs, x) <==> y in xs && y != x
  {
    if xs[0] != x {
      assert StrictlyIncreasing(xs[1..]);
      RemoveFirstIncreasing(xs[1..], x);
      var r := RemoveFirst(xs[1..], x);
      forall y | y in r
        ensures xs[0] < y
      {
        assert y in xs[1..];
        var j :| 0 <= j < |xs[1..]| && xs[1..][j] == y;
        assert xs[j + 1] == y;
      }
      var out := [xs[0]] + r;
      assert RemoveFirst(xs, x) == out;
      forall i, j | 0 <= i < j < |out|
        ensures out[i] < out[j]
      {
        if i == 0 {
          assert out[j] == r[j - 1];
          assert r[j - 1] in r;
        } else {
          assert out[i] == r[i - 1] && out[j] == r[j - 1];
        }
      }
      forall y
        ensures y in out <==> y in xs && y != x
      {
        assert xs == [xs[0]] + xs[1..];
      }
    } else {
      forall y | y in xs[1..]
        ensures y != x
      {
        var j :| 0 <= j < |xs[1..]| && xs[1..][j] == y;
        assert xs[j + 1] == y;
      }
    }
  }

  /**
   * `get_expected_stages(stage_index)`: the stages 1 .. stage_index whose
   * completion is recorded in `completed_stages`; stage 3 is left out
   * because its completion is judged by image files. The final
   * `list(set(sorted(...)))` leaves an increasing list of distinct small
   * integers as it is, so it does not appear here.
   */
  function GetExpectedStages(stageIndex: int): (r: seq<int>)
    ensures forall i :: i in r <==> 1 <= i <= stageIndex && i != 3
    ensures StrictlyIncreasing(r)
    ensures stageIndex < 1 ==> r == []
  {
    var expectedStages := Range(1, stageIndex + 1);
    if 3 in expectedStages then
      RemoveFirstIncreasing(expectedStages, 3);
      RemoveFirst(expectedStages, 3)
    else expectedStages
  }

  /** Growing the stage by one adds that stage at the end, unless it is stage 3. */
  lemma ExpectedStagesStep(k: int)
    requires k >= 1
    ensures GetExpectedStages(k) == GetExpectedStages(k - 1) + (if k == 3 then [] else [k])
  {
    var a := GetExpectedStages(k - 1);
    var b := GetExpectedStages(k);
    if k == 3 {
      assert a + [] == a;
      IncreasingSameElements(b, a);
    } else {
      SnocIncreasing(a, k);
      forall y
        ensures y in b <==> y in a + [k]
      {
      }
      IncreasingSameElements(b, a + [k]);
    }
  }

  /** Appending a value above every element keeps a list increasing. */
  lemma SnocIncreasing(xs: seq<int>, x: int)
    requires StrictlyIncreasing(xs) && forall y :: y in xs ==> y < x
    ensures StrictlyIncreasing(xs + [x])
  {
    forall i, j | 0 <= i < j < |xs| + 1
      ensures (xs + [x])[i] < (xs + [x])[j]
    {
      if j == |xs| {
        assert xs[i] in xs;
      }
    }
  }

  /** Two increasing lists with the same elements are equal. */
  lemma {:induction false} IncreasingSameElements(xs: seq<int>, ys: seq<int>)
    requires StrictlyIncreasing(xs) && StrictlyIncreasing(ys)
    requires forall y :: y in xs <==> y in ys
    ensures xs == ys
  {
    if xs != [] {
      assert xs[0] in xs;
      assert ys != [];
    }
    if ys != [] {
      assert ys[0] in ys;
      assert xs != [];
    }
    if xs != [] && ys != [] {
      assert xs[0] in ys;
      assert ys[0] in xs;
      assert xs[0] == ys[0] by {
        var i :| 0 <= i < |ys| && ys[i] == xs[0];
        var j :| 0 <= j < |xs| && xs[j] == ys[0];
        assert ys[0] <= ys[i] && xs[0] <= xs[j];
      }
      forall y
        ensures y in xs[1..] <==> y in ys[1..]
      {
        if y in xs[1..] {
          var i :| 0 <= i < |xs[1..]| && xs[1..][i] == y;
          assert xs[0] < xs[i + 1];
          assert y in ys;
        }
        if y in ys[1..] {
          var i :| 0 <= i < |ys[1..]| && ys[1..][i] == y;
          assert ys[0] < ys[i + 1];
          assert y in xs;
        }
      }
      IncreasingSameElements(xs[1..], ys[1..]);
      assert xs == [xs[0]] + xs[1..];
      assert ys == [ys[0]] + ys[1..];
    }
  }

  // ---------------------------------------------------------------------
  // Recording stages in turn
  // ---------------------------------------------------------------------

  /** Calls `add_stage_completion_to_graph` for each stage in turn, stopping at the first error. */
  function MarkStages(attrs: Dict, stages: seq<int>): Result<Dict>
    decreases |stages|
  {
    if stages == [] then Ok(attrs)
    else
      match MarkStages(attrs, stages[..|stages| - 1])
      case Err(e) => Err(e)
      case Ok(a) => MarkStage(a, stages[|stages| - 1])
  }

  /** `after` is `attrs` with the record holding exactly `stages`. */
  ghost predicate Records(after: Dict, attrs: Dict, stages: seq<int>)
  {
    && Get(after, CompletedStagesKey) == Some(VList(StageValues(stages)))
    && forall key :: key != CompletedStagesKey ==> Get(after, key) == Get(attrs, key)
  }

  /** Recording one more stage that is not stage 1 and not yet recorded appends it. */
  lemma MarkStagesSnoc(attrs: Dict, stages: seq<int>, k: int)
    requires MarkStages(attrs, stages).Ok? && Records(MarkStages(attrs, stages).value, attrs, stages)
    requires k != 1 && k !in stages
    ensures MarkStages(attrs, stages + [k]).Ok?
    ensures Records(MarkStages(attrs, stages + [k]).value, attrs, stages + [k])
  {
    var a := MarkStages(attrs, stages).value;
    assert (stages + [k])[..|stages + [k]| - 1] == stages;
    forall i | 0 <= i < |stages|
      ensures StageValues(stages)[i] != VInt(k)
    {
      assert stages[i] in stages;
    }
    assert StageValues(stages) + [VInt(k)] == StageValues(stages + [k]);
  }

  /** Recording stage 1 on a graph without a record creates it. */
  lemma MarkStagesFirst(attrs: Dict)
    requires CompletedStagesKey !in Keys(attrs)
    ensures MarkStages(attrs, [1]).Ok?
    ensures Records(MarkStages(attrs, [1]).value, attrs, [1])
  {
    assert [1][..0] == [];
    assert StageValues([1]) == [VInt(1)];
  }

  /**
   * Recording the stages a run is expected to record by stage `k`, in order,
   * on a graph that has no record yet, succeeds and leaves the record equal
   * to `get_expected_stages(k)`; every other attribute is unchanged.
   */
  lemma {:induction false} MarkExpectedStages(attrs: Dict, k: int)
    requires CompletedStagesKey !in Keys(attrs)
    requires k >= 1
    ensures MarkStages(attrs, GetExpectedStages(k)).Ok?
    ensures Records(MarkStages(attrs, GetExpectedStages(k)).value, attrs, GetExpectedStages(k))
  {
    ExpectedStagesStep(k);
    var prev := GetExpectedStages(k - 1);
    if k == 1 {
      assert prev == [];
      assert GetExpectedStages(k) == [1];
      MarkStagesFirst(attrs);
    } else if k == 3 {
      MarkExpectedStages(attrs, k - 1);
    } else {
      MarkExpectedStages(attrs, k - 1);
      MarkStagesSnoc(attrs, prev, k);
    }
  }
}
