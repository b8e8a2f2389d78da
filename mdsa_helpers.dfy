/**
 * The MDSA (minimum dominating set approximation) helpers of
 * src/snncompare/helper.py: the simulation duration an MDSA run needs, the
 * random numbers its nodes start from, and the marking rounds that run on
 * the input graph for m > 0.
 */
module MdsaHelpers {
  import opened PyValues
  import opened Graphs

  // ---------------------------------------------------------------------
  // get_max_sim_duration
  // ---------------------------------------------------------------------

  /**
   * `get_max_sim_duration`: only the first algorithm of `run_config.algorithm`
   * is looked at. MDSA on a graph of `graphSize` nodes needs
   * graphSize * (graphSize + 1) * (m_val + 1) timesteps; any other algorithm
   * is not supported, and an empty algorithm dictionary has no duration.
   */
  function GetMaxSimDuration(graphSize: nat, algorithm: Dict): (r: Result<int>)
    ensures algorithm == [] ==> r == Err(ValueError)
    ensures algorithm != [] && algorithm[0].0 != "MDSA" ==> r == Err(NotImplementedError)
    ensures algorithm != [] && algorithm[0].0 == "MDSA" && !algorithm[0].1.VDict? ==> r == Err(TypeError)
    ensures algorithm != [] && algorithm[0].0 == "MDSA" && algorithm[0].1.VDict? ==>
      var settings := algorithm[0].1.entries;
      (Get(settings, "m_val").None? ==> r == Err(KeyError("m_val"))) &&
      (Get(settings, "m_val").Some? && !Get(settings, "m_val").value.VInt? ==> r == Err(TypeError)) &&
      (Get(settings, "m_val").Some? && Get(settings, "m_val").value.VInt? ==>
        r.Ok? && r.value == graphSize * (graphSize + 1) * (Get(settings, "m_val").value.i + 1))
  {
    if algorithm == [] then Err(ValueError)
    else
      var (algoName, algoSettings) := algorithm[0];
      if algoName != "MDSA" then Err(NotImplementedError)
      else if !algoSettings.VDict? then Err(TypeError)
      else
        match Get(algoSettings.entries, "m_val")
        case None => Err(KeyError("m_val"))
        case Some(VInt(m)) => Ok(graphSize * (graphSize + 1) * (m + 1))
        case Some(_) => Err(TypeError)
  }

  /**
   * For m_val >= 0 the duration covers at least one timestep per node, and
   * a larger graph with the same algorithm settings never gets a shorter
   * duration.
   */
  lemma SimDurationBounds(n: nat, n': nat, algorithm: Dict)
    requires n <= n' && GetMaxSimDuration(n, algorithm).Ok?
    requires Get(algorithm[0].1.entries, "m_val").value.i >= 0
    ensures GetMaxSimDuration(n', algorithm).Ok?
    ensures GetMaxSimDuration(n, algorithm).value >= n
    ensures GetMaxSimDuration(n, algorithm).value <= GetMaxSimDuration(n', algorithm).value
  {
    ProductBounds(n, n', Get(algorithm[0].1.entries, "m_val").value.i);
  }

  lemma ProductBounds(n: nat, n': nat, m: int)
    requires m >= 0 && n <= n'
    ensures n * (n + 1) * (m + 1) >= n
    ensures n * (n + 1) * (m + 1) <= n' * (n' + 1) * (m + 1)
  {
    assert (n + 1) * (m + 1) >= 1 by { MulAtLeastOne(n + 1, m + 1); }
    assert n * ((n + 1) * (m + 1)) >= n by { MulMonotone(n, (n + 1) * (m + 1), 1); }
    MulMonotoneLeft(n, n', n + 1);
    MulMonotoneLeft(n + 1, n' + 1, n');
    MulMonotoneLeft(n * (n + 1), n' * (n' + 1), m + 1);
  }

  lemma MulAtLeastOne(a: int, b: int)
    requires a >= 1 && b >= 1
    ensures a * b >= 1
  {
    MulMonotoneLeft(1, a, b);
  }

  lemma MulMonotone(a: nat, b: int, c: int)
    requires b >= c
    ensures a * b >= a * c
  {
    if a > 0 {
      MulMonotone(a - 1, b, c);
      assert a * b == (a - 1) * b + b;
      assert a * c == (a - 1) * c + c;
    }
  }

  lemma MulMonotoneLeft(a: int, b: int, c: nat)
    requires a <= b
    ensures a * c <= b * c
  {
    if c > 0 {
      MulMonotoneLeft(a, b, c - 1);
      assert a * c == a * (c - 1) + a;
      assert b * c == b * (c - 1) + b;
    }
  }

  // ---------------------------------------------------------------------
  // generate_list_of_n_random_nrs
  // ---------------------------------------------------------------------

  /** `list(range(0, n))` */
  function Upto(n: nat): (r: seq<int>)
    ensures |r| == n
    ensures forall i :: 0 <= i < n ==> r[i] == i
  {
    if n == 0 then [] else Upto(n - 1) + [n - 1]
  }

  /**
   * `generate_list_of_n_random_nrs`: without `max_val`, or with
   * `max_val == len(G) - 1`, the numbers 0 .. len(G) - 1 in order; with
   * `max_val >= len(G)`, `random.sample(range(max_val), len(G))`, i.e.
   * some len(G) distinct numbers below `max_val` in some order; any smaller
   * `max_val` is refused. The random generator is not modelled, so the seed
   * does not determine the sample here.
   */
  method GenerateListOfNRandomNrs(graphSize: nat, maxVal: Option<int>, seed: Option<int>) returns (r: Result<seq<int>>)
    ensures r.Err? <==> maxVal.Some? && maxVal.value < graphSize - 1
    ensures r.Err? ==> r.error == ValueError
    ensures maxVal.None? || maxVal.value == graphSize - 1 ==> r == Ok(Upto(graphSize))
    ensures r.Ok? ==> |r.value| == graphSize && Distinct(r.value)
    ensures r.Ok? && maxVal.Some? ==> forall i :: 0 <= i < |r.value| ==> 0 <= r.value[i] < maxVal.value + (if maxVal.value == graphSize - 1 then 1 else 0)
  {
    if maxVal.None? {
      return Ok(Upto(graphSize));
    }
    var max := maxVal.value;
    if max == graphSize - 1 {
      return Ok(Upto(graphSize));
    }
    if max >= graphSize {
      assert IsSample(Upto(graphSize), graphSize, max);
      var sample: seq<int> :| IsSample(sample, graphSize, max);
      assert IsSample(sample, graphSize, max);
      return Ok(sample);
    }
    return Err(ValueError);
  }

  /** `xs` is a possible value of `random.sample(range(bound), n)`. */
  predicate IsSample(xs: seq<int>, n: nat, bound: int)
  {
    |xs| == n && Distinct(xs) && forall i :: 0 <= i < |xs| ==> 0 <= xs[i] < bound
  }

  // ---------------------------------------------------------------------
  // compute_marks_for_m_larger_than_one
  // ---------------------------------------------------------------------

  /** The node attributes a marking round writes. */
  datatype NodeState = NodeState(weight: seq<int>, marks: seq<int>, countermarks: seq<int>)

  ghost predicate NoIsolatedNode(adjacency: seq<seq<nat>>)
  {
    forall v :: 0 <= v < |adjacency| ==> adjacency[v] != []
  }

  /** A networkx graph lists each neighbour once. */
  ghost predicate NoRepeatedNeighbour(adjacency: seq<seq<nat>>)
  {
    forall v :: 0 <= v < |adjacency| ==> Distinct(adjacency[v])
  }

  ghost predicate InRange(nbrs: seq<nat>, n: nat)
  {
    forall j :: 0 <= j < |nbrs| ==> nbrs[j] < n
  }

  /** Python's `max(w[x] for x in nbrs)` on a non-empty neighbourhood. */
  function MaxWeight(w: seq<int>, nbrs: seq<nat>): (m: int)
    requires nbrs != [] && InRange(nbrs, |w|)
  {
    if |nbrs| == 1 then w[nbrs[0]]
    else
      var rest := MaxWeight(w, nbrs[1..]);
      if w[nbrs[0]] >= rest then w[nbrs[0]] else rest
  }

  /** The maximum is at least every neighbour's weight and is the weight of some neighbour. */
  lemma {:induction false} MaxWeightIsMax(w: seq<int>, nbrs: seq<nat>)
    requires nbrs != [] && InRange(nbrs, |w|)
    ensures forall j :: 0 <= j < |nbrs| ==> w[nbrs[j]] <= MaxWeight(w, nbrs)
    ensures exists j :: 0 <= j < |nbrs| && w[nbrs[j]] == MaxWeight(w, nbrs)
    decreases |nbrs|
  {
    var m := MaxWeight(w, nbrs);
    if |nbrs| == 1 {
      assert w[nbrs[0]] == m;
    } else {
      var rest := nbrs[1..];
      MaxWeightIsMax(w, rest);
      forall j | 1 <= j < |nbrs|
        ensures w[nbrs[j]] <= m
      {
        assert nbrs[j] == rest[j - 1];
      }
      var k :| 0 <= k < |rest| && w[rest[k]] == MaxWeight(w, rest);
      if w[nbrs[0]] >= MaxWeight(w, rest) {
        assert w[nbrs[0]] == m;
      } else {
        assert nbrs[k + 1] == rest[k];
        assert w[nbrs[k + 1]] == m;
      }
    }
  }

  /**
   * The countermarks after one node has raised, in the order of `nbrs`, the
   * countermark of each of its neighbours whose weight is `maxWeight`.
   */
  function MarkNeighbours(c: seq<int>, nbrs: seq<nat>, w: seq<int>, maxWeight: int): (r: seq<int>)
    requires |w| == |c| && InRange(nbrs, |c|)
    ensures |r| == |c|
    decreases |nbrs|
  {
    if nbrs == [] then c
    else
      var before := MarkNeighbours(c, nbrs[..|nbrs| - 1], w, maxWeight);
      var x := nbrs[|nbrs| - 1];
      if w[x] == maxWeight then before[x := before[x] + 1] else before
  }

  function Zeros(n: nat): (r: seq<int>)
    ensures |r| == n && forall i :: 0 <= i < n ==> r[i] == 0
  {
    seq(n, i => 0)
  }

  /** The countermarks after nodes 0 .. u - 1 have marked their neighbours, starting from zero. */
  function Tally(adjacency: seq<seq<nat>>, w: seq<int>, u: nat): (r: seq<int>)
    requires |w| == |adjacency| && NeighboursAreNodes(adjacency)
    requires u <= |adjacency| && forall v :: 0 <= v < u ==> adjacency[v] != []
    ensures |r| == |adjacency|
  {
    if u == 0 then Zeros(|adjacency|)
    else
      var nbrs := adjacency[u - 1];
      assert InRange(nbrs, |w|);
      MarkNeighbours(Tally(adjacency, w, u - 1), nbrs, w, MaxWeight(w, nbrs))
  }

  /** The weights of a round: marks plus random number, node by node. */
  function Weights(marks: seq<int>, randomNumber: seq<int>): (r: seq<int>)
    requires |marks| == |randomNumber|
    ensures |r| == |marks| && forall v :: 0 <= v < |r| ==> r[v] == marks[v] + randomNumber[v]
  {
    seq(|marks|, v requires 0 <= v < |marks| => marks[v] + randomNumber[v])
  }

  function Scale(c: int, xs: seq<int>): (r: seq<int>)
    ensures |r| == |xs| && forall v :: 0 <= v < |r| ==> r[v] == c * xs[v]
  {
    seq(|xs|, v requires 0 <= v < |xs| => c * xs[v])
  }

  /**
   * One round of the marking loop: the weights become marks plus random
   * numbers; every node then gives one countermark, and rand_ceil + 1 marks,
   * to each of its neighbours of maximal weight.
   */
  function MarkingRound(adjacency: seq<seq<nat>>, randomNumber: seq<int>, marks: seq<int>, randCeil: int): (s: NodeState)
    requires |randomNumber| == |adjacency| && |marks| == |adjacency|
    requires NeighboursAreNodes(adjacency) && NoIsolatedNode(adjacency)
    ensures |s.weight| == |s.marks| == |s.countermarks| == |adjacency|
  {
    var w := Weights(marks, randomNumber);
    var c := Tally(adjacency, w, |adjacency|);
    NodeState(w, Scale(randCeil + 1, c), c)
  }

  /** `k` marking rounds from state `s`; each round starts from the marks of the previous one. */
  function MarkingRounds(adjacency: seq<seq<nat>>, randomNumber: seq<int>, s: NodeState, randCeil: int, k: nat): (r: NodeState)
    requires |randomNumber| == |adjacency| && |s.weight| == |s.marks| == |s.countermarks| == |adjacency|
    requires NeighboursAreNodes(adjacency) && (k > 0 ==> NoIsolatedNode(adjacency))
    ensures |r.weight| == |r.marks| == |r.countermarks| == |adjacency|
  {
    if k == 0 then s
    else MarkingRound(adjacency, randomNumber, MarkingRounds(adjacency, randomNumber, s, randCeil, k - 1).marks, randCeil)
  }

  /** `len(range(1, m + 1))` */
  function RoundCount(m: int): nat
  {
    if m > 0 then m else 0
  }

  /**
   * `compute_marks_for_m_larger_than_one`: runs rounds 1 .. m on the node
   * attributes in place. A node without neighbours makes `max` raise
   * ValueError in the first round; otherwise the attributes end as `m`
   * marking rounds leave them, and for m <= 0 nothing changes.
   */
  method ComputeMarksForMLargerThanOne(g: Graph, m: int, randCeil: int) returns (r: Outcome)
    requires g.Valid()
    modifies g`weight, g`marks, g`countermarks
    ensures g.Valid()
    ensures r.Fail? <==> m >= 1 && !NoIsolatedNode(g.adjacency)
    ensures r.Fail? ==> r.error == ValueError
    ensures r.Pass? ==>
      NodeState(g.weight, g.marks, g.countermarks) ==
      MarkingRounds(g.adjacency, g.randomNumber, old(NodeState(g.weight, g.marks, g.countermarks)), randCeil, RoundCount(m))
    ensures m < 1 ==> r == Pass && g.weight == old(g.weight) && g.marks == old(g.marks) && g.countermarks == old(g.countermarks)
    ensures r.Pass? && m >= 1 ==> forall v :: 0 <= v < |g.marks| ==> g.marks[v] == (randCeil + 1) * g.countermarks[v]
    ensures g.randomNumber == old(g.randomNumber) && g.attrs == old(g.attrs)
  {
    ghost var s0 := NodeState(g.weight, g.marks, g.countermarks);
    r := MarkingRoundsLoop(g, m, randCeil);
    if r.Pass? && m >= 1 {
      MarkingRoundsScaled(g.adjacency, g.randomNumber, s0, randCeil, RoundCount(m));
    }
  }

  /** The node attributes of `g` are those `k` rounds from `s0` leave. */
  ghost predicate RoundsReached(g: Graph, s0: NodeState, randCeil: int, k: nat)
    reads g
  {
    && g.Valid() && |s0.weight| == |s0.marks| == |s0.countermarks| == |g.adjacency|
    && (k > 0 ==> NoIsolatedNode(g.adjacency))
    && NodeState(g.weight, g.marks, g.countermarks) == MarkingRounds(g.adjacency, g.randomNumber, s0, randCeil, k)
  }

  /** `for loop in range(1, m + 1)`: the rounds, stopping where `max` raises. */
  method MarkingRoundsLoop(g: Graph, m: int, randCeil: int) returns (r: Outcome)
    requires g.Valid()
    modifies g`weight, g`marks, g`countermarks
    ensures g.Valid()
    ensures r.Fail? <==> m >= 1 && !NoIsolatedNode(g.adjacency)
    ensures r.Fail? ==> r.error == ValueError
    ensures r.Pass? ==> RoundsReached(g, old(NodeState(g.weight, g.marks, g.countermarks)), randCeil, RoundCount(m))
  {
    ghost var s0 := NodeState(g.weight, g.marks, g.countermarks);
    ghost var adjacency, randomNumber := g.adjacency, g.randomNumber;
    var loop := 1;
    while loop <= m
      invariant 1 <= loop <= if m >= 1 then m + 1 else 1
      invariant g.adjacency == adjacency && g.randomNumber == randomNumber
      invariant RoundsReached(g, s0, randCeil, loop - 1)
    {
      ghost var before := NodeState(g.weight, g.marks, g.countermarks);
      var ok := MarkingLoop(g, randCeil);
      if !ok {
        return Fail(ValueError);
      }
      MarkingRoundsSucc(adjacency, randomNumber, s0, randCeil, loop - 1, before);
      loop := loop + 1;
    }
    return Pass;
  }

  /** The round after `k` rounds starts from the marks those rounds left. */
  lemma MarkingRoundsSucc(adjacency: seq<seq<nat>>, randomNumber: seq<int>, s: NodeState, randCeil: int, k: nat, st: NodeState)
    requires |randomNumber| == |adjacency| && |s.weight| == |s.marks| == |s.countermarks| == |adjacency|
    requires NeighboursAreNodes(adjacency) && NoIsolatedNode(adjacency)
    requires st == MarkingRounds(adjacency, randomNumber, s, randCeil, k)
    ensures MarkingRounds(adjacency, randomNumber, s, randCeil, k + 1) == MarkingRound(adjacency, randomNumber, st.marks, randCeil)
  {
  }

  /** After at least one round, the marks are rand_ceil + 1 times the countermarks. */
  lemma MarkingRoundsScaled(adjacency: seq<seq<nat>>, randomNumber: seq<int>, s: NodeState, randCeil: int, k: nat)
    requires |randomNumber| == |adjacency| && |s.weight| == |s.marks| == |s.countermarks| == |adjacency|
    requires NeighboursAreNodes(adjacency) && NoIsolatedNode(adjacency) && k >= 1
    ensures var r := MarkingRounds(adjacency, randomNumber, s, randCeil, k);
      forall v :: 0 <= v < |r.marks| ==> r.marks[v] == (randCeil + 1) * r.countermarks[v]
  {
  }

  /** The body of `for loop in range(1, m + 1)`: one marking round, or false where `max` raises. */
  method MarkingLoop(g: Graph, randCeil: int) returns (ok: bool)
    requires g.Valid()
    modifies g`weight, g`marks, g`countermarks
    ensures g.Valid()
    ensures ok <==> NoIsolatedNode(g.adjacency)
    ensures ok ==> NodeState(g.weight, g.marks, g.countermarks) == MarkingRound(g.adjacency, g.randomNumber, old(g.marks), randCeil)
  {
    WeighNodes(g);
    ok := MarkRound(g, randCeil);
  }

  /** The first loop of a round: set each node's weight, reset its marks and countermarks. */
  method WeighNodes(g: Graph)
    requires g.Valid()
    modifies g`weight, g`marks, g`countermarks
    ensures g.Valid()
    ensures g.weight == Weights(old(g.marks), g.randomNumber)
    ensures g.marks == Zeros(|g.adjacency|) && g.countermarks == Zeros(|g.adjacency|)
  {
    var n := |g.adjacency|;
    for v := 0 to n
      invariant g.Valid()
      invariant forall u :: 0 <= u < v ==> g.weight[u] == old(g.marks)[u] + g.randomNumber[u]
      invariant forall u :: 0 <= u < v ==> g.marks[u] == 0 && g.countermarks[u] == 0
      invariant forall u :: v <= u < n ==> g.marks[u] == old(g.marks)[u]
    {
      g.weight := g.weight[v := g.marks[v] + g.randomNumber[v]];
      g.marks := g.marks[v := 0];
      g.countermarks := g.countermarks[v := 0];
    }
  }

  /**
   * The second loop of a round: every node, in order, marks its neighbours
   * of maximal weight. Returns false where `max` would raise, at the first
   * node without neighbours.
   */
  method MarkRound(g: Graph, randCeil: int) returns (ok: bool)
    requires g.Valid()
    requires g.marks == Zeros(|g.adjacency|) && g.countermarks == Zeros(|g.adjacency|)
    modifies g`marks, g`countermarks
    ensures g.Valid()
    ensures ok <==> NoIsolatedNode(g.adjacency)
    ensures ok ==> g.countermarks == Tally(g.adjacency, g.weight, |g.adjacency|)
    ensures ok ==> g.marks == Scale(randCeil + 1, g.countermarks)
  {
    ghost var adjacency, weight := g.adjacency, g.weight;
    var n := |g.adjacency|;
    for v := 0 to n
      invariant g.Valid() && g.adjacency == adjacency && g.weight == weight
      invariant forall u :: 0 <= u < v ==> adjacency[u] != []
      invariant g.countermarks == Tally(adjacency, weight, v)
      invariant g.marks == Scale(randCeil + 1, g.countermarks)
    {
      if g.adjacency[v] == [] {
        return false;
      }
      MarkMaximalNeighbours(g, v, randCeil);
    }
    return true;
  }

  /** Raising one countermark by one raises the scaled value by the factor. */
  lemma ScaleIncrement(c: int, xs: seq<int>, x: nat)
    requires x < |xs|
    ensures Scale(c, xs)[x := Scale(c, xs)[x] + c] == Scale(c, xs[x := xs[x] + 1])
  {
    var a := Scale(c, xs)[x := Scale(c, xs)[x] + c];
    var b := Scale(c, xs[x := xs[x] + 1]);
    forall i | 0 <= i < |xs|
      ensures a[i] == b[i]
    {
      if i == x {
        assert c * (xs[x] + 1) == c * xs[x] + c;
      }
    }
  }

  /** One node of the second loop: it marks each of its neighbours of maximal weight. */
  method MarkMaximalNeighbours(g: Graph, v: nat, randCeil: int)
    requires g.Valid() && v < |g.adjacency| && g.adjacency[v] != []
    requires g.marks == Scale(randCeil + 1, g.countermarks)
    modifies g`marks, g`countermarks
    ensures g.Valid()
    ensures g.countermarks ==
      (assert InRange(g.adjacency[v], |g.weight|);
       MarkNeighbours(old(g.countermarks), g.adjacency[v], g.weight, MaxWeight(g.weight, g.adjacency[v])))
    ensures g.marks == Scale(randCeil + 1, g.countermarks)
  {
    var neighbours := g.adjacency[v];
    ghost var weight, countermarks := g.weight, g.countermarks;
    assert InRange(neighbours, |weight|);
    var maxWeight := MaxWeight(g.weight, neighbours);
    for j := 0 to |neighbours|
      invariant g.Valid() && g.weight == weight && g.adjacency[v] == neighbours
      invariant g.countermarks == MarkNeighbours(countermarks, neighbours[..j], weight, maxWeight)
      invariant g.marks == Scale(randCeil + 1, g.countermarks)
    {
      var x := neighbours[j];
      assert neighbours[..j + 1][..j] == neighbours[..j];
      if g.weight[x] == maxWeight {
        ScaleIncrement(randCeil + 1, g.countermarks, x);
        g.marks := g.marks[x := g.marks[x] + randCeil + 1];
        g.countermarks := g.countermarks[x := g.countermarks[x] + 1];
      }
    }
    assert neighbours[..|neighbours|] == neighbours;
  }

  // ---------------------------------------------------------------------
  // What a marking round computes
  // ---------------------------------------------------------------------

  /** Marking the neighbours raises the countermark of `x` once per occurrence, if its weight is maximal. */
  lemma {:induction false} MarkNeighboursAt(c: seq<int>, nbrs: seq<nat>, w: seq<int>, maxWeight: int, x: nat)
    requires |w| == |c| && InRange(nbrs, |c|) && x < |c|
    ensures MarkNeighbours(c, nbrs, w, maxWeight)[x] == c[x] + (if w[x] == maxWeight then Count(nbrs, x) else 0)
    decreases |nbrs|
  {
    if nbrs != [] {
      var init := nbrs[..|nbrs| - 1];
      MarkNeighboursAt(c, init, w, maxWeight, x);
      CountSnoc(init, nbrs[|nbrs| - 1], x);
      assert nbrs == init + [nbrs[|nbrs| - 1]];
    }
  }

  /** A neighbour that occurs once in a list without repetitions. */
  lemma {:induction false} CountDistinct(nbrs: seq<nat>, x: nat)
    requires Distinct(nbrs)
    ensures Count(nbrs, x) == if x in nbrs then 1 else 0
    decreases |nbrs|
  {
    if nbrs != [] {
      var init := nbrs[..|nbrs| - 1];
      CountDistinct(init, x);
      CountSnoc(init, nbrs[|nbrs| - 1], x);
      assert nbrs == init + [nbrs[|nbrs| - 1]];
      if nbrs[|nbrs| - 1] == x {
        assert x !in init by {
          forall i | 0 <= i < |init|
            ensures init[i] != x
          {
            assert init[i] == nbrs[i];
          }
        }
      }
    }
  }

  /** Node `v` has `x` as a neighbour of maximal weight. */
  ghost predicate MarksNeighbour(adjacency: seq<seq<nat>>, w: seq<int>, v: nat, x: nat)
    requires |w| == |adjacency| && NeighboursAreNodes(adjacency)
    requires v < |adjacency| && adjacency[v] != []
  {
    assert InRange(adjacency[v], |w|);
    x in adjacency[v] && w[x] == MaxWeight(w, adjacency[v])
  }

  /** The nodes among 0 .. u - 1 that have `x` as a neighbour of maximal weight. */
  ghost function MarkingNodes(adjacency: seq<seq<nat>>, w: seq<int>, u: nat, x: nat): set<nat>
    requires |w| == |adjacency| && NeighboursAreNodes(adjacency)
    requires u <= |adjacency| && forall v :: 0 <= v < u ==> adjacency[v] != []
  {
    set v: nat | v < u && MarksNeighbour(adjacency, w, v, x)
  }

  /**
   * After a round, the countermarks of a node are the number of nodes that
   * have it as a neighbour of maximal weight.
   */
  lemma {:induction false} CountermarksCountMarkingNodes(adjacency: seq<seq<nat>>, w: seq<int>, u: nat, x: nat)
    requires |w| == |adjacency| && NeighboursAreNodes(adjacency) && NoRepeatedNeighbour(adjacency)
    requires u <= |adjacency| && forall v :: 0 <= v < u ==> adjacency[v] != []
    requires x < |adjacency|
    ensures Tally(adjacency, w, u)[x] == |MarkingNodes(adjacency, w, u, x)|
  {
    if u == 0 {
      assert MarkingNodes(adjacency, w, u, x) == {};
    } else {
      var nbrs := adjacency[u - 1];
      assert InRange(nbrs, |w|);
      var maxWeight := MaxWeight(w, nbrs);
      CountermarksCountMarkingNodes(adjacency, w, u - 1, x);
      MarkNeighboursAt(Tally(adjacency, w, u - 1), nbrs, w, maxWeight, x);
      CountDistinct(nbrs, x);
      MarkingNodesStep(adjacency, w, u, x);
      if MarksNeighbour(adjacency, w, u - 1, x) {
        assert u - 1 !in MarkingNodes(adjacency, w, u - 1, x);
      }
    }
  }

  /** Taking node u - 1 into account adds it to the marking nodes exactly when it marks `x`. */
  lemma MarkingNodesStep(adjacency: seq<seq<nat>>, w: seq<int>, u: nat, x: nat)
    requires |w| == |adjacency| && NeighboursAreNodes(adjacency)
    requires 1 <= u <= |adjacency| && forall v :: 0 <= v < u ==> adjacency[v] != []
    ensures MarkingNodes(adjacency, w, u, x) ==
      MarkingNodes(adjacency, w, u - 1, x) + (if MarksNeighbour(adjacency, w, u - 1, x) then {u - 1} else {})
  {
  }

  /**
   * Every node gives a countermark to some neighbour: after a round on a
   * graph without isolated nodes, each node has a neighbour with at least
   * one countermark.
   */
  lemma EveryNodeMarksANeighbour(adjacency: seq<seq<nat>>, w: seq<int>, v: nat)
    requires |w| == |adjacency| && NeighboursAreNodes(adjacency) && NoRepeatedNeighbour(adjacency)
    requires NoIsolatedNode(adjacency) && v < |adjacency|
    ensures exists j :: 0 <= j < |adjacency[v]| && Tally(adjacency, w, |adjacency|)[adjacency[v][j]] >= 1
  {
    var nbrs := adjacency[v];
    assert InRange(nbrs, |w|);
    MaxWeightIsMax(w, nbrs);
    var j :| 0 <= j < |nbrs| && w[nbrs[j]] == MaxWeight(w, nbrs);
    var x := nbrs[j];
    CountermarksCountMarkingNodes(adjacency, w, |adjacency|, x);
    assert v in MarkingNodes(adjacency, w, |adjacency|, x);
  }
}
