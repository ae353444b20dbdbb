/** `merge(results)`: combines the per-chunk graphs the language model returns.
    Counts are summed per name, weights per unordered pair of names (keyed by the
    sorted pair), and the 50 heaviest nodes and 200 heaviest edges are kept. */
module Merging {
  import opened Sequences
  import opened Sorting
  import opened Counters
  import opened Strings
  import opened Graphs

  /** One chunk's parsed reply: `[name, count]` items and `[a, b, weight]` items. */
  datatype ChunkResult = ChunkResult(nodes: seq<(string, int)>, edges: seq<(string, string, int)>)

  /** `(tuple(sorted((a, b))), w)`: the key under which an edge is counted. */
  function EdgeEntry(e: (string, string, int)): ((string, string), int)
  {
    (SortedPair(e.0, e.1), e.2)
  }

  /** The node items of all chunks, in the order the loop visits them. */
  function NodeEntries(rs: seq<ChunkResult>): seq<(string, int)>
  {
    if rs == [] then [] else NodeEntries(rs[..|rs| - 1]) + rs[|rs| - 1].nodes
  }

  /** The keyed edge items of all chunks, in the order the loop visits them. */
  function EdgeEntries(rs: seq<ChunkResult>): seq<((string, string), int)>
  {
    if rs == [] then [] else EdgeEntries(rs[..|rs| - 1]) + MapSeq(rs[|rs| - 1].edges, EdgeEntry)
  }

  /** The graph `merge` returns. */
  function Merged(rs: seq<ChunkResult>): Graph
  {
    Graph(ToNodes(MostCommon(Tally(NodeEntries(rs)), TopNodes)),
          ToEdges(TopDesc(Tally(EdgeEntries(rs)), Count, TopEdges)))
  }

  /** `merge(results)` */
  method Merge(results: seq<ChunkResult>) returns (g: Graph)
    ensures g == Merged(results)
  {
    var nodeCtr: Counter<string> := [];
    var edgeCtr: Counter<(string, string)> := [];
    var r := 0;
    while r < |results|
      invariant 0 <= r <= |results|
      invariant nodeCtr == Tally(NodeEntries(results[..r]))
      invariant edgeCtr == Tally(EdgeEntries(results[..r]))
    {
      var d := results[r];
      nodeCtr := AddEach(nodeCtr, NodeEntries(results[..r]), d.nodes);
      edgeCtr := CountEdges(edgeCtr, EdgeEntries(results[..r]), d.edges);
      assert results[..r + 1][..r] == results[..r];
      r := r + 1;
    }
    assert results[..|results|] == results;
    var topNodes := MostCommon(nodeCtr, TopNodes);
    var topEdges := TopDesc(edgeCtr, Count, TopEdges);
    g := Graph(ToNodes(topNodes), ToEdges(topEdges));
  }

  /** `for a, b, w in edges: edge_ctr[tuple(sorted((a, b)))] += int(w)` */
  method CountEdges(c: Counter<(string, string)>, ghost before: seq<((string, string), int)>,
                    edges: seq<(string, string, int)>) returns (c': Counter<(string, string)>)
    requires c == Tally(before)
    ensures c' == Tally(before + MapSeq(edges, EdgeEntry))
  {
    c' := c;
    assert before + MapSeq(edges[..0], EdgeEntry) == before;
    var j := 0;
    while j < |edges|
      invariant 0 <= j <= |edges|
      invariant c' == Tally(before + MapSeq(edges[..j], EdgeEntry))
    {
      var (a, b, w) := edges[j];
      var edge := SortedPair(a, b);
      TallySnoc(before + MapSeq(edges[..j], EdgeEntry), (edge, w));
      assert edges[..j + 1][..j] == edges[..j];
      assert before + MapSeq(edges[..j + 1], EdgeEntry)
          == before + MapSeq(edges[..j], EdgeEntry) + [(edge, w)];
      c' := Add(c', edge, w);
      j := j + 1;
    }
    assert edges[..|edges|] == edges;
  }

  // ---------------------------------------------------------------- reference sums

  /** The count reported for name, summed over all chunks. */
  function NodeSum(rs: seq<ChunkResult>, name: string): int
  {
    if rs == [] then 0 else NodeSum(rs[..|rs| - 1], name) + SumFor(rs[|rs| - 1].nodes, name)
  }

  /** Whether edge e joins a and b, in either direction. */
  predicate Joins(e: (string, string, int), a: string, b: string)
  {
    (e.0 == a && e.1 == b) || (e.0 == b && e.1 == a)
  }

  /** The weight of the edges of es joining a and b, in either direction. */
  function PairSum(es: seq<(string, string, int)>, a: string, b: string): int
  {
    if es == [] then 0
    else PairSum(es[..|es| - 1], a, b) + (if Joins(es[|es| - 1], a, b) then es[|es| - 1].2 else 0)
  }

  /** The weight reported between a and b, in either direction, over all chunks. */
  function EdgeSum(rs: seq<ChunkResult>, a: string, b: string): int
  {
    if rs == [] then 0 else EdgeSum(rs[..|rs| - 1], a, b) + PairSum(rs[|rs| - 1].edges, a, b)
  }

  lemma {:induction false} NodeEntriesSum(rs: seq<ChunkResult>, name: string)
    ensures SumFor(NodeEntries(rs), name) == NodeSum(rs, name)
  {
    if rs != [] {
      NodeEntriesSum(rs[..|rs| - 1], name);
      SumForAppend(NodeEntries(rs[..|rs| - 1]), rs[|rs| - 1].nodes, name);
    }
  }

  /** Keying an edge by its sorted pair sums (a, b) and (b, a) together. */
  lemma {:induction false} EdgeKeySum(es: seq<(string, string, int)>, a: string, b: string)
    ensures SumFor(MapSeq(es, EdgeEntry), SortedPair(a, b)) == PairSum(es, a, b)
  {
    if es != [] {
      var es', e := es[..|es| - 1], es[|es| - 1];
      EdgeKeySum(es', a, b);
      SortedPairKey(e.0, e.1, a, b);
      assert (MapSeq(es', EdgeEntry) + [EdgeEntry(e)])[..|es'|] == MapSeq(es', EdgeEntry);
    }
  }

  lemma {:induction false} EdgeEntriesSum(rs: seq<ChunkResult>, a: string, b: string)
    ensures SumFor(EdgeEntries(rs), SortedPair(a, b)) == EdgeSum(rs, a, b)
  {
    if rs != [] {
      EdgeEntriesSum(rs[..|rs| - 1], a, b);
      EdgeKeySum(rs[|rs| - 1].edges, a, b);
      SumForAppend(EdgeEntries(rs[..|rs| - 1]), MapSeq(rs[|rs| - 1].edges, EdgeEntry), SortedPair(a, b));
    }
  }

  // ---------------------------------------------------------------- properties of merge

  /** The merged nodes: at most 50, distinct names, each with its count summed over
      all chunks, in non-increasing count order, and no name left out outranks a
      name kept. */
  lemma MergedNodes(rs: seq<ChunkResult>)
    ensures var ns := Merged(rs).nodes;
      |ns| <= TopNodes
      && (forall i, j :: 0 <= i < j < |ns| ==> ns[i].count >= ns[j].count && ns[i].name != ns[j].name)
      && (forall i :: 0 <= i < |ns| ==> ns[i].count == NodeSum(rs, ns[i].name))
      && (forall i, x :: 0 <= i < |ns| && x in Keys(NodeEntries(rs)) && (forall j :: 0 <= j < |ns| ==> ns[j].name != x)
            ==> NodeSum(rs, x) <= ns[i].count)
  {
    var c := Tally(NodeEntries(rs));
    var t := MostCommon(c, TopNodes);
    var ns := Merged(rs).nodes;
    assert |ns| == |t|;
    assert forall i :: 0 <= i < |t| ==> ns[i].name == t[i].0 == Keys(t)[i] && ns[i].count == t[i].1;
    assert DistinctKeys(c) by {
      TallyKeys(NodeEntries(rs));
    }
    forall i, j | 0 <= i < j < |ns|
      ensures ns[i].count >= ns[j].count && ns[i].name != ns[j].name
    {
      MostCommonEntries(c, TopNodes);
    }
    forall i | 0 <= i < |ns|
      ensures ns[i].count == NodeSum(rs, ns[i].name)
    {
      MostCommonEntries(c, TopNodes);
      TallyGet(NodeEntries(rs), ns[i].name);
      NodeEntriesSum(rs, ns[i].name);
    }
    forall i, x | 0 <= i < |ns| && x in Keys(NodeEntries(rs)) && (forall j :: 0 <= j < |ns| ==> ns[j].name != x)
      ensures NodeSum(rs, x) <= ns[i].count
    {
      assert x in Keys(c) by {
        TallyKeys(NodeEntries(rs));
        assert x in Elems(Dedup(Keys(NodeEntries(rs))));
      }
      assert x !in Keys(t) by {
        forall l | 0 <= l < |t|
          ensures Keys(t)[l] != x
        {
          assert Keys(t)[l] == ns[l].name;
        }
      }
      MostCommonTop(c, TopNodes);
      TallyGet(NodeEntries(rs), x);
      NodeEntriesSum(rs, x);
    }
  }

  /** The merged edges: at most 200, each between a sorted pair of names (a self-pair
      is kept), no unordered pair twice, each weight the sum over all chunks of the
      edges between the two names in either direction, in non-increasing weight order,
      and no pair left out outweighs an edge kept. */
  lemma MergedEdges(rs: seq<ChunkResult>)
    ensures var es := Merged(rs).edges;
      |es| <= TopEdges
      && (forall i :: 0 <= i < |es| ==> es[i].source == es[i].target || StrLess(es[i].source, es[i].target))
      && (forall i :: 0 <= i < |es| ==> es[i].weight == EdgeSum(rs, es[i].source, es[i].target))
      && (forall i, j :: 0 <= i < j < |es| ==> es[i].weight >= es[j].weight)
      && (forall i, j :: 0 <= i < j < |es| ==> SortedPair(es[i].source, es[i].target) != SortedPair(es[j].source, es[j].target))
      && (forall i, x, y :: 0 <= i < |es| && SortedPair(x, y) in Keys(EdgeEntries(rs))
            && (forall j :: 0 <= j < |es| ==> SortedPair(es[j].source, es[j].target) != SortedPair(x, y))
            ==> EdgeSum(rs, x, y) <= es[i].weight)
  {
    var es := Merged(rs).edges;
    forall i | 0 <= i < |es|
      ensures es[i].source == es[i].target || StrLess(es[i].source, es[i].target)
      ensures es[i].weight == EdgeSum(rs, es[i].source, es[i].target)
    {
      MergedEdgeAt(rs, i);
    }
    MergedEdgesOrder(rs);
    MergedEdgesTop(rs);
  }

  /** One merged edge: its ends are the key it was counted under, and its weight is
      the summed weight of the chunk edges between them. */
  lemma MergedEdgeAt(rs: seq<ChunkResult>, i: nat)
    requires i < |Merged(rs).edges|
    ensures var e := Merged(rs).edges[i];
      (e.source == e.target || StrLess(e.source, e.target))
      && SortedPair(e.source, e.target) == TopDesc(Tally(EdgeEntries(rs)), Count, TopEdges)[i].0
      && e.weight == EdgeSum(rs, e.source, e.target)
  {
    var c := Tally(EdgeEntries(rs));
    var t := TopDesc(c, Count, TopEdges);
    var k := t[i].0;
    assert k in Keys(EdgeEntries(rs)) && Get(c, k) == t[i].1 by {
      TallyKeys(EdgeEntries(rs));
      MostCommonEntries(c, TopEdges);
      assert k in Elems(Dedup(Keys(EdgeEntries(rs))));
    }
    EdgeKeyCanonical(rs, k);
    SortedPairKey(k.0, k.1, k.0, k.1);
    TallyGet(EdgeEntries(rs), k);
    EdgeEntriesSum(rs, k.0, k.1);
  }

  /** The merged edges are in non-increasing weight order and no pair is kept twice. */
  lemma MergedEdgesOrder(rs: seq<ChunkResult>)
    ensures var es := Merged(rs).edges;
      (forall i, j :: 0 <= i < j < |es| ==> es[i].weight >= es[j].weight)
      && (forall i, j :: 0 <= i < j < |es| ==> SortedPair(es[i].source, es[i].target) != SortedPair(es[j].source, es[j].target))
  {
    var c := Tally(EdgeEntries(rs));
    var t := TopDesc(c, Count, TopEdges);
    var es := Merged(rs).edges;
    TallyKeys(EdgeEntries(rs));
    MostCommonEntries(c, TopEdges);
    assert forall i :: 0 <= i < |t| ==> Keys(t)[i] == t[i].0;
    forall i | 0 <= i < |es|
      ensures SortedPair(es[i].source, es[i].target) == Keys(t)[i]
    {
      MergedEdgeAt(rs, i);
    }
  }

  /** No pair left out outweighs a merged edge. */
  lemma MergedEdgesTop(rs: seq<ChunkResult>)
    ensures var es := Merged(rs).edges;
      forall i, x, y :: 0 <= i < |es| && SortedPair(x, y) in Keys(EdgeEntries(rs))
        && (forall j :: 0 <= j < |es| ==> SortedPair(es[j].source, es[j].target) != SortedPair(x, y))
        ==> EdgeSum(rs, x, y) <= es[i].weight
  {
    var c := Tally(EdgeEntries(rs));
    var t := TopDesc(c, Count, TopEdges);
    var es := Merged(rs).edges;
    forall i, x, y | 0 <= i < |es| && SortedPair(x, y) in Keys(EdgeEntries(rs))
        && (forall j :: 0 <= j < |es| ==> SortedPair(es[j].source, es[j].target) != SortedPair(x, y))
      ensures EdgeSum(rs, x, y) <= es[i].weight
    {
      var k := SortedPair(x, y);
      assert DistinctKeys(c) && k in Keys(c) by {
        TallyKeys(EdgeEntries(rs));
        assert k in Elems(Dedup(Keys(EdgeEntries(rs))));
      }
      assert k !in Keys(t) by {
        forall l | 0 <= l < |t|
          ensures Keys(t)[l] != k
        {
          MergedEdgeAt(rs, l);
        }
      }
      MostCommonTop(c, TopEdges);
      assert t == MostCommon(c, TopEdges);
      assert Get(c, k) <= t[i].1 == es[i].weight;
      TallyGet(EdgeEntries(rs), k);
      EdgeEntriesSum(rs, x, y);
    }
  }

  /** Every edge key is the sorted pair of its own two names. */
  lemma {:induction false} EdgeKeyCanonical(rs: seq<ChunkResult>, k: (string, string))
    requires k in Keys(EdgeEntries(rs))
    ensures SortedPair(k.0, k.1) == k
  {
    var i :| 0 <= i < |EdgeEntries(rs)| && Keys(EdgeEntries(rs))[i] == k;
    var rs', last := rs[..|rs| - 1], rs[|rs| - 1];
    var m := MapSeq(last.edges, EdgeEntry);
    if i < |EdgeEntries(rs')| {
      assert Keys(EdgeEntries(rs'))[i] == k;
      EdgeKeyCanonical(rs', k);
    } else {
      var j := i - |EdgeEntries(rs')|;
      assert EdgeEntries(rs)[i] == m[j];
      MapSeqAt(last.edges, EdgeEntry, j);
      var e := last.edges[j];
      SortedPairKey(e.0, e.1, e.0, e.1);
      StrLessAsymmetric(e.0, e.1);
      StrLessIrreflexive(e.0);
    }
  }

  /** Ties keep the order in which the names were first reported. */
  lemma MergedNodeTies(rs: seq<ChunkResult>, v: int)
    ensures Keys(Tally(NodeEntries(rs))) == Dedup(Keys(NodeEntries(rs)))
    ensures Filter(MostCommon(Tally(NodeEntries(rs)), TopNodes), Count, v) <= Filter(Tally(NodeEntries(rs)), Count, v)
  {
    TallyKeys(NodeEntries(rs));
    TopDescStable(Tally(NodeEntries(rs)), Count, TopNodes, v);
  }

  /** Tied edges keep the order in which their pairs were first reported. */
  lemma MergedEdgeTies(rs: seq<ChunkResult>, v: int)
    ensures Keys(Tally(EdgeEntries(rs))) == Dedup(Keys(EdgeEntries(rs)))
    ensures Filter(TopDesc(Tally(EdgeEntries(rs)), Count, TopEdges), Count, v) <= Filter(Tally(EdgeEntries(rs)), Count, v)
  {
    TallyKeys(EdgeEntries(rs));
    TopDescStable(Tally(EdgeEntries(rs)), Count, TopEdges, v);
  }

  lemma {:induction false} NodeSumAppend(a: seq<ChunkResult>, b: seq<ChunkResult>, name: string)
    ensures NodeSum(a + b, name) == NodeSum(a, name) + NodeSum(b, name)
    decreases |b|
  {
    if b == [] {
      assert a + b == a;
    } else {
      assert (a + b)[..|a + b| - 1] == a + b[..|b| - 1];
      NodeSumAppend(a, b[..|b| - 1], name);
    }
  }

  lemma {:induction false} EdgeSumAppend(a: seq<ChunkResult>, b: seq<ChunkResult>, x: string, y: string)
    ensures EdgeSum(a + b, x, y) == EdgeSum(a, x, y) + EdgeSum(b, x, y)
    decreases |b|
  {
    if b == [] {
      assert a + b == a;
    } else {
      assert (a + b)[..|a + b| - 1] == a + b[..|b| - 1];
      EdgeSumAppend(a, b[..|b| - 1], x, y);
    }
  }

  /** The summed count of a name and the summed weight of a pair do not depend on
      the order in which the chunk results arrive. */
  lemma MergeOrderIndependent(a: seq<ChunkResult>, b: seq<ChunkResult>, name: string, x: string, y: string)
    ensures Get(Tally(NodeEntries(a + b)), name) == Get(Tally(NodeEntries(b + a)), name)
    ensures Get(Tally(EdgeEntries(a + b)), SortedPair(x, y)) == Get(Tally(EdgeEntries(b + a)), SortedPair(x, y))
  {
    TallyGet(NodeEntries(a + b), name);
    TallyGet(NodeEntries(b + a), name);
    NodeEntriesSum(a + b, name);
    NodeEntriesSum(b + a, name);
    NodeSumAppend(a, b, name);
    NodeSumAppend(b, a, name);
    TallyGet(EdgeEntries(a + b), SortedPair(x, y));
    TallyGet(EdgeEntries(b + a), SortedPair(x, y));
    EdgeEntriesSum(a + b, x, y);
    EdgeEntriesSum(b + a, x, y);
    EdgeSumAppend(a, b, x, y);
    EdgeSumAppend(b, a, x, y);
  }
}
