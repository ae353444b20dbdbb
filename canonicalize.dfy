/** The map-application half of `clean_graph_with_llm`: every name is re-keyed
    through the alias map the language model returns (`mapping.get(name, name)`),
    counts and weights are summed under the canonical names, and the graph is
    trimmed to 50 nodes and 200 edges. The two pipelines differ in which edges they
    keep: one keeps only edges between distinct names among the 50 kept nodes, the
    other every edge between distinct names. */
module Canonicalize {
  import opened Sequences
  import opened Sorting
  import opened Counters
  import opened Strings
  import opened Graphs

  /** `mapping.get(name, name)` */
  function Canon(mapping: map<string, string>, name: string): string
  {
    if name in mapping then mapping[name] else name
  }

  /** `(canon, n["count"])` for each node, in input order. */
  function CanonNodeEntries(mapping: map<string, string>, nodes: seq<Node>): seq<(string, int)>
  {
    if nodes == [] then []
    else
      var n := nodes[|nodes| - 1];
      CanonNodeEntries(mapping, nodes[..|nodes| - 1]) + [(Canon(mapping, n.name), n.count)]
  }

  /** Which canonical edges survive: between distinct names, and, when a name set
      is given, only between names of that set. */
  datatype EdgeScope = AnyNames | OnlyNames(names: set<string>)

  predicate Kept(scope: EdgeScope, a: string, b: string)
  {
    a != b && (scope.OnlyNames? ==> a in scope.names && b in scope.names)
  }

  /** `(tuple(sorted((a, b))), e["weight"])` for each kept edge, in input order. */
  function CanonEdgeEntries(mapping: map<string, string>, scope: EdgeScope, edges: seq<Edge>): seq<((string, string), int)>
  {
    if edges == [] then []
    else
      var e := edges[|edges| - 1];
      var a, b := Canon(mapping, e.source), Canon(mapping, e.target);
      CanonEdgeEntries(mapping, scope, edges[..|edges| - 1])
        + (if Kept(scope, a, b) then [(SortedPair(a, b), e.weight)] else [])
  }

  /** `{node["name"] for node in cleaned_nodes}` */
  function NodeNames(ns: seq<Node>): set<string>
  {
    set i | 0 <= i < |ns| :: ns[i].name
  }

  /** The cleaned nodes of both pipelines: `most_common(50)`, or equally
      `most_common()[:50]`, of the re-keyed counts. */
  function CleanedNodes(mapping: map<string, string>, nodes: seq<Node>): seq<Node>
  {
    ToNodes(MostCommon(Tally(CanonNodeEntries(mapping, nodes)), TopNodes))
  }

  function CleanedEdges(mapping: map<string, string>, scope: EdgeScope, edges: seq<Edge>): seq<Edge>
  {
    ToEdges(TopDesc(Tally(CanonEdgeEntries(mapping, scope, edges)), Count, TopEdges))
  }

  /** The graph `clean_graph_with_llm` returns in the main pipeline. */
  function Cleaned(mapping: map<string, string>, nodes: seq<Node>, edges: seq<Edge>): Graph
  {
    var cleanedNodes := CleanedNodes(mapping, nodes);
    Graph(cleanedNodes, CleanedEdges(mapping, OnlyNames(NodeNames(cleanedNodes)), edges))
  }

  /** The graph `clean_graph_with_llm` returns in the alternative pipeline. */
  function CleanedAlt(mapping: map<string, string>, nodes: seq<Node>, edges: seq<Edge>): Graph
  {
    Graph(CleanedNodes(mapping, nodes), CleanedEdges(mapping, AnyNames, edges))
  }

  // ---------------------------------------------------------------- the loops

  /** `for n in nodes: merged_counts[mapping.get(n["name"], n["name"])] += n["count"]` */
  method CanonCounts(mapping: map<string, string>, nodes: seq<Node>) returns (c: Counter<string>)
    ensures c == Tally(CanonNodeEntries(mapping, nodes))
  {
    c := [];
    var i := 0;
    while i < |nodes|
      invariant 0 <= i <= |nodes|
      invariant c == Tally(CanonNodeEntries(mapping, nodes[..i]))
    {
      var canon := Canon(mapping, nodes[i].name);
      assert nodes[..i + 1][..i] == nodes[..i];
      TallySnoc(CanonNodeEntries(mapping, nodes[..i]), (canon, nodes[i].count));
      c := Add(c, canon, nodes[i].count);
      i := i + 1;
    }
    assert nodes[..|nodes|] == nodes;
  }

  /** The edge loop: re-key both ends, skip the edges outside the scope, and add
      the weight under the sorted pair. */
  method CanonEdgeCounts(mapping: map<string, string>, scope: EdgeScope, edges: seq<Edge>)
    returns (c: Counter<(string, string)>)
    ensures c == Tally(CanonEdgeEntries(mapping, scope, edges))
  {
    c := [];
    var i := 0;
    while i < |edges|
      invariant 0 <= i <= |edges|
      invariant c == Tally(CanonEdgeEntries(mapping, scope, edges[..i]))
    {
      var a := Canon(mapping, edges[i].source);
      var b := Canon(mapping, edges[i].target);
      assert edges[..i + 1][..i] == edges[..i];
      if Kept(scope, a, b) {
        TallySnoc(CanonEdgeEntries(mapping, scope, edges[..i]), (SortedPair(a, b), edges[i].weight));
        c := Add(c, SortedPair(a, b), edges[i].weight);
      } else {
        assert CanonEdgeEntries(mapping, scope, edges[..i + 1]) == CanonEdgeEntries(mapping, scope, edges[..i]);
      }
      i := i + 1;
    }
    assert edges[..|edges|] == edges;
  }

  /** `clean_graph_with_llm` of the main pipeline, from the alias map on. */
  method CleanGraph(nodes: seq<Node>, edges: seq<Edge>, mapping: map<string, string>) returns (g: Graph)
    ensures g == Cleaned(mapping, nodes, edges)
  {
    var mergedCounts := CanonCounts(mapping, nodes);
    var cleanedNodes := ToNodes(MostCommon(mergedCounts, TopNodes));
    var topCharacterNames := NodeNames(cleanedNodes);
    var edgeCtr := CanonEdgeCounts(mapping, OnlyNames(topCharacterNames), edges);
    g := Graph(cleanedNodes, ToEdges(TopDesc(edgeCtr, Count, TopEdges)));
  }

  /** `clean_graph_with_llm` of the alternative pipeline, from the alias map on. */
  method CleanGraphAlt(nodes: seq<Node>, edges: seq<Edge>, mapping: map<string, string>) returns (g: Graph)
    ensures g == CleanedAlt(mapping, nodes, edges)
  {
    var mergedCounts := CanonCounts(mapping, nodes);
    var cleanedNodes := ToNodes(TopDesc(mergedCounts, Count, |mergedCounts|));
    var edgeCtr := CanonEdgeCounts(mapping, AnyNames, edges);
    g := Graph(cleanedNodes[..Min(TopNodes, |cleanedNodes|)], ToEdges(TopDesc(edgeCtr, Count, TopEdges)));
  }

  // ---------------------------------------------------------------- reference sums

  /** The summed count of the input nodes whose canonical name is name. */
  function CanonSum(mapping: map<string, string>, nodes: seq<Node>, name: string): int
  {
    if nodes == [] then 0
    else
      var n := nodes[|nodes| - 1];
      CanonSum(mapping, nodes[..|nodes| - 1], name) + (if Canon(mapping, n.name) == name then n.count else 0)
  }

  /** `sum(n["count"] for n in nodes)` */
  function CountTotal(nodes: seq<Node>): int
  {
    if nodes == [] then 0 else CountTotal(nodes[..|nodes| - 1]) + nodes[|nodes| - 1].count
  }

  /** The weight of the input edges whose canonical ends are a and b, either way round. */
  function CanonPairSum(mapping: map<string, string>, edges: seq<Edge>, a: string, b: string): int
  {
    if edges == [] then 0
    else
      var e := edges[|edges| - 1];
      var x, y := Canon(mapping, e.source), Canon(mapping, e.target);
      CanonPairSum(mapping, edges[..|edges| - 1], a, b) + (if (x == a && y == b) || (x == b && y == a) then e.weight else 0)
  }

  lemma {:induction false} CanonEntriesSum(mapping: map<string, string>, nodes: seq<Node>, name: string)
    ensures SumFor(CanonNodeEntries(mapping, nodes), name) == CanonSum(mapping, nodes, name)
  {
    if nodes != [] {
      var es := CanonNodeEntries(mapping, nodes[..|nodes| - 1]);
      CanonEntriesSum(mapping, nodes[..|nodes| - 1], name);
      var n := nodes[|nodes| - 1];
      assert (es + [(Canon(mapping, n.name), n.count)])[..|es|] == es;
    }
  }

  lemma {:induction false} CanonEntriesTotal(mapping: map<string, string>, nodes: seq<Node>)
    ensures Total(CanonNodeEntries(mapping, nodes)) == CountTotal(nodes)
  {
    if nodes != [] {
      var es := CanonNodeEntries(mapping, nodes[..|nodes| - 1]);
      CanonEntriesTotal(mapping, nodes[..|nodes| - 1]);
      var n := nodes[|nodes| - 1];
      assert (es + [(Canon(mapping, n.name), n.count)])[..|es|] == es;
    }
  }

  /** Re-keying through the alias map keeps the sum of all counts. */
  lemma CanonTotal(mapping: map<string, string>, nodes: seq<Node>)
    ensures Total(Tally(CanonNodeEntries(mapping, nodes))) == CountTotal(nodes)
  {
    TallyTotal(CanonNodeEntries(mapping, nodes));
    CanonEntriesTotal(mapping, nodes);
  }

  /** The weight collected under the sorted pair of a and b is the weight of every
      input edge between a and b after re-keying, in either direction, when the
      pair is kept, and nothing otherwise. */
  lemma {:induction false} CanonEdgeSum(mapping: map<string, string>, scope: EdgeScope, edges: seq<Edge>, a: string, b: string)
    ensures SumFor(CanonEdgeEntries(mapping, scope, edges), SortedPair(a, b))
         == if Kept(scope, a, b) then CanonPairSum(mapping, edges, a, b) else 0
  {
    if edges != [] {
      var e := edges[|edges| - 1];
      var x, y := Canon(mapping, e.source), Canon(mapping, e.target);
      var es := CanonEdgeEntries(mapping, scope, edges[..|edges| - 1]);
      CanonEdgeSum(mapping, scope, edges[..|edges| - 1], a, b);
      SortedPairKey(x, y, a, b);
      if Kept(scope, x, y) {
        assert (es + [(SortedPair(x, y), e.weight)])[..|es|] == es;
      } else {
        assert es + [] == es;
      }
    }
  }

  /** Every edge key is an ordered pair of two distinct names inside the scope. */
  lemma {:induction false} CanonEdgeKey(mapping: map<string, string>, scope: EdgeScope, edges: seq<Edge>, k: (string, string))
    requires k in Keys(CanonEdgeEntries(mapping, scope, edges))
    ensures StrLess(k.0, k.1) && Kept(scope, k.0, k.1)
  {
    var es := CanonEdgeEntries(mapping, scope, edges);
    var i :| 0 <= i < |es| && Keys(es)[i] == k;
    var e := edges[|edges| - 1];
    var x, y := Canon(mapping, e.source), Canon(mapping, e.target);
    var es' := CanonEdgeEntries(mapping, scope, edges[..|edges| - 1]);
    if i < |es'| {
      assert Keys(es')[i] == k;
      CanonEdgeKey(mapping, scope, edges[..|edges| - 1], k);
    } else {
      assert k == SortedPair(x, y);
      StrLessTotal(x, y);
    }
  }

  // ---------------------------------------------------------------- properties

  /** The cleaned nodes: at most 50, distinct canonical names, each with the summed
      count of all input nodes that map to it, in non-increasing count order, and no
      canonical name left out outranks one kept. */
  lemma CleanedNodesSpec(mapping: map<string, string>, nodes: seq<Node>)
    ensures var ns := CleanedNodes(mapping, nodes);
      |ns| <= TopNodes
      && (forall i, j :: 0 <= i < j < |ns| ==> ns[i].count >= ns[j].count && ns[i].name != ns[j].name)
      && (forall i :: 0 <= i < |ns| ==> ns[i].count == CanonSum(mapping, nodes, ns[i].name))
      && (forall i, x :: 0 <= i < |ns| && x in Keys(CanonNodeEntries(mapping, nodes)) && x !in NodeNames(ns)
            ==> CanonSum(mapping, nodes, x) <= ns[i].count)
  {
    var es := CanonNodeEntries(mapping, nodes);
    var c := Tally(es);
    var t := MostCommon(c, TopNodes);
    var ns := CleanedNodes(mapping, nodes);
    assert |ns| == |t|;
    assert forall i :: 0 <= i < |t| ==> ns[i].name == t[i].0 == Keys(t)[i] && ns[i].count == t[i].1;
    assert DistinctKeys(c) by {
      TallyKeys(es);
    }
    forall i, j | 0 <= i < j < |ns|
      ensures ns[i].count >= ns[j].count && ns[i].name != ns[j].name
    {
      MostCommonEntries(c, TopNodes);
    }
    forall i | 0 <= i < |ns|
      ensures ns[i].count == CanonSum(mapping, nodes, ns[i].name)
    {
      MostCommonEntries(c, TopNodes);
      TallyGet(es, ns[i].name);
      CanonEntriesSum(mapping, nodes, ns[i].name);
    }
    forall i, x | 0 <= i < |ns| && x in Keys(es) && x !in NodeNames(ns)
      ensures CanonSum(mapping, nodes, x) <= ns[i].count
    {
      assert x in Keys(c) by {
        TallyKeys(es);
        assert x in Elems(Dedup(Keys(es)));
      }
      assert x !in Keys(t) by {
        forall l | 0 <= l < |t|
          ensures Keys(t)[l] != x
        {
          assert ns[l].name in NodeNames(ns);
        }
      }
      MostCommonTop(c, TopNodes);
      TallyGet(es, x);
      CanonEntriesSum(mapping, nodes, x);
    }
  }

  /** The cleaned edges for a scope: at most 200, each an ordered pair of distinct
      names inside the scope, no pair twice, each weight the summed weight of the
      input edges between those canonical names in either direction, in
      non-increasing weight order, and no canonical pair left out outweighs an edge
      kept. */
  lemma CleanedEdgesSpec(mapping: map<string, string>, scope: EdgeScope, edges: seq<Edge>)
    ensures var es := CleanedEdges(mapping, scope, edges);
      |es| <= TopEdges
      && (forall i :: 0 <= i < |es| ==> StrLess(es[i].source, es[i].target) && Kept(scope, es[i].source, es[i].target))
      && (forall i :: 0 <= i < |es| ==> es[i].weight == CanonPairSum(mapping, edges, es[i].source, es[i].target))
      && (forall i, j :: 0 <= i < j < |es| ==> es[i].weight >= es[j].weight)
      && (forall i, j :: 0 <= i < j < |es| ==> (es[i].source, es[i].target) != (es[j].source, es[j].target))
      && (forall i, a, b :: 0 <= i < |es| && SortedPair(a, b) in Keys(CanonEdgeEntries(mapping, scope, edges))
            && (forall j :: 0 <= j < |es| ==> (es[j].source, es[j].target) != SortedPair(a, b))
            ==> CanonPairSum(mapping, edges, a, b) <= es[i].weight)
  {
    var es := CleanedEdges(mapping, scope, edges);
    forall i | 0 <= i < |es|
      ensures StrLess(es[i].source, es[i].target) && Kept(scope, es[i].source, es[i].target)
      ensures es[i].weight == CanonPairSum(mapping, edges, es[i].source, es[i].target)
    {
      CleanedEdgeAt(mapping, scope, edges, i);
    }
    CleanedEdgesOrder(mapping, scope, edges);
    CleanedEdgesTop(mapping, scope, edges);
  }

  /** One kept edge: its ends are the key it was counted under, and its weight is
      the summed weight of the input edges between them. */
  lemma CleanedEdgeAt(mapping: map<string, string>, scope: EdgeScope, edges: seq<Edge>, i: nat)
    requires i < |CleanedEdges(mapping, scope, edges)|
    ensures var e := CleanedEdges(mapping, scope, edges)[i];
      StrLess(e.source, e.target) && Kept(scope, e.source, e.target)
      && e.weight == CanonPairSum(mapping, edges, e.source, e.target)
  {
    var ees := CanonEdgeEntries(mapping, scope, edges);
    var c := Tally(ees);
    var t := TopDesc(c, Count, TopEdges);
    var k := t[i].0;
    assert k in Keys(ees) by {
      TallyKeys(ees);
      MostCommonEntries(c, TopEdges);
      assert k in Elems(Dedup(Keys(ees)));
    }
    CanonEdgeKey(mapping, scope, edges, k);
    assert SortedPair(k.0, k.1) == k by {
      StrLessAsymmetric(k.0, k.1);
    }
    assert Get(c, k) == t[i].1 by {
      TallyKeys(ees);
      MostCommonEntries(c, TopEdges);
    }
    TallyGet(ees, k);
    CanonEdgeSum(mapping, scope, edges, k.0, k.1);
  }

  /** The kept edges are in non-increasing weight order and no pair is kept twice. */
  lemma CleanedEdgesOrder(mapping: map<string, string>, scope: EdgeScope, edges: seq<Edge>)
    ensures var es := CleanedEdges(mapping, scope, edges);
      (forall i, j :: 0 <= i < j < |es| ==> es[i].weight >= es[j].weight)
      && (forall i, j :: 0 <= i < j < |es| ==> (es[i].source, es[i].target) != (es[j].source, es[j].target))
  {
    var ees := CanonEdgeEntries(mapping, scope, edges);
    var t := TopDesc(Tally(ees), Count, TopEdges);
    TallyKeys(ees);
    MostCommonEntries(Tally(ees), TopEdges);
    assert forall i :: 0 <= i < |t| ==> Keys(t)[i] == t[i].0;
  }

  /** No canonical pair left out outweighs an edge kept. */
  lemma CleanedEdgesTop(mapping: map<string, string>, scope: EdgeScope, edges: seq<Edge>)
    ensures var es := CleanedEdges(mapping, scope, edges);
      forall i, a, b :: 0 <= i < |es| && SortedPair(a, b) in Keys(CanonEdgeEntries(mapping, scope, edges))
        && (forall j :: 0 <= j < |es| ==> (es[j].source, es[j].target) != SortedPair(a, b))
        ==> CanonPairSum(mapping, edges, a, b) <= es[i].weight
  {
    var ees := CanonEdgeEntries(mapping, scope, edges);
    var c := Tally(ees);
    var t := TopDesc(c, Count, TopEdges);
    var es := CleanedEdges(mapping, scope, edges);
    forall i, a, b | 0 <= i < |es| && SortedPair(a, b) in Keys(ees)
        && (forall j :: 0 <= j < |es| ==> (es[j].source, es[j].target) != SortedPair(a, b))
      ensures CanonPairSum(mapping, edges, a, b) <= es[i].weight
    {
      var k := SortedPair(a, b);
      assert DistinctKeys(c) && k in Keys(c) by {
        TallyKeys(ees);
        assert k in Elems(Dedup(Keys(ees)));
      }
      assert k !in Keys(t) by {
        forall l | 0 <= l < |t|
          ensures Keys(t)[l] != k
        {
          assert Keys(t)[l] == (es[l].source, es[l].target);
        }
      }
      MostCommonTop(c, TopEdges);
      assert t == MostCommon(c, TopEdges);
      assert Get(c, k) <= t[i].1 == es[i].weight;
      TallyGet(ees, k);
      CanonEdgeKey(mapping, scope, edges, k);
      assert Kept(scope, a, b);
      CanonEdgeSum(mapping, scope, edges, a, b);
    }
  }

  /** Tied names and tied pairs keep the order in which they were first seen among
      the re-keyed nodes and edges, as `most_common` and a stable `sorted` give. */
  lemma CleanedTies(mapping: map<string, string>, nodes: seq<Node>, scope: EdgeScope, edges: seq<Edge>, v: int)
    ensures Keys(Tally(CanonNodeEntries(mapping, nodes))) == Dedup(Keys(CanonNodeEntries(mapping, nodes)))
    ensures Filter(MostCommon(Tally(CanonNodeEntries(mapping, nodes)), TopNodes), Count, v)
         <= Filter(Tally(CanonNodeEntries(mapping, nodes)), Count, v)
    ensures Keys(Tally(CanonEdgeEntries(mapping, scope, edges))) == Dedup(Keys(CanonEdgeEntries(mapping, scope, edges)))
    ensures Filter(TopDesc(Tally(CanonEdgeEntries(mapping, scope, edges)), Count, TopEdges), Count, v)
         <= Filter(Tally(CanonEdgeEntries(mapping, scope, edges)), Count, v)
  {
    TallyKeys(CanonNodeEntries(mapping, nodes));
    TallyKeys(CanonEdgeEntries(mapping, scope, edges));
    TopDescStable(Tally(CanonNodeEntries(mapping, nodes)), Count, TopNodes, v);
    TopDescStable(Tally(CanonEdgeEntries(mapping, scope, edges)), Count, TopEdges, v);
  }

  /** In the main pipeline every kept edge joins two distinct names among the
      cleaned nodes. */
  lemma CleanedEdgesWithinNodes(mapping: map<string, string>, nodes: seq<Node>, edges: seq<Edge>)
    ensures var g := Cleaned(mapping, nodes, edges);
      forall i :: 0 <= i < |g.edges| ==>
        g.edges[i].source != g.edges[i].target
        && g.edges[i].source in NodeNames(g.nodes) && g.edges[i].target in NodeNames(g.nodes)
  {
    CleanedEdgesSpec(mapping, OnlyNames(NodeNames(CleanedNodes(mapping, nodes))), edges);
  }
}
