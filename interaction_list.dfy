/** The interaction list of the front end: for every node, the edges touching it
    become (other end, weight) entries, sorted by weight and cut to 5; the
    characters are then sorted by the total weight of their kept entries and the
    first 5 are shown. Both sorts are the stable in-place array sort. */
module InteractionList {
  import opened Sequences
  import opened Sorting
  import opened Graphs

  const TopInteractions: nat := 5
  const ShownCharacters: nat := 5

  datatype Interaction = Interaction(name: string, weight: int)

  datatype Character = Character(name: string, interactions: seq<Interaction>)

  function Weight(x: Interaction): int { x.weight }

  predicate Touches(e: Edge, name: string)
  {
    e.source == name || e.target == name
  }

  /** The entry an edge touching name gives: its target when name is the source,
      otherwise its source. */
  function Other(e: Edge, name: string): Interaction
  {
    if e.source == name then Interaction(e.target, e.weight) else Interaction(e.source, e.weight)
  }

  /** The entries the edge loop pushes for name, in edge order. */
  function Touching(name: string, edges: seq<Edge>): seq<Interaction>
  {
    if edges == [] then []
    else
      var e := edges[|edges| - 1];
      Touching(name, edges[..|edges| - 1]) + (if Touches(e, name) then [Other(e, name)] else [])
  }

  /** `interaction.reduce((sum, int) => sum + int.weight, 0)` */
  function SumWeights(xs: seq<Interaction>): int
  {
    if xs == [] then 0 else SumWeights(xs[..|xs| - 1]) + xs[|xs| - 1].weight
  }

  function TotalWeight(c: Character): int
  {
    SumWeights(c.interactions)
  }

  function CharName(c: Character): string { c.name }

  /** A node's kept entries: its 5 heaviest, ties in edge order. */
  function InteractionsOf(name: string, edges: seq<Edge>): seq<Interaction>
  {
    TopDesc(Touching(name, edges), Weight, TopInteractions)
  }

  /** `chars` before sorting: one character per node, in node order. */
  function CharactersOf(nodes: seq<Node>, edges: seq<Edge>): seq<Character>
  {
    seq(|nodes|, i requires 0 <= i < |nodes| => Character(nodes[i].name, InteractionsOf(nodes[i].name, edges)))
  }

  /** The body of `nodes.map(...)` for one node. */
  method CollectInteractions(name: string, edges: seq<Edge>) returns (interaction: seq<Interaction>)
    ensures interaction == InteractionsOf(name, edges)
  {
    var pushed: seq<Interaction> := [];
    var i := 0;
    while i < |edges|
      invariant 0 <= i <= |edges|
      invariant pushed == Touching(name, edges[..i])
    {
      assert edges[..i + 1][..i] == edges[..i];
      if edges[i].source == name {
        pushed := pushed + [Interaction(edges[i].target, edges[i].weight)];
      } else if edges[i].target == name {
        pushed := pushed + [Interaction(edges[i].source, edges[i].weight)];
      }
      i := i + 1;
    }
    assert edges[..|edges|] == edges;
    var a := new Interaction[|pushed|](k requires 0 <= k < |pushed| => pushed[k]);
    assert a[..] == pushed;
    SortInPlace(a, Weight);
    interaction := a[..Min(TopInteractions, a.Length)];
  }

  /** The component: `chars` after its sort, and the characters it renders. */
  method BuildInteractionList(nodes: seq<Node>, edges: seq<Edge>) returns (chars: seq<Character>, shown: seq<Character>)
    ensures chars == SortDesc(CharactersOf(nodes, edges), TotalWeight)
    ensures shown == Take(chars, ShownCharacters)
  {
    var a := new Character[|nodes|];
    var i := 0;
    while i < |nodes|
      invariant 0 <= i <= |nodes|
      invariant forall k :: 0 <= k < i ==> a[k] == CharactersOf(nodes, edges)[k]
    {
      var interaction := CollectInteractions(nodes[i].name, edges);
      a[i] := Character(nodes[i].name, interaction);
      i := i + 1;
    }
    assert a[..] == CharactersOf(nodes, edges);
    SortInPlace(a, TotalWeight);
    chars := a[..];
    shown := chars[..Min(ShownCharacters, |chars|)];
  }

  // ---------------------------------------------------------------- properties

  /** The number of edges touching name, a self-edge counted once. */
  function CountTouching(edges: seq<Edge>, name: string): nat
  {
    if edges == [] then 0
    else CountTouching(edges[..|edges| - 1], name) + (if Touches(edges[|edges| - 1], name) then 1 else 0)
  }

  /** The weight of the edges touching name, a self-edge counted once. */
  function WeightTouching(edges: seq<Edge>, name: string): int
  {
    if edges == [] then 0
    else WeightTouching(edges[..|edges| - 1], name) + (if Touches(edges[|edges| - 1], name) then edges[|edges| - 1].weight else 0)
  }

  lemma SumWeightsSnoc(xs: seq<Interaction>, x: Interaction)
    ensures SumWeights(xs + [x]) == SumWeights(xs) + x.weight
  {
    assert (xs + [x])[..|xs|] == xs;
  }

  /** Each edge touching the node gives exactly one entry, so a self-edge gives
      one; the entries carry the weight of those edges and nothing else. */
  lemma {:induction false} TouchingSpec(name: string, edges: seq<Edge>)
    ensures |Touching(name, edges)| == CountTouching(edges, name)
    ensures SumWeights(Touching(name, edges)) == WeightTouching(edges, name)
  {
    if edges != [] {
      var e := edges[|edges| - 1];
      TouchingSpec(name, edges[..|edges| - 1]);
      if Touches(e, name) {
        SumWeightsSnoc(Touching(name, edges[..|edges| - 1]), Other(e, name));
      } else {
        assert Touching(name, edges) == Touching(name, edges[..|edges| - 1]);
      }
    }
  }

  /** The entries name the other end of each touching edge: the target when the
      node is the source, else the source. */
  lemma {:induction false} TouchingEntries(name: string, edges: seq<Edge>, x: Interaction)
    ensures x in Touching(name, edges) <==> exists e :: e in edges && Touches(e, name) && x == Other(e, name)
  {
    if edges != [] {
      var edges', e := edges[..|edges| - 1], edges[|edges| - 1];
      TouchingEntries(name, edges', x);
      assert edges == edges' + [e];
      if exists f :: f in edges && Touches(f, name) && x == Other(f, name) {
        var f :| f in edges && Touches(f, name) && x == Other(f, name);
        if f != e {
          assert f in edges';
        }
      }
    }
  }

  /** A node's kept entries: at most 5, heaviest first, drawn from its entries,
      none left out heavier than one kept, and ties in edge order. */
  lemma InteractionsTop(name: string, edges: seq<Edge>, v: int)
    ensures var t := InteractionsOf(name, edges);
      |t| == Min(TopInteractions, |Touching(name, edges)|)
      && SortedDesc(t, Weight)
      && multiset(t) <= multiset(Touching(name, edges))
      && (forall x, y :: x in t && y in multiset(Touching(name, edges)) - multiset(t) ==> x.weight >= y.weight)
      && Filter(t, Weight, v) <= Filter(Touching(name, edges), Weight, v)
  {
    var t := InteractionsOf(name, edges);
    TopDescSorted(Touching(name, edges), Weight, TopInteractions);
    TopDescStable(Touching(name, edges), Weight, TopInteractions, v);
    forall x, y | x in t && y in multiset(Touching(name, edges)) - multiset(t)
      ensures x.weight >= y.weight
    {
      TopDescTop(Touching(name, edges), Weight, TopInteractions, x, y);
    }
  }

  /** After the sort `chars` holds one character per node: its names are the node
      names, each as often as in the node list, and they are ordered by the total
      weight of their kept entries, ties in node order. */
  lemma CharsSpec(nodes: seq<Node>, edges: seq<Edge>, v: int)
    ensures var chars := SortDesc(CharactersOf(nodes, edges), TotalWeight);
      |chars| == |nodes|
      && multiset(MapSeq(chars, CharName)) == multiset(MapSeq(CharactersOf(nodes, edges), CharName))
      && SortedDesc(chars, TotalWeight)
      && Filter(chars, TotalWeight, v) == Filter(CharactersOf(nodes, edges), TotalWeight, v)
    ensures forall i :: 0 <= i < |nodes| ==> MapSeq(CharactersOf(nodes, edges), CharName)[i] == nodes[i].name
  {
    SortDescProjection(CharactersOf(nodes, edges), TotalWeight, CharName);
    SortDescSorted(CharactersOf(nodes, edges), TotalWeight);
    SortDescStable(CharactersOf(nodes, edges), TotalWeight, v);
    forall i | 0 <= i < |nodes|
      ensures MapSeq(CharactersOf(nodes, edges), CharName)[i] == nodes[i].name
    {
      MapSeqAt(CharactersOf(nodes, edges), CharName, i);
    }
  }

  /** At most 5 characters are rendered, the first 5 of the sorted list, and none
      left out has a larger total than one shown. */
  lemma ShownSpec(nodes: seq<Node>, edges: seq<Edge>)
    ensures var chars := SortDesc(CharactersOf(nodes, edges), TotalWeight);
      var shown := Take(chars, ShownCharacters);
      |shown| == Min(ShownCharacters, |nodes|)
      && forall i, j :: 0 <= i < |shown| <= j < |chars| ==> TotalWeight(shown[i]) >= TotalWeight(chars[j])
  {
    SortDescSorted(CharactersOf(nodes, edges), TotalWeight);
  }
}
