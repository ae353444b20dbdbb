/** `spacy_count` of the main pipeline: the text is cut into 50000-character
    blocks, each block is recognised into sentences of entities, every PERSON
    entity adds one mention of its stripped name, and every sentence adds one to
    each pair of distinct PERSON names it contains. The sorted counts then go
    through the alias-map cleaning. */
module SpacyCounting {
  import opened Sequences
  import opened Sorting
  import opened Counters
  import opened Strings
  import opened Segmenting
  import opened Entities
  import opened Graphs
  import opened Canonicalize

  const BlockChars: nat := 50000

  /** A sentence, as the entities that lie in it. */
  type Sentence = seq<Entity>

  /** A recognised block, as its sentences; `doc.ents` is their concatenation. */
  type Doc = seq<Sentence>

  function DocEnts(doc: Doc): seq<Entity>
  {
    Flatten(doc)
  }

  /** `sorted(list({e.text.strip() for e in sent.ents if e.label_ == "PERSON"}))` */
  function SentenceNames(sent: Sentence): seq<string>
  {
    SortStrings(Dedup(PersonNames(sent)))
  }

  /** The pairs a sentence adds: `combinations(names, 2)` when it has more than one name. */
  function SentencePairs(sent: Sentence): seq<(string, string)>
  {
    var names := SentenceNames(sent);
    if |names| > 1 then Combinations(names) else []
  }

  function DocPairs(doc: Doc): seq<(string, string)>
  {
    if doc == [] then [] else DocPairs(doc[..|doc| - 1]) + SentencePairs(doc[|doc| - 1])
  }

  /** Every stripped PERSON name of every block, in order. */
  function Mentions(docs: seq<Doc>): seq<string>
  {
    if docs == [] then [] else Mentions(docs[..|docs| - 1]) + PersonNames(DocEnts(docs[|docs| - 1]))
  }

  /** Every pair every sentence adds, in order. */
  function Pairs(docs: seq<Doc>): seq<(string, string)>
  {
    if docs == [] then [] else Pairs(docs[..|docs| - 1]) + DocPairs(docs[|docs| - 1])
  }

  // ---------------------------------------------------------------- the loops

  /** `for ent in doc.ents: if ent.label_ == "PERSON": mention_counter[ent.text.strip()] += 1` */
  method CountMentions(c: Counter<string>, ghost before: seq<string>, ents: seq<Entity>) returns (c': Counter<string>)
    requires c == Tally(Ones(before))
    ensures c' == Tally(Ones(before + PersonNames(ents)))
  {
    c' := c;
    var i := 0;
    assert ents[..0] == [];
    assert before + PersonNames(ents[..0]) == before;
    while i < |ents|
      invariant 0 <= i <= |ents|
      invariant c' == Tally(Ones(before + PersonNames(ents[..i])))
    {
      ghost var names := before + PersonNames(ents[..i]);
      PersonNamesSnoc(before, ents, i);
      if IsPerson(ents[i]) {
        var name := Strip(ents[i].text);
        TallyOnesSnoc(names, name);
        c' := Add(c', name, 1);
      }
      i := i + 1;
    }
    assert ents[..|ents|] == ents;
  }

  /** One more entity adds its stripped name when it is a PERSON. */
  lemma PersonNamesSnoc(before: seq<string>, ents: seq<Entity>, i: nat)
    requires i < |ents|
    ensures IsPerson(ents[i]) ==> before + PersonNames(ents[..i + 1]) == before + PersonNames(ents[..i]) + [Strip(ents[i].text)]
    ensures !IsPerson(ents[i]) ==> before + PersonNames(ents[..i + 1]) == before + PersonNames(ents[..i])
  {
    assert ents[..i + 1][..i] == ents[..i];
  }

  lemma DocPairsSnoc(doc: Doc, s: nat)
    requires s < |doc|
    ensures DocPairs(doc[..s + 1]) == DocPairs(doc[..s]) + SentencePairs(doc[s])
  {
    assert doc[..s + 1][..s] == doc[..s];
  }

  /** `for sent in doc.sents: ... pair_counter[(n1, n2)] += 1` */
  method CountPairs(c: Counter<(string, string)>, ghost before: seq<(string, string)>, doc: Doc)
    returns (c': Counter<(string, string)>)
    requires c == Tally(Ones(before))
    ensures c' == Tally(Ones(before + DocPairs(doc)))
  {
    c' := c;
    var s := 0;
    assert before + DocPairs(doc[..0]) == before;
    while s < |doc|
      invariant 0 <= s <= |doc|
      invariant c' == Tally(Ones(before + DocPairs(doc[..s])))
    {
      ghost var sofar := before + DocPairs(doc[..s]);
      DocPairsSnoc(doc, s);
      AppendAssoc(before, DocPairs(doc[..s]), SentencePairs(doc[s]));
      var names := SentenceNames(doc[s]);
      if |names| > 1 {
        OnesAppend(sofar, Combinations(names));
        c' := AddEach(c', Ones(sofar), Ones(Combinations(names)));
      } else {
        assert sofar + SentencePairs(doc[s]) == sofar;
      }
      s := s + 1;
    }
    assert doc[..|doc|] == doc;
  }

  /** Recognising one more block adds its names and pairs at the end. */
  lemma DocsSnoc(blocks: seq<string>, i: nat, recognize: string -> Doc)
    requires i < |blocks|
    ensures var docs, doc := MapSeq(blocks[..i], recognize), recognize(blocks[i]);
      Mentions(MapSeq(blocks[..i + 1], recognize)) == Mentions(docs) + PersonNames(DocEnts(doc))
      && Pairs(MapSeq(blocks[..i + 1], recognize)) == Pairs(docs) + DocPairs(doc)
  {
    var docs, doc := MapSeq(blocks[..i], recognize), recognize(blocks[i]);
    assert blocks[..i + 1][..i] == blocks[..i];
    assert MapSeq(blocks[..i + 1], recognize) == docs + [doc];
    assert (docs + [doc])[..|docs|] == docs;
  }

  /** The result of `spacy_count`. */
  datatype SpacyResult = SpacyResult(bookId: int, graph: Graph)

  /** The graph `spacy_count` returns: all mentions and all pairs, sorted by count,
      cleaned through the alias map. */
  function SpacyGraph(rawText: string, recognize: string -> Doc, mapping: map<string, string>): Graph
  {
    var docs := MapSeq(Blocks(rawText, BlockChars), recognize);
    var nodes := ToNodes(SortDesc(Tally(Ones(Mentions(docs))), Count));
    var edges := ToEdges(SortDesc(Tally(Ones(Pairs(docs))), Count));
    Cleaned(mapping, nodes, edges)
  }

  /** `spacy_count(raw_text, book_id)`; `recognize` stands for the entity recogniser
      and `mapping` for the alias map the cleaning step obtains. */
  method SpacyCount(bookId: int, rawText: string, recognize: string -> Doc, mapping: map<string, string>)
    returns (r: SpacyResult)
    ensures r == SpacyResult(bookId, SpacyGraph(rawText, recognize, mapping))
  {
    var blocks := Blocks(rawText, BlockChars);
    var mentionCounter: Counter<string> := [];
    var pairCounter: Counter<(string, string)> := [];
    var i := 0;
    while i < |blocks|
      invariant 0 <= i <= |blocks|
      invariant mentionCounter == Tally(Ones(Mentions(MapSeq(blocks[..i], recognize))))
      invariant pairCounter == Tally(Ones(Pairs(MapSeq(blocks[..i], recognize))))
    {
      var doc := recognize(blocks[i]);
      ghost var docs := MapSeq(blocks[..i], recognize);
      DocsSnoc(blocks, i, recognize);
      mentionCounter := CountMentions(mentionCounter, Mentions(docs), DocEnts(doc));
      pairCounter := CountPairs(pairCounter, Pairs(docs), doc);
      i := i + 1;
    }
    assert blocks[..|blocks|] == blocks;
    var sortedMentions := SortDesc(mentionCounter, Count);
    var sortedPairs := SortDesc(pairCounter, Count);
    var g := CleanGraph(ToNodes(sortedMentions), ToEdges(sortedPairs), mapping);
    r := SpacyResult(bookId, g);
  }

  // ---------------------------------------------------------------- properties

  /** Each PERSON entity adds one to the count of its stripped text: the counts are
      the numbers of occurrences, they add up to the number of PERSON entities, and
      there is one entry per distinct name. */
  lemma MentionCounts(docs: seq<Doc>)
    ensures var c := Tally(Ones(Mentions(docs)));
      (forall x :: Get(c, x) == multiset(Mentions(docs))[x])
      && Total(c) == |Mentions(docs)|
      && |c| == |Elems(Mentions(docs))|
  {
    TallyOnes(Mentions(docs));
  }

  /** The number of sentences, over all blocks, in which both a and b occur as
      stripped PERSON names. */
  function CoMentions(docs: seq<Doc>, a: string, b: string): nat
  {
    if docs == [] then 0 else CoMentions(docs[..|docs| - 1], a, b) + DocCoMentions(docs[|docs| - 1], a, b)
  }

  function DocCoMentions(doc: Doc, a: string, b: string): nat
  {
    if doc == [] then 0
    else DocCoMentions(doc[..|doc| - 1], a, b) + (if a in PersonNames(doc[|doc| - 1]) && b in PersonNames(doc[|doc| - 1]) then 1 else 0)
  }

  /** A sentence adds the pair (a, b) once when both are among its names and a < b,
      and never otherwise. */
  lemma SentencePairsCount(sent: Sentence, a: string, b: string)
    ensures multiset(SentencePairs(sent))[(a, b)]
         == if a in PersonNames(sent) && b in PersonNames(sent) && StrLess(a, b) then 1 else 0
  {
    var d := Dedup(PersonNames(sent));
    var names := SentenceNames(sent);
    SortStringsIncreasing(d);
    assert a in names <==> a in multiset(d);
    assert b in names <==> b in multiset(d);
    assert a in d <==> a in Elems(d);
    assert b in d <==> b in Elems(d);
    if |names| > 1 {
      CombinationsCount(names, a, b);
    } else {
      StrLessIrreflexive(a);
      assert a in names && b in names ==> a == b;
    }
  }

  /** A sentence with k distinct PERSON names adds k(k-1)/2 pairs, so one with fewer
      than two adds none. */
  lemma SentencePairsLength(sent: Sentence)
    ensures var k := |Elems(PersonNames(sent))|;
      2 * |SentencePairs(sent)| == k * (k - 1) && (k < 2 ==> SentencePairs(sent) == [])
  {
    var d := Dedup(PersonNames(sent));
    var names := SentenceNames(sent);
    DistinctCard(d);
    CombinationsLength(names);
  }

  lemma {:induction false} DocPairsCount(doc: Doc, a: string, b: string)
    ensures multiset(DocPairs(doc))[(a, b)] == if StrLess(a, b) then DocCoMentions(doc, a, b) else 0
  {
    if doc != [] {
      DocPairsCount(doc[..|doc| - 1], a, b);
      SentencePairsCount(doc[|doc| - 1], a, b);
    }
  }

  lemma {:induction false} PairsCount(docs: seq<Doc>, a: string, b: string)
    ensures multiset(Pairs(docs))[(a, b)] == if StrLess(a, b) then CoMentions(docs, a, b) else 0
  {
    if docs != [] {
      PairsCount(docs[..|docs| - 1], a, b);
      DocPairsCount(docs[|docs| - 1], a, b);
    }
  }

  /** The count of the pair (a, b) is the number of sentences naming both when
      a < b, and 0 otherwise: pairs are keyed in sorted order. */
  lemma PairCounts(docs: seq<Doc>, a: string, b: string)
    ensures Get(Tally(Ones(Pairs(docs))), (a, b)) == if StrLess(a, b) then CoMentions(docs, a, b) else 0
  {
    TallyOnes(Pairs(docs));
    PairsCount(docs, a, b);
  }
}
