/** `spacy_count` of the first two backends: the text is cut into 25000-character
    blocks, the PERSON entities of every block are collected as spans, their
    stripped names are counted, and the 50 most frequent names are returned; the
    book API variant also reports the number of mentions and of distinct names,
    and groups each name into a bucket of its own. */
module PersonCounts {
  import opened Sequences
  import opened Sorting
  import opened Counters
  import opened Strings
  import opened Segmenting
  import opened Entities

  const BlockChars: nat := 25000
  const TopCharacters: nat := 50

  /** The spans of every block's PERSON entities, block after block. */
  function AllSpans(docs: seq<seq<Entity>>): seq<Span>
  {
    if docs == [] then [] else AllSpans(docs[..|docs| - 1]) + PersonSpans(docs[|docs| - 1])
  }

  /** The recogniser's entities for each block of the text. */
  function BlockEntities(rawText: string, recognize: string -> seq<Entity>): seq<seq<Entity>>
  {
    MapSeq(Blocks(rawText, BlockChars), recognize)
  }

  /** `for doc in nlp.pipe(blocks): spans += [... if ent.label_ == "PERSON"]` */
  method CollectSpans(blocks: seq<string>, recognize: string -> seq<Entity>) returns (spans: seq<Span>)
    ensures spans == AllSpans(MapSeq(blocks, recognize))
  {
    spans := [];
    var i := 0;
    while i < |blocks|
      invariant 0 <= i <= |blocks|
      invariant spans == AllSpans(MapSeq(blocks[..i], recognize))
    {
      var doc := recognize(blocks[i]);
      var blockSpans := PersonSpans(doc);
      assert blocks[..i + 1][..i] == blocks[..i];
      assert (MapSeq(blocks[..i], recognize) + [doc])[..i] == MapSeq(blocks[..i], recognize);
      spans := spans + blockSpans;
      i := i + 1;
    }
    assert blocks[..|blocks|] == blocks;
  }

  /** `for name, *_ in spans: counts[name.strip()] += 1` */
  method CountNames(spans: seq<Span>) returns (counts: Counter<string>)
    ensures counts == Tally(Ones(SpanNames(spans)))
  {
    counts := [];
    var i := 0;
    while i < |spans|
      invariant 0 <= i <= |spans|
      invariant counts == Tally(Ones(SpanNames(spans[..i])))
    {
      var name := Strip(spans[i].text);
      SpanNamesSnoc(spans, i);
      TallyOnesSnoc(SpanNames(spans[..i]), name);
      counts := Add(counts, name, 1);
      i := i + 1;
    }
    assert spans[..|spans|] == spans;
  }

  lemma SpanNamesSnoc(spans: seq<Span>, i: nat)
    requires i < |spans|
    ensures SpanNames(spans[..i + 1]) == SpanNames(spans[..i]) + [Strip(spans[i].text)]
    ensures Elems(SpanNames(spans[..i + 1])) == Elems(SpanNames(spans[..i])) + {Strip(spans[i].text)}
  {
    assert spans[..i + 1][..i] == spans[..i];
  }

  /** `buckets[name].add(name)` on a `defaultdict(set)` keeps every seen name in a
      bucket of its own. */
  lemma BucketStep(buckets: map<string, set<string>>, names: seq<string>, name: string)
    requires buckets.Keys == Elems(names) && forall n :: n in buckets ==> buckets[n] == {n}
    ensures var b := buckets[name := (if name in buckets then buckets[name] else {}) + {name}];
      b.Keys == Elems(names) + {name} && forall n :: n in b ==> b[n] == {n}
  {
  }

  /** The loop of the book API: counts as above, and `buckets[name].add(name)`. */
  method CountNamesWithBuckets(spans: seq<Span>) returns (counts: Counter<string>, buckets: map<string, set<string>>)
    ensures counts == Tally(Ones(SpanNames(spans)))
    ensures buckets.Keys == Elems(SpanNames(spans)) && forall n :: n in buckets ==> buckets[n] == {n}
  {
    counts := [];
    buckets := map[];
    var i := 0;
    while i < |spans|
      invariant 0 <= i <= |spans|
      invariant counts == Tally(Ones(SpanNames(spans[..i])))
      invariant buckets.Keys == Elems(SpanNames(spans[..i]))
      invariant forall n :: n in buckets ==> buckets[n] == {n}
    {
      var name := Strip(spans[i].text);
      SpanNamesSnoc(spans, i);
      TallyOnesSnoc(SpanNames(spans[..i]), name);
      counts := Add(counts, name, 1);
      BucketStep(buckets, SpanNames(spans[..i]), name);
      var bucket := if name in buckets then buckets[name] else {};
      buckets := buckets[name := bucket + {name}];
      i := i + 1;
    }
    assert spans[..|spans|] == spans;
  }

  /** What the first backend returns. */
  datatype CharacterList = CharacterList(bookId: int, characters: seq<(string, int)>)

  /** The counted names of a text, in first-seen order. */
  function NameCounts(rawText: string, recognize: string -> seq<Entity>): Counter<string>
  {
    Tally(Ones(SpanNames(AllSpans(BlockEntities(rawText, recognize)))))
  }

  /** `spacy_count` of the first backend: `sorted(counts.items(), ...)[:50]`. */
  method SpacyCountMain(bookId: int, rawText: string, recognize: string -> seq<Entity>) returns (r: CharacterList)
    ensures r == CharacterList(bookId, MostCommon(NameCounts(rawText, recognize), TopCharacters))
  {
    var blocks := Blocks(rawText, BlockChars);
    var spans := CollectSpans(blocks, recognize);
    var counts := CountNames(spans);
    var sortedCounts := SortDesc(counts, Count);
    r := CharacterList(bookId, Take(sortedCounts, TopCharacters));
  }

  /** What the book API returns. */
  datatype Summary = Summary(bookId: int, totalPersonMentions: int, uniquePersonEntities: int, characters: seq<(string, int)>)

  /** `spacy_count` of the book API; the buckets, which it builds and drops, are
      returned beside the summary. */
  method SpacyCountBookApi(bookId: int, rawText: string, recognize: string -> seq<Entity>)
    returns (r: Summary, buckets: map<string, set<string>>)
    ensures var spans := AllSpans(BlockEntities(rawText, recognize));
      r == Summary(bookId, |spans|, |NameCounts(rawText, recognize)|, MostCommon(NameCounts(rawText, recognize), TopCharacters))
    ensures buckets.Keys == Elems(SpanNames(AllSpans(BlockEntities(rawText, recognize))))
    ensures forall n :: n in buckets ==> buckets[n] == {n}
  {
    var blocks := Blocks(rawText, BlockChars);
    var spans := CollectSpans(blocks, recognize);
    var counts;
    counts, buckets := CountNamesWithBuckets(spans);
    var sortedCounts := SortDesc(counts, Count);
    r := Summary(bookId, |spans|, |sortedCounts|, Take(sortedCounts, TopCharacters));
  }

  // ---------------------------------------------------------------- properties

  /** spans holds exactly the PERSON entities of the blocks, and those of each
      block follow those of the blocks before it. */
  lemma {:induction false} AllSpansFilter(docs: seq<seq<Entity>>, x: Span)
    ensures x in AllSpans(docs) <==> exists j :: 0 <= j < |docs| && x in PersonSpans(docs[j])
  {
    if docs != [] {
      var docs', last := docs[..|docs| - 1], docs[|docs| - 1];
      AllSpansFilter(docs', x);
      assert AllSpans(docs) == AllSpans(docs') + PersonSpans(last);
      if x in AllSpans(docs) && x !in PersonSpans(last) {
        var j :| 0 <= j < |docs'| && x in PersonSpans(docs'[j]);
        assert docs[j] == docs'[j];
      }
      if exists j :: 0 <= j < |docs| && x in PersonSpans(docs[j]) {
        var j :| 0 <= j < |docs| && x in PersonSpans(docs[j]);
        if j < |docs'| {
          assert docs'[j] == docs[j];
        }
      }
    }
  }

  lemma {:induction false} AllSpansPrefix(docs: seq<seq<Entity>>, j: nat)
    requires j <= |docs|
    ensures AllSpans(docs[..j]) <= AllSpans(docs)
    decreases |docs|
  {
    if j < |docs| {
      AllSpansPrefix(docs[..|docs| - 1], j);
      assert docs[..|docs| - 1][..j] == docs[..j];
    } else {
      assert docs[..j] == docs;
    }
  }

  /** Counting the spans: every span adds one to its stripped name, so the counts
      add up to the number of spans, each stored count is at least 1, there is one
      entry per distinct name, and each count is the number of spans of that name. */
  lemma NameCountsSpec(spans: seq<Span>)
    ensures var c := Tally(Ones(SpanNames(spans)));
      Total(c) == |spans|
      && (forall i :: 0 <= i < |c| ==> c[i].1 >= 1)
      && |c| == |Elems(SpanNames(spans))|
      && (forall x :: Get(c, x) == multiset(SpanNames(spans))[x])
  {
    TallyOnes(SpanNames(spans));
    TallyPositive(Ones(SpanNames(spans)));
  }

  /** The characters list: at most 50 distinct names, each with its number of
      mentions, ordered by non-increasing count, and no name left out has more
      mentions than a name kept; the counter holds each name once in the order it
      was first seen, and tied names keep that order. */
  lemma CharactersSpec(rawText: string, recognize: string -> seq<Entity>)
    ensures var c := NameCounts(rawText, recognize);
      var t := MostCommon(c, TopCharacters);
      |t| <= TopCharacters
      && (forall i, j :: 0 <= i < j < |t| ==> t[i].1 >= t[j].1 && t[i].0 != t[j].0)
      && (forall i :: 0 <= i < |t| ==> t[i].0 in Keys(c) && t[i].1 == Get(c, t[i].0))
      && (forall i, k :: 0 <= i < |t| && k in Keys(c) && k !in Keys(t) ==> Get(c, k) <= t[i].1)
  ensures Keys(NameCounts(rawText, recognize)) == Dedup(SpanNames(AllSpans(BlockEntities(rawText, recognize))))
  ensures forall v :: Filter(MostCommon(NameCounts(rawText, recognize), TopCharacters), Count, v)
                      <= Filter(NameCounts(rawText, recognize), Count, v)
  {
    var names := SpanNames(AllSpans(BlockEntities(rawText, recognize)));
    var c := NameCounts(rawText, recognize);
    var t := MostCommon(c, TopCharacters);
    TallyKeys(Ones(names));
    MostCommonEntries(c, TopCharacters);
    MostCommonTop(c, TopCharacters);
    assert forall i :: 0 <= i < |t| ==> Keys(t)[i] == t[i].0;
    assert Keys(Ones(names)) == names;
    forall v
      ensures Filter(t, Count, v) <= Filter(c, Count, v)
    {
      TopDescStable(c, Count, TopCharacters, v);
    }
  }

  /** The book API's summary: the mention total is the number of spans and the sum
      of all counts, the number of distinct names is the number of entries, and
      the buckets hold each counted name alone, under exactly the counted names. */
  lemma SummarySpec(bookId: int, rawText: string, recognize: string -> seq<Entity>, r: Summary, buckets: map<string, set<string>>)
    requires var spans := AllSpans(BlockEntities(rawText, recognize));
      r == Summary(bookId, |spans|, |NameCounts(rawText, recognize)|, MostCommon(NameCounts(rawText, recognize), TopCharacters))
      && buckets.Keys == Elems(SpanNames(spans))
    ensures r.totalPersonMentions == Total(NameCounts(rawText, recognize))
    ensures r.uniquePersonEntities == |Elems(SpanNames(AllSpans(BlockEntities(rawText, recognize))))|
    ensures buckets.Keys == Elems(Keys(NameCounts(rawText, recognize)))
  {
    var names := SpanNames(AllSpans(BlockEntities(rawText, recognize)));
    NameCountsSpec(AllSpans(BlockEntities(rawText, recognize)));
    TallyKeys(Ones(names));
    assert Keys(Ones(names)) == names;
  }
}
