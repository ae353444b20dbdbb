# Book network grapher — a Dafny model of its text and graph core

The book network grapher downloads a Project Gutenberg book and turns it into a
character graph. Nodes are characters weighted by how often they are mentioned.
Edges join two characters and are weighted by how often they interact. This
project models the deterministic core of that pipeline and proves properties of it.

- **Gutenberg**: `core_text`. It strips the Gutenberg header and footer, and
  returns the whole text unchanged when the markers are unusable.
- **Segmenting**:
  - `take_excerpt` keeps a 90000-character window after the first 5%.
  - `make_chunks` cuts text into n overlapping chunks for the language model.
  - The fixed 25000- and 50000-character blocks are what the entity recogniser
    reads.
- **Merging**: `merge`. It sums the per-chunk graphs the language model returns,
  keying edges by their sorted pair, and keeps the 50 heaviest nodes and the 200
  heaviest edges.
- **Canonicalize**: the alias-map half of `clean_graph_with_llm`, in both pipeline
  variants. It re-keys names, sums counts and weights, and trims the graph.
- **SpacyCounting**: `spacy_count` of the graph backend. It counts PERSON
  mentions, counts co-mentions once per sentence and ordered pair, sorts both, and
  cleans the graph.
- **PersonCounts**: `spacy_count` of the character-list backend and of the book
  API. It collects PERSON spans, counts stripped names, and reports the 50 most
  frequent names (plus the totals and buckets of the book API).
- **InteractionList**: the frontend component.
  - For each node it gathers the edges touching it, sorts them by weight and keeps
    5.
  - It then sorts the characters by the summed weight of the kept entries and
    renders the first 5.

Supporting modules:

- **Sequences**, **Wrappers**, **Graphs**: shared definitions.
- **Strings**: Python's string order, `str.strip`, `str.find`, `sorted` and
  `itertools.combinations`.
- **Counters**: a `collections.Counter` as a list of entries in first-insertion
  order. `c[k] += v` updates an entry in place or appends one.
- **Sorting**: the stable descending sort. Python's `sorted(..., reverse=True)`,
  `Counter.most_common` and the stable `Array.prototype.sort` all produce it. It is
  given as a function and as an in-place array method proved equal to it.

Some functions exist in several near-identical copies across the backend files.
They are modelled once. Where the copies differ, the model takes the difference as
a parameter:

- `make_chunks` has a chunk limit that is either passed in or fixed at 5.
- The cleaning step keeps either only edges among the kept nodes, or all edges
  between distinct names.

The entity recogniser, the regex searches and the language model's alias map are
parameters of the model.

## Model

| member | source | states |
|---|---|---|
| Gutenberg.ContentStart | backend/book_api.py:19 | the content starts one past the first newline at or after the header's end, or at 0 when no newline follows the header |
| Gutenberg.CoreText | backend/updated_main.py:50-58 | a missing marker, or a footer at or before the header's end, gives the text unchanged; otherwise the result is no longer than the footer's offset |
| Gutenberg.CoreTextFailOpen | backend/llm_alternative.py:48-56 | the text comes back unchanged exactly when the markers are unusable |
| Gutenberg.StripSlice | backend/main.py:29 | `txt[lo:hi].strip()` is a slice of the text inside [lo, hi) with only whitespace cut from both ends, starting and ending with a non-space when non-empty |
| Gutenberg.CoreTextSlice | backend/main.py:22-29 | with usable markers the result is one slice of the text that ends at or before the footer and starts no earlier than the line after the header; only whitespace is cut around it; it neither starts nor ends with whitespace; it is empty when the content start passes the footer |
| Segmenting.ExcerptStart | backend/updated_main.py:75 | the skipped prefix is the floor of one twentieth of the length |
| Segmenting.TakeExcerpt | backend/llm_alternative.py:72-74 | the excerpt is the contiguous slice at the skip point, of length min(90000, what is left) |
| Segmenting.RoundHalfEven | backend/updated_main.py:81 | the chunk estimate is within half a divisor of len/2200, with exact halves going to the even neighbour |
| Segmenting.ChunkCount | backend/llm_alternative.py:79 | for a positive limit the count lies between 1 and the limit; for a limit of 0 or less it equals the limit |
| Segmenting.ChunkBounds | backend/updated_main.py:87-88 | every chunk's bounds lie in order within the text |
| Segmenting.MakeChunks | backend/updated_main.py:79-90 | it fails (division by zero) exactly when the limit is 0; a negative limit gives no chunks; otherwise it gives exactly ChunkCount chunks, chunk i being text[max(0, i*span-200) .. min(len, (i+1)*span+200)] |
| Segmenting.ChunksOverlap | backend/updated_main.py:86-89 | an index lies in both chunk i and chunk i+1 exactly when it is within 200 characters of the cut between them |
| Segmenting.ChunksCover | backend/updated_main.py:81-89 | with at most 201 chunks every index of the text lies in some chunk |
| Segmenting.ChunksMissTail | backend/updated_main.py:81-89 | with a limit of 300, a 660250-character text gets 300 chunks and its last character is in none of them |
| Segmenting.ExcerptChunksCover | backend/updated_main.py:242-243 | an excerpt needs at most 41 chunks, so for any positive limit its chunks cover it entirely |
| Segmenting.MakeChunksFixed | backend/llm_alternative.py:77-88 | with the limit fixed at 5 it never fails, returns 1 to 5 chunks and covers every index of the text |
| Segmenting.BlocksConcat | backend/updated_main.py:277 | the blocks joined in order give back the text |
| Segmenting.BlocksShape | backend/main.py:86 | every block but the last holds exactly the block size, the last holds 1 to that size, the number of blocks is the length divided by the size and rounded up, and there are no blocks exactly for an empty text |
| Segmenting.BlocksAt | backend/book_api.py:82 | block j is text[j*size .. min(len, (j+1)*size)] |
| Sorting.SortDescSorted | backend/updated_main.py:226 | the sort is ordered by non-increasing key |
| Sorting.SortDescMultiset | backend/updated_main.py:226 | the sort is a permutation of its input |
| Sorting.SortDescStable | backend/updated_main.py:226 | elements with equal keys keep their input order |
| Sorting.TopDescSorted | backend/updated_main.py:169-170 | the kept prefix is sorted and drawn from the input |
| Sorting.TopDescTop | backend/updated_main.py:169-170 | no dropped element has a larger key than a kept one |
| Sorting.SortInPlace | frontend/components/InteractionList.tsx:30 | the in-place array sort leaves exactly the stable descending sort of the old contents |
| Sorting.InsertInPlace | frontend/components/InteractionList.tsx:38-42 | one insertion step moves an element past the larger-keyed prefix and leaves the rest of the array alone |
| Counters.AddGet | backend/updated_main.py:151 | `c[k] += v` raises k's count by v and leaves every other count unchanged |
| Counters.AddTotal | backend/updated_main.py:220 | `c[k] += v` raises the total by v |
| Counters.TallyKeys | backend/updated_main.py:148-151 | a counter built by `+=` has each key once, in order of first occurrence |
| Counters.TallyGet | backend/llm_alternative.py:146-149 | each key's count is the sum of the values added under it |
| Counters.TallyTotal | backend/llm_alternative.py:146-149 | the counts add up to the sum of all values added |
| Counters.TallyAppend | backend/updated_main.py:217-223 | counting two batches in turn gives each key the sum of its counts in both |
| Counters.TallyOnes | backend/main.py:117-119 | counting items one by one gives each key its number of occurrences |
| Counters.TallyPositive | backend/main.py:117-119 | with positive increments every count is positive |
| Counters.AddEach | backend/updated_main.py:219-220 | the loop adding a batch of items equals counting the items seen so far plus the batch |
| Counters.MostCommonEntries | backend/updated_main.py:225 | `most_common(n)` is sorted by count, has distinct keys, and reports each key's true count |
| Counters.MostCommonTop | backend/updated_main.py:225 | no dropped key has a larger count than a kept one; with at most n keys all are kept |
| Strings.SortedPairKey | backend/updated_main.py:222 | `tuple(sorted((a, b)))` is ordered and holds a and b; two pairs get the same key exactly when they are equal up to order |
| Strings.SortStringsIncreasing | backend/updated_main.py:316 | sorting a set of names gives them in strictly increasing order |
| Strings.CombinationsLength | backend/updated_main.py:316 | `combinations(l, 2)` has k(k-1)/2 pairs |
| Strings.CombinationsCount | backend/updated_main.py:316 | on increasing names, each pair (a, b) with a < b of those names occurs exactly once, and no other pair occurs |
| Strings.StripBounds | backend/updated_main.py:58 | `strip` removes only whitespace, and what it keeps starts and ends with a non-space |
| Strings.FindFrom | backend/main.py:28 | `find` returns the first index at or after start holding the character, or -1 when there is none |
| Merging.Merge | backend/updated_main.py:212-232 | the loop over chunk results produces the merged graph: summed node counts and summed edge weights by sorted pair, trimmed to 50 and 200 |
| Merging.CountEdges | backend/updated_main.py:221-223 | the edge loop adds each weight under the sorted pair of its ends |
| Merging.MergedNodes | backend/llm_alternative.py:224 | at most 50 nodes, sorted by count, with distinct names; each count is the name's sum over all chunks; no omitted name outweighs a kept one |
| Merging.MergedEdges | backend/llm_alternative.py:225 | at most 200 edges, each with its ends in string order, weighted by the sum over all chunks of edges joining those two names in either direction; sorted by weight; no pair appears twice; no pair left out outweighs a kept edge, so the kept edges are the 200 heaviest |
| Merging.EdgeKeySum | backend/updated_main.py:221-223 | the weight counted under SortedPair(a, b) is the weight of the edges joining a and b in either direction |
| Merging.MergedNodeTies | backend/updated_main.py:225 | the node counter lists names in order of first occurrence, and kept nodes of equal count keep that order |
| Merging.MergedEdgeTies | backend/updated_main.py:226 | the edge counter lists pairs in order of first occurrence, and kept edges of equal weight keep that order |
| Merging.MergeOrderIndependent | backend/llm_alternative.py:216-222 | node counts and edge weights do not depend on the order of the chunk results |
| Canonicalize.CanonCounts | backend/updated_main.py:148-151 | the node loop counts each node under its canonical name |
| Canonicalize.CanonEdgeCounts | backend/updated_main.py:160-165 | the edge loop adds each kept edge's weight under the sorted pair of its canonical ends |
| Canonicalize.CleanGraph | backend/updated_main.py:147-172 | the cleaned graph keeps the 50 top canonical nodes and the 200 heaviest edges between distinct kept names |
| Canonicalize.CleanGraphAlt | backend/llm_alternative.py:145-171 | sorting all canonical nodes and slicing 50 gives the same nodes as `most_common(50)`; the edges are the 200 heaviest between distinct names |
| Canonicalize.CanonTotal | backend/llm_alternative.py:146-149 | re-keying names loses no count: the total of the merged counts is the total of the input counts |
| Canonicalize.CanonEdgeSum | backend/llm_alternative.py:158-164 | the weight under SortedPair(a, b) is the weight of the input edges whose canonical ends are a and b in either order, when the pair is kept, and 0 otherwise |
| Canonicalize.CanonEdgeKey | backend/updated_main.py:164-165 | every edge key is a kept pair in strict string order |
| Canonicalize.CleanedNodesSpec | backend/updated_main.py:153-156 | at most 50 nodes, sorted by count, with distinct names; each count sums the input nodes mapped to that name; no omitted name outweighs a kept one |
| Canonicalize.CleanedEdgesSpec | backend/llm_alternative.py:158-169 | at most 200 edges between kept, distinct, ordered names; each weight sums the matching input edges; sorted by weight; no pair twice; no canonical pair left out outweighs a kept edge, so the kept edges are the 200 heaviest |
| Canonicalize.CleanedTies | backend/updated_main.py:148-172 | the re-keyed counters list names and pairs in order of first occurrence, and kept nodes and edges with equal counts keep that order |
| Canonicalize.CleanedEdgesWithinNodes | backend/updated_main.py:157-165 | in the main pipeline every cleaned edge joins two distinct names that are among the cleaned nodes |
| Entities.PersonSpansFilter | backend/main.py:94-95 | a span is collected exactly when it comes from a PERSON entity |
| Entities.SpanNamesOfPersons | backend/main.py:117-118 | the stripped names of the collected spans are the stripped texts of the PERSON entities |
| SpacyCounting.CountMentions | backend/updated_main.py:308-310 | the mention loop adds one for the stripped text of each PERSON entity |
| SpacyCounting.CountPairs | backend/updated_main.py:313-317 | the sentence loop adds one for each pair of the sorted distinct PERSON names of each sentence |
| SpacyCounting.SpacyCount | backend/updated_main.py:277-356 | the result is the cleaned graph of all mentions and all sentence pairs over the 50000-character blocks, sorted by count |
| SpacyCounting.MentionCounts | backend/updated_main.py:308-310 | each name's count is its number of PERSON mentions, the counts add up to the number of mentions, and there is one entry per distinct name |
| SpacyCounting.SentencePairsCount | backend/updated_main.py:314-317 | a sentence adds pair (a, b) once when both are among its PERSON names and a < b, and never otherwise |
| SpacyCounting.SentencePairsLength | backend/updated_main.py:314-317 | a sentence with k distinct names adds k(k-1)/2 pairs, and none when k < 2 |
| SpacyCounting.PairCounts | backend/updated_main.py:306-317 | the count of (a, b) is the number of sentences naming both when a < b, and 0 otherwise |
| PersonCounts.CollectSpans | backend/main.py:93-96 | the spans are the PERSON entities of every block, block after block |
| PersonCounts.CountNames | backend/main.py:115-119 | the counter holds one count per stripped span name |
| PersonCounts.CountNamesWithBuckets | backend/book_api.py:106-112 | as CountNames, and the buckets map each seen name to the set holding only that name |
| PersonCounts.SpacyCountMain | backend/main.py:86-139 | the result is the 50 most frequent stripped names of the 25000-character blocks, ties in first-seen order |
| PersonCounts.SpacyCountBookApi | backend/book_api.py:82-131 | the summary holds the number of PERSON spans, the number of distinct names, and the 50 most frequent names |
| PersonCounts.AllSpansFilter | backend/book_api.py:88-91 | a span is collected exactly when some block yields it as a PERSON entity |
| PersonCounts.AllSpansPrefix | backend/main.py:93-96 | the spans of the first j blocks come before those of later blocks |
| PersonCounts.NameCountsSpec | backend/main.py:115-119 | the counts add up to the number of spans, each is at least 1, there is one per distinct name, and each is that name's number of occurrences |
| PersonCounts.CharactersSpec | backend/main.py:123-138 | the characters are at most 50, sorted by count, distinct, with true counts, and no omitted name is more frequent than a listed one; the counter lists each name once in first-seen order and tied names keep that order |
| PersonCounts.SummarySpec | backend/book_api.py:106-130 | the total mentions equal the sum of the counts, the unique count is the number of distinct names, and the bucket names are the counter's names |
| InteractionList.CollectInteractions | frontend/components/InteractionList.tsx:15-31 | the per-node loop, sort and slice give the 5 heaviest touching entries |
| InteractionList.BuildInteractionList | frontend/components/InteractionList.tsx:14-46 | the characters are one per node, sorted by total kept weight, and the first 5 are rendered |
| InteractionList.TouchingSpec | frontend/components/InteractionList.tsx:17-28 | a node gets one entry per edge touching it, and the entry weights add up to the weight of those edges |
| InteractionList.TouchingEntries | frontend/components/InteractionList.tsx:17-28 | an entry exists exactly when some touching edge names that other end with that weight |
| InteractionList.InteractionsTop | frontend/components/InteractionList.tsx:30-31 | a node keeps at most 5 entries, heaviest first, drawn from its touching entries, none outweighed by a dropped one, with ties in edge order |
| InteractionList.CharsSpec | frontend/components/InteractionList.tsx:14-42 | the sorted characters are a permutation of the nodes' names, sorted by total weight, with ties in node order |
| InteractionList.ShownSpec | frontend/components/InteractionList.tsx:46 | at most 5 characters are shown, the first 5 of the sorted list, and none of the others has a larger total weight |

## Left out

- Network and file input/output are left out: the Gutenberg download, the metadata lookup, the web routes and the `pg11.txt` fallback.
- The language-model calls are left out. The model takes their parsed replies as inputs: per-chunk graphs for `merge`, and the alias map for cleaning.
- JSON parsing and `int()` conversion of the replies are left out. Values are taken as already-parsed integers. The failure paths of those calls are not modelled.
- The spaCy pipeline is a parameter.
  - In the graph backend, `doc.ents` is taken to be the concatenation of the entities of `doc.sents`.
  - `nlp.pipe` is modelled as applying the recogniser to each block in order.
- The regex searches are parameters: the first match of each pattern, or none.
- Gutenberg.CoreText: the slice is modelled on character positions. Python's handling of positions out of range is reproduced only for the case that can occur: a content start beyond the footer gives the empty string.
- Segmenting.ExcerptStart: `int(len(txt) * 0.05)` is computed in floating point. It is modelled as exact integer division by 20. Rounding of the product can differ from that for very long texts.
- Segmenting.RoundHalfEven: `round(len / 2200)` rounds a float quotient. It is modelled on the exact quotient, with ties to even. A quotient whose float value falls on the other side of a half could round differently.
- Segmenting.ChunksCover: coverage is proved only for at most 201 chunks. Segmenting.ChunksMissTail shows that it fails beyond that bound. Every caller passes an excerpt of at most 90000 characters, which needs at most 41 chunks.
- Sorting.SortInPlace: the JavaScript engine's sort algorithm is not modelled. Any stable sort gives the same result as the insertion sort used here.
- InteractionList: JavaScript numbers are modelled as unbounded integers.
- InteractionList: `==` on names is modelled as string equality.
- InteractionList: rendering is left out. The model stops at the list of characters shown.
- Co-occurrence is counted once per sentence and name pair. The code has no sliding window: `deque` is imported but never used. The model follows the code.
- A failed or empty alias map has no separate path in the code, and the model has none either. An empty map leaves every name as it is.
- Printing, timing, the commented-out code and the stub endpoints are left out.
- The book API's `spacy_count` builds buckets and never uses or returns them. The model returns them so that their contents can be stated.
- Batching (`nlp.pipe(batch_size=...)`) is left out. The recogniser's results are taken block by block, in order.
