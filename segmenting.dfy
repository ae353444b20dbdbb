/** The segmenter: the excerpt window (`take_excerpt`), the overlapping chunks sent
    to the language model (`make_chunks`) and the fixed blocks sent to the entity
    recogniser (`[raw_text[i:i+B] for i in range(0, len(raw_text), B)]`). */
module Segmenting {
  import opened Wrappers
  import opened Sequences

  const ChunkChars: nat := 2200
  const OverlapChars: nat := 200
  const ExcerptChars: nat := 90000
  /** The chunk limit fixed by the alternative pipeline. */
  const MaxChunks: int := 5

  // ---------------------------------------------------------------- excerpt

  /** `int(len(txt) * 0.05)`: the number of characters skipped at the start. */
  function ExcerptStart(len: nat): (start: nat)
    ensures start * 20 <= len < (start + 1) * 20
  {
    len / 20
  }

  /** `take_excerpt(txt)`: after the skipped 5%, the next 90000 characters or
      whatever is left of the text. */
  function TakeExcerpt(txt: string): (r: string)
    ensures var start := ExcerptStart(|txt|);
      |r| == Min(ExcerptChars, |txt| - start) && r == txt[start..start + |r|]
  {
    var start := ExcerptStart(|txt|);
    txt[start..Min(start + ExcerptChars, |txt|)]
  }

  // ---------------------------------------------------------------- chunk count

  /** Python's `round(n / d)`: the nearest integer, halves to the even neighbour. */
  function RoundHalfEven(n: nat, d: nat): (r: nat)
    requires d > 0
    ensures -(d as int) <= 2 * (n - r * d) <= d
    ensures 2 * (n - r * d) == d || 2 * (n - r * d) == -(d as int) ==> r % 2 == 0
  {
    var q := n / d;
    var m := n % d;
    DivMod(n, d);
    MulSucc(q, d);
    if 2 * m < d then q
    else if 2 * m > d then q + 1
    else if q % 2 == 0 then q
    else q + 1
  }

  /** `n = min(max_chunks, max(1, round(len(text) / 2200)))` */
  function ChunkCount(len: nat, maxChunks: int): (n: int)
    ensures maxChunks >= 1 ==> 1 <= n <= maxChunks
    ensures maxChunks <= 0 ==> n == maxChunks
  {
    Min(maxChunks, Max(1, RoundHalfEven(len, ChunkChars)))
  }

  // ---------------------------------------------------------------- chunk bounds

  /** `lo = max(0, i * span - 200)` with `span = len // n` */
  function ChunkLo(len: nat, n: nat, i: nat): nat
    requires n > 0
  {
    Max(0, i * (len / n) - OverlapChars)
  }

  /** `hi = min(len, (i + 1) * span + 200)` */
  function ChunkHi(len: nat, n: nat, i: nat): int
    requires n > 0
  {
    Min(len, (i + 1) * (len / n) + OverlapChars)
  }

  predicate InChunk(len: nat, n: nat, i: nat, k: int)
    requires n > 0
  {
    ChunkLo(len, n, i) <= k < ChunkHi(len, n, i)
  }

  lemma MulMono(a: nat, b: nat, c: nat)
    requires a <= b
    ensures a * c <= b * c
  {
  }

  /** Every chunk's bounds lie within the text and in order. */
  lemma ChunkBounds(len: nat, n: nat, i: nat)
    requires 0 < n && i < n
    ensures 0 <= ChunkLo(len, n, i) <= ChunkHi(len, n, i) <= len
  {
    var span := len / n;
    MulMono(i, n, span);
    assert n * span <= len;
  }

  /** Chunk i of text, with n chunks in all. */
  predicate IsChunk(text: string, n: nat, i: nat, c: string)
    requires n > 0
  {
    ChunkLo(|text|, n, i) <= ChunkHi(|text|, n, i) <= |text|
    && c == text[ChunkLo(|text|, n, i)..ChunkHi(|text|, n, i)]
  }

  /** chunks are the first |chunks| of the n chunks of text. */
  predicate IsChunkPrefix(text: string, n: int, chunks: seq<string>)
  {
    n > 0 && |chunks| <= n && forall i :: 0 <= i < |chunks| ==> IsChunk(text, n, i, chunks[i])
  }

  datatype ChunkError = ZeroDivisionError

  /** `make_chunks(text, max_chunks)`: n overlapping chunks; `max_chunks == 0` divides
      by zero, and a negative `max_chunks` gives an empty `range(n)`. */
  method MakeChunks(text: string, maxChunks: int) returns (r: Result<seq<string>, ChunkError>)
    ensures r.Failure? <==> maxChunks == 0
    ensures maxChunks < 0 ==> r == Success([])
    ensures maxChunks > 0 ==> r.Success? && |r.value| == ChunkCount(|text|, maxChunks)
                              && IsChunkPrefix(text, ChunkCount(|text|, maxChunks), r.value)
  {
    var n := Min(maxChunks, Max(1, RoundHalfEven(|text|, ChunkChars)));
    if n == 0 {
      return Failure(ZeroDivisionError);
    }
    // for n < 0 the floor division still succeeds; its value is never used
    var span := |text| / n;
    var out: seq<string> := [];
    var i := 0;
    while i < n
      invariant n < 0 ==> i == 0 && out == []
      invariant n > 0 ==> i <= n && |out| == i && IsChunkPrefix(text, n, out)
    {
      ChunkBounds(|text|, n, i);
      var lo := Max(0, i * span - OverlapChars);
      var hi := Min(|text|, (i + 1) * span + OverlapChars);
      out := out + [text[lo..hi]];
      i := i + 1;
    }
    return Success(out);
  }

  // ---------------------------------------------------------------- overlap and coverage

  /** An index lies in both chunk i and chunk i + 1 exactly when it is within 200
      characters of the cut c = (i + 1) * span between them (clipped to the text). */
  lemma ChunksOverlap(len: nat, n: nat, i: nat, k: int)
    requires 0 < n && i + 1 < n
    ensures var c := (i + 1) * (len / n);
      InChunk(len, n, i, k) && InChunk(len, n, i + 1, k) <==> Max(0, c - OverlapChars) <= k < Min(len, c + OverlapChars)
  {
    var span := len / n;
    MulSucc(i, span);
    MulSucc(i + 1, span);
    OverlapWindow(len, span, (i + 1) * span, k);
  }

  /** The linear core of ChunksOverlap, with the cut c and the span as plain numbers. */
  lemma OverlapWindow(len: nat, span: nat, c: int, k: int)
    ensures Max(0, c - span - OverlapChars) <= k < Min(len, c + OverlapChars)
            && Max(0, c - OverlapChars) <= k < Min(len, c + span + OverlapChars)
        <==> Max(0, c - OverlapChars) <= k < Min(len, c + OverlapChars)
  {
  }

  /** With at most 201 chunks every index of the text lies in some chunk: the
      characters left over by the floor division (fewer than n) fit in the last
      chunk's 200-character padding. */
  lemma ChunksCover(len: nat, n: nat, k: nat) returns (i: nat)
    requires 1 <= n <= 201 && k < len
    ensures i < n && InChunk(len, n, i, k)
  {
    var span := len / n;
    if span == 0 {
      i := 0;
      CoverNoSpan(len, n, k);
    } else if k / span < n {
      i := k / span;
      CoverInner(len, n, k);
    } else {
      i := n - 1;
      CoverTail(len, n, k);
    }
  }

  /** A text shorter than n: chunk 0 holds the first 200 characters. */
  lemma CoverNoSpan(len: nat, n: nat, k: nat)
    requires 1 <= n <= 201 && k < len && len / n == 0
    ensures InChunk(len, n, 0, k)
  {
    DivFloor(len, n);
    MulSucc(0, len / n);
    CoverAt(len, n, 0, k);
  }

  /** An index before the last cut lies in the chunk that starts at or before it. */
  lemma CoverInner(len: nat, n: nat, k: nat)
    requires 1 <= n && k < len && len / n > 0 && k / (len / n) < n
    ensures InChunk(len, n, k / (len / n), k)
  {
    var span, q := len / n, k / (len / n);
    DivFloor(k, span);
    MulSucc(q, span);
    CoverAt(len, n, q, k);
  }

  /** An index past the last cut lies in the last chunk, whose padding covers the
      fewer than n <= 201 characters left over. */
  lemma CoverTail(len: nat, n: nat, k: nat)
    requires 1 <= n <= 201 && k < len && len / n > 0 && k / (len / n) >= n
    ensures InChunk(len, n, n - 1, k)
  {
    var span, q := len / n, k / (len / n);
    DivFloor(len, n);
    DivFloor(k, span);
    MulMono(n, q, span);
    MulSucc(n - 1, span);
    CoverAt(len, n, n - 1, k);
  }

  /** a == (a / b) * b + a % b with the remainder below b. */
  lemma DivMod(a: nat, b: nat)
    requires b > 0
    ensures a == (a / b) * b + a % b && 0 <= a % b < b
  {
  }

  /** Floor division: b * (a / b) <= a < b * (a / b) + b. */
  lemma DivFloor(a: nat, b: nat)
    requires b > 0
    ensures b * (a / b) <= a < b * (a / b) + b
    ensures (a / b) * b == b * (a / b)
  {
  }

  lemma MulSucc(a: nat, b: nat)
    ensures (a + 1) * b == a * b + b
  {
  }

  /** k lies in chunk i when it is past the chunk's cut and before the next cut
      plus the padding. */
  lemma CoverAt(len: nat, n: nat, i: nat, k: nat)
    requires 0 < n && i < n && k < len
    requires i * (len / n) <= k < (i + 1) * (len / n) + OverlapChars
    ensures InChunk(len, n, i, k)
  {
  }

  /** Coverage needs the bound on n: with 300 chunks of a 660250-character text the
      last character is in no chunk. */
  lemma ChunksMissTail()
    ensures ChunkCount(660250, 300) == 300
    ensures forall i :: 0 <= i < 300 ==> !InChunk(660250, 300, i, 660249)
  {
    assert RoundHalfEven(660250, ChunkChars) == 300;
    assert 660250 / 300 == 2200;
  }

  /** Index k of the text lies in one of the n chunks. */
  predicate Covered(len: nat, n: nat, k: int)
    requires n > 0
  {
    exists i :: 0 <= i < n && InChunk(len, n, i, k)
  }

  /** An excerpt (at most 90000 characters) asks for at most 41 chunks, so whatever
      positive chunk limit the caller passes, its chunks cover the whole excerpt. */
  lemma ExcerptChunksCover(len: nat, maxChunks: int, k: nat)
    requires len <= ExcerptChars && maxChunks >= 1 && k < len
    ensures ChunkCount(len, maxChunks) <= 41
    ensures Covered(len, ChunkCount(len, maxChunks), k)
  {
    var n := ChunkCount(len, maxChunks);
    var i := ChunksCover(len, n, k);
  }

  /** `make_chunks(text)` of the alternative pipeline: at most 5 chunks, so the call
      never fails and the chunks cover the whole text. */
  method MakeChunksFixed(text: string) returns (chunks: seq<string>)
    ensures 1 <= |chunks| <= MaxChunks
    ensures |chunks| == ChunkCount(|text|, MaxChunks) && IsChunkPrefix(text, |chunks|, chunks)
    ensures forall k :: 0 <= k < |text| ==> Covered(|text|, |chunks|, k)
  {
    var r := MakeChunks(text, MaxChunks);
    chunks := r.value;
    forall k | 0 <= k < |text|
      ensures Covered(|text|, |chunks|, k)
    {
      var i := ChunksCover(|text|, |chunks|, k);
    }
  }

  // ---------------------------------------------------------------- fixed blocks

  /** `[text[i:i+size] for i in range(0, len(text), size)]` */
  function Blocks(text: string, size: nat): (bs: seq<string>)
    requires size > 0
    decreases |text|
  {
    if text == [] then []
    else [text[..Min(size, |text|)]] + Blocks(text[Min(size, |text|)..], size)
  }

  /** The blocks joined in order give back the text: no gap and no overlap. */
  lemma {:induction false} BlocksConcat(text: string, size: nat)
    requires size > 0
    ensures Flatten(Blocks(text, size)) == text
    decreases |text|
  {
    if text != [] {
      var m := Min(size, |text|);
      BlocksConcat(text[m..], size);
      FlattenAppend([text[..m]], Blocks(text[m..], size));
      assert Flatten([text[..m]]) == Flatten([]) + text[..m];
      assert text == text[..m] + text[m..];
    }
  }

  /** Every block is non-empty and holds size characters, except the last, which
      holds between 1 and size; the number of blocks is len(text) / size rounded up. */
  lemma {:induction false} BlocksShape(text: string, size: nat)
    requires size > 0
    ensures var bs := Blocks(text, size);
      (forall j :: 0 <= j < |bs| - 1 ==> |bs[j]| == size)
      && (bs != [] ==> 1 <= |bs[|bs| - 1]| <= size)
      && (|bs| - 1) * size < |text| <= |bs| * size
      && (bs == [] <==> text == [])
    decreases |text|
  {
    if text != [] {
      var m := Min(size, |text|);
      var rest := Blocks(text[m..], size);
      BlocksShape(text[m..], size);
      assert Blocks(text, size) == [text[..m]] + rest;
      assert (|rest| + 1) * size == |rest| * size + size;
    }
  }

  /** Block j is `text[j*size : (j+1)*size]`, clipped to the text. */
  lemma {:induction false} BlocksAt(text: string, size: nat, j: nat)
    requires size > 0 && j < |Blocks(text, size)|
    ensures j * size < |text|
    ensures Blocks(text, size)[j] == text[j * size..Min(|text|, (j + 1) * size)]
    decreases |text|
  {
    var m := Min(size, |text|);
    assert text != [] && Blocks(text, size) == [text[..m]] + Blocks(text[m..], size);
    if j == 0 {
      assert 0 * size == 0 && (0 + 1) * size == size;
    } else {
      BlocksAt(text[m..], size, j - 1);
      assert m == size;
      MulSucc(j - 1, size);
      MulSucc(j, size);
      var p := (j - 1) * size;
      var hi := Min(|text| - m, p + size);
      SliceOfSuffix(text, m, p, hi);
      assert m + hi == Min(|text|, p + size + size);
    }
  }

  /** A slice of a suffix is a slice of the whole. */
  lemma SliceOfSuffix<T>(s: seq<T>, m: nat, lo: nat, hi: nat)
    requires m <= |s| && lo <= hi <= |s| - m
    ensures s[m..][lo..hi] == s[m + lo..m + hi]
  {
  }
}
