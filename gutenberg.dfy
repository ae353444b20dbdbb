/** `core_text`: strips the Project Gutenberg header and footer from a downloaded book.
    The two regex searches (`*** start of ... project gutenberg ebook` and
    `*** end of ... project gutenberg ebook`, case-insensitive) are inputs: each is
    the first match of its pattern, as [start, end) bounds, or None. */
module Gutenberg {
  import opened Wrappers
  import opened Strings

  datatype Match = Match(start: nat, end: nat)

  predicate ValidMatch(txt: string, m: Option<Match>)
  {
    m.Some? ==> m.value.start <= m.value.end <= |txt|
  }

  /** Both markers were found and the footer starts after the header ends. */
  predicate MarkersUsable(h: Option<Match>, f: Option<Match>)
  {
    h.Some? && f.Some? && f.value.start > h.value.end
  }

  /** `txt.find("\n", header_end) + 1`: just past the first newline at or after the
      header's end, or 0 when no newline follows the header. */
  function ContentStart(txt: string, headerEnd: nat): (s: nat)
    ensures s == 0 ==> forall k :: headerEnd <= k < |txt| ==> txt[k] != '\n'
    ensures s != 0 ==> headerEnd < s <= |txt| && txt[s - 1] == '\n'
    ensures s != 0 ==> forall k :: headerEnd <= k < s - 1 ==> txt[k] != '\n'
  {
    FindFrom(txt, '\n', headerEnd) + 1
  }

  /** `core_text(txt)`: unchanged when a marker is missing or out of order (fail
      open); otherwise the stripped text between the header line and the footer. */
  function CoreText(txt: string, h: Option<Match>, f: Option<Match>): (r: string)
    requires ValidMatch(txt, h) && ValidMatch(txt, f)
    ensures !MarkersUsable(h, f) ==> r == txt
    ensures MarkersUsable(h, f) ==> |r| <= f.value.start
  {
    if h.None? || f.None? || f.value.start <= h.value.end then txt
    else
      var start := ContentStart(txt, h.value.end);
      // Python's txt[start:stop] is empty when start > stop
      if start <= f.value.start then Strip(txt[start..f.value.start]) else []
  }

  /** The text is returned unchanged exactly when the markers are unusable
      (a footer match is never empty, as its pattern begins with `***`). */
  lemma CoreTextFailOpen(txt: string, h: Option<Match>, f: Option<Match>)
    requires ValidMatch(txt, h) && ValidMatch(txt, f)
    requires f.Some? ==> f.value.start < f.value.end
    ensures CoreText(txt, h, f) == txt <==> !MarkersUsable(h, f)
  {
  }

  /** With usable markers the result is one slice txt[i..j] of the text: it ends at
      or before the footer's start, it begins no earlier than the line after the
      header (when a newline follows the header before the footer), only whitespace
      is cut off around it, and it neither starts nor ends with whitespace. */
  lemma CoreTextSlice(txt: string, h: Option<Match>, f: Option<Match>) returns (i: nat, j: nat)
    requires ValidMatch(txt, h) && ValidMatch(txt, f) && MarkersUsable(h, f)
    ensures i <= j <= f.value.start && CoreText(txt, h, f) == txt[i..j]
    ensures var s := ContentStart(txt, h.value.end);
      s <= f.value.start ==> s <= i && (forall k :: s <= k < i ==> IsSpace(txt[k]))
                                    && (forall k :: j <= k < f.value.start ==> IsSpace(txt[k]))
    ensures var s := ContentStart(txt, h.value.end);
      s > f.value.start ==> CoreText(txt, h, f) == []
    ensures (exists k :: h.value.end <= k < f.value.start && txt[k] == '\n') ==> h.value.end < i
    ensures var r := CoreText(txt, h, f); r == [] || (!IsSpace(r[0]) && !IsSpace(r[|r| - 1]))
  {
    var s := ContentStart(txt, h.value.end);
    var fs := f.value.start;
    if s <= fs {
      i, j := StripSlice(txt, s, fs);
      if exists k :: h.value.end <= k < fs && txt[k] == '\n' {
        assert s != 0;
      }
    } else {
      i, j := fs, fs;
    }
  }

  /** `txt[lo:hi].strip()` is the slice txt[i..j] left after cutting whitespace
      from both ends of txt[lo..hi]. */
  lemma StripSlice(txt: string, lo: nat, hi: nat) returns (i: nat, j: nat)
    requires lo <= hi <= |txt|
    ensures lo <= i <= j <= hi && Strip(txt[lo..hi]) == txt[i..j]
    ensures forall k :: lo <= k < i ==> IsSpace(txt[k])
    ensures forall k :: j <= k < hi ==> IsSpace(txt[k])
    ensures i < j ==> !IsSpace(txt[i]) && !IsSpace(txt[j - 1])
  {
    var b := StripBounds(txt[lo..hi]);
    i, j := lo + b.0, lo + b.1;
    assert txt[lo..hi][b.0..b.1] == txt[i..j];
    forall k | lo <= k < i
      ensures IsSpace(txt[k])
    {
      assert txt[k] == txt[lo..hi][k - lo];
    }
    forall k | j <= k < hi
      ensures IsSpace(txt[k])
    {
      assert txt[k] == txt[lo..hi][k - lo];
    }
  }
}
