/** What the entity recogniser hands back for a block of text, reduced to what the
    counting code reads: each entity's text, its label (`kind`) and its character
    offsets. */
module Entities {
  import opened Strings

  datatype Entity = Entity(text: string, kind: string, startChar: nat, endChar: nat)

  predicate IsPerson(e: Entity)
  {
    e.kind == "PERSON"
  }

  /** `(ent.text, ent.start_char, ent.end_char)` */
  datatype Span = Span(text: string, startChar: nat, endChar: nat)

  function SpanOf(e: Entity): Span
  {
    Span(e.text, e.startChar, e.endChar)
  }

  /** `[(ent.text, ent.start_char, ent.end_char) for ent in ents if ent.label_ == "PERSON"]` */
  function PersonSpans(ents: seq<Entity>): seq<Span>
  {
    if ents == [] then []
    else PersonSpans(ents[..|ents| - 1]) + (if IsPerson(ents[|ents| - 1]) then [SpanOf(ents[|ents| - 1])] else [])
  }

  /** `ent.text.strip()` of each PERSON entity, in order. */
  function PersonNames(ents: seq<Entity>): seq<string>
  {
    if ents == [] then []
    else PersonNames(ents[..|ents| - 1]) + (if IsPerson(ents[|ents| - 1]) then [Strip(ents[|ents| - 1].text)] else [])
  }

  /** `name.strip()` for each span, in order. */
  function SpanNames(spans: seq<Span>): (names: seq<string>)
    ensures |names| == |spans|
  {
    if spans == [] then [] else SpanNames(spans[..|spans| - 1]) + [Strip(spans[|spans| - 1].text)]
  }

  /** A span is collected exactly when some PERSON entity has it. */
  lemma {:induction false} PersonSpansFilter(ents: seq<Entity>, x: Span)
    ensures x in PersonSpans(ents) <==> exists e :: e in ents && IsPerson(e) && SpanOf(e) == x
  {
    if ents != [] {
      var ents', last := ents[..|ents| - 1], ents[|ents| - 1];
      PersonSpansFilter(ents', x);
      assert ents == ents' + [last];
      if exists e :: e in ents && IsPerson(e) && SpanOf(e) == x {
        var e :| e in ents && IsPerson(e) && SpanOf(e) == x;
        if e != last {
          assert e in ents';
        }
      }
    }
  }

  /** Counting over the collected spans counts the stripped PERSON names. */
  lemma {:induction false} SpanNamesOfPersons(ents: seq<Entity>)
    ensures SpanNames(PersonSpans(ents)) == PersonNames(ents)
  {
    if ents != [] {
      var ents' := ents[..|ents| - 1];
      SpanNamesOfPersons(ents');
      SpanNamesAppend(PersonSpans(ents'), if IsPerson(ents[|ents| - 1]) then [SpanOf(ents[|ents| - 1])] else []);
    }
  }

  lemma {:induction false} SpanNamesAppend(a: seq<Span>, b: seq<Span>)
    ensures SpanNames(a + b) == SpanNames(a) + SpanNames(b)
    decreases |b|
  {
    if b == [] {
      assert a + b == a;
    } else {
      assert (a + b)[..|a + b| - 1] == a + b[..|b| - 1];
      SpanNamesAppend(a, b[..|b| - 1]);
    }
  }
}
