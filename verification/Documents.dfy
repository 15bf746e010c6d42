/** A whole document: cut at its headings, then into chunks. */
module Documents {
  import opened Prelude
  import opened Windows

  // -------------------------------------------------------------- splitting at matches

  /** re.split with one group around the whole pattern: text between matches and the
      matches themselves, alternating.  Which spans match is left open; they are given
      in order and do not overlap. */
  predicate Matches(text: string, from: nat, ms: seq<Span>)
    decreases |ms|
  {
    if ms == [] then from <= |text|
    else from <= ms[0].start <= ms[0].end <= |text| && Matches(text, ms[0].end, ms[1..])
  }

  function Pieces(text: string, from: nat, ms: seq<Span>): seq<string>
    requires Matches(text, from, ms)
    decreases |ms|
  {
    if ms == [] then [text[from..]]
    else [text[from..ms[0].start], TextOf(text, ms[0])] + Pieces(text, ms[0].end, ms[1..])
  }

  lemma {:induction false} PiecesRebuild(text: string, from: nat, ms: seq<Span>)
    requires Matches(text, from, ms)
    ensures Concat(Pieces(text, from, ms)) == text[from..]
    decreases |ms|
  {
    if ms == [] {
      assert Concat([text[from..]]) == text[from..] + Concat<char>([]);
    } else {
      var m := ms[0];
      PiecesRebuild(text, m.end, ms[1..]);
      var gap, hit := text[from..m.start], TextOf(text, m);
      ConcatAppend([gap, hit], Pieces(text, m.end, ms[1..]));
      assert [gap, hit][1..] == [hit] && [hit][1..] == [];
      assert Concat([gap, hit]) == gap + (hit + Concat<char>([]));
      assert gap + hit + text[m.end..] == text[from..];
    }
  }

  // ----------------------------------------------------------------------- sections

  function Hashes(s: string): (n: nat)
    ensures n <= |s|
  {
    if s != "" && s[0] == '#' then 1 + Hashes(s[1..]) else 0
  }

  /** A piece opens a section if it begins with one to three hashes and white space. */
  predicate StartsLikeHeading(part: string) {
    var n := Hashes(part);
    1 <= n <= 3 && n < |part| && IsSpace(part[n])
  }

  /** The unstripped sections: a new one starts at each heading piece.  `glue` is what
      the splitter puts after a heading: nothing in the loader, a newline in the
      ingestion chunker. */
  function RawSections(parts: seq<string>, glue: string, current: string): seq<string>
    decreases |parts|
  {
    if parts == [] then [current]
    else if StartsLikeHeading(parts[0]) then
      (if current == "" then [] else [current]) + RawSections(parts[1..], glue, parts[0] + glue)
    else RawSections(parts[1..], glue, current + parts[0])
  }

  function Glued(parts: seq<string>, glue: string): string {
    if parts == [] then ""
    else parts[0] + (if StartsLikeHeading(parts[0]) then glue else "") + Glued(parts[1..], glue)
  }

  lemma {:induction false} GluedWithNothing(parts: seq<string>)
    ensures Glued(parts, "") == Concat(parts)
  {
    if parts != [] {
      GluedWithNothing(parts[1..]);
      assert parts[0] + "" == parts[0];
    }
  }

  lemma ConcatOptional(current: string, rest: seq<string>)
    ensures Concat((if current == "" then [] else [current]) + rest) == current + Concat(rest)
  {
    if current == "" {
      assert [] + rest == rest;
    } else {
      assert ([current] + rest)[1..] == rest;
    }
  }

  lemma {:induction false} SectionsRebuild(parts: seq<string>, glue: string, current: string)
    ensures Concat(RawSections(parts, glue, current)) == current + Glued(parts, glue)
    decreases |parts|
  {
    hide StartsLikeHeading;
    if parts == [] {
      assert Concat([current]) == current + Concat<char>([]);
    } else {
      var p := parts[0];
      var rest := Glued(parts[1..], glue);
      if StartsLikeHeading(p) {
        SectionsRebuild(parts[1..], glue, p + glue);
        ConcatOptional(current, RawSections(parts[1..], glue, p + glue));
      } else {
        SectionsRebuild(parts[1..], glue, current + p);
        assert p + "" + rest == p + rest;
        Assoc(current, p, rest);
      }
    }
  }

  // -------------------------------------------------- where sections begin and end

  /** A heading piece: one to three `#`, then white space. */
  ghost predicate IsHeading(part: string) {
    exists n :: 1 <= n <= 3 && n < |part| && IsSpace(part[n]) && forall i :: 0 <= i < n ==> part[i] == '#'
  }

  lemma {:induction false} HashesCount(s: string)
    ensures forall i :: 0 <= i < Hashes(s) ==> s[i] == '#'
    ensures Hashes(s) < |s| ==> s[Hashes(s)] != '#'
  {
    if s != "" && s[0] == '#' { HashesCount(s[1..]); }
  }

  lemma HeadingTest(part: string)
    ensures StartsLikeHeading(part) <==> IsHeading(part)
  {
    HashesCount(part);
    if IsHeading(part) {
      var n :| 1 <= n <= 3 && n < |part| && IsSpace(part[n]) && forall i :: 0 <= i < n ==> part[i] == '#';
      assert !IsSpace('#');
      assert Hashes(part) == n;
    }
  }

  /** A heading piece and the pieces up to the next one. */
  datatype Block = Block(heading: string, texts: seq<string>)

  ghost predicate NoHeadings(parts: seq<string>) {
    forall i :: 0 <= i < |parts| ==> !IsHeading(parts[i])
  }

  /** Each block begins with a heading and has no other. */
  ghost predicate Proper(blocks: seq<Block>) {
    forall i :: 0 <= i < |blocks| ==> IsHeading(blocks[i].heading) && NoHeadings(blocks[i].texts)
  }

  function Flat(blocks: seq<Block>): seq<string> {
    if blocks == [] then [] else [blocks[0].heading] + blocks[0].texts + Flat(blocks[1..])
  }

  /** The text of each block, with the glue after its heading. */
  function Texts(blocks: seq<Block>, glue: string): seq<string> {
    if blocks == [] then [] else [blocks[0].heading + glue + Concat(blocks[0].texts)] + Texts(blocks[1..], glue)
  }

  /** The section before the first heading: none if it would be empty and others follow. */
  function Opening(lead: string, blocks: seq<Block>): seq<string> {
    if lead == "" && blocks != [] then [] else [lead]
  }

  /** Where sections begin and end: the pieces are some without headings, and then blocks; the
      sections are the leading text, if any, and one for each block.  So every heading
      begins a section, every section but the leading one begins with a heading, and none
      holds two. */
  lemma {:induction false} SectionsBeginAtHeadings(parts: seq<string>, glue: string, current: string)
    returns (lead: seq<string>, blocks: seq<Block>)
    ensures parts == lead + Flat(blocks) && NoHeadings(lead) && Proper(blocks)
    ensures
      RawSections(parts, glue, current) == Opening(current + Concat(lead), blocks) + Texts(blocks, glue)
    decreases |parts|
  {
    hide IsHeading, StartsLikeHeading;
    if parts == [] {
      lead, blocks := [], [];
      assert current + "" == current && Opening(current, []) + [] == [current];
    } else {
      HeadingTest(parts[0]);
      if IsHeading(parts[0]) {
        var l, b := SectionsBeginAtHeadings(parts[1..], glue, parts[0] + glue);
        lead, blocks := [], [Block(parts[0], l)] + b;
        HeadingFirst(parts, glue, current, l, b);
      } else {
        var l, b := SectionsBeginAtHeadings(parts[1..], glue, current + parts[0]);
        lead, blocks := [parts[0]] + l, b;
        TextFirst(parts[0], current, l);
        Assoc([parts[0]], l, Flat(b));
      }
    }
  }

  lemma TextFirst(part: string, current: string, lead: seq<string>)
    ensures current + Concat([part] + lead) == current + part + Concat(lead)
  {
    assert ([part] + lead)[1..] == lead;
    Assoc(current, part, Concat(lead));
  }

  lemma HeadingFirst(parts: seq<string>, glue: string, current: string, lead: seq<string>, later: seq<Block>)
    requires parts != [] && IsHeading(parts[0]) && parts[1..] == lead + Flat(later)
    ensures
      var blocks := [Block(parts[0], lead)] + later;
      parts == [] + Flat(blocks)
      && Opening(current + Concat<char>([]), blocks) + Texts(blocks, glue)
         == (if current == "" then [] else [current])
            + (Opening(parts[0] + glue + Concat(lead), later) + Texts(later, glue))
  {
    assert parts[0] + glue + Concat(lead) != "";
    hide IsHeading;
    var block := Block(parts[0], lead);
    assert ([block] + later)[1..] == later;
    assert parts == [parts[0]] + parts[1..];
    Assoc([parts[0]], lead, Flat(later));
    assert current + "" == current;
  }

  /** The sections kept are longer than 20 characters and free of white space at the ends. */
  lemma {:induction false} SectionsAreLong(raw: seq<string>, s: string)
    requires s in Sections(raw)
    ensures |s| > 20 && !IsSpace(s[0]) && !IsSpace(s[|s| - 1])
  {
    if s in LongEnough(Strip(raw[0])) {
      hide IsSpace;
    } else {
      SectionsAreLong(raw[1..], s);
    }
  }

  /** Sections whose stripped text is longer than 20 characters, stripped. */
  function Sections(raw: seq<string>): seq<string> {
    if raw == [] then []
    else LongEnough(Strip(raw[0])) + Sections(raw[1..])
  }

  function LongEnough(s: string): seq<string> { if |s| > 20 then [s] else [] }

  /** The sections that are kept: those of more than 20 characters. */
  function Long(sections: seq<string>): seq<string> {
    if sections == [] then [] else LongEnough(sections[0]) + Long(sections[1..])
  }

  lemma {:induction false} LongSnoc(sections: seq<string>, s: string)
    ensures Long(sections + [s]) == Long(sections) + LongEnough(s)
  {
    if sections == [] {
      assert sections + [s] == [s] && Long([s]) == LongEnough(s) + Long([]);
    } else {
      LongSnoc(sections[1..], s);
      assert (sections + [s])[1..] == sections[1..] + [s];
      Assoc(LongEnough(sections[0]), Long(sections[1..]), LongEnough(s));
    }
  }

  lemma SectionsStep(parts: seq<string>, glue: string, current: string)
    requires parts != []
    ensures
      Sections(RawSections(parts, glue, current))
      == if StartsLikeHeading(parts[0])
         then
           LongEnough(if current == "" then "" else Strip(current))
           + Sections(RawSections(parts[1..], glue, parts[0] + glue))
         else Sections(RawSections(parts[1..], glue, current + parts[0]))
  {
    if StartsLikeHeading(parts[0]) && current != "" {
      var rest := RawSections(parts[1..], glue, parts[0] + glue);
      assert ([current] + rest)[1..] == rest;
    } else if StartsLikeHeading(parts[0]) {
      var rest := RawSections(parts[1..], glue, parts[0] + glue);
      assert [] + rest == rest;
    }
  }

  lemma SectionsEnd(glue: string, current: string)
    ensures Sections(RawSections([], glue, current)) == LongEnough(Strip(current))
  {
    assert [current][1..] == [];
  }

  /** What is collected so far, the open section and the pieces to come make up all. */
  predicate Underway(parts: seq<string>, glue: string, i: nat, current: string, sections: seq<string>) {
    i <= |parts|
    && Long(sections) + Sections(RawSections(parts[i..], glue, current)) == Sections(RawSections(parts, glue, ""))
  }

  lemma UnderwayText(parts: seq<string>, glue: string, i: nat, current: string, sections: seq<string>)
    requires i < |parts| && Underway(parts, glue, i, current, sections) && !StartsLikeHeading(parts[i])
    ensures Underway(parts, glue, i + 1, current + parts[i], sections)
  {
    hide Sections, RawSections, Long, StartsLikeHeading;
    SectionsStep(parts[i..], glue, current);
    assert parts[i..][1..] == parts[i + 1..];
  }

  lemma UnderwayHeading(
    parts: seq<string>, glue: string, i: nat, current: string, sections: seq<string>, sections': seq<string>)
    requires i < |parts| && Underway(parts, glue, i, current, sections) && StartsLikeHeading(parts[i])
    requires sections' == if current == "" then sections else sections + [Strip(current)]
    ensures Underway(parts, glue, i + 1, parts[i] + glue, sections')
  {
    hide Sections, RawSections, Long, StartsLikeHeading, Strip;
    SectionsStep(parts[i..], glue, current);
    assert parts[i..][1..] == parts[i + 1..];
    var rest := Sections(RawSections(parts[i + 1..], glue, parts[i] + glue));
    if current == "" {
      assert LongEnough("") + rest == rest;
    } else {
      LongSnoc(sections, Strip(current));
      Assoc(Long(sections), LongEnough(Strip(current)), rest);
    }
  }

  lemma UnderwayEnd(parts: seq<string>, glue: string, current: string, sections: seq<string>)
    requires Underway(parts, glue, |parts|, current, sections)
    ensures Long(sections) + LongEnough(Strip(current)) == Sections(RawSections(parts, glue, ""))
  {
    SectionsEnd(glue, current);
    assert parts[|parts|..] == [];
  }

  /** _split_by_headings on the pieces of the split. */
  method SplitByHeadings(parts: seq<string>, glue: string) returns (sections: seq<string>)
    ensures sections == Sections(RawSections(parts, glue, ""))
  {
    sections := [];
    var current := "";
    assert Underway(parts, glue, 0, current, sections) by { assert parts[0..] == parts; }
    hide Underway, Sections, RawSections, Long, Strip, StartsLikeHeading;
    var i := 0;
    while i < |parts|
      invariant 0 <= i <= |parts| && Underway(parts, glue, i, current, sections)
    {
      var part := parts[i];
      if StartsLikeHeading(part) {
        ghost var before := sections;
        if current != "" {
          sections := sections + [Strip(current)];
        }
        UnderwayHeading(parts, glue, i, current, before, sections);
        current := part + glue;
      } else {
        UnderwayText(parts, glue, i, current, sections);
        current := current + part;
      }
      i := i + 1;
    }
    UnderwayEnd(parts, glue, current, sections);
    LongSnoc(sections, Strip(current));
    if Strip(current) != "" {
      sections := sections + [Strip(current)];
    } else {
      assert Long(sections) + LongEnough("") == Long(sections);
    }
    sections := Long(sections);
  }

  // ------------------------------------------------------------------ whole documents

  function AllChunks(sections: seq<string>, size: nat, overlap: nat): seq<string>
    requires Advancing(size, overlap)
  {
    if sections == [] then [] else Chunks(sections[0], size, overlap) + AllChunks(sections[1..], size, overlap)
  }

  lemma {:induction false} AllChunksSnoc(sections: seq<string>, s: string, size: nat, overlap: nat)
    requires Advancing(size, overlap)
    ensures AllChunks(sections + [s], size, overlap) == AllChunks(sections, size, overlap) + Chunks(s, size, overlap)
  {
    hide Chunks;
    if sections == [] {
      assert [s][1..] == [];
      assert sections + [s] == [s] && AllChunks([s], size, overlap) == Chunks(s, size, overlap) + [];
    } else {
      AllChunksSnoc(sections[1..], s, size, overlap);
      assert (sections + [s])[1..] == sections[1..] + [s];
      Assoc(Chunks(sections[0], size, overlap), AllChunks(sections[1..], size, overlap), Chunks(s, size, overlap));
    }
  }

  /** chunk_document, on the pieces of the split. */
  method ChunkDocument(parts: seq<string>, size: nat, overlap: nat) returns (chunks: seq<string>)
    requires Advancing(size, overlap)
    ensures chunks == AllChunks(Sections(RawSections(parts, "", "")), size, overlap)
  {
    var sections := SplitByHeadings(parts, "");
    hide Chunks, Advancing, Sections, RawSections;
    chunks := [];
    var i := 0;
    while i < |sections|
      invariant 0 <= i <= |sections|
      invariant chunks == AllChunks(sections[..i], size, overlap)
    {
      var sectionChunks := ChunkBySize(sections[i], size, overlap);
      AllChunksSnoc(sections[..i], sections[i], size, overlap);
      assert sections[..i + 1] == sections[..i] + [sections[i]];
      chunks := chunks + sectionChunks;
      i := i + 1;
    }
    assert sections[..i] == sections;
  }

  lemma {:induction false} SectionKept(raw: seq<string>, i: nat)
    requires i < |raw| && |Strip(raw[i])| > 20
    ensures Strip(raw[i]) in Sections(raw)
  {
    if i > 0 {
      SectionKept(raw[1..], i - 1);
    }
  }

  lemma {:induction false} ChunksOfSectionKept(sections: seq<string>, s: string, size: nat, overlap: nat)
    requires Advancing(size, overlap) && s in sections
    ensures forall c :: c in Chunks(s, size, overlap) ==> c in AllChunks(sections, size, overlap)
  {
    if sections[0] != s {
      ChunksOfSectionKept(sections[1..], s, size, overlap);
    }
  }

  /** TextChunker.__call__ on the pieces of the split: the ingestion chunker puts a
      newline after each heading and filters out empty chunks, of which there are none. */
  method ChunkForIngestion(parts: seq<string>, size: nat, overlap: nat) returns (chunks: seq<string>)
    requires Advancing(size, overlap)
    ensures chunks == AllChunks(Sections(RawSections(parts, "\n", "")), size, overlap)
  {
    var sections := SplitByHeadings(parts, "\n");
    hide Chunks, Advancing, Sections, RawSections;
    chunks := [];
    var i := 0;
    while i < |sections|
      invariant 0 <= i <= |sections|
      invariant chunks == AllChunks(sections[..i], size, overlap)
    {
      var sectionChunks := ChunkSection(sections[i], size, overlap);
      AllChunksSnoc(sections[..i], sections[i], size, overlap);
      assert sections[..i + 1] == sections[..i] + [sections[i]];
      chunks := chunks + sectionChunks;
      i := i + 1;
    }
    assert sections[..i] == sections;
  }

  /** Nothing is dropped from a document but white space and short sections: its
      unstripped sections concatenate to the text (with the glue after each heading),
      and every non-blank character of a section whose stripped text exceeds 20
      characters lies in some chunk that is a piece of the section. */
  lemma DocumentCovered(text: string, ms: seq<Span>, glue: string, size: nat, overlap: nat)
    requires Matches(text, 0, ms) && Advancing(size, overlap)
    ensures
      var parts := Pieces(text, 0, ms);
      var raw := RawSections(parts, glue, "");
      Concat(raw) == Glued(parts, glue) && (glue == "" ==> Concat(raw) == text)
      && forall i, p ::
           0 <= i < |raw| && 0 <= p < |raw[i]| && |Strip(raw[i])| > 20 && !IsSpace(raw[i][p]) ==>
           InSomeChunk(raw[i], p, AllChunks(Sections(raw), size, overlap))
  {
    var parts := Pieces(text, 0, ms);
    var raw := RawSections(parts, glue, "");
    PiecesRebuild(text, 0, ms);
    SectionsRebuild(parts, glue, "");
    GluedWithNothing(parts);
    assert "" + Glued(parts, glue) == Glued(parts, glue) && text[0..] == text;
    forall i, p | 0 <= i < |raw| && 0 <= p < |raw[i]| && |Strip(raw[i])| > 20 && !IsSpace(raw[i][p])
      ensures InSomeChunk(raw[i], p, AllChunks(Sections(raw), size, overlap))
    {
      SectionKept(raw, i);
      SectionCovered(raw[i], p, Sections(raw), size, overlap);
    }
  }

  lemma SectionCovered(raw: string, p: nat, sections: seq<string>, size: nat, overlap: nat)
    requires Advancing(size, overlap) && p < |raw| && !IsSpace(raw[p]) && Strip(raw) in sections
    ensures InSomeChunk(raw, p, AllChunks(sections, size, overlap))
  {
    hide Chunks, AllChunks, Strip, IsSpace, Advancing;
    var t := Trim(raw, Span(0, |raw|));
    var section := Strip(raw);
    assert TextOf(raw, Span(0, |raw|)) == raw && TextOf(raw, t) == section;
    var q := p - t.start;
    assert section[q] == raw[p];
    ChunksCover(section, size, overlap, q);
    ChunksOfSectionKept(sections, section, size, overlap);
    CoveredInside(raw, p, t, Chunks(section, size, overlap), AllChunks(sections, size, overlap));
  }

  lemma CoveredInside(raw: string, p: nat, t: Span, some: seq<string>, all: seq<string>)
    requires t.start <= p < t.end <= |raw| && InSomeChunk(TextOf(raw, t), p - t.start, some)
    requires forall c :: c in some ==> c in all
    ensures InSomeChunk(raw, p, all)
  {
    var section := TextOf(raw, t);
    var lo: nat, hi: nat :| lo <= p - t.start < hi <= |section| && section[lo..hi] in some;
    SliceOfSlice(raw, t.start, t.end, lo, hi);
    InSomeChunkBy(raw, p, all, Span(t.start + lo, t.start + hi));
  }
}
