/** The sliding window that cuts a section into overlapping chunks, shared by the
    document loader and the ingestion chunker. */
module Windows {
  import opened Prelude

  /** str.rfind(c, lo, hi) for indices within the text: the last occurrence, or -1. */
  function RFind(text: string, c: char, lo: nat, hi: nat): (i: int)
    requires hi <= |text|
    ensures i == -1 || (lo <= i < hi && text[i] == c)
    ensures forall j :: (if i == -1 then lo else i + 1) <= j < hi ==> text[j] != c
    decreases hi
  {
    if hi <= lo then -1
    else if text[hi - 1] == c then hi - 1
    else RFind(text, c, lo, hi - 1)
  }

  /** Where a window that starts at `start` and is not the last ends: at the last
      newline, else the last space, in its second half, else at full size. */
  function CutAt(text: string, size: nat, start: nat): (end: nat)
    requires start + size < |text|
    ensures start <= end <= start + size
    ensures end == start + size || (end > start + size / 2 && (text[end] == '\n' || text[end] == ' '))
    ensures size >= 1 ==> end >= start + MinStep(size, 0)
  {
    var newline := RFind(text, '\n', start, start + size);
    if newline > start + size / 2 then newline
    else
      var space := RFind(text, ' ', start, start + size);
      if space > start + size / 2 then space else start + size
  }

  /** Where exactly: at the last newline of the second half if there is one there, else at
      the last space of the second half if there is one, else at full size. */
  lemma CutsAtLastBreak(text: string, size: nat, start: nat)
    requires start + size < |text|
    ensures
      var end := CutAt(text, size, start);
      var half, full := start + size / 2, start + size;
      if exists i :: half < i < full && text[i] == '\n' then
        half < end < full && text[end] == '\n' && forall i :: end < i < full ==> text[i] != '\n'
      else if exists i :: half < i < full && text[i] == ' ' then
        half < end < full && text[end] == ' ' && forall i :: end < i < full ==> text[i] != ' '
      else end == full
  {
  }

  /** The least advance of the window. */
  function MinStep(size: nat, overlap: nat): int { size / 2 + 1 - overlap }

  datatype Span = Span(start: nat, end: nat)

  /** Parameters with which the window always advances (TerminatesExactly). */
  predicate Advancing(size: int, overlap: int) { 1 <= size && 0 <= overlap <= size / 2 }

  /** The unstripped windows from `start` on. */
  function Spans(text: string, size: nat, overlap: nat, start: nat): (spans: seq<Span>)
    requires Advancing(size, overlap) && start < |text|
    ensures spans != [] && spans[0].start == start
    decreases |text| - start
  {
    if start + size >= |text| then [Span(start, |text|)]
    else
      var end := CutAt(text, size, start);
      [Span(start, end)] + Spans(text, size, overlap, end - overlap)
  }

  function TextOf(text: string, s: Span): string
    requires s.start <= s.end <= |text|
  {
    text[s.start..s.end]
  }

  lemma SpansStep(text: string, size: nat, overlap: nat, start: nat)
    requires Advancing(size, overlap) && start + size < |text|
    ensures
      var end := CutAt(text, size, start);
      start + MinStep(size, overlap) <= end - overlap < |text|
      && MinStep(size, overlap) >= 1 && start < end < |text| && end - start <= size
      && Spans(text, size, overlap, start) == [Span(start, end)] + Spans(text, size, overlap, end - overlap)
  {
  }

  /** What holds between neighbouring windows. */
  predicate Neighbours(size: nat, overlap: nat, a: Span, b: Span) {
    b.start == a.end - overlap && b.start >= a.start + MinStep(size, overlap) && b.end > a.end
  }

  predicate Proper(text: string, size: nat, s: Span) {
    s.start < s.end <= |text| && s.end - s.start <= size
  }

  /** Windows cover the text from `start` to its end: each is non-empty and at most
      `size` long, neighbours share exactly `overlap` characters, both ends strictly
      increase, and starts advance by at least size/2 + 1 - overlap. */
  ghost predicate Tiling(text: string, size: nat, overlap: nat, start: nat, spans: seq<Span>) {
    spans != [] && spans[0].start == start && spans[|spans| - 1].end == |text|
    && (forall i :: 0 <= i < |spans| ==> Proper(text, size, spans[i]))
    && (forall i :: 0 <= i < |spans| - 1 ==> Neighbours(size, overlap, spans[i], spans[i + 1]))
  }

  lemma TilingCons(text: string, size: nat, overlap: nat, s: Span, rest: seq<Span>)
    requires rest != [] && Tiling(text, size, overlap, rest[0].start, rest)
    requires Proper(text, size, s) && Neighbours(size, overlap, s, rest[0])
    ensures Tiling(text, size, overlap, s.start, [s] + rest)
  {
    var all := [s] + rest;
    forall i | 0 <= i < |all| - 1 ensures Neighbours(size, overlap, all[i], all[i + 1]) {
      if i > 0 { assert all[i] == rest[i - 1] && all[i + 1] == rest[i]; }
    }
    forall i | 0 <= i < |all| ensures Proper(text, size, all[i]) {
      if i > 0 { assert all[i] == rest[i - 1]; }
    }
  }

  /** The first window ends at the end of the text or in its second half. */
  predicate LongFirst(text: string, size: nat, spans: seq<Span>)
    requires spans != []
  {
    spans[0].end == |text| || spans[0].end >= spans[0].start + MinStep(size, 0)
  }

  lemma PrependWindow(text: string, size: nat, overlap: nat, s: Span, rest: seq<Span>)
    requires Advancing(size, overlap) && rest != [] && Tiling(text, size, overlap, rest[0].start, rest)
    requires LongFirst(text, size, rest) && rest[0].start == s.end - overlap
    requires s.start + MinStep(size, overlap) <= s.end - overlap && s.start < s.end < |text| && s.end - s.start <= size
    ensures Tiling(text, size, overlap, s.start, [s] + rest) && LongFirst(text, size, [s] + rest)
  {
    TilingCons(text, size, overlap, s, rest);
  }

  lemma OneTile(text: string, size: nat, overlap: nat, start: nat)
    requires start < |text| <= start + size
    ensures Tiling(text, size, overlap, start, [Span(start, |text|)]) && LongFirst(text, size, [Span(start, |text|)])
  {
  }

  lemma {:induction false} SpansTile(text: string, size: nat, overlap: nat, start: nat)
    requires Advancing(size, overlap) && start < |text|
    ensures Tiling(text, size, overlap, start, Spans(text, size, overlap, start))
    ensures LongFirst(text, size, Spans(text, size, overlap, start))
    decreases |text| - start
  {
    hide Tiling, LongFirst, CutAt;
    if start + size >= |text| {
      OneTile(text, size, overlap, start);
    } else {
      var end := CutAt(text, size, start);
      SpansStep(text, size, overlap, start);
      SpansTile(text, size, overlap, end - overlap);
      PrependWindow(text, size, overlap, Span(start, end), Spans(text, size, overlap, end - overlap));
    }
  }

  /** The windows' texts with the shared part of each dropped. */
  function Unlap(text: string, overlap: nat, spans: seq<Span>): string
    requires forall i :: 0 <= i < |spans| ==> spans[i].start + overlap <= spans[i].end <= |text|
  {
    if spans == [] then "" else text[spans[0].start + overlap..spans[0].end] + Unlap(text, overlap, spans[1..])
  }

  lemma TilesHoldOverlap(text: string, size: nat, overlap: nat, spans: seq<Span>, i: nat)
    requires Advancing(size, overlap) && i < |spans|
    requires spans != [] && Tiling(text, size, overlap, spans[0].start, spans)
    requires |spans| > 1
    ensures spans[i].start + overlap <= spans[i].end <= |text|
  {
    assert Proper(text, size, spans[i]);
    if i + 1 < |spans| {
      assert Neighbours(size, overlap, spans[i], spans[i + 1]);
    } else {
      assert Neighbours(size, overlap, spans[i - 1], spans[i]);
    }
  }

  lemma {:induction false} TilesUnlap(text: string, size: nat, overlap: nat, spans: seq<Span>, i: nat)
    requires Advancing(size, overlap) && i < |spans|
    requires forall j :: 0 <= j < |spans| ==> spans[j].start + overlap <= spans[j].end <= |text|
    requires Tiling(text, size, overlap, spans[0].start, spans)
    ensures Unlap(text, overlap, spans[i..]) == text[spans[i].start + overlap..]
    decreases |spans| - i
  {
    assert spans[i..][1..] == spans[i + 1..];
    if i + 1 < |spans| {
      assert Neighbours(size, overlap, spans[i], spans[i + 1]);
      TilesUnlap(text, size, overlap, spans, i + 1);
      var s := spans[i];
      assert text[s.start + overlap..] == text[s.start + overlap..s.end] + text[s.end..];
    } else {
      assert spans[i + 1..] == [] && Unlap(text, overlap, []) == "";
    }
  }

  /** Dropping the overlaps rebuilds the text: it is its first `overlap` characters and
      then the windows, each without its first `overlap` characters. */
  lemma SpansRebuild(text: string, size: nat, overlap: nat)
    requires Advancing(size, overlap) && |text| > size
    ensures
      var spans := Spans(text, size, overlap, 0);
      (forall i :: 0 <= i < |spans| ==> spans[i].start + overlap <= spans[i].end <= |text|)
      && text[..overlap] + Unlap(text, overlap, spans) == text
  {
    SpansTile(text, size, overlap, 0);
    SpansStep(text, size, overlap, 0);
    TilesRebuild(text, size, overlap, Spans(text, size, overlap, 0));
  }

  lemma TilesRebuild(text: string, size: nat, overlap: nat, spans: seq<Span>)
    requires Advancing(size, overlap) && |text| > size && |spans| > 1 && Tiling(text, size, overlap, 0, spans)
    ensures forall i :: 0 <= i < |spans| ==> spans[i].start + overlap <= spans[i].end <= |text|
    ensures text[..overlap] + Unlap(text, overlap, spans) == text
  {
    forall i | 0 <= i < |spans| ensures spans[i].start + overlap <= spans[i].end <= |text| {
      TilesHoldOverlap(text, size, overlap, spans, i);
    }
    TilesUnlap(text, size, overlap, spans, 0);
    assert spans[0..] == spans;
    assert text == text[..overlap] + text[overlap..];
  }

  lemma {:induction false} TilesAdvance(text: string, size: nat, overlap: nat, start: nat, spans: seq<Span>, i: nat)
    requires Tiling(text, size, overlap, start, spans) && i < |spans|
    ensures spans[i].start >= start + i * MinStep(size, overlap)
  {
    if i > 0 {
      TilesAdvance(text, size, overlap, start, spans, i - 1);
      assert Neighbours(size, overlap, spans[i - 1], spans[i]);
      hide MinStep;
      assert i * MinStep(size, overlap) == (i - 1) * MinStep(size, overlap) + MinStep(size, overlap);
    }
  }

  /** A bound on the number of windows. */
  lemma SpansCount(text: string, size: nat, overlap: nat, start: nat)
    requires Advancing(size, overlap) && start < |text|
    ensures (|Spans(text, size, overlap, start)| - 1) * MinStep(size, overlap) < |text| - start
  {
    var spans := Spans(text, size, overlap, start);
    SpansTile(text, size, overlap, start);
    TilesAdvance(text, size, overlap, start, spans, |spans| - 1);
    assert Proper(text, size, spans[|spans| - 1]);
  }

  // ---------------------------------------------------------------------- chunks

  /** The non-blank strings among stripped window texts. */
  function Stripped(text: string, spans: seq<Span>): seq<string>
    requires Bounded(text, spans)
  {
    if spans == [] then []
    else
      var c := Strip(TextOf(text, spans[0]));
      (if c == "" then [] else [c]) + Stripped(text, spans[1..])
  }

  predicate Bounded(text: string, spans: seq<Span>) {
    forall i :: 0 <= i < |spans| ==> spans[i].start <= spans[i].end <= |text|
  }

  /** The chunks of a section: itself if short, else the stripped windows without blank
      ones, the last window as it is. */
  function Chunks(text: string, size: nat, overlap: nat): seq<string>
    requires Advancing(size, overlap)
  {
    if |text| <= size then [text] else ChunksFrom(text, size, overlap, 0)
  }

  /** Where a stripped window lies in the text: it keeps every non-blank position. */
  lemma Trim(text: string, s: Span) returns (t: Span)
    requires s.start <= s.end <= |text|
    ensures s.start <= t.start <= t.end <= s.end
    ensures TextOf(text, t) == Strip(TextOf(text, s))
    ensures forall p :: s.start <= p < s.end && !IsSpace(text[p]) ==> t.start <= p < t.end
  {
    hide IsSpace;
    var w := TextOf(text, s);
    var lo := LeftBlanks(w);
    var hi := RightEnd(w, lo);
    t := Span(s.start + lo, s.start + hi);
    SliceOfSlice(text, s.start, s.end, lo, hi);
    forall p | s.start <= p < s.end && !IsSpace(text[p]) ensures t.start <= p < t.end {
      assert text[p] == w[p - s.start];
    }
  }

  /** Position p of the text is inside one of the chunks, which is a piece of the text. */
  ghost predicate InSomeChunk(text: string, p: nat, chunks: seq<string>) {
    exists lo: nat, hi: nat :: lo <= p < hi <= |text| && text[lo..hi] in chunks
  }

  lemma InSomeChunkBy(text: string, p: nat, chunks: seq<string>, s: Span)
    requires s.start <= p < s.end <= |text| && TextOf(text, s) in chunks
    ensures InSomeChunk(text, p, chunks)
  {
  }

  lemma {:induction false} StrippedHas(text: string, spans: seq<Span>, i: nat)
    requires Bounded(text, spans) && i < |spans| && Strip(TextOf(text, spans[i])) != ""
    ensures Strip(TextOf(text, spans[i])) in Stripped(text, spans)
  {
    if i > 0 {
      StrippedHas(text, spans[1..], i - 1);
    }
  }

  lemma {:induction false} TilesCover(text: string, size: nat, overlap: nat, start: nat, spans: seq<Span>, p: nat)
    returns (i: nat)
    requires Advancing(size, overlap) && Tiling(text, size, overlap, start, spans) && start <= p < |text|
    ensures i < |spans| && spans[i].start <= p < spans[i].end
    decreases |spans|
  {
    if p < spans[0].end {
      i := 0;
    } else {
      assert |spans| > 1;
      var rest := spans[1..];
      assert Neighbours(size, overlap, spans[0], spans[1]);
      forall j | 0 <= j < |rest| - 1 ensures Neighbours(size, overlap, rest[j], rest[j + 1]) {
        assert Neighbours(size, overlap, spans[j + 1], spans[j + 2]);
      }
      i := TilesCover(text, size, overlap, rest[0].start, rest, p);
      i := i + 1;
    }
  }

  /** Nothing but white space is lost: every other character of a section lies in a
      chunk that is a piece of the section. */
  lemma ChunksCover(text: string, size: nat, overlap: nat, p: nat)
    requires Advancing(size, overlap) && p < |text| && !IsSpace(text[p])
    ensures InSomeChunk(text, p, Chunks(text, size, overlap))
  {
    hide IsSpace, Strip, CutAt;
    if |text| <= size {
      assert text in [text] && TextOf(text, Span(0, |text|)) == text;
      InSomeChunkBy(text, p, [text], Span(0, |text|));
    } else {
      var spans := Spans(text, size, overlap, 0);
      SpansTile(text, size, overlap, 0);
      ChunksFromSpans(text, size, overlap, 0);
      var i := TilesCover(text, size, overlap, 0, spans, p);
      WindowInChunks(text, p, spans, i);
    }
  }

  lemma WindowInChunks(text: string, p: nat, spans: seq<Span>, i: nat)
    requires Bounded(text, spans) && i < |spans| && spans[i].start <= p < spans[i].end && !IsSpace(text[p])
    ensures InSomeChunk(text, p, ChunksOf(text, spans))
  {
    hide IsSpace, Strip, InSomeChunk;
    var n := |spans| - 1;
    var chunks := ChunksOf(text, spans);
    if i == n {
      assert chunks[|chunks| - 1] == TextOf(text, spans[n]);
      InSomeChunkBy(text, p, chunks, spans[n]);
    } else {
      var t := Trim(text, spans[i]);
      assert spans[..n][i] == spans[i] && Bounded(text, spans[..n]);
      NotBlank(text, t, p);
      StrippedHas(text, spans[..n], i);
      InSomeChunkBy(text, p, chunks, t);
    }
  }

  lemma NotBlank(text: string, t: Span, p: nat)
    requires t.start <= p < t.end <= |text|
    ensures TextOf(text, t) != ""
  {
    assert |TextOf(text, t)| == t.end - t.start;
  }

  lemma {:induction false} StrippedShort(text: string, size: nat, spans: seq<Span>)
    requires Bounded(text, spans)
    requires forall i :: 0 <= i < |spans| ==> spans[i].end - spans[i].start <= size
    ensures forall c :: c in Stripped(text, spans) ==> 0 < |c| <= size
  {
    if spans != [] {
      StrippedShort(text, size, spans[1..]);
      assert |Strip(TextOf(text, spans[0]))| <= size;
    }
  }

  /** Not empty, and free of white space at both ends. */
  predicate Clean(c: string) { c != "" && !IsSpace(c[0]) && !IsSpace(c[|c| - 1]) }

  lemma StripClean(w: string)
    ensures Strip(w) == "" || Clean(Strip(w))
  {
    hide IsSpace, Strip;
    StripEnds(w);
  }

  lemma {:induction false} StrippedAreTrimmed(text: string, spans: seq<Span>)
    requires Bounded(text, spans)
    ensures forall c :: c in Stripped(text, spans) ==> Clean(c)
  {
    if spans != [] {
      hide Strip, Clean;
      StrippedAreTrimmed(text, spans[1..]);
      StripClean(TextOf(text, spans[0]));
    }
  }

  /** Every chunk of a long section but the last is free of white space at its ends; the last
      is the rest of the section as it is. */
  lemma ChunksAreTrimmed(text: string, size: nat, overlap: nat)
    requires Advancing(size, overlap) && |text| > size
    ensures
      var chunks := Chunks(text, size, overlap);
      chunks != [] && IsSuffix(chunks[|chunks| - 1], text)
      && forall i :: 0 <= i < |chunks| - 1 ==> Clean(chunks[i])
  {
    hide Clean, CutAt, Strip, ChunksFrom;
    var spans := Spans(text, size, overlap, 0);
    var n := |spans| - 1;
    SpansTile(text, size, overlap, 0);
    ChunksFromSpans(text, size, overlap, 0);
    StrippedAreTrimmed(text, spans[..n]);
    var front := Stripped(text, spans[..n]);
    assert ChunksFrom(text, size, overlap, 0) == front + [TextOf(text, spans[n])];
    forall i | 0 <= i < |front| ensures (front + [TextOf(text, spans[n])])[i] in front {}
  }

  /** A short section is one chunk, as it is; a longer one is cut. */
  lemma ShortSectionsWhole(text: string, size: nat, overlap: nat)
    requires Advancing(size, overlap)
    ensures |text| <= size <==> Chunks(text, size, overlap) == [text]
  {
    if |text| > size {
      ChunksFit(text, size, overlap);
      assert text in [text];
    }
  }

  /** No chunk is longer than the limit, and none is empty unless the section is. */
  lemma ChunksFit(text: string, size: nat, overlap: nat)
    requires Advancing(size, overlap)
    ensures forall c :: c in Chunks(text, size, overlap) ==> |c| <= size && (text != "" ==> c != "")
  {
    if |text| > size {
      var spans := Spans(text, size, overlap, 0);
      SpansTile(text, size, overlap, 0);
      ChunksFromSpans(text, size, overlap, 0);
      TiledChunksFit(text, size, overlap, spans);
    }
  }

  lemma TiledChunksFit(text: string, size: nat, overlap: nat, spans: seq<Span>)
    requires Tiling(text, size, overlap, 0, spans) && Bounded(text, spans)
    ensures forall c :: c in ChunksOf(text, spans) ==> 0 < |c| <= size
  {
    var n := |spans| - 1;
    assert Bounded(text, spans[..n]);
    assert forall i :: 0 <= i < n ==> Proper(text, size, spans[i]) && spans[..n][i] == spans[i];
    StrippedShort(text, size, spans[..n]);
    assert Proper(text, size, spans[n]);
    hide Stripped, Strip, Tiling;
  }

  /** The chunks of the windows from `start` on, one window at a time. */
  function ChunksFrom(text: string, size: nat, overlap: nat, start: nat): seq<string>
    requires Advancing(size, overlap) && start < |text|
    decreases |text| - start
  {
    if start + size >= |text| then [TextOf(text, Span(start, |text|))]
    else
      var end := CutAt(text, size, start);
      Kept(Strip(TextOf(text, Span(start, end)))) + ChunksFrom(text, size, overlap, end - overlap)
  }

  function Kept(chunk: string): seq<string> { if chunk == "" then [] else [chunk] }

  lemma ChunksFromNext(text: string, size: nat, overlap: nat, start: nat)
    requires Advancing(size, overlap) && start + size < |text|
    ensures
      var end := CutAt(text, size, start);
      start < end - overlap < |text|
      && ChunksFrom(text, size, overlap, start)
         == Kept(Strip(TextOf(text, Span(start, end)))) + ChunksFrom(text, size, overlap, end - overlap)
  {
    SpansStep(text, size, overlap, start);
  }

  lemma ChunksFromLast(text: string, size: nat, overlap: nat, start: nat)
    requires Advancing(size, overlap) && start < |text| <= start + size
    ensures ChunksFrom(text, size, overlap, start) == [TextOf(text, Span(start, |text|))]
    ensures Spans(text, size, overlap, start) == [Span(start, |text|)]
  {
  }

  /** Chunks in terms of windows. */
  function ChunksOf(text: string, spans: seq<Span>): seq<string>
    requires spans != [] && Bounded(text, spans)
  {
    var n := |spans| - 1;
    Stripped(text, spans[..n]) + [TextOf(text, spans[n])]
  }

  lemma ChunksOfCons(text: string, s: Span, rest: seq<Span>)
    requires rest != [] && Bounded(text, rest) && s.start <= s.end <= |text|
    ensures Bounded(text, [s] + rest)
    ensures ChunksOf(text, [s] + rest) == Kept(Strip(TextOf(text, s))) + ChunksOf(text, rest)
  {
    ChunksFromStep(text, s, rest);
    var n := |rest| - 1;
    Assoc(Kept(Strip(TextOf(text, s))), Stripped(text, rest[..n]), [TextOf(text, rest[n])]);
  }

  lemma ChunksOfOne(text: string, s: Span)
    requires s.start <= s.end <= |text|
    ensures Bounded(text, [s]) && ChunksOf(text, [s]) == [TextOf(text, s)]
  {
    assert [s][..0] == [] && Stripped(text, []) == [];
  }

  ghost predicate SpansGiveChunks(text: string, size: nat, overlap: nat, start: nat)
    requires Advancing(size, overlap) && start < |text|
  {
    Bounded(text, Spans(text, size, overlap, start))
    && ChunksFrom(text, size, overlap, start) == ChunksOf(text, Spans(text, size, overlap, start))
  }

  lemma SpansGiveChunksNext(text: string, size: nat, overlap: nat, start: nat)
    requires Advancing(size, overlap) && start + size < |text|
    requires
      var end := CutAt(text, size, start);
      end - overlap >= 0 && SpansGiveChunks(text, size, overlap, end - overlap)
    ensures SpansGiveChunks(text, size, overlap, start)
  {
    hide Spans, Stripped, CutAt, ChunksOf, ChunksFrom, Kept, Strip, TextOf, Bounded;
    var end := CutAt(text, size, start);
    SpansStep(text, size, overlap, start);
    ChunksFromNext(text, size, overlap, start);
    ChunksOfCons(text, Span(start, end), Spans(text, size, overlap, end - overlap));
  }

  lemma {:induction false} ChunksFromSpans(text: string, size: nat, overlap: nat, start: nat)
    requires Advancing(size, overlap) && start < |text|
    ensures SpansGiveChunks(text, size, overlap, start)
    decreases |text| - start
  {
    hide Stripped, CutAt, ChunksOf, ChunksFrom, Spans, TextOf;
    if start + size >= |text| {
      ChunksFromLast(text, size, overlap, start);
      ChunksOfOne(text, Span(start, |text|));
    } else {
      hide SpansGiveChunks;
      SpansStep(text, size, overlap, start);
      ChunksFromSpans(text, size, overlap, CutAt(text, size, start) - overlap);
      SpansGiveChunksNext(text, size, overlap, start);
    }
  }

  lemma ChunksFromStep(text: string, s: Span, rest: seq<Span>)
    requires rest != [] && Bounded(text, rest) && s.start <= s.end <= |text|
    ensures
      var spans := [s] + rest;
      var n := |spans| - 1;
      Bounded(text, spans) && spans[n] == rest[|rest| - 1]
      && Stripped(text, spans[..n]) == Kept(Strip(TextOf(text, s))) + Stripped(text, rest[..|rest| - 1])
  {
    hide Strip, TextOf;
    var front := rest[..|rest| - 1];
    var all := [s] + front;
    assert ([s] + rest)[..|rest|] == all;
    assert all[0] == s && all[1..] == front;
    assert Bounded(text, all);
  }

  /** What is collected so far and what is to come make up all the chunks. */
  predicate Underway(text: string, size: nat, overlap: nat, start: nat, kept: seq<string>)
    requires Advancing(size, overlap)
  {
    start < |text| && kept + ChunksFrom(text, size, overlap, start) == ChunksFrom(text, size, overlap, 0)
  }

  lemma UnderwayNext(
    text: string, size: nat, overlap: nat, start: nat, kept: seq<string>, end: nat, next: nat, kept': seq<string>)
    requires Advancing(size, overlap) && start + size < |text| && Underway(text, size, overlap, start, kept)
    requires end == CutAt(text, size, start) && next == end - overlap
    requires kept' == kept + Kept(Strip(TextOf(text, Span(start, end))))
    ensures start < next < |text| && Underway(text, size, overlap, next, kept')
  {
    hide CutAt, Strip, TextOf, Kept;
    ChunksFromNext(text, size, overlap, start);
    Assoc(kept, Kept(Strip(TextOf(text, Span(start, end)))), ChunksFrom(text, size, overlap, next));
    hide ChunksFrom;
  }

  lemma UnderwayLast(text: string, size: nat, overlap: nat, start: nat, kept: seq<string>)
    requires Advancing(size, overlap) && start + size >= |text| && Underway(text, size, overlap, start, kept)
    ensures
      var last := TextOf(text, Span(start, |text|));
      last != "" && kept + [last] == ChunksFrom(text, size, overlap, 0)
  {
    ChunksFromLast(text, size, overlap, start);
  }

  /** DocumentLoader._chunk_by_size: windows are stripped as they are cut and blank ones
      removed at the end. */
  method ChunkBySize(text: string, size: nat, overlap: nat) returns (chunks: seq<string>)
    requires Advancing(size, overlap)
    ensures chunks == Chunks(text, size, overlap)
  {
    if |text| <= size {
      chunks := [text];
    } else {
      chunks := ChunkBySizeLoop(text, size, overlap);
    }
  }

  method ChunkBySizeLoop(text: string, size: nat, overlap: nat) returns (chunks: seq<string>)
    requires Advancing(size, overlap) && |text| > size
    ensures chunks == ChunksFrom(text, size, overlap, 0)
  {
    chunks := [];
    var start := 0;
    assert Underway(text, size, overlap, 0, NonEmpty(chunks));
    hide Advancing, Underway, ChunksFrom, CutAt, Strip, NonEmpty, TextOf;
    while start < |text|
      invariant Underway(text, size, overlap, start, NonEmpty(chunks)) && start < |text|
      decreases |text| - start
    {
      var end := start + size;
      if end >= |text| {
        UnderwayLast(text, size, overlap, start, NonEmpty(chunks));
        NonEmptySnoc(chunks, TextOf(text, Span(start, |text|)));
        chunks := chunks + [TextOf(text, Span(start, |text|))];
        break;
      }
      end := Cut(text, size, start);
      var chunk := Strip(TextOf(text, Span(start, end)));
      var next := Back(text, size, overlap, start, end);
      NonEmptySnoc(chunks, chunk);
      UnderwayNext(text, size, overlap, start, NonEmpty(chunks), end, next, NonEmpty(chunks + [chunk]));
      chunks := chunks + [chunk];
      start := next;
    }
    chunks := NonEmpty(chunks);
  }

  /** The next window starts back from the end of this one, by the overlap. */
  method Back(text: string, size: nat, overlap: nat, start: nat, end: nat) returns (next: nat)
    requires Advancing(size, overlap) && start + size < |text| && end == CutAt(text, size, start)
    ensures next == end - overlap && start < next < |text|
  {
    SpansStep(text, size, overlap, start);
    next := end - overlap;
  }

  /** The body of the loop that moves the end of a window back to a line or word end. */
  method Cut(text: string, size: nat, start: nat) returns (end: nat)
    requires start + size < |text|
    ensures end == CutAt(text, size, start)
  {
    end := start + size;
    var newlinePos := RFind(text, '\n', start, end);
    if newlinePos > start + size / 2 {
      end := newlinePos;
    } else {
      var spacePos := RFind(text, ' ', start, end);
      if spacePos > start + size / 2 {
        end := spacePos;
      }
    }
  }

  /** The chunks that are kept: those that are not empty. */
  function NonEmpty(chunks: seq<string>): seq<string> {
    if chunks == [] then [] else Kept(chunks[0]) + NonEmpty(chunks[1..])
  }

  lemma {:induction false} NonEmptySnoc(chunks: seq<string>, c: string)
    ensures NonEmpty(chunks + [c]) == NonEmpty(chunks) + Kept(c)
  {
    if chunks == [] {
      assert chunks + [c] == [c];
    } else {
      NonEmptySnoc(chunks[1..], c);
      assert (chunks + [c])[1..] == chunks[1..] + [c];
    }
  }

  /** TextChunker._chunk_section: the same chunks, blank windows being skipped as they
      are cut. */
  method ChunkSection(text: string, size: nat, overlap: nat) returns (chunks: seq<string>)
    requires Advancing(size, overlap)
    ensures chunks == Chunks(text, size, overlap)
  {
    if |text| <= size {
      chunks := [text];
    } else {
      chunks := ChunkSectionLoop(text, size, overlap);
    }
  }

  method ChunkSectionLoop(text: string, size: nat, overlap: nat) returns (chunks: seq<string>)
    requires Advancing(size, overlap) && |text| > size
    ensures chunks == ChunksFrom(text, size, overlap, 0)
  {
    chunks := [];
    var start := 0;
    assert Underway(text, size, overlap, 0, chunks);
    hide Advancing, Underway, ChunksFrom, CutAt, Strip, TextOf;
    while start < |text|
      invariant Underway(text, size, overlap, start, chunks) && start < |text|
      decreases |text| - start
    {
      var end := start + size;
      if end >= |text| {
        UnderwayLast(text, size, overlap, start, chunks);
        chunks := chunks + [TextOf(text, Span(start, |text|))];
        break;
      }
      end := Cut(text, size, start);
      var chunk := Strip(TextOf(text, Span(start, end)));
      var next := Back(text, size, overlap, start, end);
      ghost var before := chunks;
      if chunk != "" {
        chunks := chunks + [chunk];
      }
      UnderwayNext(text, size, overlap, start, before, end, next, chunks);
      start := next;
    }
  }
}
