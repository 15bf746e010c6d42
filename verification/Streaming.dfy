/** An answer on its way to the browser: cut into tokens, encoded, framed as `data:`
    lines (the data subset of section 9.2, "Server-sent events", of the HTML Living
    Standard), cut into arbitrary chunks by the network, and put together again. */
module Streaming {
  import opened Prelude

  datatype Event =
    | Sources(items: seq<string>)
    | Token(content: string)
    | Finished(session: string)
    | Failed(detail: string)

  /** json.dumps and JSON.parse; a parse error is None. */
  datatype Codec = Codec(encode: Event -> string, decode: string -> Option<Event>)

  /** Decoding inverts encoding, with or without a trailing CR (JSON white space), and
      encoded text contains no raw newline. */
  ghost predicate Lawful(codec: Codec) {
    forall e :: '\n' !in codec.encode(e)
      && codec.decode(codec.encode(e)) == Some(e)
      && codec.decode(codec.encode(e) + "\r") == Some(e)
  }

  // --------------------------------------------------------------------- splitting

  lemma {:induction false} SplitNoSeparator(c: char, s: string)
    requires c !in s
    ensures Split(c, s) == [s]
  {
    if s != "" {
      assert s[0] in s && forall x :: x in s[1..] ==> x in s;
      SplitNoSeparator(c, s[1..]);
      assert [s[0]] + s[1..] == s;
    }
  }

  lemma SplitConsSeparator(c: char, s: string)
    ensures Split(c, [c] + s) == [""] + Split(c, s)
  {
    assert ([c] + s)[1..] == s;
  }

  lemma SplitConsChar(c: char, x: char, s: string)
    requires x != c
    ensures Split(c, [x] + s) == Grow(x, Split(c, s))
  {
    assert ([x] + s)[1..] == s;
  }

  /** One more character in front of the first piece. */
  function Grow(x: char, q: seq<string>): seq<string>
    requires q != []
  {
    [[x] + q[0]] + q[1..]
  }

  function Front<T>(p: seq<T>): seq<T>
    requires p != []
  {
    p[..|p| - 1]
  }

  function Final<T>(p: seq<T>): T
    requires p != []
  {
    p[|p| - 1]
  }

  lemma GrowLong(x: char, q: seq<string>, t: seq<string>)
    requires |q| > 1
    ensures Grow(x, Front(q) + t) == Front(Grow(x, q)) + t && Final(Grow(x, q)) == Final(q)
  {
    var r := Front(q) + t;
    assert r[0] == q[0] && r[1..] == Front(q)[1..] + t;
    assert Front(Grow(x, q)) == [[x] + q[0]] + Front(q)[1..];
  }

  lemma GrowShort(c: char, x: char, s: string, b: string)
    requires x != c
    ensures Grow(x, [s]) == [[x] + s]
    ensures Split(c, ([x] + s) + b) == Grow(x, Split(c, s + b))
  {
    SplitConsChar(c, x, s + b);
    assert ([x] + s) + b == [x] + (s + b);
  }

  ghost predicate SplitsAt(c: char, a: string, b: string) {
    Split(c, a + b) == Front(Split(c, a)) + Split(c, Final(Split(c, a)) + b)
  }

  lemma SplitsAfterSeparator(c: char, tail: string, b: string)
    requires SplitsAt(c, tail, b)
    ensures SplitsAt(c, [c] + tail, b)
  {
    hide Split, Grow;
    var q := Split(c, tail);
    SplitConsSeparator(c, tail);
    SplitConsSeparator(c, tail + b);
    assert ([c] + tail) + b == [c] + (tail + b);
    assert Front([""] + q) == [""] + Front(q) && Final([""] + q) == Final(q);
  }

  lemma SplitsAfterChar(c: char, x: char, tail: string, b: string)
    requires x != c && SplitsAt(c, tail, b)
    ensures SplitsAt(c, [x] + tail, b)
  {
    hide Split, Grow;
    var q := Split(c, tail);
    SplitConsChar(c, x, tail);
    SplitConsChar(c, x, tail + b);
    assert ([x] + tail) + b == [x] + (tail + b);
    if |q| > 1 {
      GrowLong(x, q, Split(c, Final(q) + b));
    } else {
      GrowShort(c, x, q[0], b);
      assert q == [q[0]] && Front(q) == [];
      assert Grow(x, q) == [[x] + q[0]];
      assert Split(c, tail + b) == Split(c, q[0] + b);
      assert Front(Grow(x, q)) == [] && Final(Grow(x, q)) == [x] + q[0];
    }
  }

  /** Splitting a concatenation: the pieces of the first part, except that its last
      piece runs on into the second part. */
  lemma {:induction false} SplitAppend(c: char, a: string, b: string)
    ensures Split(c, a + b) == Front(Split(c, a)) + Split(c, Final(Split(c, a)) + b)
  {
    if a == "" {
      assert Split(c, a) == [""];
      assert a + b == b && "" + b == b;
    } else {
      SplitAppend(c, a[1..], b);
      assert a == [a[0]] + a[1..];
      if a[0] == c {
        SplitsAfterSeparator(c, a[1..], b);
      } else {
        SplitsAfterChar(c, a[0], a[1..], b);
      }
    }
  }

  lemma {:induction false} JoinSplit(c: char, s: string)
    ensures Join([c], Split(c, s)) == s
  {
    if s != "" {
      JoinSplit(c, s[1..]);
      var q := Split(c, s[1..]);
      assert s == [s[0]] + s[1..];
      if s[0] == c {
        SplitConsSeparator(c, s[1..]);
        hide Split;
        assert ([""] + q)[1..] == q;
        assert Join([c], [""] + q) == "" + [c] + Join([c], q);
      } else {
        SplitConsChar(c, s[0], s[1..]);
        hide Split, Join;
        JoinCons([c], s[0], q);
      }
    }
  }

  lemma JoinCons(sep: string, x: char, q: seq<string>)
    requires q != []
    ensures Join(sep, Grow(x, q)) == [x] + Join(sep, q)
  {
    var p := Grow(x, q);
    if |q| > 1 {
      assert p[1..] == q[1..];
      assert [x] + q[0] + sep + Join(sep, q[1..]) == [x] + (q[0] + sep + Join(sep, q[1..]));
    }
  }

  lemma {:induction false} SplitCount(c: char, s: string)
    ensures |Split(c, s)| == 1 <==> c !in s
  {
    if s != "" {
      SplitCount(c, s[1..]);
      assert c in s <==> s[0] == c || c in s[1..];
    }
  }

  // ---------------------------------------------------------------------- tokens

  function Chars(word: string): seq<string> {
    seq(|word|, i requires 0 <= i < |word| => [word[i]])
  }

  /** The words from index i on, each with its following space except the last. */
  function WordTokens(words: seq<string>, i: nat): seq<string>
    decreases |words| - i
  {
    if i >= |words| then []
    else [words[i] + if i < |words| - 1 then " " else ""] + WordTokens(words, i + 1)
  }

  /** _tokenize: the first word character by character and a space, then word by word. */
  function Tokens(text: string): seq<string> {
    if text == "" then [""]
    else
      var words := Split(' ', text);
      Chars(words[0]) + [" "] + WordTokens(words, 1)
  }

  method Tokenize(text: string) returns (tokens: seq<string>)
    ensures tokens == Tokens(text)
  {
    if text == "" {
      return [""];
    }
    tokens := [];
    var words := Split(' ', text);
    var i := 0;
    while i < |words|
      invariant 0 <= i <= |words|
      invariant i == 0 ==> tokens == []
      invariant i > 0 ==> tokens + WordTokens(words, i) == Tokens(text)
    {
      var word := words[i];
      if i == 0 {
        var j := 0;
        while j < |word|
          invariant 0 <= j <= |word|
          invariant tokens == Chars(word[..j])
        {
          tokens := tokens + [[word[j]]];
          j := j + 1;
        }
        assert word[..j] == word;
        tokens := tokens + [" "];
      } else {
        tokens := tokens + [word + if i < |words| - 1 then " " else ""];
      }
      i := i + 1;
    }
  }

  lemma {:induction false} CharsRebuild(word: string)
    ensures Concat(Chars(word)) == word
  {
    if word != "" {
      CharsRebuild(word[1..]);
      assert Chars(word)[1..] == Chars(word[1..]);
    }
  }

  lemma {:induction false} WordTokensRebuild(words: seq<string>, i: nat)
    requires i < |words|
    ensures Concat(WordTokens(words, i)) == Join(" ", words[i..])
    decreases |words| - i
  {
    if i < |words| - 1 {
      WordTokensRebuild(words, i + 1);
      assert words[i..][1..] == words[i + 1..];
    } else {
      assert words[i..] == [words[i]];
    }
  }

  /** The text the browser ends up showing. */
  function Shown(answer: string): string {
    if answer == "" || ' ' in answer then answer else answer + " "
  }

  /** The tokens spell the answer, plus one trailing space if it is a single word. */
  lemma TokensRebuild(text: string)
    ensures Concat(Tokens(text)) == Shown(text)
  {
    if text != "" {
      var words := Split(' ', text);
      CharsRebuild(words[0]);
      ConcatAppend(Chars(words[0]) + [" "], WordTokens(words, 1));
      ConcatSnoc(Chars(words[0]), " ");
      SplitCount(' ', text);
      JoinSplit(' ', text);
      if |words| > 1 {
        WordTokensRebuild(words, 1);
        assert words[1..] != [];
      }
    }
  }

  // ----------------------------------------------------------------------- server

  /** The events of one streamed reply, in order. */
  function Script(answer: string, sources: seq<string>, session: string): seq<Event> {
    [Sources(sources)] + TokenEvents(Tokens(answer)) + [Finished(session)]
  }

  function TokenEvents(tokens: seq<string>): seq<Event> {
    seq(|tokens|, i requires 0 <= i < |tokens| => Token(tokens[i]))
  }

  function DataLines(lines: seq<string>, eol: string): string {
    if lines == [] then "" else "data: " + lines[0] + eol + DataLines(lines[1..], eol)
  }

  /** One event on the wire: a data line for each line of the payload, then a blank line. */
  function Frame(payload: string, eol: string): string {
    DataLines(Split('\n', payload), eol) + eol
  }

  /** Line ends the standard allows that contain a newline. */
  predicate IsEol(eol: string) { eol == "\n" || eol == "\r\n" }

  /** What the server writes: the frame of an event, or another line such as a keep-alive
      comment or the blank line after it. */
  datatype Item = Framed(event: Event) | Other(line: string)

  /** Other lines hold no newline and do not look like data. */
  predicate Ignorable(items: seq<Item>) {
    forall i :: 0 <= i < |items| && items[i].Other? ==> '\n' !in items[i].line && !("data: " <= items[i].line)
  }

  function EventsOf(items: seq<Item>): seq<Event> {
    if items == [] then []
    else (if items[0].Framed? then [items[0].event] else []) + EventsOf(items[1..])
  }

  function WireOne(codec: Codec, eol: string, item: Item): string {
    match item
    case Framed(e) => Frame(codec.encode(e), eol)
    case Other(line) => line + eol
  }

  function Wire(codec: Codec, eol: string, items: seq<Item>): string {
    if items == [] then "" else WireOne(codec, eol, items[0]) + Wire(codec, eol, items[1..])
  }

  // ----------------------------------------------------------------------- client

  /** What one complete line contributes. */
  function LineEvents(codec: Codec, line: string): seq<Event> {
    if "data: " <= line then
      match codec.decode(line[6..])
      case Some(e) => [e]
      case None => []
    else []
  }

  function LinesEvents(codec: Codec, lines: seq<string>): seq<Event> {
    if lines == [] then [] else LineEvents(codec, lines[0]) + LinesEvents(codec, lines[1..])
  }

  /** The lines of a text that are followed by a newline. */
  function CompleteLines(text: string): seq<string> {
    Front(Split('\n', text))
  }

  function Remainder(text: string): string {
    Final(Split('\n', text))
  }

  /** What one split of the whole text delivers: the reference for the incremental client. */
  function Delivered(codec: Codec, text: string): seq<Event> {
    LinesEvents(codec, CompleteLines(text))
  }

  lemma {:induction false} LinesEventsAppend(codec: Codec, a: seq<string>, b: seq<string>)
    ensures LinesEvents(codec, a + b) == LinesEvents(codec, a) + LinesEvents(codec, b)
  {
    if a == [] {
      assert a + b == b;
    } else {
      LinesEventsAppend(codec, a[1..], b);
      assert (a + b)[1..] == a[1..] + b && (a + b)[0] == a[0];
    }
  }

  /** One more chunk: the lines completed so far stay, and the buffer carries the rest. */
  lemma DeliveredAppend(codec: Codec, a: string, b: string)
    ensures Delivered(codec, a + b) == Delivered(codec, a) + Delivered(codec, Remainder(a) + b)
    ensures Remainder(a + b) == Remainder(Remainder(a) + b)
  {
    hide Split, LinesEvents;
    SplitAppend('\n', a, b);
    var p, q := Split('\n', a), Split('\n', Remainder(a) + b);
    assert Front(Front(p) + q) == Front(p) + Front(q) && Final(Front(p) + q) == Final(q);
    LinesEventsAppend(codec, Front(p), Front(q));
  }

  function Completions(events: seq<Event>): nat {
    if events == [] then 0
    else (if events[0].Finished? then 1 else 0) + Completions(events[1..])
  }

  lemma {:induction false} CompletionsSnoc(events: seq<Event>, e: Event)
    ensures Completions(events + [e]) == Completions(events) + if e.Finished? then 1 else 0
  {
    if events == [] {
      assert events + [e] == [e];
    } else {
      assert (events + [e])[1..] == events[1..] + [e];
      CompletionsSnoc(events[1..], e);
    }
  }

  /** The read loop of streamChat on the chunks read before the stream ends or the
      caller aborts: onEvent gets exactly what one split of the concatenated chunks
      delivers, whatever the chunk boundaries, and onComplete runs once per done. */
  method StreamChat(codec: Codec, chunks: seq<string>) returns (events: seq<Event>, completions: nat)
    ensures events == Delivered(codec, Concat(chunks))
    ensures completions == Completions(events)
  {
    events, completions := [], 0;
    var buffer := "";
    var i := 0;
    assert chunks[..0] == [];
    while i < |chunks|
      invariant 0 <= i <= |chunks|
      invariant events == Delivered(codec, Concat(chunks[..i])) && buffer == Remainder(Concat(chunks[..i]))
      invariant completions == Completions(events)
    {
      assert chunks[..i + 1] == chunks[..i] + [chunks[i]];
      ConcatSnoc(chunks[..i], chunks[i]);
      DeliveredAppend(codec, Concat(chunks[..i]), chunks[i]);
      buffer := buffer + chunks[i];
      ghost var whole := buffer;
      var lines := Split('\n', buffer);
      buffer := Final(lines);
      lines := Front(lines);
      events, completions := Dispatch(codec, lines, events, completions);
      assert lines == CompleteLines(whole) && buffer == Remainder(whole);
      i := i + 1;
    }
    assert chunks[..i] == chunks;
  }

  lemma LinesEventsTake(codec: Codec, lines: seq<string>, i: nat)
    requires i < |lines|
    ensures LinesEvents(codec, lines[..i + 1]) == LinesEvents(codec, lines[..i]) + LineEvents(codec, lines[i])
  {
    assert lines[..i + 1] == lines[..i] + [lines[i]];
    LinesEventsAppend(codec, lines[..i], [lines[i]]);
    assert [lines[i]][1..] == [];
  }

  /** The inner loop over the complete lines of one chunk. */
  method Dispatch(codec: Codec, lines: seq<string>, before: seq<Event>, count: nat)
    returns (events: seq<Event>, completions: nat)
    requires count == Completions(before)
    ensures events == before + LinesEvents(codec, lines)
    ensures completions == Completions(events)
  {
    events, completions := before, count;
    var i := 0;
    while i < |lines|
      invariant 0 <= i <= |lines|
      invariant events == before + LinesEvents(codec, lines[..i])
      invariant completions == Completions(events)
    {
      var line := lines[i];
      LinesEventsTake(codec, lines, i);
      hide LinesEvents, Completions;
      if "data: " <= line {
        match codec.decode(line[6..]) {
          case Some(e) =>
            CompletionsSnoc(events, e);
            events := events + [e];
            if e.Finished? {
              completions := completions + 1;
            }
          case None =>
        }
      }
      i := i + 1;
    }
    assert lines[..i] == lines;
  }

  // -------------------------------------------------------------------- round trip

  lemma FrameLine(payload: string, eol: string)
    requires '\n' !in payload
    ensures Frame(payload, eol) == "data: " + payload + eol + eol
  {
    SplitNoSeparator('\n', payload);
    assert [payload][1..] == [];
    assert DataLines([payload], eol) == "data: " + payload + eol + "";
  }

  /** A line followed by a newline, then more text. */
  lemma DeliveredLine(codec: Codec, line: string, rest: string)
    requires '\n' !in line
    ensures Delivered(codec, line + "\n" + rest) == LineEvents(codec, line) + Delivered(codec, rest)
  {
    var a := line + "\n";
    LineThenNewline(line);
    assert CompleteLines(a) == [line] && Remainder(a) == "";
    assert LinesEvents(codec, [line]) == LineEvents(codec, line) + [];
    assert Delivered(codec, a) == LineEvents(codec, line);
    hide Delivered, LineEvents;
    DeliveredAppend(codec, a, rest);
    assert "" + rest == rest;
  }

  lemma {:induction false} LineThenNewline(line: string)
    requires '\n' !in line
    ensures Split('\n', line + "\n") == [line, ""]
  {
    var s := line + "\n";
    if line == "" {
      assert s[1..] == "";
      assert Split('\n', "") == [""];
    } else {
      assert line[0] in line && forall x :: x in line[1..] ==> x in line;
      assert s[1..] == line[1..] + "\n" && s[0] == line[0];
      LineThenNewline(line[1..]);
      assert [line[0]] + line[1..] == line;
    }
  }

  function CarriageReturn(eol: string): string { if eol == "\n" then "" else "\r" }

  lemma FrameShape(json: string, eol: string, rest: string)
    requires '\n' !in json && IsEol(eol)
    ensures
      var cr := CarriageReturn(eol);
      Frame(json, eol) + rest == ("data: " + (json + cr)) + "\n" + (cr + "\n" + rest)
  {
    FrameLine(json, eol);
    var cr := CarriageReturn(eol);
    assert eol == cr + "\n";
  }

  lemma DeliveredFrame(codec: Codec, e: Event, eol: string, rest: string)
    requires Lawful(codec) && IsEol(eol)
    ensures Delivered(codec, Frame(codec.encode(e), eol) + rest) == [e] + Delivered(codec, rest)
  {
    var json, cr := codec.encode(e), CarriageReturn(eol);
    FrameShape(json, eol, rest);
    var line := "data: " + (json + cr);
    assert line[6..] == json + cr;
    assert json + "" == json;
    assert LineEvents(codec, line) == [e] && LineEvents(codec, cr) == [];
    hide Frame, LineEvents, Delivered;
    DeliveredLine(codec, line, cr + "\n" + rest);
    DeliveredLine(codec, cr, rest);
  }

  lemma DeliveredOther(codec: Codec, line: string, eol: string, rest: string)
    requires IsEol(eol) && '\n' !in line && !("data: " <= line)
    ensures Delivered(codec, line + eol + rest) == Delivered(codec, rest)
  {
    var cr := CarriageReturn(eol);
    assert line + eol + rest == (line + cr) + "\n" + rest;
    NotData(line, cr);
    assert LineEvents(codec, line + cr) == [];
    hide LineEvents, Delivered;
    DeliveredLine(codec, line + cr, rest);
  }

  lemma NotData(line: string, cr: string)
    requires !("data: " <= line) && (cr == "" || cr == "\r")
    ensures !("data: " <= line + cr)
  {
    var whole := line + cr;
    if |line| >= 6 {
      assert whole[..6] == line[..6];
    } else if |line| == 5 {
      assert cr != "" ==> whole[5] == '\r';
      assert "data: "[5] == ' ';
    }
  }

  /** Every event the server frames reaches the client, in order and once, whatever other
      lines stand between the frames. */
  lemma {:induction false} WireRoundTrip(codec: Codec, eol: string, items: seq<Item>)
    requires Lawful(codec) && IsEol(eol) && Ignorable(items)
    ensures Delivered(codec, Wire(codec, eol, items)) == EventsOf(items)
  {
    if items == [] {
      assert CompleteLines("") == [];
    } else {
      WireRoundTrip(codec, eol, items[1..]);
      var rest := Wire(codec, eol, items[1..]);
      match items[0]
      case Framed(e) => DeliveredFrame(codec, e, eol, rest);
      case Other(line) => DeliveredOther(codec, line, eol, rest);
    }
  }

  /** The assistant's bubble in useChat. */
  datatype Bubble = Bubble(content: string, sources: seq<string>)

  function Update(b: Bubble, e: Event): Bubble {
    match e
    case Token(content) => if content != "" then b.(content := b.content + content) else b
    case Sources(items) => b.(sources := items)
    case _ => b
  }

  function Render(events: seq<Event>): Bubble {
    if events == [] then Bubble("", []) else Update(Render(events[..|events| - 1]), events[|events| - 1])
  }

  lemma RenderSnoc(events: seq<Event>, e: Event)
    ensures Render(events + [e]) == Update(Render(events), e)
  {
    assert (events + [e])[..|events|] == events;
  }

  /** What the bubble shows after any events: the contents of the tokens in a row, and the
      sources that came last. */
  lemma {:induction false} RenderExactly(events: seq<Event>, k: nat)
    requires k <= |events|
    requires forall i :: k <= i < |events| ==> !events[i].Sources?
    ensures Render(events).sources == Render(events[..k]).sources
    ensures k > 0 && events[k - 1].Sources? ==> Render(events).sources == events[k - 1].items
    ensures Render(events).content == Concat(Contents(events))
  {
    if events != [] {
      var n := |events| - 1;
      ConcatSnoc(Contents(events[..n]), ContentOf(events[n]));
      if k <= n {
        assert events[..n][..k] == events[..k];
        RenderExactly(events[..n], k);
      } else {
        assert events[..k] == events;
        RenderExactly(events[..n], n);
      }
    } else {
      assert events[..k] == events;
    }
  }

  function ContentOf(e: Event): string { if e.Token? then e.content else "" }

  function Contents(events: seq<Event>): seq<string> {
    if events == [] then [] else Contents(events[..|events| - 1]) + [ContentOf(events[|events| - 1])]
  }

  lemma TokenEventsSnoc(before: seq<Event>, tokens: seq<string>)
    requires tokens != []
    ensures before + TokenEvents(tokens) == before + TokenEvents(Front(tokens)) + [Token(Final(tokens))]
  {
  }

  lemma {:induction false} RenderTokens(before: seq<Event>, tokens: seq<string>)
    ensures
      Render(before + TokenEvents(tokens))
      == Render(before).(content := Render(before).content + Concat(tokens))
    decreases |tokens|
  {
    if tokens == [] {
      assert before + TokenEvents(tokens) == before;
      assert Render(before).content + Concat(tokens) == Render(before).content;
    } else {
      hide Concat, Render, TokenEvents;
      var n := |tokens| - 1;
      RenderTokens(before, tokens[..n]);
      assert tokens == tokens[..n] + [tokens[n]];
      ConcatSnoc(tokens[..n], tokens[n]);
      TokenEventsSnoc(before, tokens);
      RenderSnoc(before + TokenEvents(tokens[..n]), Token(tokens[n]));
      Assoc(Render(before).content, Concat(tokens[..n]), tokens[n]);
    }
  }

  lemma {:induction false} NoFinished(events: seq<Event>)
    requires forall e :: e in events ==> !e.Finished?
    ensures Completions(events) == 0
  {
    if events != [] {
      assert events[0] in events && forall e :: e in events[1..] ==> e in events;
      NoFinished(events[1..]);
    }
  }

  /** End to end: whatever other lines the server puts between the frames and however the
      network cuts the stream, the client sees the script, shows the answer (with one
      trailing space after a single word) and the sources, and reports completion
      exactly once. */
  lemma EndToEnd(
    codec: Codec, eol: string, answer: string, sources: seq<string>, session: string,
    items: seq<Item>, chunks: seq<string>)
    requires Lawful(codec) && IsEol(eol) && Ignorable(items)
    requires EventsOf(items) == Script(answer, sources, session)
    requires Concat(chunks) == Wire(codec, eol, items)
    ensures
      var events := Delivered(codec, Concat(chunks));
      events == Script(answer, sources, session)
      && Render(events) == Bubble(Shown(answer), sources)
      && Completions(events) == 1
  {
    hide Delivered, Wire, Script, Render, Completions;
    WireRoundTrip(codec, eol, items);
    ScriptShown(answer, sources, session);
  }

  lemma ScriptShown(answer: string, sources: seq<string>, session: string)
    ensures
      var script := Script(answer, sources, session);
      Render(script) == Bubble(Shown(answer), sources) && Completions(script) == 1
  {
    hide Tokens, TokenEvents, Completions;
    var script := Script(answer, sources, session);
    TokensRebuild(answer);
    var first := [Sources(sources)];
    var tokens := TokenEvents(Tokens(answer));
    var body := first + tokens;
    assert first[..0] == [] && Render(first) == Bubble("", sources);
    RenderTokens(first, Tokens(answer));
    assert "" + Concat(Tokens(answer)) == Concat(Tokens(answer));
    assert script == body + [Finished(session)];
    RenderSnoc(body, Finished(session));
    NoneFinished(Tokens(answer));
    NoFinished(body);
    CompletionsSnoc(body, Finished(session));
  }

  lemma NoneFinished(tokens: seq<string>)
    ensures forall e :: e in TokenEvents(tokens) ==> !e.Finished?
  {
  }

  /** An abort, or a connection cut anywhere, leaves a prefix of the events. */
  lemma CutStreamGivesPrefix(codec: Codec, read: string, unread: string)
    ensures Delivered(codec, read) <= Delivered(codec, read + unread)
  {
    DeliveredAppend(codec, read, unread);
  }

  lemma CompletionsPrefix(script: seq<Event>, k: nat)
    requires k < |script| && forall i :: 0 <= i < |script| - 1 ==> !script[i].Finished?
    ensures Completions(script[..k]) == 0
  {
    NoFinished(script[..k]);
  }

  /** A part of the script that stops before its end. */
  lemma PartOfScript(answer: string, sources: seq<string>, session: string, k: nat)
    requires k < |Script(answer, sources, session)|
    ensures
      var part := Script(answer, sources, session)[..k];
      Completions(part) == 0
      && Render(part).content <= Shown(answer)
      && (k > 0 ==> Render(part).sources == sources)
  {
    hide Tokens, Completions;
    var script, tokens := Script(answer, sources, session), Tokens(answer);
    CompletionsPrefix(script, k);
    if k == 0 {
      assert script[..0] == [];
    } else {
      var first := [Sources(sources)];
      assert script[..k] == first + TokenEvents(tokens[..k - 1]);
      assert first[..0] == [] && Render(first) == Bubble("", sources);
      RenderTokens(first, tokens[..k - 1]);
      assert tokens == tokens[..k - 1] + tokens[k - 1..];
      ConcatAppend(tokens[..k - 1], tokens[k - 1..]);
      TokensRebuild(answer);
      assert "" + Concat(tokens[..k - 1]) == Concat(tokens[..k - 1]);
    }
  }

  /** The order in which a reply arrives: wherever the stream is cut, the text shown is the
      beginning of the answer, no text is shown before the sources are set, and if
      completion has been reported then it was last, for this session, and all of the
      answer was there. */
  lemma CutInOrder(
    codec: Codec, eol: string, answer: string, sources: seq<string>, session: string,
    items: seq<Item>, read: string, unread: string)
    requires Lawful(codec) && IsEol(eol) && Ignorable(items)
    requires EventsOf(items) == Script(answer, sources, session)
    requires read + unread == Wire(codec, eol, items)
    ensures
      var events := Delivered(codec, read);
      Render(events).content <= Shown(answer)
      && (Render(events).content != "" ==> Render(events).sources == sources)
      && (Completions(events) > 0 ==>
            events != [] && events[|events| - 1] == Finished(session)
            && Completions(events) == 1 && Render(events) == Bubble(Shown(answer), sources))
  {
    var events, script := Delivered(codec, read), Script(answer, sources, session);
    WireRoundTrip(codec, eol, items);
    CutStreamGivesPrefix(codec, read, unread);
    hide Delivered, Wire, Completions;
    if |events| == |script| {
      assert events == script;
      ScriptShown(answer, sources, session);
    } else {
      assert events == script[..|events|];
      PartOfScript(answer, sources, session, |events|);
      hide Script;
      if events == [] { assert Render(events) == Bubble("", []); }
    }
  }

  /** Typing out: before the end of the first word, each token adds one character; after it,
      one word with the space that follows. */
  lemma TokensAreFine(text: string, i: nat)
    requires text != "" && i < |Tokens(text)|
    ensures
      var words, token := Split(' ', text), Tokens(text)[i];
      var n := |words[0]|;
      |Tokens(text)| == n + |words|
      && (i < n ==> token == [words[0][i]])
      && (i == n ==> token == " ")
      && (i > n ==> token == words[i - n] || token == words[i - n] + " ")
  {
    var words := Split(' ', text);
    var n := |words[0]|;
    WordTokensAt(words, 1, if i > n then i - n - 1 else 0);
  }

  lemma {:induction false} WordTokensAt(words: seq<string>, i: nat, k: nat)
    requires i <= |words|
    ensures |WordTokens(words, i)| == |words| - i
    ensures i + k < |words| ==>
      WordTokens(words, i)[k] == words[i + k] || WordTokens(words, i)[k] == words[i + k] + " "
    decreases |words| - i
  {
    if i < |words| {
      WordTokensAt(words, i + 1, if k > 0 then k - 1 else 0);
      assert words[i] + "" == words[i];
    }
  }

  /** JSON texts never begin with the letter d, and are never blank. */
  ghost predicate Strict(codec: Codec) {
    (forall s :: codec.decode("data: " + s) == None)
    && codec.decode("") == None && codec.decode("\r") == None
  }

  lemma DeliveredDataLine(codec: Codec, text: string, eol: string, rest: string)
    requires Strict(codec) && IsEol(eol) && '\n' !in text
    requires text == "" || "data: " <= text
    ensures Delivered(codec, "data: " + text + eol + rest) == Delivered(codec, rest)
  {
    var cr := CarriageReturn(eol);
    var line := "data: " + text + cr;
    assert "data: " + text + eol + rest == line + "\n" + rest;
    assert line[6..] == text + cr;
    if text != "" {
      assert text + cr == "data: " + (text[6..] + cr);
    } else {
      assert text + cr == cr;
    }
    assert LineEvents(codec, line) == [];
    hide LineEvents, Delivered;
    DeliveredLine(codec, line, rest);
  }

  /** The error message of query_stream and of the route's handler is already framed
      when it is yielded, so it is framed twice on the wire, and the client drops it:
      the stream delivers what it would without the message. */
  lemma PreframedErrorIsLost(codec: Codec, eol: string, detail: string, rest: string)
    requires Lawful(codec) && Strict(codec) && IsEol(eol)
    ensures
      Delivered(codec, Frame("data: " + codec.encode(Failed(detail)) + "\n\n", eol) + rest)
      == Delivered(codec, rest)
  {
    var inner := "data: " + codec.encode(Failed(detail));
    PreframedShape(inner, eol);
    var empty, tail := "data: " + "" + eol, eol + rest;
    assert Frame(inner + "\n\n", eol) + rest == "data: " + inner + eol + (empty + (empty + tail));
    hide Delivered, Frame;
    DeliveredDataLine(codec, inner, eol, empty + (empty + tail));
    DeliveredDataLine(codec, "", eol, empty + tail);
    DeliveredDataLine(codec, "", eol, tail);
    var cr := CarriageReturn(eol);
    assert tail == cr + "\n" + rest;
    assert LineEvents(codec, cr) == [];
    DeliveredLine(codec, cr, rest);
  }

  lemma PreframedShape(inner: string, eol: string)
    requires '\n' !in inner
    ensures
      var empty := "data: " + "" + eol;
      Frame(inner + "\n\n", eol) == "data: " + inner + eol + (empty + (empty + "")) + eol
  {
    LineThenNewline(inner);
    SplitAppend('\n', inner + "\n", "\n");
    LineThenNewline("");
    assert inner + "\n" + "\n" == inner + "\n\n" && "" + "\n" == "\n";
    var lines := [inner, "", ""];
    assert Split('\n', inner + "\n\n") == lines;
    assert lines[1..] == ["", ""] && lines[1..][1..] == [""] && [""][1..] == [];
    assert DataLines([""], eol) == "data: " + "" + eol + "";
    assert DataLines(["", ""], eol) == "data: " + "" + eol + ("data: " + "" + eol + "");
  }
}
