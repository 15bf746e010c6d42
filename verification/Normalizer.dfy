/** The text normaliser: four regular-expression substitutions and a strip. */
module Normalizer {
  import opened Prelude

  /** Every CR LF becomes LF. */
  function CrLfToLf(s: string): string {
    if s == "" then ""
    else if "\r\n" <= s then "\n" + CrLfToLf(s[2..])
    else [s[0]] + CrLfToLf(s[1..])
  }

  /** Every CR becomes LF. */
  function CrToLf(s: string): string {
    if s == "" then "" else [if s[0] == '\r' then '\n' else s[0]] + CrToLf(s[1..])
  }

  predicate IsNewline(c: char) { c == '\n' }

  predicate IsBlank(c: char) { c == ' ' || c == '\t' }

  /** The length of the run of characters of a class at the start. */
  function Leading(s: string, p: char -> bool): (n: nat)
    ensures n <= |s|
    ensures forall i :: 0 <= i < n ==> p(s[i])
    ensures n < |s| ==> !p(s[n])
  {
    if s == "" || !p(s[0]) then 0 else 1 + Leading(s[1..], p)
  }

  /** Every run of at least `least` characters of a class is replaced; the match is greedy
      and takes the whole run. */
  function Substitute(s: string, p: char -> bool, least: nat, with: string): string
    requires least >= 1
    decreases |s|
  {
    if s == "" then ""
    else if Leading(s, p) >= least then with + Substitute(s[Leading(s, p)..], p, least, with)
    else [s[0]] + Substitute(s[1..], p, least, with)
  }

  function CapNewlines(s: string): string { Substitute(s, IsNewline, 4, "\n\n\n") }

  function MergeBlanks(s: string): string { Substitute(s, IsBlank, 1, " ") }

  function Normalize(s: string): string {
    Strip(MergeBlanks(CapNewlines(CrToLf(CrLfToLf(s)))))
  }

  /** Python's `part in s`. */
  predicate Contains(s: string, part: string) {
    part <= s || (s != "" && Contains(s[1..], part))
  }

  /** The form the normaliser is for. */
  predicate Normal(t: string) {
    '\r' !in t && '\t' !in t && !Contains(t, "  ") && !Contains(t, "\n\n\n\n")
    && (t != "" ==> !IsSpace(t[0]) && !IsSpace(t[|t| - 1]))
  }

  // ------------------------------------------------------------------ the output is normal

  lemma {:induction false} NoReturns(s: string)
    ensures '\r' !in CrToLf(s)
  {
    if s != "" { NoReturns(s[1..]); }
  }

  lemma {:induction false} SubstituteAddsNothing(s: string, p: char -> bool, least: nat, with: string)
    requires least >= 1
    ensures forall c :: c in Substitute(s, p, least, with) ==> c in s || c in with
    ensures least == 1 ==> forall c :: c in Substitute(s, p, least, with) ==> c in with || !p(c)
    decreases |s|
  {
    if s != "" {
      if Leading(s, p) >= least {
        SubstituteAddsNothing(s[Leading(s, p)..], p, least, with);
      } else {
        SubstituteAddsNothing(s[1..], p, least, with);
      }
    }
  }

  lemma LeadingCons(c: char, s: string, p: char -> bool)
    ensures Leading([c] + s, p) == if p(c) then 1 + Leading(s, p) else 0
  {
    assert ([c] + s)[1..] == s;
  }

  lemma RunOfFour(s: string)
    ensures "\n\n\n\n" <= s <==> Leading(s, IsNewline) >= 4
  {
  }

  /** After the substitution a leading run of newlines is as long as before, or three. */
  lemma {:induction false} CappedRun(s: string)
    ensures Leading(CapNewlines(s), IsNewline) == if Leading(s, IsNewline) >= 4 then 3 else Leading(s, IsNewline)
    ensures !Contains(CapNewlines(s), "\n\n\n\n")
    decreases |s|
  {
    if s != "" {
      var n := Leading(s, IsNewline);
      if n >= 4 {
        CappedRun(s[n..]);
        ThreeNewlines(CapNewlines(s[n..]));
      } else {
        CappedRun(s[1..]);
        var rest := CapNewlines(s[1..]);
        LeadingCons(s[0], rest, IsNewline);
        RunOfFour([s[0]] + rest);
        assert ([s[0]] + rest)[1..] == rest;
      }
    }
  }

  lemma ThreeNewlines(s: string)
    requires Leading(s, IsNewline) == 0 && !Contains(s, "\n\n\n\n")
    ensures Leading("\n\n\n" + s, IsNewline) == 3 && !Contains("\n\n\n" + s, "\n\n\n\n")
  {
    NewlineBefore(s);
    NewlineBefore("\n" + s);
    NewlineBefore("\n" + ("\n" + s));
    assert "\n" + ("\n" + ("\n" + s)) == "\n\n\n" + s;
  }

  lemma NewlineBefore(s: string)
    requires Leading(s, IsNewline) <= 2 && !Contains(s, "\n\n\n\n")
    ensures Leading("\n" + s, IsNewline) == 1 + Leading(s, IsNewline) && !Contains("\n" + s, "\n\n\n\n")
  {
    LeadingCons('\n', s, IsNewline);
    RunOfFour("\n" + s);
    assert ("\n" + s)[1..] == s;
  }

  /** The merged text begins with the first character, or one blank for a run of them. */
  lemma MergeStep(s: string) returns (c: char, n: nat)
    requires s != ""
    ensures 1 <= n <= |s| && MergeBlanks(s) == [c] + MergeBlanks(s[n..])
    ensures if IsBlank(s[0]) then c == ' ' && n == Leading(s, IsBlank) else c == s[0] && n == 1
    ensures Leading(s[n..], IsBlank) == 0 || !IsBlank(c)
  {
    n := if IsBlank(s[0]) then Leading(s, IsBlank) else 1;
    c := if IsBlank(s[0]) then ' ' else s[0];
  }

  /** Merging leaves no two blanks side by side. */
  lemma {:induction false} MergedBlanks(s: string)
    ensures Leading(MergeBlanks(s), IsBlank) == if Leading(s, IsBlank) >= 1 then 1 else 0
    ensures !Contains(MergeBlanks(s), "  ")
    decreases |s|
  {
    if s != "" {
      var c, n := MergeStep(s);
      MergedBlanks(s[n..]);
      var rest := MergeBlanks(s[n..]);
      LeadingCons(c, rest, IsBlank);
      assert ([c] + rest)[1..] == rest;
    }
  }

  /** Merging leaves the runs of newlines alone. */
  lemma {:induction false} MergedNewlines(s: string)
    ensures Leading(MergeBlanks(s), IsNewline) == Leading(s, IsNewline)
    ensures !Contains(s, "\n\n\n\n") ==> !Contains(MergeBlanks(s), "\n\n\n\n")
    decreases |s|
  {
    if s != "" {
      var c, n := MergeStep(s);
      MergedNewlines(s[n..]);
      var rest := MergeBlanks(s[n..]);
      LeadingCons(c, rest, IsNewline);
      assert ([c] + rest)[1..] == rest;
      RunOfFour([c] + rest);
      RunOfFour(s);
      if Contains(s[n..], "\n\n\n\n") { TailContains(s, n, "\n\n\n\n"); }
    }
  }

  lemma {:induction false} TailContains(s: string, n: nat, part: string)
    requires n <= |s| && Contains(s[n..], part)
    ensures Contains(s, part)
  {
    if n > 0 {
      assert s[1..][n - 1..] == s[n..];
      TailContains(s[1..], n - 1, part);
    } else {
      assert s[0..] == s;
    }
  }

  lemma {:induction false} FrontContains(s: string, n: nat, part: string)
    requires n <= |s| && Contains(s[..n], part)
    ensures Contains(s, part)
  {
    if !(part <= s) {
      assert !(part <= s[..n]);
      assert s[..n][1..] == s[1..][..n - 1];
      FrontContains(s[1..], n - 1, part);
    }
  }

  lemma StripContains(s: string, part: string)
    requires Contains(Strip(s), part)
    ensures Contains(s, part)
  {
    var lo := LeftBlanks(s);
    var hi := RightEnd(s, lo);
    assert s[lo..hi] == s[..hi][lo..];
    TailContains(s[..hi], lo, part);
    FrontContains(s, hi, part);
  }

  /** Every output is in normal form. */
  lemma NormalizeIsNormal(s: string)
    ensures Normal(Normalize(s))
  {
    var a := CrToLf(CrLfToLf(s));
    var b := CapNewlines(a);
    var c := MergeBlanks(b);
    NoReturns(CrLfToLf(s));
    SubstituteAddsNothing(a, IsNewline, 4, "\n\n\n");
    SubstituteAddsNothing(b, IsBlank, 1, " ");
    CappedRun(a);
    MergedBlanks(b);
    MergedNewlines(b);
    StripIsClean(c);
  }

  lemma StripIsClean(c: string)
    requires '\r' !in c && '\t' !in c && !Contains(c, "  ") && !Contains(c, "\n\n\n\n")
    ensures Normal(Strip(c))
  {
    hide Contains, IsSpace, Strip;
    var t := Strip(c);
    if Contains(t, "  ") { StripContains(c, "  "); }
    if Contains(t, "\n\n\n\n") { StripContains(c, "\n\n\n\n"); }
    StripEnds(c);
  }

  // ------------------------------------------------------------- normal texts are fixed

  lemma {:induction false} CrLfFixed(t: string)
    requires '\r' !in t
    ensures CrToLf(CrLfToLf(t)) == t
  {
    if t != "" {
      CrLfFixed(t[1..]);
      assert CrLfToLf(t) == [t[0]] + CrLfToLf(t[1..]);
    }
  }

  lemma {:induction false} CapFixed(t: string)
    requires !Contains(t, "\n\n\n\n")
    ensures CapNewlines(t) == t
  {
    RunOfFour(t);
    if t != "" { CapFixed(t[1..]); }
  }

  lemma {:induction false} MergeFixed(t: string)
    requires '\t' !in t && !Contains(t, "  ")
    ensures MergeBlanks(t) == t
  {
    if t != "" {
      MergeFixed(t[1..]);
      assert !("  " <= t);
      assert t == [t[0]] + t[1..];
    }
  }

  /** The normal form is exactly the set of fixed points. */
  lemma NormalIsFixed(t: string)
    ensures Normal(t) <==> Normalize(t) == t
  {
    NormalizeIsNormal(t);
    if Normal(t) {
      CrLfFixed(t);
      CapFixed(t);
      MergeFixed(t);
    }
  }

  lemma Idempotent(s: string)
    ensures Normalize(Normalize(s)) == Normalize(s)
  {
    NormalizeIsNormal(s);
    NormalIsFixed(Normalize(s));
  }

  // ------------------------------------------------------------------- the words survive

  predicate AllSpace(s: string) { forall c :: c in s ==> IsSpace(c) }

  predicate IsLineEnd(c: char) { c == '\n' || c == '\r' }

  predicate HasLineEnd(s: string) { '\n' in s || '\r' in s }

  /** The words of each line that has any; a line ends at a line feed, a carriage return, or
      both.  `line` and `word` are what has been read of the current line and word. */
  function WordLines(s: string, line: seq<string>, word: string): seq<seq<string>> {
    if s == "" then Ended(line + Flush(word))
    else if IsLineEnd(s[0]) then Ended(line + Flush(word)) + WordLines(s[1..], [], "")
    else if IsSpace(s[0]) then WordLines(s[1..], line + Flush(word), "")
    else WordLines(s[1..], line, word + [s[0]])
  }

  function Ended(line: seq<string>): seq<seq<string>> { if line == [] then [] else [line] }

  lemma Nothing(line: seq<string>)
    ensures line + Flush("") == line && Ended([]) == []
  {
  }

  /** White space in front ends the word, and the line too if it holds a line end. */
  lemma {:induction false} LinesSkip(w: string, s: string, line: seq<string>, word: string)
    requires w != "" && AllSpace(w)
    ensures
      WordLines(w + s, line, word) ==
      if HasLineEnd(w) then Ended(line + Flush(word)) + WordLines(s, [], "")
      else WordLines(s, line + Flush(word), "")
  {
    assert (w + s)[1..] == w[1..] + s && w == [w[0]] + w[1..];
    Nothing(line + Flush(word));
    Nothing([]);
    if |w| == 1 {
      assert w[1..] + s == s;
    } else {
      LinesSkip(w[1..], s, if IsLineEnd(w[0]) then [] else line + Flush(word), "");
      hide WordLines;
    }
  }

  lemma {:induction false} LinesTrail(s: string, w: string, line: seq<string>, word: string)
    requires AllSpace(w)
    ensures WordLines(s + w, line, word) == WordLines(s, line, word)
    decreases |s|
  {
    if s == "" {
      assert s + w == w == w + "";
      if w != "" {
        LinesSkip(w, "", line, word);
        Nothing(line + Flush(word));
      }
    } else {
      assert (s + w)[1..] == s[1..] + w;
      LinesTrail(s[1..], w, LineOn(s[0], line, word), WordOn(s[0], word));
    }
  }

  /** The current line and word after one more character. */
  function LineOn(c: char, line: seq<string>, word: string): seq<string> {
    if IsLineEnd(c) then [] else if IsSpace(c) then line + Flush(word) else line
  }

  function WordOn(c: char, word: string): string { if IsSpace(c) then "" else word + [c] }

  lemma {:induction false} LinesOfCrLf(s: string, line: seq<string>, word: string)
    ensures WordLines(CrLfToLf(s), line, word) == WordLines(s, line, word)
    decreases |s|
  {
    if s != "" {
      if "\r\n" <= s {
        LinesOfCrLf(s[2..], [], "");
        assert s == "\r\n" + s[2..];
        LinesSkip("\r\n", s[2..], line, word);
        LinesSkip("\n", CrLfToLf(s[2..]), line, word);
      } else {
        LinesOfCrLf(s[1..], LineOn(s[0], line, word), WordOn(s[0], word));
      }
    }
  }

  lemma {:induction false} LinesOfCr(s: string, line: seq<string>, word: string)
    ensures WordLines(CrToLf(s), line, word) == WordLines(s, line, word)
    decreases |s|
  {
    if s != "" {
      LinesOfCr(s[1..], LineOn(s[0], line, word), WordOn(s[0], word));
    }
  }

  /** A class of white space, of line ends only or without any. */
  ghost predicate SpaceClass(p: char -> bool, ends: bool) {
    forall c :: p(c) ==> IsSpace(c) && (IsLineEnd(c) <==> ends)
  }

  lemma {:induction false} LinesOfSubstitute(
    s: string, p: char -> bool, least: nat, with: string, line: seq<string>, word: string)
    requires least >= 1 && with != "" && AllSpace(with) && SpaceClass(p, HasLineEnd(with))
    ensures WordLines(Substitute(s, p, least, with), line, word) == WordLines(s, line, word)
    decreases |s|
  {
    hide WordLines, AllSpace, HasLineEnd, IsSpace, SpaceClass;
    if s != "" {
      var n := Leading(s, p);
      if n >= least {
        var next := if HasLineEnd(with) then [] else line + Flush(word);
        LinesOfSubstitute(s[n..], p, least, with, next, "");
        RunHasLineEnd(s, p, n, with);
        LinesOfRun(s[..n], with, s[n..], Substitute(s[n..], p, least, with), line, word);
        assert s == s[..n] + s[n..];
      } else {
        LinesOfSubstitute(s[1..], p, least, with, LineOn(s[0], line, word), WordOn(s[0], word));
        SameFirst(s[0], Substitute(s[1..], p, least, with), s[1..], line, word);
        assert s == [s[0]] + s[1..];
      }
    }
  }

  lemma SameFirst(c: char, s: string, s': string, line: seq<string>, word: string)
    requires
      WordLines(s, LineOn(c, line, word), WordOn(c, word)) == WordLines(s', LineOn(c, line, word), WordOn(c, word))
    ensures WordLines([c] + s, line, word) == WordLines([c] + s', line, word)
  {
    assert ([c] + s)[1..] == s && ([c] + s')[1..] == s';
  }

  /** One run of white space for another, with or without line ends. */
  lemma LinesOfRun(run: string, with: string, rest: string, rest': string, line: seq<string>, word: string)
    requires run != "" && with != "" && AllSpace(run) && AllSpace(with) && (HasLineEnd(run) <==> HasLineEnd(with))
    requires
      var next := if HasLineEnd(with) then [] else line + Flush(word);
      WordLines(rest', next, "") == WordLines(rest, next, "")
    ensures WordLines(with + rest', line, word) == WordLines(run + rest, line, word)
  {
    hide WordLines, HasLineEnd, AllSpace;
    LinesSkip(with, rest', line, word);
    LinesSkip(run, rest, line, word);
  }

  lemma RunHasLineEnd(s: string, p: char -> bool, n: nat, with: string)
    requires 0 < n <= |s| && forall i :: 0 <= i < n ==> p(s[i])
    requires SpaceClass(p, HasLineEnd(with))
    ensures AllSpace(s[..n]) && (HasLineEnd(s[..n]) <==> HasLineEnd(with))
  {
    hide IsSpace, HasLineEnd;
    var run := s[..n];
    forall c | c in run ensures IsSpace(c) && (IsLineEnd(c) <==> HasLineEnd(with)) {
      var i :| 0 <= i < n && run[i] == c;
      assert p(s[i]);
    }
    assert run[0] in run;
    LineEndInRun(run, HasLineEnd(with));
  }

  lemma LineEndInRun(run: string, ends: bool)
    requires run != "" && forall c :: c in run ==> (IsLineEnd(c) <==> ends)
    ensures HasLineEnd(run) <==> ends
  {
    assert run[0] in run;
  }

  lemma LinesOfStrip(s: string)
    ensures WordLines(Strip(s), [], "") == WordLines(s, [], "")
  {
    var lo := LeftBlanks(s);
    var hi := RightEnd(s, lo);
    assert s == s[..lo] + (s[lo..hi] + s[hi..]);
    LinesTrail(s[lo..hi], s[hi..], [], "");
    Nothing([]);
    hide WordLines;
    if lo > 0 {
      LinesSkip(s[..lo], s[lo..hi] + s[hi..], [], "");
    } else {
      assert s == s[lo..hi] + s[hi..];
    }
  }

  /** Normalising changes white space only, and keeps the lines: the words of every line that
      has any stay, in order, whatever the line ends were. */
  lemma LinesKept(s: string)
    ensures WordLines(Normalize(s), [], "") == WordLines(s, [], "")
  {
    var a := CrToLf(CrLfToLf(s));
    var b := CapNewlines(a);
    LinesOfCrLf(s, [], "");
    LinesOfCr(CrLfToLf(s), [], "");
    LinesOfSubstitute(a, IsNewline, 4, "\n\n\n", [], "");
    LinesOfSubstitute(b, IsBlank, 1, " ", [], "");
    LinesOfStrip(MergeBlanks(b));
  }

  lemma {:induction false} WordsOfLines(s: string, line: seq<string>, word: string)
    ensures Concat(WordLines(s, line, word)) == line + Words(s, word)
    decreases |s|
  {
    if s == "" {
      ConcatEnded(line + Flush(word), []);
      Assoc(line, Flush(word), []);
    } else {
      WordsOfLines(s[1..], LineOn(s[0], line, word), WordOn(s[0], word));
      if IsLineEnd(s[0]) {
        ConcatEnded(line + Flush(word), WordLines(s[1..], [], ""));
      }
      if IsSpace(s[0]) { Assoc(line, Flush(word), Words(s[1..], "")); }
    }
  }

  lemma ConcatEnded(line: seq<string>, rest: seq<seq<string>>)
    ensures Concat(Ended(line) + rest) == line + Concat(rest)
    ensures Concat(Ended(line)) == line
  {
    ConcatAppend(Ended(line), rest);
    if line != [] { assert Concat([line]) == line + Concat<string>([]); }
  }

  /** So the words of the text and their order stay. */
  lemma WordsKept(s: string)
    ensures Words(Normalize(s), "") == Words(s, "")
  {
    LinesKept(s);
    WordsOfLines(s, [], "");
    WordsOfLines(Normalize(s), [], "");
    hide Normalize, WordLines, Words;
    assert [] + Words(s, "") == Words(s, "") && [] + Words(Normalize(s), "") == Words(Normalize(s), "");
  }

  /** What words are: a text without white space is one word, and white space separates. */
  lemma {:induction false} OneWord(s: string, word: string)
    requires forall c :: c in s ==> !IsSpace(c)
    ensures Words(s, word) == Flush(word + s)
  {
    if s == "" {
      assert word + s == word;
    } else {
      OneWord(s[1..], word + [s[0]]);
      assert word + [s[0]] + s[1..] == word + s;
    }
  }

  lemma {:induction false} WordsSeparate(a: string, c: char, b: string, word: string)
    requires IsSpace(c)
    ensures Words(a + [c] + b, word) == Words(a, word) + Words(b, "")
    decreases |a|
  {
    var s := a + [c] + b;
    if a == "" {
      assert s == [c] + b && s[1..] == b;
    } else {
      assert s[1..] == a[1..] + [c] + b && s[0] == a[0];
      WordsSeparate(a[1..], c, b, WordOn(a[0], word));
      if IsSpace(a[0]) { Assoc(Flush(word), Words(a[1..], ""), Words(b, "")); }
    }
  }

  // ------------------------------------------------------ run by run, what happens to white space

  function Copies(c: char, n: nat): string { seq(n, i => c) }

  lemma CopiesStep(c: char, n: nat)
    ensures Copies(c, n) == if n == 0 then "" else [c] + Copies(c, n - 1)
  {
  }

  lemma {:induction false} LeadingCopies(c: char, n: nat, rest: string, p: char -> bool)
    requires p(c) && Leading(rest, p) == 0
    ensures Leading(Copies(c, n) + rest, p) == n && (Copies(c, n) + rest)[n..] == rest
  {
    var s := Copies(c, n) + rest;
    if n == 0 {
      assert s == rest;
    } else {
      assert s[1..] == Copies(c, n - 1) + rest;
      LeadingCopies(c, n - 1, rest, p);
      assert s[n..] == rest;
    }
  }

  lemma NoNewline(rest: string)
    ensures rest == "" || rest[0] != '\n' ==> Leading(rest, IsNewline) == 0
  {
  }

  lemma CapStep(s: string)
    ensures s != "" ==>
      CapNewlines(s) ==
      if Leading(s, IsNewline) >= 4 then "\n\n\n" + CapNewlines(s[Leading(s, IsNewline)..])
      else [s[0]] + CapNewlines(s[1..])
  {
  }

  lemma LongNewlineRun(n: nat, rest: string)
    requires n > 3 && (rest == "" || rest[0] != '\n')
    ensures CapNewlines(Copies('\n', n) + rest) == "\n\n\n" + CapNewlines(rest)
  {
    hide Substitute, Leading;
    NoNewline(rest);
    LeadingCopies('\n', n, rest, IsNewline);
    CapStep(Copies('\n', n) + rest);
  }

  lemma ShortNewlineRun(n: nat, rest: string)
    requires 1 <= n <= 3 && (rest == "" || rest[0] != '\n')
    ensures CapNewlines(Copies('\n', n) + rest) == ['\n'] + CapNewlines(Copies('\n', n - 1) + rest)
  {
    hide Substitute, Leading;
    NoNewline(rest);
    LeadingCopies('\n', n, rest, IsNewline);
    var s := Copies('\n', n) + rest;
    CapStep(s);
    assert s[1..] == Copies('\n', n - 1) + rest;
  }

  /** A run of newlines keeps its length up to three, and is cut to three if longer. */
  lemma {:induction false} NewlineRuns(n: nat, rest: string)
    requires rest == "" || rest[0] != '\n'
    ensures CapNewlines(Copies('\n', n) + rest) == Copies('\n', if n > 3 then 3 else n) + CapNewlines(rest)
  {
    if n > 3 {
      hide CapNewlines;
      LongNewlineRun(n, rest);
      assert Copies('\n', 3) == "\n\n\n";
    } else {
      hide CapNewlines, Copies;
      CopiesStep('\n', n);
      if n == 0 {
        assert "" + rest == rest && "" + CapNewlines(rest) == CapNewlines(rest);
      } else {
        ShortNewlineRun(n, rest);
        NewlineRuns(n - 1, rest);
        Assoc(['\n'], Copies('\n', n - 1), CapNewlines(rest));
      }
    }
  }

  /** Each line end becomes one line feed, and every other character stays. */
  lemma LineEndsUnified(c: char, rest: string)
    requires !IsLineEnd(c)
    ensures CrToLf(CrLfToLf("\r\n" + rest)) == "\n" + CrToLf(CrLfToLf(rest))
    ensures CrToLf(CrLfToLf("\n" + rest)) == "\n" + CrToLf(CrLfToLf(rest))
    ensures rest == "" || rest[0] != '\n' ==> CrToLf(CrLfToLf("\r" + rest)) == "\n" + CrToLf(CrLfToLf(rest))
    ensures CrToLf(CrLfToLf([c] + rest)) == [c] + CrToLf(CrLfToLf(rest))
  {
    assert ("\r\n" + rest)[2..] == rest && ("\n" + rest)[1..] == rest && ("\r" + rest)[1..] == rest;
    assert ([c] + rest)[1..] == rest;
    var r := CrLfToLf(rest);
    assert ("\n" + r)[1..] == r && ("\r" + r)[1..] == r && ([c] + r)[1..] == r;
    if "\r\n" <= "\r" + rest { assert rest[0] == ("\r" + rest)[1] == '\n'; }
    assert !("\r\n" <= "\n" + rest) && !("\r\n" <= [c] + rest);
  }

  class Document {
    var content: string

    constructor (text: string)
      ensures content == text
    {
      content := text;
    }
  }

  class TextNormalizer {
    constructor () {}

    /** __call__: rewrites the document in place. */
    method Apply(doc: Document)
      modifies doc
      ensures doc.content == Normalize(old(doc.content))
      ensures Normal(doc.content) && WordLines(doc.content, [], "") == old(WordLines(doc.content, [], ""))
    {
      NormalizeIsNormal(doc.content);
      LinesKept(doc.content);
      var text := doc.content;
      text := CrLfToLf(text);
      text := CrToLf(text);
      text := CapNewlines(text);
      text := MergeBlanks(text);
      doc.content := Strip(text);
    }
  }
}
