/** generate.py's token-budgeted conversation history and its token estimate. */
module HistoryBudget {
  import opened Prelude
  import opened Sessions
  import opened Interchange
  import L = Lru
  import opened Caches

  // ---------------------------------------------------------------- token estimate

  function WordCount(text: string): nat { |Words(text, "")| }

  /** The model's own count where it has one that succeeds, else the word count. */
  function Estimated(count: string -> Option<int>, text: string): int {
    match count(text)
    case Some(n) => n
    case None => WordCount(text)
  }

  /** _estimate_tokens over the shared token cache. */
  class TokenEstimator<K(!new, ==)> {
    const cache: LRUCache<K, int>
    const digest: string -> K
    const count: string -> Option<int>

    ghost predicate Valid()
      reads this, cache
    {
      cache.Valid() && Injective(digest)
      && Faithful(cache.entries, digest, text => Estimated(count, text))
    }

    constructor (cache: LRUCache<K, int>, digest: string -> K, count: string -> Option<int>)
      requires cache.Valid() && cache.entries == map[] && Injective(digest)
      ensures Valid() && this.cache == cache && this.digest == digest && this.count == count
    {
      this.cache, this.digest, this.count := cache, digest, count;
    }

    /** The cache never changes an estimate: whatever was computed, evicted or expired
        before, the answer is that of the estimate itself. */
    method Estimate(text: string, now: int, later: int) returns (n: int)
      requires Valid() && L.Before(cache.trace, now) && now < later
      modifies cache
      ensures Valid() && n == Estimated(count, text)
      ensures n == match count(text) case Some(c) => c case None => |Words(text, "")|
      ensures forall e :: e in cache.trace ==> e in old(cache.trace) || e.now == now || e.now == later
    {
      hide Words, L.Step, L.Run, L.AfterGet, L.AfterSet, L.Found, Faithful;
      ghost var before := cache.Contents();
      ghost var f := (t: string) => Estimated(count, t);
      var key := digest(text);
      var cached := cache.Get(key, now);
      FaithfulGet(cache.ttl, before, text, now, digest, f);
      if cached.Some? {
        n := cached.value;
      } else {
        n := match count(text)
          case Some(c) => c
          case None => WordCount(text);
        ghost var middle := cache.Contents();
        cache.Set(key, n, later);
        FaithfulSet(cache.maxsize, middle, text, later, digest, f);
      }
    }
  }

  // ------------------------------------------------------------------ build history

  /** max_history_tokens and summarization_threshold_turns. */
  datatype Settings = Settings(budget: int, thresholdTurns: int)

  /** The lines returned, before joining, and the summary stored by the call, if any. */
  datatype Built = Built(parts: seq<string>, saved: Option<string>)

  const ANSWER_NOTE := "\n[Note: The current turn's assistant answer will be shown here after generation.]"

  /** total_tokens: the estimate for summary, lines, query and note together. */
  function Total(count: string -> int, summary: string, lines: seq<string>, query: string): int {
    count(Join("\n", SummaryLine(summary) + lines + ["Customer: " + query, ANSWER_NOTE]))
  }

  /** Whether lines fit the budget together with the summary, the query and the note. */
  function Budget(s: Settings, count: string -> int, summary: string, query: string): seq<string> -> bool {
    (lines: seq<string>) => Total(count, summary, lines, query) <= s.budget
  }

  function Drop(lines: seq<string>, d: nat): seq<string>
    requires d <= |lines|
  {
    lines[d..]
  }

  /** Drop the oldest exchange until the rest fits or is at most one exchange. */
  function Shrink(fits: seq<string> -> bool, lines: seq<string>): (kept: seq<string>)
    ensures |kept| <= |lines|
    decreases |lines|
  {
    if |lines| <= 2 || fits(lines) then lines else Shrink(fits, Drop(lines, 2))
  }

  predicate ManyTurns(s: Settings, messages: seq<Message>) { |messages| / 2 >= s.thresholdTurns }

  /** What the summary becomes when the model condenses `dropped`; None if the model
      fails or answers with blanks. */
  function Condensed(generate: string -> Option<string>, summary: string, dropped: seq<string>): Option<string> {
    match generate(Join("\n", dropped))
    case Some(raw) =>
      if Strip(raw) == "" then None
      else Some(if summary == "" then Strip(raw) else summary + " | " + Strip(raw))
    case None => None
  }

  /** The three ways to build the history, from what the two reads returned. */
  function Build(
    s: Settings, messages: seq<Message>, summary: string, query: string,
    count: string -> int, generate: string -> Option<string>): Built
  {
    var lines := HistoryLines(messages);
    var fits := Budget(s, count, summary, query);
    if messages == [] && summary == "" then Built([], None)
    else if fits(lines) then Built(SummaryLine(summary) + lines, None)
    else if ManyTurns(s, messages) && summary != "" then
      Built(SummaryLine(summary) + Shrink(fits, Recent(lines)), None)
    else
      var kept := Shrink(fits, lines);
      match Summarised(s, messages, summary, generate, lines[..|lines| - |kept|])
      case Some(newer) => Built(SummaryLine(newer) + Shrink(Budget(s, count, newer, query), kept), Some(newer))
      case None => Built(SummaryLine(summary) + kept, None)
  }

  /** All but the first six lines, but at least four. */
  function Recent(lines: seq<string>): seq<string> {
    PyTail(lines, if |lines| - 6 > 4 then |lines| - 6 else 4)
  }

  function Summarised(
    s: Settings, messages: seq<Message>, summary: string, generate: string -> Option<string>, dropped: seq<string>)
    : Option<string>
  {
    if dropped != [] && ManyTurns(s, messages) then Condensed(generate, summary, dropped) else None
  }

  /** Shrinking keeps a suffix, never empties a non-empty list, ends within the budget
      or with at most one exchange, and stops as early as it can. */
  lemma {:induction false} ShrinkIsLongestFit(fits: seq<string> -> bool, lines: seq<string>)
    ensures
      var kept := Shrink(fits, lines);
      IsSuffix(kept, lines)
      && (lines != [] ==> kept != [])
      && (fits(kept) || |kept| <= 2)
      && (|lines| - |kept|) % 2 == 0
      && (forall d :: 0 <= d < |lines| - |kept| && d % 2 == 0 ==> !fits(Drop(lines, d)))
    decreases |lines|
  {
    assert Drop(lines, 0) == lines;
    if !(|lines| <= 2 || fits(lines)) {
      var rest := Drop(lines, 2);
      var kept := Shrink(fits, lines);
      ShrinkIsLongestFit(fits, rest);
      SuffixOfSuffix(kept, rest, lines);
      forall d | 2 <= d < |lines| - |kept| && d % 2 == 0 ensures !fits(Drop(lines, d)) {
        assert Drop(rest, d - 2) == Drop(lines, d);
      }
    }
  }

  lemma SuffixOfSuffix(a: seq<string>, b: seq<string>, c: seq<string>)
    requires IsSuffix(a, b) && IsSuffix(b, c)
    ensures IsSuffix(a, c)
  {
    assert c[|c| - |b|..][|b| - |a|..] == c[|c| - |a|..];
  }

  lemma RecentIsSuffix(lines: seq<string>)
    ensures IsSuffix(Recent(lines), lines) && (lines != [] ==> Recent(lines) != [])
  {
  }

  /** An optional line for the summary in force at the end, and a suffix of the message
      lines, not empty when there are messages, that fits or is at most one exchange. */
  ghost predicate WellBuilt(
    s: Settings, messages: seq<Message>, summary: string, query: string, count: string -> int, parts: seq<string>)
  {
    exists kept ::
      parts == SummaryLine(summary) + kept
      && IsSuffix(kept, HistoryLines(messages))
      && (messages != [] ==> kept != [])
      && (Budget(s, count, summary, query)(kept) || |kept| <= 2)
  }

  lemma WellBuiltBy(
    s: Settings, messages: seq<Message>, summary: string, query: string, count: string -> int,
    parts: seq<string>, kept: seq<string>)
    requires parts == SummaryLine(summary) + kept && IsSuffix(kept, HistoryLines(messages))
    requires messages != [] ==> kept != []
    requires Budget(s, count, summary, query)(kept) || |kept| <= 2
    ensures WellBuilt(s, messages, summary, query, count, parts)
  {
  }

  /** The history is an optional summary line and a suffix of the formatted messages,
      not empty when there are messages, that fits the budget together with the query
      or is at most one exchange.  A summary is stored only over an empty one, and only
      for a long conversation that did not fit. */
  lemma BuildIsWellBuilt(
    s: Settings, messages: seq<Message>, summary: string, query: string,
    count: string -> int, generate: string -> Option<string>)
    ensures
      var b := Build(s, messages, summary, query, count, generate);
      WellBuilt(s, messages, if b.saved.Some? then b.saved.value else summary, query, count, b.parts)
      && (b.saved.Some? ==>
            summary == "" && b.saved.value != "" && ManyTurns(s, messages)
            && !Budget(s, count, summary, query)(HistoryLines(messages)))
  {
    var lines := HistoryLines(messages);
    var fits := Budget(s, count, summary, query);
    var b := Build(s, messages, summary, query, count, generate);
    LinesCount(messages);
    NoSummary();
    hide Budget, HistoryLines, SummaryLine, Condensed, WellBuilt, Shrink, Recent;
    if messages == [] && summary == "" {
      WellBuiltBy(s, messages, summary, query, count, b.parts, []);
    } else if fits(lines) {
      WellBuiltBy(s, messages, summary, query, count, b.parts, lines);
    } else if ManyTurns(s, messages) && summary != "" {
      var kept := Shrink(fits, Recent(lines));
      ShrinkIsLongestFit(fits, Recent(lines));
      RecentIsSuffix(lines);
      SuffixOfSuffix(kept, Recent(lines), lines);
      WellBuiltBy(s, messages, summary, query, count, b.parts, kept);
    } else {
      BuildLastPath(s, messages, summary, query, count, generate);
    }
  }

  lemma NoSummary()
    ensures SummaryLine("") == []
  {
  }

  lemma LinesCount(messages: seq<Message>)
    ensures |HistoryLines(messages)| == |messages|
  {
  }

  lemma CondensedNonEmpty(generate: string -> Option<string>, summary: string, dropped: seq<string>)
    requires Condensed(generate, summary, dropped).Some?
    ensures Condensed(generate, summary, dropped).value != ""
  {
  }

  lemma BuildLastPath(
    s: Settings, messages: seq<Message>, summary: string, query: string,
    count: string -> int, generate: string -> Option<string>)
    requires messages != [] || summary != ""
    requires !Budget(s, count, summary, query)(HistoryLines(messages))
    requires !(ManyTurns(s, messages) && summary != "")
    ensures
      var b := Build(s, messages, summary, query, count, generate);
      WellBuilt(s, messages, if b.saved.Some? then b.saved.value else summary, query, count, b.parts)
      && (b.saved.Some? ==> summary == "" && b.saved.value != "" && ManyTurns(s, messages))
  {
    hide Budget, HistoryLines, SummaryLine, Condensed, WellBuilt, Shrink, Recent;
    var lines := HistoryLines(messages);
    var fits := Budget(s, count, summary, query);
    var b := Build(s, messages, summary, query, count, generate);
    var kept := Shrink(fits, lines);
    var dropped := lines[..|lines| - |kept|];
    LinesCount(messages);
    ShrinkIsLongestFit(fits, lines);
    if b.saved.Some? {
      var newer := b.saved.value;
      CondensedNonEmpty(generate, summary, dropped);
      var narrower := Budget(s, count, newer, query);
      ShrinkIsLongestFit(narrower, kept);
      SuffixOfSuffix(Shrink(narrower, kept), kept, lines);
      WellBuiltBy(s, messages, newer, query, count, b.parts, Shrink(narrower, kept));
    } else {
      WellBuiltBy(s, messages, summary, query, count, b.parts, kept);
    }
  }

  /** A stored summary condenses exactly the lines that the first shrinking dropped; all
      the other lines are returned if and only if they still fit next to the new
      summary or are at most one exchange, and otherwise some are neither condensed nor
      returned. */
  lemma SummaryAccountsForLines(
    s: Settings, messages: seq<Message>, summary: string, query: string,
    count: string -> int, generate: string -> Option<string>)
    requires Build(s, messages, summary, query, count, generate).saved.Some?
    ensures
      var b := Build(s, messages, summary, query, count, generate);
      var lines := HistoryLines(messages);
      var kept := Shrink(Budget(s, count, summary, query), lines);
      var dropped := lines[..|lines| - |kept|];
      dropped != [] && dropped + kept == lines
      && b.saved == Condensed(generate, summary, dropped)
      && (b.parts == SummaryLine(b.saved.value) + kept
          <==> Budget(s, count, b.saved.value, query)(kept) || |kept| <= 2)
  {
    var b := Build(s, messages, summary, query, count, generate);
    var fits := Budget(s, count, summary, query);
    var lines := HistoryLines(messages);
    var kept := Shrink(fits, lines);
    var narrower := Budget(s, count, b.saved.value, query);
    assert b.saved == Summarised(s, messages, summary, generate, lines[..|lines| - |kept|]);
    assert b.parts == SummaryLine(b.saved.value) + Shrink(narrower, kept);
    hide Build, Budget, HistoryLines, SummaryLine, Condensed;
    ShrinkIsLongestFit(fits, lines);
    if !(narrower(kept) || |kept| <= 2) {
      ShrinkIsLongestFit(narrower, Drop(kept, 2));
    }
  }

  // ------------------------------------------------------- what the budget is about

  /** The text whose tokens the budget limits: a history, the customer's question and the
      note that follows it in the prompt. */
  function WithQuestion(history: string, query: string): string {
    history + "\n" + "Customer: " + query + "\n"
    + "\n[Note: The current turn's assistant answer will be shown here after generation.]"
  }

  /** The whole conversation as a history. */
  function WholeHistory(messages: seq<Message>, summary: string): string {
    Join("\n",
      (if summary == "" then [] else ["[Previous conversation summary: " + summary + "]"]) + HistoryLines(messages))
  }

  lemma {:induction false} JoinAppend(sep: string, a: seq<string>, b: seq<string>)
    requires a != [] && b != []
    ensures Join(sep, a + b) == Join(sep, a) + sep + Join(sep, b)
  {
    assert (a + b)[1..] == a[1..] + b;
    if |a| > 1 {
      JoinAppend(sep, a[1..], b);
      var x, y := Join(sep, a[1..]), Join(sep, b);
      assert a[0] + sep + (x + sep + y) == (a[0] + sep + x) + sep + y;
    } else {
      assert a[1..] + b == b;
    }
  }

  lemma JoinTwo(sep: string, x: string, y: string)
    ensures Join(sep, [x, y]) == x + sep + y
  {
    assert [x, y][1..] == [y];
  }

  lemma TotalIsOfText(count: string -> int, summary: string, lines: seq<string>, query: string)
    requires summary != "" || lines != []
    ensures Total(count, summary, lines, query) == count(WithQuestion(Join("\n", SummaryLine(summary) + lines), query))
  {
    hide Join, WithQuestion;
    var parts := SummaryLine(summary) + lines;
    JoinAppend("\n", parts, ["Customer: " + query, ANSWER_NOTE]);
    JoinTwo("\n", "Customer: " + query, ANSWER_NOTE);
    QuestionLast(Join("\n", parts), query);
  }

  lemma QuestionLast(text: string, query: string)
    ensures text + "\n" + ("Customer: " + query + "\n" + ANSWER_NOTE) == WithQuestion(text, query)
  {
    var head, line := text + "\n", "Customer: " + query;
    Assoc(head, line + "\n", ANSWER_NOTE);
    Assoc(head, line, "\n");
    Assoc(head, "Customer: ", query);
  }

  /** The summary that a history begins with. */
  function InForce(b: Built, summary: string): string {
    if b.saved.Some? then b.saved.value else summary
  }

  /** How many message lines a history has. */
  function MessageLines(b: Built, summary: string): int {
    if InForce(b, summary) == "" then |b.parts| else |b.parts| - 1
  }

  /** What the budget means for the text returned: more than two message lines are returned
      only if the text fits together with the question; a whole conversation that fits is
      returned whole; and shrinking starts only, and always, when it does not fit. */
  lemma ReturnedTextFits(
    s: Settings, messages: seq<Message>, summary: string, query: string,
    count: string -> int, generate: string -> Option<string>)
    requires messages != [] || summary != ""
    ensures
      var b := Build(s, messages, summary, query, count, generate);
      var text, n, whole := Join("\n", b.parts), MessageLines(b, summary), WholeHistory(messages, summary);
      (n > 2 ==> count(WithQuestion(text, query)) <= s.budget)
      && (count(WithQuestion(whole, query)) <= s.budget ==> text == whole && b.saved == None)
      && (count(WithQuestion(whole, query)) > s.budget && |messages| > 2 ==> n < |messages|)
  {
    var lines := HistoryLines(messages);
    var b := Build(s, messages, summary, query, count, generate);
    BuildIsWellBuilt(s, messages, summary, query, count, generate);
    LinesCount(messages);
    SummaryLineIs(InForce(b, summary));
    SummaryLineIs(summary);
    TotalIsOfText(count, summary, lines, query);
    assert WholeHistory(messages, summary) == Join("\n", SummaryLine(summary) + lines);
    hide Total, Join, HistoryLines, SummaryLine, WithQuestion, Shrink, Summarised, Recent;
    var kept :| b.parts == SummaryLine(InForce(b, summary)) + kept && IsSuffix(kept, lines)
      && (Budget(s, count, InForce(b, summary), query)(kept) || |kept| <= 2);
    if |kept| > 2 {
      TotalIsOfText(count, InForce(b, summary), kept, query);
    }
    if !Budget(s, count, summary, query)(lines) && |lines| > 2 {
      ShrinksWhenOver(s, messages, summary, query, count, generate);
    }
  }

  lemma SummaryLineIs(summary: string)
    ensures SummaryLine(summary) == if summary == "" then [] else ["[Previous conversation summary: " + summary + "]"]
  {
  }

  lemma ShrinksWhenOver(
    s: Settings, messages: seq<Message>, summary: string, query: string,
    count: string -> int, generate: string -> Option<string>)
    requires |messages| > 2 && !Budget(s, count, summary, query)(HistoryLines(messages))
    ensures
      var b := Build(s, messages, summary, query, count, generate);
      MessageLines(b, summary) < |messages|
  {
    hide Budget, HistoryLines, Condensed;
    var lines, fits := HistoryLines(messages), Budget(s, count, summary, query);
    LinesCount(messages);
    var b := Build(s, messages, summary, query, count, generate);
    SummaryLineIs(summary);
    SummaryLineIs(InForce(b, summary));
    RecentIs(lines);
    assert |Shrink(fits, lines)| <= |Drop(lines, 2)|;
    if b.saved.Some? {
      CondensedNonEmpty(generate, summary, lines[..|lines| - |Shrink(fits, lines)|]);
    } else if |lines| <= 4 && ManyTurns(s, messages) && summary != "" {
      assert Recent(lines) == lines;
    }
    hide Shrink, SummaryLine;
  }

  /** With a stored summary and a long conversation, the lines considered are the last four,
      or all but the first six if that is more. */
  lemma RecentIs(lines: seq<string>)
    ensures Recent(lines) == Last(lines, if |lines| <= 10 then 4 else |lines| - 6)
  {
  }

  /** Which path is taken, in numbers: a stored summary is used for shortening, and one is
      made, only when the conversation has at least the threshold of turns, two messages
      to a turn. */
  lemma PathsByTurns(
    s: Settings, messages: seq<Message>, summary: string, query: string,
    count: string -> int, generate: string -> Option<string>)
    requires messages != [] || summary != ""
    requires count(WithQuestion(WholeHistory(messages, summary), query)) > s.budget
    ensures
      var b := Build(s, messages, summary, query, count, generate);
      (|messages| / 2 < s.thresholdTurns ==> b.saved == None)
      && (|messages| / 2 >= s.thresholdTurns && summary != "" ==>
            MessageLines(b, summary) <= (if |messages| <= 10 then 4 else |messages| - 6))
      && (|messages| / 2 < s.thresholdTurns && summary != "" ==>
            b.parts == SummaryLine(summary) + Shrink(Budget(s, count, summary, query), HistoryLines(messages)))
  {
    var lines := HistoryLines(messages);
    TotalIsOfText(count, summary, lines, query);
    SummaryLineIs(summary);
    assert WholeHistory(messages, summary) == Join("\n", SummaryLine(summary) + lines);
    assert !Budget(s, count, summary, query)(lines);
    LinesCount(messages);
    RecentIs(lines);
    hide Budget, HistoryLines, SummaryLine, Condensed, WithQuestion, WholeHistory, Total, Join, Shrink;
  }

  /** The paths of the build, with the lines returned already joined. */
  lemma BuildPaths(
    s: Settings, messages: seq<Message>, summary: string, query: string,
    count: string -> int, generate: string -> Option<string>)
    ensures
      var b := Build(s, messages, summary, query, count, generate);
      var lines, fits := HistoryLines(messages), Budget(s, count, summary, query);
      var text, kept := Join("\n", b.parts), Shrink(fits, lines);
      if messages == [] && summary == "" then text == "" && b.saved == None
      else if Total(count, summary, lines, query) <= s.budget then
        text == Join("\n", SummaryLine(summary) + lines) && b.saved == None
      else if |messages| / 2 >= s.thresholdTurns && summary != "" then
        text == Join("\n", SummaryLine(summary) + Shrink(fits, Recent(lines))) && b.saved == None
      else
        b.saved == Summarised(s, messages, summary, generate, lines[..|lines| - |kept|])
        && text == Join("\n",
             match b.saved
             case Some(newer) => SummaryLine(newer) + Shrink(Budget(s, count, newer, query), kept)
             case None => SummaryLine(summary) + kept)
  {
    hide Shrink, HistoryLines, SummaryLine, Recent, Total, Summarised;
  }

  /** A stored summary is the model's answer to the lines dropped first, which are a whole
      number of exchanges from the beginning, without the white space around it. */
  lemma SavedIsTheAnswer(
    s: Settings, messages: seq<Message>, summary: string, query: string,
    count: string -> int, generate: string -> Option<string>) returns (d: nat)
    requires Build(s, messages, summary, query, count, generate).saved.Some?
    ensures 0 < d < |messages| && d % 2 == 0
    ensures
      var answer := generate(Join("\n", HistoryLines(messages)[..d]));
      answer.Some? && Build(s, messages, summary, query, count, generate).saved == Some(Strip(answer.value))
      && Strip(answer.value) != ""
  {
    BuildIsWellBuilt(s, messages, summary, query, count, generate);
    SummaryAccountsForLines(s, messages, summary, query, count, generate);
    LinesCount(messages);
    var lines, fits := HistoryLines(messages), Budget(s, count, summary, query);
    ShrinkIsLongestFit(fits, lines);
    hide Build, HistoryLines, Budget, Shrink, WellBuilt, SummaryLine, Strip;
    d := |lines| - |Shrink(fits, lines)|;
  }

  /** _build_history.  A read that raises counts as an empty result; generate is the
      model on the text to summarise, None when it raises; `saved` is what the call
      passes to memory.summarize. */
  method BuildHistory(
    s: Settings, messagesRead: Option<seq<Message>>, summaryRead: Option<string>, query: string,
    count: string -> int, generate: string -> Option<string>)
    returns (text: string, saved: Option<string>)
    ensures
      var messages := if messagesRead.Some? then messagesRead.value else [];
      var summary := if summaryRead.Some? then summaryRead.value else "";
      text == Join("\n", Build(s, messages, summary, query, count, generate).parts)
      && saved == Build(s, messages, summary, query, count, generate).saved
  {
    hide Build, Join;
    var messages := if messagesRead.Some? then messagesRead.value else [];
    var summary := if summaryRead.Some? then summaryRead.value else "";
    text, saved := BuildFromReads(s, messages, summary, query, count, generate);
  }

  method BuildFromReads(
    s: Settings, messages: seq<Message>, summary: string, query: string,
    count: string -> int, generate: string -> Option<string>)
    returns (text: string, saved: Option<string>)
    ensures text == Join("\n", Build(s, messages, summary, query, count, generate).parts)
    ensures saved == Build(s, messages, summary, query, count, generate).saved
  {
    hide Build, Budget, Shrink, HistoryLines, SummaryLine, Recent, Total, Join, Summarised;
    BuildPaths(s, messages, summary, query, count, generate);
    text, saved := "", None;
    if messages != [] || summary != "" {
      var recent := HistoryLines(messages);
      var current := Total(count, summary, recent, query);
      if current <= s.budget {
        text := Join("\n", SummaryLine(summary) + recent);
      } else if |messages| / 2 >= s.thresholdTurns && summary != "" {
        var kept := ShrinkLoop(s, count, summary, Recent(recent), query);
        text := Join("\n", SummaryLine(summary) + kept);
      } else {
        text, saved := SummariseAndShrink(s, messages, summary, query, count, generate, recent, current);
      }
    }
  }

  /** The last path of _build_history: drop old exchanges, have them condensed if the
      conversation is long, and drop more if the new summary takes their room. */
  method SummariseAndShrink(
    s: Settings, messages: seq<Message>, summary: string, query: string,
    count: string -> int, generate: string -> Option<string>, recent: seq<string>, current: int)
    returns (text: string, saved: Option<string>)
    requires recent == HistoryLines(messages) && current == Total(count, summary, recent, query)
    ensures
      var kept := Shrink(Budget(s, count, summary, query), recent);
      saved == Summarised(s, messages, summary, generate, recent[..|recent| - |kept|])
      && text == Join("\n",
           match saved
           case Some(newer) => SummaryLine(newer) + Shrink(Budget(s, count, newer, query), kept)
           case None => SummaryLine(summary) + kept)
  {
    saved := None;
    var line := summary;
    var nKeep := FirstFit(s, count, summary, recent, query, current);
    var kept := PyTail(recent, nKeep);
    var toSummarize := if nKeep < |recent| then recent[..|recent| - nKeep] else [];
    ShrinkTwice(Budget(s, count, summary, query), recent);
    hide Shrink, Budget, Total, PyTail, SummaryLine;
    if toSummarize != [] && |messages| / 2 >= s.thresholdTurns {
      var answer := generate(Join("\n", toSummarize));
      if answer.Some? && Strip(answer.value) != "" {
        var newer := Strip(answer.value);
        if summary != "" {
          newer := summary + " | " + newer;
        }
        saved := Some(newer);
        line := newer;
      }
      kept := ShrinkLoop(s, count, line, kept, query);
    }
    text := Join("\n", SummaryLine(line) + kept);
  }

  /** Shrinking again changes nothing. */
  lemma {:induction false} ShrinkTwice(fits: seq<string> -> bool, lines: seq<string>)
    ensures Shrink(fits, Shrink(fits, lines)) == Shrink(fits, lines)
    decreases |lines|
  {
    if !(|lines| <= 2 || fits(lines)) {
      ShrinkTwice(fits, Drop(lines, 2));
    }
  }

  /** The loop over n_keep: how many of the most recent lines to keep. */
  method FirstFit(s: Settings, count: string -> int, summary: string, recent: seq<string>, query: string, current: int)
    returns (nKeep: nat)
    requires current == Total(count, summary, recent, query)
    ensures nKeep <= |recent| && PyTail(recent, nKeep) == Shrink(Budget(s, count, summary, query), recent)
    ensures nKeep == |PyTail(recent, nKeep)|
  {
    hide Shrink, Total, PyTail;
    nKeep := |recent|;
    var attempt := current;
    ghost var fits := Budget(s, count, summary, query);
    ghost var kept := recent;
    while nKeep > 2 && attempt > s.budget
      invariant 0 <= nKeep <= |recent| && (|recent| > 0 ==> nKeep > 0)
      invariant kept == Drop(recent, |recent| - nKeep) && attempt == Total(count, summary, kept, query)
      invariant Shrink(fits, kept) == Shrink(fits, recent)
    {
      ShrinkMore(fits, kept);
      nKeep := nKeep - 2;
      kept := Drop(kept, 2);
      TailIsDrop(recent, nKeep);
      attempt := Total(count, summary, PyTail(recent, nKeep), query);
    }
    TailIsDrop(recent, nKeep);
    ShrinkDone(fits, kept);
  }

  lemma ShrinkMore(fits: seq<string> -> bool, lines: seq<string>)
    requires |lines| > 2 && !fits(lines)
    ensures Shrink(fits, lines) == Shrink(fits, Drop(lines, 2))
  {
  }

  lemma ShrinkDone(fits: seq<string> -> bool, lines: seq<string>)
    ensures |lines| <= 2 || fits(lines) ==> Shrink(fits, lines) == lines
  {
  }

  /** The last n lines, where n is not 0 unless there are none. */
  lemma TailIsDrop(lines: seq<string>, n: nat)
    requires n <= |lines| && (lines != [] ==> n > 0)
    ensures PyTail(lines, n) == Drop(lines, |lines| - n)
  {
  }

  /** The loop over kept: drop the oldest exchange while more than one is left and they
      do not fit. */
  method ShrinkLoop(s: Settings, count: string -> int, summary: string, lines: seq<string>, query: string)
    returns (kept: seq<string>)
    ensures kept == Shrink(Budget(s, count, summary, query), lines)
  {
    kept := lines;
    var attempt := Total(count, summary, kept, query);
    while |kept| > 2 && attempt > s.budget
      invariant attempt == Total(count, summary, kept, query)
      invariant Shrink(Budget(s, count, summary, query), kept) == Shrink(Budget(s, count, summary, query), lines)
    {
      kept := Drop(kept, 2);
      attempt := Total(count, summary, kept, query);
    }
  }

  // ------------------------------------------------ at most one summary between clears

  /** One conversation: what memory stores about it. */
  datatype Chat = Chat(messages: seq<Message>, summary: string)

  /** Say stands for any change of the message list; in Ask, `readable` says whether
      get_summary succeeded and `stores` whether memory.summarize found the session. */
  datatype Turn =
    | Say(messages: seq<Message>)
    | Ask(query: string, generate: string -> Option<string>, readable: bool, stores: bool)
    | Wipe

  function SummaryStored(s: Settings, count: string -> int, c: Chat, t: Turn): Option<string> {
    if t.Ask? && t.stores then
      Build(s, c.messages, if t.readable then c.summary else "", t.query, count, t.generate).saved
    else None
  }

  function Advance(s: Settings, count: string -> int, c: Chat, t: Turn): Chat {
    match t
    case Say(messages) => c.(messages := messages)
    case Wipe => Chat([], "")
    case Ask(_, _, _, _) =>
      match SummaryStored(s, count, c, t)
      case Some(newer) => c.(summary := newer)
      case None => c
  }

  function AdvanceAll(s: Settings, count: string -> int, turns: seq<Turn>): Chat {
    if turns == [] then Chat([], "")
    else Advance(s, count, AdvanceAll(s, count, turns[..|turns| - 1]), turns[|turns| - 1])
  }

  /** How many summaries have been stored since the last clear. */
  function StoredSinceWipe(s: Settings, count: string -> int, turns: seq<Turn>): nat {
    if turns == [] then 0
    else
      var n := |turns| - 1;
      var stores := SummaryStored(s, count, AdvanceAll(s, count, turns[..n]), turns[n]).Some?;
      if turns[n].Wipe? then 0
      else StoredSinceWipe(s, count, turns[..n]) + (if stores then 1 else 0)
  }

  lemma StoreFillsEmpty(s: Settings, count: string -> int, c: Chat, t: Turn)
    requires t.Ask? ==> t.readable
    ensures SummaryStored(s, count, c, t).Some? ==>
      t.Ask? && c.summary == "" && SummaryStored(s, count, c, t).value != ""
  {
    if t.Ask? {
      BuildIsWellBuilt(s, c.messages, c.summary, t.query, count, t.generate);
      hide Build;
    }
  }

  /** While every get_summary succeeds, a session is summarised at most once between
      clears, and has been exactly when its stored summary is not empty. */
  lemma {:induction false} SummarisedAtMostOnce(s: Settings, count: string -> int, turns: seq<Turn>)
    requires forall t :: t in turns && t.Ask? ==> t.readable
    ensures
      StoredSinceWipe(s, count, turns) == (if AdvanceAll(s, count, turns).summary == "" then 0 else 1)
  {
    if turns != [] {
      var n := |turns| - 1;
      var t := turns[n];
      assert t in turns && forall x :: x in turns[..n] ==> x in turns;
      SummarisedAtMostOnce(s, count, turns[..n]);
      var c := AdvanceAll(s, count, turns[..n]);
      StoreFillsEmpty(s, count, c, t);
      hide SummaryStored;
    }
  }

  /** The guards of the summarising branch for an empty summary: a long conversation of more
      than one exchange that does not fit, and a model that condenses what is dropped. */
  predicate Condenses(
    s: Settings, messages: seq<Message>, query: string, count: string -> int, generate: string -> Option<string>)
  {
    var lines, fits := HistoryLines(messages), Budget(s, count, "", query);
    ManyTurns(s, messages) && |lines| > 2 && !fits(lines)
    && Condensed(generate, "", lines[..|lines| - |Shrink(fits, lines)|]).Some?
  }

  /** A summary is stored exactly when the one that was read is empty and these guards
      hold. */
  lemma StoresExactly(
    s: Settings, messages: seq<Message>, summary: string, query: string,
    count: string -> int, generate: string -> Option<string>)
    ensures
      Build(s, messages, summary, query, count, generate).saved.Some?
      <==> summary == "" && Condenses(s, messages, query, count, generate)
  {
    hide Budget, HistoryLines, SummaryLine, Condensed;
    var lines, fits := HistoryLines(messages), Budget(s, count, summary, query);
    LinesCount(messages);
    NothingDropped(fits, lines);
  }

  lemma NothingDropped(fits: seq<string> -> bool, lines: seq<string>)
    ensures
      var kept := Shrink(fits, lines);
      lines[..|lines| - |kept|] == [] <==> |lines| <= 2 || fits(lines)
  {
    if !(|lines| <= 2 || fits(lines)) {
      assert |Shrink(fits, Drop(lines, 2))| <= |lines| - 2;
    }
  }

  /** A stored, non-empty summary is replaced exactly when it could not be read and the
      conversation would be condensed if it had none. */
  lemma OverwritesExactly(s: Settings, count: string -> int, c: Chat, t: Turn)
    requires c.summary != ""
    ensures
      SummaryStored(s, count, c, t).Some?
      <==> t.Ask? && t.stores && !t.readable && Condenses(s, c.messages, t.query, count, t.generate)
  {
    if t.Ask? {
      StoresExactly(s, c.messages, if t.readable then c.summary else "", t.query, count, t.generate);
    }
    hide Build, Condenses;
  }

  // ------------------------------------------------------------------------- witnesses

  function Repeated(n: nat): seq<Message> { seq(n, i => Message("user", "hi", 0)) }

  lemma SmallBudgetCondenses(query: string)
    ensures Condenses(Settings(0, 0), Repeated(4), query, text => 1, text => Some("x"))
  {
    var s, count := Settings(0, 0), (text: string) => 1;
    var lines := HistoryLines(Repeated(4));
    LinesCount(Repeated(4));
    assert !Budget(s, count, "", query)(lines);
    assert Strip("x") == "x";
    hide Budget, HistoryLines, Shrink, Strip;
  }

  /** A conversation in which a failed read lets the second of two questions replace the
      summary that the first one stored. */
  lemma SecondSummary() returns (turns: seq<Turn>)
    ensures StoredSinceWipe(Settings(0, 0), text => 1, turns) == 2
  {
    var s, count := Settings(0, 0), (text: string) => 1;
    var generate := (text: string) => Some("x");
    var say := Say(Repeated(4));
    var first, second := Ask("q", generate, true, true), Ask("q", generate, false, true);
    SmallBudgetCondenses("q");
    StoresExactly(s, Repeated(4), "", "q", count, generate);
    hide Build, Condenses, Repeated;
    turns := [];
    AfterTurn(s, count, turns, say);
    turns := turns + [say];
    AfterTurn(s, count, turns, first);
    turns := turns + [first];
    AfterTurn(s, count, turns, second);
    turns := turns + [second];
  }

  lemma AfterTurn(s: Settings, count: string -> int, turns: seq<Turn>, t: Turn)
    requires !t.Wipe?
    ensures
      var c := AdvanceAll(s, count, turns);
      AdvanceAll(s, count, turns + [t]) == Advance(s, count, c, t)
      && StoredSinceWipe(s, count, turns + [t])
         == StoredSinceWipe(s, count, turns) + if SummaryStored(s, count, c, t).Some? then 1 else 0
  {
    assert (turns + [t])[..|turns|] == turns;
  }

  lemma {:induction false} JoinLonger(sep: string, a: seq<string>, b: seq<string>)
    requires sep != "" && a != [] && b != []
    ensures |Join(sep, a + b)| > |Join(sep, b)|
  {
    assert (a + b)[1..] == a[1..] + b;
    if |a| > 1 {
      JoinLonger(sep, a[1..], b);
    } else {
      assert a[1..] + b == b;
    }
  }

  lemma MoreLinesCostMore(s: Settings, summary: string, a: seq<string>, b: seq<string>, query: string)
    requires a != []
    ensures Total(text => |text|, summary, a + b, query) > Total(text => |text|, summary, b, query)
  {
    var tail := b + ["Customer: " + query, ANSWER_NOTE];
    assert a + b + ["Customer: " + query, ANSWER_NOTE] == a + tail;
    if summary == "" {
      assert [] + (a + b) == a + b && [] + b == b;
      JoinLonger("\n", a, tail);
    } else {
      var line := SummaryLine(summary);
      assert line + (a + b) + ["Customer: " + query, ANSWER_NOTE] == line + (a + tail);
      assert line + b + ["Customer: " + query, ANSWER_NOTE] == line + tail;
      JoinLonger("\n", a, tail);
      assert Join("\n", line + (a + tail)) == line[0] + "\n" + Join("\n", a + tail);
      assert Join("\n", line + tail) == line[0] + "\n" + Join("\n", tail);
    }
  }

  lemma SummaryCostsMore(summary: string, lines: seq<string>, query: string)
    requires summary != ""
    ensures Total(text => |text|, summary, lines, query) > Total(text => |text|, "", lines, query)
  {
    var tail := lines + ["Customer: " + query, ANSWER_NOTE];
    var line := SummaryLine(summary);
    assert line + lines + ["Customer: " + query, ANSWER_NOTE] == line + tail;
    assert [] + lines + ["Customer: " + query, ANSWER_NOTE] == tail;
    JoinLonger("\n", line, tail);
  }

  /** With one token for each character and room for exactly the last four of six lines,
      the new summary pushes out two lines that it does not cover. */
  lemma LinesCanBeLost(query: string) returns (s: Settings)
    ensures
      var messages, generate := Repeated(6), (text: string) => Some("x");
      var lines := HistoryLines(messages);
      var b := Build(s, messages, "", query, text => |text|, generate);
      b.saved == Condensed(generate, "", lines[..2]) == Some("x")
      && b.parts == SummaryLine("x") + lines[4..]
  {
    var messages, generate := Repeated(6), (text: string) => Some("x");
    var count := (text: string) => |text|;
    var lines := HistoryLines(messages);
    LinesCount(messages);
    s := Settings(Total(count, "", lines[2..], query), 0);
    var fits, narrower := Budget(s, count, "", query), Budget(s, count, "x", query);
    assert lines == lines[..2] + lines[2..];
    MoreLinesCostMore(s, "", lines[..2], lines[2..], query);
    SummaryCostsMore("x", lines[2..], query);
    assert !fits(lines) && fits(lines[2..]) && !narrower(lines[2..]);
    hide Budget, HistoryLines, Total;
    assert Drop(lines, 2) == lines[2..] && Drop(lines[2..], 2) == lines[4..];
    assert Shrink(fits, lines) == lines[2..];
    assert Shrink(narrower, lines[2..]) == lines[4..];
    assert Strip("x") == "x";
  }
}
