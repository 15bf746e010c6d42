/** For which parameters the window loop stops on every text.  Here the loop runs with
    Python's own indices, which may become negative when the overlap is too large. */
module WindowTermination {
  import opened Prelude
  import opened Windows

  /** An index of a slice or of rfind, made absolute and clamped as Python does. */
  function Clamp(n: nat, i: int): (j: nat)
    ensures j <= n
  {
    if i < 0 then (if i + n < 0 then 0 else i + n)
    else if i > n then n else i
  }

  function PyRFind(text: string, c: char, lo: int, hi: int): int {
    RFind(text, c, Clamp(|text|, lo), Clamp(|text|, hi))
  }

  /** The end of a window that is not the last. */
  function PyCut(text: string, size: int, start: int): int {
    var newline := PyRFind(text, '\n', start, start + size);
    if newline > start + size / 2 then newline
    else
      var space := PyRFind(text, ' ', start, start + size);
      if space > start + size / 2 then space else start + size
  }

  datatype Loop = Running(start: int) | Stopped

  /** One turn of `while start < len(text)`. */
  function Turn(text: string, size: int, overlap: int, loop: Loop): Loop {
    match loop
    case Stopped => Stopped
    case Running(start) =>
      if start >= |text| || start + size >= |text| then Stopped
      else Running(PyCut(text, size, start) - overlap)
  }

  function After(text: string, size: int, overlap: int, turns: nat): Loop {
    if turns == 0 then (if |text| <= size then Stopped else Running(0))
    else Turn(text, size, overlap, After(text, size, overlap, turns - 1))
  }

  ghost predicate Stops(text: string, size: int, overlap: int) {
    exists turns: nat :: After(text, size, overlap, turns).Stopped?
  }

  lemma OneMoreTurn(text: string, size: int, overlap: int, turns: nat)
    requires turns > 0
    ensures After(text, size, overlap, turns) == Turn(text, size, overlap, After(text, size, overlap, turns - 1))
    ensures Turn(text, size, overlap, Stopped) == Stopped
  {
  }

  lemma AtFirst(text: string, size: int, overlap: int)
    ensures After(text, size, overlap, 0) == if |text| <= size then Stopped else Running(0)
  {
  }

  lemma CutsAgree(text: string, size: nat, start: nat)
    requires start + size < |text|
    ensures PyCut(text, size, start) == CutAt(text, size, start)
  {
  }

  /** With advancing parameters every turn that does not stop moves the start forward. */
  lemma TurnAdvances(text: string, size: nat, overlap: nat, start: nat)
    requires Advancing(size, overlap) && start < |text|
    ensures
      var next := Turn(text, size, overlap, Running(start));
      next.Running? ==> start < next.start < |text|
  {
    if start + size < |text| {
      CutsAgree(text, size, start);
      SpansStep(text, size, overlap, start);
    }
  }

  lemma {:induction false} StopsOrAdvances(text: string, size: nat, overlap: nat, turns: nat)
    requires Advancing(size, overlap)
    ensures
      var loop := After(text, size, overlap, turns);
      loop.Running? ==> turns <= loop.start < |text|
  {
    hide After, Turn;
    if turns == 0 {
      AtFirst(text, size, overlap);
    } else {
      StopsOrAdvances(text, size, overlap, turns - 1);
      OneMoreTurn(text, size, overlap, turns);
      var loop := After(text, size, overlap, turns - 1);
      if loop.Running? {
        TurnAdvances(text, size, overlap, loop.start);
      }
    }
  }

  lemma AdvancingStops(text: string, size: nat, overlap: nat)
    requires Advancing(size, overlap)
    ensures Stops(text, size, overlap)
  {
    StopsOrAdvances(text, size, overlap, |text|);
    assert After(text, size, overlap, |text|).Stopped?;
  }

  /** The parameters with which the loop always stops.  A negative overlap skips text
      instead of repeating it. */
  predicate Stopping(size: int, overlap: int) {
    if overlap >= 0 then Advancing(size, overlap) else overlap < size
  }

  /** With a negative overlap less than the size the start always moves forward. */
  lemma SkippingAdvances(text: string, size: int, overlap: int, start: nat)
    requires overlap < 0 && overlap < size
    ensures
      var next := Turn(text, size, overlap, Running(start));
      next.Running? ==> start < next.start
  {
    if start < |text| && start + size < |text| {
      var newline := PyRFind(text, '\n', start, start + size);
      var space := PyRFind(text, ' ', start, start + size);
      assert newline == -1 || newline >= start;
      assert space == -1 || space >= start;
    }
  }

  lemma {:induction false} SkippingStopsOrAdvances(text: string, size: int, overlap: int, turns: nat)
    requires overlap < 0 && overlap < size
    ensures
      var loop := After(text, size, overlap, turns);
      loop.Running? ==> turns <= loop.start
  {
    hide After, Turn;
    if turns == 0 {
      AtFirst(text, size, overlap);
    } else {
      SkippingStopsOrAdvances(text, size, overlap, turns - 1);
      OneMoreTurn(text, size, overlap, turns);
      var loop := After(text, size, overlap, turns - 1);
      if loop.Running? { SkippingAdvances(text, size, overlap, loop.start); }
    }
  }

  lemma SkippingStops(text: string, size: int, overlap: int)
    requires overlap < 0 && overlap < size
    ensures Stops(text, size, overlap)
  {
    SkippingStopsOrAdvances(text, size, overlap, |text|);
    OneMoreTurn(text, size, overlap, |text| + 1);
    hide After;
    assert After(text, size, overlap, |text| + 1).Stopped?;
  }

  function Letters(n: nat): string { seq(n, i => 'x') }

  lemma LettersHaveNoCut(n: nat, size: int, start: int)
    ensures
      PyCut(Letters(n), size, start) == start + size
      || (PyCut(Letters(n), size, start) == -1 && -1 > start + size / 2)
  {
    assert PyRFind(Letters(n), '\n', start, start + size) == -1;
    assert PyRFind(Letters(n), ' ', start, start + size) == -1;
  }

  /** How far the start can get on a text without cut points when the overlap is at least
      the size. */
  function Reach(overlap: int): nat { if overlap < 0 then -overlap - 1 else 0 }

  /** A length of text that it cannot reach. */
  function Beyond(size: int, overlap: int): nat {
    Reach(overlap) + 1 + if size < 0 then 0 else size
  }

  lemma {:induction false} WideOverlapLoops(size: int, overlap: int, turns: nat)
    requires overlap >= size
    ensures
      var loop := After(Letters(Beyond(size, overlap)), size, overlap, turns);
      loop.Running? && loop.start <= Reach(overlap)
  {
    hide PyCut;
    if turns > 0 {
      var n := Beyond(size, overlap);
      WideOverlapLoops(size, overlap, turns - 1);
      LettersHaveNoCut(n, size, After(Letters(n), size, overlap, turns - 1).start);
    }
  }

  /** size letters with a newline at index overlap, and one more letter. */
  function Bump(size: nat, overlap: nat): string { seq(size + 1, i => if i == overlap then '\n' else 'x') }

  lemma BumpIsCut(size: nat, overlap: nat)
    requires size / 2 < overlap < size
    ensures |Bump(size, overlap)| == size + 1 && PyCut(Bump(size, overlap), size, 0) == overlap
  {
    var text := Bump(size, overlap);
    assert text[overlap] == '\n';
    assert PyRFind(text, '\n', 0, size) == overlap;
  }

  lemma BumpTurn(size: nat, overlap: nat)
    requires size / 2 < overlap < size
    ensures Turn(Bump(size, overlap), size, overlap, Running(0)) == Running(0)
    ensures After(Bump(size, overlap), size, overlap, 0) == Running(0)
  {
    BumpIsCut(size, overlap);
    hide PyCut, Bump;
  }

  /** An overlap between half the size and the size: the window is cut at the newline
      and restarts where it began. */
  lemma {:induction false} HalfOverlapLoops(size: nat, overlap: nat, turns: nat)
    requires size / 2 < overlap < size
    ensures After(Bump(size, overlap), size, overlap, turns) == Running(0)
  {
    hide Turn, Bump, After;
    BumpTurn(size, overlap);
    if turns > 0 {
      HalfOverlapLoops(size, overlap, turns - 1);
      OneMoreTurn(Bump(size, overlap), size, overlap, turns);
    }
  }

  /** For which integers the loop stops on every text: chunk_size >= 1 and
      chunk_overlap <= chunk_size // 2 if the overlap is not negative, and
      chunk_overlap < chunk_size if it is. */
  lemma TerminatesExactly(size: int, overlap: int)
    ensures (forall text :: Stops(text, size, overlap)) <==> Stopping(size, overlap)
  {
    hide Stops;
    if Stopping(size, overlap) {
      forall text ensures Stops(text, size, overlap) {
        if overlap < 0 { SkippingStops(text, size, overlap); } else { AdvancingStops(text, size, overlap); }
      }
    } else {
      var text := LoopingText(size, overlap);
    }
  }

  lemma LoopingText(size: int, overlap: int) returns (text: string)
    requires !Stopping(size, overlap)
    ensures !Stops(text, size, overlap)
  {
    if overlap >= size {
      text := Letters(Beyond(size, overlap));
      forall turns: nat ensures After(text, size, overlap, turns).Running? {
        WideOverlapLoops(size, overlap, turns);
      }
    } else {
      text := Bump(size, overlap);
      forall turns: nat ensures After(text, size, overlap, turns).Running? {
        HalfOverlapLoops(size, overlap, turns);
      }
    }
  }
}
