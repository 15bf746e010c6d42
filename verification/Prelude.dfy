/** Small shared vocabulary: options, Python slices and string helpers. */
module Prelude {
  datatype Option<+T> = None | Some(value: T)

  /** Python's `xs[-n:]`: the last n elements for n > 0, the whole list for n == 0
      (because -0 is 0), and all but the first |n| elements for n < 0. */
  function PyTail<T>(xs: seq<T>, n: int): seq<T> {
    if n > 0 then (if n < |xs| then xs[|xs| - n..] else xs)
    else if -n < |xs| then xs[-n..] else []
  }

  /** The last n elements, as a reader would define "the last n". */
  function Last<T>(xs: seq<T>, n: nat): seq<T> {
    if n < |xs| then xs[|xs| - n..] else xs
  }

  predicate IsSuffix<T(==)>(s: seq<T>, xs: seq<T>) {
    |s| <= |xs| && s == xs[|xs| - |s|..]
  }

  lemma SliceOfSlice<T>(s: seq<T>, a: nat, b: nat, lo: nat, hi: nat)
    requires a <= b <= |s| && lo <= hi <= b - a
    ensures s[a..b][lo..hi] == s[a + lo..a + hi]
  {
    var inner, outer := s[a..b][lo..hi], s[a + lo..a + hi];
    forall k | 0 <= k < hi - lo ensures inner[k] == outer[k] {
      assert inner[k] == s[a..b][lo + k];
    }
  }

  lemma SuffixSnoc<T>(s: seq<T>, b: nat)
    requires b < |s|
    ensures s[b..] == s[..|s| - 1][b..] + [s[|s| - 1]]
  {
  }

  lemma SubsetSize<T>(a: set<T>, b: set<T>)
    requires a <= b
    ensures |a| <= |b|
  {
    assert b == a + (b - a);
  }

  function Concat<T>(parts: seq<seq<T>>): seq<T> {
    if parts == [] then [] else parts[0] + Concat(parts[1..])
  }

  lemma {:induction false} ConcatAppend<T>(a: seq<seq<T>>, b: seq<seq<T>>)
    ensures Concat(a + b) == Concat(a) + Concat(b)
  {
    if a == [] {
      assert a + b == b;
    } else {
      ConcatAppend(a[1..], b);
      assert (a + b)[1..] == a[1..] + b && (a + b)[0] == a[0];
      assert a[0] + (Concat(a[1..]) + Concat(b)) == (a[0] + Concat(a[1..])) + Concat(b);
    }
  }

  lemma Assoc<T>(a: seq<T>, b: seq<T>, c: seq<T>)
    ensures a + b + c == a + (b + c)
  {
  }

  lemma ConcatSnoc<T>(a: seq<seq<T>>, p: seq<T>)
    ensures Concat(a + [p]) == Concat(a) + p
  {
    ConcatAppend(a, [p]);
    assert Concat([p]) == p + Concat<T>([]);
  }

  /** Python's "sep.join(parts)". */
  function Join(sep: string, parts: seq<string>): string {
    if parts == [] then ""
    else if |parts| == 1 then parts[0]
    else parts[0] + sep + Join(sep, parts[1..])
  }

  /** Python's str.split(c) and JavaScript's split(c) for a one-character separator:
      always at least one piece. */
  function Split(c: char, s: string): (pieces: seq<string>)
    ensures |pieces| >= 1
  {
    if s == "" then [""]
    else
      var rest := Split(c, s[1..]);
      if s[0] == c then [""] + rest
      else [[s[0]] + rest[0]] + rest[1..]
  }

  /** The characters str.strip() removes and the regular expression \s matches. */
  predicate IsSpace(c: char) {
    || '\t' <= c <= '\r' || '\U{1c}' <= c <= '\U{20}'
    || c == '\U{85}' || c == '\U{a0}' || c == '\U{1680}'
    || '\U{2000}' <= c <= '\U{200a}' || c == '\U{2028}' || c == '\U{2029}'
    || c == '\U{202f}' || c == '\U{205f}' || c == '\U{3000}'
  }

  function LeftBlanks(s: string): (n: nat)
    ensures n <= |s|
    ensures forall i :: 0 <= i < n ==> IsSpace(s[i])
    ensures n < |s| ==> !IsSpace(s[n])
  {
    if s == "" || !IsSpace(s[0]) then 0 else 1 + LeftBlanks(s[1..])
  }

  /** One past the last non-blank character, but never before lo. */
  function RightEnd(s: string, lo: nat): (n: nat)
    requires lo <= |s|
    ensures lo <= n <= |s|
    ensures forall i :: n <= i < |s| ==> IsSpace(s[i])
    ensures lo < n ==> !IsSpace(s[n - 1])
    decreases |s|
  {
    if lo == |s| || !IsSpace(s[|s| - 1]) then |s| else RightEnd(s[..|s| - 1], lo)
  }

  /** Python's str.strip(). */
  function Strip(s: string): string {
    var lo := LeftBlanks(s);
    s[lo..RightEnd(s, lo)]
  }

  lemma StripEnds(c: string)
    ensures
      var t := Strip(c);
      (forall d :: d in t ==> d in c) && (t != "" ==> !IsSpace(t[0]) && !IsSpace(t[|t| - 1]))
  {
    hide IsSpace;
  }

  /** Python's s.split(): the maximal runs of non-blank characters, where `word` is the
      run read so far. */
  function Words(s: string, word: string): seq<string> {
    if s == "" then Flush(word)
    else if IsSpace(s[0]) then Flush(word) + Words(s[1..], "")
    else Words(s[1..], word + [s[0]])
  }

  function Flush(word: string): seq<string> { if word == "" then [] else [word] }

  /** Python's dict.update / Dafny map removal of one key. */
  function Without<K, V>(m: map<K, V>, k: K): (r: map<K, V>)
    ensures r.Keys == m.Keys - {k}
    ensures forall j :: j in r ==> r[j] == m[j]
    ensures k in m ==> |r| == |m| - 1
    ensures k !in m ==> r == m
  {
    var r := m - {k};
    assert k in m ==> r.Keys == m.Keys - {k};
    r
  }
}
