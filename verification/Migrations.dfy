/** Registered migrations, run upwards and rolled back downwards in version order. */
module Migrations {
  import opened Prelude

  /** Python's order of strings: lexicographic by character. */
  predicate AtMost(a: string, b: string) {
    a == "" || (b != "" && (a[0] < b[0] || (a[0] == b[0] && AtMost(a[1..], b[1..]))))
  }

  lemma {:induction false} Total(a: string, b: string)
    ensures AtMost(a, b) || AtMost(b, a)
    ensures AtMost(a, b) && AtMost(b, a) <==> a == b
  {
    if a != "" && b != "" && a[0] == b[0] {
      Total(a[1..], b[1..]);
      assert a == [a[0]] + a[1..] && b == [b[0]] + b[1..];
    }
  }

  lemma {:induction false} Transitive(a: string, b: string, c: string)
    requires AtMost(a, b) && AtMost(b, c)
    ensures AtMost(a, c)
  {
    if a != "" && a[0] == b[0] && b[0] == c[0] { Transitive(a[1..], b[1..], c[1..]); }
  }

  lemma SameStart(a: string, b: string, i: nat)
    requires 0 < i <= |a| && i <= |b| && a[..i] == b[..i]
    ensures a[0] == b[0]
  {
    assert a[..i][0] == a[0] && b[..i][0] == b[0];
  }

  /** In words: a is at most b if b begins with it, or at the first place where they differ a
      has the smaller character. */
  lemma {:induction false} LexicographicOrder(a: string, b: string)
    ensures
      AtMost(a, b)
      <==> a <= b || exists i :: 0 <= i < |a| && i < |b| && a[..i] == b[..i] && a[i] < b[i]
  {
    if a != "" && b != "" && a[0] == b[0] {
      var x, y := a[1..], b[1..];
      LexicographicOrder(x, y);
      if i :| 0 <= i < |x| && i < |y| && x[..i] == y[..i] && x[i] < y[i] {
        assert a[..i + 1] == [a[0]] + x[..i] && b[..i + 1] == [b[0]] + y[..i];
        assert a[..i + 1] == b[..i + 1] && a[i + 1] < b[i + 1];
      }
      if i :| 0 <= i < |a| && i < |b| && a[..i] == b[..i] && a[i] < b[i] {
        assert i > 0;
        assert x[..i - 1] == a[..i][1..] && y[..i - 1] == b[..i][1..];
        assert x[i - 1] < y[i - 1];
      }
      assert a == [a[0]] + x && b == [b[0]] + y;
    } else if a != "" && b != "" {
      if i :| 0 <= i < |a| && i < |b| && a[..i] == b[..i] && a[i] < b[i] {
        if i > 0 { SameStart(a, b, i); }
      }
      if a[0] < b[0] { assert a[..0] == b[..0]; }
    }
  }

  // --------------------------------------------------------------- sorted version lists

  /** Versions in increasing order, without repetition. */
  ghost predicate Increasing(vs: seq<string>) {
    forall i, j :: 0 <= i < j < |vs| ==> !AtMost(vs[j], vs[i])
  }

  predicate IsLeast(keys: set<string>, m: string) {
    m in keys && forall k :: k in keys ==> AtMost(m, k)
  }

  lemma {:induction false} LeastExists(keys: set<string>)
    requires keys != {}
    ensures exists m :: m in keys && IsLeast(keys, m)
  {
    var k :| k in keys;
    var rest := keys - {k};
    Total(k, k);
    if rest == {} {
      assert keys == {k};
      assert IsLeast(keys, k);
    } else {
      LeastExists(rest);
      var m :| m in rest && IsLeast(rest, m);
      Total(m, k);
      if AtMost(m, k) {
        assert IsLeast(keys, m);
      } else {
        forall j | j in keys ensures AtMost(k, j) {
          if j in rest { Transitive(k, m, j); }
        }
        assert IsLeast(keys, k);
      }
    }
  }

  lemma LeastIsUnique(keys: set<string>)
    ensures forall a, b :: IsLeast(keys, a) && IsLeast(keys, b) ==> a == b
  {
    forall a, b | IsLeast(keys, a) && IsLeast(keys, b) ensures a == b { Total(a, b); }
  }

  lemma LeastFirst(m: string, rest: seq<string>)
    requires Increasing(rest) && m !in rest && forall k :: k in rest ==> AtMost(m, k)
    ensures Increasing([m] + rest)
  {
    forall i | 0 <= i < |rest| ensures !AtMost(rest[i], m) { Total(m, rest[i]); }
  }

  /** Python's sorted(keys). */
  function SortedKeys(keys: set<string>): (vs: seq<string>)
    ensures Increasing(vs)
    ensures forall k :: k in keys <==> k in vs
  {
    if keys == {} then []
    else
      LeastExists(keys);
      LeastIsUnique(keys);
      var m :| m in keys && IsLeast(keys, m);
      var rest := SortedKeys(keys - {m});
      LeastFirst(m, rest);
      [m] + rest
  }

  /** The number of leading versions up to the target. */
  function Below(vs: seq<string>, target: string): (n: nat)
    ensures n <= |vs|
    ensures forall i :: 0 <= i < n ==> AtMost(vs[i], target)
    ensures n < |vs| ==> !AtMost(vs[n], target)
  {
    if vs == [] || !AtMost(vs[0], target) then 0 else 1 + Below(vs[1..], target)
  }

  /** In an increasing list they are all the versions up to the target. */
  lemma BelowSplits(vs: seq<string>, target: string)
    requires Increasing(vs)
    ensures forall i :: Below(vs, target) <= i < |vs| ==> !AtMost(vs[i], target)
  {
    var n := Below(vs, target);
    forall i | n <= i < |vs| ensures !AtMost(vs[i], target) {
      if n < i {
        Total(vs[n], vs[i]);
        if AtMost(vs[i], target) { Transitive(vs[n], vs[i], target); }
      }
    }
  }

  lemma VersionsBelow(keys: set<string>, target: string)
    ensures
      var vs := SortedKeys(keys);
      forall k :: k in vs[..Below(vs, target)] <==> k in keys && AtMost(k, target)
  {
    var vs := SortedKeys(keys);
    BelowSplits(vs, target);
  }

  /** The number of versions a run visits; the empty string sets no limit. */
  function Reach(vs: seq<string>, target: Option<string>): (n: nat)
    ensures n <= |vs|
  {
    if target.Some? && target.value != "" then Below(vs, target.value) else |vs|
  }

  lemma ReachIsTheBreak(vs: seq<string>, target: Option<string>, i: nat)
    requires i <= Reach(vs, target) && i < |vs|
    ensures target.Some? && target.value != "" && !AtMost(vs[i], target.value) <==> i == Reach(vs, target)
  {
  }

  // ------------------------------------------------------------------- runs and rollbacks

  /** What a migration function did to the database: its new state, and whether it ended
      without an exception. */
  datatype Attempt<S> = Attempt(state: S, ok: bool)

  datatype Migration<!S> = Migration(up: S -> Attempt<S>, down: Option<S -> Attempt<S>>)

  /** The state after a run or rollback, the versions done in order, and whether it ended
      without an exception. */
  datatype Outcome<S> = Outcome(state: S, done: seq<string>, ok: bool)

  /** Apply the migrations in order until one fails. */
  ghost function Ups<S>(ms: map<string, Migration<S>>, vs: seq<string>, s: S): Outcome<S>
    requires forall v <- vs :: v in ms
  {
    if vs == [] then Outcome(s, [], true)
    else
      var n := |vs| - 1;
      var before := Ups(ms, vs[..n], s);
      if !before.ok then before
      else
        var a := ms[vs[n]].up(before.state);
        Outcome(a.state, if a.ok then before.done + [vs[n]] else before.done, a.ok)
  }

  /** Undo the migrations, the last first, until one fails; one without `down` is
      passed over. */
  ghost function Downs<S>(ms: map<string, Migration<S>>, vs: seq<string>, s: S): Outcome<S>
    requires forall v <- vs :: v in ms
  {
    if vs == [] then Outcome(s, [], true)
    else
      var n := |vs| - 1;
      match ms[vs[n]].down
      case None => Downs(ms, vs[..n], s)
      case Some(down) =>
        var a := down(s);
        if !a.ok then Outcome(a.state, [], false)
        else Before([vs[n]], Downs(ms, vs[..n], a.state))
  }

  function Before<S>(done: seq<string>, o: Outcome<S>): Outcome<S> {
    o.(done := done + o.done)
  }

  /** run(target): None and the empty string both mean no limit. */
  ghost function RunTo<S>(ms: map<string, Migration<S>>, target: Option<string>, s: S): Outcome<S> {
    var vs := SortedKeys(ms.Keys);
    Ups(ms, vs[..Reach(vs, target)], s)
  }

  /** rollback(target). */
  ghost function RollbackTo<S>(ms: map<string, Migration<S>>, target: string, s: S): Outcome<S> {
    var vs := SortedKeys(ms.Keys);
    Downs(ms, vs[Below(vs, target)..], s)
  }

  /** Every migration's `down` inverts its `up`. */
  ghost predicate Inverting<S(!new)>(ms: map<string, Migration<S>>) {
    forall v :: v in ms ==>
      ms[v].down.Some? && forall s: S :: ms[v].up(s).ok ==> ms[v].down.value(ms[v].up(s).state) == Attempt(s, true)
  }

  function Reversed(vs: seq<string>): seq<string> {
    if vs == [] then [] else [vs[|vs| - 1]] + Reversed(vs[..|vs| - 1])
  }

  // --------------------------------------------------------------------------- theorems

  /** A run leaves exactly a prefix applied, all of it if and only if nothing failed; a
      failing migration is the one right after the prefix. */
  lemma {:induction false} PrefixApplied<S>(ms: map<string, Migration<S>>, vs: seq<string>, s: S)
    requires forall v <- vs :: v in ms
    ensures
      var o := Ups(ms, vs, s);
      var k := |o.done|;
      k <= |vs| && o.done == vs[..k] && (o.ok <==> k == |vs|)
      && Ups(ms, vs[..k], s).ok
      && (!o.ok ==> ms[vs[k]].up(Ups(ms, vs[..k], s).state) == Attempt(o.state, false))
  {
    assert vs[..|vs|] == vs;
    if vs != [] {
      var n := |vs| - 1;
      PrefixApplied(ms, vs[..n], s);
      var before := Ups(ms, vs[..n], s);
      if before.ok {
        LastApplied(ms, vs, n, before, s);
      } else {
        var k := |before.done|;
        assert vs[..n][..k] == vs[..k] && vs[..n][k] == vs[k];
      }
    }
  }

  lemma LastApplied<S>(ms: map<string, Migration<S>>, vs: seq<string>, n: nat, before: Outcome<S>, s: S)
    requires n == |vs| - 1 && forall v <- vs :: v in ms
    requires Ups(ms, vs[..n], s) == before && before.ok && before.done == vs[..n]
    ensures
      var a := ms[vs[n]].up(before.state);
      Ups(ms, vs, s) == Outcome(a.state, if a.ok then vs else vs[..n], a.ok)
  {
    assert vs[..n] + [vs[n]] == vs;
  }

  lemma {:induction false} FailureStays<S>(ms: map<string, Migration<S>>, vs: seq<string>, k: nat, s: S)
    requires k <= |vs| && (forall v <- vs :: v in ms) && !Ups(ms, vs[..k], s).ok
    ensures Ups(ms, vs, s) == Ups(ms, vs[..k], s)
  {
    var n := |vs| - 1;
    if k <= n {
      assert vs[..n][..k] == vs[..k];
      FailureStays(ms, vs[..n], k, s);
    } else {
      assert vs[..k] == vs;
    }
  }

  /** Running a list is running its front and then the rest. */
  lemma {:induction false} UpsAppend<S>(ms: map<string, Migration<S>>, a: seq<string>, b: seq<string>, s: S)
    requires (forall v <- a :: v in ms) && (forall v <- b :: v in ms)
    ensures
      Ups(ms, a + b, s) ==
      if Ups(ms, a, s).ok then Before(Ups(ms, a, s).done, Ups(ms, b, Ups(ms, a, s).state)) else Ups(ms, a, s)
  {
    if b == [] {
      assert a + b == a;
    } else {
      var n := |b| - 1;
      assert (a + b)[..|a| + n] == a + b[..n] && (a + b)[|a| + n] == b[n];
      UpsAppend(ms, a, b[..n], s);
      var before := Ups(ms, a, s);
      Assoc(before.done, Ups(ms, b[..n], before.state).done, [b[n]]);
    }
  }

  /** Undoing what was just applied restores the state. */
  lemma {:induction false} DownsUndoUps<S(!new)>(ms: map<string, Migration<S>>, vs: seq<string>, s: S)
    requires forall v <- vs :: v in ms
    requires Inverting(ms) && Ups(ms, vs, s).ok
    ensures Downs(ms, vs, Ups(ms, vs, s).state) == Outcome(s, Reversed(vs), true)
  {
    if vs != [] {
      DownsUndoUps(ms, vs[..|vs| - 1], s);
    }
  }

  lemma SplitRun<S(!new)>(ms: map<string, Migration<S>>, vs: seq<string>, a: seq<string>, b: seq<string>, s: S)
    requires vs == a + b && (forall v <- vs :: v in ms)
    requires Inverting(ms) && Ups(ms, vs, s).ok
    ensures Ups(ms, a, s).ok && Ups(ms, a, s).done == a && Ups(ms, vs, s).done == vs
    ensures Downs(ms, b, Ups(ms, vs, s).state) == Outcome(Ups(ms, a, s).state, Reversed(b), true)
  {
    hide Ups, Downs, Inverting, Reversed;
    assert (forall v <- a :: v in ms) && (forall v <- b :: v in ms) by {
      forall v | v in a || v in b ensures v in vs {}
    }
    UpsAppend(ms, a, b, s);
    PrefixApplied(ms, vs, s);
    PrefixApplied(ms, a, s);
    DownsUndoUps(ms, b, Ups(ms, a, s).state);
  }

  /** run() followed by rollback(v) is run(v), for every non-empty v, registered or not;
      the versions rolled back are those applied above v, in reverse. */
  lemma RollbackUndoesRun<S(!new)>(ms: map<string, Migration<S>>, v: string, s: S)
    requires v != "" && Inverting(ms) && RunTo(ms, None, s).ok
    ensures
      var whole := RunTo(ms, None, s);
      var part := RunTo(ms, Some(v), s);
      var back := RollbackTo(ms, v, whole.state);
      part.ok && back.ok && back.state == part.state && part.done <= whole.done
      && back.done == Reversed(whole.done[|part.done|..])
      && (forall k :: k in part.done <==> k in ms && AtMost(k, v))
  {
    hide Ups, Downs, Inverting, Reversed, SortedKeys, AtMost, Below;
    var vs := SortedKeys(ms.Keys);
    var n := Below(vs, v);
    assert vs[..|vs|] == vs;
    SplitRun(ms, vs, vs[..n], vs[n..], s);
    VersionsBelow(ms.Keys, v);
  }

  /** The inversion holds for exactly the non-empty targets: run("") applies everything,
      but rollback("") undoes everything. */
  lemma InversionNeedsATarget(v: string)
    ensures
      (forall ms: map<string, Migration<int>>, s: int :: Inverting(ms) && RunTo(ms, None, s).ok ==>
        RollbackTo(ms, v, RunTo(ms, None, s).state).state == RunTo(ms, Some(v), s).state)
      <==> v != ""
  {
    if v == "" {
      EmptyTargetUndoesAll();
    } else {
      forall ms: map<string, Migration<int>>, s: int | Inverting(ms) && RunTo(ms, None, s).ok
        ensures RollbackTo(ms, v, RunTo(ms, None, s).state).state == RunTo(ms, Some(v), s).state
      {
        RollbackUndoesRun(ms, v, s);
      }
    }
  }

  function Increment(): Migration<int> {
    Migration((n: int) => Attempt(n + 1, true), Some((n: int) => Attempt(n - 1, true)))
  }

  lemma EmptyTargetUndoesAll()
    ensures
      var ms := map["1" := Increment()];
      Inverting(ms) && RunTo(ms, None, 0) == RunTo(ms, Some(""), 0) == Outcome(1, ["1"], true)
      && RollbackTo(ms, "", 1) == Outcome(0, ["1"], true)
  {
    var ms := map["1" := Increment()];
    var vs := SortedKeys(ms.Keys);
    OneKey(ms.Keys, "1", vs);
    assert vs == ["1"] && Below(vs, "") == 0;
    assert ["1"][..0] == [] && vs[0..] == ["1"];
  }

  // ------------------------------------------------------------- after a failed run

  /** Every migration has a `down`, and it succeeds on every state. */
  ghost predicate Undoable<S(!new)>(ms: map<string, Migration<S>>) {
    forall v :: v in ms ==> ms[v].down.Some? && forall s: S :: ms[v].down.value(s).ok
  }

  lemma {:induction false} DownsUndoAll<S(!new)>(ms: map<string, Migration<S>>, vs: seq<string>, s: S)
    requires (forall v <- vs :: v in ms) && Undoable(ms)
    ensures Downs(ms, vs, s).ok && Downs(ms, vs, s).done == Reversed(vs)
  {
    if vs != [] {
      var n := |vs| - 1;
      DownsUndoAll(ms, vs[..n], ms[vs[n]].down.value(s).state);
    }
  }

  lemma {:induction false} ReversedLength(vs: seq<string>)
    ensures |Reversed(vs)| == |vs|
  {
    if vs != [] { ReversedLength(vs[..|vs| - 1]); }
  }

  lemma {:induction false} BelowPrefix(vs: seq<string>, k: nat, target: string)
    requires k <= |vs|
    ensures Below(vs[..k], target) == if k < Below(vs, target) then k else Below(vs, target)
  {
    if k > 0 && AtMost(vs[0], target) {
      assert vs[..k][1..] == vs[1..][..k - 1];
      BelowPrefix(vs[1..], k - 1, target);
    }
  }

  /** The versions of a list above the target. */
  function Above(vs: seq<string>, target: string): seq<string> { vs[Below(vs, target)..] }

  /** Nothing records what was applied: after a run, failed or not, rollback undoes every
      registered version above the target.  These are the versions that the run applied
      above it if and only if the run did not fail or none is registered above it. */
  lemma RollbackIgnoresFailure<S(!new)>(ms: map<string, Migration<S>>, v: string, s: S)
    requires Undoable(ms)
    ensures
      var run := RunTo(ms, None, s);
      var back := RollbackTo(ms, v, run.state);
      var vs := SortedKeys(ms.Keys);
      back.ok && back.done == Reversed(Above(vs, v))
      && (back.done == Reversed(Above(run.done, v)) <==> run.ok || Above(vs, v) == [])
  {
    hide Ups, Downs, Undoable, Reversed, SortedKeys, AtMost, Below;
    var vs := SortedKeys(ms.Keys);
    var run := RunTo(ms, None, s);
    assert vs[..|vs|] == vs;
    PrefixApplied(ms, vs, s);
    DownsUndoAll(ms, Above(vs, v), run.state);
    AboveOfPrefix(vs, |run.done|, v);
    ReversedLength(Above(vs, v));
    ReversedLength(Above(run.done, v));
  }

  /** A prefix has the same versions above the target only if it is the whole list or
      there are none. */
  lemma AboveOfPrefix(vs: seq<string>, k: nat, target: string)
    requires k <= |vs|
    ensures |Above(vs[..k], target)| == |Above(vs, target)| <==> k == |vs| || Above(vs, target) == []
    ensures Above(vs, target) == [] ==> Above(vs[..k], target) == []
    ensures k == |vs| ==> vs[..k] == vs
  {
    BelowPrefix(vs, k, target);
  }

  /** So it also undoes a migration that never took effect. */
  lemma RollbackUndoesUnapplied()
    ensures
      var ms := map["1" := Migration((n: int) => Attempt(n, false), Increment().down)];
      Undoable(ms) && Inverting(ms) && RunTo(ms, None, 0) == Outcome(0, [], false)
      && RollbackTo(ms, "", 0) == Outcome(-1, ["1"], true)
  {
    var ms := map["1" := Migration((n: int) => Attempt(n, false), Increment().down)];
    var vs := SortedKeys(ms.Keys);
    OneKey(ms.Keys, "1", vs);
    assert vs == ["1"] && Below(vs, "") == 0;
    assert ["1"][..0] == [] && vs[0..] == ["1"];
  }

  // -------------------------------------------------------------------- registering

  lemma {:induction false} IncreasingUnique(a: seq<string>, b: seq<string>)
    requires Increasing(a) && Increasing(b) && forall k :: k in a <==> k in b
    ensures a == b
  {
    if a != [] { assert a[0] in b; }
    if b != [] { assert b[0] in a; }
    if a != [] {
      FirstIsLeast(a);
      FirstIsLeast(b);
      Total(a[0], b[0]);
      TailMembers(a);
      TailMembers(b);
      IncreasingUnique(a[1..], b[1..]);
    }
  }

  lemma FirstIsLeast(a: seq<string>)
    requires a != [] && Increasing(a)
    ensures forall k :: k in a ==> AtMost(a[0], k)
  {
    forall i | 0 <= i < |a| ensures AtMost(a[0], a[i]) { Total(a[0], a[i]); }
  }

  lemma TailMembers(a: seq<string>)
    requires a != [] && Increasing(a)
    ensures Increasing(a[1..]) && forall k :: k in a[1..] <==> k in a && k != a[0]
  {
    forall k | k in a[1..] ensures k != a[0] {
      var i :| 1 <= i < |a| && a[i] == k;
      Total(k, k);
    }
  }

  lemma {:induction false} UpsAgree<S>(
    ms: map<string, Migration<S>>, ns: map<string, Migration<S>>, vs: seq<string>, s: S)
    requires forall v <- vs :: v in ms && v in ns && ms[v] == ns[v]
    ensures Ups(ms, vs, s) == Ups(ns, vs, s)
  {
    if vs != [] { UpsAgree(ms, ns, vs[..|vs| - 1], s); }
  }

  /** Registering a version, new or again, changes no run to a target below it. */
  lemma RegisterKeepsEarlierRuns<S>(
    ms: map<string, Migration<S>>, version: string, m: Migration<S>, target: string, s: S)
    requires target != "" && !AtMost(version, target)
    ensures RunTo(ms[version := m], Some(target), s) == RunTo(ms, Some(target), s)
  {
    hide Ups, SortedKeys, AtMost, Below;
    var ns := ms[version := m];
    VersionsBelow(ms.Keys, target);
    VersionsBelow(ns.Keys, target);
    var vs, ws := SortedKeys(ms.Keys), SortedKeys(ns.Keys);
    var a, b := vs[..Below(vs, target)], ws[..Below(ws, target)];
    IncreasingUnique(a, b);
    UpsAgree(ms, ns, a, s);
  }

  lemma OneKey(keys: set<string>, key: string, vs: seq<string>)
    requires keys == {key} && Increasing(vs) && forall k :: k in keys <==> k in vs
    ensures vs == [key]
  {
    Total(key, key);
    forall i | 0 <= i < |vs| ensures vs[i] == key { assert vs[i] in keys; }
    assert key in vs;
    assert AtMost(vs[|vs| - 1], vs[0]);
  }

  // ------------------------------------------------------------------ steps of the loops

  lemma NothingRun<S>(ms: map<string, Migration<S>>, s: S)
    ensures Ups(ms, [], s) == Outcome(s, [], true)
  {
  }

  lemma RunStep<S>(
    ms: map<string, Migration<S>>, vs: seq<string>, i: nat, cut: nat, s: S, before: Outcome<S>, a: Attempt<S>)
    requires i < cut <= |vs| && (forall v <- vs :: v in ms)
    requires Ups(ms, vs[..i], s) == before && before.ok
    requires a == ms[vs[i]].up(before.state)
    ensures a.ok ==> Ups(ms, vs[..i + 1], s) == Outcome(a.state, before.done + [vs[i]], true)
    ensures !a.ok ==> Ups(ms, vs[..cut], s) == Outcome(a.state, before.done, false)
  {
    assert vs[..i + 1][..i] == vs[..i];
    if !a.ok {
      assert vs[..cut][..i + 1] == vs[..i + 1];
      FailureStays(ms, vs[..cut], i + 1, s);
    }
  }

  lemma RollbackStart<S>(ms: map<string, Migration<S>>, vs: seq<string>, cut: nat, target: string, s: S)
    requires vs == SortedKeys(ms.Keys) && cut == Below(vs, target)
    ensures RollbackTo(ms, target, s) == Before([], Downs(ms, vs[cut..|vs|], s))
  {
    hide Downs, SortedKeys, Below, AtMost;
    assert vs[cut..|vs|] == vs[cut..];
  }

  lemma RollbackStep<S>(
    ms: map<string, Migration<S>>, vs: seq<string>, cut: nat, i: nat, s: S, done: seq<string>, whole: Outcome<S>)
    requires cut <= i < |vs| && (forall v <- vs :: v in ms)
    requires whole == Before(done, Downs(ms, vs[cut..i + 1], s))
    ensures
      match ms[vs[i]].down
      case None => whole == Before(done, Downs(ms, vs[cut..i], s))
      case Some(down) =>
        if down(s).ok then whole == Before(done + [vs[i]], Downs(ms, vs[cut..i], down(s).state))
        else whole == Outcome(down(s).state, done, false)
  {
    assert vs[cut..i + 1][..i - cut] == vs[cut..i] && vs[cut..i + 1][i - cut] == vs[i];
    if ms[vs[i]].down.Some? {
      Assoc(done, [vs[i]], Downs(ms, vs[cut..i], ms[vs[i]].down.value(s).state).done);
    }
  }

  lemma RollbackEnd<S>(ms: map<string, Migration<S>>, vs: seq<string>, s: S, done: seq<string>)
    requires forall v <- vs :: v in ms
    ensures vs == [] ==> Before(done, Downs(ms, vs, s)) == Outcome(s, done, true)
  {
  }

  /** The registered migrations. */
  class MigrationManager<S> {
    var migrations: map<string, Migration<S>>

    constructor ()
      ensures migrations == map[]
    {
      migrations := map[];
    }

    method Register(version: string, up: S -> Attempt<S>, down: Option<S -> Attempt<S>>)
      modifies this
      ensures migrations == old(migrations)[version := Migration(up, down)]
    {
      migrations := migrations[version := Migration(up, down)];
    }

    /** run; `ok` is false when the exception is raised again. */
    method Run(target: Option<string>, before: S) returns (state: S, applied: seq<string>, ok: bool)
      ensures Outcome(state, applied, ok) == RunTo(migrations, target, before)
    {
      hide Ups, AtMost, Below, Reach, SortedKeys;
      var versions := SortedKeys(migrations.Keys);
      state, applied, ok := before, [], true;
      NothingRun(migrations, before);
      var i := 0;
      while i < |versions|
        invariant 0 <= i <= Reach(versions, target)
        invariant Ups(migrations, versions[..i], before) == Outcome(state, applied, true)
      {
        var version := versions[i];
        ReachIsTheBreak(versions, target, i);
        if target.Some? && target.value != "" && !AtMost(version, target.value) {
          return state, applied, true;
        }
        var a := migrations[version].up(state);
        RunStep(migrations, versions, i, Reach(versions, target), before, Outcome(state, applied, true), a);
        state := a.state;
        if !a.ok {
          return state, applied, false;
        }
        applied := applied + [version];
        i := i + 1;
      }
    }

    method Rollback(target: string, before: S) returns (state: S, rolledBack: seq<string>, ok: bool)
      ensures Outcome(state, rolledBack, ok) == RollbackTo(migrations, target, before)
    {
      hide Downs, AtMost, SortedKeys, RollbackTo;
      var versions := SortedKeys(migrations.Keys);
      state, rolledBack, ok := before, [], true;
      ghost var cut := Below(versions, target);
      ghost var whole := RollbackTo(migrations, target, before);
      BelowSplits(versions, target);
      hide Below;
      RollbackStart(migrations, versions, cut, target, before);
      var i := |versions|;
      while i > 0
        invariant cut <= i <= |versions|
        invariant whole == Before(rolledBack, Downs(migrations, versions[cut..i], state))
      {
        var version := versions[i - 1];
        if AtMost(version, target) {
          break;
        }
        RollbackStep(migrations, versions, cut, i - 1, state, rolledBack, whole);
        if migrations[version].down.Some? {
          var a := migrations[version].down.value(state);
          state := a.state;
          if !a.ok {
            return state, rolledBack, false;
          }
          rolledBack := rolledBack + [version];
        }
        i := i - 1;
      }
      RollbackEnd(migrations, versions[cut..i], state, rolledBack);
    }
  }
}
