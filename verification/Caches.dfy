/** cache.py's LRUCache as a class, and the caches built on it. */
module Caches {
  import opened Prelude
  import opened Lru

  /** LRUCache.  `trace` records the operations performed, with their clock readings;
      every reading must be later than the one before. */
  class LRUCache<K(!new, ==), V> {
    const maxsize: nat
    const ttl: int
    var entries: map<K, Entry<V>>
    var access: map<K, int>
    ghost var trace: seq<Event<K, V>>

    function Contents(): Cache<K, V>
      reads this
    {
      Cache(entries, access)
    }

    ghost predicate Valid()
      reads this
    {
      Ticking(trace) && Contents() == Run(maxsize, ttl, trace)
    }

    constructor (maxsize: nat, ttl: int)
      ensures Valid() && this.maxsize == maxsize && this.ttl == ttl && trace == []
    {
      this.maxsize, this.ttl := maxsize, ttl;
      entries, access, trace := map[], map[], [];
    }

    ghost method Record(e: Event<K, V>)
      requires Ticking(trace) && Before(trace, e.now)
      requires Contents() == Step(maxsize, ttl, Run(maxsize, ttl, trace), e)
      modifies this`trace
      ensures Valid() && trace == old(trace) + [e]
    {
      trace := trace + [e];
      assert trace[..|trace| - 1] == old(trace);
    }

    method Get(key: K, now: int) returns (result: Option<V>)
      requires Valid() && Before(trace, now)
      modifies this
      ensures Valid() && trace == old(trace) + [Event(now, Op.Get(key))]
      ensures result == Found(ttl, old(Contents()), key, now)
      ensures Contents() == AfterGet(ttl, old(Contents()), key, now)
    {
      RunSane(maxsize, ttl, trace, now);
      if key !in entries {
        result := None;
      } else {
        var entry := entries[key];
        if ttl > 0 && now - entry.stamp > ttl {
          entries, access := Without(entries, key), Without(access, key);
          result := None;
        } else {
          access := access[key := now];
          result := Some(entry.value);
        }
      }
      Record(Event(now, Op.Get(key)));
    }

    method Set(key: K, value: V, now: int)
      requires Valid() && Before(trace, now)
      modifies this
      ensures Valid() && trace == old(trace) + [Event(now, Op.Set(key, value))]
      ensures Contents() == AfterSet(maxsize, old(Contents()), key, value, now)
      ensures entries.Keys == access.Keys && |entries| <= maxsize
      ensures maxsize >= 1 ==> key in entries && entries[key] == Entry(now, value)
    {
      RunSane(maxsize, ttl, trace, now);
      SetSane(maxsize, Contents(), key, value, now);
      Write(key, value, now);
      Record(Event(now, Op.Set(key, value)));
    }

    method Write(key: K, value: V, now: int)
      requires Sane(maxsize, Contents()) && Past(Contents(), now)
      modifies this`entries, this`access
      ensures Contents() == AfterSet(maxsize, old(Contents()), key, value, now)
    {
      ghost var before := Contents();
      entries := entries[key := Entry(now, value)];
      access := access[key := now];
      if |entries| > maxsize {
        InsertedDistinct(before, key, now);
        assert key in access;
        Evict();
        OnlyOneLru(before.access[key := now], Victim(before.access, key, now));
      }
    }

    /** _evict: min over the access times. */
    method Evict()
      requires access.Keys != {} && entries.Keys == access.Keys
      modifies this`entries, this`access
      ensures exists x :: IsLru(old(access), x) && Contents() == Dropped(old(Contents()), x)
    {
      var oldest :| oldest in access;
      var rest := access.Keys - {oldest};
      while rest != {}
        invariant rest <= access.Keys && oldest in access
        invariant forall k :: k in access && k !in rest ==> access[oldest] <= access[k]
        decreases rest
      {
        var k :| k in rest;
        if access[k] < access[oldest] {
          oldest := k;
        }
        rest := rest - {k};
      }
      assert IsLru(access, oldest);
      entries, access := Without(entries, oldest), Without(access, oldest);
    }

    method Clear(now: int)
      requires Valid() && Before(trace, now)
      modifies this
      ensures Valid() && trace == old(trace) + [Event(now, Op.Clear)] && entries == map[]
    {
      entries, access := map[], map[];
      Record(Event(now, Op.Clear));
    }
  }

  lemma InsertedDistinct<K(!new), V>(c: Cache<K, V>, k: K, now: int)
    requires Apart(c.access) && Past(c, now)
    ensures Apart(c.access[k := now])
  {
  }

  lemma OnlyOneLru<K(!new)>(access: map<K, int>, x: K)
    requires IsLru(access, x)
    requires Apart(access)
    ensures forall y :: IsLru(access, y) ==> y == x
  {
    forall y | IsLru(access, y) ensures y == x {
      assert access[x] <= access[y] && access[y] <= access[x];
    }
  }

  // -------------------------------------------------------------- response cache

  /** SHA-256 as an injective function into digests. */
  ghost predicate Injective<K(!new)>(digest: string -> K) {
    forall a, b :: digest(a) == digest(b) ==> a == b
  }

  function Cut(preview: string): string {
    if |preview| <= 200 then preview else preview[..200]
  }

  /** What ResponseCache._make_key hashes. */
  function RawKey(sessionId: string, query: string, preview: string): string {
    sessionId + "|" + query + "|" + Cut(preview)
  }

  predicate IsIdChar(c: char) {
    'a' <= c <= 'z' || 'A' <= c <= 'Z' || '0' <= c <= '9' || c == '.' || c == '_' || c == '-'
  }

  /** Session ids accepted by the request schema: letters, digits, dot, dash, underscore;
      Python's `$` also lets one newline stand at the end. */
  predicate ValidSessionId(id: string) {
    var body := if id != "" && id[|id| - 1] == '\n' then id[..|id| - 1] else id;
    body != "" && forall i :: 0 <= i < |body| ==> IsIdChar(body[i])
  }

  lemma {:induction false} SplitAtFirstBar(a: string, x: string, b: string, y: string)
    requires '|' !in a && '|' !in b
    ensures a + "|" + x == b + "|" + y <==> a == b && x == y
  {
    var l, r := a + "|" + x, b + "|" + y;
    if l == r {
      assert l[|a|] == '|' && r[|b|] == '|';
      assert forall i :: 0 <= i < |b| ==> r[i] == b[i] != '|';
      assert forall i :: 0 <= i < |a| ==> l[i] == a[i] != '|';
      assert |a| == |b|;
      assert a == l[..|a|] && b == r[..|b|];
      assert x == l[|a| + 1..] && y == r[|b| + 1..];
    }
  }

  lemma ValidIdHasNoBar(id: string)
    requires ValidSessionId(id)
    ensures '|' !in id
  {
    var body := if id != "" && id[|id| - 1] == '\n' then id[..|id| - 1] else id;
    forall i | 0 <= i < |id| ensures id[i] != '|' {
      if i < |body| { assert IsIdChar(body[i]); }
    }
  }

  /** Keys separate sessions completely; within a session they separate the text
      "query|context", so two requests share a key if and only if that text agrees. */
  lemma KeysAgreeExactly(s1: string, q1: string, p1: string, s2: string, q2: string, p2: string)
    requires ValidSessionId(s1) && ValidSessionId(s2)
    ensures
      RawKey(s1, q1, p1) == RawKey(s2, q2, p2)
      <==> s1 == s2 && q1 + "|" + Cut(p1) == q2 + "|" + Cut(p2)
  {
    ValidIdHasNoBar(s1);
    ValidIdHasNoBar(s2);
    SplitAtFirstBar(s1, q1 + "|" + Cut(p1), s2, q2 + "|" + Cut(p2));
    assert RawKey(s1, q1, p1) == s1 + "|" + (q1 + "|" + Cut(p1));
    assert RawKey(s2, q2, p2) == s2 + "|" + (q2 + "|" + Cut(p2));
  }

  /** For queries without the separator the key identifies query and context. */
  lemma KeysIdentifyBarFreeQueries(s1: string, q1: string, p1: string, s2: string, q2: string, p2: string)
    requires ValidSessionId(s1) && ValidSessionId(s2) && '|' !in q1 && '|' !in q2
    ensures RawKey(s1, q1, p1) == RawKey(s2, q2, p2) <==> s1 == s2 && q1 == q2 && Cut(p1) == Cut(p2)
  {
    KeysAgreeExactly(s1, q1, p1, s2, q2, p2);
    SplitAtFirstBar(q1, Cut(p1), q2, Cut(p2));
  }

  /** A query that goes on from another after a separator, by few enough characters for
      the rest of it to fit into the context part of the key. */
  predicate Extends(q: string, longer: string) {
    q + "|" <= longer && |longer| - |q| <= 200
  }

  /** Which queries of one session can share an entry under some contexts: the same query,
      or one that extends the other. */
  lemma QueriesCollideExactly(s: string, q1: string, q2: string)
    requires ValidSessionId(s)
    ensures
      (exists p1, p2 :: RawKey(s, q1, p1) == RawKey(s, q2, p2))
      <==> q1 == q2 || Extends(q1, q2) || Extends(q2, q1)
  {
    if p1, p2 :| RawKey(s, q1, p1) == RawKey(s, q2, p2) {
      KeysAgreeExactly(s, q1, p1, s, q2, p2);
      if |q1| <= |q2| {
        AgreeingTextsExtend(q1, Cut(p1), q2, Cut(p2));
      } else {
        AgreeingTextsExtend(q2, Cut(p2), q1, Cut(p1));
      }
    }
    if q1 == q2 {
      assert RawKey(s, q1, "") == RawKey(s, q2, "");
    }
    if Extends(q1, q2) { ExtendingQueriesCollide(s, q1, q2); }
    if Extends(q2, q1) { ExtendingQueriesCollide(s, q2, q1); }
  }

  lemma AgreeingTextsExtend(q: string, p: string, longer: string, r: string)
    requires q + "|" + p == longer + "|" + r && |q| <= |longer| && |p| <= 200
    ensures q == longer || Extends(q, longer)
  {
    var text := q + "|" + p;
    assert q == text[..|q|] && longer == text[..|longer|];
    if |q| < |longer| {
      assert q + "|" == text[..|q| + 1];
      assert |text| == |longer| + 1 + |r|;
    }
  }

  /** The contexts that make them collide: what the longer query adds, and nothing. */
  lemma ExtendingQueriesCollide(s: string, q: string, longer: string)
    requires Extends(q, longer)
    ensures RawKey(s, q, longer[|q| + 1..] + "|") == RawKey(s, longer, "")
  {
    var rest := longer[|q| + 1..];
    assert longer == q + "|" + rest;
    assert |rest + "|"| <= 200 && Cut(rest + "|") == rest + "|" && Cut("") == "";
    assert s + "|" + q + "|" + (rest + "|") == s + "|" + (q + "|" + rest) + "|" + "";
  }

  /** For example, two different questions of one session that share an entry. */
  lemma KeysCollideWithinASession()
    ensures RawKey("s", "a|b", "c") == RawKey("s", "a", "b|c")
  {
    assert RawKey("s", "a|b", "c") == "s|a|b|c" == RawKey("s", "a", "b|c");
  }

  datatype Request =
    | Lookup(session: string, query: string, preview: string)
    | Store(session: string, query: string, preview: string, response: string)
    | Reset

  datatype Timed = Timed(now: int, request: Request)

  function KeyOf(r: Request): string
    requires !r.Reset?
  {
    RawKey(r.session, r.query, r.preview)
  }

  function LowerOne<K>(digest: string -> K, t: Timed): Event<K, string> {
    Event(t.now,
      match t.request
      case Lookup(_, _, _) => Op.Get(digest(KeyOf(t.request)))
      case Store(_, _, _, response) => Op.Set(digest(KeyOf(t.request)), response)
      case Reset => Op.Clear)
  }

  /** ResponseCache's calls as the calls it makes on its LRUCache. */
  function Lower<K>(digest: string -> K, calls: seq<Timed>): seq<Event<K, string>> {
    seq(|calls|, i requires 0 <= i < |calls| => LowerOne(digest, calls[i]))
  }

  lemma {:induction false} LastSetAt<K(!new), V>(trace: seq<Event<K, V>>, k: K) returns (i: nat)
    requires LastSet(trace, k).Some?
    ensures i < |trace| && trace[i] == Event(LastSet(trace, k).value.stamp, Op.Set(k, LastSet(trace, k).value.value))
    ensures forall j :: i < j < |trace| ==> !trace[j].op.Clear? && !(trace[j].op.Set? && trace[j].op.key == k)
  {
    var n := |trace| - 1;
    if trace[n].op.Set? && trace[n].op.key == k {
      i := n;
    } else {
      i := LastSetAt(trace[..n], k);
    }
  }

  /** What ResponseCache.get returns after a run of calls. */
  ghost function Reply<K(!new)>(
    digest: string -> K, size: nat, ttl: int, calls: seq<Timed>,
    session: string, query: string, preview: string, now: int)
    : Option<string>
  {
    Found(ttl, Run(size, ttl, Lower(digest, calls)), digest(RawKey(session, query, preview)), now)
  }

  /** Calls come from validated requests. */
  predicate ValidCalls(calls: seq<Timed>) {
    forall t :: t in calls && t.request.Store? ==> ValidSessionId(t.request.session)
  }

  /** No run of the response cache returns one session's reply to another: a hit is the
      reply most recently stored, by the same session, under the same "query|context". */
  lemma RepliesStayInTheirSession<K(!new)>(
    digest: string -> K, size: nat, ttl: int, calls: seq<Timed>,
    session: string, query: string, preview: string, now: int)
    returns (i: nat)
    requires Injective(digest) && ValidSessionId(session) && ValidCalls(calls)
    requires Reply(digest, size, ttl, calls, session, query, preview, now).Some?
    ensures i < |calls| && calls[i].request.Store? && calls[i].request.session == session
    ensures calls[i].request.query + "|" + Cut(calls[i].request.preview) == query + "|" + Cut(preview)
    ensures Reply(digest, size, ttl, calls, session, query, preview, now) == Some(calls[i].request.response)
    ensures ttl > 0 ==> now - calls[i].now <= ttl
    ensures forall j :: i < j < |calls| && calls[j].request.Store? ==>
      KeyOf(calls[j].request) != RawKey(session, query, preview)
  {
    var trace := Lower(digest, calls);
    var key := RawKey(session, query, preview);
    HitsAreSound(size, ttl, trace, digest(key), now);
    i := LastSetAt(trace, digest(key));
    var r := calls[i].request;
    assert trace[i] == LowerOne(digest, calls[i]);
    assert digest(KeyOf(r)) == digest(key);
    KeysAgreeExactly(r.session, r.query, r.preview, session, query, preview);
    forall j | i < j < |calls| && calls[j].request.Store?
      ensures KeyOf(calls[j].request) != key
    {
      assert trace[j] == LowerOne(digest, calls[j]);
    }
  }

  lemma {:induction false} LastSetFrom<K(!new), V>(trace: seq<Event<K, V>>, k: K, v: V, i: nat)
    requires i < |trace| && trace[i].op == Op.Set(k, v)
    requires forall j :: i < j < |trace| ==> !trace[j].op.Clear? && !(trace[j].op.Set? && trace[j].op.key == k)
    ensures LastSet(trace, k) == Some(Entry(trace[i].now, v))
    decreases |trace|
  {
    var n := |trace| - 1;
    if i < n {
      assert trace[..n][i] == trace[i];
      LastSetFrom(trace[..n], k, v, i);
    }
  }

  lemma {:induction false} OthersSinceFrom<K(!new), V>(trace: seq<Event<K, V>>, k: K, i: nat)
    requires i < |trace| && trace[i].op.Set? && trace[i].op.key == k
    ensures |OthersSince(trace, k)| <= |trace| - 1 - i
    decreases |trace|
  {
    var n := |trace| - 1;
    if i < n {
      assert trace[..n][i] == trace[i];
      OthersSinceFrom(trace[..n], k, i);
      if !trace[n].op.Clear? { OneMore(OthersSince(trace[..n], k), trace[n].op.key, k); }
    }
  }

  lemma OneMore<K>(keys: set<K>, j: K, k: K)
    ensures |keys + ({j} - {k})| <= |keys| + 1
  {
    SubsetSize(keys + ({j} - {k}), keys + {j});
  }

  /** A stored reply is returned for the same question as long as it is no older than the
      ttl, nothing was stored under its key since, and fewer than maxsize calls were
      made since. */
  lemma RepliesAreFound<K(!new)>(
    digest: string -> K, size: nat, ttl: int, calls: seq<Timed>, i: nat, now: int)
    requires Injective(digest) && i < |calls| && calls[i].request.Store? && |calls| - i <= size
    requires forall j, k :: 0 <= j < k < |calls| ==> calls[j].now < calls[k].now
    requires forall j :: 0 <= j < |calls| ==> calls[j].now < now
    requires ttl <= 0 || now - calls[i].now <= ttl
    requires forall j :: i < j < |calls| ==>
      !calls[j].request.Reset? && !(calls[j].request.Store? && KeyOf(calls[j].request) == KeyOf(calls[i].request))
    ensures
      var r := calls[i].request;
      Reply(digest, size, ttl, calls, r.session, r.query, r.preview, now) == Some(r.response)
  {
    var trace, r := Lower(digest, calls), calls[i].request;
    assert forall j :: 0 <= j < |calls| ==> trace[j] == LowerOne(digest, calls[j]);
    LastSetFrom(trace, digest(KeyOf(r)), r.response, i);
    OthersSinceFrom(trace, digest(KeyOf(r)), i);
    hide Run, Found;
    FreshIsFound(size, ttl, trace, digest(KeyOf(r)), now);
  }

  // ------------------------------------------------------------------ memo tables

  /** Every entry is the value of the function the table remembers. */
  ghost predicate Faithful<K(!new), V(!new)>(entries: map<K, Entry<V>>, digest: string -> K, f: string -> V) {
    forall text :: digest(text) in entries ==> entries[digest(text)].value == f(text)
  }

  lemma FaithfulDrop<K(!new), V(!new)>(c: Cache<K, V>, k: K, digest: string -> K, f: string -> V)
    requires Faithful(c.entries, digest, f)
    ensures Faithful(Dropped(c, k).entries, digest, f)
  {
  }

  /** Looking up and storing f's own values keeps a table faithful, whatever is evicted
      or expires in between, and what is found is the value. */
  lemma FaithfulGet<K(!new), V(!new)>(
    ttl: int, c: Cache<K, V>, text: string, now: int, digest: string -> K, f: string -> V)
    requires Injective(digest) && Faithful(c.entries, digest, f)
    ensures Faithful(AfterGet(ttl, c, digest(text), now).entries, digest, f)
    ensures
      var found := Found(ttl, c, digest(text), now);
      found.Some? ==> found.value == f(text)
  {
    FaithfulDrop(c, digest(text), digest, f);
  }

  lemma FaithfulSet<K(!new), V(!new)>(
    size: nat, c: Cache<K, V>, text: string, now: int, digest: string -> K, f: string -> V)
    requires Injective(digest) && Faithful(c.entries, digest, f)
    ensures Faithful(AfterSet(size, c, digest(text), f(text), now).entries, digest, f)
  {
    var key := digest(text);
    var d := Inserted(c, key, f(text), now);
    assert Faithful(d.entries, digest, f);
    hide Inserted, Faithful;
    FaithfulDrop(d, Victim(c.access, key, now), digest, f);
  }

  /** Every set of the trace stores f's value under the digest of its argument. */
  ghost predicate Memoises<K(!new), V(!new)>(trace: seq<Event<K, V>>, digest: string -> K, f: string -> V) {
    forall e :: e in trace && e.op.Set? ==> exists text :: e.op == Op.Set(digest(text), f(text))
  }

  /** A memo table agrees with the function it remembers: on every trace, of any length
      and at any times, whatever is evicted or expires in between, a hit is the value. */
  lemma {:induction false} HitsAreValues<K(!new), V(!new)>(
    size: nat, ttl: int, trace: seq<Event<K, V>>, digest: string -> K, f: string -> V, text: string, now: int)
    requires Injective(digest) && Memoises(trace, digest, f)
    requires Found(ttl, Run(size, ttl, trace), digest(text), now).Some?
    ensures Found(ttl, Run(size, ttl, trace), digest(text), now) == Some(f(text))
  {
    HitsAreSound(size, ttl, trace, digest(text), now);
    var i := LastSetAt(trace, digest(text));
    hide Run, Found, LastSet;
    assert trace[i] in trace;
    var t :| trace[i].op == Op.Set(digest(t), f(t));
    assert t == text;
  }
}
