/** The LRU cache with time-to-live, on values: one clock reading per operation,
    strictly increasing along a trace. */
module Lru {
  import opened Prelude

  datatype Entry<V> = Entry(stamp: int, value: V)

  /** `entries` is self._cache and `access` is self._access. */
  datatype Cache<K(==), V> = Cache(entries: map<K, Entry<V>>, access: map<K, int>)

  datatype Op<K(==), V> = Get(key: K) | Set(key: K, value: V) | Clear

  datatype Event<K(==), V> = Event(now: int, op: Op<K, V>)

  function Empty<K, V>(): Cache<K, V> { Cache(map[], map[]) }

  predicate Stale<V>(ttl: int, e: Entry<V>, now: int) { ttl > 0 && now - e.stamp > ttl }

  function Dropped<K, V>(c: Cache<K, V>, k: K): Cache<K, V> {
    Cache(Without(c.entries, k), Without(c.access, k))
  }

  function AfterGet<K, V>(ttl: int, c: Cache<K, V>, k: K, now: int): Cache<K, V> {
    if k !in c.entries then c
    else if Stale(ttl, c.entries[k], now) then Dropped(c, k)
    else c.(access := c.access[k := now])
  }

  /** What get returns. */
  function Found<K, V>(ttl: int, c: Cache<K, V>, k: K, now: int): Option<V> {
    if k !in c.entries || Stale(ttl, c.entries[k], now) then None else Some(c.entries[k].value)
  }

  predicate IsLru<K>(access: map<K, int>, k: K) {
    k in access && forall j :: j in access ==> access[k] <= access[j]
  }

  /** The key with the least access time; along a trace there is only one. */
  ghost function Lru<K(!new)>(access: map<K, int>): (k: K)
    requires access != map[]
    ensures IsLru(access, k)
  {
    LruExists(access);
    var k :| IsLru(access, k);
    k
  }

  lemma {:induction false} LruExists<K(!new)>(access: map<K, int>)
    requires access != map[]
    ensures exists k :: IsLru(access, k)
    decreases |access|
  {
    var k :| k in access;
    var rest := Without(access, k);
    if rest == map[] {
      assert rest.Keys == {};
      assert IsLru(access, k);
    } else {
      LruExists(rest);
      var j :| IsLru(rest, j);
      var m := if access[k] <= access[j] then k else j;
      assert IsLru(access, m) by {
        forall i | i in access ensures access[m] <= access[i] { if i != k { assert i in rest; } }
      }
    }
  }

  /** The key a full cache evicts when it has just stored k. */
  ghost function Victim<K(!new)>(access: map<K, int>, k: K, now: int): (x: K)
    ensures IsLru(access[k := now], x)
  {
    assert k in access[k := now];
    Lru(access[k := now])
  }

  function Inserted<K, V>(c: Cache<K, V>, k: K, v: V, now: int): Cache<K, V> {
    Cache(c.entries[k := Entry(now, v)], c.access[k := now])
  }

  ghost function AfterSet<K(!new), V>(size: nat, c: Cache<K, V>, k: K, v: V, now: int): Cache<K, V> {
    var d := Inserted(c, k, v, now);
    if |d.entries| > size then Dropped(d, Victim(c.access, k, now)) else d
  }

  ghost function Step<K(!new), V>(size: nat, ttl: int, c: Cache<K, V>, e: Event<K, V>): Cache<K, V> {
    match e.op
    case Get(k) => AfterGet(ttl, c, k, e.now)
    case Set(k, v) => AfterSet(size, c, k, v, e.now)
    case Clear => Empty()
  }

  /** The cache after a trace; the last event is the most recent. */
  ghost function Run<K(!new), V>(size: nat, ttl: int, trace: seq<Event<K, V>>): Cache<K, V> {
    if trace == [] then Empty()
    else Step(size, ttl, Run(size, ttl, trace[..|trace| - 1]), trace[|trace| - 1])
  }

  predicate Ticking<K, V>(trace: seq<Event<K, V>>) {
    forall i, j :: 0 <= i < j < |trace| ==> trace[i].now < trace[j].now
  }

  /** Every reading so far is before now. */
  predicate Before<K, V>(trace: seq<Event<K, V>>, now: int) {
    forall i :: 0 <= i < |trace| ==> trace[i].now < now
  }

  lemma TickingSplit<K, V>(trace: seq<Event<K, V>>)
    requires trace != [] && Ticking(trace)
    ensures Ticking(trace[..|trace| - 1]) && Before(trace[..|trace| - 1], trace[|trace| - 1].now)
  {
  }

  ghost predicate Apart<K(!new)>(access: map<K, int>) {
    forall i, j :: i in access && j in access && i != j ==> access[i] != access[j]
  }

  /** The invariant: equal key sets within the size, access times all different and
      before any later reading. */
  ghost predicate Sane<K(!new), V>(size: nat, c: Cache<K, V>) {
    c.entries.Keys == c.access.Keys
    && |c.entries| <= size
    && Apart(c.access)
  }

  ghost predicate Past<K(!new), V>(c: Cache<K, V>, now: int) {
    forall k :: k in c.access ==> c.access[k] < now
  }

  lemma InsertedSize<K, V>(m: map<K, V>, k: K, v: V)
    ensures |m[k := v]| == if k in m then |m| else |m| + 1
  {
    if k in m {
      assert m[k := v].Keys == m.Keys;
    } else {
      assert m[k := v].Keys == m.Keys + {k};
    }
  }

  lemma InsertedSane<K(!new), V>(size: nat, c: Cache<K, V>, k: K, v: V, now: int)
    requires Sane(size, c) && Past(c, now)
    ensures
      var d := Inserted(c, k, v, now);
      d.entries.Keys == d.access.Keys && |d.entries| <= size + 1
      && Apart(d.access)
      && (forall j :: j in d.access ==> d.access[j] <= now)
  {
    InsertedSize(c.entries, k, Entry(now, v));
    assert Inserted(c, k, v, now).entries.Keys == Inserted(c, k, v, now).access.Keys;
  }

  /** The key just stored has the latest access time, so it is the victim only if it is
      alone. */
  lemma VictimIsOlder<K(!new), V>(size: nat, c: Cache<K, V>, k: K, v: V, now: int)
    requires Sane(size, c) && Past(c, now) && |Inserted(c, k, v, now).entries| > size >= 1
    ensures Victim(c.access, k, now) != k
  {
    var d := Inserted(c, k, v, now);
    var others := d.entries.Keys - {k};
    assert |others| >= |d.entries.Keys| - 1 >= 1;
    var j :| j in others;
    assert d.access[j] < d.access[k];
  }

  lemma SetSane<K(!new), V>(size: nat, c: Cache<K, V>, k: K, v: V, now: int)
    requires Sane(size, c) && Past(c, now)
    ensures Sane(size, AfterSet(size, c, k, v, now))
    ensures forall j :: j in AfterSet(size, c, k, v, now).access ==> AfterSet(size, c, k, v, now).access[j] <= now
    ensures size >= 1 ==> k in AfterSet(size, c, k, v, now).entries
  {
    hide Inserted, IsLru;
    InsertedSane(size, c, k, v, now);
    var d := Inserted(c, k, v, now);
    if |d.entries| > size {
      var x := Victim(c.access, k, now);
      VictimInside(c, k, v, now);
      assert |Without(d.entries, x)| == |d.entries| - 1;
      if size >= 1 { VictimIsOlder(size, c, k, v, now); }
    }
    StoredKey(c, k, v, now);
  }

  lemma VictimInside<K(!new), V>(c: Cache<K, V>, k: K, v: V, now: int)
    requires c.entries.Keys == c.access.Keys
    ensures Victim(c.access, k, now) in Inserted(c, k, v, now).entries
  {
  }

  lemma StoredKey<K, V>(c: Cache<K, V>, k: K, v: V, now: int)
    ensures k in Inserted(c, k, v, now).entries && Inserted(c, k, v, now).entries[k] == Entry(now, v)
  {
  }

  lemma {:induction false} RunSane<K(!new), V>(size: nat, ttl: int, trace: seq<Event<K, V>>, now: int)
    requires Ticking(trace) && Before(trace, now)
    ensures Sane(size, Run(size, ttl, trace)) && Past(Run(size, ttl, trace), now)
  {
    if trace != [] {
      var n := |trace| - 1;
      TickingSplit(trace);
      RunSane(size, ttl, trace[..n], trace[n].now);
      var c, e := Run(size, ttl, trace[..n]), trace[n];
      if e.op.Set? {
        SetSane(size, c, e.op.key, e.op.value, e.now);
      }
    }
  }

  /** A key just set survives its own set whenever the cache can hold anything. */
  lemma JustSetSurvives<K(!new), V>(size: nat, ttl: int, trace: seq<Event<K, V>>)
    requires trace != [] && Ticking(trace) && trace[|trace| - 1].op.Set? && size >= 1
    ensures
      var e := trace[|trace| - 1];
      Found(ttl, Run(size, ttl, trace), e.op.key, e.now) == Some(e.op.value)
  {
    var n := |trace| - 1;
    var e := trace[n];
    TickingSplit(trace);
    RunSane(size, ttl, trace[..n], e.now);
    SetSane(size, Run(size, ttl, trace[..n]), e.op.key, e.op.value, e.now);
  }

  // -------------------------------------------------------------------- soundness

  /** The latest set of k since the last clear: what an unbounded, everlasting store
      would hold. */
  function LastSet<K(==), V>(trace: seq<Event<K, V>>, k: K): Option<Entry<V>> {
    if trace == [] then None
    else
      var e := trace[|trace| - 1];
      if e.op.Set? && e.op.key == k then Some(Entry(e.now, e.op.value))
      else if e.op.Clear? then None
      else LastSet(trace[..|trace| - 1], k)
  }

  lemma {:induction false} EntriesAreLastSets<K(!new), V>(size: nat, ttl: int, trace: seq<Event<K, V>>, k: K)
    requires k in Run(size, ttl, trace).entries
    ensures LastSet(trace, k) == Some(Run(size, ttl, trace).entries[k])
  {
    var n := |trace| - 1;
    var e := trace[n];
    if !(e.op.Set? && e.op.key == k) {
      EntriesAreLastSets(size, ttl, trace[..n], k);
    }
  }

  /** A value that get returns is the one last set for that key, and no older than the
      time-to-live. */
  lemma {:induction false} HitsAreSound<K(!new), V>(size: nat, ttl: int, trace: seq<Event<K, V>>, k: K, now: int)
    requires Found(ttl, Run(size, ttl, trace), k, now).Some?
    ensures LastSet(trace, k).Some?
    ensures LastSet(trace, k).value.value == Found(ttl, Run(size, ttl, trace), k, now).value
    ensures ttl > 0 ==> now - LastSet(trace, k).value.stamp <= ttl
  {
    EntriesAreLastSets(size, ttl, trace, k);
  }

  // -------------------------------------------------------------------- retention

  /** An event uses its key when it sets it, or looks it up and finds it. */
  ghost predicate Uses<K(!new), V>(ttl: int, c: Cache<K, V>, e: Event<K, V>, k: K) {
    match e.op
    case Get(j) => j == k && Found(ttl, c, k, e.now).Some?
    case Set(j, _) => j == k
    case Clear => false
  }

  /** An event that empties the cache, or looks k up and finds it expired. */
  ghost predicate Forgets<K(!new), V>(ttl: int, c: Cache<K, V>, e: Event<K, V>, k: K) {
    match e.op
    case Get(j) => j == k && k in c.entries && Stale(ttl, c.entries[k], e.now)
    case Set(_, _) => false
    case Clear => true
  }

  /** The other keys used since the last use of k; None if k has not been used since it was
      last forgotten. */
  ghost function UsedSince<K(!new), V>(size: nat, ttl: int, trace: seq<Event<K, V>>, k: K): Option<set<K>> {
    if trace == [] then None
    else
      var head, e := trace[..|trace| - 1], trace[|trace| - 1];
      UsedNow(ttl, Run(size, ttl, head), UsedSince(size, ttl, head, k), e, k)
  }

  ghost function UsedNow<K(!new), V>(
    ttl: int, c: Cache<K, V>, used: Option<set<K>>, e: Event<K, V>, k: K): Option<set<K>>
  {
    if Forgets(ttl, c, e, k) then None
    else if Uses(ttl, c, e, k) then Some({})
    else if !e.op.Clear? && Uses(ttl, c, e, e.op.key) && used.Some? then Some(used.value + {e.op.key})
    else used
  }

  /** The keys accessed later than k. */
  ghost function Younger<K(!new)>(access: map<K, int>, k: K): set<K>
    requires k in access
  {
    set j | j in access && access[j] > access[k]
  }

  /** The keys accessed later than a cached key have been used since its last use, and no
      others if nothing expires; of an evicted key there are at least as many as the
      size. */
  ghost predicate Recency<K(!new)>(size: nat, ttl: int, access: map<K, int>, used: Option<set<K>>, k: K) {
    if k in access then
      used.Some? && Younger(access, k) <= used.value && (ttl <= 0 ==> used.value == Younger(access, k))
    else used.Some? ==> |used.value| >= size
  }

  /** A use of j. */
  lemma RecencyUse<K(!new)>(
    size: nat, ttl: int, access: map<K, int>, used: Option<set<K>>, k: K, j: K, now: int)
    requires forall i :: i in access ==> access[i] < now
    requires Recency(size, ttl, access, used, k)
    ensures
      var used' := if j == k then Some({}) else if used.Some? then Some(used.value + {j}) else used;
      Recency(size, ttl, access[j := now], used', k)
  {
    var a := access[j := now];
    if k == j {
      assert Younger(a, k) == {};
    } else if k in access {
      assert Younger(a, k) == Younger(access, k) + {j};
    } else if used.Some? {
      SubsetSize(used.value, used.value + {j});
    }
  }

  /** Expiry of j. */
  lemma RecencyExpire<K(!new)>(size: nat, ttl: int, access: map<K, int>, used: Option<set<K>>, k: K, j: K)
    requires Recency(size, ttl, access, used, k) && ttl > 0
    ensures Recency(size, ttl, Without(access, j), if j == k then None else used, k)
  {
    if k in access && k != j {
      assert Younger(Without(access, j), k) <= Younger(access, k);
    }
  }

  /** Eviction of the oldest key: it has as many younger ones as there are other keys. */
  lemma RecencyEvict<K(!new)>(size: nat, ttl: int, access: map<K, int>, used: Option<set<K>>, k: K, x: K)
    requires |access| > size && IsLru(access, x) && Apart(access) && Recency(size, ttl, access, used, k)
    ensures Recency(size, ttl, Without(access, x), used, k)
  {
    if k == x {
      assert Younger(access, x) == access.Keys - {x};
      assert |access.Keys - {x}| == |access.Keys| - 1 == |access| - 1;
      SubsetSize(Younger(access, x), used.value);
    } else if k in access {
      assert Younger(Without(access, x), k) == Younger(access, k);
    }
  }

  lemma RecencyGet<K(!new), V>(
    size: nat, ttl: int, c: Cache<K, V>, used: Option<set<K>>, k: K, j: K, now: int)
    requires Sane(size, c) && Past(c, now) && Recency(size, ttl, c.access, used, k)
    ensures Recency(size, ttl, AfterGet(ttl, c, j, now).access, UsedNow(ttl, c, used, Event(now, Op.Get(j)), k), k)
  {
    hide Recency, Apart;
    if j in c.entries {
      if Stale(ttl, c.entries[j], now) {
        RecencyExpire(size, ttl, c.access, used, k, j);
      } else {
        RecencyUse(size, ttl, c.access, used, k, j, now);
      }
    }
  }

  lemma RecencySet<K(!new), V>(
    size: nat, ttl: int, c: Cache<K, V>, used: Option<set<K>>, k: K, j: K, v: V, now: int)
    requires Sane(size, c) && Past(c, now) && Recency(size, ttl, c.access, used, k)
    ensures
      Recency(size, ttl, AfterSet(size, c, j, v, now).access, UsedNow(ttl, c, used, Event(now, Op.Set(j, v)), k), k)
  {
    hide Recency, Apart;
    InsertedSane(size, c, j, v, now);
    RecencyUse(size, ttl, c.access, used, k, j, now);
    var d := Inserted(c, j, v, now);
    if |d.entries| > size {
      assert |d.entries.Keys| == |d.access.Keys|;
      var used' := UsedNow(ttl, c, used, Event(now, Op.Set(j, v)), k);
      RecencyEvict(size, ttl, d.access, used', k, Victim(c.access, j, now));
    }
  }

  lemma {:induction false} RunRecency<K(!new), V>(size: nat, ttl: int, trace: seq<Event<K, V>>, k: K)
    requires Ticking(trace)
    ensures Recency(size, ttl, Run(size, ttl, trace).access, UsedSince(size, ttl, trace, k), k)
  {
    if trace != [] {
      var n := |trace| - 1;
      var head, e := trace[..n], trace[n];
      TickingSplit(trace);
      RunSane(size, ttl, head, e.now);
      RunRecency(size, ttl, head, k);
      RunLast(size, ttl, trace);
      var c, used := Run(size, ttl, head), UsedSince(size, ttl, head, k);
      hide Recency, Run, Sane, AfterSet, AfterGet, Uses;
      match e.op
      case Get(j) => RecencyGet(size, ttl, c, used, k, j, e.now);
      case Set(j, v) => RecencySet(size, ttl, c, used, k, j, v, e.now);
      case Clear => RecencyEmpty(size, ttl, k);
    }
  }

  lemma RunLast<K(!new), V>(size: nat, ttl: int, trace: seq<Event<K, V>>)
    requires trace != []
    ensures Run(size, ttl, trace) == Step(size, ttl, Run(size, ttl, trace[..|trace| - 1]), trace[|trace| - 1])
  {
  }

  lemma RecencyEmpty<K(!new)>(size: nat, ttl: int, k: K)
    ensures Recency(size, ttl, map[], None, k)
  {
  }

  /** LRU's promise: with any time-to-live, a key used since it was last forgotten is in the
      cache as long as fewer than maxsize other keys have been used since its last use;
      without a time-to-live no longer than that. */
  lemma RetainedExactly<K(!new), V>(size: nat, ttl: int, trace: seq<Event<K, V>>, k: K)
    requires Ticking(trace)
    ensures
      var used := UsedSince(size, ttl, trace, k);
      (used.Some? && |used.value| < size ==> k in Run(size, ttl, trace).entries)
      && (ttl <= 0 ==> (k in Run(size, ttl, trace).entries <==> used.Some? && |used.value| < size))
  {
    var c := Run(size, ttl, trace);
    var now := if trace == [] then 0 else trace[|trace| - 1].now + 1;
    RunSane(size, ttl, trace, now);
    RunRecency(size, ttl, trace, k);
    if k in c.access {
      var others := Younger(c.access, k);
      assert others <= c.access.Keys - {k};
      SubsetSize(others, c.access.Keys - {k});
      assert |c.access.Keys - {k}| == |c.entries.Keys| - 1;
    }
  }

  /** The other keys in the events since the latest set of k. */
  function OthersSince<K(==), V>(trace: seq<Event<K, V>>, k: K): set<K> {
    if trace == [] then {}
    else
      var e := trace[|trace| - 1];
      if e.op.Set? && e.op.key == k then {}
      else OthersSince(trace[..|trace| - 1], k) + if e.op.Clear? then {} else {e.op.key} - {k}
  }

  lemma UsedStep<K(!new), V>(
    ttl: int, c: Cache<K, V>, used: Option<set<K>>, e: Event<K, V>, k: K, others: set<K>)
    requires used.Some? && used.value <= others
    requires !e.op.Clear? && !(e.op.Set? && e.op.key == k)
    requires k in c.entries ==> ttl <= 0 || e.now - c.entries[k].stamp <= ttl
    ensures
      var after := UsedNow(ttl, c, used, e, k);
      after.Some? && after.value <= others + ({e.op.key} - {k})
  {
  }

  /** While the latest value of k is no older than the time-to-live, k is never forgotten,
      and only keys that occur in the trace count against it. */
  lemma {:induction false} UsedWithinOthers<K(!new), V>(
    size: nat, ttl: int, trace: seq<Event<K, V>>, k: K, now: int)
    requires Ticking(trace) && Before(trace, now) && LastSet(trace, k).Some?
    requires ttl <= 0 || now - LastSet(trace, k).value.stamp <= ttl
    ensures UsedSince(size, ttl, trace, k).Some? && UsedSince(size, ttl, trace, k).value <= OthersSince(trace, k)
  {
    var n := |trace| - 1;
    var head, e := trace[..n], trace[n];
    if !(e.op.Set? && e.op.key == k) {
      hide Run, UsedNow, Ticking;
      TickingSplit(trace);
      UsedWithinOthers(size, ttl, head, k, now);
      var c := Run(size, ttl, head);
      if k in c.entries { EntriesAreLastSets(size, ttl, head, k); }
      UsedStep(ttl, c, UsedSince(size, ttl, head, k), e, k, OthersSince(head, k));
    }
  }

  /** The converse of HitsAreSound: a value set for k and not cleared is found as long as it
      is no older than the time-to-live and fewer than maxsize other keys have been looked
      up or set since. */
  lemma FreshIsFound<K(!new), V>(size: nat, ttl: int, trace: seq<Event<K, V>>, k: K, now: int)
    requires Ticking(trace) && Before(trace, now) && LastSet(trace, k).Some?
    requires ttl <= 0 || now - LastSet(trace, k).value.stamp <= ttl
    requires |OthersSince(trace, k)| < size
    ensures Found(ttl, Run(size, ttl, trace), k, now) == Some(LastSet(trace, k).value.value)
  {
    UsedWithinOthers(size, ttl, trace, k, now);
    SubsetSize(UsedSince(size, ttl, trace, k).value, OthersSince(trace, k));
    RetainedExactly(size, ttl, trace, k);
    EntriesAreLastSets(size, ttl, trace, k);
    hide Run, UsedSince;
  }

  // -------------------------------------------------------------------- inclusion

  /** Everything in the small cache is in the large one with the same stamp, value and
      access time, hence in the same relative order of recency; and the small cache has
      no more room left than the large one. */
  ghost predicate Included<K(!new), V>(n: nat, m: nat, small: Cache<K, V>, large: Cache<K, V>) {
    small.entries.Keys <= large.entries.Keys
    && (forall k :: k in small.entries ==> small.entries[k] == large.entries[k])
    && (forall k :: k in small.access ==> k in large.access && small.access[k] == large.access[k])
    && n - |small.entries| <= m - |large.entries|
  }

  lemma IncludedDrop<K(!new), V>(n: nat, m: nat, small: Cache<K, V>, large: Cache<K, V>, k: K)
    requires Included(n, m, small, large) && k in large.entries
    ensures Included(n, m, Dropped(small, k), Dropped(large, k))
  {
  }

  lemma IncludedTouch<K(!new), V>(n: nat, m: nat, small: Cache<K, V>, large: Cache<K, V>, k: K, now: int)
    requires Included(n, m, small, large)
    ensures
      Included(n, m, if k in small.access then small.(access := small.access[k := now]) else small,
        large.(access := large.access[k := now]))
  {
  }

  /** A key that both hold has one stamp, so a lookup expires it in both; a key that
      expires in the large cache alone gives it room. */
  lemma IncludedGet<K(!new), V>(
    n: nat, m: nat, ttl: int, small: Cache<K, V>, large: Cache<K, V>, k: K, now: int)
    requires Sane(n, small) && Sane(m, large) && Included(n, m, small, large)
    ensures Included(n, m, AfterGet(ttl, small, k, now), AfterGet(ttl, large, k, now))
  {
    hide Included, Sane, Dropped;
    IncludedStamp(n, m, small, large, k);
    if k in large.entries {
      IncludedDrop(n, m, small, large, k);
      IncludedTouch(n, m, small, large, k, now);
    }
  }

  lemma IncludedStamp<K(!new), V>(n: nat, m: nat, small: Cache<K, V>, large: Cache<K, V>, k: K)
    requires Sane(n, small) && Sane(m, large) && Included(n, m, small, large)
    ensures k in small.entries ==> k in large.entries && small.entries[k] == large.entries[k]
    ensures k in small.entries <==> k in small.access
    ensures k !in small.entries ==> Dropped(small, k) == small
  {
    hide Apart;
  }

  lemma IncludedInsert<K(!new), V>(n: nat, m: nat, small: Cache<K, V>, large: Cache<K, V>, k: K, v: V, now: int)
    requires Included(n, m, small, large)
    ensures
      var s, l := Inserted(small, k, v, now), Inserted(large, k, v, now);
      s.entries.Keys <= l.entries.Keys
      && (forall j :: j in s.entries ==> s.entries[j] == l.entries[j])
      && (forall j :: j in s.access ==> j in l.access && s.access[j] == l.access[j])
  {
  }

  /** If the large cache evicts a key the small one also holds, the small one is full
      and evicts the same key. */
  lemma SameVictim<K(!new), V>(n: nat, m: nat, small: Cache<K, V>, large: Cache<K, V>, k: K, v: V, now: int)
    requires n <= m && Sane(n, small) && Sane(m, large) && Past(small, now) && Past(large, now)
    requires Included(n, m, small, large)
    requires k !in large.entries && |large.entries| == m
    requires Victim(large.access, k, now) in small.access[k := now]
    ensures |small.entries| == n
    ensures Victim(small.access, k, now) == Victim(large.access, k, now)
  {
    hide Past;
    SubmapInserted(small, large, k, now);
    InsertedApart(m, large, k, now);
    OldestInBoth(
      small.access[k := now], large.access[k := now], Victim(small.access, k, now), Victim(large.access, k, now));
  }

  lemma SubmapInserted<K(!new), V>(small: Cache<K, V>, large: Cache<K, V>, k: K, now: int)
    requires forall j :: j in small.access ==> j in large.access && small.access[j] == large.access[j]
    ensures
      var s, l := small.access[k := now], large.access[k := now];
      forall j :: j in s ==> j in l && s[j] == l[j]
  {
  }

  lemma InsertedApart<K(!new), V>(m: nat, large: Cache<K, V>, k: K, now: int)
    requires Sane(m, large) && Past(large, now)
    ensures Apart(large.access[k := now])
  {
  }

  lemma OldestInBoth<K(!new)>(s: map<K, int>, l: map<K, int>, y: K, x: K)
    requires (forall j :: j in s ==> j in l && s[j] == l[j]) && Apart(l)
    requires IsLru(s, y) && IsLru(l, x) && x in s
    ensures x == y
  {
    assert s[y] <= s[x] && l[x] <= l[y];
  }

  lemma SetSize<K(!new), V>(size: nat, c: Cache<K, V>, k: K, v: V, now: int)
    requires Sane(size, c)
    ensures
      |AfterSet(size, c, k, v, now).entries|
      == if k in c.entries then |c.entries| else if |c.entries| < size then |c.entries| + 1 else size
  {
    InsertedSize(c.entries, k, Entry(now, v));
    VictimInside(c, k, v, now);
    hide Apart;
  }

  lemma IncludedSet<K(!new), V>(n: nat, m: nat, small: Cache<K, V>, large: Cache<K, V>, k: K, v: V, now: int)
    requires n <= m && Sane(n, small) && Sane(m, large) && Past(small, now) && Past(large, now)
    requires Included(n, m, small, large)
    ensures Included(n, m, AfterSet(n, small, k, v, now), AfterSet(m, large, k, v, now))
  {
    InsertedSize(small.entries, k, Entry(now, v));
    InsertedSize(large.entries, k, Entry(now, v));
    IncludedInsert(n, m, small, large, k, v, now);
    if k !in large.entries && |large.entries| == m && Victim(large.access, k, now) in small.access[k := now] {
      SameVictim(n, m, small, large, k, v, now);
    }
    SetSize(n, small, k, v, now);
    SetSize(m, large, k, v, now);
  }

  /** The inclusion theorem: with any time-to-live, on every trace of get, set and clear
      a size-n cache is contained in a size-m cache for every m >= n, so every hit in
      the small one is the same hit in the large one. */
  lemma {:induction false} Inclusion<K(!new), V>(n: nat, m: nat, ttl: int, trace: seq<Event<K, V>>)
    requires n <= m && Ticking(trace)
    ensures Included(n, m, Run(n, ttl, trace), Run(m, ttl, trace))
    ensures forall k, now: int ::
      Found(ttl, Run(n, ttl, trace), k, now).Some? ==>
      Found(ttl, Run(m, ttl, trace), k, now) == Found(ttl, Run(n, ttl, trace), k, now)
  {
    if trace != [] {
      var i := |trace| - 1;
      var head, e := trace[..i], trace[i];
      TickingSplit(trace);
      Inclusion(n, m, ttl, head);
      RunSane(n, ttl, head, e.now);
      RunSane(m, ttl, head, e.now);
      match e.op
      case Get(k) => IncludedGet(n, m, ttl, Run(n, ttl, head), Run(m, ttl, head), k, e.now);
      case Set(k, v) => IncludedSet(n, m, Run(n, ttl, head), Run(m, ttl, head), k, v, e.now);
      case Clear =>
    }
  }
}
