/** The sliding-window rate limiter: a pruned list per client that decides like the
    whole history. */
module RateLimit {
  import opened Prelude

  datatype Call = Call(client: string, now: int)

  // ------------------------------------------------------- the reference, unpruned

  predicate Counts(c: Call, client: string, after: int) { c.client == client && c.now > after }

  /** Times of a client's calls in the history that are later than `after`. */
  function Times(history: seq<Call>, client: string, after: int): seq<int> {
    if history == [] then []
    else
      var n := |history| - 1;
      Times(history[..n], client, after) + if Counts(history[n], client, after) then [history[n].now] else []
  }

  /** The decision of a counter that forgets nothing. */
  predicate Admits(limit: int, window: int, history: seq<Call>, call: Call) {
    |Times(history, call.client, call.now - window)| < limit
  }

  /** The calls accepted out of a sequence of calls. */
  function Accepted(limit: int, window: int, calls: seq<Call>): seq<Call> {
    if calls == [] then []
    else
      var n := |calls| - 1;
      var before := Accepted(limit, window, calls[..n]);
      if Admits(limit, window, before, calls[n]) then before + [calls[n]] else before
  }

  predicate Ordered(calls: seq<Call>) {
    forall i, j :: 0 <= i < j < |calls| ==> calls[i].now <= calls[j].now
  }

  predicate UpTo(calls: seq<Call>, now: int) {
    forall i :: 0 <= i < |calls| ==> calls[i].now <= now
  }

  lemma {:induction false} AcceptedUpTo(limit: int, window: int, calls: seq<Call>, now: int)
    requires UpTo(calls, now)
    ensures UpTo(Accepted(limit, window, calls), now)
  {
    if calls != [] {
      AcceptedUpTo(limit, window, calls[..|calls| - 1], now);
    }
  }

  /** How many of a client's accepted calls fall into (a, b]. */
  function InInterval(history: seq<Call>, client: string, a: int, b: int): nat {
    if history == [] then 0
    else
      var n := |history| - 1;
      InInterval(history[..n], client, a, b)
      + if history[n].client == client && a < history[n].now <= b then 1 else 0
  }

  lemma {:induction false} IntervalWithinTimes(history: seq<Call>, client: string, a: int, b: int, after: int)
    requires after <= a
    ensures InInterval(history, client, a, b) <= |Times(history, client, after)|
  {
    if history != [] {
      IntervalWithinTimes(history[..|history| - 1], client, a, b, after);
    }
  }

  /** The limit holds in every window position, not only those that end at a call: no
      interval (a, a + window] contains more than `limit` accepted calls of a client. */
  lemma {:induction false} NoIntervalExceeds(limit: int, window: int, calls: seq<Call>, client: string, a: int)
    requires Ordered(calls)
    ensures InInterval(Accepted(limit, window, calls), client, a, a + window) <= if limit > 0 then limit else 0
  {
    if calls != [] {
      var n := |calls| - 1;
      var call := calls[n];
      var before := Accepted(limit, window, calls[..n]);
      NoIntervalExceeds(limit, window, calls[..n], client, a);
      if Admits(limit, window, before, call) {
        assert (before + [call])[..|before|] == before;
        if call.client == client && a < call.now <= a + window {
          IntervalWithinTimes(before, client, a, a + window, call.now - window);
        }
      }
    }
  }

  /** The window counts all the calls later than its beginning. */
  lemma {:induction false} TimesAreInterval(history: seq<Call>, client: string, after: int, now: int)
    requires UpTo(history, now)
    ensures |Times(history, client, after)| == InInterval(history, client, after, now)
  {
    if history != [] {
      TimesAreInterval(history[..|history| - 1], client, after, now);
    }
  }

  /** A call is accepted exactly when fewer than max_requests calls of its client were
      accepted in the window that ends with it. */
  lemma AcceptedExactly(limit: int, window: int, calls: seq<Call>, call: Call)
    requires UpTo(calls, call.now)
    ensures
      var before := Accepted(limit, window, calls);
      Accepted(limit, window, calls + [call])
      == if InInterval(before, call.client, call.now - window, call.now) < limit then before + [call] else before
  {
    hide Accepted, Times, InInterval, UpTo;
    AcceptedUpTo(limit, window, calls, call.now);
    AcceptedSnoc(limit, window, calls, call);
    TimesAreInterval(Accepted(limit, window, calls), call.client, call.now - window, call.now);
  }

  function Own(calls: seq<Call>, client: string): seq<Call> {
    if calls == [] then []
    else
      var n := |calls| - 1;
      Own(calls[..n], client) + if calls[n].client == client then [calls[n]] else []
  }

  lemma OwnSnoc(calls: seq<Call>, c: Call, client: string)
    ensures Own(calls + [c], client) == Own(calls, client) + if c.client == client then [c] else []
  {
    assert (calls + [c])[..|calls|] == calls;
  }

  lemma {:induction false} TimesOfOwn(history: seq<Call>, client: string, after: int)
    ensures Times(Own(history, client), client, after) == Times(history, client, after)
  {
    if history != [] {
      var n := |history| - 1;
      TimesOfOwn(history[..n], client, after);
      if history[n].client == client {
        assert (Own(history[..n], client) + [history[n]])[..|Own(history[..n], client)|] == Own(history[..n], client);
      } else {
        assert Own(history, client) == Own(history[..n], client);
      }
    }
  }

  lemma AcceptedSnoc(limit: int, window: int, calls: seq<Call>, c: Call)
    ensures
      var before := Accepted(limit, window, calls);
      Accepted(limit, window, calls + [c]) == if Admits(limit, window, before, c) then before + [c] else before
  {
    assert (calls + [c])[..|calls|] == calls;
  }

  lemma IndependentStep(limit: int, window: int, calls: seq<Call>, call: Call, client: string)
    requires Own(Accepted(limit, window, calls), client) == Accepted(limit, window, Own(calls, client))
    ensures Own(Accepted(limit, window, calls + [call]), client) == Accepted(limit, window, Own(calls + [call], client))
  {
    hide Accepted, Own, Times;
    var before, own := Accepted(limit, window, calls), Own(calls, client);
    AcceptedSnoc(limit, window, calls, call);
    OwnSnoc(before, call, client);
    OwnSnoc(calls, call, client);
    if call.client == client {
      TimesOfOwn(before, client, call.now - window);
      AcceptedSnoc(limit, window, own, call);
    } else {
      assert own + [] == own && Own(before, client) + [] == Own(before, client);
    }
  }

  /** Clients do not affect each other: a client gets the same decisions as if it were
      the only one. */
  lemma {:induction false} ClientsAreIndependent(limit: int, window: int, calls: seq<Call>, client: string)
    ensures Own(Accepted(limit, window, calls), client) == Accepted(limit, window, Own(calls, client))
  {
    if calls != [] {
      var n := |calls| - 1;
      assert calls == calls[..n] + [calls[n]];
      hide Accepted, Own;
      ClientsAreIndependent(limit, window, calls[..n], client);
      IndependentStep(limit, window, calls[..n], calls[n], client);
    }
  }

  // ---------------------------------------------------------------- the pruned lists

  /** The times later than the cutoff, in order. */
  function Prune(times: seq<int>, cutoff: int): seq<int> {
    if times == [] then []
    else
      var n := |times| - 1;
      Prune(times[..n], cutoff) + if times[n] > cutoff then [times[n]] else []
  }

  lemma PruneSnoc(times: seq<int>, t: int, cutoff: int)
    ensures Prune(times + [t], cutoff) == Prune(times, cutoff) + if t > cutoff then [t] else []
  {
    assert (times + [t])[..|times|] == times;
  }

  lemma {:induction false} PruneTwice(times: seq<int>, cutoff: int, later: int)
    requires cutoff <= later
    ensures Prune(Prune(times, cutoff), later) == Prune(times, later)
  {
    if times != [] {
      var n := |times| - 1;
      PruneTwice(times[..n], cutoff, later);
      if times[n] > cutoff {
        PruneSnoc(Prune(times[..n], cutoff), times[n], later);
      } else {
        assert Prune(times, cutoff) == Prune(times[..n], cutoff);
      }
    }
  }

  predicate Sorted(times: seq<int>) {
    forall i, j :: 0 <= i < j < |times| ==> times[i] <= times[j]
  }

  predicate AtMost(times: seq<int>, now: int) {
    forall i :: 0 <= i < |times| ==> times[i] <= now
  }

  lemma {:induction false} PruneSorted(times: seq<int>, cutoff: int, now: int)
    requires Sorted(times) && AtMost(times, now)
    ensures Sorted(Prune(times, cutoff)) && AtMost(Prune(times, cutoff), now)
    ensures |Prune(times, cutoff)| <= |times|
  {
    if times != [] {
      var n := |times| - 1;
      PruneSorted(times[..n], cutoff, times[n]);
    }
  }

  lemma TimesSnoc(history: seq<Call>, call: Call, client: string, after: int)
    ensures Times(history + [call], client, after)
         == Times(history, client, after) + if Counts(call, client, after) then [call.now] else []
  {
    assert (history + [call])[..|history|] == history;
  }

  function Cap(limit: int): nat { if limit > 0 then limit else 0 }

  /** A client without a list has an empty one. */
  function Listed(clients: map<string, seq<int>>, client: string): seq<int> {
    if client in clients then clients[client] else []
  }

  /** One client's list answers every question that can still be asked about it like the
      whole history of accepted calls. */
  ghost predicate Answers(history: seq<Call>, client: string, list: seq<int>, from: int) {
    forall cutoff :: cutoff >= from ==> Prune(list, cutoff) == Times(history, client, cutoff)
  }

  /** The list of one client after its check. */
  function Checked(limit: int, recent: seq<int>, now: int): seq<int> {
    if |recent| < limit then recent + [now] else recent
  }

  lemma OwnListAnswers(limit: int, history: seq<Call>, call: Call, list: seq<int>, from: int, cutoff: int)
    requires Answers(history, call.client, list, from) && from <= cutoff
    ensures
      var recent := Prune(list, cutoff);
      recent == Times(history, call.client, cutoff)
      && Answers(if |recent| < limit then history + [call] else history,
           call.client, Checked(limit, recent, call.now), cutoff)
  {
    var recent := Prune(list, cutoff);
    forall later | later >= cutoff
      ensures Prune(Checked(limit, recent, call.now), later)
           == Times(if |recent| < limit then history + [call] else history, call.client, later)
    {
      PruneTwice(list, cutoff, later);
      PruneSnoc(recent, call.now, later);
      TimesSnoc(history, call, call.client, later);
      hide Prune, Times;
    }
  }

  lemma OtherListAnswers(history: seq<Call>, call: Call, client: string, list: seq<int>, from: int, later: int)
    requires Answers(history, client, list, from) && from <= later && client != call.client
    ensures Answers(history, client, list, later) && Answers(history + [call], client, list, later)
  {
    forall cutoff | cutoff >= later ensures Prune(list, cutoff) == Times(history + [call], client, cutoff) {
      TimesSnoc(history, call, client, cutoff);
    }
  }

  /** A list of times in order, none in the future, at most as many as the limit. */
  predicate Tidy(limit: int, list: seq<int>, now: int) {
    Sorted(list) && AtMost(list, now) && |list| <= Cap(limit)
  }

  lemma CheckedTidy(limit: int, list: seq<int>, before: int, cutoff: int, now: int)
    requires Tidy(limit, list, before) && before <= now
    ensures Tidy(limit, Checked(limit, Prune(list, cutoff), now), now)
  {
    PruneSorted(list, cutoff, before);
  }

  /** The limiter's invariant; `from` is one window before the latest call. */
  ghost predicate Faithful(
    limit: int, window: int, calls: seq<Call>, clients: map<string, seq<int>>, clock: int, from: int)
  {
    UpTo(calls, clock)
    && (forall c :: Tidy(limit, Listed(clients, c), clock))
    && (forall c :: Answers(Accepted(limit, window, calls), c, Listed(clients, c), from))
  }

  lemma TidyLater(limit: int, list: seq<int>, before: int, now: int)
    requires Tidy(limit, list, before) && before <= now
    ensures Tidy(limit, list, now)
  {
  }

  lemma OwnListKept(
    limit: int, window: int, calls: seq<Call>, clients: map<string, seq<int>>, clock: int, from: int,
    call: Call, cutoff: int)
    requires Faithful(limit, window, calls, clients, clock, from)
    requires clock <= call.now && from <= cutoff && cutoff == call.now - window
    ensures
      var recent := Prune(Listed(clients, call.client), cutoff);
      var list := Checked(limit, recent, call.now);
      recent == Times(Accepted(limit, window, calls), call.client, cutoff)
      && Tidy(limit, list, call.now) && Answers(Accepted(limit, window, calls + [call]), call.client, list, cutoff)
  {
    hide Accepted, Times, Prune, Answers, Tidy, Checked, UpTo;
    var list, history := Listed(clients, call.client), Accepted(limit, window, calls);
    assert Tidy(limit, list, clock) && Answers(history, call.client, list, from);
    AcceptedSnoc(limit, window, calls, call);
    assert Admits(limit, window, history, call) <==> |Times(history, call.client, cutoff)| < limit;
    hide Admits;
    OwnListAnswers(limit, history, call, list, from, cutoff);
    CheckedTidy(limit, list, clock, cutoff, call.now);
  }

  lemma OtherListKept(
    limit: int, window: int, calls: seq<Call>, clients: map<string, seq<int>>, clock: int, from: int,
    call: Call, cutoff: int, c: string)
    requires Faithful(limit, window, calls, clients, clock, from)
    requires clock <= call.now && from <= cutoff && c != call.client
    ensures Tidy(limit, Listed(clients, c), call.now)
    ensures Answers(Accepted(limit, window, calls + [call]), c, Listed(clients, c), cutoff)
  {
    AcceptedSnoc(limit, window, calls, call);
    OtherListAnswers(Accepted(limit, window, calls), call, c, Listed(clients, c), from, cutoff);
    TidyLater(limit, Listed(clients, c), clock, call.now);
    hide Accepted, Times, Prune, Answers, Tidy;
  }

  lemma CheckKeepsFaithful(
    limit: int, window: int, calls: seq<Call>, clients: map<string, seq<int>>, clock: int, from: int,
    call: Call, cutoff: int, clients': map<string, seq<int>>)
    requires Faithful(limit, window, calls, clients, clock, from)
    requires clock <= call.now && from <= cutoff && cutoff == call.now - window
    requires clients' == clients[call.client := Checked(limit, Prune(Listed(clients, call.client), cutoff), call.now)]
    ensures Faithful(limit, window, calls + [call], clients', call.now, cutoff)
  {
    OwnListKept(limit, window, calls, clients, clock, from, call, cutoff);
    hide Accepted, Times, Prune, Answers, Tidy, Checked;
    forall c
      ensures Tidy(limit, Listed(clients', c), call.now)
      ensures Answers(Accepted(limit, window, calls + [call]), c, Listed(clients', c), cutoff)
    {
      if c != call.client {
        assert Listed(clients', c) == Listed(clients, c);
        OtherListKept(limit, window, calls, clients, clock, from, call, cutoff, c);
      }
    }
  }

  lemma FaithfulIsTidy(
    limit: int, window: int, calls: seq<Call>, clients: map<string, seq<int>>, clock: int, from: int, client: string)
    requires Faithful(limit, window, calls, clients, clock, from)
    ensures Sorted(Listed(clients, client)) && |Listed(clients, client)| <= Cap(limit)
  {
    assert Tidy(limit, Listed(clients, client), clock);
  }

  /** The list a check stores, and its verdict, are those of the full history. */
  lemma CheckIsRight(
    limit: int, window: int, calls: seq<Call>, clients: map<string, seq<int>>, clock: int, from: int,
    call: Call, cutoff: int, clients': map<string, seq<int>>, accepted: bool)
    requires Faithful(limit, window, calls, clients, clock, from)
    requires clock <= call.now && from <= cutoff && cutoff == call.now - window
    requires accepted <==> |Prune(Listed(clients, call.client), cutoff)| < limit
    requires clients' == clients[call.client := Checked(limit, Prune(Listed(clients, call.client), cutoff), call.now)]
    ensures Faithful(limit, window, calls + [call], clients', call.now, cutoff)
    ensures accepted <==> Admits(limit, window, Accepted(limit, window, calls), call)
    ensures clients'[call.client]
         == Checked(limit, Times(Accepted(limit, window, calls), call.client, call.now - window), call.now)
    ensures Sorted(clients'[call.client]) && |clients'[call.client]| <= Cap(limit)
  {
    hide Faithful, Times, Prune, Accepted, Sorted, Tidy, Answers, Checked;
    CheckKeepsFaithful(limit, window, calls, clients, clock, from, call, cutoff, clients');
    FaithfulIsTidy(limit, window, calls + [call], clients', call.now, cutoff, call.client);
    OwnListKept(limit, window, calls, clients, clock, from, call, cutoff);
  }

  /** RateLimiter.  `calls` records every call so far, accepted or not, `clock` is the
      latest reading of the clock and `from` lies one window before it. */
  class RateLimiter {
    const limit: int
    const window: int
    var clients: map<string, seq<int>>
    ghost var calls: seq<Call>
    ghost var clock: int
    ghost var from: int

    /** The accepted calls, as a counter that forgets nothing would accept them. */
    ghost function History(): seq<Call>
      reads this
    {
      Accepted(limit, window, calls)
    }

    ghost predicate Valid()
      reads this
    {
      from == clock - window && Faithful(limit, window, calls, clients, clock, from)
    }

    constructor (limit: int, window: int, ghost now: int)
      ensures Valid() && this.limit == limit && this.window == window && calls == [] && clock == now
    {
      this.limit, this.window := limit, window;
      clients, calls, clock, from := map[], [], now, now - window;
    }

    /** check: false stands for the 429 response.  The decision is the full history's,
        the client's list stays sorted and within the limit, and no other changes. */
    method Check(client: string, now: int) returns (accepted: bool)
      requires Valid() && clock <= now
      modifies this
      ensures Valid() && clock == now && calls == old(calls) + [Call(client, now)]
      ensures accepted <==> Admits(limit, window, old(History()), Call(client, now))
      ensures clients == old(clients)[client :=
        Checked(limit, Times(old(History()), client, now - window), now)]
      ensures Sorted(clients[client]) && |clients[client]| <= Cap(limit)
    {
      hide Faithful, Times, Prune, Accepted, Sorted, Admits;
      var cutoff := now - window;
      var timestamps := Listed(clients, client);
      var list := Prune(timestamps, cutoff);
      accepted := |list| < limit;
      if accepted {
        list := list + [now];
      }
      CheckIsRight(
        limit, window, calls, clients, clock, from, Call(client, now), cutoff, clients[client := list], accepted);
      clients := clients[client := list];
      calls := calls + [Call(client, now)];
      clock, from := now, cutoff;
    }
  }
}
