/** One session at a time: what a session goes through, from the operations alone, and that
    the backends do exactly that. */
module Lives {
  import opened Prelude
  import opened Sessions
  import opened SessionLemmas
  import opened SessionTheorems
  import opened StoreRuns
  import opened LoneSections
  import opened Interchange

  /** What the backend knows about a session. */
  datatype Life = Life(
    born: int, touched: int, messages: seq<Message>, summary: string, state: map<string, string>)

  function View(m: Store, id: Id): Option<Life> {
    if id in m then Some(Life(m[id].created, m[id].lastActive, m[id].messages, m[id].summary, m[id].state)) else None
  }

  /** Idle for longer than the timeout, if there is one. */
  predicate Over(cfg: Config, life: Life, now: int) {
    cfg.timeout > 0 && now > life.touched + cfg.timeout
  }

  function Alive(cfg: Config, life: Option<Life>, now: int): Option<Life> {
    if life.Some? && Over(cfg, life.value, now) then None else life
  }

  /** The last 2*max_turns messages; for 0 all of them, and for less than 0 all but the first
      as many. */
  function Windowed(cfg: Config, messages: seq<Message>): seq<Message> {
    if cfg.maxTurns > 0 then Last(messages, 2 * cfg.maxTurns)
    else if -2 * cfg.maxTurns <= |messages| then messages[-2 * cfg.maxTurns..]
    else []
  }

  /** What an operation makes of session id. */
  function Follow(cfg: Config, life: Option<Life>, op: Op, id: Id): Option<Life> {
    match op
    case Create(j, now) => if j == id && life == None then Some(Life(now, now, [], "", map[])) else life
    case AddTurn(j, role, content, now) =>
      var said := [Message(role, content, now)];
      if j != id then life
      else
        (match Alive(cfg, life, now)
         case Some(l) => Some(l.(touched := now, messages := Windowed(cfg, l.messages + said)))
         case None =>
           if cfg.backend == JsonFile then None else Some(Life(now, now, Windowed(cfg, said), "", map[])))
    case Summarize(j, summary, now) =>
      if j != id || summary == "" then life
      else
        (match Alive(cfg, life, now)
         case Some(l) => Some(l.(summary := summary))
         case None => None)
    case UpdateState(j, patch, now) =>
      if j != id || cfg.backend == JsonFile then life
      else
        (match Alive(cfg, life, now)
         case Some(l) => Some(l.(state := l.state + patch))
         case None => None)
    case GetState(j, now) => if j != id || cfg.backend == JsonFile then life else Alive(cfg, life, now)
    case Clear(j, now) =>
      if j != id then life
      else
        (match Alive(cfg, life, now)
         case Some(l) => Some(l.(touched := now, messages := [], summary := ""))
         case None => None)
    case Delete(j) => if j == id then None else life
    case Read(j, now) => if j == id then Alive(cfg, life, now) else life
    case Purge(now) => Alive(cfg, life, now)
  }

  /** Session id has been evicted: it was the victim, the map is full with the session that
      came in, and no session that stays was active less recently. */
  predicate GivenUp(cfg: Config, m: Store, after: Store, e: Event, id: Id) {
    (e.op.Create? || e.op.AddTurn?) && e.op.id != id && e.op.id in after && e.ch.victim == id
    && id in m && id !in after && |after| == cfg.maxSessions
    && forall j :: j in after && j != e.op.id ==> j in m && m[id].lastActive <= m[j].lastActive
  }

  lemma OtherGoes(cfg: Config, m: Store, op: Op, ch: Choice, id: Id)
    requires cfg.Valid() && Sound(cfg, m) && Legal(cfg, m, op, ch)
    requires !op.Purge? && op.id != id && id in m && id !in Effect(cfg, m, op, ch)
    ensures GivenUp(cfg, m, Effect(cfg, m, op, ch), Event(op, ch), id)
  {
    hide Checked, Trimmed, Touched, WithMessage, Fresh, Evicted, IsOldest;
    if !op.Create? && !op.Delete? { CheckedSmaller(cfg, m, op.id, op.now, id); }
    var base := if op.AddTurn? then Checked(cfg, m, op.id, op.now) else m;
    var after := Effect(cfg, m, op, ch);
    assert after == Evicted(cfg, base, ch)[op.id := after[op.id]];
    AdmitEvicts(cfg, base, ch, op.id, after[op.id], id);
  }

  lemma CheckedSmaller(cfg: Config, m: Store, own: Id, now: int, id: Id)
    requires id != own
    ensures
      var base := Checked(cfg, m, own, now);
      |base| <= |m| && (id in m ==> id in base) && forall j :: j in base ==> j in m && base[j] == m[j]
  {
    hide Expired;
  }

  lemma AdmitEvicts(cfg: Config, base: Store, ch: Choice, own: Id, s: Session, id: Id)
    requires |base| <= cfg.maxSessions && own !in base && id in base && id != own
    requires |base| >= cfg.maxSessions ==> IsOldest(base, ch.victim)
    requires id !in Evicted(cfg, base, ch)[own := s]
    ensures
      var after := Evicted(cfg, base, ch)[own := s];
      ch.victim == id && |after| == cfg.maxSessions
      && forall j :: j in after && j != own ==> j in base && base[id].lastActive <= base[j].lastActive
  {
    EvictedGone(cfg, base, ch, id);
    var kept := Without(base, id);
    assert kept[own := s].Keys == kept.Keys + {own};
    assert |kept.Keys + {own}| == |kept| + 1;
  }

  lemma FollowOther(cfg: Config, m: Store, e: Event, id: Id)
    requires cfg.Valid() && Sound(cfg, m) && Legal(cfg, m, e.op, e.ch)
    requires !e.op.Purge? && e.op.id != id
    ensures
      var after := Effect(cfg, m, e.op, e.ch);
      View(after, id) == Follow(cfg, View(m, id), e.op, id) || GivenUp(cfg, m, after, e, id)
  {
    hide Effect, Legal, Sound;
    var after := Effect(cfg, m, e.op, e.ch);
    assert Follow(cfg, View(m, id), e.op, id) == View(m, id);
    if id in after {
      EffectOthers(cfg, m, e.op, e.ch, id);
    } else if id in m {
      OtherGoes(cfg, m, e.op, e.ch, id);
    }
  }

  lemma TrimmedIsWindowed(cfg: Config, s: Session)
    ensures Trimmed(cfg, s).messages == Windowed(cfg, s.messages)
    ensures Trimmed(cfg, s).(messages := []) == s.(messages := [])
  {
  }

  /** The expiry test in the words of a life. */
  lemma ExpiredIsOver(cfg: Config, m: Store, id: Id, now: int)
    ensures Active(cfg, m, id, now) <==> Alive(cfg, View(m, id), now).Some?
    ensures id in Checked(cfg, m, id, now) <==> Alive(cfg, View(m, id), now).Some?
    ensures View(Checked(cfg, m, id, now), id) == Alive(cfg, View(m, id), now)
  {
  }

  lemma FollowTurn(cfg: Config, m: Store, op: Op, ch: Choice)
    requires op.AddTurn? && Sound(cfg, m) && Legal(cfg, m, op, ch)
    ensures View(Effect(cfg, m, op, ch), op.id) == Follow(cfg, View(m, op.id), op, op.id)
  {
    ExpiredIsOver(cfg, m, op.id, op.now);
    var msg := Message(op.role, op.content, op.now);
    TrimmedIsWindowed(cfg, Touched(WithMessage(Fresh(op.id, op.now), msg), op.now));
    if op.id in m { TrimmedIsWindowed(cfg, Touched(WithMessage(m[op.id], msg), op.now)); }
    assert [] + [msg] == [msg];
    hide Trimmed, Windowed, Expired, Over, Legal, Evicted;
  }

  lemma FollowOwn(cfg: Config, m: Store, op: Op, ch: Choice)
    requires !op.Purge? && Sound(cfg, m) && Legal(cfg, m, op, ch)
    ensures View(Effect(cfg, m, op, ch), op.id) == Follow(cfg, View(m, op.id), op, op.id)
  {
    hide Effect, Follow, View, Legal;
    if op.AddTurn? {
      FollowTurn(cfg, m, op, ch);
    } else if op.Create? || op.Delete? {
      FollowEnds(cfg, m, op, ch);
    } else if op.Read? || op.GetState? {
      FollowLook(cfg, m, op, ch);
    } else {
      FollowEdit(cfg, m, op, ch);
    }
  }

  lemma FollowEnds(cfg: Config, m: Store, op: Op, ch: Choice)
    requires op.Create? || op.Delete?
    ensures View(Effect(cfg, m, op, ch), op.id) == Follow(cfg, View(m, op.id), op, op.id)
  {
    hide Evicted;
  }

  lemma FollowLook(cfg: Config, m: Store, op: Op, ch: Choice)
    requires op.Read? || op.GetState?
    ensures View(Effect(cfg, m, op, ch), op.id) == Follow(cfg, View(m, op.id), op, op.id)
  {
    hide Checked, Alive;
    ExpiredIsOver(cfg, m, op.id, op.now);
  }

  lemma FollowEdit(cfg: Config, m: Store, op: Op, ch: Choice)
    requires op.Summarize? || op.UpdateState? || op.Clear?
    ensures View(Effect(cfg, m, op, ch), op.id) == Follow(cfg, View(m, op.id), op, op.id)
  {
    ExpiredIsOver(cfg, m, op.id, op.now);
    hide Expired, Over;
  }

  lemma FollowPurge(cfg: Config, m: Store, op: Op, ch: Choice, id: Id)
    requires op.Purge?
    ensures View(Effect(cfg, m, op, ch), id) == Follow(cfg, View(m, id), op, id)
  {
  }

  /** Every operation makes of every session what its life says, unless it evicts it. */
  lemma FollowsExactly(cfg: Config, m: Store, e: Event, id: Id)
    requires cfg.Valid() && Sound(cfg, m) && Legal(cfg, m, e.op, e.ch)
    ensures
      var after := Perform(cfg, m, e);
      View(after, id) == Follow(cfg, View(m, id), e.op, id) || GivenUp(cfg, m, after, e, id)
  {
    PerformIsEffect(cfg, m, e);
    hide Effect, Perform, Follow, View, GivenUp, Sound, Legal;
    if e.op.Purge? {
      FollowPurge(cfg, m, e.op, e.ch, id);
    } else if e.op.id == id {
      FollowOwn(cfg, m, e.op, e.ch);
    } else {
      FollowOther(cfg, m, e, id);
    }
  }

  /** So does its critical section, flushing included. */
  lemma SectionsFollow(cfg: Config, s: System, e: Event, id: Id)
    requires cfg.Valid() && Sound(cfg, s.sessions) && Legal(cfg, s.sessions, e.op, e.ch)
    ensures
      var after := Alone(cfg, s.(todo := Section(cfg, s.sessions, e.op, e.ch))).sessions;
      View(after, id) == Follow(cfg, View(s.sessions, id), e.op, id) || GivenUp(cfg, s.sessions, after, e, id)
  {
    AloneSessions(cfg, s.(todo := Section(cfg, s.sessions, e.op, e.ch)));
    hide Alone, Section, Outcome, Follow, View, GivenUp;
    FollowsExactly(cfg, s.sessions, e, id);
  }

  // --------------------------------------------------------------------- whole runs

  function FollowAll(cfg: Config, events: seq<Event>, id: Id): Option<Life> {
    if events == [] then None
    else Follow(cfg, FollowAll(cfg, events[..|events| - 1], id), events[|events| - 1].op, id)
  }

  /** Never the one to make room. */
  predicate Spared(events: seq<Event>, id: Id) {
    forall i :: 0 <= i < |events| ==> events[i].ch.victim != id
  }

  lemma SparedFollows(cfg: Config, m: Store, e: Event, id: Id)
    requires cfg.Valid() && Sound(cfg, m) && Legal(cfg, m, e.op, e.ch) && e.ch.victim != id
    ensures View(Perform(cfg, m, e), id) == Follow(cfg, View(m, id), e.op, id)
  {
    hide Follow, Perform;
    FollowsExactly(cfg, m, e, id);
  }

  lemma PlausibleFront(cfg: Config, events: seq<Event>)
    requires Plausible(cfg, events) && events != []
    ensures
      var n := |events| - 1;
      Plausible(cfg, events[..n]) && Legal(cfg, Replay(cfg, events[..n]), events[n].op, events[n].ch)
      && Replay(cfg, events) == Perform(cfg, Replay(cfg, events[..n]), events[n])
  {
  }

  /** In every run that does not evict it, a session is what its operations make of it. */
  lemma {:induction false} LivesFollow(cfg: Config, events: seq<Event>, id: Id)
    requires cfg.Valid() && Plausible(cfg, events) && Spared(events, id)
    ensures View(Replay(cfg, events), id) == FollowAll(cfg, events, id)
  {
    hide Follow, Perform, Replay, Plausible, Legal, Sound;
    if events == [] {
      NothingYet(cfg, id);
    } else {
      var n := |events| - 1;
      PlausibleFront(cfg, events);
      LivesFollow(cfg, events[..n], id);
      ReplaySound(cfg, events[..n]);
      SparedFollows(cfg, Replay(cfg, events[..n]), events[n], id);
    }
  }

  lemma NothingYet(cfg: Config, id: Id)
    ensures View(Replay(cfg, []), id) == None
  {
  }

  /** When session id was last stored or touched: created, spoken in, or cleared. */
  function LastTouch(cfg: Config, events: seq<Event>, id: Id): Option<int> {
    if events == [] then None
    else
      var head, op := events[..|events| - 1], events[|events| - 1].op;
      var before, after := id in Replay(cfg, head), id in Replay(cfg, events);
      if op.Create? && op.id == id && !before then Some(op.now)
      else if op.AddTurn? && op.id == id && after then Some(op.now)
      else if op.Clear? && op.id == id && before && after then Some(op.now)
      else LastTouch(cfg, head, id)
  }

  lemma {:induction false} ActiveSinceLastTouch(cfg: Config, events: seq<Event>, id: Id)
    requires cfg.Valid() && Plausible(cfg, events) && id in Replay(cfg, events)
    ensures LastTouch(cfg, events, id) == Some(Replay(cfg, events)[id].lastActive)
  {
    hide Perform, Replay, Plausible, Legal, Sound, Windowed, Over;
    if events == [] {
      NothingYet(cfg, id);
    } else {
      var n := |events| - 1;
      PlausibleFront(cfg, events);
      ReplaySound(cfg, events[..n]);
      FollowsExactly(cfg, Replay(cfg, events[..n]), events[n], id);
      if id in Replay(cfg, events[..n]) { ActiveSinceLastTouch(cfg, events[..n], id); }
    }
  }

  /** No operation of a run deletes or evicts id, or reads the clock outside the interval. */
  predicate Calm(events: seq<Event>, id: Id, from: int, to: int) {
    Spared(events, id)
    && forall i :: 0 <= i < |events| ==>
         if events[i].op.Delete? then events[i].op.id != id else from <= events[i].op.now <= to
  }

  lemma StillThere(cfg: Config, life: Life, op: Op, id: Id, from: int, to: int)
    requires from <= life.touched && (cfg.timeout <= 0 || to <= from + cfg.timeout)
    requires if op.Delete? then op.id != id else from <= op.now <= to
    ensures
      var after := Follow(cfg, Some(life), op, id);
      after.Some? && from <= after.value.touched
  {
    hide Windowed;
  }

  /** A session stays for its whole timeout: while nothing deletes or evicts it and every
      clock reading is at most its last touch plus the timeout, it is there.  Without a
      timeout nothing expires. */
  lemma {:induction false} KeptForTheTimeout(
    cfg: Config, events: seq<Event>, more: seq<Event>, id: Id, t: int, to: int)
    requires cfg.Valid() && Plausible(cfg, events + more)
    requires id in Replay(cfg, events) && LastTouch(cfg, events, id) == Some(t)
    requires Calm(more, id, t, to) && (cfg.timeout <= 0 || to <= t + cfg.timeout)
    ensures Plausible(cfg, events) && id in Replay(cfg, events + more)
    ensures Replay(cfg, events + more)[id].lastActive >= t
    decreases |more|
  {
    hide Perform, Replay, Plausible, Legal, Sound, LastTouch, Follow;
    if more == [] {
      assert events + more == events;
      ActiveSinceLastTouch(cfg, events, id);
    } else {
      var n, all := |more| - 1, events + more;
      assert all[..|all| - 1] == events + more[..n] && all[|all| - 1] == more[n];
      PlausibleFront(cfg, all);
      KeptForTheTimeout(cfg, events, more[..n], id, t, to);
      var m := Replay(cfg, events + more[..n]);
      ReplaySound(cfg, events + more[..n]);
      SparedFollows(cfg, m, more[n], id);
      StillThere(cfg, View(m, id).value, more[n].op, id, t, to);
    }
  }

  /** Operations that look at session id and do nothing but drop it if it is over; only one
      backend has the conversation state. */
  predicate Visits(cfg: Config, op: Op, id: Id) {
    match op
    case Summarize(j, summary, _) => j == id && summary != ""
    case UpdateState(j, _, _) => j == id && cfg.backend == LangGraph
    case GetState(j, _) => j == id && cfg.backend == LangGraph
    case Clear(j, _) => j == id
    case Read(j, _) => j == id
    case Purge(_) => true
    case _ => false
  }

  /** And no longer: the first visit or purge after that removes it, and a turn starts a new
      session in one backend and finds none in the other. */
  lemma GoneAfterTheTimeout(cfg: Config, events: seq<Event>, e: Event, id: Id, t: int)
    requires cfg.Valid() && cfg.timeout > 0 && Plausible(cfg, events + [e])
    requires id in Replay(cfg, events) && LastTouch(cfg, events, id) == Some(t)
    requires !e.op.Delete? && e.op.now > t + cfg.timeout
    ensures
      var after := Replay(cfg, events + [e]);
      (Visits(cfg, e.op, id) ==> id !in after)
      && (e.op.AddTurn? && e.op.id == id && cfg.backend == JsonFile ==> id !in after)
      && (e.op.AddTurn? && e.op.id == id && cfg.backend == LangGraph ==>
            id in after && after[id].created == e.op.now && |after[id].messages| <= 1 && after[id].summary == "")
  {
    hide Perform, Replay, Plausible, Legal, Sound, LastTouch, Windowed;
    var all := events + [e];
    assert all[..|all| - 1] == events;
    PlausibleFront(cfg, all);
    ReplaySound(cfg, events);
    ActiveSinceLastTouch(cfg, events, id);
    FollowsExactly(cfg, Replay(cfg, events), e, id);
    GoneLife(cfg, View(Replay(cfg, events), id).value, e.op, id);
    hide Follow;
  }

  /** A visit after the timeout. */
  lemma GoneLife(cfg: Config, life: Life, op: Op, id: Id)
    requires !op.Delete? && Over(cfg, life, op.now)
    ensures Visits(cfg, op, id) ==> Follow(cfg, Some(life), op, id) == None
    ensures op.AddTurn? && op.id == id ==>
      var after := Follow(cfg, Some(life), op, id);
      if cfg.backend == JsonFile then after == None
      else
        after.Some? && after.value.born == op.now && |after.value.messages| <= 1 && after.value.summary == ""
  {
  }

  // ------------------------------------------------------------------ what callers see

  /** Every answer in terms of the lives of the sessions. */
  lemma AnswersAreOfLives(cfg: Config, m: Store, op: Op)
    requires Sound(cfg, m)
    ensures
      match op
      case GetState(id, now) =>
        var life := Alive(cfg, View(m, id), now);
        Answer(cfg, m, op) == State(if life.Some? then life.value.state else map[])
      case Read(id, now) =>
        var life := Alive(cfg, View(m, id), now);
        Answer(cfg, m, op) ==
        (match life
         case Some(l) =>
           Reply.View(l.messages, l.summary, History(l.messages, l.summary),
             Some(Info(id, l.born, l.touched, |l.messages|)))
         case None => Reply.View([], "", "", None))
      case Clear(id, now) => Answer(cfg, m, op) == Flag(Alive(cfg, View(m, id), now).Some?)
      case Delete(id) => Answer(cfg, m, op) == Flag(View(m, id).Some?)
      case Purge(now) =>
        Answer(cfg, m, op).Ids?
        && (forall id :: id in Answer(cfg, m, op).ids <==> Alive(cfg, View(m, id), now).Some?)
        && Answer(cfg, m, op).removed == |m| - |Answer(cfg, m, op).ids|
      case _ => true
  {
    if op.Purge? {
      var gone := ExpiredIds(cfg, m, op.now);
      assert gone <= m.Keys && |m.Keys - gone| == |m.Keys| - |gone|;
    } else if op.Read? {
      NoHistory();
    }
  }

  lemma NoHistory()
    ensures History([], "") == ""
  {
    assert HistoryLines([]) == [];
  }

  /** The history, line by line: the summary first if there is one, then each message in
      order under the customer's or the assistant's name. */
  lemma HistoryIsLabelled(messages: seq<Message>, summary: string) returns (lines: seq<string>)
    ensures History(messages, summary) == Join("\n", lines)
    ensures |lines| == |messages| + if summary == "" then 0 else 1
    ensures summary != "" ==> lines[0] == "[Previous conversation summary: " + summary + "]"
    ensures forall i :: 0 <= i < |messages| ==>
      lines[i + |lines| - |messages|]
      == (if messages[i].role == "user" then "Customer: " else "Assistant: ") + messages[i].content
  {
    lines := SummaryLine(summary) + HistoryLines(messages);
    assert "Customer" + ": " == "Customer: " && "Assistant" + ": " == "Assistant: ";
  }
}
