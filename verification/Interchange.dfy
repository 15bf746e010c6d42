/** The two memory adapters against each other: a simulation over every operation,
    and exactly which operation can break it. */
module Interchange {
  import opened Prelude
  import opened Sessions
  import opened SessionLemmas
  import opened SessionTheorems

  datatype Info = Info(sid: Id, created: int, lastActive: int, count: nat)

  /** What a caller sees of an operation. */
  datatype Reply =
    | Nothing
    | Named(id: Id)
    | Flag(b: bool)
    | View(messages: seq<Message>, summary: string, history: string, info: Option<Info>)
    | State(state: map<string, string>)
    | Ids(ids: set<Id>, removed: nat)

  function HistoryLine(msg: Message): string {
    (if msg.role == "user" then "Customer" else "Assistant") + ": " + msg.content
  }

  function HistoryLines(messages: seq<Message>): seq<string> {
    seq(|messages|, i requires 0 <= i < |messages| => HistoryLine(messages[i]))
  }

  function SummaryLine(summary: string): seq<string> {
    if summary == "" then [] else ["[Previous conversation summary: " + summary + "]"]
  }

  /** get_history. */
  function History(messages: seq<Message>, summary: string): string {
    Join("\n", SummaryLine(summary) + HistoryLines(messages))
  }

  /** get_messages, get_summary, get_history and get_session_info together. */
  function Look(cfg: Config, m: Store, id: Id, now: int): Reply {
    if Active(cfg, m, id, now) then
      var s := m[id];
      View(s.messages, s.summary, History(s.messages, s.summary),
           Some(Info(s.sid, s.created, s.lastActive, |s.messages|)))
    else View([], "", History([], ""), None)
  }

  function Answer(cfg: Config, m: Store, op: Op): Reply {
    match op
    case Create(id, _) => Named(id)
    case AddTurn(_, _, _, _) => Nothing
    case Summarize(_, _, _) => Nothing
    case UpdateState(_, _, _) => Nothing
    case GetState(id, now) => State(if Active(cfg, m, id, now) then m[id].state else map[])
    case Clear(id, now) => Flag(Active(cfg, m, id, now))
    case Delete(id) => Flag(id in m)
    case Read(id, now) => Look(cfg, m, id, now)
    case Purge(now) => Ids(m.Keys - ExpiredIds(cfg, m, now), |ExpiredIds(cfg, m, now)|)
  }

  function On(cfg: Config, b: Backend): Config { cfg.(backend := b) }

  /** Equal up to the conversation state, which only the LangGraph adapter has. */
  function Plain(s: Session): Session { s.(state := map[]) }

  ghost predicate Similar(lg: Store, js: Store) {
    lg.Keys == js.Keys && forall id :: id in lg ==> Plain(lg[id]) == Plain(js[id])
  }

  /** The guard of the branches on which the adapters differ: a turn for a session that
      does not exist or has expired, or a state access that finds an expired session. */
  predicate Portable(cfg: Config, m: Store, op: Op) {
    match op
    case AddTurn(id, _, _, now) => Active(cfg, m, id, now)
    case UpdateState(id, _, now) => id in m ==> Active(cfg, m, id, now)
    case GetState(id, now) => id in m ==> Active(cfg, m, id, now)
    case _ => true
  }

  lemma SimilarFacts(cfg: Config, lg: Store, js: Store, id: Id, now: int)
    requires Similar(lg, js)
    ensures id in lg <==> id in js
    ensures id in lg ==>
      && lg[id].sid == js[id].sid && lg[id].created == js[id].created
      && lg[id].lastActive == js[id].lastActive
      && lg[id].messages == js[id].messages && lg[id].summary == js[id].summary
    ensures forall b, c ::
      Active(On(cfg, b), lg, id, now) <==> Active(On(cfg, c), js, id, now)
  {
    if id in lg {
      assert Plain(lg[id]) == Plain(js[id]);
    }
  }

  lemma SimilarExpired(cfg: Config, lg: Store, js: Store, now: int)
    requires Similar(lg, js)
    ensures ExpiredIds(On(cfg, LangGraph), lg, now) == ExpiredIds(On(cfg, JsonFile), js, now)
  {
    forall id {
      SimilarFacts(cfg, lg, js, id, now);
    }
  }

  lemma SimilarAnswer(cfg: Config, lg: Store, js: Store, op: Op)
    requires Similar(lg, js)
    ensures op.GetState? || Answer(On(cfg, LangGraph), lg, op) == Answer(On(cfg, JsonFile), js, op)
  {
    if op.Purge? {
      SimilarExpired(cfg, lg, js, op.now);
    } else {
      SimilarFacts(cfg, lg, js, op.id, if op.Delete? then 0 else op.now);
    }
  }

  lemma SimilarWithout(lg: Store, js: Store, id: Id)
    requires Similar(lg, js)
    ensures Similar(Without(lg, id), Without(js, id))
  {
  }

  lemma SimilarPut(lg: Store, js: Store, id: Id, a: Session, b: Session)
    requires Similar(lg, js) && Plain(a) == Plain(b)
    ensures Similar(lg[id := a], js[id := b])
  {
  }

  lemma SimilarSize(lg: Store, js: Store)
    requires Similar(lg, js)
    ensures |lg| == |js|
  {
    assert |lg.Keys| == |lg| && |js.Keys| == |js|;
  }

  lemma SimilarChecked(cfg: Config, lg: Store, js: Store, id: Id, now: int)
    requires Similar(lg, js)
    ensures Similar(Checked(On(cfg, LangGraph), lg, id, now), Checked(On(cfg, JsonFile), js, id, now))
  {
    SimilarFacts(cfg, lg, js, id, now);
    SimilarWithout(lg, js, id);
  }

  /** A choice the LangGraph adapter could make is one the JSON adapter could make. */
  lemma SimilarLegal(cfg: Config, lg: Store, js: Store, op: Op, ch: Choice)
    requires Similar(lg, js) && Legal(On(cfg, LangGraph), lg, op, ch)
    ensures Legal(On(cfg, JsonFile), js, op, ch)
  {
    SimilarSize(lg, js);
    if op.Purge? {
      SimilarExpired(cfg, lg, js, op.now);
    } else if op.Create? && op.id !in lg && |lg| >= cfg.maxSessions {
      forall id { SimilarFacts(cfg, lg, js, id, op.now); }
    }
  }

  lemma SimilarTurn(cfg: Config, lg: Store, js: Store, op: Op, ch: Choice)
    requires Similar(lg, js) && op.AddTurn? && Portable(On(cfg, LangGraph), lg, op)
    ensures Similar(Effect(On(cfg, LangGraph), lg, op, ch), Effect(On(cfg, JsonFile), js, op, ch))
  {
    SimilarFacts(cfg, lg, js, op.id, op.now);
    var msg := Message(op.role, op.content, op.now);
    SimilarPut(lg, js, op.id,
      Trimmed(On(cfg, LangGraph), Touched(WithMessage(lg[op.id], msg), op.now)),
      Trimmed(On(cfg, JsonFile), Touched(WithMessage(js[op.id], msg), op.now)));
  }

  lemma SimilarCreate(cfg: Config, lg: Store, js: Store, op: Op, ch: Choice)
    requires Similar(lg, js) && op.Create?
    ensures Similar(Effect(On(cfg, LangGraph), lg, op, ch), Effect(On(cfg, JsonFile), js, op, ch))
  {
    SimilarSize(lg, js);
    SimilarWithout(lg, js, ch.victim);
    SimilarFacts(cfg, lg, js, op.id, op.now);
    SimilarPut(Evicted(On(cfg, LangGraph), lg, ch), Evicted(On(cfg, JsonFile), js, ch),
      op.id, Fresh(op.id, op.now), Fresh(op.id, op.now));
  }

  lemma SimilarEdit(cfg: Config, lg: Store, js: Store, op: Op, ch: Choice)
    requires Similar(lg, js) && (op.Summarize? || op.Clear?)
    ensures Similar(Effect(On(cfg, LangGraph), lg, op, ch), Effect(On(cfg, JsonFile), js, op, ch))
  {
    SimilarFacts(cfg, lg, js, op.id, op.now);
    SimilarChecked(cfg, lg, js, op.id, op.now);
    if Active(cfg, lg, op.id, op.now) {
      var a, b := lg[op.id], js[op.id];
      if op.Clear? {
        SimilarPut(lg, js, op.id, a.(messages := [], summary := "", lastActive := op.now),
          b.(messages := [], summary := "", lastActive := op.now));
      } else {
        SimilarPut(lg, js, op.id, a.(summary := op.summary), b.(summary := op.summary));
      }
    }
  }

  lemma SimilarEffect(cfg: Config, lg: Store, js: Store, op: Op, ch: Choice)
    requires Similar(lg, js) && Portable(On(cfg, LangGraph), lg, op)
    ensures Similar(Effect(On(cfg, LangGraph), lg, op, ch), Effect(On(cfg, JsonFile), js, op, ch))
  {
    match op
    case AddTurn(_, _, _, _) => SimilarTurn(cfg, lg, js, op, ch);
    case Create(_, _) => SimilarCreate(cfg, lg, js, op, ch);
    case Summarize(_, _, _) => SimilarEdit(cfg, lg, js, op, ch);
    case Clear(_, _) => SimilarEdit(cfg, lg, js, op, ch);
    case UpdateState(id, patch, now) =>
      if id in lg {
        SimilarPut(lg, js, id, lg[id].(state := lg[id].state + patch), js[id]);
        assert js[id := js[id]] == js;
      }
    case GetState(id, now) =>
    case Delete(id) => SimilarWithout(lg, js, id);
    case Read(id, now) => SimilarChecked(cfg, lg, js, id, now);
    case Purge(now) => SimilarExpired(cfg, lg, js, now);
  }

  /** The other branch really does tell the adapters apart. */
  lemma Diverges(cfg: Config, lg: Store, js: Store, op: Op, ch: Choice)
    requires Similar(lg, js) && !Portable(On(cfg, LangGraph), lg, op)
    ensures !Similar(Effect(On(cfg, LangGraph), lg, op, ch), Effect(On(cfg, JsonFile), js, op, ch))
  {
    var a, b := Effect(On(cfg, LangGraph), lg, op, ch), Effect(On(cfg, JsonFile), js, op, ch);
    SimilarFacts(cfg, lg, js, op.id, op.now);
    assert op.id in a.Keys <==> op.id !in b.Keys;
  }

  /** One operation: the adapters stay indistinguishable if and only if it is portable. */
  lemma SameStep(cfg: Config, lg: Store, js: Store, e: Event)
    requires cfg.Valid() && Similar(lg, js)
    requires Sound(cfg, lg) && Legal(On(cfg, LangGraph), lg, e.op, e.ch)
    ensures Legal(On(cfg, JsonFile), js, e.op, e.ch) && Sound(cfg, js)
    ensures e.op.GetState? || Answer(On(cfg, LangGraph), lg, e.op) == Answer(On(cfg, JsonFile), js, e.op)
    ensures
      Similar(Perform(On(cfg, LangGraph), lg, e), Perform(On(cfg, JsonFile), js, e))
      <==> Portable(On(cfg, LangGraph), lg, e.op)
  {
    SimilarLegal(cfg, lg, js, e.op, e.ch);
    SimilarAnswer(cfg, lg, js, e.op);
    SimilarSize(lg, js);
    assert Sound(cfg, js) by {
      forall id | id in js ensures js[id].sid == id { SimilarFacts(cfg, lg, js, id, 0); }
    }
    SectionSafe(On(cfg, LangGraph), lg, e.op, e.ch);
    SectionSafe(On(cfg, JsonFile), js, e.op, e.ch);
    if Portable(On(cfg, LangGraph), lg, e.op) {
      SimilarEffect(cfg, lg, js, e.op, e.ch);
    } else {
      Diverges(cfg, lg, js, e.op, e.ch);
    }
  }

  predicate AllPortable(cfg: Config, events: seq<Event>) {
    events == []
    || (var n := |events| - 1;
        AllPortable(cfg, events[..n])
        && Portable(On(cfg, LangGraph), Replay(On(cfg, LangGraph), events[..n]), events[n].op))
  }

  /** Whole runs: while every operation is portable, both adapters hold the same
      sessions and answer every further operation the same. */
  lemma {:induction false} SameRuns(cfg: Config, events: seq<Event>, op: Op)
    requires cfg.Valid() && Plausible(On(cfg, LangGraph), events) && AllPortable(cfg, events)
    ensures Plausible(On(cfg, JsonFile), events)
    ensures Similar(Replay(On(cfg, LangGraph), events), Replay(On(cfg, JsonFile), events))
    ensures op.GetState? ||
      Answer(On(cfg, LangGraph), Replay(On(cfg, LangGraph), events), op)
      == Answer(On(cfg, JsonFile), Replay(On(cfg, JsonFile), events), op)
  {
    var lg, js := On(cfg, LangGraph), On(cfg, JsonFile);
    if events != [] {
      var n := |events| - 1;
      SameRuns(cfg, events[..n], op);
      ReplaySound(lg, events[..n]);
      SameStep(cfg, Replay(lg, events[..n]), Replay(js, events[..n]), events[n]);
    }
    SimilarAnswer(cfg, Replay(lg, events), Replay(js, events), op);
  }

  /** Ids that have been created and not deleted, from the operations alone. */
  function Opened(events: seq<Event>): set<Id> {
    if events == [] then {}
    else
      var rest := Opened(events[..|events| - 1]);
      match events[|events| - 1].op
      case Create(id, _) => rest + {id}
      case Delete(id) => rest - {id}
      case _ => rest
  }

  /** Each turn goes to an id that was created first, and there is always room. */
  predicate CreatedFirst(cfg: Config, events: seq<Event>) {
    events == []
    || (var n := |events| - 1;
        CreatedFirst(cfg, events[..n])
        && (events[n].op.AddTurn? ==> events[n].op.id in Opened(events[..n]))
        && (events[n].op.Create? ==> |Opened(events[..n]) + {events[n].op.id}| <= cfg.maxSessions))
  }

  /** The usual discipline is enough: create each id before its first turn, with no
      expiry and no more ids than fit, and the adapters are interchangeable. */
  lemma {:induction false} CreatedFirstIsPortable(cfg: Config, events: seq<Event>)
    requires cfg.Valid() && cfg.timeout <= 0
    requires Plausible(On(cfg, LangGraph), events) && CreatedFirst(cfg, events)
    ensures AllPortable(cfg, events)
    ensures Replay(On(cfg, LangGraph), events).Keys == Opened(events)
  {
    if events != [] {
      var lg, n := On(cfg, LangGraph), |events| - 1;
      CreatedFirstIsPortable(cfg, events[..n]);
      ReplaySound(lg, events[..n]);
      OpenedStep(cfg, Replay(lg, events[..n]), events[n]);
    }
  }

  lemma OpenedStep(cfg: Config, m: Store, e: Event)
    requires cfg.Valid() && cfg.timeout <= 0
    requires Sound(cfg, m) && Legal(On(cfg, LangGraph), m, e.op, e.ch)
    requires e.op.AddTurn? ==> e.op.id in m
    requires e.op.Create? ==> |m.Keys + {e.op.id}| <= cfg.maxSessions
    ensures Portable(On(cfg, LangGraph), m, e.op)
    ensures Perform(On(cfg, LangGraph), m, e).Keys ==
      (match e.op
       case Create(id, _) => m.Keys + {id}
       case Delete(id) => m.Keys - {id}
       case _ => m.Keys)
  {
    var lg := On(cfg, LangGraph);
    SectionSafe(lg, m, e.op, e.ch);
    if e.op.Create? && e.op.id !in m {
      assert |m.Keys + {e.op.id}| == |m| + 1;
    }
    OpenedKeys(lg, m, e.op, e.ch);
  }

  lemma OpenedKeys(cfg: Config, m: Store, op: Op, ch: Choice)
    requires cfg.timeout <= 0 && cfg.backend == LangGraph
    requires op.AddTurn? ==> op.id in m
    requires op.Create? && op.id !in m ==> |m| < cfg.maxSessions
    ensures Effect(cfg, m, op, ch).Keys ==
      (match op
       case Create(id, _) => m.Keys + {id}
       case Delete(id) => m.Keys - {id}
       case _ => m.Keys)
  {
    if op.Purge? {
      assert ExpiredIds(cfg, m, op.now) == {};
    }
  }
}
