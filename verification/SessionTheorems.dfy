/** Theorems about runs of session operations taken one at a time (the lock makes
    them so): who disappears and why, what stays untouched, and the message window. */
module SessionTheorems {
  import opened Prelude
  import opened Sessions
  import opened SessionLemmas

  datatype Event = Event(op: Op, ch: Choice)

  function Perform(cfg: Config, m: Store, e: Event): Store {
    Outcome(m, Section(cfg, m, e.op, e.ch))
  }

  /** The map after a run from an empty one; the last event is the most recent. */
  function Replay(cfg: Config, events: seq<Event>): Store {
    if events == [] then map[]
    else Perform(cfg, Replay(cfg, events[..|events| - 1]), events[|events| - 1])
  }

  /** Every choice in the run is one Python could have made. */
  predicate Plausible(cfg: Config, events: seq<Event>) {
    events == []
    || (var n := |events| - 1;
        Plausible(cfg, events[..n])
        && Legal(cfg, Replay(cfg, events[..n]), events[n].op, events[n].ch))
  }

  lemma SafeEndsSound(cfg: Config, m: Store, todo: Program)
    requires Safe(cfg, m, todo)
    ensures Sound(cfg, Outcome(m, todo))
    decreases todo
  {
  }

  lemma {:induction false} ReplaySound(cfg: Config, events: seq<Event>)
    requires cfg.Valid() && Plausible(cfg, events)
    ensures Sound(cfg, Replay(cfg, events))
  {
    if events != [] {
      var n := |events| - 1;
      ReplaySound(cfg, events[..n]);
      var m := Replay(cfg, events[..n]);
      SectionSafe(cfg, m, events[n].op, events[n].ch);
      SafeEndsSound(cfg, m, Section(cfg, m, events[n].op, events[n].ch));
    }
  }

  // -------------------------------------------------------------- who disappears

  /** id was evicted to admit another: it was a least recently active session of a full
      map. */
  predicate GaveWay(cfg: Config, m: Store, op: Op, ch: Choice, id: Id) {
    var base := EvictionBase(cfg, m, op);
    base.Some? && |base.value| == cfg.maxSessions && id in base.value
    && (forall j :: j in base.value ==> m[id].lastActive <= m[j].lastActive)
    && !op.Purge? && op.id !in base.value && op.id in Effect(cfg, m, op, ch)
  }

  lemma EvictedGone(cfg: Config, m: Store, ch: Choice, id: Id)
    requires id in m && id !in Evicted(cfg, m, ch)
    ensures id == ch.victim && |m| >= cfg.maxSessions
  {
  }

  lemma CheckedGone(cfg: Config, m: Store, id: Id, own: Id, now: int)
    requires id in m && id !in Checked(cfg, m, own, now)
    ensures Expired(cfg, m[id], now)
  {
  }

  lemma TurnDisappears(cfg: Config, m: Store, op: Op, ch: Choice, id: Id)
    requires Legal(cfg, m, op, ch) && |m| <= cfg.maxSessions && op.AddTurn?
    requires id in m && id !in Effect(cfg, m, op, ch)
    ensures Expired(cfg, m[id], op.now) || GaveWay(cfg, m, op, ch, id)
  {
    hide Expired, Trimmed;
    var base := Checked(cfg, m, op.id, op.now);
    assert |base| <= |m|;
    if id !in base {
      CheckedGone(cfg, m, id, op.id, op.now);
    } else if op.id !in base && cfg.backend != JsonFile {
      EvictedGone(cfg, base, ch, id);
    }
  }

  lemma EffectDisappears(cfg: Config, m: Store, op: Op, ch: Choice, id: Id)
    requires Legal(cfg, m, op, ch) && |m| <= cfg.maxSessions
    requires id in m && id !in Effect(cfg, m, op, ch)
    ensures op == Delete(id) || (!op.Delete? && Expired(cfg, m[id], op.now)) || GaveWay(cfg, m, op, ch, id)
  {
    hide Expired, Trimmed;
    if op.AddTurn? {
      TurnDisappears(cfg, m, op, ch, id);
    } else if op.Create? {
      EvictedGone(cfg, m, ch, id);
    } else if !op.Delete? && !op.Purge? {
      CheckedGone(cfg, m, id, op.id, op.now);
    }
  }

  /** A session leaves the map only by deletion, by expiry, or as the least recently
      active session of a full map that had to admit a new id. */
  lemma WhoDisappears(cfg: Config, m: Store, e: Event, id: Id)
    requires cfg.Valid() && Sound(cfg, m) && Legal(cfg, m, e.op, e.ch)
    requires id in m && id !in Perform(cfg, m, e)
    ensures
      || e.op == Delete(id)
      || (!e.op.Delete? && Expired(cfg, m[id], e.op.now))
      || GaveWay(cfg, m, e.op, e.ch, id)
  {
    PerformIsEffect(cfg, m, e);
    EffectDisappears(cfg, m, e.op, e.ch, id);
  }

  lemma EffectOthers(cfg: Config, m: Store, op: Op, ch: Choice, id: Id)
    requires (op.Purge? || op.id != id) && id in Effect(cfg, m, op, ch)
    ensures id in m && Effect(cfg, m, op, ch)[id] == m[id]
  {
    if op.AddTurn? || op.Create? {
      assert forall base: Store ::
        id in Evicted(cfg, base, ch) ==> id in base && Evicted(cfg, base, ch)[id] == base[id];
    }
  }

  /** An operation changes no session but its own. */
  lemma OthersUntouched(cfg: Config, m: Store, e: Event, id: Id)
    requires cfg.Valid() && Sound(cfg, m) && Legal(cfg, m, e.op, e.ch)
    requires e.op.Purge? || e.op.id != id
    requires id in Perform(cfg, m, e)
    ensures id in m && Perform(cfg, m, e)[id] == m[id]
  {
    PerformIsEffect(cfg, m, e);
    EffectOthers(cfg, m, e.op, e.ch, id);
  }

  lemma PerformIsEffect(cfg: Config, m: Store, e: Event)
    requires cfg.Valid() && Sound(cfg, m) && Legal(cfg, m, e.op, e.ch)
    ensures Perform(cfg, m, e) == Effect(cfg, m, e.op, e.ch)
  {
    SectionSafe(cfg, m, e.op, e.ch);
  }

  // ------------------------------------------------------------- message window

  type Log = map<Id, seq<Message>>

  /** Everything said in session id since it was created or last cleared, with no
      window, once op has been carried out: the reference for the stored lists. */
  function Said(cfg: Config, m: Store, log: Log, op: Op, id: Id): seq<Message> {
    var said := if id in log && id in m then log[id] else [];
    match op
    case AddTurn(j, role, content, now) =>
      if j != id then said
      else (if Active(cfg, m, id, now) then said else []) + [Message(role, content, now)]
    case Clear(j, now) => if j == id && Active(cfg, m, id, now) then [] else said
    case _ => said
  }

  function Logged(cfg: Config, m: Store, log: Log, e: Event): Log {
    map id | id in Perform(cfg, m, e) :: Said(cfg, m, log, e.op, id)
  }

  function Transcript(cfg: Config, events: seq<Event>): Log {
    if events == [] then map[]
    else
      var n := |events| - 1;
      Logged(cfg, Replay(cfg, events[..n]), Transcript(cfg, events[..n]), events[n])
  }

  /** How many messages the configuration means to keep. */
  function WindowSize(cfg: Config): nat {
    if cfg.maxTurns > 0 then 2 * cfg.maxTurns else 0
  }

  ghost predicate Windowed(cfg: Config, m: Store, log: Log) {
    m.Keys == log.Keys && forall id :: id in m ==> m[id].messages == Last(log[id], WindowSize(cfg))
  }

  lemma TrimKeepsWindow(cfg: Config, s: Session, log: seq<Message>, msg: Message, now: int)
    requires cfg.maxTurns != 0 && s.messages == Last(log, WindowSize(cfg))
    ensures
      Trimmed(cfg, Touched(WithMessage(s, msg), now)).messages == Last(log + [msg], WindowSize(cfg))
  {
    var t := Touched(WithMessage(s, msg), now);
    assert t.messages == s.messages + [msg];
    if cfg.maxTurns < 0 {
      assert s.messages == [];
      assert Last(log + [msg], 0) == [];
    } else if |log| + 1 > WindowSize(cfg) {
      assert |t.messages| <= WindowSize(cfg) + 1;
    } else {
      assert Last(log, WindowSize(cfg)) == log;
    }
  }

  lemma WindowAddTurn(cfg: Config, m: Store, log: Log, e: Event)
    requires cfg.Valid() && cfg.maxTurns != 0 && e.op.AddTurn?
    requires Sound(cfg, m) && Legal(cfg, m, e.op, e.ch) && Windowed(cfg, m, log)
    requires e.op.id in Perform(cfg, m, e)
    ensures Perform(cfg, m, e)[e.op.id].messages == Last(Said(cfg, m, log, e.op, e.op.id), WindowSize(cfg))
  {
    AddTurnSafe(cfg, m, e.op, e.ch);
    var id, now := e.op.id, e.op.now;
    var msg := Message(e.op.role, e.op.content, now);
    if Active(cfg, m, id, now) {
      TrimKeepsWindow(cfg, m[id], log[id], msg, now);
    } else {
      assert [] + [msg] == [msg];
      TrimKeepsWindow(cfg, Fresh(id, now), [], msg, now);
    }
  }

  lemma WindowEdit(cfg: Config, m: Store, log: Log, e: Event)
    requires cfg.Valid() && !e.op.AddTurn? && !e.op.Purge?
    requires Sound(cfg, m) && Legal(cfg, m, e.op, e.ch) && Windowed(cfg, m, log)
    requires e.op.id in Perform(cfg, m, e)
    ensures Perform(cfg, m, e)[e.op.id].messages == Last(Said(cfg, m, log, e.op, e.op.id), WindowSize(cfg))
  {
    SectionSafe(cfg, m, e.op, e.ch);
    assert e.op.id in m || e.op.Create?;
  }

  lemma WindowStep(cfg: Config, m: Store, log: Log, e: Event)
    requires cfg.Valid() && cfg.maxTurns != 0
    requires Sound(cfg, m) && Legal(cfg, m, e.op, e.ch) && Windowed(cfg, m, log)
    ensures Windowed(cfg, Perform(cfg, m, e), Logged(cfg, m, log, e))
  {
    forall id | id in Perform(cfg, m, e)
      ensures Perform(cfg, m, e)[id].messages == Last(Said(cfg, m, log, e.op, id), WindowSize(cfg))
    {
      if e.op.Purge? || e.op.id != id {
        OthersUntouched(cfg, m, e, id);
      } else if e.op.AddTurn? {
        WindowAddTurn(cfg, m, log, e);
      } else {
        WindowEdit(cfg, m, log, e);
      }
    }
  }

  /** With max_turns other than 0, a session's messages are at every moment exactly
      the last 2*max_turns of everything appended since its creation or last clear. */
  lemma {:induction false} MessagesAreTheWindow(cfg: Config, events: seq<Event>)
    requires cfg.Valid() && cfg.maxTurns != 0 && Plausible(cfg, events)
    ensures Windowed(cfg, Replay(cfg, events), Transcript(cfg, events))
  {
    if events != [] {
      var n := |events| - 1;
      MessagesAreTheWindow(cfg, events[..n]);
      ReplaySound(cfg, events[..n]);
      WindowStep(cfg, Replay(cfg, events[..n]), Transcript(cfg, events[..n]), events[n]);
    }
  }

  /** messages[-0:] is the whole list, so max_turns = 0 keeps everything. */
  lemma ZeroTurnsKeepsAll(cfg: Config) returns (events: seq<Event>)
    requires cfg.Valid() && cfg.backend == LangGraph && cfg.maxTurns == 0
    ensures Plausible(cfg, events)
    ensures !Windowed(cfg, Replay(cfg, events), Transcript(cfg, events))
  {
    var e := Event(AddTurn("a", "user", "hi", 0), Choice("", []));
    var none: Store := map[];
    events := [e];
    assert events[..0] == [] && events[|events| - 1] == e;
    assert Replay(cfg, []) == none && Plausible(cfg, []);
    assert Legal(cfg, none, e.op, e.ch);
    assert Replay(cfg, events) == Perform(cfg, none, e);
    PerformIsEffect(cfg, none, e);
    assert Perform(cfg, none, e)["a"].messages == [Message("user", "hi", 0)];
    assert forall log: seq<Message> :: Last(log, WindowSize(cfg)) == [];
  }

  /** The configuration is what decides: the window holds in every run if and only if
      max_turns is not 0. */
  lemma WindowExactly(cfg: Config)
    requires cfg.Valid() && cfg.backend == LangGraph
    ensures
      cfg.maxTurns != 0 <==>
      forall events :: Plausible(cfg, events) ==> Windowed(cfg, Replay(cfg, events), Transcript(cfg, events))
  {
    if cfg.maxTurns != 0 {
      forall events | Plausible(cfg, events)
        ensures Windowed(cfg, Replay(cfg, events), Transcript(cfg, events))
      {
        MessagesAreTheWindow(cfg, events);
      }
    } else {
      var events := ZeroTurnsKeepsAll(cfg);
      hide Plausible, Windowed, Replay, Transcript;
    }
  }
}
