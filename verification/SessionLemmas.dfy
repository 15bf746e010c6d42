/** Facts about one session operation at a time: its critical section is safe to
    interleave, and its effect keeps the capacity and the message window. */
module SessionLemmas {
  import opened Prelude
  import opened Sessions

  function Evicted(cfg: Config, m: Store, ch: Choice): Store {
    if |m| >= cfg.maxSessions then Without(m, ch.victim) else m
  }

  /** The whole effect of an operation on the map, in closed form. */
  function Effect(cfg: Config, m: Store, op: Op, ch: Choice): Store {
    match op
    case Create(id, now) =>
      if id in m then m else Evicted(cfg, m, ch)[id := Fresh(id, now)]
    case AddTurn(id, role, content, now) =>
      var base := Checked(cfg, m, id, now);
      var msg := Message(role, content, now);
      if id in base then base[id := Trimmed(cfg, Touched(WithMessage(base[id], msg), now))]
      else if cfg.backend == JsonFile then base
      else Evicted(cfg, base, ch)[id := Trimmed(cfg, Touched(WithMessage(Fresh(id, now), msg), now))]
    case Summarize(id, summary, now) =>
      if summary == "" then m
      else if Active(cfg, m, id, now) then m[id := m[id].(summary := summary)]
      else Checked(cfg, m, id, now)
    case UpdateState(id, patch, now) =>
      if cfg.backend == JsonFile then m
      else if Active(cfg, m, id, now) then m[id := m[id].(state := m[id].state + patch)]
      else Checked(cfg, m, id, now)
    case GetState(id, now) => if cfg.backend == JsonFile then m else Checked(cfg, m, id, now)
    case Clear(id, now) =>
      if Active(cfg, m, id, now) then m[id := m[id].(messages := [], summary := "", lastActive := now)]
      else Checked(cfg, m, id, now)
    case Delete(id) => Without(m, id)
    case Read(id, now) => Checked(cfg, m, id, now)
    case Purge(now) => m - ExpiredIds(cfg, m, now)
  }

  lemma PutSound(cfg: Config, m: Store, s: Session)
    requires Sound(cfg, m) && (s.sid in m || |m| < cfg.maxSessions)
    ensures Sound(cfg, m[s.sid := s])
  {
    if s.sid in m {
      assert m[s.sid := s].Keys == m.Keys;
    } else {
      assert m[s.sid := s].Keys == m.Keys + {s.sid};
    }
  }

  lemma RemoveSafe(cfg: Config, m: Store, id: Id, next: Program)
    requires Sound(cfg, m) && id in m
    requires Sound(cfg, Without(m, id)) ==> Safe(cfg, Without(m, id), next)
    ensures Sound(cfg, Without(m, id)) && Safe(cfg, m, Remove(id, next))
    ensures Outcome(m, Remove(id, next)) == Outcome(Without(m, id), next)
  {
  }

  /** Removing an enumerated set of ids removes exactly those. */
  lemma {:induction false} RemoveAllSafe(cfg: Config, m: Store, order: seq<Id>, gone: set<Id>)
    requires Sound(cfg, m) && gone <= m.Keys && Enumerates(order, gone)
    ensures Safe(cfg, m, RemoveAll(order))
    ensures Outcome(m, RemoveAll(order)) == m - gone
    decreases |order|
  {
    if order == [] {
      assert m - gone == m;
    } else {
      var id := order[0];
      EnumeratesTail(order, gone);
      WithoutTwice(m, id, gone);
      RemoveAllSafe(cfg, Without(m, id), order[1..], gone - {id});
      RemoveSafe(cfg, m, id, RemoveAll(order[1..]));
    }
  }

  lemma WithoutTwice(m: Store, id: Id, gone: set<Id>)
    requires id in gone
    ensures Without(m, id) - (gone - {id}) == m - gone
  {
  }

  lemma EnumeratesTail(order: seq<Id>, ids: set<Id>)
    requires order != [] && Enumerates(order, ids)
    ensures order[0] in ids && Enumerates(order[1..], ids - {order[0]})
  {
    forall j | j in ids - {order[0]} ensures j in order[1..] {
      assert j in order;
    }
  }

  lemma PutSafe(cfg: Config, m: Store, s: Session, next: Program)
    requires Sound(cfg, m) && (s.sid in m || |m| < cfg.maxSessions)
    requires Marks(next, s.sid)
    requires Sound(cfg, m[s.sid := s]) ==> Safe(cfg, m[s.sid := s], next)
    ensures Safe(cfg, m, Put(s.sid, s, next)) && Sound(cfg, m[s.sid := s])
    ensures Outcome(m, Put(s.sid, s, next)) == Outcome(m[s.sid := s], next)
  {
    PutSound(cfg, m, s);
  }

  lemma PutTwice(m: Store, a: Session, b: Session)
    requires a.sid == b.sid
    ensures m[a.sid := a][b.sid := b] == m[b.sid := b]
  {
  }

  lemma OnePutSafe(cfg: Config, m: Store, s: Session)
    requires Sound(cfg, m) && (s.sid in m || |m| < cfg.maxSessions)
    ensures Safe(cfg, m, Put(s.sid, s, Mark(s.sid, Done)))
    ensures Outcome(m, Put(s.sid, s, Mark(s.sid, Done))) == m[s.sid := s]
  {
    PutSafe(cfg, m, s, Mark(s.sid, Done));
  }

  /** Three successive changes of one session, then its mark. */
  lemma ThreePutsSafe(cfg: Config, m: Store, a: Session, b: Session, c: Session)
    requires Sound(cfg, m) && (a.sid in m || |m| < cfg.maxSessions)
    requires a.sid == b.sid == c.sid
    ensures
      var todo := Put(a.sid, a, Put(a.sid, b, Put(a.sid, c, Mark(a.sid, Done))));
      Safe(cfg, m, todo) && Outcome(m, todo) == m[a.sid := c]
  {
    var id := a.sid;
    var last := Put(id, c, Mark(id, Done));
    PutSound(cfg, m, a);
    PutSound(cfg, m[id := a], b);
    OnePutSafe(cfg, m[id := a][id := b], c);
    assert Marks(last, id);
    PutSafe(cfg, m[id := a], b, last);
    assert Marks(Put(id, b, last), id);
    PutSafe(cfg, m, a, Put(id, b, last));
    PutTwice(m[id := a], b, c);
    PutTwice(m, a, c);
  }

  lemma AppendSafe(cfg: Config, m: Store, s: Session, msg: Message, now: int)
    requires Sound(cfg, m) && (s.sid in m || |m| < cfg.maxSessions)
    ensures Safe(cfg, m, Append(cfg, s, msg, now)) && Marks(Append(cfg, s, msg, now), s.sid)
    ensures Outcome(m, Append(cfg, s, msg, now)) == m[s.sid := Trimmed(cfg, Touched(WithMessage(s, msg), now))]
  {
    var a := WithMessage(s, msg);
    var t := Touched(a, now);
    var u := Trimmed(cfg, t);
    ThreePutsSafe(cfg, m, a, t, u);
    assert Marks(Put(s.sid, u, Mark(s.sid, Done)), s.sid);
  }

  lemma EvictSafe(cfg: Config, m: Store, ch: Choice, next: Program)
    requires cfg.Valid() && Sound(cfg, m)
    requires |m| >= cfg.maxSessions ==> IsOldest(m, ch.victim)
    requires
      Sound(cfg, Evicted(cfg, m, ch)) && |Evicted(cfg, m, ch)| < cfg.maxSessions ==>
      Safe(cfg, Evicted(cfg, m, ch), next)
    ensures Safe(cfg, m, Evict(cfg, m, ch, next))
    ensures Outcome(m, Evict(cfg, m, ch, next)) == Outcome(Evicted(cfg, m, ch), next)
  {
    if |m| >= cfg.maxSessions {
      RemoveSafe(cfg, m, ch.victim, next);
    }
  }

  lemma DropSafe(cfg: Config, m: Store, id: Id, now: int, next: Program)
    requires Sound(cfg, m)
    requires Sound(cfg, Checked(cfg, m, id, now)) ==> Safe(cfg, Checked(cfg, m, id, now), next)
    ensures Safe(cfg, m, DropExpired(cfg, m, id, now, next))
    ensures Outcome(m, DropExpired(cfg, m, id, now, next)) == Outcome(Checked(cfg, m, id, now), next)
  {
    if id in m && Expired(cfg, m[id], now) {
      RemoveSafe(cfg, m, id, next);
    }
  }

  /** add_turn on an id that is not in the map: make room, create, append. */
  lemma NewTurnSafe(cfg: Config, m: Store, id: Id, msg: Message, now: int, ch: Choice)
    requires cfg.Valid() && Sound(cfg, m)
    requires |m| >= cfg.maxSessions ==> IsOldest(m, ch.victim)
    ensures
      var s := Fresh(id, now);
      var todo := Evict(cfg, m, ch, Put(id, s, Append(cfg, s, msg, now)));
      Safe(cfg, m, todo)
      && Outcome(m, todo) == Evicted(cfg, m, ch)[id := Trimmed(cfg, Touched(WithMessage(s, msg), now))]
  {
    var s := Fresh(id, now);
    var room := Evicted(cfg, m, ch);
    if |m| >= cfg.maxSessions { RemoveSafe(cfg, m, ch.victim, Done); }
    PutSound(cfg, room, s);
    AppendSafe(cfg, room[id := s], s, msg, now);
    PutSafe(cfg, room, s, Append(cfg, s, msg, now));
    PutTwice(room, s, Trimmed(cfg, Touched(WithMessage(s, msg), now)));
    EvictSafe(cfg, m, ch, Put(id, s, Append(cfg, s, msg, now)));
  }

  lemma AddTurnSafe(cfg: Config, m: Store, op: Op, ch: Choice)
    requires cfg.Valid() && Sound(cfg, m) && op.AddTurn? && Legal(cfg, m, op, ch)
    ensures Safe(cfg, m, Section(cfg, m, op, ch))
    ensures Outcome(m, Section(cfg, m, op, ch)) == Effect(cfg, m, op, ch)
  {
    var id, now := op.id, op.now;
    var base := Checked(cfg, m, id, now);
    var msg := Message(op.role, op.content, now);
    DropSafe(cfg, m, id, now, Done);
    if id in base {
      AppendSafe(cfg, base, base[id], msg, now);
    } else if cfg.backend == LangGraph {
      var s := Fresh(id, now);
      NewTurnSafe(cfg, base, id, msg, now, ch);
      DropSafe(cfg, m, id, now, Evict(cfg, base, ch, Put(id, s, Append(cfg, s, msg, now))));
    }
  }

  lemma CreateSafe(cfg: Config, m: Store, op: Op, ch: Choice)
    requires cfg.Valid() && Sound(cfg, m) && op.Create? && Legal(cfg, m, op, ch)
    ensures Safe(cfg, m, Section(cfg, m, op, ch))
    ensures Outcome(m, Section(cfg, m, op, ch)) == Effect(cfg, m, op, ch)
  {
    if op.id !in m {
      var s := Fresh(op.id, op.now);
      if |m| >= cfg.maxSessions { RemoveSafe(cfg, m, ch.victim, Done); }
      OnePutSafe(cfg, Evicted(cfg, m, ch), s);
      EvictSafe(cfg, m, ch, Put(s.sid, s, Mark(s.sid, Done)));
    }
  }

  lemma ClearSafe(cfg: Config, m: Store, s: Session, now: int)
    requires Sound(cfg, m) && s.sid in m
    ensures Safe(cfg, m, Wipe(s, now))
    ensures Outcome(m, Wipe(s, now)) == m[s.sid := s.(messages := [], summary := "", lastActive := now)]
  {
    var a := s.(messages := []);
    var b := a.(summary := "");
    ThreePutsSafe(cfg, m, a, b, Touched(b, now));
  }

  lemma SummarizeSafe(cfg: Config, m: Store, op: Op, ch: Choice)
    requires Sound(cfg, m) && op.Summarize?
    ensures Safe(cfg, m, Section(cfg, m, op, ch))
    ensures Outcome(m, Section(cfg, m, op, ch)) == Effect(cfg, m, op, ch)
  {
    DropSafe(cfg, m, op.id, op.now, Done);
    if Active(cfg, m, op.id, op.now) { OnePutSafe(cfg, m, m[op.id].(summary := op.summary)); }
  }

  lemma UpdateStateSafe(cfg: Config, m: Store, op: Op, ch: Choice)
    requires Sound(cfg, m) && op.UpdateState?
    ensures Safe(cfg, m, Section(cfg, m, op, ch))
    ensures Outcome(m, Section(cfg, m, op, ch)) == Effect(cfg, m, op, ch)
  {
    DropSafe(cfg, m, op.id, op.now, Done);
    if Active(cfg, m, op.id, op.now) { OnePutSafe(cfg, m, m[op.id].(state := m[op.id].state + op.patch)); }
  }

  lemma ClearOpSafe(cfg: Config, m: Store, op: Op, ch: Choice)
    requires Sound(cfg, m) && op.Clear?
    ensures Safe(cfg, m, Section(cfg, m, op, ch))
    ensures Outcome(m, Section(cfg, m, op, ch)) == Effect(cfg, m, op, ch)
  {
    DropSafe(cfg, m, op.id, op.now, Done);
    if Active(cfg, m, op.id, op.now) { ClearSafe(cfg, m, m[op.id], op.now); }
  }

  lemma DropOpSafe(cfg: Config, m: Store, op: Op, ch: Choice)
    requires Sound(cfg, m) && (op.GetState? || op.Read? || op.Delete?)
    ensures Safe(cfg, m, Section(cfg, m, op, ch))
    ensures Outcome(m, Section(cfg, m, op, ch)) == Effect(cfg, m, op, ch)
  {
    if op.Delete? {
      if op.id in m { RemoveSafe(cfg, m, op.id, Done); }
    } else {
      DropSafe(cfg, m, op.id, op.now, Done);
    }
  }

  /** Every critical section is safe to interleave and amounts to its closed form. */
  lemma SectionSafe(cfg: Config, m: Store, op: Op, ch: Choice)
    requires cfg.Valid() && Sound(cfg, m) && Legal(cfg, m, op, ch)
    ensures Safe(cfg, m, Section(cfg, m, op, ch))
    ensures Outcome(m, Section(cfg, m, op, ch)) == Effect(cfg, m, op, ch)
  {
    if op.Create? {
      CreateSafe(cfg, m, op, ch);
    } else if op.AddTurn? {
      AddTurnSafe(cfg, m, op, ch);
    } else if op.Purge? {
      RemoveAllSafe(cfg, m, ch.order, ExpiredIds(cfg, m, op.now));
    } else if op.GetState? || op.Read? || op.Delete? {
      DropOpSafe(cfg, m, op, ch);
    } else if op.Clear? {
      ClearOpSafe(cfg, m, op, ch);
    } else if op.Summarize? {
      SummarizeSafe(cfg, m, op, ch);
    } else {
      UpdateStateSafe(cfg, m, op, ch);
    }
  }
}
