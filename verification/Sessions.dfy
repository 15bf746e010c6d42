/** Conversation sessions on values: what each operation of a memory backend does
    while it holds the backend's lock.  An operation is compiled, at the moment the
    lock is taken, into the list of atomic actions the critical section performs;
    a single-threaded run executes the list, and the step system of StoreRuns
    interleaves it with the write coalescer's threads. */
module Sessions {
  import opened Prelude

  type Id = string

  datatype Message = Message(role: string, content: string, timestamp: int)

  datatype Session = Session(
    sid: Id, created: int, lastActive: int,
    messages: seq<Message>, state: map<string, string>, summary: string)

  type Store = map<Id, Session>

  /** Which of the two memory adapters is running. */
  datatype Backend = LangGraph | JsonFile

  /** `timeout` is in clock ticks, and 0 or less means sessions never expire. */
  datatype Config = Config(
    backend: Backend, maxTurns: int, timeout: int, maxSessions: nat, batchThreshold: nat)
  {
    predicate Valid() { maxSessions >= 1 && batchThreshold >= 1 }
  }

  predicate Expired(cfg: Config, s: Session, now: int) {
    cfg.timeout > 0 && now - s.lastActive > cfg.timeout
  }

  predicate Active(cfg: Config, m: Store, id: Id, now: int) {
    id in m && !Expired(cfg, m[id], now)
  }

  function Fresh(id: Id, now: int): Session {
    Session(id, now, now, [], map[], "")
  }

  /** An id whose last activity is no later than that of any other session. */
  predicate IsOldest(m: Store, id: Id) {
    id in m && forall j :: j in m ==> m[id].lastActive <= m[j].lastActive
  }

  /** Public operations; Read stands for get_messages, get_summary, get_history and
      get_session_info, Purge for list_sessions and cleanup_expired. */
  datatype Op =
    | Create(id: Id, now: int)
    | AddTurn(id: Id, role: string, content: string, now: int)
    | Summarize(id: Id, summary: string, now: int)
    | UpdateState(id: Id, patch: map<string, string>, now: int)
    | GetState(id: Id, now: int)
    | Clear(id: Id, now: int)
    | Delete(id: Id)
    | Read(id: Id, now: int)
    | Purge(now: int)

  /** What Python's iteration order decides: the victim among equally old sessions,
      and the order in which a purge visits the expired ones. */
  datatype Choice = Choice(victim: Id, order: seq<Id>)

  /** What a critical section still has to do, one atomic action at a time. */
  datatype Program =
    | Done
    | Del(id: Id, next: Program)              // the session leaves the map
    | Unlink(id: Id, next: Program)           // remove the session's file if it exists
    | Put(id: Id, s: Session, next: Program)  // one in-place change of a session
    | Mark(id: Id, next: Program)             // the session is marked dirty

  /** The body of delete_session, run under the lock that is already held. */
  function Remove(id: Id, next: Program): Program { Del(id, Unlink(id, next)) }

  function RemoveAll(ids: seq<Id>): Program {
    if ids == [] then Done else Remove(ids[0], RemoveAll(ids[1..]))
  }

  /** _ensure_active: an expired session is deleted on sight. */
  function DropExpired(cfg: Config, m: Store, id: Id, now: int, next: Program): Program {
    if id in m && Expired(cfg, m[id], now) then Remove(id, next) else next
  }

  /** The map once _ensure_active has run. */
  function Checked(cfg: Config, m: Store, id: Id, now: int): Store {
    if id in m && Expired(cfg, m[id], now) then Without(m, id) else m
  }

  function Evict(cfg: Config, m: Store, ch: Choice, next: Program): Program {
    if |m| >= cfg.maxSessions then Remove(ch.victim, next) else next
  }

  function WithMessage(s: Session, msg: Message): Session {
    s.(messages := s.messages + [msg])
  }

  function Touched(s: Session, now: int): Session { s.(lastActive := now) }

  function Trimmed(cfg: Config, s: Session): Session {
    if |s.messages| > cfg.maxTurns * 2 then s.(messages := PyTail(s.messages, cfg.maxTurns * 2)) else s
  }

  /** The in-place updates add_turn makes, then the mark; trimming a short list
      writes back the same value. */
  function Append(cfg: Config, s: Session, msg: Message, now: int): Program {
    var a := WithMessage(s, msg);
    var t := Touched(a, now);
    Put(s.sid, a, Put(s.sid, t, Put(s.sid, Trimmed(cfg, t), Mark(s.sid, Done))))
  }

  function Wipe(s: Session, now: int): Program {
    var a := s.(messages := []);
    var b := a.(summary := "");
    Put(s.sid, a, Put(s.sid, b, Put(s.sid, Touched(b, now), Mark(s.sid, Done))))
  }

  /** The critical section of each operation, from the map it finds. */
  function Section(cfg: Config, m: Store, op: Op, ch: Choice): Program {
    match op
    case Create(id, now) =>
      if id in m then Done else Evict(cfg, m, ch, Put(id, Fresh(id, now), Mark(id, Done)))
    case AddTurn(id, role, content, now) =>
      var base := Checked(cfg, m, id, now);
      var msg := Message(role, content, now);
      if id in base then Append(cfg, base[id], msg, now)
      else if cfg.backend == JsonFile then DropExpired(cfg, m, id, now, Done)
      else
        DropExpired(cfg, m, id, now,
          Evict(cfg, base, ch,
            Put(id, Fresh(id, now), Append(cfg, Fresh(id, now), msg, now))))
    case Summarize(id, summary, now) =>
      if summary == "" then Done
      else if Active(cfg, m, id, now) then Put(id, m[id].(summary := summary), Mark(id, Done))
      else DropExpired(cfg, m, id, now, Done)
    case UpdateState(id, patch, now) =>
      if cfg.backend == JsonFile then Done
      else if Active(cfg, m, id, now) then Put(id, m[id].(state := m[id].state + patch), Mark(id, Done))
      else DropExpired(cfg, m, id, now, Done)
    case GetState(id, now) =>
      if cfg.backend == JsonFile then Done else DropExpired(cfg, m, id, now, Done)
    case Clear(id, now) =>
      if Active(cfg, m, id, now) then Wipe(m[id], now) else DropExpired(cfg, m, id, now, Done)
    case Delete(id) => if id in m then Remove(id, Done) else Done
    case Read(id, now) => DropExpired(cfg, m, id, now, Done)
    case Purge(now) => RemoveAll(ch.order)
  }

  /** The map in which a full store looks for a victim, if the operation adds an id. */
  function EvictionBase(cfg: Config, m: Store, op: Op): Option<Store> {
    match op
    case Create(id, now) => if id in m then None else Some(m)
    case AddTurn(id, _, _, now) =>
      var base := Checked(cfg, m, id, now);
      if id in base || cfg.backend == JsonFile then None else Some(base)
    case _ => None
  }

  predicate Enumerates(order: seq<Id>, ids: set<Id>) {
    (forall i :: 0 <= i < |order| ==> order[i] in ids)
    && (forall id :: id in ids ==> id in order)
    && (forall i, j :: 0 <= i < j < |order| ==> order[i] != order[j])
  }

  function ExpiredIds(cfg: Config, m: Store, now: int): set<Id> {
    set id | id in m && Expired(cfg, m[id], now)
  }

  /** The choice is one Python could have made. */
  predicate Legal(cfg: Config, m: Store, op: Op, ch: Choice) {
    (op.Purge? ==> Enumerates(ch.order, ExpiredIds(cfg, m, op.now)))
    && var base := EvictionBase(cfg, m, op);
       (base.Some? && |base.value| >= cfg.maxSessions ==> IsOldest(base.value, ch.victim))
  }

  /** Every session is stored under its own id and the map is within capacity. */
  predicate Sound(cfg: Config, m: Store) {
    |m| <= cfg.maxSessions && forall id :: id in m ==> m[id].sid == id
  }

  /** The map once a program has run. */
  function Outcome(m: Store, todo: Program): Store
    decreases todo
  {
    match todo
    case Done => m
    case Del(id, next) => Outcome(Without(m, id), next)
    case Unlink(_, next) => Outcome(m, next)
    case Put(id, s, next) => Outcome(m[id := s], next)
    case Mark(_, next) => Outcome(m, next)
  }

  predicate Marks(todo: Program, id: Id) {
    match todo
    case Done => false
    case Mark(j, next) => j == id || Marks(next, id)
    case Del(_, next) => Marks(next, id)
    case Unlink(_, next) => Marks(next, id)
    case Put(_, _, next) => Marks(next, id)
  }

  /** What makes the rest of a critical section safe to interleave: the map is within
      capacity at every instant, a deleted id's file is removed next, before its id
      can return, and every change is followed by a mark of the changed id. */
  predicate Safe(cfg: Config, m: Store, todo: Program)
    decreases todo
  {
    Sound(cfg, m)
    && match todo
       case Done => true
       case Del(id, next) => id in m && next.Unlink? && next.id == id && Safe(cfg, Without(m, id), next)
       case Unlink(id, next) => id !in m && |m| < cfg.maxSessions && Safe(cfg, m, next)
       case Put(id, s, next) => Marks(next, id) && Safe(cfg, m[id := s], next)
       case Mark(_, next) => Safe(cfg, m, next)
  }
}
