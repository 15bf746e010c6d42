/** The whole memory backend as a step system: critical sections, the write
    coalescer's timer and flush threads, individual saves, crashes and restarts.

    Locks.  `todo` is the rest of the critical section of the thread that holds the
    backend's lock.  The coalescer's lock is held between steps only while a
    threshold flush writes its batch from inside mark_dirty, that is, while `saving`
    is non-empty; a flush started by the timer writes its batch without any lock. */
module StoreRuns {
  import opened Prelude
  import opened Sessions
  import opened SessionLemmas

  /** self._timer: absent, counting down, or gone off with its thread in _flush. */
  datatype Timer = NoTimer | Armed | Fired

  datatype System = System(
    sessions: Store,        // self._sessions
    disk: Store,            // one file per id in the sessions directory
    dirty: set<Id>,         // self._dirty
    timer: Timer,
    waiting: nat,           // calls of _flush that have not taken their batch yet
    flights: multiset<Id>,  // ids that batches taken without the backend's lock still have to save
    saving: set<Id>,        // ids a threshold flush still has to save
    todo: Program)

  datatype Step =
    | Enter(op: Op, ch: Choice)  // an operation takes the free lock
    | Act                        // the lock holder performs its next action
    | SaveHeld(id: Id)           // the lock holder saves one id of a threshold flush
    | Fire                       // the timer's thread calls _flush
    | CallFlush                  // flush_now
    | CancelTimer                // the locked part of shutdown, which goes on to call _flush
    | Take                       // a waiting _flush takes its batch
    | Save(id: Id)               // a flush thread saves one id of its batch
    | Crash                      // the process dies and a new one loads the directory

  const SESSION_PREFIX := "session_"

  /** The files _load_sessions looks at: session_*.json. */
  predicate Loadable(id: Id) { SESSION_PREFIX <= id }

  lemma LoadableByName(id: Id)
    ensures Loadable(id) <==> |id| >= 8 && id[..8] == "session_"
  {
  }

  function Load(disk: Store): Store { map id | id in disk && Loadable(id) :: disk[id] }

  function Boot(disk: Store): System {
    System(Load(disk), disk, {}, NoTimer, 0, multiset{}, {}, Done)
  }

  /** _save_session: a deleted session is skipped. */
  function SaveTo(sessions: Store, disk: Store, id: Id): Store {
    if id in sessions then disk[id := sessions[id]] else disk
  }

  predicate Enabled(cfg: Config, s: System, step: Step) {
    match step
    case Enter(op, ch) => s.todo.Done? && s.saving == {} && Legal(cfg, s.sessions, op, ch)
    case Act => !s.todo.Done? && s.saving == {}
    case SaveHeld(id) => id in s.saving
    case Fire => s.timer.Armed?
    case CallFlush => true
    case CancelTimer => s.saving == {}
    case Take => s.waiting > 0 && s.saving == {}
    case Save(id) => id in s.flights
    case Crash => true
  }

  /** mark_dirty, up to the point where a threshold flush starts to save. */
  function Marked(cfg: Config, s: System, id: Id): System {
    var d := s.dirty + {id};
    if |d| >= cfg.batchThreshold then s.(dirty := {}, timer := NoTimer, saving := d)
    else s.(dirty := d, timer := if s.timer.NoTimer? then Armed else s.timer)
  }

  function Acted(cfg: Config, s: System): System
    requires !s.todo.Done?
  {
    match s.todo
    case Del(id, next) => s.(sessions := Without(s.sessions, id), todo := next)
    case Unlink(id, next) => s.(disk := Without(s.disk, id), todo := next)
    case Put(id, v, next) => s.(sessions := s.sessions[id := v], todo := next)
    case Mark(id, next) => Marked(cfg, s, id).(todo := next)
  }

  function Next(cfg: Config, s: System, step: Step): System
    requires Enabled(cfg, s, step)
  {
    match step
    case Enter(op, ch) => s.(todo := Section(cfg, s.sessions, op, ch))
    case Act => Acted(cfg, s)
    case SaveHeld(id) => s.(disk := SaveTo(s.sessions, s.disk, id), saving := s.saving - {id})
    case Fire => s.(timer := Fired, waiting := s.waiting + 1)
    case CallFlush => s.(waiting := s.waiting + 1)
    case CancelTimer => s.(timer := NoTimer, waiting := s.waiting + 1)
    case Take =>
      s.(dirty := {}, timer := NoTimer, waiting := s.waiting - 1, flights := s.flights + multiset(s.dirty))
    case Save(id) => s.(disk := SaveTo(s.sessions, s.disk, id), flights := s.flights - multiset{id})
    case Crash => Boot(s.disk)
  }

  lemma MarkKeeps(cfg: Config, s: System, id: Id)
    ensures Marked(cfg, s, id).sessions == s.sessions && Marked(cfg, s, id).disk == s.disk
  {
  }

  /** An action leaves the map that the section is working towards as it was. */
  lemma ActedOutcome(cfg: Config, s: System)
    requires !s.todo.Done?
    ensures Outcome(Acted(cfg, s).sessions, Acted(cfg, s).todo) == Outcome(s.sessions, s.todo)
  {
    hide Marked;
    if s.todo.Mark? { MarkKeeps(cfg, s, s.todo.id); }
  }

  // ---------------------------------------------------------------- invariant

  /** Some thread is certain to hand id to _save_session after now. */
  predicate Scheduled(s: System, id: Id) {
    id in s.dirty || id in s.flights || id in s.saving
  }

  predicate Stale(s: System, id: Id) {
    id in s.sessions && (id !in s.disk || s.disk[id] != s.sessions[id])
  }

  /** No change is lost: a live session whose file differs is about to be saved. */
  ghost predicate Covered(s: System) {
    forall id :: Stale(s, id) ==> Scheduled(s, id) || Marks(s.todo, id)
  }

  /** A file that a restart would load belongs to a live session, or its removal is
      the very next action of the lock holder. */
  ghost predicate NoGhosts(s: System) {
    forall id :: id in s.disk && Loadable(id) && id !in s.sessions ==> s.todo.Unlink? && s.todo.id == id
  }

  /** No mark is stranded: below the threshold, and with a flush on its way. */
  predicate Unstranded(cfg: Config, s: System) {
    |s.dirty| < cfg.batchThreshold
    && (s.dirty != {} ==> s.timer.Armed? || s.waiting > 0)
    && (s.timer.Fired? ==> s.waiting > 0)
  }

  ghost predicate NamedFiles(s: System) {
    forall id :: id in s.disk ==> s.disk[id].sid == id
  }

  ghost predicate Inv(cfg: Config, s: System) {
    Safe(cfg, s.sessions, s.todo) && Covered(s) && NoGhosts(s) && Unstranded(cfg, s) && NamedFiles(s)
  }

  lemma SafeIsSound(cfg: Config, m: Store, todo: Program)
    requires Safe(cfg, m, todo)
    ensures Sound(cfg, m)
  {
  }

  lemma BootInv(cfg: Config)
    requires cfg.Valid()
    ensures Inv(cfg, Boot(map[]))
  {
  }

  lemma DelInv(cfg: Config, s: System)
    requires cfg.Valid() && Inv(cfg, s) && Enabled(cfg, s, Act) && (s.todo.Del? || s.todo.Unlink?)
    ensures Inv(cfg, Acted(cfg, s))
  {
    var t := Acted(cfg, s);
    assert Safe(cfg, t.sessions, t.todo);
    forall j | Stale(t, j) ensures Scheduled(t, j) || Marks(t.todo, j) {
      assert Stale(s, j);
    }
  }

  lemma PutInv(cfg: Config, s: System)
    requires cfg.Valid() && Inv(cfg, s) && Enabled(cfg, s, Act) && s.todo.Put?
    ensures Inv(cfg, Acted(cfg, s))
  {
    var t := Acted(cfg, s);
    forall j | Stale(t, j) ensures Scheduled(t, j) || Marks(t.todo, j) {
      if j != s.todo.id { assert Stale(s, j); }
    }
  }

  lemma MarkCovered(cfg: Config, s: System)
    requires Covered(s) && s.todo.Mark? && s.saving == {}
    ensures Covered(Acted(cfg, s))
  {
    var t := Acted(cfg, s);
    forall j | Stale(t, j) ensures Scheduled(t, j) || Marks(t.todo, j) {
      assert Stale(s, j);
    }
  }

  lemma MarkUnstranded(cfg: Config, s: System)
    requires cfg.Valid() && Unstranded(cfg, s) && s.todo.Mark?
    ensures Unstranded(cfg, Acted(cfg, s))
  {
  }

  lemma MarkInv(cfg: Config, s: System)
    requires cfg.Valid() && Inv(cfg, s) && Enabled(cfg, s, Act) && s.todo.Mark?
    ensures Inv(cfg, Acted(cfg, s))
  {
    hide Safe, Covered, Unstranded, Marked;
    SafeMark(cfg, s.sessions, s.todo);
    MarkKeeps(cfg, s, s.todo.id);
    MarkCovered(cfg, s);
    MarkUnstranded(cfg, s);
  }

  lemma SafeMark(cfg: Config, m: Store, todo: Program)
    requires Safe(cfg, m, todo) && todo.Mark?
    ensures Safe(cfg, m, todo.next)
  {
  }

  lemma SaveInv(cfg: Config, s: System, step: Step)
    requires cfg.Valid() && Inv(cfg, s) && Enabled(cfg, s, step)
    requires step.Save? || step.SaveHeld?
    ensures Inv(cfg, Next(cfg, s, step))
  {
    var t := Next(cfg, s, step);
    SafeIsSound(cfg, s.sessions, s.todo);
    forall j | Stale(t, j) ensures Scheduled(t, j) || Marks(t.todo, j) {
      assert j != step.id;
      assert Stale(s, j);
    }
  }

  lemma FlushInv(cfg: Config, s: System, step: Step)
    requires cfg.Valid() && Inv(cfg, s) && Enabled(cfg, s, step)
    requires step.Fire? || step.CallFlush? || step.CancelTimer? || step.Take?
    ensures Inv(cfg, Next(cfg, s, step))
  {
    var t := Next(cfg, s, step);
    forall j | Stale(t, j) ensures Scheduled(t, j) || Marks(t.todo, j) {
      assert Stale(s, j);
      if j in s.dirty && step.Take? { assert multiset(s.dirty)[j] == 1; }
    }
  }

  lemma EnterInv(cfg: Config, s: System, op: Op, ch: Choice)
    requires cfg.Valid() && Inv(cfg, s) && Enabled(cfg, s, Enter(op, ch))
    ensures Inv(cfg, Next(cfg, s, Enter(op, ch)))
  {
    var t := Next(cfg, s, Enter(op, ch));
    SafeIsSound(cfg, s.sessions, s.todo);
    SectionSafe(cfg, s.sessions, op, ch);
    forall j | Stale(t, j) ensures Scheduled(t, j) {
      assert Stale(s, j);
    }
  }

  /** The id whose file is removed next, if any. */
  function Doomed(todo: Program): set<Id> {
    if todo.Unlink? then {todo.id} else {}
  }

  lemma CrashInv(cfg: Config, s: System)
    requires cfg.Valid() && Inv(cfg, s)
    ensures Inv(cfg, Boot(s.disk))
    ensures Load(s.disk).Keys <= s.sessions.Keys + Doomed(s.todo)
  {
    SafeIsSound(cfg, s.sessions, s.todo);
    LoadedFits(cfg, s);
  }

  /** A restart loads no more than memory held, and the file about to be removed. */
  lemma LoadedFits(cfg: Config, s: System)
    requires Safe(cfg, s.sessions, s.todo) && NoGhosts(s)
    ensures Load(s.disk).Keys <= s.sessions.Keys + Doomed(s.todo)
    ensures |Load(s.disk)| <= cfg.maxSessions
  {
    var keys := Load(s.disk).Keys;
    if s.todo.Unlink? {
      assert keys <= s.sessions.Keys + {s.todo.id};
      SubsetSize(keys, s.sessions.Keys + {s.todo.id});
    } else {
      SubsetSize(keys, s.sessions.Keys);
    }
  }

  /** Every step of every thread, a crash included, keeps the invariant. */
  lemma StepInv(cfg: Config, s: System, step: Step)
    requires cfg.Valid() && Inv(cfg, s) && Enabled(cfg, s, step)
    ensures Inv(cfg, Next(cfg, s, step))
  {
    match step
    case Enter(op, ch) => EnterInv(cfg, s, op, ch);
    case Act =>
      if s.todo.Mark? { MarkInv(cfg, s); } else if s.todo.Put? { PutInv(cfg, s); } else { DelInv(cfg, s); }
    case SaveHeld(_) => SaveInv(cfg, s, step);
    case Save(_) => SaveInv(cfg, s, step);
    case Crash => CrashInv(cfg, s);
    case _ => FlushInv(cfg, s, step);
  }
}
