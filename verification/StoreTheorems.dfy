/** Theorems about whole runs of the memory backend: interleavings of any length of
    session operations, timer fires, flushes, saves, crashes and restarts. */
module StoreTheorems {
  import opened Prelude
  import opened Sessions
  import opened StoreRuns

  /** states[0], steps[0], states[1], ... is a run of the system. */
  ghost predicate Run(cfg: Config, states: seq<System>, steps: seq<Step>) {
    |states| == |steps| + 1
    && forall i :: 0 <= i < |steps| ==>
         Enabled(cfg, states[i], steps[i]) && states[i + 1] == Next(cfg, states[i], steps[i])
  }

  /** A run of a server that is first started on an empty sessions directory. */
  ghost predicate Service(cfg: Config, states: seq<System>, steps: seq<Step>) {
    cfg.Valid() && Run(cfg, states, steps) && states[0] == Boot(map[])
  }

  lemma {:induction false} ServiceInv(cfg: Config, states: seq<System>, steps: seq<Step>, n: nat)
    requires Service(cfg, states, steps) && n < |states|
    ensures Inv(cfg, states[n])
  {
    if n == 0 {
      BootInv(cfg);
    } else {
      ServiceInv(cfg, states, steps, n - 1);
      StepInv(cfg, states[n - 1], steps[n - 1]);
    }
  }

  /** No update is ever lost in memory: at every instant of every run a live session
      whose file is missing or out of date is dirty, in some flush's batch, or about to
      be marked by the thread inside the critical section; when no operation is in
      progress it is dirty or in a batch. */
  lemma NoUpdateLost(cfg: Config, states: seq<System>, steps: seq<Step>, n: nat, id: Id)
    requires Service(cfg, states, steps) && n < |states|
    requires id in states[n].sessions
    requires id !in states[n].disk || states[n].disk[id] != states[n].sessions[id]
    ensures Scheduled(states[n], id) || Marks(states[n].todo, id)
    ensures states[n].todo.Done? && states[n].saving == {} ==> id in states[n].dirty || id in states[n].flights
  {
    ServiceInv(cfg, states, steps, n);
    assert Stale(states[n], id);
  }

  /** The map never exceeds _max_sessions, not even inside a critical section or just
      after a restart, and the dirty set never reaches the threshold between steps. */
  lemma WithinBounds(cfg: Config, states: seq<System>, steps: seq<Step>, n: nat)
    requires Service(cfg, states, steps) && n < |states|
    ensures |states[n].sessions| <= cfg.maxSessions
    ensures |states[n].dirty| < cfg.batchThreshold
    ensures states[n].dirty != {} ==> states[n].timer.Armed? || states[n].waiting > 0
  {
    ServiceInv(cfg, states, steps, n);
    SafeIsSound(cfg, states[n].sessions, states[n].todo);
  }

  // ------------------------------------------------ deleted sessions stay deleted

  /** Not in memory, and no file that a restart would pick up. */
  predicate Gone(s: System, id: Id) {
    id !in s.sessions && !(id in s.disk && Loadable(id))
  }

  /** The step that brings an id into the map. */
  predicate Creates(s: System, step: Step, id: Id) {
    step.Act? && s.todo.Put? && s.todo.id == id
  }

  lemma GoneStep(cfg: Config, s: System, step: Step, id: Id)
    requires Enabled(cfg, s, step) && Gone(s, id) && !Creates(s, step, id)
    ensures Gone(Next(cfg, s, step), id)
  {
  }

  /** Once an operation that removed id has released the lock, id stays out of memory
      through any number of saves in flight, crashes and restarts, until some
      operation stores a session under id again. */
  lemma {:induction false} DeletedStaysDeleted(
    cfg: Config, states: seq<System>, steps: seq<Step>, i: nat, n: nat, id: Id)
    requires Service(cfg, states, steps) && i <= n < |states|
    requires id !in states[i].sessions && states[i].todo.Done?
    requires forall k :: i <= k < n ==> !Creates(states[k], steps[k], id)
    ensures Gone(states[n], id)
    decreases n
  {
    if i == n {
      ServiceInv(cfg, states, steps, i);
    } else {
      DeletedStaysDeleted(cfg, states, steps, i, n - 1, id);
      GoneStep(cfg, states[n - 1], steps[n - 1], id);
    }
  }

  // --------------------------------------------- what a restart finds was once live

  lemma DiskStep(cfg: Config, s: System, step: Step, id: Id)
    requires Enabled(cfg, s, step) && id in Next(cfg, s, step).disk
    ensures
      var v := Next(cfg, s, step).disk[id];
      (id in s.disk && s.disk[id] == v) || (id in s.sessions && s.sessions[id] == v)
  {
  }

  /** Every file holds a value that memory held, under that id, at some earlier moment
      of the run; so does every session a restart loads. */
  lemma {:induction false} FilesWereLive(cfg: Config, states: seq<System>, steps: seq<Step>, n: nat, id: Id)
    returns (j: nat)
    requires Service(cfg, states, steps) && n < |states|
    requires id in states[n].disk
    ensures j <= n && id in states[j].sessions && states[j].sessions[id] == states[n].disk[id]
  {
    var before := states[n - 1];
    DiskStep(cfg, before, steps[n - 1], id);
    hide Next, Enabled;
    if id in before.disk && before.disk[id] == states[n].disk[id] {
      j := FilesWereLive(cfg, states, steps, n - 1, id);
    } else {
      j := n - 1;
    }
  }

  lemma ReloadedWasLive(cfg: Config, states: seq<System>, steps: seq<Step>, n: nat, id: Id) returns (j: nat)
    requires Service(cfg, states, steps) && n < |steps| && steps[n].Crash?
    requires id in states[n + 1].sessions
    ensures j <= n && id in states[j].sessions && states[j].sessions[id] == states[n + 1].sessions[id]
  {
    j := FilesWereLive(cfg, states, steps, n, id);
  }

  // --------------------------------------------------------------- quiescence

  /** Nothing is going on in any thread. */
  predicate Quiescent(s: System) {
    s.todo.Done? && s.saving == {} && s.flights == multiset{} && s.waiting == 0 && !s.timer.Armed?
  }

  /** At rest nothing is dirty, and the directory holds exactly the live sessions a
      restart can see: a restart then loses a session if and only if its id does not
      begin with "session_". */
  lemma RestartAtRest(cfg: Config, states: seq<System>, steps: seq<Step>, n: nat)
    requires Service(cfg, states, steps) && n < |states| && Quiescent(states[n])
    ensures
      var s := states[n];
      s.dirty == {}
      && Load(s.disk) == (map id | id in s.sessions && Loadable(id) :: s.sessions[id])
      && (Boot(s.disk).sessions == s.sessions <==> forall id :: id in s.sessions ==> Loadable(id))
  {
    var s := states[n];
    ServiceInv(cfg, states, steps, n);
    assert forall id :: !Stale(s, id);
    var live := map id | id in s.sessions && Loadable(id) :: s.sessions[id];
    forall id ensures id in Load(s.disk) <==> id in live {
      assert !Stale(s, id);
    }
    forall id | id in live ensures Load(s.disk)[id] == live[id] {
      assert !Stale(s, id);
    }
    assert Load(s.disk) == live;
    if id :| id in s.sessions && !Loadable(id) {
      assert id !in live;
    } else {
      assert live == s.sessions;
    }
  }

  // ----------------------------------------------- every mark is followed by a save

  /** id is handed to _save_session. */
  predicate HandsOver(step: Step, id: Id) {
    step == Save(id) || step == SaveHeld(id)
  }

  lemma ScheduledStep(cfg: Config, s: System, step: Step, id: Id)
    requires Enabled(cfg, s, step) && Scheduled(s, id)
    requires !step.Crash? && !HandsOver(step, id)
    ensures Scheduled(Next(cfg, s, step), id)
  {
    if step.Take? && id in s.dirty { assert multiset(s.dirty)[id] == 1; }
  }

  lemma {:induction false} StaysScheduled(cfg: Config, states: seq<System>, steps: seq<Step>, i: nat, n: nat, id: Id)
    requires Service(cfg, states, steps) && i <= n < |states| && Scheduled(states[i], id)
    requires forall k :: i <= k < n ==> !steps[k].Crash? && !HandsOver(steps[k], id)
    ensures Scheduled(states[n], id)
    decreases n
  {
    if i < n {
      StaysScheduled(cfg, states, steps, i, n - 1, id);
      ServiceInv(cfg, states, steps, n - 1);
      ScheduledStep(cfg, states[n - 1], steps[n - 1], id);
    }
  }

  /** No mark is stranded: in a crash-free stretch that ends at rest, every
      mark_dirty(id) is followed by a later hand-over of id to the save function. */
  lemma MarkIsSaved(cfg: Config, states: seq<System>, steps: seq<Step>, i: nat, n: nat)
    requires Service(cfg, states, steps) && i < n < |states|
    requires steps[i].Act? && states[i].todo.Mark?
    requires forall k :: i < k < n ==> !steps[k].Crash?
    requires Quiescent(states[n])
    ensures exists j :: i < j < n && HandsOver(steps[j], states[i].todo.id)
  {
    var id := states[i].todo.id;
    assert Scheduled(states[i + 1], id);
    if forall j :: i < j < n ==> !HandsOver(steps[j], id) {
      StaysScheduled(cfg, states, steps, i + 1, n, id);
      ServiceInv(cfg, states, steps, n);
      assert false;
    }
  }

  // ------------------------------------------------------------------ progress

  /** Steps the backend takes by itself, without a new request. */
  predicate Internal(step: Step) {
    step.Act? || step.SaveHeld? || step.Fire? || step.Take? || step.Save?
  }

  function Work(todo: Program): nat {
    match todo
    case Done => 0
    case Del(_, next) => 1 + Work(next)
    case Unlink(_, next) => 1 + Work(next)
    case Put(_, _, next) => 1 + Work(next)
    case Mark(_, next) => 4 + Work(next)
  }

  /** An upper bound on the internal steps left before rest. */
  function Backlog(s: System): nat {
    Work(s.todo) + |s.saving| + |s.dirty| + |s.flights| + s.waiting + if s.timer.Armed? then 2 else 0
  }

  lemma ActDecreases(cfg: Config, s: System)
    requires cfg.Valid() && !s.todo.Done? && s.saving == {}
    ensures Backlog(Acted(cfg, s)) < Backlog(s)
  {
    if s.todo.Mark? {
      var d := s.dirty + {s.todo.id};
      assert |d| <= |s.dirty| + 1;
    }
  }

  lemma BacklogDecreases(cfg: Config, s: System, step: Step)
    requires cfg.Valid() && Enabled(cfg, s, step) && Internal(step)
    ensures Backlog(Next(cfg, s, step)) < Backlog(s)
  {
    match step
    case SaveHeld(id) => assert |s.saving - {id}| == |s.saving| - 1;
    case Save(id) => assert |s.flights - multiset{id}| == |s.flights| - 1;
    case Take => assert |multiset(s.dirty)| == |s.dirty|;
    case Act => ActDecreases(cfg, s);
    case Fire =>
  }

  lemma NotStuck(cfg: Config, s: System) returns (step: Step)
    requires cfg.Valid() && Inv(cfg, s) && !Quiescent(s)
    ensures Enabled(cfg, s, step) && Internal(step)
  {
    if s.saving != {} {
      var id :| id in s.saving;
      step := SaveHeld(id);
    } else if !s.todo.Done? {
      step := Act;
    } else if s.flights != multiset{} {
      var id :| id in s.flights;
      step := Save(id);
    } else if s.waiting > 0 {
      step := Take;
    } else {
      step := Fire;
    }
  }

  /** Left alone, the backend comes to rest: from every reachable state every maximal
      sequence of internal steps is at most Backlog long (BacklogDecreases) and can
      only stop at rest (NotStuck); here is one. */
  lemma {:induction false} Drains(cfg: Config, states: seq<System>, steps: seq<Step>)
    returns (states': seq<System>, steps': seq<Step>)
    requires Service(cfg, states, steps)
    ensures Service(cfg, states', steps')
    ensures states <= states' && steps <= steps' && Quiescent(states'[|steps'|])
    ensures forall k :: |steps| <= k < |steps'| ==> Internal(steps'[k])
    ensures |steps'| - |steps| <= Backlog(states[|steps|])
    decreases Backlog(states[|steps|])
  {
    hide Next, Enabled, Inv;
    var s := states[|steps|];
    if Quiescent(s) {
      states', steps' := states, steps;
    } else {
      ServiceInv(cfg, states, steps, |steps|);
      var step := NotStuck(cfg, s);
      BacklogDecreases(cfg, s, step);
      ExtendService(cfg, states, steps, step);
      states', steps' := Drains(cfg, states + [Next(cfg, s, step)], steps + [step]);
    }
  }

  lemma ExtendRun(cfg: Config, states: seq<System>, steps: seq<Step>, step: Step)
    requires Run(cfg, states, steps) && Enabled(cfg, states[|steps|], step)
    ensures Run(cfg, states + [Next(cfg, states[|steps|], step)], steps + [step])
  {
    hide Next, Enabled;
    var states', steps' := states + [Next(cfg, states[|steps|], step)], steps + [step];
    forall i | 0 <= i < |steps'|
      ensures Enabled(cfg, states'[i], steps'[i]) && states'[i + 1] == Next(cfg, states'[i], steps'[i])
    {
      if i < |steps| { assert states'[i] == states[i] && states'[i + 1] == states[i + 1]; }
    }
  }

  lemma ExtendService(cfg: Config, states: seq<System>, steps: seq<Step>, step: Step)
    requires Service(cfg, states, steps) && Enabled(cfg, states[|steps|], step)
    ensures Service(cfg, states + [Next(cfg, states[|steps|], step)], steps + [step])
  {
    hide Next, Enabled;
    ExtendRun(cfg, states, steps, step);
  }
}
