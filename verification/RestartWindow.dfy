/** The message window across crashes and restarts: how far it can be missed, and exactly
    when it is. */
module RestartWindow {
  import opened Prelude
  import opened Sessions
  import opened StoreRuns
  import opened StoreTheorems
  import opened LoneSections
  import opened Linearization

  function Crashes(steps: seq<Step>): nat {
    if steps == [] then 0
    else Crashes(steps[..|steps| - 1]) + if steps[|steps| - 1].Crash? then 1 else 0
  }

  ghost predicate AllWithin(m: Store, k: int) {
    forall id :: id in m ==> |m[id].messages| <= k
  }

  /** The lock holder has appended a message to session id and not trimmed it yet. */
  ghost predicate Gap(cfg: Config, todo: Program, id: Id) {
    todo.Put? && todo.id == id
    && exists s: Session, msg: Message, now: int ::
         s.sid == id && (todo == AfterAppend(cfg, s, msg, now) || todo == AfterAppend(cfg, s, msg, now).next)
  }

  /** What add_turn still has to do once the message has been appended. */
  function AfterAppend(cfg: Config, s: Session, msg: Message, now: int): (todo: Program)
    ensures todo.Put? && Append(cfg, s, msg, now) == Put(s.sid, WithMessage(s, msg), todo)
  {
    var t := Touched(WithMessage(s, msg), now);
    Put(s.sid, t, Put(s.sid, Trimmed(cfg, t), Mark(s.sid, Done)))
  }

  /** A critical section stores at most k messages in a session, and one more only where a
      trim of that session follows; it ends with its mark. */
  ghost predicate Orderly(cfg: Config, todo: Program, k: int) {
    match todo
    case Done => true
    case Del(_, next) => Orderly(cfg, next, k)
    case Unlink(_, next) => Orderly(cfg, next, k)
    case Put(id, s, next) =>
      |s.messages| <= k + 1 && (|s.messages| > k ==> Gap(cfg, next, id)) && Orderly(cfg, next, k)
    case Mark(_, next) => next.Done?
  }

  /** At most k messages in a session, and one more only between append and trim. */
  ghost predicate Roomy(cfg: Config, s: System, k: int) {
    Orderly(cfg, s.todo, k)
    && forall id :: id in s.sessions ==>
         |s.sessions[id].messages| <= k + 1 && (|s.sessions[id].messages| > k ==> Gap(cfg, s.todo, id))
  }

  // --------------------------------------------------------- every section is orderly

  lemma {:induction false} RemoveAllOrderly(cfg: Config, ids: seq<Id>, k: int)
    ensures Orderly(cfg, RemoveAll(ids), k)
  {
    if ids != [] { RemoveOrderly(cfg, ids[0], RemoveAll(ids[1..]), k) by { RemoveAllOrderly(cfg, ids[1..], k); } }
  }

  lemma RemoveOrderly(cfg: Config, id: Id, next: Program, k: int)
    requires Orderly(cfg, next, k)
    ensures Orderly(cfg, Remove(id, next), k)
  {
    assert Orderly(cfg, Unlink(id, next), k);
  }

  lemma EndOrderly(cfg: Config, id: Id, k: int)
    ensures Orderly(cfg, Done, k) && Orderly(cfg, Mark(id, Done), k)
  {
  }

  lemma PutOrderly(cfg: Config, id: Id, s: Session, next: Program, k: int)
    requires Orderly(cfg, next, k) && |s.messages| <= k + 1 && (|s.messages| > k ==> Gap(cfg, next, id))
    ensures Orderly(cfg, Put(id, s, next), k)
  {
  }

  lemma TrimmedWithin(cfg: Config, s: Session, k: int)
    requires 1 <= cfg.maxTurns && 2 * cfg.maxTurns <= k && |s.messages| <= k + 1
    ensures |Trimmed(cfg, s).messages| <= k
  {
  }

  lemma AppendOrderly(cfg: Config, s: Session, msg: Message, now: int, k: int)
    requires 1 <= cfg.maxTurns && 2 * cfg.maxTurns <= k && |s.messages| <= k
    ensures Orderly(cfg, Append(cfg, s, msg, now), k)
  {
    var a, id := WithMessage(s, msg), s.sid;
    var t := Touched(a, now);
    TrimmedWithin(cfg, t, k);
    var rest := AfterAppend(cfg, s, msg, now);
    assert Gap(cfg, rest, id) && Gap(cfg, rest.next, id);
    assert rest == Put(id, t, Put(id, Trimmed(cfg, t), Mark(id, Done)));
    hide Orderly, Gap, Trimmed, AfterAppend;
    EndOrderly(cfg, id, k);
    PutOrderly(cfg, id, Trimmed(cfg, t), Mark(id, Done), k);
    PutOrderly(cfg, id, t, rest.next, k);
    PutOrderly(cfg, id, a, rest, k);
  }

  lemma WipeOrderly(cfg: Config, s: Session, now: int, k: int)
    requires 0 <= k
    ensures Orderly(cfg, Wipe(s, now), k)
  {
    hide Orderly, Gap;
    var a, id := s.(messages := []), s.sid;
    var b := a.(summary := "");
    EndOrderly(cfg, id, k);
    PutOrderly(cfg, id, Touched(b, now), Mark(id, Done), k);
    PutOrderly(cfg, id, b, Put(id, Touched(b, now), Mark(id, Done)), k);
    PutOrderly(cfg, id, a, Put(id, b, Put(id, Touched(b, now), Mark(id, Done))), k);
  }

  lemma TurnOrderly(cfg: Config, m: Store, op: Op, ch: Choice, k: int)
    requires 1 <= cfg.maxTurns && 2 * cfg.maxTurns <= k && AllWithin(m, k) && op.AddTurn?
    ensures Orderly(cfg, Section(cfg, m, op, ch), k)
  {
    hide Append, Expired, Orderly;
    var s, msg := Fresh(op.id, op.now), Message(op.role, op.content, op.now);
    EndOrderly(cfg, op.id, k);
    RemoveOrderly(cfg, op.id, Done, k);
    if op.id in m { AppendOrderly(cfg, m[op.id], msg, op.now, k); }
    AppendOrderly(cfg, s, msg, op.now, k);
    var put := Put(op.id, s, Append(cfg, s, msg, op.now));
    PutOrderly(cfg, op.id, s, Append(cfg, s, msg, op.now), k);
    RemoveOrderly(cfg, ch.victim, put, k);
    var evict := Evict(cfg, Checked(cfg, m, op.id, op.now), ch, put);
    hide Evict;
    RemoveOrderly(cfg, op.id, evict, k);
  }

  lemma SectionOrderly(cfg: Config, m: Store, op: Op, ch: Choice, k: int)
    requires 1 <= cfg.maxTurns && 2 * cfg.maxTurns <= k && AllWithin(m, k)
    ensures Orderly(cfg, Section(cfg, m, op, ch), k)
  {
    hide Append, Expired, Wipe, Orderly, RemoveAll;
    if op.Purge? {
      RemoveAllOrderly(cfg, ch.order, k);
    } else if op.AddTurn? {
      TurnOrderly(cfg, m, op, ch, k);
    } else {
      EndOrderly(cfg, op.id, k);
      RemoveOrderly(cfg, op.id, Done, k);
      EditOrderly(cfg, m, op, k);
      if op.Create? {
        RemoveOrderly(cfg, ch.victim, Put(op.id, Fresh(op.id, op.now), Mark(op.id, Done)), k);
      }
    }
  }

  lemma EditOrderly(cfg: Config, m: Store, op: Op, k: int)
    requires 0 <= k && AllWithin(m, k)
    ensures op.Create? ==> Orderly(cfg, Put(op.id, Fresh(op.id, op.now), Mark(op.id, Done)), k)
    ensures op.Clear? && op.id in m ==> Orderly(cfg, Wipe(m[op.id], op.now), k)
    ensures op.Summarize? && op.id in m ==>
      Orderly(cfg, Put(op.id, m[op.id].(summary := op.summary), Mark(op.id, Done)), k)
    ensures op.UpdateState? && op.id in m ==>
      Orderly(cfg, Put(op.id, m[op.id].(state := m[op.id].state + op.patch), Mark(op.id, Done)), k)
  {
    if op.Clear? && op.id in m { WipeOrderly(cfg, m[op.id], op.now, k); }
  }

  // ------------------------------------------------------------------- steps and runs

  lemma RoomyAct(cfg: Config, s: System, k: int)
    requires Enabled(cfg, s, Act) && Roomy(cfg, s, k)
    ensures Roomy(cfg, Acted(cfg, s), k)
  {
    hide Marked;
    if s.todo.Mark? { MarkKeeps(cfg, s, s.todo.id); EndOrderly(cfg, s.todo.id, k); }
  }

  lemma RoomyEnter(cfg: Config, s: System, step: Step, k: int)
    requires 1 <= cfg.maxTurns && 2 * cfg.maxTurns <= k
    requires Enabled(cfg, s, step) && step.Enter? && Roomy(cfg, s, k)
    ensures Roomy(cfg, Next(cfg, s, step), k)
  {
    hide Section, Legal, Orderly;
    SectionOrderly(cfg, s.sessions, step.op, step.ch, k);
  }

  lemma RoomyStep(cfg: Config, s: System, step: Step, k: int)
    requires 1 <= cfg.maxTurns && 2 * cfg.maxTurns <= k
    requires Enabled(cfg, s, step) && !step.Crash? && Roomy(cfg, s, k)
    ensures Roomy(cfg, Next(cfg, s, step), k)
  {
    if step.Enter? {
      RoomyEnter(cfg, s, step, k);
    } else if step.Act? {
      RoomyAct(cfg, s, k);
    } else {
      hide Orderly, Gap, Legal;
    }
  }

  lemma RoomyRest(cfg: Config, s: System, k: int)
    requires Roomy(cfg, s, k)
    ensures s.todo.Done? ==> AllWithin(s.sessions, k)
    ensures AllWithin(s.sessions, k + 1)
  {
  }

  lemma RoomyBoot(cfg: Config, disk: Store, k: int)
    requires AllWithin(disk, k)
    ensures Roomy(cfg, Boot(disk), k)
  {
  }

  /** A file changes only by the save of one session. */
  lemma DiskWithin(cfg: Config, s: System, step: Step, k: int)
    requires Enabled(cfg, s, step) && AllWithin(s.disk, k)
    requires (step.Save? || step.SaveHeld?) && step.id in s.sessions ==> |s.sessions[step.id].messages| <= k
    ensures AllWithin(Next(cfg, s, step).disk, k)
  {
    hide Marked, Section;
    if step.Act? && s.todo.Mark? { MarkKeeps(cfg, s, s.todo.id); }
  }

  /** With restarts the window can be missed, by at most one message for each crash. */
  lemma {:induction false} WindowAcrossCrashes(cfg: Config, states: seq<System>, steps: seq<Step>)
    requires Service(cfg, states, steps) && cfg.maxTurns >= 1
    ensures
      var s, k := states[|steps|], 2 * cfg.maxTurns + Crashes(steps);
      Roomy(cfg, s, k) && AllWithin(s.disk, k + 1) && (s.todo.Done? ==> AllWithin(s.sessions, k))
    decreases |steps|
  {
    hide Next, Enabled, Roomy, AllWithin;
    if steps != [] {
      var n := |steps| - 1;
      var s, step, k := states[n], steps[n], 2 * cfg.maxTurns + Crashes(steps[..n]);
      RunPrefix(cfg, states, steps);
      WindowAcrossCrashes(cfg, states[..n + 1], steps[..n]);
      CrashStep(cfg, s, step, k);
    } else {
      EmptyRoomy(cfg, 2 * cfg.maxTurns);
    }
    RoomyRest(cfg, states[|steps|], 2 * cfg.maxTurns + Crashes(steps));
  }

  lemma CrashStep(cfg: Config, s: System, step: Step, k: int)
    requires 1 <= cfg.maxTurns && 2 * cfg.maxTurns <= k && Enabled(cfg, s, step)
    requires Roomy(cfg, s, k) && AllWithin(s.disk, k + 1)
    ensures
      var t, l := Next(cfg, s, step), if step.Crash? then k + 1 else k;
      Roomy(cfg, t, l) && AllWithin(t.disk, l + 1)
  {
    RoomyRest(cfg, s, k);
    DiskWithin(cfg, s, step, k + 1);
    hide Roomy;
    if step.Crash? {
      RoomyBoot(cfg, s.disk, k + 1);
    } else {
      RoomyStep(cfg, s, step, k);
    }
  }

  lemma EmptyRoomy(cfg: Config, k: int)
    requires k >= 0
    ensures Roomy(cfg, Boot(map[]), k) && AllWithin(Boot(map[]).disk, k)
  {
  }

  // ------------------------------------------------------------- exactly when it is missed

  /** A save of a session to which the lock holder has appended one message too many, and
      which it has not trimmed yet. */
  ghost predicate GapSave(cfg: Config, s: System, step: Step) {
    (step.Save? || step.SaveHeld?) && step.id in s.sessions
    && |s.sessions[step.id].messages| > 2 * cfg.maxTurns && Gap(cfg, s.todo, step.id)
  }

  ghost predicate Tight(cfg: Config, s: System) {
    Roomy(cfg, s, 2 * cfg.maxTurns) && AllWithin(s.disk, 2 * cfg.maxTurns)
  }

  lemma TightStep(cfg: Config, s: System, step: Step)
    requires cfg.maxTurns >= 1 && Enabled(cfg, s, step) && Tight(cfg, s) && !GapSave(cfg, s, step)
    ensures Tight(cfg, Next(cfg, s, step))
  {
    var k := 2 * cfg.maxTurns;
    SavedWithin(cfg, s, step);
    DiskWithin(cfg, s, step, k);
    hide Roomy, AllWithin, GapSave;
    if step.Crash? {
      RoomyBoot(cfg, s.disk, k);
    } else {
      RoomyStep(cfg, s, step, k);
    }
  }

  lemma SavedWithin(cfg: Config, s: System, step: Step)
    requires Roomy(cfg, s, 2 * cfg.maxTurns) && !GapSave(cfg, s, step)
    ensures (step.Save? || step.SaveHeld?) && step.id in s.sessions ==>
      |s.sessions[step.id].messages| <= 2 * cfg.maxTurns
  {
    hide Orderly, Gap;
  }

  /** Without such a save the window is exact across any number of crashes: every file
      is within it, and so is every session except between its append and its trim. */
  lemma {:induction false} TightWithoutGapSaves(cfg: Config, states: seq<System>, steps: seq<Step>)
    requires Service(cfg, states, steps) && cfg.maxTurns >= 1
    requires forall n :: 0 <= n < |steps| ==> !GapSave(cfg, states[n], steps[n])
    ensures Tight(cfg, states[|steps|])
    decreases |steps|
  {
    hide Next, Enabled, Tight, GapSave;
    if steps != [] {
      var n := |steps| - 1;
      RunPrefix(cfg, states, steps);
      TightWithoutGapSaves(cfg, states[..n + 1], steps[..n]);
      TightStep(cfg, states[n], steps[n]);
    } else {
      EmptyTight(cfg);
    }
  }

  lemma EmptyTight(cfg: Config)
    requires cfg.maxTurns >= 1
    ensures Tight(cfg, Boot(map[]))
  {
    EmptyRoomy(cfg, 2 * cfg.maxTurns);
  }

  lemma GapSaveOverfills(cfg: Config, s: System, step: Step)
    requires Enabled(cfg, s, step) && GapSave(cfg, s, step)
    ensures !AllWithin(Next(cfg, s, step).disk, 2 * cfg.maxTurns)
  {
    var t := Next(cfg, s, step);
    assert t.disk[step.id] == s.sessions[step.id];
    hide Gap;
  }

  lemma ServiceUpTo(cfg: Config, states: seq<System>, steps: seq<Step>, n: nat)
    requires Service(cfg, states, steps) && n < |states|
    ensures Service(cfg, states[..n + 1], steps[..n])
  {
    hide Next, Enabled;
  }

  /** In every run, all files of all states are within the window if and only if no step
      is a save between append and trim. */
  lemma FilesWithinExactly(cfg: Config, states: seq<System>, steps: seq<Step>)
    requires Service(cfg, states, steps) && cfg.maxTurns >= 1
    ensures
      (forall n :: 0 <= n < |states| ==> AllWithin(states[n].disk, 2 * cfg.maxTurns))
      <==> (forall n :: 0 <= n < |steps| ==> !GapSave(cfg, states[n], steps[n]))
  {
    hide Next, Enabled, GapSave, AllWithin, Roomy;
    if n :| 0 <= n < |steps| && GapSave(cfg, states[n], steps[n]) {
      GapSaveOverfills(cfg, states[n], steps[n]);
      assert states[n + 1] == Next(cfg, states[n], steps[n]);
    } else {
      forall n | 0 <= n < |states| ensures AllWithin(states[n].disk, 2 * cfg.maxTurns) {
        ServiceUpTo(cfg, states, steps, n);
        TightWithoutGapSaves(cfg, states[..n + 1], steps[..n]);
      }
    }
  }

  // --------------------------------------------------- exactly which configuration risks it

  /** At threshold 1 every mark is flushed at once, under the lock: no other thread ever
      has a session to save, and the lock holder saves only when its section is over. */
  ghost predicate Eager(s: System) {
    s.flights == multiset{} && (s.saving != {} ==> s.todo.Done?)
  }

  lemma EagerStep(cfg: Config, s: System, step: Step, k: int)
    requires |s.dirty| < cfg.batchThreshold == 1 && Enabled(cfg, s, step)
    requires Orderly(cfg, s.todo, k) && Eager(s)
    ensures Eager(Next(cfg, s, step)) && !GapSave(cfg, s, step)
  {
    hide Section, Legal;
  }

  lemma {:induction false} EagerRun(cfg: Config, states: seq<System>, steps: seq<Step>, n: nat)
    requires Service(cfg, states, steps) && cfg.maxTurns >= 1 && cfg.batchThreshold == 1 && n < |states|
    ensures Eager(states[n]) && (n < |steps| ==> !GapSave(cfg, states[n], steps[n]))
  {
    hide Next, Enabled, GapSave, AllWithin, Orderly;
    if n > 0 {
      EagerRun(cfg, states, steps, n - 1);
      EagerAt(cfg, states, steps, n - 1);
    }
    if n < |steps| { EagerAt(cfg, states, steps, n); }
  }

  lemma EagerAt(cfg: Config, states: seq<System>, steps: seq<Step>, n: nat)
    requires Service(cfg, states, steps) && cfg.maxTurns >= 1 && cfg.batchThreshold == 1 && n < |steps|
    requires Eager(states[n])
    ensures Eager(states[n + 1]) && !GapSave(cfg, states[n], steps[n])
  {
    hide Next, Enabled, GapSave, AllWithin, Orderly, Eager;
    ServiceUpTo(cfg, states, steps, n);
    WindowAcrossCrashes(cfg, states[..n + 1], steps[..n]);
    WithinBounds(cfg, states, steps, n);
    EagerStep(cfg, states[n], steps[n], 2 * cfg.maxTurns + Crashes(steps[..n]));
  }

  /** Nothing in progress, id marked and the timer running, with k messages in id. */
  predicate Filled(s: System, id: Id, k: int) {
    s.todo.Done? && s.saving == {} && s.flights == multiset{} && s.dirty == {id} && s.timer.Armed?
    && id in s.sessions && s.sessions[id].sid == id && s.sessions[id].lastActive == 0
    && |s.sessions[id].messages| == k
  }

  lemma MarkedQuietly(cfg: Config, s: System, id: Id)
    requires cfg.batchThreshold >= 2 && s.saving == {} && s.dirty <= {id} && !s.timer.Fired?
    ensures Drained(Marked(cfg, s, id)) == s.(dirty := {id}, timer := Armed)
  {
    assert s.dirty + {id} == {id};
    Idle(s.(dirty := {id}, timer := Armed));
  }

  lemma TurnSection(cfg: Config, m: Store, id: Id)
    requires id in m && m[id].lastActive == 0
    ensures
      var op, ch := AddTurn(id, "user", "hi", 0), Choice("", []);
      Legal(cfg, m, op, ch) && Section(cfg, m, op, ch) == Append(cfg, m[id], Message("user", "hi", 0), 0)
  {
  }

  lemma CreateSection(cfg: Config, id: Id)
    requires cfg.Valid()
    ensures
      var op, ch := Create(id, 0), Choice("", []);
      Legal(cfg, map[], op, ch) && Section(cfg, map[], op, ch) == Put(id, Fresh(id, 0), Mark(id, Done))
  {
    var none: Store := map[];
    assert |none| == 0;
  }

  /** One uninterrupted turn that does not reach the limit. */
  lemma TurnAlone(cfg: Config, s: System, id: Id, k: nat)
    requires cfg.batchThreshold >= 2 && Filled(s, id, k) && k < 2 * cfg.maxTurns
    ensures
      var todo := Append(cfg, s.sessions[id], Message("user", "hi", 0), 0);
      Filled(Alone(cfg, s.(todo := todo)), id, k + 1)
  {
    hide Alone, Marked, Drained;
    var v := s.sessions[id];
    var a := WithMessage(v, Message("user", "hi", 0));
    var t := Touched(a, 0);
    var u := Trimmed(cfg, t);
    assert u == t;
    AlonePuts(cfg, s, id, a, t, u);
    MarkedQuietly(cfg, s.(sessions := s.sessions[id := u]), id);
  }

  lemma CreateAlone(cfg: Config, id: Id)
    requires cfg.Valid() && cfg.batchThreshold >= 2
    ensures
      var s := Boot(map[]);
      Filled(Alone(cfg, s.(todo := Put(id, Fresh(id, 0), Mark(id, Done)))), id, 0)
  {
    hide Alone, Marked, Drained;
    var s, v := Boot(map[]), Fresh(id, 0);
    AlonePutMark(cfg, s, id, v);
    MarkedQuietly(cfg, s.(sessions := s.sessions[id := v]), id);
  }

  lemma CreateFilled(cfg: Config, id: Id) returns (states: seq<System>, steps: seq<Step>)
    requires cfg.Valid() && cfg.batchThreshold >= 2
    ensures Service(cfg, states, steps) && Filled(states[|steps|], id, 0)
  {
    hide Alone, Section, Legal, Enabled, Next;
    BootIsService(cfg);
    CreateSection(cfg, id);
    CreateAlone(cfg, id);
    states, steps := EnterAlone(cfg, [Boot(map[])], [], Create(id, 0), Choice("", []));
  }

  /** Turn by turn, any number of messages up to the limit. */
  lemma {:induction false} Fill(cfg: Config, id: Id, k: nat) returns (states: seq<System>, steps: seq<Step>)
    requires cfg.Valid() && cfg.batchThreshold >= 2 && k <= 2 * cfg.maxTurns
    ensures Service(cfg, states, steps) && Filled(states[|steps|], id, k)
  {
    hide Alone, Section, Append, Legal, Enabled, Next;
    var ch := Choice("", []);
    if k == 0 {
      states, steps := CreateFilled(cfg, id);
    } else {
      states, steps := Fill(cfg, id, k - 1);
      var s := states[|steps|];
      TurnSection(cfg, s.sessions, id);
      TurnAlone(cfg, s, id, k - 1);
      states, steps := EnterAlone(cfg, states, steps, AddTurn(id, "user", "hi", 0), ch);
    }
  }

  /** A timer flush takes id into its batch. */
  lemma TakeBatch(cfg: Config, states: seq<System>, steps: seq<Step>, id: Id, k: int)
    returns (states': seq<System>, steps': seq<Step>)
    requires Service(cfg, states, steps) && Filled(states[|steps|], id, k)
    ensures Service(cfg, states', steps')
    ensures
      var s := states'[|steps'|];
      s.sessions == states[|steps|].sessions && s.todo.Done? && s.saving == {} && id in s.flights
  {
    var s := states[|steps|];
    ExtendService(cfg, states, steps, Fire);
    var a := Next(cfg, s, Fire);
    ExtendService(cfg, states + [a], steps + [Fire], Take);
    states', steps' := states + [a] + [Next(cfg, a, Take)], steps + [Fire] + [Take];
  }

  /** A turn on a full session: enter, append, and then a flush thread saves it. */
  lemma SaveInTheGap(cfg: Config, states: seq<System>, steps: seq<Step>, id: Id)
    returns (states': seq<System>, steps': seq<Step>)
    requires Service(cfg, states, steps)
    requires
      var s := states[|steps|];
      s.todo.Done? && s.saving == {} && id in s.flights && id in s.sessions
      && s.sessions[id].sid == id && s.sessions[id].lastActive == 0
      && |s.sessions[id].messages| == 2 * cfg.maxTurns
    ensures Service(cfg, states', steps')
    ensures id in states'[|steps'|].disk && |states'[|steps'|].disk[id].messages| == 2 * cfg.maxTurns + 1
  {
    var s := states[|steps|];
    var enter := Enter(AddTurn(id, "user", "hi", 0), Choice("", []));
    TurnSection(cfg, s.sessions, id);
    hide Section, Legal;
    ExtendService(cfg, states, steps, enter);
    var a := Next(cfg, s, enter);
    ExtendService(cfg, states + [a], steps + [enter], Act);
    var b := Next(cfg, a, Act);
    ExtendService(cfg, states + [a] + [b], steps + [enter] + [Act], Save(id));
    states' := states + [a] + [b] + [Next(cfg, b, Save(id))];
    steps' := steps + [enter] + [Act] + [Save(id)];
  }

  /** From an empty directory to a restart that loads one message more than the window. */
  lemma OverfullRestart(cfg: Config) returns (states: seq<System>, steps: seq<Step>)
    requires cfg.Valid() && cfg.maxTurns >= 1 && cfg.batchThreshold >= 2
    ensures Service(cfg, states, steps) && states[|steps|].todo.Done?
    ensures !AllWithin(states[|steps|].sessions, 2 * cfg.maxTurns)
  {
    hide Enabled, Next;
    var id: Id := SESSION_PREFIX;
    states, steps := Fill(cfg, id, 2 * cfg.maxTurns);
    states, steps := TakeBatch(cfg, states, steps, id, 2 * cfg.maxTurns);
    states, steps := SaveInTheGap(cfg, states, steps, id);
    var s := states[|steps|];
    CrashEnabled(cfg, s);
    ExtendService(cfg, states, steps, Crash);
    states, steps := states + [Boot(s.disk)], steps + [Crash];
    assert id in Boot(s.disk).sessions;
  }

  lemma CrashEnabled(cfg: Config, s: System)
    ensures Enabled(cfg, s, Crash) && Next(cfg, s, Crash) == Boot(s.disk)
  {
  }

  /** Which configurations keep the window across restarts: exactly those that flush at
      every mark. */
  lemma RestartsKeepTheWindowExactly(cfg: Config)
    requires cfg.Valid() && cfg.maxTurns >= 1
    ensures
      (forall states: seq<System>, steps: seq<Step> :: Service(cfg, states, steps) && states[|steps|].todo.Done? ==>
        AllWithin(states[|steps|].sessions, 2 * cfg.maxTurns))
      <==> cfg.batchThreshold == 1
  {
    hide Next, Enabled, AllWithin, GapSave, Roomy;
    if cfg.batchThreshold == 1 {
      forall states: seq<System>, steps: seq<Step> | Service(cfg, states, steps) && states[|steps|].todo.Done?
        ensures AllWithin(states[|steps|].sessions, 2 * cfg.maxTurns)
      {
        forall n | 0 <= n < |steps| ensures !GapSave(cfg, states[n], steps[n]) {
          EagerRun(cfg, states, steps, n);
        }
        TightWithoutGapSaves(cfg, states, steps);
        RoomyRest(cfg, states[|steps|], 2 * cfg.maxTurns);
      }
    } else {
      var states, steps := OverfullRestart(cfg);
    }
  }
}
