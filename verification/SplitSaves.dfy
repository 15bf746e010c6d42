/** The backend with the save of one session taken apart: a flush thread, which holds no
    lock, first looks the session up and later writes its file.  Exactly when a deleted
    session can then come back. */
module SplitSaves {
  import opened Prelude
  import opened Sessions
  import opened SessionLemmas
  import opened StoreRuns
  import opened StoreTheorems
  import opened Linearization
  import opened RestartWindow

  /** `writing` holds one id for each flush thread that has found its session and not
      written the file yet. */
  datatype Split = Split(base: System, writing: multiset<Id>)

  /** What a write puts into the file is left open: it serialises an object that other
      threads may be changing.  The saves of a threshold flush are made by the lock holder
      and stay one step. */
  datatype SplitStep = Base(step: Step) | Look(id: Id) | Write(id: Id, data: Session)

  predicate CanStep(cfg: Config, s: Split, t: SplitStep) {
    match t
    case Base(step) => !step.Save? && Enabled(cfg, s.base, step)
    case Look(id) => id in s.base.flights
    case Write(id, data) => id in s.writing && data.sid == id
  }

  function After(cfg: Config, s: Split, t: SplitStep): Split
    requires CanStep(cfg, s, t)
  {
    match t
    case Base(step) => Split(Next(cfg, s.base, step), if step.Crash? then multiset{} else s.writing)
    case Look(id) =>
      Split(s.base.(flights := s.base.flights - multiset{id}),
        if id in s.base.sessions then s.writing + multiset{id} else s.writing)
    case Write(id, data) => Split(s.base.(disk := s.base.disk[id := data]), s.writing - multiset{id})
  }

  ghost predicate SplitRun(cfg: Config, states: seq<Split>, steps: seq<SplitStep>) {
    |states| == |steps| + 1
    && forall i :: 0 <= i < |steps| ==>
         CanStep(cfg, states[i], steps[i]) && states[i + 1] == After(cfg, states[i], steps[i])
  }

  /** A server first started on an empty sessions directory. */
  ghost predicate SplitService(cfg: Config, states: seq<Split>, steps: seq<SplitStep>) {
    cfg.Valid() && SplitRun(cfg, states, steps) && states[0] == Split(Boot(map[]), multiset{})
  }

  /** A write of a session that has been removed meanwhile, and whose file will not be
      removed next. */
  predicate LateWrite(s: Split, t: SplitStep) {
    t.Write? && Loadable(t.id) && t.id !in s.base.sessions && !(s.base.todo.Unlink? && s.base.todo.id == t.id)
  }

  // ------------------------------------------------------------------ one deleted session

  /** The step that brings an id into the map. */
  predicate Revives(s: Split, t: SplitStep, id: Id) {
    t.Base? && Creates(s.base, t.step, id)
  }

  lemma GoneOrWritten(cfg: Config, s: Split, t: SplitStep, id: Id)
    requires CanStep(cfg, s, t) && Gone(s.base, id) && !Revives(s, t, id)
    ensures Gone(After(cfg, s, t).base, id) <==> !(t.Write? && t.id == id && Loadable(id))
  {
    if t.Base? {
      GoneStep(cfg, s.base, t.step, id);
    }
  }

  /** A session that is gone, from memory and from the loadable files, stays so until some
      operation stores it again if and only if no thread writes its file late. */
  lemma StaysGoneExactly(cfg: Config, states: seq<Split>, steps: seq<SplitStep>, i: nat, n: nat, id: Id)
    requires SplitRun(cfg, states, steps) && i <= n < |states| && Gone(states[i].base, id)
    requires forall k :: i <= k < n ==> !Revives(states[k], steps[k], id)
    ensures
      (forall k :: i <= k <= n ==> Gone(states[k].base, id))
      <==> (forall k :: i <= k < n ==> !(steps[k].Write? && steps[k].id == id && Loadable(id)))
    decreases n - i
  {
    hide CanStep, After, Gone, Revives;
    if i < n {
      GoneOrWritten(cfg, states[i], steps[i], id);
      assert states[i + 1] == After(cfg, states[i], steps[i]);
      if Gone(states[i + 1].base, id) {
        StaysGoneExactly(cfg, states, steps, i + 1, n, id);
      }
    }
  }

  // -------------------------------------------------------------------- every session

  /** The part of the backend's invariant that late writes put at risk, with what it rests
      on. */
  ghost predicate Clean(cfg: Config, s: System) {
    Safe(cfg, s.sessions, s.todo) && NoGhosts(s) && NamedFiles(s)
  }

  lemma CleanEnter(cfg: Config, s: System, step: Step)
    requires cfg.Valid() && Clean(cfg, s) && Enabled(cfg, s, step) && step.Enter?
    ensures Clean(cfg, Next(cfg, s, step))
  {
    SafeIsSound(cfg, s.sessions, s.todo);
    SectionSafe(cfg, s.sessions, step.op, step.ch);
    hide Safe, Section, Legal;
  }

  lemma ActSafe(cfg: Config, s: System)
    requires Safe(cfg, s.sessions, s.todo) && !s.todo.Done?
    ensures Safe(cfg, Acted(cfg, s).sessions, Acted(cfg, s).todo)
    ensures s.todo.Del? ==> s.todo.next.Unlink? && s.todo.next.id == s.todo.id
    ensures s.todo.Unlink? ==> s.todo.id !in s.sessions
  {
    hide Marked;
    if s.todo.Mark? { MarkKeeps(cfg, s, s.todo.id); }
  }

  lemma ActNoGhosts(cfg: Config, s: System)
    requires NoGhosts(s) && !s.todo.Done?
    requires s.todo.Del? ==> s.todo.next.Unlink? && s.todo.next.id == s.todo.id
    ensures NoGhosts(Acted(cfg, s))
  {
    hide Marked, Loadable;
    if s.todo.Mark? { MarkKeeps(cfg, s, s.todo.id); }
    var t := Acted(cfg, s);
    forall id | id in t.disk && Loadable(id) && id !in t.sessions ensures t.todo.Unlink? && t.todo.id == id {
      assert id in s.disk;
    }
  }

  lemma ActNamedFiles(cfg: Config, s: System)
    requires NamedFiles(s) && !s.todo.Done?
    ensures NamedFiles(Acted(cfg, s))
  {
    hide Marked;
    if s.todo.Mark? { MarkKeeps(cfg, s, s.todo.id); }
  }

  lemma CleanAct(cfg: Config, s: System)
    requires Clean(cfg, s) && Enabled(cfg, s, Act)
    ensures Clean(cfg, Acted(cfg, s))
  {
    hide Acted, Safe, NoGhosts, NamedFiles;
    ActSafe(cfg, s);
    ActNoGhosts(cfg, s);
    ActNamedFiles(cfg, s);
  }

  lemma CleanCrash(cfg: Config, s: System)
    requires cfg.Valid() && Clean(cfg, s)
    ensures Clean(cfg, Boot(s.disk))
  {
    LoadedFits(cfg, s);
    hide Safe, NoGhosts;
    CleanLoaded(cfg, s.disk);
  }

  lemma CleanLoaded(cfg: Config, disk: Store)
    requires |Load(disk)| <= cfg.maxSessions && forall id :: id in disk ==> disk[id].sid == id
    ensures Clean(cfg, Boot(disk))
  {
  }

  lemma CleanSave(cfg: Config, s: System, step: Step)
    requires Clean(cfg, s) && Enabled(cfg, s, step) && step.SaveHeld?
    ensures Clean(cfg, Next(cfg, s, step))
  {
    SafeIsSound(cfg, s.sessions, s.todo);
    hide Safe;
  }

  lemma CleanStep(cfg: Config, s: System, step: Step)
    requires cfg.Valid() && Clean(cfg, s) && Enabled(cfg, s, step) && !step.Save?
    ensures Clean(cfg, Next(cfg, s, step))
  {
    if step.Enter? {
      CleanEnter(cfg, s, step);
    } else if step.Act? {
      CleanAct(cfg, s);
    } else if step.Crash? {
      CleanCrash(cfg, s);
    } else if step.SaveHeld? {
      CleanSave(cfg, s, step);
    } else {
      hide Safe, Legal;
    }
  }

  /** The lock holder never unlinks the file of a live session, so a late write is not
      undone by anyone. */
  lemma CleanSplit(cfg: Config, s: Split, t: SplitStep)
    requires cfg.Valid() && Clean(cfg, s.base) && CanStep(cfg, s, t)
    ensures LateWrite(s, t) <==> !Clean(cfg, After(cfg, s, t).base)
    ensures LateWrite(s, t) <==> !NoGhosts(After(cfg, s, t).base)
  {
    if t.Base? {
      CleanStep(cfg, s.base, t.step);
    } else {
      hide Safe;
      if LateWrite(s, t) {
        assert t.id in After(cfg, s, t).base.disk;
      }
    }
  }

  /** Without late writes, the state is clean. */
  lemma {:induction false} CleanRun(cfg: Config, states: seq<Split>, steps: seq<SplitStep>, n: nat)
    requires SplitService(cfg, states, steps) && n < |states|
    requires forall k :: 0 <= k < n ==> !LateWrite(states[k], steps[k])
    ensures Clean(cfg, states[n].base)
  {
    hide CanStep, After, Clean, LateWrite;
    if n == 0 {
      CleanBoot(cfg);
    } else {
      CleanRun(cfg, states, steps, n - 1);
      CleanSplit(cfg, states[n - 1], steps[n - 1]);
    }
  }

  lemma CleanBoot(cfg: Config)
    requires cfg.Valid()
    ensures Clean(cfg, Boot(map[]))
  {
    BootInv(cfg);
  }

  /** In every run, no state ever has a file that a restart would load and memory does not
      know if and only if no thread writes a session's file late. */
  lemma {:induction false} GhostsExactly(cfg: Config, states: seq<Split>, steps: seq<SplitStep>, n: nat)
    requires SplitService(cfg, states, steps) && n < |states|
    ensures
      (forall k :: 0 <= k <= n ==> NoGhosts(states[k].base))
      <==> (forall k :: 0 <= k < n ==> !LateWrite(states[k], steps[k]))
  {
    hide CanStep, After, Clean, LateWrite, NoGhosts;
    if n == 0 {
      CleanRun(cfg, states, steps, 0);
      CleanHasNoGhosts(cfg, states[0].base);
    } else {
      GhostsExactly(cfg, states, steps, n - 1);
      if forall k :: 0 <= k < n - 1 ==> !LateWrite(states[k], steps[k]) {
        CleanRun(cfg, states, steps, n - 1);
        CleanSplit(cfg, states[n - 1], steps[n - 1]);
        assert states[n - 1 + 1] == After(cfg, states[n - 1], steps[n - 1]);
      }
    }
  }

  lemma CleanHasNoGhosts(cfg: Config, s: System)
    requires Clean(cfg, s)
    ensures NoGhosts(s)
  {
  }

  // ------------------------------------------------------- the whole save as two steps

  lemma ExtendSplit(cfg: Config, states: seq<Split>, steps: seq<SplitStep>, t: SplitStep)
    requires SplitService(cfg, states, steps) && CanStep(cfg, states[|steps|], t)
    ensures SplitService(cfg, states + [After(cfg, states[|steps|], t)], steps + [t])
  {
    hide CanStep, After;
    var states', steps' := states + [After(cfg, states[|steps|], t)], steps + [t];
    forall i | 0 <= i < |steps'|
      ensures CanStep(cfg, states'[i], steps'[i]) && states'[i + 1] == After(cfg, states'[i], steps'[i])
    {
      if i < |steps| { assert states'[i] == states[i] && states'[i + 1] == states[i + 1]; }
    }
  }

  /** A save taken as one step is a look followed at once by its write. */
  lemma SaveIsLookAndWrite(cfg: Config, s: System, id: Id)
    requires id in s.flights && (id in s.sessions ==> s.sessions[id].sid == id)
    ensures Enabled(cfg, s, Save(id)) && CanStep(cfg, Split(s, multiset{}), Look(id))
    ensures
      var a, t := After(cfg, Split(s, multiset{}), Look(id)), Next(cfg, s, Save(id));
      if id in s.sessions then
        CanStep(cfg, a, Write(id, s.sessions[id]))
        && After(cfg, a, Write(id, s.sessions[id])) == Split(t, multiset{})
      else a == Split(t, multiset{})
  {
  }

  lemma OtherSteps(cfg: Config, s: System, step: Step)
    requires Enabled(cfg, s, step) && !step.Save?
    ensures CanStep(cfg, Split(s, multiset{}), Base(step))
    ensures After(cfg, Split(s, multiset{}), Base(step)) == Split(Next(cfg, s, step), multiset{})
  {
  }

  lemma SaveEnabled(cfg: Config, s: System, step: Step)
    requires Enabled(cfg, s, step) && step.Save?
    ensures step.id in s.flights
  {
  }

  /** So every run of the step system is a run of this one. */
  lemma {:induction false} Refines(cfg: Config, states: seq<System>, steps: seq<Step>)
    returns (states': seq<Split>, steps': seq<SplitStep>)
    requires Service(cfg, states, steps)
    ensures SplitService(cfg, states', steps') && states'[|steps'|] == Split(states[|steps|], multiset{})
    decreases |steps|
  {
    hide CanStep, After, Next, Enabled;
    if steps == [] {
      states', steps' := [Split(states[0], multiset{})], [];
    } else {
      var n := |steps| - 1;
      RunPrefix(cfg, states, steps);
      states', steps' := Refines(cfg, states[..n + 1], steps[..n]);
      var s, step := states[n], steps[n];
      if step.Save? {
        SaveEnabled(cfg, s, step);
        OwnIds(cfg, states, steps, n, step.id);
        SaveIsLookAndWrite(cfg, s, step.id);
        ExtendSplit(cfg, states', steps', Look(step.id));
        var a := After(cfg, states'[|steps'|], Look(step.id));
        states', steps' := states' + [a], steps' + [Look(step.id)];
        if step.id in s.sessions {
          var write := Write(step.id, s.sessions[step.id]);
          ExtendSplit(cfg, states', steps', write);
          states', steps' := states' + [After(cfg, a, write)], steps' + [write];
        }
      } else {
        OtherSteps(cfg, s, step);
        ExtendSplit(cfg, states', steps', Base(step));
        states', steps' := states' + [After(cfg, states'[|steps'|], Base(step))], steps' + [Base(step)];
      }
    }
  }

  lemma OwnIds(cfg: Config, states: seq<System>, steps: seq<Step>, n: nat, id: Id)
    requires Service(cfg, states, steps) && n < |states|
    ensures id in states[n].sessions ==> states[n].sessions[id].sid == id
  {
    hide Next, Enabled;
    ServiceInv(cfg, states, steps, n);
    SafeIsSound(cfg, states[n].sessions, states[n].todo);
  }

  // ---------------------------------------------- exactly which configuration risks it

  /** At threshold 1 no flush thread ever has a session to write. */
  lemma {:induction false} EagerSplit(cfg: Config, states: seq<Split>, steps: seq<SplitStep>, n: nat)
    requires SplitService(cfg, states, steps) && cfg.batchThreshold == 1 && n < |states|
    ensures Inv(cfg, states[n].base) && states[n].base.flights == multiset{} && states[n].writing == multiset{}
  {
    hide CanStep, After, Inv;
    if n == 0 {
      BootInv(cfg);
      BootIsIdle();
    } else {
      EagerSplit(cfg, states, steps, n - 1);
      EagerSplitStep(cfg, states[n - 1], steps[n - 1]);
    }
  }

  lemma BootIsIdle()
    ensures Boot(map[]).flights == multiset{}
  {
  }

  lemma EagerSplitStep(cfg: Config, s: Split, t: SplitStep)
    requires cfg.Valid() && cfg.batchThreshold == 1 && CanStep(cfg, s, t)
    requires Inv(cfg, s.base) && s.base.flights == multiset{} && s.writing == multiset{}
    ensures
      var u := After(cfg, s, t);
      Inv(cfg, u.base) && u.base.flights == multiset{} && u.writing == multiset{}
  {
    assert s.base.dirty == {};
    StepInv(cfg, s.base, t.step);
    hide Inv, Marked, Section, Legal;
    if t.step.Act? && s.base.todo.Mark? { MarkFlights(cfg, s.base, s.base.todo.id); }
  }

  lemma MarkFlights(cfg: Config, s: System, id: Id)
    ensures Marked(cfg, s, id).flights == s.flights
  {
  }

  lemma DeleteSection(cfg: Config, m: Store, id: Id, ch: Choice)
    requires id in m
    ensures Legal(cfg, m, Delete(id), ch) && Section(cfg, m, Delete(id), ch) == Del(id, Unlink(id, Done))
  {
  }

  /** A session in a flush batch is looked up, deleted, and only then written. */
  lemma LateWriteRun(cfg: Config, states: seq<Split>, steps: seq<SplitStep>, id: Id)
    returns (states': seq<Split>, steps': seq<SplitStep>)
    requires SplitService(cfg, states, steps) && Loadable(id)
    requires
      var s := states[|steps|].base;
      s.todo.Done? && s.saving == {} && id in s.flights && id in s.sessions
    ensures SplitService(cfg, states', steps')
    ensures
      var s := states'[|steps'|].base;
      s.todo.Done? && id !in s.sessions && id in s.disk
  {
    var ch := Choice("", []);
    var s := states[|steps|];
    DeleteSection(cfg, s.base.sessions, id, ch);
    hide Section, Legal;
    ExtendSplit(cfg, states, steps, Look(id));
    var a := After(cfg, s, Look(id));
    var enter := Base(Enter(Delete(id), ch));
    ExtendSplit(cfg, states + [a], steps + [Look(id)], enter);
    var b := After(cfg, a, enter);
    ExtendSplit(cfg, states + [a] + [b], steps + [Look(id)] + [enter], Base(Act));
    var c := After(cfg, b, Base(Act));
    ExtendSplit(cfg, states + [a] + [b] + [c], steps + [Look(id)] + [enter] + [Base(Act)], Base(Act));
    var d := After(cfg, c, Base(Act));
    var write := Write(id, Fresh(id, 0));
    states' := states + [a] + [b] + [c] + [d];
    steps' := steps + [Look(id)] + [enter] + [Base(Act)] + [Base(Act)];
    ExtendSplit(cfg, states', steps', write);
    states', steps' := states' + [After(cfg, d, write)], steps' + [write];
  }

  /** From an empty directory to a restart that brings a deleted session back. */
  lemma DeletedComesBack(cfg: Config) returns (states: seq<Split>, steps: seq<SplitStep>)
    requires cfg.Valid() && cfg.batchThreshold >= 2
    ensures SplitService(cfg, states, steps) && states[|steps|].base.todo.Done?
    ensures !NoGhosts(states[|steps|].base)
  {
    hide CanStep, After, Next, Enabled;
    var id: Id := SESSION_PREFIX;
    var states0, steps0 := CreateFilled(cfg, id);
    states0, steps0 := TakeBatch(cfg, states0, steps0, id, 0);
    states, steps := Refines(cfg, states0, steps0);
    states, steps := LateWriteRun(cfg, states, steps, id);
  }

  /** Which configurations never bring a deleted session back: exactly those that flush at
      every mark. */
  lemma DeletionsHoldExactly(cfg: Config)
    requires cfg.Valid()
    ensures
      (forall states: seq<Split>, steps: seq<SplitStep> :: SplitService(cfg, states, steps) ==>
        NoGhosts(states[|steps|].base))
      <==> cfg.batchThreshold == 1
  {
    hide CanStep, After, NoGhosts;
    if cfg.batchThreshold == 1 {
      forall states: seq<Split>, steps: seq<SplitStep> | SplitService(cfg, states, steps)
        ensures NoGhosts(states[|steps|].base)
      {
        EagerSplit(cfg, states, steps, |steps|);
      }
    } else {
      var states, steps := DeletedComesBack(cfg);
    }
  }
}
