/** A critical section carried out with no other thread in between: what it comes to, and
    that it is one of the runs of the step system. */
module LoneSections {
  import opened Prelude
  import opened Sessions
  import opened SessionLemmas
  import opened StoreRuns
  import opened StoreTheorems

  function SaveAll(sessions: Store, disk: Store, ids: set<Id>): Store {
    disk + (map id | id in ids && id in sessions :: sessions[id])
  }

  /** The threshold flush's saves, all of them. */
  function Drained(s: System): System {
    s.(disk := SaveAll(s.sessions, s.disk, s.saving), saving := {})
  }

  /** The lock holder's program run to its end with no other thread in between. */
  function Alone(cfg: Config, s: System): System
    decreases s.todo
  {
    if s.todo.Done? then s else Alone(cfg, Drained(Acted(cfg, s)))
  }

  lemma ActThenDrain(cfg: Config, s: System)
    requires !s.todo.Done?
    ensures
      var t := Drained(Acted(cfg, s));
      t.saving == {} && t.todo == Acted(cfg, s).todo && t.todo < s.todo && Alone(cfg, s) == Alone(cfg, t)
  {
    hide Marked;
  }

  /** Alone is one of the runs of the step system: any run that ends where the section
      begins can be continued to Alone by the lock holder's own steps. */
  lemma {:induction false} AloneIsARun(cfg: Config, states: seq<System>, steps: seq<Step>)
    returns (states': seq<System>, steps': seq<Step>)
    requires Run(cfg, states, steps) && states[|steps|].saving == {}
    ensures Run(cfg, states', steps') && states <= states' && steps <= steps'
    ensures states'[|steps'|] == Alone(cfg, states[|steps|])
    ensures forall k :: |steps| <= k < |steps'| ==> steps'[k].Act? || steps'[k].SaveHeld?
    decreases states[|steps|].todo
  {
    hide Acted, Drained, Alone, Next, Enabled;
    var s := states[|steps|];
    if s.todo.Done? {
      AloneDone(cfg, s);
      states', steps' := states, steps;
    } else {
      ActThenDrain(cfg, s);
      ActEnabled(cfg, s);
      ExtendRun(cfg, states, steps, Act);
      states', steps' := DrainIsARun(cfg, states + [Acted(cfg, s)], steps + [Act]);
      states', steps' := AloneIsARun(cfg, states', steps');
    }
  }

  lemma ActEnabled(cfg: Config, s: System)
    requires !s.todo.Done? && s.saving == {}
    ensures Enabled(cfg, s, Act) && Next(cfg, s, Act) == Acted(cfg, s)
  {
  }

  lemma HeldEnabled(cfg: Config, s: System, id: Id)
    requires id in s.saving
    ensures Enabled(cfg, s, SaveHeld(id))
    ensures
      var t := Next(cfg, s, SaveHeld(id));
      t.saving == s.saving - {id} && t.saving < s.saving && Drained(t) == Drained(s)
  {
    SaveOneFirst(s.sessions, s.disk, s.saving, id);
  }

  lemma {:induction false} DrainIsARun(cfg: Config, states: seq<System>, steps: seq<Step>)
    returns (states': seq<System>, steps': seq<Step>)
    requires Run(cfg, states, steps)
    ensures Run(cfg, states', steps') && states <= states' && steps <= steps'
    ensures states'[|steps'|] == Drained(states[|steps|])
    ensures forall k :: |steps| <= k < |steps'| ==> steps'[k].SaveHeld?
    decreases states[|steps|].saving
  {
    hide Drained, Next, Enabled;
    var s := states[|steps|];
    if s.saving == {} {
      Idle(s);
      states', steps' := states, steps;
    } else {
      var id :| id in s.saving;
      HeldEnabled(cfg, s, id);
      ExtendRun(cfg, states, steps, SaveHeld(id));
      states', steps' := DrainIsARun(cfg, states + [Next(cfg, s, SaveHeld(id))], steps + [SaveHeld(id)]);
    }
  }

  lemma NothingSaved(sessions: Store, disk: Store)
    ensures SaveAll(sessions, disk, {}) == disk
  {
  }

  lemma SaveOneMore(sessions: Store, disk: Store, ids: set<Id>, id: Id)
    ensures SaveTo(sessions, SaveAll(sessions, disk, ids), id) == SaveAll(sessions, disk, ids + {id})
  {
  }

  lemma SaveOneFirst(sessions: Store, disk: Store, ids: set<Id>, id: Id)
    requires id in ids
    ensures SaveAll(sessions, SaveTo(sessions, disk, id), ids - {id}) == SaveAll(sessions, disk, ids)
  {
  }

  /** The map after a section is its outcome on the map alone. */
  lemma {:induction false} AloneSessions(cfg: Config, s: System)
    ensures Alone(cfg, s).sessions == Outcome(s.sessions, s.todo)
    decreases s.todo
  {
    if !s.todo.Done? {
      ActedOutcome(cfg, s);
      AloneSessions(cfg, Drained(Acted(cfg, s)));
      hide Outcome, Acted;
    }
  }

  lemma AloneRemove(cfg: Config, s: System, id: Id, next: Program)
    requires s.saving == {}
    ensures Alone(cfg, s.(todo := Remove(id, next)))
         == Alone(cfg, s.(sessions := Without(s.sessions, id), disk := Without(s.disk, id), todo := next))
  {
    var a := s.(todo := Remove(id, next));
    var b := a.(sessions := Without(s.sessions, id), todo := Unlink(id, next));
    Idle(Acted(cfg, a));
    Idle(Acted(cfg, b));
    assert Alone(cfg, a) == Alone(cfg, b);
  }

  lemma Idle(s: System)
    requires s.saving == {}
    ensures Drained(s) == s
  {
    assert SaveAll(s.sessions, s.disk, {}) == s.disk;
  }

  lemma AlonePut(cfg: Config, s: System, id: Id, v: Session, next: Program)
    requires s.saving == {}
    ensures Alone(cfg, s.(todo := Put(id, v, next)))
         == Alone(cfg, s.(sessions := s.sessions[id := v], todo := next))
  {
    Idle(s.(sessions := s.sessions[id := v], todo := next));
  }

  lemma AlonePutMark(cfg: Config, s: System, id: Id, v: Session)
    requires s.saving == {} && s.todo.Done?
    ensures Alone(cfg, s.(todo := Put(id, v, Mark(id, Done))))
         == Drained(Marked(cfg, s.(sessions := s.sessions[id := v]), id))
  {
    AlonePut(cfg, s, id, v, Mark(id, Done));
    AloneMark(cfg, s.(sessions := s.sessions[id := v]), id);
  }

  lemma RemoveAllStep(ids: seq<Id>, i: nat)
    requires i < |ids|
    ensures RemoveAll(ids[i..]) == Remove(ids[i], RemoveAll(ids[i + 1..]))
  {
    assert ids[i..][1..] == ids[i + 1..];
  }

  lemma AloneNothing(cfg: Config, s: System, ids: seq<Id>)
    requires s.todo.Done?
    ensures Alone(cfg, s.(todo := RemoveAll(ids[|ids|..]))) == s
  {
  }

  lemma AloneDone(cfg: Config, s: System)
    requires s.todo.Done?
    ensures Alone(cfg, s) == s && Alone(cfg, s.(todo := Done)) == s
  {
  }

  lemma AloneMark(cfg: Config, s: System, id: Id)
    requires s.saving == {} && s.todo.Done?
    ensures Alone(cfg, s.(todo := Mark(id, Done))) == Drained(Marked(cfg, s, id))
  {
    var a := s.(todo := Mark(id, Done));
    assert Alone(cfg, a) == Alone(cfg, Drained(Acted(cfg, a)));
  }

  lemma AloneEvict(cfg: Config, s: System, ch: Choice, t: System, next: Program)
    requires s.saving == {} && s.todo.Done?
    requires t == s.(sessions := Evicted(cfg, s.sessions, ch),
                     disk := if |s.sessions| >= cfg.maxSessions then Without(s.disk, ch.victim) else s.disk)
    ensures Alone(cfg, s.(todo := Evict(cfg, s.sessions, ch, next))) == Alone(cfg, t.(todo := next))
  {
    if |s.sessions| >= cfg.maxSessions {
      AloneRemove(cfg, s, ch.victim, next);
    }
  }

  lemma AloneDrop(cfg: Config, s: System, id: Id, now: int, next: Program)
    requires s.saving == {}
    ensures
      var m := Checked(cfg, s.sessions, id, now);
      Alone(cfg, s.(todo := DropExpired(cfg, s.sessions, id, now, next)))
      == Alone(cfg, s.(sessions := m, disk := if m == s.sessions then s.disk else Without(s.disk, id), todo := next))
  {
    if id in s.sessions && Expired(cfg, s.sessions[id], now) {
      AloneRemove(cfg, s, id, next);
    }
  }

  lemma AlonePuts(cfg: Config, s: System, id: Id, a: Session, b: Session, c: Session)
    requires s.saving == {} && s.todo.Done? && a.sid == b.sid == c.sid == id
    ensures Alone(cfg, s.(todo := Put(id, a, Put(id, b, Put(id, c, Mark(id, Done))))))
         == Drained(Marked(cfg, s.(sessions := s.sessions[id := c]), id))
  {
    var s1 := s.(sessions := s.sessions[id := a]);
    var s2 := s1.(sessions := s1.sessions[id := b]);
    AlonePut(cfg, s, id, a, Put(id, b, Put(id, c, Mark(id, Done))));
    AlonePut(cfg, s1, id, b, Put(id, c, Mark(id, Done)));
    AlonePutMark(cfg, s2, id, c);
    PutTwice(s.sessions, a, b);
    PutTwice(s.sessions, b, c);
  }
}
