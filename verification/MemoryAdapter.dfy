/** The memory adapters and their write coalescer as the classes they are, each method
    proved to perform exactly the critical section that the step system interleaves. */
module MemoryAdapter {
  import opened Prelude
  import opened Sessions
  import opened SessionLemmas
  import opened StoreRuns
  import opened LoneSections
  import opened Interchange

  lemma CheckedTwice(cfg: Config, m: Store, id: Id, now: int)
    ensures
      var c := Checked(cfg, m, id, now);
      DropExpired(cfg, c, id, now, Done) == Done && Look(cfg, c, id, now) == Look(cfg, m, id, now)
  {
  }

  /** The three forms of add_turn's critical section. */
  lemma TurnSections(cfg: Config, m: Store, id: Id, role: string, content: string, now: int, ch: Choice)
    ensures
      var op, msg := Op.AddTurn(id, role, content, now), Message(role, content, now);
      var base, s := Checked(cfg, m, id, now), Fresh(id, now);
      var section := Section(cfg, m, op, ch);
      if Active(cfg, m, id, now) then Legal(cfg, m, op, ch) && section == Append(cfg, m[id], msg, now)
      else if cfg.backend == JsonFile then Legal(cfg, m, op, ch) && section == DropExpired(cfg, m, id, now, Done)
      else
        section == DropExpired(cfg, m, id, now, Evict(cfg, base, ch, Put(id, s, Append(cfg, s, msg, now))))
        && ((|base| >= cfg.maxSessions ==> IsOldest(base, ch.victim)) ==> Legal(cfg, m, op, ch))
  {
    hide Append, Evict, DropExpired, IsOldest, Expired;
  }

  // ------------------------------------------------------------------- the classes

  /** cache.py's WriteCoalescer.  A flush hands the taken batch to its caller, which
      passes each id to the save function. */
  class WriteCoalescer {
    const batchThreshold: nat
    var dirty: set<Id>
    var timer: Timer

    constructor (batchThreshold: nat)
      ensures this.batchThreshold == batchThreshold && dirty == {} && timer == NoTimer
    {
      this.batchThreshold := batchThreshold;
      dirty, timer := {}, NoTimer;
    }

    method MarkDirty(id: Id) returns (batch: set<Id>)
      modifies this
      ensures
        if |old(dirty) + {id}| >= batchThreshold
        then batch == old(dirty) + {id} && dirty == {} && timer == NoTimer
        else batch == {} && dirty == old(dirty) + {id}
             && timer == if old(timer).NoTimer? then Armed else old(timer)
    {
      dirty := dirty + {id};
      batch := {};
      if |dirty| >= batchThreshold {
        batch := Flush();
      } else if timer == NoTimer {
        timer := Armed;
      }
    }

    method Flush() returns (batch: set<Id>)
      modifies this
      ensures batch == old(dirty) && dirty == {} && timer == NoTimer
    {
      batch := dirty;
      dirty := {};
      if timer != NoTimer {
        timer := NoTimer;
      }
    }

    method Shutdown() returns (batch: set<Id>)
      modifies this
      ensures batch == old(dirty) && dirty == {} && timer == NoTimer
    {
      if timer != NoTimer {
        timer := NoTimer;
      }
      batch := Flush();
    }
  }

  // ------------------------------------------------------------- loading the directory

  /** The paths that match session_*.json. */
  function Loadables(files: map<Id, Option<Session>>): set<Id> {
    set path | path in files && Loadable(path)
  }

  function Decoded(files: map<Id, Option<Session>>): Store {
    map path | path in files && files[path].Some? :: files[path].value
  }

  /** Every file is named after the session it holds. */
  ghost predicate WellNamed(files: map<Id, Option<Session>>) {
    forall path :: path in files && files[path].Some? ==> files[path].value.sid == path
  }

  /** Each decodable file of `paths` gives a session under its own id, and nothing else
      does; where several files hold one id, any of them may be the one kept. */
  ghost predicate LoadedFrom(files: map<Id, Option<Session>>, paths: set<Id>, sessions: Store) {
    paths <= files.Keys
    && (forall id :: id in sessions ==>
          sessions[id].sid == id && exists path :: path in paths && files[path] == Some(sessions[id]))
    && (forall path :: path in paths && files[path].Some? ==> files[path].value.sid in sessions)
  }

  lemma LoadOne(files: map<Id, Option<Session>>, paths: set<Id>, sessions: Store, path: Id)
    requires LoadedFrom(files, paths, sessions) && path in files
    ensures
      LoadedFrom(files, paths + {path},
        if files[path].Some? then sessions[files[path].value.sid := files[path].value] else sessions)
  {
    var after := if files[path].Some? then sessions[files[path].value.sid := files[path].value] else sessions;
    forall id | id in after ensures exists p :: p in paths + {path} && files[p] == Some(after[id]) {
      if files[path].Some? && id == files[path].value.sid {
        assert files[path] == Some(after[id]);
      } else {
        var p :| p in paths && files[p] == Some(sessions[id]);
        assert p in paths + {path};
      }
    }
  }

  /** Files named after their sessions are loaded as they are. */
  lemma NamedLoad(files: map<Id, Option<Session>>, sessions: Store)
    requires LoadedFrom(files, Loadables(files), sessions)
    ensures WellNamed(files) ==> sessions == Load(Decoded(files))
  {
    if WellNamed(files) {
      var loaded := Load(Decoded(files));
      forall id ensures id in sessions <==> id in loaded {
        if id in loaded { assert id in Loadables(files); }
      }
    }
  }

  lemma BootOf(disk: Store)
    ensures Boot(disk) == System(Load(disk), disk, {}, NoTimer, 0, multiset{}, {}, Done)
  {
  }

  /** LangGraphMemory and JsonFileMemory, whose texts differ in add_turn and in the
      state methods only; `disk` is the sessions directory. */
  class SessionMemory {
    const cfg: Config
    const coalescer: WriteCoalescer
    var sessions: Store
    var disk: Store

    ghost predicate Valid()
      reads this
    {
      coalescer.batchThreshold == cfg.batchThreshold && cfg.Valid()
      && forall id :: id in sessions ==> sessions[id].sid == id
    }

    /** The state of the step system while no thread is inside the backend. */
    function Now(): System
      reads this, coalescer
    {
      System(sessions, disk, coalescer.dirty, coalescer.timer, 0, multiset{}, {}, Done)
    }

    /** What op's critical section makes of the current state. */
    function Then(op: Op, ch: Choice): System
      reads this, coalescer
    {
      Alone(cfg, Now().(todo := Section(cfg, sessions, op, ch)))
    }

    /** __init__ with _load_sessions.  A file that does not parse, or has no session_id, is
        None and skipped. */
    constructor (cfg: Config, files: map<Id, Option<Session>>)
      requires cfg.Valid()
      ensures this.cfg == cfg && Valid() && fresh(coalescer)
      ensures disk == Decoded(files) && LoadedFrom(files, Loadables(files), sessions)
      ensures coalescer.dirty == {} && coalescer.timer == NoTimer
      ensures WellNamed(files) ==> Now() == Boot(disk)
    {
      this.cfg := cfg;
      coalescer := new WriteCoalescer(cfg.batchThreshold);
      disk := Decoded(files);
      sessions := map[];
      new;
      hide Boot, Decoded;
      sessions := LoadSessions(files);
      NamedLoad(files, sessions);
      BootOf(disk);
    }

    static method LoadSessions(files: map<Id, Option<Session>>) returns (sessions: Store)
      ensures LoadedFrom(files, Loadables(files), sessions)
    {
      sessions := map[];
      var paths := Loadables(files);
      while paths != {}
        invariant paths <= Loadables(files)
        invariant LoadedFrom(files, Loadables(files) - paths, sessions)
        decreases paths
      {
        var path :| path in paths;
        var data := files[path];
        LoadOne(files, Loadables(files) - paths, sessions, path);
        assert Loadables(files) - paths + {path} == Loadables(files) - (paths - {path});
        if data.Some? {
          sessions := sessions[data.value.sid := data.value];
        }
        paths := paths - {path};
      }
      assert Loadables(files) - paths == Loadables(files);
    }

    /** _save_session for every id of a batch. */
    method SaveBatch(batch: set<Id>)
      modifies this`disk
      ensures disk == SaveAll(sessions, old(disk), batch)
    {
      var rest := batch;
      NothingSaved(sessions, disk);
      assert batch - rest == {};
      hide SaveAll;
      while rest != {}
        invariant rest <= batch
        invariant disk == SaveAll(sessions, old(disk), batch - rest)
        decreases rest
      {
        var sid :| sid in rest;
        SaveOneMore(sessions, old(disk), batch - rest, sid);
        assert batch - rest + {sid} == batch - (rest - {sid});
        if sid in sessions {
          disk := disk[sid := sessions[sid]];
        }
        rest := rest - {sid};
      }
      assert batch - rest == batch;
    }

    method MarkDirty(id: Id)
      requires Valid()
      modifies this`disk, coalescer
      ensures Valid() && Now() == Drained(Marked(cfg, old(Now()), id))
    {
      var batch := coalescer.MarkDirty(id);
      SaveBatch(batch);
      assert batch == {} ==> disk == old(disk);
    }

    /** The body of delete_session for an id that is present. */
    method Drop(id: Id)
      modifies this`sessions, this`disk
      ensures sessions == Without(old(sessions), id) && disk == Without(old(disk), id)
    {
      sessions := Without(sessions, id);
      if id in disk {
        disk := Without(disk, id);
      }
    }

    /** min over the sessions by last_active; which of equally old ones is left open. */
    method Oldest() returns (victim: Id)
      requires |sessions| > 0
      ensures IsOldest(sessions, victim)
    {
      assert sessions.Keys != {};
      victim :| victim in sessions;
      var rest := sessions.Keys - {victim};
      while rest != {}
        invariant rest <= sessions.Keys && victim in sessions
        invariant forall j :: j in sessions && j !in rest ==> sessions[victim].lastActive <= sessions[j].lastActive
        decreases rest
      {
        var id :| id in rest;
        if sessions[id].lastActive < sessions[victim].lastActive {
          victim := id;
        }
        rest := rest - {id};
      }
    }

    method EvictIfFull() returns (ghost ch: Choice)
      requires Valid()
      modifies this`sessions, this`disk
      ensures Valid()
      ensures |old(sessions)| >= cfg.maxSessions ==> IsOldest(old(sessions), ch.victim)
      ensures sessions == Evicted(cfg, old(sessions), ch)
      ensures disk == if |old(sessions)| >= cfg.maxSessions then Without(old(disk), ch.victim) else old(disk)
    {
      ch := Choice("", []);
      if |sessions| >= cfg.maxSessions {
        var victim := Oldest();
        ch := Choice(victim, []);
        Drop(victim);
      }
    }

    /** _ensure_active. */
    method EnsureActive(id: Id, now: int) returns (active: bool)
      requires Valid()
      ensures Valid()
      modifies this`sessions, this`disk
      ensures active == Active(cfg, old(sessions), id, now)
      ensures sessions == Checked(cfg, old(sessions), id, now)
      ensures disk == if sessions == old(sessions) then old(disk) else Without(old(disk), id)
      ensures Now() == Alone(cfg, old(Now()).(todo := DropExpired(cfg, old(sessions), id, now, Done)))
    {
      hide Alone;
      AloneDone(cfg, Now());
      if id !in sessions {
        return false;
      }
      active := !Expired(cfg, sessions[id], now);
      if !active {
        ghost var s := Now();
        Drop(id);
        AloneRemove(cfg, s, id, Done);
        AloneDone(cfg, Now());
      }
    }

    /** Make room if the map is full and store a new, empty session. */
    method Open(id: Id, now: int, ghost next: Program) returns (ghost ch: Choice)
      requires Valid()
      modifies this`sessions, this`disk
      ensures Valid() && id in sessions && sessions[id] == Fresh(id, now)
      ensures |old(sessions)| >= cfg.maxSessions ==> IsOldest(old(sessions), ch.victim)
      ensures Alone(cfg, Now().(todo := next))
           == Alone(cfg, old(Now()).(todo := Evict(cfg, old(sessions), ch, Put(id, Fresh(id, now), next))))
    {
      hide Alone, IsOldest;
      ghost var s0 := Now();
      ch := EvictIfFull();
      ghost var s1 := Now();
      sessions := sessions[id := Fresh(id, now)];
      AloneEvict(cfg, s0, ch, s1, Put(id, Fresh(id, now), next));
      AlonePut(cfg, s1, id, Fresh(id, now), next);
    }

    method CreateSession(id: Id, now: int) returns (sid: Id, ghost ch: Choice)
      requires Valid()
      modifies this, coalescer
      ensures Valid() && sid == id && Legal(cfg, old(sessions), Create(id, now), ch)
      ensures Now() == old(Then(Create(id, now), ch))
    {
      hide Alone;
      AloneDone(cfg, Now());
      sid, ch := id, Choice("", []);
      if id in sessions {
        return;
      }
      ch := Open(id, now, Mark(id, Done));
      ghost var s1 := Now();
      MarkDirty(id);
      AloneMark(cfg, s1, id);
    }

    /** The end of add_turn: append, touch, trim, mark. */
    method AppendTurn(id: Id, msg: Message, now: int)
      requires Valid() && id in sessions
      modifies this, coalescer
      ensures Valid()
      ensures Now() == Alone(cfg, old(Now()).(todo := Append(cfg, old(sessions[id]), msg, now)))
    {
      ghost var s0 := Now();
      ghost var a := WithMessage(sessions[id], msg);
      ghost var t := Touched(a, now);
      sessions := sessions[id := sessions[id].(messages := sessions[id].messages + [msg])];
      sessions := sessions[id := sessions[id].(lastActive := now)];
      var maxMessages := cfg.maxTurns * 2;
      if |sessions[id].messages| > maxMessages {
        sessions := sessions[id := sessions[id].(messages := PyTail(sessions[id].messages, maxMessages))];
      }
      assert sessions == s0.sessions[id := Trimmed(cfg, t)];
      MarkDirty(id);
      AlonePuts(cfg, s0, id, a, t, Trimmed(cfg, t));
    }

    /** add_turn for an id that is not in the map. */
    method OpenAndAppend(id: Id, msg: Message, now: int) returns (ghost ch: Choice)
      requires Valid()
      modifies this, coalescer
      ensures Valid() && (|old(sessions)| >= cfg.maxSessions ==> IsOldest(old(sessions), ch.victim))
      ensures
        var s := Fresh(id, now);
        Now() == Alone(cfg, old(Now()).(todo := Evict(cfg, old(sessions), ch, Put(id, s, Append(cfg, s, msg, now)))))
    {
      ch := Open(id, now, Append(cfg, Fresh(id, now), msg, now));
      hide Alone, Append, IsOldest, Evict;
      AppendTurn(id, msg, now);
    }

    method AddTurn(id: Id, role: string, content: string, now: int) returns (ghost ch: Choice)
      requires Valid()
      modifies this, coalescer
      ensures Valid() && Legal(cfg, old(sessions), Op.AddTurn(id, role, content, now), ch)
      ensures Now() == old(Then(Op.AddTurn(id, role, content, now), ch))
    {
      hide Alone, Append, IsOldest, Evict, DropExpired, Section, Legal;
      ch := Choice("", []);
      TurnSections(cfg, sessions, id, role, content, now, ch);
      ghost var s0 := Now();
      var msg := Message(role, content, now);
      var active := EnsureActive(id, now);
      ghost var s1 := Now();
      if active {
        AppendTurn(id, msg, now);
      } else if cfg.backend == LangGraph {
        ch := OpenAndAppend(id, msg, now);
        ghost var s := Fresh(id, now);
        TurnSections(cfg, s0.sessions, id, role, content, now, ch);
        AloneDrop(cfg, s0, id, now, Evict(cfg, s1.sessions, ch, Put(id, s, Append(cfg, s, msg, now))));
      }
    }

    /** One in-place change of a live session, then its mark. */
    method ChangeAndMark(id: Id, s: Session)
      requires Valid() && s.sid == id
      modifies this`sessions, this`disk, coalescer
      ensures Valid() && Now() == Alone(cfg, old(Now()).(todo := Put(id, s, Mark(id, Done))))
    {
      hide Alone, Drained, Marked;
      ghost var s0 := Now();
      sessions := sessions[id := s];
      MarkDirty(id);
      AlonePutMark(cfg, s0, id, s);
    }

    method Summarize(id: Id, summary: string, now: int)
      requires Valid()
      modifies this, coalescer
      ensures Valid() && Now() == old(Then(Op.Summarize(id, summary, now), Choice("", [])))
    {
      hide Alone, Expired;
      AloneDone(cfg, Now());
      if summary == "" {
        return;
      }
      var active := EnsureActive(id, now);
      if active {
        ChangeAndMark(id, sessions[id].(summary := summary));
      }
    }

    /** update_state, which JsonFileMemory does not have: its callers skip the call. */
    method UpdateState(id: Id, patch: map<string, string>, now: int)
      requires Valid() && cfg.backend == LangGraph
      modifies this, coalescer
      ensures Valid() && Now() == old(Then(Op.UpdateState(id, patch, now), Choice("", [])))
    {
      hide Alone, Expired;
      var active := EnsureActive(id, now);
      if active {
        ChangeAndMark(id, sessions[id].(state := sessions[id].state + patch));
      }
    }

    method GetState(id: Id, now: int) returns (state: map<string, string>)
      requires Valid() && cfg.backend == LangGraph
      modifies this`sessions, this`disk
      ensures Valid() && Now() == old(Then(Op.GetState(id, now), Choice("", [])))
      ensures Reply.State(state) == Answer(cfg, old(sessions), Op.GetState(id, now))
    {
      hide Alone;
      var active := EnsureActive(id, now);
      state := if active then sessions[id].state else map[];
    }

    method ClearHistory(id: Id, now: int) returns (done: bool)
      requires Valid()
      modifies this, coalescer
      ensures Valid() && Now() == old(Then(Op.Clear(id, now), Choice("", [])))
      ensures Flag(done) == Answer(cfg, old(sessions), Op.Clear(id, now))
    {
      hide Alone;
      AloneDone(cfg, Now());
      ghost var s0 := Now();
      done := EnsureActive(id, now);
      if done {
        ghost var a := sessions[id].(messages := []);
        ghost var b := a.(summary := "");
        sessions := sessions[id := sessions[id].(messages := [])];
        sessions := sessions[id := sessions[id].(summary := "")];
        sessions := sessions[id := sessions[id].(lastActive := now)];
        assert sessions == s0.sessions[id := Touched(b, now)];
        MarkDirty(id);
        AlonePuts(cfg, s0, id, a, b, Touched(b, now));
      }
    }

    method DeleteSession(id: Id) returns (done: bool)
      requires Valid()
      modifies this`sessions, this`disk
      ensures Valid() && Now() == old(Then(Op.Delete(id), Choice("", [])))
      ensures Flag(done) == Answer(cfg, old(sessions), Op.Delete(id))
    {
      hide Alone;
      AloneDone(cfg, Now());
      if id !in sessions {
        return false;
      }
      ghost var s0 := Now();
      Drop(id);
      AloneRemove(cfg, s0, id, Done);
      AloneDone(cfg, Now());
      done := true;
    }

    method GetMessages(id: Id, now: int) returns (messages: seq<Message>)
      requires Valid()
      modifies this`sessions, this`disk
      ensures Valid() && Now() == old(Then(Op.Read(id, now), Choice("", [])))
      ensures messages == Look(cfg, old(sessions), id, now).messages
      ensures sessions == Checked(cfg, old(sessions), id, now)
    {
      hide Alone;
      var active := EnsureActive(id, now);
      messages := if active then sessions[id].messages else [];
    }

    method GetSummary(id: Id, now: int) returns (summary: string)
      requires Valid()
      modifies this`sessions, this`disk
      ensures Valid() && Now() == old(Then(Op.Read(id, now), Choice("", [])))
      ensures summary == Look(cfg, old(sessions), id, now).summary
    {
      hide Alone;
      var active := EnsureActive(id, now);
      summary := if active then sessions[id].summary else "";
    }

    method GetSessionInfo(id: Id, now: int) returns (info: Option<Info>)
      requires Valid()
      modifies this`sessions, this`disk
      ensures Valid() && Now() == old(Then(Op.Read(id, now), Choice("", [])))
      ensures info == Look(cfg, old(sessions), id, now).info
    {
      hide Alone;
      var active := EnsureActive(id, now);
      if active {
        var s := sessions[id];
        info := Some(Info(s.sid, s.created, s.lastActive, |s.messages|));
      } else {
        info := None;
      }
    }

    /** get_history: the two reads take the lock one after the other. */
    method GetHistory(id: Id, now: int) returns (history: string)
      requires Valid()
      modifies this`sessions, this`disk
      ensures Valid() && Now() == old(Then(Op.Read(id, now), Choice("", [])))
      ensures history == Look(cfg, old(sessions), id, now).history
    {
      hide Alone;
      ghost var m := sessions;
      var messages := GetMessages(id, now);
      CheckedTwice(cfg, m, id, now);
      AloneDone(cfg, Now());
      var summary := GetSummary(id, now);
      history := Format(messages, summary);
    }

    static method Format(messages: seq<Message>, summary: string) returns (history: string)
      ensures history == History(messages, summary)
    {
      var lines: seq<string> := [];
      if summary != "" {
        lines := lines + ["[Previous conversation summary: " + summary + "]"];
      }
      var i := 0;
      while i < |messages|
        invariant 0 <= i <= |messages|
        invariant lines == SummaryLine(summary) + HistoryLines(messages[..i])
      {
        var role := if messages[i].role == "user" then "Customer" else "Assistant";
        lines := lines + [role + ": " + messages[i].content];
        i := i + 1;
      }
      assert messages[..i] == messages;
      history := Join("\n", lines);
    }

    /** The expired ids, as the list comprehension collects them. */
    method CollectExpired(now: int) returns (expired: seq<Id>)
      ensures Enumerates(expired, ExpiredIds(cfg, sessions, now))
    {
      expired := [];
      var rest := sessions.Keys;
      while rest != {}
        invariant rest <= sessions.Keys
        invariant Enumerates(expired, set id | id in sessions && id !in rest && Expired(cfg, sessions[id], now))
        decreases rest
      {
        var id :| id in rest;
        if Expired(cfg, sessions[id], now) {
          expired := expired + [id];
        }
        rest := rest - {id};
      }
      assert (set id | id in sessions && id !in rest && Expired(cfg, sessions[id], now))
          == ExpiredIds(cfg, sessions, now);
    }

    /** _purge_expired, and the loop of cleanup_expired. */
    method PurgeExpired(now: int) returns (expired: seq<Id>)
      requires Valid()
      modifies this`sessions, this`disk
      ensures Valid() && Legal(cfg, old(sessions), Op.Purge(now), Choice("", expired))
      ensures Now() == old(Then(Op.Purge(now), Choice("", expired)))
    {
      expired := CollectExpired(now);
      hide Alone, Enumerates, RemoveAll, ExpiredIds, Expired;
      ghost var end := Alone(cfg, Now().(todo := RemoveAll(expired)));
      var i := 0;
      while i < |expired|
        invariant 0 <= i <= |expired| && Valid()
        invariant coalescer.dirty == old(coalescer.dirty) && coalescer.timer == old(coalescer.timer)
        invariant Alone(cfg, Now().(todo := RemoveAll(expired[i..]))) == end
      {
        RemoveAllStep(expired, i);
        AloneRemove(cfg, Now(), expired[i], RemoveAll(expired[i + 1..]));
        Drop(expired[i]);
        i := i + 1;
      }
      AloneNothing(cfg, Now(), expired);
    }

    method ListSessions(now: int) returns (ids: set<Id>, ghost ch: Choice)
      requires Valid()
      modifies this`sessions, this`disk
      ensures Valid() && Legal(cfg, old(sessions), Op.Purge(now), ch)
      ensures Now() == old(Then(Op.Purge(now), ch))
      ensures ids == sessions.Keys
    {
      var expired := PurgeExpired(now);
      ch := Choice("", expired);
      ids := sessions.Keys;
    }

    method CleanupExpired(now: int) returns (count: nat, ghost ch: Choice)
      requires Valid()
      modifies this`sessions, this`disk
      ensures Valid() && Legal(cfg, old(sessions), Op.Purge(now), ch)
      ensures Now() == old(Then(Op.Purge(now), ch))
      ensures count == |ch.order|
    {
      var expired := PurgeExpired(now);
      ch := Choice("", expired);
      count := |expired|;
    }
  }
}
