/** What the interleaved backend has in common with the sequential one: every run of the
    step system is explained by its operations since the last restart taken one at a
    time, and every operation can be carried out without interruption. */
module Linearization {
  import opened Prelude
  import opened Sessions
  import opened SessionLemmas
  import opened SessionTheorems
  import opened StoreRuns
  import opened StoreTheorems
  import opened LoneSections
  import opened Interchange

  /** The operations in the order in which they took the lock. */
  function Entered(steps: seq<Step>): seq<Event> {
    if steps == [] then []
    else
      var before := Entered(steps[..|steps| - 1]);
      match steps[|steps| - 1]
      case Enter(op, ch) => before + [Event(op, ch)]
      case _ => before
  }

  /** The map as it will be once the operation in progress is over. */
  function Settled(s: System): Store { Outcome(s.sessions, s.todo) }

  lemma SettledStep(cfg: Config, s: System, step: Step)
    requires Enabled(cfg, s, step) && !step.Crash?
    ensures
      Settled(Next(cfg, s, step))
      == if step.Enter? then Perform(cfg, s.sessions, Event(step.op, step.ch)) else Settled(s)
  {
    if step.Act? { ActedOutcome(cfg, s); }
  }

  lemma ReplaySnoc(cfg: Config, events: seq<Event>, e: Event)
    ensures Replay(cfg, events + [e]) == Perform(cfg, Replay(cfg, events), e)
    ensures Plausible(cfg, events + [e]) <==> Plausible(cfg, events) && Legal(cfg, Replay(cfg, events), e.op, e.ch)
  {
    assert (events + [e])[..|events|] == events;
  }

  /** The map after operations taken one at a time, from any map. */
  function ReplayFrom(cfg: Config, m: Store, events: seq<Event>): Store {
    if events == [] then m
    else Perform(cfg, ReplayFrom(cfg, m, events[..|events| - 1]), events[|events| - 1])
  }

  predicate PlausibleFrom(cfg: Config, m: Store, events: seq<Event>) {
    events == []
    || (var n := |events| - 1;
        PlausibleFrom(cfg, m, events[..n])
        && Legal(cfg, ReplayFrom(cfg, m, events[..n]), events[n].op, events[n].ch))
  }

  lemma ReplayFromSnoc(cfg: Config, m: Store, events: seq<Event>, e: Event)
    ensures ReplayFrom(cfg, m, events + [e]) == Perform(cfg, ReplayFrom(cfg, m, events), e)
    ensures
      PlausibleFrom(cfg, m, events + [e])
      <==> PlausibleFrom(cfg, m, events) && Legal(cfg, ReplayFrom(cfg, m, events), e.op, e.ch)
  {
    assert (events + [e])[..|events|] == events;
  }

  lemma {:induction false} ReplayFromNothing(cfg: Config, events: seq<Event>)
    ensures ReplayFrom(cfg, map[], events) == Replay(cfg, events)
    ensures PlausibleFrom(cfg, map[], events) <==> Plausible(cfg, events)
  {
    hide Perform, Legal;
    if events != [] { ReplayFromNothing(cfg, events[..|events| - 1]); }
  }

  /** How many steps there are up to the last crash, and so the index of the state that the
      last restart loaded. */
  function LastBoot(steps: seq<Step>): (b: nat)
    ensures b <= |steps|
    ensures b == 0 || steps[b - 1].Crash?
  {
    if steps == [] || steps[|steps| - 1].Crash? then |steps| else LastBoot(steps[..|steps| - 1])
  }

  lemma RunPrefix(cfg: Config, states: seq<System>, steps: seq<Step>)
    requires Service(cfg, states, steps) && steps != []
    ensures Service(cfg, states[..|states| - 1], steps[..|steps| - 1])
  {
    hide Next, Enabled;
  }

  /** The operations explain the map that s is working towards. */
  predicate Explains(cfg: Config, loaded: Store, events: seq<Event>, s: System) {
    PlausibleFrom(cfg, loaded, events) && Settled(s) == ReplayFrom(cfg, loaded, events)
  }

  lemma ExplainsStep(cfg: Config, loaded: Store, before: seq<Step>, s: System, step: Step)
    requires Explains(cfg, loaded, Entered(before), s) && Enabled(cfg, s, step) && !step.Crash?
    ensures Explains(cfg, loaded, Entered(before + [step]), Next(cfg, s, step))
  {
    hide Next, Enabled, ReplayFrom, PlausibleFrom, Perform, Settled;
    assert (before + [step])[..|before|] == before;
    SettledStep(cfg, s, step);
    if step.Enter? {
      EnterFacts(cfg, s, step);
      ReplayFromSnoc(cfg, loaded, Entered(before), Event(step.op, step.ch));
    }
  }

  lemma ExplainsBoot(cfg: Config, disk: Store)
    ensures Boot(disk).disk == disk && Explains(cfg, Load(disk), Entered([]), Boot(disk))
  {
  }

  lemma CrashBoots(cfg: Config, s: System, step: Step)
    requires step.Crash? && Enabled(cfg, s, step)
    ensures Next(cfg, s, step) == Boot(s.disk)
  {
  }

  lemma BootStays(steps: seq<Step>)
    requires steps != [] && !steps[|steps| - 1].Crash?
    ensures
      var n := |steps| - 1;
      var b := LastBoot(steps[..n]);
      LastBoot(steps) == b && steps[b..] == steps[..n][b..] + [steps[n]]
  {
    var n := |steps| - 1;
    var b := LastBoot(steps[..n]);
    assert LastBoot(steps) == b;
    hide LastBoot;
    SuffixSnoc(steps, b);
  }

  /** No crash comes after it. */
  lemma {:induction false} NoneAfterLastBoot(steps: seq<Step>, k: nat)
    requires LastBoot(steps) <= k < |steps|
    ensures !steps[k].Crash?
  {
    if k < |steps| - 1 { NoneAfterLastBoot(steps[..|steps| - 1], k); }
  }

  lemma LastStep(cfg: Config, states: seq<System>, steps: seq<Step>)
    requires Run(cfg, states, steps) && steps != []
    ensures
      var n := |steps| - 1;
      Enabled(cfg, states[n], steps[n]) && states[n + 1] == Next(cfg, states[n], steps[n])
  {
  }

  /** The operations since the last restart explain the last state of the run. */
  ghost predicate Explained(cfg: Config, states: seq<System>, steps: seq<Step>)
    requires |states| == |steps| + 1
  {
    var b := LastBoot(steps);
    states[b] == Boot(states[b].disk)
    && Explains(cfg, Load(states[b].disk), Entered(steps[b..]), states[|steps|])
  }

  lemma ExplainedStep(cfg: Config, states: seq<System>, steps: seq<Step>)
    requires Run(cfg, states, steps) && steps != [] && !steps[|steps| - 1].Crash?
    requires Explained(cfg, states[..|steps|], steps[..|steps| - 1])
    ensures Explained(cfg, states, steps)
  {
    hide Next, Enabled, Boot, Load, Explains, Entered, LastBoot;
    var n := |steps| - 1;
    var b := LastBoot(steps[..n]);
    assert states[..n + 1][b] == states[b] && states[..n + 1][n] == states[n];
    BootStays(steps);
    LastStep(cfg, states, steps);
    ExplainsStep(cfg, Load(states[b].disk), steps[..n][b..], states[n], steps[n]);
  }

  lemma ExplainedBoot(cfg: Config, states: seq<System>, steps: seq<Step>, disk: Store)
    requires |states| == |steps| + 1 && (steps == [] || steps[|steps| - 1].Crash?)
    requires states[|steps|] == Boot(disk)
    ensures Explained(cfg, states, steps)
  {
    ExplainsBoot(cfg, disk);
    hide Boot, Load, Explains, Entered;
    assert LastBoot(steps) == |steps| && steps[|steps|..] == [];
  }

  /** Linearizability: however timers, flushes, saves and crashes interleave with the
      critical sections, the map is what the operations since the last restart, in the
      order in which they took the lock, make of the map that the restart loaded when
      carried out one at a time. */
  lemma {:induction false} LinearizableSinceBoot(cfg: Config, disk: Store, states: seq<System>, steps: seq<Step>)
    requires Run(cfg, states, steps) && states[0] == Boot(disk)
    ensures Explained(cfg, states, steps)
    decreases |steps|
  {
    hide Next, Enabled, Boot, Explained;
    if steps == [] {
      ExplainedBoot(cfg, states, steps, disk);
    } else {
      var n := |steps| - 1;
      LastStep(cfg, states, steps);
      if steps[n].Crash? {
        CrashBoots(cfg, states[n], steps[n]);
        ExplainedBoot(cfg, states, steps, states[n].disk);
      } else {
        RunFront(cfg, states, steps);
        LinearizableSinceBoot(cfg, disk, states[..n + 1], steps[..n]);
        ExplainedStep(cfg, states, steps);
      }
    }
  }

  lemma RunFront(cfg: Config, states: seq<System>, steps: seq<Step>)
    requires Run(cfg, states, steps) && steps != []
    ensures Run(cfg, states[..|states| - 1], steps[..|steps| - 1])
  {
    hide Next, Enabled;
  }

  /** Without a crash, from an empty directory: the operations make the map from nothing. */
  lemma Linearizable(cfg: Config, states: seq<System>, steps: seq<Step>)
    requires Service(cfg, states, steps) && forall k :: 0 <= k < |steps| ==> !steps[k].Crash?
    ensures Plausible(cfg, Entered(steps))
    ensures Settled(states[|steps|]) == Replay(cfg, Entered(steps))
  {
    hide Next, Enabled, Replay, Plausible, ReplayFrom, PlausibleFrom, Settled;
    LinearizableSinceBoot(cfg, map[], states, steps);
    assert LastBoot(steps) == 0 && steps[0..] == steps;
    NothingLoaded();
    ReplayFromNothing(cfg, Entered(steps));
  }

  lemma NothingLoaded()
    ensures Boot(map[]).disk == map[] && Load(map[]) == map[]
  {
  }

  lemma EnterFacts(cfg: Config, s: System, step: Step)
    requires Enabled(cfg, s, step) && step.Enter?
    ensures Settled(s) == s.sessions && Legal(cfg, s.sessions, step.op, step.ch)
  {
  }

  /** So the theorems about operations taken one at a time hold in the interleaved backend
      whenever no operation is in progress; the message window is one of them. */
  lemma WindowInEveryInterleaving(cfg: Config, states: seq<System>, steps: seq<Step>)
    requires Service(cfg, states, steps) && forall k :: 0 <= k < |steps| ==> !steps[k].Crash?
    requires cfg.maxTurns != 0 && states[|steps|].todo.Done?
    ensures Windowed(cfg, states[|steps|].sessions, Transcript(cfg, Entered(steps)))
  {
    Linearizable(cfg, states, steps);
    MessagesAreTheWindow(cfg, Entered(steps));
  }

  // ------------------------------------------------------------------ reaching a state

  /** A run continued by one operation that is not interrupted. */
  lemma EnterAlone(cfg: Config, states: seq<System>, steps: seq<Step>, op: Op, ch: Choice)
    returns (states': seq<System>, steps': seq<Step>)
    requires Service(cfg, states, steps)
    requires states[|steps|].todo.Done? && states[|steps|].saving == {} && Legal(cfg, states[|steps|].sessions, op, ch)
    ensures Service(cfg, states', steps')
    ensures
      var s := states[|steps|];
      states'[|steps'|] == Alone(cfg, s.(todo := Section(cfg, s.sessions, op, ch)))
    ensures steps + [Enter(op, ch)] <= steps' && forall k :: |steps| < k < |steps'| ==> Internal(steps'[k])
  {
    var s := states[|steps|];
    ExtendService(cfg, states, steps, Enter(op, ch));
    hide Enabled, Next, Section, Alone;
    states', steps' := AloneIsARun(cfg, states + [Entering(cfg, s, op, ch)], steps + [Enter(op, ch)]);
  }

  function Entering(cfg: Config, s: System, op: Op, ch: Choice): (t: System)
    requires Enabled(cfg, s, Enter(op, ch))
    ensures t == Next(cfg, s, Enter(op, ch)) && t == s.(todo := Section(cfg, s.sessions, op, ch))
  {
    s.(todo := Section(cfg, s.sessions, op, ch))
  }

  lemma {:induction false} EnteredByInternal(steps: seq<Step>, more: seq<Step>)
    requires forall k :: 0 <= k < |more| ==> Internal(more[k])
    ensures Entered(steps + more) == Entered(steps)
  {
    if more == [] {
      assert steps + more == steps;
    } else {
      var n := |more| - 1;
      EnteredByInternal(steps, more[..n]);
      assert (steps + more)[..|steps| + n] == steps + more[..n];
    }
  }

  /** A created session reaches its file if nothing else is asked of the backend. */
  lemma CreateAndRest(cfg: Config, id: Id) returns (states: seq<System>, steps: seq<Step>)
    requires cfg.Valid()
    ensures Service(cfg, states, steps) && Quiescent(states[|steps|])
    ensures states[|steps|].sessions == map[id := Fresh(id, 0)]
    ensures id in states[|steps|].disk && states[|steps|].disk[id] == Fresh(id, 0)
  {
    hide Alone, Section, Enabled, Next, Inv, Entered, Legal;
    var ch := Choice("", []);
    var enter := Enter(Create(id, 0), ch);
    BootIsService(cfg);
    CreateFromNothing(cfg, id, ch);
    var states0, steps0 := EnterAlone(cfg, [Boot(map[])], [], Create(id, 0), ch);
    states, steps := Drains(cfg, states0, steps0);
    var more := steps[1..];
    assert steps == [enter] + more;
    forall k | 0 <= k < |more| ensures Internal(more[k]) { assert more[k] == steps[k + 1]; }
    EnteredByInternal([enter], more);
    EnteredOnce(enter);
    Linearizable(cfg, states, steps);
    SavedAtRest(cfg, states, steps, id);
  }

  lemma BootIsService(cfg: Config)
    requires cfg.Valid()
    ensures Service(cfg, [Boot(map[])], [])
  {
  }

  lemma EnteredOnce(enter: Step)
    requires enter.Enter?
    ensures Entered([enter]) == [Event(enter.op, enter.ch)]
  {
    assert [enter][..0] == [];
  }

  lemma CreateFromNothing(cfg: Config, id: Id, ch: Choice)
    requires cfg.Valid()
    ensures Legal(cfg, map[], Create(id, 0), ch)
    ensures Replay(cfg, [Event(Create(id, 0), ch)]) == map[id := Fresh(id, 0)]
    ensures Section(cfg, map[], Create(id, 0), ch) == Put(id, Fresh(id, 0), Mark(id, Done))
  {
    var none: Store := map[];
    var e := Event(Create(id, 0), ch);
    ReplaySnoc(cfg, [], e);
    assert [] + [e] == [e] && Replay(cfg, []) == none && |none| == 0;
    assert Perform(cfg, none, e) == Outcome(none, Put(id, Fresh(id, 0), Mark(id, Done)));
    var one := none[id := Fresh(id, 0)];
    assert Outcome(one, Mark(id, Done)) == one;
    assert one == map[id := Fresh(id, 0)];
  }

  lemma SavedAtRest(cfg: Config, states: seq<System>, steps: seq<Step>, id: Id)
    requires Service(cfg, states, steps) && Quiescent(states[|steps|])
    ensures
      var s := states[|steps|];
      Settled(s) == s.sessions
      && (id in s.sessions ==> id in s.disk && s.disk[id] == s.sessions[id])
  {
    hide Enabled, Next;
    ServiceInv(cfg, states, steps, |steps|);
    assert !Stale(states[|steps|], id);
  }

  /** Every id without the prefix can be lost: a run creates its session, comes to rest
      with the session saved, and a restart does not find it, though its file stays. */
  lemma UnprefixedSessionLost(cfg: Config, id: Id) returns (states: seq<System>, steps: seq<Step>)
    requires cfg.Valid() && !Loadable(id)
    ensures Service(cfg, states, steps) && Quiescent(states[|steps|])
    ensures
      var s := states[|steps|];
      id in s.sessions && id in s.disk && s.disk[id] == s.sessions[id]
      && id !in Boot(s.disk).sessions && id in Boot(s.disk).disk
  {
    states, steps := CreateAndRest(cfg, id);
    hide Service, Quiescent, Loadable;
  }

  // ------------------------------------------------------- a history read in two pieces

  /** get_history when operations run between its two locked reads: the messages of one
      moment and the summary of a later one. */
  function TornHistory(cfg: Config, before: Store, after: Store, id: Id, first: int, second: int): string {
    var a, b := Look(cfg, before, id, first), Look(cfg, after, id, second);
    History(a.messages, b.summary)
  }

  /** Operations on other sessions leave a session as it is, or evict it. */
  lemma {:induction false} OthersBetween(cfg: Config, m: Store, events: seq<Event>, id: Id)
    requires cfg.Valid() && Sound(cfg, m) && PlausibleFrom(cfg, m, events)
    requires forall e :: e in events ==> e.op.Purge? || e.op.id != id
    ensures
      var n := ReplayFrom(cfg, m, events);
      Sound(cfg, n) && (id in n ==> id in m && n[id] == m[id])
  {
    hide Perform;
    if events != [] {
      var k := |events| - 1;
      var e, before := events[k], ReplayFrom(cfg, m, events[..k]);
      assert e in events && forall x :: x in events[..k] ==> x in events;
      OthersBetween(cfg, m, events[..k], id);
      PerformSound(cfg, before, e);
      if id in Perform(cfg, before, e) { OthersUntouched(cfg, before, e, id); }
    }
  }

  lemma PerformSound(cfg: Config, m: Store, e: Event)
    requires cfg.Valid() && Sound(cfg, m) && Legal(cfg, m, e.op, e.ch)
    ensures Sound(cfg, Perform(cfg, m, e))
  {
    SectionSafe(cfg, m, e.op, e.ch);
    SafeEndsSound(cfg, m, Section(cfg, m, e.op, e.ch));
  }

  /** If the operations between the reads are on other sessions and the session is still
      there for the second read, the history is that of a single moment. */
  lemma HistoryOfOneMoment(cfg: Config, m: Store, events: seq<Event>, id: Id, first: int, second: int)
    requires cfg.Valid() && Sound(cfg, m) && PlausibleFrom(cfg, m, events)
    requires forall e :: e in events ==> e.op.Purge? || e.op.id != id
    requires first <= second && Active(cfg, ReplayFrom(cfg, m, events), id, second)
    ensures
      var n := ReplayFrom(cfg, m, events);
      TornHistory(cfg, m, n, id, first, second) == Look(cfg, n, id, second).history == Look(cfg, m, id, first).history
  {
    hide History;
    OthersBetween(cfg, m, events, id);
  }

  /** Otherwise it can be that of no moment: cleared between the reads, the session shows
      its old messages without its old summary. */
  lemma HistoryOfNoMoment(cfg: Config)
    requires cfg.Valid()
    ensures
      var s := Fresh("a", 0).(messages := [Message("user", "hi", 0)], summary := "s");
      var m, e := map["a" := s], Event(Clear("a", 0), Choice("", []));
      var n := Perform(cfg, m, e);
      Sound(cfg, m) && Legal(cfg, m, e.op, e.ch)
      && TornHistory(cfg, m, n, "a", 0, 0) == "Customer: hi"
      && Look(cfg, m, "a", 0).history == "[Previous conversation summary: s]" + "\n" + "Customer: hi"
      && Look(cfg, n, "a", 0).history == ""
  {
    var s := Fresh("a", 0).(messages := [Message("user", "hi", 0)], summary := "s");
    var m: Store := map["a" := s];
    var e := Event(Clear("a", 0), Choice("", []));
    assert |m| == 1;
    PerformIsEffect(cfg, m, e);
    OneLine();
  }

  lemma OneLine()
    ensures
      var msgs := [Message("user", "hi", 0)];
      History(msgs, "") == "Customer: hi" && History([], "") == ""
      && History(msgs, "s") == "[Previous conversation summary: s]" + "\n" + "Customer: hi"
  {
    var line := "[Previous conversation summary: " + "s" + "]";
    var msgs := [Message("user", "hi", 0)];
    assert "Customer" + ": " + "hi" == "Customer: hi";
    assert HistoryLine(msgs[0]) == "Customer: hi";
    var lines, none := HistoryLines(msgs), HistoryLines([]);
    assert |lines| == 1 && lines[0] == "Customer: hi" && |none| == 0;
    assert lines == ["Customer: hi"] && none == [];
    assert [] + ["Customer: hi"] == ["Customer: hi"] && [] + none == [];
    assert [line] + ["Customer: hi"] == [line, "Customer: hi"];
    assert [line, "Customer: hi"][1..] == ["Customer: hi"];
    assert line == "[Previous conversation summary: s]";
  }
}
