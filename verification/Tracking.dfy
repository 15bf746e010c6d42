/** The shipment simulation: a status table scanned at every poll, and the
    administrator's writes to the same record.  Times are minutes since shipping. */
module Tracking {
  import opened Prelude

  datatype Status =
    | PreTransit | InTransit | OutForDelivery | Delivered
    | Exception | Returned | AvailableForPickup

  datatype Pattern = Pattern(min: real, max: real, status: Status)

  function Ups(): seq<Pattern> {
    [Pattern(0.0, 30.0, PreTransit), Pattern(30.0, 120.0, InTransit), Pattern(120.0, 300.0, InTransit),
     Pattern(300.0, 600.0, InTransit), Pattern(600.0, 1000.0, InTransit), Pattern(1000.0, 2000.0, InTransit),
     Pattern(2000.0, 3000.0, OutForDelivery), Pattern(3000.0, 99999.0, Delivered)]
  }

  function Usps(): seq<Pattern> {
    [Pattern(0.0, 60.0, PreTransit), Pattern(60.0, 180.0, InTransit), Pattern(180.0, 360.0, InTransit),
     Pattern(360.0, 720.0, InTransit), Pattern(720.0, 1500.0, InTransit),
     Pattern(1500.0, 2500.0, OutForDelivery), Pattern(2500.0, 99999.0, Delivered)]
  }

  function Dhl(): seq<Pattern> {
    [Pattern(0.0, 60.0, PreTransit), Pattern(60.0, 180.0, InTransit), Pattern(180.0, 480.0, InTransit),
     Pattern(480.0, 1000.0, InTransit), Pattern(1000.0, 2000.0, InTransit),
     Pattern(2000.0, 3000.0, OutForDelivery), Pattern(3000.0, 99999.0, Delivered)]
  }

  function Fedex(): seq<Pattern> {
    [Pattern(0.0, 45.0, PreTransit), Pattern(45.0, 150.0, InTransit), Pattern(150.0, 400.0, InTransit),
     Pattern(400.0, 900.0, InTransit), Pattern(900.0, 1800.0, InTransit),
     Pattern(1800.0, 2800.0, OutForDelivery), Pattern(2800.0, 99999.0, Delivered)]
  }

  /** The table of the shipment's courier; an unknown courier, or none, uses that of UPS. */
  function PatternsFor(code: Option<string>): seq<Pattern> {
    match code
    case Some("usps") => Usps()
    case Some("dhl") => Dhl()
    case Some("fedex") => Fedex()
    case _ => Ups()
  }

  function Rank(s: Status): nat {
    match s
    case PreTransit => 0
    case InTransit => 1
    case OutForDelivery => 2
    case Delivered => 3
    case _ => 4
  }

  /** Ranges contiguous from 0, and a status sequence that never goes back. */
  ghost predicate Progressive(table: seq<Pattern>) {
    table != [] && table[0].min == 0.0
    && (forall i :: 0 <= i < |table| ==> table[i].min < table[i].max && Rank(table[i].status) <= 3)
    && (forall i, j :: 0 <= i < |table| - 1 && j == i + 1 ==>
          table[i].max == table[j].min && Rank(table[i].status) <= Rank(table[j].status))
  }

  /** The status of the first pattern whose range contains the elapsed time. */
  function Stage(table: seq<Pattern>, elapsed: real): Option<Status> {
    if table == [] then None
    else if table[0].min <= elapsed < table[0].max then Some(table[0].status)
    else Stage(table[1..], elapsed)
  }

  function End(table: seq<Pattern>): real
    requires table != []
  {
    table[|table| - 1].max
  }

  lemma UpsProgressive()
    ensures Progressive(Ups()) && End(Ups()) == 99999.0
  {
  }

  lemma UspsProgressive()
    ensures Progressive(Usps()) && End(Usps()) == 99999.0
  {
  }

  lemma DhlProgressive()
    ensures Progressive(Dhl()) && End(Dhl()) == 99999.0
  {
  }

  lemma FedexProgressive()
    ensures Progressive(Fedex()) && End(Fedex()) == 99999.0
  {
  }

  lemma AllTablesProgressive(code: Option<string>)
    ensures Progressive(PatternsFor(code)) && End(PatternsFor(code)) == 99999.0
  {
    UpsProgressive();
    UspsProgressive();
    DhlProgressive();
    FedexProgressive();
    hide Progressive, Ups, Usps, Dhl, Fedex;
  }

  /** Pre-transit until the first time, in transit until the second, out for delivery until
      the third, and then delivered. */
  function Plan(transit: real, out: real, delivered: real, t: real): Status {
    if t < transit then PreTransit else if t < out then InTransit
    else if t < delivered then OutForDelivery else Delivered
  }

  lemma StageOf(table: seq<Pattern>, t: real, i: nat)
    requires Progressive(table) && i < |table| && table[i].min <= t < table[i].max
    ensures Stage(table, t) == Some(table[i].status)
  {
    StageFound(table, i, t);
    var j := StageIndex(table, t);
    hide Stage;
    if i < j {
      LaterRangesStartLater(table, i, j);
    } else if j < i {
      LaterRangesStartLater(table, j, i);
    }
  }

  lemma UpsPlan(t: real) returns (i: nat)
    requires 0.0 <= t < 99999.0
    ensures i < |Ups()| && Ups()[i].min <= t < Ups()[i].max && Ups()[i].status == Plan(30.0, 2000.0, 3000.0, t)
  {
    i := if t < 30.0 then 0 else if t < 120.0 then 1 else if t < 300.0 then 2 else if t < 600.0 then 3
      else if t < 1000.0 then 4 else if t < 2000.0 then 5 else if t < 3000.0 then 6 else 7;
  }

  lemma UspsPlan(t: real) returns (i: nat)
    requires 0.0 <= t < 99999.0
    ensures i < |Usps()| && Usps()[i].min <= t < Usps()[i].max && Usps()[i].status == Plan(60.0, 1500.0, 2500.0, t)
  {
    i := if t < 60.0 then 0 else if t < 180.0 then 1 else if t < 360.0 then 2 else if t < 720.0 then 3
      else if t < 1500.0 then 4 else if t < 2500.0 then 5 else 6;
  }

  lemma DhlPlan(t: real) returns (i: nat)
    requires 0.0 <= t < 99999.0
    ensures i < |Dhl()| && Dhl()[i].min <= t < Dhl()[i].max && Dhl()[i].status == Plan(60.0, 2000.0, 3000.0, t)
  {
    i := if t < 60.0 then 0 else if t < 180.0 then 1 else if t < 480.0 then 2 else if t < 1000.0 then 3
      else if t < 2000.0 then 4 else if t < 3000.0 then 5 else 6;
  }

  lemma FedexPlan(t: real) returns (i: nat)
    requires 0.0 <= t < 99999.0
    ensures i < |Fedex()| && Fedex()[i].min <= t < Fedex()[i].max && Fedex()[i].status == Plan(45.0, 1800.0, 2800.0, t)
  {
    i := if t < 45.0 then 0 else if t < 150.0 then 1 else if t < 400.0 then 2 else if t < 900.0 then 3
      else if t < 1800.0 then 4 else if t < 2800.0 then 5 else 6;
  }

  /** When each courier's shipments change: unknown couriers, and none, are those of UPS. */
  lemma StagesByCourier(code: Option<string>, t: real)
    requires 0.0 <= t < 99999.0
    ensures
      Stage(PatternsFor(code), t) == Some(
        match code
        case Some("usps") => Plan(60.0, 1500.0, 2500.0, t)
        case Some("dhl") => Plan(60.0, 2000.0, 3000.0, t)
        case Some("fedex") => Plan(45.0, 1800.0, 2800.0, t)
        case _ => Plan(30.0, 2000.0, 3000.0, t))
  {
    hide Stage, Progressive, Plan, Ups, Usps, Dhl, Fedex;
    AllTablesProgressive(code);
    var i;
    match code {
      case Some("usps") => i := UspsPlan(t);
      case Some("dhl") => i := DhlPlan(t);
      case Some("fedex") => i := FedexPlan(t);
      case _ => i := UpsPlan(t);
    }
    StageOf(PatternsFor(code), t, i);
  }

  /** `simulated` tells the simulation's events from the administrator's. */
  datatype Event = Event(status: Status, at: real, simulated: bool)

  datatype Shipment = Shipment(status: Status, events: seq<Event>, deliveredAt: Option<real>, lastUpdate: Option<real>)

  /** _simulate_progress. */
  function Poll(table: seq<Pattern>, s: Shipment, now: real): Shipment {
    if s.status == Delivered then s
    else
      match Stage(table, now)
      case None => s
      case Some(target) =>
        if target == s.status then s
        else Advanced(s, target, now)
  }

  /** The simulation's move to another status. */
  function Advanced(s: Shipment, target: Status, now: real): Shipment {
    Shipment(target, s.events + [Event(target, now, true)],
      if target == Delivered then Some(now) else s.deliveredAt, Some(now))
  }

  function PollAll(table: seq<Pattern>, s: Shipment, polls: seq<real>): Shipment {
    if polls == [] then s
    else Poll(table, PollAll(table, s, polls[..|polls| - 1]), polls[|polls| - 1])
  }

  // ------------------------------------------------------------- stages are monotone

  lemma {:induction false} StageIndex(table: seq<Pattern>, elapsed: real) returns (i: nat)
    requires Stage(table, elapsed).Some?
    ensures i < |table| && table[i].min <= elapsed < table[i].max && Stage(table, elapsed) == Some(table[i].status)
  {
    if table[0].min <= elapsed < table[0].max {
      i := 0;
    } else {
      i := StageIndex(table[1..], elapsed);
      i := i + 1;
    }
  }

  lemma StageAt(table: seq<Pattern>, i: nat, elapsed: real)
    requires i <= |table|
    ensures
      Stage(table[i..], elapsed) ==
      if i == |table| then None
      else if table[i].min <= elapsed < table[i].max then Some(table[i].status)
      else Stage(table[i + 1..], elapsed)
  {
    if i < |table| { assert table[i..][1..] == table[i + 1..]; }
  }

  lemma PollCases(table: seq<Pattern>, s: Shipment, now: real)
    ensures
      var t, stage := Poll(table, s, now), Stage(table, now);
      if s.status == Delivered || stage.None? || stage.value == s.status then t == s
      else t == Advanced(s, stage.value, now)
  {
  }

  lemma {:induction false} LaterRangesStartLater(table: seq<Pattern>, i: nat, j: nat)
    requires Progressive(table) && i < j < |table|
    ensures table[i].max <= table[j].min
    decreases j
  {
    if i + 1 < j {
      LaterRangesStartLater(table, i, j - 1);
    }
    assert table[j - 1].max == table[j].min;
  }

  lemma {:induction false} RanksNeverFall(table: seq<Pattern>, i: nat, j: nat)
    requires Progressive(table) && i <= j < |table|
    ensures Rank(table[i].status) <= Rank(table[j].status)
    decreases j
  {
    if i < j {
      RanksNeverFall(table, i, j - 1);
      assert Rank(table[j - 1].status) <= Rank(table[j].status);
    }
  }

  /** Later polls never see an earlier stage. */
  lemma StagesNeverRegress(table: seq<Pattern>, a: real, b: real)
    requires Progressive(table) && a <= b && Stage(table, a).Some? && Stage(table, b).Some?
    ensures Rank(Stage(table, a).value) <= Rank(Stage(table, b).value) <= 3
  {
    var i := StageIndex(table, a);
    var j := StageIndex(table, b);
    if j < i {
      LaterRangesStartLater(table, j, i);
      assert false;
    }
    RanksNeverFall(table, i, j);
  }

  lemma {:induction false} StageFound(table: seq<Pattern>, i: nat, elapsed: real)
    requires i < |table| && table[i].min <= elapsed < table[i].max
    ensures Stage(table, elapsed).Some?
  {
    if !(table[0].min <= elapsed < table[0].max) {
      StageFound(table[1..], i - 1, elapsed);
    }
  }

  lemma {:induction false} SomeRangeContains(table: seq<Pattern>, elapsed: real, i: nat) returns (j: nat)
    requires Progressive(table) && i < |table| && 0.0 <= elapsed < table[i].max
    ensures j < |table| && table[j].min <= elapsed < table[j].max
    decreases i
  {
    if table[i].min <= elapsed {
      j := i;
    } else {
      assert table[i - 1].max == table[i].min;
      j := SomeRangeContains(table, elapsed, i - 1);
    }
  }

  /** Every elapsed time from 0 to the end of the table has a stage, and no other. */
  lemma StageExactlyInRange(table: seq<Pattern>, elapsed: real)
    requires Progressive(table)
    ensures Stage(table, elapsed).Some? <==> 0.0 <= elapsed < End(table)
  {
    if 0.0 <= elapsed < End(table) {
      var j := SomeRangeContains(table, elapsed, |table| - 1);
      StageFound(table, j, elapsed);
    } else if Stage(table, elapsed).Some? {
      var i := StageIndex(table, elapsed);
      if i > 0 { LaterRangesStartLater(table, 0, i); }
      if i < |table| - 1 { LaterRangesStartLater(table, i, |table| - 1); }
      assert false;
    }
  }

  // ------------------------------------------------------------------ path independence

  predicate NonDecreasing(polls: seq<real>) {
    forall i, j :: 0 <= i < j < |polls| ==> polls[i] <= polls[j]
  }

  /** The stage of the last poll that fell into the table's range; a shipment never
      polled there is still in pre-transit. */
  function LastStage(table: seq<Pattern>, polls: seq<real>): Status {
    if polls == [] then PreTransit
    else
      match Stage(table, polls[|polls| - 1])
      case Some(status) => status
      case None => LastStage(table, polls[..|polls| - 1])
  }

  ghost predicate NewShipment(s: Shipment) {
    s.status == PreTransit && s.deliveredAt == None
  }

  /** The events the simulation added have ranks that climb strictly from above
      pre-transit to the current status. */
  ghost predicate Climbing(from: nat, s: Shipment) {
    from <= |s.events|
    && (forall i :: from <= i < |s.events| ==> 1 <= Rank(s.events[i].status) <= Rank(s.status))
    && (forall i, j :: from <= i < j < |s.events| ==> Rank(s.events[i].status) < Rank(s.events[j].status))
    && (from < |s.events| ==> s.events[|s.events| - 1].status == s.status)
    && (from == |s.events| ==> s.status == PreTransit)
  }

  lemma {:induction false} LastStageBounds(table: seq<Pattern>, polls: seq<real>, now: real)
    requires Progressive(table) && Stage(table, now).Some?
    requires forall i :: 0 <= i < |polls| ==> polls[i] <= now
    ensures Rank(LastStage(table, polls)) <= Rank(Stage(table, now).value) <= 3
  {
    StagesNeverRegress(table, now, now);
    if polls != [] {
      var n := |polls| - 1;
      if Stage(table, polls[n]).Some? {
        StagesNeverRegress(table, polls[n], now);
      } else {
        LastStageBounds(table, polls[..n], now);
      }
    }
  }

  lemma PollClimbs(table: seq<Pattern>, s: Shipment, from: nat, now: real)
    requires Climbing(from, s) && Rank(s.status) <= 3
    requires Stage(table, now).Some? ==> Rank(s.status) <= Rank(Stage(table, now).value) <= 3
    ensures Climbing(from, Poll(table, s, now))
    ensures Poll(table, s, now).status == if Stage(table, now).Some? then Stage(table, now).value else s.status
  {
  }

  /** Tracking is path independent: whatever the polls before, a new shipment ends in
      the stage of its last poll within range; the events added climb strictly, and
      the delivery date is set if and only if the shipment is delivered. */
  lemma {:induction false} PathIndependent(table: seq<Pattern>, s: Shipment, polls: seq<real>)
    requires Progressive(table) && NewShipment(s) && NonDecreasing(polls)
    ensures
      var t := PollAll(table, s, polls);
      t.status == LastStage(table, polls) && Rank(t.status) <= 3
      && Climbing(|s.events|, t)
      && (t.deliveredAt.Some? <==> t.status == Delivered)
  {
    if polls != [] {
      var n := |polls| - 1;
      PathIndependent(table, s, polls[..n]);
      if Stage(table, polls[n]).Some? {
        LastStageBounds(table, polls[..n], polls[n]);
      }
      PollClimbs(table, PollAll(table, s, polls[..n]), |s.events|, polls[n]);
    }
  }

  lemma {:induction false} RankAtLeast(t: Shipment, from: nat, i: nat)
    requires Climbing(from, t) && from <= i < |t.events|
    ensures i - from + 1 <= Rank(t.events[i].status) <= Rank(t.status)
    decreases i
  {
    if from < i {
      RankAtLeast(t, from, i - 1);
    }
  }

  /** At most three events are added. */
  lemma AtMostThreeEvents(table: seq<Pattern>, s: Shipment, polls: seq<real>)
    requires Progressive(table) && NewShipment(s) && NonDecreasing(polls)
    ensures |s.events| <= |PollAll(table, s, polls).events| <= |s.events| + 3
  {
    PathIndependent(table, s, polls);
    var t := PollAll(table, s, polls);
    if |t.events| > |s.events| {
      RankAtLeast(t, |s.events|, |t.events| - 1);
    }
  }

  /** Every event the simulation added was due when it was polled, and carries the time of
      that poll; the delivery date is that of the delivery event, and the last update
      that of the newest. */
  ghost predicate Timely(table: seq<Pattern>, from: nat, polls: seq<real>, s: Shipment, t: Shipment) {
    from <= |t.events|
    && (forall i :: from <= i < |t.events| ==>
          t.events[i].simulated && t.events[i].at in polls
          && Stage(table, t.events[i].at) == Some(t.events[i].status))
    && (if from == |t.events| then t.lastUpdate == s.lastUpdate && t.deliveredAt == s.deliveredAt
        else
          var last := t.events[|t.events| - 1];
          t.lastUpdate == Some(last.at) && (last.status == Delivered ==> t.deliveredAt == Some(last.at)))
  }

  lemma {:induction false} EventsAreTimely(table: seq<Pattern>, s: Shipment, polls: seq<real>)
    ensures s.events <= PollAll(table, s, polls).events
    ensures Timely(table, |s.events|, polls, s, PollAll(table, s, polls))
  {
    if polls != [] {
      var n := |polls| - 1;
      EventsAreTimely(table, s, polls[..n]);
      var before, after := PollAll(table, s, polls[..n]), PollAll(table, s, polls);
      assert polls[n] in polls && forall x :: x in polls[..n] ==> x in polls;
      if after != before {
        assert after.events == before.events + [Event(after.status, polls[n], true)];
      }
    }
  }

  /** Within the table's range only the last poll matters. */
  lemma OnlyLastPollMatters(table: seq<Pattern>, s: Shipment, a: seq<real>, b: seq<real>)
    requires Progressive(table) && NewShipment(s) && NonDecreasing(a) && NonDecreasing(b)
    requires a != [] && b != [] && a[|a| - 1] == b[|b| - 1] && 0.0 <= a[|a| - 1] < End(table)
    ensures PollAll(table, s, a).status == PollAll(table, s, b).status
    ensures Stage(table, a[|a| - 1]) == Some(PollAll(table, s, a).status)
  {
    PathIndependent(table, s, a);
    PathIndependent(table, s, b);
    StageExactlyInRange(table, a[|a| - 1]);
  }

  /** A shipment whose first poll comes after the table's end stays in pre-transit for
      ever, because no range contains it. */
  lemma {:induction false} LatePollsAreLost(table: seq<Pattern>, s: Shipment, polls: seq<real>)
    requires Progressive(table) && s.status != Delivered
    requires forall i :: 0 <= i < |polls| ==> polls[i] >= End(table)
    ensures PollAll(table, s, polls) == s
  {
    if polls != [] {
      LatePollsAreLost(table, s, polls[..|polls| - 1]);
      StageExactlyInRange(table, polls[|polls| - 1]);
    }
  }

  /** A delivered shipment, whoever delivered it, is never changed by a poll. */
  lemma {:induction false} DeliveredIsFinal(table: seq<Pattern>, s: Shipment, polls: seq<real>)
    requires s.status == Delivered
    ensures PollAll(table, s, polls) == s
  {
    if polls != [] { DeliveredIsFinal(table, s, polls[..|polls| - 1]); }
  }

  // -------------------------------------------------------------- administrator's writes

  /** The status a text names, if any. */
  function Parse(text: string): Option<Status> {
    match text
    case "pre_transit" => Some(PreTransit)
    case "in_transit" => Some(InTransit)
    case "out_for_delivery" => Some(OutForDelivery)
    case "delivered" => Some(Delivered)
    case "exception" => Some(Exception)
    case "returned" => Some(Returned)
    case "available_for_pickup" => Some(AvailableForPickup)
    case _ => None
  }

  /** The name of a status in requests. */
  function Name(s: Status): string {
    match s
    case PreTransit => "pre_transit"
    case InTransit => "in_transit"
    case OutForDelivery => "out_for_delivery"
    case Delivered => "delivered"
    case Exception => "exception"
    case Returned => "returned"
    case AvailableForPickup => "available_for_pickup"
  }

  /** Exactly the names are understood, each as its status. */
  lemma NamesRoundTrip(s: Status, text: string)
    ensures Parse(text) == Some(s) <==> text == Name(s)
  {
    NameParses(s);
    if Parse(text) == Some(s) {
      assert text in {"pre_transit", "in_transit", "out_for_delivery", "delivered", "exception", "returned",
        "available_for_pickup"};
    }
  }

  lemma NameParses(s: Status)
    ensures Parse(Name(s)) == Some(s)
  {
  }

  /** What an administrator's update writes: the named status and an event at that time, or
      nothing for an unknown name or none. */
  lemma AdminWritesExactly(s: Shipment, text: string, now: real)
    ensures
      var t := AdminUpdated(s, text, now);
      (forall status :: text == Name(status) ==>
         t == s.(status := status, events := s.events + [Event(status, now, false)]))
      && ((forall status :: text != Name(status)) ==> t == s)
  {
    forall status { NamesRoundTrip(status, text); }
    if Parse(text).Some? { NamesRoundTrip(Parse(text).value, text); }
    NamesAreNotEmpty();
    hide Parse, Name;
  }

  lemma NamesAreNotEmpty()
    ensures forall status :: Name(status) != ""
  {
  }

  /** create_shipment; None is the 400 response. */
  function Created(text: string, now: real): Option<Shipment> {
    match Parse(text)
    case Some(status) => Some(Shipment(status, [Event(status, now, false)], None, None))
    case None => None
  }

  /** update_shipment, as far as status and events go; an unknown status changes nothing. */
  function AdminUpdated(s: Shipment, text: string, now: real): Shipment {
    if text == "" then s
    else
      match Parse(text)
      case Some(status) => s.(status := status, events := s.events + [Event(status, now, false)])
      case None => s
  }

  datatype Write = Polled(at: real) | Updated(text: string, at: real)

  function Written(table: seq<Pattern>, s: Shipment, w: Write): Shipment {
    match w
    case Polled(at) => Poll(table, s, at)
    case Updated(text, at) => AdminUpdated(s, text, at)
  }

  function WrittenAll(table: seq<Pattern>, s: Shipment, ws: seq<Write>): Shipment {
    if ws == [] then s else Written(table, WrittenAll(table, s, ws[..|ws| - 1]), ws[|ws| - 1])
  }

  predicate NewestMatches(s: Shipment) {
    s.events != [] && s.events[|s.events| - 1].status == s.status
  }

  predicate SimulatedDelivery(events: seq<Event>) {
    exists i :: 0 <= i < |events| && events[i].simulated && events[i].status == Delivered
  }

  /** With polls and administrator's writes in any order, on any table and at any times,
      the newest event carries the current status, the log only grows, and the delivery
      date is set if and only if the simulation itself delivered. */
  lemma {:induction false} WritesKeepNewest(table: seq<Pattern>, text: string, start: real, ws: seq<Write>)
    requires Created(text, start).Some?
    ensures
      var s := WrittenAll(table, Created(text, start).value, ws);
      NewestMatches(s) && Created(text, start).value.events <= s.events
      && (s.deliveredAt.Some? <==> SimulatedDelivery(s.events))
  {
    if ws != [] {
      var n := |ws| - 1;
      WritesKeepNewest(table, text, start, ws[..n]);
      var s := WrittenAll(table, Created(text, start).value, ws[..n]);
      OneWrite(table, s, ws[n]);
    }
  }

  lemma OneWrite(table: seq<Pattern>, s: Shipment, w: Write)
    requires NewestMatches(s) && (s.deliveredAt.Some? <==> SimulatedDelivery(s.events))
    ensures
      var t := Written(table, s, w);
      NewestMatches(t) && s.events <= t.events && (t.deliveredAt.Some? <==> SimulatedDelivery(t.events))
  {
    var t := Written(table, s, w);
    if t.events != s.events {
      var e := t.events[|s.events|];
      assert t.events == s.events + [e];
      if SimulatedDelivery(s.events) {
        var i :| 0 <= i < |s.events| && s.events[i].simulated && s.events[i].status == Delivered;
        assert t.events[i] == s.events[i];
      }
      if e.simulated && e.status == Delivered {
        assert t.events[|s.events|] == e;
      }
    }
  }

  /** So an administrator can mark a shipment delivered without a delivery date. */
  lemma AdminDeliveryHasNoDate(table: seq<Pattern>)
    ensures
      var s := WrittenAll(table, Created("pre_transit", 0.0).value, [Updated("delivered", 1.0)]);
      s.status == Delivered && s.deliveredAt == None
  {
    var ws := [Updated("delivered", 1.0)];
    assert ws[..0] == [];
  }

  /** The shipment record as it is updated in place. */
  class ShipmentRecord {
    var status: Status
    var events: seq<Event>
    var deliveredAt: Option<real>
    var lastUpdate: Option<real>

    function Value(): Shipment
      reads this
    {
      Shipment(status, events, deliveredAt, lastUpdate)
    }

    constructor (s: Shipment)
      ensures Value() == s
    {
      status, events, deliveredAt, lastUpdate := s.status, s.events, s.deliveredAt, s.lastUpdate;
    }

    /** _simulate_progress: the scan stops at the first range that contains the time. */
    method SimulateProgress(code: Option<string>, elapsed: real)
      modifies this
      ensures Value() == Poll(PatternsFor(code), old(Value()), elapsed)
    {
      hide PatternsFor, Stage, Advanced, Poll;
      ghost var before := Value();
      var patterns := PatternsFor(code);
      PollCases(patterns, before, elapsed);
      if status == Delivered {
        return;
      }
      StageAt(patterns, 0, elapsed);
      assert patterns[0..] == patterns;
      var i := 0;
      while i < |patterns|
        invariant 0 <= i <= |patterns| && Value() == before
        invariant Stage(patterns[i..], elapsed) == Stage(patterns, elapsed)
      {
        var pattern := patterns[i];
        StageAt(patterns, i, elapsed);
        if pattern.min <= elapsed < pattern.max {
          if pattern.status != status {
            Advance(pattern.status, elapsed);
          }
          return;
        }
        i := i + 1;
      }
      StageAt(patterns, i, elapsed);
    }

    /** Its writes once a new status has been found. */
    method Advance(target: Status, now: real)
      modifies this
      ensures Value() == Advanced(old(Value()), target, now)
    {
      events := events + [Event(target, now, true)];
      status := target;
      lastUpdate := Some(now);
      if target == Delivered {
        deliveredAt := Some(now);
      }
    }

    /** update_shipment; false is the 400 response. */
    method AdminUpdate(text: string, now: real) returns (ok: bool)
      modifies this`status, this`events
      ensures Value() == AdminUpdated(old(Value()), text, now)
      ensures ok <==> text == "" || Parse(text).Some?
    {
      ok := true;
      if text != "" {
        match Parse(text) {
          case Some(parsed) =>
            status := parsed;
            events := events + [Event(parsed, now, false)];
          case None =>
            ok := false;
        }
      }
    }
  }
}
