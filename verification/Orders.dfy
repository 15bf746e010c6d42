/** Orders and their status log: customer and administrator operations, each taken as
    one atomic step on the record. */
module Orders {
  import opened Prelude

  datatype Status =
    | Pending | Confirmed | Processing | Shipped | Delivered | Cancelled | Refunded
    | ReturnRequested | ReturnApproved | ReturnReceived | ExchangeRequested | ExchangeApproved

  /** The status a text names, if any. */
  function Parse(text: string): Option<Status> {
    match text
    case "pending" => Some(Pending)
    case "confirmed" => Some(Confirmed)
    case "processing" => Some(Processing)
    case "shipped" => Some(Shipped)
    case "delivered" => Some(Delivered)
    case "cancelled" => Some(Cancelled)
    case "refunded" => Some(Refunded)
    case "return_requested" => Some(ReturnRequested)
    case "return_approved" => Some(ReturnApproved)
    case "return_received" => Some(ReturnReceived)
    case "exchange_requested" => Some(ExchangeRequested)
    case "exchange_approved" => Some(ExchangeApproved)
    case _ => None
  }

  datatype Actor = Customer | Admin

  datatype Entry = Entry(from: Status, to: Status, actor: Actor)

  datatype Order = Order(
    status: Status, log: seq<Entry>, returnCount: nat, exchangeCount: nat,
    windowEnd: Option<int>, cancelledAt: Option<int>, deliveredAt: Option<int>, paymentCancelled: bool)

  /** `today` is the day, for the return window, and `now` the time. */
  datatype Op =
    | Cancel(now: int)
    | RequestReturn(today: int)
    | RequestExchange
    | CustomerUpdate(text: string, now: int)
    | AdminUpdate(text: string)

  /** Whether the operation is carried out rather than refused with an error. */
  predicate Accepts(o: Order, op: Op) {
    match op
    case Cancel(_) => o.status != Cancelled && o.status != Refunded && o.status != Delivered
    case RequestReturn(today) =>
      (o.status == Delivered || o.status == Shipped) && !(o.windowEnd.Some? && o.windowEnd.value < today)
    case RequestExchange => o.status == Delivered || o.status == Shipped
    case CustomerUpdate(text, _) => Parse(text).Some?
    case AdminUpdate(text) => Parse(text).Some?
  }

  function Moved(o: Order, to: Status, actor: Actor): Order {
    o.(status := to, log := o.log + [Entry(o.status, to, actor)])
  }

  /** A refused operation changes nothing. */
  function Perform(o: Order, op: Op): Order {
    if !Accepts(o, op) then o
    else
      match op
      case Cancel(now) => Moved(o, Cancelled, Customer).(cancelledAt := Some(now), paymentCancelled := true)
      case RequestReturn(_) => Moved(o, ReturnRequested, Customer).(returnCount := o.returnCount + 1)
      case RequestExchange => Moved(o, ExchangeRequested, Customer).(exchangeCount := o.exchangeCount + 1)
      case CustomerUpdate(text, now) =>
        var to := Parse(text).value;
        var m := Moved(o, to, Customer);
        if to == Delivered then m.(deliveredAt := Some(now)) else m
      case AdminUpdate(text) => Moved(o, Parse(text).value, Admin)
  }

  /** The name of a status in requests and in the log. */
  function Name(s: Status): string {
    match s
    case Pending => "pending"
    case Confirmed => "confirmed"
    case Processing => "processing"
    case Shipped => "shipped"
    case Delivered => "delivered"
    case Cancelled => "cancelled"
    case Refunded => "refunded"
    case ReturnRequested => "return_requested"
    case ReturnApproved => "return_approved"
    case ReturnReceived => "return_received"
    case ExchangeRequested => "exchange_requested"
    case ExchangeApproved => "exchange_approved"
  }

  /** Exactly the names are understood, each as its status. */
  lemma NamesRoundTrip(s: Status, text: string)
    ensures Parse(text) == Some(s) <==> text == Name(s)
  {
    NameParses(s);
    if Parse(text) == Some(s) {
      assert text in {"pending", "confirmed", "processing", "shipped", "delivered", "cancelled", "refunded",
        "return_requested", "return_approved", "return_received", "exchange_requested", "exchange_approved"};
    }
  }

  lemma NameParses(s: Status)
    ensures Parse(Name(s)) == Some(s)
  {
  }

  /** Which operations are refused, leaving the order and its log as they are: cancelling what
      is cancelled, refunded or delivered; returning or exchanging what is neither shipped
      nor delivered; returning after the window's last day; and unknown status names. */
  lemma RefusedExactly(o: Order, op: Op)
    ensures
      Perform(o, op).log == o.log <==> Perform(o, op) == o
    ensures
      Perform(o, op) == o <==>
      match op
      case Cancel(_) => o.status in {Cancelled, Refunded, Delivered}
      case RequestReturn(today) =>
        o.status !in {Shipped, Delivered} || (exists last :: o.windowEnd == Some(last) && today > last)
      case RequestExchange => o.status !in {Shipped, Delivered}
      case CustomerUpdate(text, _) => forall s :: text != Name(s)
      case AdminUpdate(text) => forall s :: text != Name(s)
  {
    if op.CustomerUpdate? || op.AdminUpdate? {
      forall s { NamesRoundTrip(s, op.text); }
      if Parse(op.text).Some? { NamesRoundTrip(Parse(op.text).value, op.text); }
    }
    hide Parse, Name;
    if Accepts(o, op) { assert |Perform(o, op).log| == |o.log| + 1; }
  }

  /** What an operation that is carried out does: it moves the order, logs the move under its
      actor's name, counts requests and dates a cancellation and a customer's delivery. */
  lemma CarriedOutExactly(o: Order, op: Op)
    requires Perform(o, op) != o
    ensures
      var p := Perform(o, op);
      |p.log| == |o.log| + 1 && o.log <= p.log
      && p.log[|o.log|] == Entry(o.status, p.status, if op.AdminUpdate? then Admin else Customer)
      && (match op
          case Cancel(now) => p.status == Cancelled && p.cancelledAt == Some(now) && p.paymentCancelled
          case RequestReturn(_) => p.status == ReturnRequested && p.returnCount == o.returnCount + 1
          case RequestExchange => p.status == ExchangeRequested && p.exchangeCount == o.exchangeCount + 1
          case CustomerUpdate(text, now) =>
            text == Name(p.status) && p.deliveredAt == (if p.status == Delivered then Some(now) else o.deliveredAt)
          case AdminUpdate(text) => text == Name(p.status) && p.deliveredAt == o.deliveredAt)
      && (!op.Cancel? ==> p.cancelledAt == o.cancelledAt && p.paymentCancelled == o.paymentCancelled)
      && (!op.RequestReturn? ==> p.returnCount == o.returnCount)
      && (!op.RequestExchange? ==> p.exchangeCount == o.exchangeCount)
      && p.windowEnd == o.windowEnd
  {
    if op.CustomerUpdate? || op.AdminUpdate? { NamesRoundTrip(Parse(op.text).value, op.text); }
    hide Parse, Name;
  }

  function PerformAll(o: Order, ops: seq<Op>): Order {
    if ops == [] then o else Perform(PerformAll(o, ops[..|ops| - 1]), ops[|ops| - 1])
  }

  ghost predicate NewOrder(o: Order) { o.log == [] && o.returnCount == 0 && o.exchangeCount == 0 }

  /** Each entry starts where the one before ended, the first at the initial status and
      the last at the current one. */
  ghost predicate Chained(initial: Status, log: seq<Entry>, current: Status) {
    (log == [] ==> initial == current)
    && (log != [] ==> log[0].from == initial && log[|log| - 1].to == current)
    && (forall i, j :: 0 <= i < |log| - 1 && j == i + 1 ==> log[i].to == log[j].from)
  }

  predicate Returnable(s: Status) { s == Shipped || s == Delivered }

  /** Entries into shipped or delivered. */
  function Arrivals(log: seq<Entry>): nat {
    if log == [] then 0
    else Arrivals(log[..|log| - 1]) + if Returnable(log[|log| - 1].to) then 1 else 0
  }

  function Start(o: Order): nat { if Returnable(o.status) then 1 else 0 }

  lemma MovedChained(initial: Status, o: Order, to: Status, actor: Actor)
    requires Chained(initial, o.log, o.status)
    ensures Chained(initial, Moved(o, to, actor).log, to)
    ensures Arrivals(Moved(o, to, actor).log) == Arrivals(o.log) + if Returnable(to) then 1 else 0
  {
    var log := o.log + [Entry(o.status, to, actor)];
    assert log[..|o.log|] == o.log;
  }

  /** The audit chain and the account of returns, for every interleaving of customer and
      administrator operations: requests made and a request still possible never exceed
      the arrivals at shipped or delivered. */
  lemma {:induction false} AuditTrail(o: Order, ops: seq<Op>)
    requires NewOrder(o)
    ensures
      var p := PerformAll(o, ops);
      Chained(o.status, p.log, p.status)
      && p.returnCount + p.exchangeCount + Start(p) <= Arrivals(p.log) + Start(o)
  {
    if ops != [] {
      var n := |ops| - 1;
      AuditTrail(o, ops[..n]);
      AuditStep(o, PerformAll(o, ops[..n]), ops[n]);
    }
  }

  lemma AuditStep(o: Order, p: Order, op: Op)
    requires Chained(o.status, p.log, p.status)
    requires p.returnCount + p.exchangeCount + Start(p) <= Arrivals(p.log) + Start(o)
    ensures
      var q := Perform(p, op);
      Chained(o.status, q.log, q.status)
      && q.returnCount + q.exchangeCount + Start(q) <= Arrivals(q.log) + Start(o)
  {
    hide Chained, Arrivals, Parse;
    if Accepts(p, op) {
      var to := Perform(p, op).status;
      var actor := if op.AdminUpdate? then Admin else Customer;
      MovedChained(o.status, p, to, actor);
    }
  }

  /** The log alone replays to the current status. */
  function Replayed(initial: Status, log: seq<Entry>): Option<Status> {
    if log == [] then Some(initial)
    else
      var n := |log| - 1;
      match Replayed(initial, log[..n])
      case Some(s) => if s == log[n].from then Some(log[n].to) else None
      case None => None
  }

  lemma {:induction false} ChainReplays(initial: Status, log: seq<Entry>, current: Status)
    requires Chained(initial, log, current)
    ensures Replayed(initial, log) == Some(current)
  {
    if log != [] {
      var n := |log| - 1;
      var before := if n == 0 then initial else log[n - 1].to;
      ChainReplays(initial, log[..n], before);
    }
  }

  /** An order that was ever returned or exchanged passed through shipped or delivered. */
  lemma {:induction false} RequestsNeedArrival(o: Order, ops: seq<Op>)
    requires NewOrder(o)
    ensures
      var p := PerformAll(o, ops);
      Replayed(o.status, p.log) == Some(p.status)
      && (p.returnCount + p.exchangeCount > 0 && !Returnable(o.status) ==> Arrivals(p.log) > 0)
  {
    AuditTrail(o, ops);
    var p := PerformAll(o, ops);
    ChainReplays(o.status, p.log, p.status);
  }

  /** The order record as the services update it; false stands for the error raised. */
  class OrderRecord {
    var status: Status
    var log: seq<Entry>
    var returnCount: nat
    var exchangeCount: nat
    var windowEnd: Option<int>
    var cancelledAt: Option<int>
    var deliveredAt: Option<int>
    var paymentCancelled: bool

    function Value(): Order
      reads this
    {
      Order(status, log, returnCount, exchangeCount, windowEnd, cancelledAt, deliveredAt, paymentCancelled)
    }

    constructor (o: Order)
      ensures Value() == o
    {
      status, log, returnCount, exchangeCount := o.status, o.log, o.returnCount, o.exchangeCount;
      windowEnd, cancelledAt, deliveredAt := o.windowEnd, o.cancelledAt, o.deliveredAt;
      paymentCancelled := o.paymentCancelled;
    }

    method CancelOrder(now: int) returns (ok: bool)
      modifies this
      ensures Value() == Perform(old(Value()), Cancel(now))
      ensures ok <==> Accepts(old(Value()), Cancel(now))
    {
      if status == Cancelled || status == Refunded || status == Delivered {
        return false;
      }
      var oldStatus := status;
      status := Cancelled;
      cancelledAt := Some(now);
      paymentCancelled := true;
      log := log + [Entry(oldStatus, Cancelled, Customer)];
      ok := true;
    }

    method Return(today: int) returns (ok: bool)
      modifies this
      ensures Value() == Perform(old(Value()), Op.RequestReturn(today))
      ensures ok <==> Accepts(old(Value()), Op.RequestReturn(today))
    {
      if status != Delivered && status != Shipped {
        return false;
      }
      if windowEnd.Some? && windowEnd.value < today {
        return false;
      }
      returnCount := returnCount + 1;
      var oldStatus := status;
      status := ReturnRequested;
      log := log + [Entry(oldStatus, ReturnRequested, Customer)];
      ok := true;
    }

    method Exchange() returns (ok: bool)
      modifies this
      ensures Value() == Perform(old(Value()), Op.RequestExchange)
      ensures ok <==> Accepts(old(Value()), Op.RequestExchange)
    {
      if status != Delivered && status != Shipped {
        return false;
      }
      exchangeCount := exchangeCount + 1;
      var oldStatus := status;
      status := ExchangeRequested;
      log := log + [Entry(oldStatus, ExchangeRequested, Customer)];
      ok := true;
    }

    method UpdateStatus(text: string, now: int) returns (ok: bool)
      modifies this
      ensures Value() == Perform(old(Value()), CustomerUpdate(text, now))
      ensures ok <==> Parse(text).Some?
    {
      match Parse(text) {
        case None =>
          ok := false;
        case Some(newStatus) =>
          var oldStatus := status;
          status := newStatus;
          if newStatus == Delivered {
            deliveredAt := Some(now);
          }
          log := log + [Entry(oldStatus, newStatus, Customer)];
          ok := true;
      }
    }

    method UpdateStatusByAdmin(text: string) returns (ok: bool)
      modifies this
      ensures Value() == Perform(old(Value()), AdminUpdate(text))
      ensures ok <==> Parse(text).Some?
    {
      match Parse(text) {
        case None =>
          ok := false;
        case Some(newStatus) =>
          var oldStatus := status;
          status := newStatus;
          log := log + [Entry(oldStatus, newStatus, Admin)];
          ok := true;
      }
    }
  }
}
