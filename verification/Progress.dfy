// What the sweepers do, without the loops: conditions and results row by row.
module Progress {
  import opened Wrappers
  import opened Marketplace
  import opened Lifecycle
  import TimeHelper

  // ----- sweepers ------------------------------------------------------------------------------

  predicate Due(ev: Event, now: Time) {
    ev.status == EvInProgress && ev.day * TimeHelper.DAY <= now && Over(ev, now)
  }

  function AfterItsEvent(s: BookingStatus): BookingStatus {
    match s
    case Pending => Cancelled
    case QuoteSent => Cancelled
    case InProgress => Completed
    case _ => s
  }

  // The event sweep in closed form: the events that are due complete, their undecided bookings are
  // cancelled and their running ones completed; everything else is as it was.
  lemma {:induction false} EventSweepIsExact(db: Db, now: Time, k: nat)
    requires k <= |db.events|
    ensures var db' := SweepEvents(db, now, k);
            && db' == db.(events := db'.events, bookings := db'.bookings)
            && |db'.events| == |db.events| && |db'.bookings| == |db.bookings|
            && (forall e :: 0 <= e < |db.events| ==>
                  db'.events[e] == if e < k && Due(db.events[e], now) then db.events[e].(status := EvCompleted)
                    else db.events[e])
            && (forall i :: 0 <= i < |db.bookings| ==>
                  var b := db.bookings[i];
                  db'.bookings[i] == if b.event < k && Due(db.events[b.event], now)
                                     then b.(status := AfterItsEvent(b.status)) else b)
  {
    hide Over;
    if k > 0 {
      EventSweepIsExact(db, now, k - 1);
    }
  }

  // The booking sweep, row by row: it takes exactly the bookings that still wait, are past their deadline, and are
  // not confirmed and paid, and all it does is call them off.
  lemma BookingSweepIsExact(db: Db, now: Time, i: nat)
    requires i < |db.bookings|
    ensures var db' := SweepBookings(db, now, |db.bookings|);
            var b := db.bookings[i];
            && db' == db.(bookings := db'.bookings) && |db'.bookings| == |db.bookings|
            && (db'.bookings[i] != b <==>
                (b.status == Pending || b.status == QuoteSent || b.status == Confirmed)
                && b.deadline.Some? && b.deadline.value <= now
                && !(b.status == Confirmed && b.payment.Some? && b.payment.value.status == Paid))
            && (db'.bookings[i] != b ==> db'.bookings[i] == b.(status := Cancelled))
  {
  }

  // Which package bookings a sweep of the given kind is about.
  predicate OrderDue(db: Db, kind: OrderSweep, order: Order, now: Time) {
    match kind
    case ExpirePending => order.status == OrdPending && order.pendingExpires.Some? && order.pendingExpires.value < now
    case ExpireUnpaid =>
      order.status == OrdPendingPayment && order.paymentExpires.Some? && order.paymentExpires.value < now
        && !IsPaid(order.payment)
    case CompleteFinished =>
      order.status == OrdInProgress && order.event < |db.events| && Over(db.events[order.event], now)
  }

  function SweptOrder(kind: OrderSweep, o: Order): Order {
    match kind
    case ExpirePending => o.(status := OrdExpired)
    case ExpireUnpaid =>
      o.(status := OrdCancelled,
         payment := if o.payment.Some? then Some(o.payment.value.(status := PayCancelled)) else None)
    case CompleteFinished => o.(status := OrdCompleted)
  }

  function ChildAfterSweep(kind: OrderSweep, s: BookingStatus): BookingStatus {
    match kind
    case ExpirePending => if s == Pending || s == Confirmed then Cancelled else s
    case ExpireUnpaid => if s == Pending || s == Confirmed || s == InProgress then Cancelled else s
    case CompleteFinished => if s == InProgress then Completed else s
  }

  // The three tables after the first k rows were swept.
  ghost predicate OrdersSwept(db: Db, db': Db, kind: OrderSweep, now: Time, k: nat) {
    && |db'.orders| == |db.orders|
    && forall o :: 0 <= o < |db.orders| ==>
         db'.orders[o] == if o < k && OrderDue(db, kind, db.orders[o], now) then SweptOrder(kind, db.orders[o])
                          else db.orders[o]
  }

  ghost predicate ChildrenSwept(db: Db, db': Db, kind: OrderSweep, now: Time, k: nat) {
    && |db'.bookings| == |db.bookings|
    && forall i :: 0 <= i < |db.bookings| ==>
         var b := db.bookings[i];
         db'.bookings[i] == if b.order.Some? && b.order.value < k && b.order.value < |db.orders|
                               && OrderDue(db, kind, db.orders[b.order.value], now)
                            then b.(status := ChildAfterSweep(kind, b.status)) else b
  }

  ghost predicate EventsSwept(db: Db, db': Db, kind: OrderSweep, now: Time, k: nat) {
    && |db'.events| == |db.events|
    && forall e :: 0 <= e < |db.events| ==>
         if kind == CompleteFinished
            && exists o :: 0 <= o < k && o < |db.orders| && db.orders[o].event == e
                 && OrderDue(db, kind, db.orders[o], now)
         then db'.events[e] == db.events[e].(status := EvCompleted) else db'.events[e] == db.events[e]
  }

  lemma NextOrderSwept(db: Db, mid: Db, kind: OrderSweep, now: Time, k: nat)
    requires k < |db.orders| && OrdersSwept(db, mid, kind, now, k) && EventsSwept(db, mid, kind, now, k)
    ensures OrderDue(mid, kind, mid.orders[k], now) <==> OrderDue(db, kind, db.orders[k], now)
    ensures mid.orders[k] == db.orders[k]
    ensures OrdersSwept(db, SweepOrder(mid, kind, k, now), kind, now, k + 1)
  {
  }

  lemma NextChildrenSwept(db: Db, mid: Db, kind: OrderSweep, now: Time, k: nat)
    requires k < |db.orders| == |mid.orders| && ChildrenSwept(db, mid, kind, now, k)
    requires OrderDue(mid, kind, mid.orders[k], now) <==> OrderDue(db, kind, db.orders[k], now)
    ensures ChildrenSwept(db, SweepOrder(mid, kind, k, now), kind, now, k + 1)
  {
    hide Over;
  }

  lemma NextEventsSwept(db: Db, mid: Db, kind: OrderSweep, now: Time, k: nat)
    requires k < |db.orders| == |mid.orders| && EventsSwept(db, mid, kind, now, k) && mid.orders[k] == db.orders[k]
    requires OrderDue(mid, kind, mid.orders[k], now) <==> OrderDue(db, kind, db.orders[k], now)
    ensures EventsSwept(db, SweepOrder(mid, kind, k, now), kind, now, k + 1)
  {
    hide Over;
  }

  lemma NothingSwept(db: Db, kind: OrderSweep, now: Time)
    ensures OrdersSwept(db, db, kind, now, 0) && ChildrenSwept(db, db, kind, now, 0)
              && EventsSwept(db, db, kind, now, 0)
  {
    hide OrderDue;
  }

  // The package sweeps in closed form: though they rewrite the tables row by row, each package booking is
  // judged as the sweep found it, and a booking moves exactly when the package booking it belongs to was due.
  lemma {:induction false} OrderSweepIsExact(db: Db, kind: OrderSweep, now: Time, k: nat)
    requires k <= |db.orders|
    ensures var db' := SweepOrders(db, kind, now, k);
            OrdersSwept(db, db', kind, now, k) && ChildrenSwept(db, db', kind, now, k)
              && EventsSwept(db, db', kind, now, k)
  {
    hide OrdersSwept, ChildrenSwept, EventsSwept, OrderDue, SweepOrder;
    if k == 0 {
      NothingSwept(db, kind, now);
    } else {
      OrderSweepIsExact(db, kind, now, k - 1);
      var mid := SweepOrders(db, kind, now, k - 1);
      NextOrderSwept(db, mid, kind, now, k - 1);
      NextChildrenSwept(db, mid, kind, now, k - 1);
      NextEventsSwept(db, mid, kind, now, k - 1);
    }
  }

  // ----- completed before it is over ---------------------------------------------------------------------

  // When the event is really over: its end, on the next day if that does not come after its start.
  function TrueEnd(ev: Event): Time {
    ev.day * TimeHelper.DAY + TimeHelper.Lifted(ev.start, ev.end, TimeHelper.DAY)
  }

  predicate ClockTimes(ev: Event) {
    0 <= ev.start < TimeHelper.DAY && 0 <= ev.end < TimeHelper.DAY
  }

  // Start and end lie in the same hour of the clock, the end not after the start: almost a whole day.
  predicate EndsInItsHour(ev: Event) {
    ev.end / 60 == ev.start / 60 && ev.end <= ev.start
  }

  ghost predicate EventCompletedEarly(db: Db, e: nat, now: Time)
    requires e < |db.events|
  {
    SweepEvents(db, now, |db.events|).events[e].status == EvCompleted && now < TrueEnd(db.events[e])
  }

  // Some run of the event sweep completes an event in progress before it is over exactly if the event ends
  // in the clock hour it starts in. It is then due a whole day early.
  lemma EventCompletedEarlyIff(db: Db, e: nat)
    requires e < |db.events| && db.events[e].status == EvInProgress && ClockTimes(db.events[e])
    ensures (exists now :: EventCompletedEarly(db, e, now)) <==> EndsInItsHour(db.events[e])
  {
    var ev := db.events[e];
    TimeHelper.SweptEndIsTrueEndIff(ev.start, ev.end);
    forall now ensures SweepEvents(db, now, |db.events|).events[e].status == EvCompleted <==> Due(ev, now) {
      EventSweepIsExact(db, now, |db.events|);
    }
    if EndsInItsHour(ev) {
      assert EventCompletedEarly(db, e, ev.day * TimeHelper.DAY + ev.end);
    }
  }

  ghost predicate OrderCompletedEarly(db: Db, o: nat, now: Time)
    requires o < |db.orders| && db.orders[o].event < |db.events|
  {
    SweepOrders(db, CompleteFinished, now, |db.orders|).orders[o].status == OrdCompleted
    && now < TrueEnd(db.events[db.orders[o].event])
  }

  // The same of a package booking in progress and its sweep.
  lemma OrderCompletedEarlyIff(db: Db, o: nat)
    requires o < |db.orders| && db.orders[o].status == OrdInProgress
    requires db.orders[o].event < |db.events| && ClockTimes(db.events[db.orders[o].event])
    ensures (exists now :: OrderCompletedEarly(db, o, now)) <==> EndsInItsHour(db.events[db.orders[o].event])
  {
    var ev := db.events[db.orders[o].event];
    TimeHelper.SweptEndIsTrueEndIff(ev.start, ev.end);
    forall now
      ensures SweepOrders(db, CompleteFinished, now, |db.orders|).orders[o].status == OrdCompleted <==> Over(ev, now)
    {
      OrderSweepIsExact(db, CompleteFinished, now, |db.orders|);
    }
    if EndsInItsHour(ev) {
      assert OrderCompletedEarly(db, o, ev.day * TimeHelper.DAY + ev.end);
    }
  }
}
