// How long anyone waits: the deadlines that the operations set, and what the sweepers leave once they
// have passed.
module Deadlines {
  import opened Wrappers
  import opened Marketplace
  import opened Pricing
  import opened Admission
  import opened AdmissionSafety
  import opened Capacity
  import opened Lifecycle
  import opened Progress
  import opened Quotes
  import opened Runs
  import Safety
  import Guarantees

  // The customer or provider acted no later than t; the sweepers' clocks do not matter.
  predicate ActedBy(op: Operation, t: Time) {
    match op
    case OnAdmission(a) => a.now <= t
    case OnBooking(b) => b.DoSendQuote? || b.DoConfirmQuote? || b.DoBulkDecision? ==> b.now <= t
    case OnOrder(o) => o.DoAcceptOrder? ==> o.now <= t
    case _ => true
  }

  predicate AllActedBy(ops: seq<Operation>, t: Time) {
    forall i | 0 <= i < |ops| :: ActedBy(ops[i], t)
  }

  // How long a booking may wait in its status.
  function Patience(b: Booking): Time {
    match b.status
    case Pending => if b.order.Some? then PACKAGE_REQUEST_TIMEOUT else PENDING_TIMEOUT
    case QuoteSent => QUOTE_SENT_TIMEOUT
    case _ => CONFIRMED_UNPAID_TIMEOUT
  }

  predicate Waiting(s: BookingStatus) {
    s == Pending || s == QuoteSent || s == Confirmed
  }

  predicate BookingTimed(b: Booking, t: Time) {
    Waiting(b.status) && b.deadline.Some? ==> b.deadline.value <= t + Patience(b)
  }

  predicate OrderTimed(o: Order, t: Time) {
    && (o.status == OrdPending && o.pendingExpires.Some? ==> o.pendingExpires.value <= t + PACKAGE_REQUEST_TIMEOUT)
    && (o.status == OrdPendingPayment && o.paymentExpires.Some? ==>
        o.paymentExpires.value <= t + PACKAGE_PAYMENT_TIMEOUT)
  }

  ghost predicate AllTimed(db: Db, t: Time) {
    && (forall i :: 0 <= i < |db.bookings| ==> BookingTimed(db.bookings[i], t))
    && (forall o :: 0 <= o < |db.orders| ==> OrderTimed(db.orders[o], t))
  }

  // ----- one operation ---------------------------------------------------------------------------

  lemma {:induction false} ProgressAllKeepsTimes(db: Db, accepted: seq<nat>, k: nat, e: nat, t: Time)
    requires AllTimed(db, t) && k <= |accepted|
    ensures AllTimed(ProgressAll(db, accepted, k, e), t)
  {
    if k > 0 {
      ProgressAllKeepsTimes(db, accepted, k - 1, e, t);
    }
  }

  lemma BulkDecisionKeepsTimes(db: Db, customer: nat, e: nat, d: Decision, now: Time, t: Time)
    requires AllTimed(db, t) && now <= t
    ensures AllTimed(After(BulkDecision(db, customer, e, d, now), db), t)
  {
    if CheckDecision(db, customer, e, d).Pass? {
      hide CheckDecision, AllCalledOff;
      var decided := db.(bookings := Decided(db.bookings, d, now));
      var closed := if AllCalledOff(decided.bookings, e) then WithEventStatus(decided, e, EvCancelled) else decided;
      assert AllTimed(closed, t);
      ProgressAllKeepsTimes(closed, d.accepted, |d.accepted|, e, t);
    }
  }

  lemma ProgressKeepsTimes(db: Db, t: Time)
    requires AllTimed(db, t)
    ensures forall e: nat :: AllTimed(TryProgressEvent(db, e), t)
    ensures forall o: nat :: AllTimed(TryProgressOrder(db, o), t)
    ensures forall b: nat, e: nat :: AllTimed(ProgressBookingAndEvent(db, b, e), t)
  {
    hide CanProgress;
  }

  lemma BookingOpKeepsTimes(db: Db, op: BookingOp, t: Time)
    requires AllTimed(db, t) && ActedBy(OnBooking(op), t)
    ensures AllTimed(After(ExecuteBooking(db, op), db), t)
  {
    hide BulkDecision, TryProgressEvent, Acceptable, QuotedItems, FinalTotals;
    if op.DoBulkDecision? {
      BulkDecisionKeepsTimes(db, op.customer, op.e, op.decision, op.now, t);
    } else if op.DoConfirmQuote? && ConfirmQuote(db, op.customer, op.b, op.now).Success? {
      var row := db.bookings[op.b].(status := Confirmed, deadline := Some(op.now + CONFIRMED_UNPAID_TIMEOUT));
      ProgressKeepsTimes(WithBooking(db, op.b, row), t);
    }
  }

  lemma MarkPaidKeepsTimes(db: Db, b: nat, corrected: bool, t: Time)
    requires AllTimed(db, t) && b < |db.bookings|
    ensures AllTimed(MarkPaid(db, b, corrected), t)
  {
    hide TryProgressOrder, ProgressBookingAndEvent;
    ProgressKeepsTimes(WithBooking(db, b,
                                   db.bookings[b].(payment := WithPayment(db.bookings[b].payment, Paid),
                                                   deadline := None)), t);
  }

  lemma PaymentOpKeepsTimes(db: Db, op: PaymentOp, t: Time)
    requires AllTimed(db, t)
    ensures AllTimed(After(ExecutePayment(db, op), db), t)
  {
    hide MarkPaid, NewPayment, CheckIntent;
    forall db': Db, b: nat, corrected: bool | AllTimed(db', t) && b < |db'.bookings|
      ensures AllTimed(MarkPaid(db', b, corrected), t)
    {
      MarkPaidKeepsTimes(db', b, corrected, t);
    }
  }

  lemma StartOrderKeepsTimes(db: Db, o: nat, t: Time)
    requires AllTimed(db, t) && o < |db.orders|
    ensures AllTimed(StartOrder(db, o), t)
  {
  }

  lemma OrderOpKeepsTimes(db: Db, op: OrderOp, t: Time)
    requires AllTimed(db, t) && ActedBy(OnOrder(op), t)
    ensures AllTimed(After(ExecuteOrder(db, op), db), t)
  {
    hide StartOrder;
    forall db': Db, o: nat | AllTimed(db', t) && o < |db'.orders| ensures AllTimed(StartOrder(db', o), t) {
      StartOrderKeepsTimes(db', o, t);
    }
  }

  lemma {:induction false} SweepOrdersKeepsTimes(db: Db, kind: OrderSweep, now: Time, k: nat, t: Time)
    requires AllTimed(db, t) && k <= |db.orders|
    ensures AllTimed(SweepOrders(db, kind, now, k), t)
  {
    if k > 0 {
      SweepOrdersKeepsTimes(db, kind, now, k - 1, t);
    }
  }

  lemma SweepOpKeepsTimes(db: Db, op: SweepOp, t: Time)
    requires AllTimed(db, t)
    ensures AllTimed(After(ExecuteSweep(db, op), db), t)
  {
    hide SweepEvents, SweepOrders;
    match op
    case DoSweepBookings(now) =>
    case DoSweepEvents(now) => EventSweepIsExact(db, now, |db.events|);
    case DoSweepOrders(kind, now) => SweepOrdersKeepsTimes(db, kind, now, |db.orders|, t);
  }

  lemma AdmissionKeepsTimes(cat: Catalogue, db: Db, op: AdmissionOp, t: Time)
    requires AllTimed(db, t) && op.now <= t
    ensures AllTimed(After(ExecuteAdmission(cat, db, op), db), t)
  {
    hide Validate, Admit, NewBooking, ValidateFirst, AdmitAtOnce, AdmitInTurn, CoversPackage, DistinctServices,
         StackedTotal, SumTotals;
    match op
    case DoCreateEvent(c, day, s, e, g, sels, now) =>
      var ev := Event(c, day, s, e, g, EvDraft);
      if CreateEvent(cat, db, ev, sels, now).Success? {
        ValidateFirstCovers(cat, sels, ev, |sels|);
        AdmittedInTurn(cat, db.(events := db.events + [ev]), |db.events|, sels, |sels|, None, now + PENDING_TIMEOUT,
                       true);
        NewBookingsAreTimed(cat, ev, |db.events|, sels, None, now + PENDING_TIMEOUT, t);
        var db' := CreateEvent(cat, db, ev, sels, now).value;
        forall i | |db.bookings| <= i < |db'.bookings| ensures BookingTimed(db'.bookings[i], t) {
          var sel := sels[i - |db.bookings|];
          assert Validate(cat, sel, ev).Pass?;
          assert db'.bookings[i] == NewBooking(cat, ev, |db.events|, sel, None, now + PENDING_TIMEOUT);
        }
      }
    case DoAddService(c, e, sel, now) =>
      if AddService(cat, db, c, e, sel, now).Success? {
        NewBookingsAreTimed(cat, db.events[e], e, [sel], None, now + PENDING_TIMEOUT, t);
        assert [sel][0] == sel;
      }
    case DoBookPackage(c, p, day, s, e, g, sels, discount, now) =>
      var ev := Event(c, day, s, e, g, EvDraft);
      if BookPackage(cat, db, p, ev, sels, discount, now).Success? {
        ValidateFirstCovers(cat, sels, ev, |sels|);
        var deadline := now + PACKAGE_REQUEST_TIMEOUT;
        AdmittedAtOnce(cat, db.(events := db.events + [ev]), |db.events|, sels, |sels|, Some(|db.orders|), deadline,
                       false);
        NewBookingsAreTimed(cat, ev, |db.events|, sels, Some(|db.orders|), deadline, t);
      }
  }

  lemma NewBookingsAreTimed(cat: Catalogue, ev: Event, e: nat, sels: seq<Selection>, order: Option<nat>,
                            deadline: Time, t: Time)
    requires forall i :: 0 <= i < |sels| ==> Validate(cat, sels[i], ev).Pass?
    requires deadline <= t + (if order.Some? then PACKAGE_REQUEST_TIMEOUT else PENDING_TIMEOUT)
    ensures forall i :: 0 <= i < |sels| ==> sels[i].service < |cat.services|
    ensures forall i :: 0 <= i < |sels| ==> BookingTimed(NewBooking(cat, ev, e, sels[i], order, deadline), t)
  {
  }

  lemma StepKeepsTimes(cat: Catalogue, db: Db, op: Operation, t: Time)
    requires AllTimed(db, t) && ActedBy(op, t)
    ensures AllTimed(Apply(cat, db, op), t)
  {
    hide AllTimed, ExecuteAdmission, ExecuteBooking, ExecutePayment, ExecuteOrder, ExecuteSweep;
    match op
    case OnAdmission(a) => AdmissionKeepsTimes(cat, db, a, t);
    case OnBooking(b) => BookingOpKeepsTimes(db, b, t);
    case OnPayment(p) => PaymentOpKeepsTimes(db, p, t);
    case OnOrder(o) => OrderOpKeepsTimes(db, o, t);
    case OnSweep(s) => SweepOpKeepsTimes(db, s, t);
    case OnPackage(p) => SameTablesSameTimes(db, Apply(cat, db, op), t);
    case OnBlocks(b) => SameTablesSameTimes(db, Apply(cat, db, op), t);
  }

  lemma SameTablesSameTimes(db: Db, db': Db, t: Time)
    requires AllTimed(db, t) && db'.bookings == db.bookings && db'.orders == db.orders
    ensures AllTimed(db', t)
  {
  }

  // ----- runs ------------------------------------------------------------------------------------

  lemma {:induction false} DeadlinesAreNear(cat: Catalogue, ops: seq<Operation>, t: Time)
    requires AllActedBy(ops, t)
    ensures AllTimed(Guarantees.Reached(cat, ops), t)
  {
    if ops != [] {
      var n := |ops| - 1;
      assert forall i :: 0 <= i < n ==> ops[..n][i] == ops[i];
      DeadlinesAreNear(cat, ops[..n], t);
      StepKeepsTimes(cat, Guarantees.Reached(cat, ops[..n]), ops[n], t);
    }
  }

  // Nobody waits forever: 48 hours after the last action of a customer or provider, one run of the
  // booking sweeper leaves no booking pending or quoted, and none confirmed without its money.
  lemma NobodyWaitsForever(cat: Catalogue, ops: seq<Operation>, t: Time, now: Time, i: nat)
    requires AllActedBy(ops, t) && now >= t + 48 * 60
    requires i < |Guarantees.Reached(cat, ops + [OnSweep(DoSweepBookings(now))]).bookings|
    ensures var b := Guarantees.Reached(cat, ops + [OnSweep(DoSweepBookings(now))]).bookings[i];
            b.status != Pending && b.status != QuoteSent && (b.status == Confirmed ==> Cleared(b.payment))
  {
    var sweep := OnSweep(DoSweepBookings(now));
    assert AllActedBy(ops + [sweep], t);
    DeadlinesAreNear(cat, ops + [sweep], t);
    Guarantees.SweepLeavesOnlyFuture(cat, ops, now, i);
    hide Guarantees.Reached;
    assert BookingTimed(Guarantees.Reached(cat, ops + [sweep]).bookings[i], t);
  }

  // Nor does a package booking: once the 48 hours have passed, the two package sweeps leave none pending
  // and none accepted but unpaid.
  lemma NoPackageBookingWaitsForever(cat: Catalogue, ops: seq<Operation>, t: Time, now: Time, o: nat)
    requires AllActedBy(ops, t) && now > t + 48 * 60
    requires var swept := ops + [OnSweep(DoSweepOrders(ExpirePending, now))]
               + [OnSweep(DoSweepOrders(ExpireUnpaid, now))];
             o < |Guarantees.Reached(cat, swept).orders|
    ensures var swept := ops + [OnSweep(DoSweepOrders(ExpirePending, now))]
              + [OnSweep(DoSweepOrders(ExpireUnpaid, now))];
            var order := Guarantees.Reached(cat, swept).orders[o];
            order.status != OrdPending && (order.status == OrdPendingPayment ==> IsPaid(order.payment))
  {
    var swept := ops + [OnSweep(DoSweepOrders(ExpirePending, now))] + [OnSweep(DoSweepOrders(ExpireUnpaid, now))];
    assert AllActedBy(swept, t);
    DeadlinesAreNear(cat, swept, t);
    Guarantees.PackageSweepsLeaveOnlyFuture(cat, ops, now, o);
    hide Guarantees.Reached;
    assert OrderTimed(Guarantees.Reached(cat, swept).orders[o], t);
  }
}
