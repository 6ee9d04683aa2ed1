// What starts a booking and what does not: quotes, single payments and package payments as deployed, over
// whole runs.
module Starting {
  import opened Wrappers
  import opened Marketplace
  import opened Pricing
  import opened Lifecycle
  import opened Safety
  import opened Progress
  import opened Runs
  import opened Guarantees
  import AdmissionSafety
  import Admission

  // ----- quotes ----------------------------------------------------------------------------------

  function ConfirmedRow(b: Booking, now: Time): Booking {
    b.(status := Confirmed, deadline := Some(now + CONFIRMED_UNPAID_TIMEOUT))
  }

  // tryProgressEvent has one live caller, confirmQuote, and never gets anywhere there: the booking just
  // confirmed has no payment yet, so its event still waits for it.
  lemma ConfirmQuoteStartsNothing(db: Db, customer: nat, b: nat, now: Time)
    requires Invariant(db) && ConfirmQuote(db, customer, b, now).Success?
    ensures ConfirmQuote(db, customer, b, now).value == WithBooking(db, b, ConfirmedRow(db.bookings[b], now))
  {
    assert BookingOk(db, db.bookings[b]);
    var confirmed := WithBooking(db, b, ConfirmedRow(db.bookings[b], now));
    assert InGroup(confirmed.bookings[b], OfEvent(db.bookings[b].event)) && !Settled(confirmed.bookings[b]);
  }

  // Over runs: a confirmed quote changes one row of one table.
  lemma ConfirmedQuotesOnlyWait(cat: Catalogue, past: seq<Operation>, customer: nat, b: nat, now: Time)
    requires ConfirmQuote(Reached(cat, past), customer, b, now).Success?
    ensures Reached(cat, past + [OnBooking(DoConfirmQuote(customer, b, now))])
            == WithBooking(Reached(cat, past), b, ConfirmedRow(Reached(cat, past).bookings[b], now))
  {
    ReachedIsSound(cat, past);
    OneMore(cat, past, OnBooking(DoConfirmQuote(customer, b, now)));
    ConfirmQuoteStartsNothing(Reached(cat, past), customer, b, now);
  }

  // ----- decisions on several quotes ---------------------------------------------------------------

  lemma {:induction false} ProgressAllElsewhere(db: Db, accepted: seq<nat>, k: nat, e: nat, i: nat)
    requires k <= |accepted| && i < |db.bookings|
    ensures var db' := ProgressAll(db, accepted, k, e);
            |db'.bookings| == |db.bookings| && |db'.events| == |db.events| && db'.orders == db.orders
            && (i !in accepted[..k] ==> db'.bookings[i] == db.bookings[i])
  {
    if k > 0 {
      ProgressAllElsewhere(db, accepted, k - 1, e, i);
      assert accepted[..k] == accepted[..k - 1] + [accepted[k - 1]];
    }
  }

  lemma {:induction false} ProgressAllStarts(db: Db, accepted: seq<nat>, k: nat, e: nat, i: nat)
    requires k <= |accepted| && i < |db.bookings| && e < |db.events|
    requires i in accepted[..k] && db.bookings[i].status == Confirmed
    ensures |ProgressAll(db, accepted, k, e).bookings| == |db.bookings|
    ensures ProgressAll(db, accepted, k, e).bookings[i].status == InProgress
  {
    ProgressAllElsewhere(db, accepted, k - 1, e, i);
    assert accepted[..k] == accepted[..k - 1] + [accepted[k - 1]];
    if i in accepted[..k - 1] {
      ProgressAllStarts(db, accepted, k - 1, e, i);
    }
  }

  // The customer accepts the quote of booking i and pays it by transfer in the same call.
  predicate AcceptsByTransfer(db: Db, op: Operation, i: nat) {
    && op.OnBooking? && op.booking.DoBulkDecision?
    && op.booking.decision.channel == Some(BankTransfer) && i in op.booking.decision.accepted
    && ExecuteBooking(db, op.booking).Success?
  }

  lemma BulkDecisionStarts(db: Db, customer: nat, e: nat, d: Decision, now: Time, i: nat)
    requires BulkDecision(db, customer, e, d, now).Success? && i < |db.bookings|
    ensures var db' := BulkDecision(db, customer, e, d, now).value;
            && |db'.bookings| == |db.bookings| && db'.orders == db.orders
            && (d.channel == Some(BankTransfer) && i in d.accepted ==>
                  db.bookings[i].status == QuoteSent && db'.bookings[i].status == InProgress)
            && (!(d.channel == Some(BankTransfer) && i in d.accepted) ==>
                  db'.bookings[i] == Decided(db.bookings, d, now)[i])
            && (db.bookings[i].status != QuoteSent ==> db'.bookings[i] == db.bookings[i])
  {
    QuotedOnly(db, customer, e, d, i);
    var decided := db.(bookings := Decided(db.bookings, d, now));
    var closed := if AllCalledOff(decided.bookings, e) then WithEventStatus(decided, e, EvCancelled) else decided;
    assert d.accepted[..|d.accepted|] == d.accepted;
    hide CheckDecision, AllCalledOff, ProgressBookingAndEvent;
    if d.channel == Some(BankTransfer) {
      ProgressAllElsewhere(closed, d.accepted, |d.accepted|, e, i);
      if i in d.accepted {
        EventOfDecision(db, customer, e, d);
        ProgressAllStarts(closed, d.accepted, |d.accepted|, e, i);
      }
    }
  }

  lemma EventOfDecision(db: Db, customer: nat, e: nat, d: Decision)
    requires CheckDecision(db, customer, e, d).Pass?
    ensures e < |db.events|
  {
  }

  // ----- bookings outside packages -------------------------------------------------------------------

  // The operation as it is deployed: markPaid is handed the event's id.
  predicate Deployed(op: Operation) {
    op.OnPayment? ==>
      match op.payment
      case DoCreatePayment(_, _, _, _, _, corrected) => !corrected
      case DoConfirmPayment(_, _, _, corrected) => !corrected
      case DoMarkCashPaid(_, _, corrected) => !corrected
      case DoRefund(_) => true
  }

  predicate AllDeployed(ops: seq<Operation>) {
    forall i | 0 <= i < |ops| :: Deployed(ops[i])
  }

  // A booking outside packages that has not started does not start.
  predicate Rests(b: Booking, b': Booking) {
    b.order.None? && Rank(b.status) < 3 ==> b'.status != InProgress && b'.status != Completed
  }

  lemma BookingOpLetsRest(db: Db, op: BookingOp, i: nat)
    requires Invariant(db) && i < |db.bookings| && !AcceptsByTransfer(db, OnBooking(op), i)
    ensures var db' := After(ExecuteBooking(db, op), db);
            |db'.bookings| == |db.bookings| && Rests(db.bookings[i], db'.bookings[i])
  {
    hide Invariant, BulkDecision, TryProgressEvent, ConfirmQuote;
    if ExecuteBooking(db, op).Success? {
      match op
      case DoConfirmQuote(c, b, now) => ConfirmQuoteStartsNothing(db, c, b, now); QuoteWasSent(db, c, b, now);
      case DoBulkDecision(c, e, d, now) => BulkDecisionStarts(db, c, e, d, now, i);
      case _ =>
    }
  }

  lemma QuoteWasSent(db: Db, customer: nat, b: nat, now: Time)
    requires ConfirmQuote(db, customer, b, now).Success?
    ensures b < |db.bookings| && db.bookings[b].status == QuoteSent
  {
  }

  // Progression of a package booking leaves other bookings alone.
  lemma OtherGroupsWait(db: Db, o: nat, i: nat)
    requires i < |db.bookings| && db.bookings[i].order != Some(o)
    ensures |TryProgressOrder(db, o).bookings| == |db.bookings|
    ensures TryProgressOrder(db, o).bookings[i] == db.bookings[i]
  {
    hide CanProgress;
  }

  lemma DeployedPaymentOpLetsRest(db: Db, op: PaymentOp, i: nat)
    requires i < |db.bookings| && Deployed(OnPayment(op))
    ensures var db' := After(ExecutePayment(db, op), db);
            |db'.bookings| == |db.bookings| && Rests(db.bookings[i], db'.bookings[i])
  {
    hide MarkPaid, NewPayment, CheckIntent, Rests;
    forall db0: Db, b: nat
      | b < |db0.bookings| == |db.bookings| && db0.bookings[i] == db.bookings[i].(payment := db0.bookings[i].payment)
      ensures |MarkPaid(db0, b, false).bookings| == |db.bookings|
      ensures Rests(db.bookings[i], MarkPaid(db0, b, false).bookings[i])
    {
      MarkedRests(db.bookings[i], db0, b, i);
    }
    SameStatusRests(db.bookings[i]);
  }

  lemma SameStatusRests(b: Booking)
    ensures forall b': Booking :: b'.status == b.status ==> Rests(b, b')
  {
  }

  lemma MarkedRests(was: Booking, db: Db, b: nat, i: nat)
    requires b < |db.bookings| && i < |db.bookings| && db.bookings[i] == was.(payment := db.bookings[i].payment)
    ensures |MarkPaid(db, b, false).bookings| == |db.bookings| && Rests(was, MarkPaid(db, b, false).bookings[i])
  {
    hide TryProgressOrder;
    if db.bookings[b].order.Some? {
      var paid := WithBooking(db, b,
                              db.bookings[b].(payment := WithPayment(db.bookings[b].payment, Paid), deadline := None));
      if was.order.None? {
        OtherGroupsWait(paid, db.bookings[b].order.value, i);
      } else {
        ProgressKeepsLength(paid, db.bookings[b].order.value);
      }
    }
  }

  lemma ProgressKeepsLength(db: Db, o: nat)
    ensures |TryProgressOrder(db, o).bookings| == |db.bookings|
  {
  }

  lemma OrderOpLetsRest(db: Db, op: OrderOp, i: nat)
    requires i < |db.bookings|
    ensures var db' := After(ExecuteOrder(db, op), db);
            |db'.bookings| == |db.bookings| && (db.bookings[i].order.None? ==> db'.bookings[i] == db.bookings[i])
  {
  }

  lemma SweepOpLetsRest(db: Db, op: SweepOp, i: nat)
    requires Invariant(db) && i < |db.bookings|
    ensures var db' := After(ExecuteSweep(db, op), db);
            |db'.bookings| == |db.bookings| && Rests(db.bookings[i], db'.bookings[i])
  {
    hide Invariant, SweepEvents, SweepOrders, Over, OrderDue;
    match op
    case DoSweepBookings(now) =>
    case DoSweepEvents(now) => EventsInPlace(db, i); EventSweepIsExact(db, now, |db.events|);
    case DoSweepOrders(kind, now) => OrderSweepIsExact(db, kind, now, |db.orders|);
  }

  lemma EventsInPlace(db: Db, i: nat)
    requires Invariant(db) && i < |db.bookings|
    ensures db.bookings[i].event < |db.events|
    ensures db.bookings[i].order.Some? ==> db.bookings[i].order.value < |db.orders|
  {
    assert BookingOk(db, db.bookings[i]);
  }

  lemma AdmissionLeavesRows(cat: Catalogue, db: Db, op: AdmissionOp, i: nat)
    requires Invariant(db) && i < |db.bookings|
    ensures var db' := After(ExecuteAdmission(cat, db, op), db);
            |db.bookings| <= |db'.bookings| && db'.bookings[i] == db.bookings[i]
            && |db.orders| <= |db'.orders| && forall o :: 0 <= o < |db.orders| ==> db'.orders[o] == db.orders[o]
  {
    hide Invariant, Evolves, Admission.CreateEvent, Admission.AddService, Admission.BookPackage;
    match op
    case DoCreateEvent(c, day, s, t, g, sels, now) =>
      AdmissionSafety.CreateEventIsSafe(cat, db, Event(c, day, s, t, g, EvDraft), sels, now);
    case DoAddService(c, e, sel, now) => AdmissionSafety.AddServiceIsSafe(cat, db, c, e, sel, now);
    case DoBookPackage(c, p, day, s, t, g, sels, discount, now) =>
      AdmissionSafety.BookPackageIsSafe(cat, db, p, Event(c, day, s, t, g, EvDraft), sels, discount, now);
  }

  lemma StepLetsRest(cat: Catalogue, db: Db, op: Operation, i: nat)
    requires Invariant(db) && i < |db.bookings| && Deployed(op) && !AcceptsByTransfer(db, op, i)
    ensures var db' := Apply(cat, db, op);
            i < |db'.bookings| && Rests(db.bookings[i], db'.bookings[i])
  {
    hide Invariant, ExecuteAdmission, ExecuteBooking, ExecutePayment, ExecuteOrder, ExecuteSweep;
    match op
    case OnAdmission(a) => AdmissionLeavesRows(cat, db, a, i);
    case OnBooking(b) => BookingOpLetsRest(db, b, i);
    case OnPayment(p) => DeployedPaymentOpLetsRest(db, p, i);
    case OnOrder(o) => OrderOpLetsRest(db, o, i);
    case OnSweep(s) => SweepOpLetsRest(db, s, i);
    case OnPackage(_) =>
    case OnBlocks(_) =>
  }

  // As deployed, exactly one thing starts a booking outside packages: its customer accepting the quote
  // and paying by transfer in one call. No payment made on its own ever does.
  lemma OnlyTransfersStart(cat: Catalogue, past: seq<Operation>, op: Operation, i: nat)
    requires Deployed(op) && i < |Reached(cat, past).bookings| && Reached(cat, past).bookings[i].order.None?
    ensures i < |Reached(cat, past + [op]).bookings|
    ensures var before, after := Reached(cat, past).bookings[i], Reached(cat, past + [op]).bookings[i];
            (before.status != InProgress && after.status == InProgress)
              <==> AcceptsByTransfer(Reached(cat, past), op, i)
  {
    var db := Reached(cat, past);
    ReachedIsSound(cat, past);
    OneMore(cat, past, op);
    LastStatusAdvances(cat, db, op, i);
    if AcceptsByTransfer(db, op, i) {
      var d := op.booking;
      BulkDecisionStarts(db, d.customer, d.e, d.decision, d.now, i);
    } else {
      hide Apply, AcceptsByTransfer;
      StepLetsRest(cat, db, op, i);
    }
  }

  // ----- refunds ------------------------------------------------------------------------------------

  function Refunds(i: nat): Operation {
    OnPayment(DoRefund(BookingPayment(i)))
  }

  // No other row is refunded, and none by anything else.
  predicate RefundedBy(b: Booking, b': Booking, refunded: bool) {
    WasRefunded(b'.payment) ==> WasRefunded(b.payment) || refunded
  }

  lemma BookingOpRefundsNone(db: Db, op: BookingOp, i: nat)
    requires Invariant(db) && i < |db.bookings|
    ensures var db' := After(ExecuteBooking(db, op), db);
            |db'.bookings| == |db.bookings| && RefundedBy(db.bookings[i], db'.bookings[i], false)
  {
    hide Invariant, BulkDecision, TryProgressEvent, ConfirmQuote;
    if ExecuteBooking(db, op).Success? {
      match op
      case DoConfirmQuote(c, b, now) => ConfirmQuoteStartsNothing(db, c, b, now); QuoteWasSent(db, c, b, now);
      case DoBulkDecision(c, e, d, now) => BulkDecisionRefundsNone(db, c, e, d, now, i);
      case _ =>
    }
  }

  lemma BulkDecisionRefundsNone(db: Db, customer: nat, e: nat, d: Decision, now: Time, i: nat)
    requires BulkDecision(db, customer, e, d, now).Success? && i < |db.bookings|
    ensures var db' := BulkDecision(db, customer, e, d, now).value;
            |db'.bookings| == |db.bookings| && RefundedBy(db.bookings[i], db'.bookings[i], false)
  {
    var decided := db.(bookings := Decided(db.bookings, d, now));
    var closed := if AllCalledOff(decided.bookings, e) then WithEventStatus(decided, e, EvCancelled) else decided;
    hide CheckDecision, AllCalledOff;
    ProgressAllKeepsRows(closed, d.accepted, |d.accepted|, e, i);
  }

  lemma {:induction false} ProgressAllKeepsRows(db: Db, accepted: seq<nat>, k: nat, e: nat, i: nat)
    requires k <= |accepted| && i < |db.bookings|
    ensures var db' := ProgressAll(db, accepted, k, e);
            |db'.bookings| == |db.bookings|
            && db'.bookings[i] == db.bookings[i].(status := db'.bookings[i].status)
  {
    if k > 0 {
      ProgressAllKeepsRows(db, accepted, k - 1, e, i);
    }
  }

  lemma MarkedRefundsNone(db: Db, b: nat, corrected: bool, i: nat)
    requires b < |db.bookings| && i < |db.bookings|
    ensures |MarkPaid(db, b, corrected).bookings| == |db.bookings|
    ensures RefundedBy(db.bookings[i], MarkPaid(db, b, corrected).bookings[i], false)
  {
    hide CanProgress;
  }

  lemma PaymentOpRefunds(db: Db, op: PaymentOp, i: nat)
    requires i < |db.bookings|
    ensures var db' := After(ExecutePayment(db, op), db);
            |db'.bookings| == |db.bookings|
            && RefundedBy(db.bookings[i], db'.bookings[i], OnPayment(op) == Refunds(i))
  {
    hide MarkPaid, CheckIntent;
    forall db0: Db, b: nat, corrected: bool | b < |db0.bookings| == |db.bookings|
      ensures |MarkPaid(db0, b, corrected).bookings| == |db.bookings|
      ensures RefundedBy(db0.bookings[i], MarkPaid(db0, b, corrected).bookings[i], false)
    {
      MarkedRefundsNone(db0, b, corrected, i);
    }
  }

  lemma OrderOpRefundsNone(db: Db, op: OrderOp, i: nat)
    requires i < |db.bookings|
    ensures var db' := After(ExecuteOrder(db, op), db);
            |db'.bookings| == |db.bookings| && RefundedBy(db.bookings[i], db'.bookings[i], false)
  {
  }

  lemma SweepOpRefundsNone(db: Db, op: SweepOp, i: nat)
    requires Invariant(db) && i < |db.bookings|
    ensures var db' := After(ExecuteSweep(db, op), db);
            |db'.bookings| == |db.bookings| && RefundedBy(db.bookings[i], db'.bookings[i], false)
  {
    hide Invariant, SweepEvents, SweepOrders, Over, OrderDue;
    EventsInPlace(db, i);
    match op
    case DoSweepBookings(now) =>
    case DoSweepEvents(now) => EventSweepIsExact(db, now, |db.events|);
    case DoSweepOrders(kind, now) => OrderSweepIsExact(db, kind, now, |db.orders|);
  }

  lemma StepRefunds(cat: Catalogue, db: Db, op: Operation, i: nat)
    requires Invariant(db) && i < |db.bookings|
    ensures var db' := Apply(cat, db, op);
            i < |db'.bookings| && RefundedBy(db.bookings[i], db'.bookings[i], op == Refunds(i))
  {
    hide Invariant, ExecuteAdmission, ExecuteBooking, ExecutePayment, ExecuteOrder, ExecuteSweep;
    match op
    case OnAdmission(a) => AdmissionLeavesRows(cat, db, a, i);
    case OnBooking(b) => BookingOpRefundsNone(db, b, i);
    case OnPayment(p) => PaymentOpRefunds(db, p, i);
    case OnOrder(o) => OrderOpRefundsNone(db, o, i);
    case OnSweep(s) => SweepOpRefundsNone(db, s, i);
    case OnPackage(_) =>
    case OnBlocks(_) =>
  }

  lemma PaidIsRefunded(cat: Catalogue, db: Db, i: nat)
    requires i < |db.bookings| && IsPaid(db.bookings[i].payment)
    ensures i < |Apply(cat, db, Refunds(i)).bookings| && WasRefunded(Apply(cat, db, Refunds(i)).bookings[i].payment)
  {
  }

  // So a booking outside packages that is confirmed and paid stays just that, through every deployed
  // continuation, exactly as long as nobody asks for its refund.
  lemma {:induction false} PaidBookingsRestUntilRefunded(cat: Catalogue, past: seq<Operation>, future: seq<Operation>,
                                                         i: nat)
    requires AllDeployed(future) && i < |Reached(cat, past).bookings|
    requires var b := Reached(cat, past).bookings[i]; b.order.None? && ReadyToStart(b)
    ensures i < |Reached(cat, past + future).bookings|
    ensures ReadyToStart(Reached(cat, past + future).bookings[i]) <==> Refunds(i) !in future
    ensures WasRefunded(Reached(cat, past + future).bookings[i].payment) <==> Refunds(i) in future
  {
    if future == [] {
      assert past + future == past;
    } else {
      var n := |future| - 1;
      assert forall k :: 0 <= k < n ==> future[..n][k] == future[k];
      PaidBookingsRestUntilRefunded(cat, past, future[..n], i);
      assert past + future == (past + future[..n]) + [future[n]];
      assert future == future[..n] + [future[n]];
      ReachedEvolves(cat, past, future[..n]);
      assert BookingEvolves(Reached(cat, past).bookings[i], Reached(cat, past + future[..n]).bookings[i]);
      hide Reached, Deployed, BookingEvolves;
      OneMoreRest(cat, past + future[..n], future[n], i);
    }
  }

  lemma OneMoreRest(cat: Catalogue, past: seq<Operation>, op: Operation, i: nat)
    requires Deployed(op) && i < |Reached(cat, past).bookings|
    requires var b := Reached(cat, past).bookings[i]; b.order.None? && (ReadyToStart(b) <==> !WasRefunded(b.payment))
    ensures i < |Reached(cat, past + [op]).bookings|
    ensures var b, b' := Reached(cat, past).bookings[i], Reached(cat, past + [op]).bookings[i];
            (ReadyToStart(b') <==> !WasRefunded(b'.payment))
            && (WasRefunded(b'.payment) <==> WasRefunded(b.payment) || op == Refunds(i))
  {
    ReachedIsSound(cat, past);
    OneMore(cat, past, op);
    hide Reached, Apply, AcceptsByTransfer;
    StepKeepsPaid(cat, Reached(cat, past), op, i);
  }

  lemma StepKeepsPaid(cat: Catalogue, db: Db, op: Operation, i: nat)
    requires Sound(cat, db) && Deployed(op) && i < |db.bookings|
    requires var b := db.bookings[i]; b.order.None? && (ReadyToStart(b) <==> !WasRefunded(b.payment))
    ensures i < |Apply(cat, db, op).bookings|
    ensures var b, b' := db.bookings[i], Apply(cat, db, op).bookings[i];
            (ReadyToStart(b') <==> !WasRefunded(b'.payment))
            && (WasRefunded(b'.payment) <==> WasRefunded(b.payment) || op == Refunds(i))
  {
    hide Invariant, Apply, AcceptsByTransfer;
    StepIsSafe(cat, db, op);
    assert BookingEvolves(db.bookings[i], Apply(cat, db, op).bookings[i]);
    StepRefunds(cat, db, op, i);
    if ReadyToStart(db.bookings[i]) {
      TransfersNeedQuotes(db, op, i);
      StepLetsRest(cat, db, op, i);
      PaidIsRefunded(cat, db, i);
    }
  }

  lemma TransfersNeedQuotes(db: Db, op: Operation, i: nat)
    requires i < |db.bookings|
    ensures AcceptsByTransfer(db, op, i) ==> db.bookings[i].status == QuoteSent
  {
    if AcceptsByTransfer(db, op, i) {
      var d := op.booking;
      QuotedOnly(db, d.customer, d.e, d.decision, i);
    }
  }
}
