// The other columns of a booking: no operation writes its deadline, its quote or its payment but in the way that
// Causes lists.
module Columns {
  import opened Wrappers
  import opened Marketplace
  import opened Pricing
  import opened Lifecycle
  import opened Causes
  import opened Safety
  import opened Progress
  import opened Runs
  import opened Guarantees
  import opened Starting
  import opened Transitions
  import Quotes

  predicate QuoteWritten(db: Db, op: Operation, i: nat, b': Booking)
    requires i < |db.bookings|
  {
    if BecomesQuoted(db, op, i) then PricedBy(db.bookings[i], b', op.booking.lines, op.booking.amount)
    else b'.items == db.bookings[i].items && b'.finalAmount == db.bookings[i].finalAmount
  }

  predicate Writes(db: Db, db': Db, op: Operation, i: nat)
    requires i < |db.bookings|
  {
    && i < |db'.bookings|
    && db'.bookings[i].deadline == DeadlineAfter(db, op, i)
    && QuoteWritten(db, op, i, db'.bookings[i])
    && PaymentWritten(db, op, i, db'.bookings[i].payment)
  }

  // ----- operations that move a status only ------------------------------------------------------------------

  predicate WritesNothing(db: Db, op: Operation, i: nat)
    requires i < |db.bookings|
  {
    && !BecomesQuoted(db, op, i) && !(op.OnBooking? && BecomesConfirmed(db, op, i)) && !op.OnPayment?
    && !AcceptsQuote(db, op, i, Cash) && !AcceptsQuote(db, op, i, BankTransfer)
  }

  lemma StatusOnly(db: Db, db': Db, op: Operation, i: nat)
    requires i < |db.bookings| && i < |db'.bookings| && WritesNothing(db, op, i)
    requires db'.bookings[i] == db.bookings[i].(status := db'.bookings[i].status)
    ensures Writes(db, db', op, i)
  {
    hide BecomesQuoted, BecomesConfirmed, AcceptsQuote;
  }

  lemma NoWriteElsewhere(db: Db, op: Operation, i: nat)
    requires i < |db.bookings| && !op.OnPayment?
    requires op.OnBooking? ==> !op.booking.DoSendQuote? && !op.booking.DoConfirmQuote? && !op.booking.DoBulkDecision?
    ensures WritesNothing(db, op, i)
  {
    hide DecisionStands;
  }

  lemma OrderOpKeepsColumns(db: Db, op: OrderOp, i: nat)
    requires i < |db.bookings|
    ensures var db' := After(ExecuteOrder(db, op), db);
            |db'.bookings| == |db.bookings| && db'.bookings[i] == db.bookings[i].(status := db'.bookings[i].status)
  {
    hide OwnedOrder, CustomersOrder, CheckIntent, WithPayment;
  }

  lemma SweepOpKeepsColumns(db: Db, op: SweepOp, i: nat)
    requires Invariant(db) && i < |db.bookings|
    ensures var db' := After(ExecuteSweep(db, op), db);
            |db'.bookings| == |db.bookings| && db'.bookings[i] == db.bookings[i].(status := db'.bookings[i].status)
  {
    hide Invariant, SweepEvents, SweepOrders, SweepsOrder, Due, ChildAfterSweep;
    EventsInPlace(db, i);
    match op
    case DoSweepBookings(now) =>
    case DoSweepEvents(now) => EventSweepIsExact(db, now, |db.events|);
    case DoSweepOrders(kind, now) => SweptChild(db, kind, now, i);
  }

  lemma OneRowKeepsColumns(db: Db, op: BookingOp, i: nat)
    requires i < |db.bookings|
    requires op.DoRejectBooking? || op.DoCompleteBooking? || op.DoRejectQuote? || op.DoCancelEvent?
    ensures var db' := After(ExecuteBooking(db, op), db);
            |db'.bookings| == |db.bookings| && db'.bookings[i] == db.bookings[i].(status := db'.bookings[i].status)
  {
  }

  // ----- quotes and decisions --------------------------------------------------------------------------------

  lemma LinesPriceItems(items: seq<Item>, lines: seq<Quotes.Line>)
    requires Quotes.Acceptable(items, lines)
    ensures forall j, k :: 0 <= j < |items| && 0 <= k < |lines| && lines[k].item == items[j].id ==>
              Quotes.QuotedItems(items, lines)[j]
              == items[j].(finalUnit := Some(lines[k].unit), finalTotal := Some(lines[k].unit * items[j].quantity))
  {
    forall k | 0 <= k < |lines| ensures Quotes.UnitFor(lines, lines[k].item) == lines[k].unit {
      Quotes.UnitOfLine(lines, k);
    }
  }

  lemma QuotedRowIsPriced(b: Booking, b': Booking, lines: seq<Quotes.Line>, amount: Option<nat>)
    requires if b.items == [] then b'.items == [] && b'.finalAmount == amount
             else Quotes.Acceptable(b.items, lines) && b'.items == Quotes.QuotedItems(b.items, lines)
                  && b'.finalAmount == Some(Quotes.FinalTotals(b'.items))
    ensures PricedBy(b, b', lines, amount)
  {
    hide Quotes.FinalTotals, Quotes.Acceptable;
    if b.items != [] {
      LinesPriceItems(b.items, lines);
    }
  }

  lemma SentQuote(db: Db, provider: nat, b: nat, lines: seq<Quotes.Line>, amount: Option<nat>, now: Time)
    requires Invariant(db) && b < |db.bookings|
    ensures var r := SendQuote(db, provider, b, lines, amount, now);
            var stands := BecomesQuoted(db, OnBooking(DoSendQuote(provider, b, lines, amount, now)), b);
            && (r.Success? <==> stands)
            && (stands ==> |r.value.bookings| == |db.bookings|
                           && r.value.bookings == db.bookings[b := r.value.bookings[b]]
                           && r.value.bookings[b].deadline == Some(now + 24 * 60)
                           && r.value.bookings[b].payment == db.bookings[b].payment
                           && PricedBy(db.bookings[b], r.value.bookings[b], lines, amount))
  {
    hide Invariant, BookingOk, Quotes.Acceptable, Quotes.FinalTotals, Quotes.QuotedItems, Quotes.LineIds, Quotes.Ids,
         PricedBy;
    BookingInPlace(db, b);
    var row := db.bookings[b];
    if row.items != [] {
      QuoteStandsIff(db, row, lines);
    }
    if SendQuote(db, provider, b, lines, amount, now).Success? {
      QuotedRowIsPriced(row, SendQuote(db, provider, b, lines, amount, now).value.bookings[b], lines, amount);
    }
  }

  lemma BookingInPlace(db: Db, b: nat)
    requires Invariant(db) && b < |db.bookings|
    ensures BookingOk(db, db.bookings[b])
  {
  }

  lemma SendQuoteWrites(db: Db, provider: nat, b: nat, lines: seq<Quotes.Line>, amount: Option<nat>, now: Time, i: nat)
    requires Invariant(db) && i < |db.bookings|
    ensures Writes(db, After(SendQuote(db, provider, b, lines, amount, now), db),
                   OnBooking(DoSendQuote(provider, b, lines, amount, now)), i)
  {
    hide Invariant, SendQuote, PricedBy, BecomesQuoted, BecomesConfirmed;
    CausesAmongBookingOps(db, DoSendQuote(provider, b, lines, amount, now), i);
    if b < |db.bookings| {
      SentQuote(db, provider, b, lines, amount, now);
    } else {
      NoSuchBooking(db, provider, b, lines, amount, now);
    }
    OnlyOneIsQuoted(db, DoSendQuote(provider, b, lines, amount, now), i);
  }

  lemma NoSuchBooking(db: Db, provider: nat, b: nat, lines: seq<Quotes.Line>, amount: Option<nat>, now: Time)
    requires b >= |db.bookings|
    ensures SendQuote(db, provider, b, lines, amount, now).Failure?
  {
  }

  lemma OnlyOneIsQuoted(db: Db, op: BookingOp, i: nat)
    requires i < |db.bookings| && op.DoSendQuote?
    ensures BecomesQuoted(db, OnBooking(op), i) ==> i == op.b
  {
  }

  lemma ConfirmQuoteWrites(db: Db, customer: nat, b: nat, now: Time, i: nat)
    requires Invariant(db) && i < |db.bookings|
    ensures Writes(db, After(ConfirmQuote(db, customer, b, now), db), OnBooking(DoConfirmQuote(customer, b, now)), i)
  {
    hide ConfirmQuote, Invariant, BecomesQuoted, BecomesRejected, BecomesRunning, BecomesDone, BecomesCancelled,
         DecisionStands;
    ConfirmedAlone(db, customer, b, now);
    CausesAmongBookingOps(db, DoConfirmQuote(customer, b, now), i);
  }

  lemma BulkDecisionWrites(db: Db, customer: nat, e: nat, d: Decision, now: Time, i: nat)
    requires Invariant(db) && i < |db.bookings|
    ensures Writes(db, After(BulkDecision(db, customer, e, d, now), db), OnBooking(DoBulkDecision(customer, e, d, now)),
                   i)
  {
    hide BecomesQuoted, BecomesRejected, BecomesDone, BecomesRunning, BecomesCancelled, DecisionStands, BulkDecision,
         Invariant;
    CausesAmongBookingOps(db, DoBulkDecision(customer, e, d, now), i);
    DecisionHasChannel(db, customer, e, d, i);
    BulkDecisionRow(db, customer, e, d, now, i);
  }

  lemma BookingOpWrites(db: Db, op: BookingOp, i: nat)
    requires Invariant(db) && i < |db.bookings|
    ensures Writes(db, After(ExecuteBooking(db, op), db), OnBooking(op), i)
  {
    hide Writes, Invariant, SendQuote, RejectBooking, CompleteBooking, RejectQuote, BulkDecision, ConfirmQuote,
         CancelEvent, WritesNothing;
    match op
    case DoSendQuote(p, b, lines, amount, now) => SendQuoteWrites(db, p, b, lines, amount, now, i);
    case DoConfirmQuote(c, b, now) => ConfirmQuoteWrites(db, c, b, now, i);
    case DoBulkDecision(c, e, d, now) => BulkDecisionWrites(db, c, e, d, now, i);
    case _ =>
      NoWriteElsewhere(db, OnBooking(op), i);
      OneRowKeepsColumns(db, op, i);
      StatusOnly(db, After(ExecuteBooking(db, op), db), OnBooking(op), i);
  }

  // ----- payments --------------------------------------------------------------------------------------------

  lemma NewPaymentSplits(b: Booking, channel: Channel, discount: Option<Percent>, status: PaymentStatus, intent: bool)
    ensures var p := NewPayment(b, channel, discount, status, intent);
            SplitOf(p, b, discount) && p.channel == channel && p.status == status && p.intent == intent
  {
    var applied := if b.order.None? then discount else None;
    PriceSplitsExactly(Owed(b), applied);
  }

  lemma NewPaymentIsCreated(db: Db, op: PaymentOp, i: nat)
    requires CreatesPayment(db, op, i) && !TakesMoney(db, op, i)
    ensures var r := After(ExecutePayment(db, op), db).bookings;
            && |r| == |db.bookings| && r[i].payment.Some?
            && Created(r[i].payment.value, db.bookings[i], op.channel, op.discount, op.answer)
  {
    hide MarkPaid, NewPayment, SplitOf;
    var status := if op.channel == Cash then PayPending else if op.answer == Declined then PayFailed else PayProcessing;
    NewPaymentSplits(db.bookings[i], op.channel, op.discount, status,
                     op.channel == BankTransfer && op.answer == IntentCreated);
  }

  lemma OtherPayments(db: Db, op: PaymentOp, i: nat)
    requires i < |db.bookings| && !CreatesPayment(db, op, i)
    requires forall j :: 0 <= j < |db.bookings| ==> !TakesMoney(db, op, j)
    ensures var r := After(ExecutePayment(db, op), db).bookings;
            |r| == |db.bookings| && PaymentWritten(db, OnPayment(op), i, r[i].payment)
  {
    hide MarkPaid, NewPayment;
    match op
    case DoCreatePayment(_, b, _, _, _, _) => assert b < |db.bookings| ==> !TakesMoney(db, op, b);
    case DoConfirmPayment(_, ref, _, _) =>
      assert ref.BookingPayment? && ref.b < |db.bookings| ==> !TakesMoney(db, op, ref.b);
    case DoMarkCashPaid(_, b, _) => assert b < |db.bookings| ==> !TakesMoney(db, op, b);
    case DoRefund(_) =>
  }

  lemma NothingTakenWrites(db: Db, op: PaymentOp, i: nat)
    requires i < |db.bookings| && forall j :: 0 <= j < |db.bookings| ==> !TakesMoney(db, op, j)
    ensures Writes(db, After(ExecutePayment(db, op), db), OnPayment(op), i)
  {
    hide ExecutePayment, TakesMoney, CreatesPayment, Created, BecomesQuoted, BecomesConfirmed, AcceptsQuote;
    CausesElsewhere(db, OnPayment(op), i);
    NoDecision(db, op, i);
    OtherPaymentOps(db, op, i);
    if CreatesPayment(db, op, i) {
      NewPaymentIsCreated(db, op, i);
    } else {
      OtherPayments(db, op, i);
    }
  }

  lemma NoDecision(db: Db, op: PaymentOp, i: nat)
    ensures !AcceptsQuote(db, OnPayment(op), i, Cash) && !AcceptsQuote(db, OnPayment(op), i, BankTransfer)
  {
  }

  lemma TakenPayment(db: Db, op: PaymentOp, j: nat, i: nat)
    requires i < |db.bookings| && TakesMoney(db, op, j)
    ensures var row := if i == j then PaidRow(Opening(db, op, j).bookings[j]) else db.bookings[i];
            PaymentWritten(db, OnPayment(op), i, row.payment)
  {
    hide NewPayment, SplitOf;
    OneBookingIsPaid(db, op);
    if op.DoCreatePayment? {
      var p := NewPayment(db.bookings[j], op.channel, op.discount, PayProcessing, false);
      NewPaymentSplits(db.bookings[j], op.channel, op.discount, PayProcessing, false);
      SplitIgnoresStatus(p, p.(status := Paid), db.bookings[j], op.discount);
    }
  }

  lemma SplitIgnoresStatus(p: Payment, p': Payment, b: Booking, discount: Option<Percent>)
    requires SplitOf(p, b, discount) && p' == p.(status := p'.status)
    ensures SplitOf(p', b, discount)
  {
  }

  lemma TakenWrites(db: Db, op: PaymentOp, j: nat, i: nat)
    requires Invariant(db) && i < |db.bookings| && TakesMoney(db, op, j)
    ensures Writes(db, After(ExecutePayment(db, op), db), OnPayment(op), i)
  {
    hide Invariant, ExecutePayment, MarkPaid, Opening, Starts, TakesMoney, PaymentWritten, BecomesQuoted,
         BecomesConfirmed, AcceptsQuote, NewPayment;
    CausesElsewhere(db, OnPayment(op), i);
    NoDecision(db, op, i);
    OneBookingIsPaid(db, op);
    MoneyIsMarked(db, op, j);
    MarkedRow(db, Opening(db, op, j), j, IsCorrected(op), i);
    TakenPayment(db, op, j, i);
  }

  lemma PaymentOpWrites(db: Db, op: PaymentOp, i: nat)
    requires Invariant(db) && i < |db.bookings|
    ensures Writes(db, After(ExecutePayment(db, op), db), OnPayment(op), i)
  {
    hide Writes, ExecutePayment, TakesMoney, Invariant;
    if j: nat :| j < |db.bookings| && TakesMoney(db, op, j) {
      TakenWrites(db, op, j, i);
    } else {
      NothingTakenWrites(db, op, i);
    }
  }

  // ----- every operation -------------------------------------------------------------------------------------

  lemma StepWrites(cat: Catalogue, db: Db, op: Operation, i: nat)
    requires Invariant(db) && i < |db.bookings|
    ensures Writes(db, Apply(cat, db, op), op, i)
  {
    hide Writes, Invariant, ExecuteAdmission, ExecuteBooking, ExecutePayment, ExecuteOrder, ExecuteSweep, WritesNothing;
    match op
    case OnBooking(b) => BookingOpWrites(db, b, i);
    case OnPayment(p) => PaymentOpWrites(db, p, i);
    case _ =>
      NoWriteElsewhere(db, op, i);
      match op {
        case OnAdmission(a) => AdmissionLeavesRows(cat, db, a, i);
        case OnOrder(q) => OrderOpKeepsColumns(db, q, i);
        case OnSweep(s) => SweepOpKeepsColumns(db, s, i);
        case _ =>
      }
      StatusOnly(db, Apply(cat, db, op), op, i);
  }

  // In every reachable state and for every operation: the deadline of a booking, its quote and its payment
  // change exactly as listed.
  lemma BookingColumnsAreExact(cat: Catalogue, past: seq<Operation>, op: Operation, i: nat)
    requires i < |Reached(cat, past).bookings|
    ensures i < |Reached(cat, past + [op]).bookings|
    ensures var db := Reached(cat, past);
            var b' := Reached(cat, past + [op]).bookings[i];
            && b'.deadline == DeadlineAfter(db, op, i)
            && (if BecomesQuoted(db, op, i) then PricedBy(db.bookings[i], b', op.booking.lines, op.booking.amount)
                else b'.items == db.bookings[i].items && b'.finalAmount == db.bookings[i].finalAmount)
            && PaymentWritten(db, op, i, b'.payment)
  {
    hide Apply;
    ReachedIsSound(cat, past);
    OneMore(cat, past, op);
    hide Reached;
    StepWrites(cat, Reached(cat, past), op, i);
  }

  // ----- what a payment asks for -----------------------------------------------------------------------------

  lemma SplitIsFair(p: Payment, b: Booking, discount: Option<Percent>)
    requires SplitOf(p, b, discount) && b.order.None? && discount.Some?
    ensures -0.5 <= p.amount as real - Owed(b) as real * (1.0 - discount.value / 100.0) <= 0.5
  {
    var owed, q := Owed(b) as real, discount.value / 100.0;
    assert owed * (1.0 - q) == owed - owed * q;
    assert p.amount as real == owed - p.discount as real;
  }

  predicate Asks(p: Option<Payment>, b: Booking, op: PaymentOp)
    requires op.DoCreatePayment?
  {
    && p.Some? && p.value.channel == op.channel && p.value.amount + p.value.discount == Owed(b)
    && (b.order.Some? || op.discount.None? ==> p.value.amount == Owed(b))
    && (b.order.None? && op.discount.Some? ==>
          -0.5 <= p.value.amount as real - Owed(b) as real * (1.0 - op.discount.value / 100.0) <= 0.5)
  }

  lemma CreatedPaymentAsks(db: Db, op: PaymentOp, i: nat, p: Option<Payment>)
    requires op.DoCreatePayment? && CreatesPayment(db, op, i) && PaymentWritten(db, OnPayment(op), i, p)
    ensures Asks(p, db.bookings[i], op)
  {
    if db.bookings[i].order.None? && op.discount.Some? {
      SplitIsFair(p.value, db.bookings[i], op.discount);
    }
  }

  // A payment created outside packages asks for what the booking costs less the discount, to half a cent, and for
  // all of it without a discount; the payment of a package booking's child asks for all of it in any case. It asks
  // for the same ever after.
  lemma ServicePaymentsAreFair(cat: Catalogue, past: seq<Operation>, op: PaymentOp, future: seq<Operation>, i: nat)
    requires i < |Reached(cat, past).bookings|
    requires op.DoCreatePayment? && CreatesPayment(Reached(cat, past), op, i)
    ensures i < |Reached(cat, past + [OnPayment(op)] + future).bookings|
    ensures Asks(Reached(cat, past + [OnPayment(op)] + future).bookings[i].payment, Reached(cat, past).bookings[i], op)
  {
    hide Reached, CreatesPayment, PaymentWritten, Asks;
    BookingColumnsAreExact(cat, past, OnPayment(op), i);
    ReachedEvolves(cat, past + [OnPayment(op)], future);
    var paid := Reached(cat, past + [OnPayment(op)]).bookings[i];
    CreatedPaymentAsks(Reached(cat, past), op, i, paid.payment);
    var later := Reached(cat, past + [OnPayment(op)] + future).bookings[i];
    AskedForTheSame(paid, later, Reached(cat, past).bookings[i], op);
  }

  lemma AskedForTheSame(paid: Booking, b': Booking, b: Booking, op: PaymentOp)
    requires op.DoCreatePayment? && BookingEvolves(paid, b') && Asks(paid.payment, b, op)
    ensures Asks(b'.payment, b, op)
  {
  }
}
