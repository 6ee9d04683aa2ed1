// What makes a row change, read off the rows before the call: for every new status of a booking, a package
// booking or an event, the calls and sweeps that lead to it and the conditions they meet. Nothing here refers to
// the operations themselves; that they do exactly this is proved in Transitions.
module Causes {
  import opened Wrappers
  import opened Marketplace
  import opened Pricing
  import opened Lifecycle
  import opened Runs
  import Quotes

  // ----- rows ------------------------------------------------------------------------------------------------

  predicate Has(p: Option<Payment>, status: PaymentStatus) {
    p.Some? && p.value.status == status
  }

  predicate Sent(b: Booking) {
    b.status == Pending || b.status == QuoteSent
  }

  predicate Undecided(b: Booking) {
    Sent(b) || b.status == Confirmed
  }

  // Somebody still has to answer, or to pay.
  predicate Waits(b: Booking) {
    Sent(b) || (b.status == Confirmed && !Has(b.payment, Paid))
  }

  predicate Child(db: Db, i: nat, o: nat) {
    i < |db.bookings| && o < |db.orders| && db.bookings[i].order == Some(o)
  }

  predicate OwnedBy(db: Db, o: nat, provider: nat) {
    && o < |db.orders| && db.orders[o].package < |db.packages|
    && db.packages[db.orders[o].package].owner == provider
  }

  predicate OrderedBy(db: Db, o: nat, customer: nat) {
    o < |db.orders| && db.orders[o].customer == customer
  }

  // The minute at which the sweepers take an event to be over: the hours of the clock decide whether it ends
  // on the next day.
  function TakenToEnd(ev: Event): Time {
    ev.day * 1440 + ev.end + (if ev.end / 60 < ev.start / 60 then 1440 else 0)
  }

  // ----- calls that stand ------------------------------------------------------------------------------------

  // A customer's answer to quotes of one event: no quote both accepted and rejected, every one of them sent.
  predicate DecisionStands(db: Db, customer: nat, e: nat, d: Decision) {
    && (d.accepted != [] || d.rejected != [])
    && (d.accepted != [] ==> d.channel.Some?)
    && (forall x | x in d.accepted :: x !in d.rejected)
    && e < |db.events| && db.events[e].customer == customer
    && (forall x | x in d.accepted + d.rejected ::
          x < |db.bookings| && db.bookings[x].event == e && db.bookings[x].status == QuoteSent)
  }

  // An event can be called off while it is not over, has bookings, and none of them runs, is over, or is
  // confirmed and paid.
  predicate CancellationStands(db: Db, customer: nat, e: nat) {
    && e < |db.events| && db.events[e].customer == customer
    && (db.events[e].status == EvDraft || db.events[e].status == EvInProgress)
    && (exists i | 0 <= i < |db.bookings| :: db.bookings[i].event == e)
    && (forall i | 0 <= i < |db.bookings| :: db.bookings[i].event == e ==>
          db.bookings[i].status != InProgress && db.bookings[i].status != BookingStatus.Completed
          && !(db.bookings[i].status == Confirmed && Has(db.bookings[i].payment, Paid)))
  }

  predicate CancelsEvent(db: Db, op: Operation, e: nat) {
    && op.OnBooking? && op.booking.DoCancelEvent? && op.booking.e == e
    && CancellationStands(db, op.booking.customer, e)
  }

  predicate AcceptsQuote(db: Db, op: Operation, i: nat, channel: Channel) {
    && op.OnBooking? && op.booking.DoBulkDecision?
    && op.booking.decision.channel == Some(channel) && i in op.booking.decision.accepted
    && DecisionStands(db, op.booking.customer, op.booking.e, op.booking.decision)
  }

  // The quoted lines price each item once, or, for a booking without items, an amount is named.
  predicate QuoteStands(b: Booking, lines: seq<Quotes.Line>, amount: Option<nat>) {
    if b.items == [] then amount.Some?
    else multiset(Quotes.LineIds(lines)) == multiset(Quotes.Ids(b.items))
  }

  predicate CreatesPayment(db: Db, op: PaymentOp, i: nat) {
    && op.DoCreatePayment? && op.b == i < |db.bookings| && db.bookings[i].customer == op.customer
    && db.bookings[i].status == Confirmed && db.bookings[i].payment.None?
  }

  // The call records the booking's own payment as paid.
  predicate TakesMoney(db: Db, op: PaymentOp, i: nat) {
    && i < |db.bookings|
    && match op
       case DoCreatePayment(_, _, channel, _, answer, _) =>
         CreatesPayment(db, op, i) && channel == BankTransfer && answer == Charged
       case DoConfirmPayment(user, ref, verified, _) =>
         ref == BookingPayment(i) && verified && db.bookings[i].customer == user
         && AwaitsCard(db.bookings[i].payment)
       case DoMarkCashPaid(provider, b, _) =>
         b == i && db.bookings[i].provider == provider && db.bookings[i].payment.Some?
         && db.bookings[i].payment.value.channel == Cash
         && (db.bookings[i].payment.value.status == PayPending || db.bookings[i].payment.value.status == PayProcessing)
       case DoRefund(_) => false
  }

  predicate IsCorrected(op: PaymentOp) {
    match op
    case DoCreatePayment(_, _, _, _, _, corrected) => corrected
    case DoConfirmPayment(_, _, _, corrected) => corrected
    case DoMarkCashPaid(_, _, corrected) => corrected
    case DoRefund(_) => false
  }

  // The call records the package booking's payment as paid and starts it.
  predicate PaysOrder(db: Db, op: OrderOp, o: nat) {
    && o < |db.orders|
    && match op
       case DoPayOrder(customer, o', channel, intent) =>
         o' == o && OrderedBy(db, o, customer) && db.orders[o].status == OrdPendingPayment
         && !Has(db.orders[o].payment, Paid) && channel == BankTransfer && !intent
       case DoConfirmOrderCash(provider, o') =>
         o' == o && OwnedBy(db, o, provider) && db.orders[o].status == OrdPendingPayment
         && db.orders[o].payment.Some? && db.orders[o].payment.value.channel == Cash
         && db.orders[o].payment.value.status == PayProcessing
       case DoConfirmOrderCard(customer, o', verified) =>
         o' == o && OrderedBy(db, o, customer) && AwaitsCard(db.orders[o].payment) && verified
       case _ => false
  }

  // With booking j paid, no child of package booking o waits any more.
  predicate LastToWait(db: Db, j: nat, o: nat) {
    && Child(db, j, o) && !Sent(db.bookings[j])
    && (forall i | 0 <= i < |db.bookings| :: i != j && db.bookings[i].order == Some(o) ==> !Waits(db.bookings[i]))
  }

  // ... and one is confirmed and can start.
  predicate SomeCanStart(db: Db, j: nat, o: nat) {
    exists i | 0 <= i < |db.bookings| ::
      db.bookings[i].order == Some(o) && db.bookings[i].status == Confirmed
      && (i == j || Has(db.bookings[i].payment, Paid))
  }

  predicate PaysLastChild(db: Db, op: PaymentOp, o: nat) {
    && o < |db.orders| && db.orders[o].status == OrdPendingPayment
    && exists j | 0 <= j < |db.bookings| :: TakesMoney(db, op, j) && LastToWait(db, j, o) && SomeCanStart(db, j, o)
  }

  predicate FailsPayment(db: Db, op: PaymentOp, i: nat) {
    && op.DoConfirmPayment? && op.ref == BookingPayment(i) && !op.verified && i < |db.bookings|
    && db.bookings[i].customer == op.user && AwaitsCard(db.bookings[i].payment)
  }

  predicate HandsBack(db: Db, op: PaymentOp, i: nat) {
    op == DoRefund(BookingPayment(i)) && i < |db.bookings| && Has(db.bookings[i].payment, Paid)
  }

  // ----- sweeps ----------------------------------------------------------------------------------------------

  predicate SweepsEvent(db: Db, op: Operation, e: nat) {
    && op.OnSweep? && op.sweep.DoSweepEvents? && e < |db.events| && db.events[e].status == EvInProgress
    && db.events[e].day * 1440 <= op.sweep.now && TakenToEnd(db.events[e]) <= op.sweep.now
  }

  predicate SweepsOrder(db: Db, op: Operation, kind: OrderSweep, o: nat) {
    && op.OnSweep? && op.sweep.DoSweepOrders? && op.sweep.kind == kind && o < |db.orders|
    && match kind
       case ExpirePending =>
         db.orders[o].status == OrdPending && db.orders[o].pendingExpires.Some?
         && db.orders[o].pendingExpires.value < op.sweep.now
       case ExpireUnpaid =>
         db.orders[o].status == OrdPendingPayment && db.orders[o].paymentExpires.Some?
         && db.orders[o].paymentExpires.value < op.sweep.now && !Has(db.orders[o].payment, Paid)
       case CompleteFinished =>
         db.orders[o].status == OrdInProgress && db.orders[o].event < |db.events|
         && TakenToEnd(db.events[db.orders[o].event]) <= op.sweep.now
  }

  // ----- bookings --------------------------------------------------------------------------------------------

  predicate BecomesQuoted(db: Db, op: Operation, i: nat)
    requires i < |db.bookings|
  {
    var b := db.bookings[i];
    && op.OnBooking? && op.booking.DoSendQuote? && op.booking.b == i
    && b.provider == op.booking.provider && b.status == Pending
    && QuoteStands(b, op.booking.lines, op.booking.amount)
  }

  predicate BecomesConfirmed(db: Db, op: Operation, i: nat)
    requires i < |db.bookings|
  {
    var b := db.bookings[i];
    || (&& op.OnBooking? && op.booking.DoConfirmQuote? && op.booking.b == i
        && b.customer == op.booking.customer && b.status == QuoteSent)
    || AcceptsQuote(db, op, i, Cash)
    || (&& op.OnOrder? && op.order.DoAcceptOrder? && Child(db, i, op.order.o) && b.status == Pending
        && OwnedBy(db, op.order.o, op.order.provider) && db.orders[op.order.o].status == OrdPending)
  }

  predicate BecomesRejected(db: Db, op: Operation, i: nat)
    requires i < |db.bookings|
  {
    && op.OnBooking? && op.booking.DoRejectBooking? && op.booking.b == i
    && db.bookings[i].provider == op.booking.provider && db.bookings[i].status == Pending
  }

  predicate BecomesRunning(db: Db, op: Operation, i: nat)
    requires i < |db.bookings|
  {
    var b := db.bookings[i];
    || AcceptsQuote(db, op, i, BankTransfer)
    || (&& op.OnOrder? && b.status == Confirmed && Child(db, i, op.order.o) && PaysOrder(db, op.order, op.order.o))
    || (&& op.OnPayment? && b.status == Confirmed && b.order.Some? && PaysLastChild(db, op.payment, b.order.value)
        && (TakesMoney(db, op.payment, i) || Has(b.payment, Paid)))
    || (&& op.OnPayment? && b.status == Confirmed && b.order.None? && TakesMoney(db, op.payment, i)
        && IsCorrected(op.payment))
  }

  predicate BecomesDone(db: Db, op: Operation, i: nat)
    requires i < |db.bookings|
  {
    var b := db.bookings[i];
    b.status == InProgress
    && (|| (op.OnBooking? && op.booking.DoCompleteBooking? && op.booking.b == i && b.provider == op.booking.provider)
        || SweepsEvent(db, op, b.event)
        || (b.order.Some? && CompletesOrder(db, op, b.order.value)))
  }

  predicate BecomesCancelled(db: Db, op: Operation, i: nat)
    requires i < |db.bookings|
  {
    var b := db.bookings[i];
    || (&& op.OnBooking? && op.booking.DoRejectQuote? && op.booking.b == i
        && b.customer == op.booking.customer && b.status == QuoteSent)
    || (&& op.OnBooking? && op.booking.DoBulkDecision? && i in op.booking.decision.rejected
        && DecisionStands(db, op.booking.customer, op.booking.e, op.booking.decision))
    || (Undecided(b) && CancelsEvent(db, op, b.event))
    || (Undecided(b) && LosesToSweep(b, op))
    || (Sent(b) && SweepsEvent(db, op, b.event))
    || (b.order.Some? && LosesToOrder(db, op, b, b.order.value))
  }

  // Past its deadline, and not confirmed and paid.
  predicate LosesToSweep(b: Booking, op: Operation) {
    && op.OnSweep? && op.sweep.DoSweepBookings? && b.deadline.Some? && b.deadline.value <= op.sweep.now
    && !(b.status == Confirmed && Has(b.payment, Paid))
  }

  // The package booking is called off; only a rejection and the sweep of unpaid ones reach running children.
  predicate LosesToOrder(db: Db, op: Operation, b: Booking, o: nat) {
    || ((b.status == Pending || b.status == Confirmed) &&
        (CancelsOrder(db, op, o) || SweepsOrder(db, op, ExpirePending, o)))
    || ((b.status == Pending || b.status == Confirmed || b.status == InProgress) &&
        (RejectsOrder(db, op, o) || SweepsOrder(db, op, ExpireUnpaid, o)))
  }

  // ----- what else is written in a booking's row -------------------------------------------------------------

  // A quote and a confirmation set the clock, an accepted transfer and a payment that arrives stop it.
  function DeadlineAfter(db: Db, op: Operation, i: nat): Option<Time>
    requires i < |db.bookings|
  {
    if BecomesQuoted(db, op, i) then Some(op.booking.now + 24 * 60)
    else if op.OnBooking? && BecomesConfirmed(db, op, i) then Some(op.booking.now + 48 * 60)
    else if AcceptsQuote(db, op, i, BankTransfer) || (op.OnPayment? && TakesMoney(db, op.payment, i)) then None
    else db.bookings[i].deadline
  }

  // Every item is priced by the line that names it.
  predicate PricedBy(b: Booking, b': Booking, lines: seq<Quotes.Line>, amount: Option<nat>) {
    && |b'.items| == |b.items|
    && (forall j | 0 <= j < |b.items| ::
          b'.items[j] == b.items[j].(finalUnit := b'.items[j].finalUnit, finalTotal := b'.items[j].finalTotal))
    && (forall j, k | 0 <= j < |b.items| && 0 <= k < |lines| :: lines[k].item == b.items[j].id ==>
          b'.items[j].finalUnit == Some(lines[k].unit)
          && b'.items[j].finalTotal == Some(lines[k].unit * b.items[j].quantity))
    && b'.finalAmount == if b.items == [] then amount else Some(Quotes.FinalTotals(b'.items))
  }

  predicate NearestCent(n: int, x: real) {
    n as real - 0.5 <= x < n as real + 0.5
  }

  // A service discount is for bookings outside packages: a child of a package booking is asked for all it costs.
  predicate SplitOf(p: Payment, b: Booking, discount: Option<Percent>) {
    && p.subtotal == Owed(b) && p.amount == p.subtotal - p.discount
    && if b.order.None? && discount.Some? then NearestCent(p.discount, Owed(b) as real * (discount.value / 100.0))
       else p.discount == 0
  }

  predicate Created(p: Payment, b: Booking, channel: Channel, discount: Option<Percent>, answer: Gateway) {
    && SplitOf(p, b, discount) && p.channel == channel
    && p.status == (if channel == Cash then PayPending
                    else match answer
                      case IntentCreated => PayProcessing
                      case Charged => Paid
                      case Declined => PayFailed)
    && (p.intent <==> channel == BankTransfer && answer == IntentCreated)
  }

  predicate PaymentWritten(db: Db, op: Operation, i: nat, p: Option<Payment>)
    requires i < |db.bookings|
  {
    var b := db.bookings[i];
    if op.OnPayment? && CreatesPayment(db, op.payment, i) then
      p.Some? && Created(p.value, b, op.payment.channel, op.payment.discount, op.payment.answer)
    else if AcceptsQuote(db, op, i, Cash) then p == Some(Payment(Cash, PayProcessing, Owed(b), Owed(b), 0, false))
    else if AcceptsQuote(db, op, i, BankTransfer) then p == Some(Payment(BankTransfer, Paid, Owed(b), Owed(b), 0, true))
    else if op.OnPayment? && b.payment.Some? && TakesMoney(db, op.payment, i) then
      p == Some(b.payment.value.(status := Paid))
    else if op.OnPayment? && b.payment.Some? && FailsPayment(db, op.payment, i) then
      p == Some(b.payment.value.(status := PayFailed))
    else if op.OnPayment? && b.payment.Some? && HandsBack(db, op.payment, i) then
      p == Some(b.payment.value.(status := Refunded))
    else p == b.payment
  }

  // ----- package bookings ------------------------------------------------------------------------------------

  predicate AcceptsOrder(db: Db, op: Operation, o: nat) {
    && op.OnOrder? && op.order.DoAcceptOrder? && op.order.o == o && OwnedBy(db, o, op.order.provider)
    && db.orders[o].status == OrdPending
  }

  predicate StartsOrder(db: Db, op: Operation, o: nat) {
    (op.OnOrder? && PaysOrder(db, op.order, o)) || (op.OnPayment? && PaysLastChild(db, op.payment, o))
  }

  predicate CompletesOrder(db: Db, op: Operation, o: nat) {
    || (&& op.OnOrder? && op.order.DoCompleteOrder? && op.order.o == o && OwnedBy(db, o, op.order.provider)
        && db.orders[o].status == OrdInProgress)
    || SweepsOrder(db, op, CompleteFinished, o)
  }

  predicate RejectsOrder(db: Db, op: Operation, o: nat) {
    && op.OnOrder? && op.order.DoRejectOrder? && op.order.o == o && OwnedBy(db, o, op.order.provider)
    && (db.orders[o].status == OrdPending || db.orders[o].status == OrdPendingPayment)
  }

  predicate CancelsOrder(db: Db, op: Operation, o: nat) {
    && op.OnOrder? && op.order.DoCancelOrder? && op.order.o == o && OrderedBy(db, o, op.order.customer)
    && (db.orders[o].status == OrdPending
        || (db.orders[o].status == OrdPendingPayment && !Has(db.orders[o].payment, Paid)))
  }

  // ----- what else is written in a package booking's row -----------------------------------------------------

  function Marked(p: Option<Payment>, status: PaymentStatus): Option<Payment> {
    if p.Some? then Some(p.value.(status := status)) else None
  }

  // The customer chooses how to pay an accepted package booking that is not paid.
  predicate ChoosesPayment(db: Db, op: Operation, o: nat) {
    && op.OnOrder? && op.order.DoPayOrder? && op.order.o == o && OrderedBy(db, o, op.order.customer)
    && db.orders[o].status == OrdPendingPayment && !Has(db.orders[o].payment, Paid)
  }

  // The gateway's answer, asked for at the package endpoint or at the one for all payments.
  predicate GatewayAnswers(db: Db, op: Operation, o: nat, verified: bool) {
    && o < |db.orders| && AwaitsCard(db.orders[o].payment)
    && (|| (op.OnOrder? && op.order == DoConfirmOrderCard(db.orders[o].customer, o, verified))
        || (op.OnPayment? && op.payment.DoConfirmPayment? && op.payment.ref == OrderPayment(o)
            && op.payment.user == db.orders[o].customer && op.payment.verified == verified))
  }

  function Chosen(p: Payment, channel: Channel, intentCreated: bool): Payment {
    match channel
    case Cash => p.(channel := Cash, status := PayProcessing)
    case BankTransfer =>
      p.(channel := BankTransfer, status := if intentCreated then PayProcessing else Paid, intent := true)
  }

  function OrderPaymentAfter(db: Db, op: Operation, o: nat): Option<Payment>
    requires o < |db.orders|
  {
    var order := db.orders[o];
    if AcceptsOrder(db, op, o) then Some(Payment(Cash, PayPending, order.total, order.total, 0, false))
    else if ChoosesPayment(db, op, o) && order.payment.Some? then
      Some(Chosen(order.payment.value, op.order.channel, op.order.intentCreated))
    else if op.OnOrder? && op.order.DoConfirmOrderCash? && PaysOrder(db, op.order, o) then Marked(order.payment, Paid)
    else if GatewayAnswers(db, op, o, true) then Marked(order.payment, Paid)
    else if GatewayAnswers(db, op, o, false) then Marked(order.payment, PayFailed)
    else if op.OnPayment? && op.payment == DoRefund(OrderPayment(o)) && Has(order.payment, Paid) then
      Marked(order.payment, Refunded)
    else if CancelsOrder(db, op, o) || SweepsOrder(db, op, ExpireUnpaid, o) then Marked(order.payment, PayCancelled)
    else order.payment
  }

  function PaymentDeadlineAfter(db: Db, op: Operation, o: nat): Option<Time>
    requires o < |db.orders|
  {
    if AcceptsOrder(db, op, o) then Some(op.order.now + 24 * 60) else db.orders[o].paymentExpires
  }

  // ----- events ----------------------------------------------------------------------------------------------

  // Bookings of the event other than i are all over, or some of them still waits for an answer.
  predicate OthersOver(db: Db, e: nat, i: nat) {
    forall j | 0 <= j < |db.bookings| :: j != i && db.bookings[j].event == e ==>
      db.bookings[j].status == Cancelled || db.bookings[j].status == Rejected
      || db.bookings[j].status == BookingStatus.Completed
  }

  predicate OtherSent(db: Db, e: nat, i: nat) {
    exists j | 0 <= j < |db.bookings| :: j != i && db.bookings[j].event == e && Sent(db.bookings[j])
  }

  predicate RejectsQuoteOf(db: Db, op: Operation, e: nat) {
    && op.OnBooking? && op.booking.DoRejectQuote? && op.booking.b < |db.bookings|
    && db.bookings[op.booking.b].event == e && db.bookings[op.booking.b].customer == op.booking.customer
    && db.bookings[op.booking.b].status == QuoteSent
  }

  // The decision rejects what is left: every booking of the event is rejected by it or was called off before.
  predicate RejectsTheRest(db: Db, op: Operation, e: nat) {
    && op.OnBooking? && op.booking.DoBulkDecision? && op.booking.e == e && op.booking.decision.accepted == []
    && DecisionStands(db, op.booking.customer, e, op.booking.decision)
    && forall j | 0 <= j < |db.bookings| :: db.bookings[j].event == e ==>
         j in op.booking.decision.rejected || db.bookings[j].status == Cancelled || db.bookings[j].status == Rejected
  }

  predicate EventCalledOff(db: Db, op: Operation, e: nat)
    requires e < |db.events|
  {
    || CancelsEvent(db, op, e)
    || (RejectsQuoteOf(db, op, e) && OthersOver(db, e, op.booking.b))
    || RejectsTheRest(db, op, e)
  }

  predicate EventReopens(db: Db, op: Operation, e: nat)
    requires e < |db.events|
  {
    RejectsQuoteOf(db, op, e) && !OthersOver(db, e, op.booking.b) && OtherSent(db, e, op.booking.b)
  }

  predicate EventOver(db: Db, op: Operation, e: nat)
    requires e < |db.events|
  {
    SweepsEvent(db, op, e)
    || exists o | 0 <= o < |db.orders| :: db.orders[o].event == e && CompletesOrder(db, op, o)
  }

  // A package payment puts the event under way whatever its status, all else only if it is a draft.
  predicate EventStarts(db: Db, op: Operation, e: nat)
    requires e < |db.events|
  {
    || (exists o | 0 <= o < |db.orders| :: db.orders[o].event == e && op.OnOrder? && PaysOrder(db, op.order, o))
    || (db.events[e].status == EvDraft && exists i | 0 <= i < |db.bookings| ::
          db.bookings[i].event == e && BecomesRunning(db, op, i))
  }

  // ----- which operations cause what -------------------------------------------------------------------------

  lemma CausesAmongBookingOps(db: Db, op: BookingOp, i: nat)
    requires i < |db.bookings|
    ensures BecomesQuoted(db, OnBooking(op), i) ==> op.DoSendQuote?
    ensures BecomesConfirmed(db, OnBooking(op), i) ==> op.DoConfirmQuote? || op.DoBulkDecision?
    ensures BecomesRejected(db, OnBooking(op), i) ==> op.DoRejectBooking?
    ensures BecomesRunning(db, OnBooking(op), i) ==> op.DoBulkDecision?
    ensures BecomesDone(db, OnBooking(op), i) ==> op.DoCompleteBooking?
    ensures BecomesCancelled(db, OnBooking(op), i) ==> op.DoRejectQuote? || op.DoBulkDecision? || op.DoCancelEvent?
  {
    hide DecisionStands, CancellationStands;
  }

  lemma CausesElsewhere(db: Db, op: Operation, i: nat)
    requires i < |db.bookings|
    ensures BecomesQuoted(db, op, i) || BecomesRejected(db, op, i) ==> op.OnBooking?
    ensures BecomesConfirmed(db, op, i) ==> op.OnBooking? || (op.OnOrder? && op.order.DoAcceptOrder?)
    ensures BecomesRunning(db, op, i) ==> op.OnBooking? || op.OnPayment? || op.OnOrder?
    ensures BecomesDone(db, op, i) ==> op.OnBooking? || op.OnSweep? || (op.OnOrder? && op.order.DoCompleteOrder?)
    ensures BecomesCancelled(db, op, i) ==>
              op.OnBooking? || op.OnSweep? || (op.OnOrder? && (op.order.DoRejectOrder? || op.order.DoCancelOrder?))
  {
    hide DecisionStands, CancellationStands;
  }

  lemma OrderCausesElsewhere(db: Db, op: Operation, o: nat)
    requires !op.OnOrder?
    ensures !AcceptsOrder(db, op, o) && !RejectsOrder(db, op, o) && !CancelsOrder(db, op, o)
    ensures StartsOrder(db, op, o) ==> op.OnPayment?
    ensures CompletesOrder(db, op, o) ==> op.OnSweep?
    ensures forall kind: OrderSweep :: SweepsOrder(db, op, kind, o) ==> op.OnSweep?
    ensures !ChoosesPayment(db, op, o)
    ensures !op.OnPayment? ==> !GatewayAnswers(db, op, o, true) && !GatewayAnswers(db, op, o, false)
  {
  }
}
