// Every status change of bookings, events, payments and package bookings, one function per service
// call or sweeper row. Each call is one atomic step: it yields the new state or a refusal.
module Lifecycle {
  import opened Wrappers
  import opened Marketplace
  import opened Pricing
  import opened Quotes
  import TimeHelper

  // ----- shared updates ----------------------------------------------------------------------

  datatype Group = OfEvent(e: nat) | OfOrder(o: nat)

  predicate InGroup(b: Booking, g: Group) {
    match g
    case OfEvent(e) => b.event == e
    case OfOrder(o) => b.order == Some(o)
  }

  // updateMany on the status column, restricted to a group and to some current statuses.
  function Move(bs: seq<Booking>, g: Group, from: set<BookingStatus>, to: BookingStatus): (r: seq<Booking>)
    ensures |r| == |bs|
    ensures forall i :: 0 <= i < |bs| ==>
              r[i] == if InGroup(bs[i], g) && bs[i].status in from then bs[i].(status := to) else bs[i]
  {
    seq(|bs|, i requires 0 <= i < |bs| =>
      if InGroup(bs[i], g) && bs[i].status in from then bs[i].(status := to) else bs[i])
  }

  function WithBooking(db: Db, b: nat, row: Booking): Db
    requires b < |db.bookings|
  {
    db.(bookings := db.bookings[b := row])
  }

  function WithEventStatus(db: Db, e: nat, status: EventStatus): Db {
    if e < |db.events| then db.(events := db.events[e := db.events[e].(status := status)]) else db
  }

  function WithOrder(db: Db, o: nat, row: Order): Db
    requires o < |db.orders|
  {
    db.(orders := db.orders[o := row])
  }

  function WithPayment(p: Option<Payment>, status: PaymentStatus): Option<Payment> {
    if p.Some? then Some(p.value.(status := status)) else None
  }

  // ----- progression -----------------------------------------------------------------------------

  // A booking no longer waits for anyone: confirmed and paid, under way, or over.
  predicate Settled(b: Booking) {
    if b.status == Confirmed then IsPaid(b.payment) else Terminal(b.status) || b.status == InProgress
  }

  predicate ReadyToStart(b: Booking) {
    b.status == Confirmed && IsPaid(b.payment)
  }

  predicate CanProgress(bs: seq<Booking>, g: Group) {
    && (forall i | 0 <= i < |bs| :: InGroup(bs[i], g) ==> Settled(bs[i]))
    && (exists i | 0 <= i < |bs| :: InGroup(bs[i], g) && ReadyToStart(bs[i]))
  }

  function StartReady(bs: seq<Booking>, g: Group): (r: seq<Booking>)
    ensures |r| == |bs|
    ensures forall i :: 0 <= i < |bs| ==>
              r[i] == if InGroup(bs[i], g) && ReadyToStart(bs[i]) then bs[i].(status := InProgress) else bs[i]
  {
    seq(|bs|, i requires 0 <= i < |bs| =>
      if InGroup(bs[i], g) && ReadyToStart(bs[i]) then bs[i].(status := InProgress) else bs[i])
  }

  function TryProgressEvent(db: Db, e: nat): Db {
    if !CanProgress(db.bookings, OfEvent(e)) then db
    else WithEventStatus(db.(bookings := StartReady(db.bookings, OfEvent(e))), e, EvInProgress)
  }

  function TryProgressOrder(db: Db, o: nat): Db {
    if o >= |db.orders| then db
    else
      var order := db.orders[o];
      if order.status != OrdConfirmed && order.status != OrdPendingPayment then db
      else if !CanProgress(db.bookings, OfOrder(o)) then db
      else
        var started := db.(bookings := StartReady(db.bookings, OfOrder(o)),
                           orders := db.orders[o := order.(status := OrdInProgress)]);
        if order.event < |db.events| && db.events[order.event].status == EvDraft
        then WithEventStatus(started, order.event, EvInProgress) else started
  }

  function ProgressBookingAndEvent(db: Db, b: nat, e: nat): Db {
    if b >= |db.bookings| || db.bookings[b].status != Confirmed || e >= |db.events| then db
    else
      var started := WithBooking(db, b, db.bookings[b].(status := InProgress));
      if db.events[e].status == EvDraft then WithEventStatus(started, e, EvInProgress) else started
  }

  // progressPackageToInProgress, called once the package's own payment is PAID.
  function StartOrder(db: Db, o: nat): Db
    requires o < |db.orders|
  {
    var order := db.orders[o];
    WithEventStatus(db.(bookings := Move(db.bookings, OfOrder(o), {Confirmed}, InProgress),
                        orders := db.orders[o := order.(status := OrdInProgress)]),
                    order.event, EvInProgress)
  }

  // ----- quotes ------------------------------------------------------------------------------

  function SendQuote(db: Db, provider: nat, b: nat, lines: seq<Line>, amount: Option<nat>, now: Time)
    : Result<Db, Error>
  {
    if b >= |db.bookings| || db.bookings[b].provider != provider then Failure(NotFound)
    else
      var row := db.bookings[b];
      if row.status != Pending then Failure(BadStatus)
      else if |row.items| > 0 && !Acceptable(row.items, lines) then Failure(BadQuote)
      else if |row.items| == 0 && amount.None? then Failure(BadQuote)
      else
        var items := if |row.items| > 0 then QuotedItems(row.items, lines) else [];
        var finalAmount := if |row.items| > 0 then FinalTotals(items) else amount.value;
        Success(WithBooking(db, b, row.(items := items, finalAmount := Some(finalAmount), status := QuoteSent,
                                        deadline := Some(now + QUOTE_SENT_TIMEOUT))))
  }

  function RejectBooking(db: Db, provider: nat, b: nat): Result<Db, Error> {
    if b >= |db.bookings| || db.bookings[b].provider != provider then Failure(NotFound)
    else if db.bookings[b].status != Pending then Failure(BadStatus)
    else Success(WithBooking(db, b, db.bookings[b].(status := Rejected)))
  }

  function CompleteBooking(db: Db, provider: nat, b: nat): Result<Db, Error> {
    if b >= |db.bookings| || db.bookings[b].provider != provider then Failure(NotFound)
    else if db.bookings[b].status != InProgress then Failure(BadStatus)
    else Success(WithBooking(db, b, db.bookings[b].(status := Completed)))
  }

  function ConfirmQuote(db: Db, customer: nat, b: nat, now: Time): Result<Db, Error> {
    if b >= |db.bookings| || db.bookings[b].customer != customer || db.bookings[b].status != QuoteSent
         then Failure(NotFound)
    else
      var row := db.bookings[b].(status := Confirmed, deadline := Some(now + CONFIRMED_UNPAID_TIMEOUT));
      Success(TryProgressEvent(WithBooking(db, b, row), row.event))
  }

  function RejectQuote(db: Db, customer: nat, b: nat): Result<Db, Error> {
    if b >= |db.bookings| || db.bookings[b].customer != customer || db.bookings[b].status != QuoteSent
         then Failure(NotFound)
    else
      var e := db.bookings[b].event;
      var cancelled := WithBooking(db, b, db.bookings[b].(status := Cancelled));
      if forall i | 0 <= i < |db.bookings| :: i != b && db.bookings[i].event == e ==> Terminal(db.bookings[i].status)
      then Success(WithEventStatus(cancelled, e, EvCancelled))
      else if exists i | 0 <= i < |db.bookings| ::
                i != b && db.bookings[i].event == e
                  && (db.bookings[i].status == Pending || db.bookings[i].status == QuoteSent)
      then Success(WithEventStatus(cancelled, e, EvDraft))
      else Success(cancelled)
  }

  // A customer's answer to several quotes of one event at once.
  datatype Decision = Decision(accepted: seq<nat>, rejected: seq<nat>, channel: Option<Channel>)

  function Accepted(row: Booking, channel: Channel, now: Time): Booking {
    var amount := if row.finalAmount.Some? then row.finalAmount.value else row.totalAmount;
    var transfer := channel == BankTransfer;
    row.(status := Confirmed,
         deadline := if transfer then None else Some(now + CONFIRMED_UNPAID_TIMEOUT),
         payment := Some(Payment(channel, if transfer then Paid else PayProcessing, amount, amount, 0, transfer)))
  }

  function Decided(bs: seq<Booking>, d: Decision, now: Time): (r: seq<Booking>)
    requires |d.accepted| > 0 ==> d.channel.Some?
    ensures |r| == |bs|
    ensures forall i :: 0 <= i < |bs| ==>
              r[i] == if i in d.accepted then Accepted(bs[i], d.channel.value, now)
                      else if i in d.rejected then bs[i].(status := Cancelled) else bs[i]
  {
    seq(|bs|, i requires 0 <= i < |bs| =>
      if i in d.accepted then Accepted(bs[i], d.channel.value, now)
      else if i in d.rejected then bs[i].(status := Cancelled) else bs[i])
  }

  function CheckDecision(db: Db, customer: nat, e: nat, d: Decision): Outcome<Error> {
    var bs := db.bookings;
    if |d.accepted| + |d.rejected| == 0 then Fail(NoBookings)
    else if |d.accepted| > 0 && d.channel.None? then Fail(BadPayment)
    else if exists k | 0 <= k < |d.accepted| :: d.accepted[k] in d.rejected then Fail(SelectionMismatch)
    else if e >= |db.events| then Fail(NotFound)
    else if db.events[e].customer != customer then Fail(Forbidden)
    else if exists k | 0 <= k < |d.accepted + d.rejected| ::
              (d.accepted + d.rejected)[k] >= |bs| || bs[(d.accepted + d.rejected)[k]].event != e
    then Fail(SelectionMismatch)
    else if exists k | 0 <= k < |d.accepted + d.rejected| :: bs[(d.accepted + d.rejected)[k]].status != QuoteSent
    then Fail(BadStatus)
    else if exists k | 0 <= k < |d.accepted| :: d.accepted[k] < |bs| && bs[d.accepted[k]].payment.Some?
              then Fail(BadPayment)
    else Pass
  }

  // progressBookingAndEvent for the first k accepted bookings.
  function ProgressAll(db: Db, accepted: seq<nat>, k: nat, e: nat): Db
    requires k <= |accepted|
  {
    if k == 0 then db else ProgressBookingAndEvent(ProgressAll(db, accepted, k - 1, e), accepted[k - 1], e)
  }

  predicate AllCalledOff(bs: seq<Booking>, e: nat) {
    && (exists i | 0 <= i < |bs| :: bs[i].event == e)
    && (forall i | 0 <= i < |bs| :: bs[i].event == e ==> bs[i].status == Cancelled || bs[i].status == Rejected)
  }

  function BulkDecision(db: Db, customer: nat, e: nat, d: Decision, now: Time): Result<Db, Error> {
    var checked := CheckDecision(db, customer, e, d);
    if checked.Fail? then Failure(checked.error)
    else
      var decided := db.(bookings := Decided(db.bookings, d, now));
      var closed := if AllCalledOff(decided.bookings, e) then WithEventStatus(decided, e, EvCancelled) else decided;
      if d.channel == Some(BankTransfer) then Success(ProgressAll(closed, d.accepted, |d.accepted|, e))
      else Success(closed)
  }

  predicate BlocksCancellation(b: Booking) {
    b.status == InProgress || b.status == Completed || ReadyToStart(b)
  }

  function CancelEvent(db: Db, customer: nat, e: nat): Result<Db, Error> {
    if e >= |db.events| then Failure(NotFound)
    else if db.events[e].customer != customer then Failure(Forbidden)
    else if db.events[e].status == EvCancelled || db.events[e].status == EvCompleted then Failure(BadStatus)
    else if forall i | 0 <= i < |db.bookings| :: db.bookings[i].event != e then Failure(NoBookings)
    else if exists i | 0 <= i < |db.bookings| :: db.bookings[i].event == e && BlocksCancellation(db.bookings[i])
    then Failure(Blocking)
    else
      var bs := Move(db.bookings, OfEvent(e), {Pending, QuoteSent, Confirmed, InProgress, Completed}, Cancelled);
      Success(WithEventStatus(db.(bookings := bs), e, EvCancelled))
  }

  // ----- payments ----------------------------------------------------------------------------

  datatype PaymentRef = BookingPayment(b: nat) | OrderPayment(o: nat)

  // What the gateway answers when a bank transfer is requested.
  datatype Gateway = IntentCreated | Charged | Declined

  // markPaid hands the event's id to progressBookingAndEvent where a booking id is expected; ids of the
  // two tables never meet, so the deployed call finds nothing. `corrected` is the call with the booking's id.
  function MarkPaid(db: Db, b: nat, corrected: bool): Db
    requires b < |db.bookings|
  {
    var row := db.bookings[b].(payment := WithPayment(db.bookings[b].payment, Paid), deadline := None);
    var paid := WithBooking(db, b, row);
    if row.order.Some? then TryProgressOrder(paid, row.order.value)
    else if corrected then ProgressBookingAndEvent(paid, b, row.event)
    else paid
  }

  // A new booking payment; only bookings outside packages get a service discount.
  function NewPayment(row: Booking, channel: Channel, discount: Option<Percent>, status: PaymentStatus,
                      intent: bool): Payment {
    var subtotal := if row.finalAmount.Some? then row.finalAmount.value else row.totalAmount;
    var applied := if row.order.None? then discount else None;
    Payment(channel, status, FinalPrice(subtotal, applied), subtotal, DiscountAmount(subtotal, applied), intent)
  }

  function CreatePayment(db: Db, customer: nat, b: nat, channel: Channel, discount: Option<Percent>,
                         answer: Gateway, corrected: bool): Result<Db, Error>
  {
    if b >= |db.bookings| then Failure(NotFound)
    else
      var row := db.bookings[b];
      if row.customer != customer then Failure(Forbidden)
      else if row.status != Confirmed then Failure(BadStatus)
      else if row.payment.Some? then Success(db)
      else
        var status := if channel == Cash then PayPending else if answer == Declined then PayFailed else PayProcessing;
        var intent := channel == BankTransfer && answer == IntentCreated;
        var created := WithBooking(db, b, row.(payment := Some(NewPayment(row, channel, discount, status, intent))));
        if channel == BankTransfer && answer == Charged then Success(MarkPaid(created, b, corrected))
             else Success(created)
  }

  function CheckIntent(p: Option<Payment>, owner: nat, user: nat): Outcome<Error> {
    if p.None? then Fail(NotFound)
    else if owner != user then Fail(Forbidden)
    else if p.value.status != PayProcessing || !p.value.intent then Fail(BadPayment)
    else Pass
  }

  // confirmPayment. For a package's payment it records the outcome and leaves the package booking where it
  // was; what the caller hears of it is another matter (Runs.PaymentReply).
  function ConfirmPayment(db: Db, user: nat, ref: PaymentRef, verified: bool, corrected: bool): Result<Db, Error> {
    match ref
    case BookingPayment(b) =>
      if b >= |db.bookings| then Failure(NotFound)
      else
        var row := db.bookings[b];
        var checked := CheckIntent(row.payment, row.customer, user);
        if checked.Fail? then Failure(checked.error)
        else if verified then Success(MarkPaid(db, b, corrected))
        else Success(WithBooking(db, b, row.(payment := WithPayment(row.payment, PayFailed))))
    case OrderPayment(o) =>
      if o >= |db.orders| then Failure(NotFound)
      else
        var row := db.orders[o];
        var checked := CheckIntent(row.payment, row.customer, user);
        if checked.Fail? then Failure(checked.error)
        else Success(WithOrder(db, o, row.(payment := WithPayment(row.payment, if verified then Paid else PayFailed))))
  }

  function MarkCashPaid(db: Db, provider: nat, b: nat, corrected: bool): Result<Db, Error> {
    if b >= |db.bookings| || db.bookings[b].payment.None? then Failure(NotFound)
    else
      var p := db.bookings[b].payment.value;
      if p.channel != Cash then Failure(BadPayment)
      else if db.bookings[b].provider != provider then Failure(Forbidden)
      else if p.status != PayPending && p.status != PayProcessing then Failure(BadPayment)
      else Success(MarkPaid(db, b, corrected))
  }

  function RefundPayment(db: Db, ref: PaymentRef): Result<Db, Error> {
    match ref
    case BookingPayment(b) =>
      if b >= |db.bookings| || db.bookings[b].payment.None? then Failure(NotFound)
      else if !IsPaid(db.bookings[b].payment) then Failure(BadPayment)
      else Success(WithBooking(db, b, db.bookings[b].(payment := WithPayment(db.bookings[b].payment, Refunded))))
    case OrderPayment(o) =>
      if o >= |db.orders| || db.orders[o].payment.None? then Failure(NotFound)
      else if !IsPaid(db.orders[o].payment) then Failure(BadPayment)
      else Success(WithOrder(db, o, db.orders[o].(payment := WithPayment(db.orders[o].payment, Refunded))))
  }

  // ----- package bookings ----------------------------------------------------------------------

  function OwnedOrder(db: Db, provider: nat, o: nat): Outcome<Error> {
    if o >= |db.orders| || db.orders[o].package >= |db.packages| then Fail(NotFound)
    else if db.packages[db.orders[o].package].owner != provider then Fail(Forbidden)
    else Pass
  }

  function CustomersOrder(db: Db, customer: nat, o: nat): Outcome<Error> {
    if o >= |db.orders| then Fail(NotFound)
    else if db.orders[o].customer != customer then Fail(Forbidden)
    else Pass
  }

  function AcceptOrder(db: Db, provider: nat, o: nat, now: Time): Result<Db, Error> {
    var access := OwnedOrder(db, provider, o);
    if access.Fail? then Failure(access.error)
    else
      var order := db.orders[o];
      if order.status != OrdPending then Failure(BadStatus)
      else if order.payment.Some? then Failure(BadPayment)
      else
        var payment := Payment(Cash, PayPending, order.total, order.total, 0, false);
        Success(db.(bookings := Move(db.bookings, OfOrder(o), {Pending}, Confirmed),
                    orders := db.orders[o := order.(status := OrdPendingPayment, payment := Some(payment),
                                                    paymentExpires := Some(now + PACKAGE_PAYMENT_TIMEOUT))]))
  }

  function RejectOrder(db: Db, provider: nat, o: nat): Result<Db, Error> {
    var access := OwnedOrder(db, provider, o);
    if access.Fail? then Failure(access.error)
    else
      var order := db.orders[o];
      if order.status != OrdPending && order.status != OrdConfirmed && order.status != OrdPendingPayment
      then Failure(BadStatus)
      else Success(db.(bookings := Move(db.bookings, OfOrder(o), {Pending, Confirmed, InProgress}, Cancelled),
                       orders := db.orders[o := order.(status := OrdRejected)]))
  }

  function CancelOrder(db: Db, customer: nat, o: nat): Result<Db, Error> {
    var access := CustomersOrder(db, customer, o);
    if access.Fail? then Failure(access.error)
    else
      var order := db.orders[o];
      if order.status != OrdPending && !(order.status == OrdPendingPayment && !IsPaid(order.payment))
      then Failure(BadStatus)
      else
        var payment := if IsPaid(order.payment) then order.payment else WithPayment(order.payment, PayCancelled);
        Success(db.(bookings := Move(db.bookings, OfOrder(o), {Pending, Confirmed}, Cancelled),
                    orders := db.orders[o := order.(status := OrdCancelled, payment := payment)]))
  }

  function PayOrder(db: Db, customer: nat, o: nat, channel: Channel, intentCreated: bool): Result<Db, Error> {
    var access := CustomersOrder(db, customer, o);
    if access.Fail? then Failure(access.error)
    else
      var order := db.orders[o];
      if order.status != OrdPendingPayment then Failure(BadStatus)
      else if order.payment.None? then Failure(NotFound)
      else if IsPaid(order.payment) then Success(db)
      else
        var p := order.payment.value;
        if channel == Cash then
          Success(WithOrder(db, o, order.(payment := Some(p.(channel := Cash, status := PayProcessing)))))
        else if intentCreated then
          Success(WithOrder(db, o,
                            order.(payment := Some(p.(channel := BankTransfer, status := PayProcessing,
                                                      intent := true)))))
        else
          Success(StartOrder(WithOrder(db, o,
                                       order.(payment := Some(p.(channel := BankTransfer, status := Paid,
                                                                 intent := true)))), o))
  }

  function ConfirmOrderCash(db: Db, provider: nat, o: nat): Result<Db, Error> {
    var access := OwnedOrder(db, provider, o);
    if access.Fail? then Failure(access.error)
    else
      var order := db.orders[o];
      if order.status != OrdPendingPayment then Failure(BadStatus)
      else if order.payment.None? || order.payment.value.channel != Cash || order.payment.value.status != PayProcessing
      then Failure(BadPayment)
      else Success(StartOrder(WithOrder(db, o, order.(payment := WithPayment(order.payment, Paid))), o))
  }

  // The package booking's own status is not looked at.
  function ConfirmOrderCard(db: Db, customer: nat, o: nat, verified: bool): Result<Db, Error> {
    var access := CustomersOrder(db, customer, o);
    if access.Fail? then Failure(access.error)
    else
      var order := db.orders[o];
      var checked := CheckIntent(order.payment, order.customer, customer);
      if checked.Fail? then Failure(checked.error)
      else if !verified then Success(WithOrder(db, o, order.(payment := WithPayment(order.payment, PayFailed))))
      else Success(StartOrder(WithOrder(db, o, order.(payment := WithPayment(order.payment, Paid))), o))
  }

  function FinishOrder(db: Db, o: nat): Db
    requires o < |db.orders|
  {
    var order := db.orders[o];
    WithEventStatus(db.(bookings := Move(db.bookings, OfOrder(o), {InProgress}, Completed),
                        orders := db.orders[o := order.(status := OrdCompleted)]),
                    order.event, EvCompleted)
  }

  function CompleteOrder(db: Db, provider: nat, o: nat): Result<Db, Error> {
    var access := OwnedOrder(db, provider, o);
    if access.Fail? then Failure(access.error)
    else if db.orders[o].status != OrdInProgress then Failure(BadStatus)
    else Success(FinishOrder(db, o))
  }

  // ----- sweepers ------------------------------------------------------------------------------

  function SweptBooking(b: Booking, now: Time): Booking {
    if (b.status == Pending || b.status == QuoteSent || b.status == Confirmed)
       && b.deadline.Some? && b.deadline.value <= now
       && !ReadyToStart(b)
    then b.(status := Cancelled) else b
  }

  // handleExpiredBookings over the first k rows.
  function SweepBookings(db: Db, now: Time, k: nat): Db
    requires k <= |db.bookings|
  {
    db.(bookings := seq(|db.bookings|, i requires 0 <= i < |db.bookings| =>
      if i < k then SweptBooking(db.bookings[i], now) else db.bookings[i]))
  }

  predicate Over(ev: Event, now: Time) {
    ev.day * TimeHelper.DAY + TimeHelper.SweptEnd(ev.start, ev.end) <= now
  }

  // completePastEvents, one event.
  function SweepEvent(db: Db, e: nat, now: Time): Db
    requires e < |db.events|
  {
    if db.events[e].status == EvInProgress && db.events[e].day * TimeHelper.DAY <= now && Over(db.events[e], now) then
      var called := Move(db.bookings, OfEvent(e), {Pending, QuoteSent}, Cancelled);
      WithEventStatus(db.(bookings := Move(called, OfEvent(e), {InProgress}, Completed)), e, EvCompleted)
    else db
  }

  function SweepEvents(db: Db, now: Time, k: nat): (r: Db)
    requires k <= |db.events|
    ensures |r.events| == |db.events|
  {
    if k == 0 then db else SweepEvent(SweepEvents(db, now, k - 1), k - 1, now)
  }

  datatype OrderSweep = ExpirePending | ExpireUnpaid | CompleteFinished

  function SweepOrder(db: Db, kind: OrderSweep, o: nat, now: Time): Db
    requires o < |db.orders|
  {
    var order := db.orders[o];
    match kind
    case ExpirePending =>
      if order.status == OrdPending && order.pendingExpires.Some? && order.pendingExpires.value < now then
        db.(bookings := Move(db.bookings, OfOrder(o), {Pending, Confirmed}, Cancelled),
            orders := db.orders[o := order.(status := OrdExpired)])
      else db
    case ExpireUnpaid =>
      if order.status == OrdPendingPayment && order.paymentExpires.Some? && order.paymentExpires.value < now
         && !IsPaid(order.payment) then
        db.(bookings := Move(db.bookings, OfOrder(o), {Pending, Confirmed, InProgress}, Cancelled),
            orders := db.orders[o :=
                                order.(status := OrdCancelled, payment := WithPayment(order.payment, PayCancelled))])
      else db
    case CompleteFinished =>
      if order.status == OrdInProgress && order.event < |db.events| && Over(db.events[order.event], now)
      then FinishOrder(db, o) else db
  }

  function SweepOrders(db: Db, kind: OrderSweep, now: Time, k: nat): (r: Db)
    requires k <= |db.orders|
    ensures |r.orders| == |db.orders|
  {
    if k == 0 then db else SweepOrder(SweepOrders(db, kind, now, k - 1), kind, k - 1, now)
  }
}
