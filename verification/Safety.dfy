// The inductive invariant of the state machine and the facts that relate any state to its successor,
// proved for one operation at a time.
module Safety {
  import opened Wrappers
  import opened Marketplace
  import opened Pricing
  import opened Admission
  import opened Lifecycle
  import opened Quotes
  import opened Composition
  import Capacity

  // ----- one booking row -----------------------------------------------------------------------

  // The row it belongs to exists, and a package's bookings share its event and its customer.
  ghost predicate Linked(db: Db, b: Booking) {
    && b.event < |db.events|
    && (b.order.Some? ==>
          b.order.value < |db.orders| && db.orders[b.order.value].event == b.event
          && db.orders[b.order.value].customer == b.customer)
  }

  // Someone's clock is running on every booking that still waits, or its money has arrived.
  predicate NotStuck(b: Booking) {
    && (b.status == Pending || b.status == QuoteSent ==> b.deadline.Some? && b.payment.None?)
    && (b.status == Confirmed ==> b.deadline.Some? || Cleared(b.payment))
  }

  predicate PaidFor(db: Db, b: Booking) {
    Cleared(b.payment) || (b.order.Some? && b.order.value < |db.orders| && Started(db.orders[b.order.value]))
  }

  predicate StartedOnlyIfPaid(db: Db, b: Booking) {
    b.status == InProgress || b.status == Completed ==> PaidFor(db, b)
  }

  predicate CalledOffWithEvent(db: Db, b: Booking) {
    b.event < |db.events| && db.events[b.event].status == EvCancelled ==> Terminal(b.status)
  }

  predicate CalledOff(s: OrderStatus) {
    s == OrdCancelled || s == OrdExpired || s == OrdRejected
  }

  // A child waits for its provider only while its package booking is pending; a package booking that was
  // called off keeps a live child only if that child was quoted or paid on its own; and a child nobody
  // quoted still has the deadline of the request, also after the package booking was accepted.
  predicate ChildSettled(o: Order, b: Booking) {
    && (b.finalAmount.None? && (b.status == Pending || b.status == Confirmed) && b.deadline.Some? ==>
          b.deadline == o.pendingExpires)
    && (b.status == Pending ==> o.status == OrdPending)
    && (CalledOff(o.status) ==>
          Terminal(b.status) || b.finalAmount.Some? || (b.status == InProgress && Cleared(b.payment)))
  }

  predicate FollowsOrder(db: Db, b: Booking) {
    b.order.Some? && b.order.value < |db.orders| ==> ChildSettled(db.orders[b.order.value], b)
  }

  // A quoted amount is the sum of the priced items; a payment and its discount make up what is owed.
  ghost predicate MoneyAddsUp(b: Booking) {
    && DistinctIds(b.items)
    && (b.status == QuoteSent ==> b.finalAmount.Some?)
    && (b.finalAmount.Some? && |b.items| > 0 ==>
          b.finalAmount.value == FinalTotals(b.items)
          && forall i :: 0 <= i < |b.items| ==>
               b.items[i].finalUnit.Some?
               && b.items[i].finalTotal == Some(b.items[i].finalUnit.value * b.items[i].quantity))
    && (b.payment.Some? ==>
          b.payment.value.amount + b.payment.value.discount == b.payment.value.subtotal == Owed(b)
          && b.payment.value.amount >= 0 && b.payment.value.discount >= 0)
  }

  ghost predicate BookingOk(db: Db, b: Booking) {
    Linked(db, b) && NotStuck(b) && StartedOnlyIfPaid(db, b) && CalledOffWithEvent(db, b) && FollowsOrder(db, b)
      && MoneyAddsUp(b)
  }

  // ----- one package booking row -------------------------------------------------------------------

  predicate Awaiting(s: OrderStatus) {
    s == OrdPending || s == OrdPendingPayment
  }

  predicate Closed(s: OrderStatus) {
    s == OrdCancelled || s == OrdExpired
  }

  ghost predicate OrderOk(db: Db, o: Order) {
    && o.event < |db.events|
    && o.package < |db.packages|
    && o.status != OrdConfirmed
    && (o.status == OrdPending ==> o.payment.None? && o.pendingExpires.Some?)
    && (o.status == OrdPendingPayment ==> o.payment.Some? && o.paymentExpires.Some?)
    && (Closed(o.status) ==> o.payment.None? || o.payment.value.status == PayCancelled)
    && (Awaiting(o.status) ==> db.packages[o.package].status != PkgCancelled)
    && (o.payment.Some? ==>
          o.payment.value.amount == o.payment.value.subtotal == o.total && o.payment.value.discount == 0)
  }

  ghost predicate Invariant(db: Db) {
    && (forall i :: 0 <= i < |db.bookings| ==> BookingOk(db, db.bookings[i]))
    && (forall o :: 0 <= o < |db.orders| ==> OrderOk(db, db.orders[o]))
  }

  // ----- a state and its successor -----------------------------------------------------------------

  predicate SameItems(a: seq<Item>, b: seq<Item>) {
    && |a| == |b|
    && forall i | 0 <= i < |a| ::
         a[i].id == b[i].id && a[i].sub == b[i].sub && a[i].quantity == b[i].quantity
         && a[i].unitPrice == b[i].unitPrice
  }

  predicate HoldsMoney(b: Booking) {
    IsPaid(b.payment) && (b.status == Confirmed || b.status == InProgress)
  }

  predicate WasRefunded(p: Option<Payment>) {
    p.Some? && p.value.status == Refunded
  }

  // Money can still be taken: cash that a provider may confirm, or a card payment under way.
  predicate Collectable(p: Option<Payment>) {
    p.Some? && (AwaitsCard(p)
                || (p.value.channel == Cash && (p.value.status == PayPending || p.value.status == PayProcessing)))
  }

  predicate NothingToTake(p: Option<Payment>) {
    !IsPaid(p) && !Collectable(p)
  }

  // What a booking is about never changes, its status only advances, cleared money stays cleared, and
  // outside packages a paid booking is not called off before it is refunded.
  predicate BookingEvolves(b: Booking, b': Booking) {
    && b' == b.(items := b'.items, finalAmount := b'.finalAmount, status := b'.status, deadline := b'.deadline,
                payment := b'.payment)
    && SameItems(b.items, b'.items)
    && Advances(b.status, b'.status)
    && (Cleared(b.payment) ==> Cleared(b'.payment))
    && (WasRefunded(b.payment) ==> WasRefunded(b'.payment))
    && (b.order.None? && HoldsMoney(b) ==> HoldsMoney(b') || b'.status == Completed || WasRefunded(b'.payment))
    && (b.finalAmount.Some? ==> b'.finalAmount.Some?)
    && (b.payment.Some? ==>
          b'.payment.Some? && b'.payment.value == b.payment.value.(status := b'.payment.value.status))
    && ((b.payment.Some? || Terminal(b.status)) && NothingToTake(b.payment) ==> NothingToTake(b'.payment))
  }

  predicate Finished(s: OrderStatus) {
    s == OrdRejected || s == OrdCompleted
  }

  predicate OrderEvolves(o: Order, o': Order) {
    && o' == o.(status := o'.status, paymentExpires := o'.paymentExpires, payment := o'.payment)
    && (Closed(o.status) ==> o' == o)
    && (Started(o) ==> Started(o'))
    && (Awaiting(o'.status) ==> Awaiting(o.status))
    && (o'.status == OrdPending ==> o.status == OrdPending)
    && (Finished(o.status) && !AwaitsCard(o.payment) ==> o'.status == o.status && !AwaitsCard(o'.payment))
  }

  // No step can start a quiet package booking any more.
  predicate Quiet(o: Order) {
    Closed(o.status) || (Finished(o.status) && !AwaitsCard(o.payment))
  }

  ghost predicate QuietOn(db: Db, e: nat) {
    forall o :: 0 <= o < |db.orders| && db.orders[o].event == e ==> Quiet(db.orders[o])
  }

  ghost predicate Evolves(db: Db, db': Db) {
    && |db.events| <= |db'.events| && |db.bookings| <= |db'.bookings|
    && |db.orders| <= |db'.orders| && |db.packages| <= |db'.packages|
    && (forall e :: 0 <= e < |db.events| ==> db'.events[e] == db.events[e].(status := db'.events[e].status))
    && (forall e :: 0 <= e < |db.events| && db.events[e].status == EvCancelled && QuietOn(db, e) ==>
          db'.events[e].status == EvCancelled)
    && (forall b :: 0 <= b < |db.bookings| ==> BookingEvolves(db.bookings[b], db'.bookings[b]))
    && (forall o :: 0 <= o < |db.orders| ==> OrderEvolves(db.orders[o], db'.orders[o]))
    && (forall o :: |db.orders| <= o < |db'.orders| ==> db'.orders[o].event >= |db.events|)
  }

  // A step that creates no booking.
  ghost predicate SafeStep(db: Db, db': Db) {
    Invariant(db') && Evolves(db, db') && |db'.bookings| == |db.bookings| && |db'.orders| == |db.orders|
    && db'.packages == db.packages && db'.blocks == db.blocks
  }

  lemma EvolvesTransitive(a: Db, b: Db, c: Db)
    requires Evolves(a, b) && Evolves(b, c)
    ensures Evolves(a, c)
  {
    forall e | 0 <= e < |a.events| && a.events[e].status == EvCancelled && QuietOn(a, e)
      ensures c.events[e].status == EvCancelled
    {
      forall o | 0 <= o < |b.orders| && b.orders[o].event == e ensures Quiet(b.orders[o]) {
        assert OrderEvolves(a.orders[o], b.orders[o]);
      }
      assert QuietOn(b, e);
    }
    forall i | 0 <= i < |a.bookings| ensures BookingEvolves(a.bookings[i], c.bookings[i]) {
      assert BookingEvolves(a.bookings[i], b.bookings[i]) && BookingEvolves(b.bookings[i], c.bookings[i]);
    }
    forall o | 0 <= o < |a.orders| ensures OrderEvolves(a.orders[o], c.orders[o]) {
      assert OrderEvolves(a.orders[o], b.orders[o]) && OrderEvolves(b.orders[o], c.orders[o]);
    }
    forall o | |a.orders| <= o < |c.orders| ensures c.orders[o].event >= |a.events| {
      if o < |b.orders| {
        assert OrderEvolves(b.orders[o], c.orders[o]);
      }
    }
  }

  lemma SafeStepIsInvariant(db: Db, db': Db)
    requires SafeStep(db, db')
    ensures Invariant(db')
  {
  }

  lemma SafeThenSafe(a: Db, b: Db, c: Db)
    requires SafeStep(a, b) && SafeStep(b, c)
    ensures SafeStep(a, c)
  {
    EvolvesTransitive(a, b, c);
  }

  // ----- a step, row by row ----------------------------------------------------------------------

  // The status-only changes that every operation is made of.
  predicate Change(db': Db, b: Booking, b': Booking) {
    b' == b
    || (b' == b.(status := b'.status)
        && match b'.status
           case Confirmed => b.status == Pending
           case InProgress => b.status == Confirmed && PaidFor(db', b)
           case Completed => b.status == InProgress
           case Cancelled => !Terminal(b.status) && (b.order.Some? || !HoldsMoney(b))
           case Rejected => b.status == Pending
           case _ => false)
  }

  ghost predicate BookingStep(db': Db, b: Booking, b': Booking) {
    Change(db', b, b') || (BookingOk(db', b') && BookingEvolves(b, b'))
  }

  ghost predicate OrderStep(db: Db, db': Db, o: nat)
    requires o < |db.orders| == |db'.orders|
  {
    db'.orders[o] == db.orders[o]
    || (&& OrderOk(db', db'.orders[o]) && OrderEvolves(db.orders[o], db'.orders[o])
        && forall i :: 0 <= i < |db'.bookings| && db'.bookings[i].order == Some(o) ==>
             ChildSettled(db'.orders[o], db'.bookings[i]))
  }

  ghost predicate EventStep(db: Db, db': Db, e: nat)
    requires e < |db.events| == |db'.events|
  {
    db'.events[e] == db.events[e]
    || (&& db'.events[e] == db.events[e].(status := db'.events[e].status)
        && (db.events[e].status == EvCancelled && QuietOn(db, e) ==> db'.events[e].status == EvCancelled)
        && (db'.events[e].status == EvCancelled ==>
              forall i :: 0 <= i < |db'.bookings| && db'.bookings[i].event == e ==> Terminal(db'.bookings[i].status)))
  }

  ghost predicate RowByRow(db: Db, db': Db) {
    && |db.events| == |db'.events| && |db.bookings| == |db'.bookings| && |db.orders| == |db'.orders|
    && db.packages == db'.packages && db.blocks == db'.blocks
    && (forall e :: 0 <= e < |db.events| ==> EventStep(db, db', e))
    && (forall i :: 0 <= i < |db.bookings| ==> BookingStep(db', db.bookings[i], db'.bookings[i]))
    && (forall o :: 0 <= o < |db.orders| ==> OrderStep(db, db', o))
  }

  lemma RowAfterChange(db: Db, db': Db, i: nat)
    requires Invariant(db) && RowByRow(db, db') && i < |db.bookings|
    ensures BookingOk(db', db'.bookings[i]) && BookingEvolves(db.bookings[i], db'.bookings[i])
  {
    var b, b' := db.bookings[i], db'.bookings[i];
    assert BookingOk(db, b) && BookingStep(db', b, b');
    if Change(db', b, b') {
      assert EventStep(db, db', b.event);
      if b.order.Some? {
        assert OrderStep(db, db', b.order.value);
      }
      MoneyIgnoresStatus(b, b');
    }
  }

  lemma MoneyIgnoresStatus(b: Booking, b': Booking)
    requires MoneyAddsUp(b)
    requires b' == b || (b' == b.(status := b'.status) && b'.status != QuoteSent)
    ensures MoneyAddsUp(b')
  {
  }

  lemma StepByRows(db: Db, db': Db)
    requires Invariant(db) && RowByRow(db, db')
    ensures SafeStep(db, db')
  {
    forall i | 0 <= i < |db.bookings|
      ensures BookingOk(db', db'.bookings[i]) && BookingEvolves(db.bookings[i], db'.bookings[i])
    {
      RowAfterChange(db, db', i);
    }
    forall o | 0 <= o < |db.orders|
      ensures OrderOk(db', db'.orders[o]) && OrderEvolves(db.orders[o], db'.orders[o])
    {
      assert OrderOk(db, db.orders[o]) && OrderStep(db, db', o);
    }
    forall e | 0 <= e < |db.events|
      ensures db'.events[e] == db.events[e].(status := db'.events[e].status)
      ensures db.events[e].status == EvCancelled && QuietOn(db, e) ==> db'.events[e].status == EvCancelled
    {
      assert EventStep(db, db', e);
    }
  }

  lemma NoStep(db: Db)
    requires Invariant(db)
    ensures SafeStep(db, db)
  {
    hide BookingOk, OrderOk, SafeStep;
    StepByRows(db, db);
  }

  // Whatever a called-off package booking releases: its waiting children are cancelled, and what was
  // under way had been paid on its own, because the package booking itself had not started.
  lemma ChildrenReleased(db: Db, bs: seq<Booking>, o: nat, from: set<BookingStatus>, status: OrderStatus)
    requires Invariant(db) && o < |db.orders| && !Started(db.orders[o]) && CalledOff(status)
    requires {Pending, Confirmed} <= from <= {Pending, Confirmed, InProgress}
    requires bs == Move(db.bookings, OfOrder(o), from, Cancelled)
    ensures forall i :: 0 <= i < |bs| && bs[i].order == Some(o) ==> ChildSettled(db.orders[o].(status := status), bs[i])
  {
    forall i | 0 <= i < |bs| && bs[i].order == Some(o) ensures ChildSettled(db.orders[o].(status := status), bs[i]) {
      assert BookingOk(db, db.bookings[i]);
    }
  }

  // ----- progression -------------------------------------------------------------------------------

  lemma TryProgressEventIsSafe(db: Db, e: nat)
    requires Invariant(db)
    ensures SafeStep(db, TryProgressEvent(db, e))
  {
    hide MoneyAddsUp, BookingEvolves, OrderOk, OrderEvolves, SafeStep;
    var db' := TryProgressEvent(db, e);
    StepByRows(db, db');
  }

  lemma TryProgressOrderIsSafe(db: Db, o: nat)
    requires Invariant(db)
    ensures SafeStep(db, TryProgressOrder(db, o))
  {
    hide MoneyAddsUp, BookingEvolves, SafeStep;
    if o < |db.orders| {
      assert OrderOk(db, db.orders[o]);
    }
    StepByRows(db, TryProgressOrder(db, o));
  }

  lemma ProgressBookingIsSafe(db: Db, b: nat, e: nat)
    requires Invariant(db)
    requires b < |db.bookings| ==> Cleared(db.bookings[b].payment)
    ensures SafeStep(db, ProgressBookingAndEvent(db, b, e))
  {
    hide MoneyAddsUp, BookingEvolves, OrderOk, OrderEvolves, SafeStep;
    StepByRows(db, ProgressBookingAndEvent(db, b, e));
  }

  lemma FinishOrderIsSafe(db: Db, o: nat)
    requires Invariant(db) && o < |db.orders| && db.orders[o].status == OrdInProgress
    ensures SafeStep(db, FinishOrder(db, o))
  {
    hide MoneyAddsUp, BookingEvolves, SafeStep;
    assert OrderOk(db, db.orders[o]);
    StepByRows(db, FinishOrder(db, o));
  }

  // ----- a single booking row ------------------------------------------------------------------------

  lemma OneBooking(db: Db, b: nat, row: Booking)
    requires Invariant(db) && b < |db.bookings|
    requires BookingStep(WithBooking(db, b, row), db.bookings[b], row)
    ensures SafeStep(db, WithBooking(db, b, row))
  {
    hide BookingOk, BookingEvolves, OrderOk, OrderEvolves, SafeStep;
    StepByRows(db, WithBooking(db, b, row));
  }

  lemma OneOrder(db: Db, o: nat, row: Order)
    requires Invariant(db) && o < |db.orders|
    requires OrderOk(WithOrder(db, o, row), row) && OrderEvolves(db.orders[o], row)
    requires row.status == db.orders[o].status && row.pendingExpires == db.orders[o].pendingExpires
    ensures SafeStep(db, WithOrder(db, o, row))
  {
    hide MoneyAddsUp, BookingEvolves, OrderOk, OrderEvolves, SafeStep;
    forall i | 0 <= i < |db.bookings| && db.bookings[i].order == Some(o) ensures ChildSettled(row, db.bookings[i]) {
      assert BookingOk(db, db.bookings[i]);
    }
    StepByRows(db, WithOrder(db, o, row));
  }

  // ----- quotes ----------------------------------------------------------------------------------------

  lemma SendQuoteIsSafe(db: Db, provider: nat, b: nat, lines: seq<Line>, amount: Option<nat>, now: Time)
    requires Invariant(db)
    ensures SafeStep(db, After(SendQuote(db, provider, b, lines, amount, now), db))
  {
    var r := SendQuote(db, provider, b, lines, amount, now);
    if r.Success? {
      assert BookingOk(db, db.bookings[b]);
      OneBooking(db, b, r.value.bookings[b]);
    } else {
      NoStep(db);
    }
  }

  lemma ProviderStepsAreSafe(db: Db, provider: nat, b: nat)
    requires Invariant(db)
    ensures SafeStep(db, After(RejectBooking(db, provider, b), db))
    ensures SafeStep(db, After(CompleteBooking(db, provider, b), db))
  {
    NoStep(db);
    if b < |db.bookings| {
      if db.bookings[b].status == Pending {
        OneBooking(db, b, db.bookings[b].(status := Rejected));
      }
      if db.bookings[b].status == InProgress {
        OneBooking(db, b, db.bookings[b].(status := Completed));
      }
    }
  }

  lemma ConfirmQuoteIsSafe(db: Db, customer: nat, b: nat, now: Time)
    requires Invariant(db)
    ensures SafeStep(db, After(ConfirmQuote(db, customer, b, now), db))
  {
    var r := ConfirmQuote(db, customer, b, now);
    if r.Success? {
      var row := db.bookings[b].(status := Confirmed, deadline := Some(now + CONFIRMED_UNPAID_TIMEOUT));
      assert BookingOk(db, db.bookings[b]);
      OneBooking(db, b, row);
      TryProgressEventIsSafe(WithBooking(db, b, row), row.event);
      SafeThenSafe(db, WithBooking(db, b, row), r.value);
    } else {
      NoStep(db);
    }
  }

  lemma RejectQuoteIsSafe(db: Db, customer: nat, b: nat)
    requires Invariant(db)
    ensures SafeStep(db, After(RejectQuote(db, customer, b), db))
  {
    hide MoneyAddsUp, BookingEvolves, OrderOk, OrderEvolves, SafeStep;
    if b < |db.bookings| {
      assert BookingOk(db, db.bookings[b]);
    }
    StepByRows(db, After(RejectQuote(db, customer, b), db));
  }

  lemma AcceptedRowIsSafe(db: Db, db': Db, b: Booking, channel: Channel, now: Time)
    requires BookingOk(db, b) && b.status == QuoteSent
    requires db'.events == db.events && db'.orders == db.orders
    requires b.event < |db.events| ==> db.events[b.event].status != EvCancelled
    ensures BookingOk(db', Accepted(b, channel, now)) && BookingEvolves(b, Accepted(b, channel, now))
  {
    hide FinalTotals, DistinctIds;
  }

  lemma DecidedRowIsSafe(db: Db, db': Db, d: Decision, now: Time, i: nat)
    requires Invariant(db) && i < |db.bookings| == |db'.bookings|
    requires db'.events == db.events && db'.orders == db.orders
    requires |d.accepted| > 0 ==> d.channel.Some?
    requires i in d.accepted || i in d.rejected ==> db.bookings[i].status == QuoteSent
    requires db'.bookings == Decided(db.bookings, d, now)
    ensures BookingStep(db', db.bookings[i], db'.bookings[i])
  {
    var b := db.bookings[i];
    assert BookingOk(db, b);
    hide BookingOk, BookingEvolves, Accepted, Invariant;
    if i in d.accepted {
      OpenWhileLive(db, b);
      AcceptedRowIsSafe(db, db', b, d.channel.value, now);
    } else if i in d.rejected {
      WaitingHasNoPayment(db, b);
    }
  }

  lemma OpenWhileLive(db: Db, b: Booking)
    requires BookingOk(db, b) && !Terminal(b.status)
    ensures b.event < |db.events| && db.events[b.event].status != EvCancelled
  {
    hide MoneyAddsUp;
  }

  lemma WaitingHasNoPayment(db: Db, b: Booking)
    requires BookingOk(db, b) && (b.status == Pending || b.status == QuoteSent)
    ensures b.payment.None?
  {
    hide MoneyAddsUp;
  }

  lemma BulkDecisionIsSafe(db: Db, customer: nat, e: nat, d: Decision, now: Time)
    requires Invariant(db)
    ensures SafeStep(db, After(BulkDecision(db, customer, e, d, now), db))
  {
    if CheckDecision(db, customer, e, d).Fail? {
      NoStep(db);
    } else {
      var decided := db.(bookings := Decided(db.bookings, d, now));
      var closed := if AllCalledOff(decided.bookings, e) then WithEventStatus(decided, e, EvCancelled) else decided;
      DecidedIsSafe(db, customer, e, d, now);
      if d.channel == Some(BankTransfer) {
        forall k | 0 <= k < |d.accepted|
          ensures d.accepted[k] < |closed.bookings| ==> Cleared(closed.bookings[d.accepted[k]].payment)
        {
          assert d.accepted[k] in d.accepted;
        }
        ProgressAllIsSafe(closed, d.accepted, |d.accepted|, e);
        SafeThenSafe(db, closed, ProgressAll(closed, d.accepted, |d.accepted|, e));
      }
    }
  }

  lemma DecidedIsSafe(db: Db, customer: nat, e: nat, d: Decision, now: Time)
    requires Invariant(db) && CheckDecision(db, customer, e, d).Pass?
    ensures var decided := db.(bookings := Decided(db.bookings, d, now));
            SafeStep(db, if AllCalledOff(decided.bookings, e) then WithEventStatus(decided, e, EvCancelled)
                     else decided)
  {
    var decided := db.(bookings := Decided(db.bookings, d, now));
    var closed := WithEventStatus(decided, e, EvCancelled);
    hide CheckDecision, Accepted, BookingOk, OrderOk, BookingEvolves, OrderEvolves, SafeStep;
    forall i | 0 <= i < |db.bookings| ensures BookingStep(decided, db.bookings[i], decided.bookings[i]) {
      QuotedOnly(db, customer, e, d, i);
      DecidedRowIsSafe(db, decided, d, now, i);
    }
    StepByRows(db, decided);
    if AllCalledOff(decided.bookings, e) {
      assert Invariant(decided) by { SafeStepIsInvariant(db, decided); }
      StepByRows(decided, closed);
      SafeThenSafe(db, decided, closed);
    }
  }

  lemma QuotedOnly(db: Db, customer: nat, e: nat, d: Decision, i: nat)
    requires CheckDecision(db, customer, e, d).Pass? && i < |db.bookings|
    ensures i in d.accepted || i in d.rejected ==> db.bookings[i].status == QuoteSent && db.bookings[i].event == e
    ensures i in d.accepted ==> i !in d.rejected && db.bookings[i].payment.None?
  {
    var all := d.accepted + d.rejected;
    if i in d.accepted || i in d.rejected {
      assert i in all;
      var k :| 0 <= k < |all| && all[k] == i;
      assert db.bookings[all[k]].status == QuoteSent;
    }
  }

  lemma {:induction false} ProgressAllIsSafe(db: Db, accepted: seq<nat>, k: nat, e: nat)
    requires Invariant(db) && k <= |accepted|
    requires forall j :: 0 <= j < |accepted| ==> accepted[j] < |db.bookings| ==>
               Cleared(db.bookings[accepted[j]].payment)
    ensures SafeStep(db, ProgressAll(db, accepted, k, e))
  {
    if k == 0 {
      NoStep(db);
    } else {
      ProgressAllIsSafe(db, accepted, k - 1, e);
      var before := ProgressAll(db, accepted, k - 1, e);
      if accepted[k - 1] < |db.bookings| {
        assert BookingEvolves(db.bookings[accepted[k - 1]], before.bookings[accepted[k - 1]]);
      }
      ProgressBookingIsSafe(before, accepted[k - 1], e);
      SafeThenSafe(db, before, ProgressAll(db, accepted, k, e));
    }
  }

  lemma CancelEventIsSafe(db: Db, customer: nat, e: nat)
    requires Invariant(db)
    ensures SafeStep(db, After(CancelEvent(db, customer, e), db))
  {
    hide MoneyAddsUp, BookingEvolves, OrderOk, OrderEvolves, SafeStep;
    StepByRows(db, After(CancelEvent(db, customer, e), db));
  }

  // ----- payments --------------------------------------------------------------------------------------

  // `created` is the state with the payment that is about to be marked paid.
  lemma PaidRowIsSafe(db: Db, created: Db, b: nat, corrected: bool)
    requires Invariant(db) && b < |db.bookings| == |created.bookings| && created.bookings[b].payment.Some?
    requires created == WithBooking(db, b, created.bookings[b])
    requires var row := created.bookings[b].(payment := WithPayment(created.bookings[b].payment, Paid),
                                             deadline := None);
             BookingOk(WithBooking(db, b, row), row) && BookingEvolves(db.bookings[b], row)
    ensures SafeStep(db, MarkPaid(created, b, corrected))
  {
    var row := created.bookings[b].(payment := WithPayment(created.bookings[b].payment, Paid), deadline := None);
    var paid := WithBooking(db, b, row);
    assert WithBooking(created, b, row) == paid;
    hide BookingOk, BookingEvolves, TryProgressOrder, ProgressBookingAndEvent;
    OneBooking(db, b, row);
    if row.order.Some? {
      TryProgressOrderIsSafe(paid, row.order.value);
      SafeThenSafe(db, paid, TryProgressOrder(paid, row.order.value));
    } else if corrected {
      ProgressBookingIsSafe(paid, b, row.event);
      SafeThenSafe(db, paid, ProgressBookingAndEvent(paid, b, row.event));
    }
  }

  lemma MarkPaidIsSafe(db: Db, b: nat, corrected: bool)
    requires Invariant(db) && b < |db.bookings| && Collectable(db.bookings[b].payment)
    ensures SafeStep(db, MarkPaid(db, b, corrected))
  {
    hide SafeStep, MarkPaid;
    assert BookingOk(db, db.bookings[b]);
    PaidRowIsSafe(db, db, b, corrected);
  }

  lemma NewPaymentIsSafe(db: Db, b: nat, payment: Payment, deadline: Option<Time>)
    requires Invariant(db) && b < |db.bookings| && db.bookings[b].status == Confirmed && db.bookings[b].payment.None?
    requires payment.amount + payment.discount == payment.subtotal == Owed(db.bookings[b])
    requires payment.amount >= 0 && payment.discount >= 0
    requires if payment.status == Paid then deadline.None?
             else payment.status != Refunded && deadline == db.bookings[b].deadline
    ensures var row := db.bookings[b].(payment := Some(payment), deadline := deadline);
            BookingOk(WithBooking(db, b, row), row) && BookingEvolves(db.bookings[b], row)
  {
    assert BookingOk(db, db.bookings[b]);
  }

  lemma CreatePaymentIsSafe(db: Db, customer: nat, b: nat, channel: Channel, discount: Option<Percent>,
                            answer: Gateway, corrected: bool)
    requires Invariant(db)
    ensures SafeStep(db, After(CreatePayment(db, customer, b, channel, discount, answer, corrected), db))
  {
    hide Evolves, BookingOk, OrderOk, MarkPaid, FinalPrice, DiscountAmount, SafeStep;
    NoStep(db);
    var r := CreatePayment(db, customer, b, channel, discount, answer, corrected);
    if r.Success? && db.bookings[b].payment.None? {
      var before := db.bookings[b];
      var status := if channel == Cash then PayPending else if answer == Declined then PayFailed else PayProcessing;
      var payment := NewPayment(before, channel, discount, status, channel == BankTransfer && answer == IntentCreated);
      PriceSplitsExactly(Owed(before), if before.order.None? then discount else None);
      PriceIsBounded(Owed(before), if before.order.None? then discount else None);
      if channel == BankTransfer && answer == Charged {
        NewPaymentIsSafe(db, b, payment.(status := Paid), None);
        PaidRowIsSafe(db, WithBooking(db, b, before.(payment := Some(payment))), b, corrected);
      } else {
        NewPaymentIsSafe(db, b, payment, before.deadline);
        OneBooking(db, b, before.(payment := Some(payment)));
      }
    }
  }

  // Writing an outcome over a payment that had not cleared.
  lemma BookingPaymentStatusIsSafe(db: Db, b: nat, status: PaymentStatus)
    requires Invariant(db) && b < |db.bookings| && db.bookings[b].payment.Some?
    requires Cleared(db.bookings[b].payment) ==> status == Refunded
    requires status == PayFailed || status == Refunded
    requires status == Refunded ==> Cleared(db.bookings[b].payment)
    ensures SafeStep(db, WithBooking(db, b, db.bookings[b].(payment := WithPayment(db.bookings[b].payment, status))))
  {
    assert BookingOk(db, db.bookings[b]);
    OneBooking(db, b, db.bookings[b].(payment := WithPayment(db.bookings[b].payment, status)));
  }

  lemma OrderPaymentStatusIsSafe(db: Db, o: nat, status: PaymentStatus)
    requires Invariant(db) && o < |db.orders| && db.orders[o].payment.Some?
    requires db.orders[o].payment.value.status != PayCancelled
    requires status != PayProcessing && (Cleared(db.orders[o].payment) ==> status == Refunded)
    ensures SafeStep(db, WithOrder(db, o, db.orders[o].(payment := WithPayment(db.orders[o].payment, status))))
  {
    assert OrderOk(db, db.orders[o]);
    OneOrder(db, o, db.orders[o].(payment := WithPayment(db.orders[o].payment, status)));
  }

  lemma ConfirmPaymentIsSafe(db: Db, user: nat, ref: PaymentRef, verified: bool, corrected: bool)
    requires Invariant(db)
    ensures SafeStep(db, After(ConfirmPayment(db, user, ref, verified, corrected), db))
  {
    hide Invariant, SafeStep;
    NoStep(db);
    if ConfirmPayment(db, user, ref, verified, corrected).Success? {
      match ref
      case BookingPayment(b) =>
        if verified {
          MarkPaidIsSafe(db, b, corrected);
        } else {
          BookingPaymentStatusIsSafe(db, b, PayFailed);
        }
      case OrderPayment(o) =>
        OrderPaymentStatusIsSafe(db, o, if verified then Paid else PayFailed);
    }
  }

  lemma MarkCashPaidIsSafe(db: Db, provider: nat, b: nat, corrected: bool)
    requires Invariant(db)
    ensures SafeStep(db, After(MarkCashPaid(db, provider, b, corrected), db))
  {
    NoStep(db);
    if MarkCashPaid(db, provider, b, corrected).Success? {
      MarkPaidIsSafe(db, b, corrected);
    }
  }

  lemma RefundIsSafe(db: Db, ref: PaymentRef)
    requires Invariant(db)
    ensures SafeStep(db, After(RefundPayment(db, ref), db))
  {
    hide Invariant, SafeStep;
    NoStep(db);
    if RefundPayment(db, ref).Success? {
      match ref
      case BookingPayment(b) => BookingPaymentStatusIsSafe(db, b, Refunded);
      case OrderPayment(o) => OrderPaymentStatusIsSafe(db, o, Refunded);
    }
  }

  // ----- package bookings --------------------------------------------------------------------------------

  lemma AcceptOrderIsSafe(db: Db, provider: nat, o: nat, now: Time)
    requires Invariant(db)
    ensures SafeStep(db, After(AcceptOrder(db, provider, o, now), db))
  {
    hide MoneyAddsUp, BookingEvolves, SafeStep;
    if o < |db.orders| {
      assert OrderOk(db, db.orders[o]);
    }
    StepByRows(db, After(AcceptOrder(db, provider, o, now), db));
  }

  lemma RejectOrderIsSafe(db: Db, provider: nat, o: nat)
    requires Invariant(db)
    ensures SafeStep(db, After(RejectOrder(db, provider, o), db))
  {
    hide MoneyAddsUp, BookingEvolves, SafeStep;
    NoStep(db);
    var r := RejectOrder(db, provider, o);
    if r.Success? {
      assert OrderOk(db, db.orders[o]);
      ChildrenReleased(db, r.value.bookings, o, {Pending, Confirmed, InProgress}, OrdRejected);
      StepByRows(db, r.value);
    }
  }

  lemma CancelOrderIsSafe(db: Db, customer: nat, o: nat)
    requires Invariant(db)
    ensures SafeStep(db, After(CancelOrder(db, customer, o), db))
  {
    hide MoneyAddsUp, BookingEvolves, SafeStep;
    NoStep(db);
    var r := CancelOrder(db, customer, o);
    if r.Success? {
      assert OrderOk(db, db.orders[o]);
      ChildrenReleased(db, r.value.bookings, o, {Pending, Confirmed}, OrdCancelled);
      StepByRows(db, r.value);
    }
  }

  // Money written on a package booking that is not closed, followed by its start. One that was over
  // before is revived only by the card payment it still had under way.
  lemma PaidThenStarted(db: Db, o: nat, payment: Payment)
    requires Invariant(db) && o < |db.orders| && !Closed(db.orders[o].status) && db.orders[o].payment.Some?
    requires Finished(db.orders[o].status) ==> AwaitsCard(db.orders[o].payment)
    requires payment == db.orders[o].payment.value.(status := Paid, channel := payment.channel,
                                                    intent := payment.intent)
    ensures SafeStep(db, StartOrder(WithOrder(db, o, db.orders[o].(payment := Some(payment))), o))
  {
    hide MoneyAddsUp, BookingEvolves, SafeStep;
    assert OrderOk(db, db.orders[o]);
    StepByRows(db, StartOrder(WithOrder(db, o, db.orders[o].(payment := Some(payment))), o));
  }

  lemma PayOrderIsSafe(db: Db, customer: nat, o: nat, channel: Channel, intentCreated: bool)
    requires Invariant(db)
    ensures SafeStep(db, After(PayOrder(db, customer, o, channel, intentCreated), db))
  {
    NoStep(db);
    var r := PayOrder(db, customer, o, channel, intentCreated);
    if r.Success? && !IsPaid(db.orders[o].payment) {
      assert OrderOk(db, db.orders[o]);
      var p := db.orders[o].payment.value;
      if channel == Cash || intentCreated {
        OneOrder(db, o, r.value.orders[o]);
      } else {
        PaidThenStarted(db, o, p.(channel := BankTransfer, status := Paid, intent := true));
      }
    }
  }

  lemma ConfirmOrderIsSafe(db: Db, user: nat, o: nat, verified: bool)
    requires Invariant(db)
    ensures SafeStep(db, After(ConfirmOrderCash(db, user, o), db))
    ensures SafeStep(db, After(ConfirmOrderCard(db, user, o, verified), db))
  {
    NoStep(db);
    if o < |db.orders| {
      assert OrderOk(db, db.orders[o]);
      if ConfirmOrderCash(db, user, o).Success? {
        PaidThenStarted(db, o, db.orders[o].payment.value.(status := Paid));
      }
      if ConfirmOrderCard(db, user, o, verified).Success? {
        if verified {
          PaidThenStarted(db, o, db.orders[o].payment.value.(status := Paid));
        } else {
          OrderPaymentStatusIsSafe(db, o, PayFailed);
        }
      }
    }
  }

  lemma CompleteOrderIsSafe(db: Db, provider: nat, o: nat)
    requires Invariant(db)
    ensures SafeStep(db, After(CompleteOrder(db, provider, o), db))
  {
    NoStep(db);
    if CompleteOrder(db, provider, o).Success? {
      FinishOrderIsSafe(db, o);
    }
  }

  // ----- sweepers ----------------------------------------------------------------------------------------

  lemma SweepBookingsIsSafe(db: Db, now: Time, k: nat)
    requires Invariant(db) && k <= |db.bookings|
    ensures SafeStep(db, SweepBookings(db, now, k))
  {
    hide MoneyAddsUp, BookingEvolves, OrderOk, OrderEvolves, SafeStep;
    StepByRows(db, SweepBookings(db, now, k));
  }

  lemma SweepEventIsSafe(db: Db, e: nat, now: Time)
    requires Invariant(db) && e < |db.events|
    ensures SafeStep(db, SweepEvent(db, e, now))
  {
    hide MoneyAddsUp, BookingEvolves, OrderOk, OrderEvolves, SafeStep;
    StepByRows(db, SweepEvent(db, e, now));
  }

  lemma {:induction false} SweepEventsIsSafe(db: Db, now: Time, k: nat)
    requires Invariant(db) && k <= |db.events|
    ensures SafeStep(db, SweepEvents(db, now, k))
  {
    hide Invariant, Evolves, SweepEvent, SweepOrder;
    if k == 0 {
      NoStep(db);
    } else {
      SweepEventsIsSafe(db, now, k - 1);
      SweepEventIsSafe(SweepEvents(db, now, k - 1), k - 1, now);
      SafeThenSafe(db, SweepEvents(db, now, k - 1), SweepEvents(db, now, k));
    }
  }

  // A package booking called off by a timer, with the children its sweep takes along.
  lemma CallOffIsSafe(db: Db, o: nat, from: set<BookingStatus>, row: Order)
    requires Invariant(db) && o < |db.orders| && Awaiting(db.orders[o].status)
    requires {Pending, Confirmed} <= from <= {Pending, Confirmed, InProgress}
    requires row == db.orders[o].(status := row.status, payment := row.payment) && CalledOff(row.status)
    requires row.payment == WithPayment(db.orders[o].payment, PayCancelled)
    ensures SafeStep(db, db.(bookings := Move(db.bookings, OfOrder(o), from, Cancelled), orders := db.orders[o := row]))
  {
    hide MoneyAddsUp, BookingEvolves, SafeStep;
    assert OrderOk(db, db.orders[o]);
    var bs := Move(db.bookings, OfOrder(o), from, Cancelled);
    ChildrenReleased(db, bs, o, from, row.status);
    StepByRows(db, db.(bookings := bs, orders := db.orders[o := row]));
  }

  lemma SweepOrderIsSafe(db: Db, kind: OrderSweep, o: nat, now: Time)
    requires Invariant(db) && o < |db.orders|
    ensures SafeStep(db, SweepOrder(db, kind, o, now))
  {
    hide SafeStep, Move, FinishOrder;
    NoStep(db);
    if SweepOrder(db, kind, o, now) != db {
      assert OrderOk(db, db.orders[o]);
      match kind
      case ExpirePending =>
        CallOffIsSafe(db, o, {Pending, Confirmed}, db.orders[o].(status := OrdExpired));
      case ExpireUnpaid =>
        CallOffIsSafe(db, o, {Pending, Confirmed, InProgress},
                      db.orders[o].(status := OrdCancelled,
                                    payment := WithPayment(db.orders[o].payment, PayCancelled)));
      case CompleteFinished =>
        FinishOrderIsSafe(db, o);
    }
  }

  lemma {:induction false} SweepOrdersIsSafe(db: Db, kind: OrderSweep, now: Time, k: nat)
    requires Invariant(db) && k <= |db.orders|
    ensures SafeStep(db, SweepOrders(db, kind, now, k))
  {
    hide Invariant, Evolves, SweepEvent, SweepOrder;
    if k == 0 {
      NoStep(db);
    } else {
      SweepOrdersIsSafe(db, kind, now, k - 1);
      SweepOrderIsSafe(SweepOrders(db, kind, now, k - 1), kind, k - 1, now);
      SafeThenSafe(db, SweepOrders(db, kind, now, k - 1), SweepOrders(db, kind, now, k));
    }
  }
}
