// The same for package bookings and events: every change of their rows has exactly the causes that Causes lists.
module OrderRows {
  import opened Wrappers
  import opened Marketplace
  import opened Pricing
  import opened Lifecycle
  import opened Causes
  import opened Safety
  import opened Progress
  import opened Runs
  import opened Guarantees
  import opened Starting
  import opened PackageStarts
  import opened Transitions

  // ----- package bookings ------------------------------------------------------------------------------------

  predicate OrderMoved(o: Order, o': Order, s: OrderStatus) {
    o.status != s && o'.status == s
  }

  predicate OrderMoves(db: Db, db': Db, op: Operation, o: nat)
    requires o < |db.orders|
  {
    && o < |db'.orders|
    && var a, b := db.orders[o], db'.orders[o];
    && b == a.(status := b.status, payment := OrderPaymentAfter(db, op, o),
               paymentExpires := PaymentDeadlineAfter(db, op, o))
    && !OrderMoved(a, b, OrdPending) && !OrderMoved(a, b, OrdConfirmed)
    && (OrderMoved(a, b, OrdPendingPayment) <==> AcceptsOrder(db, op, o))
    && (OrderMoved(a, b, OrdInProgress) <==> a.status != OrdInProgress && StartsOrder(db, op, o))
    && (OrderMoved(a, b, OrdCompleted) <==> CompletesOrder(db, op, o))
    && (OrderMoved(a, b, OrdRejected) <==> RejectsOrder(db, op, o))
    && (OrderMoved(a, b, OrdCancelled) <==> CancelsOrder(db, op, o) || SweepsOrder(db, op, ExpireUnpaid, o))
    && (OrderMoved(a, b, OrdExpired) <==> SweepsOrder(db, op, ExpirePending, o))
  }

  lemma OrderUntouched(db: Db, db': Db, op: Operation, o: nat)
    requires !op.OnOrder? && !op.OnPayment? && !op.OnSweep?
    requires o < |db.orders| && o < |db'.orders| && db'.orders[o] == db.orders[o]
    ensures OrderMoves(db, db', op, o)
  {
    hide AcceptsOrder, RejectsOrder, CancelsOrder, StartsOrder, CompletesOrder, SweepsOrder, ChoosesPayment,
         GatewayAnswers;
    OrderCausesElsewhere(db, op, o);
  }

  lemma SweepMovesOrders(db: Db, op: SweepOp, o: nat)
    requires o < |db.orders|
    ensures OrderMoves(db, After(ExecuteSweep(db, op), db), OnSweep(op), o)
  {
    hide AcceptsOrder, RejectsOrder, CancelsOrder, StartsOrder, SweepsOrder, ChoosesPayment, GatewayAnswers,
         SweepEvents, SweepOrders, OrderDue, ChildrenSwept, EventsSwept;
    OrderCausesElsewhere(db, OnSweep(op), o);
    SweepsDue(db, op);
    match op
    case DoSweepBookings(now) => NoOrderIsSwept(db, op, o);
    case DoSweepEvents(now) => NoOrderIsSwept(db, op, o); EventSweepKeepsOrders(db, now, |db.events|);
    case DoSweepOrders(kind, now) =>
      OneKindIsSwept(db, kind, now);
      DueStatus(db, kind, o, now);
      OrderSweepIsExact(db, kind, now, |db.orders|);
  }

  lemma NoOrderIsSwept(db: Db, op: SweepOp, o: nat)
    requires !op.DoSweepOrders?
    ensures forall kind: OrderSweep :: !SweepsOrder(db, OnSweep(op), kind, o)
  {
  }

  lemma DueStatus(db: Db, kind: OrderSweep, o: nat, now: Time)
    requires o < |db.orders|
    ensures OrderDue(db, kind, db.orders[o], now) ==>
              db.orders[o].status == match kind
                                     case ExpirePending => OrdPending
                                     case ExpireUnpaid => OrdPendingPayment
                                     case CompleteFinished => OrdInProgress
  {
    hide Over;
  }

  lemma AcceptMovesOrder(db: Db, op: OrderOp, o: nat)
    requires Invariant(db) && o < |db.orders| && (op.DoAcceptOrder? || op.DoCompleteOrder?)
    ensures OrderMoves(db, After(ExecuteOrder(db, op), db), OnOrder(op), o)
  {
    hide Invariant, StartsOrder;
    NoPaymentIsMade(db, op);
    OrderInPlace(db, o);
  }

  lemma CallOffMovesOrder(db: Db, op: OrderOp, o: nat)
    requires Invariant(db) && o < |db.orders| && (op.DoRejectOrder? || op.DoCancelOrder?)
    ensures OrderMoves(db, After(ExecuteOrder(db, op), db), OnOrder(op), o)
  {
    hide Invariant, StartsOrder;
    NoPaymentIsMade(db, op);
    OrderInPlace(db, o);
  }

  // A payment call brings about no other cause.
  lemma PaymentCallCauses(db: Db, op: OrderOp, o: nat)
    requires PaymentCall(op)
    ensures !AcceptsOrder(db, OnOrder(op), o) && !RejectsOrder(db, OnOrder(op), o) && !CancelsOrder(db, OnOrder(op), o)
    ensures !CompletesOrder(db, OnOrder(op), o) && forall kind: OrderSweep :: !SweepsOrder(db, OnOrder(op), kind, o)
    ensures StartsOrder(db, OnOrder(op), o) <==> PaysOrder(db, op, o)
  {
  }

  lemma StartedOrder(db: Db, o: nat)
    requires o < |db.orders|
    ensures StartOrder(db, o).orders == db.orders[o := db.orders[o].(status := OrdInProgress)]
  {
  }

  lemma PayMovesOrder(db: Db, op: OrderOp, o: nat)
    requires Invariant(db) && o < |db.orders| && PaymentCall(op)
    ensures OrderMoves(db, After(ExecuteOrder(db, op), db), OnOrder(op), o)
  {
    hide Invariant, StartOrder, AcceptsOrder, RejectsOrder, CancelsOrder, CompletesOrder, SweepsOrder, StartsOrder;
    PaymentCallCauses(db, op, o);
    OrderInPlace(db, o);
    forall db0: Db, q: nat | q < |db0.orders|
      ensures StartOrder(db0, q).orders == db0.orders[q := db0.orders[q].(status := OrdInProgress)]
    {
      StartedOrder(db0, q);
    }
  }

  lemma OrderOpMovesOrders(db: Db, op: OrderOp, o: nat)
    requires Invariant(db) && o < |db.orders|
    ensures OrderMoves(db, After(ExecuteOrder(db, op), db), OnOrder(op), o)
  {
    hide OrderMoves, Invariant, ExecuteOrder;
    match op
    case DoAcceptOrder(_, _, _) => AcceptMovesOrder(db, op, o);
    case DoRejectOrder(_, _) => CallOffMovesOrder(db, op, o);
    case DoCancelOrder(_, _) => CallOffMovesOrder(db, op, o);
    case DoCompleteOrder(_, _) => AcceptMovesOrder(db, op, o);
    case _ => PayMovesOrder(db, op, o);
  }

  // ----- payments of bookings --------------------------------------------------------------------------------

  // Recording booking j's money starts its package booking if j was the last child to wait.
  predicate Unblocks(db: Db, j: nat, o: nat) {
    && o < |db.orders| && db.orders[o].status == OrdPendingPayment
    && LastToWait(db, j, o) && SomeCanStart(db, j, o)
  }

  lemma MarkedOrder(db: Db, db0: Db, j: nat, corrected: bool, o: nat)
    requires Invariant(db) && SameButPayment(db, db0, j) && o < |db.orders|
    ensures var db' := MarkPaid(db0, j, corrected);
            && |db'.orders| == |db.orders|
            && db'.orders[o] == if Unblocks(db, j, o) then db.orders[o].(status := OrdInProgress) else db.orders[o]
  {
    hide Invariant, CanProgress, LastToWait, SomeCanStart;
    EventsInPlace(db, j);
    LastIsChild(db, j, o);
    if db.bookings[j].order.Some? {
      var q := db.bookings[j].order.value;
      NeverConfirmed(db, q);
      CanProgressIff(db, db0, j, q);
    }
  }

  lemma UnblockedByMoney(db: Db, op: PaymentOp, j: nat, o: nat)
    requires TakesMoney(db, op, j) && o < |db.orders|
    ensures Unblocks(db, j, o) <==> StartsOrder(db, OnPayment(op), o)
    ensures !GatewayAnswers(db, OnPayment(op), o, true) && !GatewayAnswers(db, OnPayment(op), o, false)
    ensures forall q: nat :: op != DoRefund(OrderPayment(q))
  {
    hide LastToWait, SomeCanStart;
    OneBookingIsPaid(db, op);
  }

  lemma PaymentOpMovesOrders(db: Db, op: PaymentOp, o: nat)
    requires Invariant(db) && o < |db.orders|
    ensures OrderMoves(db, After(ExecutePayment(db, op), db), OnPayment(op), o)
  {
    hide Invariant, ExecutePayment, TakesMoney, MarkPaid, Opening, Unblocks, AcceptsOrder, RejectsOrder, CancelsOrder,
         StartsOrder, CompletesOrder, SweepsOrder, ChoosesPayment, GatewayAnswers;
    OrderCausesElsewhere(db, OnPayment(op), o);
    if j: nat :| j < |db.bookings| && TakesMoney(db, op, j) {
      MoneyIsMarked(db, op, j);
      UnblockedByMoney(db, op, j, o);
      MarkedOrder(db, Opening(db, op, j), j, IsCorrected(op), o);
      UnblocksWaiting(db, j, o);
    } else {
      NoMoneyNoOrder(db, op, o);
      OtherOrderPayments(db, op, o);
    }
  }

  lemma UnblocksWaiting(db: Db, j: nat, o: nat)
    requires o < |db.orders|
    ensures Unblocks(db, j, o) ==> db.orders[o].status == OrdPendingPayment
  {
  }

  lemma NoMoneyNoOrder(db: Db, op: PaymentOp, o: nat)
    requires forall j :: 0 <= j < |db.bookings| ==> !TakesMoney(db, op, j)
    ensures !StartsOrder(db, OnPayment(op), o)
  {
    hide TakesMoney;
  }

  lemma OtherOrderPayments(db: Db, op: PaymentOp, o: nat)
    requires o < |db.orders| && forall j :: 0 <= j < |db.bookings| ==> !TakesMoney(db, op, j)
    ensures var db' := After(ExecutePayment(db, op), db);
            && |db'.orders| == |db.orders|
            && db'.orders[o] == db.orders[o].(payment :=
                 if GatewayAnswers(db, OnPayment(op), o, true) then Marked(db.orders[o].payment, Paid)
                 else if GatewayAnswers(db, OnPayment(op), o, false) then Marked(db.orders[o].payment, PayFailed)
                 else if op == DoRefund(OrderPayment(o)) && IsPaid(db.orders[o].payment)
                      then Marked(db.orders[o].payment, Refunded)
                 else db.orders[o].payment)
  {
    hide MarkPaid, NewPayment;
    match op
    case DoCreatePayment(_, b, _, _, _, _) => assert b < |db.bookings| ==> !TakesMoney(db, op, b);
    case DoConfirmPayment(_, ref, _, _) =>
      assert ref.BookingPayment? && ref.b < |db.bookings| ==> !TakesMoney(db, op, ref.b);
    case DoMarkCashPaid(_, b, _) => assert b < |db.bookings| ==> !TakesMoney(db, op, b);
    case DoRefund(_) =>
  }

  lemma StepMovesOrders(cat: Catalogue, db: Db, op: Operation, o: nat)
    requires Invariant(db) && o < |db.orders|
    ensures OrderMoves(db, Apply(cat, db, op), op, o)
  {
    hide OrderMoves, Invariant, ExecuteAdmission, ExecuteBooking, ExecutePayment, ExecuteOrder, ExecuteSweep;
    match op
    case OnPayment(p) => PaymentOpMovesOrders(db, p, o);
    case OnOrder(q) => OrderOpMovesOrders(db, q, o);
    case OnSweep(s) => SweepMovesOrders(db, s, o);
    case _ =>
      match op {
        case OnAdmission(a) => AdmissionKeepsOrders(cat, db, a);
        case OnBooking(b) => BookingOpKeepsOrders(db, b);
        case _ =>
      }
      OrderUntouched(db, Apply(cat, db, op), op, o);
  }

  // In every reachable state and for every operation: a package booking's status becomes another one exactly
  // when something on its list of causes happens, and its payment and deadline are written as listed.
  lemma PackageBookingsMoveIff(cat: Catalogue, past: seq<Operation>, op: Operation, o: nat)
    requires o < |Reached(cat, past).orders|
    ensures o < |Reached(cat, past + [op]).orders|
    ensures var db := Reached(cat, past);
            var a, b := db.orders[o], Reached(cat, past + [op]).orders[o];
            && b == a.(status := b.status, payment := OrderPaymentAfter(db, op, o),
                       paymentExpires := PaymentDeadlineAfter(db, op, o))
            && !OrderMoved(a, b, OrdPending) && !OrderMoved(a, b, OrdConfirmed)
            && (OrderMoved(a, b, OrdPendingPayment) <==> AcceptsOrder(db, op, o))
            && (OrderMoved(a, b, OrdInProgress) <==> a.status != OrdInProgress && StartsOrder(db, op, o))
            && (OrderMoved(a, b, OrdCompleted) <==> CompletesOrder(db, op, o))
            && (OrderMoved(a, b, OrdRejected) <==> RejectsOrder(db, op, o))
            && (OrderMoved(a, b, OrdCancelled) <==> CancelsOrder(db, op, o) || SweepsOrder(db, op, ExpireUnpaid, o))
            && (OrderMoved(a, b, OrdExpired) <==> SweepsOrder(db, op, ExpirePending, o))
  {
    hide Apply;
    ReachedIsSound(cat, past);
    OneMore(cat, past, op);
    hide Reached;
    StepMovesOrders(cat, Reached(cat, past), op, o);
  }
}
