// Between the acceptance of a package booking and its payment: which of its children are still there when
// the money comes, and what can happen to a package booking that was paid at the wrong endpoint.
module PackageStarts {
  import opened Wrappers
  import opened Marketplace
  import opened Lifecycle
  import opened Safety
  import opened Progress
  import opened Runs
  import opened Guarantees
  import opened Starting
  import Admission
  import AdmissionSafety
  import Quotes

  // ----- children of an accepted package booking -----------------------------------------------------

  predicate SweptAt(b: Booking, now: Time) {
    b.deadline.Some? && b.deadline.value <= now && !IsPaid(b.payment)
  }

  // The two ways an accepted package booking loses a confirmed child before it is paid: the booking sweep
  // finds the child's deadline passed and the child itself unpaid, or the customer cancels the event.
  predicate LosesChild(db: Db, op: Operation, i: nat)
    requires i < |db.bookings|
  {
    || (op.OnSweep? && op.sweep.DoSweepBookings? && SweptAt(db.bookings[i], op.sweep.now))
    || (op.OnBooking? && op.booking.DoCancelEvent? && op.booking.e == db.bookings[i].event
        && CancelEvent(db, op.booking.customer, op.booking.e).Success?)
  }

  // What a step makes of child i of package booking o, both as they were: confirmed, and accepted.
  predicate ChildWaits(db: Db, db': Db, o: nat, i: nat, lost: bool)
    requires o < |db.orders| && i < |db.bookings|
  {
    o < |db'.orders| && i < |db'.bookings|
    && (db'.orders[o].status == OrdPendingPayment ==>
          db'.bookings[i].status == (if lost then Cancelled else Confirmed)
          && db'.bookings[i].finalAmount == db.bookings[i].finalAmount)
  }

  predicate AcceptedChild(db: Db, o: nat, i: nat) {
    && o < |db.orders| && i < |db.bookings| && db.bookings[i].order == Some(o)
    && db.orders[o].status == OrdPendingPayment && db.bookings[i].status == Confirmed
  }

  lemma BookingOpLeavesChild(db: Db, op: BookingOp, o: nat, i: nat)
    requires Invariant(db) && AcceptedChild(db, o, i)
    ensures ChildWaits(db, After(ExecuteBooking(db, op), db), o, i, LosesChild(db, OnBooking(op), i))
  {
    hide Invariant, BulkDecision, TryProgressEvent, ConfirmQuote, Quotes.Acceptable, Quotes.QuotedItems,
         Quotes.FinalTotals;
    if ExecuteBooking(db, op).Success? {
      match op
      case DoConfirmQuote(c, b, now) => ConfirmQuoteStartsNothing(db, c, b, now); QuoteWasSent(db, c, b, now);
      case DoBulkDecision(c, e, d, now) => BulkDecisionStarts(db, c, e, d, now, i);
      case _ =>
    }
  }

  lemma MarkedLeavesChild(was: Db, db: Db, b: nat, corrected: bool, o: nat, i: nat)
    requires AcceptedChild(was, o, i) && b < |db.bookings| == |was.bookings| && db.orders == was.orders
    requires db.bookings[i] == was.bookings[i].(payment := db.bookings[i].payment)
    ensures ChildWaits(was, MarkPaid(db, b, corrected), o, i, false)
  {
    hide CanProgress;
  }

  lemma PaymentOpLeavesChild(db: Db, op: PaymentOp, o: nat, i: nat)
    requires AcceptedChild(db, o, i)
    ensures ChildWaits(db, After(ExecutePayment(db, op), db), o, i, false)
  {
    hide MarkPaid, NewPayment, CheckIntent;
    forall db0: Db, b: nat, corrected: bool
      | b < |db0.bookings| == |db.bookings| && db0.orders == db.orders
        && db0.bookings[i] == db.bookings[i].(payment := db0.bookings[i].payment)
      ensures ChildWaits(db, MarkPaid(db0, b, corrected), o, i, false)
    {
      MarkedLeavesChild(db, db0, b, corrected, o, i);
    }
  }

  lemma OrderOpLeavesChild(db: Db, op: OrderOp, o: nat, i: nat)
    requires AcceptedChild(db, o, i)
    ensures ChildWaits(db, After(ExecuteOrder(db, op), db), o, i, false)
  {
    hide CheckIntent;
  }

  lemma SweepOpLeavesChild(db: Db, op: SweepOp, o: nat, i: nat)
    requires Invariant(db) && AcceptedChild(db, o, i)
    ensures ChildWaits(db, After(ExecuteSweep(db, op), db), o, i, LosesChild(db, OnSweep(op), i))
  {
    hide Invariant, SweepEvents, SweepOrders, Over;
    match op
    case DoSweepBookings(now) =>
    case DoSweepEvents(now) =>
      EventsInPlace(db, i);
      EventSweepIsExact(db, now, |db.events|);
    case DoSweepOrders(kind, now) => OrderSweepIsExact(db, kind, now, |db.orders|);
  }

  lemma StepLeavesChild(cat: Catalogue, db: Db, op: Operation, o: nat, i: nat)
    requires Invariant(db) && AcceptedChild(db, o, i)
    ensures ChildWaits(db, Apply(cat, db, op), o, i, LosesChild(db, op, i))
  {
    hide Invariant, ExecuteAdmission, ExecuteBooking, ExecutePayment, ExecuteOrder, ExecuteSweep;
    match op
    case OnAdmission(a) => AdmissionLeavesRows(cat, db, a, i);
    case OnBooking(b) => BookingOpLeavesChild(db, b, o, i);
    case OnPayment(p) => PaymentOpLeavesChild(db, p, o, i);
    case OnOrder(q) => OrderOpLeavesChild(db, q, o, i);
    case OnSweep(s) => SweepOpLeavesChild(db, s, o, i);
    case OnPackage(_) =>
    case OnBlocks(_) =>
  }

  // A sweep takes an unquoted child nobody paid for separately exactly from the request's own deadline on,
  // although the package booking was accepted and its payment deadline may be later.
  lemma SweepTakesChildIff(cat: Catalogue, past: seq<Operation>, now: Time, o: nat, i: nat)
    requires AcceptedChild(Reached(cat, past), o, i)
    requires var b := Reached(cat, past).bookings[i]; b.finalAmount.None? && !Cleared(b.payment)
    ensures Reached(cat, past).orders[o].pendingExpires.Some?
    ensures var after := Reached(cat, past + [OnSweep(DoSweepBookings(now))]);
            i < |after.bookings|
            && after.bookings[i].status ==
               (if Reached(cat, past).orders[o].pendingExpires.value <= now then Cancelled else Confirmed)
  {
    ReachedIsSound(cat, past);
    OneMore(cat, past, OnSweep(DoSweepBookings(now)));
    ChildDeadline(cat, Reached(cat, past), o, i);
  }

  lemma ChildDeadline(cat: Catalogue, db: Db, o: nat, i: nat)
    requires Sound(cat, db) && AcceptedChild(db, o, i) && db.bookings[i].finalAmount.None?
    ensures db.bookings[i].event == db.orders[o].event
    ensures db.bookings[i].deadline.Some? ==> db.bookings[i].deadline == db.orders[o].pendingExpires
    ensures db.bookings[i].deadline.Some? || Cleared(db.bookings[i].payment)
  {
    assert BookingOk(db, db.bookings[i]);
  }

  // ----- over runs -------------------------------------------------------------------------------------

  // Step k of `between`, taken after `past`, loses child i.
  ghost predicate LosesAt(cat: Catalogue, past: seq<Operation>, between: seq<Operation>, k: nat, i: nat)
    requires k < |between|
  {
    i < |Reached(cat, past + between[..k]).bookings| && LosesChild(Reached(cat, past + between[..k]), between[k], i)
  }

  ghost predicate Lost(cat: Catalogue, past: seq<Operation>, between: seq<Operation>, i: nat) {
    exists k :: 0 <= k < |between| && LosesAt(cat, past, between, k, i)
  }

  ghost predicate AcceptedThrough(cat: Catalogue, past: seq<Operation>, between: seq<Operation>, o: nat) {
    && o < |Reached(cat, past).orders| && Reached(cat, past).orders[o].status == OrdPendingPayment
    && o < |Reached(cat, past + between).orders|
    && Reached(cat, past + between).orders[o].status == OrdPendingPayment
  }

  lemma AcceptedAllAlong(cat: Catalogue, past: seq<Operation>, between: seq<Operation>, o: nat, k: nat)
    requires AcceptedThrough(cat, past, between, o) && k <= |between|
    ensures AcceptedThrough(cat, past, between[..k], o)
    ensures Reached(cat, past + between[..k]).orders[o].pendingExpires == Reached(cat, past).orders[o].pendingExpires
    ensures Reached(cat, past + between[..k]).orders[o].event == Reached(cat, past).orders[o].event
  {
    var mid := past + between[..k];
    assert past + between == mid + between[k..];
    ReachedEvolves(cat, past, between[..k]);
    ReachedEvolves(cat, mid, between[k..]);
    ReachedIsSound(cat, mid);
    hide Reached, Sound;
    assert OrderEvolves(Reached(cat, past).orders[o], Reached(cat, mid).orders[o]);
    assert OrderEvolves(Reached(cat, mid).orders[o], Reached(cat, mid + between[k..]).orders[o]);
  }

  lemma LostEarlier(cat: Catalogue, past: seq<Operation>, between: seq<Operation>, i: nat)
    requires between != []
    ensures var n := |between| - 1;
            Lost(cat, past, between, i) <==> Lost(cat, past, between[..n], i) || LosesAt(cat, past, between, n, i)
  {
    var n := |between| - 1;
    forall k | 0 <= k < n ensures LosesAt(cat, past, between[..n], k, i) <==> LosesAt(cat, past, between, k, i) {
      assert between[..n][..k] == between[..k];
    }
  }

  // Child i of package booking o, compared with an earlier state in which it was accepted.
  predicate ChildSince(was: Db, db: Db, o: nat, i: nat, lost: bool)
    requires i < |was.bookings|
  {
    && i < |db.bookings| && db.bookings[i].order == Some(o)
    && db.bookings[i].status == (if lost then Cancelled else Confirmed)
    && (!lost ==> db.bookings[i].finalAmount == was.bookings[i].finalAmount)
  }

  // As long as the package booking stays accepted, a confirmed child stays confirmed unless one of the two
  // losses happens to it, and then it is cancelled.
  lemma {:induction false} ChildrenWait(cat: Catalogue, past: seq<Operation>, between: seq<Operation>, o: nat, i: nat)
    requires AcceptedThrough(cat, past, between, o) && AcceptedChild(Reached(cat, past), o, i)
    ensures ChildSince(Reached(cat, past), Reached(cat, past + between), o, i, Lost(cat, past, between, i))
    decreases |between|
  {
    if between == [] {
      assert past + between == past;
    } else {
      var n := |between| - 1;
      var mid := past + between[..n];
      AcceptedAllAlong(cat, past, between, o, n);
      ChildrenWait(cat, past, between[..n], o, i);
      LostEarlier(cat, past, between, i);
      assert past + between == mid + [between[n]];
      OneMore(cat, mid, between[n]);
      ReachedIsSound(cat, mid);
      hide Reached, Sound, Lost, LosesChild, Apply, ChildSince;
      LastChildStep(cat, Reached(cat, past), Reached(cat, mid), between[n], o, i, Lost(cat, past, between[..n], i));
    }
  }

  lemma LastChildStep(cat: Catalogue, was: Db, db: Db, op: Operation, o: nat, i: nat, lost: bool)
    requires Sound(cat, db) && i < |was.bookings| && ChildSince(was, db, o, i, lost)
    requires o < |db.orders| && db.orders[o].status == OrdPendingPayment
    requires o < |Apply(cat, db, op).orders| && Apply(cat, db, op).orders[o].status == OrdPendingPayment
    ensures i < |db.bookings| && ChildSince(was, Apply(cat, db, op), o, i, lost || LosesChild(db, op, i))
  {
    hide Invariant, Apply, LosesChild;
    StepIsSafe(cat, db, op);
    assert BookingEvolves(db.bookings[i], Apply(cat, db, op).bookings[i]);
    if !lost {
      StepLeavesChild(cat, db, op, o, i);
    }
  }

  // ----- payment ---------------------------------------------------------------------------------------

  // The three calls that bring the money of package booking o: cash handed over, card verified, transfer
  // without a gateway.
  predicate PaysFor(op: OrderOp, o: nat) {
    || (op.DoConfirmOrderCash? && op.o == o)
    || (op.DoConfirmOrderCard? && op.o == o && op.verified)
    || (op.DoPayOrder? && op.o == o && op.channel == BankTransfer && !op.intentCreated)
  }

  lemma PaymentStarts(db: Db, op: OrderOp, o: nat)
    requires Invariant(db) && o < |db.orders|
    requires PaysFor(op, o) && ExecuteOrder(db, op).Success? && !IsPaid(db.orders[o].payment)
    ensures var db' := ExecuteOrder(db, op).value;
            && o < |db'.orders| && db'.orders[o].status == OrdInProgress && IsPaid(db'.orders[o].payment)
            && db'.orders[o].event < |db'.events| && db'.events[db'.orders[o].event].status == EvInProgress
            && |db'.bookings| == |db.bookings|
            && forall i :: 0 <= i < |db.bookings| ==>
                 db'.bookings[i] == if db.bookings[i].order == Some(o) && db.bookings[i].status == Confirmed
                                    then db.bookings[i].(status := InProgress) else db.bookings[i]
  {
    assert OrderOk(db, db.orders[o]);
  }

  lemma SoundIsInvariant(cat: Catalogue, db: Db)
    requires Sound(cat, db)
    ensures Invariant(db)
  {
    hide Invariant;
  }

  // From acceptance to payment: the payment starts the package booking and its event in any case, and each
  // child that was confirmed exactly if no sweep and no cancellation of the event took it in between. So it
  // starts with all its children if and only if nothing took any of them.
  lemma PaidPackageBookingStartsWholeIff(cat: Catalogue, past: seq<Operation>, between: seq<Operation>, op: OrderOp,
                                         o: nat)
    requires AcceptedThrough(cat, past, between, o)
    requires PaysFor(op, o) && ExecuteOrder(Reached(cat, past + between), op).Success?
    requires !IsPaid(Reached(cat, past + between).orders[o].payment)
    ensures var db := Reached(cat, past + between + [OnOrder(op)]);
            && o < |db.orders| && db.orders[o].status == OrdInProgress && IsPaid(db.orders[o].payment)
            && db.orders[o].event < |db.events| && db.events[db.orders[o].event].status == EvInProgress
    ensures var db := Reached(cat, past + between + [OnOrder(op)]);
            forall i: nat :: AcceptedChild(Reached(cat, past), o, i) ==>
              i < |db.bookings|
              && db.bookings[i].status == (if Lost(cat, past, between, i) then Cancelled else InProgress)
  {
    var mid := past + between;
    ReachedIsSound(cat, mid);
    OneMore(cat, mid, OnOrder(op));
    hide Sound, Lost, ExecuteOrder;
    forall i: nat | AcceptedChild(Reached(cat, past), o, i)
      ensures i < |Reached(cat, mid).bookings| && Reached(cat, mid).bookings[i].order == Some(o)
      ensures Reached(cat, mid).bookings[i].status == if Lost(cat, past, between, i) then Cancelled else Confirmed
    {
      ChildrenWait(cat, past, between, o, i);
    }
    SoundIsInvariant(cat, Reached(cat, mid));
    PaymentStarts(Reached(cat, mid), op, o);
    hide Reached, AcceptedChild;
  }

  // Neither the booking sweeper nor the customer interferes before the request's own deadline.
  predicate LeavesAlone(op: Operation, expires: Option<Time>, e: nat) {
    && (op.OnSweep? && op.sweep.DoSweepBookings? ==> expires.Some? && op.sweep.now < expires.value)
    && (op.OnBooking? && op.booking.DoCancelEvent? ==> op.booking.e != e)
  }

  predicate Undisturbed(between: seq<Operation>, order: Order) {
    forall k | 0 <= k < |between| :: LeavesAlone(between[k], order.pendingExpires, order.event)
  }

  lemma LeftAloneLosesNone(cat: Catalogue, db: Db, op: Operation, o: nat, i: nat)
    requires Sound(cat, db) && AcceptedChild(db, o, i) && db.bookings[i].finalAmount.None?
    requires LeavesAlone(op, db.orders[o].pendingExpires, db.orders[o].event)
    ensures !LosesChild(db, op, i)
  {
    ChildDeadline(cat, db, o, i);
    hide CancelEvent, Sound;
  }

  lemma {:induction false} UndisturbedLosesNone(cat: Catalogue, past: seq<Operation>, between: seq<Operation>, o: nat,
                                                i: nat)
    requires AcceptedThrough(cat, past, between, o) && AcceptedChild(Reached(cat, past), o, i)
    requires Reached(cat, past).bookings[i].finalAmount.None?
    requires Undisturbed(between, Reached(cat, past).orders[o])
    ensures !Lost(cat, past, between, i)
    decreases |between|
  {
    if between != [] {
      var n := |between| - 1;
      var mid := past + between[..n];
      assert Undisturbed(between[..n], Reached(cat, past).orders[o]);
      AcceptedAllAlong(cat, past, between, o, n);
      UndisturbedLosesNone(cat, past, between[..n], o, i);
      ChildrenWait(cat, past, between[..n], o, i);
      LostEarlier(cat, past, between, i);
      ReachedIsSound(cat, mid);
      hide Reached, Sound, Lost, LosesChild, LeavesAlone;
      LeftAloneLosesNone(cat, Reached(cat, mid), between[n], o, i);
    }
  }

  // Paid before the request's deadline is swept and without the event being cancelled, a package booking
  // starts with every unquoted child it was accepted with.
  lemma PromptPaymentStartsAll(cat: Catalogue, past: seq<Operation>, between: seq<Operation>, op: OrderOp, o: nat)
    requires AcceptedThrough(cat, past, between, o)
    requires PaysFor(op, o) && ExecuteOrder(Reached(cat, past + between), op).Success?
    requires !IsPaid(Reached(cat, past + between).orders[o].payment)
    requires Undisturbed(between, Reached(cat, past).orders[o])
    ensures var db := Reached(cat, past + between + [OnOrder(op)]);
            forall i: nat ::
              AcceptedChild(Reached(cat, past), o, i) && Reached(cat, past).bookings[i].finalAmount.None? ==>
              i < |db.bookings| && db.bookings[i].status == InProgress
  {
    PaidPackageBookingStartsWholeIff(cat, past, between, op, o);
    hide Lost, Reached, AcceptedChild, AcceptedThrough, ExecuteOrder, PaysFor, Undisturbed;
    forall i: nat | AcceptedChild(Reached(cat, past), o, i) && Reached(cat, past).bookings[i].finalAmount.None?
      ensures !Lost(cat, past, between, i)
    {
      UndisturbedLosesNone(cat, past, between, o, i);
    }
  }

  // ----- paid, yet waiting -------------------------------------------------------------------------------

  predicate PaidButWaiting(db: Db, o: nat) {
    o < |db.orders| && db.orders[o].status == OrdPendingPayment && IsPaid(db.orders[o].payment)
  }

  // The booking whose own payment an operation records as paid.
  function MoneyFor(db: Db, op: PaymentOp): Option<nat> {
    match op
    case DoCreatePayment(c, b, channel, d, answer, corrected) =>
      if ExecutePayment(db, op).Success? && b < |db.bookings| && db.bookings[b].payment.None?
         && channel == BankTransfer && answer == Charged
      then Some(b) else None
    case DoConfirmPayment(u, ref, verified, corrected) =>
      if ExecutePayment(db, op).Success? && ref.BookingPayment? && verified then Some(ref.b) else None
    case DoMarkCashPaid(p, b, corrected) => if ExecutePayment(db, op).Success? then Some(b) else None
    case DoRefund(_) => None
  }

  // With booking b paid, every child of o is settled and one is ready to start.
  predicate LastChildPaid(db: Db, b: nat, o: nat) {
    && b < |db.bookings| && db.bookings[b].order == Some(o)
    && (forall i | 0 <= i < |db.bookings| ::
          i != b && db.bookings[i].order == Some(o) ==> Settled(db.bookings[i]))
    && (db.bookings[b].status == Confirmed || db.bookings[b].status == InProgress || Terminal(db.bookings[b].status))
    && (db.bookings[b].status == Confirmed
        || exists i | 0 <= i < |db.bookings| :: i != b && db.bookings[i].order == Some(o)
             && ReadyToStart(db.bookings[i]))
  }

  // What still moves a package booking that is paid but was not started.
  predicate Unlocks(db: Db, op: Operation, o: nat) {
    || (op.OnOrder? && op.order.DoRejectOrder? && op.order.o == o && OwnedOrder(db, op.order.provider, o).Pass?)
    || (op.OnPayment? && op.payment == DoRefund(OrderPayment(o)))
    || (op.OnPayment? && MoneyFor(db, op.payment).Some? && LastChildPaid(db, MoneyFor(db, op.payment).value, o))
  }

  predicate Stays(db: Db, db': Db, o: nat, unlocked: bool)
    requires o < |db.orders|
  {
    o < |db'.orders| && (db'.orders[o] != db.orders[o] <==> unlocked)
  }

  lemma BookingOpKeepsOrders(db: Db, op: BookingOp)
    ensures After(ExecuteBooking(db, op), db).orders == db.orders
  {
    hide CanProgress, CheckDecision, AllCalledOff, Quotes.Acceptable, ProgressAll;
    if op.DoBulkDecision? {
      forall db0: Db, k: nat | k <= |op.decision.accepted|
        ensures ProgressAll(db0, op.decision.accepted, k, op.e).orders == db0.orders
      {
        ProgressAllKeepsOrders(db0, op.decision.accepted, k, op.e);
      }
    }
  }

  lemma {:induction false} ProgressAllKeepsOrders(db: Db, accepted: seq<nat>, k: nat, e: nat)
    requires k <= |accepted|
    ensures ProgressAll(db, accepted, k, e).orders == db.orders
  {
    if k > 0 {
      ProgressAllKeepsOrders(db, accepted, k - 1, e);
    }
  }

  // `db0` is the state in which booking b's payment is about to be marked paid.
  lemma MarkedMovesOrder(db: Db, db0: Db, b: nat, corrected: bool, o: nat)
    requires PaidButWaiting(db, o) && b < |db.bookings| && db0.orders == db.orders && db0.events == db.events
    requires |db0.bookings| == |db.bookings| && db0.bookings == db.bookings[b := db0.bookings[b]]
    requires db0.bookings[b] == db.bookings[b].(payment := db0.bookings[b].payment) && db0.bookings[b].payment.Some?
    ensures Stays(db, MarkPaid(db0, b, corrected), o, LastChildPaid(db, b, o))
  {
    var row := db0.bookings[b].(payment := WithPayment(db0.bookings[b].payment, Paid), deadline := None);
    var paid := WithBooking(db0, b, row);
    if row.order == Some(o) {
      ProgressIff(db, paid, b, o);
    }
  }

  lemma ProgressIff(db: Db, paid: Db, b: nat, o: nat)
    requires b < |db.bookings| == |paid.bookings| && db.bookings[b].order == Some(o)
    requires forall i :: 0 <= i < |db.bookings| && i != b ==> paid.bookings[i] == db.bookings[i]
    requires paid.bookings[b].status == db.bookings[b].status && paid.bookings[b].order == Some(o)
               && IsPaid(paid.bookings[b].payment)
    ensures CanProgress(paid.bookings, OfOrder(o)) <==> LastChildPaid(db, b, o)
  {
    var bs := paid.bookings;
    assert InGroup(bs[b], OfOrder(o));
    if LastChildPaid(db, b, o) {
      forall i | 0 <= i < |bs| && InGroup(bs[i], OfOrder(o)) ensures Settled(bs[i]) {
      }
      if db.bookings[b].status == Confirmed {
        assert ReadyToStart(bs[b]);
      } else {
        var i :| 0 <= i < |db.bookings| && i != b && db.bookings[i].order == Some(o) && ReadyToStart(db.bookings[i]);
        assert InGroup(bs[i], OfOrder(o)) && ReadyToStart(bs[i]);
      }
    }
    if CanProgress(bs, OfOrder(o)) {
      forall i | 0 <= i < |db.bookings| && i != b && db.bookings[i].order == Some(o) ensures Settled(db.bookings[i]) {
        assert InGroup(bs[i], OfOrder(o));
      }
      var i :| 0 <= i < |bs| && InGroup(bs[i], OfOrder(o)) && ReadyToStart(bs[i]);
      assert Settled(bs[b]);
    }
  }

  lemma PaymentOpMovesOrder(db: Db, op: PaymentOp, o: nat)
    requires PaidButWaiting(db, o)
    ensures Stays(db, After(ExecutePayment(db, op), db), o, Unlocks(db, OnPayment(op), o))
  {
    hide MarkPaid, NewPayment, LastChildPaid;
    match op
    case DoCreatePayment(c, b, channel, d, answer, corrected) =>
      if MoneyFor(db, op).Some? {
        var intent := channel == BankTransfer && answer == IntentCreated;
        var payment := NewPayment(db.bookings[b], channel, d, PayProcessing, intent);
        MarkedMovesOrder(db, WithBooking(db, b, db.bookings[b].(payment := Some(payment))), b, corrected, o);
      }
    case DoConfirmPayment(u, ref, verified, corrected) =>
      if MoneyFor(db, op).Some? {
        MarkedMovesOrder(db, db, ref.b, corrected, o);
      }
    case DoMarkCashPaid(p, b, corrected) =>
      if MoneyFor(db, op).Some? {
        MarkedMovesOrder(db, db, b, corrected, o);
      }
    case DoRefund(ref) =>
  }

  lemma OrderOpMovesOrder(db: Db, op: OrderOp, o: nat)
    requires PaidButWaiting(db, o)
    ensures Stays(db, After(ExecuteOrder(db, op), db), o, Unlocks(db, OnOrder(op), o))
  {
  }

  lemma SweepOpMovesOrder(db: Db, op: SweepOp, o: nat)
    requires PaidButWaiting(db, o)
    ensures Stays(db, After(ExecuteSweep(db, op), db), o, false)
  {
    hide SweepEvents, SweepOrders, Over;
    match op
    case DoSweepBookings(now) =>
    case DoSweepEvents(now) => EventSweepKeepsOrders(db, now, |db.events|);
    case DoSweepOrders(kind, now) => OrderSweepIsExact(db, kind, now, |db.orders|);
  }

  lemma {:induction false} EventSweepKeepsOrders(db: Db, now: Time, k: nat)
    requires k <= |db.events|
    ensures SweepEvents(db, now, k).orders == db.orders
  {
    hide Over;
    if k > 0 {
      EventSweepKeepsOrders(db, now, k - 1);
    }
  }

  lemma StepMovesOrder(cat: Catalogue, db: Db, op: Operation, o: nat)
    requires Sound(cat, db) && PaidButWaiting(db, o)
    ensures Stays(db, Apply(cat, db, op), o, Unlocks(db, op, o))
  {
    hide Invariant, Unlocks, ExecuteAdmission, ExecuteBooking, ExecutePayment, ExecuteOrder, ExecuteSweep;
    OnlyThreeUnlock(db, op, o);
    match op
    case OnAdmission(a) => AdmissionKeepsOrders(cat, db, a);
    case OnBooking(b) => BookingOpKeepsOrders(db, b);
    case OnPayment(p) => PaymentOpMovesOrder(db, p, o);
    case OnOrder(q) => OrderOpMovesOrder(db, q, o);
    case OnSweep(s) => SweepOpMovesOrder(db, s, o);
    case OnPackage(_) =>
    case OnBlocks(_) =>
  }

  lemma OnlyThreeUnlock(db: Db, op: Operation, o: nat)
    ensures Unlocks(db, op, o) ==> op.OnOrder? || op.OnPayment?
  {
  }

  lemma AdmissionKeepsOrders(cat: Catalogue, db: Db, op: AdmissionOp)
    requires Invariant(db)
    ensures |db.orders| <= |After(ExecuteAdmission(cat, db, op), db).orders|
    ensures forall o :: 0 <= o < |db.orders| ==> After(ExecuteAdmission(cat, db, op), db).orders[o] == db.orders[o]
  {
    hide Invariant, Evolves, Admission.CreateEvent, Admission.AddService, Admission.BookPackage;
    match op
    case DoCreateEvent(c, day, s, t, g, sels, now) =>
      AdmissionSafety.CreateEventIsSafe(cat, db, Event(c, day, s, t, g, EvDraft), sels, now);
    case DoAddService(c, e, sel, now) => AdmissionSafety.AddServiceIsSafe(cat, db, c, e, sel, now);
    case DoBookPackage(c, p, day, s, t, g, sels, discount, now) =>
      AdmissionSafety.BookPackageIsSafe(cat, db, p, Event(c, day, s, t, g, EvDraft), sels, discount, now);
  }

  ghost predicate SameAt(cat: Catalogue, past: seq<Operation>, future: seq<Operation>, k: nat, o: nat)
    requires k <= |future|
  {
    && o < |Reached(cat, past).orders| && o < |Reached(cat, past + future[..k]).orders|
    && Reached(cat, past + future[..k]).orders[o] == Reached(cat, past).orders[o]
  }

  ghost predicate UnlocksAt(cat: Catalogue, past: seq<Operation>, future: seq<Operation>, k: nat, o: nat)
    requires k < |future|
  {
    Unlocks(Reached(cat, past + future[..k]), future[k], o)
  }

  // The generic card endpoint records a package booking's money without starting it. From then on it is
  // not cancelled, not expired, not confirmed again and not started: its row stays as it is at every point
  // of every continuation, up to the first rejection by the package's owner, refund, or separate payment of
  // its last open child, each of which does move it.
  lemma PaidButWaitingMovesIff(cat: Catalogue, past: seq<Operation>, future: seq<Operation>, o: nat)
    requires PaidButWaiting(Reached(cat, past), o)
    ensures (forall k :: 0 <= k <= |future| ==> SameAt(cat, past, future, k, o))
            <==> (forall k :: 0 <= k < |future| ==> !UnlocksAt(cat, past, future, k, o))
  {
    SameIffLocked(cat, past, future, |future|, o);
  }

  lemma {:induction false} SameIffLocked(cat: Catalogue, past: seq<Operation>, future: seq<Operation>, n: nat, o: nat)
    requires n <= |future| && PaidButWaiting(Reached(cat, past), o)
    ensures (forall k :: 0 <= k <= n ==> SameAt(cat, past, future, k, o))
            <==> (forall k :: 0 <= k < n ==> !UnlocksAt(cat, past, future, k, o))
  {
    if n == 0 {
      assert past + future[..0] == past;
    } else {
      SameIffLocked(cat, past, future, n - 1, o);
      WaitingPrefix(cat, past, future, n - 1, o);
      hide SameAt, UnlocksAt, PaidButWaiting;
    }
  }

  // One more step of the continuation.
  lemma WaitingPrefix(cat: Catalogue, past: seq<Operation>, future: seq<Operation>, n: nat, o: nat)
    requires n < |future| && PaidButWaiting(Reached(cat, past), o)
    ensures SameAt(cat, past, future, n, o) ==>
              (SameAt(cat, past, future, n + 1, o) <==> !UnlocksAt(cat, past, future, n, o))
  {
    var mid := past + future[..n];
    assert past + future[..n + 1] == mid + [future[n]];
    ReachedIsSound(cat, mid);
    OneMore(cat, mid, future[n]);
    hide Reached, Sound, Apply, Unlocks;
    if o < |Reached(cat, mid).orders| && Reached(cat, mid).orders[o] == Reached(cat, past).orders[o] {
      StepMovesOrder(cat, Reached(cat, mid), future[n], o);
    }
  }
}
