// What moves an event: through its bookings, its package bookings, the customer and the clock.
module EventRows {
  import opened Wrappers
  import opened Marketplace
  import opened Pricing
  import opened Lifecycle
  import opened Causes
  import opened Safety
  import opened Progress
  import opened Runs
  import opened Guarantees
  import opened Starting
  import opened Transitions
  import opened OrderRows
  import Admission
  import AdmissionSafety

  predicate EventMoved(e: Event, e': Event, s: EventStatus) {
    e.status != s && e'.status == s
  }

  predicate EventMoves(db: Db, db': Db, op: Operation, e: nat)
    requires e < |db.events|
  {
    && e < |db'.events|
    && var a, b := db.events[e], db'.events[e];
    && b == a.(status := b.status)
    && (EventMoved(a, b, EvDraft) <==> a.status != EvDraft && EventReopens(db, op, e))
    && (EventMoved(a, b, EvInProgress) <==> a.status != EvInProgress && EventStarts(db, op, e))
    && (EventMoved(a, b, EvCompleted) <==> a.status != EvCompleted && EventOver(db, op, e))
    && (EventMoved(a, b, EvCancelled) <==> a.status != EvCancelled && EventCalledOff(db, op, e))
  }

  // ----- which operations can move an event ------------------------------------------------------------------

  lemma EventCauses(db: Db, op: Operation, e: nat)
    requires e < |db.events|
    ensures EventCalledOff(db, op, e) ==>
              op.OnBooking? && (op.booking.DoCancelEvent? || op.booking.DoRejectQuote? || op.booking.DoBulkDecision?)
    ensures EventReopens(db, op, e) ==> op.OnBooking? && op.booking.DoRejectQuote?
    ensures EventOver(db, op, e) ==> op.OnSweep? || (op.OnOrder? && op.order.DoCompleteOrder?)
    ensures EventStarts(db, op, e) ==>
              (op.OnBooking? && op.booking.DoBulkDecision?) || op.OnPayment? || (op.OnOrder? && PaymentCall(op.order))
  {
    hide DecisionStands, CancellationStands;
  }

  lemma EventUntouched(db: Db, db': Db, op: Operation, e: nat)
    requires e < |db.events| && e < |db'.events| && db'.events[e] == db.events[e]
    requires !op.OnSweep? && !op.OnPayment?
    requires op.OnOrder? ==> !op.order.DoCompleteOrder? && !PaymentCall(op.order)
    requires op.OnBooking? ==>
               !op.booking.DoCancelEvent? && !op.booking.DoRejectQuote? && !op.booking.DoBulkDecision?
    ensures EventMoves(db, db', op, e)
  {
    hide EventCalledOff, EventReopens, EventOver, EventStarts;
    EventCauses(db, op, e);
  }

  // ----- the customer's answers ------------------------------------------------------------------------------

  lemma CancelMovesEvent(db: Db, customer: nat, c: nat, e: nat)
    requires e < |db.events|
    ensures EventMoves(db, After(CancelEvent(db, customer, c), db), OnBooking(DoCancelEvent(customer, c)), e)
  {
    hide EventReopens, EventOver, EventStarts, CancellationStands;
    EventCauses(db, OnBooking(DoCancelEvent(customer, c)), e);
    CancellationStandsIff(db, customer, c);
    CancellationNeedsEvent(db, customer, c);
  }

  lemma CancellationNeedsEvent(db: Db, customer: nat, e: nat)
    ensures CancellationStands(db, customer, e) ==> e < |db.events|
  {
  }

  lemma RejectionMovesEvent(db: Db, customer: nat, b: nat, e: nat)
    requires Invariant(db) && e < |db.events|
    ensures EventMoves(db, After(RejectQuote(db, customer, b), db), OnBooking(DoRejectQuote(customer, b)), e)
  {
    hide EventOver, EventStarts, Invariant;
    EventCauses(db, OnBooking(DoRejectQuote(customer, b)), e);
    if b < |db.bookings| {
      EventsInPlace(db, b);
    }
  }

  lemma {:induction false} ProgressAllEvents(db: Db, accepted: seq<nat>, k: nat, e: nat)
    requires k <= |accepted| && e < |db.events|
    requires forall x :: x in accepted ==> x < |db.bookings| && db.bookings[x].status == Confirmed
    ensures ProgressAll(db, accepted, k, e).events
            == if k > 0 && db.events[e].status == EvDraft
               then db.events[e := db.events[e].(status := EvInProgress)] else db.events
  {
    if k > 0 {
      ProgressAllEvents(db, accepted, k - 1, e);
      assert accepted[k - 1] in accepted;
      ProgressAllElsewhere(db, accepted, k - 1, e, accepted[k - 1]);
    }
  }

  lemma DecidedEvents(db: Db, customer: nat, c: nat, d: Decision, now: Time)
    requires Invariant(db) && DecisionStands(db, customer, c, d)
    ensures var op := OnBooking(DoBulkDecision(customer, c, d, now));
            var r := BulkDecision(db, customer, c, d, now);
            && r.Success? && c < |db.events|
            && r.value.events ==
               if RejectsTheRest(db, op, c) then db.events[c := db.events[c].(status := EvCancelled)]
               else if d.channel == Some(BankTransfer) && d.accepted != [] && db.events[c].status == EvDraft
               then db.events[c := db.events[c].(status := EvInProgress)] else db.events
  {
    hide Invariant, CheckDecision, Accepted;
    DecisionStandsIff(db, customer, c, d);
    BulkDecisionGoesThrough(db, customer, c, d, now);
    var decided := db.(bookings := Decided(db.bookings, d, now));
    CalledOffIff(db, customer, c, d, now);
    var closed := if AllCalledOff(decided.bookings, c) then WithEventStatus(decided, c, EvCancelled) else decided;
    if d.channel == Some(BankTransfer) {
      AcceptedAreConfirmed(db, d, now);
      forall x | x in d.accepted ensures x < |db.bookings| && closed.bookings[x].status == Confirmed {
        assert x in d.accepted + d.rejected;
      }
      ProgressAllEvents(closed, d.accepted, |d.accepted|, c);
    }
  }

  lemma AcceptedAreConfirmed(db: Db, d: Decision, now: Time)
    requires d.accepted != [] ==> d.channel.Some?
    ensures forall x :: x in d.accepted && x < |db.bookings| ==> Decided(db.bookings, d, now)[x].status == Confirmed
  {
  }

  lemma CalledOffIff(db: Db, customer: nat, c: nat, d: Decision, now: Time)
    requires DecisionStands(db, customer, c, d)
    ensures d.accepted != [] ==> d.channel.Some?
    ensures AllCalledOff(Decided(db.bookings, d, now), c) <==>
            RejectsTheRest(db, OnBooking(DoBulkDecision(customer, c, d, now)), c)
  {
    var bs := Decided(db.bookings, d, now);
    if d.accepted != [] {
      var x := d.accepted[0];
      assert x in d.accepted && x in d.accepted + d.rejected;
      assert bs[x].event == c && bs[x].status == Confirmed;
    } else {
      var x := d.rejected[0];
      assert x in d.rejected && x in d.accepted + d.rejected;
      assert bs[x].event == c;
      forall j | 0 <= j < |bs|
        ensures bs[j].event == db.bookings[j].event
        ensures bs[j].status == if j in d.rejected then Cancelled else db.bookings[j].status
      {
      }
    }
  }

  lemma DecisionCauses(db: Db, customer: nat, c: nat, d: Decision, now: Time, e: nat)
    requires e < |db.events|
    ensures var op := OnBooking(DoBulkDecision(customer, c, d, now));
            && (EventCalledOff(db, op, e) <==> e == c && RejectsTheRest(db, op, c))
            && (RejectsTheRest(db, op, c) ==> DecisionStands(db, customer, c, d) && d.accepted == [])
            && (EventStarts(db, op, e) <==>
                e == c && db.events[e].status == EvDraft && d.accepted != [] && d.channel == Some(BankTransfer)
                && DecisionStands(db, customer, c, d))
  {
    var op := OnBooking(DoBulkDecision(customer, c, d, now));
    if DecisionStands(db, customer, c, d) && d.accepted != [] && d.channel == Some(BankTransfer) {
      var x := d.accepted[0];
      assert x in d.accepted && x in d.accepted + d.rejected;
      assert AcceptsQuote(db, op, x, BankTransfer) && BecomesRunning(db, op, x);
    }
    if EventStarts(db, op, e) {
      var i :| 0 <= i < |db.bookings| && db.bookings[i].event == e && BecomesRunning(db, op, i);
      assert AcceptsQuote(db, op, i, BankTransfer) && i in d.accepted + d.rejected;
    }
  }

  lemma DecisionMovesEvent(db: Db, customer: nat, c: nat, d: Decision, now: Time, e: nat)
    requires Invariant(db) && e < |db.events|
    ensures EventMoves(db, After(BulkDecision(db, customer, c, d, now), db),
                       OnBooking(DoBulkDecision(customer, c, d, now)), e)
  {
    hide Invariant, EventOver, EventReopens, EventStarts, EventCalledOff, RejectsTheRest, DecisionStands, BulkDecision;
    EventCauses(db, OnBooking(DoBulkDecision(customer, c, d, now)), e);
    DecisionCauses(db, customer, c, d, now, e);
    if DecisionStands(db, customer, c, d) {
      DecidedEvents(db, customer, c, d, now);
    } else {
      RefusedDecision(db, customer, c, d, now);
    }
  }

  lemma RefusedDecision(db: Db, customer: nat, c: nat, d: Decision, now: Time)
    requires Invariant(db) && !DecisionStands(db, customer, c, d)
    ensures BulkDecision(db, customer, c, d, now).Failure?
  {
    hide Invariant, DecisionStands;
    DecisionStandsIff(db, customer, c, d);
    BulkDecisionGoesThrough(db, customer, c, d, now);
  }

  lemma BookingOpMovesEvents(db: Db, op: BookingOp, e: nat)
    requires Invariant(db) && e < |db.events|
    ensures EventMoves(db, After(ExecuteBooking(db, op), db), OnBooking(op), e)
  {
    hide EventMoves, Invariant, BulkDecision, ConfirmQuote, CancelEvent, RejectQuote;
    match op
    case DoBulkDecision(c, ev, d, now) => DecisionMovesEvent(db, c, ev, d, now, e);
    case DoCancelEvent(c, ev) => CancelMovesEvent(db, c, ev, e);
    case DoRejectQuote(c, b) => RejectionMovesEvent(db, c, b, e);
    case DoConfirmQuote(c, b, now) =>
      ConfirmedAlone(db, c, b, now);
      EventUntouched(db, After(ExecuteBooking(db, op), db), OnBooking(op), e);
    case _ => EventUntouched(db, After(ExecuteBooking(db, op), db), OnBooking(op), e);
  }

  // ----- package bookings ------------------------------------------------------------------------------------

  lemma PaymentMovesEvents(db: Db, op: OrderOp, e: nat)
    requires Invariant(db) && e < |db.events| && PaymentCall(op)
    ensures EventMoves(db, After(ExecuteOrder(db, op), db), OnOrder(op), e)
  {
    hide Invariant, PaysOrder, EventCalledOff, EventOver, EventReopens, EventStarts, Move, ExecuteOrder;
    EventCauses(db, OnOrder(op), e);
    OrderCauses(db, op, e);
    if op.o < |db.orders| {
      PaymentCallEffect(db, op);
      OrderInPlace(db, op.o);
    } else {
      NothingToPay(db, op);
      NoSuchOrder(db, op);
    }
  }

  lemma NoSuchOrder(db: Db, op: OrderOp)
    requires op.o >= |db.orders|
    ensures ExecuteOrder(db, op).Failure?
  {
  }

  lemma OrderCauses(db: Db, op: OrderOp, e: nat)
    requires Invariant(db) && e < |db.events|
    ensures PaymentCall(op) ==>
              (EventStarts(db, OnOrder(op), e) <==>
               op.o < |db.orders| && db.orders[op.o].event == e && PaysOrder(db, op, op.o))
    ensures op.DoCompleteOrder? ==>
              (EventOver(db, OnOrder(op), e) <==>
               op.o < |db.orders| && db.orders[op.o].event == e && OwnedBy(db, op.o, op.provider)
               && db.orders[op.o].status == OrdInProgress)
  {
    forall i: nat | i < |db.bookings|
      ensures db.bookings[i].event < |db.events|
      ensures db.bookings[i].order.Some? ==>
                db.bookings[i].order.value < |db.orders|
                && db.orders[db.bookings[i].order.value].event == db.bookings[i].event
    {
      SharedEvent(db, i);
    }
    hide Invariant;
  }

  lemma SharedEvent(db: Db, i: nat)
    requires Invariant(db) && i < |db.bookings|
    ensures db.bookings[i].event < |db.events|
    ensures db.bookings[i].order.Some? ==>
              db.bookings[i].order.value < |db.orders|
              && db.orders[db.bookings[i].order.value].event == db.bookings[i].event
  {
    assert BookingOk(db, db.bookings[i]);
  }

  lemma OrderOpMovesEvents(db: Db, op: OrderOp, e: nat)
    requires Invariant(db) && e < |db.events|
    ensures EventMoves(db, After(ExecuteOrder(db, op), db), OnOrder(op), e)
  {
    if op.DoCompleteOrder? {
      CompletionMovesEvents(db, op, e);
    } else if PaymentCall(op) {
      PaymentMovesEvents(db, op, e);
    } else {
      hide EventMoves, Invariant;
      EventUntouched(db, After(ExecuteOrder(db, op), db), OnOrder(op), e);
    }
  }

  lemma CompletionMovesEvents(db: Db, op: OrderOp, e: nat)
    requires Invariant(db) && e < |db.events| && op.DoCompleteOrder?
    ensures EventMoves(db, After(ExecuteOrder(db, op), db), OnOrder(op), e)
  {
    hide Invariant, EventCalledOff, EventOver, EventReopens, EventStarts, Move;
    EventCauses(db, OnOrder(op), e);
    OrderCauses(db, op, e);
    if op.o < |db.orders| {
      OrderInPlace(db, op.o);
    }
  }

  // ----- sweeps ----------------------------------------------------------------------------------------------

  lemma SweepEventCauses(db: Db, op: SweepOp, e: nat)
    requires e < |db.events|
    ensures op.DoSweepBookings? ==> !EventOver(db, OnSweep(op), e)
    ensures op.DoSweepEvents? ==> (EventOver(db, OnSweep(op), e) <==> SweepsEvent(db, OnSweep(op), e))
    ensures op.DoSweepOrders? ==>
              (EventOver(db, OnSweep(op), e) <==>
               exists o :: 0 <= o < |db.orders| && db.orders[o].event == e
                           && SweepsOrder(db, OnSweep(op), CompleteFinished, o))
  {
  }

  lemma SweepMovesEvents(db: Db, op: SweepOp, e: nat)
    requires e < |db.events|
    ensures EventMoves(db, After(ExecuteSweep(db, op), db), OnSweep(op), e)
  {
    hide EventCalledOff, EventOver, EventReopens, EventStarts, SweepEvents, SweepOrders, SweepsEvent, SweepsOrder,
         OrderDue, OrdersSwept, ChildrenSwept, Due;
    EventCauses(db, OnSweep(op), e);
    SweepEventCauses(db, op, e);
    SweepsDue(db, op);
    match op
    case DoSweepBookings(now) =>
    case DoSweepEvents(now) => EventSweepIsExact(db, now, |db.events|); DueEvents(db, now, e);
    case DoSweepOrders(kind, now) => OrderSweepIsExact(db, kind, now, |db.orders|);
  }

  lemma DueEvents(db: Db, now: Time, e: nat)
    requires e < |db.events|
    ensures Due(db.events[e], now) ==> db.events[e].status == EvInProgress
  {
  }

  // ----- payments of bookings --------------------------------------------------------------------------------

  lemma MarkedEvent(db: Db, db0: Db, j: nat, corrected: bool, e: nat)
    requires Invariant(db) && SameButPayment(db, db0, j) && e < |db.events|
    ensures var db' := MarkPaid(db0, j, corrected);
            && |db'.events| == |db.events|
            && db'.events[e] == if db.events[e].status == EvDraft && db.bookings[j].event == e
                                   && MoneyStarts(db, j, corrected)
                                then db.events[e].(status := EvInProgress) else db.events[e]
  {
    hide Invariant, CanProgress, LastToWait, SomeCanStart;
    SharedEvent(db, j);
    if db.bookings[j].order.Some? {
      var o := db.bookings[j].order.value;
      NeverConfirmed(db, o);
      CanProgressIff(db, db0, j, o);
    }
  }

  // Recording booking j's money starts something.
  predicate MoneyStarts(db: Db, j: nat, corrected: bool)
    requires j < |db.bookings|
  {
    if db.bookings[j].order.Some? then Unblocks(db, j, db.bookings[j].order.value)
    else corrected && db.bookings[j].status == Confirmed
  }

  lemma MoneyStartsRunning(db: Db, op: PaymentOp, j: nat, e: nat)
    requires Invariant(db) && j < |db.bookings| && TakesMoney(db, op, j) && e < |db.events|
    ensures EventStarts(db, OnPayment(op), e) <==>
            db.events[e].status == EvDraft && db.bookings[j].event == e && MoneyStarts(db, j, IsCorrected(op))
  {
    hide Invariant, TakesMoney, BecomesRunning, LastToWait;
    forall i: nat | i < |db.bookings|
      ensures BecomesRunning(db, OnPayment(op), i) <==> Starts(db, j, IsCorrected(op), i)
      ensures Starts(db, j, IsCorrected(op), i) ==>
                db.bookings[i].event == db.bookings[j].event && MoneyStarts(db, j, IsCorrected(op))
    {
      StartedByMoney(db, op, j, i);
      SharedEvent(db, i);
      SharedEvent(db, j);
      if Starts(db, j, IsCorrected(op), i) && db.bookings[j].order.Some? {
        assert SomeCanStart(db, j, db.bookings[j].order.value);
      }
    }
    if MoneyStarts(db, j, IsCorrected(op)) {
      SomethingStarts(db, j, IsCorrected(op));
      var i: nat :| i < |db.bookings| && Starts(db, j, IsCorrected(op), i);
      assert BecomesRunning(db, OnPayment(op), i);
    }
  }

  lemma SomethingStarts(db: Db, j: nat, corrected: bool)
    requires j < |db.bookings| && MoneyStarts(db, j, corrected)
    ensures exists i: nat :: i < |db.bookings| && Starts(db, j, corrected, i)
  {
    hide LastToWait;
    if db.bookings[j].order.Some? {
      var o := db.bookings[j].order.value;
      var i :| 0 <= i < |db.bookings| && db.bookings[i].order == Some(o) && db.bookings[i].status == Confirmed
               && (i == j || IsPaid(db.bookings[i].payment));
      assert Starts(db, j, corrected, i);
    } else {
      assert Starts(db, j, corrected, j);
    }
  }

  lemma PaymentOpMovesEvents(db: Db, op: PaymentOp, e: nat)
    requires Invariant(db) && e < |db.events|
    ensures EventMoves(db, After(ExecutePayment(db, op), db), OnPayment(op), e)
  {
    hide Invariant, ExecutePayment, TakesMoney, MarkPaid, Opening, MoneyStarts, EventCalledOff, EventOver, EventReopens,
         EventStarts;
    EventCauses(db, OnPayment(op), e);
    if j: nat :| j < |db.bookings| && TakesMoney(db, op, j) {
      MoneyIsMarked(db, op, j);
      MoneyStartsRunning(db, op, j, e);
      MarkedEvent(db, Opening(db, op, j), j, IsCorrected(op), e);
    } else {
      NothingTakenStartsNothing(db, op, e);
    }
  }

  lemma NothingTakenStartsNothing(db: Db, op: PaymentOp, e: nat)
    requires e < |db.events| && forall j :: 0 <= j < |db.bookings| ==> !TakesMoney(db, op, j)
    ensures After(ExecutePayment(db, op), db).events == db.events && !EventStarts(db, OnPayment(op), e)
  {
    hide ExecutePayment, TakesMoney, BecomesRunning;
    forall i: nat | i < |db.bookings| ensures !BecomesRunning(db, OnPayment(op), i) {
      NoMoneyNoStart(db, op, i);
    }
    EventsStay(db, op);
  }

  lemma EventsStay(db: Db, op: PaymentOp)
    requires forall j :: 0 <= j < |db.bookings| ==> !TakesMoney(db, op, j)
    ensures After(ExecutePayment(db, op), db).events == db.events
  {
    hide MarkPaid, NewPayment;
    match op
    case DoCreatePayment(_, b, _, _, _, _) => assert b < |db.bookings| ==> !TakesMoney(db, op, b);
    case DoConfirmPayment(_, ref, _, _) =>
      assert ref.BookingPayment? && ref.b < |db.bookings| ==> !TakesMoney(db, op, ref.b);
    case DoMarkCashPaid(_, b, _) => assert b < |db.bookings| ==> !TakesMoney(db, op, b);
    case DoRefund(_) =>
  }

  // ----- every operation -------------------------------------------------------------------------------------

  lemma AdmissionKeepsEvents(cat: Catalogue, db: Db, op: AdmissionOp)
    requires Invariant(db)
    ensures db.events <= After(ExecuteAdmission(cat, db, op), db).events
  {
    hide Invariant, Evolves, Admission.CreateEvent, Admission.AddService, Admission.BookPackage;
    match op
    case DoCreateEvent(c, day, s, t, g, sels, now) =>
      AdmissionSafety.CreateEventIsSafe(cat, db, Event(c, day, s, t, g, EvDraft), sels, now);
    case DoAddService(c, e, sel, now) => AdmissionSafety.AddServiceIsSafe(cat, db, c, e, sel, now);
    case DoBookPackage(c, p, day, s, t, g, sels, discount, now) =>
      AdmissionSafety.BookPackageIsSafe(cat, db, p, Event(c, day, s, t, g, EvDraft), sels, discount, now);
  }

  lemma StepMovesEvents(cat: Catalogue, db: Db, op: Operation, e: nat)
    requires Invariant(db) && e < |db.events|
    ensures EventMoves(db, Apply(cat, db, op), op, e)
  {
    hide EventMoves, Invariant, ExecuteAdmission, ExecuteBooking, ExecutePayment, ExecuteOrder, ExecuteSweep;
    match op
    case OnBooking(b) => BookingOpMovesEvents(db, b, e);
    case OnPayment(p) => PaymentOpMovesEvents(db, p, e);
    case OnOrder(q) => OrderOpMovesEvents(db, q, e);
    case OnSweep(s) => SweepMovesEvents(db, s, e);
    case OnAdmission(a) =>
      AdmissionKeepsEvents(cat, db, a);
      EventUntouched(db, Apply(cat, db, op), op, e);
    case _ => EventUntouched(db, Apply(cat, db, op), op, e);
  }

  // In every reachable state and for every operation: an event goes back to draft, under way, over or called off
  // exactly when something on its list of causes happens.
  lemma EventsMoveIff(cat: Catalogue, past: seq<Operation>, op: Operation, e: nat)
    requires e < |Reached(cat, past).events|
    ensures e < |Reached(cat, past + [op]).events|
    ensures var db := Reached(cat, past);
            var a, b := db.events[e], Reached(cat, past + [op]).events[e];
            && b == a.(status := b.status)
            && (EventMoved(a, b, EvDraft) <==> a.status != EvDraft && EventReopens(db, op, e))
            && (EventMoved(a, b, EvInProgress) <==> a.status != EvInProgress && EventStarts(db, op, e))
            && (EventMoved(a, b, EvCompleted) <==> a.status != EvCompleted && EventOver(db, op, e))
            && (EventMoved(a, b, EvCancelled) <==> a.status != EvCancelled && EventCalledOff(db, op, e))
  {
    hide Apply;
    ReachedIsSound(cat, past);
    OneMore(cat, past, op);
    hide Reached;
    StepMovesEvents(cat, Reached(cat, past), op, e);
  }
}
