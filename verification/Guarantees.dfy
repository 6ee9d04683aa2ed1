// What holds in every state the system can reach, and across any stretch of any run.
module Guarantees {
  import opened Wrappers
  import opened Marketplace
  import opened Pricing
  import opened Admission
  import opened Lifecycle
  import opened Safety
  import opened AdmissionSafety
  import opened Capacity
  import opened Progress
  import opened Runs
  import Composition
  import BlockedSlots
  import Quotes
  import TimeHelper

  ghost predicate Sound(cat: Catalogue, db: Db) {
    Invariant(db) && Composition.PackagesOk(cat, db.packages) && BlockedSlots.BlocksOk(db.blocks)
  }

  // ----- one operation ---------------------------------------------------------------------------

  lemma BookingStepIsSafe(db: Db, op: BookingOp)
    requires Invariant(db)
    ensures SafeStep(db, After(ExecuteBooking(db, op), db))
  {
    hide Invariant, SafeStep, SendQuote, RejectBooking, CompleteBooking, ConfirmQuote, RejectQuote, BulkDecision,
         CancelEvent;
    match op
    case DoSendQuote(p, b, lines, amount, now) => SendQuoteIsSafe(db, p, b, lines, amount, now);
    case DoRejectBooking(p, b) => ProviderStepsAreSafe(db, p, b);
    case DoCompleteBooking(p, b) => ProviderStepsAreSafe(db, p, b);
    case DoConfirmQuote(c, b, now) => ConfirmQuoteIsSafe(db, c, b, now);
    case DoRejectQuote(c, b) => RejectQuoteIsSafe(db, c, b);
    case DoBulkDecision(c, e, d, now) => BulkDecisionIsSafe(db, c, e, d, now);
    case DoCancelEvent(c, e) => CancelEventIsSafe(db, c, e);
  }

  lemma PaymentStepIsSafe(db: Db, op: PaymentOp)
    requires Invariant(db)
    ensures SafeStep(db, After(ExecutePayment(db, op), db))
  {
    hide Invariant, SafeStep, CreatePayment, ConfirmPayment, MarkCashPaid, RefundPayment;
    match op
    case DoCreatePayment(c, b, ch, d, a, corrected) => CreatePaymentIsSafe(db, c, b, ch, d, a, corrected);
    case DoConfirmPayment(u, ref, verified, corrected) => ConfirmPaymentIsSafe(db, u, ref, verified, corrected);
    case DoMarkCashPaid(p, b, corrected) => MarkCashPaidIsSafe(db, p, b, corrected);
    case DoRefund(ref) => RefundIsSafe(db, ref);
  }

  lemma OrderStepIsSafe(db: Db, op: OrderOp)
    requires Invariant(db)
    ensures SafeStep(db, After(ExecuteOrder(db, op), db))
  {
    hide Invariant, SafeStep, AcceptOrder, RejectOrder, CancelOrder, PayOrder, ConfirmOrderCash, ConfirmOrderCard,
         CompleteOrder;
    match op
    case DoAcceptOrder(p, o, now) => AcceptOrderIsSafe(db, p, o, now);
    case DoRejectOrder(p, o) => RejectOrderIsSafe(db, p, o);
    case DoCancelOrder(c, o) => CancelOrderIsSafe(db, c, o);
    case DoPayOrder(c, o, ch, intent) => PayOrderIsSafe(db, c, o, ch, intent);
    case DoConfirmOrderCash(p, o) => ConfirmOrderIsSafe(db, p, o, true);
    case DoConfirmOrderCard(c, o, verified) => ConfirmOrderIsSafe(db, c, o, verified);
    case DoCompleteOrder(p, o) => CompleteOrderIsSafe(db, p, o);
  }

  lemma SweepStepIsSafe(db: Db, op: SweepOp)
    requires Invariant(db)
    ensures SafeStep(db, After(ExecuteSweep(db, op), db))
  {
    hide Invariant, SafeStep, SweepBookings, SweepEvents, SweepOrders;
    match op
    case DoSweepBookings(now) => SweepBookingsIsSafe(db, now, |db.bookings|);
    case DoSweepEvents(now) => SweepEventsIsSafe(db, now, |db.events|);
    case DoSweepOrders(kind, now) => SweepOrdersIsSafe(db, kind, now, |db.orders|);
  }

  // A package is cancelled only by its owner, and only when none of its bookings still runs.
  lemma PackageEditIsSafe(cat: Catalogue, db: Db, op: PackageOp)
    requires Composition.PackagesOk(cat, db.packages)
    ensures var packages := After(EditedPackages(cat, db, op), db.packages);
            && Composition.PackagesOk(cat, packages)
            && Composition.CancelsNoneBut(db.packages, packages,
                 if op.DoLeavePackage? && !HasEngagedOrders(db, op.p) then Some(op.p) else None)
  {
    hide Composition.PackagesOk, Composition.CancelsNoneBut, Composition.CreatePackage, Composition.UpdatePackage,
         Composition.ActivatePackage, Composition.AnswerJoin, Composition.LeavePackage, Composition.SweepJoins;
    match op
    case DoCreatePackage(v, ids, pct, now) => Composition.CreateKeeps(cat, db.packages, v, ids, pct, now);
    case DoUpdatePackage(v, p, add, remove, pct, now) =>
           Composition.UpdateKeeps(cat, db.packages, v, p, add, remove, pct, now);
    case DoActivatePackage(v, p) => Composition.ActivateKeeps(cat, db.packages, v, p);
    case DoAnswerJoin(v, p, m, accept) => Composition.AnswerJoinKeeps(cat, db.packages, v, p, m, accept);
    case DoLeavePackage(v, p, m) =>
      Composition.LeaveKeeps(cat, db.packages, v, p, m, HasEngagedOrders(db, p), MemberEngaged(db, p, m));
    case DoSweepJoins(now) => Composition.SweepJoinsKeeps(cat, db.packages, now, |db.packages|);
  }

  lemma PackageStepIsSafe(cat: Catalogue, db: Db, op: PackageOp)
    requires Invariant(db) && Composition.PackagesOk(cat, db.packages)
    ensures var db' := After(ExecutePackage(cat, db, op), db);
            && Invariant(db') && Evolves(db, db') && db' == db.(packages := db'.packages)
            && Composition.PackagesOk(cat, db'.packages)
  {
    hide EditedPackages, Composition.PackagesOk, Invariant, Evolves;
    var db' := After(ExecutePackage(cat, db, op), db);
    PackageEditIsSafe(cat, db, op);
    PackagesAside(db, db');
  }

  lemma PackagesAside(db: Db, db': Db)
    requires Invariant(db) && db' == db.(packages := db'.packages, blocks := db'.blocks)
               && |db.packages| <= |db'.packages|
    requires forall o :: 0 <= o < |db.orders| && Awaiting(db.orders[o].status) && db.orders[o].package < |db.packages|
                         && db.packages[db.orders[o].package].status != PkgCancelled ==>
               db'.packages[db.orders[o].package].status != PkgCancelled
    ensures Invariant(db') && Evolves(db, db')
  {
    hide MoneyAddsUp;
    forall i | 0 <= i < |db.bookings| ensures BookingOk(db', db'.bookings[i]) {
      assert BookingOk(db, db.bookings[i]);
    }
    forall o | 0 <= o < |db.orders| ensures OrderOk(db', db'.orders[o]) {
      assert OrderOk(db, db.orders[o]);
    }
  }

  lemma AdmissionStepIsSafe(cat: Catalogue, db: Db, op: AdmissionOp)
    requires Invariant(db)
    ensures var db' := After(ExecuteAdmission(cat, db, op), db);
            && Invariant(db') && Evolves(db, db') && db'.packages == db.packages && db'.blocks == db.blocks
            && (!op.DoBookPackage? ==> db'.orders == db.orders)
  {
    hide Invariant, Evolves, CreateEvent, AddService, BookPackage;
    match op
    case DoCreateEvent(c, day, s, t, g, sels, now) =>
           CreateEventIsSafe(cat, db, Event(c, day, s, t, g, EvDraft), sels, now);
    case DoAddService(c, e, sel, now) => AddServiceIsSafe(cat, db, c, e, sel, now);
    case DoBookPackage(c, p, day, s, t, g, sels, discount, now) =>
      BookPackageIsSafe(cat, db, p, Event(c, day, s, t, g, EvDraft), sels, discount, now);
  }

  lemma BlockStepIsSafe(cat: Catalogue, db: Db, op: BlockOp)
    requires Invariant(db) && BlockedSlots.BlocksOk(db.blocks)
    ensures var db' := After(ExecuteBlocks(cat, db, op), db);
            && Invariant(db') && Evolves(db, db') && db' == db.(blocks := db'.blocks)
            && BlockedSlots.BlocksOk(db'.blocks)
  {
    hide BlockedSlots.BlocksOk, BlockedSlots.Created, BlockedSlots.Removed, Invariant, Evolves;
    match op {
      case DoBlock(p, request) =>
        BlockedSlots.CreateKeepsBlocks(db.blocks, p, request, OwnsService(cat, p, request.service));
      case DoUnblock(p, group, day, wholeGroup) =>
        BlockedSlots.RemoveKeepsBlocks(db.blocks, p, group, day, wholeGroup);
    }
    PackagesAside(db, After(ExecuteBlocks(cat, db, op), db));
  }

  // Every operation, accepted or refused, leads from a sound state to a sound state.
  lemma StepIsSafe(cat: Catalogue, db: Db, op: Operation)
    requires Sound(cat, db)
    ensures Sound(cat, Apply(cat, db, op)) && Evolves(db, Apply(cat, db, op))
    ensures !op.OnAdmission? ==> |Apply(cat, db, op).bookings| == |db.bookings|
    ensures !(op.OnAdmission? && op.admission.DoBookPackage?) ==> |Apply(cat, db, op).orders| == |db.orders|
  {
    hide Invariant, Evolves, Composition.PackagesOk, BlockedSlots.BlocksOk, ExecuteAdmission, ExecuteBooking,
         ExecutePayment, ExecuteOrder, ExecuteSweep, ExecutePackage, ExecuteBlocks;
    match op
    case OnAdmission(a) => AdmissionStepIsSafe(cat, db, a);
    case OnBooking(b) => BookingStepIsSafe(db, b);
    case OnPayment(p) => PaymentStepIsSafe(db, p);
    case OnOrder(o) => OrderStepIsSafe(db, o);
    case OnSweep(s) => SweepStepIsSafe(db, s);
    case OnPackage(p) => PackageStepIsSafe(cat, db, p);
    case OnBlocks(b) => BlockStepIsSafe(cat, db, b);
  }

  // The request lists no sub-service twice within one selection.
  predicate DistinctRequest(op: Operation) {
    op.OnAdmission? ==>
      match op.admission
      case DoCreateEvent(_, _, _, _, _, sels, _) => AllDistinctItems(sels)
      case DoAddService(_, _, sel, _) => DistinctItems(sel.items)
      case DoBookPackage(_, _, _, _, _, _, sels, _, _) => AllDistinctItems(sels)
  }

  lemma AdmissionKeepsCapacity(cat: Catalogue, db: Db, op: AdmissionOp, distinct: bool)
    requires Invariant(db) && NothingOversold(cat, db, distinct)
    requires distinct ==> DistinctRequest(OnAdmission(op))
    ensures NothingOversold(cat, After(ExecuteAdmission(cat, db, op), db), distinct)
  {
    hide NothingOversold, Invariant, CreateEvent, AddService, BookPackage, DistinctItems, AllDistinctItems;
    match op
    case DoCreateEvent(c, day, s, t, g, sels, now) =>
      CreateEventKeepsCapacity(cat, db, Event(c, day, s, t, g, EvDraft), sels, now, distinct);
    case DoAddService(c, e, sel, now) => AddServiceKeepsCapacity(cat, db, c, e, sel, now, distinct);
    case DoBookPackage(c, p, day, s, t, g, sels, discount, now) =>
      BookPackageKeepsCapacity(cat, db, p, Event(c, day, s, t, g, EvDraft), sels, discount, now, distinct);
  }

  lemma StepKeepsCapacity(cat: Catalogue, db: Db, op: Operation, distinct: bool)
    requires Sound(cat, db) && NothingOversold(cat, db, distinct)
    requires distinct ==> DistinctRequest(op)
    ensures NothingOversold(cat, Apply(cat, db, op), distinct)
  {
    hide NothingOversold, Invariant, Evolves, ExecuteAdmission, ExecuteBooking, ExecutePayment, ExecuteOrder,
         ExecuteSweep, ExecutePackage, ExecuteBlocks;
    if op.OnAdmission? {
      AdmissionKeepsCapacity(cat, db, op.admission, distinct);
    } else {
      StepIsSafe(cat, db, op);
      EvolvingKeepsCapacity(cat, db, Apply(cat, db, op), distinct);
    }
  }

  // ----- runs ----------------------------------------------------------------------------------------

  lemma {:induction false} RunIsSafe(cat: Catalogue, db: Db, ops: seq<Operation>)
    requires Sound(cat, db)
    ensures Sound(cat, Run(cat, db, ops)) && Evolves(db, Run(cat, db, ops))
  {
    if ops == [] {
      PackagesAside(db, db);
    } else {
      var n := |ops| - 1;
      RunIsSafe(cat, db, ops[..n]);
      StepIsSafe(cat, Run(cat, db, ops[..n]), ops[n]);
      EvolvesTransitive(db, Run(cat, db, ops[..n]), Run(cat, db, ops));
    }
  }

  function Reached(cat: Catalogue, ops: seq<Operation>): Db {
    Run(cat, EMPTY, ops)
  }

  lemma OneMore(cat: Catalogue, ops: seq<Operation>, op: Operation)
    ensures Reached(cat, ops + [op]) == Apply(cat, Reached(cat, ops), op)
  {
    assert (ops + [op])[..|ops|] == ops;
  }

  lemma ReachedIsSound(cat: Catalogue, ops: seq<Operation>)
    ensures Sound(cat, Reached(cat, ops))
  {
    RunIsSafe(cat, EMPTY, ops);
  }

  lemma ItemIdsAreDistinct(cat: Catalogue, ops: seq<Operation>, b: nat)
    requires b < |Reached(cat, ops).bookings|
    ensures Quotes.DistinctIds(Reached(cat, ops).bookings[b].items)
  {
    ReachedIsSound(cat, ops);
    assert BookingOk(Reached(cat, ops), Reached(cat, ops).bookings[b]);
  }

  // ----- capacity ------------------------------------------------------------------------------------

  predicate AllDistinctRequests(ops: seq<Operation>) {
    forall i | 0 <= i < |ops| :: DistinctRequest(ops[i])
  }

  // In every reachable state and on every day, each slotted availability, each slot, each service's
  // slotless pool, and each pair of customer and service holds no more live bookings than it may; the
  // live quantity of each sub-service is within its daily capacity if no selection ever repeated one.
  lemma {:induction false} CapacityIsNeverOversold(cat: Catalogue, ops: seq<Operation>)
    ensures NothingOversold(cat, Reached(cat, ops), AllDistinctRequests(ops))
  {
    RunKeepsCapacity(cat, ops, AllDistinctRequests(ops));
  }

  lemma {:induction false} RunKeepsCapacity(cat: Catalogue, ops: seq<Operation>, distinct: bool)
    requires distinct ==> AllDistinctRequests(ops)
    ensures NothingOversold(cat, Reached(cat, ops), distinct)
  {
    if ops != [] {
      var n := |ops| - 1;
      if distinct {
        forall i | 0 <= i < n ensures DistinctRequest(ops[..n][i]) {
          assert ops[..n][i] == ops[i];
        }
      }
      RunKeepsCapacity(cat, ops[..n], distinct);
      ReachedIsSound(cat, ops[..n]);
      StepKeepsCapacity(cat, Reached(cat, ops[..n]), ops[n], distinct);
    }
  }

  // The availability that takes a service's slotless bookings on a day: the first without slots that is open.
  predicate PoolOf(cat: Catalogue, s: nat, day: int, a: nat) {
    && a < |cat.availabilities| && SlotlessOn(cat, s, day, a)
    && forall c: nat | c < a :: !SlotlessOn(cat, s, day, c)
  }

  predicate SlotlessOn(cat: Catalogue, s: nat, day: int, a: nat)
    requires a < |cat.availabilities|
  {
    cat.availabilities[a].service == s && (day + 4) % 7 in cat.availabilities[a].days && !cat.availabilities[a].hasSlots
  }

  lemma PoolIsFound(cat: Catalogue, s: nat, day: int, a: nat)
    requires PoolOf(cat, s, day, a)
    ensures FirstPool(cat, s, Weekday(day), 0) == Some(a)
  {
    PoolIsFirst(cat, s, Weekday(day), 0);
    var pool := FirstPool(cat, s, Weekday(day), 0);
    if pool.Some? && pool.value < a {
      assert SlotlessOn(cat, s, day, pool.value);
    }
  }

  // All layers in plain terms: on no day are there more live bookings in a slot, in an availability through its
  // slots, or in a service's pool than there is capacity, nor is more of a sub-service booked than a day offers.
  lemma LayersAreNeverOverbooked(cat: Catalogue, ops: seq<Operation>, day: int)
    ensures forall t: nat :: t < |cat.slots| && cat.slots[t].capacity >= 0 ==>
              |InSlot(Reached(cat, ops), t, day, false)| <= cat.slots[t].capacity
    ensures forall a: nat :: a < |cat.availabilities| && cat.availabilities[a].capacity >= 0 ==>
              |InAvailability(cat, Reached(cat, ops), a, day, false)| <= cat.availabilities[a].capacity
    ensures forall s: nat, a: nat :: PoolOf(cat, s, day, a) && cat.availabilities[a].capacity >= 0 ==>
              |InPool(Reached(cat, ops), s, day, false)| <= cat.availabilities[a].capacity
    ensures AllDistinctRequests(ops) ==>
              forall x: nat :: x < |cat.subs| && cat.subs[x].dailyCapacity >= 0 ==>
                AllBooked(Reached(cat, ops), x, day, false) <= cat.subs[x].dailyCapacity
  {
    var db := Reached(cat, ops);
    CapacityIsNeverOversold(cat, ops);
    LoadsAreCounts(cat, db, day, false);
    hide Reached, Load, InSlot, InAvailability, InPool, AllBooked, AllDistinctRequests;
    forall t: nat ensures Fits(cat, db, SlotDay(t), day) {
    }
    forall a: nat ensures Fits(cat, db, AvailabilityDay(a), day) {
    }
    forall s: nat, a: nat | PoolOf(cat, s, day, a)
      ensures Fits(cat, db, PoolDay(s), day) && FirstPool(cat, s, Weekday(day), 0) == Some(a)
    {
      PoolIsFound(cat, s, day, a);
    }
    if AllDistinctRequests(ops) {
      forall x: nat ensures Fits(cat, db, SubServiceDay(x), day) {
      }
    }
  }

  // A customer never has two live bookings of one service on one day.
  lemma NoDoubleBooking(cat: Catalogue, ops: seq<Operation>, i: nat, j: nat)
    requires i < j < |Reached(cat, ops).bookings|
    ensures var db := Reached(cat, ops);
            var a, b := db.bookings[i], db.bookings[j];
            a.event < |db.events| && b.event < |db.events| &&
            !(a.customer == b.customer && a.service == b.service && db.events[a.event].day == db.events[b.event].day
              && Occupies(a, false) && Occupies(b, false))
  {
    var db := Reached(cat, ops);
    ReachedIsSound(cat, ops);
    assert BookingOk(db, db.bookings[i]) && BookingOk(db, db.bookings[j]);
    CapacityIsNeverOversold(cat, ops);
    var r := CustomerDay(db.bookings[i].customer, db.bookings[i].service);
    var day := db.events[db.bookings[i].event].day;
    assert Fits(cat, db, r, day);
    TwoWeigh(cat, db.events, db.bookings, r, day, i, j);
  }

  // ----- money before work -----------------------------------------------------------------------------

  // A booking under way or completed was paid for itself, or belongs to a started package booking
  // whose own payment cleared.
  lemma NothingStartsUnpaid(cat: Catalogue, ops: seq<Operation>, i: nat)
    requires i < |Reached(cat, ops).bookings|
    ensures var db := Reached(cat, ops);
            var b := db.bookings[i];
            b.status == InProgress || b.status == Completed ==>
              Cleared(b.payment)
              || exists o :: b.order == Some(o) && 0 <= o < |db.orders| && Cleared(db.orders[o].payment)
                             && (db.orders[o].status == OrdInProgress || db.orders[o].status == OrdCompleted)
  {
    ReachedIsSound(cat, ops);
    assert BookingOk(Reached(cat, ops), Reached(cat, ops).bookings[i]);
  }

  // What a payment asks for is what was quoted: amount plus discount is the final amount, which is
  // the sum of unit price times quantity over the priced items; a package's payment asks for its total.
  lemma PaymentsMatchQuotes(cat: Catalogue, ops: seq<Operation>, i: nat)
    requires i < |Reached(cat, ops).bookings|
    requires Reached(cat, ops).bookings[i].payment.Some?
    ensures var b := Reached(cat, ops).bookings[i];
            b.payment.value.amount + b.payment.value.discount == Owed(b)
            && (b.finalAmount.Some? && |b.items| > 0 ==> Owed(b) == Quotes.FinalTotals(b.items))
  {
    ReachedIsSound(cat, ops);
    assert BookingOk(Reached(cat, ops), Reached(cat, ops).bookings[i]);
  }

  // ----- nobody waits forever --------------------------------------------------------------------------

  lemma NoBookingIsStuck(cat: Catalogue, ops: seq<Operation>, i: nat)
    requires i < |Reached(cat, ops).bookings|
    ensures var b := Reached(cat, ops).bookings[i];
            (b.status == Pending || b.status == QuoteSent ==> b.deadline.Some?)
            && (b.status == Confirmed ==> b.deadline.Some? || Cleared(b.payment))
  {
    ReachedIsSound(cat, ops);
    assert BookingOk(Reached(cat, ops), Reached(cat, ops).bookings[i]);
  }

  // After the booking sweeper ran at `now`, whatever still waits without money has a deadline ahead.
  lemma SweepLeavesOnlyFuture(cat: Catalogue, ops: seq<Operation>, now: Time, i: nat)
    requires i < |Reached(cat, ops + [OnSweep(DoSweepBookings(now))]).bookings|
    ensures var b := Reached(cat, ops + [OnSweep(DoSweepBookings(now))]).bookings[i];
            b.status == Pending || b.status == QuoteSent || (b.status == Confirmed && !Cleared(b.payment)) ==>
              b.deadline.Some? && b.deadline.value > now
  {
    assert (ops + [OnSweep(DoSweepBookings(now))])[..|ops|] == ops;
    ReachedIsSound(cat, ops);
    assert BookingOk(Reached(cat, ops), Reached(cat, ops).bookings[i]);
  }

  // A booking that waits survives a sweep exactly if its deadline is still ahead or it is confirmed and paid. Only
  // a confirmed booking whose money arrived, and was perhaps handed back, waits without a deadline.
  lemma WaitingSurvivesSweepIff(cat: Catalogue, past: seq<Operation>, now: Time, i: nat)
    requires i < |Reached(cat, past).bookings|
    requires var s := Reached(cat, past).bookings[i].status; s == Pending || s == QuoteSent || s == Confirmed
    ensures i < |Reached(cat, past + [OnSweep(DoSweepBookings(now))]).bookings|
    ensures var swept := Reached(cat, past + [OnSweep(DoSweepBookings(now))]);
            var b, b' := Reached(cat, past).bookings[i], swept.bookings[i];
            && (b.deadline.None? ==> b.status == Confirmed && Cleared(b.payment))
            && (b' == b <==>
                (b.deadline.Some? ==> b.deadline.value > now) || (b.status == Confirmed && IsPaid(b.payment)))
            && (b' != b ==> b' == b.(status := Cancelled))
  {
    NoBookingIsStuck(cat, past, i);
    OneMore(cat, past, OnSweep(DoSweepBookings(now)));
    hide Reached;
    BookingSweepIsExact(Reached(cat, past), now, i);
  }

  // The same for package bookings: a pending one has a request deadline, an accepted one a payment
  // deadline, and after both sweeps only deadlines not yet passed (or a paid payment) remain.
  lemma PackageSweepsLeaveOnlyFuture(cat: Catalogue, ops: seq<Operation>, now: Time, o: nat)
    requires var swept := ops + [OnSweep(DoSweepOrders(ExpirePending, now))]
               + [OnSweep(DoSweepOrders(ExpireUnpaid, now))];
             o < |Reached(cat, swept).orders|
    ensures var swept := ops + [OnSweep(DoSweepOrders(ExpirePending, now))]
              + [OnSweep(DoSweepOrders(ExpireUnpaid, now))];
            var order := Reached(cat, swept).orders[o];
            (order.status == OrdPending ==> order.pendingExpires.Some? && order.pendingExpires.value >= now)
            && (order.status == OrdPendingPayment ==>
                  order.paymentExpires.Some? && (order.paymentExpires.value >= now || IsPaid(order.payment)))
  {
    var first := ops + [OnSweep(DoSweepOrders(ExpirePending, now))];
    var both := first + [OnSweep(DoSweepOrders(ExpireUnpaid, now))];
    OneMore(cat, ops, OnSweep(DoSweepOrders(ExpirePending, now)));
    OneMore(cat, first, OnSweep(DoSweepOrders(ExpireUnpaid, now)));
    ReachedIsSound(cat, both);
    hide Reached;
    SoundOrder(cat, Reached(cat, both), o);
    OrderSweepIsExact(Reached(cat, ops), ExpirePending, now, |Reached(cat, ops).orders|);
    OrderSweepIsExact(Reached(cat, first), ExpireUnpaid, now, |Reached(cat, first).orders|);
    hide Sound, SweepOrders;
  }

  lemma SoundOrder(cat: Catalogue, db: Db, o: nat)
    requires Sound(cat, db) && o < |db.orders|
    ensures OrderOk(db, db.orders[o])
  {
  }

  // ----- what stays as it is -----------------------------------------------------------------------------

  lemma {:induction false} RunInTwoParts(cat: Catalogue, db: Db, past: seq<Operation>, future: seq<Operation>)
    ensures Run(cat, db, past + future) == Run(cat, Run(cat, db, past), future)
  {
    if future == [] {
      assert past + future == past;
    } else {
      var n := |future| - 1;
      assert (past + future)[..|past| + n] == past + future[..n];
      RunInTwoParts(cat, db, past, future[..n]);
    }
  }

  lemma ReachedEvolves(cat: Catalogue, past: seq<Operation>, future: seq<Operation>)
    ensures Evolves(Reached(cat, past), Reached(cat, past + future))
  {
    ReachedIsSound(cat, past);
    RunInTwoParts(cat, EMPTY, past, future);
    RunIsSafe(cat, Reached(cat, past), future);
  }

  // A cancelled or expired package booking stays exactly as it is: no later step revives it, and its
  // payment, absent or cancelled, is never marked paid.
  lemma ClosedPackageBookingsStayClosed(cat: Catalogue, past: seq<Operation>, future: seq<Operation>, o: nat)
    requires o < |Reached(cat, past).orders|
    requires var status := Reached(cat, past).orders[o].status; status == OrdCancelled || status == OrdExpired
    ensures o < |Reached(cat, past + future).orders|
    ensures Reached(cat, past + future).orders[o] == Reached(cat, past).orders[o]
    ensures !Cleared(Reached(cat, past + future).orders[o].payment)
  {
    ReachedEvolves(cat, past, future);
    ReachedIsSound(cat, past);
    assert OrderEvolves(Reached(cat, past).orders[o], Reached(cat, past + future).orders[o]);
    assert OrderOk(Reached(cat, past), Reached(cat, past).orders[o]);
  }

  // Rejected and completed package bookings can be revived: card confirmation does not look at the
  // status. They stay what they are in every continuation exactly when no card payment is under way.
  lemma FinishedPackageBookingsStayIff(cat: Catalogue, past: seq<Operation>, o: nat)
    requires o < |Reached(cat, past).orders|
    requires var status := Reached(cat, past).orders[o].status; status == OrdRejected || status == OrdCompleted
    ensures (forall future ::
               o < |Reached(cat, past + future).orders|
               && Reached(cat, past + future).orders[o].status == Reached(cat, past).orders[o].status)
            <==> !AwaitsCard(Reached(cat, past).orders[o].payment)
  {
    var order := Reached(cat, past).orders[o];
    if AwaitsCard(order.payment) {
      var card := OnOrder(DoConfirmOrderCard(order.customer, o, true));
      OneMore(cat, past, card);
      assert Reached(cat, past + [card]).orders[o].status == OrdInProgress;
    } else {
      forall future
        ensures o < |Reached(cat, past + future).orders| && Reached(cat, past + future).orders[o].status == order.status
      {
        ReachedEvolves(cat, past, future);
        assert OrderEvolves(order, Reached(cat, past + future).orders[o]);
      }
    }
  }

  // A package booking that started with its payment cleared never loses either.
  lemma StartedPackageBookingsStayStarted(cat: Catalogue, past: seq<Operation>, future: seq<Operation>, o: nat)
    requires o < |Reached(cat, past).orders| && Started(Reached(cat, past).orders[o])
    ensures o < |Reached(cat, past + future).orders| && Started(Reached(cat, past + future).orders[o])
  {
    ReachedEvolves(cat, past, future);
    assert OrderEvolves(Reached(cat, past).orders[o], Reached(cat, past + future).orders[o]);
  }

  // A cancelled event has no live booking.
  lemma CancelledEventsAreEmpty(cat: Catalogue, ops: seq<Operation>, i: nat)
    requires i < |Reached(cat, ops).bookings|
    ensures var db := Reached(cat, ops);
            var b := db.bookings[i];
            b.event < |db.events|
            && (db.events[b.event].status == EvCancelled ==>
                  b.status == Completed || b.status == Cancelled || b.status == Rejected)
  {
    ReachedIsSound(cat, ops);
    assert BookingOk(Reached(cat, ops), Reached(cat, ops).bookings[i]);
  }

  // A cancelled event stays cancelled in every continuation exactly when each package booking on it, if
  // there is any, is closed, or over with no card payment under way. Events booked service by service
  // have none.
  lemma CancelledEventsStayIff(cat: Catalogue, past: seq<Operation>, e: nat)
    requires e < |Reached(cat, past).events| && Reached(cat, past).events[e].status == EvCancelled
    ensures (forall future ::
               e < |Reached(cat, past + future).events|
               && Reached(cat, past + future).events[e].status == EvCancelled)
            <==> (forall o :: 0 <= o < |Reached(cat, past).orders| && Reached(cat, past).orders[o].event == e ==>
                    Quiet(Reached(cat, past).orders[o]))
  {
    if QuietOn(Reached(cat, past), e) {
      forall future
        ensures e < |Reached(cat, past + future).events| && Reached(cat, past + future).events[e].status == EvCancelled
      {
        ReachedEvolves(cat, past, future);
      }
    } else {
      var o :| 0 <= o < |Reached(cat, past).orders| && Reached(cat, past).orders[o].event == e
            && !Quiet(Reached(cat, past).orders[o]);
      var future := ReviveEvent(cat, past, o);
      assert Reached(cat, past + future).events[e].status != EvCancelled;
    }
  }

  // Some continuation moves the event of a package booking that is not quiet.
  lemma ReviveEvent(cat: Catalogue, past: seq<Operation>, o: nat) returns (future: seq<Operation>)
    requires o < |Reached(cat, past).orders| && !Quiet(Reached(cat, past).orders[o])
    ensures var e, db := Reached(cat, past).orders[o].event, Reached(cat, past + future);
            e < |db.events| && (db.events[e].status == EvInProgress || db.events[e].status == EvCompleted)
  {
    var db := Reached(cat, past);
    var order := db.orders[o];
    ReachedIsSound(cat, past);
    assert OrderOk(db, order);
    hide Sound, Invariant, OrderOk, Execute;
    var pay := OnOrder(DoPayOrder(order.customer, o, BankTransfer, false));
    if order.status == OrdPending {
      var accept := OnOrder(DoAcceptOrder(db.packages[order.package].owner, o, 0));
      AcceptedAwaitsPayment(cat, db, o);
      PaymentMovesEvent(cat, Apply(cat, db, accept), o);
      future := [accept, pay];
    } else if order.status == OrdPendingPayment && IsPaid(order.payment) {
      var refund := OnPayment(DoRefund(OrderPayment(o)));
      RefundedAwaitsPayment(cat, db, o);
      PaymentMovesEvent(cat, Apply(cat, db, refund), o);
      future := [refund, pay];
    } else if order.status == OrdPendingPayment {
      PaymentMovesEvent(cat, db, o);
      future := [pay];
    } else if order.status == OrdInProgress {
      CompletionMovesEvent(cat, db, o);
      future := [OnOrder(DoCompleteOrder(db.packages[order.package].owner, o))];
    } else {
      CardMovesEvent(cat, db, o);
      future := [OnOrder(DoConfirmOrderCard(order.customer, o, true))];
    }
    RunOfTwo(cat, db, future);
    RunInTwoParts(cat, EMPTY, past, future);
  }

  lemma RunOfTwo(cat: Catalogue, db: Db, ops: seq<Operation>)
    requires 1 <= |ops| <= 2
    ensures Run(cat, db, ops) == if |ops| == 1 then Apply(cat, db, ops[0])
              else Apply(cat, Apply(cat, db, ops[0]), ops[1])
  {
    hide Apply;
    assert ops[..0] == [];
    if |ops| == 2 {
      assert ops[..1][..0] == [];
    }
  }

  lemma AcceptedAwaitsPayment(cat: Catalogue, db: Db, o: nat)
    requires o < |db.orders| && OrderOk(db, db.orders[o]) && db.orders[o].status == OrdPending
    ensures var order := db.orders[o];
            var db' := Apply(cat, db, OnOrder(DoAcceptOrder(db.packages[order.package].owner, o, 0)));
            && |db'.orders| == |db.orders| && |db'.events| == |db.events|
            && db'.orders[o].status == OrdPendingPayment && db'.orders[o].event == order.event
            && db'.orders[o].customer == order.customer
            && db'.orders[o].payment.Some? && !IsPaid(db'.orders[o].payment)
  {
  }

  lemma RefundedAwaitsPayment(cat: Catalogue, db: Db, o: nat)
    requires o < |db.orders| && IsPaid(db.orders[o].payment)
    ensures var db' := Apply(cat, db, OnPayment(DoRefund(OrderPayment(o))));
            && |db'.orders| == |db.orders| && |db'.events| == |db.events|
            && db'.orders[o] == db.orders[o].(payment := db'.orders[o].payment)
            && db'.orders[o].payment.Some? && !IsPaid(db'.orders[o].payment)
  {
  }

  lemma PaymentMovesEvent(cat: Catalogue, db: Db, o: nat)
    requires o < |db.orders| && db.orders[o].event < |db.events| && db.orders[o].status == OrdPendingPayment
    requires db.orders[o].payment.Some? && !IsPaid(db.orders[o].payment)
    ensures var db' := Apply(cat, db, OnOrder(DoPayOrder(db.orders[o].customer, o, BankTransfer, false)));
            |db'.events| == |db.events| && db'.events[db.orders[o].event].status == EvInProgress
  {
  }

  lemma CompletionMovesEvent(cat: Catalogue, db: Db, o: nat)
    requires o < |db.orders| && OrderOk(db, db.orders[o]) && db.orders[o].status == OrdInProgress
    ensures var db' := Apply(cat, db, OnOrder(DoCompleteOrder(db.packages[db.orders[o].package].owner, o)));
            |db'.events| == |db.events| && db'.events[db.orders[o].event].status == EvCompleted
  {
  }

  lemma CardMovesEvent(cat: Catalogue, db: Db, o: nat)
    requires o < |db.orders| && db.orders[o].event < |db.events| && AwaitsCard(db.orders[o].payment)
    ensures var db' := Apply(cat, db, OnOrder(DoConfirmOrderCard(db.orders[o].customer, o, true)));
            |db'.events| == |db.events| && db'.events[db.orders[o].event].status == EvInProgress
  {
  }

  // A pending or accepted package booking is always one of a package that is not cancelled.
  lemma AwaitedPackagesStayOpen(cat: Catalogue, ops: seq<Operation>, o: nat)
    requires o < |Reached(cat, ops).orders|
    ensures var db := Reached(cat, ops);
            db.orders[o].status != OrdConfirmed
            && (db.orders[o].status == OrdPending || db.orders[o].status == OrdPendingPayment ==>
                  db.orders[o].package < |db.packages| && db.packages[db.orders[o].package].status != PkgCancelled)
  {
    ReachedIsSound(cat, ops);
    assert OrderOk(Reached(cat, ops), Reached(cat, ops).orders[o]);
  }

  // ----- booking statuses only advance -------------------------------------------------------------------

  lemma StatusesOnlyAdvance(cat: Catalogue, past: seq<Operation>, future: seq<Operation>, i: nat)
    requires i < |Reached(cat, past).bookings|
    ensures i < |Reached(cat, past + future).bookings|
    ensures var before, after := Reached(cat, past).bookings[i], Reached(cat, past + future).bookings[i];
            (before.status == after.status || Rank(before.status) < Rank(after.status))
            && (Terminal(before.status) ==> after.status == before.status)
            && (Cleared(before.payment) ==> Cleared(after.payment))
  {
    ReachedEvolves(cat, past, future);
    assert BookingEvolves(Reached(cat, past).bookings[i], Reached(cat, past + future).bookings[i]);
  }

  // How many of the operations after `past` change the status of booking i.
  function StatusChanges(cat: Catalogue, db: Db, ops: seq<Operation>, i: nat): nat
    requires i < |db.bookings| && forall k :: 0 <= k <= |ops| ==> i < |Run(cat, db, ops[..k]).bookings|
  {
    if ops == [] then 0
    else
      var n := |ops| - 1;
      assert forall k :: 0 <= k <= n ==> ops[..n][..k] == ops[..k];
      assert ops[..|ops|] == ops;
      StatusChanges(cat, db, ops[..n], i)
      + (if Run(cat, db, ops[..n]).bookings[i].status == Run(cat, db, ops).bookings[i].status then 0 else 1)
  }

  lemma BookingsRemain(cat: Catalogue, db: Db, ops: seq<Operation>, i: nat)
    requires Sound(cat, db) && i < |db.bookings|
    ensures forall k :: 0 <= k <= |ops| ==> i < |Run(cat, db, ops[..k]).bookings|
  {
    forall k | 0 <= k <= |ops| ensures i < |Run(cat, db, ops[..k]).bookings| {
      RunIsSafe(cat, db, ops[..k]);
    }
  }

  lemma {:induction false} ChangesClimb(cat: Catalogue, db: Db, ops: seq<Operation>, i: nat)
    requires Sound(cat, db) && i < |db.bookings|
    requires forall k :: 0 <= k <= |ops| ==> i < |Run(cat, db, ops[..k]).bookings|
    ensures i < |Run(cat, db, ops).bookings|
    ensures Rank(db.bookings[i].status) + StatusChanges(cat, db, ops, i) <= Rank(Run(cat, db, ops).bookings[i].status)
  {
    assert ops[..|ops|] == ops;
    if ops != [] {
      var n := |ops| - 1;
      assert forall k :: 0 <= k <= n ==> ops[..n][..k] == ops[..k];
      ChangesClimb(cat, db, ops[..n], i);
      var before := Run(cat, db, ops[..n]);
      RunIsSafe(cat, db, ops[..n]);
      hide Sound, Apply;
      LastStatusAdvances(cat, before, ops[n], i);
    }
  }

  lemma LastStatusAdvances(cat: Catalogue, db: Db, op: Operation, i: nat)
    requires Sound(cat, db) && i < |db.bookings|
    ensures i < |Apply(cat, db, op).bookings| && Advances(db.bookings[i].status, Apply(cat, db, op).bookings[i].status)
  {
    hide Sound, Apply;
    StepIsSafe(cat, db, op);
    assert BookingEvolves(db.bookings[i], Apply(cat, db, op).bookings[i]);
  }

  // However long the system runs, a booking's status changes at most four times.
  lemma AtMostFourChanges(cat: Catalogue, past: seq<Operation>, future: seq<Operation>, i: nat)
    requires i < |Reached(cat, past).bookings|
    ensures forall k :: 0 <= k <= |future| ==> i < |Run(cat, Reached(cat, past), future[..k]).bookings|
    ensures StatusChanges(cat, Reached(cat, past), future, i) <= 4 - Rank(Reached(cat, past).bookings[i].status)
  {
    ReachedIsSound(cat, past);
    BookingsRemain(cat, Reached(cat, past), future, i);
    ChangesClimb(cat, Reached(cat, past), future, i);
  }

  // How many status changes the bookings have left between them.
  function Remaining(bs: seq<Booking>): nat {
    if bs == [] then 0 else Remaining(bs[..|bs| - 1]) + (4 - Rank(bs[|bs| - 1].status))
  }

  lemma {:induction false} RemainingShrinks(bs: seq<Booking>, bs': seq<Booking>)
    requires |bs| == |bs'|
    requires forall i :: 0 <= i < |bs| ==> Advances(bs[i].status, bs'[i].status)
    ensures Remaining(bs') <= Remaining(bs)
    ensures Remaining(bs') == Remaining(bs) ==> forall i :: 0 <= i < |bs| ==> bs[i].status == bs'[i].status
  {
    if bs != [] {
      var n := |bs| - 1;
      assert forall i :: 0 <= i < n ==> bs[..n][i] == bs[i] && bs'[..n][i] == bs'[i];
      RemainingShrinks(bs[..n], bs'[..n]);
    }
  }

  // The decreasing measure of the protocol: a step that creates no booking lowers it, unless it
  // changes no booking's status at all.
  lemma EveryChangeIsProgress(cat: Catalogue, past: seq<Operation>, op: Operation)
    requires !op.OnAdmission?
    ensures var before, after := Reached(cat, past).bookings, Reached(cat, past + [op]).bookings;
            |before| == |after|
            && (Remaining(after) < Remaining(before)
                || forall i :: 0 <= i < |before| ==> before[i].status == after[i].status)
  {
    ReachedIsSound(cat, past);
    OneMore(cat, past, op);
    StepIsSafe(cat, Reached(cat, past), op);
    var before, after := Reached(cat, past).bookings, Reached(cat, past + [op]).bookings;
    forall i | 0 <= i < |before| ensures Advances(before[i].status, after[i].status) {
      LastStatusAdvances(cat, Reached(cat, past), op, i);
    }
    RemainingShrinks(before, after);
  }

  // ----- money is not lost ---------------------------------------------------------------------------

  // Outside packages, a booking that is confirmed or under way and paid is never called off: it stays
  // so or completes, unless its payment is refunded first.
  lemma PaidBookingsAreKept(cat: Catalogue, past: seq<Operation>, future: seq<Operation>, i: nat)
    requires i < |Reached(cat, past).bookings|
    requires var b := Reached(cat, past).bookings[i];
             b.order.None? && IsPaid(b.payment) && (b.status == Confirmed || b.status == InProgress)
    ensures i < |Reached(cat, past + future).bookings|
    ensures var b := Reached(cat, past + future).bookings[i];
            b.status == Confirmed || b.status == InProgress || b.status == Completed || WasRefunded(b.payment)
  {
    ReachedEvolves(cat, past, future);
    assert BookingEvolves(Reached(cat, past).bookings[i], Reached(cat, past + future).bookings[i]);
  }

  // Money can be taken for a booking that is over: neither card nor cash confirmation looks at its status.
  // It never is, in any continuation, exactly when nothing was paid, no cash is left to confirm and no card
  // payment is under way.
  lemma DeadBookingsAreNeverChargedIff(cat: Catalogue, past: seq<Operation>, i: nat)
    requires i < |Reached(cat, past).bookings| && Terminal(Reached(cat, past).bookings[i].status)
    ensures (forall future ::
               i < |Reached(cat, past + future).bookings| && !IsPaid(Reached(cat, past + future).bookings[i].payment))
            <==> NothingToTake(Reached(cat, past).bookings[i].payment)
  {
    var b := Reached(cat, past).bookings[i];
    if NothingToTake(b.payment) {
      forall future
        ensures i < |Reached(cat, past + future).bookings| && !IsPaid(Reached(cat, past + future).bookings[i].payment)
      {
        ReachedEvolves(cat, past, future);
        assert BookingEvolves(b, Reached(cat, past + future).bookings[i]);
      }
    } else if IsPaid(b.payment) {
      assert past + [] == past;
    } else {
      var card := DoConfirmPayment(b.customer, BookingPayment(i), true, false);
      var take := OnPayment(if AwaitsCard(b.payment) then card else DoMarkCashPaid(b.provider, i, false));
      OneMore(cat, past, take);
      TakenIsPaid(cat, Reached(cat, past), i);
      assert IsPaid(Reached(cat, past + [take]).bookings[i].payment);
    }
  }

  lemma TakenIsPaid(cat: Catalogue, db: Db, i: nat)
    requires i < |db.bookings| && Collectable(db.bookings[i].payment)
    ensures var b := db.bookings[i];
            var card := DoConfirmPayment(b.customer, BookingPayment(i), true, false);
            var take := OnPayment(if AwaitsCard(b.payment) then card else DoMarkCashPaid(b.provider, i, false));
            i < |Apply(cat, db, take).bookings| && IsPaid(Apply(cat, db, take).bookings[i].payment)
  {
    hide CanProgress;
  }

  // A package booking that was cancelled, expired or rejected holds no capacity through its children,
  // except where a provider had quoted the child separately or the child had been paid on its own.
  lemma CalledOffPackagesReleaseChildren(cat: Catalogue, ops: seq<Operation>, i: nat, o: nat)
    requires i < |Reached(cat, ops).bookings| && o < |Reached(cat, ops).orders|
    requires Reached(cat, ops).bookings[i].order == Some(o)
    ensures var b, order := Reached(cat, ops).bookings[i], Reached(cat, ops).orders[o];
            && (order.status == OrdCancelled || order.status == OrdExpired || order.status == OrdRejected ==>
                  !Live(b.status) || b.finalAmount.Some? || (b.status == InProgress && Cleared(b.payment)))
            && (order.status != OrdPending ==> b.status != Pending)
  {
    ReachedIsSound(cat, ops);
    assert BookingOk(Reached(cat, ops), Reached(cat, ops).bookings[i]);
  }

  ghost predicate OneAwaitingEach(db: Db) {
    forall o, o' :: 0 <= o < o' < |db.orders| && db.orders[o].package == db.orders[o'].package
                    && db.orders[o].customer == db.orders[o'].customer ==>
      !(Awaiting(db.orders[o].status) && Awaiting(db.orders[o'].status))
  }

  lemma StepKeepsOneAwaiting(cat: Catalogue, db: Db, op: Operation)
    requires Sound(cat, db) && OneAwaitingEach(db)
    ensures OneAwaitingEach(Apply(cat, db, op))
  {
    hide Invariant, BookingEvolves, Composition.PackagesOk, BlockedSlots.BlocksOk, ExecuteAdmission, ExecuteBooking,
         ExecutePayment, ExecuteOrder, ExecuteSweep, ExecutePackage, ExecuteBlocks;
    var db' := Apply(cat, db, op);
    StepIsSafe(cat, db, op);
    forall o | 0 <= o < |db.orders|
      ensures db'.orders[o].package == db.orders[o].package && db'.orders[o].customer == db.orders[o].customer
      ensures Awaiting(db'.orders[o].status) ==> Awaiting(db.orders[o].status)
    {
      assert OrderEvolves(db.orders[o], db'.orders[o]);
    }
    if op.OnAdmission? && op.admission.DoBookPackage? && ExecuteAdmission(cat, db, op.admission).Success? {
      NewOrderIsAlone(cat, db, op.admission);
    }
  }

  // A customer never has two package bookings of one package waiting at the same time.
  lemma {:induction false} OneRequestPerPackage(cat: Catalogue, ops: seq<Operation>)
    ensures OneAwaitingEach(Reached(cat, ops))
  {
    if ops != [] {
      var n := |ops| - 1;
      OneRequestPerPackage(cat, ops[..n]);
      ReachedIsSound(cat, ops[..n]);
      hide Sound, OneAwaitingEach, Apply;
      StepKeepsOneAwaiting(cat, Reached(cat, ops[..n]), ops[n]);
    }
  }

  lemma NewOrderIsAlone(cat: Catalogue, db: Db, op: AdmissionOp)
    requires op.DoBookPackage? && ExecuteAdmission(cat, db, op).Success?
    ensures var db' := After(ExecuteAdmission(cat, db, op), db);
            |db'.orders| == |db.orders| + 1
            && forall o :: 0 <= o < |db.orders| && db.orders[o].package == db'.orders[|db.orders|].package
                           && db.orders[o].customer == db'.orders[|db.orders|].customer ==>
                 db'.orders[o] == db.orders[o] && !Awaiting(db'.orders[o].status)
  {
    hide Validate, Admit, NewBooking, CoversPackage, DistinctServices, StackedTotal, SumTotals, AdmitAtOnce,
         ValidateFirst;
    ValidateFirstCovers(cat, op.sels, Event(op.customer, op.day, op.start, op.end, op.guests, EvDraft), |op.sels|);
  }

  // ----- packages ------------------------------------------------------------------------------------------

  // Every package holds at least two services of pairwise distinct kinds, its owner's packaged hall
  // among them; an active one has two active members, a cancelled one has none left to wait for or to
  // serve.
  lemma PackagesStayComposed(cat: Catalogue, ops: seq<Operation>, p: nat)
    requires p < |Reached(cat, ops).packages|
    ensures var pkg := Reached(cat, ops).packages[p];
            && |pkg.members| >= 2
            && (forall i :: 0 <= i < |pkg.members| ==> pkg.members[i].service < |cat.services|)
            && (forall i, j :: 0 <= i < j < |pkg.members| ==>
                  cat.services[pkg.members[i].service].kind != cat.services[pkg.members[j].service].kind)
            && (exists i :: 0 <= i < |pkg.members| && Composition.IsOwnHall(cat, pkg.owner, pkg.members[i].service))
            && (pkg.status == PkgActive ==> Composition.CountActive(pkg.members) >= 2)
            && (pkg.status == PkgCancelled ==> forall i :: 0 <= i < |pkg.members| ==>
                pkg.members[i].status == MemRejected)
  {
    ReachedIsSound(cat, ops);
    var pkg := Reached(cat, ops).packages[p];
    assert Composition.PackageOk(cat, pkg);
    var ids := Composition.ServiceIds(pkg.members);
    assert forall i :: 0 <= i < |ids| ==> ids[i] == pkg.members[i].service;
    var i :| 0 <= i < |ids| && Composition.IsOwnHall(cat, pkg.owner, ids[i]);
    assert Composition.IsOwnHall(cat, pkg.owner, pkg.members[i].service);
  }

  // No two packages that are not cancelled hold the same set of services.
  lemma PackageSetsStayUnique(cat: Catalogue, ops: seq<Operation>, p: nat, q: nat)
    requires p < q < |Reached(cat, ops).packages|
    requires Reached(cat, ops).packages[p].status != PkgCancelled
               && Reached(cat, ops).packages[q].status != PkgCancelled
    ensures var packages := Reached(cat, ops).packages;
            Composition.ServiceSet(packages[p]) != Composition.ServiceSet(packages[q])
  {
    ReachedIsSound(cat, ops);
  }
}
