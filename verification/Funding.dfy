// Where the money of package bookings and their children comes from: what paid for a package booking that
// runs, when a child can be charged twice, and what the price of a package booking is made of.
module Funding {
  import opened Wrappers
  import opened Marketplace
  import opened Pricing
  import opened Admission
  import opened Lifecycle
  import opened Safety
  import opened Progress
  import opened Runs
  import opened Guarantees
  import opened Starting
  import opened PackageStarts
  import AdmissionSafety
  import Capacity
  import Quotes
  import Prices

  // ----- what paid for a running package booking ---------------------------------------------------------

  predicate Running(s: OrderStatus) {
    s == OrdInProgress || s == OrdCompleted
  }

  // A child that started, and whose own payment cleared.
  predicate FundingChild(db: Db, o: nat, i: nat) {
    && i < |db.bookings| && db.bookings[i].order == Some(o) && Cleared(db.bookings[i].payment)
    && (db.bookings[i].status == InProgress || db.bookings[i].status == BookingStatus.Completed)
  }

  ghost predicate Funded(db: Db, o: nat) {
    o < |db.orders| && Running(db.orders[o].status) ==>
      Cleared(db.orders[o].payment) || exists i: nat :: FundingChild(db, o, i)
  }

  // A package booking starts running only with money, and one that runs calls off no child under way.
  ghost predicate FundStep(db: Db, db': Db, o: nat)
    requires o < |db.orders|
  {
    && o < |db'.orders|
    && (Running(db'.orders[o].status) && !Running(db.orders[o].status) ==> Funded(db', o))
    && (Running(db.orders[o].status) ==>
        forall i: nat ::
          i < |db.bookings| && db.bookings[i].order == Some(o) && db.bookings[i].status == InProgress ==>
            i < |db'.bookings|
            && (db'.bookings[i].status == InProgress || db'.bookings[i].status == BookingStatus.Completed))
  }

  lemma BookingOpFunds(db: Db, op: BookingOp, o: nat)
    requires Invariant(db) && o < |db.orders|
    ensures FundStep(db, After(ExecuteBooking(db, op), db), o)
  {
    hide Invariant, BulkDecision, TryProgressEvent, ConfirmQuote;
    BookingOpKeepsOrders(db, op);
    if ExecuteBooking(db, op).Success? {
      match op
      case DoConfirmQuote(c, b, now) => ConfirmQuoteStartsNothing(db, c, b, now); QuoteWasSent(db, c, b, now);
      case DoBulkDecision(c, e, d, now) =>
        forall i: nat | i < |db.bookings|
          ensures i < |BulkDecision(db, c, e, d, now).value.bookings|
          ensures db.bookings[i].status != QuoteSent ==>
                    BulkDecision(db, c, e, d, now).value.bookings[i] == db.bookings[i]
        {
          BulkDecisionStarts(db, c, e, d, now, i);
        }
      case _ =>
    }
  }

  lemma ProgressFunds(db: Db, q: nat, o: nat)
    requires o < |db.orders|
    ensures FundStep(db, TryProgressOrder(db, q), o)
  {
    if q == o && TryProgressOrder(db, q) != db {
      var i :| 0 <= i < |db.bookings| && InGroup(db.bookings[i], OfOrder(o)) && ReadyToStart(db.bookings[i]);
      assert FundingChild(TryProgressOrder(db, q), o, i);
    }
    hide CanProgress;
  }

  lemma MarkedFunds(was: Db, db: Db, b: nat, corrected: bool, o: nat)
    requires b < |db.bookings| == |was.bookings| && db.orders == was.orders && o < |was.orders|
    requires forall i :: 0 <= i < |was.bookings| ==>
               db.bookings[i] == was.bookings[i].(payment := db.bookings[i].payment)
    ensures FundStep(was, MarkPaid(db, b, corrected), o)
  {
    var paid := WithBooking(db, b,
                            db.bookings[b].(payment := WithPayment(db.bookings[b].payment, Paid), deadline := None));
    if db.bookings[b].order.Some? {
      ProgressFunds(paid, db.bookings[b].order.value, o);
    }
    hide TryProgressOrder, Funded;
  }

  lemma PaymentOpFunds(db: Db, op: PaymentOp, o: nat)
    requires o < |db.orders|
    ensures FundStep(db, After(ExecutePayment(db, op), db), o)
  {
    hide MarkPaid, NewPayment, CheckIntent;
    forall db0: Db, b: nat, corrected: bool
      | b < |db0.bookings| == |db.bookings| && db0.orders == db.orders
        && forall i :: 0 <= i < |db.bookings| ==> db0.bookings[i] == db.bookings[i].(payment := db0.bookings[i].payment)
      ensures FundStep(db, MarkPaid(db0, b, corrected), o)
    {
      MarkedFunds(db, db0, b, corrected, o);
    }
  }

  lemma StartFunds(db: Db, q: nat, paid: Option<Payment>, o: nat)
    requires q < |db.orders| && o < |db.orders| && IsPaid(paid)
    ensures FundStep(db, StartOrder(WithOrder(db, q, db.orders[q].(payment := paid)), q), o)
  {
  }

  lemma OrderOpFunds(db: Db, op: OrderOp, o: nat)
    requires o < |db.orders|
    ensures FundStep(db, After(ExecuteOrder(db, op), db), o)
  {
    hide StartOrder;
    if ExecuteOrder(db, op).Success? && (op.DoPayOrder? || op.DoConfirmOrderCash? || op.DoConfirmOrderCard?) {
      var p := db.orders[op.o].payment;
      StartFunds(db, op.o, WithPayment(p, Paid), o);
      StartFunds(db, op.o, Some(p.value.(channel := BankTransfer, status := Paid, intent := true)), o);
    }
  }

  lemma SweepOpFunds(db: Db, op: SweepOp, o: nat)
    requires Invariant(db) && o < |db.orders|
    ensures FundStep(db, After(ExecuteSweep(db, op), db), o)
  {
    hide Invariant, SweepEvents, SweepOrders, Over;
    match op
    case DoSweepBookings(now) =>
    case DoSweepEvents(now) =>
      EventSweepKeepsOrders(db, now, |db.events|);
      EventSweepIsExact(db, now, |db.events|);
      forall i: nat | i < |db.bookings| ensures db.bookings[i].event < |db.events| {
        EventsInPlace(db, i);
      }
    case DoSweepOrders(kind, now) => OrderSweepIsExact(db, kind, now, |db.orders|);
  }

  lemma AdmissionFunds(cat: Catalogue, db: Db, op: AdmissionOp, o: nat)
    requires Invariant(db) && o < |db.orders|
    ensures FundStep(db, After(ExecuteAdmission(cat, db, op), db), o)
  {
    hide Invariant, ExecuteAdmission;
    AdmissionKeepsOrders(cat, db, op);
    forall i: nat | i < |db.bookings|
      ensures i < |After(ExecuteAdmission(cat, db, op), db).bookings|
      ensures After(ExecuteAdmission(cat, db, op), db).bookings[i] == db.bookings[i]
    {
      AdmissionLeavesRows(cat, db, op, i);
    }
  }

  lemma StepFunds(cat: Catalogue, db: Db, op: Operation, o: nat)
    requires Invariant(db) && o < |db.orders|
    ensures FundStep(db, Apply(cat, db, op), o)
  {
    hide Invariant, ExecuteAdmission, ExecuteBooking, ExecutePayment, ExecuteOrder, ExecuteSweep;
    match op
    case OnAdmission(a) => AdmissionFunds(cat, db, a, o);
    case OnBooking(b) => BookingOpFunds(db, b, o);
    case OnPayment(p) => PaymentOpFunds(db, p, o);
    case OnOrder(q) => OrderOpFunds(db, q, o);
    case OnSweep(s) => SweepOpFunds(db, s, o);
    case OnPackage(_) =>
    case OnBlocks(_) =>
  }

  lemma FundedStaysFunded(db: Db, db': Db, o: nat)
    requires o < |db.orders| && Funded(db, o) && FundStep(db, db', o) && Evolves(db, db')
    ensures Funded(db', o)
  {
    assert OrderEvolves(db.orders[o], db'.orders[o]);
    if Running(db.orders[o].status) && !Cleared(db.orders[o].payment) {
      var i: nat :| FundingChild(db, o, i);
      assert BookingEvolves(db.bookings[i], db'.bookings[i]);
      assert FundingChild(db', o, i);
    }
  }

  lemma StepKeepsFunding(cat: Catalogue, db: Db, op: Operation, o: nat)
    requires Sound(cat, db) && o < |Apply(cat, db, op).orders|
    requires o < |db.orders| ==> Funded(db, o)
    ensures Funded(Apply(cat, db, op), o)
  {
    hide Apply, Sound, FundStep, Evolves, Invariant, Books;
    StepIsSafe(cat, db, op);
    SoundIsInvariant(cat, db);
    if o < |db.orders| {
      StepFunds(cat, db, op, o);
      hide Funded;
      FundedStaysFunded(db, Apply(cat, db, op), o);
    } else {
      NewRows(cat, db, op);
    }
  }

  lemma {:induction false} AlwaysFunded(cat: Catalogue, ops: seq<Operation>, o: nat)
    ensures Funded(Reached(cat, ops), o)
  {
    if ops != [] {
      var n := |ops| - 1;
      ReachedIsSound(cat, ops[..n]);
      OneMore(cat, ops[..n], ops[n]);
      assert ops == ops[..n] + [ops[n]];
      AlwaysFunded(cat, ops[..n], o);
      hide Reached, Apply, Funded, Sound;
      if o < |Reached(cat, ops).orders| {
        StepKeepsFunding(cat, Reached(cat, ops[..n]), ops[n], o);
      } else {
        NotThereIsFunded(Reached(cat, ops), o);
      }
    }
  }

  lemma NotThereIsFunded(db: Db, o: nat)
    requires o >= |db.orders|
    ensures Funded(db, o)
  {
  }

  // A package booking that runs or is over was paid for, or one of its children was paid on its own and started.
  lemma RunningPackagesAreFunded(cat: Catalogue, ops: seq<Operation>, o: nat)
    requires o < |Reached(cat, ops).orders|
    ensures var db := Reached(cat, ops);
            db.orders[o].status == OrdInProgress || db.orders[o].status == OrdCompleted ==>
              Cleared(db.orders[o].payment) || exists i: nat :: FundingChild(db, o, i)
  {
    AlwaysFunded(cat, ops, o);
    hide Reached;
  }

  // ----- what a step adds ----------------------------------------------------------------------------------

  // The package booking is one that this operation makes.
  predicate Books(cat: Catalogue, db: Db, op: Operation) {
    op.OnAdmission? && op.admission.DoBookPackage? && ExecuteAdmission(cat, db, op.admission).Success?
    && op.admission.p < |db.packages|
  }

  // Only bookPackage adds a package booking, and then one, and only its own children belong to it.
  lemma NewRows(cat: Catalogue, db: Db, op: Operation)
    requires Sound(cat, db)
    ensures var db' := Apply(cat, db, op);
            && |db.bookings| <= |db'.bookings|
            && (forall i :: |db.bookings| <= i < |db'.bookings| ==>
                  db'.bookings[i].order == if Books(cat, db, op) then Some(|db.orders|) else None)
            && |db'.orders| == |db.orders| + (if Books(cat, db, op) then 1 else 0)
            && (Books(cat, db, op) ==> db'.orders[|db.orders|].status == OrdPending)
  {
    hide Sound, ExecuteBooking, ExecutePayment, ExecuteOrder, ExecuteSweep, ExecutePackage, ExecuteBlocks, CreateEvent,
         AddService, BookPackage, Evolves, Prices.RowFor, Prices.Adds, Prices.FairTotal;
    StepIsSafe(cat, db, op);
    if op.OnAdmission? {
      match op.admission
      case DoCreateEvent(c, day, s, t, g, sels, now) =>
        var ev := Event(c, day, s, t, g, EvDraft);
        if CreateEvent(cat, db, ev, sels, now).Success? {
          Prices.CreateEventAdds(cat, db, ev, sels, now);
          AddedRowsOrder(cat, db, Apply(cat, db, op), ev, |db.events|, sels, None, now + 24 * 60);
        }
      case DoAddService(c, e, sel, now) =>
        if AddService(cat, db, c, e, sel, now).Success? {
          Prices.AddServiceAdds(cat, db, c, e, sel, now);
          AddedRowsOrder(cat, db, Apply(cat, db, op), db.events[e], e, [sel], None, now + 24 * 60);
        }
      case DoBookPackage(c, p, day, s, t, g, sels, discount, now) =>
        var ev := Event(c, day, s, t, g, EvDraft);
        if BookPackage(cat, db, p, ev, sels, discount, now).Success? {
          Prices.BookPackageAdds(cat, db, p, ev, sels, discount, now);
          AddedRowsOrder(cat, db, Apply(cat, db, op), ev, |db.events|, sels, Some(|db.orders|), now + 48 * 60);
        }
    }
  }

  lemma AddedRowsOrder(cat: Catalogue, db: Db, db': Db, ev: Event, e: nat, sels: seq<Selection>, order: Option<nat>,
                       deadline: Time)
    requires Prices.Adds(cat, db, db', ev, e, sels, order, deadline)
    ensures |db'.bookings| == |db.bookings| + |sels|
    ensures forall i :: |db.bookings| <= i < |db'.bookings| ==> db'.bookings[i].order == order
  {
    forall i | |db.bookings| <= i < |db'.bookings| ensures db'.bookings[i].order == order {
      var k := i - |db.bookings|;
      assert Prices.RowFor(cat, ev, e, sels[k], order, deadline, db'.bookings[|db.bookings| + k]);
    }
  }

  // ----- the price of a package booking --------------------------------------------------------------------

  // What the children of package booking o cost by the catalogue.
  function ChildSum(cat: Catalogue, bs: seq<Booking>, o: nat): nat {
    if bs == [] then 0
    else ChildSum(cat, bs[..|bs| - 1], o)
         + (if bs[|bs| - 1].order == Some(o) then Prices.RowPrice(cat, bs[|bs| - 1]) else 0)
  }

  lemma {:induction false} ChildSumIsKept(cat: Catalogue, bs: seq<Booking>, bs': seq<Booking>, o: nat)
    requires |bs| <= |bs'|
    requires forall i :: 0 <= i < |bs| ==>
               bs'[i].order == bs[i].order && Prices.RowPrice(cat, bs'[i]) == Prices.RowPrice(cat, bs[i])
    requires forall i :: |bs| <= i < |bs'| ==> bs'[i].order != Some(o)
    ensures ChildSum(cat, bs', o) == ChildSum(cat, bs, o)
  {
    hide Prices.RowPrice;
    if bs' != [] {
      var n := |bs'| - 1;
      ChildSumIsKept(cat, if |bs| == |bs'| then bs[..n] else bs, bs'[..n], o);
    }
  }

  lemma {:induction false} ChildSumOfNewRows(cat: Catalogue, bs: seq<Booking>, sels: seq<Selection>, o: nat)
    requires |sels| <= |bs|
    requires forall i :: 0 <= i < |sels| ==> sels[i].service < |cat.services|
    requires forall i :: 0 <= i < |bs| ==> (bs[i].order == Some(o) <==> i >= |bs| - |sels|)
    requires forall i :: 0 <= i < |sels| ==>
               Prices.RowPrice(cat, bs[|bs| - |sels| + i]) == Prices.Cost(cat, sels[i])
    ensures ChildSum(cat, bs, o) == Prices.TotalCost(cat, sels)
  {
    hide Prices.RowPrice, Prices.Cost;
    if bs != [] {
      var last := |bs| - 1;
      if sels != [] {
        ChildSumOfNewRows(cat, bs[..last], sels[..|sels| - 1], o);
        assert bs[last] == bs[|bs| - |sels| + (|sels| - 1)];
      } else {
        ChildSumOfNewRows(cat, bs[..last], [], o);
      }
    }
  }

  lemma StepKeepsPrices(cat: Catalogue, db: Db, op: Operation, o: nat)
    requires Sound(cat, db) && o < |db.orders|
    ensures var db' := Apply(cat, db, op);
            o < |db'.orders| && db'.orders[o].total == db.orders[o].total
            && ChildSum(cat, db'.bookings, o) == ChildSum(cat, db.bookings, o)
  {
    hide Invariant, Books, Apply, Prices.RowPrice, Prices.CataloguePriced;
    var db' := Apply(cat, db, op);
    StepIsSafe(cat, db, op);
    NewRows(cat, db, op);
    assert OrderEvolves(db.orders[o], db'.orders[o]);
    forall i | 0 <= i < |db.bookings|
      ensures db'.bookings[i].order == db.bookings[i].order
      ensures Prices.RowPrice(cat, db'.bookings[i]) == Prices.RowPrice(cat, db.bookings[i])
    {
      assert BookingEvolves(db.bookings[i], db'.bookings[i]);
      Prices.StepKeepsRowPrice(cat, db, op, i);
    }
    ChildSumIsKept(cat, db.bookings, db'.bookings, o);
  }

  lemma BookingSetsPrice(cat: Catalogue, db: Db, op: Operation)
    requires Sound(cat, db) && Books(cat, db, op)
    ensures var db' := Apply(cat, db, op);
            |db'.orders| == |db.orders| + 1
            && Prices.FairTotal(db'.orders[|db.orders|].total, ChildSum(cat, db'.bookings, |db.orders|),
                                db.packages[op.admission.p].discount, op.admission.discount)
  {
    hide BookPackage, Sound, Invariant, Prices.RowFor, Prices.FairTotal, Prices.RowPrice, Prices.Cost,
         Prices.TotalCost, Prices.CataloguePriced;
    var a := op.admission;
    var ev := Event(a.customer, a.day, a.start, a.end, a.guests, EvDraft);
    var db' := Apply(cat, db, op);
    Prices.BookPackageAdds(cat, db, a.p, ev, a.sels, a.discount, a.now);
    forall i: nat | i < |db.bookings| ensures db.bookings[i].order != Some(|db.orders|) {
      SoundIsInvariant(cat, db);
      EventsInPlace(db, i);
    }
    forall i | 0 <= i < |a.sels|
      ensures Prices.RowPrice(cat, db'.bookings[|db.bookings| + i]) == Prices.Cost(cat, a.sels[i])
    {
      RowOfSelection(cat, ev, |db.events|, a.sels[i], Some(|db.orders|), a.now + 48 * 60,
                     db'.bookings[|db.bookings| + i]);
    }
    AddedRowsOrder(cat, db, db', ev, |db.events|, a.sels, Some(|db.orders|), a.now + 48 * 60);
    ChildSumOfNewRows(cat, db'.bookings, a.sels, |db.orders|);
  }

  lemma RowOfSelection(cat: Catalogue, ev: Event, e: nat, sel: Selection, order: Option<nat>, deadline: Time,
                       b: Booking)
    requires Prices.RowFor(cat, ev, e, sel, order, deadline, b)
    ensures sel.service < |cat.services| && b.order == order && Prices.RowPrice(cat, b) == Prices.Cost(cat, sel)
  {
  }

  // Call k of the run made package booking o, and its total is still what that call's two percentages make of
  // the catalogue prices of the children it has now.
  ghost predicate PricedByCall(cat: Catalogue, ops: seq<Operation>, o: nat, k: nat) {
    && k < |ops| && o < |Reached(cat, ops).orders|
    && Books(cat, Reached(cat, ops[..k]), ops[k]) && |Reached(cat, ops[..k]).orders| == o
    && Prices.FairTotal(Reached(cat, ops).orders[o].total, ChildSum(cat, Reached(cat, ops).bookings, o),
                        Reached(cat, ops[..k]).packages[ops[k].admission.p].discount, ops[k].admission.discount)
  }

  lemma PriceStays(cat: Catalogue, ops: seq<Operation>, op: Operation, o: nat, k: nat)
    requires PricedByCall(cat, ops, o, k)
    ensures PricedByCall(cat, ops + [op], o, k)
  {
    ReachedIsSound(cat, ops);
    OneMore(cat, ops, op);
    hide Reached, Apply, Prices.FairTotal, Sound, Books, ChildSum;
    StepKeepsPrices(cat, Reached(cat, ops), op, o);
    assert (ops + [op])[..k] == ops[..k];
  }

  lemma PriceIsSet(cat: Catalogue, ops: seq<Operation>, op: Operation, o: nat)
    requires |Reached(cat, ops).orders| <= o < |Reached(cat, ops + [op]).orders|
    ensures PricedByCall(cat, ops + [op], o, |ops|)
  {
    ReachedIsSound(cat, ops);
    OneMore(cat, ops, op);
    hide Reached, Apply, Prices.FairTotal, Sound, Books, ChildSum;
    NewRows(cat, Reached(cat, ops), op);
    BookingSetsPrice(cat, Reached(cat, ops), op);
    assert (ops + [op])[..|ops|] == ops;
  }

  lemma {:induction false} PricingCall(cat: Catalogue, ops: seq<Operation>, o: nat) returns (k: nat)
    requires o < |Reached(cat, ops).orders|
    ensures PricedByCall(cat, ops, o, k)
  {
    assert ops != [];
    hide Reached, PricedByCall;
    k := |ops| - 1;
    assert ops == ops[..k] + [ops[k]];
    if o < |Reached(cat, ops[..k]).orders| {
      var last := k;
      k := PricingCall(cat, ops[..last], o);
      PriceStays(cat, ops[..last], ops[last], o, k);
    } else {
      PriceIsSet(cat, ops[..k], ops[k], o);
    }
  }

  // In every reachable state each package booking has such a call: no child joins or leaves it, and nothing
  // rewrites a price.
  lemma PackageTotalsStayFair(cat: Catalogue, ops: seq<Operation>, o: nat)
    requires o < |Reached(cat, ops).orders|
    ensures exists k: nat :: PricedByCall(cat, ops, o, k)
  {
    var k := PricingCall(cat, ops, o);
  }

  // ----- charged twice -------------------------------------------------------------------------------------

  predicate ChargedTwice(db: Db, o: nat, i: nat) {
    o < |db.orders| && i < |db.bookings| && IsPaid(db.bookings[i].payment) && IsPaid(db.orders[o].payment)
  }

  // Nothing keeps a confirmed child of an accepted package booking from being paid on its own as well. Some
  // continuation takes the money of both exactly when the child has no payment yet, or one that is paid or can
  // still be collected.
  lemma ChildIsChargedTwiceIff(cat: Catalogue, past: seq<Operation>, o: nat, i: nat)
    requires AcceptedChild(Reached(cat, past), o, i)
    ensures (exists future :: ChargedTwice(Reached(cat, past + future), o, i))
            <==> (var p := Reached(cat, past).bookings[i].payment; p.None? || IsPaid(p) || Collectable(p))
  {
    var p := Reached(cat, past).bookings[i].payment;
    if p.None? || IsPaid(p) || Collectable(p) {
      var future := ChargeBoth(cat, past, o, i);
    } else {
      forall future ensures !ChargedTwice(Reached(cat, past + future), o, i) {
        ReachedEvolves(cat, past, future);
        assert BookingEvolves(Reached(cat, past).bookings[i], Reached(cat, past + future).bookings[i]);
      }
    }
  }

  predicate Chargeable(p: Option<Payment>) {
    IsPaid(p) || Collectable(p)
  }

  // Record cash for the child, pay the package booking, then take what the child owes.
  lemma ChargeBoth(cat: Catalogue, past: seq<Operation>, o: nat, i: nat) returns (future: seq<Operation>)
    requires AcceptedChild(Reached(cat, past), o, i)
    requires var p := Reached(cat, past).bookings[i].payment; p.None? || Chargeable(p)
    ensures ChargedTwice(Reached(cat, past + future), o, i)
  {
    var db := Reached(cat, past);
    hide Reached, Apply;
    if db.bookings[i].payment.None? {
      var create := OnPayment(DoCreatePayment(db.bookings[i].customer, i, Cash, None, IntentCreated, false));
      OneMore(cat, past, create);
      CashIsRecorded(cat, db, o, i);
      var rest := PayOrderThenTake(cat, past + [create], o, i);
      future := [create] + rest;
      assert past + future == past + [create] + rest;
    } else {
      future := PayOrderThenTake(cat, past, o, i);
    }
  }

  lemma PayOrderThenTake(cat: Catalogue, past: seq<Operation>, o: nat, i: nat) returns (future: seq<Operation>)
    requires AcceptedChild(Reached(cat, past), o, i) && Chargeable(Reached(cat, past).bookings[i].payment)
    ensures ChargedTwice(Reached(cat, past + future), o, i)
  {
    var db := Reached(cat, past);
    ReachedIsSound(cat, past);
    hide Reached, Apply;
    AcceptedHasPayment(cat, db, o, i);
    if IsPaid(db.orders[o].payment) {
      future := TakeFromChild(cat, past, o, i);
    } else {
      var pay := OnOrder(DoPayOrder(db.orders[o].customer, o, BankTransfer, false));
      OneMore(cat, past, pay);
      OrderIsPaid(cat, db, o, i);
      var rest := TakeFromChild(cat, past + [pay], o, i);
      future := [pay] + rest;
      assert past + future == past + [pay] + rest;
    }
  }

  lemma AcceptedHasPayment(cat: Catalogue, db: Db, o: nat, i: nat)
    requires Sound(cat, db) && AcceptedChild(db, o, i)
    ensures db.orders[o].payment.Some?
  {
    SoundOrder(cat, db, o);
  }

  lemma TakeFromChild(cat: Catalogue, past: seq<Operation>, o: nat, i: nat) returns (future: seq<Operation>)
    requires o < |Reached(cat, past).orders| && IsPaid(Reached(cat, past).orders[o].payment)
    requires i < |Reached(cat, past).bookings| && Chargeable(Reached(cat, past).bookings[i].payment)
    ensures ChargedTwice(Reached(cat, past + future), o, i)
  {
    var db := Reached(cat, past);
    hide Reached, Apply;
    if IsPaid(db.bookings[i].payment) {
      future := [];
      assert past + future == past;
    } else {
      var b := db.bookings[i];
      var card := DoConfirmPayment(b.customer, BookingPayment(i), true, false);
      var take := OnPayment(if AwaitsCard(b.payment) then card else DoMarkCashPaid(b.provider, i, false));
      OneMore(cat, past, take);
      TakenIsPaid(cat, db, i);
      OrdersMoneyStays(cat, db, i, take, o);
      future := [take];
    }
  }

  lemma CashIsRecorded(cat: Catalogue, db: Db, o: nat, i: nat)
    requires AcceptedChild(db, o, i) && db.bookings[i].payment.None?
    ensures var db' := Apply(cat, db,
                             OnPayment(DoCreatePayment(db.bookings[i].customer, i, Cash, None, IntentCreated, false)));
            AcceptedChild(db', o, i) && Collectable(db'.bookings[i].payment) && db'.orders == db.orders
  {
  }

  lemma OrderIsPaid(cat: Catalogue, db: Db, o: nat, i: nat)
    requires AcceptedChild(db, o, i) && db.orders[o].payment.Some? && !IsPaid(db.orders[o].payment)
    ensures var db' := Apply(cat, db, OnOrder(DoPayOrder(db.orders[o].customer, o, BankTransfer, false)));
            |db'.orders| == |db.orders| && |db'.bookings| == |db.bookings| && IsPaid(db'.orders[o].payment)
            && db'.bookings[i] == db.bookings[i].(status := InProgress)
  {
  }

  lemma OrdersMoneyStays(cat: Catalogue, db: Db, i: nat, take: Operation, o: nat)
    requires o < |db.orders|
    requires take.OnPayment? && (take.payment.DoConfirmPayment? || take.payment.DoMarkCashPaid?)
    requires take.payment.DoConfirmPayment? ==> take.payment.ref == BookingPayment(i)
    ensures o < |Apply(cat, db, take).orders| && Apply(cat, db, take).orders[o].payment == db.orders[o].payment
  {
    hide CanProgress;
  }
}
