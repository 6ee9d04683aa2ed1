// The operations do what Causes says, and nothing else does: each new status, deadline, quote and payment of a
// row has exactly the causes listed there, whichever of the operations is performed.
module Transitions {
  import opened Wrappers
  import opened Marketplace
  import opened Pricing
  import opened Lifecycle
  import opened Causes
  import opened Safety
  import opened Progress
  import opened Runs
  import opened Guarantees
  import opened Starting
  import opened PackageStarts
  import Quotes

  // ----- bookings: status ------------------------------------------------------------------------------------

  predicate Moved(b: Booking, b': Booking, s: BookingStatus) {
    b.status != s && b'.status == s
  }

  predicate Moves(db: Db, db': Db, op: Operation, i: nat)
    requires i < |db.bookings|
  {
    && i < |db'.bookings|
    && var b, b' := db.bookings[i], db'.bookings[i];
    && !Moved(b, b', Pending)
    && (Moved(b, b', QuoteSent) <==> BecomesQuoted(db, op, i))
    && (Moved(b, b', Confirmed) <==> BecomesConfirmed(db, op, i))
    && (Moved(b, b', Rejected) <==> BecomesRejected(db, op, i))
    && (Moved(b, b', InProgress) <==> BecomesRunning(db, op, i))
    && (Moved(b, b', BookingStatus.Completed) <==> BecomesDone(db, op, i))
    && (Moved(b, b', Cancelled) <==> BecomesCancelled(db, op, i))
  }

  lemma DecisionStandsIff(db: Db, customer: nat, e: nat, d: Decision)
    requires Invariant(db)
    ensures CheckDecision(db, customer, e, d).Pass? <==> DecisionStands(db, customer, e, d)
  {
    var all := d.accepted + d.rejected;
    if DecisionStands(db, customer, e, d) {
      forall k | 0 <= k < |all| ensures all[k] < |db.bookings| && db.bookings[all[k]].event == e
                                        && db.bookings[all[k]].status == QuoteSent
      {
        assert all[k] in all;
      }
      forall k | 0 <= k < |d.accepted|
        ensures d.accepted[k] !in d.rejected
        ensures d.accepted[k] < |db.bookings| && db.bookings[d.accepted[k]].payment.None?
      {
        assert all[k] == d.accepted[k] && all[k] in all && d.accepted[k] in d.accepted;
        assert BookingOk(db, db.bookings[d.accepted[k]]);
      }
    }
    if CheckDecision(db, customer, e, d).Pass? {
      forall x | x in all ensures x < |db.bookings| && db.bookings[x].event == e && db.bookings[x].status == QuoteSent {
        var k :| 0 <= k < |all| && all[k] == x;
      }
      forall x | x in d.accepted ensures x !in d.rejected {
        var k :| 0 <= k < |d.accepted| && d.accepted[k] == x;
      }
    }
  }

  lemma CancellationStandsIff(db: Db, customer: nat, e: nat)
    ensures CancelEvent(db, customer, e).Success? <==> CancellationStands(db, customer, e)
  {
  }

  lemma QuoteStandsIff(db: Db, b: Booking, lines: seq<Quotes.Line>)
    requires BookingOk(db, b) && b.items != []
    ensures Quotes.Acceptable(b.items, lines) <==> multiset(Quotes.LineIds(lines)) == multiset(Quotes.Ids(b.items))
  {
    Quotes.AcceptedQuoteIsAPermutation(b.items, lines);
    var a, c := Quotes.LineIds(lines), Quotes.Ids(b.items);
    if multiset(a) == multiset(c) {
      assert |multiset(a)| == |multiset(c)|;
    }
  }

  lemma BulkDecisionRow(db: Db, customer: nat, e: nat, d: Decision, now: Time, i: nat)
    requires Invariant(db) && i < |db.bookings|
    ensures var db' := After(BulkDecision(db, customer, e, d, now), db);
            var b := db.bookings[i];
            && i < |db'.bookings|
            && if DecisionStands(db, customer, e, d) && i in d.accepted then
                 b.status == QuoteSent && b.payment.None? && d.channel.Some?
                 && db'.bookings[i] == Accepted(b, d.channel.value, now)
                                       .(status := if d.channel == Some(BankTransfer) then InProgress else Confirmed)
               else if DecisionStands(db, customer, e, d) && i in d.rejected then
                 b.status == QuoteSent && db'.bookings[i] == b.(status := Cancelled)
               else db'.bookings[i] == b
  {
    DecisionStandsIff(db, customer, e, d);
    BulkDecisionGoesThrough(db, customer, e, d, now);
    if DecisionStands(db, customer, e, d) {
      hide Invariant, DecisionStands, Accepted;
      QuotedOnly(db, customer, e, d, i);
      BulkDecisionKeepsRow(db, customer, e, d, now, i);
      hide CheckDecision, BulkDecision;
      BulkDecisionStarts(db, customer, e, d, now, i);
    }
  }

  lemma BulkDecisionKeepsRow(db: Db, customer: nat, e: nat, d: Decision, now: Time, i: nat)
    requires BulkDecision(db, customer, e, d, now).Success? && i < |db.bookings|
    ensures d.accepted != [] ==> d.channel.Some?
    ensures var db' := BulkDecision(db, customer, e, d, now).value;
            |db'.bookings| == |db.bookings|
            && db'.bookings[i] == Decided(db.bookings, d, now)[i].(status := db'.bookings[i].status)
  {
    var decided := db.(bookings := Decided(db.bookings, d, now));
    var closed := if AllCalledOff(decided.bookings, e) then WithEventStatus(decided, e, EvCancelled) else decided;
    hide CheckDecision, AllCalledOff;
    ProgressAllKeepsRows(closed, d.accepted, |d.accepted|, e, i);
  }

  lemma BulkDecisionMoves(db: Db, customer: nat, e: nat, d: Decision, now: Time, i: nat)
    requires Invariant(db) && i < |db.bookings|
    ensures Moves(db, After(BulkDecision(db, customer, e, d, now), db), OnBooking(DoBulkDecision(customer, e, d, now)),
                  i)
  {
    hide BecomesQuoted, BecomesRejected, BecomesDone, DecisionStands, BulkDecision, Invariant;
    CausesAmongBookingOps(db, DoBulkDecision(customer, e, d, now), i);
    DecisionHasChannel(db, customer, e, d, i);
    BulkDecisionRow(db, customer, e, d, now, i);
  }

  lemma DecisionHasChannel(db: Db, customer: nat, e: nat, d: Decision, i: nat)
    ensures DecisionStands(db, customer, e, d) && i in d.accepted ==>
              i !in d.rejected && (d.channel == Some(Cash) || d.channel == Some(BankTransfer))
  {
    if DecisionStands(db, customer, e, d) && i in d.accepted {
      match d.channel.value
      case Cash =>
      case BankTransfer =>
    }
  }

  lemma BulkDecisionGoesThrough(db: Db, customer: nat, e: nat, d: Decision, now: Time)
    ensures CheckDecision(db, customer, e, d).Pass? <==> BulkDecision(db, customer, e, d, now).Success?
    ensures CheckDecision(db, customer, e, d).Pass? && d.accepted != [] ==> d.channel.Some?
  {
    hide AllCalledOff, ProgressAll, Decided;
  }

  lemma SendQuoteMoves(db: Db, provider: nat, b: nat, lines: seq<Quotes.Line>, amount: Option<nat>, now: Time, i: nat)
    requires Invariant(db) && i < |db.bookings|
    ensures Moves(db, After(SendQuote(db, provider, b, lines, amount, now), db),
                  OnBooking(DoSendQuote(provider, b, lines, amount, now)), i)
  {
    assert BookingOk(db, db.bookings[i]);
    hide Invariant, BookingOk, Quotes.Acceptable, Quotes.FinalTotals, Quotes.QuotedItems, Quotes.LineIds, Quotes.Ids,
         BecomesConfirmed, BecomesRejected, BecomesRunning, BecomesDone, BecomesCancelled;
    CausesAmongBookingOps(db, DoSendQuote(provider, b, lines, amount, now), i);
    if b == i && db.bookings[i].items != [] {
      QuoteStandsIff(db, db.bookings[i], lines);
    }
  }

  lemma OneRowMoves(db: Db, op: BookingOp, i: nat)
    requires i < |db.bookings| && (op.DoRejectBooking? || op.DoCompleteBooking? || op.DoRejectQuote?)
    ensures Moves(db, After(ExecuteBooking(db, op), db), OnBooking(op), i)
  {
    hide BecomesQuoted, BecomesConfirmed, BecomesRunning, DecisionStands, CancellationStands;
    CausesAmongBookingOps(db, op, i);
  }

  lemma BookingOpMoves(db: Db, op: BookingOp, i: nat)
    requires Invariant(db) && i < |db.bookings|
    ensures Moves(db, After(ExecuteBooking(db, op), db), OnBooking(op), i)
  {
    hide Moves, Invariant, SendQuote, RejectBooking, CompleteBooking, RejectQuote, BulkDecision, ConfirmQuote,
         CancelEvent;
    match op
    case DoSendQuote(p, b, lines, amount, now) => SendQuoteMoves(db, p, b, lines, amount, now, i);
    case DoConfirmQuote(c, b, now) => ConfirmQuoteMoves(db, c, b, now, i);
    case DoBulkDecision(c, e, d, now) => BulkDecisionMoves(db, c, e, d, now, i);
    case DoCancelEvent(c, e) => CancelEventMoves(db, c, e, i);
    case _ => OneRowMoves(db, op, i);
  }

  lemma ConfirmQuoteMoves(db: Db, customer: nat, b: nat, now: Time, i: nat)
    requires Invariant(db) && i < |db.bookings|
    ensures Moves(db, After(ConfirmQuote(db, customer, b, now), db), OnBooking(DoConfirmQuote(customer, b, now)), i)
  {
    hide ConfirmQuote, Invariant, BecomesQuoted, BecomesRejected, BecomesRunning, BecomesDone, BecomesCancelled,
         DecisionStands;
    ConfirmedAlone(db, customer, b, now);
    CausesAmongBookingOps(db, DoConfirmQuote(customer, b, now), i);
  }

  lemma ConfirmedAlone(db: Db, customer: nat, b: nat, now: Time)
    requires Invariant(db)
    ensures After(ConfirmQuote(db, customer, b, now), db)
            == if b < |db.bookings| && db.bookings[b].customer == customer && db.bookings[b].status == QuoteSent
               then WithBooking(db, b, ConfirmedRow(db.bookings[b], now)) else db
  {
    hide Invariant, TryProgressEvent;
    if ConfirmQuote(db, customer, b, now).Success? {
      ConfirmQuoteStartsNothing(db, customer, b, now);
    }
  }

  lemma CancelEventMoves(db: Db, customer: nat, e: nat, i: nat)
    requires i < |db.bookings|
    ensures Moves(db, After(CancelEvent(db, customer, e), db), OnBooking(DoCancelEvent(customer, e)), i)
  {
    hide DecisionStands, BecomesQuoted, BecomesConfirmed, BecomesRejected, BecomesRunning, BecomesDone;
    CancellationStandsIff(db, customer, e);
    CausesAmongBookingOps(db, DoCancelEvent(customer, e), i);
  }

  // ----- payments --------------------------------------------------------------------------------------------

  // The states before and after booking j gets the payment that is about to be recorded as paid.
  predicate SameButPayment(db: Db, db0: Db, j: nat) {
    && j < |db.bookings| == |db0.bookings| && db0 == db.(bookings := db.bookings[j := db0.bookings[j]])
    && db0.bookings[j] == db.bookings[j].(payment := db0.bookings[j].payment) && db0.bookings[j].payment.Some?
  }

  function PaidRow(b: Booking): Booking {
    b.(payment := WithPayment(b.payment, Paid), deadline := None)
  }

  lemma CanProgressIff(db: Db, db0: Db, j: nat, o: nat)
    requires SameButPayment(db, db0, j) && Child(db, j, o)
    ensures CanProgress(WithBooking(db0, j, PaidRow(db0.bookings[j])).bookings, OfOrder(o)) <==>
            LastToWait(db, j, o) && SomeCanStart(db, j, o)
  {
    var bs := WithBooking(db0, j, PaidRow(db0.bookings[j])).bookings;
    forall i | 0 <= i < |bs|
      ensures InGroup(bs[i], OfOrder(o)) <==> db.bookings[i].order == Some(o)
      ensures Settled(bs[i]) <==> if i == j then !Sent(db.bookings[j]) else !Waits(db.bookings[i])
      ensures ReadyToStart(bs[i]) <==> db.bookings[i].status == Confirmed && (i == j || IsPaid(db.bookings[i].payment))
    {
    }
    hide Settled, ReadyToStart, Waits, Sent;
    assert InGroup(bs[j], OfOrder(o));
    if LastToWait(db, j, o) && SomeCanStart(db, j, o) {
      var i :| 0 <= i < |db.bookings| && db.bookings[i].order == Some(o) && db.bookings[i].status == Confirmed
               && (i == j || IsPaid(db.bookings[i].payment));
      assert InGroup(bs[i], OfOrder(o)) && ReadyToStart(bs[i]);
    }
    if CanProgress(bs, OfOrder(o)) {
      var i :| 0 <= i < |bs| && InGroup(bs[i], OfOrder(o)) && ReadyToStart(bs[i]);
      assert db.bookings[i].order == Some(o);
      forall i | 0 <= i < |db.bookings| && i != j && db.bookings[i].order == Some(o) ensures !Waits(db.bookings[i]) {
        assert InGroup(bs[i], OfOrder(o));
      }
    }
  }

  // What recording booking j's money does to the tables.
  function Starts(db: Db, j: nat, corrected: bool, i: nat): bool
    requires j < |db.bookings| && i < |db.bookings|
  {
    && db.bookings[i].status == Confirmed
    && if db.bookings[j].order.Some? then
         var o := db.bookings[j].order.value;
         db.bookings[i].order == Some(o) && o < |db.orders| && db.orders[o].status == OrdPendingPayment
         && LastToWait(db, j, o) && (i == j || IsPaid(db.bookings[i].payment))
       else corrected && i == j
  }

  lemma ProgressRow(db: Db, db0: Db, j: nat, o: nat, i: nat)
    requires SameButPayment(db, db0, j) && Child(db, j, o) && db.orders[o].status != OrdConfirmed && i < |db.bookings|
    ensures var paid := WithBooking(db0, j, PaidRow(db0.bookings[j]));
            var db' := TryProgressOrder(paid, o);
            && |db'.bookings| == |db.bookings|
            && db'.bookings[i] == if Starts(db, j, false, i) then paid.bookings[i].(status := InProgress)
                                  else paid.bookings[i]
  {
    CanProgressIff(db, db0, j, o);
    hide CanProgress, LastToWait;
    if Starts(db, j, false, i) {
      assert SomeCanStart(db, j, o);
    }
    hide SomeCanStart;
  }

  lemma MarkedRow(db: Db, db0: Db, j: nat, corrected: bool, i: nat)
    requires Invariant(db) && SameButPayment(db, db0, j) && i < |db.bookings|
    ensures var db' := MarkPaid(db0, j, corrected);
            var was := if i == j then PaidRow(db0.bookings[j]) else db.bookings[i];
            && |db'.bookings| == |db.bookings|
            && db'.bookings[i] == if Starts(db, j, corrected, i) then was.(status := InProgress) else was
  {
    EventsInPlace(db, j);
    hide Invariant, TryProgressOrder, LastToWait;
    if db.bookings[j].order.Some? {
      NeverConfirmed(db, db.bookings[j].order.value);
      ProgressRow(db, db0, j, db.bookings[j].order.value, i);
    }
  }

  lemma NeverConfirmed(db: Db, o: nat)
    requires Invariant(db) && o < |db.orders|
    ensures db.orders[o].status != OrdConfirmed
  {
    assert OrderOk(db, db.orders[o]);
  }

  // The state in which a payment operation records booking j's money as paid.
  function Opening(db: Db, op: PaymentOp, j: nat): Db
    requires j < |db.bookings|
  {
    if op.DoCreatePayment? then
      WithBooking(db, j, db.bookings[j].(payment := Some(NewPayment(db.bookings[j], op.channel, op.discount,
                                                                    PayProcessing, false))))
    else db
  }

  lemma MoneyIsMarked(db: Db, op: PaymentOp, j: nat)
    requires TakesMoney(db, op, j)
    ensures SameButPayment(db, Opening(db, op, j), j)
    ensures After(ExecutePayment(db, op), db) == MarkPaid(Opening(db, op, j), j, IsCorrected(op))
  {
    hide MarkPaid, NewPayment;
  }

  // Any other payment operation writes payments only.
  lemma OtherPaymentOps(db: Db, op: PaymentOp, i: nat)
    requires i < |db.bookings| && forall j :: 0 <= j < |db.bookings| ==> !TakesMoney(db, op, j)
    ensures var db' := After(ExecutePayment(db, op), db);
            && |db'.bookings| == |db.bookings| && |db'.orders| == |db.orders| && db'.events == db.events
            && db'.bookings[i] == db.bookings[i].(payment := db'.bookings[i].payment)
  {
    hide MarkPaid, NewPayment;
    match op
    case DoCreatePayment(_, b, _, _, _, _) => assert b < |db.bookings| ==> !TakesMoney(db, op, b);
    case DoConfirmPayment(_, ref, _, _) =>
      assert ref.BookingPayment? && ref.b < |db.bookings| ==> !TakesMoney(db, op, ref.b);
    case DoMarkCashPaid(_, b, _) => assert b < |db.bookings| ==> !TakesMoney(db, op, b);
    case DoRefund(_) =>
  }

  lemma PaymentOpMoves(db: Db, op: PaymentOp, i: nat)
    requires Invariant(db) && i < |db.bookings|
    ensures Moves(db, After(ExecutePayment(db, op), db), OnPayment(op), i)
  {
    hide Invariant, ExecutePayment, TakesMoney, MarkPaid, Opening, Starts, BecomesQuoted, BecomesConfirmed,
         BecomesRejected, BecomesRunning, BecomesDone, BecomesCancelled, NewPayment;
    CausesElsewhere(db, OnPayment(op), i);
    if j: nat :| j < |db.bookings| && TakesMoney(db, op, j) {
      MoneyIsMarked(db, op, j);
      MarkedRow(db, Opening(db, op, j), j, IsCorrected(op), i);
      StartedByMoney(db, op, j, i);
      StartsConfirmed(db, j, IsCorrected(op), i);
      assert Opening(db, op, j).bookings[j].status == db.bookings[j].status;
    } else {
      OtherPaymentOps(db, op, i);
      NoMoneyNoStart(db, op, i);
    }
  }

  lemma StartsConfirmed(db: Db, j: nat, corrected: bool, i: nat)
    requires j < |db.bookings| && i < |db.bookings|
    ensures Starts(db, j, corrected, i) ==> db.bookings[i].status == Confirmed
  {
  }

  lemma NoMoneyNoStart(db: Db, op: PaymentOp, i: nat)
    requires i < |db.bookings| && forall j :: 0 <= j < |db.bookings| ==> !TakesMoney(db, op, j)
    ensures !BecomesRunning(db, OnPayment(op), i)
  {
    hide TakesMoney;
  }

  lemma StartedByMoney(db: Db, op: PaymentOp, j: nat, i: nat)
    requires j < |db.bookings| && i < |db.bookings| && TakesMoney(db, op, j)
    ensures Starts(db, j, IsCorrected(op), i) <==> BecomesRunning(db, OnPayment(op), i)
  {
    OneBookingIsPaid(db, op);
    hide TakesMoney, LastToWait;
    if Starts(db, j, IsCorrected(op), i) && db.bookings[j].order.Some? {
      assert SomeCanStart(db, j, db.bookings[j].order.value);
      assert PaysLastChild(db, op, db.bookings[j].order.value);
    }
    if BecomesRunning(db, OnPayment(op), i) && db.bookings[i].order.Some? {
      LastIsChild(db, j, db.bookings[i].order.value);
    }
  }

  lemma LastIsChild(db: Db, j: nat, o: nat)
    ensures LastToWait(db, j, o) ==> Child(db, j, o)
  {
  }

  lemma OneBookingIsPaid(db: Db, op: PaymentOp)
    ensures forall j: nat, k: nat :: TakesMoney(db, op, j) && TakesMoney(db, op, k) ==> j == k
  {
  }

  // ----- package bookings and sweeps -------------------------------------------------------------------------

  lemma OrderInPlace(db: Db, o: nat)
    requires Invariant(db) && o < |db.orders|
    ensures db.orders[o].package < |db.packages| && db.orders[o].event < |db.events|
    ensures db.orders[o].status != OrdConfirmed
    ensures db.orders[o].status == OrdPending ==> db.orders[o].payment.None?
    ensures db.orders[o].status == OrdPendingPayment ==> db.orders[o].payment.Some?
  {
    assert OrderOk(db, db.orders[o]);
  }

  lemma AcceptMoves(db: Db, op: OrderOp, i: nat)
    requires Invariant(db) && i < |db.bookings| && op.DoAcceptOrder?
    ensures Moves(db, After(ExecuteOrder(db, op), db), OnOrder(op), i)
  {
    hide Invariant, BecomesQuoted, BecomesRejected, BecomesDone, BecomesCancelled, BecomesRunning;
    CausesElsewhere(db, OnOrder(op), i);
    NoPaymentIsMade(db, op);
    if op.o < |db.orders| {
      OrderInPlace(db, op.o);
    }
  }

  lemma NoPaymentIsMade(db: Db, op: OrderOp)
    requires op.DoAcceptOrder? || op.DoRejectOrder? || op.DoCancelOrder? || op.DoCompleteOrder?
    ensures forall i: nat :: i < |db.bookings| ==> !BecomesRunning(db, OnOrder(op), i)
    ensures forall o: nat :: !StartsOrder(db, OnOrder(op), o)
  {
  }

  lemma CallOffMoves(db: Db, op: OrderOp, i: nat)
    requires Invariant(db) && i < |db.bookings| && (op.DoRejectOrder? || op.DoCancelOrder?)
    ensures Moves(db, After(ExecuteOrder(db, op), db), OnOrder(op), i)
  {
    hide Invariant, BecomesQuoted, BecomesConfirmed, BecomesRejected, BecomesRunning, BecomesDone;
    CausesElsewhere(db, OnOrder(op), i);
    NoPaymentIsMade(db, op);
    if op.o < |db.orders| {
      OrderInPlace(db, op.o);
    }
  }

  lemma CompletionMoves(db: Db, op: OrderOp, i: nat)
    requires Invariant(db) && i < |db.bookings| && op.DoCompleteOrder?
    ensures Moves(db, After(ExecuteOrder(db, op), db), OnOrder(op), i)
  {
    hide Invariant, BecomesQuoted, BecomesRejected, BecomesConfirmed, BecomesRunning, BecomesCancelled;
    CausesElsewhere(db, OnOrder(op), i);
    NoPaymentIsMade(db, op);
    if op.o < |db.orders| {
      OrderInPlace(db, op.o);
    }
  }

  predicate PaymentCall(op: OrderOp) {
    op.DoPayOrder? || op.DoConfirmOrderCash? || op.DoConfirmOrderCard?
  }

  // A payment that goes through starts the package booking; any other payment call writes its payment only.
  lemma PaymentCallEffect(db: Db, op: OrderOp)
    requires Invariant(db) && PaymentCall(op) && op.o < |db.orders|
    ensures var r := After(ExecuteOrder(db, op), db);
            if PaysOrder(db, op, op.o) then
              r.orders[op.o := db.orders[op.o]] == db.orders && |r.orders| == |db.orders|
              && IsPaid(r.orders[op.o].payment)
              && r.orders[op.o] == db.orders[op.o].(status := OrdInProgress, payment := r.orders[op.o].payment)
              && r == StartOrder(WithOrder(db, op.o, db.orders[op.o].(payment := r.orders[op.o].payment)), op.o)
            else
              |r.orders| == |db.orders|
              && r == WithOrder(db, op.o, db.orders[op.o].(payment := r.orders[op.o].payment))
  {
    OrderInPlace(db, op.o);
    hide Invariant;
  }

  lemma NothingToPay(db: Db, op: OrderOp)
    requires op.o >= |db.orders|
    ensures !PaysOrder(db, op, op.o)
  {
  }

  lemma PaidChildren(db: Db, op: OrderOp, i: nat)
    requires Invariant(db) && i < |db.bookings| && PaymentCall(op)
    ensures var db' := After(ExecuteOrder(db, op), db);
            var b := db.bookings[i];
            && |db'.bookings| == |db.bookings|
            && db'.bookings[i] == if PaysOrder(db, op, op.o) && b.order == Some(op.o) && b.status == Confirmed
                                  then b.(status := InProgress) else b
  {
    hide Invariant, PaysOrder;
    if op.o < |db.orders| {
      PaymentCallEffect(db, op);
    } else {
      NothingToPay(db, op);
    }
  }

  lemma PaymentMoves(db: Db, op: OrderOp, i: nat)
    requires Invariant(db) && i < |db.bookings| && PaymentCall(op)
    ensures Moves(db, After(ExecuteOrder(db, op), db), OnOrder(op), i)
  {
    CausesElsewhere(db, OnOrder(op), i);
    hide BecomesQuoted, BecomesConfirmed, BecomesRejected, BecomesDone, BecomesCancelled, ExecuteOrder;
    PaidChildren(db, op, i);
    EventsInPlace(db, i);
    hide Invariant, PaysOrder;
  }

  lemma OrderOpMoves(db: Db, op: OrderOp, i: nat)
    requires Invariant(db) && i < |db.bookings|
    ensures Moves(db, After(ExecuteOrder(db, op), db), OnOrder(op), i)
  {
    hide Moves, Invariant, ExecuteOrder;
    match op
    case DoAcceptOrder(_, _, _) => AcceptMoves(db, op, i);
    case DoRejectOrder(_, _) => CallOffMoves(db, op, i);
    case DoCancelOrder(_, _) => CallOffMoves(db, op, i);
    case DoCompleteOrder(_, _) => CompletionMoves(db, op, i);
    case _ => PaymentMoves(db, op, i);
  }

  lemma SweepsDue(db: Db, op: SweepOp)
    ensures op.DoSweepEvents? ==>
              forall e: nat :: e < |db.events| ==> (SweepsEvent(db, OnSweep(op), e) <==> Due(db.events[e], op.now))
    ensures op.DoSweepOrders? ==>
              forall o: nat, kind: OrderSweep :: o < |db.orders| ==>
                (SweepsOrder(db, OnSweep(op), kind, o) <==> kind == op.kind && OrderDue(db, kind, db.orders[o], op.now))
  {
  }

  lemma SweepBookingsMoves(db: Db, now: Time, i: nat)
    requires i < |db.bookings|
    ensures Moves(db, SweepBookings(db, now, |db.bookings|), OnSweep(DoSweepBookings(now)), i)
  {
    CausesElsewhere(db, OnSweep(DoSweepBookings(now)), i);
    hide BecomesQuoted, BecomesConfirmed, BecomesRejected, BecomesRunning;
  }

  lemma SweepCauses(db: Db, op: SweepOp, i: nat)
    requires i < |db.bookings|
    ensures var b := db.bookings[i];
            op.DoSweepEvents? ==>
              (BecomesDone(db, OnSweep(op), i) <==> b.status == InProgress && SweepsEvent(db, OnSweep(op), b.event))
              && (BecomesCancelled(db, OnSweep(op), i) <==> Sent(b) && SweepsEvent(db, OnSweep(op), b.event))
    ensures var b := db.bookings[i];
            op.DoSweepOrders? ==>
              (BecomesDone(db, OnSweep(op), i) <==>
               b.status == InProgress && op.kind == CompleteFinished && b.order.Some?
               && SweepsOrder(db, OnSweep(op), op.kind, b.order.value))
              && (BecomesCancelled(db, OnSweep(op), i) <==>
                  op.kind != CompleteFinished && b.order.Some? && SweepsOrder(db, OnSweep(op), op.kind, b.order.value)
                  && (b.status == Pending || b.status == Confirmed
                      || (op.kind == ExpireUnpaid && b.status == InProgress)))
  {
    if op.DoSweepOrders? {
      OneKindIsSwept(db, op.kind, op.now);
    }
  }

  lemma SweepEventsMoves(db: Db, now: Time, i: nat)
    requires Invariant(db) && i < |db.bookings|
    ensures Moves(db, SweepEvents(db, now, |db.events|), OnSweep(DoSweepEvents(now)), i)
  {
    hide Invariant, SweepEvents, SweepsEvent, Due, BecomesQuoted, BecomesConfirmed, BecomesRejected, BecomesRunning,
         BecomesDone, BecomesCancelled;
    var op := DoSweepEvents(now);
    CausesElsewhere(db, OnSweep(op), i);
    SweepCauses(db, op, i);
    SweepsDue(db, op);
    EventsInPlace(db, i);
    EventSweepIsExact(db, now, |db.events|);
  }

  lemma SweptChild(db: Db, kind: OrderSweep, now: Time, i: nat)
    requires Invariant(db) && i < |db.bookings|
    ensures var db' := SweepOrders(db, kind, now, |db.orders|);
            var b := db.bookings[i];
            && |db'.bookings| == |db.bookings|
            && db'.bookings[i] == if b.order.Some?
                                     && SweepsOrder(db, OnSweep(DoSweepOrders(kind, now)), kind, b.order.value)
                                  then b.(status := ChildAfterSweep(kind, b.status)) else b
  {
    SweepsDue(db, DoSweepOrders(kind, now));
    EventsInPlace(db, i);
    OrderSweepIsExact(db, kind, now, |db.orders|);
    hide Invariant, SweepOrders, SweepsOrder, OrderDue, OrdersSwept, EventsSwept, ChildAfterSweep;
  }

  lemma OneKindIsSwept(db: Db, kind: OrderSweep, now: Time)
    ensures forall k: OrderSweep, o: nat :: SweepsOrder(db, OnSweep(DoSweepOrders(kind, now)), k, o) ==> k == kind
  {
  }

  lemma SweepOrdersMoves(db: Db, kind: OrderSweep, now: Time, i: nat)
    requires Invariant(db) && i < |db.bookings|
    ensures Moves(db, SweepOrders(db, kind, now, |db.orders|), OnSweep(DoSweepOrders(kind, now)), i)
  {
    hide Invariant, SweepOrders, SweepsOrder, BecomesQuoted, BecomesConfirmed, BecomesRejected, BecomesRunning,
         BecomesDone, BecomesCancelled;
    CausesElsewhere(db, OnSweep(DoSweepOrders(kind, now)), i);
    SweptChild(db, kind, now, i);
    SweepCauses(db, DoSweepOrders(kind, now), i);
  }

  lemma SweepOpMoves(db: Db, op: SweepOp, i: nat)
    requires Invariant(db) && i < |db.bookings|
    ensures Moves(db, After(ExecuteSweep(db, op), db), OnSweep(op), i)
  {
    hide Moves, Invariant, SweepBookings, SweepEvents, SweepOrders;
    match op
    case DoSweepBookings(now) => SweepBookingsMoves(db, now, i);
    case DoSweepEvents(now) => SweepEventsMoves(db, now, i);
    case DoSweepOrders(kind, now) => SweepOrdersMoves(db, kind, now, i);
  }

  lemma StepMoves(cat: Catalogue, db: Db, op: Operation, i: nat)
    requires Invariant(db) && i < |db.bookings|
    ensures Moves(db, Apply(cat, db, op), op, i)
  {
    hide Invariant, ExecuteAdmission, ExecuteBooking, ExecutePayment, ExecuteOrder, ExecuteSweep;
    match op
    case OnAdmission(a) => AdmissionLeavesRows(cat, db, a, i); CausesElsewhere(db, op, i);
    case OnBooking(b) => BookingOpMoves(db, b, i);
    case OnPayment(p) => PaymentOpMoves(db, p, i);
    case OnOrder(q) => OrderOpMoves(db, q, i);
    case OnSweep(s) => SweepOpMoves(db, s, i);
    case OnPackage(_) => CausesElsewhere(db, op, i);
    case OnBlocks(_) => CausesElsewhere(db, op, i);
  }

  // In every reachable state and for every operation: a booking's status becomes another one exactly when
  // something on its list of causes happens.
  lemma BookingsMoveIff(cat: Catalogue, past: seq<Operation>, op: Operation, i: nat)
    requires i < |Reached(cat, past).bookings|
    ensures i < |Reached(cat, past + [op]).bookings|
    ensures var db := Reached(cat, past);
            var b, b' := db.bookings[i], Reached(cat, past + [op]).bookings[i];
            && !Moved(b, b', Pending)
            && (Moved(b, b', QuoteSent) <==> BecomesQuoted(db, op, i))
            && (Moved(b, b', Confirmed) <==> BecomesConfirmed(db, op, i))
            && (Moved(b, b', Rejected) <==> BecomesRejected(db, op, i))
            && (Moved(b, b', InProgress) <==> BecomesRunning(db, op, i))
            && (Moved(b, b', BookingStatus.Completed) <==> BecomesDone(db, op, i))
            && (Moved(b, b', Cancelled) <==> BecomesCancelled(db, op, i))
  {
    hide Apply;
    ReachedIsSound(cat, past);
    OneMore(cat, past, op);
    hide Reached;
    StepMoves(cat, Reached(cat, past), op, i);
  }
}
