// The services over a mutable database. Every method is one service call or one sweeper run; what it
// reports and what it leaves behind is the operation of the same name, so the object only ever holds
// a state that some run reaches.
module Store {
  import opened Wrappers
  import opened Marketplace
  import opened Pricing
  import opened Admission
  import opened Lifecycle
  import opened Runs
  import opened Quotes
  import Capacity
  import Composition
  import BlockedSlots
  import Guarantees
  import TimeHelper
  import Safety

  class Database {
    const cat: Catalogue
    var events: seq<Event>
    var bookings: seq<Booking>
    var orders: seq<Order>
    var packages: seq<Package>
    var blocks: seq<BlockedSlots.Block>
    ghost var history: seq<Operation>

    function State(): Db
      reads this
    {
      Db(events, bookings, orders, packages, blocks)
    }

    ghost predicate Valid()
      reads this
    {
      State() == Guarantees.Reached(cat, history)
    }

    // A call behaved as its operation: same report, same state, and it joined the history.
    ghost predicate Performed(before: Db, past: seq<Operation>, op: Operation, r: Result<Db, Error>,
                              outcome: Outcome<Error>)
      reads this
    {
      outcome == Report(r) && LeftBehind(before, past, op, r)
    }

    ghost predicate LeftBehind(before: Db, past: seq<Operation>, op: Operation, r: Result<Db, Error>)
      reads this
    {
      Valid() && history == past + [op] && State() == After(r, before)
    }

    ghost predicate PerformedAdmission(before: Db, past: seq<Operation>, op: AdmissionOp, outcome: Outcome<Error>)
      reads this
    {
      Performed(before, past, OnAdmission(op), ExecuteAdmission(cat, before, op), outcome)
    }

    ghost predicate PerformedBooking(before: Db, past: seq<Operation>, op: BookingOp, outcome: Outcome<Error>)
      reads this
    {
      Performed(before, past, OnBooking(op), ExecuteBooking(before, op), outcome)
    }

    ghost predicate PerformedPayment(before: Db, past: seq<Operation>, op: PaymentOp, outcome: Outcome<Error>)
      reads this
    {
      outcome == PaymentReply(before, op) && LeftBehind(before, past, OnPayment(op), ExecutePayment(before, op))
    }

    ghost predicate PerformedOrder(before: Db, past: seq<Operation>, op: OrderOp, outcome: Outcome<Error>)
      reads this
    {
      Performed(before, past, OnOrder(op), ExecuteOrder(before, op), outcome)
    }

    ghost predicate PerformedSweep(before: Db, past: seq<Operation>, op: SweepOp, outcome: Outcome<Error>)
      reads this
    {
      Performed(before, past, OnSweep(op), ExecuteSweep(before, op), outcome)
    }

    ghost predicate PerformedPackage(before: Db, past: seq<Operation>, op: PackageOp, outcome: Outcome<Error>)
      reads this
    {
      Performed(before, past, OnPackage(op), ExecutePackage(cat, before, op), outcome)
    }

    ghost predicate PerformedBlocks(before: Db, past: seq<Operation>, op: BlockOp, outcome: Outcome<Error>)
      reads this
    {
      Performed(before, past, OnBlocks(op), ExecuteBlocks(cat, before, op), outcome)
    }

    constructor (cat: Catalogue)
      ensures Valid() && State() == EMPTY && this.cat == cat && history == []
    {
      this.cat := cat;
      events, bookings, orders, packages, blocks := [], [], [], [], [];
      history := [];
    }

    // Extends the history by an operation whose effect the tables already show.
    ghost method Record(before: Db, op: Operation)
      requires before == Guarantees.Reached(cat, history) && State() == Apply(cat, before, op)
      modifies this`history
      ensures Valid() && history == old(history) + [op]
    {
      Guarantees.OneMore(cat, history, op);
      history := history + [op];
    }

    ghost method RecordAdmission(before: Db, op: AdmissionOp)
      requires before == Guarantees.Reached(cat, history) && State() == After(ExecuteAdmission(cat, before, op), before)
      modifies this`history
      ensures Valid() && history == old(history) + [OnAdmission(op)]
    {
      hide Guarantees.Reached, ExecuteAdmission, ExecuteBooking, ExecutePayment, ExecuteOrder, ExecuteSweep,
           ExecutePackage, ExecuteBlocks;
      Record(before, OnAdmission(op));
    }

    ghost method RecordBooking(before: Db, op: BookingOp)
      requires before == Guarantees.Reached(cat, history) && State() == After(ExecuteBooking(before, op), before)
      modifies this`history
      ensures Valid() && history == old(history) + [OnBooking(op)]
    {
      hide Guarantees.Reached, ExecuteAdmission, ExecuteBooking, ExecutePayment, ExecuteOrder, ExecuteSweep,
           ExecutePackage, ExecuteBlocks;
      Record(before, OnBooking(op));
    }

    ghost method RecordPayment(before: Db, op: PaymentOp)
      requires before == Guarantees.Reached(cat, history) && State() == After(ExecutePayment(before, op), before)
      modifies this`history
      ensures Valid() && history == old(history) + [OnPayment(op)]
    {
      hide Guarantees.Reached, ExecuteAdmission, ExecuteBooking, ExecutePayment, ExecuteOrder, ExecuteSweep,
           ExecutePackage, ExecuteBlocks;
      Record(before, OnPayment(op));
    }

    ghost method RecordOrder(before: Db, op: OrderOp)
      requires before == Guarantees.Reached(cat, history) && State() == After(ExecuteOrder(before, op), before)
      modifies this`history
      ensures Valid() && history == old(history) + [OnOrder(op)]
    {
      hide Guarantees.Reached, ExecuteAdmission, ExecuteBooking, ExecutePayment, ExecuteOrder, ExecuteSweep,
           ExecutePackage, ExecuteBlocks;
      Record(before, OnOrder(op));
    }

    ghost method RecordSweep(before: Db, op: SweepOp)
      requires before == Guarantees.Reached(cat, history) && State() == After(ExecuteSweep(before, op), before)
      modifies this`history
      ensures Valid() && history == old(history) + [OnSweep(op)]
    {
      hide Guarantees.Reached, ExecuteAdmission, ExecuteBooking, ExecutePayment, ExecuteOrder, ExecuteSweep,
           ExecutePackage, ExecuteBlocks;
      Record(before, OnSweep(op));
    }

    ghost method RecordPackage(before: Db, op: PackageOp)
      requires before == Guarantees.Reached(cat, history) && State() == After(ExecutePackage(cat, before, op), before)
      modifies this`history
      ensures Valid() && history == old(history) + [OnPackage(op)]
    {
      hide Guarantees.Reached, ExecuteAdmission, ExecuteBooking, ExecutePayment, ExecuteOrder, ExecuteSweep,
           ExecutePackage, ExecuteBlocks;
      Record(before, OnPackage(op));
    }

    ghost method RecordBlocks(before: Db, op: BlockOp)
      requires before == Guarantees.Reached(cat, history) && State() == After(ExecuteBlocks(cat, before, op), before)
      modifies this`history
      ensures Valid() && history == old(history) + [OnBlocks(op)]
    {
      hide Guarantees.Reached, ExecuteAdmission, ExecuteBooking, ExecutePayment, ExecuteOrder, ExecuteSweep,
           ExecutePackage, ExecuteBlocks;
      Record(before, OnBlocks(op));
    }

    // ----- admission -------------------------------------------------------------------------

    method ValidateAll(sels: seq<Selection>, ev: Event) returns (outcome: Outcome<Error>)
      ensures outcome == ValidateFirst(cat, sels, ev, |sels|)
    {
      for k := 0 to |sels|
        invariant ValidateFirst(cat, sels, ev, k).Pass?
      {
        outcome := Validate(cat, sels[k], ev);
        if outcome.Fail? {
          RefusedStaysRefused(cat, sels, ev, k + 1);
          return;
        }
      }
      outcome := Pass;
    }

    method CreateEvent(customer: nat, day: int, start: int, end: int, guests: nat, sels: seq<Selection>, now: Time)
      returns (outcome: Outcome<Error>)
      requires Valid()
      modifies this
      ensures PerformedAdmission(old(State()), old(history),
                                 DoCreateEvent(customer, day, start, end, guests, sels, now), outcome)
    {
      hide Validate, Admit, NewBooking, Guarantees.Reached;
      ghost var before, op := State(), DoCreateEvent(customer, day, start, end, guests, sels, now);
      var ev := Event(customer, day, start, end, guests, EvDraft);
      if start == end {
        outcome := Fail(SameTimes);
        RecordAdmission(before, op);
        return;
      }
      if exists i | 0 <= i < |sels| :: !BookableAlone(cat, sels[i].service) {
        outcome := Fail(NotBookable);
        RecordAdmission(before, op);
        return;
      }
      outcome := ValidateAll(sels, ev);
      if outcome.Fail? {
        RecordAdmission(before, op);
        return;
      }
      ValidateFirstCovers(cat, sels, ev, |sels|);
      // One transaction: the draft replaces the tables only when every selection was admitted.
      var e := |events|;
      var opening := State().(events := events + [ev]);
      var draft := opening;
      for k := 0 to |sels|
        invariant State() == before && history == old(history) && draft.events == opening.events
        invariant AdmitInTurn(cat, opening, e, sels, k, None, now + PENDING_TIMEOUT, true) == Success(draft)
      {
        var verdict := Admit(cat, draft, ev, sels[k], true);
        if verdict.Fail? {
          outcome := verdict;
          InTurnStaysRefused(cat, opening, e, sels, k + 1, None, now + PENDING_TIMEOUT, true);
          RecordAdmission(before, op);
          return;
        }
        NewBookingFitsCatalogue(cat, sels[k], ev);
        draft := draft.(bookings := draft.bookings + [NewBooking(cat, ev, e, sels[k], None, now + PENDING_TIMEOUT)]);
      }
      events, bookings := draft.events, draft.bookings;
      RecordAdmission(before, op);
    }

    method AddService(customer: nat, e: nat, sel: Selection, now: Time) returns (outcome: Outcome<Error>)
      requires Valid()
      modifies this
      ensures PerformedAdmission(old(State()), old(history), DoAddService(customer, e, sel, now), outcome)
    {
      hide Validate, Admit, NewBooking, Guarantees.Reached;
      ghost var before, op := State(), DoAddService(customer, e, sel, now);
      if e >= |events| {
        outcome := Fail(NotFound);
      } else if events[e].customer != customer {
        outcome := Fail(Forbidden);
      } else if events[e].status != EvDraft && events[e].status != EvInProgress {
        outcome := Fail(BadStatus);
      } else if events[e].day * TimeHelper.DAY - now <= MIN_LEAD {
        outcome := Fail(TooLate);
      } else if !BookableAlone(cat, sel.service) {
        outcome := Fail(NotBookable);
      } else {
        outcome := Validate(cat, sel, events[e]);
        if outcome.Pass? {
          outcome := Admit(cat, State(), events[e], sel, true);
          if outcome.Pass? {
            NewBookingFitsCatalogue(cat, sel, events[e]);
            bookings := bookings + [NewBooking(cat, events[e], e, sel, None, now + PENDING_TIMEOUT)];
          }
        }
      }
      RecordAdmission(before, op);
    }

    method BookPackage(customer: nat, p: nat, day: int, start: int, end: int, guests: nat, sels: seq<Selection>,
                       discount: Option<Percent>, now: Time) returns (outcome: Outcome<Error>)
      requires Valid()
      modifies this
      ensures PerformedAdmission(old(State()), old(history),
                                 DoBookPackage(customer, p, day, start, end, guests, sels, discount, now), outcome)
    {
      hide Validate, AdmitAtOnce, SumTotals, Guarantees.Reached, CoversPackage, DistinctServices, StackedTotal;
      ghost var before, op := State(), DoBookPackage(customer, p, day, start, end, guests, sels, discount, now);
      var ev := Event(customer, day, start, end, guests, EvDraft);
      if p >= |packages| || packages[p].status != PkgActive {
        outcome := Fail(NotFound);
        RecordAdmission(before, op);
        return;
      }
      if start == end {
        outcome := Fail(SameTimes);
        RecordAdmission(before, op);
        return;
      }
      if forall m | 0 <= m < |packages[p].members| :: packages[p].members[m].status != MemActive {
        outcome := Fail(BadStatus);
        RecordAdmission(before, op);
        return;
      }
      if !DistinctServices(sels) || !CoversPackage(packages[p], sels) {
        outcome := Fail(SelectionMismatch);
        RecordAdmission(before, op);
        return;
      }
      if exists o | 0 <= o < |orders| :: orders[o].package == p && orders[o].customer == customer
           && Engaged(orders[o].status) {
        outcome := Fail(ActiveOrderExists);
        RecordAdmission(before, op);
        return;
      }
      outcome := ValidateAll(sels, ev);
      if outcome.Fail? {
        RecordAdmission(before, op);
        return;
      }
      ValidateFirstCovers(cat, sels, ev, |sels|);
      var e, o, deadline := |events|, |orders|, now + PACKAGE_REQUEST_TIMEOUT;
      var children, totalAmount;
      outcome, children, totalAmount := CollectChildren(State().(events := events + [ev]), e, sels, o, deadline);
      if outcome.Pass? {
        var total := ApplyPackageTotalDiscount(totalAmount, packages[p].discount, discount);
        events := events + [ev];
        bookings := bookings + children;
        orders := orders + [Order(p, customer, e, OrdPending, total, Some(deadline), None, None)];
      }
      RecordAdmission(before, op);
    }

    // Checks every selection against the same state and prepares its booking.
    method CollectChildren(opening: Db, e: nat, sels: seq<Selection>, o: nat, deadline: Time)
      returns (outcome: Outcome<Error>, children: seq<Booking>, totalAmount: nat)
      requires e < |opening.events|
      requires forall i :: 0 <= i < |sels| ==> Validate(cat, sels[i], opening.events[e]).Pass?
      ensures var r := AdmitAtOnce(cat, opening, e, sels, |sels|, Some(o), deadline, false);
              outcome == Report(r) && (r.Success? ==> children == r.value && totalAmount == SumTotals(children))
    {
      hide Validate, Admit, NewBooking;
      totalAmount, children := 0, [];
      for k := 0 to |sels|
        invariant AdmitAtOnce(cat, opening, e, sels, k, Some(o), deadline, false) == Success(children)
        invariant totalAmount == SumTotals(children)
      {
        outcome := Admit(cat, opening, opening.events[e], sels[k], false);
        if outcome.Fail? {
          AtOnceStaysRefused(cat, opening, e, sels, k + 1, Some(o), deadline, false);
          return;
        }
        NewBookingFitsCatalogue(cat, sels[k], opening.events[e]);
        var child := NewBooking(cat, opening.events[e], e, sels[k], Some(o), deadline);
        totalAmount := totalAmount + child.totalAmount;
        assert (children + [child])[..|children|] == children;
        children := children + [child];
      }
      outcome := Pass;
    }

    // ----- progression, shared by several calls ------------------------------------------------

    method TryProgressEvent(e: nat)
      modifies this`bookings, this`events
      ensures State() == Lifecycle.TryProgressEvent(old(State()), e)
    {
      var ready := ReadyGroup(OfEvent(e));
      if ready {
        StartGroup(OfEvent(e));
        SetEventStatus(e, EvInProgress);
      }
    }

    // Every booking of the group is settled and at least one can start.
    method ReadyGroup(g: Group) returns (ready: bool)
      ensures ready <==> CanProgress(bookings, g)
    {
      var allSettled, someReady := true, false;
      for i := 0 to |bookings|
        invariant allSettled <==> forall j :: 0 <= j < i && InGroup(bookings[j], g) ==> Settled(bookings[j])
        invariant someReady <==> exists j :: 0 <= j < i && InGroup(bookings[j], g) && ReadyToStart(bookings[j])
      {
        if InGroup(bookings[i], g) {
          allSettled := allSettled && Settled(bookings[i]);
          someReady := someReady || ReadyToStart(bookings[i]);
        }
      }
      ready := allSettled && someReady;
    }

    method StartGroup(g: Group)
      modifies this`bookings
      ensures bookings == StartReady(old(bookings), g)
    {
      ghost var started := StartReady(bookings, g);
      for i := 0 to |bookings|
        invariant |bookings| == |old(bookings)|
        invariant forall j :: 0 <= j < |bookings| ==> bookings[j] == if j < i then started[j] else old(bookings)[j]
      {
        if InGroup(bookings[i], g) && ReadyToStart(bookings[i]) {
          bookings := bookings[i := bookings[i].(status := InProgress)];
        }
      }
    }

    method SetEventStatus(e: nat, status: EventStatus)
      modifies this`events
      ensures State() == WithEventStatus(old(State()), e, status)
    {
      if e < |events| {
        events := events[e := events[e].(status := status)];
      }
    }

    method TryProgressOrder(o: nat)
      modifies this`bookings, this`events, this`orders
      ensures State() == Lifecycle.TryProgressOrder(old(State()), o)
    {
      if o >= |orders| || (orders[o].status != OrdConfirmed && orders[o].status != OrdPendingPayment) {
        return;
      }
      var ready := ReadyGroup(OfOrder(o));
      if ready {
        StartGroup(OfOrder(o));
        orders := orders[o := orders[o].(status := OrdInProgress)];
        var e := orders[o].event;
        if e < |events| && events[e].status == EvDraft {
          SetEventStatus(e, EvInProgress);
        }
      }
    }

    method ProgressBookingAndEvent(b: nat, e: nat)
      modifies this`bookings, this`events
      ensures State() == Lifecycle.ProgressBookingAndEvent(old(State()), b, e)
    {
      if b >= |bookings| || bookings[b].status != Confirmed || e >= |events| {
        return;
      }
      bookings := bookings[b := bookings[b].(status := InProgress)];
      if events[e].status == EvDraft {
        SetEventStatus(e, EvInProgress);
      }
    }

    method StartOrder(o: nat)
      requires o < |orders|
      modifies this`bookings, this`events, this`orders
      ensures State() == Lifecycle.StartOrder(old(State()), o)
    {
      orders := orders[o := orders[o].(status := OrdInProgress)];
      bookings := Move(bookings, OfOrder(o), {Confirmed}, InProgress);
      SetEventStatus(orders[o].event, EvInProgress);
    }

    method FinishOrder(o: nat)
      requires o < |orders|
      modifies this`bookings, this`events, this`orders
      ensures State() == Lifecycle.FinishOrder(old(State()), o)
      ensures |orders| == |old(orders)|
    {
      orders := orders[o := orders[o].(status := OrdCompleted)];
      bookings := Move(bookings, OfOrder(o), {InProgress}, Completed);
      SetEventStatus(orders[o].event, EvCompleted);
    }

    method MarkPaid(b: nat, corrected: bool)
      requires b < |bookings|
      modifies this`bookings, this`events, this`orders
      ensures State() == Lifecycle.MarkPaid(old(State()), b, corrected)
    {
      bookings := bookings[b := bookings[b].(payment := WithPayment(bookings[b].payment, Paid))];
      bookings := bookings[b := bookings[b].(deadline := None)];
      assert bookings == old(bookings)[b := bookings[b]];
      if bookings[b].order.Some? {
        TryProgressOrder(bookings[b].order.value);
      } else if corrected {
        ProgressBookingAndEvent(b, bookings[b].event);
      }
    }

    // ----- quotes -----------------------------------------------------------------------------------

    method SendQuote(provider: nat, b: nat, lines: seq<Line>, amount: Option<nat>, now: Time)
      returns (outcome: Outcome<Error>)
      requires Valid()
      modifies this
      ensures PerformedBooking(old(State()), old(history), DoSendQuote(provider, b, lines, amount, now), outcome)
    {
      hide Guarantees.Reached, Acceptable;
      ghost var before, op := State(), DoSendQuote(provider, b, lines, amount, now);
      outcome := Pass;
      if b >= |bookings| || bookings[b].provider != provider {
        outcome := Fail(NotFound);
      } else if bookings[b].status != Pending {
        outcome := Fail(BadStatus);
      } else if |bookings[b].items| > 0 && !Acceptable(bookings[b].items, lines) {
        outcome := Fail(BadQuote);
      } else if |bookings[b].items| == 0 && amount.None? {
        outcome := Fail(BadQuote);
      } else {
        var items, finalAmount := bookings[b].items, 0;
        if |items| > 0 {
          Guarantees.ItemIdsAreDistinct(cat, history, b);
          items, finalAmount := PriceItems(items, lines);
        } else {
          finalAmount := amount.value;
        }
        bookings := bookings[b := bookings[b].(items := items, finalAmount := Some(finalAmount), status := QuoteSent,
                                               deadline := Some(now + QUOTE_SENT_TIMEOUT))];
      }
      RecordBooking(before, op);
    }

    method RejectBooking(provider: nat, b: nat) returns (outcome: Outcome<Error>)
      requires Valid()
      modifies this
      ensures PerformedBooking(old(State()), old(history), DoRejectBooking(provider, b), outcome)
    {
      hide Guarantees.Reached;
      ghost var before, op := State(), DoRejectBooking(provider, b);
      if b >= |bookings| || bookings[b].provider != provider {
        outcome := Fail(NotFound);
      } else if bookings[b].status != Pending {
        outcome := Fail(BadStatus);
      } else {
        bookings := bookings[b := bookings[b].(status := Rejected)];
        outcome := Pass;
      }
      RecordBooking(before, op);
    }

    method CompleteBooking(provider: nat, b: nat) returns (outcome: Outcome<Error>)
      requires Valid()
      modifies this
      ensures PerformedBooking(old(State()), old(history), DoCompleteBooking(provider, b), outcome)
    {
      hide Guarantees.Reached;
      ghost var before, op := State(), DoCompleteBooking(provider, b);
      if b >= |bookings| || bookings[b].provider != provider {
        outcome := Fail(NotFound);
      } else if bookings[b].status != InProgress {
        outcome := Fail(BadStatus);
      } else {
        bookings := bookings[b := bookings[b].(status := Completed)];
        outcome := Pass;
      }
      RecordBooking(before, op);
    }

    method ConfirmQuote(customer: nat, b: nat, now: Time) returns (outcome: Outcome<Error>)
      requires Valid()
      modifies this
      ensures PerformedBooking(old(State()), old(history), DoConfirmQuote(customer, b, now), outcome)
    {
      hide Guarantees.Reached;
      ghost var before, op := State(), DoConfirmQuote(customer, b, now);
      if b >= |bookings| || bookings[b].customer != customer || bookings[b].status != QuoteSent {
        outcome := Fail(NotFound);
      } else {
        bookings := bookings[b := bookings[b].(status := Confirmed, deadline := Some(now + CONFIRMED_UNPAID_TIMEOUT))];
        TryProgressEvent(bookings[b].event);
        outcome := Pass;
      }
      RecordBooking(before, op);
    }

    method RejectQuote(customer: nat, b: nat) returns (outcome: Outcome<Error>)
      requires Valid()
      modifies this
      ensures PerformedBooking(old(State()), old(history), DoRejectQuote(customer, b), outcome)
    {
      hide Guarantees.Reached;
      ghost var before, op := State(), DoRejectQuote(customer, b);
      if b >= |bookings| || bookings[b].customer != customer || bookings[b].status != QuoteSent {
        outcome := Fail(NotFound);
      } else {
        var e := bookings[b].event;
        var allTerminal, somePending := true, false;
        for i := 0 to |bookings|
          invariant State() == before && history == old(history)
          invariant allTerminal <==> forall j :: 0 <= j < i && j != b && bookings[j].event == e ==>
                      Terminal(bookings[j].status)
          invariant somePending <==> exists j :: 0 <= j < i && j != b && bookings[j].event == e
                                                 && (bookings[j].status == Pending || bookings[j].status == QuoteSent)
        {
          if i != b && bookings[i].event == e {
            allTerminal := allTerminal && Terminal(bookings[i].status);
            somePending := somePending || bookings[i].status == Pending || bookings[i].status == QuoteSent;
          }
        }
        bookings := bookings[b := bookings[b].(status := Cancelled)];
        if allTerminal {
          SetEventStatus(e, EvCancelled);
        } else if somePending {
          SetEventStatus(e, EvDraft);
        }
        outcome := Pass;
      }
      RecordBooking(before, op);
    }

    method BulkDecision(customer: nat, e: nat, d: Decision, now: Time) returns (outcome: Outcome<Error>)
      requires Valid()
      modifies this
      ensures PerformedBooking(old(State()), old(history), DoBulkDecision(customer, e, d, now), outcome)
    {
      hide Guarantees.Reached, CheckDecision, ProgressAll, AllCalledOff, Decided, Lifecycle.SendQuote,
           Lifecycle.RejectQuote, Lifecycle.ConfirmQuote, Lifecycle.CancelEvent;
      ghost var before, op := State(), DoBulkDecision(customer, e, d, now);
      outcome := CheckDecision(State(), customer, e, d);
      if outcome.Fail? {
        RecordBooking(before, op);
        return;
      }
      DecisionIsInRange(before, customer, e, d);
      DecideAll(d, now);
      if AllCalledOff(bookings, e) {
        SetEventStatus(e, EvCancelled);
      }
      if d.channel == Some(BankTransfer) {
        ProgressAccepted(d.accepted, e);
      }
      RecordBooking(before, op);
    }

    method ProgressAccepted(accepted: seq<nat>, e: nat)
      modifies this`bookings, this`events
      ensures State() == ProgressAll(old(State()), accepted, |accepted|, e)
    {
      hide Lifecycle.ProgressBookingAndEvent;
      for k := 0 to |accepted|
        invariant State() == ProgressAll(old(State()), accepted, k, e)
      {
        ProgressBookingAndEvent(accepted[k], e);
      }
    }

    // The transaction's two loops: confirm with a payment, or cancel.
    method DecideAll(d: Decision, now: Time)
      requires |d.accepted| > 0 ==> d.channel.Some?
      requires forall k :: 0 <= k < |d.accepted| ==> d.accepted[k] < |bookings| && d.accepted[k] !in d.rejected
      requires forall k :: 0 <= k < |d.rejected| ==> d.rejected[k] < |bookings|
      modifies this`bookings
      ensures bookings == Decided(old(bookings), d, now)
    {
      for k := 0 to |d.accepted|
        invariant |bookings| == |old(bookings)|
        invariant forall i :: 0 <= i < |bookings| ==>
                    bookings[i] == if i in d.accepted[..k] then Accepted(old(bookings)[i], d.channel.value, now)
                      else old(bookings)[i]
      {
        var b := d.accepted[k];
        if b !in d.accepted[..k] {
          bookings := bookings[b := Accepted(bookings[b], d.channel.value, now)];
        }
        assert d.accepted[..k + 1] == d.accepted[..k] + [b];
      }
      assert d.accepted[..|d.accepted|] == d.accepted;
      for k := 0 to |d.rejected|
        invariant |bookings| == |old(bookings)|
        invariant forall i :: 0 <= i < |bookings| ==>
                    bookings[i] == if i in d.accepted then Accepted(old(bookings)[i], d.channel.value, now)
                                   else if i in d.rejected[..k] then old(bookings)[i].(status := Cancelled)
                                             else old(bookings)[i]
      {
        var b := d.rejected[k];
        assert b !in d.accepted;
        bookings := bookings[b := bookings[b].(status := Cancelled)];
        assert d.rejected[..k + 1] == d.rejected[..k] + [b];
      }
      assert d.rejected[..|d.rejected|] == d.rejected;
    }

    method CancelEvent(customer: nat, e: nat) returns (outcome: Outcome<Error>)
      requires Valid()
      modifies this
      ensures PerformedBooking(old(State()), old(history), DoCancelEvent(customer, e), outcome)
    {
      hide Guarantees.Reached;
      ghost var before, op := State(), DoCancelEvent(customer, e);
      if e >= |events| {
        outcome := Fail(NotFound);
      } else if events[e].customer != customer {
        outcome := Fail(Forbidden);
      } else if events[e].status == EvCancelled || events[e].status == EvCompleted {
        outcome := Fail(BadStatus);
      } else if forall i | 0 <= i < |bookings| :: bookings[i].event != e {
        outcome := Fail(NoBookings);
      } else if exists i | 0 <= i < |bookings| :: bookings[i].event == e && BlocksCancellation(bookings[i]) {
        outcome := Fail(Blocking);
      } else {
        bookings := Move(bookings, OfEvent(e), {Pending, QuoteSent, Confirmed, InProgress, Completed}, Cancelled);
        SetEventStatus(e, EvCancelled);
        outcome := Pass;
      }
      RecordBooking(before, op);
    }

    // ----- payments ---------------------------------------------------------------------------------

    method CreatePayment(customer: nat, b: nat, channel: Channel, discount: Option<Percent>, answer: Gateway,
                         corrected: bool)
      returns (outcome: Outcome<Error>)
      requires Valid()
      modifies this
      ensures PerformedPayment(old(State()), old(history),
                               DoCreatePayment(customer, b, channel, discount, answer, corrected), outcome)
    {
      hide Guarantees.Reached, Lifecycle.MarkPaid, NewPayment;
      ghost var before, op := State(), DoCreatePayment(customer, b, channel, discount, answer, corrected);
      outcome := Pass;
      if b >= |bookings| {
        outcome := Fail(NotFound);
      } else if bookings[b].customer != customer {
        outcome := Fail(Forbidden);
      } else if bookings[b].status != Confirmed {
        outcome := Fail(BadStatus);
      } else if bookings[b].payment.None? {
        var status := if channel == Cash then PayPending else if answer == Declined then PayFailed else PayProcessing;
        var intent := channel == BankTransfer && answer == IntentCreated;
        bookings := bookings[b :=
                             bookings[b].(payment := Some(NewPayment(bookings[b], channel, discount, status, intent)))];
        if channel == BankTransfer && answer == Charged {
          MarkPaid(b, corrected);
        }
      }
      RecordPayment(before, op);
    }

    method ConfirmPayment(user: nat, ref: PaymentRef, verified: bool, corrected: bool) returns (outcome: Outcome<Error>)
      requires Valid()
      modifies this
      ensures PerformedPayment(old(State()), old(history), DoConfirmPayment(user, ref, verified, corrected), outcome)
    {
      hide Guarantees.Reached, Lifecycle.MarkPaid;
      ghost var before, op := State(), DoConfirmPayment(user, ref, verified, corrected);
      match ref {
        case BookingPayment(b) =>
          if b >= |bookings| {
            outcome := Fail(NotFound);
          } else {
            outcome := CheckIntent(bookings[b].payment, bookings[b].customer, user);
            if outcome.Pass? {
              if verified {
                MarkPaid(b, corrected);
              } else {
                bookings := bookings[b := bookings[b].(payment := WithPayment(bookings[b].payment, PayFailed))];
              }
            }
          }
        case OrderPayment(o) =>
          if o >= |orders| {
            outcome := Fail(NotFound);
          } else {
            outcome := CheckIntent(orders[o].payment, orders[o].customer, user);
            if outcome.Pass? {
              orders := orders[o :=
                               orders[o].(payment :=
                                          WithPayment(orders[o].payment, if verified then Paid else PayFailed))];
              if verified {
                // No booking has this payment, so the deadline cannot be cleared.
                outcome := Fail(NotFound);
              }
            }
          }
      }
      RecordPayment(before, op);
    }

    method MarkCashPaid(provider: nat, b: nat, corrected: bool) returns (outcome: Outcome<Error>)
      requires Valid()
      modifies this
      ensures PerformedPayment(old(State()), old(history), DoMarkCashPaid(provider, b, corrected), outcome)
    {
      hide Guarantees.Reached, Lifecycle.MarkPaid;
      ghost var before, op := State(), DoMarkCashPaid(provider, b, corrected);
      if b >= |bookings| || bookings[b].payment.None? {
        outcome := Fail(NotFound);
      } else if bookings[b].payment.value.channel != Cash {
        outcome := Fail(BadPayment);
      } else if bookings[b].provider != provider {
        outcome := Fail(Forbidden);
      } else if bookings[b].payment.value.status != PayPending && bookings[b].payment.value.status != PayProcessing {
        outcome := Fail(BadPayment);
      } else {
        MarkPaid(b, corrected);
        outcome := Pass;
      }
      RecordPayment(before, op);
    }

    method RefundPayment(ref: PaymentRef) returns (outcome: Outcome<Error>)
      requires Valid()
      modifies this
      ensures PerformedPayment(old(State()), old(history), DoRefund(ref), outcome)
    {
      hide Guarantees.Reached;
      ghost var before, op := State(), DoRefund(ref);
      match ref {
        case BookingPayment(b) =>
          if b >= |bookings| || bookings[b].payment.None? {
            outcome := Fail(NotFound);
          } else if bookings[b].payment.value.status != Paid {
            outcome := Fail(BadPayment);
          } else {
            bookings := bookings[b := bookings[b].(payment := WithPayment(bookings[b].payment, Refunded))];
            outcome := Pass;
          }
        case OrderPayment(o) =>
          if o >= |orders| || orders[o].payment.None? {
            outcome := Fail(NotFound);
          } else if orders[o].payment.value.status != Paid {
            outcome := Fail(BadPayment);
          } else {
            orders := orders[o := orders[o].(payment := WithPayment(orders[o].payment, Refunded))];
            outcome := Pass;
          }
      }
      RecordPayment(before, op);
    }

    // ----- package bookings -------------------------------------------------------------------------

    method AcceptOrder(provider: nat, o: nat, now: Time) returns (outcome: Outcome<Error>)
      requires Valid()
      modifies this
      ensures PerformedOrder(old(State()), old(history), DoAcceptOrder(provider, o, now), outcome)
    {
      hide Guarantees.Reached;
      ghost var before, op := State(), DoAcceptOrder(provider, o, now);
      outcome := OwnedOrder(State(), provider, o);
      if outcome.Fail? {
      } else if orders[o].status != OrdPending {
        outcome := Fail(BadStatus);
      } else if orders[o].payment.Some? {
        outcome := Fail(BadPayment);
      } else {
        var total := orders[o].total;
        orders := orders[o :=
                         orders[o].(status := OrdPendingPayment,
                                    paymentExpires := Some(now + PACKAGE_PAYMENT_TIMEOUT))];
        bookings := Move(bookings, OfOrder(o), {Pending}, Confirmed);
        orders := orders[o := orders[o].(payment := Some(Payment(Cash, PayPending, total, total, 0, false)))];
      }
      RecordOrder(before, op);
    }

    method RejectOrder(provider: nat, o: nat) returns (outcome: Outcome<Error>)
      requires Valid()
      modifies this
      ensures PerformedOrder(old(State()), old(history), DoRejectOrder(provider, o), outcome)
    {
      hide Guarantees.Reached;
      ghost var before, op := State(), DoRejectOrder(provider, o);
      outcome := OwnedOrder(State(), provider, o);
      if outcome.Fail? {
      } else if orders[o].status != OrdPending && orders[o].status != OrdConfirmed
        && orders[o].status != OrdPendingPayment {
        outcome := Fail(BadStatus);
      } else {
        orders := orders[o := orders[o].(status := OrdRejected)];
        bookings := Move(bookings, OfOrder(o), {Pending, Confirmed, InProgress}, Cancelled);
      }
      RecordOrder(before, op);
    }

    method CancelOrder(customer: nat, o: nat) returns (outcome: Outcome<Error>)
      requires Valid()
      modifies this
      ensures PerformedOrder(old(State()), old(history), DoCancelOrder(customer, o), outcome)
    {
      hide Guarantees.Reached;
      ghost var before, op := State(), DoCancelOrder(customer, o);
      outcome := CustomersOrder(State(), customer, o);
      if outcome.Fail? {
      } else if orders[o].status != OrdPending
        && !(orders[o].status == OrdPendingPayment && !IsPaid(orders[o].payment)) {
        outcome := Fail(BadStatus);
      } else {
        orders := orders[o := orders[o].(status := OrdCancelled)];
        bookings := Move(bookings, OfOrder(o), {Pending, Confirmed}, Cancelled);
        if orders[o].payment.Some? && orders[o].payment.value.status != Paid {
          orders := orders[o := orders[o].(payment := WithPayment(orders[o].payment, PayCancelled))];
        }
      }
      RecordOrder(before, op);
    }

    method PayOrder(customer: nat, o: nat, channel: Channel, intentCreated: bool) returns (outcome: Outcome<Error>)
      requires Valid()
      modifies this
      ensures PerformedOrder(old(State()), old(history), DoPayOrder(customer, o, channel, intentCreated), outcome)
    {
      hide Guarantees.Reached, Lifecycle.StartOrder;
      ghost var before, op := State(), DoPayOrder(customer, o, channel, intentCreated);
      outcome := CustomersOrder(State(), customer, o);
      if outcome.Fail? {
      } else if orders[o].status != OrdPendingPayment {
        outcome := Fail(BadStatus);
      } else if orders[o].payment.None? {
        outcome := Fail(NotFound);
      } else if !IsPaid(orders[o].payment) {
        var p := orders[o].payment.value;
        if channel == BankTransfer {
          if intentCreated {
            orders := orders[o :=
                             orders[o].(payment :=
                                        Some(p.(channel := BankTransfer, status := PayProcessing, intent := true)))];
          } else {
            orders := orders[o :=
                             orders[o].(payment := Some(p.(channel := BankTransfer, status := Paid, intent := true)))];
            StartOrder(o);
          }
        } else {
          orders := orders[o := orders[o].(payment := Some(p.(channel := Cash, status := PayProcessing)))];
        }
      }
      RecordOrder(before, op);
    }

    method ConfirmOrderCash(provider: nat, o: nat) returns (outcome: Outcome<Error>)
      requires Valid()
      modifies this
      ensures PerformedOrder(old(State()), old(history), DoConfirmOrderCash(provider, o), outcome)
    {
      hide Guarantees.Reached, Lifecycle.StartOrder;
      ghost var before, op := State(), DoConfirmOrderCash(provider, o);
      outcome := OwnedOrder(State(), provider, o);
      if outcome.Fail? {
      } else if orders[o].status != OrdPendingPayment {
        outcome := Fail(BadStatus);
      } else if orders[o].payment.None? || orders[o].payment.value.channel != Cash
                || orders[o].payment.value.status != PayProcessing {
        outcome := Fail(BadPayment);
      } else {
        orders := orders[o := orders[o].(payment := WithPayment(orders[o].payment, Paid))];
        StartOrder(o);
      }
      RecordOrder(before, op);
    }

    method ConfirmOrderCard(customer: nat, o: nat, verified: bool) returns (outcome: Outcome<Error>)
      requires Valid()
      modifies this
      ensures PerformedOrder(old(State()), old(history), DoConfirmOrderCard(customer, o, verified), outcome)
    {
      hide Guarantees.Reached, Lifecycle.StartOrder;
      ghost var before, op := State(), DoConfirmOrderCard(customer, o, verified);
      outcome := CustomersOrder(State(), customer, o);
      if outcome.Pass? {
        outcome := CheckIntent(orders[o].payment, orders[o].customer, customer);
        if outcome.Pass? {
          orders := orders[o :=
                           orders[o].(payment := WithPayment(orders[o].payment, if verified then Paid else PayFailed))];
          if verified {
            StartOrder(o);
          }
        }
      }
      RecordOrder(before, op);
    }

    method CompleteOrder(provider: nat, o: nat) returns (outcome: Outcome<Error>)
      requires Valid()
      modifies this
      ensures PerformedOrder(old(State()), old(history), DoCompleteOrder(provider, o), outcome)
    {
      hide Guarantees.Reached, Lifecycle.FinishOrder;
      ghost var before, op := State(), DoCompleteOrder(provider, o);
      outcome := OwnedOrder(State(), provider, o);
      if outcome.Fail? {
      } else if orders[o].status != OrdInProgress {
        outcome := Fail(BadStatus);
      } else {
        FinishOrder(o);
      }
      RecordOrder(before, op);
    }

    // ----- sweepers ---------------------------------------------------------------------------------

    method HandleExpiredBookings(now: Time)
      requires Valid()
      modifies this
      ensures PerformedSweep(old(State()), old(history), DoSweepBookings(now), Pass)
    {
      hide Guarantees.Reached;
      ghost var before := State();
      for k := 0 to |bookings|
        invariant |bookings| == |before.bookings|
        invariant State() == SweepBookings(before, now, k) && history == old(history)
      {
        var b := bookings[k];
        if (b.status == Pending || b.status == QuoteSent || b.status == Confirmed)
           && b.deadline.Some? && b.deadline.value <= now {
          if !(b.status == Confirmed && b.payment.Some? && b.payment.value.status == Paid) {
            bookings := bookings[k := b.(status := Cancelled)];
          }
        }
        assert State() == SweepBookings(before, now, k + 1);
      }
      RecordSweep(before, DoSweepBookings(now));
    }

    method CompletePastEvents(now: Time)
      requires Valid()
      modifies this
      ensures PerformedSweep(old(State()), old(history), DoSweepEvents(now), Pass)
    {
      hide Guarantees.Reached;
      ghost var before := State();
      for k := 0 to |events|
        invariant |events| == |before.events|
        invariant State() == SweepEvents(before, now, k) && history == old(history)
      {
        if events[k].status == EvInProgress && events[k].day * TimeHelper.DAY <= now && Over(events[k], now) {
          bookings := Move(bookings, OfEvent(k), {Pending, QuoteSent}, Cancelled);
          bookings := Move(bookings, OfEvent(k), {InProgress}, Completed);
          SetEventStatus(k, EvCompleted);
        }
      }
      RecordSweep(before, DoSweepEvents(now));
    }

    // The three package-booking sweeps of the timer.
    method HandlePackageCron(kind: OrderSweep, now: Time)
      requires Valid()
      modifies this
      ensures PerformedSweep(old(State()), old(history), DoSweepOrders(kind, now), Pass)
    {
      hide Guarantees.Reached, SweepOrder;
      ghost var before := State();
      for k := 0 to |orders|
        invariant |orders| == |before.orders|
        invariant State() == SweepOrders(before, kind, now, k) && history == old(history)
      {
        SweepOneOrder(kind, k, now);
      }
      RecordSweep(before, DoSweepOrders(kind, now));
    }

    method SweepOneOrder(kind: OrderSweep, k: nat, now: Time)
      requires k < |orders|
      modifies this`bookings, this`events, this`orders
      ensures State() == SweepOrder(old(State()), kind, k, now)
      ensures |orders| == |old(orders)|
    {
      hide Lifecycle.FinishOrder;
      var order := orders[k];
      match kind {
        case ExpirePending =>
          if order.status == OrdPending && order.pendingExpires.Some? && order.pendingExpires.value < now {
            orders := orders[k := order.(status := OrdExpired)];
            bookings := Move(bookings, OfOrder(k), {Pending, Confirmed}, Cancelled);
          }
        case ExpireUnpaid =>
          if order.status == OrdPendingPayment && order.paymentExpires.Some? && order.paymentExpires.value < now {
            if !IsPaid(order.payment) {
              orders := orders[k :=
                               order.(status := OrdCancelled, payment := WithPayment(order.payment, PayCancelled))];
              bookings := Move(bookings, OfOrder(k), {Pending, Confirmed, InProgress}, Cancelled);
            }
          }
        case CompleteFinished =>
          if order.status == OrdInProgress && order.event < |events| && Over(events[order.event], now) {
            FinishOrder(k);
          }
      }
    }

    method ExpirePendingJoinRequests(now: Time)
      requires Valid()
      modifies this
      ensures PerformedPackage(old(State()), old(history), DoSweepJoins(now), Pass)
    {
      hide Guarantees.Reached;
      ghost var before := State();
      for k := 0 to |packages|
        invariant |packages| == |before.packages|
        invariant State() == before.(packages := packages) && history == old(history)
        invariant packages == Composition.SweepJoins(before.packages, now, k)
      {
        packages := packages[k := packages[k].(members := Composition.ExpireJoins(packages[k].members, now))];
        assert packages == Composition.SweepJoins(before.packages, now, k + 1);
      }
      RecordPackage(before, DoSweepJoins(now));
    }

    // ----- packages ---------------------------------------------------------------------------------

    method CreatePackage(provider: nat, requested: seq<nat>, discount: Percent, now: Time)
      returns (outcome: Outcome<Error>)
      requires Valid()
      modifies this
      ensures PerformedPackage(old(State()), old(history), DoCreatePackage(provider, requested, discount, now), outcome)
    {
      hide Guarantees.Reached, Composition.SoundSelection;
      ghost var before, op := State(), DoCreatePackage(provider, requested, discount, now);
      var ids := Composition.Dedup(requested);
      if !Composition.ApprovedServices(cat, ids) {
        outcome := Fail(NotFound);
      } else if !Composition.SoundSelection(cat, packages, provider, ids, None) {
        outcome := Fail(PackageRule);
      } else {
        packages := packages + [Package(provider, discount, PkgDraft, Composition.NewMembers(cat, provider, ids, now))];
        outcome := Pass;
      }
      RecordPackage(before, op);
    }

    method UpdatePackage(provider: nat, p: nat, addServices: seq<nat>, removeServices: seq<nat>,
                         discount: Option<Percent>,
                         now: Time) returns (outcome: Outcome<Error>)
      requires Valid()
      modifies this
      ensures PerformedPackage(old(State()), old(history),
                               DoUpdatePackage(provider, p, addServices, removeServices, discount, now), outcome)
    {
      hide Guarantees.Reached, Composition.SoundSelection, Composition.IsOwnHall;
      ghost var before, op := State(), DoUpdatePackage(provider, p, addServices, removeServices, discount, now);
      if p >= |packages| || packages[p].owner != provider {
        outcome := Fail(NotFound);
        RecordPackage(before, op);
        return;
      }
      if packages[p].status != PkgDraft {
        outcome := Fail(BadStatus);
        RecordPackage(before, op);
        return;
      }
      var current := Composition.ServiceIds(packages[p].members);
      var add, remove := Composition.Dedup(addServices), Composition.Dedup(removeServices);
      var kept := KeptMembers(packages[p].members, remove);
      var finalIds := Composition.ServiceIds(kept) + add;
      if (exists i | 0 <= i < |add| :: add[i] in remove || add[i] in current)
         || (exists i | 0 <= i < |remove| :: remove[i] !in current)
         || (exists m | 0 <= m < |packages[p].members| ::
               packages[p].members[m].provider == provider
               && Composition.IsOwnHall(cat, provider, packages[p].members[m].service)
               && packages[p].members[m].service in remove)
         || |finalIds| == 0 || !Composition.ApprovedServices(cat, add)
         || (|add| + |remove| > 0
             && !(Composition.KnownServices(cat, finalIds)
                  && Composition.SoundSelection(cat, packages, provider, finalIds, Some(p)))) {
        outcome := Fail(PackageRule);
        RecordPackage(before, op);
        return;
      }
      var changed := discount.Some? && discount.value != packages[p].discount;
      var members := JoinedMembers(kept, provider, add, now);
      if changed {
        members := AskedAgain(members, provider);
      }
      packages := packages[p := packages[p].(discount := if changed then discount.value else packages[p].discount,
                                             members := members)];
      outcome := Pass;
      RecordPackage(before, op);
    }

    // The deletions of updatePackage.
    method KeptMembers(members: seq<Member>, remove: seq<nat>) returns (kept: seq<Member>)
      ensures kept == Composition.Kept(members, remove)
    {
      kept := [];
      for m := 0 to |members|
        invariant kept == Composition.Kept(members[..m], remove)
      {
        if members[m].service !in remove {
          kept := kept + [members[m]];
        }
        assert members[..m + 1][..m] == members[..m];
      }
      assert members[..|members|] == members;
    }

    // Its insertions: the owner's services join at once, the others are asked.
    method JoinedMembers(kept: seq<Member>, owner: nat, add: seq<nat>, now: Time) returns (members: seq<Member>)
      requires Composition.KnownServices(cat, add)
      ensures members == kept + Composition.NewMembers(cat, owner, add, now)
    {
      members := kept;
      for i := 0 to |add|
        invariant members == kept + Composition.NewMembers(cat, owner, add, now)[..i]
      {
        var provider := cat.services[add[i]].provider;
        members := members + [Member(add[i], provider, if provider == owner then MemActive else MemPending, now)];
      }
    }

    // A changed percentage sends every partner a new request.
    method AskedAgain(before: seq<Member>, owner: nat) returns (members: seq<Member>)
      ensures members == Composition.AskAgain(before, owner)
    {
      members := before;
      for i := 0 to |members|
        invariant |members| == |before|
        invariant forall j :: 0 <= j < |before| ==>
                    members[j] == if j < i then Composition.AskAgain(before, owner)[j] else before[j]
      {
        if members[i].provider != owner {
          members := members[i := members[i].(status := MemPending)];
        }
      }
    }

    method ActivatePackage(provider: nat, p: nat) returns (outcome: Outcome<Error>)
      requires Valid()
      modifies this
      ensures PerformedPackage(old(State()), old(history), DoActivatePackage(provider, p), outcome)
    {
      hide Guarantees.Reached, Composition.CountActive;
      ghost var before, op := State(), DoActivatePackage(provider, p);
      if p >= |packages| || packages[p].owner != provider {
        outcome := Fail(NotFound);
      } else if packages[p].status != PkgDraft {
        outcome := Fail(BadStatus);
      } else if Composition.CountActive(packages[p].members) < 2 {
        outcome := Fail(PackageRule);
      } else {
        packages := packages[p := packages[p].(status := PkgActive)];
        outcome := Pass;
      }
      RecordPackage(before, op);
    }

    method AnswerJoinRequest(provider: nat, p: nat, m: nat, accept: bool) returns (outcome: Outcome<Error>)
      requires Valid()
      modifies this
      ensures PerformedPackage(old(State()), old(history), DoAnswerJoin(provider, p, m, accept), outcome)
    {
      hide Guarantees.Reached;
      ghost var before, op := State(), DoAnswerJoin(provider, p, m, accept);
      if p >= |packages| || m >= |packages[p].members| || packages[p].members[m].provider != provider
         || packages[p].members[m].status != MemPending {
        outcome := Fail(NotFound);
      } else {
        packages := packages[p := Composition.WithMember(packages[p], m, if accept then MemActive else MemRejected)];
        outcome := Pass;
      }
      RecordPackage(before, op);
    }

    method LeavePackage(provider: nat, p: nat, m: nat) returns (outcome: Outcome<Error>)
      requires Valid()
      modifies this
      ensures PerformedPackage(old(State()), old(history), DoLeavePackage(provider, p, m), outcome)
    {
      hide Guarantees.Reached, Composition.CountActive;
      ghost var before, op := State(), DoLeavePackage(provider, p, m);
      outcome := Pass;
      if p >= |packages| {
        outcome := Fail(NotFound);
      } else if packages[p].owner == provider {
        if packages[p].status == PkgCancelled {
          outcome := Fail(BadStatus);
        } else if HasEngagedOrders(State(), p) {
          outcome := Fail(ActiveEngagement);
        } else {
          packages := packages[p :=
                               packages[p].(members := Composition.CallOff(packages[p].members),
                                            status := PkgCancelled)];
        }
      } else if m >= |packages[p].members| || packages[p].members[m].provider != provider
                || packages[p].members[m].status != MemActive {
        outcome := Fail(NotFound);
      } else if MemberEngaged(State(), p, m) {
        outcome := Fail(ActiveEngagement);
      } else {
        packages := packages[p := Composition.WithMember(packages[p], m, MemRejected)];
        if Composition.CountActive(packages[p].members) < 2 && packages[p].status == PkgActive {
          packages := packages[p := packages[p].(status := PkgDraft)];
        }
      }
      RecordPackage(before, op);
    }

    // ----- blocked slots ----------------------------------------------------------------------------

    method BlockSlots(provider: nat, request: BlockedSlots.Request) returns (outcome: Outcome<Error>)
      requires Valid()
      modifies this
      ensures PerformedBlocks(old(State()), old(history), DoBlock(provider, request), outcome)
    {
      hide Guarantees.Reached;
      ghost var before, op := State(), DoBlock(provider, request);
      var verdict := BlockedSlots.CheckRequest(request, OwnsService(cat, provider, request.service));
      if verdict.Fail? {
        outcome := Fail(if verdict.error.NotOwner? then NotFound else BadBlock);
        RecordBlocks(before, op);
        return;
      }
      var group := BlockedSlots.NewGroup(blocks);
      var days := BlockedSlots.LastDay(request) - request.fromDay + 1;
      for i := 0 to days
        invariant State() == before.(blocks := blocks) && history == old(history)
        invariant blocks == before.blocks + BlockedSlots.RowsFor(provider, group, request)[..i]
      {
        blocks := blocks + [BlockedSlots.Block(provider, request.service, request.fromDay + i, request.fromTime,
                                               request.toTime, group)];
      }
      assert BlockedSlots.RowsFor(provider, group, request)[..days] == BlockedSlots.RowsFor(provider, group, request);
      outcome := Pass;
      RecordBlocks(before, op);
    }

    method UnblockSlots(provider: nat, group: nat, day: int, wholeGroup: bool) returns (outcome: Outcome<Error>)
      requires Valid()
      modifies this
      ensures PerformedBlocks(old(State()), old(history), DoUnblock(provider, group, day, wholeGroup), outcome)
    {
      hide Guarantees.Reached;
      ghost var before, op := State(), DoUnblock(provider, group, day, wholeGroup);
      if forall i | 0 <= i < |blocks| :: !BlockedSlots.Named(blocks[i], provider, group, Some(day)) {
        outcome := Fail(NotFound);
        RecordBlocks(before, op);
        return;
      }
      var kept := [];
      for i := 0 to |blocks|
        invariant State() == before && history == old(history)
        invariant kept == BlockedSlots.Without(blocks[..i], provider, group, if wholeGroup then None else Some(day))
      {
        var b := blocks[i];
        if !(b.provider == provider && b.group == group && (wholeGroup || b.day == day)) {
          kept := kept + [b];
        }
        assert blocks[..i + 1][..i] == blocks[..i];
      }
      assert blocks[..|blocks|] == blocks;
      blocks := kept;
      outcome := Pass;
      RecordBlocks(before, op);
    }
  }

  // Whatever holds of every run holds of the object, for instance the invariant and the capacities.
  lemma ValidIsSound(d: Database)
    requires d.Valid()
    ensures Guarantees.Sound(d.cat, d.State())
    ensures Capacity.NothingOversold(d.cat, d.State(), Guarantees.AllDistinctRequests(d.history))
  {
    Guarantees.ReachedIsSound(d.cat, d.history);
    Guarantees.CapacityIsNeverOversold(d.cat, d.history);
  }

  lemma {:induction false} RefusedStaysRefused(cat: Catalogue, sels: seq<Selection>, ev: Event, k: nat)
    requires k <= |sels| && ValidateFirst(cat, sels, ev, k).Fail?
    ensures ValidateFirst(cat, sels, ev, |sels|) == ValidateFirst(cat, sels, ev, k)
    decreases |sels| - k
  {
    if k < |sels| {
      RefusedStaysRefused(cat, sels, ev, k + 1);
    }
  }

  lemma {:induction false} InTurnStaysRefused(cat: Catalogue, db: Db, e: nat, sels: seq<Selection>, k: nat,
                                              order: Option<nat>, deadline: Time, completedToo: bool)
    requires k <= |sels| && e < |db.events|
    requires forall i :: 0 <= i < |sels| ==> Validate(cat, sels[i], db.events[e]).Pass?
    requires AdmitInTurn(cat, db, e, sels, k, order, deadline, completedToo).Failure?
    ensures AdmitInTurn(cat, db, e, sels, |sels|, order, deadline, completedToo)
            == AdmitInTurn(cat, db, e, sels, k, order, deadline, completedToo)
    decreases |sels| - k
  {
    hide Validate, Admit, NewBooking;
    if k < |sels| {
      InTurnStaysRefused(cat, db, e, sels, k + 1, order, deadline, completedToo);
    }
  }

  lemma {:induction false} AtOnceStaysRefused(cat: Catalogue, db: Db, e: nat, sels: seq<Selection>, k: nat,
                                              order: Option<nat>, deadline: Time, completedToo: bool)
    requires k <= |sels| && e < |db.events|
    requires forall i :: 0 <= i < |sels| ==> Validate(cat, sels[i], db.events[e]).Pass?
    requires AdmitAtOnce(cat, db, e, sels, k, order, deadline, completedToo).Failure?
    ensures AdmitAtOnce(cat, db, e, sels, |sels|, order, deadline, completedToo)
            == AdmitAtOnce(cat, db, e, sels, k, order, deadline, completedToo)
    decreases |sels| - k
  {
    hide Validate, Admit, NewBooking;
    if k < |sels| {
      AtOnceStaysRefused(cat, db, e, sels, k + 1, order, deadline, completedToo);
    }
  }

  lemma NewBookingFitsCatalogue(cat: Catalogue, sel: Selection, ev: Event)
    requires Validate(cat, sel, ev).Pass?
    ensures sel.service < |cat.services|
  {
  }

  lemma DecisionIsInRange(db: Db, customer: nat, e: nat, d: Decision)
    requires CheckDecision(db, customer, e, d).Pass?
    ensures |d.accepted| > 0 ==> d.channel.Some?
    ensures forall k :: 0 <= k < |d.accepted| ==> d.accepted[k] < |db.bookings| && d.accepted[k] !in d.rejected
    ensures forall k :: 0 <= k < |d.rejected| ==> d.rejected[k] < |db.bookings|
  {
    var all := d.accepted + d.rejected;
    forall k | 0 <= k < |d.accepted| ensures d.accepted[k] < |db.bookings| {
      assert all[k] == d.accepted[k];
    }
    forall k | 0 <= k < |d.rejected| ensures d.rejected[k] < |db.bookings| {
      assert all[|d.accepted| + k] == d.rejected[k];
    }
  }
}
