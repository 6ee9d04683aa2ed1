// What the three admissions insert, column by column, and what the rows they insert cost: the catalogue's prices,
// times the quantities asked for.
module Prices {
  import opened Wrappers
  import opened Marketplace
  import opened Pricing
  import opened Admission
  import opened Safety
  import opened Runs
  import opened Guarantees
  import AdmissionSafety
  import Capacity
  import Quotes

  // ----- the price of a request and of a row -----------------------------------------------------------------

  function CataloguePrice(cat: Catalogue, x: nat): nat {
    if x < |cat.subs| then cat.subs[x].price else 0
  }

  // Price times quantity, summed over what is asked for.
  function CostOf(cat: Catalogue, items: seq<ItemRequest>): nat {
    if items == [] then 0 else CataloguePrice(cat, items[0].sub) * items[0].quantity + CostOf(cat, items[1..])
  }

  // A selection without items costs what the service costs.
  function Cost(cat: Catalogue, sel: Selection): nat
    requires sel.service < |cat.services|
  {
    if sel.items == [] then cat.services[sel.service].price else CostOf(cat, sel.items)
  }

  function Worth(cat: Catalogue, items: seq<Item>): nat {
    if items == [] then 0 else CataloguePrice(cat, items[0].sub) * items[0].quantity + Worth(cat, items[1..])
  }

  function RowPrice(cat: Catalogue, b: Booking): nat {
    if b.items == [] then (if b.service < |cat.services| then cat.services[b.service].price else 0)
    else Worth(cat, b.items)
  }

  predicate CataloguePriced(cat: Catalogue, b: Booking) {
    && b.service < |cat.services| && b.totalAmount == RowPrice(cat, b)
    && forall i | 0 <= i < |b.items| ::
         b.items[i].sub < |cat.subs| && b.items[i].unitPrice == cat.subs[b.items[i].sub].price
  }

  lemma {:induction false} CostOfOneMore(cat: Catalogue, items: seq<ItemRequest>)
    requires items != []
    ensures var last := items[|items| - 1];
            CostOf(cat, items) == CostOf(cat, items[..|items| - 1]) + CataloguePrice(cat, last.sub) * last.quantity
  {
    if |items| > 1 {
      CostOfOneMore(cat, items[1..]);
      assert items[1..][..|items| - 2] == items[..|items| - 1][1..];
    }
  }

  // The accumulated total is the cost of the request.
  lemma {:induction false} ItemsTotalIsCost(cat: Catalogue, items: seq<ItemRequest>)
    ensures ItemsTotal(NewItems(cat, items)) == CostOf(cat, items)
  {
    if items != [] {
      var n := |items| - 1;
      assert NewItems(cat, items)[..n] == NewItems(cat, items[..n]);
      ItemsTotalIsCost(cat, items[..n]);
      CostOfOneMore(cat, items);
    }
  }

  lemma {:induction false} WorthIsCost(cat: Catalogue, items: seq<Item>, requests: seq<ItemRequest>)
    requires |items| == |requests|
    requires forall i :: 0 <= i < |items| ==>
               items[i].sub == requests[i].sub && items[i].quantity == requests[i].quantity
    ensures Worth(cat, items) == CostOf(cat, requests)
  {
    if items != [] {
      WorthIsCost(cat, items[1..], requests[1..]);
    }
  }

  // ----- a quote at catalogue prices -------------------------------------------------------------------------

  predicate NamesCataloguePrices(cat: Catalogue, items: seq<Item>, lines: seq<Quotes.Line>) {
    forall i | 0 <= i < |items| :: Quotes.UnitFor(lines, items[i].id) == CataloguePrice(cat, items[i].sub)
  }

  lemma {:induction false} WorthOfOneMore(cat: Catalogue, items: seq<Item>)
    requires items != []
    ensures var last := items[|items| - 1];
            Worth(cat, items) == Worth(cat, items[..|items| - 1]) + CataloguePrice(cat, last.sub) * last.quantity
  {
    if |items| > 1 {
      WorthOfOneMore(cat, items[1..]);
      assert items[1..][..|items| - 2] == items[..|items| - 1][1..];
    }
  }

  lemma {:induction false} QuotedWorth(cat: Catalogue, items: seq<Item>, lines: seq<Quotes.Line>)
    requires NamesCataloguePrices(cat, items, lines)
    ensures Quotes.FinalTotals(Quotes.QuotedItems(items, lines)) == Worth(cat, items)
  {
    if items != [] {
      var n := |items| - 1;
      assert Quotes.QuotedItems(items, lines)[..n] == Quotes.QuotedItems(items[..n], lines);
      QuotedWorth(cat, items[..n], lines);
      WorthOfOneMore(cat, items);
    }
  }

  // A provider who quotes the catalogue's prices asks for what the booking was made at.
  lemma QuotingTheCatalogue(cat: Catalogue, ops: seq<Operation>, i: nat, lines: seq<Quotes.Line>)
    requires i < |Reached(cat, ops).bookings| && Reached(cat, ops).bookings[i].items != []
    requires NamesCataloguePrices(cat, Reached(cat, ops).bookings[i].items, lines)
    ensures var b := Reached(cat, ops).bookings[i];
            b.totalAmount == Quotes.FinalTotals(Quotes.QuotedItems(b.items, lines))
  {
    BookingsAreCataloguePriced(cat, ops, i);
    hide Reached;
    QuotedWorth(cat, Reached(cat, ops).bookings[i].items, lines);
  }

  // ----- the rows that are inserted --------------------------------------------------------------------------

  // A new booking: for this customer and service, pending until the deadline, unpaid and unquoted, its items as
  // asked for at catalogue prices.
  predicate RowFor(cat: Catalogue, ev: Event, e: nat, sel: Selection, order: Option<nat>, deadline: Time, b: Booking) {
    && sel.service < |cat.services|
    && b.customer == ev.customer && b.provider == cat.services[sel.service].provider && b.service == sel.service
    && b.slot == sel.slot && b.event == e && b.order == order
    && b.status == Pending && b.deadline == Some(deadline) && b.payment.None? && b.finalAmount.None?
    && b.totalAmount == Cost(cat, sel) && CataloguePriced(cat, b)
    && |b.items| == |sel.items|
    && forall i | 0 <= i < |b.items| ::
         b.items[i].sub == sel.items[i].sub && b.items[i].quantity == sel.items[i].quantity
         && b.items[i].finalUnit.None? && b.items[i].finalTotal.None?
  }

  lemma NewBookingIsRow(cat: Catalogue, ev: Event, e: nat, sel: Selection, order: Option<nat>, deadline: Time)
    requires Validate(cat, sel, ev).Pass?
    ensures sel.service < |cat.services|
    ensures RowFor(cat, ev, e, sel, order, deadline, NewBooking(cat, ev, e, sel, order, deadline))
  {
    assert forall i :: 0 <= i < |sel.items| ==> KnownItem(cat, sel.service, sel.items[i].sub);
    ItemsTotalIsCost(cat, sel.items);
    WorthIsCost(cat, NewItems(cat, sel.items), sel.items);
    hide ItemsTotal, CostOf, Worth;
  }

  // One row for each selection, in order, after the rows there were.
  predicate Adds(cat: Catalogue, db: Db, db': Db, ev: Event, e: nat, sels: seq<Selection>, order: Option<nat>,
                 deadline: Time)
  {
    && |db'.bookings| == |db.bookings| + |sels| && db.bookings <= db'.bookings
    && forall i | 0 <= i < |sels| :: RowFor(cat, ev, e, sels[i], order, deadline, db'.bookings[|db.bookings| + i])
  }

  lemma CreateEventAdds(cat: Catalogue, db: Db, ev: Event, sels: seq<Selection>, now: Time)
    requires ev.status == EvDraft && CreateEvent(cat, db, ev, sels, now).Success?
    ensures var db' := CreateEvent(cat, db, ev, sels, now).value;
            && db' == db.(events := db.events + [ev], bookings := db'.bookings)
            && Adds(cat, db, db', ev, |db.events|, sels, None, now + 24 * 60)
  {
    hide Validate, Admit, NewBooking, RowFor;
    ValidateFirstCovers(cat, sels, ev, |sels|);
    var db1 := db.(events := db.events + [ev]);
    AdmissionSafety.AdmittedInTurn(cat, db1, |db.events|, sels, |sels|, None, now + PENDING_TIMEOUT, true);
    forall i | 0 <= i < |sels|
      ensures RowFor(cat, ev, |db.events|, sels[i], None, now + 24 * 60,
                     CreateEvent(cat, db, ev, sels, now).value.bookings[|db.bookings| + i])
    {
      NewBookingIsRow(cat, ev, |db.events|, sels[i], None, now + PENDING_TIMEOUT);
    }
  }

  lemma AddServiceAdds(cat: Catalogue, db: Db, customer: nat, e: nat, sel: Selection, now: Time)
    requires AddService(cat, db, customer, e, sel, now).Success?
    ensures var db' := AddService(cat, db, customer, e, sel, now).value;
            && e < |db.events| && db' == db.(bookings := db'.bookings)
            && Adds(cat, db, db', db.events[e], e, [sel], None, now + 24 * 60)
  {
    hide Validate, Admit, NewBooking, RowFor;
    NewBookingIsRow(cat, db.events[e], e, sel, None, now + PENDING_TIMEOUT);
  }

  function TotalCost(cat: Catalogue, sels: seq<Selection>): nat
    requires forall i :: 0 <= i < |sels| ==> sels[i].service < |cat.services|
  {
    if sels == [] then 0 else TotalCost(cat, sels[..|sels| - 1]) + Cost(cat, sels[|sels| - 1])
  }

  lemma {:induction false} SumOfRows(cat: Catalogue, bs: seq<Booking>, sels: seq<Selection>)
    requires |bs| == |sels| && forall i :: 0 <= i < |sels| ==> sels[i].service < |cat.services|
    requires forall i :: 0 <= i < |sels| ==> bs[i].totalAmount == Cost(cat, sels[i])
    ensures SumTotals(bs) == TotalCost(cat, sels)
  {
    if bs != [] {
      SumOfRows(cat, bs[..|bs| - 1], sels[..|sels| - 1]);
    }
  }

  // The total is the doubly discounted sum of the children, between nothing and that sum, and never more than a
  // cent off the exact product.
  predicate FairTotal(total: int, sum: nat, own: Percent, discount: Option<Percent>) {
    && total == StackedTotal(sum, own, discount) && 0 <= total <= sum
    && -1.0 <= total as real - ExactTotal(sum, own, discount) <= 1.0
  }

  lemma StackedIsFair(sum: nat, own: Percent, discount: Option<Percent>)
    ensures FairTotal(StackedTotal(sum, own, discount), sum, own, discount)
  {
    StackedTotalIsBounded(sum, own, discount);
    StackedTotalIsAccurate(sum, own, discount);
  }

  // The new package booking, pending for 48 hours, and its fair price.
  predicate OrderFor(order: Order, p: nat, customer: nat, e: nat, deadline: Time) {
    && order.package == p && order.customer == customer && order.event == e && order.status == OrdPending
    && order.pendingExpires == Some(deadline) && order.paymentExpires.None? && order.payment.None?
  }

  lemma BookPackageAdds(cat: Catalogue, db: Db, p: nat, ev: Event, sels: seq<Selection>, discount: Option<Percent>,
                        now: Time)
    requires ev.status == EvDraft && BookPackage(cat, db, p, ev, sels, discount, now).Success?
    ensures forall i :: 0 <= i < |sels| ==> sels[i].service < |cat.services|
    ensures var db' := BookPackage(cat, db, p, ev, sels, discount, now).value;
            && p < |db.packages|
            && db' == db.(events := db.events + [ev], bookings := db'.bookings, orders := db'.orders)
            && |db'.orders| == |db.orders| + 1 && db.orders <= db'.orders
            && OrderFor(db'.orders[|db.orders|], p, ev.customer, |db.events|, now + 48 * 60)
            && FairTotal(db'.orders[|db.orders|].total, TotalCost(cat, sels), db.packages[p].discount, discount)
            && Adds(cat, db, db', ev, |db.events|, sels, Some(|db.orders|), now + 48 * 60)
  {
    hide Validate, Admit, NewBooking, RowFor, CoversPackage, DistinctServices, StackedTotal, SumTotals, AdmitAtOnce,
         ValidateFirst, FairTotal, TotalCost;
    ValidateFirstCovers(cat, sels, ev, |sels|);
    var deadline := now + PACKAGE_REQUEST_TIMEOUT;
    var db1 := db.(events := db.events + [ev]);
    var children := AdmitAtOnce(cat, db1, |db.events|, sels, |sels|, Some(|db.orders|), deadline, false).value;
    Capacity.AdmittedAtOnce(cat, db1, |db.events|, sels, |sels|, Some(|db.orders|), deadline, false);
    forall i | 0 <= i < |sels|
      ensures sels[i].service < |cat.services|
      ensures RowFor(cat, ev, |db.events|, sels[i], Some(|db.orders|), deadline, children[i])
      ensures children[i].totalAmount == Cost(cat, sels[i])
    {
      NewBookingIsRow(cat, ev, |db.events|, sels[i], Some(|db.orders|), deadline);
      RowCosts(cat, ev, |db.events|, sels[i], Some(|db.orders|), deadline, children[i]);
    }
    SumOfRows(cat, children, sels);
    StackedIsFair(SumTotals(children), db.packages[p].discount, discount);
  }

  // The price asked for a new package booking, read off the request: the discounted sum of what is chosen at
  // catalogue prices, never negative, never above the sum, at most a cent away from the exact product.
  lemma PackagePriceIsFair(cat: Catalogue, db: Db, p: nat, ev: Event, sels: seq<Selection>, discount: Option<Percent>,
                           now: Time)
    requires ev.status == EvDraft && BookPackage(cat, db, p, ev, sels, discount, now).Success?
    ensures forall i :: 0 <= i < |sels| ==> sels[i].service < |cat.services|
    ensures p < |db.packages| && |BookPackage(cat, db, p, ev, sels, discount, now).value.orders| == |db.orders| + 1
    ensures var total := BookPackage(cat, db, p, ev, sels, discount, now).value.orders[|db.orders|].total;
            var sum := TotalCost(cat, sels);
            && 0 <= total <= sum
            && -1.0 <= total as real - ExactTotal(sum, db.packages[p].discount, discount) <= 1.0
  {
    hide BookPackage, TotalCost, ExactTotal, StackedTotal, RowFor;
    BookPackageAdds(cat, db, p, ev, sels, discount, now);
  }

  lemma RowCosts(cat: Catalogue, ev: Event, e: nat, sel: Selection, order: Option<nat>, deadline: Time, b: Booking)
    requires RowFor(cat, ev, e, sel, order, deadline, b)
    ensures sel.service < |cat.services| && b.totalAmount == Cost(cat, sel) && CataloguePriced(cat, b)
  {
  }

  // ----- over runs -------------------------------------------------------------------------------------------

  lemma {:induction false} SameItemsSameWorth(cat: Catalogue, a: seq<Item>, b: seq<Item>)
    requires SameItems(a, b)
    ensures Worth(cat, a) == Worth(cat, b)
  {
    if a != [] {
      assert forall i :: 0 <= i < |a| - 1 ==> a[1..][i] == a[i + 1] && b[1..][i] == b[i + 1];
      SameItemsSameWorth(cat, a[1..], b[1..]);
    }
  }

  lemma EvolvedRowKeepsPrice(cat: Catalogue, b: Booking, b': Booking)
    requires BookingEvolves(b, b')
    ensures RowPrice(cat, b') == RowPrice(cat, b)
    ensures CataloguePriced(cat, b) ==> CataloguePriced(cat, b')
  {
    SameItemsSameWorth(cat, b.items, b'.items);
    hide Worth;
  }

  lemma NewRowsArePriced(cat: Catalogue, db: Db, op: Operation, i: nat)
    requires Sound(cat, db) && |db.bookings| <= i < |Apply(cat, db, op).bookings|
    ensures CataloguePriced(cat, Apply(cat, db, op).bookings[i])
  {
    hide CreateEvent, AddService, BookPackage, RowFor, CataloguePriced, FairTotal, ExecuteBooking, ExecutePayment,
         ExecuteOrder, ExecuteSweep, ExecutePackage, ExecuteBlocks, Sound, Evolves;
    StepIsSafe(cat, db, op);
    var k := i - |db.bookings|;
    var b := Apply(cat, db, op).bookings[i];
    match op.admission
    case DoCreateEvent(c, day, s, t, g, sels, now) =>
      var ev := Event(c, day, s, t, g, EvDraft);
      CreateEventAdds(cat, db, ev, sels, now);
      RowCosts(cat, ev, |db.events|, sels[k], None, now + 24 * 60, b);
    case DoAddService(c, e, sel, now) =>
      AddServiceAdds(cat, db, c, e, sel, now);
      assert [sel][k] == sel;
      RowCosts(cat, db.events[e], e, [sel][k], None, now + 24 * 60, b);
    case DoBookPackage(c, p, day, s, t, g, sels, discount, now) =>
      var ev := Event(c, day, s, t, g, EvDraft);
      BookPackageAdds(cat, db, p, ev, sels, discount, now);
      RowCosts(cat, ev, |db.events|, sels[k], Some(|db.orders|), now + 48 * 60, b);
  }

  // In every reachable state every booking, whatever became of it, was made at the catalogue's prices: each item at
  // its sub-service's, and the total at price times quantity over all items, or at the service's own price.
  lemma {:induction false} BookingsAreCataloguePriced(cat: Catalogue, ops: seq<Operation>, i: nat)
    requires i < |Reached(cat, ops).bookings|
    ensures var b := Reached(cat, ops).bookings[i];
            && b.service < |cat.services|
            && b.totalAmount == (if b.items == [] then cat.services[b.service].price else Worth(cat, b.items))
            && forall j :: 0 <= j < |b.items| ==>
                 b.items[j].sub < |cat.subs| && b.items[j].unitPrice == cat.subs[b.items[j].sub].price
  {
    var n := |ops| - 1;
    var db := Reached(cat, ops[..n]);
    ReachedIsSound(cat, ops[..n]);
    OneMore(cat, ops[..n], ops[n]);
    assert ops == ops[..n] + [ops[n]];
    hide Reached, Apply, Sound, Worth;
    if i < |db.bookings| {
      BookingsAreCataloguePriced(cat, ops[..n], i);
      StepKeepsRowPrice(cat, db, ops[n], i);
    } else {
      NewRowsArePriced(cat, db, ops[n], i);
    }
  }

  lemma StepKeepsRowPrice(cat: Catalogue, db: Db, op: Operation, i: nat)
    requires Sound(cat, db) && i < |db.bookings|
    ensures i < |Apply(cat, db, op).bookings|
    ensures RowPrice(cat, Apply(cat, db, op).bookings[i]) == RowPrice(cat, db.bookings[i])
    ensures CataloguePriced(cat, db.bookings[i]) ==> CataloguePriced(cat, Apply(cat, db, op).bookings[i])
  {
    hide Apply, Sound, RowPrice, CataloguePriced;
    StepIsSafe(cat, db, op);
    assert BookingEvolves(db.bookings[i], Apply(cat, db, op).bookings[i]);
    EvolvedRowKeepsPrice(cat, db.bookings[i], Apply(cat, db, op).bookings[i]);
  }
}
