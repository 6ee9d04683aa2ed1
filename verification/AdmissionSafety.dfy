// The invariant across the operations that create rows: new events, bookings and package bookings.
module AdmissionSafety {
  import opened Wrappers
  import opened Marketplace
  import opened Pricing
  import opened Admission
  import opened Safety
  import opened Capacity

  // Rows are only added at the end of the tables.
  ghost predicate Extends(db: Db, db': Db) {
    && db.events <= db'.events && db.bookings <= db'.bookings && db.orders <= db'.orders
    && db'.packages == db.packages && db'.blocks == db.blocks
  }

  lemma NewRowsAreSafe(db: Db, db': Db)
    requires Invariant(db) && Extends(db, db')
    requires forall i :: |db.bookings| <= i < |db'.bookings| ==> BookingOk(db', db'.bookings[i])
    requires forall o :: |db.orders| <= o < |db'.orders| ==>
               OrderOk(db', db'.orders[o]) && db'.orders[o].event >= |db.events|
    ensures Invariant(db') && Evolves(db, db')
  {
    hide MoneyAddsUp;
    forall i | 0 <= i < |db.bookings| ensures BookingOk(db', db'.bookings[i]) {
      assert BookingOk(db, db.bookings[i]);
    }
    forall o | 0 <= o < |db.orders| ensures OrderOk(db', db'.orders[o]) {
      assert OrderOk(db, db.orders[o]);
    }
  }

  lemma NewBookingIsOk(cat: Catalogue, db: Db, ev: Event, e: nat, sel: Selection, order: Option<nat>, deadline: Time)
    requires sel.service < |cat.services|
    requires e < |db.events| && db.events[e] == ev && ev.status != EvCancelled
    requires order.Some? ==> order.value < |db.orders| && db.orders[order.value].event == e
                             && db.orders[order.value].customer == ev.customer
                             && db.orders[order.value].status == OrdPending
                             && db.orders[order.value].pendingExpires == Some(deadline)
    ensures BookingOk(db, NewBooking(cat, ev, e, sel, order, deadline))
  {
  }

  lemma {:induction false} AdmittedInTurn(
    cat: Catalogue, db: Db, e: nat, sels: seq<Selection>, k: nat, order: Option<nat>, deadline: Time,
      completedToo: bool)
    requires k <= |sels| && e < |db.events|
    requires forall i :: 0 <= i < |sels| ==> Validate(cat, sels[i], db.events[e]).Pass?
    ensures var r := AdmitInTurn(cat, db, e, sels, k, order, deadline, completedToo);
            r.Success? ==>
              |r.value.bookings| == |db.bookings| + k && db.bookings <= r.value.bookings
              && forall i :: 0 <= i < k ==>
                   r.value.bookings[|db.bookings| + i] == NewBooking(cat, db.events[e], e, sels[i], order, deadline)
  {
    hide Validate, Admit, NewBooking;
    if k > 0 {
      AdmittedInTurn(cat, db, e, sels, k - 1, order, deadline, completedToo);
    }
  }

  lemma CreateEventIsSafe(cat: Catalogue, db: Db, ev: Event, sels: seq<Selection>, now: Time)
    requires Invariant(db) && ev.status == EvDraft
    ensures var db' := After(CreateEvent(cat, db, ev, sels, now), db);
            Invariant(db') && Evolves(db, db') && Extends(db, db') && db'.orders == db.orders
  {
    hide Validate, Admit, NewBooking, Invariant, Evolves, BookingOk;
    var r := CreateEvent(cat, db, ev, sels, now);
    if r.Success? {
      ValidateFirstCovers(cat, sels, ev, |sels|);
      var db1 := db.(events := db.events + [ev]);
      AdmittedInTurn(cat, db1, |db.events|, sels, |sels|, None, now + PENDING_TIMEOUT, true);
      forall i | |db.bookings| <= i < |r.value.bookings| ensures BookingOk(r.value, r.value.bookings[i]) {
        var sel := sels[i - |db.bookings|];
        assert Validate(cat, sel, ev).Pass?;
        NewBookingIsWellPlaced(cat, ev, |db.events|, sel, None, now + PENDING_TIMEOUT);
        NewBookingIsOk(cat, r.value, ev, |db.events|, sel, None, now + PENDING_TIMEOUT);
      }
      NewRowsAreSafe(db, r.value);
    } else {
      NewRowsAreSafe(db, db);
    }
  }

  lemma AddServiceIsSafe(cat: Catalogue, db: Db, customer: nat, e: nat, sel: Selection, now: Time)
    requires Invariant(db)
    ensures var db' := After(AddService(cat, db, customer, e, sel, now), db);
            Invariant(db') && Evolves(db, db') && Extends(db, db') && db'.orders == db.orders
  {
    hide Validate, Admit, Invariant, Evolves, BookingOk, NewBooking;
    var r := AddService(cat, db, customer, e, sel, now);
    if r.Success? {
      NewBookingIsWellPlaced(cat, db.events[e], e, sel, None, now + PENDING_TIMEOUT);
      NewBookingIsOk(cat, r.value, db.events[e], e, sel, None, now + PENDING_TIMEOUT);
      NewRowsAreSafe(db, r.value);
    } else {
      NewRowsAreSafe(db, db);
    }
  }

  lemma NewOrderIsOk(db: Db, o: Order)
    requires o.event < |db.events| && o.package < |db.packages| && db.packages[o.package].status == PkgActive
    requires o.status == OrdPending && o.payment.None? && o.pendingExpires.Some?
    ensures OrderOk(db, o)
  {
  }

  lemma BookPackageIsSafe(cat: Catalogue, db: Db, p: nat, ev: Event, sels: seq<Selection>, discount: Option<Percent>,
                          now: Time)
    requires Invariant(db) && ev.status == EvDraft
    ensures var db' := After(BookPackage(cat, db, p, ev, sels, discount, now), db);
            Invariant(db') && Evolves(db, db') && Extends(db, db')
  {
    hide Validate, Admit, NewBooking, Invariant, Evolves, BookingOk, CoversPackage, DistinctServices, StackedTotal,
         SumTotals, ValidateFirst, AdmitAtOnce, OrderOk;
    var r := BookPackage(cat, db, p, ev, sels, discount, now);
    if r.Success? {
      ValidateFirstCovers(cat, sels, ev, |sels|);
      var db1 := db.(events := db.events + [ev]);
      var deadline := now + PACKAGE_REQUEST_TIMEOUT;
      AdmittedAtOnce(cat, db1, |db.events|, sels, |sels|, Some(|db.orders|), deadline, false);
      forall i | |db.bookings| <= i < |r.value.bookings| ensures BookingOk(r.value, r.value.bookings[i]) {
        var sel := sels[i - |db.bookings|];
        assert Validate(cat, sel, ev).Pass?;
        NewBookingIsWellPlaced(cat, ev, |db.events|, sel, Some(|db.orders|), deadline);
        NewBookingIsOk(cat, r.value, ev, |db.events|, sel, Some(|db.orders|), deadline);
      }
      NewOrderIsOk(r.value, r.value.orders[|db.orders|]);
      NewRowsAreSafe(db, r.value);
    } else {
      NewRowsAreSafe(db, db);
    }
  }

  // ----- capacity across the three admissions ----------------------------------------------------------

  lemma EventIndexes(db: Db)
    requires Invariant(db)
    ensures forall i :: 0 <= i < |db.bookings| ==> db.bookings[i].event < |db.events|
  {
    forall i | 0 <= i < |db.bookings| ensures db.bookings[i].event < |db.events| {
      assert BookingOk(db, db.bookings[i]);
    }
  }

  lemma CreateEventKeepsCapacity(cat: Catalogue, db: Db, ev: Event, sels: seq<Selection>, now: Time, distinct: bool)
    requires Invariant(db) && ev.status == EvDraft && NothingOversold(cat, db, distinct)
    requires distinct ==> AllDistinctItems(sels)
    ensures NothingOversold(cat, After(CreateEvent(cat, db, ev, sels, now), db), distinct)
  {
    hide Validate, Admit, NewBooking, NothingOversold, Invariant;
    EventIndexes(db);
    if CreateEvent(cat, db, ev, sels, now).Success? {
      ValidateFirstCovers(cat, sels, ev, |sels|);
      NewEventKeepsCapacity(cat, db, ev, distinct);
      var db1 := db.(events := db.events + [ev]);
      AdmitInTurnKeepsCapacity(cat, db1, |db.events|, sels, |sels|, None, now + PENDING_TIMEOUT, true, distinct);
    }
  }

  lemma AddServiceKeepsCapacity(cat: Catalogue, db: Db, customer: nat, e: nat, sel: Selection, now: Time,
                                distinct: bool)
    requires NothingOversold(cat, db, distinct)
    requires distinct ==> DistinctItems(sel.items)
    ensures NothingOversold(cat, After(AddService(cat, db, customer, e, sel, now), db), distinct)
  {
    hide Validate, Admit, NewBooking, NothingOversold;
    if AddService(cat, db, customer, e, sel, now).Success? {
      InsertKeepsCapacity(cat, db, e, sel, None, now + PENDING_TIMEOUT, true, distinct);
    }
  }

  // bookPackage is safe because it does what checking and inserting in turn would have done.
  lemma BookPackageKeepsCapacity(cat: Catalogue, db: Db, p: nat, ev: Event, sels: seq<Selection>,
                                 discount: Option<Percent>, now: Time, distinct: bool)
    requires Invariant(db) && ev.status == EvDraft && NothingOversold(cat, db, distinct)
    requires distinct ==> AllDistinctItems(sels)
    ensures NothingOversold(cat, After(BookPackage(cat, db, p, ev, sels, discount, now), db), distinct)
  {
    hide Validate, Admit, NewBooking, NothingOversold, Invariant;
    EventIndexes(db);
    var r := BookPackage(cat, db, p, ev, sels, discount, now);
    if r.Success? {
      ValidateFirstCovers(cat, sels, ev, |sels|);
      var db1 := db.(events := db.events + [ev]);
      var deadline := now + PACKAGE_REQUEST_TIMEOUT;
      NewEventKeepsCapacity(cat, db, ev, distinct);
      AtOnceRefinesInTurn(cat, db1, |db.events|, sels, |sels|, Some(|db.orders|), deadline, false);
      AdmitInTurnKeepsCapacity(cat, db1, |db.events|, sels, |sels|, Some(|db.orders|), deadline, false, distinct);
      SameBookingsSameCapacity(cat,
                               AdmitInTurn(cat, db1, |db.events|, sels, |sels|, Some(|db.orders|), deadline,
                                           false).value,
                               r.value, distinct);
    }
  }

  lemma SameBookingsSameCapacity(cat: Catalogue, db: Db, db': Db, distinct: bool)
    requires db.bookings == db'.bookings && db.events == db'.events && NothingOversold(cat, db, distinct)
    ensures NothingOversold(cat, db', distinct)
  {
    CapacitySurvives(cat, db, db', distinct);
  }

  // ----- capacity across every other step -----------------------------------------------------------------

  lemma {:induction false} SameItemsSameQuantity(a: seq<Item>, b: seq<Item>, x: nat)
    requires SameItems(a, b)
    ensures Quantity(a, x) == Quantity(b, x)
  {
    if a != [] {
      var n := |a| - 1;
      assert forall i :: 0 <= i < n ==> a[..n][i] == a[i] && b[..n][i] == b[i];
      SameItemsSameQuantity(a[..n], b[..n], x);
    }
  }

  // A booking that only moves forward never weighs more than before.
  lemma EvolvingKeepsCapacity(cat: Catalogue, db: Db, db': Db, distinct: bool)
    requires Invariant(db) && Evolves(db, db') && |db.bookings| == |db'.bookings|
    requires NothingOversold(cat, db, distinct)
    ensures NothingOversold(cat, db', distinct)
  {
    hide NothingOversold;
    forall i, r: Resource, day | 0 <= i < |db.bookings|
      ensures Weight(cat, db'.events, db'.bookings[i], r, day, false)
                <= Weight(cat, db.events, db.bookings[i], r, day, false)
    {
      assert BookingOk(db, db.bookings[i]) && BookingEvolves(db.bookings[i], db'.bookings[i]);
      if r.SubServiceDay? {
        SameItemsSameQuantity(db.bookings[i].items, db'.bookings[i].items, r.x);
      }
    }
    CapacitySurvives(cat, db, db', distinct);
  }
}
