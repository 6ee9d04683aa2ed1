// Why the capacity allocator is safe: no admission oversells a resource, no lifecycle step can, and
// bookPackage's check-everything-then-insert accepts exactly what check-insert-check-insert would.
module Capacity {
  import opened Wrappers
  import opened Marketplace
  import opened Admission

  // ----- loads ---------------------------------------------------------------------------

  lemma {:induction false} LoadLe(
    cat: Catalogue, events: seq<Event>, bs: seq<Booking>, completedToo: bool,
    events': seq<Event>, bs': seq<Booking>, completedToo': bool, r: Resource, day: int)
    requires |bs| == |bs'|
    requires forall i :: 0 <= i < |bs| ==>
               Weight(cat, events, bs[i], r, day, completedToo) <= Weight(cat, events', bs'[i], r, day, completedToo')
    ensures Load(cat, events, bs, r, day, completedToo) <= Load(cat, events', bs', r, day, completedToo')
  {
    if bs != [] {
      var n := |bs| - 1;
      forall i | 0 <= i < n
        ensures Weight(cat, events, bs[..n][i], r, day, completedToo)
                <= Weight(cat, events', bs'[..n][i], r, day, completedToo')
      {
        assert bs[..n][i] == bs[i] && bs'[..n][i] == bs'[i];
      }
      LoadLe(cat, events, bs[..n], completedToo, events', bs'[..n], completedToo', r, day);
    }
  }

  lemma LoadOfOneMore(cat: Catalogue, events: seq<Event>, bs: seq<Booking>, b: Booking, r: Resource, day: int,
                      completedToo: bool)
    ensures Load(cat, events, bs + [b], r, day, completedToo)
            == Load(cat, events, bs, r, day, completedToo) + Weight(cat, events, b, r, day, completedToo)
  {
    assert (bs + [b])[..|bs|] == bs;
  }

  lemma {:induction false} LoadOfWeightless(
    cat: Catalogue, events: seq<Event>, bs: seq<Booking>, more: seq<Booking>, r: Resource, day: int, completedToo: bool)
    requires forall i :: 0 <= i < |more| ==> Weight(cat, events, more[i], r, day, completedToo) == 0
    ensures Load(cat, events, bs + more, r, day, completedToo) == Load(cat, events, bs, r, day, completedToo)
  {
    if more == [] {
      assert bs + more == bs;
    } else {
      var n := |more| - 1;
      assert bs + more == (bs + more[..n]) + [more[n]];
      LoadOfOneMore(cat, events, bs + more[..n], more[n], r, day, completedToo);
      LoadOfWeightless(cat, events, bs, more[..n], r, day, completedToo);
    }
  }

  // ----- loads as counts ---------------------------------------------------------------------

  // A booking takes its place until it is called off or over; some queries count what is over as well.
  predicate Occupies(b: Booking, completedToo: bool) {
    b.status == Pending || b.status == QuoteSent || b.status == Confirmed || b.status == InProgress
    || (completedToo && b.status == Completed)
  }

  predicate CountedOn(events: seq<Event>, b: Booking, day: int, completedToo: bool) {
    Occupies(b, completedToo) && b.event < |events| && events[b.event].day == day
  }

  // The counted bookings of a day, as sets of row numbers: in an availability through its slots, in a
  // service's pool, and in a slot.
  function InAvailability(cat: Catalogue, db: Db, a: nat, day: int, completedToo: bool): set<nat> {
    set i: nat | i < |db.bookings| && CountedOn(db.events, db.bookings[i], day, completedToo)
                 && db.bookings[i].slot.Some? && a < |cat.availabilities| && db.bookings[i].slot.value < |cat.slots|
                 && cat.slots[db.bookings[i].slot.value].availability == a
                 && db.bookings[i].service == cat.availabilities[a].service
  }

  function InPool(db: Db, s: nat, day: int, completedToo: bool): set<nat> {
    set i: nat | i < |db.bookings| && CountedOn(db.events, db.bookings[i], day, completedToo)
                 && db.bookings[i].slot.None? && db.bookings[i].service == s
  }

  function InSlot(db: Db, t: nat, day: int, completedToo: bool): set<nat> {
    set i: nat | i < |db.bookings| && CountedOn(db.events, db.bookings[i], day, completedToo)
                 && db.bookings[i].slot == Some(t)
  }

  // The quantity of a sub-service in one booking, and in all counted bookings of a day.
  function QuantityIn(items: seq<Item>, x: nat, k: nat): nat
    requires k <= |items|
  {
    if k == 0 then 0 else QuantityIn(items, x, k - 1) + if items[k - 1].sub == x then items[k - 1].quantity else 0
  }

  function BookedQuantity(db: Db, x: nat, day: int, completedToo: bool, k: nat): nat
    requires k <= |db.bookings|
  {
    if k == 0 then 0
    else BookedQuantity(db, x, day, completedToo, k - 1)
         + if CountedOn(db.events, db.bookings[k - 1], day, completedToo)
           then QuantityIn(db.bookings[k - 1].items, x, |db.bookings[k - 1].items|) else 0
  }

  function AllBooked(db: Db, x: nat, day: int, completedToo: bool): nat {
    BookedQuantity(db, x, day, completedToo, |db.bookings|)
  }

  function RowsWhere(bs: seq<Booking>, p: Booking -> bool): set<nat> {
    set i: nat | i < |bs| && p(bs[i])
  }

  lemma LastRow(bs: seq<Booking>, p: Booking -> bool)
    requires bs != []
    ensures |RowsWhere(bs, p)| == |RowsWhere(bs[..|bs| - 1], p)| + (if p(bs[|bs| - 1]) then 1 else 0)
  {
    var n := |bs| - 1;
    var earlier := RowsWhere(bs[..n], p);
    assert n !in earlier;
    assert RowsWhere(bs, p) == if p(bs[n]) then earlier + {n} else earlier;
  }

  lemma NoRows(p: Booking -> bool)
    ensures |RowsWhere([], p)| == 0
  {
    assert RowsWhere([], p) == {};
  }

  lemma {:induction false} LoadCountsRows(cat: Catalogue, events: seq<Event>, bs: seq<Booking>, r: Resource, day: int,
                                          completedToo: bool, p: Booking -> bool)
    requires forall b :: Weight(cat, events, b, r, day, completedToo) == if p(b) then 1 else 0
    ensures Load(cat, events, bs, r, day, completedToo) == |RowsWhere(bs, p)|
  {
    hide Weight, RowsWhere;
    if bs == [] {
      NoRows(p);
    } else {
      LoadCountsRows(cat, events, bs[..|bs| - 1], r, day, completedToo, p);
      LastRow(bs, p);
    }
  }

  lemma {:induction false} QuantityIsSum(items: seq<Item>, x: nat, k: nat)
    requires k <= |items|
    ensures Quantity(items[..k], x) == QuantityIn(items, x, k)
  {
    if k > 0 {
      QuantityIsSum(items, x, k - 1);
      assert items[..k][..k - 1] == items[..k - 1];
    }
  }

  lemma {:induction false} LoadIsQuantity(cat: Catalogue, db: Db, x: nat, day: int, completedToo: bool, k: nat)
    requires k <= |db.bookings|
    ensures Load(cat, db.events, db.bookings[..k], SubServiceDay(x), day, completedToo)
            == BookedQuantity(db, x, day, completedToo, k)
  {
    if k > 0 {
      LoadIsQuantity(cat, db, x, day, completedToo, k - 1);
      assert db.bookings[..k][..k - 1] == db.bookings[..k - 1];
      var items := db.bookings[k - 1].items;
      QuantityIsSum(items, x, |items|);
      assert items[..|items|] == items;
    }
  }

  // The counting queries of the three layers count these sets, and the sums are these quantities.
  lemma LoadsAreCounts(cat: Catalogue, db: Db, day: int, completedToo: bool)
    ensures forall a: nat :: Load(cat, db.events, db.bookings, AvailabilityDay(a), day, completedToo)
                             == |InAvailability(cat, db, a, day, completedToo)|
    ensures forall s: nat :: Load(cat, db.events, db.bookings, PoolDay(s), day, completedToo)
                             == |InPool(db, s, day, completedToo)|
    ensures forall t: nat :: Load(cat, db.events, db.bookings, SlotDay(t), day, completedToo)
                             == |InSlot(db, t, day, completedToo)|
    ensures forall x: nat :: Load(cat, db.events, db.bookings, SubServiceDay(x), day, completedToo)
                             == AllBooked(db, x, day, completedToo)
  {
    hide Load;
    forall x: nat ensures Load(cat, db.events, db.bookings, SubServiceDay(x), day, completedToo)
                          == AllBooked(db, x, day, completedToo)
    {
      LoadIsQuantity(cat, db, x, day, completedToo, |db.bookings|);
      assert db.bookings[..|db.bookings|] == db.bookings;
    }
    forall a: nat ensures Load(cat, db.events, db.bookings, AvailabilityDay(a), day, completedToo)
                          == |InAvailability(cat, db, a, day, completedToo)|
    {
      var p := (b: Booking) => CountedOn(db.events, b, day, completedToo) && b.slot.Some?
                               && a < |cat.availabilities| && b.slot.value < |cat.slots|
                               && cat.slots[b.slot.value].availability == a
                               && b.service == cat.availabilities[a].service;
      LoadCountsRows(cat, db.events, db.bookings, AvailabilityDay(a), day, completedToo, p);
      assert RowsWhere(db.bookings, p) == InAvailability(cat, db, a, day, completedToo);
    }
    forall s: nat ensures Load(cat, db.events, db.bookings, PoolDay(s), day, completedToo)
                          == |InPool(db, s, day, completedToo)|
    {
      var p := (b: Booking) => CountedOn(db.events, b, day, completedToo) && b.slot.None? && b.service == s;
      LoadCountsRows(cat, db.events, db.bookings, PoolDay(s), day, completedToo, p);
      assert RowsWhere(db.bookings, p) == InPool(db, s, day, completedToo);
    }
    forall t: nat ensures Load(cat, db.events, db.bookings, SlotDay(t), day, completedToo)
                          == |InSlot(db, t, day, completedToo)|
    {
      var p := (b: Booking) => CountedOn(db.events, b, day, completedToo) && b.slot == Some(t);
      LoadCountsRows(cat, db.events, db.bookings, SlotDay(t), day, completedToo, p);
      assert RowsWhere(db.bookings, p) == InSlot(db, t, day, completedToo);
    }
  }

  lemma {:induction false} TwoWeigh(cat: Catalogue, events: seq<Event>, bs: seq<Booking>, r: Resource, day: int,
                                    i: nat, j: nat)
    requires i < j < |bs|
    ensures Load(cat, events, bs, r, day, false) >= Weight(cat, events, bs[i], r, day, false)
              + Weight(cat, events, bs[j], r, day, false)
  {
    var n := |bs| - 1;
    if j < n {
      TwoWeigh(cat, events, bs[..n], r, day, i, j);
    } else {
      OneWeighs(cat, events, bs[..n], r, day, i);
    }
  }

  lemma {:induction false} OneWeighs(cat: Catalogue, events: seq<Event>, bs: seq<Booking>, r: Resource, day: int,
                                     i: nat)
    requires i < |bs|
    ensures Load(cat, events, bs, r, day, false) >= Weight(cat, events, bs[i], r, day, false)
  {
    var n := |bs| - 1;
    if i < n {
      OneWeighs(cat, events, bs[..n], r, day, i);
    }
  }

  // ----- nothing is oversold ---------------------------------------------------------------

  ghost predicate Fits(cat: Catalogue, db: Db, r: Resource, day: int) {
    Load(cat, db.events, db.bookings, r, day, false) <= CapacityOf(cat, r, day)
  }

  // On every day each resource is within its capacity. The daily quantities of sub-services are
  // claimed only for histories whose selections never list a sub-service twice.
  ghost predicate NothingOversold(cat: Catalogue, db: Db, distinct: bool) {
    forall r: Resource, day: int :: (r.SubServiceDay? ==> distinct) ==> Fits(cat, db, r, day)
  }

  predicate DistinctItems(items: seq<ItemRequest>) {
    forall i, j | 0 <= i < j < |items| :: items[i].sub != items[j].sub
  }

  lemma {:induction false} QuantityOfDistinct(items: seq<Item>, x: nat)
    requires forall i, j :: 0 <= i < j < |items| ==> items[i].sub != items[j].sub
    ensures (forall i :: 0 <= i < |items| ==> items[i].sub != x) ==> Quantity(items, x) == 0
    ensures forall i :: 0 <= i < |items| && items[i].sub == x ==> Quantity(items, x) == items[i].quantity
  {
    if items != [] {
      var n := |items| - 1;
      assert forall i :: 0 <= i < n ==> items[..n][i] == items[i];
      QuantityOfDistinct(items[..n], x);
    }
  }

  lemma AdmittedItemsHaveRoom(
    cat: Catalogue, db: Db, ev: Event, sel: Selection, completedToo: bool, x: nat)
    requires Validate(cat, sel, ev).Pass? && Admit(cat, db, ev, sel, completedToo).Pass? && DistinctItems(sel.items)
    ensures var use := Quantity(NewItems(cat, sel.items), x);
            use == 0 || Load(cat, db.events, db.bookings, SubServiceDay(x), ev.day, completedToo) + use
              <= DailyCapacity(cat, x)
  {
    hide Load, Validate, DailyCapacity, Quantity;
    var items := NewItems(cat, sel.items);
    QuantityOfDistinct(items, x);
    if i :| 0 <= i < |sel.items| && sel.items[i].sub == x {
      assert items[i].sub == x;
      assert Load(cat, db.events, db.bookings, SubServiceDay(x), ev.day, completedToo) + sel.items[i].quantity
               <= DailyCapacity(cat, x);
    }
  }

  // An admitted selection leaves room for its own booking in every resource it uses.
  lemma AdmittedBookingHasRoom(
    cat: Catalogue, db: Db, ev: Event, e: nat, sel: Selection, order: Option<nat>, deadline: Time,
    completedToo: bool, r: Resource)
    requires Validate(cat, sel, ev).Pass? && Admit(cat, db, ev, sel, completedToo).Pass?
    requires r.SubServiceDay? ==> DistinctItems(sel.items)
    ensures var use := Use(cat, NewBooking(cat, ev, e, sel, order, deadline), r);
            use == 0 || Load(cat, db.events, db.bookings, r, ev.day, false) + use <= CapacityOf(cat, r, ev.day)
  {
    hide Load, Weight, Quantity;
    LoadLe(cat, db.events, db.bookings, false, db.events, db.bookings, completedToo, r, ev.day) by {
      CountingMoreWeighsMore(cat, db, r, ev.day, completedToo);
    }
    if r.SubServiceDay? {
      AdmittedItemsHaveRoom(cat, db, ev, sel, completedToo, r.x);
    }
  }

  // Counting completed bookings too can only raise a weight.
  lemma CountingMoreWeighsMore(cat: Catalogue, db: Db, r: Resource, day: int, completedToo: bool)
    ensures forall i :: 0 <= i < |db.bookings| ==>
              Weight(cat, db.events, db.bookings[i], r, day, false)
                <= Weight(cat, db.events, db.bookings[i], r, day, completedToo)
  {
    hide Use;
  }

  lemma InsertKeepsCapacity(
    cat: Catalogue, db: Db, e: nat, sel: Selection, order: Option<nat>, deadline: Time, completedToo: bool,
      distinct: bool)
    requires e < |db.events|
    requires Validate(cat, sel, db.events[e]).Pass? && Admit(cat, db, db.events[e], sel, completedToo).Pass?
    requires distinct ==> DistinctItems(sel.items)
    requires NothingOversold(cat, db, distinct)
    ensures NothingOversold(cat, Inserted(db, NewBooking(cat, db.events[e], e, sel, order, deadline)), distinct)
  {
    var ev := db.events[e];
    var b := NewBooking(cat, ev, e, sel, order, deadline);
    forall r: Resource, day: int | r.SubServiceDay? ==> distinct
      ensures Fits(cat, Inserted(db, b), r, day)
    {
      assert Fits(cat, db, r, day);
      LoadOfOneMore(cat, db.events, db.bookings, b, r, day, false);
      AdmittedBookingHasRoom(cat, db, ev, e, sel, order, deadline, completedToo, r);
    }
  }

  predicate AllDistinctItems(sels: seq<Selection>) {
    forall i | 0 <= i < |sels| :: DistinctItems(sels[i].items)
  }

  lemma {:induction false} AdmitInTurnKeepsCapacity(
    cat: Catalogue, db: Db, e: nat, sels: seq<Selection>, k: nat, order: Option<nat>, deadline: Time,
    completedToo: bool, distinct: bool)
    requires k <= |sels| && e < |db.events|
    requires forall i :: 0 <= i < |sels| ==> Validate(cat, sels[i], db.events[e]).Pass?
    requires distinct ==> AllDistinctItems(sels)
    requires NothingOversold(cat, db, distinct)
    ensures var r := AdmitInTurn(cat, db, e, sels, k, order, deadline, completedToo);
            r.Success? ==> NothingOversold(cat, r.value, distinct)
  {
    hide Validate, Admit, NewBooking;
    if k > 0 {
      AdmitInTurnKeepsCapacity(cat, db, e, sels, k - 1, order, deadline, completedToo, distinct);
      var earlier := AdmitInTurn(cat, db, e, sels, k - 1, order, deadline, completedToo);
      if earlier.Success? && Admit(cat, earlier.value, db.events[e], sels[k - 1], completedToo).Pass? {
        InsertKeepsCapacity(cat, earlier.value, e, sels[k - 1], order, deadline, completedToo, distinct);
      }
    }
  }

  // A step that keeps every booking's place and day, and brings no booking back to life, cannot
  // oversell anything.
  lemma CapacitySurvives(cat: Catalogue, db: Db, db': Db, distinct: bool)
    requires |db.bookings| == |db'.bookings|
    requires forall i, r: Resource, day :: 0 <= i < |db.bookings| ==>
               Weight(cat, db'.events, db'.bookings[i], r, day, false)
                 <= Weight(cat, db.events, db.bookings[i], r, day, false)
    requires NothingOversold(cat, db, distinct)
    ensures NothingOversold(cat, db', distinct)
  {
    forall r: Resource, day: int | r.SubServiceDay? ==> distinct
      ensures Fits(cat, db', r, day)
    {
      assert Fits(cat, db, r, day);
      LoadLe(cat, db'.events, db'.bookings, false, db.events, db.bookings, false, r, day);
    }
  }

  // A new event changes no count.
  lemma NewEventKeepsCapacity(cat: Catalogue, db: Db, ev: Event, distinct: bool)
    requires forall i :: 0 <= i < |db.bookings| ==> db.bookings[i].event < |db.events|
    requires NothingOversold(cat, db, distinct)
    ensures NothingOversold(cat, db.(events := db.events + [ev]), distinct)
  {
    CapacitySurvives(cat, db, db.(events := db.events + [ev]), distinct);
  }

  // ----- all at once refines in turn ---------------------------------------------------------

  // A booking placed by admission: its slot and its items belong to its own service.
  predicate WellPlaced(cat: Catalogue, b: Booking) {
    && (b.slot.Some? ==>
          b.slot.value < |cat.slots|
          && cat.slots[b.slot.value].availability < |cat.availabilities|
          && cat.availabilities[cat.slots[b.slot.value].availability].service == b.service)
    && (forall i | 0 <= i < |b.items| ::
          b.items[i].sub < |cat.subs| && cat.subs[b.items[i].sub].service == b.service)
  }

  // Resources that the checks for a service look at.
  predicate Concerns(cat: Catalogue, r: Resource, s: nat) {
    match r
    case AvailabilityDay(a) => a < |cat.availabilities| && cat.availabilities[a].service == s
    case PoolDay(s') => s' == s
    case SlotDay(t) => t < |cat.slots| && cat.slots[t].availability < |cat.availabilities|
                       && cat.availabilities[cat.slots[t].availability].service == s
    case SubServiceDay(x) => x < |cat.subs| && cat.subs[x].service == s
    case CustomerDay(_, s') => s' == s
  }

  lemma {:induction false} QuantityOfAbsent(items: seq<Item>, x: nat)
    requires forall i :: 0 <= i < |items| ==> items[i].sub != x
    ensures Quantity(items, x) == 0
  {
    if items != [] {
      assert forall i :: 0 <= i < |items| - 1 ==> items[..|items| - 1][i] == items[i];
      QuantityOfAbsent(items[..|items| - 1], x);
    }
  }

  lemma OtherServicesDoNotInterfere(cat: Catalogue, b: Booking, r: Resource, s: nat)
    requires WellPlaced(cat, b) && Concerns(cat, r, s) && b.service != s
    ensures Use(cat, b, r) == 0
  {
    if r.SubServiceDay? {
      QuantityOfAbsent(b.items, r.x);
    }
  }

  // The pool is the first slotless availability of the service for the weekday, if there is one at all.
  lemma PoolIsFirst(cat: Catalogue, s: nat, weekday: nat, k: nat)
    ensures var pool := FirstPool(cat, s, weekday, k);
            && (pool.Some? ==>
                  k <= pool.value < |cat.availabilities|
                  && cat.availabilities[pool.value].service == s && weekday in cat.availabilities[pool.value].days
                  && !cat.availabilities[pool.value].hasSlots)
            && (forall j :: k <= j < (if pool.Some? then pool.value else |cat.availabilities|) ==>
                  !(cat.availabilities[j].service == s && weekday in cat.availabilities[j].days
                    && !cat.availabilities[j].hasSlots))
    decreases |cat.availabilities| - k
  {
  }

  lemma NewBookingIsWellPlaced(cat: Catalogue, ev: Event, e: nat, sel: Selection, order: Option<nat>, deadline: Time)
    requires Validate(cat, sel, ev).Pass?
    ensures sel.service < |cat.services|
    ensures var b := NewBooking(cat, ev, e, sel, order, deadline);
            WellPlaced(cat, b) && b.service == sel.service && b.customer == ev.customer && b.event == e
              && Live(b.status)
  {
  }

  // Bookings of other services change nothing about the admission of a selection.
  lemma AdmissionIgnoresOtherServices(
    cat: Catalogue, db: Db, more: seq<Booking>, ev: Event, sel: Selection, completedToo: bool)
    requires Validate(cat, sel, ev).Pass?
    requires forall i :: 0 <= i < |more| ==> WellPlaced(cat, more[i]) && more[i].service != sel.service
    ensures Admit(cat, db.(bookings := db.bookings + more), ev, sel, completedToo)
              == Admit(cat, db, ev, sel, completedToo)
  {
    forall r: Resource | Concerns(cat, r, sel.service)
      ensures Load(cat, db.events, db.bookings + more, r, ev.day, completedToo)
              == Load(cat, db.events, db.bookings, r, ev.day, completedToo)
    {
      forall i | 0 <= i < |more| ensures Weight(cat, db.events, more[i], r, ev.day, completedToo) == 0 {
        OtherServicesDoNotInterfere(cat, more[i], r, sel.service);
      }
      LoadOfWeightless(cat, db.events, db.bookings, more, r, ev.day, completedToo);
    }
    PoolIsFirst(cat, sel.service, Weekday(ev.day), 0);
    assert forall i :: 0 <= i < |sel.items| ==> Concerns(cat, SubServiceDay(sel.items[i].sub), sel.service);
    assert Concerns(cat, CustomerDay(ev.customer, sel.service), sel.service);
    var a := Matched(cat, sel, Weekday(ev.day)).value;
    assert Concerns(cat, if sel.slot.Some? then AvailabilityDay(a) else PoolDay(sel.service), sel.service);
    if sel.slot.Some? {
      assert Concerns(cat, SlotDay(sel.slot.value), sel.service);
    }
  }

  lemma {:induction false} AdmittedAtOnce(
    cat: Catalogue, db: Db, e: nat, sels: seq<Selection>, k: nat, order: Option<nat>, deadline: Time,
      completedToo: bool)
    requires k <= |sels| && e < |db.events|
    requires forall i :: 0 <= i < |sels| ==> Validate(cat, sels[i], db.events[e]).Pass?
    ensures var r := AdmitAtOnce(cat, db, e, sels, k, order, deadline, completedToo);
            r.Success? ==>
              |r.value| == k
              && forall i :: 0 <= i < k ==> r.value[i] == NewBooking(cat, db.events[e], e, sels[i], order, deadline)
  {
    hide Validate, Admit, NewBooking;
    if k > 0 {
      AdmittedAtOnce(cat, db, e, sels, k - 1, order, deadline, completedToo);
    }
  }

  // With distinct services the two loops accept the same requests, refuse the others for the same
  // reason, and insert the same bookings.
  lemma {:induction false} AtOnceRefinesInTurn(
    cat: Catalogue, db: Db, e: nat, sels: seq<Selection>, k: nat, order: Option<nat>, deadline: Time,
      completedToo: bool)
    requires k <= |sels| && e < |db.events| && DistinctServices(sels)
    requires forall i :: 0 <= i < |sels| ==> Validate(cat, sels[i], db.events[e]).Pass?
    ensures var atOnce := AdmitAtOnce(cat, db, e, sels, k, order, deadline, completedToo);
            AdmitInTurn(cat, db, e, sels, k, order, deadline, completedToo) ==
            if atOnce.Success? then Success(db.(bookings := db.bookings + atOnce.value)) else Failure(atOnce.error)
  {
    hide Validate, Admit, NewBooking;
    if k == 0 {
      assert db.bookings + [] == db.bookings;
    } else {
      AtOnceRefinesInTurn(cat, db, e, sels, k - 1, order, deadline, completedToo);
      AdmittedAtOnce(cat, db, e, sels, k - 1, order, deadline, completedToo);
      var earlier := AdmitAtOnce(cat, db, e, sels, k - 1, order, deadline, completedToo);
      if earlier.Success? {
        forall i | 0 <= i < |earlier.value|
          ensures WellPlaced(cat, earlier.value[i]) && earlier.value[i].service != sels[k - 1].service
        {
          NewBookingIsWellPlaced(cat, db.events[e], e, sels[i], order, deadline);
        }
        AdmissionIgnoresOtherServices(cat, db, earlier.value, db.events[e], sels[k - 1], completedToo);
        NewBookingIsWellPlaced(cat, db.events[e], e, sels[k - 1], order, deadline);
        var b := NewBooking(cat, db.events[e], e, sels[k - 1], order, deadline);
        assert (db.bookings + earlier.value) + [b] == db.bookings + (earlier.value + [b]);
      }
    }
  }

  // An admitted selection had no booking of its customer and service that day, and has one afterwards.
  lemma AdmissionMarksTheService(
    cat: Catalogue, db: Db, e: nat, sel: Selection, order: Option<nat>, deadline: Time, completedToo: bool, s: nat)
    requires e < |db.events|
    requires Validate(cat, sel, db.events[e]).Pass? && Admit(cat, db, db.events[e], sel, completedToo).Pass?
    ensures var r := CustomerDay(db.events[e].customer, s);
            var day := db.events[e].day;
            var db' := Inserted(db, NewBooking(cat, db.events[e], e, sel, order, deadline));
            Load(cat, db'.events, db'.bookings, r, day, completedToo)
            == Load(cat, db.events, db.bookings, r, day, completedToo) + (if s == sel.service then 1 else 0)
    ensures Load(cat, db.events, db.bookings, CustomerDay(db.events[e].customer, sel.service), db.events[e].day,
                 completedToo) == 0
  {
    LoadOfOneMore(cat, db.events, db.bookings, NewBooking(cat, db.events[e], e, sel, order, deadline),
                  CustomerDay(db.events[e].customer, s), db.events[e].day, completedToo);
  }

  // createEvent never creates two bookings of one service, whatever it was asked for: the booking
  // inserted first makes the second a duplicate.
  lemma {:induction false} InTurnRefusesRepeatedServices(
    cat: Catalogue, db: Db, e: nat, sels: seq<Selection>, k: nat, order: Option<nat>, deadline: Time,
      completedToo: bool)
    requires k <= |sels| && e < |db.events|
    requires forall i :: 0 <= i < |sels| ==> Validate(cat, sels[i], db.events[e]).Pass?
    ensures var r := AdmitInTurn(cat, db, e, sels, k, order, deadline, completedToo);
            r.Success? ==>
              && DistinctServices(sels[..k])
              && forall i :: 0 <= i < k ==>
                   Load(cat, db.events, r.value.bookings, CustomerDay(db.events[e].customer, sels[i].service),
                        db.events[e].day,
                        completedToo) > 0
  {
    hide Validate, Admit, NewBooking, Load;
    if k > 0 && AdmitInTurn(cat, db, e, sels, k, order, deadline, completedToo).Success? {
      InTurnRefusesRepeatedServices(cat, db, e, sels, k - 1, order, deadline, completedToo);
      var before := AdmitInTurn(cat, db, e, sels, k - 1, order, deadline, completedToo).value;
      forall i | 0 <= i < k
        ensures Load(cat, db.events, AdmitInTurn(cat, db, e, sels, k, order, deadline, completedToo).value.bookings,
                     CustomerDay(db.events[e].customer, sels[i].service), db.events[e].day, completedToo) > 0
        ensures i < k - 1 ==> sels[i].service != sels[k - 1].service
      {
        AdmissionMarksTheService(cat, before, e, sels[k - 1], order, deadline, completedToo, sels[i].service);
      }
    }
  }

  // ----- the sub-service check -------------------------------------------------------------------

  function Requested(items: seq<ItemRequest>, x: nat): nat {
    if items == [] then 0
    else Requested(items[..|items| - 1], x) + (if items[|items| - 1].sub == x then items[|items| - 1].quantity else 0)
  }

  ghost predicate CheckIsSound(items: seq<ItemRequest>) {
    forall capacity: nat -> int, load: nat -> nat, i ::
      0 <= i < |items| && ItemsPass(items, capacity, load) ==>
        load(items[i].sub) + Requested(items, items[i].sub) <= capacity(items[i].sub)
  }

  lemma {:induction false} RequestedAtLeast(items: seq<ItemRequest>, i: nat, x: nat)
    requires i < |items| && items[i].sub == x
    ensures Requested(items, x) >= items[i].quantity
    ensures forall j :: i < j < |items| && items[j].sub == x ==>
              Requested(items, x) >= items[i].quantity + items[j].quantity
  {
    var n := |items| - 1;
    if i < n {
      assert items[..n][i] == items[i];
      RequestedAtLeast(items[..n], i, x);
      assert forall j :: i < j < n ==> items[..n][j] == items[j];
    }
  }

  lemma {:induction false} RequestedOnce(items: seq<ItemRequest>, i: nat, x: nat)
    requires i < |items| && items[i].sub == x
    requires forall j :: 0 <= j < |items| && j != i ==> items[j].sub != x
    ensures Requested(items, x) == items[i].quantity
  {
    var n := |items| - 1;
    if i < n {
      assert forall j :: 0 <= j < n ==> items[..n][j] == items[j];
      RequestedOnce(items[..n], i, x);
    } else {
      NothingRequested(items[..n], x);
    }
  }

  lemma {:induction false} NothingRequested(items: seq<ItemRequest>, x: nat)
    requires forall j :: 0 <= j < |items| ==> items[j].sub != x
    ensures Requested(items, x) == 0
  {
    if items != [] {
      assert forall j :: 0 <= j < |items| - 1 ==> items[..|items| - 1][j] == items[j];
      NothingRequested(items[..|items| - 1], x);
    }
  }

  // The item-by-item check bounds the total for every capacity and every prior load exactly when the
  // selection names no sub-service twice (quantities are at least 1).
  lemma ItemCheckIsSoundIffDistinct(items: seq<ItemRequest>)
    requires forall i :: 0 <= i < |items| ==> items[i].quantity >= 1
    ensures CheckIsSound(items) <==> DistinctItems(items)
  {
    if DistinctItems(items) {
      forall capacity: nat -> int, load: nat -> nat, i | 0 <= i < |items| && ItemsPass(items, capacity, load)
        ensures load(items[i].sub) + Requested(items, items[i].sub) <= capacity(items[i].sub)
      {
        RequestedOnce(items, i, items[i].sub);
      }
    } else {
      var i, j :| 0 <= i < j < |items| && items[i].sub == items[j].sub;
      OversellsWithCapacity(items, i, j);
    }
  }

  // Witness for the other direction: a single sub-service requested twice, a capacity that each
  // request meets and their sum exceeds.
  lemma OversellsWithCapacity(items: seq<ItemRequest>, i: nat, j: nat)
    requires i < j < |items| && items[i].sub == items[j].sub
    requires items[i].quantity >= 1 && items[j].quantity >= 1
    ensures !CheckIsSound(items)
  {
    var x := items[i].sub;
    var most := MostOf(items, x, |items|);
    MostOfBounds(items, x, |items|);
    var bound := Most(items, |items|);
    MostIsReached(items, |items|);
    var capacity := (y: nat) => if y == x then most as int else bound as int;
    var load := (_: nat) => 0 as nat;
    assert ItemsPass(items, capacity, load);
    TwiceExceedsMost(items, x, i, j);
    assert load(items[i].sub) + Requested(items, items[i].sub) > capacity(items[i].sub);
  }

  function Most(items: seq<ItemRequest>, k: nat): nat
    requires k <= |items|
  {
    if k == 0 then 0 else if items[k - 1].quantity > Most(items, k - 1) then items[k - 1].quantity
         else Most(items, k - 1)
  }

  lemma {:induction false} MostIsReached(items: seq<ItemRequest>, k: nat)
    requires k <= |items|
    ensures forall i :: 0 <= i < k ==> items[i].quantity <= Most(items, k)
  {
    if k > 0 {
      MostIsReached(items, k - 1);
    }
  }

  function MostOf(items: seq<ItemRequest>, x: nat, k: nat): nat
    requires k <= |items|
  {
    if k == 0 then 0
    else if items[k - 1].sub == x && items[k - 1].quantity > MostOf(items, x, k - 1) then items[k - 1].quantity
    else MostOf(items, x, k - 1)
  }

  lemma {:induction false} MostOfBounds(items: seq<ItemRequest>, x: nat, k: nat)
    requires k <= |items|
    ensures forall i :: 0 <= i < k && items[i].sub == x ==> items[i].quantity <= MostOf(items, x, k)
    ensures MostOf(items, x, k) > 0 ==>
              exists i :: 0 <= i < k && items[i].sub == x && items[i].quantity == MostOf(items, x, k)
  {
    if k > 0 {
      MostOfBounds(items, x, k - 1);
    }
  }

  lemma TwiceExceedsMost(items: seq<ItemRequest>, x: nat, i: nat, j: nat)
    requires i < j < |items| && items[i].sub == x && items[j].sub == x
    requires items[i].quantity >= 1 && items[j].quantity >= 1
    ensures Requested(items, x) > MostOf(items, x, |items|)
  {
    MostOfBounds(items, x, |items|);
    var m :| 0 <= m < |items| && items[m].sub == x && items[m].quantity == MostOf(items, x, |items|);
    if m == i {
      RequestedAtLeast(items, i, x);
    } else if m < i {
      RequestedAtLeast(items, m, x);
    } else {
      RequestedAtLeast(items, i, x);
    }
  }
}
