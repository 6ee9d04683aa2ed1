// When a booking request is accepted, said without the loops that decide it: conditions on the state
// before the call that can be read off row by row.
module Acceptance {
  import opened Wrappers
  import opened Marketplace
  import opened Pricing
  import opened Admission
  import opened Safety
  import opened Capacity
  import AdmissionSafety
  import BlockedSlots
  import TimeHelper

  // ----- one selection ---------------------------------------------------------------------------

  lemma {:induction false} LoadIsPositiveIff(
    cat: Catalogue, events: seq<Event>, bs: seq<Booking>, r: Resource, day: int, completedToo: bool)
    ensures Load(cat, events, bs, r, day, completedToo) > 0 <==>
            exists i :: 0 <= i < |bs| && Weight(cat, events, bs[i], r, day, completedToo) > 0
  {
    hide Weight;
    if bs != [] {
      var n := |bs| - 1;
      LoadIsPositiveIff(cat, events, bs[..n], r, day, completedToo);
      assert forall i :: 0 <= i < n ==> bs[..n][i] == bs[i];
    }
  }

  // The customer already has a counted booking of the service that day.
  predicate AlreadyBooked(db: Db, customer: nat, s: nat, day: int, completedToo: bool) {
    exists i | 0 <= i < |db.bookings| ::
      db.bookings[i].customer == customer && db.bookings[i].service == s
      && CountedOn(db.events, db.bookings[i], day, completedToo)
  }

  // Room for one more booking in the availability (or pool) and in the slot, and for each item by itself
  // on top of what is booked of its sub-service.
  predicate HasRoom(cat: Catalogue, db: Db, ev: Event, sel: Selection, completedToo: bool) {
    && (exists a: nat | a < |cat.availabilities| ::
          Opens(cat, sel, ev.day, a)
          && cat.availabilities[a].capacity > if sel.slot.Some? then |InAvailability(cat, db, a, ev.day, completedToo)|
                                              else |InPool(db, sel.service, ev.day, completedToo)|)
    && (sel.slot.Some? ==>
          sel.slot.value < |cat.slots|
          && |InSlot(db, sel.slot.value, ev.day, completedToo)| < cat.slots[sel.slot.value].capacity)
    && forall i | 0 <= i < |sel.items| ::
         sel.items[i].sub < |cat.subs|
         && AllBooked(db, sel.items[i].sub, ev.day, completedToo) + sel.items[i].quantity
            <= cat.subs[sel.items[i].sub].dailyCapacity
  }

  // The availability that a selection is for: the one of its slot, else the service's first one without slots
  // that is open on the weekday. Day 0 was a Thursday.
  predicate Opens(cat: Catalogue, sel: Selection, day: int, a: nat)
    requires a < |cat.availabilities|
  {
    && cat.availabilities[a].service == sel.service && (day + 4) % 7 in cat.availabilities[a].days
    && if sel.slot.Some? then
         cat.availabilities[a].hasSlots && sel.slot.value < |cat.slots|
         && cat.slots[sel.slot.value].availability == a
       else
         !cat.availabilities[a].hasSlots
         && forall c: nat | c < a :: !(cat.availabilities[c].service == sel.service && !cat.availabilities[c].hasSlots
                                       && (day + 4) % 7 in cat.availabilities[c].days)
  }

  lemma OpensIsMatched(cat: Catalogue, sel: Selection, day: int, a: nat)
    requires a < |cat.availabilities|
    ensures Opens(cat, sel, day, a) <==> Matched(cat, sel, Weekday(day)) == Some(a)
  {
    PoolIsFirst(cat, sel.service, Weekday(day), 0);
  }

  // The event lies within the hours of the slot or availability, and its guests and the items suit the service.
  predicate Suits(cat: Catalogue, sel: Selection, ev: Event) {
    && sel.service < |cat.services|
    && (exists a: nat | a < |cat.availabilities| ::
          Opens(cat, sel, ev.day, a)
          && if sel.slot.Some? && sel.slot.value < |cat.slots|
             then TimeHelper.WithinWindow(ev.start, ev.end, cat.slots[sel.slot.value].from,
                                          cat.slots[sel.slot.value].to, 24 * 60)
             else TimeHelper.WithinWindow(ev.start, ev.end, cat.availabilities[a].from, cat.availabilities[a].to,
                                          24 * 60))
    && (cat.services[sel.service].maxCapacity == 0 || ev.guests <= cat.services[sel.service].maxCapacity)
    && (sel.items == [] <==> cat.services[sel.service].kind == "HALL" || cat.services[sel.service].kind == "SOUND")
    && forall i | 0 <= i < |sel.items| ::
         sel.items[i].sub < |cat.subs| && cat.subs[sel.items[i].sub].service == sel.service
         && cat.subs[sel.items[i].sub].bookable
  }

  // Static validation passes exactly the selections that suit.
  lemma ValidIff(cat: Catalogue, sel: Selection, ev: Event)
    ensures Validate(cat, sel, ev).Pass? <==> Suits(cat, sel, ev)
  {
    hide TimeHelper.WithinWindow, Opens;
    forall a: nat | a < |cat.availabilities|
      ensures Opens(cat, sel, ev.day, a) <==> Matched(cat, sel, Weekday(ev.day)) == Some(a)
      ensures Opens(cat, sel, ev.day, a) ==> WorksOn(cat, sel.service, Weekday(ev.day))
    {
      OpensIsMatched(cat, sel, ev.day, a);
      OpensWorks(cat, sel, ev.day, a);
    }
    MatchedOpens(cat, sel, ev.day);
  }

  lemma OpensWorks(cat: Catalogue, sel: Selection, day: int, a: nat)
    requires a < |cat.availabilities|
    ensures Opens(cat, sel, day, a) ==> WorksOn(cat, sel.service, Weekday(day))
  {
  }

  lemma MatchedOpens(cat: Catalogue, sel: Selection, day: int)
    ensures var m := Matched(cat, sel, Weekday(day));
            m.Some? ==> m.value < |cat.availabilities|
                        && (sel.slot.Some? ==> sel.slot.value < |cat.slots|)
  {
    PoolIsFirst(cat, sel.service, Weekday(day), 0);
  }

  // A valid selection is admitted exactly when its customer has no booking of the service that day, no
  // stored block of that day shares a minute with the event, and there is room in every layer.
  lemma AdmittedIff(cat: Catalogue, db: Db, ev: Event, sel: Selection, completedToo: bool)
    requires Validate(cat, sel, ev).Pass? && BlockedSlots.AllWellTimed(db.blocks)
    requires 0 <= ev.start < TimeHelper.DAY && 0 <= ev.end < TimeHelper.DAY
    ensures var provider := cat.services[sel.service].provider;
            Admit(cat, db, ev, sel, completedToo).Pass? <==>
            && !AlreadyBooked(db, ev.customer, sel.service, ev.day, completedToo)
            && !BlockedSlots.SomeExcludesSameDay(db.blocks, provider, sel.service, ev.day, ev.start, ev.end)
            && HasRoom(cat, db, ev, sel, completedToo)
  {
    hide BlockedSlots.Excludes, BlockedSlots.Hits, BlockedSlots.AllWellTimed, CapacityOf, InAvailability, InPool,
         InSlot, AllBooked, Opens, Load;
    LoadsAreCounts(cat, db, ev.day, completedToo);
    AlreadyBookedIff(cat, db, ev.customer, sel.service, ev.day, completedToo);
    BlockedSlots.BlockedTestIsExactIff(db.blocks, cat.services[sel.service].provider, sel.service, ev.day, ev.start,
                                       ev.end);
    MatchedOpens(cat, sel, ev.day);
    forall a: nat | a < |cat.availabilities|
      ensures Opens(cat, sel, ev.day, a) <==> Matched(cat, sel, Weekday(ev.day)) == Some(a)
    {
      OpensIsMatched(cat, sel, ev.day, a);
    }
    var m := Matched(cat, sel, Weekday(ev.day)).value;
    assert Opens(cat, sel, ev.day, m);
  }

  lemma AlreadyBookedIff(cat: Catalogue, db: Db, customer: nat, s: nat, day: int, completedToo: bool)
    ensures AlreadyBooked(db, customer, s, day, completedToo) <==>
            Load(cat, db.events, db.bookings, CustomerDay(customer, s), day, completedToo) > 0
  {
    hide Load;
    LoadIsPositiveIff(cat, db.events, db.bookings, CustomerDay(customer, s), day, completedToo);
  }

  // What is admitted may still clash with a block: exactly when the event runs past midnight into a block
  // of the following day.
  lemma AdmittedClashesIff(cat: Catalogue, db: Db, ev: Event, sel: Selection, completedToo: bool)
    requires Validate(cat, sel, ev).Pass? && BlockedSlots.AllWellTimed(db.blocks)
    requires 0 <= ev.start < TimeHelper.DAY && 0 <= ev.end < TimeHelper.DAY
    requires Admit(cat, db, ev, sel, completedToo).Pass?
    ensures var provider := cat.services[sel.service].provider;
            BlockedSlots.SomeExcludes(db.blocks, provider, sel.service, ev.day, ev.start, ev.end) <==>
            BlockedSlots.SomeMetAfterMidnight(db.blocks, provider, sel.service, ev.day, ev.start, ev.end)
  {
    hide BlockedSlots.Excludes, BlockedSlots.Hits, CapacityOf;
    var provider := cat.services[sel.service].provider;
    BlockedSlots.BlockedTestIsExactIff(db.blocks, provider, sel.service, ev.day, ev.start, ev.end);
    forall b | b in db.blocks && BlockedSlots.MetAfterMidnight(b, provider, sel.service, ev.day, ev.start, ev.end)
      ensures BlockedSlots.Excludes(b, provider, sel.service, ev.day, ev.start, ev.end)
    {
      BlockedSlots.HitIsExactIff(b, provider, sel.service, ev.day, ev.start, ev.end);
    }
  }

  // What static validation promises: the event lies, minute by minute, inside the window of a slot or
  // availability that belongs to the service and works on that weekday, the guests fit, and the items
  // are there exactly when the kind of service asks for them and are sold by that service.
  lemma ValidSelectionsFit(cat: Catalogue, sel: Selection, ev: Event)
    requires Validate(cat, sel, ev).Pass?
    requires 0 <= ev.start < TimeHelper.DAY && 0 <= ev.end < TimeHelper.DAY
    ensures var a := Matched(cat, sel, Weekday(ev.day)).value;
            && sel.service < |cat.services|
            && a < |cat.availabilities| && cat.availabilities[a].service == sel.service
            && Weekday(ev.day) in cat.availabilities[a].days
            && (sel.slot.Some? <==> cat.availabilities[a].hasSlots)
            && (sel.slot.Some? ==> sel.slot.value < |cat.slots| && cat.slots[sel.slot.value].availability == a)
    ensures var a := Matched(cat, sel, Weekday(ev.day)).value;
            var from := if sel.slot.Some? then cat.slots[sel.slot.value].from else cat.availabilities[a].from;
            var to := if sel.slot.Some? then cat.slots[sel.slot.value].to else cat.availabilities[a].to;
            0 <= from < TimeHelper.DAY && 0 <= to < TimeHelper.DAY && from != to ==>
              TimeHelper.CoveredBy(ev.start, ev.end, from, to, TimeHelper.DAY)
    ensures var service := cat.services[sel.service];
            && (service.maxCapacity > 0 ==> ev.guests <= service.maxCapacity)
            && (|sel.items| > 0 <==> service.kind != "HALL" && service.kind != "SOUND")
            && forall i :: 0 <= i < |sel.items| ==>
                 sel.items[i].sub < |cat.subs| && cat.subs[sel.items[i].sub].service == sel.service
                   && cat.subs[sel.items[i].sub].bookable
  {
    PoolIsFirst(cat, sel.service, Weekday(ev.day), 0);
    var a := Matched(cat, sel, Weekday(ev.day)).value;
    var from := if sel.slot.Some? then cat.slots[sel.slot.value].from else cat.availabilities[a].from;
    var to := if sel.slot.Some? then cat.slots[sel.slot.value].to else cat.availabilities[a].to;
    if 0 <= from < TimeHelper.DAY && 0 <= to < TimeHelper.DAY && from != to {
      TimeHelper.WindowTestIsExact(ev.start, ev.end, from, to, TimeHelper.DAY);
    }
  }

  // ----- whole requests -------------------------------------------------------------------------------

  lemma {:induction false} AtOnceAcceptsIff(
    cat: Catalogue, db: Db, e: nat, sels: seq<Selection>, k: nat, order: Option<nat>, deadline: Time,
      completedToo: bool)
    requires k <= |sels| && e < |db.events|
    requires forall i :: 0 <= i < |sels| ==> Validate(cat, sels[i], db.events[e]).Pass?
    ensures AdmitAtOnce(cat, db, e, sels, k, order, deadline, completedToo).Success? <==>
            forall i :: 0 <= i < k ==> Admit(cat, db, db.events[e], sels[i], completedToo).Pass?
  {
    hide Validate, Admit, NewBooking;
    if k > 0 {
      AtOnceAcceptsIff(cat, db, e, sels, k - 1, order, deadline, completedToo);
    }
  }

  // The event being created does not count itself.
  lemma NewEventIsNotCounted(cat: Catalogue, db: Db, ev: Event, sel: Selection, completedToo: bool)
    requires Invariant(db) && Validate(cat, sel, ev).Pass?
    ensures Admit(cat, db.(events := db.events + [ev]), ev, sel, completedToo) == Admit(cat, db, ev, sel, completedToo)
  {
    hide Validate, Invariant;
    AdmissionSafety.EventIndexes(db);
    forall r: Resource
      ensures Load(cat, db.events + [ev], db.bookings, r, ev.day, completedToo)
              == Load(cat, db.events, db.bookings, r, ev.day, completedToo)
    {
      LoadLe(cat, db.events + [ev], db.bookings, completedToo, db.events, db.bookings, completedToo, r, ev.day);
      LoadLe(cat, db.events, db.bookings, completedToo, db.events + [ev], db.bookings, completedToo, r, ev.day);
    }
    AdmitDependsOnLoads(cat, db.(events := db.events + [ev]), db, ev, sel, completedToo);
  }

  lemma AdmitDependsOnLoads(cat: Catalogue, db: Db, db': Db, ev: Event, sel: Selection, completedToo: bool)
    requires Validate(cat, sel, ev).Pass? && db.blocks == db'.blocks
    requires forall r: Resource ::
               Load(cat, db.events, db.bookings, r, ev.day, completedToo)
                 == Load(cat, db'.events, db'.bookings, r, ev.day, completedToo)
    ensures Admit(cat, db, ev, sel, completedToo) == Admit(cat, db', ev, sel, completedToo)
  {
  }

  predicate SoldAlone(cat: Catalogue, s: nat) {
    s < |cat.services| && cat.services[s].approved && cat.services[s].complete && !cat.services[s].packaged
  }

  predicate NoServiceTwice(sels: seq<Selection>) {
    forall i, j | 0 <= i < j < |sels| :: sels[i].service != sels[j].service
  }

  // Nothing stands against the selection in the tables: no booking of the customer, no block of the day that
  // shares a minute with the event, and room in every layer.
  ghost predicate Free(cat: Catalogue, db: Db, ev: Event, sel: Selection, completedToo: bool)
    requires sel.service < |cat.services|
  {
    && !AlreadyBooked(db, ev.customer, sel.service, ev.day, completedToo)
    && !BlockedSlots.SomeExcludesSameDay(db.blocks, cat.services[sel.service].provider, sel.service, ev.day, ev.start,
                                         ev.end)
    && HasRoom(cat, db, ev, sel, completedToo)
  }

  // A service is added to an event exactly when the event is the caller's, still a draft or under way, and more
  // than four days ahead, and the service is sold on its own, suits the event and is free; then one row is added.
  lemma AddServiceAcceptsIff(cat: Catalogue, db: Db, customer: nat, e: nat, sel: Selection, now: Time)
    requires BlockedSlots.AllWellTimed(db.blocks)
    requires e < |db.events| ==> 0 <= db.events[e].start < 24 * 60 && 0 <= db.events[e].end < 24 * 60
    ensures AddService(cat, db, customer, e, sel, now).Success? <==>
            && e < |db.events| && db.events[e].customer == customer
            && (db.events[e].status == EvDraft || db.events[e].status == EvInProgress)
            && db.events[e].day * 1440 - now > 4 * 1440
            && sel.service < |cat.services| && cat.services[sel.service].approved && cat.services[sel.service].complete
            && !cat.services[sel.service].packaged
            && Suits(cat, sel, db.events[e]) && Free(cat, db, db.events[e], sel, true)
    ensures AddService(cat, db, customer, e, sel, now).Success? ==>
              var db' := AddService(cat, db, customer, e, sel, now).value;
              && |db'.bookings| == |db.bookings| + 1 && db.bookings <= db'.bookings
              && db' == db.(bookings := db'.bookings)
  {
    hide Validate, Admit, NewBooking, Suits, AlreadyBooked, HasRoom, BlockedSlots.SomeExcludesSameDay,
         BlockedSlots.AllWellTimed;
    if e < |db.events| {
      ValidIff(cat, sel, db.events[e]);
      if Validate(cat, sel, db.events[e]).Pass? {
        AdmittedIff(cat, db, db.events[e], sel, true);
      }
    }
  }

  // createEvent checks as it inserts, yet its verdict is one about the state it found: it accepts exactly
  // the well-formed requests that name no service twice and whose every selection is admitted there.
  lemma CreateEventAcceptsIff(cat: Catalogue, db: Db, ev: Event, sels: seq<Selection>, now: Time)
    requires Invariant(db) && ev.status == EvDraft
    ensures CreateEvent(cat, db, ev, sels, now).Success? <==>
            && ev.start != ev.end
            && NoServiceTwice(sels)
            && forall i :: 0 <= i < |sels| ==>
                 SoldAlone(cat, sels[i].service) && Suits(cat, sels[i], ev)
                   && Validate(cat, sels[i], ev).Pass? && Admit(cat, db, ev, sels[i], true).Pass?
  {
    hide Validate, Admit, NewBooking, Invariant, Suits;
    ValidateFirstCovers(cat, sels, ev, |sels|);
    forall i | 0 <= i < |sels| ensures Validate(cat, sels[i], ev).Pass? <==> Suits(cat, sels[i], ev) {
      ValidIff(cat, sels[i], ev);
    }
    var db1 := db.(events := db.events + [ev]);
    var e, deadline := |db.events|, now + PENDING_TIMEOUT;
    if forall i :: 0 <= i < |sels| ==> Validate(cat, sels[i], ev).Pass? {
      if AdmitInTurn(cat, db1, e, sels, |sels|, None, deadline, true).Success? {
        InTurnRefusesRepeatedServices(cat, db1, e, sels, |sels|, None, deadline, true);
        assert sels[..|sels|] == sels;
      }
      if DistinctServices(sels) {
        AtOnceRefinesInTurn(cat, db1, e, sels, |sels|, None, deadline, true);
        AtOnceAcceptsIff(cat, db1, e, sels, |sels|, None, deadline, true);
      }
      forall i | 0 <= i < |sels| ensures Admit(cat, db1, ev, sels[i], true) == Admit(cat, db, ev, sels[i], true) {
        NewEventIsNotCounted(cat, db, ev, sels[i], true);
      }
    }
  }

  predicate Chosen(sels: seq<Selection>, s: nat) {
    exists i | 0 <= i < |sels| :: sels[i].service == s
  }

  predicate ActiveIn(pkg: Package, s: nat) {
    exists m | 0 <= m < |pkg.members| :: pkg.members[m].service == s && pkg.members[m].status == MemActive
  }

  // The selections are for the active services of the package, all of them and no others.
  lemma CoversIff(pkg: Package, sels: seq<Selection>)
    ensures CoversPackage(pkg, sels) <==> forall s: nat :: Chosen(sels, s) <==> ActiveIn(pkg, s)
  {
    if forall s: nat :: Chosen(sels, s) <==> ActiveIn(pkg, s) {
      forall i | 0 <= i < |sels| ensures HasMember(pkg, sels[i].service, MemActive) {
        assert Chosen(sels, sels[i].service) && ActiveIn(pkg, sels[i].service);
      }
      forall m | 0 <= m < |pkg.members| && pkg.members[m].status == MemActive
        ensures exists i | 0 <= i < |sels| :: sels[i].service == pkg.members[m].service
      {
        assert ActiveIn(pkg, pkg.members[m].service) && Chosen(sels, pkg.members[m].service);
      }
    }
  }

  // bookPackage accepts exactly when the package is active, the selections match its active services one
  // to one, the customer has no running booking of it, and every selection is admitted.
  lemma BookPackageAcceptsIff(cat: Catalogue, db: Db, p: nat, ev: Event, sels: seq<Selection>,
                              discount: Option<Percent>, now: Time)
    requires Invariant(db) && ev.status == EvDraft
    ensures BookPackage(cat, db, p, ev, sels, discount, now).Success? <==>
            && p < |db.packages| && db.packages[p].status == PkgActive
            && ev.start != ev.end
            && (exists m :: 0 <= m < |db.packages[p].members| && db.packages[p].members[m].status == MemActive)
            && NoServiceTwice(sels)
            && (forall s: nat :: Chosen(sels, s) <==> ActiveIn(db.packages[p], s))
            && (forall o ::
                  0 <= o < |db.orders| && db.orders[o].package == p && db.orders[o].customer == ev.customer ==>
                    db.orders[o].status == OrdCompleted || db.orders[o].status == OrdRejected
                    || db.orders[o].status == OrdCancelled || db.orders[o].status == OrdExpired)
            && forall i :: 0 <= i < |sels| ==>
                 Suits(cat, sels[i], ev) && Validate(cat, sels[i], ev).Pass? && Admit(cat, db, ev, sels[i], false).Pass?
  {
    hide Validate, Admit, NewBooking, Invariant, CoversPackage, StackedTotal, SumTotals, Suits;
    ValidateFirstCovers(cat, sels, ev, |sels|);
    forall i | 0 <= i < |sels| ensures Validate(cat, sels[i], ev).Pass? <==> Suits(cat, sels[i], ev) {
      ValidIff(cat, sels[i], ev);
    }
    if p < |db.packages| {
      CoversIff(db.packages[p], sels);
    }
    var db1 := db.(events := db.events + [ev]);
    if forall i :: 0 <= i < |sels| ==> Validate(cat, sels[i], ev).Pass? {
      AtOnceAcceptsIff(cat, db1, |db.events|, sels, |sels|, Some(|db.orders|), now + PACKAGE_REQUEST_TIMEOUT, false);
      forall i | 0 <= i < |sels| ensures Admit(cat, db1, ev, sels[i], false) == Admit(cat, db, ev, sels[i], false) {
        NewEventIsNotCounted(cat, db, ev, sels[i], false);
      }
    }
  }
}
