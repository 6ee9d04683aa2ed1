// The capacity allocator: the checks that createEvent, addServiceToEvent and bookPackage run before
// they insert bookings (src/modules/event/event.service.ts, src/modules/packages/packages.service.ts).
module Admission {
  import opened Wrappers
  import opened Marketplace
  import opened Pricing
  import TimeHelper
  import BlockedSlots

  datatype ItemRequest = ItemRequest(sub: nat, quantity: nat)
  datatype Selection = Selection(service: nat, slot: Option<nat>, items: seq<ItemRequest>)

  // ----- what a booking occupies -----------------------------------------------------------

  // The three capacity layers (an availability is met through its slots, or as the service's slotless
  // pool) and the rule "one live booking per customer, service and day" are all bounded resources.
  datatype Resource =
    | AvailabilityDay(a: nat)
    | PoolDay(s: nat)
    | SlotDay(t: nat)
    | SubServiceDay(x: nat)
    | CustomerDay(customer: nat, s: nat)

  function Quantity(items: seq<Item>, x: nat): nat {
    if items == [] then 0
    else Quantity(items[..|items| - 1], x) + (if items[|items| - 1].sub == x then items[|items| - 1].quantity else 0)
  }

  predicate SlotOf(cat: Catalogue, t: nat, a: nat) {
    t < |cat.slots| && cat.slots[t].availability == a && a < |cat.availabilities|
  }

  function Use(cat: Catalogue, b: Booking, r: Resource): nat {
    match r
    case AvailabilityDay(a) =>
      if b.slot.Some? && SlotOf(cat, b.slot.value, a) && b.service == cat.availabilities[a].service then 1 else 0
    case PoolDay(s) => if b.service == s && b.slot.None? then 1 else 0
    case SlotDay(t) => if b.slot == Some(t) then 1 else 0
    case SubServiceDay(x) => Quantity(b.items, x)
    case CustomerDay(c, s) => if b.customer == c && b.service == s then 1 else 0
  }

  // createEvent and addServiceToEvent also count completed bookings, bookPackage does not.
  predicate Counted(s: BookingStatus, completedToo: bool) {
    Live(s) || (completedToo && s == Completed)
  }

  function Weight(cat: Catalogue, events: seq<Event>, b: Booking, r: Resource, day: int, completedToo: bool): nat {
    if Counted(b.status, completedToo) && b.event < |events| && events[b.event].day == day then Use(cat, b, r) else 0
  }

  // The database's count or sum query over one day.
  function Load(cat: Catalogue, events: seq<Event>, bs: seq<Booking>, r: Resource, day: int, completedToo: bool): nat {
    if bs == [] then 0
    else Load(cat, events, bs[..|bs| - 1], r, day, completedToo)
         + Weight(cat, events, bs[|bs| - 1], r, day, completedToo)
  }

  // The first availability without slots that works on the weekday, in table order.
  function FirstPool(cat: Catalogue, s: nat, weekday: nat, k: nat): Option<nat>
    decreases |cat.availabilities| - k
  {
    if k >= |cat.availabilities| then None
    else
      var a := cat.availabilities[k];
      if a.service == s && weekday in a.days && !a.hasSlots then Some(k) else FirstPool(cat, s, weekday, k + 1)
  }

  function CapacityOf(cat: Catalogue, r: Resource, day: int): int {
    match r
    case AvailabilityDay(a) => if a < |cat.availabilities| then AtLeastZero(cat.availabilities[a].capacity) else 0
    case PoolDay(s) =>
      var pool := FirstPool(cat, s, Weekday(day), 0);
      if pool.Some? && pool.value < |cat.availabilities| then AtLeastZero(cat.availabilities[pool.value].capacity)
           else 0
    case SlotDay(t) => if t < |cat.slots| then AtLeastZero(cat.slots[t].capacity) else 0
    case SubServiceDay(x) => AtLeastZero(DailyCapacity(cat, x))
    case CustomerDay(_, _) => 1
  }

  function AtLeastZero(n: int): nat {
    if n < 0 then 0 else n
  }

  function DailyCapacity(cat: Catalogue, x: nat): int {
    if x < |cat.subs| then cat.subs[x].dailyCapacity else -1
  }

  // ----- static validation -------------------------------------------------------------------

  // The availability a selection is booked against.
  function Matched(cat: Catalogue, sel: Selection, weekday: nat): Option<nat> {
    if sel.slot.None? then FirstPool(cat, sel.service, weekday, 0)
    else if sel.slot.value < |cat.slots| && cat.slots[sel.slot.value].availability < |cat.availabilities| then
      var a := cat.slots[sel.slot.value].availability;
      var row := cat.availabilities[a];
      if row.service == sel.service && weekday in row.days && row.hasSlots then Some(a) else None
    else None
  }

  predicate RequiresItems(service: Service) {
    service.kind != "HALL" && service.kind != "SOUND"
  }

  predicate KnownItem(cat: Catalogue, s: nat, x: nat) {
    x < |cat.subs| && cat.subs[x].service == s && cat.subs[x].bookable
  }

  function Validate(cat: Catalogue, sel: Selection, ev: Event): Outcome<Error> {
    var weekday := Weekday(ev.day);
    var matched := Matched(cat, sel, weekday);
    if sel.service >= |cat.services| then Fail(NotFound)
    else if !WorksOn(cat, sel.service, weekday) then Fail(DoesNotWork)
    else if matched.None? then Fail(if sel.slot.Some? then SlotMismatch else SlotRequired)
    else if matched.value >= |cat.availabilities| || !InsideHours(cat, sel, matched.value, ev) then Fail(OutsideHours)
    else
      var service := cat.services[sel.service];
      if ev.guests != 0 && service.maxCapacity != 0 && ev.guests > service.maxCapacity then Fail(TooManyGuests)
      else if RequiresItems(service) && |sel.items| == 0 then Fail(ItemsRequired)
      else if !RequiresItems(service) && |sel.items| > 0 then Fail(ItemsForbidden)
      else if exists i | 0 <= i < |sel.items| :: !KnownItem(cat, sel.service, sel.items[i].sub)
                then Fail(UnknownSubService)
      else Pass
  }

  predicate InsideHours(cat: Catalogue, sel: Selection, a: nat, ev: Event)
    requires a < |cat.availabilities|
  {
    if sel.slot.Some? then
      sel.slot.value < |cat.slots|
      && TimeHelper.WithinWindow(ev.start, ev.end, cat.slots[sel.slot.value].from, cat.slots[sel.slot.value].to,
                                 TimeHelper.DAY)
    else
      TimeHelper.WithinWindow(ev.start, ev.end, cat.availabilities[a].from, cat.availabilities[a].to, TimeHelper.DAY)
  }

  // The first refusal among the first k selections.
  function ValidateFirst(cat: Catalogue, sels: seq<Selection>, ev: Event, k: nat): Outcome<Error>
    requires k <= |sels|
  {
    if k == 0 then Pass
    else
      var earlier := ValidateFirst(cat, sels, ev, k - 1);
      if earlier.Fail? then earlier else Validate(cat, sels[k - 1], ev)
  }

  // ----- checks against current bookings ---------------------------------------------------------

  // Each requested item is compared with the stored load alone: earlier items of the same selection
  // are not seen.
  predicate ItemsPass(items: seq<ItemRequest>, capacity: nat -> int, load: nat -> nat) {
    forall i | 0 <= i < |items| :: load(items[i].sub) + items[i].quantity <= capacity(items[i].sub)
  }

  function Admit(cat: Catalogue, db: Db, ev: Event, sel: Selection, completedToo: bool): Outcome<Error>
    requires Validate(cat, sel, ev).Pass?
  {
    var a := Matched(cat, sel, Weekday(ev.day)).value;
    var load := (r: Resource) => Load(cat, db.events, db.bookings, r, ev.day, completedToo);
    var layer := if sel.slot.Some? then AvailabilityDay(a) else PoolDay(sel.service);
    if load(CustomerDay(ev.customer, sel.service)) > 0 then Fail(DuplicateBooking)
    else if BlockedSlots.IsBlocked(db.blocks, cat.services[sel.service].provider, sel.service, ev.day, ev.start, ev.end)
    then Fail(BlockedTime)
    else if load(layer) >= cat.availabilities[a].capacity then Fail(AvailabilityFull)
    else if sel.slot.Some? && load(SlotDay(sel.slot.value)) >= cat.slots[sel.slot.value].capacity then Fail(SlotFull)
    else if !ItemsPass(sel.items, (x: nat) => DailyCapacity(cat, x), (x: nat) => load(SubServiceDay(x)))
              then Fail(SubServiceFull)
    else Pass
  }

  // ----- the rows that are inserted --------------------------------------------------------------

  function NewItems(cat: Catalogue, items: seq<ItemRequest>): (r: seq<Item>)
    ensures |r| == |items|
    ensures forall i :: 0 <= i < |items| ==>
              r[i].id == i && r[i].sub == items[i].sub && r[i].quantity == items[i].quantity
    ensures forall i :: 0 <= i < |items| ==> r[i].finalUnit.None? && r[i].finalTotal.None?
  {
    seq(|items|, i requires 0 <= i < |items| =>
      Item(i, items[i].sub, items[i].quantity,
           if items[i].sub < |cat.subs| then cat.subs[items[i].sub].price else 0, None, None))
  }

  function ItemsTotal(items: seq<Item>): nat {
    if items == [] then 0
    else ItemsTotal(items[..|items| - 1]) + items[|items| - 1].unitPrice * items[|items| - 1].quantity
  }

  function NewBooking(cat: Catalogue, ev: Event, e: nat, sel: Selection, order: Option<nat>, deadline: Time): Booking
    requires sel.service < |cat.services|
  {
    var items := NewItems(cat, sel.items);
    var service := cat.services[sel.service];
    Booking(ev.customer, service.provider, sel.service, sel.slot, e, order, items,
            if |items| == 0 then service.price else ItemsTotal(items), None, Pending, Some(deadline), None)
  }

  function Inserted(db: Db, b: Booking): Db {
    db.(bookings := db.bookings + [b])
  }

  // createEvent's loop: check one selection, insert its booking, go on with the next.
  function AdmitInTurn(cat: Catalogue, db: Db, e: nat, sels: seq<Selection>, k: nat, order: Option<nat>,
                       deadline: Time, completedToo: bool): Result<Db, Error>
    requires k <= |sels| && e < |db.events|
    requires forall i :: 0 <= i < |sels| ==> Validate(cat, sels[i], db.events[e]).Pass?
    ensures var r := AdmitInTurn(cat, db, e, sels, k, order, deadline, completedToo);
            r.Success? ==> r.value.(bookings := db.bookings) == db
  {
    if k == 0 then Success(db)
    else
      var earlier := AdmitInTurn(cat, db, e, sels, k - 1, order, deadline, completedToo);
      if earlier.Failure? then earlier
      else
        var verdict := Admit(cat, earlier.value, db.events[e], sels[k - 1], completedToo);
        if verdict.Fail? then Failure(verdict.error)
        else Success(Inserted(earlier.value, NewBooking(cat, db.events[e], e, sels[k - 1], order, deadline)))
  }

  // bookPackage's loop: every selection is checked against the same state, the bookings come last.
  function AdmitAtOnce(cat: Catalogue, db: Db, e: nat, sels: seq<Selection>, k: nat, order: Option<nat>,
                       deadline: Time, completedToo: bool): Result<seq<Booking>, Error>
    requires k <= |sels| && e < |db.events|
    requires forall i :: 0 <= i < |sels| ==> Validate(cat, sels[i], db.events[e]).Pass?
  {
    if k == 0 then Success([])
    else
      var earlier := AdmitAtOnce(cat, db, e, sels, k - 1, order, deadline, completedToo);
      if earlier.Failure? then earlier
      else
        var verdict := Admit(cat, db, db.events[e], sels[k - 1], completedToo);
        if verdict.Fail? then Failure(verdict.error)
        else Success(earlier.value + [NewBooking(cat, db.events[e], e, sels[k - 1], order, deadline)])
  }

  // ----- the three operations ------------------------------------------------------------------

  // Only approved, completed services outside packages can be booked on their own.
  predicate BookableAlone(cat: Catalogue, s: nat) {
    s < |cat.services| && cat.services[s].approved && cat.services[s].complete && !cat.services[s].packaged
  }

  lemma {:induction false} ValidateFirstCovers(cat: Catalogue, sels: seq<Selection>, ev: Event, k: nat)
    requires k <= |sels|
    ensures ValidateFirst(cat, sels, ev, k).Pass? <==> forall i :: 0 <= i < k ==> Validate(cat, sels[i], ev).Pass?
  {
    if k > 0 {
      ValidateFirstCovers(cat, sels, ev, k - 1);
    }
  }

  function CreateEvent(cat: Catalogue, db: Db, ev: Event, sels: seq<Selection>, now: Time): Result<Db, Error>
    requires ev.status == EvDraft
  {
    if ev.start == ev.end then Failure(SameTimes)
    else if exists i | 0 <= i < |sels| :: !BookableAlone(cat, sels[i].service) then Failure(NotBookable)
    else
      var checked := ValidateFirst(cat, sels, ev, |sels|);
      if checked.Fail? then Failure(checked.error)
      else
        ValidateFirstCovers(cat, sels, ev, |sels|);
        AdmitInTurn(cat, db.(events := db.events + [ev]), |db.events|, sels, |sels|, None, now + PENDING_TIMEOUT, true)
  }

  function AddService(cat: Catalogue, db: Db, customer: nat, e: nat, sel: Selection, now: Time): Result<Db, Error> {
    if e >= |db.events| then Failure(NotFound)
    else
      var ev := db.events[e];
      if ev.customer != customer then Failure(Forbidden)
      else if ev.status != EvDraft && ev.status != EvInProgress then Failure(BadStatus)
      else if ev.day * TimeHelper.DAY - now <= MIN_LEAD then Failure(TooLate)
      else if !BookableAlone(cat, sel.service) then Failure(NotBookable)
      else
        var checked := Validate(cat, sel, ev);
        if checked.Fail? then Failure(checked.error)
        else
          var verdict := Admit(cat, db, ev, sel, true);
          if verdict.Fail? then Failure(verdict.error)
          else Success(Inserted(db, NewBooking(cat, ev, e, sel, None, now + PENDING_TIMEOUT)))
  }

  predicate HasMember(pkg: Package, s: nat, status: MemberStatus) {
    exists i | 0 <= i < |pkg.members| :: pkg.members[i].service == s && pkg.members[i].status == status
  }

  predicate DistinctServices(sels: seq<Selection>) {
    forall i, j | 0 <= i < j < |sels| :: sels[i].service != sels[j].service
  }

  // Exactly one selection per active member.
  predicate CoversPackage(pkg: Package, sels: seq<Selection>) {
    && (forall i | 0 <= i < |sels| :: HasMember(pkg, sels[i].service, MemActive))
    && (forall m | 0 <= m < |pkg.members| ::
          pkg.members[m].status == MemActive ==> exists i | 0 <= i < |sels| ::
            sels[i].service == pkg.members[m].service)
  }

  predicate Engaged(s: OrderStatus) {
    s == OrdPending || s == OrdConfirmed || s == OrdPendingPayment || s == OrdInProgress
  }

  function SumTotals(bs: seq<Booking>): nat {
    if bs == [] then 0 else SumTotals(bs[..|bs| - 1]) + bs[|bs| - 1].totalAmount
  }

  function BookPackage(cat: Catalogue, db: Db, p: nat, ev: Event, sels: seq<Selection>, discount: Option<Percent>,
                       now: Time): Result<Db, Error>
    requires ev.status == EvDraft
  {
    if p >= |db.packages| || db.packages[p].status != PkgActive then Failure(NotFound)
    else if ev.start == ev.end then Failure(SameTimes)
    else if forall m | 0 <= m < |db.packages[p].members| :: db.packages[p].members[m].status != MemActive
    then Failure(BadStatus)
    else if !DistinctServices(sels) || !CoversPackage(db.packages[p], sels) then Failure(SelectionMismatch)
    else if exists o | 0 <= o < |db.orders| ::
              db.orders[o].package == p && db.orders[o].customer == ev.customer && Engaged(db.orders[o].status)
    then Failure(ActiveOrderExists)
    else
      var checked := ValidateFirst(cat, sels, ev, |sels|);
      if checked.Fail? then Failure(checked.error)
      else
        ValidateFirstCovers(cat, sels, ev, |sels|);
        var withEvent := db.(events := db.events + [ev]);
        var deadline := now + PACKAGE_REQUEST_TIMEOUT;
        var admitted := AdmitAtOnce(cat, withEvent, |db.events|, sels, |sels|, Some(|db.orders|), deadline, false);
        if admitted.Failure? then Failure(admitted.error)
        else
          var total := StackedTotal(SumTotals(admitted.value), db.packages[p].discount, discount);
          Success(withEvent.(
            bookings := db.bookings + admitted.value,
            orders := db.orders + [Order(p, ev.customer, |db.events|, OrdPending, total, Some(deadline), None, None)]))
  }
}
