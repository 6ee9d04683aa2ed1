// Concrete runs that show the failures described by the conditions elsewhere: each is a list of calls the
// system accepts.
module Witnesses {
  import opened Wrappers
  import opened Marketplace
  import opened Pricing
  import opened Admission
  import opened Lifecycle
  import opened Safety
  import opened Runs
  import opened Guarantees
  import opened PackageStarts
  import opened Progress
  import Quotes
  import Starting
  import Acceptance
  import Capacity
  import Composition
  import BlockedSlots
  import TimeHelper

  // ----- a small marketplace -----------------------------------------------------------------------

  const EVERY_DAY := {0, 1, 2, 3, 4, 5, 6}

  // A hall and a sound system that provider 0 offers as a package, and a caterer with one dish, five a day.
  const CAT := Catalogue(
    [Service(0, "HALL", true, true, true, 0, 10000), Service(0, "SOUND", true, true, true, 0, 5000),
     Service(0, "FOOD", true, true, false, 0, 0)],
    [Availability(0, EVERY_DAY, false, 1, 480, 1380), Availability(1, EVERY_DAY, false, 1, 480, 1380),
     Availability(2, EVERY_DAY, false, 1, 480, 1380)],
    [],
    [SubService(2, true, 5, 100)])

  const DAY: int := 100
  const PARTY := Event(7, DAY, 600, 720, 0, EvDraft)
  const HALL := Selection(0, None, [])
  const SOUND := Selection(1, None, [])

  // ----- a package booking --------------------------------------------------------------------------

  const CREATE := OnPackage(DoCreatePackage(0, [0, 1], 0.0, 0))
  const ACTIVATE := OnPackage(DoActivatePackage(0, 0))
  const BOOK := OnAdmission(DoBookPackage(7, 0, DAY, 600, 720, 0, [HALL, SOUND], None, 0))
  const ACCEPT := OnOrder(DoAcceptOrder(0, 0, 0))
  const REJECT := OnOrder(DoRejectOrder(0, 0))
  const PAY := OnOrder(DoPayOrder(7, 0, BankTransfer, false))
  const PAY_BY_CARD := OnOrder(DoPayOrder(7, 0, BankTransfer, true))
  const CONFIRM_CARD := OnOrder(DoConfirmOrderCard(7, 0, true))
  const CONFIRM_ELSEWHERE := OnPayment(DoConfirmPayment(7, OrderPayment(0), true, false))
  const CANCEL_EVENT := OnBooking(DoCancelEvent(7, 0))
  const SWEEP := OnSweep(DoSweepBookings(PACKAGE_REQUEST_TIMEOUT))

  const MEMBERS := [Member(0, 0, MemActive, 0), Member(1, 0, MemActive, 0)]

  function Child(s: nat, price: nat, status: BookingStatus): Booking {
    Booking(7, 0, s, None, 0, Some(0), [], price, None, status, Some(PACKAGE_REQUEST_TIMEOUT), None)
  }

  function Children(status: BookingStatus): seq<Booking> {
    [Child(0, 10000, status), Child(1, 5000, status)]
  }

  const REQUESTED := Order(0, 7, 0, OrdPending, 15000, Some(PACKAGE_REQUEST_TIMEOUT), None, None)

  const BOOKED := Db([PARTY], Children(Pending), [REQUESTED], [Package(0, 0.0, PkgActive, MEMBERS)], [])

  lemma SoundPair()
    ensures Composition.Dedup([0, 1]) == [0, 1]
    ensures Composition.KnownServices(CAT, [0, 1]) && Composition.ApprovedServices(CAT, [0, 1])
    ensures Composition.SoundSelection(CAT, [], 0, [0, 1], None)
    ensures Composition.NewMembers(CAT, 0, [0, 1], 0) == MEMBERS
  {
    assert [0, 1][..1] == [0] && [0][..0] == [];
    assert Composition.Dedup([0]) == [0];
    var ids: seq<nat> := [0, 1];
    assert Composition.IsOwnHall(CAT, 0, ids[0]);
    assert "HALL" != "SOUND" by {
      assert |"HALL"| != |"SOUND"|;
    }
    assert CAT.availabilities[0].service == 0 && CAT.availabilities[1].service == 1;
    assert WorksOn(CAT, 0, 0) && WorksOn(CAT, 1, 0);
    assert Composition.AllOpenOn(CAT, ids, 0);
    hide WorksOn, Composition.AllOpenOn;
  }

  lemma Created()
    ensures Apply(CAT, EMPTY, CREATE) == Db([], [], [], [Package(0, 0.0, PkgDraft, MEMBERS)], [])
  {
    SoundPair();
    hide Composition.Dedup, Composition.ApprovedServices, Composition.SoundSelection, Composition.NewMembers;
    hide Composition.KnownServices;
  }

  lemma Activated()
    ensures Apply(CAT, Db([], [], [], [Package(0, 0.0, PkgDraft, MEMBERS)], []), ACTIVATE)
            == Db([], [], [], [Package(0, 0.0, PkgActive, MEMBERS)], [])
  {
    assert MEMBERS[..1] == [MEMBERS[0]] && [MEMBERS[0]][..0] == [];
    assert Composition.CountActive([MEMBERS[0]]) == 1;
    assert Composition.CountActive(MEMBERS) == 2;
  }

  lemma WorksEveryDay(sel: Selection)
    requires sel.service < 3 && sel.slot.None?
    ensures WorksOn(CAT, sel.service, Weekday(DAY))
    ensures Matched(CAT, sel, Weekday(DAY)) == Some(sel.service)
  {
    assert CAT.availabilities[sel.service].service == sel.service && Weekday(DAY) in EVERY_DAY;
    assert FirstPool(CAT, 2, Weekday(DAY), 2) == Some(2);
    assert FirstPool(CAT, 2, Weekday(DAY), 1) == Some(2) && FirstPool(CAT, 1, Weekday(DAY), 1) == Some(1);
  }

  // A selection without items of a service that nobody booked is admitted.
  lemma FirstToBook(db: Db, sel: Selection)
    requires sel == HALL || sel == SOUND
    requires db.bookings == [] && db.blocks == []
    ensures Validate(CAT, sel, PARTY).Pass? && Admit(CAT, db, PARTY, sel, false).Pass?
  {
    WorksEveryDay(sel);
  }

  const BOTH := [HALL, SOUND]

  lemma BookedChildren(db: Db)
    requires db.events == [PARTY] && db.bookings == [] && db.blocks == []
    ensures ValidateFirst(CAT, BOTH, PARTY, 2).Pass?
    ensures forall i :: 0 <= i < 2 ==> Validate(CAT, BOTH[i], PARTY).Pass?
    ensures AdmitAtOnce(CAT, db, 0, BOTH, 2, Some(0), PACKAGE_REQUEST_TIMEOUT, false) == Success(Children(Pending))
  {
    FirstToBook(db, HALL);
    FirstToBook(db, SOUND);
    hide Validate, Admit;
    ValidateFirstCovers(CAT, BOTH, PARTY, 2);
    Acceptance.AtOnceAcceptsIff(CAT, db, 0, BOTH, 2, Some(0), PACKAGE_REQUEST_TIMEOUT, false);
    Capacity.AdmittedAtOnce(CAT, db, 0, BOTH, 2, Some(0), PACKAGE_REQUEST_TIMEOUT, false);
    var admitted := AdmitAtOnce(CAT, db, 0, BOTH, 2, Some(0), PACKAGE_REQUEST_TIMEOUT, false);
    assert BOTH[0] == HALL && BOTH[1] == SOUND;
    assert admitted.Success?;
    assert admitted.value == [admitted.value[0], admitted.value[1]];
    assert NewBooking(CAT, PARTY, 0, HALL, Some(0), PACKAGE_REQUEST_TIMEOUT) == Child(0, 10000, Pending);
    assert NewBooking(CAT, PARTY, 0, SOUND, Some(0), PACKAGE_REQUEST_TIMEOUT) == Child(1, 5000, Pending);
  }

  lemma BookedTotal()
    ensures StackedTotal(SumTotals(Children(Pending)), 0.0, None) == 15000
  {
    assert Children(Pending)[..1] == [Child(0, 10000, Pending)] && [Child(0, 10000, Pending)][..0] == [];
    assert SumTotals([Child(0, 10000, Pending)]) == 10000;
  }

  lemma BothCover()
    ensures CoversPackage(Package(0, 0.0, PkgActive, MEMBERS), BOTH) && DistinctServices(BOTH)
  {
    var pkg := Package(0, 0.0, PkgActive, MEMBERS);
    assert pkg.members[0].service == 0 && pkg.members[1].service == 1;
    assert BOTH[0].service == 0 && BOTH[1].service == 1;
    assert HasMember(pkg, 0, MemActive) && HasMember(pkg, 1, MemActive);
  }

  // A package that nobody booked yet, requested with selections that are all admitted.
  lemma FirstRequest(cat: Catalogue, db: Db, p: nat, m: nat, ev: Event, sels: seq<Selection>, children: seq<Booking>,
                     now: Time)
    requires p < |db.packages| && db.packages[p].status == PkgActive && ev.start != ev.end && ev.status == EvDraft
    requires m < |db.packages[p].members| && db.packages[p].members[m].status == MemActive && db.orders == []
    requires DistinctServices(sels) && CoversPackage(db.packages[p], sels)
    requires ValidateFirst(cat, sels, ev, |sels|).Pass? && forall i :: 0 <= i < |sels| ==>
               Validate(cat, sels[i], ev).Pass?
    requires AdmitAtOnce(cat, db.(events := db.events + [ev]), |db.events|, sels, |sels|, Some(0),
                         now + PACKAGE_REQUEST_TIMEOUT, false)
             == Success(children)
    ensures BookPackage(cat, db, p, ev, sels, None, now) ==
            Success(db.(events := db.events + [ev], bookings := db.bookings + children,
                        orders := db.orders + [Order(p, ev.customer, |db.events|, OrdPending,
                                                     StackedTotal(SumTotals(children), db.packages[p].discount, None),
                                                     Some(now + PACKAGE_REQUEST_TIMEOUT), None, None)]))
  {
    hide Validate, ValidateFirst, AdmitAtOnce, CoversPackage, DistinctServices, StackedTotal, SumTotals;
  }

  lemma PackageBooked(db: Db)
    requires db == Db([], [], [], [Package(0, 0.0, PkgActive, MEMBERS)], [])
    ensures BookPackage(CAT, db, 0, PARTY, BOTH, None, 0) == Success(BOOKED)
  {
    BookedChildren(db.(events := db.events + [PARTY]));
    BookedTotal();
    BothCover();
    hide BookPackage, Validate, ValidateFirst, AdmitAtOnce, CoversPackage, DistinctServices, StackedTotal, SumTotals,
         Children;
    FirstRequest(CAT, db, 0, 0, PARTY, BOTH, Children(Pending), 0);
    assert [] + [PARTY] == [PARTY] && [] + [REQUESTED] == [REQUESTED] && [] + Children(Pending) == Children(Pending);
  }

  lemma Booked()
    ensures Apply(CAT, Db([], [], [], [Package(0, 0.0, PkgActive, MEMBERS)], []), BOOK) == BOOKED
  {
    hide BookPackage;
    PackageBooked(Db([], [], [], [Package(0, 0.0, PkgActive, MEMBERS)], []));
  }

  // ----- runs ----------------------------------------------------------------------------------------

  const BOOKING := [CREATE, ACTIVATE, BOOK]

  lemma BookingReached()
    ensures Reached(CAT, BOOKING) == BOOKED
  {
    OneMore(CAT, [], CREATE);
    OneMore(CAT, [CREATE], ACTIVATE);
    OneMore(CAT, [CREATE, ACTIVATE], BOOK);
    assert [] + [CREATE] == [CREATE] && [CREATE] + [ACTIVATE] == [CREATE, ACTIVATE]
             && [CREATE, ACTIVATE] + [BOOK] == BOOKING;
    hide Apply;
    Created();
    Activated();
    Booked();
  }

  function Accepted(children: BookingStatus, payment: Payment): Db {
    Db([PARTY], Children(children), [REQUESTED.(status := OrdPendingPayment, payment := Some(payment),
                                                paymentExpires := Some(PACKAGE_PAYMENT_TIMEOUT))],
       [Package(0, 0.0, PkgActive, MEMBERS)], [])
  }

  const OPEN := Payment(Cash, PayPending, 15000, 15000, 0, false)
  const BY_CARD := Payment(BankTransfer, PayProcessing, 15000, 15000, 0, true)

  lemma AcceptedAfterBooking()
    ensures Reached(CAT, BOOKING + [ACCEPT]) == Accepted(Confirmed, OPEN)
  {
    BookingReached();
    OneMore(CAT, BOOKING, ACCEPT);
    assert Move(Children(Pending), OfOrder(0), {Pending}, Confirmed) == Children(Confirmed);
  }

  lemma CardAfterAcceptance()
    ensures Reached(CAT, BOOKING + [ACCEPT] + [PAY_BY_CARD]) == Accepted(Confirmed, BY_CARD)
  {
    AcceptedAfterBooking();
    OneMore(CAT, BOOKING + [ACCEPT], PAY_BY_CARD);
  }

  // A rejected package booking comes back to life: requested, accepted, card payment begun, rejected by the
  // owner, and then the card is confirmed. It is under way and paid, and all of its children are cancelled.
  lemma RejectedThenRevived()
    ensures var rejected := BOOKING + [ACCEPT] + [PAY_BY_CARD] + [REJECT];
            && |Reached(CAT, rejected).orders| == |Reached(CAT, rejected + [CONFIRM_CARD]).orders| == 1
            && |Reached(CAT, rejected + [CONFIRM_CARD]).bookings| == 2
            && Reached(CAT, rejected).orders[0].status == OrdRejected
            && AwaitsCard(Reached(CAT, rejected).orders[0].payment)
            && Reached(CAT, rejected + [CONFIRM_CARD]).orders[0].status == OrdInProgress
            && IsPaid(Reached(CAT, rejected + [CONFIRM_CARD]).orders[0].payment)
            && forall i :: 0 <= i < 2 ==> Reached(CAT, rejected + [CONFIRM_CARD]).bookings[i].status == Cancelled
  {
    var rejected := BOOKING + [ACCEPT] + [PAY_BY_CARD] + [REJECT];
    CardAfterAcceptance();
    OneMore(CAT, BOOKING + [ACCEPT] + [PAY_BY_CARD], REJECT);
    OneMore(CAT, rejected, CONFIRM_CARD);
  }

  const CALLED_OFF := BOOKED.(events := [PARTY.(status := EvCancelled)], bookings := Children(Cancelled))

  lemma EventCancelled()
    ensures CancelEvent(BOOKED, 7, 0) == Success(CALLED_OFF)
  {
    assert Children(Pending)[0].event == 0;
    var from := {Pending, QuoteSent, Confirmed, InProgress, BookingStatus.Completed};
    assert Move(Children(Pending), OfEvent(0), from, Cancelled) == Children(Cancelled);
    assert forall i :: 0 <= i < 2 ==> !BlocksCancellation(Children(Pending)[i]);
    assert CancelEvent(BOOKED, 7, 0).Success?;
    assert [PARTY][0 := PARTY.(status := EvCancelled)] == [PARTY.(status := EvCancelled)];
  }

  lemma CancelledAfterBooking()
    ensures Reached(CAT, BOOKING + [CANCEL_EVENT]) == CALLED_OFF
  {
    hide CancelEvent;
    BookingReached();
    OneMore(CAT, BOOKING, CANCEL_EVENT);
    EventCancelled();
  }

  lemma AcceptedAfterCancellation()
    ensures Reached(CAT, BOOKING + [CANCEL_EVENT] + [ACCEPT])
            == Accepted(Cancelled, OPEN).(events := [PARTY.(status := EvCancelled)])
  {
    CancelledAfterBooking();
    OneMore(CAT, BOOKING + [CANCEL_EVENT], ACCEPT);
    assert Move(Children(Cancelled), OfOrder(0), {Pending}, Confirmed) == Children(Cancelled);
  }

  // A cancelled event comes back: the customer cancels it while the package booking on it is still pending,
  // the owner accepts all the same, and the customer pays. The event is under way with nothing on it.
  lemma CancelledThenRevived()
    ensures var cancelled := BOOKING + [CANCEL_EVENT];
            var paid := cancelled + [ACCEPT] + [PAY];
            && |Reached(CAT, cancelled).events| == |Reached(CAT, paid).events| == 1
            && |Reached(CAT, paid).bookings| == 2
            && Reached(CAT, cancelled).events[0].status == EvCancelled
            && Reached(CAT, paid).events[0].status == EvInProgress
            && forall i :: 0 <= i < 2 ==> Reached(CAT, paid).bookings[i].status == Cancelled
  {
    CancelledAfterBooking();
    AcceptedAfterCancellation();
    OneMore(CAT, BOOKING + [CANCEL_EVENT] + [ACCEPT], PAY);
  }

  lemma SweptAfterAcceptance()
    ensures Reached(CAT, BOOKING + [ACCEPT] + [SWEEP]) == Accepted(Cancelled, OPEN)
  {
    AcceptedAfterBooking();
    OneMore(CAT, BOOKING + [ACCEPT], SWEEP);
    var bs := SweepBookings(Accepted(Confirmed, OPEN), PACKAGE_REQUEST_TIMEOUT, 2).bookings;
    assert bs == Children(Cancelled);
  }

  // An accepted package booking loses its children to the booking sweep 48 hours after the request, and
  // starts all the same when it is paid after that.
  lemma SweptThenPaid()
    ensures var swept := BOOKING + [ACCEPT] + [SWEEP];
            && |Reached(CAT, swept).orders| == |Reached(CAT, swept + [PAY]).orders| == 1
            && |Reached(CAT, swept + [PAY]).bookings| == 2
            && Reached(CAT, swept).orders[0].status == OrdPendingPayment
            && Reached(CAT, swept + [PAY]).orders[0].status == OrdInProgress
            && IsPaid(Reached(CAT, swept + [PAY]).orders[0].payment)
            && forall i :: 0 <= i < 2 ==> Reached(CAT, swept + [PAY]).bookings[i].status == Cancelled
  {
    SweptAfterAcceptance();
    OneMore(CAT, BOOKING + [ACCEPT] + [SWEEP], PAY);
  }

  // The generic card endpoint leaves a package booking paid and waiting.
  lemma PaidAtTheWrongEndpoint()
    ensures PaidButWaiting(Reached(CAT, BOOKING + [ACCEPT] + [PAY_BY_CARD] + [CONFIRM_ELSEWHERE]), 0)
  {
    CardAfterAcceptance();
    OneMore(CAT, BOOKING + [ACCEPT] + [PAY_BY_CARD], CONFIRM_ELSEWHERE);
  }

  // ----- a hall for a night and a day ----------------------------------------------------------------------

  // Open around the clock from 20:30, and hired from 20:30 to 20:15 the next day.
  const NIGHT := Catalogue([Service(0, "HALL", true, true, false, 0, 10000)],
                           [Availability(0, EVERY_DAY, false, 1, 1230, 1230)], [], [])
  const BALL := Event(7, DAY, 1230, 1215, 0, EvDraft)

  const HIRE := OnAdmission(DoCreateEvent(7, DAY, 1230, 1215, 0, [HALL], 0))
  const QUOTE := OnBooking(DoSendQuote(0, 0, [], Some(9000), 0))
  const CONFIRM := OnBooking(DoConfirmQuote(7, 0, 0))
  const PAY_CASH := OnPayment(DoCreatePayment(7, 0, Cash, None, IntentCreated, false))
  const TAKE_CASH := OnPayment(DoMarkCashPaid(0, 0, false))
  const SWEEP_UNPAID := OnSweep(DoSweepBookings(CONFIRMED_UNPAID_TIMEOUT))
  const TRANSFER := OnBooking(DoBulkDecision(7, 0, Decision([0], [], Some(BankTransfer)), 0))
  const SWEEP_EARLY := OnSweep(DoSweepEvents(DAY * 1440 + 1215))

  const ROW := Booking(7, 0, 0, None, 0, None, [], 10000, None, Pending, Some(PENDING_TIMEOUT), None)
  const QUOTED := ROW.(finalAmount := Some(9000), status := QuoteSent, deadline := Some(QUOTE_SENT_TIMEOUT))
  const CASH_DUE := Payment(Cash, PayPending, 9000, 9000, 0, false)
  const OWING := QUOTED.(status := Confirmed, deadline := Some(CONFIRMED_UNPAID_TIMEOUT), payment := Some(CASH_DUE))

  function Night(b: Booking, status: EventStatus): Db {
    Db([BALL.(status := status)], [b], [], [], [])
  }

  lemma HallIsFree(db: Db)
    requires db.bookings == [] && db.blocks == []
    ensures Validate(NIGHT, HALL, BALL).Pass? && Admit(NIGHT, db, BALL, HALL, true).Pass?
  {
    assert NIGHT.availabilities[0].service == 0 && Weekday(DAY) in EVERY_DAY;
    assert WorksOn(NIGHT, 0, Weekday(DAY)) && FirstPool(NIGHT, 0, Weekday(DAY), 0) == Some(0);
  }

  lemma HallHired()
    ensures CreateEvent(NIGHT, EMPTY, BALL, [HALL], 0) == Success(Night(ROW, EvDraft))
  {
    var opening := EMPTY.(events := EMPTY.events + [BALL]);
    assert opening.events == [BALL];
    HallIsFree(opening);
    assert NewBooking(NIGHT, BALL, 0, HALL, None, PENDING_TIMEOUT) == ROW;
    hide Validate, Admit, NewBooking;
    ValidateFirstCovers(NIGHT, [HALL], BALL, 1);
    assert AdmitInTurn(NIGHT, opening, 0, [HALL], 0, None, PENDING_TIMEOUT, true) == Success(opening);
    assert opening.bookings + [ROW] == [ROW];
  }

  lemma HiredAndQuoted()
    ensures Reached(NIGHT, [HIRE, QUOTE]) == Night(QUOTED, EvDraft)
  {
    OneMore(NIGHT, [], HIRE);
    OneMore(NIGHT, [HIRE], QUOTE);
    assert [] + [HIRE] == [HIRE] && [HIRE] + [QUOTE] == [HIRE, QUOTE];
    hide CreateEvent;
    HallHired();
  }

  lemma CashDue()
    ensures CreatePayment(Night(OWING.(payment := None), EvDraft), 7, 0, Cash, None, IntentCreated, false)
            == Success(Night(OWING, EvDraft))
  {
    PriceSplitsExactly(9000, None);
    var row := OWING.(payment := None);
    assert NewPayment(row, Cash, None, PayPending, false) == CASH_DUE;
    assert [row][0 := OWING] == [OWING];
  }

  const OWED := [HIRE, QUOTE] + [CONFIRM] + [PAY_CASH]

  lemma ConfirmedAndOwing()
    ensures Reached(NIGHT, OWED) == Night(OWING, EvDraft)
  {
    HiredAndQuoted();
    OneMore(NIGHT, [HIRE, QUOTE] + [CONFIRM], PAY_CASH);
    Starting.ConfirmedQuotesOnlyWait(NIGHT, [HIRE, QUOTE], 7, 0, 0) by {
      hide Reached;
      assert ConfirmQuote(Night(QUOTED, EvDraft), 7, 0, 0).Success?;
    }
    hide Reached, CreatePayment;
    CashDue();
    assert Reached(NIGHT, [HIRE, QUOTE] + [CONFIRM]) == Night(OWING.(payment := None), EvDraft);
  }

  // Hired, quoted, confirmed, paid in cash and the cash acknowledged, with markPaid as deployed: the booking
  // is still only confirmed, and its event a draft.
  lemma PaidAndWaiting()
    ensures Starting.AllDeployed(OWED + [TAKE_CASH])
    ensures var db := Reached(NIGHT, OWED + [TAKE_CASH]);
            && |db.bookings| == 1 && db.bookings[0].order.None? && ReadyToStart(db.bookings[0])
            && db.events == [BALL]
  {
    ConfirmedAndOwing();
    OneMore(NIGHT, OWED, TAKE_CASH);
  }

  // The cash comes too late: the sweeper has cancelled the booking, and the money is taken all the same.
  lemma DeadAndCharged()
    ensures var swept, charged := Reached(NIGHT, OWED + [SWEEP_UNPAID]),
              Reached(NIGHT, OWED + [SWEEP_UNPAID] + [TAKE_CASH]);
            && |swept.bookings| == |charged.bookings| == 1
            && swept.bookings[0].status == Cancelled && !IsPaid(swept.bookings[0].payment)
            && charged.bookings[0].status == Cancelled && IsPaid(charged.bookings[0].payment)
  {
    ConfirmedAndOwing();
    OneMore(NIGHT, OWED, SWEEP_UNPAID);
    OneMore(NIGHT, OWED + [SWEEP_UNPAID], TAKE_CASH);
  }

  const TRANSFERRED := QUOTED.(status := InProgress, deadline := None,
                               payment := Some(Payment(BankTransfer, Paid, 9000, 9000, 0, true)))

  lemma TransferStarts()
    ensures BulkDecision(Night(QUOTED, EvDraft), 7, 0, Decision([0], [], Some(BankTransfer)), 0)
            == Success(Night(TRANSFERRED, EvInProgress))
  {
    var db, d := Night(QUOTED, EvDraft), Decision([0], [], Some(BankTransfer));
    assert d.accepted + d.rejected == [0];
    assert CheckDecision(db, 7, 0, d).Pass?;
    var decided := db.(bookings := Decided(db.bookings, d, 0));
    assert decided.bookings == [TRANSFERRED.(status := Confirmed)];
    assert decided.bookings[0].event == 0 && !AllCalledOff(decided.bookings, 0);
    assert ProgressAll(decided, [0], 0, 0) == decided;
    assert decided.bookings[0 := TRANSFERRED] == [TRANSFERRED];
    assert decided.events[0 := BALL.(status := EvInProgress)] == [BALL.(status := EvInProgress)];
    assert ProgressBookingAndEvent(decided, 0, 0) == Night(TRANSFERRED, EvInProgress);
    assert ProgressAll(decided, [0], 1, 0) == Night(TRANSFERRED, EvInProgress);
  }

  // A ball from 20:30 to 20:15 is completed at 20:15 of its first day, a quarter of an hour before it begins.
  lemma CompletedBeforeItBegins()
    ensures var running := Reached(NIGHT, [HIRE, QUOTE] + [TRANSFER]);
            var swept := Reached(NIGHT, [HIRE, QUOTE] + [TRANSFER] + [SWEEP_EARLY]);
            && |running.events| == |swept.events| == |running.bookings| == |swept.bookings| == 1
            && running.events[0].status == EvInProgress && running.bookings[0].status == InProgress
            && swept.events[0].status == EvCompleted && swept.bookings[0].status == BookingStatus.Completed
            && DAY * 1440 + 1215 < DAY * 1440 + running.events[0].start
  {
    HiredAndQuoted();
    OneMore(NIGHT, [HIRE, QUOTE], TRANSFER);
    OneMore(NIGHT, [HIRE, QUOTE] + [TRANSFER], SWEEP_EARLY);
    hide BulkDecision, SweepEvents, Reached;
    TransferStarts();
    var db := Night(TRANSFERRED, EvInProgress);
    assert Due(db.events[0], DAY * 1440 + 1215);
    EventSweepIsExact(db, DAY * 1440 + 1215, 1);
  }

  // ----- an event with a repeated dish ------------------------------------------------------------------

  const DISHES := Selection(2, None, [ItemRequest(0, 3), ItemRequest(0, 3)])
  const DINNER := OnAdmission(DoCreateEvent(7, DAY, 600, 720, 0, [DISHES], 0))
  const SERVED := NewBooking(CAT, PARTY, 0, DISHES, None, PENDING_TIMEOUT)

  lemma DinnerAdmitted(db: Db)
    requires db.bookings == [] && db.blocks == []
    ensures Validate(CAT, DISHES, PARTY).Pass? && Admit(CAT, db, PARTY, DISHES, true).Pass?
  {
    WorksEveryDay(DISHES);
    assert "FOOD" != "HALL" && "FOOD" != "SOUND" by {
      assert "FOOD"[0] != "HALL"[0] && "FOOD"[0] != "SOUND"[0];
    }
  }

  lemma DinnerCreated()
    ensures CreateEvent(CAT, EMPTY, PARTY, [DISHES], 0) == Success(Db([PARTY], [SERVED], [], [], []))
  {
    var opening := EMPTY.(events := EMPTY.events + [PARTY]);
    assert opening.events == [PARTY];
    DinnerAdmitted(opening);
    hide Validate, Admit, NewBooking;
    ValidateFirstCovers(CAT, [DISHES], PARTY, 1);
    assert AdmitInTurn(CAT, opening, 0, [DISHES], 0, None, PENDING_TIMEOUT, true) == Success(opening);
    assert opening.bookings + [SERVED] == [SERVED];
  }

  // Five portions a day, three and three ordered in one selection: each line passes, and the caterer is
  // oversold in a state the system reaches.
  lemma RepeatedDishOversells()
    ensures !AllDistinctRequests([DINNER])
    ensures !Capacity.Fits(CAT, Reached(CAT, [DINNER]), SubServiceDay(0), DAY)
    ensures Load(CAT, Reached(CAT, [DINNER]).events, Reached(CAT, [DINNER]).bookings, SubServiceDay(0), DAY, false) == 6
  {
    OneMore(CAT, [], DINNER);
    assert [] + [DINNER] == [DINNER];
    hide CreateEvent;
    DinnerCreated();
    DinnerServed();
    assert !Capacity.DistinctItems(DISHES.items) by {
      assert DISHES.items[0].sub == DISHES.items[1].sub;
    }
    assert [DINNER][0] == DINNER && [DISHES][0] == DISHES;
  }

  lemma DinnerServed()
    ensures Load(CAT, [PARTY], [SERVED], SubServiceDay(0), DAY, false) == 6
  {
    var items := SERVED.items;
    assert [SERVED][..0] == [];
    assert items[..1] == [items[0]] && [items[0]][..0] == [];
    assert Quantity([items[0]], 0) == 3;
    assert Quantity(items, 0) == 6;
  }

  // ----- the same for every selection that repeats a sub-service ----------------------------------------

  // Whatever the catalogue, the bookings and the event: if the selection is admitted, all it orders of each
  // sub-service still fits that day.
  ghost predicate AdmissionCountsTotals(items: seq<ItemRequest>) {
    forall cat: Catalogue, db: Db, ev: Event, sel: Selection, completedToo: bool, i: int ::
      sel.items == items && Validate(cat, sel, ev).Pass? && Admit(cat, db, ev, sel, completedToo).Pass?
      && 0 <= i < |items| ==>
        Load(cat, db.events, db.bookings, SubServiceDay(items[i].sub), ev.day, completedToo)
        + Capacity.Requested(items, items[i].sub) <= DailyCapacity(cat, items[i].sub)
  }

  function Caterer(items: seq<ItemRequest>, x: nat): Catalogue {
    var most, bound := Capacity.MostOf(items, x, |items|), Capacity.Most(items, |items|);
    Catalogue([Service(0, "FOOD", true, true, false, 0, 0)], [Availability(0, EVERY_DAY, false, 1, 480, 1380)], [],
              seq(LargestSub(items) + 1, y => SubService(0, true, if y == x then most else bound, 100)))
  }

  function LargestSub(items: seq<ItemRequest>): (n: nat)
    ensures forall i :: 0 <= i < |items| ==> items[i].sub <= n
  {
    if items == [] then 0
    else
      var earlier := LargestSub(items[..|items| - 1]);
      if items[|items| - 1].sub > earlier then items[|items| - 1].sub else earlier
  }

  lemma CatererAdmits(items: seq<ItemRequest>, x: nat)
    requires items != []
    ensures var sel := Selection(0, None, items);
            Validate(Caterer(items, x), sel, PARTY).Pass? && Admit(Caterer(items, x), EMPTY, PARTY, sel, true).Pass?
  {
    var cat, sel := Caterer(items, x), Selection(0, None, items);
    assert cat.availabilities[0].service == 0 && Weekday(DAY) in EVERY_DAY;
    assert WorksOn(cat, 0, Weekday(DAY));
    assert FirstPool(cat, 0, Weekday(DAY), 0) == Some(0);
    assert "FOOD" != "HALL" && "FOOD" != "SOUND" by {
      assert "FOOD"[0] != "HALL"[0] && "FOOD"[0] != "SOUND"[0];
    }
    Capacity.MostIsReached(items, |items|);
    Capacity.MostOfBounds(items, x, |items|);
  }

  // Admission bounds the total of every sub-service exactly for selections that name none twice. For any
  // other selection there is a catalogue in which the very first request is admitted and oversells.
  lemma AdmissionCountsTotalsIff(items: seq<ItemRequest>)
    requires forall i :: 0 <= i < |items| ==> items[i].quantity >= 1
    ensures AdmissionCountsTotals(items) <==> Capacity.DistinctItems(items)
  {
    if Capacity.DistinctItems(items) {
      forall cat: Catalogue, db: Db, ev: Event, sel: Selection, completedToo: bool, i: int
        | sel.items == items && Validate(cat, sel, ev).Pass? && Admit(cat, db, ev, sel, completedToo).Pass?
          && 0 <= i < |items|
        ensures Load(cat, db.events, db.bookings, SubServiceDay(items[i].sub), ev.day, completedToo)
                + Capacity.Requested(items, items[i].sub) <= DailyCapacity(cat, items[i].sub)
      {
        Capacity.RequestedOnce(items, i, items[i].sub);
        AdmittedItem(cat, db, ev, sel, completedToo, i);
      }
    } else {
      var i, j :| 0 <= i < j < |items| && items[i].sub == items[j].sub;
      var x := items[i].sub;
      CatererAdmits(items, x);
      Capacity.TwiceExceedsMost(items, x, i, j);
      var sel := Selection(0, None, items);
      assert DailyCapacity(Caterer(items, x), x) == Capacity.MostOf(items, x, |items|);
      assert sel.items == items && Admit(Caterer(items, x), EMPTY, PARTY, sel, true).Pass?;
      assert Load(Caterer(items, x), [], [], SubServiceDay(x), DAY, true) == 0;
    }
  }

  lemma AdmittedItem(cat: Catalogue, db: Db, ev: Event, sel: Selection, completedToo: bool, i: nat)
    requires Validate(cat, sel, ev).Pass? && Admit(cat, db, ev, sel, completedToo).Pass? && i < |sel.items|
    ensures Load(cat, db.events, db.bookings, SubServiceDay(sel.items[i].sub), ev.day, completedToo)
            + sel.items[i].quantity <= DailyCapacity(cat, sel.items[i].sub)
  {
    hide Load, DailyCapacity;
  }
}
