// The whole system as one state machine: every service call and every sweeper is an operation, a
// refused operation changes nothing, and a run is any sequence of operations from the empty database.
module Runs {
  import opened Wrappers
  import opened Marketplace
  import opened Pricing
  import opened Admission
  import opened Lifecycle
  import Quotes
  import Composition
  import BlockedSlots

  datatype AdmissionOp =
    | DoCreateEvent(customer: nat, day: int, start: int, end: int, guests: nat, sels: seq<Selection>, now: Time)
    | DoAddService(customer: nat, e: nat, sel: Selection, now: Time)
    | DoBookPackage(customer: nat, p: nat, day: int, start: int, end: int, guests: nat, sels: seq<Selection>,
                    discount: Option<Percent>, now: Time)

  datatype BookingOp =
    | DoSendQuote(provider: nat, b: nat, lines: seq<Quotes.Line>, amount: Option<nat>, now: Time)
    | DoRejectBooking(provider: nat, b: nat)
    | DoCompleteBooking(provider: nat, b: nat)
    | DoConfirmQuote(customer: nat, b: nat, now: Time)
    | DoRejectQuote(customer: nat, b: nat)
    | DoBulkDecision(customer: nat, e: nat, decision: Decision, now: Time)
    | DoCancelEvent(customer: nat, e: nat)

  datatype PaymentOp =
    | DoCreatePayment(customer: nat, b: nat, channel: Channel, discount: Option<Percent>, answer: Gateway,
                      corrected: bool)
    | DoConfirmPayment(user: nat, ref: PaymentRef, verified: bool, corrected: bool)
    | DoMarkCashPaid(provider: nat, b: nat, corrected: bool)
    | DoRefund(ref: PaymentRef)

  datatype OrderOp =
    | DoAcceptOrder(provider: nat, o: nat, now: Time)
    | DoRejectOrder(provider: nat, o: nat)
    | DoCancelOrder(customer: nat, o: nat)
    | DoPayOrder(customer: nat, o: nat, channel: Channel, intentCreated: bool)
    | DoConfirmOrderCash(provider: nat, o: nat)
    | DoConfirmOrderCard(customer: nat, o: nat, verified: bool)
    | DoCompleteOrder(provider: nat, o: nat)

  datatype SweepOp =
    | DoSweepBookings(now: Time)
    | DoSweepEvents(now: Time)
    | DoSweepOrders(kind: OrderSweep, now: Time)

  datatype PackageOp =
    | DoCreatePackage(provider: nat, services: seq<nat>, percent: Percent, now: Time)
    | DoUpdatePackage(provider: nat, p: nat, add: seq<nat>, remove: seq<nat>, newPercent: Option<Percent>, now: Time)
    | DoActivatePackage(provider: nat, p: nat)
    | DoAnswerJoin(provider: nat, p: nat, m: nat, accept: bool)
    | DoLeavePackage(provider: nat, p: nat, m: nat)
    | DoSweepJoins(now: Time)

  datatype BlockOp =
    | DoBlock(provider: nat, request: BlockedSlots.Request)
    | DoUnblock(provider: nat, group: nat, day: int, wholeGroup: bool)

  datatype Operation =
    | OnAdmission(admission: AdmissionOp)
    | OnBooking(booking: BookingOp)
    | OnPayment(payment: PaymentOp)
    | OnOrder(order: OrderOp)
    | OnSweep(sweep: SweepOp)
    | OnPackage(package: PackageOp)
    | OnBlocks(blocking: BlockOp)

  function ExecuteAdmission(cat: Catalogue, db: Db, op: AdmissionOp): Result<Db, Error> {
    match op
    case DoCreateEvent(c, day, s, t, g, sels, now) => CreateEvent(cat, db, Event(c, day, s, t, g, EvDraft), sels, now)
    case DoAddService(c, e, sel, now) => AddService(cat, db, c, e, sel, now)
    case DoBookPackage(c, p, day, s, t, g, sels, discount, now) =>
      BookPackage(cat, db, p, Event(c, day, s, t, g, EvDraft), sels, discount, now)
  }

  function ExecuteBooking(db: Db, op: BookingOp): Result<Db, Error> {
    match op
    case DoSendQuote(p, b, lines, amount, now) => SendQuote(db, p, b, lines, amount, now)
    case DoRejectBooking(p, b) => RejectBooking(db, p, b)
    case DoCompleteBooking(p, b) => CompleteBooking(db, p, b)
    case DoConfirmQuote(c, b, now) => ConfirmQuote(db, c, b, now)
    case DoRejectQuote(c, b) => RejectQuote(db, c, b)
    case DoBulkDecision(c, e, d, now) => BulkDecision(db, c, e, d, now)
    case DoCancelEvent(c, e) => CancelEvent(db, c, e)
  }

  function ExecutePayment(db: Db, op: PaymentOp): Result<Db, Error> {
    match op
    case DoCreatePayment(c, b, ch, d, a, corrected) => CreatePayment(db, c, b, ch, d, a, corrected)
    case DoConfirmPayment(u, ref, verified, corrected) => ConfirmPayment(db, u, ref, verified, corrected)
    case DoMarkCashPaid(p, b, corrected) => MarkCashPaid(db, p, b, corrected)
    case DoRefund(ref) => RefundPayment(db, ref)
  }

  // What the caller hears. Confirming a package booking's card payment at the generic endpoint fails for
  // want of a booking, after the money was recorded.
  function PaymentReply(db: Db, op: PaymentOp): Outcome<Error> {
    var r := ExecutePayment(db, op);
    if r.Success? && op.DoConfirmPayment? && op.ref.OrderPayment? && op.verified then Fail(NotFound) else Report(r)
  }

  function ExecuteOrder(db: Db, op: OrderOp): Result<Db, Error> {
    match op
    case DoAcceptOrder(p, o, now) => AcceptOrder(db, p, o, now)
    case DoRejectOrder(p, o) => RejectOrder(db, p, o)
    case DoCancelOrder(c, o) => CancelOrder(db, c, o)
    case DoPayOrder(c, o, ch, intent) => PayOrder(db, c, o, ch, intent)
    case DoConfirmOrderCash(p, o) => ConfirmOrderCash(db, p, o)
    case DoConfirmOrderCard(c, o, verified) => ConfirmOrderCard(db, c, o, verified)
    case DoCompleteOrder(p, o) => CompleteOrder(db, p, o)
  }

  function ExecuteSweep(db: Db, op: SweepOp): Result<Db, Error> {
    match op
    case DoSweepBookings(now) => Success(SweepBookings(db, now, |db.bookings|))
    case DoSweepEvents(now) => Success(SweepEvents(db, now, |db.events|))
    case DoSweepOrders(kind, now) => Success(SweepOrders(db, kind, now, |db.orders|))
  }

  // cancelOwnedPackage counts the package bookings that still run.
  predicate HasEngagedOrders(db: Db, p: nat) {
    exists o | 0 <= o < |db.orders| :: db.orders[o].package == p && Engaged(db.orders[o].status)
  }

  predicate MemberEngaged(db: Db, p: nat, m: nat) {
    && p < |db.packages| && m < |db.packages[p].members|
    && exists b | 0 <= b < |db.bookings| ::
         db.bookings[b].service == db.packages[p].members[m].service && db.bookings[b].order.Some?
         && (db.bookings[b].status == Confirmed || db.bookings[b].status == InProgress)
  }

  function EditedPackages(cat: Catalogue, db: Db, op: PackageOp): Result<seq<Package>, Error> {
    match op
    case DoCreatePackage(v, ids, pct, now) => Composition.CreatePackage(cat, db.packages, v, ids, pct, now)
    case DoUpdatePackage(v, p, add, remove, pct, now) =>
           Composition.UpdatePackage(cat, db.packages, v, p, add, remove, pct, now)
    case DoActivatePackage(v, p) => Composition.ActivatePackage(db.packages, v, p)
    case DoAnswerJoin(v, p, m, accept) => Composition.AnswerJoin(db.packages, v, p, m, accept)
    case DoLeavePackage(v, p, m) =>
      Composition.LeavePackage(db.packages, v, p, m, HasEngagedOrders(db, p), MemberEngaged(db, p, m))
    case DoSweepJoins(now) => Success(Composition.SweepJoins(db.packages, now, |db.packages|))
  }

  function ExecutePackage(cat: Catalogue, db: Db, op: PackageOp): Result<Db, Error> {
    var r := EditedPackages(cat, db, op);
    if r.Success? then Success(db.(packages := r.value)) else Failure(r.error)
  }

  // Only a provider's own service can be blocked on its own.
  predicate OwnsService(cat: Catalogue, provider: nat, service: Option<nat>) {
    service.Some? && service.value < |cat.services| && cat.services[service.value].provider == provider
  }

  function EditedBlocks(cat: Catalogue, blocks: seq<BlockedSlots.Block>, op: BlockOp)
    : Result<seq<BlockedSlots.Block>, BlockedSlots.Refusal>
  {
    match op
    case DoBlock(p, request) => BlockedSlots.Created(blocks, p, request, OwnsService(cat, p, request.service))
    case DoUnblock(p, group, day, wholeGroup) => BlockedSlots.Removed(blocks, p, group, day, wholeGroup)
  }

  function ExecuteBlocks(cat: Catalogue, db: Db, op: BlockOp): Result<Db, Error> {
    var r := EditedBlocks(cat, db.blocks, op);
    if r.Success? then Success(db.(blocks := r.value))
    else if r.error.NotOwner? || r.error.NoSuchBlock? then Failure(NotFound)
    else Failure(BadBlock)
  }

  function Execute(cat: Catalogue, db: Db, op: Operation): Result<Db, Error> {
    match op
    case OnAdmission(a) => ExecuteAdmission(cat, db, a)
    case OnBooking(b) => ExecuteBooking(db, b)
    case OnPayment(p) => ExecutePayment(db, p)
    case OnOrder(o) => ExecuteOrder(db, o)
    case OnSweep(s) => ExecuteSweep(db, s)
    case OnPackage(p) => ExecutePackage(cat, db, p)
    case OnBlocks(b) => ExecuteBlocks(cat, db, b)
  }

  function Apply(cat: Catalogue, db: Db, op: Operation): Db {
    After(Execute(cat, db, op), db)
  }

  function Run(cat: Catalogue, db: Db, ops: seq<Operation>): Db {
    if ops == [] then db else Apply(cat, Run(cat, db, ops[..|ops| - 1]), ops[|ops| - 1])
  }
}
