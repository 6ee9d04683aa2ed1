// The rows of the booking marketplace (prisma/schema.prisma) that the modelled services read and
// write. A table is a sequence and a row's id is its position: rows are appended and updated in place,
// and only package members and blocked slots, which nothing refers to by position over time, are ever
// removed. A payment is unique per booking and per package booking, so it is kept on the row it pays for.
module Marketplace {
  import opened Wrappers
  import opened Pricing
  import BlockedSlots

  const PENDING_TIMEOUT: Time := 24 * 60
  const QUOTE_SENT_TIMEOUT: Time := 24 * 60
  const CONFIRMED_UNPAID_TIMEOUT: Time := 48 * 60
  const PACKAGE_REQUEST_TIMEOUT: Time := 48 * 60
  const PACKAGE_PAYMENT_TIMEOUT: Time := 24 * 60
  const JOIN_REQUEST_TIMEOUT: Time := 24 * 60
  const MIN_LEAD: Time := 4 * 24 * 60

  // ----- catalogue, fixed for a run -------------------------------------------------------

  datatype Service = Service(provider: nat, kind: string, approved: bool, complete: bool, packaged: bool,
                             maxCapacity: nat, price: nat)
  datatype Availability = Availability(service: nat, days: set<nat>, hasSlots: bool, capacity: int, from: int, to: int)
  datatype Slot = Slot(availability: nat, from: int, to: int, capacity: int)
  datatype SubService = SubService(service: nat, bookable: bool, dailyCapacity: int, price: nat)

  datatype Catalogue = Catalogue(
    services: seq<Service>, availabilities: seq<Availability>, slots: seq<Slot>, subs: seq<SubService>)

  // Sunday is 0; day 0 was a Thursday.
  function Weekday(day: int): nat {
    (day + 4) % 7
  }

  predicate WorksOn(cat: Catalogue, s: nat, weekday: nat) {
    exists a | 0 <= a < |cat.availabilities| ::
      cat.availabilities[a].service == s && weekday in cat.availabilities[a].days
  }

  // ----- events, bookings, payments -------------------------------------------------------

  datatype EventStatus = EvDraft | EvInProgress | EvCompleted | EvCancelled
  datatype Event = Event(customer: nat, day: int, start: int, end: int, guests: nat, status: EventStatus)

  datatype BookingStatus = Pending | QuoteSent | Confirmed | Rejected | InProgress | Completed | Cancelled

  datatype Item = Item(id: nat, sub: nat, quantity: nat, unitPrice: nat, finalUnit: Option<nat>,
                       finalTotal: Option<nat>)

  datatype Channel = Cash | BankTransfer
  datatype PaymentStatus = PayPending | PayProcessing | Paid | PayFailed | Refunded | PayCancelled

  // `intent` says whether a gateway reference is stored.
  datatype Payment = Payment(channel: Channel, status: PaymentStatus, amount: int, subtotal: int, discount: int,
                             intent: bool)

  datatype Booking = Booking(
    customer: nat, provider: nat, service: nat, slot: Option<nat>, event: nat, order: Option<nat>,
    items: seq<Item>, totalAmount: nat, finalAmount: Option<nat>,
    status: BookingStatus, deadline: Option<Time>, payment: Option<Payment>)

  // ----- packages and package bookings -----------------------------------------------------

  datatype MemberStatus = MemPending | MemActive | MemRejected
  datatype Member = Member(service: nat, provider: nat, status: MemberStatus, createdAt: Time)
  datatype PackageStatus = PkgDraft | PkgActive | PkgCancelled
  datatype Package = Package(owner: nat, discount: Percent, status: PackageStatus, members: seq<Member>)

  datatype OrderStatus =
    | OrdPending | OrdConfirmed | OrdPendingPayment | OrdInProgress
    | OrdCompleted | OrdRejected | OrdCancelled | OrdExpired

  // A PackageEventBooking.
  datatype Order = Order(
    package: nat, customer: nat, event: nat, status: OrderStatus, total: int,
    pendingExpires: Option<Time>, paymentExpires: Option<Time>, payment: Option<Payment>)

  datatype Db = Db(
    events: seq<Event>, bookings: seq<Booking>, orders: seq<Order>, packages: seq<Package>,
    blocks: seq<BlockedSlots.Block>)

  const EMPTY := Db([], [], [], [], [])

  // ----- status vocabulary ----------------------------------------------------------------

  predicate Terminal(s: BookingStatus) {
    s == Completed || s == Cancelled || s == Rejected
  }

  // Statuses that occupy capacity under both admission paths.
  predicate Live(s: BookingStatus) {
    s == Pending || s == QuoteSent || s == Confirmed || s == InProgress
  }

  function Rank(s: BookingStatus): nat {
    match s
    case Pending => 0
    case QuoteSent => 1
    case Confirmed => 2
    case InProgress => 3
    case _ => 4
  }

  predicate Advances(before: BookingStatus, after: BookingStatus) {
    before == after || Rank(before) < Rank(after)
  }

  predicate IsPaid(p: Option<Payment>) {
    p.Some? && p.value.status == Paid
  }

  // The money arrived, whether or not it was handed back later.
  predicate Cleared(p: Option<Payment>) {
    p.Some? && (p.value.status == Paid || p.value.status == Refunded)
  }

  // A card payment is under way: the gateway's reference is stored and its answer outstanding.
  predicate AwaitsCard(p: Option<Payment>) {
    p.Some? && p.value.status == PayProcessing && p.value.intent
  }

  // What is asked for a booking: the quoted amount, or the catalogue price.
  function Owed(b: Booking): nat {
    if b.finalAmount.Some? then b.finalAmount.value else b.totalAmount
  }

  predicate Started(o: Order) {
    (o.status == OrdInProgress || o.status == OrdCompleted) && Cleared(o.payment)
  }

  // Why a call was refused.
  datatype Error =
    | NotFound | Forbidden | BadStatus | SameTimes | NotBookable
    | DoesNotWork | SlotMismatch | SlotRequired | OutsideHours | TooManyGuests
    | ItemsRequired | ItemsForbidden | UnknownSubService
    | DuplicateBooking | BlockedTime | AvailabilityFull | SlotFull | SubServiceFull
    | TooLate | BadQuote | SelectionMismatch | ActiveOrderExists | BadPayment | NoBookings | Blocking
    | PackageRule | ActiveEngagement | BadBlock
}
