# Verification of the booking marketplace

A Dafny model of the part of the marketplace where state is at stake: admission of bookings against
capacity, the linked life cycles of bookings, events, payments and package bookings, the composition of
packages, the discount calendar, and the arithmetic underneath (clock windows, cent rounding, quote
totals, review averages, revenue months). Verify it with

    dafny verify dfyconfig.toml

## How it is organised

The tables of the database are one value, `Marketplace.Db`. Every service call and every sweeper is one
operation (`Runs.Operation`) that maps a state to a new state or a refusal; a refused operation changes
nothing. A run is any sequence of operations from the empty database (`Runs.Run`), in any order, by any
caller, at any clock reading, with any answer of the payment gateway. `Guarantees.dfy` holds what is true
of every state a run reaches and of every stretch of a run; the other files build up to it.

| file | content |
|---|---|
| `Wrappers.dfy`, `Sequences.dfy`, `Marketplace.dfy` | result types, lists of ids; rows, statuses, timeouts, refusals |
| `TimeHelper.dfy`, `Pricing.dfy`, `BlockedSlots.dfy`, `Quotes.dfy` | clock windows, rounding, blocks of a provider's calendar, quotes |
| `Admission.dfy`, `Capacity.dfy`, `Acceptance.dfy` | the capacity allocator, why it never oversells, and when exactly it accepts |
| `Lifecycle.dfy`, `Progress.dfy` | all status changes; the sweeps in closed form |
| `Composition.dfy` | package authoring and membership |
| `Runs.dfy`, `Safety.dfy`, `AdmissionSafety.dfy` | the state machine, its inductive invariant, preservation operation by operation |
| `Guarantees.dfy`, `Deadlines.dfy` | theorems over all runs |
| `Causes.dfy` | what makes each row change, read off the rows before the call, without the operations |
| `Transitions.dfy`, `Columns.dfy`, `OrderRows.dfy`, `EventRows.dfy` | the operations change rows exactly by those causes |
| `Prices.dfy` | what the admissions insert, at which prices |
| `Membership.dfy` | packages as sets of services, and the consent of partners |
| `Starting.dfy`, `PackageStarts.dfy` | what starts bookings and package bookings as deployed, over runs |
| `Funding.dfy` | what pays for package bookings, what their totals are made of, what is charged twice |
| `Witnesses.dfy` | concrete runs into the states that the code mishandles |
| `Store.dfy` | the services as methods that update tables in place, proved against the operations |
| `Discounts.dfy`, `Reviews.dfy`, `Reports.dfy` | discount table, review aggregates, monthly revenue |

`Store.Database` is the imperative side: its fields are the tables, its methods update rows and loop as the
services do, and each `ensures` says that report, new state and history are those of the operation; a refused
call leaves every table as it was. Every
theorem about runs therefore holds of any object of that class (`Store.ValidIsSound`).

The invariant (`Safety.Invariant`) says of every booking that its event and package booking exist and agree
with it, that it is not stuck, not started unpaid, not live on a cancelled event, in step with its package
booking, and that its money adds up; and of every package booking that its payment, deadlines and package
fit its status. The evolution relation (`Safety.Evolves`) says what a step may do to old rows: identity
columns are fixed, booking statuses only advance, cleared money stays cleared, paid bookings outside
packages are not called off, closed package bookings do not change, finished and quiet ones are not revived.

`Causes.dfy` is a second, independent account of the life cycles: for each new status of a booking, package
booking or event, the calls and sweeps that lead to it with their guards, deadlines and amounts written out in
columns and numbers. The theorems of `Transitions`, `Columns`, `OrderRows` and `EventRows` say that, from every
reachable state, the operations and that account agree in both directions.

## What turned out false, and when it holds

- The sub-service check compares each item with the stored load only. It is sound exactly for selections
  that list no sub-service twice (`Witnesses.AdmissionCountsTotalsIff`, `Capacity.ItemCheckIsSoundIffDistinct`).
- Rejected and completed package bookings can be revived, because card confirmation does not look at the
  status; they are final exactly when no card payment is under way
  (`Guarantees.FinishedPackageBookingsStayIff`). Cancelled and expired ones are always final.
- A cancelled event can come back through a package booking on it; the exact condition is
  `Guarantees.CancelledEventsStayIff`.
- `markPaid` passes the event's id where `progressBookingAndEvent` expects a booking id
  (src/modules/payments/payments.service.ts:275), so a paid booking outside packages rests until its refund is
  asked for, and only a bulk decision by transfer starts one (`Starting.OnlyTransfersStart`,
  `Starting.PaidBookingsRestUntilRefunded`, `Witnesses.PaidAndWaiting`). The flag `corrected` of the payment
  operations selects the deployed or the corrected call; these three are about the deployed one, all others hold
  for both.
- confirmQuote asks whether its event can progress, and it never can (`Starting.ConfirmedQuotesOnlyWait`).
- Accepting a package booking leaves its children the deadline of the request, so the booking sweep can take
  them while the package booking can still be paid. Which children are left when it is paid is
  `PackageStarts.PaidPackageBookingStartsWholeIff`.
- The generic card endpoint records a package booking's money and starts nothing; what can still happen to
  the package booking then is `PackageStarts.PaidButWaitingMovesIff`.
- A booking that is over can still be charged, exactly when `Guarantees.DeadBookingsAreNeverChargedIff` says
  (`Witnesses.DeadAndCharged`). A child can be charged on its own and through its package booking, exactly when
  `Funding.ChildIsChargedTwiceIff` says.
- Blocked slots are looked up by the event's own day, so an event past midnight is admitted against a block
  of the next day (`BlockedSlots.HitIsExactIff`, `Acceptance.AdmittedClashesIff`).
- The discount lookup by target takes an arbitrary active row: sound (`Discounts.ResolutionIsSound`), but it
  can miss a valid discount (`Discounts.ValidDiscountIsHidden`) and refuse a valid code
  (`Discounts.ValidCodeIsRefused`). In every reachable table it gives the valid discount without a code, and
  honours a valid code, exactly when that discount is the target's only active one
  (`Discounts.AutoDiscountIsGivenIff`, `Discounts.CodeIsHonouredIff`).
- The sweepers decide whether an event ends the next day by comparing hours only. They complete an event, or a
  package booking, before its end exactly when it starts and ends in the same clock hour with the end not after
  the start (`Progress.EventCompletedEarlyIff`, `Progress.OrderCompletedEarlyIff`); an event from 20:30 to 20:15
  is completed before it begins (`Witnesses.CompletedBeforeItBegins`).
- `Witnesses.dfy` runs the system, call by call, into the states of the sub-service check, the revived package
  booking and event, the swept children, the generic card endpoint, `markPaid`, the late cash and the early
  completion. The inputs for blocked slots and discounts are in `BlockedSlots.dfy` and `Discounts.dfy`.
- A window whose start equals its end is read as 24 hours from its start, so an event that runs across that
  minute is refused although the window covers it (`TimeHelper.WindowTestIsExact`).
- Comments in the source promise one payment per booking and no payment of a package booking
  (src/modules/payments/payments.service.ts:13-20) and describe joint packages as out of scope
  (src/modules/packages/packages.service.ts:239-245). The code has both; the model follows the code.

## Model

| member | source | states |
|---|---|---|
| Guarantees.CapacityIsNeverOversold | src/modules/event/event.service.ts:279-342 | after any run of all operations, on every day: each slotted availability, each slot, each service's slotless pool and each (customer, service) pair carries at most its capacity in live bookings; each sub-service at most its daily capacity when no selection of the run repeats a sub-service |
| Guarantees.LayersAreNeverOverbooked | src/modules/event/event.service.ts:279-342 | the layers in plain terms (a negative capacity aside): on no day more live bookings in a slot, in an availability through its slots, or in a service's first slotless availability than its capacity, counted as sets of rows; and, if no selection of the run repeats a sub-service, no more booked quantity of one than its daily capacity |
| Capacity.LoadsAreCounts | src/modules/event/event.service.ts:279-342 | the counting queries of the three booking layers return the number of rows of the layer on that day, and the sum query the quantity booked |
| Guarantees.NoDoubleBooking | src/modules/event/event.service.ts:242-255 | two different live bookings never share customer, service and day, over both booking paths and all later steps |
| Capacity.AtOnceRefinesInTurn | src/modules/packages/packages.service.ts:1481-1613 | with distinct services, checking every selection against the old state and inserting at the end accepts, refuses (with the same reason) and inserts exactly what check-insert-check-insert does |
| Capacity.InTurnRefusesRepeatedServices | src/modules/event/event.service.ts:237-389 | a request accepted by the check-insert loop names no service twice, although createEvent never tests for that |
| Capacity.ItemCheckIsSoundIffDistinct | src/modules/event/event.service.ts:321-342 | the item-by-item quantity check bounds the requested total for every capacity and prior load if and only if the selection lists no sub-service twice |
| Acceptance.CreateEventAcceptsIff | src/modules/event/event.service.ts:41-394 | createEvent succeeds exactly when the times differ, no service is named twice, and every selection is for an approved, complete service outside packages, suits the event and is admitted in the state before the call |
| Acceptance.AddServiceAcceptsIff | src/modules/event/event.service.ts:618-795 | addServiceToEvent succeeds exactly when the event is the caller's, in draft or in progress and more than 4 * 1440 minutes ahead, the service is approved, complete and not packaged, and the selection suits the event and is free (no booking of the customer, no block of the day, room in every layer, completed bookings counted); then exactly one row is appended |
| Acceptance.ValidIff | src/modules/event/event.service.ts:101-207 | static validation passes exactly when the slot's availability, or the service's first slotless one open that weekday, has the event within its hours, the guests fit, and items are there exactly for kinds other than HALL and SOUND and all sold by the service |
| Acceptance.BookPackageAcceptsIff | src/modules/packages/packages.service.ts:1269-1636 | bookPackage succeeds exactly when the package is active with an active service, the services selected, none twice, are its active ones, every package booking the customer has of it is over, and every selection suits the event and is admitted in the state before the call |
| Acceptance.ValidSelectionsFit | src/modules/event/event.service.ts:101-207 | a selection that passes validation is for an availability (or slot) of that service that works on the weekday, its window covers every minute of the event, the guests fit, and items are present exactly for kinds other than HALL and SOUND and belong to the service |
| Prices.PackagePriceIsFair | src/modules/packages/packages.service.ts:1583-1646 | the stored total of a new package booking lies between 0 and the sum, over the request, of catalogue price times quantity, and within one cent of the exact doubly discounted sum |
| Prices.BookingsAreCataloguePriced | src/modules/packages/packages.service.ts:1583-1599 | in every reachable state every item carries its sub-service's catalogue price, and every booking's total is price times quantity over its items, or the service's price without items |
| Prices.QuotingTheCatalogue | src/modules/bookings/provider-bookings.service.ts:177-195 | in every reachable state a provider's quote at catalogue prices comes to exactly the amount the booking was made at |
| Prices.CreateEventAdds | src/modules/event/event.service.ts:344-394 | createEvent appends the event and, for each selection in order, a row of its customer, provider, service and slot, pending for 24 hours, with the items asked for at catalogue prices and their cost as total, and changes nothing else |
| Prices.AddServiceAdds | src/modules/event/event.service.ts:760-795 | addServiceToEvent appends one such row and changes nothing else |
| Prices.BookPackageAdds | src/modules/packages/packages.service.ts:1583-1646 | bookPackage appends the event, a package booking pending for 48 hours with a fair total, and one such row for each selection, belonging to it and pending for 48 hours |
| Guarantees.NothingStartsUnpaid | src/modules/bookings/bookings.service.ts:314-342 | in every reachable state a booking in progress or completed has its own payment paid or refunded, or belongs to a package booking in progress or completed whose payment is |
| Guarantees.NoBookingIsStuck | src/modules/bookings/booking-cleanup.service.ts:39-67 | in every reachable state a pending or quoted booking has a deadline, a confirmed one a deadline or cleared money |
| Guarantees.SweepLeavesOnlyFuture | src/modules/bookings/booking-cleanup.service.ts:39-67 | after the booking sweep at t every pending, quoted or confirmed-without-money booking has its deadline after t |
| Guarantees.WaitingSurvivesSweepIff | src/modules/bookings/booking-cleanup.service.ts:39-67 | in every reachable state a pending, quoted or confirmed booking survives a sweep at t, with its whole row, if and only if its deadline is after t (or none runs, its money having arrived) or it is confirmed and paid; otherwise its status alone becomes CANCELLED |
| Guarantees.PackageSweepsLeaveOnlyFuture | src/modules/packages/packages-cron.service.ts:132-249 | after both package sweeps at t every pending or unpaid accepted package booking has its deadline at t or later |
| Deadlines.NobodyWaitsForever | src/modules/bookings/booking-cleanup.service.ts:39-67 | 48 hours after the last customer or provider action one booking sweep leaves nothing pending, quoted or confirmed without money |
| Deadlines.NoPackageBookingWaitsForever | src/modules/packages/packages-cron.service.ts:132-249 | more than 48 hours after the last such action the two package sweeps leave no package booking pending or accepted but unpaid |
| Deadlines.DeadlinesAreNear | src/modules/bookings/provider-bookings.service.ts:199-207 | if every action of a run happened by t, no waiting booking or package booking has a deadline later than t plus the timeout of its status |
| Guarantees.StatusesOnlyAdvance | src/modules/bookings/bookings.service.ts:503-524 | across any stretch of any run a booking's status stays or moves up PENDING < QUOTE_SENT < CONFIRMED < IN_PROGRESS < terminal, terminal statuses never change, cleared money stays cleared |
| Guarantees.AtMostFourChanges | src/modules/bookings/bookings.service.ts:42-71 | no run changes the status of a booking more than four times |
| Guarantees.EveryChangeIsProgress | src/modules/bookings/provider-bookings.service.ts:134-302 | a step that creates no booking lowers the summed remaining rank of the bookings, or changes no status at all |
| Guarantees.CancelledEventsAreEmpty | src/modules/event/event.service.ts:862-879 | in every reachable state the bookings of a cancelled event are completed, cancelled or rejected |
| Guarantees.CancelledEventsStayIff | src/modules/packages/packages.service.ts:1840-1858 | a cancelled event stays cancelled in every continuation if and only if each package booking on it is closed, or rejected or completed with no card payment under way |
| Guarantees.ClosedPackageBookingsStayClosed | src/modules/packages/packages.service.ts:1679-1699 | a cancelled or expired package booking is never changed again and its payment is never paid |
| Guarantees.FinishedPackageBookingsStayIff | src/modules/packages/packages.service.ts:1789-1814 | a rejected or completed package booking keeps its status in every continuation if and only if no card payment of it is under way |
| Guarantees.StartedPackageBookingsStayStarted | src/modules/packages/packages.service.ts:1840-1858 | a package booking in progress or completed whose payment cleared stays so |
| Guarantees.CalledOffPackagesReleaseChildren | src/modules/packages/packages.service.ts:1065-1083 | a cancelled, expired or rejected package booking keeps no live child except one quoted separately or started on its own cleared payment; a child waits for its provider only while the package booking is pending |
| Guarantees.AwaitedPackagesStayOpen | src/modules/packages/packages.service.ts:904-914 | a pending or accepted package booking always belongs to a package that is not cancelled, and the status CONFIRMED is never reached |
| Guarantees.OneRequestPerPackage | src/modules/packages/packages.service.ts:1451-1462 | a customer never has two waiting package bookings of the same package |
| Guarantees.PaidBookingsAreKept | src/modules/bookings/booking-cleanup.service.ts:53-55 | outside packages a booking that is paid and confirmed or under way is never called off unless it is refunded first |
| Guarantees.PaymentsMatchQuotes | src/modules/payments/payments.service.ts:68-95 | in every reachable state amount plus discount of a payment is the final amount, which is the sum of the priced items |
| Guarantees.PackagesStayComposed | src/modules/packages/packages.service.ts:219-234 | in every reachable state a package has at least two services of pairwise different kinds among them its owner's packaged hall, two active rows if it is active, only rejected rows if it is cancelled |
| Guarantees.PackageSetsStayUnique | src/modules/packages/packages.service.ts:174-194 | no two packages that are not cancelled ever hold the same set of services |
| Composition.DuplicateTestIsExact | src/modules/packages/packages.service.ts:174-194 | the shared-service prefilter with the sorted-list comparison finds a duplicate exactly when another package that is not cancelled holds the same set of services |
| Composition.SortedListsAgreeIffSetsAgree | src/modules/packages/packages.service.ts:184-190 | lists without repetition have equal sorted lists exactly when they are equal as sets |
| Guarantees.StepIsSafe | src/modules/payments/payments.service.ts:236-279 | every operation, accepted or refused, keeps the whole invariant and relates old and new state by the evolution relation (identity fields fixed, statuses advance, closed rows frozen) |
| Guarantees.RunIsSafe | src/modules/payments/payments.service.ts:236-279 | the same over any run from any sound state |
| Guarantees.ItemIdsAreDistinct | src/modules/bookings/provider-bookings.service.ts:149-168 | in every reachable state the item ids of a booking are distinct |
| Acceptance.AdmittedIff | src/modules/event/event.service.ts:242-342 | a valid selection is admitted exactly when the customer has no counted booking of the service that day, no block of the event's own day shares a minute with the event, and every capacity layer has room: fewer rows than its capacity in the availability or pool and in the slot, counted as sets, and each item within the daily capacity on top of the quantity summed over the day's rows |
| Acceptance.AdmittedClashesIff | src/modules/event/event.service.ts:257-277 | an admitted event shares a minute with some stored block if and only if it runs past midnight into a block of the following day, which the query does not fetch |
| Starting.OnlyTransfersStart | src/modules/payments/payments.service.ts:271-276 | with markPaid as deployed, a step moves a booking outside packages to IN_PROGRESS if and only if it is an accepted bulk decision by bank transfer that lists the booking as accepted |
| Starting.PaidBookingsRestUntilRefunded | src/modules/payments/payments.service.ts:236-279 | a booking outside packages that is confirmed and paid is still confirmed and paid after a deployed continuation if and only if no refund of it is asked for in that continuation; otherwise its money has been handed back |
| Starting.ConfirmedQuotesOnlyWait | src/modules/bookings/bookings.service.ts:92-111 | in every reachable state a confirmed quote changes only its own row: the call of tryProgressEvent, the only live one, never starts anything |
| PackageStarts.PaidPackageBookingStartsWholeIff | src/modules/packages/packages.service.ts:1840-1858 | over any stretch of a run from an accepted package booking to its payment by any of the three calls: the package booking and its event start, and each child that was confirmed is in progress if no booking sweep past its deadline and no cancellation of the event took it in between, else cancelled |
| PackageStarts.PromptPaymentStartsAll | src/modules/packages/packages.service.ts:1704-1758 | if no booking sweep runs at or after the request's own deadline and the event is not cancelled before the payment, every unquoted child starts with its package booking |
| PackageStarts.SweepTakesChildIff | src/modules/packages/packages.service.ts:1014-1017 | because acceptance keeps the children's deadline, a sweep at t cancels an unquoted confirmed child nobody paid for separately if and only if the request deadline of its package booking is at most t |
| PackageStarts.ChildrenWait | src/modules/bookings/booking-cleanup.service.ts:39-67 | while a package booking stays accepted, a confirmed child stays confirmed unless one of those two losses happens, and then it is cancelled |
| PackageStarts.PaidButWaitingMovesIff | src/modules/payments/payments.service.ts:125-148 | a package booking that is paid but not started (money verified at the generic endpoint) keeps its row at every point of a continuation if and only if it is not rejected by the package's owner, not refunded, and the last open child is not paid separately; in particular it is never cancelled, expired or confirmed again |
| Funding.RunningPackagesAreFunded | src/modules/packages/packages.service.ts:1870-1911 | in every reachable state a package booking in progress or completed has its own payment paid or refunded, or a child in progress or completed whose own payment is |
| Funding.PackageTotalsStayFair | src/modules/packages/packages.service.ts:1583-1646 | in every reachable state each package booking comes from one accepted bookPackage call of the run, and its total is what the package's percentage at that call and the call's discount make of price times quantity, by the catalogue, of its children as they are now: between 0 and that sum, within one cent of the exact product |
| Funding.ChildIsChargedTwiceIff | src/modules/payments/payments.service.ts:34-118 | some continuation takes the money of a confirmed child of an accepted package booking and of the package booking too, if and only if the child has no payment, or one that is paid or can still be collected |
| Transitions.BookingsMoveIff | src/modules/bookings/bookings.service.ts:42-524 | in every reachable state and for all operations at once: a booking's status becomes QUOTE_SENT, CONFIRMED, REJECTED, IN_PROGRESS, COMPLETED or CANCELLED if and only if one of the causes written out for it in Causes happens, and never PENDING |
| Columns.BookingColumnsAreExact | src/modules/bookings/provider-bookings.service.ts:177-207 | in every reachable state and for all operations at once: a booking's deadline is set to 24 hours by a quote and 48 hours by a confirmation and stopped by money, its items and amount are written only by a quote that stands, line by line, and its payment only in the ways listed |
| Columns.ServicePaymentsAreFair | src/modules/payments/payments.service.ts:68-95 | the payment created for a booking outside packages asks, then and ever after, for what is owed less the discount to half a cent, and for all of it without one; for a child of a package booking it asks for all that is owed and discounts nothing |
| OrderRows.PackageBookingsMoveIff | src/modules/packages/packages.service.ts:999-1911 | the same for package bookings: each status exactly by its causes, the payment exactly as accepting, choosing, confirming, refunding and calling off write it, the payment deadline 24 hours from acceptance |
| EventRows.EventsMoveIff | src/modules/bookings/bookings.service.ts:140-200 | the same for events: back to draft, called off, under way and over exactly by their causes; a rejected quote calls the event off if all its other bookings are over and reopens it if one of them still waits for an answer |
| Membership.AnswerIsExact | src/modules/packages/packages.service.ts:695-741 | a join request is answered exactly by its provider while pending; accepting adds its service to the active set, refusing to the rejected, both take it from the pending, and every other row stays |
| Membership.PartnersConsented | src/modules/packages/packages.service.ts:695-741 | in every reachable state a partner's service is active in a package only if that partner accepted the request for it in some step of the run and it has been active ever since |
| Membership.BookedPartnersConsented | src/modules/packages/packages.service.ts:1269-1340 | no service of a partner is booked through a package without that consent |
| Membership.LeaveIsExact | src/modules/packages/packages.service.ts:832-927 | an owner leaves, and so cancels, exactly if no package booking of it is pending, accepted or running; a partner takes out an active service exactly if no confirmed or running child needs it, and with fewer than two services active an active package is a draft again |
| Membership.UpdateIsExact | src/modules/packages/packages.service.ts:380-502 | an edit is accepted exactly for a draft of the owner whose edited set of services may form a package; the set, the percentage and every row come out as asked, partners pending again if and only if the percentage changed |
| Membership.CreateIsExact | src/modules/packages/packages.service.ts:247-345 | a package is created exactly from two or more approved services of different kinds with the owner's packaged hall, a common weekday and no other live package of the same set; the owner's rows are active, all others pending |
| Membership.ActivateIsExact | src/modules/packages/packages.service.ts:605-626 | a draft is activated exactly by its owner with at least two active services |
| Membership.JoinSweepIsExact | src/modules/packages/packages-cron.service.ts:87-105 | the sweep refuses exactly the requests pending for more than 24 hours |
| Guarantees.DeadBookingsAreNeverChargedIff | src/modules/payments/payments.service.ts:200-232 | a booking that is over is never charged in any continuation if and only if nothing was paid, no cash is left to confirm and no card payment is under way, since no confirmation looks at the booking's status |
| Witnesses.RejectedThenRevived | src/modules/packages/packages.service.ts:1789-1814 | a concrete run: rejected by the owner with a card payment under way, the package booking is in progress and paid after the card is confirmed, with all its children cancelled |
| Witnesses.CancelledThenRevived | src/modules/packages/packages.service.ts:1840-1858 | a concrete run: the customer cancels the event, the owner accepts the package booking on it, the payment puts the event in progress |
| Witnesses.SweptThenPaid | src/modules/packages/packages.service.ts:1014-1017 | a concrete run: an accepted package booking loses both children to the sweep at 48 hours and starts without them when paid |
| Witnesses.PaidAtTheWrongEndpoint | src/modules/payments/payments.service.ts:125-148 | a concrete run: the generic card endpoint leaves a package booking paid and waiting |
| Witnesses.PaidAndWaiting | src/modules/payments/payments.service.ts:271-276 | a concrete run: quote, confirmation, cash recorded and confirmed as paid; the booking is confirmed and paid, has not started, and its event is still a draft |
| Witnesses.DeadAndCharged | src/modules/payments/payments.service.ts:200-232 | a concrete run: the sweep cancels a booking whose cash was not confirmed, then the provider confirms the cash and the cancelled booking is paid |
| Witnesses.CompletedBeforeItBegins | src/modules/event/event-cleanup.service.ts:21-27 | a concrete run: an event from 20:30 to 20:15 of the next day, in progress, is completed by a sweep at 20:15 of its first day, before it begins |
| Witnesses.RepeatedDishOversells | src/modules/event/event.service.ts:321-342 | a concrete run: one createEvent whose selection repeats a sub-service is accepted and oversells its daily capacity |
| Witnesses.AdmissionCountsTotalsIff | src/modules/event/event.service.ts:321-342 | for every catalogue, state and event an admitted selection's totals fit the daily capacities, if and only if the selection lists no sub-service twice |
| Store.ValidIsSound | src/modules/payments/payments.service.ts:22-30 | every valid database object holds a sound state in which nothing is oversold |
| TimeHelper.WindowTestIsExact | src/common/helpers/time.helper.ts:15-38 | for any day length the window test holds exactly when every minute of the event lies in the window around the clock; for a window whose start equals its end, exactly when the event starts there or does not run across it |
| TimeHelper.IsRangeWithinWindow | src/common/helpers/time.helper.ts:15-38 | the statement-by-statement helper decides that test on clock strings |
| TimeHelper.OverlapTestIsExact | src/common/helpers/time.helper.ts:45-59 | against a non-empty block the overlap test holds exactly when some minute is shared, the event carried past midnight if needed; an empty block shares nothing |
| TimeHelper.RangesOverlapClocks | src/common/helpers/time.helper.ts:45-59 | the helper decides that test on clock strings |
| TimeHelper.ClockOrderIsMinuteOrder | src/modules/blocked-slots/blocked-slots.service.ts:30-35 | comparing zero-padded clock strings as text is comparing their minutes |
| TimeHelper.SweptEndIsTrueEndIff | src/modules/event/event-cleanup.service.ts:21-26 | the sweepers' hour comparison finds the true end of an event unless it starts and ends in the same clock hour with the end not after the start; then it is exactly one day early |
| BlockedSlots.HitIsExactIff | src/modules/event/event.service.ts:264-272 | in absolute minutes, the test on one block tells whether it shares a minute with the event, if and only if the block is not one of the following day that the event, running past midnight, is still on for; those it always misses |
| BlockedSlots.BlockedTestIsExactIff | src/modules/event/event.service.ts:257-277 | over a table of well timed blocks an event is refused exactly when a block of its own day shares a minute with it; that is every clash, if and only if an event that meets a block after midnight also meets one before |
| BlockedSlots.NextDayBlockIsMissed | src/modules/event/event.service.ts:257-277 | an event from 22:00 to 02:00 is not refused although a whole-day block of the next day covers its last two hours |
| BlockedSlots.CreateKeepsBlocks | src/modules/blocked-slots/blocked-slots.service.ts:30-66 | every stored timed block is non-empty, and group and day name a row |
| BlockedSlots.OneRowIsRemoved | src/modules/blocked-slots/blocked-slots.service.ts:86-102 | removing one row takes out that row and keeps all others in place |
| BlockedSlots.WithoutIsExact | src/modules/blocked-slots/blocked-slots.service.ts:93-98 | removing a group takes out exactly its rows |
| BlockedSlots.AcceptedBlockTakesEffect | src/modules/blocked-slots/blocked-slots.service.ts:51-66 | an accepted whole-day block refuses every event of its service, or of all services, on each of its days |
| BlockedSlots.AcceptedBlockIsExact | src/modules/blocked-slots/blocked-slots.service.ts:51-66 | an accepted request blocks an event if and only if it was blocked before or the request covers its provider, service, day and hours |
| BlockedSlots.RequestAcceptedIff | src/modules/blocked-slots/blocked-slots.service.ts:20-50 | a request is accepted exactly for the provider's own service or all, with both times in order or none, for 1 to 31 days |
| BlockedSlots.RemovalIsExact | src/modules/blocked-slots/blocked-slots.service.ts:86-102 | a removal needs a row of that provider, group and day and leaves exactly the others |
| Pricing.StackedTotalIsBounded | src/modules/packages/packages.service.ts:1979-1998 | the stacked discounted total lies in 0..base |
| Pricing.StackedTotalIsMonotone | src/modules/packages/packages.service.ts:1979-1998 | it is monotone in the base |
| Pricing.StackedTotalIsAccurate | src/modules/packages/packages.service.ts:1979-1998 | it is within one cent of the exact doubly discounted value |
| Pricing.ApplyPackageTotalDiscount | src/modules/packages/packages.service.ts:1969-1999 | the guarded write always leaves the computed total stored |
| Pricing.PriceSplitsExactly | src/modules/discounts/discounts.service.ts:336-348 | final price plus discount amount is the original price, to the cent |
| Pricing.PriceIsBounded | src/modules/discounts/discounts.service.ts:336-348 | both parts lie in 0..price |
| Quotes.AcceptedQuoteIsAPermutation | src/modules/bookings/provider-bookings.service.ts:143-168 | the three checks accept exactly the non-empty submissions whose item ids are a permutation of the booking's item ids |
| Quotes.QuoteTotalIsSumOverItems | src/modules/bookings/provider-bookings.service.ts:177-195 | in any submission order the accumulated amount is unit price times quantity summed over all items of the booking |
| Quotes.PriceItems | src/modules/bookings/provider-bookings.service.ts:181-195 | the loop prices every item by its own line and returns the sum of the final totals |
| Discounts.AtMostOneAutoDiscount | src/modules/discounts/discounts.service.ts:55-97 | in every state reached by create, cancel, reconfirm and suspend, at most one auto-applied discount of a target is valid at any instant |
| Discounts.LookupIgnoresOrder | src/modules/discounts/discounts.service.ts:351-368 | the last-write-wins map of the batch lookup is the same for every row order |
| Discounts.ActiveAutoDiscounts | src/modules/discounts/discounts.service.ts:363-368 | the batch lookup maps exactly the targets with a valid fetched discount, each to such a discount |
| Discounts.ResolutionIsSound | src/modules/discounts/discounts.service.ts:294-306 | the single lookup gives the row it was handed exactly when that is valid and needs no code or was asked for by its code; otherwise it fails exactly for a supplied code |
| Discounts.ValidIff | src/modules/discounts/discounts.service.ts:264-275 | over any history a discount is valid at an instant exactly if the instant lies in its period, it was never withdrawn by someone entitled, and its package was not activated without the provider confirming it since |
| Discounts.CreateAcceptsIff | src/modules/discounts/discounts.service.ts:101-134 | a discount is created exactly for an existing target by its provider or an administrator, under an unused code, and without a code only if no active one without a code overlaps |
| Discounts.OverlapIsSharedInstant | src/modules/discounts/discounts.service.ts:55-64 | two non-empty periods, open-ended or not, overlap exactly if they share an instant |
| Discounts.AutoDiscountIsGivenIff | src/modules/discounts/discounts.service.ts:280-306 | in every reachable table, a customer without a code gets the target's valid discount that needs none whichever active row the query picks, if and only if it is the only active discount of the target |
| Discounts.CodeIsHonouredIff | src/modules/discounts/discounts.service.ts:280-306 | in every reachable table, a customer who supplies a valid code gets the discount of that code whichever row the query picks, if and only if it is the only active discount of the target |
| Discounts.ValidCodeIsRefused | src/modules/discounts/discounts.service.ts:299-302 | with two codes for one service, a valid and active code is refused when the query picks the other row |
| Discounts.ValidDiscountIsHidden | src/modules/discounts/discounts.service.ts:299-304 | with a discount for everybody and one for a code on one service, a customer without a code gets nothing when the query picks the coded row |
| Discounts.DiscountTable.CreateDiscount | src/modules/discounts/discounts.service.ts:101-134 | the create endpoints refuse an unknown target, a target of someone else, an overlapping auto discount or a taken code, else append the row; no overlap and no repeated code arises |
| Discounts.DiscountTable.CancelDiscount | src/modules/discounts/discounts.service.ts:170-173 | only an active discount is withdrawn, by an administrator or the provider of its target |
| Discounts.DiscountTable.ReconfirmDiscount | src/modules/discounts/discounts.service.ts:155-168 | only a suspended discount is reconfirmed, by the provider of its target; it cannot collide because suspended rows keep their dates |
| Discounts.DiscountTable.SuspendForPackage | src/modules/discounts/discounts.service.ts:313-318 | suspends exactly the active discounts of a package |
| Reviews.ReviewBook.CreateReview | src/modules/reviews/reviews.service.ts:21-61 | accepted exactly once per completed booking and by its customer; the stored aggregate is again that of all reviews |
| Reviews.DashboardIsPlainMean | src/modules/providers/provider profail services.service.ts:386-392 | averaging the services' averages by their counts is the plain mean of all ratings |
| Reviews.ReviewBook.DashboardAverage | src/modules/providers/provider profail services.service.ts:386-392 | the reduces compute that plain mean |
| Reports.LastMonths | src/modules/reports/reports.service.ts:138-146 | n calendar months, contiguous, each non-empty, the current one last |
| Reports.MonthsFollowTheCalendar | src/modules/reports/reports.service.ts:138-146 | every month starts as many days after the one before as that one has, leap years included, from January 1970 on |
| Reports.RevenueLastNMonths | src/modules/reports/reports.service.ts:138-162 | each bucket is the revenue of its month and the buckets add up to all sales between the first start and the last end |
| Capacity.AdmittedBookingHasRoom | src/modules/event/event.service.ts:279-342 | an admitted selection leaves room for its booking in every resource it uses |
| Capacity.AdmissionIgnoresOtherServices | src/modules/packages/packages.service.ts:1481-1613 | bookings of other services never change the verdict on a selection |
| Capacity.AdmitInTurnKeepsCapacity | src/modules/event/event.service.ts:237-389 | the check-insert loop oversells nothing |
| Capacity.PoolIsFirst | src/modules/event/event.service.ts:145 | a slotless selection is matched to the first slotless availability that works that weekday |
| AdmissionSafety.BookPackageKeepsCapacity | src/modules/packages/packages.service.ts:1481-1631 | bookPackage oversells nothing |
| AdmissionSafety.CreateEventKeepsCapacity | src/modules/event/event.service.ts:214-394 | createEvent oversells nothing |
| AdmissionSafety.AddServiceKeepsCapacity | src/modules/event/event.service.ts:707-795 | addServiceToEvent oversells nothing |
| AdmissionSafety.EvolvingKeepsCapacity | src/modules/event/event.service.ts:22-28 | no step that only moves bookings forward can oversell anything |
| AdmissionSafety.CreateEventIsSafe | src/modules/event/event.service.ts:214-394 | createEvent keeps the invariant and only appends rows |
| AdmissionSafety.AddServiceIsSafe | src/modules/event/event.service.ts:618-795 | addServiceToEvent keeps the invariant and only appends rows |
| AdmissionSafety.BookPackageIsSafe | src/modules/packages/packages.service.ts:1449-1646 | bookPackage keeps the invariant and only appends rows |
| Progress.EventSweepIsExact | src/modules/event/event-cleanup.service.ts:14-50 | the event sweep completes exactly the due events, cancels their undecided and completes their running bookings, and changes nothing else |
| Progress.OrderSweepIsExact | src/modules/packages/packages-cron.service.ts:44-249 | each package sweep judges every package booking as it found it and moves a booking exactly when its own package booking was due |
| Progress.BookingSweepIsExact | src/modules/bookings/booking-cleanup.service.ts:39-67 | on any state, a row changes exactly when it is pending, quoted or confirmed, past its deadline and not confirmed with a paid payment, and then only its status does, to CANCELLED |
| Progress.EventCompletedEarlyIff | src/modules/event/event-cleanup.service.ts:14-50 | some event sweep completes an event in progress before its true end, if and only if it starts and ends in the same clock hour with the end not after the start |
| Progress.OrderCompletedEarlyIff | src/modules/packages/packages-cron.service.ts:44-84 | the same for the package sweep and a package booking in progress |
| Safety.TryProgressEventIsSafe | src/modules/bookings/bookings.service.ts:42-71 | tryProgressEvent keeps the invariant of all rows and the evolution relation, creates no row |
| Safety.TryProgressOrderIsSafe | src/modules/packages/packages.service.ts:1870-1911 | tryProgressPackageBooking keeps the invariant of all rows and the evolution relation, creates no row |
| Safety.ProgressBookingIsSafe | src/modules/bookings/bookings.service.ts:503-524 | progressBookingAndEvent, for a booking whose money cleared, keeps the invariant of all rows and the evolution relation, creates no row |
| Safety.SendQuoteIsSafe | src/modules/bookings/provider-bookings.service.ts:118-208 | sendQuote keeps the invariant of all rows and the evolution relation, creates no row |
| Safety.ProviderStepsAreSafe | src/modules/bookings/provider-bookings.service.ts:238-291 | completeBooking and rejectBooking keep the invariant of all rows and the evolution relation, creates no row |
| Safety.ConfirmQuoteIsSafe | src/modules/bookings/bookings.service.ts:76-111 | confirmQuote keeps the invariant of all rows and the evolution relation, creates no row |
| Safety.RejectQuoteIsSafe | src/modules/bookings/bookings.service.ts:140-200 | rejectQuote keeps the invariant of all rows and the evolution relation, creates no row |
| Safety.BulkDecisionIsSafe | src/modules/bookings/bookings.service.ts:250-432 | bulkQuoteDecision keeps the invariant of all rows and the evolution relation, creates no row |
| Safety.CancelEventIsSafe | src/modules/event/event.service.ts:819-879 | cancelEvent keeps the invariant of all rows and the evolution relation, creates no row |
| Safety.MarkPaidIsSafe | src/modules/payments/payments.service.ts:236-279 | markPaid, with the passed id as deployed or corrected, keeps the invariant of all rows and the evolution relation, creates no row |
| Safety.CreatePaymentIsSafe | src/modules/payments/payments.service.ts:34-118 | createPayment keeps the invariant of all rows and the evolution relation, creates no row |
| Safety.ConfirmPaymentIsSafe | src/modules/payments/payments.service.ts:125-148 | confirmPayment keeps the invariant of all rows and the evolution relation, creates no row |
| Safety.MarkCashPaidIsSafe | src/modules/payments/payments.service.ts:200-232 | markCashPaid keeps the invariant of all rows and the evolution relation, creates no row |
| Safety.RefundIsSafe | src/modules/payments/payments.service.ts:307-320 | refundPayment keeps the invariant of all rows and the evolution relation, creates no row |
| Safety.AcceptOrderIsSafe | src/modules/packages/packages.service.ts:999-1028 | acceptPackageBooking keeps the invariant of all rows and the evolution relation, creates no row |
| Safety.RejectOrderIsSafe | src/modules/packages/packages.service.ts:1049-1083 | rejectPackageBooking keeps the invariant of all rows and the evolution relation, creates no row |
| Safety.CancelOrderIsSafe | src/modules/packages/packages.service.ts:1679-1699 | cancelPackageBooking keeps the invariant of all rows and the evolution relation, creates no row |
| Safety.PayOrderIsSafe | src/modules/packages/packages.service.ts:1704-1765 | payPackageBooking keeps the invariant of all rows and the evolution relation, creates no row |
| Safety.ConfirmOrderIsSafe | src/modules/packages/packages.service.ts:1789-1814 | confirmPackageCardPayment and confirmPackageCashPayment keep the invariant of all rows and the evolution relation, creates no row |
| Safety.CompleteOrderIsSafe | src/modules/packages/packages.service.ts:1138-1166 | completePackageBooking keeps the invariant of all rows and the evolution relation, creates no row |
| Safety.SweepBookingsIsSafe | src/modules/bookings/booking-cleanup.service.ts:39-67 | handleExpiredBookings keeps the invariant of all rows and the evolution relation, creates no row |
| Safety.SweepEventsIsSafe | src/modules/event/event-cleanup.service.ts:14-50 | completePastEvents keeps the invariant of all rows and the evolution relation, creates no row |
| Safety.SweepOrdersIsSafe | src/modules/packages/packages-cron.service.ts:44-249 | the three package-booking sweeps keep the invariant of all rows and the evolution relation, creates no row |
| Composition.CreateKeeps | src/modules/packages/packages.service.ts:247-345 | createPackage keeps composition and uniqueness of all packages and cancels none |
| Composition.UpdateKeeps | src/modules/packages/packages.service.ts:380-502 | updatePackage keeps composition and uniqueness of all packages and cancels none |
| Composition.ActivateKeeps | src/modules/packages/packages.service.ts:605-626 | activatePackage keeps composition and uniqueness of all packages and cancels none |
| Composition.AnswerJoinKeeps | src/modules/packages/packages.service.ts:695-741 | acceptJoinRequest and rejectJoinRequest keep composition and uniqueness of all packages and cancels none |
| Composition.SweepJoinsKeeps | src/modules/packages/packages-cron.service.ts:87-105 | expirePendingJoinRequests keeps composition and uniqueness of all packages and cancels none |
| Composition.LeaveKeeps | src/modules/packages/packages.service.ts:832-927 | leavePackage keeps composition and uniqueness; only an owner without engaged bookings cancels, and only that package |
| Store.Database.constructor | src/modules/payments/payments.service.ts:22-30 | starts with empty tables |
| Store.Database.CreateEvent | src/modules/event/event.service.ts:41-394 | createEvent inserts the event, then checks and inserts one selection after the other; at the first refusal every table is as before |
| Store.Database.AddService | src/modules/event/event.service.ts:618-795 | addServiceToEvent inserts one booking into a draft or running event of the caller more than four days ahead, or refuses for the first failed check |
| Store.Database.BookPackage | src/modules/packages/packages.service.ts:1269-1646 | bookPackage collects all children against the tables as they were, then writes event, children and the package booking with its stacked total |
| Store.Database.SendQuote | src/modules/bookings/provider-bookings.service.ts:118-208 | sendQuote prices the items line by line and writes quote, status and the 24-hour deadline to one row of its provider |
| Store.Database.RejectBooking | src/modules/bookings/provider-bookings.service.ts:272-291 | rejectBooking rejects a pending booking of its provider and touches no other row |
| Store.Database.CompleteBooking | src/modules/bookings/provider-bookings.service.ts:238-257 | completeBooking completes a running booking of its provider and touches no other row |
| Store.Database.ConfirmQuote | src/modules/bookings/bookings.service.ts:76-111 | confirmQuote confirms a sent quote of the customer for 48 hours and then asks whether the event can progress |
| Store.Database.RejectQuote | src/modules/bookings/bookings.service.ts:140-200 | rejectQuote cancels one quoted booking, and its event if all siblings are over, or puts the event back to draft if one still waits |
| Store.Database.BulkDecision | src/modules/bookings/bookings.service.ts:250-432 | bulkQuoteDecision decides every listed quote, closes the event if all are called off, and starts the accepted ones paid by transfer |
| Store.Database.CancelEvent | src/modules/event/event.service.ts:819-879 | cancelEvent cancels the event and its bookings unless one of them is under way, completed, or confirmed and paid |
| Store.Database.CreatePayment | src/modules/payments/payments.service.ts:34-182 | createPayment with processElectronicPayment records the payment of a confirmed booking once, and marks it paid if the gateway charges at once |
| Store.Database.ConfirmPayment | src/modules/payments/payments.service.ts:125-148 | confirmPayment writes the gateway's verdict to the payment of a booking or package booking; for the latter it still reports failure |
| Store.Database.MarkCashPaid | src/modules/payments/payments.service.ts:200-232 | markCashPaid marks a waiting cash payment paid for the provider of the booking only |
| Store.Database.RefundPayment | src/modules/payments/payments.service.ts:307-320 | refundPayment marks a paid payment refunded and nothing else |
| Store.Database.AcceptOrder | src/modules/packages/packages.service.ts:999-1028 | acceptPackageBooking creates the package's cash payment, confirms the pending children and sets the payment deadline |
| Store.Database.RejectOrder | src/modules/packages/packages.service.ts:1049-1083 | rejectPackageBooking rejects a pending or accepted package booking for the owner of the package and cancels its children, except those with a quote outstanding |
| Store.Database.CancelOrder | src/modules/packages/packages.service.ts:1679-1699 | cancelPackageBooking cancels a package booking for its customer while it is pending or accepted and unpaid, its payment and its children with it |
| Store.Database.PayOrder | src/modules/packages/packages.service.ts:1704-1765 | payPackageBooking records cash, records a card payment under way, or pays and starts the package booking |
| Store.Database.ConfirmOrderCash | src/modules/packages/packages.service.ts:1099-1114 | confirmPackageCashPayment marks the recorded cash of an accepted package booking paid and starts it |
| Store.Database.ConfirmOrderCard | src/modules/packages/packages.service.ts:1789-1814 | confirmPackageCardPayment takes the gateway's verdict on the card payment whatever the status, and starts the package booking if verified |
| Store.Database.CompleteOrder | src/modules/packages/packages.service.ts:1138-1166 | completePackageBooking completes a running package booking of the package's owner with its running children and event |
| Store.Database.HandleExpiredBookings | src/modules/bookings/booking-cleanup.service.ts:39-67 | handleExpiredBookings cancels, row by row, exactly the waiting bookings past their deadline that are not confirmed and paid |
| Store.Database.CompletePastEvents | src/modules/event/event-cleanup.service.ts:14-50 | completePastEvents visits the events in turn; one in progress whose computed end has passed is completed, with its running bookings, and its undecided ones are cancelled |
| Store.Database.HandlePackageCron | src/modules/packages/packages-cron.service.ts:44-249 | handlePackageCron, one sweep at a time, visits the package bookings in turn: expires pending ones, cancels unpaid ones, completes finished ones |
| Store.Database.ExpirePendingJoinRequests | src/modules/packages/packages-cron.service.ts:87-105 | expirePendingJoinRequests rejects exactly the pending rows asked for more than 24 hours ago, package by package |
| Store.Database.CreatePackage | src/modules/packages/packages.service.ts:247-345 | createPackage appends a draft with the owner's services active and the partners' pending, unless a composition rule or an equal package forbids it |
| Store.Database.UpdatePackage | src/modules/packages/packages.service.ts:380-502 | updatePackage edits a draft: removes and adds services if the new list may stand, and after a change of percentage asks every partner again |
| Store.Database.ActivatePackage | src/modules/packages/packages.service.ts:605-626 | activatePackage makes a draft active for its owner if at least two of its services are active |
| Store.Database.AnswerJoinRequest | src/modules/packages/packages.service.ts:695-741 | acceptJoinRequest and rejectJoinRequest write a partner's answer to its own pending row |
| Store.Database.LeavePackage | src/modules/packages/packages.service.ts:832-927 | leavePackage, with cancelOwnedPackage, rejects a partner's row unless it is engaged, and puts a package left with fewer than two active services back to draft; an owner who leaves cancels the whole package unless bookings of it still run |
| Store.Database.BlockSlots | src/modules/blocked-slots/blocked-slots.service.ts:20-66 | create appends one row for each requested day under a new group, or refuses with the tables unchanged |
| Store.Database.UnblockSlots | src/modules/blocked-slots/blocked-slots.service.ts:86-102 | remove removes one row, or all rows of a group, of the provider that owns them |
| Store.Database.TryProgressEvent | src/modules/bookings/bookings.service.ts:42-71 | starts the paid bookings of a settled event and the event itself |
| Store.Database.TryProgressOrder | src/modules/packages/packages.service.ts:1870-1911 | starts the paid children of a settled package booking, the package booking, and its event if that is a draft |
| Store.Database.ProgressBookingAndEvent | src/modules/bookings/bookings.service.ts:503-524 | starts one confirmed booking, and its event if that is a draft |
| Store.Database.StartOrder | src/modules/packages/packages.service.ts:1840-1858 | starts a package booking, its confirmed children and its event |
| Store.Database.FinishOrder | src/modules/packages/packages.service.ts:1150-1166 | completes a package booking, its running children and its event |
| Store.Database.MarkPaid | src/modules/payments/payments.service.ts:236-279 | records the payment, clears the deadline and hands on to the progression |
| Store.Database.ReadyGroup | src/modules/bookings/bookings.service.ts:49-62 | decides whether nobody in a group waits and someone can start |
| Store.Database.CollectChildren | src/modules/packages/packages.service.ts:1478-1613 | checks every selection against the same state and collects the children and their total |
| Store.Database.KeptMembers | src/modules/packages/packages.service.ts:474-476 | the rows whose service is not removed, in order |
| Store.Database.JoinedMembers | src/modules/packages/packages.service.ts:478-487 | appends the added services, the owner's active and the others pending |
| Store.Database.AskedAgain | src/modules/packages/packages.service.ts:489-493 | every partner row becomes pending again |
| Store.Database.DecideAll | src/modules/bookings/bookings.service.ts:314-371 | confirms with a payment the accepted and cancels the rejected bookings, whatever order and repetition they come in |

## Left out

- Interleaving inside a call: each service call and each sweeper run is one atomic step, also where the code runs several transactions or none (check-then-create of discounts, payment then progression, the package sweeps run concurrently).
- Failures half-way: a call that throws after a committed write is modelled only where it matters, in confirmPayment for a package booking's payment, which records the money, fails for want of a booking, and is reported as failed.
- Interactions with the network and other services: the payment gateway, the clock and the row that an unordered `findFirst` returns are parameters; e-mail, push messages, the domain event bus and logging have no effect on the state and are absent.
- Resolution of the discount inside createEvent, bookPackage and createPayment: the resolved discount is a parameter, and the refusal for a bad code is that of `Discounts.MatchOrNull` alone. The informational discount columns of a new booking are not stored.
- The synchronisation of the discount table when updatePackage changes the percentage, and the suspension that activatePackage triggers: the discount table is a machine of its own, in which both only change columns that the overlap rule does not read.
- Floating point and currencies: amounts are whole cents, percentages exact reals in 0..100; binary rounding error is out.
- Time zones and daylight saving: dates are day numbers, clock times are minutes; the start of a day is a multiple of 1440 minutes.
- Clock strings in events and windows: they are taken as already parsed, so two spellings of one time count as equal and malformed strings do not occur. Blocked slots keep their strings.
- Ids: a row's id is its position; payments sit on the row they pay for, because their foreign keys are unique. The group of a block is a number no stored row has, instead of a random one, and group and day name a row.
- markCashPaid on a package booking's payment delegates to confirmPackageCashPayment and is that operation.
- Which refusal is reported when several apply: the operations check in the source's order, and the methods report what the operations do, but the theorems say when a call succeeds and not which of several reasons a refused one gives (`Capacity.AtOnceRefinesInTurn` and `Discounts.ResolutionIsSound` excepted).
- Row order of createMany for package members: the model keeps the order of the request.
- Request validation by the controllers: percentages in 0..100 and natural quantities (zero included) are types; HH:mm patterns likewise; the two rules of the bulk decision that the request object enforces are checked in `Lifecycle.CheckDecision`.
- Catalogue edits (services, availabilities, slots, sub-services, approvals): fixed for a run, since lowering a capacity below the current load would break any capacity claim.
- createEvent and addServiceToEvent count completed bookings, bookPackage does not (src/modules/event/event.service.ts:22-28, src/modules/packages/packages.service.ts:1340): both are modelled, and the capacity theorem is about the bookings that both count.
- Which provider owns which service or package is fixed for the discount table (`DiscountTable.owners`).
- Returning an event in progress to draft when a quote is rejected (src/modules/bookings/bookings.service.ts:177-181) is modelled; no monotonicity of event statuses is claimed.
- Deliveries, complaints, favourites, suggested packages, users, tokens, one-time codes, change requests, calendars, listings and the rest of the reports: single-branch reads and writes that would only add easy members.
- Rounding of the dashboard average to one decimal for display (src/modules/providers/provider profail services.service.ts:400).
