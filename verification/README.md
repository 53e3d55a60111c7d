# AlloAppart, modelled and proved

AlloAppart is a marketplace for furnished stays and monthly leases. Tenants book, an external gateway
takes the money, the platform holds it in escrow and releases it, owners and administrators steer
listings. This project models the parts of it in which many requests meet in one state, and proves
what they keep over every run.

- **Bookings, escrow and leases.** `Market` holds the rules: what one request does to the tables of
  bookings, listings and contracts. `Payments`, `Bookings`, `Listings` and `Subscriptions` are the
  services, as classes that read and write the tables of `Tables` step by step; each method is proved to
  do exactly what the rules say. `Legality`, `DoubleBooking`, `Leases`, `Disputes`, `Escrow`, `Reasons`,
  `References` and `Confluence` prove what every run keeps; `Transitions`, `ListingTransitions` and
  `NewBookings` name every cause of every change, without the functions of the rules; `Money` and `Calendar` prove what is charged and what the
  calendar shows. `LeaseStories` and `VisitStories` are runs that show why an exception is named.
- **Prices with notice.** `PlatformPrices` holds the row that the next request promotes, `Timer` the
  machine with a timer that it refines, and `Notice` tells the prices from the announcements alone;
  `Announcements` counts the notice in milliseconds.
- **Texts.** `Patterns`, `Replacing` and `ContactFilter` (the contact filter), `Contacts` (what a contact
  is, character by character), `Base64Url`, `Rfc4648`, `Utf8` and `Token` (the token of the QR code),
  `Slugs`, `SlugWords`, `Agencies` and `AgencyAccounts` (addresses of agencies), `Decimals` and `Fcfa`
  (amounts in documents).
- **Ranking and visits.** `Ranking`, `Boosts` and `BoostMoves` (search results); `Visits`, `VisitSafety`,
  `VisitPrices`, `VisitMoves` and `Verifications` (verification visits and their payments, in the tables of `SidePayments`).

`dafny verify dfyconfig.toml` checks the whole project.

## How the model reads the source

- Every request is one atomic step, with the time of the request as a parameter. Instants are integers
  (milliseconds), amounts integers, prices and rates exact reals.
- The gateway's answer is a parameter of the step: completed with an amount, cancelled or failed, any
  other status, or unreachable. Tokens of invoices and new identifiers are parameters too; an identifier
  in use is a refused insert.
- The escrow of a new booking is AWAITING_PAYMENT (`Backend/prisma/schema.prisma:126`).
- Columns that are unique in the schema refuse a second value: references of boost and verification
  payments (`Backend/prisma/schema.prisma:432`, `Backend/prisma/schema.prisma:458`). Where two writes are
  issued side by side (`Backend/src/listings/listings.service.ts:786-792`), one being refused does not
  undo the other.
- Accounts may be deleted, by an administrator or by the identity provider, unless rows of other tables
  keep them; whether such rows exist is a parameter. Deleting one clears it from visits
  (`Backend/prisma/migrations/20260524152014_verification_agent_id_nullable_add_requested_status/migration.sql:12`).
  The notice that an agent gets with a visit is such a row
  (`Backend/src/verifications/verifications.service.ts:556`), but it is sent beside the request and may fail.
- The generation of a contract succeeds; in the source its failure is logged and changes nothing else.
- The keyed hash of a token and the folding of a name to plain lower case are parameters. Nothing is
  assumed of the hash; of the folding only that plain lower-case text stays as it is.
- A character is a Unicode scalar value. The base64url decoder passes over characters outside the
  alphabet, and reads "+" and "/" as base64 does.
- The sort of the search results is a function: `Ranking.SortSorts` shows that any stable sort gives
  its result.

## What turned out otherwise than expected

- A payment confirmed late revives a booking that was cancelled or completed, or a lease that was over
  (`DoubleBooking.StepExact`, `DoubleBooking.LatePaymentDoubleBooks`, `Leases.StepExact`): the two
  callers of `markBookingPaid` skip different statuses.
- The webhook of bookings compares the token neither with the reference of the booking nor with the
  invoice the token belongs to, so one paid invoice can stand for two bookings of one total
  (`References.StepExact`, `References.PaidOnceHeldTwice`).
- The webhooks of boosts and visits compare no amount with the price (`Boosts.AmountsIgnored`,
  `VisitPrices.PaidInFullExact`, `VisitPrices.VisitForLess`).
- `confirm` and `complete` do not look for a payment, so the funds of a stay that was never paid can be
  RELEASED (`Reasons.UnpaidReleaseExact`, `Reasons.ReleasedUnpaid`).
- `cancel` provides for administrators, but the lookup before it lets only owner and tenant through
  (`Backend/src/bookings/bookings.service.ts:523-533`), so that branch is never taken.
- Cancelling a running lease leaves its listing RENTED (`Leases.RentalExact`, `LeaseStories.RentedForNobody`).
- `initiate` answers "already paid" with an error and keeps the payment it has just discovered
  (`Payments.PaymentsService.ReuseInvoice`); for a nightly booking that is not PENDING it overwrites the reference.
- A read of the prices may write the row, and then stamps its own time (`Timer.ReadWritesIffDue`).
- The comment above the telephone pattern speaks of 8 digits; the pattern asks for 9
  (`Backend/src/messages/contact-filter.util.ts:18-22`). The model follows the pattern.
- The calendar blocks the whole day of a departure (`Calendar.AgreeExactly`,
  `Calendar.SameDayTurnoverIsBlocked`).
- Webhooks of boosts and visits look for an open payment of the listing and not for the one the token
  belongs to (`Boosts.FirstOfTwoInvoices`, `VisitStories.LateDeclineFailsTheNext`).
- A visit can lose its agent by the deletion of the account (`VisitSafety.StaffedExact`,
  `VisitStories.AgentGoes`), and a payment can be confirmed without a visit when the agent asked for has
  no account (`VisitSafety.ServedExact`, `VisitStories.PaidForNothing`).
- Stays that begin or end within a day may be charged for more nights when split
  (`Money.SplittingCosts`, `Money.DayAndAHalfTwice`).

## Model

The results come first, the methods of the services after them.

| member | source | states |
|---|---|---|
| `Legality.ReachableExactly` | Frontend/src/types/index.ts:8-13 | The triples of type, status and escrow that some run of the marketplace reaches are exactly those of the table `LegalEscrows`: soundness over every run, and a run for every entry. |
| `Legality.RunKeepsLegal` | Backend/src/payments/payments.service.ts:44-78 | From any legal state, no run of requests and gateway answers, in whatever order, leaves the table. |
| `Legality.RowKeepsLegal` | Backend/src/bookings/bookings.service.ts:664-777 | Each request on one booking leads from a legal triple to a legal triple. |
| `DoubleBooking.StepExact` | Backend/src/payments/payments.service.ts:284-311 | One request keeps all PENDING and CONFIRMED stays of a listing pairwise disjoint if and only if it is not a payment confirmed for a stay that had let go of dates somebody else holds by now. |
| `DoubleBooking.RunExact` | Backend/src/bookings/bookings.service.ts:97-113 | A run never double books if and only if no such late payment occurs in it. |
| `DoubleBooking.NoLateConfirmationSuffices` | Backend/src/payments/payments.service.ts:360-365 | From legal states the only payments to fear are those confirmed for a CANCELLED or COMPLETED booking, a condition read off the row before the request. |
| `DoubleBooking.LatePaymentDoubleBooks` | Backend/src/payments/payments.service.ts:284-311 | The exception is real: a run from the empty marketplace that ends with two held stays on one date. |
| `DoubleBooking.QueryFindsClashes` | Backend/src/bookings/bookings.service.ts:99-113 | The overlap query of `create` finds every held booking that shares an instant with the new stay, an open-ended one included. |
| `DoubleBooking.ClashIsOverlap` | Backend/src/bookings/bookings.service.ts:99-113 | Sharing an instant is the same as the two bounds of the query, with the far future for a missing end. |
| `DoubleBooking.PaymentIffSettles` | Backend/src/payments/payments.service.ts:272-342 | A booking is marked paid exactly under the guards of the two callers, which skip different statuses, and then moves to CONFIRMED or ACTIVE with funds HELD. |
| `DoubleBooking.OnlyPaymentTakesDates` | Backend/src/payments/payments.service.ts:44-61 | No request but a payment makes a booking hold dates that it did not hold, and none moves the dates. |
| `Leases.StepExact` | Backend/src/payments/payments.service.ts:63-67 | One request keeps "one open lease per listing, and a running lease means RENTED" if and only if it neither revives a lease that was over beside an open one nor overrides by hand the status of a listing with a running lease. |
| `Leases.RunExact` | Backend/src/payments/payments.service.ts:44-78 | A run has its leases always in order if and only if no such payment and no such override occurs in it. |
| `LeaseStories.LatePaymentRevivesLease` | Backend/src/payments/payments.service.ts:284-311 | From the empty marketplace: a lease asked for and rejected, another asked for, a late webhook for the first, and the listing has two open leases. |
| `LeaseStories.ActivatedWhileLeased` | Backend/src/listings/listings.service.ts:508-523 | From the empty marketplace: a field agent activates a rented listing, and a stay is accepted while the lease runs. |
| `Leases.RentalExact` | Backend/src/bookings/bookings.service.ts:699-759 | From legal states one request keeps "a RENTED listing has a running lease" if and only if it does not cancel the only running lease of a rented listing. |
| `LeaseStories.RentedForNobody` | Backend/src/bookings/bookings.service.ts:752-759 | From the empty marketplace: the tenant cancels the running lease, and the listing stays RENTED without one. |
| `Leases.RunKeepsLeases` | Backend/src/bookings/bookings.service.ts:231-255 | Over every run without such payments and overrides the two lease invariants hold. |
| `Leases.RentedTakesNoBooking` | Backend/src/bookings/bookings.service.ts:85-89 | While a lease runs, every new stay or lease request for its listing is refused and changes nothing. |
| `Leases.RentedUntilEnded` | Backend/src/listings/listings.service.ts:427-506 | A rented listing stays rented until its lease is terminated, its status is set by hand, or it is removed: no archive, restore, publish, unpublish, edit, expiry or cancellation does it. |
| `Leases.LeaseEvents` | Backend/src/bookings/bookings.service.ts:417-467 | How each request on a booking moves it into and out of the open and the running leases, and which of them end a lease. |
| `Disputes.FrozenStep` | Backend/src/bookings/bookings.service.ts:934-969 | A CONFIRMED and DISPUTED stay that has begun is left alone by every request and gateway answer but three: a resolution one way, a resolution the other way, and the removal of its listing, each with its exact result. |
| `Disputes.FrozenRun` | Backend/src/bookings/bookings.service.ts:866-919 | Over every continuation without a resolution or removal the disputed booking stays what it was, its payment reference apart. |
| `Escrow.EscrowIsBacked` | Backend/src/payments/payments.service.ts:301-335 | In every state of every run: a booking whose funds are HELD or DISPUTED was made by one request, on the terms it still has, and a later one was the payment that was accepted for it, within 1 FCFA of its total; before that payment its funds were not in escrow, and in every state since they have been. |
| `Escrow.StepBacked` | Backend/src/payments/payments.service.ts:408-432 | One request changes status, escrow and payment reference of a booking only, and takes funds into escrow only by a payment that the guards of webhook or active check accept, for the right amount; a new booking has nothing in escrow. |
| `Reasons.EscrowHasReason` | Backend/src/bookings/bookings.service.ts:737-759 | In every state of every run each escrow state but the first was brought about by one request after the booking was made: the escrow was another before it, has been this one in every state since, and the request was entitled to the change. HELD: a payment accepted for the right amount. DISPUTED: the tenant within a day of arrival. RELEASED: a completion past the end, the tenant's own withdrawal within seven days of arrival, an administrator or the release call. REFUNDED: any other cancellation, an administrator, a refusal of the gateway or the refund call. |
| `Reasons.StepReasoned` | Backend/src/payments/payments.service.ts:457-485 | One request moves the escrow of a booking only if it is entitled to the state it moves it to, and to HELD only if the guards of webhook or active check accept the payment. |
| `Reasons.UnpaidReleaseExact` | Backend/src/bookings/bookings.service.ts:827-857 | Funds nobody has paid become RELEASED if and only if a CONFIRMED booking is completed past its end by its owner or an administrator. |
| `Reasons.ReleasedUnpaid` | Backend/src/bookings/bookings.service.ts:671-679 | A run that never asks the gateway and ends with released funds: booked, confirmed by the owner, completed. |
| `Reasons.StrangersChangeNothing` | Backend/src/bookings/bookings.service.ts:523-533 | A request on a booking by anyone but its tenant, its owner and administrators is refused and changes nothing; only the gateway's callbacks and the two calls that move funds are not asked for a name. |
| `Transitions.StatusExact` | Backend/src/bookings/bookings.service.ts:664-969 | For each of the nine statuses, one request brings a booking into it if and only if it is one of the named causes: who sends it, from which status, at what time, with what answer of the gateway. None leads to PENDING or REQUESTED. |
| `Transitions.EscrowExact` | Backend/src/payments/payments.service.ts:272-485 | The same for the states of the escrow: one request moves the funds of a booking into a state if and only if it is one of the causes named for it. |
| `Transitions.ReferenceExact` | Backend/src/payments/payments.service.ts:97-135 | The reference of a booking becomes "PD-" and a token if and only if a callback reports that token as paid or a tenant without an invoice to reuse gets a new one; otherwise it stays. |
| `Transitions.BegunStayCancelled` | Backend/src/bookings/bookings.service.ts:717-728 | A CONFIRMED stay that has begun becomes CANCELLED if and only if an administrator resolves its dispute without release, whatever the state of its escrow. |
| `Transitions.CancelExact` | Backend/src/bookings/bookings.service.ts:699-759 | Tenant and owner cancel every booking that is neither CANCELLED nor COMPLETED nor a CONFIRMED stay that has begun; on those the answer is an error and nothing changes. |
| `Transitions.AnswerExact` | Backend/src/bookings/bookings.service.ts:827-919 | A request of a person is accepted if and only if it changes the booking, and forbidden if and only if that person may not send it; callbacks, checks and payments are refused just for a wrong amount, no answer, or nothing to pay. |
| `Transitions.UnknownBooking` | Backend/src/payments/payments.service.ts:275-281 | Nothing happens to a booking that is not there, and a callback is told that all is well. |
| `ListingTransitions.ListingStatusExact` | Backend/src/listings/listings.service.ts:427-534 | One request brings a listing into a status if and only if it is one of the named causes, lease payments, terminations and the nightly job included. |
| `ListingTransitions.ListingExact` | Backend/src/listings/listings.service.ts:372-425 | A listing goes by its removal only, keeps its owner, and its terms are the last that owner or administrator wrote with the limits of nights in order. |
| `ListingTransitions.NewListingExact` | Backend/src/listings/listings.service.ts:372-392 | A listing appears if and only if it is created with the limits of nights in order and, to be ACTIVE at once, with leave to publish; it is ACTIVE or DRAFT as asked. |
| `ListingTransitions.ContractExact` | Backend/src/contracts/contracts.service.ts:143-159 | A booking has a contract after a request if and only if it had one and is still there, or the request pays for its lease. |
| `ListingTransitions.ListingAnswer` | Backend/src/listings/listings.service.ts:427-534 | Each request on a listing is answered by who sends it, from which status, and what the check of the plan says. |
| `ListingTransitions.OtherAnswers` | Backend/src/listings/listings.service.ts:372-392 | What is heard about a listing that is not there, of one to be removed, and of a new one. |
| `ListingTransitions.RefusedChangesNothing` | Backend/src/payments/payments.service.ts:115-131 | What is refused changes nothing, with the one exception of a payment that a new attempt to pay discovers. |
| `ListingTransitions.AcceptedAddsOrRemoves` | Backend/src/bookings/bookings.service.ts:62-197 | A new stay, lease or listing, and a removal, are accepted if and only if they change something. |
| `NewBookings.StayExact` | Backend/src/bookings/bookings.service.ts:62-150 | A stay is taken in if and only if none of the reasons against it holds: owner, RENTED or monthly listing, a held stay in the way, a number of nights outside the limits. |
| `NewBookings.RefusalExact` | Backend/src/bookings/bookings.service.ts:73-84 | A stay or lease on an unknown listing is not found, one on the tenant's own listing forbidden, and what is refused changes nothing. |
| `NewBookings.StayRow` | Backend/src/bookings/bookings.service.ts:156-183 | What an accepted stay costs, free of rounding functions: thirty times the total is within fifteen francs of the nights times the price of thirty nights, which is the monthly price where no nightly one above zero is listed; the fee is the whole number nearest to its part. |
| `NewBookings.MonthlyPriceByTheDay` | Backend/src/bookings/bookings.service.ts:163-165 | Without a nightly price thirty nights cost the monthly price to half a franc. |
| `NewBookings.ListedPriceByNight` | Backend/src/bookings/bookings.service.ts:160-165 | With a nightly price the total is the whole number nearest to that price times the nights. |
| `NewBookings.NightsExact` | Backend/src/bookings/bookings.service.ts:118-124 | The nights of a stay are the whole number of days nearest to its length, and one if it has no end. |
| `NewBookings.MeetsIsSharing` | Backend/src/bookings/bookings.service.ts:97-113 | For stays in order, what stands in the way is a held stay with which the new one shares an instant. |
| `NewBookings.LeaseExact` | Backend/src/bookings/bookings.service.ts:204-271 | A lease request is taken in if and only if none of the reasons against it holds. |
| `NewBookings.NobodyAtMoveIn` | Backend/src/bookings/bookings.service.ts:255-271 | After an accepted lease request no held stay with an end occupies the instant of moving in. |
| `NewBookings.LeaseRow` | Backend/src/bookings/bookings.service.ts:273-299 | Deposit, total, fee and landlord share of an accepted lease, each as the nearest whole number, the share never below zero. |
| `References.StepExact` | Backend/src/payments/payments.service.ts:272-311 | One request leaves no two bookings with one payment reference if and only if it is neither a payment confirmed by a webhook whose token another booking's reference was made of, nor a new invoice with such a token. |
| `References.RunExact` | Backend/src/payments/payments.service.ts:301-311 | In a run no two bookings ever share a reference if and only if no such request occurs in it. |
| `References.PaidOnceHeldTwice` | Backend/src/payments/payments.service.ts:272-311 | The exception is real: a run from the empty marketplace in which the callback of one paid invoice comes with the numbers of two bookings of one price; both are HELD, with one reference. |
| `Confluence.AnyMixSettles` | Backend/src/payments/payments.service.ts:349-455 | From an unpaid booking that waits for invoice t, any non-empty mix of webhook deliveries and active checks for t with one final verdict leaves bookings, listings and contracts as a single call does. |
| `Confluence.OneContractEach` | Backend/src/contracts/contracts.service.ts:143-159 | Over every run no booking gets a second contract. |
| `Payments.ReuseVerifies` | Backend/src/payments/payments.service.ts:97-131 | Paying again with an invoice at hand has the effect of an active check, with the "already paid" error when the check settles it. |
| `Payments.FreshInvoice` | Backend/src/payments/payments.service.ts:97-135 | Without an invoice at hand, a payable booking only gets the reference of the new invoice, or nothing if the gateway issues none. |
| `Money.StaySplit` | Backend/src/bookings/bookings.service.ts:159-169 | For commission rates from 0 to 1, fee and landlord share of a stay add up to its total and neither is negative. |
| `Money.LeaseSplitExactly` | Backend/src/bookings/bookings.service.ts:274-286 | For a rent in whole francs the split of a lease is exact if and only if the commission exceeds rent and deposit by less than half a franc. |
| `Money.LeaseSplitUsually` | Backend/src/bookings/bookings.service.ts:274-286 | In particular when the commission months do not exceed one plus the deposit months. |
| `Calendar.FreeDaysPass` | Backend/src/bookings/bookings.service.ts:97-113 | Whatever the times of day, a stay whose days the calendar shows free passes the check. |
| `Calendar.GetAvailability` | Backend/src/bookings/bookings.service.ts:469-479 | The ranges are those of the held bookings of the listing that are not over, all of them and no other. |
| `Calendar.IsBooked` | Frontend/src/components/listings/AvailabilityCalendar.tsx:28-38 | The early return is right: booked if and only if some range covers the day. |
| `Money.SplittingCosts` | Backend/src/bookings/bookings.service.ts:116-120 | For stays at any instants and every price: splitting one into k consecutive ones changes the amount charged by the price of the nights counted more or less, and besides by at most (k + 1) / 2 FCFA. |
| `Money.SplittingCostsLittle` | Backend/src/bookings/bookings.service.ts:159-165 | Where the nights add up, only the (k + 1) / 2 FCFA are left. |
| `Money.WholeDaysAddUp` | Backend/src/bookings/bookings.service.ts:116-120 | They add up for every sequence of whole days. |
| `Money.DayAndAHalfTwice` | Backend/src/bookings/bookings.service.ts:116-120 | And not in general: at 10 000 a night two stays of 36 hours cost 40 000, one of 72 hours 30 000. |
| `Calendar.CalendarIsWidenedCheck` | Frontend/src/components/listings/AvailabilityCalendar.tsx:28-38 | For stays at any instants from today on, every day is free in the calendar fed by `getAvailability` if and only if the overlap query of `create` finds nothing for the stay widened to whole days. |
| `Calendar.AgreeExactly` | Frontend/src/components/listings/AvailabilityCalendar.tsx:28-38 | So calendar and query agree about a stay if and only if it is not the case that the query finds nothing while a held stay shares a day with it. |
| `Calendar.CalendarAgrees` | Frontend/src/components/listings/AvailabilityCalendar.tsx:28-38 | In particular they agree for stays on whole days that begin after now. |
| `Calendar.SameDayTurnoverIsBlocked` | Frontend/src/components/listings/AvailabilityCalendar.tsx:28-38 | The exception is real: a departure at noon blocks the day for an arrival at two that the query would accept. |
| `Timer.LazyRefinesTimer` | Backend/src/platform-config/platform-config.service.ts:123-167 | For every run of reads, scheduled and immediate updates, cancellations and PIN changes at any times, the replies equal those of a machine that applies each change at the very tick it falls due. |
| `Timer.RequestSimulated` | Backend/src/platform-config/platform-config.service.ts:141-167 | Serving one request gives the reply of the timer machine and a row that stands for its next state. |
| `Timer.TicksSimulated` | Backend/src/platform-config/platform-config.service.ts:141-144 | A row left alone stands, at every later instant, for the machine after its ticks. |
| `Timer.ReadsAreInvisible` | Backend/src/platform-config/platform-config.service.ts:202-218 | Leaving all reads out of a run changes nothing that can be seen afterwards. |
| `Timer.ReadWritesIffDue` | Backend/src/platform-config/platform-config.service.ts:141-167 | A read writes the row if and only if a change has fallen due, and then stamps the time of the read: the one trace a timer would leave differently. |
| `Timer.CancelOnlyBeforeDue` | Backend/src/platform-config/platform-config.service.ts:359-389 | A confirmed cancellation erases the change if it is not yet due; one already due is in force. |
| `Notice.PricesAsAnnounced` | Backend/src/platform-config/platform-config.service.ts:288-330 | Over every run from every row: the prices in force are those of the last announcement that nothing replaced or cancelled before its day and whose day has come, and the change that waits is the one that still stands. |
| `Notice.PricesAreAnnounced` | Backend/src/platform-config/platform-config.service.ts:288-330 | From an empty table: the prices in force are the defaults, or were announced by an accepted request whose notice had run out, which nothing replaced or cancelled before, and after which no other announcement that stood has fallen due. |
| `Notice.NoticeHonoured` | Backend/src/platform-config/platform-config.service.ts:141-144 | Until an announcement that stood falls due, or an immediate change is made, the prices read stay the same; announcements cancelled or replaced before their day do not count. |
| `Notice.CancelledNeverShows` | Backend/src/platform-config/platform-config.service.ts:359-389 | A change cancelled before its day never shows, however late the prices are read. |
| `Announcements.NoticeKept` | Backend/src/platform-config/platform-config.service.ts:288-330 | Counted in milliseconds: after a confirmed update that gives another price, whatever was waiting, every price read before the end of its notice is the old one, and every price read from then on is the one given or unchanged; thirty days if the update does not say. |
| `Announcements.NoticeAnswered` | Backend/src/platform-config/platform-config.service.ts:300-330 | The answer to an announcement shows the prices in force and those to come with their day, or the new prices if there is no notice. |
| `Announcements.CancelledForGood` | Backend/src/platform-config/platform-config.service.ts:359-389 | After a confirmed cancellation the prices in force stay in force at every later instant. |
| `Announcements.OthersLeavePrices` | Backend/src/platform-config/platform-config.service.ts:141-165 | No other request changes a price that is read at any later instant. |
| `Announcements.FirstPrices` | Backend/prisma/schema.prisma:478-484 | The prices before anybody has set any. |
| `Announcements.StampExact` | Backend/src/platform-config/platform-config.service.ts:141-165 | The author of the last write is that of an immediate change or a new PIN, and its time that of whatever was written, a read that finds a change due included. |
| `Announcements.OnlyConfirmed` | Backend/src/platform-config/platform-config.service.ts:243-271 | A request that needs a code is rejected if and only if the code is wrong. |
| `ContactFilter.OutputIsClean` | Backend/src/messages/contact-filter.util.ts:38-57 | For every message, no match of any of the three patterns is left in the output, although later passes change what stands next to earlier results. |
| `Contacts.NumberExact` | Backend/src/messages/contact-filter.util.ts:22 | The telephone pattern describes exactly the words of digits, plus signs in front of digits and single separators behind digits that end with a bare digit and have nine digits or more. |
| `Contacts.DigitsAreNumber` | Backend/src/messages/contact-filter.util.ts:18-22 | Nine digits in a row, or more, are a number. |
| `Contacts.ChangedExactly` | Backend/src/messages/contact-filter.util.ts:38-57 | A message is changed if and only if such a number stands in it, one of the seven names on its own in whatever case, or an address; all three described character by character. |
| `Contacts.NothingLeft` | Backend/src/messages/contact-filter.util.ts:38-57 | No number, no name and no address of this description stands in the output. |
| `Contacts.Told` | Backend/src/messages/contact-filter.util.ts:41-54 | The output has the marker of the first kind of contact found in the message. |
| `Contacts.MarkerTexts` | Backend/src/messages/messages.service.ts:22 | The three markers, letter by letter. |
| `Contacts.OnlyTheNumber` | Backend/src/messages/contact-filter.util.ts:41-44 | Of a text around a number, nothing but the number is replaced by the first pass. |
| `Contacts.ReadsAsBefore` | Backend/src/messages/contact-filter.util.ts:38-57 | If the rest has neither name nor address, the message reads as before, but for the number. |
| `Contacts.NumberAlone` | Backend/src/messages/contact-filter.util.ts:41-44 | A message that is a number becomes the marker, and nothing else. |
| `ContactFilter.NoContactStands` | Backend/src/messages/contact-filter.util.ts:18-36 | The same in words: no word that stands in the output is a telephone number, an e-mail address or an application name between word boundaries. |
| `ContactFilter.SanitizedTwice` | Backend/src/messages/contact-filter.util.ts:38-57 | A second pass changes nothing. |
| `ContactFilter.FiltersIffChanges` | Backend/src/messages/contact-filter.util.ts:38-57 | Something is reported as filtered if and only if the text has changed. |
| `ContactFilter.MarkersSurvive` | Backend/src/messages/messages.service.ts:22 | Whatever a pass replaced, its marker is in the final text, where the messages service counts it. |
| `ContactFilter.PassKeepsOut` | Backend/src/messages/contact-filter.util.ts:46-54 | A pass brings back no match of a pattern that was already absent. |
| `ContactFilter.SanitizeContactInfo` | Backend/src/messages/contact-filter.util.ts:38-57 | The content is clean, the flag is set if and only if it differs from the input, and then a marker is in it. |
| `Replacing.ReplaceAll` | Backend/src/messages/contact-filter.util.ts:41-54 | One global replacement: the loop gives the replaced text and says whether there was a match. |
| `Patterns.PhoneSound` | Backend/src/messages/contact-filter.util.ts:22 | What the matcher finds is a word of the telephone pattern. |
| `Patterns.PhoneComplete` | Backend/src/messages/contact-filter.util.ts:22 | Where a word of the telephone pattern stands, the matcher finds one. |
| `Patterns.EmailSound` | Backend/src/messages/contact-filter.util.ts:31 | What the matcher finds is an address, with the end the greedy pattern takes. |
| `Patterns.EmailComplete` | Backend/src/messages/contact-filter.util.ts:31 | Where an address stands, the matcher finds one. |
| `Base64Url.DecodeEncode` | Backend/src/common/verification-token.util.ts:30 | Decoding gives back the bytes that were encoded, for every length. |
| `Base64Url.EncodeDecode` | Backend/src/common/verification-token.util.ts:63 | A text is the encoding of what it decodes to if and only if it has only letters of the alphabet and no stray bits in the last one. |
| `Base64Url.EncodedIsUrlSafe` | Backend/src/common/verification-token.util.ts:30-35 | Encoded text consists of letters, digits, "-" and "_", so never of the separator. |
| `Base64Url.EncodedLength` | Backend/src/common/verification-token.util.ts:30 | Unpadded: four letters for three bytes, two or three for what is left. |
| `Rfc4648.ThreeBytes` | Backend/src/common/verification-token.util.ts:30 | Three bytes become the four letters of their 24 bits, in front of what follows, in the alphabet of section 5 of RFC 4648. |
| `Rfc4648.OneByte` | Backend/src/common/verification-token.util.ts:30 | A last byte becomes two letters, the second filled up with zero bits. |
| `Rfc4648.TwoBytes` | Backend/src/common/verification-token.util.ts:30 | Two last bytes become three letters, the third filled up with zero bits. |
| `Rfc4648.PlaceExact` | Backend/src/common/verification-token.util.ts:63 | Reading a letter gives its place in the alphabet; "+" and "/" stand for the last two as well, and nothing else for anything. |
| `Rfc4648.OthersPassedOver` | Backend/src/common/verification-token.util.ts:63 | A character that stands for nothing makes no difference to what is decoded. |
| `Utf8.DecodeEncode` | Backend/src/common/verification-token.util.ts:63 | UTF-8 read back is the text that was written, for every text of Unicode scalar values. |
| `Utf8.EncodeDecode` | Backend/src/common/verification-token.util.ts:63 | Bytes that decode without U+FFFD are the encoding of what they decode to. |
| `Utf8.StrayByte` | Backend/src/common/verification-token.util.ts:63 | A byte that begins no well-formed character is replaced on its own. |
| `Utf8.StrayTwo` | Backend/src/common/verification-token.util.ts:63 | Two bytes that begin a longer character which does not go on are replaced together. |
| `Utf8.StrayThree` | Backend/src/common/verification-token.util.ts:63 | Three bytes that begin a character of four which does not go on are replaced together. |
| `Token.VerifySigned` | Backend/src/common/verification-token.util.ts:26-68 | For every secret and every id but the empty one, verifying a signed token returns the id; for the empty id it returns nothing. |
| `Token.AcceptedExactly` | Backend/src/common/verification-token.util.ts:43-68 | A token is accepted for an id if and only if it is a non-empty payload that stands for the id, a dot, and that payload's signature. |
| `Token.VerifyUnderAnotherSecret` | Backend/src/common/verification-token.util.ts:52-60 | Under another secret a token is accepted if and only if the two secrets hash its payload alike. |
| `Token.TokensDiffer` | Backend/src/common/verification-token.util.ts:26-36 | Two bookings never share a token, whatever the secrets. |
| `Subscriptions.SuspendedExactly` | Backend/src/subscriptions/subscriptions.service.ts:256-289 | A listing is suspended by the job if and only if it is ACTIVE and its owner has a running subscription whose end is past. |
| `Slugs.SlugifyGivesSlug` | Backend/src/auth/auth.service.ts:126-135 | At most 70 lower-case letters, digits and hyphens, no two hyphens in a row, for every name. |
| `Slugs.SlugifyKeepsSlugs` | Backend/src/auth/auth.service.ts:126-135 | The texts that stay as they are, are exactly those; so doing it twice changes nothing. |
| `SlugWords.WordsToSlug` | Backend/src/auth/auth.service.ts:126-135 | A name whose folded text is words of letters and digits, set apart by spaces or hyphens among any other signs, becomes these words in their order with one hyphen between them, up to 70 characters. |
| `SlugWords.NoWordsNoSlug` | Backend/src/auth/auth.service.ts:126-135 | A name without letters, digits and hyphens has no slug. |
| `Slugs.CandidateFits` | Backend/prisma/schema.prisma:28 | With a suffix below 10^9 a candidate fits the 80 characters of its column. |
| `Agencies.SearchEnds` | Backend/src/auth/auth.service.ts:142-154 | For every finite set of slugs in use some candidate, no later than there are slugs, is the first free one. |
| `Agencies.FreeIffFound` | Backend/src/auth/auth.service.ts:146-150 | Slugs being distinct, looking up one user by slug decides whether the slug is free for the caller. |
| `Agencies.RunKeepsSlugs` | Backend/src/auth/auth.service.ts:157-177 | Over every run of sign-ups, profile updates, agency creations and deletions, no two users share a slug and none is empty. |
| `Agencies.SlugIsForGood` | Backend/src/auth/auth.service.ts:161-171 | A slug, once set, stays the same over every run until the account is deleted. |
| `Agencies.SameNameAnotherSlug` | Backend/src/auth/auth.service.ts:138-155 | Of two agencies of one name the first gets the first free slug and the second another. |
| `Agencies.SlugFits` | Backend/src/auth/auth.service.ts:138-155 | The slug found is not empty and, below 10^9 slugs, fits its column. |
| `AgencyAccounts.AddressGiven` | Backend/src/auth/auth.service.ts:138-155 | The address is the slug of the name, or "agence" without one, if nobody else has it, and otherwise the same with the first of -2, -3 and so on that nobody else has. |
| `AgencyAccounts.AccountExact` | Backend/src/auth/auth.service.ts:157-177 | An account keeps e-mail and rights; its name is the last one given, and it gets an address if and only if it has none and gives a name. |
| `AgencyAccounts.AccountsExact` | Backend/src/auth/auth.service.ts:681-768 | An account appears or goes if and only if one of the named requests opens or closes it. |
| `AgencyAccounts.NewAccount` | Backend/src/auth/auth.service.ts:740-768 | A new account is no administrator; an agency has its name and the address found, a user neither. |
| `AgencyAccounts.AnswerExact` | Backend/src/auth/auth.service.ts:681-768 | Who hears what about accounts: unknown callers and targets, callers without rights, e-mails in use, accounts that are held. |
| `Fcfa.FormatIsGrouped` | Backend/src/pdf/pdf.service.ts:33-37 | The pattern with its look-ahead puts a space exactly between groups of three digits counted from the right, after the sign. |
| `Fcfa.GroupsOfThree` | Backend/src/pdf/pdf.service.ts:35 | Counted from the right, every fourth character is a space and every other a digit. |
| `Fcfa.FirstGroup` | Backend/src/pdf/pdf.service.ts:35 | The first group has one to three digits. |
| `Fcfa.FormatBack` | Backend/src/pdf/pdf.service.ts:33-37 | Without suffix and spaces the text is the rounded amount, and reads as it. |
| `Fcfa.FormatsDiffer` | Backend/src/pdf/pdf.service.ts:33-37 | Two amounts print alike if and only if they round to the same number of francs. |
| `Ranking.PagesTogether` | Backend/src/listings/listings.service.ts:203-209 | For every page size the pages, put together, are the ranked listings and so a permutation of the matching ones. |
| `Ranking.ListingOnOnePage` | Backend/src/listings/listings.service.ts:207-209 | A listing that matches once is on exactly one page. |
| `Ranking.RankedInOrder` | Backend/src/listings/listings.service.ts:200-205 | Priorities fall from place to place, and among equal ones the newer listing goes first. |
| `Ranking.RankedPermutes` | Backend/src/listings/listings.service.ts:174-205 | Ranking loses and doubles no listing. |
| `Ranking.SortSorts` | Backend/src/listings/listings.service.ts:200-205 | The sorted list is the one and only stable ordering of the scores, whatever algorithm sorts. |
| `Ranking.ProGoesFirst` | Backend/src/listings/listings.service.ts:182-195 | With scores from 0 to 100, a listing of an agency with an active PRO plan stands before every listing whose owner is no agency. |
| `Ranking.ProAgainstStarter` | Backend/src/listings/listings.service.ts:182-195 | With scores from 0 to 100, a STARTER listing stands before a PRO one only with a boost of 100 against none and at least as new a date, and always when it is newer too. |
| `Ranking.StarterCanGoFirst` | Backend/src/listings/listings.service.ts:187-192 | The exception is real: boosted to the limit, a newer STARTER listing ties and goes first. |
| `Ranking.BoostIsWorthFifty` | Backend/src/listings/listings.service.ts:182-195 | Outside the plans a boost that has not run out is worth exactly fifty points against any other listing, and one that has run out none; level listings go by date. |
| `Ranking.PlansAreWorthHundreds` | Backend/src/listings/listings.service.ts:182-195 | A plan is worth exactly a hundred points more than none, PRO another hundred, whether or not a boost has run out. |
| `Boosts.ScoresStayInRange` | Backend/src/listings/listings.service.ts:744-754 | Over every run of free and paid boosts, scores stay from 0 to 100. |
| `Boosts.ScoreCountsBoosts` | Backend/src/listings/listings.service.ts:763-802 | Over every run a score is ten for each free boost, each confirmed payment and each misplaced delivery, and at most a hundred. |
| `Boosts.StepCounts` | Backend/src/listings/listings.service.ts:763-802 | A request boosts a listing if and only if it is a free boost, confirms a payment, or delivers the good news of one invoice while another of the listing is the latest open one. |
| `Boosts.FirstOfTwoInvoices` | Backend/src/listings/listings.service.ts:783-792 | The last case is real: the owner starts two paid boosts and pays the first invoice; the listing is boosted, and the write of the payment is refused by the unique reference. |
| `Boosts.DeliveredTwice` | Backend/src/listings/listings.service.ts:770-802 | A delivery that comes again is harmless if and only if it decides nothing or leaves no payment of the listing open. |
| `Boosts.AmountsIgnored` | Backend/src/listings/listings.service.ts:763-802 | A run ends in the same scores and payments whatever amounts the gateway reports: none is compared with a price. |
| `BoostMoves.RowExact` | Backend/src/listings/listings.service.ts:744-802 | A listing gets ten points more, a hundred at most, and seven days from the request, if and only if its owner boosts it under a plan or good news comes while a payment of it is open. |
| `BoostMoves.PaymentsExact` | Backend/src/listings/listings.service.ts:589-802 | Payments are added and settled by exactly the named requests. |
| `BoostMoves.AnswerExact` | Backend/src/listings/listings.service.ts:589-802 | Which boosts and callbacks are accepted, and what the others hear. |
| `VisitSafety.AlwaysSound` | Backend/src/verifications/verifications.service.ts:116-125 | From a market without visits, over every run, deletions of accounts included: at most one open payment per listing; a payment that brought about a visit is confirmed, the visit is the one ordered, and no two payments share one; requested visits have no agent, and visits that are done were completed; a badge was earned by a completed visit. |
| `VisitSafety.RunSound` | Backend/src/verifications/verifications.service.ts:254-326 | The same from any state that has these properties. |
| `VisitSafety.StaffedExact` | Backend/src/auth/auth.service.ts:681-703 | One request keeps an agent on every visit that is SCHEDULED, IN_PROGRESS, DECLINE_PENDING or DONE if and only if it is not the deletion of an account that such a visit names. |
| `VisitSafety.StaffedRunExact` | Backend/prisma/migrations/20260524152014_verification_agent_id_nullable_add_requested_status/migration.sql:12 | A run has these visits always staffed if and only if no such deletion occurs in it. |
| `VisitStories.AgentGoes` | Backend/src/auth/auth.service.ts:389-391 | The exception is real: from a market without visits, administrator and agent sign up, the agent is given a visit and leaves; the visit is scheduled and has no agent. The run supposes that the notice of the visit, which would keep the account, was not stored. |
| `VisitSafety.ServedExact` | Backend/src/verifications/verifications.service.ts:311-316 | One request leaves no confirmed payment without its visit if and only if it is not the good news of an order whose preferred agent has no account: the payment is written first, and the visit refused. |
| `VisitSafety.ServedRunExact` | Backend/src/verifications/verifications.service.ts:254-284 | In a run every confirmed payment always has its visit if and only if no such news occurs in it. |
| `VisitStories.PaidForNothing` | Backend/src/verifications/verifications.service.ts:265-273 | The exception is real: an owner asks for an agent who has no account, pays, and gets no visit. |
| `VisitSafety.VisitsAccounted` | Backend/src/verifications/verifications.service.ts:254-284 | The visits made in a run are those of payments confirmed in it plus the requests that a plan covers: none is made twice, and none for nothing. |
| `VisitSafety.SettledIsFinal` | Backend/src/verifications/verifications.service.ts:298-322 | A payment that was confirmed or failed is never written again. |
| `VisitSafety.ReplayIsHarmless` | Backend/src/verifications/verifications.service.ts:292-326 | After its payment is settled, the good news of a token changes nothing, whenever it comes and whatever listing it names. |
| `VisitSafety.DeclineHits` | Backend/src/verifications/verifications.service.ts:317-322 | Bad news fails whichever payment of the listing is open, since the token is not compared. |
| `VisitStories.LateDeclineFailsTheNext` | Backend/src/verifications/verifications.service.ts:298-322 | So a cancellation delivered twice fails the next payment, whose good news then makes no visit: a complete run. |
| `VisitPrices.PaidInFullExact` | Backend/src/verifications/verifications.service.ts:303-316 | Every payment of a visit that a run confirms was paid the price it was opened at if and only if no webhook in the run reports less than the price for the open payment it meets: the webhook compares no amount. |
| `VisitPrices.ConfirmedByAnswer` | Backend/src/verifications/verifications.service.ts:298-316 | A run confirms a payment if and only if the gateway reported an amount for it. |
| `VisitPrices.ConfirmExact` | Backend/src/verifications/verifications.service.ts:298-316 | One request confirms a payment if and only if it is good news for the listing whose open payment it is, with a token no other payment has; prices stay, and what is confirmed stays confirmed. |
| `VisitPrices.AmountsIgnored` | Backend/src/verifications/verifications.service.ts:298-316 | A run ends in the same visits, payments and badges whatever amounts the gateway reports. |
| `VisitPrices.VisitForLess` | Backend/src/verifications/verifications.service.ts:311-316 | The exception is real: for any price and any lower amount, a run in which the owner pays that amount and the visit is made. |
| `VisitSafety.NoEarlyVisit` | Backend/src/verifications/verifications.service.ts:573-578 | A visit is not begun, and so not completed, earlier than fifteen minutes before its date, over every run. |
| `VisitMoves.StatusExact` | Backend/src/verifications/verifications.service.ts:491-708 | For each of the six statuses, one request brings a visit into it if and only if it is one of the named causes; only the agent who was given the visit starts, completes or declines it. |
| `VisitMoves.AgentExact` | Backend/src/verifications/verifications.service.ts:541-561 | Who has a visit changes by assignment, approved refusal and the deletion of the account alone, and its date of completion by its completion. |
| `VisitMoves.OrderExact` | Backend/src/verifications/verifications.service.ts:491-539 | What was ordered stays, but for the wish for an agent whose account goes. |
| `VisitMoves.AnswerExact` | Backend/src/verifications/verifications.service.ts:491-708 | A request about a visit is accepted if and only if it has a cause to change it or validates it; all others change nothing. |
| `VisitMoves.BadgeExact` | Backend/src/verifications/verifications.service.ts:591-785 | A listing has a badge after a request if and only if the request completes or validates a visit of it, or it had one that the request does not expire. |
| `VisitMoves.AccountsExact` | Backend/src/auth/auth.service.ts:681-703 | An account is there after a request if it signs up, or was there and does not leave: nothing holds it and it owns no listing. |
| `VisitMoves.OthersAnswered` | Backend/src/auth/auth.service.ts:681-703 | Only an account that is unknown or held cannot be deleted. |
| `VisitMoves.PaymentExact` | Backend/src/verifications/verifications.service.ts:292-326 | A payment changes by the answer about the latest open payment of its listing alone, and how. |
| `VisitMoves.OrderAnswered` | Backend/src/verifications/verifications.service.ts:66-251 | An order is accepted if and only if a plan covers it or a payment can be opened for it, and adds just that. |
| `VisitMoves.OrderRefused` | Backend/src/verifications/verifications.service.ts:66-126 | What is heard when nothing is ordered: unknown or foreign listing, a visit under way, an open payment, no invoice, an unknown agent. |
| `VisitMoves.CallbackAnswered` | Backend/src/verifications/verifications.service.ts:292-326 | What the gateway's callback is answered, in every case. |
| `VisitMoves.SecondOrderConflicts` | Backend/src/verifications/verifications.service.ts:96-106 | A second order while a visit of the listing is under way is a conflict and changes nothing. |
| `VisitMoves.VisitsExact` | Backend/src/verifications/verifications.service.ts:254-284 | Visits are added by covered orders and confirmed payments, one at a time, as REQUESTED. |
| `Payments.PaymentsService.GenerateContract` | Backend/src/contracts/contracts.service.ts:143-159 | Adds a contract for the booking unless it has one. |
| `Payments.PaymentsService.MarkBookingPaid` | Backend/src/payments/payments.service.ts:44-78 | Writes status, escrow and reference, and for a lease the listing status and the contract, as the rules of `Market` store a payment; no guard of its own. |
| `Payments.PaymentsService.Initiate` | Backend/src/payments/payments.service.ts:80-135 | The whole new state and the answer are those of the rules: error cases, reuse of an invoice, new invoice. |
| `Payments.PaymentsService.ReuseInvoice` | Backend/src/payments/payments.service.ts:97-131 | The reuse branch of `initiate`: the state change of the check survives the "already paid" error. |
| `Payments.PaymentsService.HandlePaydunyaWebhook` | Backend/src/payments/payments.service.ts:272-342 | The whole new state and the answer are those of the rules, for every verdict of the gateway and every status. |
| `Payments.PaymentsService.VerifyBooking` | Backend/src/payments/payments.service.ts:349-455 | As the webhook, with the different guards of the active check. |
| `Payments.PaymentsService.Release` | Backend/src/payments/payments.service.ts:457-470 | Funds that are held go to the landlord; otherwise an error and no change. |
| `Payments.PaymentsService.Refund` | Backend/src/payments/payments.service.ts:472-485 | Funds that are held go back to the tenant; otherwise an error and no change. |
| `Bookings.BookingsService.Create` | Backend/src/bookings/bookings.service.ts:62-197 | The whole new state and the answer are those of the rules: five refusals, or one new PENDING stay. |
| `Bookings.BookingsService.CreateMonthlyRequest` | Backend/src/bookings/bookings.service.ts:204-329 | As `Create`, for a lease request: an open lease, a stay over the move-in date or a listing that is not ACTIVE refuses it. |
| `Bookings.BookingsService.ApproveMonthlyRequest` | Backend/src/bookings/bookings.service.ts:332-370 | REQUESTED leases only, by the owner only. |
| `Bookings.BookingsService.RejectMonthlyRequest` | Backend/src/bookings/bookings.service.ts:373-411 | REQUESTED leases only, by the owner only. |
| `Bookings.BookingsService.TerminateLease` | Backend/src/bookings/bookings.service.ts:417-467 | A running lease ends and its listing becomes ACTIVE in the same step. |
| `Bookings.BookingsService.Confirm` | Backend/src/bookings/bookings.service.ts:664-697 | PENDING becomes CONFIRMED and the escrow stays as it is. |
| `Bookings.BookingsService.Cancel` | Backend/src/bookings/bookings.service.ts:699-777 | Every status but CANCELLED and COMPLETED; the refund depends on who cancels and on the seven days; the listing is not touched. |
| `Bookings.BookingsService.Complete` | Backend/src/bookings/bookings.service.ts:819-858 | A CONFIRMED stay past its end and not in dispute; whatever the escrow was, it is RELEASED. |
| `Bookings.BookingsService.ReportDispute` | Backend/src/bookings/bookings.service.ts:866-919 | Within the 24 hours after arrival, for held funds, by the tenant. |
| `Bookings.BookingsService.ResolveDispute` | Backend/src/bookings/bookings.service.ts:934-969 | Either COMPLETED and RELEASED or CANCELLED and REFUNDED, by an administrator. |
| `Listings.ListingsService.Create` | Backend/src/listings/listings.service.ts:372-392 | A new listing is ACTIVE or DRAFT as asked; without the right to publish, or with night limits that cross, it is refused. |
| `Listings.ListingsService.Update` | Backend/src/listings/listings.service.ts:394-424 | New terms of a listing; its status and every booking stay. |
| `Listings.ListingsService.ArchiveListing` | Backend/src/listings/listings.service.ts:427-443 | Every listing of the owner but a rented one is suspended. |
| `Listings.ListingsService.RestoreListing` | Backend/src/listings/listings.service.ts:446-469 | A suspended listing becomes ACTIVE or DRAFT again. |
| `Listings.ListingsService.UnpublishListing` | Backend/src/listings/listings.service.ts:471-487 | From ACTIVE only. |
| `Listings.ListingsService.PublishListing` | Backend/src/listings/listings.service.ts:489-506 | From DRAFT only, if the plan allows. |
| `Listings.ListingsService.ActivateListing` | Backend/src/listings/listings.service.ts:508-523 | An override by an administrator or field agent, from any status. |
| `Listings.ListingsService.SuspendListing` | Backend/src/listings/listings.service.ts:525-534 | An override by an administrator, from any status. |
| `Listings.ListingsService.Remove` | Backend/src/listings/listings.service.ts:536-587 | The listing goes, and with it its bookings and their contracts. |
| `PlatformPrices.PlatformConfigService.Promote` | Backend/src/platform-config/platform-config.service.ts:141-167 | The pending values replace the prices once due, and not an instant before. |
| `PlatformPrices.PlatformConfigService.GetOrCreateRow` | Backend/src/platform-config/platform-config.service.ts:123-138 | The row after promotion, or the defaults on first use. |
| `PlatformPrices.PlatformConfigService.VerifyConfirmation` | Backend/src/platform-config/platform-config.service.ts:243-271 | The answer; only the PIN method reads, and so may promote, the row. |
| `PlatformPrices.PlatformConfigService.ReadConfig` | Backend/src/platform-config/platform-config.service.ts:202-205 | The reply and the new row are those of the rules. |
| `PlatformPrices.PlatformConfigService.ReadPricing` | Backend/src/platform-config/platform-config.service.ts:207-218 | The reply and the new row are those of the rules. |
| `PlatformPrices.PlatformConfigService.UpdateConfig` | Backend/src/platform-config/platform-config.service.ts:273-356 | No change, an immediate change or a scheduled one that replaces any other, after promotion of what was due. |
| `PlatformPrices.PlatformConfigService.CancelPendingChange` | Backend/src/platform-config/platform-config.service.ts:359-389 | Clears what is pending after promotion of what was due. |
| `PlatformPrices.PlatformConfigService.ChangeThePin` | Backend/src/platform-config/platform-config.service.ts:391-406 | Keeps prices and the pending change. |
| `Subscriptions.SubscriptionsService.SuspendExpiredSubscriptions` | Backend/src/subscriptions/subscriptions.service.ts:256-289 | Subscriptions that have run out are suspended and no other; the ACTIVE listings of their owners are, and no rented one; none is left that has run out. |
| `Agencies.AuthService.FindBySlug` | Backend/src/auth/auth.service.ts:146-149 | A user with the slug, if there is one. |
| `Agencies.AuthService.GenerateUniqueAgencySlug` | Backend/src/auth/auth.service.ts:138-155 | The loop ends, and returns the first candidate that is free or the caller's own. |
| `Agencies.AuthService.UpdateMe` | Backend/src/auth/auth.service.ts:157-177 | The whole new table: a slug is assigned with the first name given, and never again. |
| `Agencies.AuthService.CreateProAgence` | Backend/src/auth/auth.service.ts:706-768 | The whole new table: three refusals, or a new account with its slug. |
| `Boosts.BoostsService.ApplyBoost` | Backend/src/listings/listings.service.ts:744-754 | Ten more, a hundred at most, for seven days. |
| `Boosts.BoostsService.BoostListing` | Backend/src/listings/listings.service.ts:589-610 | The whole new state and the answer are those of the rules: owner, plan, invoice. |
| `Boosts.BoostsService.HandleBoostWebhook` | Backend/src/listings/listings.service.ts:763-802 | The whole new state and the answer are those of the rules. |
| `Verifications.VerificationsService.HasOngoing` | Backend/src/verifications/verifications.service.ts:83-89 | Finds out whether a visit of the listing is under way. |
| `Verifications.VerificationsService.Create` | Backend/src/verifications/verifications.service.ts:66-126 | Four refusals, a free visit, or a payment to wait for. |
| `Verifications.VerificationsService.InitiatePayment` | Backend/src/verifications/verifications.service.ts:128-251 | A new open payment, unless the gateway issues no invoice or its reference is taken. |
| `Verifications.VerificationsService.InsertVisit` | Backend/src/verifications/verifications.service.ts:265-273 | A new requested visit, unless the preferred agent has no account. |
| `Verifications.VerificationsService.CreateVerificationFromPayment` | Backend/src/verifications/verifications.service.ts:254-284 | One visit for a payment that has none; nothing for one that has. |
| `Verifications.VerificationsService.HandleWebhookPayDunya` | Backend/src/verifications/verifications.service.ts:292-326 | The whole new state and the answer are those of the rules, for every answer of the gateway. |
| `Verifications.VerificationsService.Decline` | Backend/src/verifications/verifications.service.ts:491-512 | By the assigned agent, from SCHEDULED only. |
| `Verifications.VerificationsService.ApproveDecline` | Backend/src/verifications/verifications.service.ts:514-528 | Back to REQUESTED, without an agent. |
| `Verifications.VerificationsService.RefuseDecline` | Backend/src/verifications/verifications.service.ts:530-539 | Back to SCHEDULED, with the same agent. |
| `Verifications.VerificationsService.AssignAgent` | Backend/src/verifications/verifications.service.ts:541-561 | From any status, an agent with an account. |
| `Verifications.VerificationsService.Start` | Backend/src/verifications/verifications.service.ts:563-589 | By the assigned agent, from fifteen minutes before the date on, from any status. |
| `Verifications.VerificationsService.Complete` | Backend/src/verifications/verifications.service.ts:591-626 | By the assigned agent, from IN_PROGRESS only, with the badge. |
| `Verifications.VerificationsService.Validate` | Backend/src/verifications/verifications.service.ts:652-677 | The badge, for a completed visit only. |
| `Verifications.VerificationsService.Reject` | Backend/src/verifications/verifications.service.ts:679-708 | By agent or administrator, while the visit is under way. |
| `Verifications.VerificationsService.ExpireOldBadges` | Backend/src/verifications/verifications.service.ts:773-785 | Badges older than the cutoff go, and nothing else. |

## Left out

- Database races: two requests that read before either writes. Each request is one step.
- The branches that simulate payments in development (`Backend/src/payments/payments.service.ts:145-175`,
  `Backend/src/listings/listings.service.ts:628-657`, `Backend/src/verifications/verifications.service.ts:137-163`).
- Checks of roles in the controllers; where a service checks a role itself, the model does.
- Notifications, mail, accounts at the identity provider, image storage, search index, PDF layout: they
  change none of the tables modelled.
- Columns nothing here depends on: reasons and evidence of disputes, reports, photographs, ratings, texts.
- Stays that end before they begin: the services do not check it. The properties of runs hold for them as
  well; those of the calendar suppose that there are none.
- Pages numbered below 1, and page sizes below 1.
- Calendar arithmetic in a time zone: days are 24 hours, seven days of boost are seven times that.
- Fcfa.FormatIsGrouped: does not model how a number beyond 2^53 loses digits, nor the exponent that
  printing uses from 10^21 on.
- Token.VerifySigned: does not cover ids with half of a surrogate pair, which UTF-8 cannot carry.
- Ranking.SortSorts: does not model the sorting in place of an array, which the runtime does; the
  filters of the query, which choose the listings, come before.
- PlatformPrices.PlatformConfigService.VerifyConfirmation: does not model codes, their hashes, and the
  expiry and single use of mailed ones; whether a code is right is a parameter.
- PlatformPrices.PlatformConfigService.ChangeThePin: does not model the new PIN, which nothing else here reads.
- Removal of a listing in the modules of boosts and visits: their rows are modelled while the listing exists.
- The monthly price derived from a nightly one when a listing is saved, and the limit of listings of a
  plan: whether a listing may be published is a parameter.
- Analytics, profile pages, favourites, reports, reviews, seeds and scripts.
