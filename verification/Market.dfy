/**
 The rows of the marketplace and the rules by which requests change them: what one
 request, handled as one atomic step, does to the tables of bookings, listings and
 contracts. Instants are integers (milliseconds since the epoch), amounts of FCFA are
 integers, listed prices and rates are reals.
 */
module Market {
  import opened Invoices
  import opened Wrappers

  const DISPUTE_WINDOW_HOURS := 24
  const DAYS_PER_MONTH := 30
  const DEFAULT_MIN_LEASE_MONTHS := 1

  /** The instant the source writes as `new Date('9999-12-31')`. */
  const FAR_FUTURE := 253_402_214_400_000

  type Id = string

  datatype BookingType = Nightly | Monthly

  datatype BookingStatus =
    | Pending | Confirmed | Cancelled | Completed
    | Requested | Approved | Rejected | Active | Terminated

  datatype EscrowStatus = AwaitingPayment | Held | Disputed | Released | Refunded

  datatype ListingStatus = Draft | Active | Rented | Suspended

  datatype RentalMode = NightlyOnly | MonthlyOnly | Mixed

  datatype Booking = Booking(
    listingId: Id,
    tenantId: Id,
    bookingType: BookingType,
    status: BookingStatus,
    escrow: EscrowStatus,
    start: int,
    end: Option<int>,
    totalAmount: int,
    platformFee: int,
    landlordAmount: int,
    depositAmount: Option<int>,
    paymentRef: Option<string>)

  /** What a listing offers; an owner may edit it at any time. */
  datatype Terms = Terms(
    rentalMode: RentalMode,
    price: real,
    pricePerNight: Option<real>,
    minimumNights: Option<int>,
    maximumNights: Option<int>,
    minLeaseMonths: Option<int>,
    depositMonths: Option<int>)

  datatype Listing = Listing(ownerId: Id, status: ListingStatus, terms: Terms)

  datatype State = State(bookings: map<Id, Booking>, listings: map<Id, Listing>, contracts: seq<Id>)

  /** The foreign keys the database enforces. */
  ghost predicate Linked(s: State) {
    && (forall id | id in s.bookings :: s.bookings[id].listingId in s.listings)
    && (forall id | id in s.contracts :: id in s.bookings)
  }

  datatype Actor = Actor(id: Id, isAdmin: bool, isAgent: bool)

  datatype Outcome = Accepted | NotFound | Forbidden | BadRequest

  /** What the payment gateway says about an invoice when asked. `Waiting` stands for every
      status other than completed, cancelled and failed. */
  datatype Verdict = Unreachable | Waiting | Declined | Paid(amount: real)

  datatype RowEvent =
    | Approve
    | Reject
    | Terminate
    | Confirm
    | Cancel
    | Complete
    | ReportDispute
    | ResolveDispute(release: bool)
    | Webhook(token: string, answer: Verdict)
    | Verify(answer: Verdict)
    | Initiate(answer: Verdict, invoice: Option<string>)
    | Release
    | Refund

  // ----- one booking row -----

  predicate HasInvoice(b: Booking) {
    b.paymentRef.Some? && REF_PREFIX <= b.paymentRef.value
  }

  predicate AmountMatches(b: Booking, amount: real) {
    -1.0 <= amount - b.totalAmount as real <= 1.0
  }

  function MarkPaid(b: Booking, ref: Option<string>): Booking {
    b.(status := if b.bookingType.Monthly? then BookingStatus.Active else Confirmed,
       escrow := Held,
       paymentRef := if ref.Some? then ref else b.paymentRef)
  }

  function MarkDeclined(b: Booking): Booking {
    b.(status := Cancelled, escrow := Refunded)
  }

  /** What else a step on a booking sets off. */
  datatype Effect = Nothing | Payment | LeaseEnd

  datatype RowReply = RowReply(outcome: Outcome, row: Booking, effect: Effect)

  function Refused(b: Booking): RowReply {
    RowReply(BadRequest, b, Nothing)
  }

  function Done(b: Booking): RowReply {
    RowReply(Accepted, b, Nothing)
  }

  function OnWebhook(b: Booking, token: string, answer: Verdict): RowReply {
    if b.status in {Confirmed, Completed, BookingStatus.Active, Terminated} then Done(b)
    else
      match answer
      case Unreachable => Refused(b)
      case Waiting => Done(b)
      case Declined => Done(MarkDeclined(b))
      case Paid(amount) =>
        if AmountMatches(b, amount) then RowReply(Accepted, MarkPaid(b, Some(Ref(token))), Payment) else Refused(b)
  }

  function OnVerify(b: Booking, answer: Verdict): RowReply {
    if b.status in {Confirmed, BookingStatus.Active} || !HasInvoice(b) then Done(b)
    else
      match answer
      case Unreachable => Done(b)
      case Waiting => Done(b)
      case Declined => if b.status == Cancelled then Done(b) else Done(MarkDeclined(b))
      case Paid(amount) =>
        if AmountMatches(b, amount) then RowReply(Accepted, MarkPaid(b, None), Payment) else Refused(b)
  }

  /** The status in which a booking waits for its payment. */
  function Payable(b: Booking): BookingStatus {
    if b.bookingType.Monthly? then Approved else Pending
  }

  function OnInitiate(b: Booking, answer: Verdict, invoice: Option<string>): RowReply {
    if b.bookingType.Monthly? && b.status != Approved then Refused(b)
    else if b.status == Payable(b) && HasInvoice(b) then
      var checked := OnVerify(b, answer);
      // the "already paid" error leaves the payment it has just discovered in place
      if checked.row.status != Payable(b) then checked.(outcome := BadRequest) else checked
    else if invoice.None? then Refused(b)
    else Done(b.(paymentRef := Some(Ref(invoice.value))))
  }

  function OnCancel(b: Booking, now: int, byTenant: bool): RowReply {
    if b.status in {Cancelled, Completed} then Refused(b)
    else if b.status == Confirmed && b.start < now then Refused(b)
    else
      var escrow :=
        if b.escrow != Held then b.escrow
        else if byTenant && b.start - now <= 7 * DAY then Released
        else Refunded;
      Done(b.(status := Cancelled, escrow := escrow))
  }

  function OnComplete(b: Booking, now: int): RowReply {
    if b.status != Confirmed || b.escrow == Disputed then Refused(b)
    else if now < b.end.GetOr(b.start) then Refused(b)
    else Done(b.(status := Completed, escrow := Released))
  }

  function OnReportDispute(b: Booking, now: int): RowReply {
    if b.status != Confirmed || b.escrow != Held then Refused(b)
    else if now < b.start || b.start + DISPUTE_WINDOW_HOURS * HOUR < now then Refused(b)
    else Done(b.(escrow := Disputed))
  }

  function OnResolveDispute(b: Booking, release: bool): RowReply {
    if b.escrow != Disputed then Refused(b)
    else if release then Done(b.(status := Completed, escrow := Released))
    else Done(b.(status := Cancelled, escrow := Refunded))
  }

  /** The effect of one permitted request on the row it names. */
  function RowStep(b: Booking, now: int, byTenant: bool, e: RowEvent): RowReply {
    match e
    case Approve =>
      if b.bookingType.Monthly? && b.status == Requested then Done(b.(status := Approved)) else Refused(b)
    case Reject =>
      if b.bookingType.Monthly? && b.status == Requested then Done(b.(status := Rejected)) else Refused(b)
    case Terminate =>
      if b.bookingType.Monthly? && b.status == BookingStatus.Active
      then RowReply(Accepted, b.(status := Terminated), LeaseEnd) else Refused(b)
    case Confirm => if b.status == Pending then Done(b.(status := Confirmed)) else Refused(b)
    case Cancel => OnCancel(b, now, byTenant)
    case Complete => OnComplete(b, now)
    case ReportDispute => OnReportDispute(b, now)
    case ResolveDispute(release) => OnResolveDispute(b, release)
    case Webhook(token, answer) => OnWebhook(b, token, answer)
    case Verify(answer) => OnVerify(b, answer)
    case Initiate(answer, invoice) => OnInitiate(b, answer, invoice)
    case Release => if b.escrow == Held then Done(b.(escrow := Released)) else Refused(b)
    case Refund => if b.escrow == Held then Done(b.(escrow := Refunded)) else Refused(b)
  }

  // ----- the tables -----

  datatype Reply = Reply(outcome: Outcome, state: State)

  /** Who may send which request: `Accepted`, or the refusal the caller gets. */
  function Permission(b: Booking, owner: Id, who: Actor, e: RowEvent): Outcome {
    match e
    case Approve => if who.id == owner then Accepted else Forbidden
    case Reject => if who.id == owner then Accepted else Forbidden
    case Confirm => if who.id == owner then Accepted else Forbidden
    case Terminate => if who.id == owner || who.id == b.tenantId || who.isAdmin then Accepted else Forbidden
    case Cancel => if who.id == owner || who.id == b.tenantId then Accepted else Forbidden
    case Complete => if who.id == owner || who.isAdmin then Accepted else Forbidden
    case ReportDispute => if who.id == b.tenantId then Accepted else Forbidden
    case ResolveDispute(_) => if who.isAdmin then Accepted else Forbidden
    case Verify(_) => if who.id == b.tenantId then Accepted else BadRequest
    case Initiate(_, _) => if who.id == b.tenantId then Accepted else BadRequest
    case Webhook(_, _) => Accepted
    case Release => Accepted
    case Refund => Accepted
  }

  /** The answer to a request about a booking that does not exist. */
  function Missing(who: Actor, e: RowEvent): Outcome {
    match e
    case Webhook(_, _) => Accepted
    case ResolveDispute(_) => if who.isAdmin then NotFound else Forbidden
    case _ => NotFound
  }

  /** What permission and the row together answer. */
  function Judge(s: State, now: int, id: Id, who: Actor, e: RowEvent): RowReply
    requires Linked(s) && id in s.bookings
  {
    var b := s.bookings[id];
    var permission := Permission(b, s.listings[b.listingId].ownerId, who, e);
    if permission != Accepted then RowReply(permission, b, Nothing)
    else RowStep(b, now, who.id == b.tenantId, e)
  }

  function WithListingStatus(listings: map<Id, Listing>, id: Id, status: ListingStatus): map<Id, Listing>
    requires id in listings
  {
    listings[id := listings[id].(status := status)]
  }

  /** A contract is made once per booking. */
  function WithContract(contracts: seq<Id>, id: Id): seq<Id> {
    if id in contracts then contracts else contracts + [id]
  }

  /** Writes a row back, together with what the step sets off. */
  function Store(s: State, id: Id, r: RowReply): (t: State)
    requires Linked(s) && r.row.listingId in s.listings
    ensures Linked(t)
  {
    var leaseStarts := r.effect.Payment? && r.row.bookingType.Monthly?;
    State(
      s.bookings[id := r.row],
      if leaseStarts then WithListingStatus(s.listings, r.row.listingId, Rented)
      else if r.effect.LeaseEnd? then WithListingStatus(s.listings, r.row.listingId, ListingStatus.Active)
      else s.listings,
      if leaseStarts then WithContract(s.contracts, id) else s.contracts)
  }

  function OnBooking(s: State, now: int, id: Id, who: Actor, e: RowEvent): (r: Reply)
    requires Linked(s)
    ensures Linked(r.state)
  {
    if id !in s.bookings then Reply(Missing(who, e), s)
    else
      var judged := Judge(s, now, id, who, e);
      Reply(judged.outcome, Store(s, id, judged))
  }

  // ----- new bookings -----

  /** The statuses that hold dates. */
  predicate HoldsDates(b: Booking) {
    b.status in {Pending, Confirmed}
  }

  /** The query of the source for a stay standing in the way of [start, end]. */
  predicate InTheWay(b: Booking, listingId: Id, start: int, end: Option<int>) {
    && b.listingId == listingId
    && HoldsDates(b)
    && b.start <= end.GetOr(FAR_FUTURE)
    && (b.end.None? || start <= b.end.value)
  }

  /** The statuses of a lease that is asked for, agreed or running. */
  predicate OpenLease(b: Booking) {
    b.bookingType.Monthly? && b.status in {Requested, Approved, BookingStatus.Active}
  }

  predicate MoveInTaken(b: Booking, listingId: Id, moveIn: int) {
    && b.listingId == listingId
    && b.bookingType.Nightly?
    && HoldsDates(b)
    && b.start <= moveIn
    && b.end.Some? && moveIn <= b.end.value
  }

  function Nights(start: int, end: Option<int>): int {
    if end.None? then 1 else Round((end.value - start) as real / DAY as real)
  }

  function MinLeaseDays(t: Terms): int {
    t.minLeaseMonths.GetOr(DEFAULT_MIN_LEASE_MONTHS) * DAYS_PER_MONTH
  }

  /** The length of stay fits the listing; a limit of zero nights is no limit. */
  predicate NightsAllowed(t: Terms, nights: int) {
    && (t.minimumNights.GetOr(0) != 0 ==> t.minimumNights.value <= nights)
    && (t.rentalMode.NightlyOnly? && t.maximumNights.GetOr(0) != 0 ==> nights <= t.maximumNights.value)
    && (t.rentalMode.Mixed? ==> nights < MinLeaseDays(t))
  }

  /** The price of a night: as listed, or a thirtieth of the monthly price. */
  function NightRate(t: Terms): real {
    var perNight := t.pricePerNight.GetOr(0.0);
    if perNight > 0.0 then perNight else t.price / DAYS_PER_MONTH as real
  }

  function StayTotal(t: Terms, nights: int): int {
    Round(NightRate(t) * nights as real)
  }

  function NightlyFee(total: int, rate: real): int {
    Round(total as real * rate)
  }

  function Deposit(t: Terms): int {
    Round(t.price * t.depositMonths.GetOr(0) as real)
  }

  function LeaseTotal(t: Terms): int {
    Round(t.price + Deposit(t) as real)
  }

  function LeaseFee(t: Terms, months: real): int {
    Round(t.price * months)
  }

  function NewStay(listingId: Id, tenantId: Id, t: Terms, start: int, end: Option<int>, rate: real): Booking {
    var total := StayTotal(t, Nights(start, end));
    var fee := NightlyFee(total, rate);
    Booking(listingId, tenantId, Nightly, Pending, AwaitingPayment, start, end, total, fee, total - fee, None, None)
  }

  function NewLease(listingId: Id, tenantId: Id, t: Terms, moveIn: int, months: real): Booking {
    var total := LeaseTotal(t);
    var fee := LeaseFee(t, months);
    Booking(listingId, tenantId, Monthly, Requested, AwaitingPayment, moveIn, None, total, fee,
            Max(0, total - fee), Some(Deposit(t)), None)
  }

  /** `id` is the identifier the database draws; one already in use is a refused insert. */
  function BookStay(s: State, id: Id, tenantId: Id, listingId: Id, start: int, end: Option<int>, rate: real): (r: Reply)
    requires Linked(s)
    ensures Linked(r.state)
  {
    if listingId !in s.listings then Reply(NotFound, s)
    else
      var l := s.listings[listingId];
      if l.ownerId == tenantId then Reply(Forbidden, s)
      else if
        || id in s.bookings
        || l.status.Rented?
        || l.terms.rentalMode.MonthlyOnly?
        || (exists k | k in s.bookings :: InTheWay(s.bookings[k], listingId, start, end))
        || !NightsAllowed(l.terms, Nights(start, end))
      then Reply(BadRequest, s)
      else Reply(Accepted, s.(bookings := s.bookings[id := NewStay(listingId, tenantId, l.terms, start, end, rate)]))
  }

  function RequestLease(s: State, id: Id, tenantId: Id, listingId: Id, moveIn: int, months: real): (r: Reply)
    requires Linked(s)
    ensures Linked(r.state)
  {
    if listingId !in s.listings then Reply(NotFound, s)
    else
      var l := s.listings[listingId];
      if l.ownerId == tenantId then Reply(Forbidden, s)
      else if
        || id in s.bookings
        || l.terms.rentalMode.NightlyOnly?
        || l.status != ListingStatus.Active
        || (exists k | k in s.bookings :: s.bookings[k].listingId == listingId && OpenLease(s.bookings[k]))
        || (exists k | k in s.bookings :: MoveInTaken(s.bookings[k], listingId, moveIn))
      then Reply(BadRequest, s)
      else Reply(Accepted, s.(bookings := s.bookings[id := NewLease(listingId, tenantId, l.terms, moveIn, months)]))
  }

  // ----- listings -----

  datatype ListingEvent =
    | Archive
    | Restore(published: bool)
    | Unpublish
    | Publish(check: Outcome)
    | Activate
    | Suspend
    | Edit(terms: Terms)

  predicate ValidNightsRange(t: Terms) {
    t.minimumNights.Some? && t.maximumNights.Some? ==> t.minimumNights.value <= t.maximumNights.value
  }

  /** `check` is the answer of the subscription check. Whoever may not activate or suspend is turned away
      before the listing is looked up. */
  function ListingStep(l: Listing, who: Actor, e: ListingEvent): (Outcome, Listing) {
    var isOwner := who.id == l.ownerId;
    match e
    case Archive =>
      if !isOwner then (Forbidden, l)
      else if l.status in {Suspended, Rented} then (BadRequest, l)
      else (Accepted, l.(status := Suspended))
    case Restore(published) =>
      if !isOwner then (Forbidden, l)
      else if l.status != Suspended then (BadRequest, l)
      else (Accepted, l.(status := if published then ListingStatus.Active else Draft))
    case Unpublish =>
      if !isOwner then (Forbidden, l)
      else if l.status != ListingStatus.Active then (BadRequest, l)
      else (Accepted, l.(status := Draft))
    case Publish(check) =>
      if !isOwner then (Forbidden, l)
      else if l.status != Draft then (BadRequest, l)
      else if check != Accepted then (check, l)
      else (Accepted, l.(status := ListingStatus.Active))
    case Activate => (Accepted, l.(status := ListingStatus.Active))
    case Suspend => (Accepted, l.(status := Suspended))
    case Edit(terms) =>
      if !isOwner && !who.isAdmin then (Forbidden, l)
      else if !ValidNightsRange(terms) then (BadRequest, l)
      else (Accepted, l.(terms := terms))
  }

  function OnListing(s: State, id: Id, who: Actor, e: ListingEvent): (r: Reply)
    requires Linked(s)
    ensures Linked(r.state)
  {
    if (e.Activate? && !who.isAdmin && !who.isAgent) || (e.Suspend? && !who.isAdmin) then Reply(Forbidden, s)
    else if id !in s.listings then Reply(NotFound, s)
    else
      var (outcome, l) := ListingStep(s.listings[id], who, e);
      Reply(outcome, s.(listings := s.listings[id := l]))
  }

  function AddListing(s: State, id: Id, ownerId: Id, terms: Terms, publish: bool, check: Outcome): (r: Reply)
    requires Linked(s)
    ensures Linked(r.state)
  {
    if publish && check != Accepted then Reply(check, s)
    else if !ValidNightsRange(terms) || id in s.listings then Reply(BadRequest, s)
    else
      var status := if publish then ListingStatus.Active else Draft;
      Reply(Accepted, s.(listings := s.listings[id := Listing(ownerId, status, terms)]))
  }

  function Without(contracts: seq<Id>, gone: set<Id>): (r: seq<Id>)
    ensures forall k :: k in r <==> k in contracts && k !in gone
  {
    if contracts == [] then []
    else if contracts[0] in gone then Without(contracts[1..], gone)
    else [contracts[0]] + Without(contracts[1..], gone)
  }

  /** Removing a listing removes its bookings, and their contracts with them. */
  function RemoveListing(s: State, id: Id, who: Actor): (r: Reply)
    requires Linked(s)
    ensures Linked(r.state)
  {
    if id !in s.listings then Reply(NotFound, s)
    else if who.id != s.listings[id].ownerId && !who.isAdmin then Reply(Forbidden, s)
    else
      var gone := set k | k in s.bookings && s.bookings[k].listingId == id;
      Reply(Accepted, State(s.bookings - gone, s.listings - {id}, Without(s.contracts, gone)))
  }

  /** The nightly job: active listings of owners whose subscription has run out are suspended. */
  function SuspendExpired(s: State, owners: set<Id>): (r: Reply)
    requires Linked(s)
    ensures Linked(r.state)
  {
    Reply(Accepted, s.(listings :=
      map id | id in s.listings ::
        var l := s.listings[id];
        if l.ownerId in owners && l.status == ListingStatus.Active then l.(status := Suspended) else l))
  }

  // ----- requests and runs -----

  datatype Request =
    | ForBooking(id: Id, who: Actor, event: RowEvent)
    | Book(id: Id, tenantId: Id, listingId: Id, start: int, end: Option<int>, rate: real)
    | AskLease(id: Id, tenantId: Id, listingId: Id, moveIn: int, months: real)
    | ForListing(id: Id, who: Actor, change: ListingEvent)
    | NewListing(id: Id, ownerId: Id, terms: Terms, publish: bool, check: Outcome)
    | Remove(id: Id, who: Actor)
    | Expire(owners: set<Id>)

  function Step(s: State, now: int, q: Request): (r: Reply)
    requires Linked(s)
    ensures Linked(r.state)
  {
    match q
    case ForBooking(id, who, e) => OnBooking(s, now, id, who, e)
    case Book(id, tenantId, listingId, start, end, rate) => BookStay(s, id, tenantId, listingId, start, end, rate)
    case AskLease(id, tenantId, listingId, moveIn, months) => RequestLease(s, id, tenantId, listingId, moveIn, months)
    case ForListing(id, who, change) => OnListing(s, id, who, change)
    case NewListing(id, ownerId, terms, publish, check) => AddListing(s, id, ownerId, terms, publish, check)
    case Remove(id, who) => RemoveListing(s, id, who)
    case Expire(owners) => SuspendExpired(s, owners)
  }

  datatype Entry = Entry(now: int, request: Request)

  function After(s: State, e: Entry): (t: State)
    requires Linked(s)
    ensures Linked(t)
  {
    Step(s, e.now, e.request).state
  }

  /** The clock never goes back. */
  ghost predicate Chronological(tr: seq<Entry>) {
    forall i, j | 0 <= i < j < |tr| :: tr[i].now <= tr[j].now
  }

  function Run(s: State, tr: seq<Entry>): (t: State)
    requires Linked(s)
    ensures Linked(t)
  {
    if tr == [] then s else After(Run(s, tr[..|tr| - 1]), tr[|tr| - 1])
  }

  const EMPTY := State(map[], map[], [])
}
