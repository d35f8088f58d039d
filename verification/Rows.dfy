/** The tables of the booking backend that the state machines share.

    Tours, departures and bookings are never hard-deleted, so a table is a sequence in insertion
    order and a row's identifier is its index. Payments carry a unique index on the booking, so that
    table is a map from booking to row. Instants are integers in milliseconds, money is in cents and
    percentages are in hundredths of a percent.
  */
module Rows {

  datatype Option<+T> = None | Some(value: T)

  datatype Failure =
    | Unverified
    | InvalidRequest
    | NotFound
    | InsufficientSpots
    | KeyReused
    | NotCancellable
    | CutoffPassed
    | EventMismatch
    | InventoryInconsistent
    | RefundAmountMismatch
    | UniqueViolation
    | NotFuture
    | CapacityExceeded
    | ScheduleConflict
    | DepartureReserved
    | CapacityBelowInventory
    | TourReserved
    | MediaCleanupFailed
    | NotQualified
    | AlreadyReviewed

  /** What a database transaction does: it commits a new set of rows, or throws and rolls back. */
  datatype Tx<+T> =
    | Commit(db: Db, value: T)
    | Abort(error: Failure)

  datatype Result<+T> = Ok(value: T) | Err(error: Failure)

  const CURRENCY := "usd"

  datatype Tour = Tour(
    priceCents: nat,
    discount: nat,
    maximum: nat,
    active: bool,
    deleted: bool,
    ratingCount: nat,
    ratingAverage: Option<nat>)

  datatype Departure = Departure(
    tour: nat,
    start: int,
    available: int,
    reserved: int,
    active: bool,
    deleted: bool)

  datatype Status =
    | PendingPayment
    | Confirmed
    | CancellationPending
    | CancellationFailed
    | Cancelled
    | Expired

  datatype Booking = Booking(
    user: nat,
    tour: nat,
    departure: nat,
    status: Status,
    start: int,
    unitPriceCents: nat,
    discount: nat,
    discountCents: nat,
    discountedUnitPriceCents: nat,
    quantity: nat,
    subtotalCents: nat,
    totalCents: nat,
    holdExpiresAt: Option<int>,
    cancellationRequestedAt: Option<int>,
    confirmedAt: Option<int>,
    cancelledAt: Option<int>,
    releasedAt: Option<int>)

  datatype PaymentStatus =
    | CheckoutPending
    | CheckoutOpen
    | Paid
    | RefundPending
    | RefundFailed
    | Refunded

  datatype Payment = Payment(
    id: nat,
    status: PaymentStatus,
    amountCents: nat,
    checkoutId: Option<string>,
    paymentId: Option<string>,
    refundId: Option<string>,
    checkoutUrl: Option<string>)

  datatype Traveler = Traveler(fullName: string, email: string, phone: string)

  /** The canonical booking request: the departure and the ordered, normalised roster. */
  datatype Request = Request(departure: nat, travelers: seq<Traveler>)

  /** A client key, scoped to its user. */
  datatype ClientKey = ClientKey(user: nat, key: string)

  datatype Replay = Replay(request: Request, booking: nat)

  datatype Review = Review(id: nat, user: nat, tour: nat, rating: nat)

  datatype Db = Db(
    tours: seq<Tour>,
    departures: seq<Departure>,
    bookings: seq<Booking>,
    payments: map<nat, Payment>,
    idempotency: map<ClientKey, Replay>,
    events: set<string>,
    reviews: seq<Review>,
    nextReview: nat)

  datatype Config = Config(holdMs: nat, cutoffMs: nat)

  predicate LiveTour(db: Db, t: nat) {
    t < |db.tours| && !db.tours[t].deleted
  }

  const EMPTY := Db([], [], [], map[], map[], {}, [], 0)
}
