/** Vocabulary shared by the whole model: bytes, results, the service's errors and Go's clock arithmetic. */
module Base {

  type byte = b: int | 0 <= b < 256
  type Bytes = seq<byte>

  /** A `[32]byte` value: note identifiers, burn tokens and content keys. */
  type Bytes32 = b: Bytes | |b| == 32 witness seq(32, i => 0)
  type NoteID = Bytes32
  type BurnToken = Bytes32

  datatype Option<+T> = None | Some(value: T)

  datatype Result<+T> = Ok(value: T) | Err(error: Error)

  /** Every way in which an operation of the note service reports failure. */
  datatype Error =
    | NoteOpenFailed
    | PayloadEmpty
    | PayloadTooLarge
    | StorageFull
    | TicketExpired
    | TicketInvalid
    | TicketUnusable
    | LifetimeInvalid
    | RootKeyUnavailable   // the root key record is missing, unreadable or invalid
    | MarshalFailed        // a time lies outside the years that JSON can carry
    | MaxSizeReached       // the database's own error for a full file
    | IoFailed             // any other failed commit

  /** Nanoseconds since Go's zero time, the first instant of year 1; 0 is the time for which IsZero holds. */
  type Time = int
  /** Nanoseconds. */
  type Duration = int

  const SECOND: Duration := 1_000_000_000
  const MINUTE: Duration := 60 * SECOND
  const HOUR: Duration := 60 * MINUTE
  const DAY: Duration := 24 * HOUR

  const MAX_DURATION: Duration := 0x7FFF_FFFF_FFFF_FFFF
  const MIN_DURATION: Duration := -0x8000_0000_0000_0000

  /** Go's `Time.Sub`: the difference, clamped to what a 64-bit duration can hold. */
  function Sub(t: Time, u: Time): Duration {
    if t - u > MAX_DURATION then MAX_DURATION
    else if t - u < MIN_DURATION then MIN_DURATION
    else t - u
  }

  /** What a 64-bit duration holds after arithmetic whose exact result is `n`. */
  function Wrapped(n: int): Duration {
    (n + 0x8000_0000_0000_0000) % 0x1_0000_0000_0000_0000 - 0x8000_0000_0000_0000
  }

  /** The instants of the years 0 to 9999, the only ones that encode to JSON. */
  predicate JsonTime(t: Time) {
    -366 * DAY <= t < 3652059 * DAY
  }

  /** The days from the first of January of year 1 to that of year `y`, leap years counted. */
  function DaysBefore(y: int): int {
    365 * (y - 1) + (y - 1) / 4 - (y - 1) / 100 + (y - 1) / 400
  }

  /** The times that encode are those whose year has four digits. */
  lemma FourDigitYears(t: Time)
    ensures JsonTime(t) <==> DaysBefore(0) * 24 * 3600 * SECOND <= t < DaysBefore(10000) * 24 * 3600 * SECOND
  {
  }

  /** Differences are exact as long as they fit 64 bits, about 292 years either way, and are clamped beyond. */
  lemma SubIsClamped(t: Time, u: Time)
    ensures MIN_DURATION <= t - u <= MAX_DURATION ==> Sub(t, u) == t - u
    ensures t - u > MAX_DURATION ==> Sub(t, u) == 0x7FFF_FFFF_FFFF_FFFF
    ensures t - u < MIN_DURATION ==> Sub(t, u) == -0x8000_0000_0000_0000
  {
  }
}
