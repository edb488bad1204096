/** Identifiers and small values shared by every component.
    Ids are opaque strings (xid values or ids chosen by match functions). */
module Domain {
  datatype Option<+T> = None | Some(value: T)

  type TicketId = string
  type MatchId = string
  type BackfillId = string

  /** One hour, in nanoseconds. */
  const HOUR: int := 3_600_000_000_000

  /** A float64 without NaN and without rounding. */
  datatype Double = NegInf | Finite(r: real) | PosInf

  /** The float order: a >= b. */
  predicate AtLeast(a: Double, b: Double) {
    a.PosInf? || b.NegInf? || (a.Finite? && b.Finite? && a.r >= b.r)
  }
}
