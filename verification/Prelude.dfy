/** Vocabulary shared by every layer: 64-bit integers, identifiers, instants, options and errors. */
module Prelude {
  const MAX_INT64: int := 0x7FFF_FFFF_FFFF_FFFF
  const MIN_INT64: int := -0x8000_0000_0000_0000

  /** A Go int64 or a PostgreSQL bigint. Every value stored in one has to be proved to fit. */
  type int64 = x: int | MIN_INT64 <= x <= MAX_INT64

  /** A UUID. `NIL` is uuid.Nil. */
  type Id = nat
  const NIL: Id := 0

  /** An instant in nanoseconds. Zero is the zero time.Time. */
  type Time = int
  const SECOND: int := 1_000_000_000

  datatype Option<+T> = None | Some(value: T)

  datatype Error =
    | InvalidMoney
    | CurrencyMismatch
    | Overflow
    | InsufficientFunds
    | InvalidWallet
    | InvalidLedgerEntry
    | InvalidTransaction
    | TerminalTransaction
    | InvalidInput
    | Conflict
    | NotFound
    | DatabaseError

  datatype Result<+T> = Ok(value: T) | Err(error: Error)
}
