/** Checks on configured durations, in nanoseconds (crates/batter-core/src/validation.rs). */
module Validation {
  import opened Bytes

  const YEAR: nat := 365 * 24 * 60 * 60 * 1_000_000_000

  datatype ConfigurationError = Zero | TooLarge | InvalidReserve

  /** `latest` is the last instant the clock can represent. */
  function Representable(d: nat, now: int, latest: int): Option<ConfigurationError> {
    if d > YEAR || now + d > latest then Some(TooLarge) else None
  }

  function Positive(d: nat, now: int, latest: int): Option<ConfigurationError> {
    if d == 0 then Some(Zero) else Representable(d, now, latest)
  }
}
