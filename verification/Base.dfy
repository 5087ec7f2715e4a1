/** Shared vocabulary: optional values, results, identifiers, clocks and the outcome of a remote call. */
module Base {

  datatype Option<+T> = None | Some(value: T)

  datatype Result<+T, +E> = Ok(value: T) | Err(error: E)

  /** How one remote call ends. A caller sees an error for both `Lost` and `Applied`;
      `Applied` is the timeout whose effect took place all the same. */
  datatype Outcome = Done | Lost | Applied

  /** A server-assigned identifier; `NONE` is the empty string. */
  type Id = nat

  const NONE: Id := 0

  /** Instants and durations, in nanoseconds. */
  type Time = int

  const SECOND: Time := 1_000_000_000
  const MINUTE: Time := 60 * SECOND

  /** What survives writing an instant in the format of section 5.6 of RFC 3339 and reading it back. */
  function Truncate(t: Time): (r: Time)
    ensures r <= t < r + SECOND
  {
    t - t % 1_000_000_000
  }
}
