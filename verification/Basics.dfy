/** Small types shared by every part of the model. */
module Basics {

  datatype Option<+T> = None | Some(value: T)

  /** A result, an error, or a nil pointer or an index out of range. */
  datatype Attempt<+T, +E> = Done(value: T) | Fails(error: E) | Panics

  datatype Result<+T, +E> = Ok(value: T) | Err(error: E)

  /** What a goroutine sends: None is Go's nil. */
  type Report = Option<string>

  /** The membership of a server that takes part in its cluster (cluster/node.go:32). */
  const ACTIVE := "active"

  /** The caller of an operation, as daemon/context.go packs it into a context.Context. */
  datatype Ctx = Ctx(user: string, ignoreOwnership: bool)

  /** The context of the daemon's own clean-up work (daemon/daemon.go:270). */
  const SYSTEM := Ctx("system", true)

  /** Instants and durations are counted in nanoseconds, as Go does. */
  const NANOS := 1_000_000_000

  const HOUR := 3600 * NANOS

  const DIGITS := "0123456789"

  predicate IsDigit(c: char) { '0' <= c <= '9' }

  function DigitValue(c: char): (r: int)
    requires IsDigit(c)
    ensures 0 <= r < 10 && DIGITS[r] == c
  {
    c as int - '0' as int
  }
}
