/** Shared vocabulary: optional values, identifiers and the clock's arithmetic. */
module Basics {

  datatype Option<+T> = None | Some(value: T)

  /** Rows are keyed by UUIDs in the database; only freshness and equality matter. */
  type UserId = nat
  type SessionId = nat
  type RowId = nat
  type WorkerId = nat

  /** A token identifier. Access and refresh token of one pair share it. */
  type Jti = nat

  /** Python's `int(x)`: truncation toward zero. */
  function Trunc(x: real): int {
    if x >= 0.0 then x.Floor else -((-x).Floor)
  }

  function MinReal(x: real, y: real): real {
    if x <= y then x else y
  }

  function Max(x: int, y: int): int {
    if x >= y then x else y
  }
}
