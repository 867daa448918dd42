/** Identifiers and small value types shared by every component. */
module Types {
  datatype Option<+T> = None | Some(value: T)
  datatype Result<+T, +E> = Ok(value: T) | Err(error: E)

  type NodeId = nat
  type Term = nat
  type LogIndex = nat

  type byte = x: int | 0 <= x < 256
  type Bytes = seq<byte>

  function Min(a: int, b: int): int { if a <= b then a else b }

  function Max(a: int, b: int): int { if a >= b then a else b }
}
