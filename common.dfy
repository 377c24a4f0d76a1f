/** Small shared definitions: bytes, an option type and integer helpers. */
module Common {

  /** A Go `byte`. */
  newtype byte = x: int | 0 <= x < 0x100

  datatype Option<T> = None | Some(value: T)

  function Min(a: int, b: int): int { if a <= b then a else b }

  function Max(a: int, b: int): int { if a <= b then b else a }

  /** What `make([]byte, n)` holds before anything is read into it. */
  function Zeros(n: nat): (z: seq<byte>)
    ensures |z| == n
    ensures forall j :: 0 <= j < n ==> z[j] == 0
  {
    seq(n, _ => 0)
  }
}
