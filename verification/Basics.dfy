/** What the sockets carry. */
module Bytes {
  newtype byte = x: int | 0 <= x < 256
}

module Options {
  datatype Option<+T> = None | Some(value: T)
}

module Numbers {
  function Min(a: nat, b: nat): nat { if a <= b then a else b }

  function Max(a: int, b: int): int { if a < b then b else a }
}
