module Bytes {
  type Byte = n: int | 0 <= n < 256

  const NEWLINE: Byte := 10

  function Min(a: nat, b: nat): nat {
    if a < b then a else b
  }
}
