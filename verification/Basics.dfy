/** Small types shared by the other modules. */
module Basics {

  datatype Option<+T> = None | Some(value: T)

  function Min(a: int, b: int): int { if a < b then a else b }

  function Max(a: int, b: int): int { if a < b then b else a }

  type Byte = b: int | 0 <= b < 256

  /** Decimal digits, as `std::to_string` prints them. */
  function Digits(n: nat): (s: string)
    ensures |s| > 0 && '0' <= s[|s| - 1] <= '9'
  {
    if n < 10 then ["0123456789"[n]] else Digits(n / 10) + ["0123456789"[n % 10]]
  }

  function Decimal(n: int): string {
    if n < 0 then "-" + Digits(-n) else Digits(n)
  }
}
