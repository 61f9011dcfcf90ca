/** What several components share. */
module Common {

  datatype Option<T> = None | Some(value: T)

  function Power2(n: nat): nat { if n == 0 then 1 else 2 * Power2(n - 1) }

  function Min(x: int, y: int): int { if x < y then x else y }

  function Max(x: int, y: int): int { if x > y then x else y }

  /** One more than the largest unsigned 32-bit word. */
  const WORD: nat := 0x1_0000_0000
}
