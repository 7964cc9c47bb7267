/** Machine integers, the optional value and three-way comparison that the game is written with. */
module Primitives {

  const U8_MAX: int := 0xFF
  const U32_MAX: int := 0xFFFF_FFFF

  /** Rust `u8`: the type of a guess and of the secret number. */
  type u8 = x: int | 0 <= x <= U8_MAX

  /** Rust `u32`: the type of the guess counter and of both saved fields. */
  type u32 = x: int | 0 <= x <= U32_MAX

  datatype Option<+T> = None | Some(value: T)

  /** Rust's `std::cmp::Ordering`, the result of `cmp`. */
  datatype Ordering = Less | Equal | Greater

  /** `a.cmp(&b)` on integers. */
  function Compare(a: int, b: int): (o: Ordering)
    ensures o == Less <==> a < b
    ensures o == Equal <==> a == b
    ensures o == Greater <==> a > b
  {
    if a < b then Less else if a == b then Equal else Greater
  }

  function Min(a: int, b: int): int {
    if a <= b then a else b
  }
}
