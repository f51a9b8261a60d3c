/** Fixed-width integers of the Rust code, with their wrap-around written out. */
module Ints {

  const I32_MIN: int := -0x8000_0000
  const I32_MAX: int := 0x7FFF_FFFF
  const U32_LIMIT: int := 0x1_0000_0000
  const USIZE_MAX: int := 0xFFFF_FFFF_FFFF_FFFF

  type i32 = x: int | I32_MIN <= x <= I32_MAX
  type u32 = x: int | 0 <= x < U32_LIMIT
  type u8 = x: int | 0 <= x < 256

  /** Two's-complement wrap-around into `i32` (`AtomicI32::fetch_add`, release-build `+=`). */
  function WrapI32(x: int): (r: i32)
    ensures I32_MIN <= x <= I32_MAX ==> r == x
  {
    (x - I32_MIN) % U32_LIMIT + I32_MIN
  }

  /** The wrapped value differs from the true one by a multiple of 2^32. */
  lemma WrapI32Congruent(x: int)
    ensures (WrapI32(x) - x) % U32_LIMIT == 0
  {
  }

  /** `wrapping_add(1)` on an `i32`, as `AtomicI32::fetch_add(1)` and a
      release-build `+= 1` do it. */
  function IncI32(x: i32): (r: i32)
    ensures x < I32_MAX ==> r == x + 1
    ensures x == I32_MAX ==> r == I32_MIN
  {
    if x == I32_MAX then I32_MIN else x + 1
  }

  /** The increment is the two's-complement wrap-around of the true successor. */
  lemma IncIsWrap(x: i32)
    ensures IncI32(x) == WrapI32(x as int + 1)
  {
    if x == I32_MAX {
      WrapAtMax();
    }
  }

  /** `usize as u32`: keeps the low 32 bits. */
  function TruncU32(x: nat): (r: u32)
    ensures r <= x
    ensures x < U32_LIMIT ==> r == x
  {
    x % U32_LIMIT
  }

  /** The truncated value differs from the true one by a multiple of 2^32. */
  lemma TruncU32Congruent(x: nat)
    ensures (TruncU32(x) - x) % U32_LIMIT == 0
  {
  }

  /** Adding one to `i32::MAX` wraps to `i32::MIN`. */
  lemma WrapAtMax()
    ensures WrapI32(I32_MAX + 1) == I32_MIN
  {
  }

  /** Adding a multiple of 2^32 does not change a remainder modulo 2^32. */
  lemma {:induction false} ModMultiple(a: int, k: int)
    ensures (a + k * U32_LIMIT) % U32_LIMIT == a % U32_LIMIT
    decreases if k < 0 then -k else k
  {
    if k > 0 {
      ModMultiple(a, k - 1);
      assert a + k * U32_LIMIT == (a + (k - 1) * U32_LIMIT) + U32_LIMIT;
    } else if k < 0 {
      ModMultiple(a, k + 1);
      assert a + k * U32_LIMIT == (a + (k + 1) * U32_LIMIT) - U32_LIMIT;
    }
  }

  /** Values that agree modulo 2^32 wrap to the same `i32`. */
  lemma WrapCongruent(x: int, y: int)
    requires (x - y) % U32_LIMIT == 0
    ensures WrapI32(x) == WrapI32(y)
  {
    var k := (x - y) / U32_LIMIT;
    assert x - I32_MIN == (y - I32_MIN) + k * U32_LIMIT;
    ModMultiple(y - I32_MIN, k);
  }

  /** Wrapping after each increment is wrapping once at the end. */
  lemma WrapSucc(x: int)
    ensures WrapI32(WrapI32(x) + 1) == WrapI32(x + 1)
  {
    WrapCongruent(WrapI32(x) + 1, x + 1);
  }

  /** `usize::saturating_sub`. */
  function SaturatingSub(a: nat, b: nat): nat {
    if a >= b then a - b else 0
  }
}
