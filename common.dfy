/** Small shared vocabulary: an optional value for the NULL returns of the C
    interface, and the fixed-width unsigned arithmetic of `uint32_t` and `size_t`
    counters, whose increments and decrements wrap around. */
module Common {

  datatype Option<+T> = None | Some(value: T)

  /** 2^32: the range of `uint32_t`. */
  const U32: nat := 0x1_0000_0000
  /** 2^64: the range of `size_t` on the LP64 targets the system is built for. */
  const U64: nat := 0x1_0000_0000_0000_0000

  predicate IsU32(x: int) { 0 <= x < U32 }
  predicate IsU64(x: int) { 0 <= x < U64 }

  /** `a + b` on `uint32_t`. */
  function Add32(a: nat, b: nat): (r: nat)
    requires IsU32(a) && IsU32(b)
    ensures IsU32(r)
    ensures a + b < U32 ==> r == a + b
    ensures a + b >= U32 ==> r == a + b - U32
  {
    (a + b) % U32
  }

  /** `a - b` on `uint32_t`: below zero wraps to the top of the range. */
  function Sub32(a: nat, b: nat): (r: nat)
    requires IsU32(a) && IsU32(b)
    ensures IsU32(r)
    ensures b <= a ==> r == a - b
    ensures a < b ==> r == U32 + a - b
  {
    (a - b) % U32
  }

  /** `a + b` on `size_t`. */
  function Add64(a: nat, b: nat): (r: nat)
    requires IsU64(a) && IsU64(b)
    ensures IsU64(r)
    ensures a + b < U64 ==> r == a + b
    ensures a + b >= U64 ==> r == a + b - U64
  {
    (a + b) % U64
  }

  /** `a - b` on `size_t`: below zero wraps to the top of the range. */
  function Sub64(a: nat, b: nat): (r: nat)
    requires IsU64(a) && IsU64(b)
    ensures IsU64(r)
    ensures b <= a ==> r == a - b
    ensures a < b ==> r == U64 + a - b
  {
    (a - b) % U64
  }

  function Min(a: nat, b: nat): (r: nat)
    ensures r <= a && r <= b && (r == a || r == b)
  {
    if b < a then b else a
  }
}
