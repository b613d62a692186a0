/** Fixed-width machine words as ranges of the unbounded integers. */
module Words {
  datatype Option<T> = None | Some(value: T)

  const B16: int := 0x1_0000
  const B32: int := 0x1_0000_0000
  const B64: int := 0x1_0000_0000_0000_0000
  const B128: int := 0x1_0000_0000_0000_0000_0000_0000_0000_0000

  type u8 = x: int | 0 <= x < 0x100
  type u16 = x: int | 0 <= x < B16
  type u32 = x: int | 0 <= x < B32
  type u64 = x: int | 0 <= x < B64
  type i32 = x: int | -0x8000_0000 <= x < 0x8000_0000
  type i64 = x: int | -0x8000_0000_0000_0000 <= x < 0x8000_0000_0000_0000

  const I64_MAX: i64 := 0x7FFF_FFFF_FFFF_FFFF
  const I64_MIN: i64 := -0x8000_0000_0000_0000
  const U64_MAX: u64 := 0xFFFF_FFFF_FFFF_FFFF

  // Unsigned addition as the processor performs it.
  function Add32(x: u32, y: u32): u32 { (x + y) % B32 }
  function Add64(x: u64, y: u64): u64 { (x + y) % B64 }

  // The signed reading of the difference of two 32-bit sequence numbers.
  function Distance32(to: u32, from: u32): i32 {
    var d := (to - from) % B32;
    if d < 0x8000_0000 then d else d - B32
  }

  function Abs(x: int): nat { if x < 0 then -x else x }

  function Min(x: int, y: int): int { if x <= y then x else y }

  function Max(x: int, y: int): int { if x <= y then y else x }

  // Division that truncates toward zero, as C++ divides signed integers.
  function TruncDiv(n: int, d: int): int
    requires d > 0
  {
    if n < 0 then -((-n) / d) else n / d
  }

  function Clamp64(x: int): i64 {
    if x > I64_MAX then I64_MAX else if x < I64_MIN then I64_MIN else x
  }

  function Sum(s: seq<int>): int {
    if s == [] then 0 else Sum(s[..|s| - 1]) + s[|s| - 1]
  }

  lemma SumAppend(s: seq<int>, x: int)
    ensures Sum(s + [x]) == Sum(s) + x
  {
    assert (s + [x])[..|s|] == s;
  }

  lemma {:induction false} SumConcat(s: seq<int>, t: seq<int>)
    ensures Sum(s + t) == Sum(s) + Sum(t)
  {
    if t == [] {
      assert s + t == s;
    } else {
      SumConcat(s, t[..|t| - 1]);
      assert (s + t)[..|s + t| - 1] == s + t[..|t| - 1];
    }
  }

  lemma MulLe(a: int, b: int, c: int)
    requires a <= b && 0 <= c
    ensures a * c <= b * c
  {
  }

  lemma MulLeBoth(a: int, b: int, c: int, d: int)
    requires 0 <= a <= b && 0 <= c <= d
    ensures 0 <= a * c <= b * d
  {
    MulLe(a, b, c);
    MulLe(c, d, b);
  }

  // A quotient is determined by its remainder's range.
  lemma DivUnique(n: int, d: int, q: int)
    requires d > 0 && q * d <= n < q * d + d
    ensures n / d == q
  {
    var p := n / d;
    assert p * d <= n < p * d + d by { assert n == p * d + n % d; }
    if p < q { MulLe(p + 1, q, d); }
    if q < p { MulLe(q + 1, p, d); }
  }

  lemma ModUnique(n: int, d: int, q: int, r: int)
    requires d > 0 && 0 <= r < d && n == q * d + r
    ensures n % d == r
  {
    DivUnique(n, d, q);
  }

  lemma ModAddLeft(x: int, y: int, d: int)
    requires d > 0
    ensures (x % d + y) % d == (x + y) % d
  {
    var q, z := x / d, x % d + y;
    assert x == q * d + x % d && z == z / d * d + z % d;
    assert (z / d + q) * d == z / d * d + q * d;
    ModUnique(x + y, d, z / d + q, z % d);
  }

  // Reducing the summands before a modular sum changes nothing.
  lemma ModAdd(x: int, y: int, d: int)
    requires d > 0
    ensures (x % d + y) % d == (x + y) % d
    ensures (x % d + y % d) % d == (x + y) % d
  {
    ModAddLeft(x, y, d);
    ModAddLeft(y, x % d, d);
  }

  lemma OffsetShift(first: u32, n: nat, k: nat)
    ensures ((first + n) % B32 + k) % B32 == (first + (n + k)) % B32
  {
    ModAdd(first + n, k, B32);
  }
}
