/** Rust's `i32`: the range, the checked arithmetic of a debug build, the
    truncating division and the `as i32` cast. */
module I32 {
  import opened Outcomes

  const MIN: int := -0x8000_0000
  const MAX: int := 0x7FFF_FFFF

  type Int32 = x: int | MIN <= x <= MAX

  predicate InRange(x: int) {
    MIN <= x <= MAX
  }

  /** The panics of a debug build's checked `+`, `-`, `*`, unary `-` and `/`. */
  const AddOverflow: string := "attempt to add with overflow"
  const SubOverflow: string := "attempt to subtract with overflow"
  const MulOverflow: string := "attempt to multiply with overflow"
  const NegOverflow: string := "attempt to negate with overflow"
  const DivOverflow: string := "attempt to divide with overflow"

  /** A checked result: the value when it fits, otherwise the overflow panic. */
  function Checked(x: int, overflow: string): (r: Res<Int32>)
    ensures r.Ok? <==> InRange(x)
    ensures r.Ok? ==> r.value == x
    ensures !r.Ok? ==> r == Panic(overflow)
  {
    if InRange(x) then Ok(x) else Panic(overflow)
  }

  /** Division rounding toward zero, as Rust's `/` on integers (Dafny's own `/` is Euclidean). */
  function TruncDiv(x: int, y: int): (q: int)
    requires y != 0
    ensures Abs(q) <= Abs(x)
    ensures q == 0 || ((q > 0) <==> ((x > 0) == (y > 0)))
  {
    var m := Abs(x) / Abs(y);
    QuotientBelow(Abs(x), Abs(y));
    if (x >= 0) == (y > 0) then m else -m
  }

  lemma QuotientBelow(a: nat, b: nat)
    requires b > 0
    ensures 0 <= a / b <= a
  {
    DivModNat(a, b);
    MulLeft(a / b, 1, b);
  }

  function Abs(x: int): nat {
    if x < 0 then -x else x
  }

  /** The quotient rounds toward zero: the remainder `x - q*y` is smaller than the
      divisor in magnitude and never has the opposite sign of the dividend. */
  lemma TruncDivRoundsTowardZero(x: int, y: int)
    requires y != 0
    ensures var rem := x - TruncDiv(x, y) * y;
      Abs(rem) < Abs(y) && (rem == 0 || (rem > 0) == (x > 0))
  {
    var a, b := Abs(x), Abs(y);
    var m: int, r: int := a / b, a % b;
    DivModNat(a, b);
    if x >= 0 && y > 0 {
      SameSigns(a, b, m, r);
    } else if x < 0 && y < 0 {
      SameSigns(a, b, m, r);
      assert x - TruncDiv(x, y) * y == m * b - a;
    } else if x >= 0 {
      assert x - TruncDiv(x, y) * y == a - m * b;
    } else {
      assert x - TruncDiv(x, y) * y == m * b - a;
    }
  }

  lemma DivModNat(a: nat, b: nat)
    requires b > 0
    ensures a == (a / b) * b + a % b && 0 <= a % b < b
    ensures a % b > 0 ==> a > 0
  {
  }

  lemma SameSigns(a: nat, b: nat, m: int, r: int)
    requires b > 0 && a == m * b + r
    ensures a - m * b == r
  {
  }

  lemma HalfQuotient(a: nat, b: nat)
    requires b >= 2
    ensures (a / b) * 2 <= a
  {
    var q := a / b;
    DivModNat(a, b);
    MulLeft(q, 2, b);
  }

  lemma MulLeft(q: nat, x: nat, y: nat)
    requires x <= y
    ensures q * x <= q * y
  {
    assert q * y == q * x + q * (y - x);
  }

  /** The only i32 quotient out of range is `MIN / -1`. */
  lemma TruncDivOverflow(x: Int32, y: Int32)
    requires y != 0
    ensures InRange(TruncDiv(x, y)) <==> !(x == MIN && y == -1)
  {
    if Abs(y) >= 2 {
      HalfQuotient(Abs(x), Abs(y));
    }
  }

  /** Rust's `n as i32` for a length: keeps the low 32 bits, read as two's complement. */
  function WrapToI32(n: nat): (r: Int32)
    ensures n <= MAX ==> r == n
    ensures (r - n) % 0x1_0000_0000 == 0
  {
    var low := n % 0x1_0000_0000;
    if low <= MAX then low else low - 0x1_0000_0000
  }
}
