/**
 64-bit two's-complement arithmetic, written with explicit wrap-around over the
 unbounded integers. Each operation is written the way one of the two evaluators of
 the compiler writes it: the IR interpreter (and its global integer functions) goes
 through uint64_t, the emitted C goes through GJUInt casts and guards.
 */
module Int64 {

  const TWO32: nat := 0x1_0000_0000
  const TWO63: int := 0x8000_0000_0000_0000
  const TWO64: nat := 0x1_0000_0000_0000_0000
  const MIN: int := -TWO63
  const MAX: int := TWO63 - 1

  datatype BinaryOp = Add | Sub | Mul | Div | Mod | BitAnd | BitOr | BitXor | Shl | Shr

  predicate In64(x: int) {
    MIN <= x <= MAX
  }

  /** The value of an int64_t cast to uint64_t. */
  function Unsigned(x: int): (u: nat)
    ensures u < TWO64
    ensures x >= 0 && x < TWO64 ==> u == x
  {
    x % TWO64
  }

  /** The value of a uint64_t (or of an exact result) cast to int64_t. */
  function Wrap(x: int): (r: int)
    ensures In64(r)
    ensures In64(x) ==> r == x
    ensures Unsigned(r) == Unsigned(x)
  {
    var m := x % TWO64;
    if m < TWO63 then m else m - TWO64
  }

  /** C's integer division: truncation toward zero. */
  function TruncDiv(x: int, y: int): (q: int)
    requires y != 0
  {
    if x >= 0 then (if y > 0 then x / y else -(x / -y))
    else (if y > 0 then -(-x / y) else -x / -y)
  }

  /** C's remainder: the sign of the dividend. */
  function TruncMod(x: int, y: int): (r: int)
    requires y != 0
  {
    x - y * TruncDiv(x, y)
  }

  function Pow2(k: nat): (p: int)
    ensures p > 0
  {
    if k == 0 then 1 else 2 * Pow2(k - 1)
  }

  // ----- bits -----

  predicate IsBitwise(op: BinaryOp) {
    op == BitAnd || op == BitOr || op == BitXor
  }

  /** One bit of a bitwise result. */
  function BitOf(op: BinaryOp, p: nat, q: nat): (r: nat)
    requires IsBitwise(op)
    ensures r <= 1
  {
    var set_ := match op
      case BitAnd => p == 1 && q == 1
      case BitOr => p == 1 || q == 1
      case _ => p != q;
    if set_ then 1 else 0
  }

  /** A bitwise operator on the low n bits of two unsigned values. */
  function Bitwise(op: BinaryOp, a: nat, b: nat, n: nat): nat
    requires IsBitwise(op)
  {
    if n == 0 then 0 else BitOf(op, a % 2, b % 2) + 2 * Bitwise(op, a / 2, b / 2, n - 1)
  }

  /** `count & 63`, as both evaluators mask a shift count. */
  function Masked(count: int): nat {
    Bitwise(BitAnd, Unsigned(count), 63, 64)
  }
}
