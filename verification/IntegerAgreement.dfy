/**
 64-bit integer operations are written twice: by the IR interpreter, through uint64_t, and as C
 expressions, through GJUInt casts. Both are the exact result wrapped to 64 bits.
 */
module IntegerAgreement {
  import opened Int64
  import opened Options
  import Machine

  // ----- bitwise operations on unsigned values, bit by bit -----

  function Bit(a: nat, k: nat): nat {
    a / Pow2(k) % 2
  }

  lemma HalfTwice(a: nat, p: nat)
    requires p > 0
    ensures a / (2 * p) == a / 2 / p
  {
    var q, r := a / 2 / p, a / 2 % p;
    assert a / 2 == p * q + r;
    assert a == (2 * p) * q + (a % 2 + 2 * r);
    Remainder(a, 2 * p, q, a % 2 + 2 * r);
  }

  lemma {:induction false} BitwiseFits(op: BinaryOp, a: nat, b: nat, n: nat)
    requires IsBitwise(op)
    ensures Bitwise(op, a, b, n) < Pow2(n)
  {
    if n > 0 {
      BitwiseFits(op, a / 2, b / 2, n - 1);
    }
  }

  /** Each bit of the result is the operator on the two bits in its place. */
  lemma {:induction false} BitwiseBit(op: BinaryOp, a: nat, b: nat, n: nat, k: nat)
    requires IsBitwise(op) && k < n
    ensures Bit(Bitwise(op, a, b, n), k) == BitOf(op, Bit(a, k), Bit(b, k))
    decreases k
  {
    var rest := Bitwise(op, a / 2, b / 2, n - 1);
    var r := BitOf(op, a % 2, b % 2) + 2 * rest;
    assert Bitwise(op, a, b, n) == r;
    hide Bitwise, BitOf;
    assert r / 2 == rest && r % 2 == BitOf(op, a % 2, b % 2);
    if k > 0 {
      BitwiseBit(op, a / 2, b / 2, n - 1, k - 1);
      HalfTwice(a, Pow2(k - 1));
      HalfTwice(b, Pow2(k - 1));
      HalfTwice(r, Pow2(k - 1));
    }
  }

  /** Keeping the low k bits is taking the remainder. */
  lemma {:induction false} LowBits(a: nat, k: nat, n: nat)
    requires k <= n
    ensures Bitwise(BitAnd, a, Pow2(k) - 1, n) == a % Pow2(k)
  {
    hide Bitwise;
    if k == 0 {
      NoBits(a, n);
    } else {
      var p := Pow2(k - 1);
      assert Pow2(k) == 2 * p;
      hide Pow2;
      LowBits(a / 2, k - 1, n - 1);
      HalfRemainder(a, p);
      NextBit(a, p, n);
    }
  }

  lemma NextBit(a: nat, p: nat, n: nat)
    requires p > 0 && n > 0
    ensures Bitwise(BitAnd, a, 2 * p - 1, n) == a % 2 + 2 * Bitwise(BitAnd, a / 2, p - 1, n - 1)
  {
    assert (2 * p - 1) % 2 == 1 && (2 * p - 1) / 2 == p - 1;
  }

  lemma {:induction false} NoBits(a: nat, n: nat)
    ensures Bitwise(BitAnd, a, 0, n) == 0
  {
    if n > 0 {
      NoBits(a / 2, n - 1);
    }
  }

  lemma HalfRemainder(a: nat, p: nat)
    requires p > 0
    ensures a % (2 * p) == a % 2 + 2 * (a / 2 % p)
  {
    var q, r := a / 2 / p, a / 2 % p;
    assert a / 2 == q * p + r;
    assert a == (2 * p) * q + (a % 2 + 2 * r);
    Remainder(a, 2 * p, q, a % 2 + 2 * r);
  }

  lemma Remainder(a: int, m: int, q: int, r: int)
    requires m > 0 && 0 <= r < m && a == m * q + r
    ensures a % m == r && a / m == q
  {
    var d := a / m - q;
    assert m * d == r - a % m;
    Multiple(m, d);
  }

  lemma Multiple(m: int, d: int)
    requires m > 0
    ensures d >= 1 ==> m * d >= m
    ensures d <= -1 ==> m * d <= -m
    ensures d <= 0 ==> m * d <= d
  {
    if d >= 1 {
      assert m * (d - 1) >= 0;
    } else if d <= -1 {
      assert m * (d + 1) <= 0;
      assert (m - 1) * d <= 0;
    }
  }

  lemma {:induction false} XorNothing(a: nat, n: nat)
    requires a < Pow2(n)
    ensures Bitwise(BitXor, a, 0, n) == a
  {
    if n > 0 {
      XorNothing(a / 2, n - 1);
    }
  }

  /** Flipping every bit is subtracting from all ones. */
  lemma {:induction false} XorOnes(a: nat, n: nat)
    requires a < Pow2(n)
    ensures Bitwise(BitXor, a, Pow2(n) - 1, n) == Pow2(n) - 1 - a
  {
    if n > 0 {
      var p := Pow2(n - 1);
      assert (2 * p - 1) % 2 == 1 && (2 * p - 1) / 2 == p - 1;
      XorOnes(a / 2, n - 1);
    }
  }

  lemma {:induction false} Pow2Sum(a: nat, b: nat)
    ensures Pow2(a + b) == Pow2(a) * Pow2(b)
  {
    if a > 0 {
      Pow2Sum(a - 1, b);
      assert 2 * (Pow2(a - 1) * Pow2(b)) == 2 * Pow2(a - 1) * Pow2(b);
    }
  }

  lemma Words()
    ensures Pow2(6) == 64 && Pow2(63) == TWO63 && Pow2(64) == TWO64
  {
    assert Pow2(6) == 2 * (2 * Pow2(4));
    assert Pow2(4) == 2 * (2 * Pow2(2));
    Pow2Sum(4, 4);
    Pow2Sum(8, 8);
    Pow2Sum(16, 16);
    Pow2Sum(32, 32);
    assert Pow2(64) == 2 * Pow2(63);
  }

  // ----- wrap-around -----

  /** Wrapping depends on the residue only. */
  lemma WrapCongruent(a: int, b: int, k: int)
    requires a == b + k * TWO64
    ensures Wrap(a) == Wrap(b)
  {
    var m := TWO64;
    assert a == m * (b / m + k) + b % m;
    Remainder(a, m, b / m + k, b % m);
  }

  lemma UnsignedIs(x: int)
    requires In64(x)
    ensures Unsigned(x) == if x < 0 then x + TWO64 else x
  {
  }

  // ----- binary operators -----

  /** The interpreter's evaluator; a shift count is masked with 63. */
  function Interpreted(op: BinaryOp, x: int, y: int): int {
    var l, r := Unsigned(x), Unsigned(y);
    match op
    case Add => Wrap((l + r) % TWO64)
    case Sub => Wrap((l - r) % TWO64)
    case Mul => Wrap((l * r) % TWO64)
    case Div =>
      if r == 0 then 0
      else if r == TWO64 - 1 && l == Unsigned(MIN) then MIN
      else if y == 0 then 0 else Wrap(TruncDiv(x, y))
    case Mod =>
      if r == 0 then 0
      else if r == TWO64 - 1 && l == Unsigned(MIN) then 0
      else if y == 0 then 0 else Wrap(TruncMod(x, y))
    case BitAnd => Wrap(Bitwise(op, l, r, 64))
    case BitOr => Wrap(Bitwise(op, l, r, 64))
    case BitXor => Wrap(Bitwise(op, l, r, 64))
    case Shl => Wrap((l * Pow2(Masked(y))) % TWO64)
    case Shr => x / Pow2(Masked(y))
  }

  /** The result over the unbounded integers. */
  function Exact(op: BinaryOp, x: int, y: int): int
    requires !IsBitwise(op) && (op == Div || op == Mod ==> y != 0)
  {
    match op
    case Add => x + y
    case Sub => x - y
    case Mul => x * y
    case Div => TruncDiv(x, y)
    case Mod => TruncMod(x, y)
    case Shl => x * Pow2(y % 64)
    case Shr => x / Pow2(y % 64)
  }

  lemma Multiplied(x: int, p: int)
    requires In64(x)
    ensures Wrap(Unsigned(x) * p) == Wrap(x * p)
  {
    UnsignedIs(x);
    if x < 0 {
      assert Unsigned(x) * p == x * p + p * TWO64;
      WrapCongruent(Unsigned(x) * p, x * p, p);
    }
  }

  lemma Reduced(a: int)
    ensures Wrap(a % TWO64) == Wrap(a)
  {
    assert a == a % TWO64 + (a / TWO64) * TWO64;
    WrapCongruent(a, a % TWO64, a / TWO64);
  }

  lemma ShiftCount(y: int)
    requires In64(y)
    ensures Masked(y) == y % 64
  {
    Words();
    LowBits(Unsigned(y), 6, 64);
    if y < 0 {
      UnsignedIs(y);
      Remainder(y + TWO64, 64, y / 64 + TWO64 / 64, y % 64);
    }
  }

  lemma DivisionInRange(x: int, y: int)
    requires In64(x) && In64(y) && y != 0
    ensures TruncDiv(x, y) == if x == MIN && y == -1 then TWO63 else Wrap(TruncDiv(x, y))
    ensures In64(TruncMod(x, y)) && (x == MIN && y == -1 ==> TruncMod(x, y) == 0)
  {
    var a, b := if x >= 0 then x else -x, if y > 0 then y else -y;
    Quotient(a, b);
    TruncIs(x, y);
  }

  lemma Quotient(a: int, b: int)
    requires a >= 0 && b > 0
    ensures 0 <= a / b <= a && (b >= 2 && a > 0 ==> a / b < a) && 0 <= a - b * (a / b) < b
    ensures b == 1 ==> a / b == a
  {
    var q := a / b;
    assert a == b * q + a % b;
    if b >= 2 && q > 0 {
      assert b * q >= 2 * q;
    }
  }

  /** Truncated division in terms of magnitudes. */
  lemma TruncIs(x: int, y: int)
    requires y != 0
    ensures var a, b := if x >= 0 then x else -x, if y > 0 then y else -y;
      && TruncDiv(x, y) == (if (x >= 0) == (y > 0) then a / b else -(a / b))
      && TruncMod(x, y) == (if x >= 0 then a - b * (a / b) else -(a - b * (a / b)))
  {
    var a, b := if x >= 0 then x else -x, if y > 0 then y else -y;
    var q := a / b;
    assert y * q == if y > 0 then b * q else -(b * q);
    assert y * -q == -(y * q);
  }

  lemma SumAgrees(x: int, y: int)
    requires In64(x) && In64(y)
    ensures Wrap(Unsigned(x) + Unsigned(y)) == Wrap((Unsigned(x) + Unsigned(y)) % TWO64) == Wrap(x + y)
  {
    hide Wrap, Unsigned;
    UnsignedIs(x);
    UnsignedIs(y);
    Reduced(Unsigned(x) + Unsigned(y));
    WrapCongruent(Unsigned(x) + Unsigned(y), x + y, (if x < 0 then 1 else 0) + if y < 0 then 1 else 0);
  }

  lemma DifferenceAgrees(x: int, y: int)
    requires In64(x) && In64(y)
    ensures Wrap(Unsigned(x) - Unsigned(y)) == Wrap((Unsigned(x) - Unsigned(y)) % TWO64) == Wrap(x - y)
  {
    hide Wrap, Unsigned;
    UnsignedIs(x);
    UnsignedIs(y);
    var l: int, r: int := Unsigned(x), Unsigned(y);
    Reduced(l - r);
    WrapCongruent(l - r, x - y, (if x < 0 then 1 else 0) - if y < 0 then 1 else 0);
  }

  lemma ProductAgrees(x: int, y: int)
    requires In64(x) && In64(y)
    ensures Wrap(Unsigned(x) * Unsigned(y)) == Wrap((Unsigned(x) * Unsigned(y)) % TWO64) == Wrap(x * y)
  {
    hide Wrap, Unsigned;
    var l, r := Unsigned(x), Unsigned(y);
    Reduced(l * r);
    Multiplied(x, r);
    Multiplied(y, x);
    assert r * x == x * r && y * x == x * y;
  }

  lemma {:induction false} QuotientAgrees(x: int, y: int)
    requires In64(x) && In64(y) && y != 0
    ensures Machine.IntResult(Div, x, y) == Interpreted(Div, x, y) == Wrap(TruncDiv(x, y))
    ensures Machine.IntResult(Mod, x, y) == Interpreted(Mod, x, y) == Wrap(TruncMod(x, y))
  {
    hide TruncDiv, TruncMod;
    UnsignedIs(x);
    UnsignedIs(y);
    DivisionInRange(x, y);
  }

  lemma {:induction false} ShiftAgrees(x: int, y: int)
    requires In64(x) && In64(y)
    ensures Machine.IntResult(Shl, x, y) == Interpreted(Shl, x, y) == Wrap(x * Pow2(y % 64))
    ensures Machine.IntResult(Shr, x, y) == Interpreted(Shr, x, y) == Wrap(x / Pow2(y % 64))
  {
    hide Wrap, Unsigned, Pow2, Masked;
    ShiftCount(y);
    Reduced(Unsigned(x) * Pow2(y % 64));
    Multiplied(x, Pow2(y % 64));
    ShiftedInRange(x, Pow2(y % 64));
  }

  lemma ShiftedInRange(x: int, p: int)
    requires In64(x) && p > 0
    ensures In64(x / p)
  {
    var q := x / p;
    var r := x % p;
    assert x == p * q + r;
    Bounded(x, p, q, r);
  }

  lemma Bounded(x: int, p: int, q: int, r: int)
    requires p > 0 && x == p * q + r && 0 <= r < p
    ensures x < 0 ==> x <= q < 0
    ensures x >= 0 ==> 0 <= q <= x
  {
    Multiple(p, q);
    Multiple(p, q + 1);
    Multiple(p, -q);
    assert p * (q + 1) == p * q + p && p * -q == -(p * q);
  }

  /** The bits of a bitwise result, read back from the wrapped value. */
  lemma BitwiseAgrees(op: BinaryOp, x: int, y: int, k: nat)
    requires IsBitwise(op) && In64(x) && In64(y) && k < 64
    ensures Bit(Unsigned(Machine.IntResult(op, x, y)), k) == BitOf(op, Bit(Unsigned(x), k), Bit(Unsigned(y), k))
  {
    hide Wrap, Unsigned, Pow2, Bitwise, BitOf, Bit;
    var v := Bitwise(op, Unsigned(x), Unsigned(y), 64);
    BitwiseFits(op, Unsigned(x), Unsigned(y), 64);
    Words();
    assert Unsigned(Wrap(v)) == v;
    BitwiseBit(op, Unsigned(x), Unsigned(y), 64, k);
  }

  /**
   For every input the two evaluators agree. An arithmetic result is the exact one wrapped to 64
   bits; each bit of a bitwise result is the operator on the bits in its place.
   */
  lemma {:induction false} BinaryAgrees(op: BinaryOp, x: int, y: int)
    requires In64(x) && In64(y) && (op == Div || op == Mod ==> y != 0)
    ensures Machine.IntResult(op, x, y) == Interpreted(op, x, y)
    ensures !IsBitwise(op) ==> Interpreted(op, x, y) == Wrap(Exact(op, x, y))
    ensures IsBitwise(op) ==> forall k: nat :: k < 64 ==>
      Bit(Unsigned(Interpreted(op, x, y)), k) == BitOf(op, Bit(Unsigned(x), k), Bit(Unsigned(y), k))
  {
    hide Wrap, Unsigned, Pow2, Masked, TruncDiv, TruncMod, Bitwise, BitOf, Bit;
    match op
    case Add => SumAgrees(x, y);
    case Sub => DifferenceAgrees(x, y);
    case Mul => ProductAgrees(x, y);
    case Div => QuotientAgrees(x, y);
    case Mod => QuotientAgrees(x, y);
    case Shl => ShiftAgrees(x, y);
    case Shr => ShiftAgrees(x, y);
    case _ =>
      forall k: nat | k < 64
        ensures Bit(Unsigned(Machine.IntResult(op, x, y)), k) == BitOf(op, Bit(Unsigned(x), k), Bit(Unsigned(y), k))
      {
        BitwiseAgrees(op, x, y, k);
      }
  }

  /** The bitwise operators, bit by bit. */
  lemma {:induction false} BitsExactly(op: BinaryOp, x: int, y: int, k: nat)
    requires IsBitwise(op) && In64(x) && In64(y) && k < 64
    ensures var p, q := Bit(Unsigned(x), k) == 1, Bit(Unsigned(y), k) == 1;
      Bit(Unsigned(Machine.IntResult(op, x, y)), k) == 1 <==>
        if op == BitAnd then p && q else if op == BitOr then p || q else p != q
  {
    hide Bitwise, Unsigned, Pow2, Wrap;
    BitwiseAgrees(op, x, y, k);
  }

  // ----- negation and complement -----

  function EmittedNegation(x: int): int {
    Wrap(0 - Unsigned(x))
  }

  function EmittedComplement(x: int): int {
    Wrap(TWO64 - 1 - Unsigned(x))
  }

  function InterpretedNegation(x: int): int {
    Wrap((0 - Unsigned(x)) % TWO64)
  }

  function InterpretedComplement(x: int): int {
    -x - 1
  }

  lemma {:induction false} UnaryAgrees(x: int)
    requires In64(x)
    ensures EmittedNegation(x) == InterpretedNegation(x) == Wrap(-x) == if x == MIN then MIN else -x
    ensures EmittedComplement(x) == InterpretedComplement(x)
  {
    hide Wrap, Unsigned;
    UnsignedIs(x);
    var u: int := Unsigned(x);
    Reduced(0 - u);
    WrapCongruent(0 - u, -x, if x < 0 then -1 else 0);
    WrapCongruent(TWO64 - 1 - u, -x - 1, if x < 0 then 0 else 1);
    WrapPastMaximum();
  }

  lemma WrapPastMaximum()
    ensures Wrap(TWO63) == MIN
  {
  }

  // ----- global integer functions -----

  datatype GlobalFn = IntIdentity | AbsI | SignI | MinI | MaxI | ClampI

  function Arity(fn: GlobalFn): nat {
    match fn
    case MinI => 2
    case MaxI => 2
    case ClampI => 3
    case _ => 1
  }

  /** The C expression over the evaluated arguments m0, m1, m2. */
  function Emitted(fn: GlobalFn, m: seq<int>): int
    requires |m| >= Arity(fn)
  {
    match fn
    case IntIdentity => m[0]
    case AbsI => if m[0] < 0 then Wrap(0 - Unsigned(m[0])) else m[0]
    case SignI => if m[0] < 0 then -1 else if m[0] > 0 then 1 else 0
    case MinI => if m[0] < m[1] then m[0] else m[1]
    case MaxI => if m[0] > m[1] then m[0] else m[1]
    case ClampI => if m[0] < m[1] then m[1] else if m[0] > m[2] then m[2] else m[0]
  }

  /** eval_global_int, which fails on too few arguments and takes magnitudes by sign mask. */
  function Evaluated(fn: GlobalFn, args: seq<int>): Option<int> {
    if |args| < Arity(fn) then None
    else
      match fn
      case IntIdentity => Some(args[0])
      case AbsI =>
        var mask := args[0] / Pow2(63);
        Some(Wrap((Bitwise(BitXor, Unsigned(args[0]), Unsigned(mask), 64) - Unsigned(mask)) % TWO64))
      case SignI => Some(if args[0] > 0 then 1 else if args[0] < 0 then -1 else 0)
      case MinI => Some(if args[0] < args[1] then args[0] else args[1])
      case MaxI => Some(if args[0] > args[1] then args[0] else args[1])
      case ClampI => Some(if args[0] < args[1] then args[1] else if args[0] > args[2] then args[2] else args[0])
  }

  lemma SignMask(x: int)
    requires In64(x)
    ensures x / Pow2(63) == if x < 0 then -1 else 0
  {
    Words();
  }

  lemma {:induction false} AbsAgrees(x: int)
    requires In64(x)
    ensures Evaluated(AbsI, [x]) == Some(Emitted(AbsI, [x]))
    ensures Emitted(AbsI, [x]) == if x == MIN then MIN else if x < 0 then -x else x
  {
    hide Wrap, Unsigned, Pow2, Bitwise;
    SignMask(x);
    UnsignedIs(x);
    UnaryAgrees(x);
    Words();
    if x < 0 {
      UnsignedIs(-1);
      XorOnes(Unsigned(x), 64);
      MaskedNegative(x);
    } else {
      UnsignedIs(0);
      XorNothing(Unsigned(x), 64);
      Reduced(x);
    }
  }

  /** Flip and add one, in uint64_t. */
  lemma MaskedNegative(x: int)
    requires In64(x) && x < 0
    ensures Wrap((TWO64 - 1 - Unsigned(x) - (TWO64 - 1)) % TWO64) == Wrap(0 - Unsigned(x))
  {
    hide Wrap, Unsigned;
    var u: int := Unsigned(x);
    Reduced(0 - u);
    assert TWO64 - 1 - u - (TWO64 - 1) == 0 - u;
  }

  /** What each function means. */
  function Meaning(fn: GlobalFn, m: seq<int>): int
    requires |m| >= Arity(fn)
  {
    match fn
    case IntIdentity => m[0]
    case AbsI => if m[0] == MIN then MIN else Max(m[0], -m[0])
    case SignI => if m[0] == 0 then 0 else if m[0] == Max(m[0], -m[0]) then 1 else -1
    case MinI => -Max(-m[0], -m[1])
    case MaxI => Max(m[0], m[1])
    case ClampI => if m[1] <= m[2] then Max(m[1], -Max(-m[0], -m[2])) else if m[0] < m[1] then m[1] else m[2]
  }

  function Max(a: int, b: int): int {
    if a >= b then a else b
  }

  /** The emitted expression is what the evaluator computes, in range, for every in-range input. */
  lemma {:induction false} GlobalAgrees(fn: GlobalFn, args: seq<int>)
    requires forall k :: 0 <= k < |args| ==> In64(args[k])
    ensures |args| >= Arity(fn) ==>
      Evaluated(fn, args) == Some(Emitted(fn, args)) && Emitted(fn, args) == Meaning(fn, args) &&
      In64(Emitted(fn, args))
    ensures |args| < Arity(fn) ==> Evaluated(fn, args) == None
  {
    if fn == AbsI && args != [] {
      AbsAgrees(args[0]);
      assert Emitted(fn, args) == Emitted(fn, [args[0]]) && Evaluated(fn, args) == Evaluated(fn, [args[0]]);
    }
  }

  // ----- posmod and wrapi, which only the evaluator has -----

  /** A signed operation whose overflow C++ leaves undefined. */
  function Checked(v: int): Option<int> {
    if In64(v) then Some(v) else None
  }

  function CheckedMod(x: int, y: int): Option<int> {
    if y == 0 || (x == MIN && y == -1) then None else Some(TruncMod(x, y))
  }

  function Posmod(x: int, y: int): Option<int> {
    if y == 0 then Some(0)
    else
      var value :- CheckedMod(x, y);
      if (value < 0 && y > 0) || (value > 0 && y < 0) then Checked(value + y) else Some(value)
  }

  function Wrapi(x: int, lo: int, hi: int): Option<int> {
    var span :- Checked(hi - lo);
    if span == 0 then Some(lo)
    else
      var distance :- Checked(x - lo);
      var value :- CheckedMod(distance, span);
      var shifted :- Checked(value + span);
      var result :- CheckedMod(shifted, span);
      Checked(lo + result)
  }

  function Magnitude(x: int): nat {
    if x >= 0 then x else -x
  }

  /** The remainder that takes the sign of the divisor, and is congruent to the dividend. */
  function FloorMod(x: int, y: int): (r: int)
    requires y != 0
    ensures if y > 0 then 0 <= r < y else y < r <= 0
    ensures (x - r) % Magnitude(y) == 0
  {
    RestIsMultiple(x, Magnitude(y));
    RestIsMultiple(-x, Magnitude(y));
    if y > 0 then x % y else -((-x) % (-y))
  }

  lemma {:induction false} RestIsMultiple(x: int, m: int)
    requires m > 0
    ensures (x - x % m) % m == 0 && (x % m - x) % m == 0
  {
    var q := x / m;
    assert x - x % m == m * q + 0 && x % m - x == m * -q + 0;
    Remainder(x - x % m, m, q, 0);
    Remainder(x % m - x, m, -q, 0);
  }

  lemma NegatedRemainder(a: int, b: int)
    requires b > 0
    ensures (-a) % b == if a % b == 0 then 0 else b - a % b
  {
    var q, r := a / b, a % b;
    assert a == b * q + r;
    if r == 0 {
      assert -a == b * -q + 0;
      Remainder(-a, b, -q, 0);
    } else {
      assert -a == b * (-q - 1) + (b - r);
      Remainder(-a, b, -q - 1, b - r);
    }
  }

  /** Truncated remainder, then one correction towards the divisor. */
  lemma TruncToFloor(x: int, y: int)
    requires y != 0
    ensures var t := TruncMod(x, y);
      && FloorMod(x, y) == (if (t < 0 && y > 0) || (t > 0 && y < 0) then t + y else t)
      && (if y > 0 then -y < t < y else y < t < -y)
  {
    hide TruncMod;
    var a, b := if x >= 0 then x else -x, if y > 0 then y else -y;
    TruncIs(x, y);
    Quotient(a, b);
    assert a - b * (a / b) == a % b;
    NegatedRemainder(a, b);
  }

  /** posmod is the remainder with the divisor's sign, and undefined at exactly one pair of inputs. */
  lemma {:induction false} PosmodExactly(x: int, y: int)
    requires In64(x) && In64(y)
    ensures Posmod(x, y) ==
      if y == 0 then Some(0) else if x == MIN && y == -1 then None else Some(FloorMod(x, y))
  {
    hide TruncMod, FloorMod;
    if y != 0 {
      TruncToFloor(x, y);
    }
  }

  /**
   When no intermediate result of wrapi overflows: span and distance are 64-bit numbers, and on the
   side of the range the rest of the distance leaves room for one more span.
   */
  predicate WrapDefined(x: int, lo: int, hi: int) {
    var span, distance := hi - lo, x - lo;
    && In64(span)
    && (span != 0 ==>
          && In64(distance) && !(distance == MIN && span == -1)
          && ((distance >= 0) == (span > 0) ==>
                Magnitude(distance) % Magnitude(span) <= (if span > 0 then MAX else -MIN) - Magnitude(span)))
  }

  lemma {:induction false} ShiftFits(d: int, y: int)
    requires In64(d) && In64(y) && y != 0
    ensures In64(TruncMod(d, y) + y) <==>
      ((d >= 0) == (y > 0) ==> Magnitude(d) % Magnitude(y) <= (if y > 0 then MAX else -MIN) - Magnitude(y))
  {
    hide TruncMod;
    TruncIs(d, y);
    Quotient(Magnitude(d), Magnitude(y));
    RestOf(Magnitude(d), Magnitude(y));
  }

  lemma {:induction false} RestOf(a: int, b: int)
    requires b > 0
    ensures a - b * (a / b) == a % b
  {
  }

  lemma FloorModShifts(d: int, y: int)
    requires y != 0
    ensures TruncMod(TruncMod(d, y) + y, y) == FloorMod(d, y)
  {
    hide TruncMod, FloorMod;
    var t := TruncMod(d, y);
    TruncToFloor(d, y);
    var u := t + y;
    TruncIs(u, y);
    var a, b := if u >= 0 then u else -u, if y > 0 then y else -y;
    if a < b {
      Remainder(a, b, 0, a);
    } else {
      Remainder(a, b, 1, a - b);
    }
  }

  lemma {:induction false} WrapiIs(x: int, lo: int, hi: int)
    requires In64(x) && In64(lo) && In64(hi)
    ensures Wrapi(x, lo, hi) ==
      if !WrapDefined(x, lo, hi) then None else if lo == hi then Some(lo) else Some(lo + FloorMod(x - lo, hi - lo))
  {
    hide TruncMod, FloorMod, Magnitude;
    if lo != hi {
      if In64(hi - lo) && In64(x - lo) {
        ShiftFits(x - lo, hi - lo);
      }
      TruncToFloor(x - lo, hi - lo);
      FloorModShifts(x - lo, hi - lo);
    }
  }

  /** wrapi is defined exactly then, and puts its argument into the range, congruent modulo its span. */
  lemma {:induction false} WrapiExactly(x: int, lo: int, hi: int)
    requires In64(x) && In64(lo) && In64(hi)
    ensures Wrapi(x, lo, hi) ==
      if !WrapDefined(x, lo, hi) then None else if lo == hi then Some(lo) else Some(lo + FloorMod(x - lo, hi - lo))
    ensures Wrapi(x, lo, hi).Some? && lo < hi ==> lo <= Wrapi(x, lo, hi).value < hi
    ensures Wrapi(x, lo, hi).Some? && hi < lo ==> hi < Wrapi(x, lo, hi).value <= lo
    ensures Wrapi(x, lo, hi).Some? && lo != hi ==> (x - Wrapi(x, lo, hi).value) % Magnitude(hi - lo) == 0
  {
    hide Wrapi, WrapDefined, FloorMod;
    WrapiIs(x, lo, hi);
    if Wrapi(x, lo, hi).Some? && lo != hi {
      var r := FloorMod(x - lo, hi - lo);
      assert (x - lo) - r == x - (lo + r);
    }
  }

  /** The failing inputs exist. */
  lemma {:induction false} UndefinedInputs()
    ensures Posmod(MIN, -1) == None && Wrapi(0, MIN, MAX) == None && Wrapi(0, 0, MAX) == Some(0) &&
      Wrapi(MAX - 1, 0, MAX) == None
  {
    PosmodExactly(MIN, -1);
    WrapiExactly(0, MIN, MAX);
    WrapiExactly(0, 0, MAX);
    WrapiExactly(MAX - 1, 0, MAX);
  }
}
