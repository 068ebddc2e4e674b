/**
 Integer division: remainder with the sign of the divisor, truncating quotient, and the
 floor quotient that is built from the two; powers; and the checked left shift.
 */
module IntegerOps {
  import opened Options
  import opened Fixnums
  import opened BinaryGcd

  /** A number: a fixnum, a big integer, or something that is no integer. */
  datatype Number = Fixnum(n: int) | Integer(v: int) | Other(id: nat)

  predicate GoodNumber(n: Number)
  {
    n.Fixnum? ==> FitsInFixnum(n.n)
  }

  predicate IsInteger(n: Number)
  {
    !n.Other?
  }

  function Value(n: Number): int
    requires IsInteger(n)
  {
    if n.Fixnum? then n.n else n.v
  }

  datatype Outcome = Ok(number: Number) | ZeroDivisor | TypeError(culprit: Number)

  /** A machine integer becomes a fixnum if it fits. */
  function FromMachine(n: int): (r: Number)
    ensures GoodNumber(r) && IsInteger(r) && Value(r) == n
  {
    if FitsInFixnum(n) then Fixnum(n) else Integer(n)
  }

  // ----- quotient and remainder -----

  /** Division toward zero, as machine and big integers do it. */
  function TruncDiv(a: int, b: int): int
    requires b != 0
  {
    var q := Abs(a) / Abs(b);
    if (a < 0) == (b < 0) then q else -q
  }

  function TruncRem(a: int, b: int): int
    requires b != 0
  {
    a - b * TruncDiv(a, b)
  }

  /** rem_floor on machine integers: the truncating remainder, moved to the divisor's side. */
  function RemFloor(a: int, b: int): int
    requires b != 0
  {
    var r := TruncRem(a, b);
    if r != 0 && (r < 0) != (b < 0) then r + b else r
  }

  /** ibig_rem_floor on big integers: the residue modulo the absolute value, moved below zero if need be. */
  function IbigRemFloor(a: int, b: int): int
    requires b != 0
  {
    var residue := a % Abs(b);
    if b < 0 then (if residue == 0 then residue else residue + b) else residue
  }

  /** `r` is a remainder of `a` by `b` that has the sign of `b`, or zero. */
  predicate FloorRemainder(a: int, b: int, q: int, r: int)
  {
    a == b * q + r && if b > 0 then 0 <= r < b else b < r <= 0
  }

  lemma {:induction false} SmallMultiple(b: int, k: int)
    requires b != 0 && 0 - Abs(b) < b * k < Abs(b)
    ensures k == 0
  {
    if b > 0 {
      assert k < 1 && k > -1;
    } else {
      var c := -b;
      assert c * k == -(b * k);
      assert k < 1 && k > -1;
    }
  }

  /** There is one such remainder, and one quotient that goes with it. */
  lemma {:induction false} RemainderUnique(a: int, b: int, q: int, r: int, q': int, r': int)
    requires b != 0 && FloorRemainder(a, b, q, r) && FloorRemainder(a, b, q', r')
    ensures q == q' && r == r'
  {
    assert b * (q - q') == r' - r;
    SmallMultiple(b, q - q');
  }

  /** `q` is the quotient of `a` by `b`, rounded toward zero. */
  predicate Truncated(a: int, b: int, q: int)
  {
    && Abs(b) * Abs(q) <= Abs(a) < Abs(b) * (Abs(q) + 1)
    && (q != 0 ==> (q < 0) == ((a < 0) != (b < 0)))
  }

  lemma {:induction false} DivMod(p: nat, d: nat)
    requires d > 0
    ensures p == d * (p / d) + p % d && d * (p / d) <= p < d * (p / d + 1)
  {
  }

  lemma {:induction false} TruncRemIs(a: int, b: int)
    requires b != 0
    ensures TruncRem(a, b) == if a < 0 then -(Abs(a) % Abs(b)) else Abs(a) % Abs(b)
  {
    var q := Abs(a) / Abs(b);
    DivMod(Abs(a), Abs(b));
    if b > 0 {
      assert b * -q == -(b * q);
    } else {
      var d := -b;
      assert b * q == -(d * q) && b * -q == d * q;
    }
  }

  lemma {:induction false} TruncDivSpec(a: int, b: int)
    requires b != 0
    ensures var r := TruncRem(a, b);
            a == b * TruncDiv(a, b) + r && Abs(r) < Abs(b) && (r != 0 ==> (r < 0) == (a < 0))
    ensures Truncated(a, b, TruncDiv(a, b))
  {
    hide Truncated;
    TruncRemIs(a, b);
    TruncDivTruncates(a, b);
  }

  lemma {:induction false} TruncDivTruncates(a: int, b: int)
    requires b != 0
    ensures Truncated(a, b, TruncDiv(a, b))
  {
    var p, d := Abs(a), Abs(b);
    var q := p / d;
    DivMod(p, d);
    Magnitude(p, d, q);
    assert Abs(TruncDiv(a, b)) == q;
  }

  lemma {:induction false} Magnitude(p: nat, d: nat, q: nat)
    requires d > 0 && q == p / d
    ensures d * q <= p < d * (q + 1)
  {
    DivMod(p, d);
  }

  /** The machine version meets the specification... */
  lemma {:induction false} RemFloorSpec(a: int, b: int) returns (q: int)
    requires b != 0
    ensures FloorRemainder(a, b, q, RemFloor(a, b))
  {
    TruncDivSpec(a, b);
    q := TruncDiv(a, b);
    if RemFloor(a, b) != TruncRem(a, b) {
      assert b * (q - 1) == b * q - b;
      q := q - 1;
    }
  }

  /** ... and so does the big integer version: the representation does not matter. */
  lemma {:induction false} IbigRemFloorSpec(a: int, b: int) returns (q: int)
    requires b != 0
    ensures FloorRemainder(a, b, q, IbigRemFloor(a, b)) && IbigRemFloor(a, b) == RemFloor(a, b)
  {
    var c := Abs(b);
    var k := a / c;
    assert a == c * k + a % c;
    if b > 0 {
      q := k;
    } else if a % c == 0 {
      q := -k;
      assert b * -k == c * k;
    } else {
      q := -k - 1;
      assert b * (-k - 1) == c * k - b;
    }
    var q' := RemFloorSpec(a, b);
    RemainderUnique(a, b, q, IbigRemFloor(a, b), q', RemFloor(a, b));
  }

  function Modulus(x: Number, y: Number): (r: Outcome)
    ensures r.Ok? ==> BothIntegers(x, y) && IsInteger(r.number)
  {
    if !IsInteger(x) then TypeError(x)
    else if !IsInteger(y) then TypeError(y)
    else if Value(y) == 0 then ZeroDivisor
    else if x.Fixnum? && y.Fixnum? then Ok(FromMachine(RemFloor(x.n, y.n)))
    else Ok(Integer(IbigRemFloor(Value(x), Value(y))))
  }

  function Idiv(x: Number, y: Number): Outcome
  {
    if !IsInteger(x) then TypeError(x)
    else if !IsInteger(y) then TypeError(y)
    else if Value(y) == 0 then ZeroDivisor
    else if x.Fixnum? && y.Fixnum? then Ok(FromMachine(TruncDiv(x.n, y.n)))
    else Ok(Integer(TruncDiv(Value(x), Value(y))))
  }

  function Neg(x: Number): (r: Number)
    requires IsInteger(x)
    ensures IsInteger(r) && GoodNumber(r) && Value(r) == -Value(x)
  {
    if x.Fixnum? then FromMachine(-x.n) else Integer(-x.v)
  }

  function Add(x: Number, y: Number): (r: Number)
    requires IsInteger(x) && IsInteger(y)
    ensures IsInteger(r) && GoodNumber(r) && Value(r) == Value(x) + Value(y)
  {
    if x.Fixnum? && y.Fixnum? then FromMachine(x.n + y.n) else Integer(Value(x) + Value(y))
  }

  function Sub(x: Number, y: Number): Number
    requires IsInteger(x) && IsInteger(y)
  {
    Add(x, Neg(y))
  }

  function IntFloorDiv(x: Number, y: Number): Outcome
  {
    var modulus := Modulus(x, y);
    if modulus.Ok? then Idiv(Sub(x, modulus.number), y) else modulus
  }

  predicate BothIntegers(x: Number, y: Number)
  {
    IsInteger(x) && IsInteger(y)
  }

  /** Which error comes first. */
  predicate FailsAs(x: Number, y: Number, r: Outcome)
  {
    if !IsInteger(x) then r == TypeError(x) else if !IsInteger(y) then r == TypeError(y) else r == ZeroDivisor
  }

  /** modulus returns the remainder with the divisor's sign, whatever the representation. */
  lemma {:induction false} ModulusSpec(x: Number, y: Number)
    requires GoodNumber(x) && GoodNumber(y)
    ensures var r := Modulus(x, y);
            if BothIntegers(x, y) && Value(y) != 0 then
              r.Ok? && GoodNumber(r.number) && IsInteger(r.number)
                  && exists q :: FloorRemainder(Value(x), Value(y), q, Value(r.number))
            else FailsAs(x, y, r)
  {
    if BothIntegers(x, y) && Value(y) != 0 {
      var q := IbigRemFloorSpec(Value(x), Value(y));
      assert FloorRemainder(Value(x), Value(y), q, Value(Modulus(x, y).number));
    }
  }

  /** idiv truncates toward zero. */
  lemma {:induction false} IdivSpec(x: Number, y: Number)
    requires GoodNumber(x) && GoodNumber(y)
    ensures var r := Idiv(x, y);
            if BothIntegers(x, y) && Value(y) != 0 then
              r.Ok? && GoodNumber(r.number) && IsInteger(r.number) && Truncated(Value(x), Value(y), Value(r.number))
            else FailsAs(x, y, r)
  {
    hide Truncated, TruncDiv;
    if BothIntegers(x, y) && Value(y) != 0 {
      TruncDivSpec(Value(x), Value(y));
    }
  }

  lemma {:induction false} ExactDivision(b: int, q: int)
    requires b != 0
    ensures TruncDiv(b * q, b) == q
  {
    TruncDivSpec(b * q, b);
    var t, r := TruncDiv(b * q, b), TruncRem(b * q, b);
    assert b * (q - t) == r;
    SmallMultiple(b, q - t);
  }

  /** The floor of a real number is the integer just below it. */
  lemma {:induction false} FloorIs(x: real, q: int)
    requires q as real <= x < q as real + 1.0
    ensures x.Floor == q
  {
  }

  lemma {:induction false} FloorOfQuotient(a: int, b: int, q: int, r: int)
    requires b != 0 && FloorRemainder(a, b, q, r)
    ensures (a as real / b as real).Floor == q
  {
    var x, y := a as real, b as real;
    assert x == y * q as real + r as real;
    var rest := r as real / y;
    assert x / y == q as real + rest;
    assert 0.0 <= rest < 1.0;
    FloorIs(x / y, q);
  }

  /** int_floor_div returns the floor of the exact quotient. */
  lemma {:induction false} IntFloorDivSpec(x: Number, y: Number)
    requires GoodNumber(x) && GoodNumber(y)
    ensures var r := IntFloorDiv(x, y);
            if BothIntegers(x, y) && Value(y) != 0 then
              && r.Ok? && GoodNumber(r.number) && IsInteger(r.number)
              && Value(r.number) == (Value(x) as real / Value(y) as real).Floor
            else FailsAs(x, y, r)
  {
    ModulusSpec(x, y);
    if BothIntegers(x, y) && Value(y) != 0 {
      var a, b, m := Value(x), Value(y), Value(Modulus(x, y).number);
      var q :| FloorRemainder(a, b, q, m);
      assert a - m == b * q;
      ExactDivision(b, q);
      FloorOfQuotient(a, b, q, m);
    }
  }

  // ----- powers -----

  function Pow(n: int, k: nat): int
  {
    if k == 0 then 1 else n * Pow(n, k - 1)
  }

  lemma {:induction false} PowSquare(n: int, k: nat)
    ensures Pow(n * n, k) == Pow(n, 2 * k)
  {
    if k > 0 {
      PowSquare(n, k - 1);
      assert Pow(n, 2 * k) == n * (n * Pow(n, 2 * k - 2));
      assert n * (n * Pow(n, 2 * k - 2)) == (n * n) * Pow(n, 2 * k - 2);
    }
  }

  /** binary_pow squares its way up; it ignores the sign of the power. */
  method BinaryPow(n: int, power: int) returns (r: int)
    ensures r == Pow(n, Abs(power))
  {
    var k: nat := Abs(power);
    if k == 0 {
      return 1;
    }
    var base, odds := n, 1;
    while k > 1
      invariant k >= 1 && odds * Pow(base, k) == Pow(n, Abs(power))
      decreases k
    {
      PowSquare(base, k / 2);
      ghost var half := Pow(base * base, k / 2);
      if k % 2 == 1 {
        assert Pow(base, k) == base * half;
        assert odds * (base * half) == (odds * base) * half;
        odds := odds * base;
      }
      base := base * base;
      k := k / 2;
    }
    assert Pow(base, 1) == base * Pow(base, 0);
    r := base * odds;
  }

  /** An integer is the power, for a negative exponent as the inverse. */
  predicate IsPower(n: int, power: int, p: int)
  {
    if power >= 0 then p == Pow(n, power) else p * Pow(n, -power) == 1
  }

  /** What int_pow returns: the power, or an error. Numbers that are no integers are left to floating point. */
  datatype Powered = Power(number: Number) | Undefined | NoInteger(culprit: Number) | Floating

  lemma {:induction false} UnitPower(n: int, k: nat)
    requires n == 1 || n == -1
    ensures Pow(n, k) == 1 || Pow(n, k) == -1
  {
    if k > 0 {
      UnitPower(n, k - 1);
    }
  }

  lemma {:induction false} NotOne(a: int, b: int)
    requires a != 1 && a != -1
    ensures a * b != 1
  {
    if a != 0 && b != 0 {
      if (a > 0) == (b > 0) {
        assert a * b >= 2;
      } else {
        assert a * b < 0;
      }
    }
  }

  /** Only 1 and -1 have powers with negative exponents among the integers. */
  lemma {:induction false} NoNegativePower(n: int, k: nat, p: int)
    requires k > 0 && n != 1 && n != -1
    ensures p * Pow(n, k) != 1
  {
    NotOne(n, p * Pow(n, k - 1));
    assert p * (n * Pow(n, k - 1)) == n * (p * Pow(n, k - 1));
  }

  predicate FitsInMachine(n: int)
  {
    -0x8000_0000_0000_0000 <= n < 0x8000_0000_0000_0000
  }

  /** checked_pow on machine integers, with an exponent of 32 bits. */
  function CheckedPow(n: int, power: int): Option<int>
  {
    if 0 <= power < 0x1_0000_0000 && FitsInMachine(Pow(n, power)) then Some(Pow(n, power)) else None
  }

  /** int_pow: two integers have a power exactly if it is an integer, and then it is returned. That the loop ignores the
      sign of the exponent does no harm, as it is only reached with a negative one for a base of 1 or -1. */
  method IntPow(x: Number, y: Number) returns (r: Powered)
    requires GoodNumber(x) && GoodNumber(y)
    ensures !BothIntegers(x, y) <==> r.Floating?
    ensures BothIntegers(x, y) ==>
              && (r.Power? <==> exists p :: IsPower(Value(x), Value(y), p))
              && (r.Power? ==> IsInteger(r.number) && IsPower(Value(x), Value(y), Value(r.number)))
              && (r.Undefined? <==> Value(x) == 0 && Value(y) < 0)
              && (r.NoInteger? ==> r.culprit == x)
  {
    if !BothIntegers(x, y) {
      return Floating;
    }
    var n, power := Value(x), Value(y);
    forall p | power < 0 && n != 1 && n != -1 ensures !IsPower(n, power, p) {
      NoNegativePower(n, -power, p);
    }
    if n == 0 && power < 0 {
      return Undefined;
    }
    if !(n == 1 || n == 0 || n == -1) && power < 0 {
      return NoInteger(x);
    }
    if power < 0 {
      UnitPower(n, -power);
    }
    assert IsPower(n, power, Pow(n, Abs(power)));
    if x.Fixnum? && y.Fixnum? {
      var checked := CheckedPow(n, power);
      if checked.Some? {
        return Power(FromMachine(checked.value));
      }
    }
    var p := BinaryPow(n, power);
    r := Power(Integer(p));
  }

  // ----- the checked left shift -----

  /** The number of binary digits. */
  function Bits(x: nat): nat
  {
    if x == 0 then 0 else 1 + Bits(x / 2)
  }

  function LeadingZeros(x: nat): int
  {
    64 - Bits(x)
  }

  /** checked_signed_shl. */
  function CheckedSignedShl(x: int, shift: nat): Option<int>
    decreases x < 0
  {
    if shift == 0 then Some(x)
    else if x >= 0 then (if shift < LeadingZeros(x) then Some(x * Pow2(shift)) else None)
    else if x == ISIZE_MIN then None
    else
      var r := CheckedSignedShl(-x, shift);
      if r.None? || r.value == ISIZE_MIN then None else Some(-r.value)
  }

  lemma {:induction false} Pow2Ascends(m: nat, n: nat)
    requires m <= n
    ensures Pow2(m) <= Pow2(n)
  {
    if m < n { Pow2Ascends(m, n - 1); }
  }

  lemma {:induction false} Pow2Sum(m: nat, n: nat)
    ensures Pow2(m + n) == Pow2(m) * Pow2(n)
  {
    if m > 0 {
      Pow2Sum(m - 1, n);
      assert 2 * (Pow2(m - 1) * Pow2(n)) == (2 * Pow2(m - 1)) * Pow2(n);
    }
  }

  lemma {:induction false} BitsBound(x: nat)
    requires x > 0
    ensures Bits(x) > 0 && Pow2(Bits(x) - 1) <= x < Pow2(Bits(x))
  {
    if x > 1 {
      BitsBound(x / 2);
    }
  }

  lemma {:induction false} Scaled(x: nat, y: nat, c: nat)
    requires x <= y
    ensures x * c <= y * c
  {
  }

  /** A positive number keeps clear of the sign bit exactly if the shift leaves it a leading zero. */
  lemma {:induction false} ShiftFits(x: nat, shift: nat)
    requires x > 0
    ensures shift < LeadingZeros(x) <==> x * Pow2(shift) < Pow2(63)
  {
    hide Pow2, Bits;
    BitsBound(x);
    var k := Bits(x);
    if k + shift <= 63 {
      Pow2Sum(k, shift);
      Pow2Ascends(k + shift, 63);
      Scaled(x + 1, Pow2(k), Pow2(shift));
      assert x * Pow2(shift) + Pow2(shift) == (x + 1) * Pow2(shift);
    } else {
      Pow2Sum(k - 1, shift);
      Pow2Ascends(63, k - 1 + shift);
      Scaled(Pow2(k - 1), x, Pow2(shift));
    }
  }

  lemma {:induction false} Pow63()
    ensures Pow2(63) == ISIZE_MAX + 1
  {
    assert Pow2(16) == 0x1_0000;
    Pow2Sum(16, 16);
    Pow2Sum(32, 16);
    Pow2Sum(48, 15);
    assert Pow2(15) == 0x8000;
  }

  /** The shift is done exactly if there is nothing to shift, or the absolute value of the result fits and, for
      zero, the shift is below the word size. In particular a result of -2^63 is refused. */
  lemma {:induction false} ShiftSpec(x: int, shift: nat)
    requires ISIZE_MIN <= x <= ISIZE_MAX
    ensures CheckedSignedShl(x, shift).Some? <==>
            (shift == 0 || (x == 0 && shift < 64) || (x != 0 && Abs(x) * Pow2(shift) <= ISIZE_MAX))
    ensures CheckedSignedShl(x, shift).Some? ==> CheckedSignedShl(x, shift).value == x * Pow2(shift)
  {
    hide Pow2, Bits;
    Pow63();
    NothingShifted(x);
    if shift > 0 && x > 0 {
      ShiftFits(x, shift);
    } else if shift > 0 && x < 0 {
      ShiftFits(-x, shift);
      assert -x * Pow2(shift) == -(x * Pow2(shift));
      assert x == ISIZE_MIN ==> Abs(x) * Pow2(shift) >= Abs(x);
    }
  }

  lemma {:induction false} NothingShifted(x: int)
    ensures x * Pow2(0) == x && Bits(0) == 0
  {
  }

  /** The result fits a machine integer and is refused all the same. */
  lemma {:induction false} ShiftRefusesLeast()
    ensures CheckedSignedShl(-0x4000_0000_0000_0000, 1).None? && -0x4000_0000_0000_0000 * Pow2(1) == ISIZE_MIN
  {
    ShiftSpec(-0x4000_0000_0000_0000, 1);
    assert Pow2(1) == 2;
  }
}
