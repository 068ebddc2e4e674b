/**
 The greatest common divisor of machine integers, by halving and subtracting.
 */
module BinaryGcd {
  import opened Options

  const ISIZE_MIN: int := -0x8000_0000_0000_0000
  const ISIZE_MAX: int := 0x7FFF_FFFF_FFFF_FFFF

  predicate IsIsize(n: int)
  {
    ISIZE_MIN <= n <= ISIZE_MAX
  }

  function Abs(n: int): nat
  {
    if n < 0 then -n else n
  }

  predicate Multiple(d: nat, n: nat, k: nat)
  {
    n == d * k
  }

  ghost predicate Divides(d: nat, n: nat)
  {
    exists k: nat :: Multiple(d, n, k)
  }

  /** The greatest common divisor, by repeated subtraction. */
  function Gcd(a: nat, b: nat): nat
    decreases a + b
  {
    if a == 0 then b
    else if b == 0 then a
    else if a <= b then Gcd(a, b - a)
    else Gcd(a - b, b)
  }

  lemma {:induction false} DividesSum(d: nat, a: nat, b: nat)
    requires Divides(d, a) && Divides(d, b)
    ensures Divides(d, a + b)
  {
    var i: nat :| Multiple(d, a, i);
    var j: nat :| Multiple(d, b, j);
    assert Multiple(d, a + b, i + j) by { assert d * (i + j) == d * i + d * j; }
  }

  lemma {:induction false} DividesDifference(d: nat, a: nat, b: nat)
    requires Divides(d, a) && Divides(d, b) && a <= b
    ensures Divides(d, b - a)
  {
    var i: nat :| Multiple(d, a, i);
    var j: nat :| Multiple(d, b, j);
    if d == 0 || a == b {
      assert Multiple(d, b - a, 0);
    } else {
      assert i <= j;
      assert Multiple(d, b - a, j - i) by { assert d * (j - i) == d * j - d * i; }
    }
  }

  lemma {:induction false} DividesZero(d: nat)
    ensures Divides(d, 0) && Divides(d, d)
  {
    assert Multiple(d, 0, 0) && Multiple(d, d, 1);
  }

  /** Gcd is a common divisor. */
  lemma {:induction false} GcdDivides(a: nat, b: nat)
    ensures Divides(Gcd(a, b), a) && Divides(Gcd(a, b), b)
    decreases a + b
  {
    hide Divides;
    DividesZero(a);
    DividesZero(b);
    if a == 0 || b == 0 {
    } else if a <= b {
      GcdDivides(a, b - a);
      DividesSum(Gcd(a, b), a, b - a);
    } else {
      GcdDivides(a - b, b);
      DividesSum(Gcd(a, b), a - b, b);
    }
  }

  /** Every common divisor divides it. */
  lemma {:induction false} GcdGreatest(a: nat, b: nat, d: nat)
    requires Divides(d, a) && Divides(d, b)
    ensures Divides(d, Gcd(a, b))
    decreases a + b
  {
    hide Divides;
    if a == 0 || b == 0 {
    } else if a <= b {
      DividesDifference(d, a, b);
      GcdGreatest(a, b - a, d);
    } else {
      DividesDifference(d, b, a);
      GcdGreatest(a - b, b, d);
    }
  }

  lemma {:induction false} DividesBounds(d: nat, n: nat)
    requires Divides(d, n) && n > 0
    ensures 0 < d <= n
  {
    var k: nat :| Multiple(d, n, k);
    assert d > 0 && k > 0;
    assert d * k >= d;
  }

  lemma {:induction false} GcdPositive(a: nat, b: nat)
    requires a > 0 || b > 0
    ensures Gcd(a, b) > 0 && (a > 0 ==> Gcd(a, b) <= a) && (b > 0 ==> Gcd(a, b) <= b)
  {
    GcdDivides(a, b);
    if a > 0 { DividesBounds(Gcd(a, b), a); }
    if b > 0 { DividesBounds(Gcd(a, b), b); }
  }

  lemma {:induction false} GcdCommutes(a: nat, b: nat)
    ensures Gcd(a, b) == Gcd(b, a)
    decreases a + b
  {
    if a == 0 || b == 0 || a == b {
    } else if a < b {
      GcdCommutes(a, b - a);
    } else {
      GcdCommutes(a - b, b);
    }
  }

  lemma {:induction false} GcdDoubles(a: nat, b: nat)
    ensures Gcd(2 * a, 2 * b) == 2 * Gcd(a, b)
    decreases a + b
  {
    if a == 0 || b == 0 {
    } else if a <= b {
      GcdDoubles(a, b - a);
      assert 2 * (b - a) == 2 * b - 2 * a;
    } else {
      GcdDoubles(a - b, b);
      assert 2 * (a - b) == 2 * a - 2 * b;
    }
  }

  /** An odd divisor of a double divides the half. */
  lemma {:induction false} OddDivides(d: nat, a: nat)
    requires Divides(d, 2 * a) && d % 2 == 1
    ensures Divides(d, a)
  {
    var k: nat :| Multiple(d, 2 * a, k);
    assert k % 2 == 0 by {
      if k % 2 == 1 {
        OddProduct(d, k);
      }
    }
    assert Multiple(d, a, k / 2) by { assert d * (2 * (k / 2)) == 2 * (d * (k / 2)); }
  }

  lemma {:induction false} OddProduct(d: nat, k: nat)
    requires d % 2 == 1 && k % 2 == 1
    ensures (d * k) % 2 == 1
  {
    var i, j := d / 2, k / 2;
    assert d * k == (2 * i + 1) * (2 * j + 1) == 2 * (2 * (i * j) + i + j) + 1;
  }

  lemma {:induction false} DivisorOfOdd(d: nat, b: nat)
    requires Divides(d, b) && b % 2 == 1
    ensures d % 2 == 1
  {
    var k: nat :| Multiple(d, b, k);
    var half := d / 2;
    assert d == 2 * half + d % 2;
    assert (2 * half) * k == 2 * (half * k);
  }

  lemma {:induction false} DividesDouble(d: nat, a: nat)
    requires Divides(d, a)
    ensures Divides(d, 2 * a)
  {
    DividesSum(d, a, a);
  }

  lemma {:induction false} DividesBothWays(d: nat, e: nat)
    requires Divides(d, e) && Divides(e, d) && d > 0 && e > 0
    ensures d == e
  {
    DividesBounds(d, e);
    DividesBounds(e, d);
  }

  /** A factor two of one number does not matter when the other is odd. */
  lemma {:induction false} GcdHalves(a: nat, b: nat)
    requires b % 2 == 1
    ensures Gcd(2 * a, b) == Gcd(a, b)
  {
    hide Divides, Gcd;
    var g, h := Gcd(2 * a, b), Gcd(a, b);
    GcdDivides(2 * a, b);
    GcdDivides(a, b);
    DivisorOfOdd(g, b);
    OddDivides(g, a);
    GcdGreatest(a, b, g);
    DividesDouble(h, a);
    GcdGreatest(2 * a, b, h);
    GcdPositive(2 * a, b);
    GcdPositive(a, b);
    DividesBothWays(g, h);
  }

  function Pow2(n: nat): (r: nat)
    ensures r >= 1
  {
    if n == 0 then 1 else 2 * Pow2(n - 1)
  }

  function CheckedAbs(n: int): Option<int>
  {
    if n == ISIZE_MIN then None else Some(Abs(n))
  }

  lemma {:induction false} MoveTwo(shift: nat, g: nat)
    ensures Pow2(shift) * (2 * g) == Pow2(shift + 1) * g
  {
  }

  /** Common factors of two are counted and removed. */
  method StripCommon(a: nat, b: nat) returns (n1: nat, n2: nat, shift: nat)
    requires a > 0 && b > 0
    ensures n1 > 0 && n2 > 0 && (n1 % 2 == 1 || n2 % 2 == 1)
    ensures Pow2(shift) * Gcd(n1, n2) == Gcd(a, b) && n1 <= a && n2 <= b
  {
    hide Gcd;
    n1, n2, shift := a, b, 0;
    while n1 % 2 == 0 && n2 % 2 == 0
      invariant 0 < n1 <= a && 0 < n2 <= b && Pow2(shift) * Gcd(n1, n2) == Gcd(a, b)
      decreases n1
    {
      GcdDoubles(n1 / 2, n2 / 2);
      MoveTwo(shift, Gcd(n1 / 2, n2 / 2));
      shift, n1, n2 := shift + 1, n1 / 2, n2 / 2;
    }
  }

  method StripTwos(n: nat, ghost odd: nat) returns (r: nat)
    requires n > 0 && (n % 2 == 0 ==> odd % 2 == 1)
    ensures 0 < r <= n && r % 2 == 1 && Gcd(r, odd) == Gcd(n, odd)
  {
    r := n;
    while r % 2 == 0
      invariant 0 < r <= n && Gcd(r, odd) == Gcd(n, odd) && (r % 2 == 0 ==> odd % 2 == 1)
      decreases r
    {
      hide Gcd;
      GcdHalves(r / 2, odd);
      r := r / 2;
    }
  }

  /** isize_gcd: None exactly if an argument has no absolute value; else the greatest common divisor,
      which fits. */
  method IsizeGcd(a: int, b: int) returns (r: Option<int>)
    requires IsIsize(a) && IsIsize(b)
    ensures r.None? <==> a == ISIZE_MIN || b == ISIZE_MIN
    ensures r.Some? ==> r.value == Gcd(Abs(a), Abs(b)) && IsIsize(r.value)
  {
    hide Gcd, Pow2;
    GcdOfZero(Abs(a));
    GcdOfZero(Abs(b));
    if a == 0 {
      return CheckedAbs(b);
    }
    if b == 0 {
      return CheckedAbs(a);
    }
    var abs1, abs2 := CheckedAbs(a), CheckedAbs(b);
    if abs1.None? || abs2.None? {
      return None;
    }
    var n1, n2, shift := StripCommon(abs1.value, abs2.value);
    ghost var g := Gcd(n1, n2);
    n1 := StripTwos(n1, n2);
    while true
      invariant n1 > 0 && n2 > 0 && n1 % 2 == 1 && Gcd(n1, n2) == g
      decreases n1 + n2
    {
      GcdCommutes(n1, n2);
      n2 := StripTwos(n2, n1);
      GcdCommutes(n1, n2);
      if n1 > n2 {
        n1, n2 := n2, n1;
      }
      GcdSubtracts(n1, n2);
      n2 := n2 - n1;
      if n2 == 0 {
        break;
      }
    }
    GcdOfZero(n1);
    GcdPositive(Abs(a), Abs(b));
    assert n1 * Pow2(shift) == Pow2(shift) * g;
    r := Some(n1 * Pow2(shift));
  }

  lemma {:induction false} GcdOfZero(a: nat)
    ensures Gcd(0, a) == Gcd(a, 0) == a
  {
  }

  lemma {:induction false} GcdSubtracts(a: nat, b: nat)
    requires 0 < a <= b
    ensures Gcd(a, b - a) == Gcd(a, b)
  {
  }
}
