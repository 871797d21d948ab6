/** Exact arithmetic helpers standing in for Math.pow and integer powers. */
module Arith {

  /** TrigMath.PI: the double nearest to pi (Math.PI), written out exactly. */
  const Pi: real := 884279719003555.0 / 281474976710656.0

  /** TrigMath.HALF_PI; halving a double is exact. */
  const HalfPi: real := Pi / 2.0

  /** b raised to a natural exponent. */
  function Pow(b: real, e: nat): (r: real)
    ensures b > 0.0 ==> r > 0.0
    ensures 0.0 < b <= 1.0 ==> r <= 1.0
  {
    if e == 0 then 1.0
    else
      var p := Pow(b, e - 1);
      assert 0.0 < b <= 1.0 ==> b * p <= p;
      b * p
  }

  /** Math.pow(b, e) for an integer exponent, possibly negative:
      b^-k is (1/b)^k. */
  function PowInt(b: real, e: int): (r: real)
    requires b > 0.0
    ensures r > 0.0
  {
    if e >= 0 then Pow(b, e) else Pow(1.0 / b, -e)
  }

  /** Integer powers, used for segment and rotation counts. */
  function NatPow(b: nat, e: nat): (r: nat)
    ensures b > 0 ==> r > 0
  {
    if e == 0 then 1 else b * NatPow(b, e - 1)
  }

  function Min(a: int, b: int): (m: int)
    ensures m <= a && m <= b
    ensures m == a || m == b
  {
    if a < b then a else b
  }

  function MinReal(a: real, b: real): (m: real)
    ensures m <= a && m <= b
    ensures m == a || m == b
  {
    if a < b then a else b
  }
}
