/** Facts about integer remainders. */
module Arith {

  lemma ModSucc(s: nat, t: nat)
    requires t >= 1
    ensures (s + 1) % t == if s % t + 1 == t then 0 else s % t + 1
  {
    var q, r := s / t, s % t;
    assert s == q * t + r;
    if r + 1 == t {
      assert s + 1 == (q + 1) * t + 0;
      ModIs(s + 1, t, q + 1, 0);
    } else {
      ModIs(s + 1, t, q, r + 1);
    }
  }

  lemma ModIs(x: int, t: nat, q: int, r: nat)
    requires t >= 1 && r < t && x == q * t + r
    ensures x % t == r && x / t == q
  {
    var k := q - x / t;
    assert x == (x / t) * t + x % t;
    assert k * t == x % t - r by {
      assert k * t == q * t - (x / t) * t;
    }
    MulGap(k, t);
  }

  lemma MulGap(k: int, t: int)
    requires t >= 0
    ensures k >= 1 ==> k * t >= t
    ensures k <= -1 ==> k * t <= -t
  {
    if k >= 1 {
      assert k * t == t + (k - 1) * t;
    } else if k <= -1 {
      assert k * t == -t + (k + 1) * t;
    }
  }

  function NonNegative(x: int): int { if x < 0 then 0 else x }

  function Times(a: nat, b: nat): nat {
    a * b
  }

  function Quotient(a: nat, b: nat): nat
    requires b >= 1
  {
    a / b
  }
}
