/**
 * The integer arithmetic of the scheduler. The source computes its ceilings in double precision
 * (Math.ceil of a quotient); here they are exact integer ceilings.
 */
module SchedulingMath {

  /** Math.min on int. */
  function Min(a: int, b: int): (r: int)
    ensures r <= a && r <= b && (r == a || r == b)
  {
    if a <= b then a else b
  }

  /** x if positive, else zero. */
  function Pos(x: int): nat {
    if x > 0 then x else 0
  }

  /** (int) Math.ceil((double) a / b) for a count a and a positive divisor b: the number of chunks
      of b it takes to hold a, one chunk at a time. */
  function CeilDiv(a: nat, b: nat): (r: nat)
    requires b > 0
    ensures a > 0 ==> r > 0
    decreases a
  {
    if a == 0 then 0 else if a <= b then 1 else 1 + CeilDiv(a - b, b)
  }

  /** The ceiling is the least number of chunks of b that hold a. */
  lemma {:induction false} CeilDivSpec(a: nat, b: nat)
    requires b > 0
    ensures CeilDiv(a, b) * b >= a
    ensures a > 0 ==> (CeilDiv(a, b) - 1) * b < a
    decreases a
  {
    if a > b {
      CeilDivSpec(a - b, b);
      var k := CeilDiv(a - b, b);
      assert CeilDiv(a, b) * b == k * b + b;
      assert (CeilDiv(a, b) - 1) * b == k * b;
    }
  }

  /** It is the quotient (a + b - 1) / b of integer division. */
  lemma CeilDivQuotient(a: nat, b: nat)
    requires b > 0
    ensures CeilDiv(a, b) == (a + b - 1) / b
  {
    var q := CeilDiv(a, b);
    CeilDivSpec(a, b);
    if a == 0 {
      DivUnique(b - 1, b, 0, b - 1);
    } else {
      assert (q - 1) * b == q * b - b;
      DivUnique(a + b - 1, b, q, a + b - 1 - q * b);
    }
  }

  /** (int) Math.ceil(m / 2.0), and (int) Math.ceil(m * 0.5), on any int m. */
  function CeilHalf(m: int): (r: int)
    ensures 2 * r - 1 <= m <= 2 * r
  {
    (m + 1) / 2
  }

  /** Removing one chunk of size c leaves one chunk fewer to do. */
  lemma CeilDivStep(a: nat, c: nat)
    requires c > 0 && a > c
    ensures CeilDiv(a, c) == 1 + CeilDiv(a - c, c)
  {
  }

  /** Up to one chunk of size c is one chunk. */
  lemma CeilDivOne(a: nat, c: nat)
    requires 0 < a <= c
    ensures CeilDiv(a, c) == 1
  {
  }

  /** Taking min(c, a) units of a > 0 leaves one chunk of c fewer. */
  lemma CeilDivTake(a: nat, taken: nat, c: nat)
    requires c > 0 && a > 0 && taken == Min(c, a)
    ensures CeilDiv(a, c) == 1 + CeilDiv(a - taken, c)
  {
  }

  lemma CeilDivZero(c: nat)
    requires c > 0
    ensures CeilDiv(0, c) == 0
  {
  }

  /** The quotient is the only q with a == q * b + m and 0 <= m < b. */
  lemma DivUnique(a: nat, b: nat, q: nat, m: nat)
    requires b > 0 && a == q * b + m && m < b
    ensures a / b == q
  {
    var q' := a / b;
    var m' := a % b;
    assert a == q' * b + m';
    if q' > q {
      MulMonotone(q', q + 1, b);
    } else if q' < q {
      MulMonotone(q, q' + 1, b);
    }
  }

  /** Chunks of ceil(n / d) units need at most d days: the chunk count is within the day count. */
  lemma ChunkCountFits(n: nat, d: nat)
    requires n > 0 && d > 0
    ensures CeilDiv(n, CeilDiv(n, d)) <= d
  {
    var c := CeilDiv(n, d);
    var k := CeilDiv(n, c);
    CeilDivSpec(n, d);
    CeilDivSpec(n, c);
    assert (k - 1) * c < n <= c * d;
    if d < k {
      MulMonotone(k - 1, d, c);
    }
  }

  lemma MulMonotone(x: nat, y: nat, c: nat)
    requires x >= y
    ensures x * c >= y * c
  {
  }
}
