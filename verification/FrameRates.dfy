/** Counting frames at high frame rates: the remainders that decide which frames are displayed. */
module FrameRates {

  type Rate = k: int | 2 <= k <= 4 witness 2

  function Rem(a: int, k: Rate): (r: int)
    ensures 0 <= r < k
  {
    if k == 2 then a % 2 else if k == 3 then a % 3 else a % 4
  }

  /** The remainder in C, which takes the sign of the dividend. */
  function CMod(a: int, k: Rate): int { if a >= 0 then Rem(a, k) else -Rem(-a, k) }

  /** In the 2x, 3x and 4x modes the j-th frame from now is displayed when the counter then divides evenly. */
  function Pattern(cnt: int, k: Rate, n: nat): seq<bool> { seq(n, j => Rem(cnt + 1 + j, k) == 0) }

  // ----- remainders from quotients, one rate at a time ------------------------------

  function Mul(k: Rate, q: int): int { if k == 2 then 2 * q else if k == 3 then 3 * q else 4 * q }

  lemma Halves(y: int, q: int, r: int)
    requires y == 2 * q + r && 0 <= r < 2
    ensures y % 2 == r
  {
  }

  lemma Thirds(y: int, q: int, r: int)
    requires y == 3 * q + r && 0 <= r < 3
    ensures y % 3 == r
  {
  }

  lemma Quarters(y: int, q: int, r: int)
    requires y == 4 * q + r && 0 <= r < 4
    ensures y % 4 == r
  {
  }

  lemma RemIs(y: int, k: Rate, q: int, r: int)
    requires y == Mul(k, q) + r && 0 <= r < k
    ensures Rem(y, k) == r
  {
    if k == 2 {
      Halves(y, q, r);
    } else if k == 3 {
      Thirds(y, q, r);
    } else {
      Quarters(y, q, r);
    }
  }

  lemma RemQuotient(y: int, k: Rate) returns (q: int)
    ensures y == Mul(k, q) + Rem(y, k)
  {
    q := if k == 2 then y / 2 else if k == 3 then y / 3 else y / 4;
  }

  /** The remainder of C differs from the number by a multiple, and is zero for the multiples. */
  lemma CModQuotient(a: int, k: Rate) returns (t: int)
    ensures a == Mul(k, t) + CMod(a, k)
    ensures CMod(a, k) == 0 <==> Rem(a, k) == 0
  {
    hide Rem;
    if a >= 0 {
      t := RemQuotient(a, k);
    } else {
      var q := RemQuotient(-a, k);
      var r := Rem(-a, k);
      t := -q;
      if r == 0 {
        RemIs(a, k, -q, 0);
      } else {
        RemIs(a, k, -q - 1, k - r);
      }
    }
  }

  /** The counter kept by the code counts frames up to a multiple of the rate. */
  lemma CModShifts(a: int, x: int, k: Rate)
    ensures Rem(CMod(a, k) + x, k) == Rem(a + x, k)
    ensures CMod(a, k) == 0 <==> Rem(a, k) == 0
  {
    hide Rem, CMod;
    var t := CModQuotient(a, k);
    var q := RemQuotient(a + x, k);
    RemIs(CMod(a, k) + x, k, q - t, Rem(a + x, k));
  }

  /** It is smaller than the rate and on the same side of zero as the number: with the quotient, this fixes it. */
  lemma CModSign(a: int, k: Rate)
    ensures CMod(a, k) < k && CMod(a, k) + k > 0
    ensures (a >= 0 ==> CMod(a, k) >= 0) && (a <= 0 ==> CMod(a, k) <= 0)
    ensures exists t :: a == Mul(k, t) + CMod(a, k)
  {
    var t := CModQuotient(a, k);
  }

  lemma PatternNext(cnt: int, k: Rate, n: nat)
    ensures Pattern(cnt, k, n + 1) == [CMod(cnt + 1, k) == 0] + Pattern(CMod(cnt + 1, k), k, n)
  {
    hide Rem, CMod;
    var c := CMod(cnt + 1, k);
    CModShifts(cnt + 1, 0, k);
    forall j | 0 <= j < n ensures Pattern(cnt, k, n + 1)[j + 1] == Pattern(c, k, n)[j] {
      CModShifts(cnt + 1, 1 + j, k);
      assert c + (1 + j) == c + 1 + j && cnt + 1 + (1 + j) == cnt + 1 + (j + 1);
    }
  }

  /** Of k consecutive numbers exactly one is a multiple of k. */
  lemma OneMultiple(c: int, k: Rate, i: int)
    requires 0 <= i < k
    ensures Rem(c + i, k) == 0 <==> i == Rem(-c, k)
  {
    hide Rem;
    var j := Rem(-c, k);
    var q := RemQuotient(-c, k);
    if i >= j {
      RemIs(c + i, k, -q, i - j);
    } else {
      RemIs(c + i, k, -q - 1, k + i - j);
    }
  }

  /** Exactly one of any k consecutive frames of a pattern is displayed. */
  lemma OneInPattern(cnt: int, k: Rate, n: nat, m: nat) returns (j: nat)
    requires m + k <= n
    ensures m <= j < m + k && forall i | m <= i < m + k :: Pattern(cnt, k, n)[i] <==> i == j
  {
    hide Rem;
    var c := cnt + 1 + m;
    j := m + Rem(-c, k);
    forall i | m <= i < m + k ensures Pattern(cnt, k, n)[i] <==> i == j {
      assert cnt + 1 + i == c + (i - m);
      OneMultiple(c, k, i - m);
    }
  }
}
