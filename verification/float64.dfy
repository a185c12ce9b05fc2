// An int64 expiry kept as a float64 score: int64 -> float64 rounds to the nearest value with
// a 53-bit significand, ties to even; float64 -> int64 is exact where it fits.
module Float64 {
  import opened Types

  const TWO53: int := 0x20_0000_0000_0000
  const TWO63: int := 0x8000_0000_0000_0000

  // The spacing of float64 values at n, starting the search at u.
  function Ulp(n: nat, u: nat): (r: nat)
    requires u > 0
    ensures r > 0
    decreases if n > TWO53 * u then n - TWO53 * u else 0
  {
    if n <= TWO53 * u then u else Ulp(n, 2 * u)
  }

  function Round(n: nat): nat
  {
    var u := Ulp(n, 1);
    var q, r := n / u, n % u;
    if 2 * r < u || (2 * r == u && q % 2 == 0) then q * u else (q + 1) * u
  }

  // The score stored for an expiry.
  function Score(x: i64): int
  {
    if x < 0 then 0 - Round(0 - x as int) else Round(x)
  }

  // int64(score); past the range amd64 yields the least int64.
  function FromScore(s: int): i64
  {
    if -TWO63 <= s < TWO63 then s else -0x8000_0000_0000_0000
  }

  predicate Exact(x: i64)
  {
    var n: int := if x < 0 then 0 - x as int else x;
    n % Ulp(n, 1) == 0
  }

  lemma RoundExact(n: nat)
    ensures Round(n) == n <==> n % Ulp(n, 1) == 0
  {
    var u := Ulp(n, 1);
    var q, r := n / u, n % u;
    assert n == q * u + r;
    assert (q + 1) * u == q * u + u;
  }

  predicate IsPower2(u: nat)
  {
    u > 0 && (u == 1 || (u % 2 == 0 && IsPower2(u / 2)))
  }

  // The spacing is the least power of two, from u on, by which 2^53 steps reach n.
  lemma {:induction false} UlpIs(n: nat, u: nat)
    requires IsPower2(u)
    ensures var r := Ulp(n, u);
            IsPower2(r) && n <= TWO53 * r && (r == u || n > TWO53 * (r / 2))
    decreases if n > TWO53 * u then n - TWO53 * u else 0
  {
    if n > TWO53 * u {
      assert 2 * u / 2 == u;
      UlpIs(n, 2 * u);
    }
  }

  // Rounding goes to a nearest multiple of the spacing, and between two to the even one.
  lemma RoundNearest(n: nat) returns (k: nat)
    ensures var u := Ulp(n, 1);
            && Round(n) == k * u
            && 2 * Round(n) <= 2 * n + u && 2 * n <= 2 * Round(n) + u
            && (2 * Round(n) == 2 * n + u || 2 * n == 2 * Round(n) + u ==> k % 2 == 0)
  {
    hide Ulp;
    var u := Ulp(n, 1);
    var q, r := n / u, n % u;
    assert n == q * u + r;
    k := if 2 * r < u || (2 * r == u && q % 2 == 0) then q else q + 1;
    assert (q + 1) * u == q * u + u;
  }

  // An expiry survives the store exactly when float64 can hold it, in particular up to 2^53.
  lemma ScoreExactly(x: i64)
    ensures FromScore(Score(x)) == x <==> Exact(x)
    ensures -TWO53 <= x <= TWO53 ==> Exact(x)
  {
    var n: int := if x < 0 then 0 - x as int else x;
    RoundExact(n);
    if !Exact(x) && x == -0x8000_0000_0000_0000 {
      UlpDivides(n);
    }
  }

  // 2^63 itself is a float64.
  lemma UlpDivides(n: nat)
    requires n == TWO63
    ensures n % Ulp(n, 1) == 0
  {
    assert Ulp(n, 1) == Ulp(n, 2) == Ulp(n, 4) == Ulp(n, 8) == Ulp(n, 16) == Ulp(n, 32);
    assert Ulp(n, 32) == Ulp(n, 64) == Ulp(n, 128) == Ulp(n, 256) == Ulp(n, 512) == Ulp(n, 1024);
    assert Ulp(n, 1024) == 1024;
  }

  // Other processors saturate instead.
  function FromScoreSaturating(s: int): i64
  {
    if s >= TWO63 then TWO63 - 1 else if s < -TWO63 then -TWO63 else s
  }

  // There the greatest int64 comes back too, though float64 does not hold it.
  lemma SaturatingExactly(x: i64)
    ensures FromScoreSaturating(Score(x)) == x <==> Exact(x) || x == TWO63 - 1
  {
    var n: int := if x < 0 then 0 - x as int else x;
    RoundExact(n);
    if x == TWO63 - 1 {
      GreatestRoundsUp();
    } else if x == -TWO63 {
      UlpDivides(n);
    }
  }

  lemma GreatestRoundsUp()
    ensures Round(TWO63 - 1) == TWO63
  {
    var n := TWO63 - 1;
    assert Ulp(n, 1) == Ulp(n, 2) == Ulp(n, 4) == Ulp(n, 8) == Ulp(n, 16) == Ulp(n, 32);
    assert Ulp(n, 32) == Ulp(n, 64) == Ulp(n, 128) == Ulp(n, 256) == Ulp(n, 512) == Ulp(n, 1024);
    assert Ulp(n, 1024) == 1024;
  }
}
