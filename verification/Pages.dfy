/** Rounding addresses to pages, in 64 bits. The page size is whatever the
    kernel's is: a positive divisor of 2^64. */
module Pages {

  const W := 0x1_0000_0000_0000_0000

  type Word = x: int | 0 <= x < W

  ghost predicate Aligned(a: int, p: nat) {
    exists q: int :: a == p * q
  }

  ghost predicate PageSize(p: nat) {
    0 < p < W && Aligned(W, p)
  }

  /** The page an address is in: the last boundary not past it. */
  ghost function Down(a: int, p: nat): (r: int)
    requires p > 0
    ensures r <= a < r + p && Aligned(r, p)
  {
    var w := a - a % p;
    assert w == p * (a / p);
    assert w <= a < w + p && Aligned(w, p);
    var r :| r <= a < r + p && Aligned(r, p);
    r
  }

  /** The boundary an address is rounded up to, with the machine's wrap-around. */
  ghost function Up(a: int, p: nat): (r: int)
    requires p > 0
    ensures 0 <= a && a + p - 1 < W ==> a <= r < a + p && Aligned(r, p)
  {
    Down((a + p - 1) % W, p)
  }

  lemma {:induction false} DownNonNegative(a: int, p: nat)
    requires p > 0 && a >= 0
    ensures Down(a, p) >= 0
  {
  }

  /** Boundaries are a page apart at least. */
  lemma {:induction false} Apart(x: int, y: int, p: nat)
    requires Aligned(x, p) && Aligned(y, p) && x < y
    ensures x + p <= y
  {
    var i :| x == p * i;
    var j :| y == p * j;
    if i < j { Multiples(p, i, j); }
    if j < i { Multiples(p, j, i); }
  }

  lemma {:induction false} Shift(a: int, b: int, p: nat)
    requires Aligned(a, p) && Aligned(b, p)
    ensures Aligned(a + b, p) && Aligned(a - b, p)
  {
    var i :| a == p * i;
    var j :| b == p * j;
    assert a + b == p * (i + j) && a - b == p * (i - j);
  }

  /** Two page boundaries less than a page apart are one. */
  lemma {:induction false} Unique(x: int, y: int, p: nat)
    requires p > 0 && Aligned(x, p) && Aligned(y, p) && x - p < y < x + p
    ensures x == y
  {
    if x < y { Apart(x, y, p); }
    if y < x { Apart(y, x, p); }
  }

  lemma {:induction false} Multiples(p: nat, i: int, j: int)
    requires i < j
    ensures p * i + p <= p * j
    decreases j - i
  {
    if i + 1 < j { Multiples(p, i, j - 1); }
    assert p * j == p * (j - 1) + p;
  }

  /** Rounding commutes with moving by whole pages. */
  lemma {:induction false} DownMoves(a: int, d: int, p: nat)
    requires p > 0 && Aligned(d, p)
    ensures Down(a + d, p) == Down(a, p) + d
  {
    Shift(Down(a, p), d, p);
    Unique(Down(a + d, p), Down(a, p) + d, p);
  }

  function Pow2(k: nat): (r: nat)
    ensures r > 0
  {
    if k == 0 then 1 else 2 * Pow2(k - 1)
  }

  /** A number with its low `k` bits cleared, bit by bit: masked with ~(2^k - 1). */
  function Masked(a: nat, k: nat): nat {
    if k == 0 then a else 2 * Masked(a / 2, k - 1)
  }

  lemma {:induction false} MaskBounds(a: nat, k: nat)
    ensures Masked(a, k) <= a < Masked(a, k) + Pow2(k) && Aligned(Masked(a, k), Pow2(k))
  {
    if k == 0 {
      assert Masked(a, k) == Pow2(k) * a;
    } else {
      MaskBounds(a / 2, k - 1);
      var half, m := Pow2(k - 1), Masked(a / 2, k - 1);
      var q :| m == half * q;
      assert 2 * m == (2 * half) * q;
    }
  }

  /** For a page size that is a power of two the mask is the rounding. */
  lemma {:induction false} MaskRounds(a: nat, k: nat)
    ensures Masked(a, k) == Down(a, Pow2(k))
  {
    MaskBounds(a, k);
    Unique(Masked(a, k), Down(a, Pow2(k)), Pow2(k));
  }

  /** Taking off what is past the boundary rounds down. */
  method PageDown(a: Word, p: nat) returns (r: Word)
    requires p > 0
    ensures r == Down(a, p)
  {
    assert a - a % p == p * (a / p);
    Unique(a - a % p, Down(a, p), p);
    DownNonNegative(a, p);
    r := a - a % p;
  }

  method PageUp(a: Word, p: nat) returns (r: Word)
    requires p > 0
    ensures r == Up(a, p)
  {
    r := PageDown((a + p - 1) % W, p);
  }

  /** The page-rounded end of `n` bytes at `a`: none where the sum wraps, or
      rounds past the top. */
  method PageEnd(a: Word, n: Word, p: nat) returns (ok: bool, end: Word)
    requires PageSize(p)
    ensures ok <==> a + n + p <= W
    ensures ok ==> end == Up(a + n, p)
  {
    var e := (a + n) % W;
    if e < a || e > W - 1 - (p - 1) {
      return false, 0;
    }
    ok := true;
    end := PageUp(e, p);
  }
}
