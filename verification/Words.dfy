/** Unsigned 64-bit machine words as natural numbers: wrap-around, the signed cast, the
    bitwise operations the ring buffer uses, and rounding up to a power of two. */
module Words {

  const WORD: int := 0x1_0000_0000_0000_0000
  const SIGN: int := 0x8000_0000_0000_0000

  /** The value a `std::size_t` holds after an operation whose exact result is `x`. */
  function Wrap(x: int): (w: nat)
    ensures w < WORD
    ensures 0 <= x < WORD ==> w == x
  {
    x % WORD
  }

  /** `static_cast<std::ptrdiff_t>` of a word. */
  function Signed(w: nat): (i: int)
    requires w < WORD
    ensures -SIGN <= i < SIGN
    ensures Wrap(i) == w
  {
    if w < SIGN then w else w - WORD
  }

  function BitAnd(x: nat, y: nat): nat
  {
    if x == 0 || y == 0 then 0
    else 2 * BitAnd(x / 2, y / 2) + (if x % 2 == 1 && y % 2 == 1 then 1 else 0)
  }

  function BitOr(x: nat, y: nat): nat
  {
    if x == 0 then y
    else if y == 0 then x
    else 2 * BitOr(x / 2, y / 2) + (if x % 2 == 1 || y % 2 == 1 then 1 else 0)
  }

  function Pow2(k: nat): (p: nat)
    ensures p >= 1
  {
    if k == 0 then 1 else 2 * Pow2(k - 1)
  }

  ghost predicate IsPow2(n: nat) {
    exists k: nat :: n == Pow2(k)
  }

  // ---------------------------------------------------------------- powers of two

  lemma {:induction false} Pow2Adds(a: nat, b: nat)
    ensures Pow2(a + b) == Pow2(a) * Pow2(b)
  {
    if a > 0 { Pow2Adds(a - 1, b); }
  }

  lemma {:induction false} Pow2Grows(a: nat, b: nat)
    requires a < b
    ensures 2 * Pow2(a) <= Pow2(b)
  {
    if a + 1 < b { Pow2Grows(a, b - 1); }
  }

  /** Powers of two that are comparable with one strictly between neighbours do not exist. */
  lemma Pow2Order(a: nat, b: nat)
    requires Pow2(a) < Pow2(b)
    ensures a < b
  {
    if b < a { Pow2Grows(b, a); }
  }

  lemma Pow2Of63()
    ensures Pow2(63) == SIGN && Pow2(64) == WORD
  {
    Pow2Adds(4, 4);
    Pow2Adds(8, 8);
    Pow2Adds(16, 16);
    Pow2Adds(32, 32);
    assert Pow2(64) == 2 * Pow2(63);
  }

  /** Every positive number lies between two neighbouring powers of two. */
  lemma {:induction false} TopBit(n: nat) returns (k: nat)
    requires n >= 1
    ensures Pow2(k) <= n < Pow2(k + 1)
  {
    if n == 1 {
      k := 0;
    } else {
      k := TopBit(n / 2);
      k := k + 1;
    }
  }

  // ---------------------------------------------------------------- masking

  /** Masking with one less than a power of two is the remainder: `pos & mask_` is
      `pos % capacity_` for every word `pos`. */
  lemma {:induction false} MaskIsRemainder(x: nat, k: nat)
    ensures BitAnd(x, Pow2(k) - 1) == x % Pow2(k)
  {
    if k == 0 {
    } else if x == 0 {
      RemainderUnique(0, Pow2(k), 0, 0);
    } else {
      MaskIsRemainder(x / 2, k - 1);
      MaskDoubles(x, Pow2(k - 1), Pow2(k));
    }
  }

  lemma MaskDoubles(x: nat, p: nat, p2: nat)
    requires x > 0 && p >= 1 && p2 == 2 * p
    requires BitAnd(x / 2, p - 1) == (x / 2) % p
    ensures BitAnd(x, p2 - 1) == x % p2
  {
    MaskStep(x, p);
    HalveRemainder(x, p);
  }

  lemma MaskStep(x: nat, p: nat)
    requires x > 0 && p >= 1
    ensures BitAnd(x, 2 * p - 1) == 2 * BitAnd(x / 2, p - 1) + x % 2
  {
    assert (2 * p - 1) / 2 == p - 1 && (2 * p - 1) % 2 == 1;
  }

  lemma HalveRemainder(x: nat, p: nat)
    requires p >= 1
    ensures x % (2 * p) == 2 * ((x / 2) % p) + x % 2
  {
    var h := x / 2;
    var q, r := h / p, h % p;
    assert x == (2 * p) * q + (2 * r + x % 2) by {
      assert h == q * p + r;
    }
    RemainderUnique(x, 2 * p, q, 2 * r + x % 2);
  }

  lemma MulMonotone(d: nat, a: int, b: int)
    requires a <= b
    ensures d * a <= d * b
  {
  }

  lemma RemainderUnique(x: nat, d: nat, q: nat, r: nat)
    requires d >= 1 && r < d && x == d * q + r
    ensures x % d == r && x / d == q
  {
    var q' := x / d;
    assert x == d * q' + x % d;
    if q < q' {
      MulMonotone(d, q + 1, q');
    } else if q' < q {
      MulMonotone(d, q' + 1, q);
    }
  }

  // ---------------------------------------------------------------- counters

  /** A 64-bit counter counts modulo 2^64. */
  lemma WrapSteps(n: nat)
    ensures Wrap(Wrap(n) + 1) == Wrap(n + 1)
  {
    var q, r := n / WORD, n % WORD;
    assert n == WORD * q + r;
    if r + 1 < WORD {
      RemainderUnique(n + 1, WORD, q, r + 1);
    } else {
      RemainderUnique(n + 1, WORD, q + 1, 0);
      RemainderUnique(r + 1, WORD, 1, 0);
    }
  }

  // ---------------------------------------------------------------- bit smearing

  /** Or-ing into the low `m` bits leaves the bits above them alone, only raises the low part,
      and keeps it inside its `m` bits. */
  lemma {:induction false} OrLow(high: nat, low: nat, y: nat, m: nat)
    requires low < Pow2(m) && y < Pow2(m)
    ensures var r := BitOr(high * Pow2(m) + low, y);
            high * Pow2(m) + y <= r < high * Pow2(m) + Pow2(m)
  {
    if m > 0 {
      var p := Pow2(m - 1);
      var x := high * Pow2(m) + low;
      assert x == 2 * (high * p + low / 2) + low % 2;
      assert x / 2 == high * p + low / 2 && x % 2 == low % 2;
      OrLow(high, low / 2, y / 2, m - 1);
      if x == 0 {
        assert high * Pow2(m) == 0;
      }
    } else {
      assert y == 0 && low == 0;
    }
  }

  /** `x` has its top bit at position `top` and at least `run` set bits from there down. */
  ghost predicate TopRun(x: nat, top: nat, run: nat) {
    && 1 <= run <= top + 1
    && Pow2(top + 1) - Pow2(top + 1 - run) <= x < Pow2(top + 1)
  }

  function Min(a: nat, b: nat): nat { if a < b then a else b }

  function Quotient(x: nat, d: nat): nat
    requires d >= 1
  {
    x / d
  }

  function Shr(x: nat, k: nat): nat { Quotient(x, Pow2(k)) }

  /** One line of the smearing cascade, `n |= n >> run`, doubles the run of set bits. */
  lemma SmearDoubles(x: nat, top: nat, run: nat)
    requires TopRun(x, top, run)
    ensures TopRun(BitOr(x, Shr(x, run)), top, Min(2 * run, top + 1))
  {
    var m := top + 1 - run;
    var low := x - (Pow2(top + 1) - Pow2(m));
    ShiftedRun(x, top, run);
    Pow2Grows(m, top + 1);
    OrBelowRun(top, run, low, Shr(x, run));
  }

  lemma OrBelowRun(top: nat, run: nat, low: nat, y: nat)
    requires run <= top + 1 && low < Pow2(top + 1 - run) && y < Pow2(top + 1 - run)
    requires Pow2(top + 1 - run) <= Pow2(top + 1)
    ensures var m, p := Pow2(top + 1 - run), Pow2(top + 1);
            p - m + y <= BitOr(p - m + low, y) < p
  {
    var m := top + 1 - run;
    Pow2Adds(run, m);
    var high := Pow2(run) - 1;
    assert high * Pow2(m) == Pow2(run) * Pow2(m) - Pow2(m);
    OrLow(high, low, y, m);
  }

  /** What the shifted copy contributes: a run of set bits starting just below position
      `top + 1 - run`. */
  lemma ShiftedRun(x: nat, top: nat, run: nat)
    requires TopRun(x, top, run)
    ensures var m := top + 1 - run;
            Pow2(m) - Pow2(top + 1 - Min(2 * run, top + 1)) <= Shr(x, run) < Pow2(m)
  {
    var m, d := top + 1 - run, Pow2(run);
    var rest := top + 1 - Min(2 * run, top + 1);
    assert Pow2(top + 1) == d * Pow2(m) by { Pow2Adds(run, m); }
    DivBelow(x, d, Pow2(m));
    assert Pow2(m) <= d * Pow2(rest) by {
      if 2 * run <= top + 1 {
        Pow2Adds(run, rest);
      } else if m < run {
        Pow2Grows(m, run);
      }
    }
    assert d * Pow2(m) - d * Pow2(rest) == d * (Pow2(m) - Pow2(rest));
    if rest < m { Pow2Grows(rest, m); }
    DivAbove(x, d, Pow2(m) - Pow2(rest));
  }

  lemma DivBelow(x: nat, d: nat, b: nat)
    requires d >= 1 && x < d * b
    ensures x / d < b
  {
    var q := x / d;
    assert d * q <= x;
    if b <= q { MulMonotone(d, b, q); }
  }

  lemma DivAbove(x: nat, d: nat, b: nat)
    requires d >= 1 && x >= d * b
    ensures x / d >= b
  {
    var q := x / d;
    assert x < d * (q + 1);
    if q + 1 <= b { MulMonotone(d, q + 1, b); }
  }

  /** The same line when the shift may already exceed the run (small arguments): the run is
      then complete and the line changes nothing. */
  lemma SmearLine(x: nat, top: nat, shift: nat)
    requires shift >= 1 && TopRun(x, top, Min(shift, top + 1))
    ensures TopRun(BitOr(x, Shr(x, shift)), top, Min(2 * shift, top + 1))
  {
    if shift <= top {
      SmearDoubles(x, top, shift);
    } else {
      if top + 1 < shift { Pow2Grows(top + 1, shift); }
      DivBelow(x, Pow2(shift), 1);
    }
  }

  /** A completed run is one less than the least power of two above what it started from. */
  lemma RunIsComplete(n0: nat, top: nat, n: nat)
    requires 2 <= n0 < WORD && Pow2(top) <= n0 - 1 < Pow2(top + 1) && TopRun(n, top, top + 1)
    ensures n + 1 == Pow2(top + 1) >= n0
    ensures forall k: nat :: Pow2(k) >= n0 ==> n + 1 <= Pow2(k)
    ensures n + 1 == WORD <==> n0 > SIGN
    ensures n < WORD
  {
    forall k: nat | Pow2(k) >= n0
      ensures Pow2(top + 1) <= Pow2(k)
    {
      Pow2Order(top, k);
      if top + 1 < k { Pow2Grows(top + 1, k); }
    }
    Pow2Of63();
    Pow2Order(top, 64);
    if n0 > SIGN {
      Pow2Order(63, top + 1);
    } else {
      Pow2Order(top, 63);
      Pow2Grows(top + 1, 64);
    }
  }

  /** `round_up_pow2`: the least power of two that is at least `n` and at least 2. Above 2^63
      the final increment overflows the word and the result is 0. */
  method RoundUpPow2(n0: nat) returns (r: nat)
    requires n0 < WORD
    ensures r < WORD
    ensures n0 <= SIGN ==> IsPow2(r) && r >= 2 && r >= n0
    ensures n0 <= SIGN ==> forall k: nat :: Pow2(k) >= 2 && Pow2(k) >= n0 ==> r <= Pow2(k)
    ensures n0 > SIGN ==> r == 0
  {
    if n0 < 2 {
      assert Pow2(1) == 2;
      return 2;
    }
    var n := n0 - 1;
    ghost var top := TopBit(n);
    assert TopRun(n, top, Min(1, top + 1));
    SmearLine(n, top, 1);
    n := BitOr(n, Shr(n, 1));
    SmearLine(n, top, 2);
    n := BitOr(n, Shr(n, 2));
    SmearLine(n, top, 4);
    n := BitOr(n, Shr(n, 4));
    SmearLine(n, top, 8);
    n := BitOr(n, Shr(n, 8));
    SmearLine(n, top, 16);
    n := BitOr(n, Shr(n, 16));
    SmearLine(n, top, 32);
    n := BitOr(n, Shr(n, 32));
    Pow2Of63();
    Pow2Order(top, 64);
    RunIsComplete(n0, top, n);
    if n0 <= SIGN {
      assert n + 1 == Pow2(top + 1);
      assert Pow2(0 + 1) == 2;
      if top > 0 { Pow2Grows(1, top + 1); }
    }
    r := Wrap(n + 1);
  }
}
