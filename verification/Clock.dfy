/** The baud-rate generators' time constants, computed in 16- and 32-bit arithmetic. */
module Clock {

  const PCI_XTAL: nat := 20000000
  const ISA_XTAL: nat := 14745600

  function U16(x: int): nat {
    x % 0x1_0000
  }

  /** `r` is the integer nearest to `x / d`, halves rounded up. */
  ghost predicate Nearest(r: int, x: int, d: int) {
    2 * (r * d) - d <= 2 * x < 2 * (r * d) + d
  }

  /** The time constant of the auxiliary clock: truncated to 16 bits, then decremented unless
      twice the remainder reaches the rate. */
  function TimeConstant(xtal: nat, rate: nat): nat
    requires rate > 0
  {
    var tc := U16(xtal / rate);
    if ((xtal % rate) * 2) % 0x1_0000_0000 / rate == 0 then U16(tc - 1) else tc
  }

  /** The time constant used in internal loopback, which never rounds up. */
  function LoopbackConstant(xtal: nat, rate: nat): nat
    requires rate > 0
  {
    U16(xtal / rate - 1)
  }

  /** The DPLL reference clock divides the crystal first. */
  function DpllConstant(xtal: nat, divisor: nat, speed: nat): nat
    requires divisor > 0 && speed > 0
  {
    TimeConstant(xtal / divisor, speed)
  }

  lemma MultiplesApart(r: int, s: int, d: int)
    requires d > 0 && r > s
    ensures r * d >= s * d + d
  {
    var k := r - s - 1;
    assert r * d == s * d + d + k * d;
  }

  lemma NearestUnique(r: int, s: int, x: int, d: int)
    requires d > 0 && Nearest(r, x, d) && Nearest(s, x, d)
    ensures r == s
  {
    if r > s { MultiplesApart(r, s, d); }
    if s > r { MultiplesApart(s, r, d); }
  }

  lemma U16Step(q: int)
    ensures U16(U16(q) - 1) == U16(q - 1) && U16(q - 1) != U16(q)
  {
    var k, r := q / 0x1_0000, q % 0x1_0000;
    assert q == 0x1_0000 * k + r;
    if r == 0 { assert q - 1 == 0x1_0000 * (k - 1) + 0xffff; }
  }

  lemma DoubleQuotient(r: nat, d: nat)
    requires d > 0 && r < d
    ensures 2 * r / d == if 2 * r < d then 0 else 1
  {
    if 2 * r >= d {
      assert 2 * r == 1 * d + (2 * r - d);
    }
  }

  lemma QuotientNearest(x: nat, d: nat)
    requires d > 0
    ensures Nearest(if 2 * (x % d) < d then x / d else x / d + 1, x, d)
  {
    var q := x / d;
    assert (q + 1) * d == q * d + d;
  }

  lemma RemainderFits(xtal: nat, rate: nat)
    requires rate > 0 && xtal < 0x8000_0000
    ensures (xtal % rate) * 2 % 0x1_0000_0000 == (xtal % rate) * 2
  {
    assert xtal % rate <= xtal by {
      assert xtal == rate * (xtal / rate) + xtal % rate;
      assert xtal / rate >= 0;
    }
  }

  lemma RoundsUp(xtal: nat, rate: nat)
    requires rate > 0 && xtal < 0x8000_0000
    ensures var q := xtal / rate;
            TimeConstant(xtal, rate) == if 2 * (xtal % rate) < rate then U16(U16(q) - 1) else U16(q)
  {
    var m := xtal % rate;
    DoubleQuotient(m, rate);
    RemainderFits(xtal, rate);
    assert TimeConstant(xtal, rate) == if m * 2 / rate == 0 then U16(U16(xtal / rate) - 1) else U16(xtal / rate);
  }

  lemma FitsRegister(q: nat, r: int, up: bool)
    requires r == (if up then q + 1 else q) && 1 <= r <= 0x1_0000
    ensures (if up then U16(q) else U16(U16(q) - 1)) + 1 == r
  {
    U16Step(q);
  }

  /** Whenever the rounded divisor fits the 16-bit register, the time constant plus one is the
      nearest integer to the quotient, despite truncation before the decrement. */
  lemma TimeConstantNearest(xtal: nat, rate: nat, r: int)
    requires rate > 0 && xtal < 0x8000_0000
    requires Nearest(r, xtal, rate) && 1 <= r <= 0x1_0000
    ensures TimeConstant(xtal, rate) + 1 == r
  {
    RoundsUp(xtal, rate);
    QuotientNearest(xtal, rate);
    var q, up := xtal / rate, 2 * (xtal % rate) >= rate;
    NearestUnique(r, if up then q + 1 else q, xtal, rate);
    FitsRegister(q, r, up);
  }

  /** The DPLL constant is nearest to the crystal over divisor times speed: for both crystals the
      first division is exact. */
  lemma DpllNearest(xtal: nat, divisor: nat, speed: nat, r: int)
    requires (xtal == PCI_XTAL || xtal == ISA_XTAL) && (divisor == 8 || divisor == 16 || divisor == 32)
    requires speed > 0 && Nearest(r, xtal, divisor * speed) && 1 <= r <= 0x1_0000
    ensures DpllConstant(xtal, divisor, speed) + 1 == r
  {
    var x := xtal / divisor;
    assert xtal == divisor * x;
    assert r * (divisor * speed) == divisor * (r * speed);
    assert Nearest(r, x, speed);
    TimeConstantNearest(x, speed, r);
  }

  /** The loopback constant differs from the rounded one exactly when rounding goes up. */
  lemma LoopbackDiffers(xtal: nat, rate: nat)
    requires rate > 0 && xtal < 0x8000_0000
    ensures LoopbackConstant(xtal, rate) != TimeConstant(xtal, rate) <==> 2 * (xtal % rate) >= rate
  {
    RoundsUp(xtal, rate);
    U16Step(xtal / rate);
  }

  /** Whenever the truncated quotient fits the register, the loopback constant plus one is that quotient. */
  lemma LoopbackFloor(xtal: nat, rate: nat)
    requires rate > 0 && 1 <= xtal / rate <= 0x1_0000
    ensures var n := LoopbackConstant(xtal, rate) + 1; n * rate <= xtal < n * rate + rate
  {
    var q := xtal / rate;
    assert U16(q - 1) == q - 1;
    assert xtal == q * rate + xtal % rate;
  }
}
