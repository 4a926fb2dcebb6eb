/** Difficulty targets in 32 bits (coinparam/bits.go). */
module CompactBits {
  import opened Numbers

  /** The smallest number of bytes that hold n. */
  function ByteLength(n: nat): nat {
    if n == 0 then 0 else 1 + ByteLength(n / 256)
  }

  const SIGN_BIT: nat := 0x80_0000
  const MANTISSA: nat := 0x100_0000
  const WORD: nat := 0x1_0000_0000

  /** Mantissa and exponent as a number. */
  function Expanded(exponent: nat, mantissa: nat): nat {
    if exponent <= 3 then Div(mantissa, Pow256(3 - exponent)) else mantissa * Pow256(exponent - 3)
  }

  /** The number a compact form stands for. */
  function Target(compact: nat): int {
    var size := Expanded(compact / MANTISSA, compact % SIGN_BIT);
    if compact / SIGN_BIT % 2 == 1 then 0 - size else size
  }

  /** Shift n so that e bytes become three. */
  function Scaled(n: nat, e: nat): nat {
    if e <= 3 then n * Pow256(3 - e) else Div(n, Pow256(e - 3))
  }

  /** e bytes hold n with room for a sign bit, and no fewer do. */
  ghost predicate SignedLength(n: nat, e: nat) {
    e >= 1 && n < 128 * Pow256(e - 1) && (e >= 2 ==> n >= 128 * Pow256(e - 2))
  }

  /** compact is the form of n: its signed length, of which eight bits are kept, and its
      three leading bytes. */
  ghost predicate CompactOf(n: nat, compact: nat) {
    if n == 0 then compact == 0
    else exists e: nat :: SignedLength(n, e) && compact == e % 256 * MANTISSA + Scaled(n, e)
  }

  /** Shift n so that e bytes become three, rounding up. */
  function ScaledUp(n: nat, e: nat): nat
    requires n > 0
  {
    if e <= 3 then n * Pow256(3 - e) else Div(n - 1, Pow256(e - 3)) + 1
  }

  /** compact is the form of -n: shifting a negative number rounds its size up, and if
      that makes a fourth byte, the byte falls on the exponent. */
  predicate NegativeOf(n: nat, compact: nat)
    requires n > 0
  {
    var e := ByteLength(n);
    var up := ScaledUp(n, e);
    compact == SIGN_BIT +
      if up < SIGN_BIT then e % 256 * MANTISSA + up
      else if up < MANTISSA then (e + 1) % 256 * MANTISSA + up / 256
      else (e % 256 + 1 - e % 256 % 2) * MANTISSA
  }

  /** Up to here the signed length fits into eight bits. */
  ghost const LIMIT: nat := 128 * Pow256(254)

  // ------------------------------------------------------------- arithmetic

  lemma {:induction false} LengthBounds(n: nat)
    requires n > 0
    ensures ByteLength(n) >= 1 && Pow256(ByteLength(n) - 1) <= n < Pow256(ByteLength(n))
    decreases n
  {
    if n >= 256 {
      LengthBounds(n / 256);
      var k := ByteLength(n / 256);
      assert Pow256(k) == 256 * Pow256(k - 1);
    } else {
      assert ByteLength(n / 256) == 0;
      assert Pow256(1) == 256;
    }
  }

  /** With its signed length n scales to a mantissa of 23 bits, at least 16 of them used. */
  lemma ScaledBounds(n: nat, e: nat)
    requires n > 0 && SignedLength(n, e)
    ensures 0x8000 <= Scaled(n, e) < SIGN_BIT
  {
    hide Pow256, Div;
    SmallPowers();
    if e > 3 {
      var p := Pow256(e - 3);
      TwoMore(e - 3);
      DivBounds(n, p);
      var q := Div(n, p);
      MulStrict(q, SIGN_BIT, p);
      MulStrict(0x8000, q + 1, p);
    }
  }

  lemma SmallPowers()
    ensures Pow256(0) == 1 && Pow256(1) == 256 && Pow256(2) == 65536
  {}

  lemma TwoMore(k: nat)
    ensures Pow256(k + 1) == 256 * Pow256(k) && Pow256(k + 2) == 65536 * Pow256(k)
  {}

  lemma SignedLengthUnique(n: nat, e: nat, n': nat, e': nat)
    requires SignedLength(n, e) && SignedLength(n', e') && n <= n'
    ensures e <= e'
  {
    if e' < e { PowGrows(e' - 1, e - 2); }
  }

  /** The number a packed form stands for. */
  lemma ReadBack(x: nat, m: nat, negative: bool)
    requires m < SIGN_BIT
    ensures Target(x * MANTISSA + m + if negative then SIGN_BIT else 0)
         == if negative then 0 - Expanded(x, m) else Expanded(x, m)
  {
    hide Expanded, Div, Mod;
    Fields(x, m, if negative then 1 else 0);
  }

  lemma Fields(x: nat, m: nat, bit: nat)
    requires m < SIGN_BIT && bit <= 1
    ensures var c := x * MANTISSA + m + bit * SIGN_BIT;
      c / MANTISSA == x && c % SIGN_BIT == m && c / SIGN_BIT % 2 == bit
  {
    var c := x * MANTISSA + m + bit * SIGN_BIT;
    DivUnique(c, MANTISSA, x);
    DivUnique(c, SIGN_BIT, 2 * x + bit);
  }

  /** The size read back: what n was scaled to, scaled back. */
  lemma TargetOf(n: nat, e: nat)
    requires n > 0 && SignedLength(n, e)
    ensures Target(e * MANTISSA + Scaled(n, e)) == if e <= 3 then n else Scaled(n, e) * Pow256(e - 3)
  {
    hide Pow256, Div, Scaled;
    ScaledBounds(n, e);
    ReadBack(e, Scaled(n, e), false);
    if e <= 3 { ScaledBack(n, e); }
  }

  lemma ScaledBack(n: nat, e: nat)
    requires e <= 3
    ensures Div(Scaled(n, e), Pow256(3 - e)) == n
  {
    hide Div;
    DivUnique(n * Pow256(3 - e), Pow256(3 - e), n);
  }

  // ----------------------------------------------------------------- methods

  method CompactToBig(compact: nat) returns (bn: int)
    requires compact < WORD
    ensures bn == Target(compact)
  {
    var mantissa := compact % SIGN_BIT;
    var isNegative := compact / SIGN_BIT % 2 == 1;
    var exponent := compact / MANTISSA;
    if exponent <= 3 {
      mantissa := Div(mantissa, Pow256(3 - exponent));
      bn := mantissa;
    } else {
      bn := mantissa;
      bn := bn * Pow256(exponent - 3);
    }
    if isNegative {
      bn := -bn;
    }
  }

  /** A mantissa with the sign bit set moves on by a byte. */
  function Shifted(exponent: nat, mantissa: nat): (nat, nat) {
    if mantissa / SIGN_BIT % 2 == 1 then (exponent + 1, mantissa / 256) else (exponent, mantissa)
  }

  /** The exponent and the mantissa joined bit by bit. */
  function Packed(exponent: nat, mantissa: nat): nat {
    if mantissa < MANTISSA then exponent % 256 * MANTISSA + mantissa
    else (exponent % 256 + 1 - exponent % 256 % 2) * MANTISSA
  }

  method BigToCompact(n: int) returns (compact: nat)
    ensures compact < WORD && if n >= 0 then CompactOf(n, compact) else NegativeOf(-n, compact)
  {
    hide Pow256, Div, Scaled, ScaledUp, CompactOf, NegativeOf, Packed;
    if n == 0 {
      Nothing();
      return 0;
    }
    var size: nat := if n < 0 then -n else n;
    var exponent := ByteLength(size);
    ScaledIs(size, exponent);
    if n > 0 { PositiveForm(size); } else { NegativeForm(size); }
    var mantissa: nat;
    if exponent <= 3 {
      mantissa := size * Pow256(3 - exponent);
    } else if n > 0 {
      mantissa := Div(size, Pow256(exponent - 3));
    } else {
      mantissa := Div(size - 1, Pow256(exponent - 3)) + 1;
    }
    if mantissa / SIGN_BIT % 2 == 1 {
      mantissa := mantissa / 256;
      exponent := exponent + 1;
    }
    compact := Packed(exponent, mantissa);
    if n < 0 {
      compact := compact + SIGN_BIT;
    }
  }

  lemma Nothing()
    ensures CompactOf(0, 0)
  {}

  lemma PositiveForm(n: nat)
    requires n > 0
    ensures var (e, m) := Shifted(ByteLength(n), Scaled(n, ByteLength(n)));
      CompactOf(n, Packed(e, m)) && Packed(e, m) < WORD
  {
    hide Pow256, Scaled, SignedLength;
    LengthBounds(n);
    Normalise(n, ByteLength(n));
    var (e, m) := Shifted(ByteLength(n), Scaled(n, ByteLength(n)));
    ScaledBounds(n, e);
  }

  lemma NegativeForm(n: nat)
    requires n > 0
    ensures var (e, m) := Shifted(ByteLength(n), ScaledUp(n, ByteLength(n)));
      NegativeOf(n, Packed(e, m) + SIGN_BIT) && Packed(e, m) + SIGN_BIT < WORD
  {
    hide Pow256, ScaledUp, Scaled, ByteLength, Shifted, Packed;
    LengthBounds(n);
    UpBounds(n, ByteLength(n));
    PackedUp(ByteLength(n), ScaledUp(n, ByteLength(n)));
  }

  lemma PackedUp(e: nat, up: nat)
    requires up <= MANTISSA
    ensures var (x, m) := Shifted(e, up); Packed(x, m) + SIGN_BIT < WORD
    ensures var (x, m) := Shifted(e, up);
      Packed(x, m) == if up < SIGN_BIT then e % 256 * MANTISSA + up
                      else if up < MANTISSA then (e + 1) % 256 * MANTISSA + up / 256
                      else (e % 256 + 1 - e % 256 % 2) * MANTISSA
  {
    Parity(e % 256);
  }

  lemma Parity(e: nat)
    requires e < 256
    ensures 0 < e + 1 - e % 2 < 256
  {}

  lemma ScaledIs(n: nat, e: nat)
    ensures Scaled(n, e) == if e <= 3 then n * Pow256(3 - e) else Div(n, Pow256(e - 3))
    ensures n > 0 ==> ScaledUp(n, e) == if e <= 3 then n * Pow256(3 - e) else Div(n - 1, Pow256(e - 3)) + 1
  {}

  /** Rounded up, a number of e bytes has at most three bytes, or is the first of four. */
  lemma UpBounds(n: nat, e: nat)
    requires n > 0 && e >= 1 && Pow256(e - 1) <= n < Pow256(e)
    ensures 0 < ScaledUp(n, e) <= MANTISSA && (e <= 3 ==> ScaledUp(n, e) == Scaled(n, e) < MANTISSA)
    ensures e > 3 ==> 65536 <= ScaledUp(n, e)
    ensures e > 3 ==> (ScaledUp(n, e) - 1) * Pow256(e - 3) < n <= ScaledUp(n, e) * Pow256(e - 3)
  {
    hide Pow256, Div, ScaledUp, Scaled;
    Normalise(n, e);
    ScaledIs(n, e);
    if e > 3 { UpLong(n, e); } else { MulMono(1, n, Pow256(3 - e)); }
  }

  lemma UpLong(n: nat, e: nat)
    requires n > 0 && e > 3 && Pow256(e - 1) <= n < Pow256(e)
    ensures var q := Div(n - 1, Pow256(e - 3));
      65535 <= q < MANTISSA && q * Pow256(e - 3) < n <= (q + 1) * Pow256(e - 3)
  {
    hide Pow256, Div;
    var p := Pow256(e - 3);
    var q := Div(n - 1, p);
    TwoMore(e - 3);
    TwoMore(e - 2);
    DivBounds(n - 1, p);
    Expand(q, p);
    MulStrict(q, MANTISSA, p);
    MulStrict(65535, q + 1, p);
  }

  /** If the leading byte uses the sign bit, one more byte is needed. */
  lemma Normalise(n: nat, e: nat)
    requires n > 0 && e >= 1 && Pow256(e - 1) <= n < Pow256(e)
    ensures Scaled(n, e) < MANTISSA
    ensures Scaled(n, e) < SIGN_BIT ==> SignedLength(n, e)
    ensures Scaled(n, e) >= SIGN_BIT ==> SignedLength(n, e + 1) && Div(Scaled(n, e), 256) == Scaled(n, e + 1)
  {
    hide Pow256, Div;
    SmallPowers();
    TwoMore(e - 1);
    if e >= 2 { TwoMore(e - 2); }
    if e > 3 {
      var p := Pow256(e - 3);
      TwoMore(e - 3);
      DivBounds(n, p);
      var q := Div(n, p);
      MulStrict(q, MANTISSA, p);
      if q < SIGN_BIT { MulMono(q + 1, SIGN_BIT, p); } else { MulMono(SIGN_BIT, q, p); }
      DivDiv(n, p, 256);
    } else if e == 3 {
    } else if e == 2 {
      DivUnique(n * 256, 256, n);
    } else {
      DivUnique(n * 65536, 256, n * 256);
    }
  }

  // ---------------------------------------------------------------- theorems

  lemma FitsExactly(n: nat, e: nat)
    requires SignedLength(n, e)
    ensures e <= 255 <==> n < LIMIT
  {
    if e <= 255 { PowGrows(e - 1, 254); } else { PowGrows(254, e - 2); }
  }

  /** A target read back is no more than the number written, and short by less than one
      part in 2^15, exactly for numbers below the limit.  Beyond it the exponent wraps. */
  lemma RoundsDown(n: nat, c: nat)
    requires n > 0 && CompactOf(n, c)
    ensures (0 < Target(c) <= n && (n - Target(c)) * 0x8000 < n) <==> n < LIMIT
  {
    hide Pow256, Div, Target, Scaled, SignedLength;
    var e: nat :| SignedLength(n, e) && c == e % 256 * MANTISSA + Scaled(n, e);
    FitsExactly(n, e);
    if e > 255 {
      Wraps(n, e);
    } else {
      assert e % 256 == e;
      ReadsClose(n, e);
    }
  }

  lemma ReadsClose(n: nat, e: nat)
    requires n > 0 && SignedLength(n, e)
    ensures var t := Target(e * MANTISSA + Scaled(n, e)); 0 < t <= n && (n - t) * 0x8000 < n
  {
    hide Pow256, Div, Target, Scaled, SignedLength;
    ScaledBounds(n, e);
    TargetOf(n, e);
    if e > 3 {
      var p := Pow256(e - 3);
      ScaledIs(n, e);
      DivBounds(n, p);
      MulMono(0x8000, Scaled(n, e), p);
    }
  }

  /** A number whose exponent wraps is read back as less than half of itself. */
  lemma Wraps(n: nat, e: nat)
    requires n > 0 && SignedLength(n, e) && e > 255
    ensures 0 <= 2 * Target(e % 256 * MANTISSA + Scaled(n, e)) <= n
  {
    hide Pow256, Div, Scaled, Target;
    ScaledBounds(n, e);
    var m, x := Scaled(n, e), e % 256;
    ReadBack(x, m, false);
    if x <= 3 {
      SmallQuotient(m, Pow256(3 - x));
      SmallPowers();
      TwoMore(1);
      PowGrows(3, e - 2);
    } else {
      MulMono(m, SIGN_BIT, Pow256(x - 3));
      TwoMore(x - 3);
      TwoMore(x - 1);
      PowGrows(x, e - 2);
    }
  }

  lemma SmallQuotient(m: nat, p: nat)
    requires p > 0
    ensures Div(m, p) <= m
  {
    DivBounds(m, p);
    MulMono(1, p, Div(m, p));
  }

  /** Three leading bytes of ones, and something more. */
  predicate Overflows(n: nat) {
    var e := ByteLength(n);
    e > 3 && n > (MANTISSA - 1) * Pow256(e - 3)
  }

  /** A negative number is read back within one part in 2^15, unless rounding carries into
      a fourth byte; then it is read back as zero. */
  lemma NegativeExact(n: nat, c: nat)
    requires 0 < n < Pow256(254) && NegativeOf(n, c)
    ensures if Overflows(n) then Target(c) == 0 else Target(c) < 0 && 0 - n < 0x8000 * (Target(c) + n) < n
  {
    hide Pow256, Div, Target, ScaledUp, Scaled, Overflows, NegativeOf, Expanded;
    var e := ByteLength(n);
    LengthBounds(n);
    if e > 254 { PowGrows(254, e - 1); }
    UpBounds(n, e);
    NegativeSize(n, c);
    OverflowMeans(n, e);
    var up := ScaledUp(n, e);
    if up < SIGN_BIT { SmallUp(n, e); } else if up < MANTISSA { LargeUp(n, e); }
  }

  /** The size that a negative number is read back as. */
  lemma NegativeSize(n: nat, c: nat)
    requires n > 0 && 0 < ByteLength(n) < 255 && ScaledUp(n, ByteLength(n)) <= MANTISSA && NegativeOf(n, c)
    ensures var e := ByteLength(n); var up := ScaledUp(n, e);
      Target(c) == 0 - if up < SIGN_BIT then Expanded(e, up) else if up < MANTISSA then Expanded(e + 1, up / 256) else 0
  {
    hide Pow256, Div, Target, ScaledUp, Expanded;
    var e := ByteLength(n);
    var up := ScaledUp(n, e);
    if up == MANTISSA {
      ReadBack(e % 256 + 1 - e % 256 % 2, 0, true);
      NoSize(e % 256 + 1 - e % 256 % 2);
    } else if up < SIGN_BIT {
      assert e % 256 == e;
      ReadBack(e, up, true);
    } else {
      assert (e + 1) % 256 == e + 1;
      ReadBack(e + 1, up / 256, true);
    }
  }

  lemma NoSize(x: nat)
    ensures Expanded(x, 0) == 0
  {}

  lemma SmallUp(n: nat, e: nat)
    requires n > 0 && e >= 1 && Pow256(e - 1) <= n < Pow256(e) && ScaledUp(n, e) < SIGN_BIT
    ensures 0 < Expanded(e, ScaledUp(n, e)) && 0 - n < 0x8000 * (n - Expanded(e, ScaledUp(n, e))) < n
  {
    hide Pow256, Div, ScaledUp, Scaled;
    UpBounds(n, e);
    if e <= 3 {
      ScaledIs(n, e);
      ScaledBack(n, e);
    } else {
      CloseAbove(n, ScaledUp(n, e), Pow256(e - 3));
    }
  }

  lemma LargeUp(n: nat, e: nat)
    requires n > 0 && e >= 1 && Pow256(e - 1) <= n < Pow256(e) && ScaledUp(n, e) >= SIGN_BIT
    ensures var size := Expanded(e + 1, ScaledUp(n, e) / 256); 0 < size && 0 - n < 0x8000 * (n - size) < n
  {
    hide Pow256, Div, ScaledUp, Scaled;
    if e <= 2 {
      ShortBack(n, e);
    } else {
      UpBounds(n, e);
      ScaledIs(n, e);
      SmallPowers();
      TwoMore(e - 3);
      CloseBelow(n, ScaledUp(n, e), Pow256(e - 3));
    }
  }

  lemma OverflowMeans(n: nat, e: nat)
    requires n > 0 && e == ByteLength(n) >= 1 && Pow256(e - 1) <= n < Pow256(e)
    ensures Overflows(n) <==> ScaledUp(n, e) == MANTISSA
  {
    hide Pow256, Div, ScaledUp, Scaled;
    UpBounds(n, e);
    if e > 3 {
      var up, p := ScaledUp(n, e), Pow256(e - 3);
      if up < MANTISSA { MulMono(up, MANTISSA - 1, p); }
    }
  }

  /** One or two bytes lose nothing. */
  lemma ShortBack(n: nat, e: nat)
    requires 0 < n && 1 <= e <= 2 && Pow256(e - 1) <= n < Pow256(e)
    ensures Expanded(e + 1, ScaledUp(n, e) / 256) == n
  {
    SmallPowers();
  }

  lemma CloseAbove(n: nat, up: nat, p: nat)
    requires 65536 <= up && (up - 1) * p < n <= up * p
    ensures 0 - n < 0x8000 * (n - up * p) <= 0
  {
    Expand(up - 1, p);
    MulMono(65535, up - 1, p);
  }

  lemma CloseBelow(n: nat, up: nat, p: nat)
    requires SIGN_BIT <= up && p > 0 && (up - 1) * p < n <= up * p
    ensures var size := up / 256 * (256 * p); 0 < size && 0 - n < 0x8000 * (n - size) < n
  {
    var q := up / 256;
    Regroup(q, 256, p);
    Between(up, q * 256, p);
    CloseSize(n, up * p, q * 256 * p, p);
  }

  lemma Between(up: nat, low: nat, p: nat)
    requires 0 < low <= up <= low + 255 && SIGN_BIT <= up
    ensures 0 < p ==> 0 < low * p
    ensures low * p <= up * p <= low * p + 255 * p && (SIGN_BIT - 1) * p <= up * p - p == (up - 1) * p
  {
    Expand(up - 1, p);
    MulMono(SIGN_BIT - 1, up - 1, p);
    MulMono(1, low, p);
    MulMono(low, up, p);
    MulMono(up, low + 255, p);
    Distribute(low, 255, p);
  }

  lemma CloseSize(n: nat, u: int, size: int, p: nat)
    requires p > 0 && u - p < n <= u && size <= u <= size + 255 * p && (SIGN_BIT - 1) * p <= u - p
    ensures 0 - n < 0x8000 * (n - size) < n
  {}

  /** As numbers, compact forms keep the order of the numbers they stand for. */
  lemma Monotone(n: nat, c: nat, n': nat, c': nat)
    requires CompactOf(n, c) && CompactOf(n', c') && n <= n' < LIMIT
    ensures c <= c'
  {
    hide Pow256, Div, Scaled, SignedLength;
    if n > 0 {
      var e: nat :| SignedLength(n, e) && c == e % 256 * MANTISSA + Scaled(n, e);
      var e': nat :| SignedLength(n', e') && c' == e' % 256 * MANTISSA + Scaled(n', e');
      FitsExactly(n, e);
      FitsExactly(n', e');
      SignedLengthUnique(n, e, n', e');
      ScaledBounds(n, e);
      ScaledBounds(n', e');
      if e == e' { ScaledMono(n, n', e); }
    }
  }

  lemma ScaledMono(n: nat, n': nat, e: nat)
    requires n <= n'
    ensures Scaled(n, e) <= Scaled(n', e)
  {
    hide Pow256, Div;
    if e <= 3 { MulMono(n, n', Pow256(3 - e)); } else { DivMono(n, n', Pow256(e - 3)); }
  }

  /** Writing, reading and writing again gives the same compact form. */
  lemma Idempotent(n: nat, c: nat)
    requires n < LIMIT && CompactOf(n, c)
    ensures Target(c) >= 0 && CompactOf(Target(c), c)
  {
    hide Pow256, Div, Target, Scaled, SignedLength;
    if n == 0 {
      TargetZero();
    } else {
      var e: nat :| SignedLength(n, e) && c == e % 256 * MANTISSA + Scaled(n, e);
      FitsExactly(n, e);
      assert e % 256 == e;
      KeepsForm(n, e);
    }
  }

  lemma KeepsForm(n: nat, e: nat)
    requires n > 0 && SignedLength(n, e)
    ensures var t := Target(e * MANTISSA + Scaled(n, e)); t > 0 && SignedLength(t, e) && Scaled(t, e) == Scaled(n, e)
  {
    hide Pow256, Div, Target, Scaled;
    ReadsClose(n, e);
    TargetOf(n, e);
    if e > 3 {
      var p, m := Pow256(e - 3), Scaled(n, e);
      ScaledBounds(n, e);
      TwoMore(e - 3);
      MulMono(0x8000, m, p);
      DivUnique(m * p, p, m);
      ScaledIs(m * p, e);
    }
  }

  lemma TargetZero()
    ensures Target(0) == 0
  {}

  /** The form of any number. */
  ghost predicate Written(n: int, compact: nat) {
    if n >= 0 then CompactOf(n, compact) else NegativeOf(-n, compact)
  }

  lemma ReadsAtMost(n: nat, c: nat)
    requires n < LIMIT && CompactOf(n, c)
    ensures 0 <= Target(c) <= n
  {
    hide Pow256, Target;
    if n == 0 { TargetZero(); } else { RoundsDown(n, c); }
  }

  lemma ReadsNegative(n: nat, c: nat)
    requires n > 0 && NegativeOf(n, c)
    ensures Target(c) <= 0
  {
    hide Pow256, Div, ScaledUp, Scaled, Target;
    var e := ByteLength(n);
    LengthBounds(n);
    UpBounds(n, e);
    var up := ScaledUp(n, e);
    if up < SIGN_BIT {
      ReadBack(e % 256, up, true);
    } else if up < MANTISSA {
      ReadBack((e + 1) % 256, up / 256, true);
    } else {
      ReadBack(e % 256 + 1 - e % 256 % 2, 0, true);
    }
  }

  /** What is read back keeps the order of the numbers written. */
  lemma ReadsMonotone(n: nat, c: nat, n': nat, c': nat)
    requires CompactOf(n, c) && CompactOf(n', c') && n <= n' < LIMIT
    ensures Target(c) <= Target(c')
  {
    hide Pow256, Div, Target, Scaled, SignedLength;
    ReadsAtMost(n, c);
    ReadsAtMost(n', c');
    if n == 0 {
      TargetZero();
    } else {
      var e: nat :| SignedLength(n, e) && c == e % 256 * MANTISSA + Scaled(n, e);
      var e': nat :| SignedLength(n', e') && c' == e' % 256 * MANTISSA + Scaled(n', e');
      FitsExactly(n, e);
      FitsExactly(n', e');
      assert e % 256 == e && e' % 256 == e';
      SignedLengthUnique(n, e, n', e');
      if e == e' { SameLengthMonotone(n, n', e); } else { LongerMonotone(n, e, n', e'); }
    }
  }

  lemma SameLengthMonotone(n: nat, n': nat, e: nat)
    requires 0 < n <= n' && SignedLength(n, e) && SignedLength(n', e)
    ensures Target(e * MANTISSA + Scaled(n, e)) <= Target(e * MANTISSA + Scaled(n', e))
  {
    hide Pow256, Div, Target, Scaled, SignedLength;
    TargetOf(n, e);
    TargetOf(n', e);
    if e > 3 {
      ScaledMono(n, n', e);
      MulMono(Scaled(n, e), Scaled(n', e), Pow256(e - 3));
    }
  }

  lemma LongerMonotone(n: nat, e: nat, n': nat, e': nat)
    requires 0 < n <= n' && SignedLength(n, e) && SignedLength(n', e') && e < e'
    ensures Target(e * MANTISSA + Scaled(n, e)) <= Target(e' * MANTISSA + Scaled(n', e'))
  {
    hide Pow256, Div, Target, Scaled;
    ReadsClose(n, e);
    ReadsClose(n', e');
    PowGrows(e - 1, e' - 2);
    TargetOf(n', e');
    if e' > 3 {
      ScaledBounds(n', e');
      MulMono(0x8000, Scaled(n', e'), Pow256(e' - 3));
      TwoMore(e' - 3);
    }
  }

  /** A number has one form. */
  lemma FormUnique(n: nat, c: nat, c': nat)
    requires CompactOf(n, c) && CompactOf(n, c') && n < LIMIT
    ensures c == c'
  {
    hide CompactOf;
    Monotone(n, c, n, c');
    Monotone(n, c', n, c);
  }
}
