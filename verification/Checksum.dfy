/** The bech32 checksum (bech32/bech32.go:76-172, section "Checksum" of BIP-173).
    A 32-bit word is the list of its bits, high bit first. */
module Checksum {
  import opened Numbers
  import opened Squasher

  // ------------------------------------------------------------------ words

  function Xor(a: seq<bool>, b: seq<bool>): (r: seq<bool>)
    requires |a| == |b|
    ensures |r| == |a|
  {
    seq(|a|, i requires 0 <= i < |a| => a[i] != b[i])
  }

  function Sel(on: bool, g: seq<bool>): (r: seq<bool>)
    ensures |r| == |g|
  {
    if on then g else Zeros(|g|)
  }

  function NumberOf(b: seq<bool>): (r: nat)
    ensures r < Pow2(|b|)
  {
    if b == [] then 0 else 2 * NumberOf(b[..|b| - 1]) + if b[|b| - 1] then 1 else 0
  }

  lemma {:induction false} NumberBits(b: seq<bool>)
    ensures BitsOf(NumberOf(b), |b|) == b
    decreases |b|
  {
    if b != [] {
      NumberBits(b[..|b| - 1]);
      assert NumberOf(b) / 2 == NumberOf(b[..|b| - 1]);
    }
  }

  lemma Assoc(a: seq<bool>, b: seq<bool>, c: seq<bool>)
    requires |a| == |b| == |c|
    ensures Xor(a, Xor(b, c)) == Xor(Xor(a, b), c)
  {}

  lemma Swap(a: seq<bool>, b: seq<bool>, c: seq<bool>, d: seq<bool>)
    requires |a| == |b| == |c| == |d|
    ensures Xor(Xor(a, b), Xor(c, d)) == Xor(Xor(a, c), Xor(b, d))
  {}

  lemma XorZero(a: seq<bool>)
    ensures Xor(a, Zeros(|a|)) == a && Xor(Zeros(|a|), a) == a && Xor(a, a) == Zeros(|a|)
  {}

  lemma XorEqual(a: seq<bool>, b: seq<bool>)
    requires |a| == |b| && Xor(a, b) == Zeros(|a|)
    ensures a == b
  {
    forall i | 0 <= i < |a| ensures a[i] == b[i] {
      assert Xor(a, b)[i] == Zeros(|a|)[i];
    }
  }

  // ------------------------------------------------------------- polynomial

  const GENERATORS: seq<nat> := [0x3b6a57b2, 0x26508e6d, 0x1ea119fa, 0x3d4233dd, 0x2a1462b3]

  function Gen(k: nat): (r: seq<bool>)
    requires k < 5
    ensures |r| == 32
  {
    BitsOf(GENERATORS[k], 32)
  }

  /** Bit i of chk >> 25. */
  function TopBit(chk: seq<bool>, i: nat): bool
    requires |chk| == 32 && i < 5
  {
    chk[6 - i]
  }

  /** (chk & 0x1ffffff) << 5. */
  function Rest(chk: seq<bool>): (r: seq<bool>)
    requires |chk| == 32
    ensures |r| == 32
  {
    Zeros(2) + chk[7..] + Zeros(5)
  }

  /** The sum of the first k generators that the top bits select. */
  function Selected(chk: seq<bool>, k: nat): (r: seq<bool>)
    requires |chk| == 32 && k <= 5
    ensures |r| == 32
  {
    if k == 0 then Zeros(32) else Xor(Selected(chk, k - 1), Sel(TopBit(chk, k - 1), Gen(k - 1)))
  }

  /** One step of PolyMod, before the symbol is added. */
  function Shifted(chk: seq<bool>): (r: seq<bool>)
    requires |chk| == 32
    ensures |r| == 32
  {
    Xor(Rest(chk), Selected(chk, 5))
  }

  predicate Words(xs: seq<seq<bool>>) {
    forall i :: 0 <= i < |xs| ==> |xs[i]| == 32
  }

  function Fold(chk: seq<bool>, xs: seq<seq<bool>>): (r: seq<bool>)
    requires |chk| == 32 && Words(xs)
    ensures |r| == 32
  {
    if xs == [] then chk else Xor(Shifted(Fold(chk, xs[..|xs| - 1])), xs[|xs| - 1])
  }

  function Syms(s: seq<nat>): (r: seq<seq<bool>>)
    ensures |r| == |s| && Words(r)
  {
    seq(|s|, i requires 0 <= i < |s| => BitsOf(s[i], 32))
  }

  /** The word 1. */
  function One(): (r: seq<bool>)
    ensures |r| == 32
  {
    BitsOf(1, 32)
  }

  method PolyMod(values: seq<nat>) returns (chk: seq<bool>)
    ensures chk == Fold(One(), Syms(values))
  {
    hide BitsOf, Xor, Selected, TopBit, Rest, Sel;
    chk := One();
    for i := 0 to |values|
      invariant chk == Fold(One(), Syms(values)[..i])
    {
      var v := BitsOf(values[i], 32);
      var top := chk;
      chk := Xor(Rest(chk), v);
      NothingSelected(top, v);
      for g := 0 to 5
        invariant |chk| == 32 && chk == Xor(Xor(Rest(top), Selected(top, g)), v)
      {
        MoreSelected(top, g, v);
        if TopBit(top, g) {
          chk := Xor(chk, BitsOf(GENERATORS[g], 32));
        }
      }
      assert Syms(values)[..i + 1][..i] == Syms(values)[..i];
    }
    assert Syms(values)[..|values|] == Syms(values);
  }

  lemma NothingSelected(chk: seq<bool>, v: seq<bool>)
    requires |chk| == |v| == 32
    ensures Xor(Rest(chk), v) == Xor(Xor(Rest(chk), Selected(chk, 0)), v)
  {}

  lemma MoreSelected(chk: seq<bool>, k: nat, v: seq<bool>)
    requires |chk| == |v| == 32 && k < 5
    ensures var x := Xor(Xor(Rest(chk), Selected(chk, k)), v);
      Xor(Xor(Rest(chk), Selected(chk, k + 1)), v) == if TopBit(chk, k) then Xor(x, Gen(k)) else x
  {}

  // ------------------------------------------------------------- linearity

  lemma SelLinear(p: bool, q: bool, g: seq<bool>)
    ensures Sel(p != q, g) == Xor(Sel(p, g), Sel(q, g))
  {}

  lemma {:induction false} SelectedLinear(a: seq<bool>, b: seq<bool>, k: nat)
    requires |a| == |b| == 32 && k <= 5
    ensures Selected(Xor(a, b), k) == Xor(Selected(a, k), Selected(b, k))
    decreases k
  {
    hide Xor, Sel, TopBit, Gen;
    if k == 0 {
      XorZero(Zeros(32));
    } else {
      SelectedLinear(a, b, k - 1);
      var g := Gen(k - 1);
      BitLinear(a, b, k - 1);
      SelLinear(TopBit(a, k - 1), TopBit(b, k - 1), g);
      Swap(Selected(a, k - 1), Selected(b, k - 1), Sel(TopBit(a, k - 1), g), Sel(TopBit(b, k - 1), g));
    }
  }

  lemma BitLinear(a: seq<bool>, b: seq<bool>, i: nat)
    requires |a| == |b| == 32 && i < 5
    ensures TopBit(Xor(a, b), i) == (TopBit(a, i) != TopBit(b, i))
  {}

  lemma RestLinear(a: seq<bool>, b: seq<bool>)
    requires |a| == |b| == 32
    ensures Rest(Xor(a, b)) == Xor(Rest(a), Rest(b))
  {}

  /** A step is linear. */
  lemma ShiftedLinear(a: seq<bool>, b: seq<bool>)
    requires |a| == |b| == 32
    ensures Shifted(Xor(a, b)) == Xor(Shifted(a), Shifted(b))
  {
    hide Xor, Selected, Rest;
    RestLinear(a, b);
    SelectedLinear(a, b, 5);
    Swap(Rest(a), Rest(b), Selected(a, 5), Selected(b, 5));
  }

  function XorAll(xs: seq<seq<bool>>, ys: seq<seq<bool>>): (r: seq<seq<bool>>)
    requires |xs| == |ys| && Words(xs) && Words(ys)
    ensures |r| == |xs| && Words(r)
  {
    seq(|xs|, i requires 0 <= i < |xs| => Xor(xs[i], ys[i]))
  }

  /** The checksums of two lists differ by the checksum of their difference. */
  lemma {:induction false} FoldLinear(a: seq<bool>, b: seq<bool>, xs: seq<seq<bool>>, ys: seq<seq<bool>>)
    requires |a| == |b| == 32 && |xs| == |ys| && Words(xs) && Words(ys)
    ensures Xor(Fold(a, xs), Fold(b, ys)) == Fold(Xor(a, b), XorAll(xs, ys))
    decreases |xs|
  {
    hide Shifted, Xor;
    if xs != [] {
      var m := |xs| - 1;
      FoldLinear(a, b, xs[..m], ys[..m]);
      assert XorAll(xs, ys)[..m] == XorAll(xs[..m], ys[..m]);
      ShiftedLinear(Fold(a, xs[..m]), Fold(b, ys[..m]));
      Swap(Shifted(Fold(a, xs[..m])), xs[m], Shifted(Fold(b, ys[..m])), ys[m]);
    }
  }

  lemma {:induction false} FoldConcat(a: seq<bool>, xs: seq<seq<bool>>, ys: seq<seq<bool>>)
    requires |a| == 32 && Words(xs) && Words(ys)
    ensures Fold(a, xs + ys) == Fold(Fold(a, xs), ys)
    decreases |ys|
  {
    hide Shifted, Xor;
    if ys == [] {
      assert xs + ys == xs;
    } else {
      var m := |ys| - 1;
      FoldConcat(a, xs, ys[..m]);
      assert (xs + ys)[..|xs + ys| - 1] == xs + ys[..m];
    }
  }

  // ----------------------------------------------------------- injectivity

  /** The two highest bits of a checksum are never set. */
  predicate Thirty(a: seq<bool>) {
    |a| == 32 && !a[0] && !a[1]
  }

  /** Bit j of the selected generators. */
  lemma SelectedBit(chk: seq<bool>, j: nat)
    requires |chk| == 32 && j < 32
    ensures Selected(chk, 5)[j] == (((((chk[6] && Gen(0)[j]) != (chk[5] && Gen(1)[j])) != (chk[4] && Gen(2)[j]))
                                      != (chk[3] && Gen(3)[j])) != (chk[2] && Gen(4)[j]))
  {
    hide Gen;
    StepBit(chk, 0, j);
    StepBit(chk, 1, j);
    StepBit(chk, 2, j);
    StepBit(chk, 3, j);
    StepBit(chk, 4, j);
    assert !Selected(chk, 0)[j];
  }

  lemma StepBit(chk: seq<bool>, k: nat, j: nat)
    requires |chk| == 32 && k < 5 && j < 32
    ensures Selected(chk, k + 1)[j] == (Selected(chk, k)[j] != (chk[6 - k] && Gen(k)[j]))
  {
    hide Gen;
  }

  lemma LowBits(x: nat)
    ensures BitsOf(x, 32)[27] == (x / 16 % 2 == 1) && BitsOf(x, 32)[28] == (x / 8 % 2 == 1)
    ensures BitsOf(x, 32)[29] == (x / 4 % 2 == 1) && BitsOf(x, 32)[30] == (x / 2 % 2 == 1)
    ensures BitsOf(x, 32)[31] == (x % 2 == 1)
  {
    hide BitsOf;
    BitsSplit(x, 27, 5);
    FiveBits(x);
  }

  lemma FiveBits(x: nat)
    ensures BitsOf(x, 5) == [x / 16 % 2 == 1, x / 8 % 2 == 1, x / 4 % 2 == 1, x / 2 % 2 == 1, x % 2 == 1]
  {
    hide BitsOf;
    assert x / 2 / 2 == x / 4 && x / 4 / 2 == x / 8 && x / 8 / 2 == x / 16;
    OneBit(x, 4);
    OneBit(x / 2, 3);
    OneBit(x / 4, 2);
    OneBit(x / 8, 1);
    OneBit(x / 16, 0);
    NoBits(x / 16 / 2);
  }

  lemma OneBit(x: nat, n: nat)
    ensures BitsOf(x, n + 1) == BitsOf(x / 2, n) + [x % 2 == 1]
  {}

  lemma GeneratorBits()
    ensures Gen(0)[27..] == [true, false, false, true, false]
    ensures Gen(1)[27..] == [false, true, true, false, true]
    ensures Gen(2)[27..] == [true, true, false, true, false]
    ensures Gen(3)[27..] == [true, true, true, false, true]
    ensures Gen(4)[27..] == [true, false, false, true, true]
  {
    hide BitsOf;
    LowBits(0x3b6a57b2);
    LowBits(0x26508e6d);
    LowBits(0x1ea119fa);
    LowBits(0x3d4233dd);
    LowBits(0x2a1462b3);
  }

  /** A step that leads to zero started from zero. */
  lemma ShiftedInjective(a: seq<bool>)
    requires Thirty(a) && Shifted(a) == Zeros(32)
    ensures a == Zeros(32)
  {
    hide Selected, Gen;
    GeneratorBits();
    forall j | 27 <= j < 32 ensures !Selected(a, 5)[j] {
      assert Shifted(a)[j] == (Rest(a)[j] != Selected(a, 5)[j]);
    }
    forall j | 27 <= j < 32 ensures Gen(0)[j] == Gen(0)[27..][j - 27] && Gen(1)[j] == Gen(1)[27..][j - 27]
      && Gen(2)[j] == Gen(2)[27..][j - 27] && Gen(3)[j] == Gen(3)[27..][j - 27] && Gen(4)[j] == Gen(4)[27..][j - 27] {}
    SelectedBit(a, 27);
    SelectedBit(a, 28);
    SelectedBit(a, 29);
    SelectedBit(a, 30);
    SelectedBit(a, 31);
    assert !a[2] && !a[3] && !a[4] && !a[5] && !a[6];
    NoneSelected(a);
    forall i | 7 <= i < 32 ensures !a[i] {
      assert Shifted(a)[i - 5] == (Rest(a)[i - 5] != Selected(a, 5)[i - 5]);
    }
  }

  lemma NoneSelected(a: seq<bool>)
    requires |a| == 32 && !a[2] && !a[3] && !a[4] && !a[5] && !a[6]
    ensures Selected(a, 5) == Zeros(32)
  {
    hide Selected, Gen;
    forall j | 0 <= j < 32 ensures !Selected(a, 5)[j] { SelectedBit(a, j); }
  }

  lemma ShiftedLow(a: seq<bool>)
    requires |a| == 32 && !a[2] && !a[3] && !a[4] && !a[5] && !a[6]
    ensures Shifted(a) == Zeros(2) + a[7..] + Zeros(5)
  {
    hide Selected;
    NoneSelected(a);
    XorZero(Rest(a));
  }

  lemma GeneratorsThirty(k: nat)
    requires k < 5
    ensures Thirty(Gen(k))
  {
    hide BitsOf;
    TopZero(GENERATORS[k]);
  }

  lemma TopZero(x: nat)
    requires x < 0x4000_0000
    ensures !BitsOf(x, 32)[0] && !BitsOf(x, 32)[1]
  {
    hide BitsOf, Div;
    BitsSplit(x, 2, 30);
    PowThirty();
    DivUnique(x, Pow2(30), 0);
    BitsOfZero(2);
  }

  lemma PowThirty()
    ensures Pow2(30) == 0x4000_0000
  {
    assert Pow2(5) == 32;
    Pow2Sum(5, 5);
    Pow2Sum(10, 10);
    Pow2Sum(20, 10);
  }

  lemma ShiftedThirty(a: seq<bool>)
    requires |a| == 32
    ensures Thirty(Shifted(a))
  {
    hide Gen, Selected;
    GeneratorsThirty(0);
    GeneratorsThirty(1);
    GeneratorsThirty(2);
    GeneratorsThirty(3);
    GeneratorsThirty(4);
    SelectedBit(a, 0);
    SelectedBit(a, 1);
  }

  function Nulls(k: nat): (r: seq<seq<bool>>)
    ensures |r| == k && Words(r)
  {
    seq(k, _ => Zeros(32))
  }

  /** Zeros added to a checksum lose nothing of it. */
  lemma {:induction false} NullsInjective(a: seq<bool>, k: nat)
    requires Thirty(a)
    ensures Thirty(Fold(a, Nulls(k)))
    ensures Fold(a, Nulls(k)) == Zeros(32) <==> a == Zeros(32)
    decreases k
  {
    hide Shifted, Xor;
    if k > 0 {
      NullsInjective(a, k - 1);
      var b := Fold(a, Nulls(k - 1));
      assert Nulls(k)[..k - 1] == Nulls(k - 1);
      ShiftedThirty(b);
      XorZero(Shifted(b));
      if Shifted(b) == Zeros(32) { ShiftedInjective(b); }
      ShiftedZero();
    }
  }

  lemma ShiftedZero()
    ensures Shifted(Zeros(32)) == Zeros(32)
  {
    ShiftedLow(Zeros(32));
  }

  // ---------------------------------------------------------- six symbols

  /** Only the five low bits are set. */
  predicate Small(w: seq<bool>) {
    |w| == 32 && w[..27] == Zeros(27)
  }

  function Join(ds: seq<seq<bool>>): (r: seq<bool>)
    requires Words(ds)
    ensures |r| == 5 * |ds|
  {
    if ds == [] then [] else Join(ds[..|ds| - 1]) + ds[|ds| - 1][27..]
  }

  /** Up to six squashed symbols lie side by side in the checksum. */
  lemma {:induction false} FoldSmall(ds: seq<seq<bool>>)
    requires |ds| <= 6 && Words(ds) && forall i :: 0 <= i < |ds| ==> Small(ds[i])
    ensures Fold(Zeros(32), ds) == Zeros(32 - 5 * |ds|) + Join(ds)
    decreases |ds|
  {
    hide Shifted, Xor;
    if ds == [] {
      assert Zeros(32) + [] == Zeros(32);
    } else {
      var m := |ds| - 1;
      FoldSmall(ds[..m]);
      var a := Fold(Zeros(32), ds[..m]);
      ShiftedLow(a);
      AddSmall(a, ds[m], 5 * m, Join(ds[..m]));
    }
  }

  lemma AddSmall(a: seq<bool>, d: seq<bool>, k: nat, j: seq<bool>)
    requires k <= 25 && |j| == k && a == Zeros(32 - k) + j && Small(d)
    ensures Xor(Zeros(2) + a[7..] + Zeros(5), d) == Zeros(27 - k) + (j + d[27..])
  {}

  lemma SymSmall(v: nat)
    requires v < 32
    ensures Small(BitsOf(v, 32)) && BitsOf(v, 32)[27..] == BitsOf(v, 5)
  {
    hide BitsOf, Div;
    BitsSplit(v, 27, 5);
    assert Pow2(5) == 32;
    DivUnique(v, 32, 0);
    BitsOfZero(27);
  }

  // ----------------------------------------------------- making the checksum

  /** The human readable part, spread over twice its length and a zero. */
  function HrpExpand(hrp: seq<nat>): (r: seq<nat>)
    ensures |r| == 2 * |hrp| + 1
    ensures (forall i :: 0 <= i < |hrp| ==> hrp[i] < 256) ==> Squashed(r)
  {
    seq(|hrp|, i requires 0 <= i < |hrp| => hrp[i] / 32) + [0] + seq(|hrp|, i requires 0 <= i < |hrp| => hrp[i] % 32)
  }

  predicate Squashed(s: seq<nat>) {
    forall i :: 0 <= i < |s| ==> s[i] < 32
  }

  method HRPExpand(hrp: seq<nat>) returns (output: seq<nat>)
    ensures output == HrpExpand(hrp)
  {
    output := seq(2 * |hrp| + 1, _ => 0);
    for i := 0 to |hrp|
      invariant |output| == 2 * |hrp| + 1
      invariant forall k :: 0 <= k < |output| ==> output[k] == if k < i then hrp[k] / 32 else 0
    {
      output := output[i := hrp[i] / 32];
    }
    for i := 0 to |hrp|
      invariant |output| == 2 * |hrp| + 1
      invariant forall k :: 0 <= k < |hrp| ==> output[k] == hrp[k] / 32
      invariant output[|hrp|] == 0
      invariant forall k :: 0 <= k < i ==> output[|hrp| + 1 + k] == hrp[k] % 32
    {
      output := output[i + |hrp| + 1 := hrp[i] % 32];
    }
  }

  /** The checksum of a list of symbols under a human readable part. */
  function Sum(hrp: seq<nat>, data: seq<nat>): (r: seq<bool>)
    ensures |r| == 32
  {
    Fold(One(), Syms(HrpExpand(hrp) + data))
  }

  /** The six symbols that write down a checksum. */
  function SixSymbols(chk: seq<bool>): (r: seq<nat>)
    requires |chk| == 32
    ensures |r| == 6 && Squashed(r)
  {
    PowFive();
    seq(6, i requires 0 <= i < 6 => NumberOf(chk[2 + 5 * i..7 + 5 * i]))
  }

  lemma PowFive()
    ensures Pow2(5) == 32
  {}

  method CreateChecksum(hrp: seq<nat>, data: seq<nat>) returns (sum: seq<nat>)
    ensures |sum| == 6 && Squashed(sum)
    ensures Sum(hrp, data + sum) == One()
  {
    hide Fold, Syms, HrpExpand, Xor, NumberOf, BitsOf;
    var values := HRPExpand(hrp);
    values := values + data;
    values := values + seq(6, _ => 0);
    var checksum := PolyMod(values);
    assert values == HrpExpand(hrp) + (data + seq(6, _ => 0));
    assert checksum == Sum(hrp, data + seq(6, _ => 0));
    checksum := Xor(checksum, BitsOf(1, 32));
    sum := seq(6, _ => 0);
    PowFive();
    for i := 0 to 6
      invariant |sum| == 6 && forall k :: 0 <= k < i ==> sum[k] == SixSymbols(checksum)[k]
    {
      sum := sum[i := NumberOf(checksum[2 + 5 * i..7 + 5 * i])];
    }
    assert sum == SixSymbols(checksum);
    ChecksumPasses(hrp, data);
  }

  method VerifyChecksum(hrp: seq<nat>, data: seq<nat>) returns (ok: bool)
    ensures ok == (Sum(hrp, data) == One())
  {
    var values := HRPExpand(hrp);
    values := values + data;
    var checksum := PolyMod(values);
    ok := checksum == BitsOf(1, 32);
  }

  lemma SymsConcat(a: seq<nat>, b: seq<nat>)
    ensures Syms(a + b) == Syms(a) + Syms(b)
  {}

  lemma ZeroSyms(k: nat)
    ensures Syms(seq(k, _ => 0)) == Nulls(k)
  {
    BitsOfZero(32);
  }

  /** Six squashed symbols after anything change its checksum by their own bits. */
  lemma SumWithSix(a: seq<bool>, six: seq<nat>)
    requires |a| == 32 && |six| == 6 && Squashed(six)
    ensures Fold(a, Syms(six)) == Xor(Fold(a, Nulls(6)), Zeros(2) + Join(Syms(six)))
  {
    hide Xor, Fold, Syms, XorAll, Join;
    SixSmall(six);
    FoldSmall(Syms(six));
    FoldLinear(a, Zeros(32), Nulls(6), Syms(six));
    XorZero(a);
    NullsAdd(Syms(six));
  }

  lemma SixSmall(six: seq<nat>)
    requires Squashed(six)
    ensures forall i :: 0 <= i < |six| ==> Small(Syms(six)[i])
  {
    hide BitsOf;
    forall i | 0 <= i < |six| ensures Small(Syms(six)[i]) { SymSmall(six[i]); }
  }

  lemma NullsAdd(ws: seq<seq<bool>>)
    requires Words(ws)
    ensures XorAll(Nulls(|ws|), ws) == ws
  {
    hide Xor;
    forall i | 0 <= i < |ws| ensures XorAll(Nulls(|ws|), ws)[i] == ws[i] { XorZero(ws[i]); }
  }

  /** Written as six symbols, a checksum gives its bits back. */
  lemma SixBack(chk: seq<bool>)
    requires Thirty(chk)
    ensures Zeros(2) + Join(Syms(SixSymbols(chk))) == chk
  {
    hide BitsOf, NumberOf;
    var ds := Syms(SixSymbols(chk));
    forall i | 0 <= i < 6 ensures ds[i][27..] == chk[2 + 5 * i..7 + 5 * i] {
      var part := chk[2 + 5 * i..7 + 5 * i];
      SymSmall(NumberOf(part));
      NumberBits(part);
    }
    JoinSix(ds, chk[2..]);
  }

  lemma JoinSix(ds: seq<seq<bool>>, b: seq<bool>)
    requires |ds| == 6 && Words(ds) && |b| == 30 && forall i :: 0 <= i < 6 ==> ds[i][27..] == b[5 * i..5 * i + 5]
    ensures Join(ds) == b
  {
    JoinUpTo(ds, b, 6);
    assert ds[..6] == ds && b[..30] == b;
  }

  lemma {:induction false} JoinUpTo(ds: seq<seq<bool>>, b: seq<bool>, k: nat)
    requires |ds| == 6 && k <= 6 && Words(ds) && |b| == 30 && forall i :: 0 <= i < 6 ==> ds[i][27..] == b[5 * i..5 * i + 5]
    ensures Join(ds[..k]) == b[..5 * k]
    decreases k
  {
    if k > 0 {
      JoinUpTo(ds, b, k - 1);
      assert ds[..k][..k - 1] == ds[..k - 1];
      assert b[..5 * k] == b[..5 * (k - 1)] + b[5 * (k - 1)..5 * k];
    }
  }

  lemma OneThirty()
    ensures Thirty(One())
  {
    hide BitsOf;
    TopZero(1);
  }

  lemma XorThirty(a: seq<bool>, b: seq<bool>)
    requires Thirty(a) && Thirty(b)
    ensures Thirty(Xor(a, b))
  {}

  /** Every checksum made passes the check, for any human readable part and any data. */
  lemma ChecksumPasses(hrp: seq<nat>, data: seq<nat>)
    ensures Sum(hrp, data + SixSymbols(Xor(Sum(hrp, data + seq(6, _ => 0)), One()))) == One()
  {
    hide Fold, Syms, HrpExpand, Xor, NumberOf, BitsOf, SixSymbols, Join;
    var values := HrpExpand(hrp) + data;
    var zeros: seq<nat> := seq(6, _ => 0);
    var p := Fold(One(), Syms(values));
    assert HrpExpand(hrp) + (data + zeros) == values + zeros;
    SymsConcat(values, zeros);
    ZeroSyms(6);
    FoldConcat(One(), Syms(values), Nulls(6));
    var z := Fold(p, Nulls(6));
    assert Sum(hrp, data + zeros) == z;
    var c := Xor(z, One());
    var six := SixSymbols(c);
    assert HrpExpand(hrp) + (data + six) == values + six;
    SymsConcat(values, six);
    FoldConcat(One(), Syms(values), Syms(six));
    SumWithSix(p, six);
    LastThirty(p);
    OneThirty();
    XorThirty(z, One());
    SixBack(c);
    Assoc(z, z, One());
    XorZero(z);
    XorZero(One());
  }

  lemma LastThirty(a: seq<bool>)
    requires |a| == 32
    ensures Thirty(Fold(a, Nulls(6)))
  {
    hide Shifted, Xor;
    var b := Fold(a, Nulls(5));
    assert Nulls(6)[..5] == Nulls(5);
    ShiftedThirty(b);
    XorZero(Shifted(b));
  }

  // ------------------------------------------------------- catching bursts

  /** Two lists agree outside m positions from k on. */
  predicate AgreeOutside(x: seq<nat>, y: seq<nat>, k: nat, m: nat) {
    |x| == |y| && k + m <= |x| && x[..k] == y[..k] && x[k + m..] == y[k + m..]
  }

  lemma XorSame(xs: seq<seq<bool>>)
    requires Words(xs)
    ensures XorAll(xs, xs) == Nulls(|xs|)
  {
    forall i | 0 <= i < |xs| ensures XorAll(xs, xs)[i] == Zeros(32) { XorZero(xs[i]); }
  }

  lemma XorAllConcat(a: seq<seq<bool>>, b: seq<seq<bool>>, c: seq<seq<bool>>, d: seq<seq<bool>>)
    requires |a| == |c| && |b| == |d| && Words(a) && Words(b) && Words(c) && Words(d)
    ensures XorAll(a + b, c + d) == XorAll(a, c) + XorAll(b, d)
  {}

  /** Two lists with the same checksum that differ in at most six consecutive places
      do not differ at all. */
  lemma BurstsCaught(a: seq<bool>, x: seq<nat>, y: seq<nat>, k: nat, m: nat)
    requires |a| == 32 && Squashed(x) && Squashed(y) && AgreeOutside(x, y, k, m) && m <= 6
    requires Fold(a, Syms(x)) == Fold(a, Syms(y))
    ensures x == y
  {
    hide Fold, Syms, XorAll, Small, Squashed, Zeros, Words, Nulls, AgreeOutside;
    Rejoin(x, y, k, m);
    Middle(x, k, m);
    Middle(y, k, m);
    var u, v := x[k..k + m], y[k..k + m];
    var ds := XorAll(Syms(u), Syms(v));
    Difference(a, x, y, k, m);
    DifferenceSmall(u, v);
    OnlyZeros(ds, k, |x| - k - m);
    SameSymbols(u, v);
  }

  lemma Rejoin(x: seq<nat>, y: seq<nat>, k: nat, m: nat)
    requires AgreeOutside(x, y, k, m)
    ensures |x| == |y| && k + m <= |x| && (x[k..k + m] == y[k..k + m] ==> x == y)
  {
    assert x == x[..k] + x[k..k + m] + x[k + m..] && y == y[..k] + y[k..k + m] + y[k + m..];
  }

  lemma Middle(x: seq<nat>, k: nat, m: nat)
    requires Squashed(x) && k + m <= |x|
    ensures Squashed(x[k..k + m])
  {}

  /** At most six small words between zeros that make a zero checksum are zero. */
  lemma OnlyZeros(ds: seq<seq<bool>>, k: nat, rest: nat)
    requires |ds| <= 6 && Words(ds) && forall i :: 0 <= i < |ds| ==> Small(ds[i])
    requires Fold(Zeros(32), Nulls(k) + (ds + Nulls(rest))) == Zeros(32)
    ensures forall i :: 0 <= i < |ds| ==> ds[i] == Zeros(32)
  {
    hide Fold, Join, Nulls;
    FoldNulls(k);
    FoldConcat(Zeros(32), Nulls(k), ds + Nulls(rest));
    FoldConcat(Zeros(32), ds, Nulls(rest));
    FoldSmall(ds);
    NullsInjective(Fold(Zeros(32), ds), rest);
    var n := 32 - 5 * |ds|;
    assert Join(ds) == (Zeros(n) + Join(ds))[n..] == Zeros(32)[n..];
    JoinZero(ds);
  }

  lemma FoldNulls(k: nat)
    ensures Fold(Zeros(32), Nulls(k)) == Zeros(32)
  {
    NullsInjective(Zeros(32), k);
  }

  /** Outside the stretch the two strings cancel out. */
  lemma Cancelled(x: seq<nat>, y: seq<nat>, k: nat, m: nat)
    requires AgreeOutside(x, y, k, m)
    ensures XorAll(Syms(x), Syms(y)) == Nulls(k) + (XorAll(Syms(x[k..k + m]), Syms(y[k..k + m])) + Nulls(|x| - k - m))
  {
    hide Xor, Syms, XorAll;
    var u, v, t := x[k..k + m], y[k..k + m], x[k + m..];
    assert x == x[..k] + (u + t) && y == x[..k] + (v + t);
    SymsConcat(x[..k], u + t);
    SymsConcat(x[..k], v + t);
    SymsConcat(u, t);
    SymsConcat(v, t);
    XorAllConcat(Syms(x[..k]), Syms(u) + Syms(t), Syms(x[..k]), Syms(v) + Syms(t));
    XorAllConcat(Syms(u), Syms(t), Syms(v), Syms(t));
    XorSame(Syms(x[..k]));
    XorSame(Syms(t));
  }

  /** The difference of the checksums is the checksum of the difference. */
  lemma Difference(a: seq<bool>, x: seq<nat>, y: seq<nat>, k: nat, m: nat)
    requires |a| == 32 && AgreeOutside(x, y, k, m) && Fold(a, Syms(x)) == Fold(a, Syms(y))
    ensures Fold(Zeros(32), Nulls(k) + (XorAll(Syms(x[k..k + m]), Syms(y[k..k + m])) + Nulls(|x| - k - m))) == Zeros(32)
  {
    hide Fold, Xor, Syms, XorAll;
    Cancelled(x, y, k, m);
    FoldLinear(a, a, Syms(x), Syms(y));
    XorZero(a);
    XorZero(Fold(a, Syms(x)));
  }

  lemma DifferenceSmall(u: seq<nat>, v: seq<nat>)
    requires |u| == |v| && Squashed(u) && Squashed(v)
    ensures forall i :: 0 <= i < |u| ==> Small(XorAll(Syms(u), Syms(v))[i])
  {
    hide BitsOf;
    forall i | 0 <= i < |u| ensures Small(XorAll(Syms(u), Syms(v))[i]) {
      SymSmall(u[i]);
      SymSmall(v[i]);
      XorSmall(Syms(u)[i], Syms(v)[i]);
    }
  }

  lemma XorSmall(a: seq<bool>, b: seq<bool>)
    requires Small(a) && Small(b)
    ensures Small(Xor(a, b))
  {}

  lemma {:induction false} JoinZero(ds: seq<seq<bool>>)
    requires Words(ds) && Join(ds) == Zeros(5 * |ds|) && forall i :: 0 <= i < |ds| ==> Small(ds[i])
    ensures forall i :: 0 <= i < |ds| ==> ds[i] == Zeros(32)
    decreases |ds|
  {
    if ds != [] {
      var m := |ds| - 1;
      assert Join(ds)[..5 * m] == Join(ds[..m]) && Join(ds)[5 * m..] == ds[m][27..];
      JoinZero(ds[..m]);
      forall i | 0 <= i < |ds| ensures ds[i] == Zeros(32) {
        if i < m { assert ds[i] == ds[..m][i]; } else { LastZero(ds[m]); }
      }
    }
  }

  lemma LastZero(d: seq<bool>)
    requires |d| == 32 && Small(d) && d[27..] == Zeros(5)
    ensures d == Zeros(32)
  {
    assert d == d[..27] + d[27..];
  }

  lemma SameSymbols(u: seq<nat>, v: seq<nat>)
    requires |u| == |v| && Squashed(u) && Squashed(v)
    requires forall i :: 0 <= i < |u| ==> XorAll(Syms(u), Syms(v))[i] == Zeros(32)
    ensures u == v
  {
    hide BitsOf;
    forall i | 0 <= i < |u| ensures u[i] == v[i] {
      assert XorAll(Syms(u), Syms(v))[i] == Xor(BitsOf(u[i], 32), BitsOf(v[i], 32));
      XorEqual(BitsOf(u[i], 32), BitsOf(v[i], 32));
      SymSmall(u[i]);
      SymSmall(v[i]);
      PowFive();
      BitsUnique(u[i], v[i], 5);
    }
  }

  /** Two strings of equal length accepted under one human readable part that differ
      only within six consecutive symbols are identical, however long they are. */
  lemma BurstDetected(hrp: seq<nat>, x: seq<nat>, y: seq<nat>, k: nat, m: nat)
    requires Squashed(x) && Squashed(y) && AgreeOutside(x, y, k, m) && m <= 6
    requires Sum(hrp, x) == One() && Sum(hrp, y) == One()
    ensures x == y
  {
    hide Fold, HrpExpand, Syms;
    SymsConcat(HrpExpand(hrp), x);
    SymsConcat(HrpExpand(hrp), y);
    FoldConcat(One(), Syms(HrpExpand(hrp)), Syms(x));
    FoldConcat(One(), Syms(HrpExpand(hrp)), Syms(y));
    BurstsCaught(Fold(One(), Syms(HrpExpand(hrp))), x, y, k, m);
  }
}
