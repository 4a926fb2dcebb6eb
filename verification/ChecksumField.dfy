/** The generator words of the checksum (bech32/bech32.go:107-109) against the code they stand
    for (section "Checksum" of BIP-173): a symbol is an element of a field of 32, and the
    checksum the remainder modulo one polynomial over it. */
module ChecksumField {
  import opened Numbers
  import opened Squasher
  import opened Checksum

  /** Twice a symbol: x times its polynomial, modulo x^5 + x^3 + 1. */
  function Twice(v: seq<bool>): (r: seq<bool>)
    requires |v| == 5
    ensures |r| == 5
  {
    [v[1], v[2] != v[0], v[3], v[4], v[0]]
  }

  function Doubled(v: seq<bool>, k: nat): (r: seq<bool>)
    requires |v| == 5
    ensures |r| == 5
  {
    if k == 0 then v else Twice(Doubled(v, k - 1))
  }

  /** The product with the k low bits of a symbol. */
  function Times(t: seq<bool>, v: seq<bool>, k: nat): (r: seq<bool>)
    requires |t| == |v| == 5 && k <= 5
    ensures |r| == 5
  {
    if k == 0 then Zeros(5) else Xor(Times(t, v, k - 1), Sel(t[5 - k], Doubled(v, k - 1)))
  }

  /** The generator polynomial x^6 + 29x^5 + 22x^4 + 20x^3 + 21x^2 + 29x + 18. */
  const POLYNOMIAL: seq<nat> := [29, 22, 20, 21, 29, 18]

  function Coefficient(j: nat): (r: seq<bool>)
    requires j < 6
    ensures |r| == 5
  {
    BitsOf(POLYNOMIAL[j], 5)
  }

  /** Symbol j of a word, high symbol first, after its two highest bits. */
  function Symbol(w: seq<bool>, j: nat): (r: seq<bool>)
    requires |w| == 32 && j < 6
    ensures |r| == 5
  {
    w[2 + 5 * j..7 + 5 * j]
  }

  // ----------------------------------------------------------- the generators

  lemma SymbolOf(x: nat, j: nat)
    requires j < 6
    ensures Symbol(BitsOf(x, 32), j) == BitsOf(Div(x, Pow2(25 - 5 * j)), 5)
  {
    hide BitsOf, Pow2, Div;
    var y := Div(x, Pow2(25 - 5 * j));
    BitsSplit(x, 7 + 5 * j, 25 - 5 * j);
    BitsSplit(y, 2 + 5 * j, 5);
  }

  lemma Powers()
    ensures Pow2(0) == 1 && Pow2(5) == 32 && Pow2(10) == 1024 && Pow2(15) == 32768 && Pow2(20) == 1048576 && Pow2(25) == 33554432
  {
    assert Pow2(5) == 32;
    Pow2Sum(5, 5);
    Pow2Sum(10, 5);
    Pow2Sum(15, 5);
    Pow2Sum(20, 5);
  }

  /** The symbols of a word given as a number. */
  lemma WordSymbols(x: nat)
    ensures Symbol(BitsOf(x, 32), 0) == BitsOf(x / 33554432, 5) && Symbol(BitsOf(x, 32), 1) == BitsOf(x / 1048576, 5)
    ensures Symbol(BitsOf(x, 32), 2) == BitsOf(x / 32768, 5) && Symbol(BitsOf(x, 32), 3) == BitsOf(x / 1024, 5)
    ensures Symbol(BitsOf(x, 32), 4) == BitsOf(x / 32, 5) && Symbol(BitsOf(x, 32), 5) == BitsOf(x, 5)
  {
    hide BitsOf, Pow2;
    Powers();
    SymbolOf(x, 0);
    SymbolOf(x, 1);
    SymbolOf(x, 2);
    SymbolOf(x, 3);
    SymbolOf(x, 4);
    SymbolOf(x, 5);
  }

  lemma SameLow(x: nat, v: nat)
    requires v < 32 && x % 32 == v
    ensures BitsOf(x, 5) == BitsOf(v, 5)
  {
    hide BitsOf;
    BitsMod(x, 5, 5);
    DivUnique(x, 32, x / 32);
    assert Pow2(5) == 32;
  }

  /** A word is made of these symbols. */
  predicate HasSymbols(w: seq<bool>, ss: seq<nat>)
    requires |w| == 32 && |ss| == 6
  {
    w[0] == w[1] == false && forall j :: 0 <= j < 6 ==> Symbol(w, j) == BitsOf(ss[j], 5)
  }

  lemma NumberSymbols(x: nat, ss: seq<nat>)
    requires |ss| == 6 && forall j :: 0 <= j < 6 ==> ss[j] < 32
    requires x == 33554432 * ss[0] + 1048576 * ss[1] + 32768 * ss[2] + 1024 * ss[3] + 32 * ss[4] + ss[5]
    ensures HasSymbols(BitsOf(x, 32), ss)
  {
    hide BitsOf, Symbol;
    WordSymbols(x);
    Place(x, 33554432, ss[0], 0, 1048576 * ss[1] + 32768 * ss[2] + 1024 * ss[3] + 32 * ss[4] + ss[5]);
    Place(x, 1048576, ss[1], ss[0], 32768 * ss[2] + 1024 * ss[3] + 32 * ss[4] + ss[5]);
    Place(x, 32768, ss[2], 32 * ss[0] + ss[1], 1024 * ss[3] + 32 * ss[4] + ss[5]);
    Place(x, 1024, ss[3], 1024 * ss[0] + 32 * ss[1] + ss[2], 32 * ss[4] + ss[5]);
    Place(x, 32, ss[4], 32768 * ss[0] + 1024 * ss[1] + 32 * ss[2] + ss[3], ss[5]);
    Place(x, 1, ss[5], 1048576 * ss[0] + 32768 * ss[1] + 1024 * ss[2] + 32 * ss[3] + ss[4], 0);
    TopZero(x);
  }

  /** The symbol in one place of a number. */
  lemma Place(x: nat, p: nat, v: nat, above: nat, below: nat)
    requires p > 0 && v < 32 && below < p && x == (32 * above + v) * p + below
    ensures BitsOf(x / p, 5) == BitsOf(v, 5)
  {
    hide BitsOf;
    DivUnique(x, p, 32 * above + v);
    SameLow(x / p, v);
  }

  /** The symbols of the generator words, as numbers. */
  const ROWS: seq<seq<nat>> := [
    [29, 22, 20, 21, 29, 18],
    [19, 5, 1, 3, 19, 13],
    [15, 10, 2, 6, 15, 26],
    [30, 20, 4, 12, 30, 29],
    [21, 1, 8, 24, 21, 19]
  ]

  lemma GeneratorNumbers(i: nat)
    requires i < 5
    ensures HasSymbols(Gen(i), ROWS[i])
  {
    hide HasSymbols, BitsOf;
    match i
    case 0 => NumberSymbols(0x3b6a57b2, ROWS[0]);
    case 1 => NumberSymbols(0x26508e6d, ROWS[1]);
    case 2 => NumberSymbols(0x1ea119fa, ROWS[2]);
    case 3 => NumberSymbols(0x3d4233dd, ROWS[3]);
    case 4 => NumberSymbols(0x2a1462b3, ROWS[4]);
    case _ =>
  }

  lemma RowsDouble(i: nat, j: nat)
    requires i < 4 && j < 6
    ensures BitsOf(ROWS[i + 1][j], 5) == Twice(BitsOf(ROWS[i][j], 5))
  {
    hide BitsOf, Twice;
    match j
    case 0 => ColumnDoubles(29, 19, 15, 30, 21);
    case 1 => ColumnDoubles(22, 5, 10, 20, 1);
    case 2 => ColumnDoubles(20, 1, 2, 4, 8);
    case 3 => ColumnDoubles(21, 3, 6, 12, 24);
    case 4 => ColumnDoubles(29, 19, 15, 30, 21);
    case 5 => ColumnDoubles(18, 13, 26, 29, 19);
    case _ =>
  }

  /** Twice a symbol, as a number. */
  function TwiceNumber(v: nat): nat {
    if v < 16 then 2 * v else if v / 4 % 2 == 1 then 2 * v - 39 else 2 * v - 23
  }

  lemma ColumnDoubles(a: nat, b: nat, c: nat, d: nat, e: nat)
    requires a < 32 && b == TwiceNumber(a) < 32 && c == TwiceNumber(b) < 32 && d == TwiceNumber(c) < 32 && e == TwiceNumber(d) < 32
    ensures Twice(BitsOf(a, 5)) == BitsOf(b, 5) && Twice(BitsOf(b, 5)) == BitsOf(c, 5)
    ensures Twice(BitsOf(c, 5)) == BitsOf(d, 5) && Twice(BitsOf(d, 5)) == BitsOf(e, 5)
  {
    hide BitsOf, Twice;
    TwiceOf(a);
    TwiceOf(b);
    TwiceOf(c);
    TwiceOf(d);
  }

  lemma TwiceOf(v: nat)
    requires v < 32
    ensures Twice(BitsOf(v, 5)) == BitsOf(TwiceNumber(v), 5)
  {
    hide BitsOf, TwiceNumber;
    var b4, b3, b2, b1, b0 := v / 16, v / 8 % 2, v / 4 % 2, v / 2 % 2, v % 2;
    Digits(v, b4, b3, b2, b1, b0);
    FromBits(b4, b3, b2, b1, b0);
    FromBits(b3, if b4 == 1 then 1 - b2 else b2, b1, b0, b4);
  }

  lemma Digits(v: nat, b4: nat, b3: nat, b2: nat, b1: nat, b0: nat)
    requires v < 32 && b4 == v / 16 && b3 == v / 8 % 2 && b2 == v / 4 % 2 && b1 == v / 2 % 2 && b0 == v % 2
    ensures v == 16 * b4 + 8 * b3 + 4 * b2 + 2 * b1 + b0
    ensures TwiceNumber(v) == 16 * b3 + 8 * (if b4 == 1 then 1 - b2 else b2) + 4 * b1 + 2 * b0 + b4
  {}

  lemma FromBits(b4: nat, b3: nat, b2: nat, b1: nat, b0: nat)
    requires b4 < 2 && b3 < 2 && b2 < 2 && b1 < 2 && b0 < 2
    ensures BitsOf(16 * b4 + 8 * b3 + 4 * b2 + 2 * b1 + b0, 5) == [b4 == 1, b3 == 1, b2 == 1, b1 == 1, b0 == 1]
  {
    hide BitsOf;
    NoBits(0);
    PushBit(0, b4, 0);
    PushBit(b4, b3, 1);
    PushBit(2 * b4 + b3, b2, 2);
    PushBit(4 * b4 + 2 * b3 + b2, b1, 3);
    PushBit(8 * b4 + 4 * b3 + 2 * b2 + b1, b0, 4);
  }

  lemma PushBit(y: nat, b: nat, n: nat)
    requires b < 2
    ensures BitsOf(2 * y + b, n + 1) == BitsOf(y, n) + [b == 1]
  {}

  /** Each symbol of generator word i is 2^i times the coefficient in its place. */
  lemma {:induction false} GeneratorSymbols(i: nat, j: nat)
    requires i < 5 && j < 6
    ensures Symbol(Gen(i), j) == Doubled(Coefficient(j), i) && !Gen(i)[0] && !Gen(i)[1]
  {
    hide BitsOf, Symbol, Gen, Twice;
    GeneratorNumbers(i);
    if i > 0 {
      GeneratorSymbols(i - 1, j);
      GeneratorNumbers(i - 1);
      RowsDouble(i - 1, j);
    }
  }

  // ------------------------------------------------------------ the remainder

  lemma XorSymbol(a: seq<bool>, b: seq<bool>, j: nat)
    requires |a| == |b| == 32 && j < 6
    ensures Symbol(Xor(a, b), j) == Xor(Symbol(a, j), Symbol(b, j))
    ensures !a[0] && !a[1] && !b[0] && !b[1] ==> !Xor(a, b)[0] && !Xor(a, b)[1]
  {}

  lemma SelSymbol(on: bool, g: seq<bool>, j: nat)
    requires |g| == 32 && j < 6
    ensures Symbol(Sel(on, g), j) == Sel(on, Symbol(g, j))
    ensures !g[0] && !g[1] ==> !Sel(on, g)[0] && !Sel(on, g)[1]
  {}

  lemma SelectedSymbol(chk: seq<bool>, k: nat, j: nat)
    requires |chk| == 32 && k <= 5 && j < 6
    ensures Symbol(Selected(chk, k), j) == Times(Symbol(chk, 0), Coefficient(j), k)
    ensures !Selected(chk, k)[0] && !Selected(chk, k)[1]
  {
    hide Gen, Coefficient, Doubled, Xor, Sel;
    if k > 0 {
      SelectedSymbol(chk, k - 1, j);
      GeneratorSymbols(k - 1, j);
      SelSymbol(TopBit(chk, k - 1), Gen(k - 1), j);
      XorSymbol(Selected(chk, k - 1), Sel(TopBit(chk, k - 1), Gen(k - 1)), j);
    }
  }

  /** One step of the checksum: all symbols move up, the new one comes in, and the one that
      falls out is replaced by its multiple of the rest of the polynomial.  So the checksum
      is the remainder of the symbols, as a polynomial, modulo this one. */
  lemma StepIsRemainder(chk: seq<bool>, v: nat, j: nat)
    requires |chk| == 32 && v < 32 && j < 6
    ensures var w := Xor(Shifted(chk), BitsOf(v, 32));
      && !w[0] && !w[1]
      && Symbol(w, j)
         == Xor(if j < 5 then Symbol(chk, j + 1) else BitsOf(v, 5), Times(Symbol(chk, 0), Coefficient(j), 5))
  {
    hide BitsOf, Selected, Times, Coefficient;
    SelectedSymbol(chk, 5, j);
    SymSmall(v);
    var b, rest := BitsOf(v, 32), Rest(chk);
    assert b[..27] == Zeros(27) && b[27..] == BitsOf(v, 5);
    assert !b[0] && !b[1] by { assert b[0] == b[..27][0] && b[1] == b[..27][1]; }
    var next := if j < 5 then Symbol(chk, j + 1) else BitsOf(v, 5);
    forall k | 0 <= k < 5 ensures (rest[2 + 5 * j + k] != b[2 + 5 * j + k]) == next[k] {
      if j < 5 {
        assert b[2 + 5 * j + k] == b[..27][2 + 5 * j + k];
        assert rest[2 + 5 * j + k] == chk[7 + 5 * j + k];
      } else {
        assert b[27 + k] == b[27..][k] && !rest[27 + k];
      }
    }
    var m := Symbol(Selected(chk, 5), j);
    var w := Xor(Shifted(chk), b);
    forall k | 0 <= k < 5 ensures Symbol(w, j)[k] == Xor(next, m)[k] {
      assert m[k] == Selected(chk, 5)[2 + 5 * j + k];
    }
    assert Symbol(w, j) == Xor(next, m);
  }

  // ------------------------------------------------------ symbols as numbers

  function Differ(x: nat, y: nat): nat {
    if x % 2 != y % 2 then 1 else 0
  }

  /** The sum of two symbols: bit by bit. */
  function XorNumber(a: nat, b: nat): (r: nat)
    ensures r < 32
  {
    16 * Differ(a / 16, b / 16) + 8 * Differ(a / 8, b / 8) + 4 * Differ(a / 4, b / 4) + 2 * Differ(a / 2, b / 2) + Differ(a, b)
  }

  lemma DifferBit(x: nat, y: nat)
    ensures Differ(x, y) < 2 && (Differ(x, y) == 1) == ((x % 2 == 1) != (y % 2 == 1))
  {}

  lemma XorBits(x: seq<bool>, y: seq<bool>)
    requires |x| == |y| == 5
    ensures Xor(x, y) == [x[0] != y[0], x[1] != y[1], x[2] != y[2], x[3] != y[3], x[4] != y[4]]
  {}

  lemma XorOf(a: nat, b: nat)
    ensures Xor(BitsOf(a, 5), BitsOf(b, 5)) == BitsOf(XorNumber(a, b), 5)
  {
    hide BitsOf, Xor;
    XorBits(BitsOf(a, 5), BitsOf(b, 5));
    XorFromBits(a, b);
    hide Differ, XorNumber;
    FiveBits(a);
    FiveBits(b);
    DifferBit(a / 16, b / 16);
    DifferBit(a / 8, b / 8);
    DifferBit(a / 4, b / 4);
    DifferBit(a / 2, b / 2);
    DifferBit(a, b);
  }

  lemma XorFromBits(a: nat, b: nat)
    ensures BitsOf(XorNumber(a, b), 5) == [Differ(a / 16, b / 16) == 1, Differ(a / 8, b / 8) == 1, Differ(a / 4, b / 4) == 1,
                                           Differ(a / 2, b / 2) == 1, Differ(a, b) == 1]
  {
    hide BitsOf, Differ;
    DifferBit(a / 16, b / 16);
    DifferBit(a / 8, b / 8);
    DifferBit(a / 4, b / 4);
    DifferBit(a / 2, b / 2);
    DifferBit(a, b);
    FromBits(Differ(a / 16, b / 16), Differ(a / 8, b / 8), Differ(a / 4, b / 4), Differ(a / 2, b / 2), Differ(a, b));
  }

  function DoubledNumber(v: nat, k: nat): (r: nat)
    requires v < 32
    ensures r < 32
  {
    if k == 0 then v else TwiceNumber(DoubledNumber(v, k - 1))
  }

  /** Is bit k of a symbol set? */
  predicate BitSet(t: nat, k: nat)
    requires k < 5
  {
    (if k == 0 then t else if k == 1 then t / 2 else if k == 2 then t / 4 else if k == 3 then t / 8 else t / 16) % 2 == 1
  }

  function TimesNumber(t: nat, v: nat, k: nat): (r: nat)
    requires v < 32 && k <= 5
    ensures r < 32
  {
    if k == 0 then 0
    else XorNumber(TimesNumber(t, v, k - 1), if BitSet(t, k - 1) then DoubledNumber(v, k - 1) else 0)
  }

  lemma {:induction false} DoubledOf(v: nat, k: nat)
    requires v < 32
    ensures Doubled(BitsOf(v, 5), k) == BitsOf(DoubledNumber(v, k), 5)
  {
    hide BitsOf, TwiceNumber;
    if k > 0 {
      DoubledOf(v, k - 1);
      TwiceOf(DoubledNumber(v, k - 1));
    }
  }

  lemma {:induction false} TimesOf(t: nat, v: nat, k: nat)
    requires t < 32 && v < 32 && k <= 5
    ensures Times(BitsOf(t, 5), BitsOf(v, 5), k) == BitsOf(TimesNumber(t, v, k), 5)
  {
    hide BitsOf, Doubled, DoubledNumber, XorNumber, Xor;
    BitsOfZero(5);
    if k > 0 {
      TimesOf(t, v, k - 1);
      DoubledOf(v, k - 1);
      FiveBits(t);
        XorOf(TimesNumber(t, v, k - 1), if BitSet(t, k - 1) then DoubledNumber(v, k - 1) else 0);
    }
  }

  /** The six symbols of the checksum after one more symbol. */
  function NextSymbols(a: seq<nat>, v: nat): (r: seq<nat>)
    requires |a| == 6
    ensures |r| == 6
  {
    seq(6, j requires 0 <= j < 6 => XorNumber(if j < 5 then a[j + 1] else v, TimesNumber(a[0], POLYNOMIAL[j], 5)))
  }

  /** The step on words is the step on symbols. */
  lemma NextHas(chk: seq<bool>, a: seq<nat>, v: nat)
    requires |chk| == 32 && |a| == 6 && a[0] < 32 && v < 32 && HasSymbols(chk, a)
    ensures HasSymbols(Xor(Shifted(chk), BitsOf(v, 32)), NextSymbols(a, v))
  {
    hide BitsOf, Symbol, Times, TimesNumber, XorNumber, Xor, Shifted;
    forall j | 0 <= j < 6
      ensures Symbol(Xor(Shifted(chk), BitsOf(v, 32)), j) == BitsOf(NextSymbols(a, v)[j], 5)
    {
      StepIsRemainder(chk, v, j);
      TimesOf(a[0], POLYNOMIAL[j], 5);
      XorOf(if j < 5 then a[j + 1] else v, TimesNumber(a[0], POLYNOMIAL[j], 5));
    }
    StepIsRemainder(chk, v, 0);
  }

  /** The symbols of the checksum of a list of symbols. */
  function SymbolFold(values: seq<nat>): (r: seq<nat>)
    ensures |r| == 6
  {
    if values == [] then [0, 0, 0, 0, 0, 1] else NextSymbols(SymbolFold(values[..|values| - 1]), values[|values| - 1])
  }

  lemma SymbolFoldBelow(values: seq<nat>)
    ensures Squashed(SymbolFold(values))
  {
    hide XorNumber, TimesNumber;
  }

  lemma OneSymbols()
    ensures HasSymbols(One(), [0, 0, 0, 0, 0, 1])
  {
    NumberSymbols(1, [0, 0, 0, 0, 0, 1]);
  }

  /** The checksum of a list of symbols is the word of its symbols. */
  lemma {:induction false} FoldSymbols(values: seq<nat>)
    requires Squashed(values)
    ensures HasSymbols(Fold(One(), Syms(values)), SymbolFold(values))
  {
    hide HasSymbols, NextSymbols, BitsOf, Xor, Shifted, One;
    if values == [] {
      OneSymbols();
    } else {
      var m := |values| - 1;
      FoldSymbols(values[..m]);
      SymbolFoldBelow(values[..m]);
      NextHas(Fold(One(), Syms(values[..m])), SymbolFold(values[..m]), values[m]);
      assert Syms(values)[..m] == Syms(values[..m]) && Syms(values)[m] == BitsOf(values[m], 32);
    }
  }

  lemma SameWord(a: seq<bool>, b: seq<bool>, ss: seq<nat>)
    requires |a| == |b| == 32 && |ss| == 6 && HasSymbols(a, ss) && HasSymbols(b, ss)
    ensures a == b
  {
    hide BitsOf;
    forall i | 0 <= i < 32 ensures a[i] == b[i] {
      if i >= 2 {
        var j, k := (i - 2) / 5, (i - 2) % 5;
        assert Symbol(a, j)[k] == a[i] && Symbol(b, j)[k] == b[i];
      }
    }
  }

  lemma SameSymbols(w: seq<bool>, a: seq<nat>, b: seq<nat>)
    requires |w| == 32 && |a| == |b| == 6 && Squashed(a) && Squashed(b) && HasSymbols(w, a) && HasSymbols(w, b)
    ensures a == b
  {
    hide BitsOf, Symbol;
    PowFive();
    forall j | 0 <= j < 6 ensures a[j] == b[j] {
      assert BitsOf(a[j], 5) == Symbol(w, j) == BitsOf(b[j], 5);
      BitsUnique(a[j], b[j], 5);
    }
  }

  /** A string passes the check exactly when the remainder of its symbols, behind a leading
      1, is 1. */
  lemma PassesBySymbols(hrp: seq<nat>, data: seq<nat>)
    requires Squashed(HrpExpand(hrp) + data)
    ensures Sum(hrp, data) == One() <==> SymbolFold(HrpExpand(hrp) + data) == [0, 0, 0, 0, 0, 1]
  {
    hide HasSymbols, SymbolFold, Fold;
    var values := HrpExpand(hrp) + data;
    FoldSymbols(values);
    SymbolFoldBelow(values);
    OneSymbols();
    if SymbolFold(values) == [0, 0, 0, 0, 0, 1] { SameWord(Sum(hrp, data), One(), [0, 0, 0, 0, 0, 1]); }
    if Sum(hrp, data) == One() { SameSymbols(One(), SymbolFold(values), [0, 0, 0, 0, 0, 1]); }
  }

  /** The human readable part is spread over its expansion: the high bits of each character,
      a zero, and the five low bits of each. */
  lemma ExpandedBack(hrp: seq<nat>, k: nat)
    requires k < |hrp|
    ensures var e := HrpExpand(hrp); var n := |hrp|;
      && |e| == 2 * n + 1 && e[n] == 0
      && hrp[k] == 32 * e[k] + e[n + 1 + k] && e[n + 1 + k] < 32
  {}
}
