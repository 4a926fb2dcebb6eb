/** Regrouping bits: ByteSquasher of bech32/bech32.go, from 8-bit to 5-bit groups and back. */
module Squasher {
  import opened Wrappers
  import opened Numbers

  function Pow2(n: nat): (r: nat)
    ensures r > 0
  {
    if n == 0 then 1 else 2 * Pow2(n - 1)
  }

  // ------------------------------------------------------------------- bits

  /** The low n bits of x, high bit first. */
  function BitsOf(x: nat, n: nat): (r: seq<bool>)
    ensures |r| == n
  {
    if n == 0 then [] else BitsOf(x / 2, n - 1) + [x % 2 == 1]
  }

  /** All the bits of a list of numbers of the given width. */
  function Stream(s: seq<nat>, width: nat): (r: seq<bool>)
    ensures |r| == |s| * width
  {
    if s == [] then [] else Stream(s[..|s| - 1], width) + BitsOf(s[|s| - 1], width)
  }

  function Zeros(n: nat): (r: seq<bool>) {
    seq(n, _ => false)
  }

  predicate Below(s: seq<nat>, width: nat) {
    forall i :: 0 <= i < |s| ==> s[i] < Pow2(width)
  }

  lemma {:induction false} Pow2Sum(a: nat, b: nat)
    ensures Pow2(a + b) == Pow2(a) * Pow2(b)
    decreases b
  {
    if b > 0 {
      Pow2Sum(a, b - 1);
      assert Pow2(a + b) == 2 * Pow2(a + b - 1);
    }
  }

  lemma DivTwice(x: nat, p: nat)
    requires p > 0
    ensures Div(x / 2, p) == Div(x, 2 * p)
  {
    hide Div, Mod;
    var q, r := Div(x, 2 * p), Mod(x, 2 * p);
    DivMod(x, 2 * p);
    Double(q, p);
    DivUnique(x / 2, p, q);
  }

  lemma Double(q: nat, p: nat)
    ensures q * (2 * p) == 2 * (q * p)
  {}

  lemma {:induction false} BitsSplit(x: nat, a: nat, b: nat)
    ensures BitsOf(x, a + b) == BitsOf(Div(x, Pow2(b)), a) + BitsOf(x, b)
    decreases b
  {
    hide Div;
    if b > 0 {
      BitsSplit(x / 2, a, b - 1);
      DivTwice(x, Pow2(b - 1));
      assert Pow2(b) == 2 * Pow2(b - 1);
    } else {
      DivOne(x);
    }
  }

  lemma DivOne(x: nat)
    ensures Div(x, Pow2(0)) == x
  {}

  /** Only the low n bits matter. */
  lemma {:induction false} BitsLow(x: nat, y: nat, n: nat)
    ensures BitsOf(x + y * Pow2(n), n) == BitsOf(x, n)
    decreases n
  {
    if n > 0 {
      var p := y * Pow2(n - 1);
      Double(y, Pow2(n - 1));
      assert y * Pow2(n) == 2 * p;
      assert (x + 2 * p) / 2 == x / 2 + p && (x + 2 * p) % 2 == x % 2;
      BitsLow(x / 2, y, n - 1);
    }
  }

  lemma BitsMod(x: nat, k: nat, n: nat)
    requires n <= k
    ensures BitsOf(Mod(x, Pow2(k)), n) == BitsOf(x, n)
  {
    hide BitsOf, Pow2, Div, Mod;
    var q := Div(x, Pow2(k));
    Pow2Sum(k - n, n);
    DivMod(x, Pow2(k));
    Assoc(q, Pow2(k - n), Pow2(n));
    BitsLow(Mod(x, Pow2(k)), q * Pow2(k - n), n);
  }

  lemma Assoc(a: nat, b: nat, c: nat)
    ensures a * (b * c) == (a * b) * c
  {}

  lemma {:induction false} BitsUnique(x: nat, y: nat, n: nat)
    requires x < Pow2(n) && y < Pow2(n) && BitsOf(x, n) == BitsOf(y, n)
    ensures x == y
    decreases n
  {
    if n > 0 {
      assert BitsOf(x, n)[..n - 1] == BitsOf(x / 2, n - 1) && BitsOf(y, n)[..n - 1] == BitsOf(y / 2, n - 1);
      assert BitsOf(x, n)[n - 1] == BitsOf(y, n)[n - 1];
      BitsUnique(x / 2, y / 2, n - 1);
    }
  }

  /** Shifting in w more bits. */
  lemma BitsShiftIn(acc: nat, c: nat, n: nat, w: nat)
    requires c < Pow2(w)
    ensures BitsOf(acc * Pow2(w) + c, n + w) == BitsOf(acc, n) + BitsOf(c, w)
  {
    hide BitsOf, Pow2, Div, Mod;
    BitsSplit(acc * Pow2(w) + c, n, w);
    DivUnique(acc * Pow2(w) + c, Pow2(w), acc);
    BitsLow(c, acc, w);
  }

  lemma {:induction false} StreamUnique(a: seq<nat>, b: seq<nat>, w: nat)
    requires Below(a, w) && Below(b, w) && |a| == |b| && Stream(a, w) == Stream(b, w)
    ensures a == b
    decreases |a|
  {
    hide BitsOf, Pow2, Stream;
    if a != [] {
      var m := |a| - 1;
      StreamLast(a, w);
      StreamLast(b, w);
      StreamUnique(a[..m], b[..m], w);
      BitsUnique(a[m], b[m], w);
      assert a == a[..m] + [a[m]] && b == b[..m] + [b[m]];
    }
  }

  lemma StreamLast(s: seq<nat>, w: nat)
    requires s != []
    ensures var m := |s| - 1;
      |Stream(s, w)| >= m * w && Stream(s, w)[..m * w] == Stream(s[..m], w) && Stream(s, w)[m * w..] == BitsOf(s[m], w)
  {}

  lemma StreamPush(s: seq<nat>, x: nat, w: nat)
    ensures Stream(s + [x], w) == Stream(s, w) + BitsOf(x, w)
  {
    assert (s + [x])[..|s|] == s;
  }

  lemma {:induction false} BitsOfZero(n: nat)
    ensures BitsOf(0, n) == Zeros(n)
  {
    if n > 0 { BitsOfZero(n - 1); }
  }

  // ------------------------------------------------------------- the machine

  const WORD: nat := 0x1_0000_0000

  lemma WordSize()
    ensures Pow2(32) == WORD
  {
    assert Pow2(8) == 256;
    Pow2Sum(8, 8);
    Pow2Sum(16, 16);
  }

  /** out is what s regroups to: the same bits, but for fewer than a group of zeros. */
  ghost predicate Regroups(s: seq<nat>, inWidth: nat, out: seq<nat>, outWidth: nat, spare: nat) {
    && Below(s, inWidth) && Below(out, outWidth) && spare < inWidth
    && Stream(s, inWidth) == Stream(out, outWidth) + Zeros(spare)
  }

  /** five is data in groups of five bits, the last one filled up with zeros. */
  ghost predicate Squashes(data: seq<nat>, five: seq<nat>) {
    exists spare :: Regroups(five, 5, data, 8, spare)
  }

  /** Shift a group of w bits into the accumulator. */
  lemma ShiftIn(acc: nat, c: nat, stash: nat, w: nat)
    requires stash + w <= 32 && c < Pow2(w)
    ensures BitsOf(Mod(acc * Pow2(w) + c, WORD), stash + w) == BitsOf(acc, stash) + BitsOf(c, w)
  {
    hide BitsOf, Pow2, Div, Mod;
    WordSize();
    BitsMod(acc * Pow2(w) + c, 32, stash + w);
    BitsShiftIn(acc, c, stash, w);
  }

  /** Take the next group of w bits out of the accumulator. */
  lemma TakeOut(acc: nat, stash: nat, w: nat)
    ensures var d := Mod(Div(acc, Pow2(stash)), Pow2(w));
      d < Pow2(w) && BitsOf(acc, w + stash) == BitsOf(d, w) + BitsOf(acc, stash)
  {
    hide BitsOf, Pow2, Div, Mod;
    BitsSplit(acc, w, stash);
    BitsMod(Div(acc, Pow2(stash)), w, w);
  }

  /** Shift what is left to the top of a group. */
  lemma PadOut(acc: nat, stash: nat, w: nat)
    requires stash <= w <= 32
    ensures var d := Mod(Mod(acc * Pow2(w - stash), WORD), Pow2(w));
      d < Pow2(w) && BitsOf(d, w) == BitsOf(acc, stash) + Zeros(w - stash)
  {
    hide BitsOf, Pow2, Div, Mod;
    WordSize();
    var x := acc * Pow2(w - stash);
    BitsMod(Mod(x, WORD), w, w);
    BitsMod(x, 32, w);
    Pow2Positive(w - stash);
    BitsShiftIn(acc, 0, stash, w - stash);
    BitsOfZero(w - stash);
  }

  lemma Pow2Positive(n: nat)
    ensures 0 < Pow2(n)
  {}

  /** A group is zero exactly when its bits are. */
  lemma ZeroGroup(d: nat, w: nat)
    requires d < Pow2(w)
    ensures d == 0 <==> BitsOf(d, w) == Zeros(w)
  {
    BitsOfZero(w);
    if BitsOf(d, w) == Zeros(w) { BitsUnique(d, 0, w); }
  }

  /** The loop: everything that fills a group, and what is left over. */
  method ByteSquasher(input: seq<nat>, inWidth: nat, outWidth: nat) returns (ok: bool, output: seq<nat>, acc: nat, stash: nat)
    requires 1 <= inWidth <= 8 && 1 <= outWidth <= 8
    ensures ok == Below(input, inWidth)
    ensures ok ==> Below(output, outWidth) && stash < outWidth
    ensures ok ==> Stream(input, inWidth) == Stream(output, outWidth) + BitsOf(acc, stash)
  {
    hide Stream, BitsOf, Pow2, Div, Mod;
    output, acc, stash := [], 0, 0;
    NoStream(inWidth, outWidth, acc);
    for i := 0 to |input|
      invariant Below(input[..i], inWidth) && Below(output, outWidth) && stash < outWidth
      invariant Stream(input[..i], inWidth) == Stream(output, outWidth) + BitsOf(acc, stash)
    {
      var c := input[i];
      if c >= Pow2(inWidth) {
        assert c in input;
        return false, [], 0, 0;
      }
      assert input[..i + 1] == input[..i] + [c];
      StreamPush(input[..i], c, inWidth);
      ShiftIn(acc, c, stash, inWidth);
      acc := Mod(acc * Pow2(inWidth) + c, WORD);
      stash := stash + inWidth;
      while stash >= outWidth
        invariant Below(output, outWidth) && stash < outWidth + inWidth
        invariant Stream(input[..i + 1], inWidth) == Stream(output, outWidth) + BitsOf(acc, stash)
      {
        stash := stash - outWidth;
        TakeOut(acc, stash, outWidth);
        var d := Mod(Div(acc, Pow2(stash)), Pow2(outWidth));
        StreamPush(output, d, outWidth);
        output := output + [d];
      }
    }
    assert input[..|input|] == input;
    ok := true;
  }

  lemma NoStream(a: nat, b: nat, acc: nat)
    ensures Stream([], a) == Stream([], b) + BitsOf(acc, 0)
  {}

  /** From 8 to 5 bits: padded with zeros, never refused. */
  method Bytes8to5(input: seq<nat>) returns (output: seq<nat>)
    requires Below(input, 8)
    ensures Squashes(input, output)
  {
    hide Stream, BitsOf, Pow2, Div, Mod;
    var ok, out, acc, stash := ByteSquasher(input, 8, 5);
    output := out;
    NoBits(acc);
    if stash != 0 {
      var d := Mod(Mod(acc * Pow2(5 - stash), WORD), Pow2(5));
      PadOut(acc, stash, 5);
      StreamPush(output, d, 5);
      output := output + [d];
      assert Stream(out, 5) + (BitsOf(acc, stash) + Zeros(5 - stash)) == (Stream(out, 5) + BitsOf(acc, stash)) + Zeros(5 - stash);
      assert Regroups(output, 5, input, 8, 5 - stash);
    } else {
      assert Regroups(output, 5, input, 8, 0);
    }
  }

  lemma StreamLength(s: seq<nat>, w: nat)
    ensures |Stream(s, w)| == |s| * w
  {}

  lemma NoBits(acc: nat)
    ensures BitsOf(acc, 0) == [] && Zeros(0) == []
  {}

  /** From 5 to 8 bits: accepted exactly when the input is what some bytes squash to. */
  method Bytes5to8(input: seq<nat>) returns (r: Option<seq<nat>>)
    ensures r.Some? ==> Squashes(r.value, input)
    ensures r.None? ==> !exists data :: Squashes(data, input)
  {
    hide Stream, BitsOf, Pow2, Div, Mod;
    var ok, out, acc, stash := ByteSquasher(input, 5, 8);
    if !ok {
      return None;
    }
    PadOut(acc, stash, 8);
    var d := Mod(Mod(acc * Pow2(8 - stash), WORD), Pow2(8));
    LeftOver(input, out, acc, stash, d);
    if stash >= 5 || d != 0 {
      return None;
    }
    r := Some(out);
  }

  /** What is left over decides. */
  lemma LeftOver(s: seq<nat>, out: seq<nat>, acc: nat, stash: nat, d: nat)
    requires Below(s, 5) && Below(out, 8) && stash < 8 && Stream(s, 5) == Stream(out, 8) + BitsOf(acc, stash)
    requires d < Pow2(8) && BitsOf(d, 8) == BitsOf(acc, stash) + Zeros(8 - stash)
    ensures stash < 5 && d == 0 ==> Regroups(s, 5, out, 8, stash)
    ensures stash >= 5 || d != 0 ==> !exists other, spare :: Regroups(s, 5, other, 8, spare)
  {
    hide Stream, BitsOf, Pow2, Div, Mod;
    ZeroGroup(d, 8);
    assert BitsOf(acc, stash) == BitsOf(d, 8)[..stash];
    assert BitsOf(d, 8) == Zeros(8) <==> BitsOf(acc, stash) == Zeros(stash);
    forall other, spare | Regroups(s, 5, other, 8, spare) ensures stash < 5 && d == 0 {
      StreamLength(s, 5);
      StreamLength(out, 8);
      StreamLength(other, 8);
      assert |other| == |out| && spare == stash;
      assert Stream(s, 5)[|out| * 8..] == BitsOf(acc, stash);
      assert Stream(s, 5)[|other| * 8..] == Zeros(spare);
    }
  }

  /** Squashing loses nothing, and bytes squash in one way only. */
  lemma SquashesOneToOne(d: seq<nat>, f: seq<nat>, d': seq<nat>, f': seq<nat>)
    requires Squashes(d, f) && Squashes(d', f')
    ensures d == d' <==> f == f'
  {
    hide Stream, BitsOf, Pow2;
    var k :| Regroups(f, 5, d, 8, k);
    var k' :| Regroups(f', 5, d', 8, k');
    StreamLength(f, 5);
    StreamLength(d, 8);
    StreamLength(f', 5);
    StreamLength(d', 8);
    if d == d' {
      assert |f| == |f'| && k == k';
      StreamUnique(f, f', 5);
    }
    if f == f' {
      assert |d| == |d'| && k == k';
      assert Stream(d, 8) == Stream(f, 5)[..|d| * 8] == Stream(d', 8);
      StreamUnique(d, d', 8);
    }
  }
}
