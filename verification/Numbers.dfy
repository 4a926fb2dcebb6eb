/** Bytes, big-endian numbers, powers of 256 and division.  Div and Mod are functions of
    their own so that proofs can hide the division they stand for. */
module Numbers {

  newtype byte = x: int | 0 <= x < 256

  function Div(x: nat, p: nat): (r: nat)
    requires p > 0
  {
    x / p
  }

  function Mod(x: nat, p: nat): (r: nat)
    requires p > 0
    ensures r < p
  {
    x % p
  }

  function Pow256(k: nat): (r: nat)
    ensures r > 0
  {
    if k == 0 then 1 else 256 * Pow256(k - 1)
  }

  lemma MulMono(a: int, b: int, p: nat)
    requires a <= b
    ensures a * p <= b * p
  {}

  lemma MulStrict(a: int, b: int, p: nat)
    requires a * p < b * p
    ensures a < b
  {
    if b <= a { MulMono(b, a, p); }
  }

  lemma Expand(q: int, p: nat)
    ensures (q + 1) * p == q * p + p
  {}

  lemma DivMod(x: nat, p: nat)
    requires p > 0
    ensures x == Div(x, p) * p + Mod(x, p)
  {}

  lemma DivBounds(x: nat, p: nat)
    requires p > 0
    ensures Div(x, p) * p <= x < Div(x, p) * p + p
  {
    DivMod(x, p);
  }

  lemma DivUnique(x: nat, p: nat, q: nat)
    requires p > 0 && q * p <= x < q * p + p
    ensures Div(x, p) == q && Mod(x, p) == x - q * p
  {
    hide Div, Mod;
    DivMod(x, p);
    DivBounds(x, p);
    var q' := Div(x, p);
    if q < q' {
      MulMono(q + 1, q', p);
      Expand(q, p);
    } else if q' < q {
      MulMono(q' + 1, q, p);
      Expand(q', p);
    }
  }

  lemma DivMono(x: nat, y: nat, p: nat)
    requires p > 0 && x <= y
    ensures Div(x, p) <= Div(y, p)
  {
    DivBounds(x, p);
    DivBounds(y, p);
    if Div(y, p) < Div(x, p) { MulMono(Div(y, p) + 1, Div(x, p), p); }
  }

  lemma Regroup(q: nat, b: nat, c: nat)
    ensures q * (b * c) == (q * c) * b
  {}

  lemma Distribute(x: nat, c: nat, b: nat)
    ensures (x + c) * b == x * b + b * c
  {}

  lemma DivDiv(a: nat, b: nat, c: nat)
    requires b > 0 && c > 0 && b * c > 0
    ensures Div(Div(a, b), c) == Div(a, b * c)
  {
    hide Div, Mod;
    var q, x := Div(a, b * c), Div(a, b);
    DivBounds(a, b * c);
    DivBounds(a, b);
    Regroup(q, b, c);
    Distribute(q * c, c, b);
    Expand(x, b);
    MulStrict(q * c, x + 1, b);
    MulStrict(x, q * c + c, b);
    DivUnique(x, c, q);
  }

  lemma {:induction false} PowGrows(a: nat, b: nat)
    requires a <= b
    ensures Pow256(a) <= Pow256(b)
    decreases b
  {
    if a < b { PowGrows(a, b - 1); }
  }

  // ------------------------------------------------------- big-endian numbers

  /** The low k bytes of n, high byte first. */
  function BigEndian(n: nat, k: nat): (r: seq<byte>)
    ensures |r| == k
  {
    if k == 0 then [] else BigEndian(n / 256, k - 1) + [(n % 256) as byte]
  }

  function FromBigEndian(s: seq<byte>): nat {
    if s == [] then 0 else FromBigEndian(s[..|s| - 1]) * 256 + s[|s| - 1] as nat
  }

  lemma {:induction false} BigEndianBack(n: nat, k: nat)
    ensures n < Pow256(k) ==> FromBigEndian(BigEndian(n, k)) == n
    decreases k
  {
    if k > 0 { BigEndianBack(n / 256, k - 1); }
  }

  lemma {:induction false} BytesBack(s: seq<byte>)
    ensures FromBigEndian(s) < Pow256(|s|)
    ensures BigEndian(FromBigEndian(s), |s|) == s
    decreases |s|
  {
    if s != [] {
      var high, low := s[..|s| - 1], s[|s| - 1];
      BytesBack(high);
      var n := FromBigEndian(s);
      assert n / 256 == FromBigEndian(high) && n % 256 == low as nat;
      assert s == high + [low];
    }
  }

  /** Each byte is a digit to the base of 256, high digit first. */
  lemma {:induction false} BigEndianAt(n: nat, k: nat, i: nat)
    requires i < k
    ensures BigEndian(n, k)[i] as nat == Mod(Div(n, Pow256(k - 1 - i)), 256)
    decreases k
  {
    hide Div, Mod;
    if i < k - 1 {
      BigEndianAt(n / 256, k - 1, i);
      ByteQuotient(n);
      DivDiv(n, 256, Pow256(k - 2 - i));
    } else {
      WholeQuotient(n);
    }
  }

  lemma ByteQuotient(n: nat)
    ensures n / 256 == Div(n, 256)
  {}

  lemma WholeQuotient(n: nat)
    ensures Div(n, Pow256(0)) == n && Mod(n, 256) == n % 256
  {}
}
