/** The state index hidden in a commitment's sequence and locktime (qln/buildtx.go:20-70). */
module StateHints {

  const SEQ_MASK: bv32 := 0xff00_0000
  const TIME_MASK: bv32 := 0x2100_0000

  /** The two fields of a transaction with one input that carry the hint. */
  datatype Hint = Hint(sequence: bv32, lockTime: bv32)

  /** The low 32 bits. */
  function Low(x: bv64): bv32 {
    (x & 0xffff_ffff) as bv32
  }

  function Wide(x: bv32): bv64 {
    x as bv64
  }

  /** The fields that hide idx under the mask x. */
  function SetStateIdxBits(idx: bv64, x: bv64): Hint {
    Hint(Low((idx ^ x) >> 24) | SEQ_MASK, Low((idx ^ x) & 0x00ff_ffff) | TIME_MASK)
  }

  /** The index found under the mask x; 0 when there is none. */
  function GetStateIdxFromTx(tx: Hint, x: bv64): bv64 {
    if x > 0x1_0000_0000_0000 then 0
    else if tx.sequence >> 24 != 0xff || tx.lockTime >> 24 != 0x21 then 0
    else ((Wide(tx.sequence & 0x00ff_ffff) << 24) | Wide(tx.lockTime & 0x00ff_ffff)) ^ x
  }

  /** An index of 48 bits is found again exactly when the mask has at most 48 bits; a
      larger mask is taken for no hint at all, except the first one, which is let through. */
  lemma HintFound(idx: bv64, x: bv64)
    requires idx < 0x1_0000_0000_0000
    ensures GetStateIdxFromTx(SetStateIdxBits(idx, x), x) == idx
       <==> x < 0x1_0000_0000_0000 || (idx == 0 && x != 0x1_0000_0000_0000)
  {}

  /** Different indices never leave the same hint. */
  lemma HintUnique(i: bv64, j: bv64, x: bv64)
    requires i < 0x1_0000_0000_0000 && j < 0x1_0000_0000_0000
    requires SetStateIdxBits(i, x) == SetStateIdxBits(j, x)
    ensures i == j
  {}
}
