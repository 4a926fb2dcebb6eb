/** What a commitment pays out: every amount of the channel goes into an output or a fee. */
module ChannelCommits {
  import opened Wrappers
  import opened ElkremRange
  import opened ChannelState

  // -------------------------------------------------------- sums of outputs

  ghost function OutSum(outs: multiset<HtlcOut>): int {
    if outs == multiset{} then 0
    else
      var o :| o in outs;
      o.amt + OutSum(outs - multiset{o})
  }

  lemma {:induction false} OutSumWithout(outs: multiset<HtlcOut>, x: HtlcOut)
    requires x in outs
    ensures OutSum(outs) == x.amt + OutSum(outs - multiset{x})
    decreases |outs|
  {
    var o :| o in outs && OutSum(outs) == o.amt + OutSum(outs - multiset{o});
    if o != x {
      OutSumWithout(outs - multiset{o}, x);
      OutSumWithout(outs - multiset{x}, o);
      assert outs - multiset{o} - multiset{x} == outs - multiset{x} - multiset{o};
    }
  }

  lemma OutSumPlus(outs: multiset<HtlcOut>, x: HtlcOut)
    ensures OutSum(outs + multiset{x}) == OutSum(outs) + x.amt
  {
    OutSumWithout(outs + multiset{x}, x);
    assert outs + multiset{x} - multiset{x} == outs;
  }

  lemma {:induction false} LiveOutsSum(me: Party, s: StatCom, hs: seq<HTLC>, mine: bool)
    ensures OutSum(LiveOuts(me, s, hs, mine)) == LiveSum(hs)
    decreases |hs|
  {
    hide OutSum;
    if hs == [] {
      NoOutSum();
    } else {
      var m := |hs| - 1;
      LiveOutsSum(me, s, hs[..m], mine);
      OutSumPlus(LiveOuts(me, s, hs[..m], mine), GenHtlcOut(me, s, hs[m], mine));
      assert LiveOuts(me, s, hs[..m], mine) + multiset{} == LiveOuts(me, s, hs[..m], mine);
    }
  }

  lemma NoOutSum()
    ensures OutSum(multiset{}) == 0
  {}

  lemma OptOutsSum(me: Party, s: StatCom, outs: multiset<HtlcOut>, o: Option<HTLC>, mine: bool)
    ensures OutSum(outs + OptOuts(me, s, o, mine)) == OutSum(outs) + OptAmt(o)
  {
    hide OutSum;
    if o.Some? {
      OutSumPlus(outs, GenHtlcOut(me, s, o.value, mine));
    } else {
      assert outs + multiset{} == outs;
    }
  }

  /** The HTLC outputs of a commitment add up to what its HTLCs lock. */
  lemma AllOutsSum(c: Config, me: Party, s: StatCom, mine: bool)
    ensures OutSum(AllOuts(me, s, mine)) == c.value - s.myAmt - TheirAmt(c, s)
  {
    hide OutSum, LiveOuts, LiveSum, OptOuts, OptAmt;
    var outs := LiveOuts(me, s, s.htlcs, mine);
    LiveOutsSum(me, s, s.htlcs, mine);
    OptOutsSum(me, s, outs, s.inProg, mine);
    OptOutsSum(me, s, outs + OptOuts(me, s, s.inProg, mine), s.colliding, mine);
  }

  // ----------------------------------------------------------- conservation

  /** The output a commitment gives a party with this amount: none if it is not above the
      fee, and otherwise the amount less the fee, which is not dust. */
  predicate PaysOut(c: Config, amt: int, out: int) {
    if amt > c.fee then out == amt - c.fee >= MIN_OUTPUT else out == 0
  }

  /** The fee taken from an amount. */
  function FeeOf(c: Config, amt: int): int {
    if amt > 0 then c.fee else 0
  }

  /** Every commitment that is built, signed or checked pays each party its amount less the
      fee; and with both amounts not negative, its outputs, those of the HTLCs included,
      and one fee for each party that has anything add up to the capacity. */
  lemma Conservation(c: Config, me: Party, s: StatCom, mine: bool)
    requires BuildStateTx(c, me, s, mine).Some?
    ensures var tx := BuildStateTx(c, me, s, mine).value;
      var theirAmt := c.value - s.myAmt - OutSum(tx.htlcOuts);
      && PaysOut(c, s.myAmt, if mine then tx.holderOut else tx.otherOut)
      && PaysOut(c, theirAmt, if mine then tx.otherOut else tx.holderOut)
      && tx.holder == (if mine then me else Peer(me)) && tx.idx == s.stateIdx <= MAX_INDEX
      && (s.myAmt >= 0 && theirAmt >= 0 ==>
            tx.holderOut + tx.otherOut + OutSum(tx.htlcOuts) + FeeOf(c, s.myAmt) + FeeOf(c, theirAmt) == c.value)
  {
    hide OutSum, AllOuts, TheirAmt;
    AllOutsSum(c, me, s, mine);
  }

  /** Whatever the amounts, a commitment never pays out more than the capacity when neither
      party owes anything. */
  lemma NeverOverpays(c: Config, me: Party, s: StatCom, mine: bool)
    requires BuildStateTx(c, me, s, mine).Some? && s.myAmt >= 0 && TheirAmt(c, s) >= 0
    ensures var tx := BuildStateTx(c, me, s, mine).value; tx.holderOut + tx.otherOut + OutSum(tx.htlcOuts) <= c.value
  {
    hide BuildStateTx, OutSum, TheirAmt;
    AllOutsIn(c, me, s, mine);
    AllOutsSum(c, me, s, mine);
    Conservation(c, me, s, mine);
  }

  lemma AllOutsIn(c: Config, me: Party, s: StatCom, mine: bool)
    ensures BuildStateTx(c, me, s, mine).Some? ==> BuildStateTx(c, me, s, mine).value.htlcOuts == AllOuts(me, s, mine)
  {
    hide AllOuts, TheirAmt;
  }

  // ------------------------------------------------- when a commitment is built

  /** An amount that makes a proper output, or none at all. */
  predicate ProperAmount(c: Config, amt: int) {
    amt <= 0 || amt == c.fee || amt >= MIN_OUTPUT + c.fee
  }

  /** An HTLC large enough for an output and the transaction that spends it. */
  predicate ProperHtlc(c: Config, h: HTLC) {
    h.amt >= MIN_OUTPUT + c.fee
  }

  predicate ProperOpt(c: Config, o: Option<HTLC>) {
    o.Some? ==> ProperHtlc(c, o.value)
  }

  predicate ProperHtlcs(c: Config, s: StatCom) {
    (forall h <- s.htlcs :: Live(h) ==> ProperHtlc(c, h)) && ProperOpt(c, s.inProg) && ProperOpt(c, s.colliding)
  }

  predicate SomeHtlc(s: StatCom) {
    s.inProg.Some? || s.colliding.Some? || exists h <- s.htlcs :: Live(h)
  }

  lemma LiveOutsLast(me: Party, s: StatCom, hs: seq<HTLC>, h: HTLC, mine: bool)
    ensures LiveOuts(me, s, hs + [h], mine)
         == LiveOuts(me, s, hs, mine) + if Live(h) then multiset{GenHtlcOut(me, s, h, mine)} else multiset{}
    ensures GenHtlcOut(me, s, h, mine).amt == h.amt
  {
    hide Live;
    assert (hs + [h])[..|hs|] == hs;
  }

  lemma {:induction false} LiveOutsProper(c: Config, me: Party, s: StatCom, hs: seq<HTLC>, mine: bool)
    ensures (forall o <- LiveOuts(me, s, hs, mine) :: o.amt >= MIN_OUTPUT + c.fee)
       <==> (forall h <- hs :: Live(h) ==> ProperHtlc(c, h))
    decreases |hs|
  {
    hide LiveOuts, GenHtlcOut, Live;
    if hs == [] {
      NoLiveOuts(me, s, mine);
    } else {
      var m := |hs| - 1;
      LiveOutsProper(c, me, s, hs[..m], mine);
      assert hs == hs[..m] + [hs[m]];
      LiveOutsLast(me, s, hs[..m], hs[m], mine);
    }
  }

  lemma {:induction false} LiveOutsSome(me: Party, s: StatCom, hs: seq<HTLC>, mine: bool)
    ensures LiveOuts(me, s, hs, mine) != multiset{} <==> exists h <- hs :: Live(h)
    decreases |hs|
  {
    hide LiveOuts, GenHtlcOut, Live;
    if hs == [] {
      NoLiveOuts(me, s, mine);
    } else {
      var m := |hs| - 1;
      LiveOutsSome(me, s, hs[..m], mine);
      assert hs == hs[..m] + [hs[m]];
      LiveOutsLast(me, s, hs[..m], hs[m], mine);
      if Live(hs[m]) { assert GenHtlcOut(me, s, hs[m], mine) in LiveOuts(me, s, hs, mine); }
    }
  }

  lemma NoLiveOuts(me: Party, s: StatCom, mine: bool)
    ensures LiveOuts(me, s, [], mine) == multiset{}
  {}

  lemma OptOutsProper(c: Config, me: Party, s: StatCom, o: Option<HTLC>, mine: bool)
    ensures (forall x <- OptOuts(me, s, o, mine) :: x.amt >= MIN_OUTPUT + c.fee) <==> ProperOpt(c, o)
    ensures OptOuts(me, s, o, mine) != multiset{} <==> o.Some?
  {
    if o.Some? { assert GenHtlcOut(me, s, o.value, mine) in OptOuts(me, s, o, mine); }
  }

  lemma AllOutsProper(c: Config, me: Party, s: StatCom, mine: bool)
    ensures (forall o <- AllOuts(me, s, mine) :: o.amt >= MIN_OUTPUT + c.fee) <==> ProperHtlcs(c, s)
    ensures AllOuts(me, s, mine) != multiset{} <==> SomeHtlc(s)
  {
    hide LiveOuts, OptOuts, Live, ProperHtlc, ProperOpt;
    LiveOutsProper(c, me, s, s.htlcs, mine);
    LiveOutsSome(me, s, s.htlcs, mine);
    OptOutsProper(c, me, s, s.inProg, mine);
    OptOutsProper(c, me, s, s.colliding, mine);
    var a, b, d := LiveOuts(me, s, s.htlcs, mine), OptOuts(me, s, s.inProg, mine), OptOuts(me, s, s.colliding, mine);
    assert forall o :: o in a + b + d <==> o in a || o in b || o in d;
    if a != multiset{} { var o :| o in a; assert o in a + b + d; }
    if b != multiset{} { var o :| o in b; assert o in a + b + d; }
    if d != multiset{} { var o :| o in d; assert o in a + b + d; }
  }

  /** A commitment is built exactly when the index is in range, neither party's amount makes
      dust, no HTLC in it is too small, and there is something to pay out. */
  lemma BuiltExact(c: Config, me: Party, s: StatCom, mine: bool)
    ensures BuildStateTx(c, me, s, mine).Some? <==>
      (s.stateIdx <= MAX_INDEX && ProperAmount(c, s.myAmt) && ProperAmount(c, TheirAmt(c, s)) && ProperHtlcs(c, s)
       && (s.myAmt > c.fee || TheirAmt(c, s) > c.fee || SomeHtlc(s)))
  {
    hide AllOuts, TheirAmt, ProperHtlcs, SomeHtlc;
    AllOutsProper(c, me, s, mine);
  }

  // --------------------------------------------------------------- lock times

  /** A lock time is compared as the signed number with the same 32 bits. */
  lemma SignedReading(x: nat)
    ensures -0x8000_0000 <= AsInt32(x) < 0x8000_0000
    ensures (x - AsInt32(x)) % 0x1_0000_0000 == 0
    ensures x < 0x8000_0000 ==> AsInt32(x) == x
  {
    var q := x / 0x1_0000_0000;
    var low := x % 0x1_0000_0000;
    assert x == q * 0x1_0000_0000 + low;
    Multiple(q);
    Multiple(q + 1);
  }

  lemma Multiple(q: nat)
    ensures (q * 0x1_0000_0000) % 0x1_0000_0000 == 0
  {}
}
