/** Where the code does not keep its promise, and exactly when it does. */
module ChannelLimits {
  import opened Wrappers
  import opened ElkremRange
  import opened ChannelState
  import opened ChannelSteps
  import opened ChannelLedger
  import opened ChannelModes
  import opened ChannelHonest
  import opened ChannelCollisions
  import opened ChannelRuns

  // ------------------------------------------------ shares in a collision

  /** What a record in the gap makes of this node's amount two states on. */
  function ShareOf(s: StatCom): int {
    s.myAmt + s.delta - OutgoingCost(s.inProg) - OutgoingCost(s.colliding) + ClearingGain(s.htlcs)
  }

  /** What is left for both amounts once the HTLCs in a record are taken off. */
  function RestOf(c: Config, s: StatCom): int {
    c.value - OptAmt(s.inProg) - OptAmt(s.colliding) - LiveSum(s.htlcs)
  }

  /** A GapSigRev signs the share that the sender's record gives it. */
  lemma SignedShares(c: Config, p: Party, s: StatCom)
    ensures var m := SendGapSigRev(c, p, s);
      m.Some? ==> (m.value.GapSigRev?
        && m.value.sig.tx.otherOut == NetOut(c, ShareOf(s))
        && m.value.sig.tx.holderOut == NetOut(c, RestOf(c, s) - ShareOf(s)))
  {
    hide AllOuts, LiveSum, ClearingGain, OutgoingCost, NetOut, AmountsOk;
  }

  /** It is accepted only if it gives the receiver the share of its own record. */
  lemma AcceptedShares(c: Config, q: Party, s: StatCom, m: Msg, height: int)
    requires m.GapSigRev? && Receive(c, Holding(q, s, false), m, height).ok
    ensures m.sig.tx.holderOut == NetOut(c, ShareOf(s)) && m.sig.tx.otherOut == NetOut(c, RestOf(c, s) - ShareOf(s))
  {
    hide VerifySig, AllOuts, LiveSum, ClearingGain, OutgoingCost, NetOut, AmountsOk, GapAccepted, SendRev, InCollision;
    var t := GapTarget(AdvanceElkrem(s, m.elk, m.n2Point).value);
    VerifiedShares(c, q, t.(elkPoint := t.nextElkPoint), m.sig);
  }

  lemma VerifiedShares(c: Config, q: Party, t: StatCom, sig: Sig)
    requires VerifySig(c, q, t, sig)
    ensures sig.tx.holderOut == NetOut(c, t.myAmt) && sig.tx.otherOut == NetOut(c, TheirAmt(c, t))
  {
    hide AllOuts, TheirAmt, NetOut, AmountsOk;
  }

  /** The share of p: both operations' effects on it, what the peer's clear pays it
      counted twice, and its own clear lost if the peer cleared the same HTLC. */
  function Share(l: Ledger, p: Party, mine: Op, theirs: Op): int {
    Amt(l, p) + Effect(l, Peer(p), theirs, p) + ForeignGain(l, p, theirs)
    + if Compatible(mine, theirs) then Effect(l, p, mine, p) else 0
  }

  /** What is left for both once each HTLC that is cleared is counted once. */
  function Remainder(l: Ledger, mine: Op, theirs: Op): int {
    l.alice + l.bob - LockedBy(l.entries, mine) - if Compatible(mine, theirs) then LockedBy(l.entries, theirs) else 0
  }

  lemma GapGain(c: Config, p: Party, l: Ledger, mine: Op, theirs: Op, height: int)
    requires CrossingValid(c, l, p, mine, theirs, height)
    ensures ClearingGain(Mark(Mark(View(p, l.entries), mine), theirs))
         == ForeignGain(l, p, theirs) + if mine.Clear? && Compatible(mine, theirs) then Effect(l, p, mine, p) else 0
  {
    var hs := Mark(View(p, l.entries), mine);
    GainOfMark(p, l, p, mine, height, c);
    if theirs.Clear? {
      ClearingGainUpdate(hs, theirs.idx, hs[theirs.idx].(clearing := true, preimage := theirs.preimage));
    }
  }

  lemma GapShare(c: Config, p: Party, l: Ledger, mine: Op, theirs: Op, height: int)
    requires CrossingValid(c, l, p, mine, theirs, height)
    ensures ShareOf(Gap(c, p, l, mine, theirs)) == Share(l, p, mine, theirs)
  {
    hide ClearingGain, CommitOf, View, Mark;
    GapGain(c, p, l, mine, theirs, height);
  }

  lemma LiveSumUpdate(hs: seq<HTLC>, i: nat, h: HTLC)
    requires i < |hs|
    ensures LiveSum(hs[i := h]) == LiveSum(hs) - (if Live(hs[i]) then hs[i].amt else 0) + (if Live(h) then h.amt else 0)
  {
    var n := |hs| - 1;
    if i == n {
      assert hs[i := h][..n] == hs[..n];
    } else {
      LiveSumUpdate(hs[..n], i, h);
      assert hs[i := h][..n] == hs[..n][i := h];
    }
  }

  lemma LiveSumMark(hs: seq<HTLC>, op: Op)
    ensures LiveSum(Mark(hs, op))
         == LiveSum(hs) - if op.Clear? && op.idx < |hs| && Live(hs[op.idx]) then hs[op.idx].amt else 0
  {
    if op.Clear? && op.idx < |hs| {
      LiveSumUpdate(hs, op.idx, hs[op.idx].(clearing := true, preimage := op.preimage));
    }
  }

  lemma GapRemainder(c: Config, p: Party, l: Ledger, mine: Op, theirs: Op, height: int)
    requires CrossingValid(c, l, p, mine, theirs, height)
    ensures RestOf(c, Gap(c, p, l, mine, theirs)) == Remainder(l, mine, theirs)
  {
    hide CommitOf, LiveSum, OpenSum;
    var hs := View(p, l.entries);
    LiveSumShows(p, hs, l.entries);
    LiveSumMark(hs, mine);
    LiveSumMark(Mark(hs, mine), theirs);
  }

  /** The two shares add up exactly when no clear pays the other party and no HTLC is
      cleared twice.  Otherwise one side's outputs differ between the two records. */
  lemma SharesClash(c: Config, p: Party, l: Ledger, mine: Op, theirs: Op, height: int)
    requires CrossingValid(c, l, p, mine, theirs, height)
    requires !(Gainful(l, p, mine) && Gainful(l, Peer(p), theirs) && Compatible(mine, theirs))
    ensures var x := Share(l, p, mine, theirs); var y := Share(l, Peer(p), theirs, mine);
      var total := Remainder(l, mine, theirs);
      NetOut(c, x) != NetOut(c, total - y) || NetOut(c, total - x) != NetOut(c, y)
  {
    if mine.Clear? { assert l.entries[mine.idx] in l.entries; }
    if theirs.Clear? { assert l.entries[theirs.idx] in l.entries; }
  }

  lemma RemainderSymmetric(l: Ledger, mine: Op, theirs: Op)
    ensures Remainder(l, mine, theirs) == Remainder(l, theirs, mine)
  {}

  // --------------------------------------------------- exact conditions

  /** In a collision of any two valid operations p's GapSigRev is made and accepted
      exactly when each HTLC being cleared pays the party that clears it and they are
      not clearing the same one. */
  lemma GapAnswerExact(c: Config, p: Party, l: Ledger, mine: Op, theirs: Op, height: int)
    requires CrossingValid(c, l, p, mine, theirs, height) && DistinctBases(c)
    ensures var m := SendGapSigRev(c, p, Gap(c, p, l, mine, theirs));
      (m.Some? && Receive(c, Holding(Peer(p), Gap(c, Peer(p), l, theirs, mine), false), m.value, height).ok)
        <==> (Gainful(l, p, mine) && Gainful(l, Peer(p), theirs) && Compatible(mine, theirs))
  {
    hide Receive, Gap, GapAnswer, SendGapSigRev, CrossingValid, Gainful, ShareOf, RestOf, Share, Remainder, NetOut, ApplyBoth;
    var q := Peer(p);
    if Gainful(l, p, mine) && Gainful(l, q, theirs) && Compatible(mine, theirs) {
      SwapValid(c, p, l, mine, theirs, height);
      GapAnswers(c, p, l, mine, theirs, height);
      LeavesGap(c, q, l, theirs, mine, height);
    } else {
      WrongGapAnswer(c, p, l, mine, theirs, height);
    }
  }

  lemma WrongGapAnswer(c: Config, p: Party, l: Ledger, mine: Op, theirs: Op, height: int)
    requires CrossingValid(c, l, p, mine, theirs, height)
    requires !(Gainful(l, p, mine) && Gainful(l, Peer(p), theirs) && Compatible(mine, theirs))
    ensures var m := SendGapSigRev(c, p, Gap(c, p, l, mine, theirs));
      m.Some? ==> !Receive(c, Holding(Peer(p), Gap(c, Peer(p), l, theirs, mine), false), m.value, height).ok
  {
    hide Receive, Gap, SendGapSigRev, Gainful, ShareOf, RestOf, Share, Remainder, NetOut;
    var q := Peer(p);
    var m := SendGapSigRev(c, p, Gap(c, p, l, mine, theirs));
    SwapCrossing(c, p, l, mine, theirs, height);
    SharesClash(c, p, l, mine, theirs, height);
    RemainderSymmetric(l, mine, theirs);
    GapShare(c, p, l, mine, theirs, height);
    GapShare(c, q, l, theirs, mine, height);
    GapRemainder(c, p, l, mine, theirs, height);
    GapRemainder(c, q, l, theirs, mine, height);
    SignedShares(c, p, Gap(c, p, l, mine, theirs));
    if m.Some? && Receive(c, Holding(q, Gap(c, q, l, theirs, mine), false), m.value, height).ok {
      AcceptedShares(c, q, Gap(c, q, l, theirs, mine), m.value, height);
    }
  }

  lemma SwapCrossing(c: Config, p: Party, l: Ledger, mine: Op, theirs: Op, height: int)
    requires CrossingValid(c, l, p, mine, theirs, height)
    ensures CrossingValid(c, l, Peer(p), theirs, mine, height) && p == Peer(Peer(p))
    ensures Compatible(mine, theirs) == Compatible(theirs, mine)
  {}

  lemma SwapValid(c: Config, p: Party, l: Ledger, mine: Op, theirs: Op, height: int)
    requires BothValid(c, l, p, mine, theirs, height) && DistinctBases(c)
    ensures BothValid(c, l, Peer(p), theirs, mine, height) && p == Peer(Peer(p))
    ensures ApplyBoth(c, l, p, mine, theirs) == ApplyBoth(c, l, Peer(p), theirs, mine)
  {
    ApplyBothSymmetric(c, l, p, mine, theirs);
  }

  /** The six deliveries of a collision: both opening messages, both answers, and both
      revocations. */
  datatype Exchange = Exchange(openedP: Res, openedQ: Res, closedP: Res, closedQ: Res, endP: Res, endQ: Res)

  function Only(r: Res): Option<Msg> {
    if |r.out| == 1 then Some(r.out[0]) else None
  }

  /** Deliver a message if there is one. */
  function Delivered(c: Config, n: Node, m: Option<Msg>, height: int): Res {
    if m.None? then Refused(n) else Receive(c, n, m.value, height)
  }

  function Collide(c: Config, p: Party, l: Ledger, mine: Op, theirs: Op, height: int): Exchange {
    var q := Peer(p);
    var openedP := Receive(c, Holding(p, Sent(c, p, l, mine), false), Opening(c, q, l, theirs), height);
    var openedQ := Receive(c, Holding(q, Sent(c, q, l, theirs), false), Opening(c, p, l, mine), height);
    var closedP := Delivered(c, openedP.node, Only(openedQ), height);
    var closedQ := Delivered(c, openedQ.node, Only(openedP), height);
    Exchange(openedP, openedQ, closedP, closedQ,
             Delivered(c, closedP.node, Only(closedQ), height), Delivered(c, closedQ.node, Only(closedP), height))
  }

  predicate GoesThrough(x: Exchange) {
    x.openedP.ok && x.openedQ.ok && x.closedP.ok && x.closedQ.ok && x.endP.ok && x.endQ.ok
  }

  /** Any two valid operations that cross go through exactly when each HTLC being cleared
      pays the party that clears it and the two do not clear the same HTLC.  Then both
      parties are at rest with both operations applied. */
  lemma CollisionExact(c: Config, p: Party, l: Ledger, mine: Op, theirs: Op, height: int)
    requires CrossingValid(c, l, p, mine, theirs, height) && DistinctBases(c)
    ensures GoesThrough(Collide(c, p, l, mine, theirs, height))
       <==> (Gainful(l, p, mine) && Gainful(l, Peer(p), theirs) && Compatible(mine, theirs))
    ensures GoesThrough(Collide(c, p, l, mine, theirs, height)) ==>
      var x := Collide(c, p, l, mine, theirs, height); var both := ApplyBoth(c, l, p, mine, theirs);
      && x.endP.node == Holding(p, Rest(c, p, both), true)
      && x.endQ.node == Holding(Peer(p), Rest(c, Peer(p), both), true)
  {
    hide Receive, Gap, Sent, Opening, GapAnswer, SendGapSigRev, CrossingValid, Gainful, Fin, Closing, Rest, ApplyBoth, Crossing;
    var q := Peer(p);
    SwapCrossing(c, p, l, mine, theirs, height);
    EntersGap(c, p, l, mine, theirs, height);
    EntersGap(c, q, l, theirs, mine, height);
    GapAnswerExact(c, p, l, mine, theirs, height);
    if Gainful(l, p, mine) && Gainful(l, q, theirs) && Compatible(mine, theirs) {
      SwapValid(c, p, l, mine, theirs, height);
      BothParts(c, l, p, mine, theirs);
      GapAnswers(c, p, l, mine, theirs, height);
      GapAnswers(c, q, l, theirs, mine, height);
      LeavesGap(c, p, l, mine, theirs, height);
      LeavesGap(c, q, l, theirs, mine, height);
      SettlesBoth(c, p, l, mine, theirs, height);
      SettlesBoth(c, q, l, theirs, mine, height);
    }
  }

  /** The race for one HTLC: its offerer times it out while its receiver presents the
      preimage.  Each is paid by its own account, and still the channel fails. */
  lemma RaceFails(c: Config, p: Party, l: Ledger, idx: nat, preimage: nat, height: int)
    requires CrossingValid(c, l, p, Clear(idx, 0), Clear(idx, preimage), height) && DistinctBases(c)
    requires l.entries[idx].offerer == p && preimage != 0
    ensures Gainful(l, p, Clear(idx, 0)) && Gainful(l, Peer(p), Clear(idx, preimage))
    ensures !GoesThrough(Collide(c, p, l, Clear(idx, 0), Clear(idx, preimage), height))
  {
    hide Collide, GoesThrough, ValidLedger;
    CollisionExact(c, p, l, Clear(idx, 0), Clear(idx, preimage), height);
  }

  /** Such a race can happen. */
  lemma RaceExample(c: Config)
    requires c.value == 1000000 && c.fee == 10
    ensures var l := Ledger(3, 300000, 400000, [Entry(Alice, 300000, Sha(7), 100, false, 0)]);
      CrossingValid(c, l, Alice, Clear(0, 0), Clear(0, 7), 100)
  {
    var e := Entry(Alice, 300000, Sha(7), 100, false, 0);
    assert [e][..0] == [];
    assert OpenSum([e]) == OpenSum([]) + 300000;
  }

  // ------------------------------------------------ lone operations, exactly

  /** An operation from rest goes through: it is sent and the peer accepts it. */
  predicate Accepted(c: Config, q: Party, l: Ledger, r: Res, height: int) {
    r.ok && |r.out| == 1 && Receive(c, Holding(q, Rest(c, q, l), true), r.out[0], height).ok
  }

  /** A push from rest goes through exactly when the pusher can pay it and both sides
      keep a sufficient output.  PushChannel does not decide this; its peer does. */
  lemma PushExact(c: Config, p: Party, l: Ledger, amt: int, height: int)
    requires ValidLedger(c, l) && l.idx + 4 <= MAX_INDEX
    ensures Accepted(c, Peer(p), l, PushChannel(c, Holding(p, Rest(c, p, l), true), amt), height)
       <==> (0 < amt < MAX_SEND && Amt(l, p) - amt >= MIN_OUTPUT + c.fee && Amt(l, Peer(p)) + amt >= MIN_OUTPUT + c.fee)
  {
    hide SignState, VerifySig, CommitOf, View, Apply;
    var q := Peer(p);
    var op := Push(amt);
    if 0 < amt < MAX_SEND && Amt(l, p) - amt >= MIN_OUTPUT + c.fee && Amt(l, q) + amt >= MIN_OUTPUT + c.fee {
      StartsPush(c, p, l, op, height);
      AcceptsPush(c, q, l, op, height);
    } else {
      BalancesView(c, q, Rest(c, q, l).(delta := amt), l, op);
    }
  }

  /** What PushChannel itself refuses: it takes the fee off its amount and adds the push, so
      a push is refused for being too small, but never for being too large to pay. */
  lemma PushRefused(c: Config, p: Party, l: Ledger, amt: int)
    requires ValidLedger(c, l)
    ensures var n := Holding(p, Rest(c, p, l), true);
      (PushChannel(c, n, amt) == Res(n, [], false, None))
      <==> (amt <= 0 || amt >= MAX_SEND || Amt(l, p) - c.fee + amt < MIN_OUTPUT || Amt(l, Peer(p)) + amt - c.fee < MIN_OUTPUT)
  {
    hide SendDeltaSig, CommitOf, View;
    BalancesView(c, p, Rest(c, p, l), l, Push(amt));
  }

  /** PushChannel adds the amount to the pusher's balance instead of taking it off,
      so it sends a push of more than the pusher has, and the peer fails the channel. */
  lemma OverdrawnPush(c: Config, p: Party, l: Ledger, amt: int, height: int)
    requires ValidLedger(c, l) && l.idx + 4 <= MAX_INDEX
    requires Amt(l, p) >= MIN_OUTPUT + c.fee && Amt(l, p) <= amt < MAX_SEND
    ensures var q := Peer(p);
      var r := PushChannel(c, Holding(p, Rest(c, p, l), true), amt);
      r.ok && |r.out| == 1 && Receive(c, Holding(q, Rest(c, q, l), true), r.out[0], height).node.disk.failed
  {
    hide SignState, VerifySig, CommitOf, View, Apply;
    var q := Peer(p);
    var op := Push(amt);
    BalancesView(c, p, Rest(c, p, l), l, op);
    BalancesView(c, q, Rest(c, q, l).(delta := amt), l, op);
    OverdrawnSigned(c, p, l, amt);
  }

  /** The commitment for such a push leaves out the pusher and can be signed. */
  lemma OverdrawnSigned(c: Config, p: Party, l: Ledger, amt: int)
    requires ValidLedger(c, l) && l.idx + 4 <= MAX_INDEX && Amt(l, p) >= MIN_OUTPUT + c.fee && Amt(l, p) <= amt
    ensures SendDeltaSig(c, p, Sent(c, p, l, Push(amt))).Some?
  {
    hide CommitOf, View, AllOuts, EntryOuts, OpenSum, Depicts, LiveSum;
    var s := Sent(c, p, l, Push(amt));
    var t := s.(stateIdx := s.stateIdx + 1, myAmt := s.myAmt + s.delta,
                elkPoint := s.nextElkPoint, nextElkPoint := s.n2ElkPoint);
    var after := Apply(l, p, Push(amt));
    PushDepicts(c, p, l, amt, t);
    OutsDepict(p, t, after, false);
    EntryOutsBound(c, Peer(p), after.idx, after.entries);
    assert TheirAmt(c, t) == Amt(after, Peer(p));
  }

  lemma PushDepicts(c: Config, p: Party, l: Ledger, amt: int, t: StatCom)
    requires t == Sent(c, p, l, Push(amt)).(stateIdx := l.idx + 1, myAmt := Amt(l, p) - amt,
                                            elkPoint := Pt(Peer(p), l.idx + 1), nextElkPoint := Pt(Peer(p), l.idx + 2))
    ensures Depicts(p, t, Apply(l, p, Push(amt)))
  {
    MarkedShows(p, l.entries, p, Push(amt));
  }

  /** An offer from rest goes through exactly when the amount makes an output of its own
      and leaves one for the party that offers it. */
  lemma OfferExact(c: Config, p: Party, l: Ledger, amt: nat, rhash: Digest, locktime: nat, height: int)
    requires ValidLedger(c, l) && l.idx + 4 <= MAX_INDEX
    ensures Accepted(c, Peer(p), l, OfferHTLC(c, Holding(p, Rest(c, p, l), true), amt, rhash, locktime), height)
       <==> (MIN_OUTPUT + c.fee <= amt < MAX_SEND && Amt(l, p) - amt >= MIN_OUTPUT + c.fee)
  {
    hide SignState, VerifySig, CommitOf, View, Apply, SendHashSig;
    var op := Offer(amt, rhash, locktime);
    if MIN_OUTPUT + c.fee <= amt < MAX_SEND && Amt(l, p) - amt >= MIN_OUTPUT + c.fee {
      StartsOffer(c, p, l, op, height);
      AcceptsOffer(c, Peer(p), l, op, height);
    } else {
      BalancesView(c, p, Rest(c, p, l), l, op);
      if amt < MIN_OUTPUT + c.fee { SmallUnsigned(c, p, Sent(c, p, l, op)); }
    }
  }

  /** OfferHTLC does not look at the size of the amount by itself: an offer too small
      for an output fails the channel of the party that makes it. */
  lemma SmallOffer(c: Config, p: Party, l: Ledger, amt: nat, rhash: Digest, locktime: nat)
    requires ValidLedger(c, l) && 0 < amt < MIN_OUTPUT + c.fee && amt < MAX_SEND
    requires Amt(l, p) - amt >= MIN_OUTPUT + c.fee
    ensures var r := OfferHTLC(c, Holding(p, Rest(c, p, l), true), amt, rhash, locktime);
      !r.ok && r.out == [] && r.node.disk.failed
  {
    hide SignState, CommitOf, View, Apply, SendHashSig;
    var op := Offer(amt, rhash, locktime);
    BalancesView(c, p, Rest(c, p, l), l, op);
    SmallUnsigned(c, p, Sent(c, p, l, op));
  }

  lemma SmallUnsigned(c: Config, p: Party, s: StatCom)
    requires s.inProg.Some? && Live(s.inProg.value) && s.inProg.value.amt < MIN_OUTPUT + c.fee
    ensures SendHashSig(c, p, s).None?
  {
    hide LiveOuts, LiveSum;
  }

  /** A clear from rest goes through exactly when the HTLC is there and open, and its
      preimage fits or, for a timeout, its locktime has passed for both nodes. */
  lemma ClearExact(c: Config, p: Party, l: Ledger, idx: nat, preimage: nat, height: int, peerHeight: int)
    requires ValidLedger(c, l) && l.idx + 4 <= MAX_INDEX
    ensures Accepted(c, Peer(p), l, ClearHTLC(c, Holding(p, Rest(c, p, l), true), idx, preimage, height), peerHeight)
       <==> (ValidOp(c, l, p, Clear(idx, preimage), height) && ValidOp(c, l, p, Clear(idx, preimage), peerHeight))
  {
    hide SignState, VerifySig, CommitOf, Apply, Sent, Opening, Got, Answer, Receive;
    var op := Clear(idx, preimage);
    if ValidOp(c, l, p, op, height) {
      StartsClear(c, p, l, op, height);
      if ValidOp(c, l, p, op, peerHeight) {
        AcceptsClear(c, Peer(p), l, op, peerHeight);
      } else {
        EarlyClear(c, p, l, idx, preimage, height, peerHeight);
      }
    }
  }

  /** A timeout that only one node has reached is refused by the other, which keeps
      its record but gives up its clear-to-send token, and sends nothing back. */
  lemma EarlyClear(c: Config, p: Party, l: Ledger, idx: nat, preimage: nat, height: int, peerHeight: int)
    requires ValidLedger(c, l) && l.idx + 4 <= MAX_INDEX
    requires var op := Clear(idx, preimage); ValidOp(c, l, p, op, height) && !ValidOp(c, l, p, op, peerHeight)
    ensures preimage == 0 && peerHeight < AsInt32(l.entries[idx].locktime) <= height
    ensures var q := Peer(p);
      var r := ClearHTLC(c, Holding(p, Rest(c, p, l), true), idx, preimage, height);
      && r.ok && |r.out| == 1 && !r.node.cts
      && Receive(c, Holding(q, Rest(c, q, l), true), r.out[0], peerHeight) == Refused(Holding(q, Rest(c, q, l), false))
  {
    hide SignState, VerifySig, CommitOf, Apply, Sent;
    StartsClear(c, p, l, Clear(idx, preimage), height);
  }
}
