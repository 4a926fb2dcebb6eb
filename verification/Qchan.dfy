/** The channel object of qln/lnchannels.go with the methods that update it in
    place (qln/pushpull.go, qln/htlc.go, qln/signtx.go, qln/break.go).  Every
    handler is proved to compute the step of the same name in ChannelSteps. */
module Qchan {
  import opened Wrappers
  import opened ElkremRange
  import opened ChannelState
  import opened ChannelSteps
  import opened ChannelIndices

  lemma InOrder(s: StatCom)
    requires Indexed(s)
    ensures forall i :: 0 <= i < |s.htlcs| ==> s.htlcs[i].idx == i
  {}

  lemma RevKeepsIndex(s: StatCom, elk: Elk, n2Point: Point, n2Base: HtlcBase)
    ensures var a := AdvanceElkrem(s, elk, n2Point);
      a.Some? ==> RevAccepted(a.value, n2Base).stateIdx == s.stateIdx && RevAccepted(a.value, n2Base).failed == s.failed
  {}

  function Pasts(p: Option<Past>): seq<Past> {
    if p.Some? then [p.value] else []
  }

  lemma GainStep(hs: seq<HTLC>, i: nat)
    requires i < |hs|
    ensures ClearingGain(hs[..i + 1]) ==
            ClearingGain(hs[..i]) + if hs[i].clearing && !hs[i].cleared && Gains(hs[i]) then hs[i].amt else 0
    ensures LiveSum(hs[..i + 1]) == LiveSum(hs[..i]) + if Live(hs[i]) then hs[i].amt else 0
    ensures UnclearedSum(hs[..i + 1]) == UnclearedSum(hs[..i]) + if !hs[i].cleared then hs[i].amt else 0
  {
    assert hs[..i + 1][..i] == hs[..i];
  }

  lemma OutsStep(me: Party, s: StatCom, hs: seq<HTLC>, mine: bool, i: nat)
    requires i < |hs|
    ensures LiveOuts(me, s, hs[..i + 1], mine) ==
            LiveOuts(me, s, hs[..i], mine) + if Live(hs[i]) then multiset{GenHtlcOut(me, s, hs[i], mine)} else multiset{}
  {
    assert hs[..i + 1][..i] == hs[..i];
  }

  lemma NoOuts(me: Party, s: StatCom, mine: bool)
    ensures LiveOuts(me, s, s.htlcs[..0], mine) == multiset{}
  {}

  lemma NoneOrSome(outs: seq<HtlcOut>)
    ensures |outs| == 0 <==> multiset(outs) == multiset{}
  {
    assert |outs| > 0 ==> outs[0] in multiset(outs);
  }

  class Qchan {
    const c: Config
    const me: Party
    /** The record in RAM, the record on disk, and the clear-to-send token. */
    var state: StatCom
    var disk: StatCom
    var clearToSend: bool
    var closed: bool
    /** Messages handed to the network, states handed to BuildJusticeSig, and the
        commitment put on chain with its countersignature. */
    var outbox: seq<Msg>
    var justice: seq<Past>
    var broadcast: Option<(Commit, Sig)>

    ghost predicate Valid()
      reads this
    {
      Indexed(disk) && state.failed == disk.failed
    }

    ghost function AsNode(): Node
      reads this
    {
      Node(me, disk, clearToSend, closed)
    }

    /** The channel is where step r leaves it, given what was sent and stashed before. */
    ghost predicate Did(r: Res, ok: bool, sent: seq<Msg>, stash: seq<Past>)
      reads this
    {
      AsNode() == r.node && ok == r.ok && outbox == sent + r.out && justice == stash + Pasts(r.justice)
    }

    constructor (c: Config, me: Party, s: StatCom)
      requires Indexed(s)
      ensures Valid() && AsNode() == Node(me, s, true, false) && outbox == [] && justice == []
      ensures this.c == c
    {
      this.c, this.me, state, disk, clearToSend, closed := c, me, s, s, true, false;
      outbox, justice, broadcast := [], [], None;
    }

    // ------------------------------------------------------ saving and loading

    method ReloadQchanState()
      modifies `state
      ensures state == disk
    {
      state := disk;
    }

    method SaveQchanState()
      modifies `disk
      ensures disk == state
    {
      disk := state;
    }

    method FailChannel()
      modifies `state, `disk
      ensures disk == state
      ensures Did(Failed(old(AsNode())), false, old(outbox), old(justice))
    {
      ReloadQchanState();
      state := state.(failed := true);
      SaveQchanState();
    }

    // ------------------------------------------------- balances and commitments

    method GetChannelBalances() returns (myAmt: int, theirAmt: int)
      ensures (myAmt, theirAmt) == Balances(c, state)
    {
      var value := c.value;
      for i := 0 to |state.htlcs|
        invariant value == c.value - UnclearedSum(state.htlcs[..i])
      {
        GainStep(state.htlcs, i);
        if !state.htlcs[i].cleared {
          value := value - state.htlcs[i].amt;
        }
      }
      assert state.htlcs[..|state.htlcs|] == state.htlcs;
      myAmt := state.myAmt;
      theirAmt := value - myAmt;
    }

    method LiveHtlcTotal() returns (total: int)
      ensures total == LiveSum(state.htlcs)
    {
      total := 0;
      for i := 0 to |state.htlcs|
        invariant total == LiveSum(state.htlcs[..i])
      {
        GainStep(state.htlcs, i);
        if !state.htlcs[i].cleared && !state.htlcs[i].clearing {
          total := total + state.htlcs[i].amt;
        }
      }
      assert state.htlcs[..|state.htlcs|] == state.htlcs;
    }

    method GenLiveOuts(mine: bool) returns (outs: seq<HtlcOut>)
      ensures multiset(outs) == LiveOuts(me, state, state.htlcs, mine)
    {
      hide GenHtlcOut, LiveOuts;
      outs := [];
      NoOuts(me, state, mine);
      for i := 0 to |state.htlcs|
        invariant multiset(outs) == LiveOuts(me, state, state.htlcs[..i], mine)
      {
        OutsStep(me, state, state.htlcs, mine, i);
        if !state.htlcs[i].clearing && !state.htlcs[i].cleared {
          outs := outs + [GenHtlcOut(me, state, state.htlcs[i], mine)];
        }
      }
      assert state.htlcs[..|state.htlcs|] == state.htlcs;
    }

    method GenHtlcOuts(mine: bool) returns (outs: seq<HtlcOut>)
      ensures multiset(outs) == AllOuts(me, state, mine)
    {
      hide GenHtlcOut, LiveOuts;
      outs := GenLiveOuts(mine);
      if state.inProg.Some? {
        outs := outs + [GenHtlcOut(me, state, state.inProg.value, mine)];
      }
      if state.colliding.Some? {
        outs := outs + [GenHtlcOut(me, state, state.colliding.value, mine)];
      }
    }

    method HtlcTooLow(outs: seq<HtlcOut>) returns (low: bool)
      ensures low <==> exists o <- multiset(outs) :: o.amt - c.fee < MIN_OUTPUT
    {
      low := false;
      for j := 0 to |outs|
        invariant !low
        invariant forall k :: 0 <= k < j ==> outs[k].amt - c.fee >= MIN_OUTPUT
      {
        if outs[j].amt - c.fee < MIN_OUTPUT {
          assert outs[j] in multiset(outs);
          return true;
        }
      }
    }

    /** The amounts of the two parties' outputs: the holder's own, which can be
        revoked, and the other's. */
    method OutputAmounts(mine: bool) returns (fancyAmt: int, pkhAmt: int)
      ensures mine ==> fancyAmt == NetOut(c, state.myAmt) && pkhAmt == NetOut(c, TheirAmt(c, state))
      ensures !mine ==> fancyAmt == NetOut(c, TheirAmt(c, state)) && pkhAmt == NetOut(c, state.myAmt)
    {
      hide LiveSum;
      var value := c.value;
      if state.inProg.Some? {
        value := value - state.inProg.value.amt;
      }
      if state.colliding.Some? {
        value := value - state.colliding.value.amt;
      }
      var total := LiveHtlcTotal();
      value := value - total;
      var theirAmt := value - state.myAmt;
      fancyAmt, pkhAmt := 0, 0;
      if mine {
        if theirAmt > 0 { pkhAmt := theirAmt - c.fee; }
        if state.myAmt > 0 { fancyAmt := state.myAmt - c.fee; }
      } else {
        if theirAmt > 0 { fancyAmt := theirAmt - c.fee; }
        if state.myAmt > 0 { pkhAmt := state.myAmt - c.fee; }
      }
    }

    /** BuildStateTxs, as far as the commitment itself. */
    method BuildStateTxs(mine: bool) returns (tx: Option<Commit>)
      ensures tx == BuildStateTx(c, me, state, mine)
    {
      hide NetOut, TheirAmt, AllOuts;
      if state.stateIdx > MAX_INDEX {
        return None;
      }
      var fancyAmt, pkhAmt := OutputAmounts(mine);
      if fancyAmt != 0 && fancyAmt < MIN_OUTPUT {
        return None;
      }
      if pkhAmt != 0 && pkhAmt < MIN_OUTPUT {
        return None;
      }
      var outs := GenHtlcOuts(mine);
      NoneOrSome(outs);
      if fancyAmt == 0 && pkhAmt == 0 && |outs| == 0 {
        return None;
      }
      var low := HtlcTooLow(outs);
      if low {
        return None;
      }
      var holder := if mine then me else Peer(me);
      var point := if mine then PointOf(Elk(me, state.stateIdx)) else state.elkPoint;
      tx := Some(Commit(holder, state.stateIdx, point, fancyAmt, pkhAmt, multiset(outs)));
    }

    method SignState() returns (sig: Option<Sig>)
      ensures sig == ChannelState.SignState(c, me, state)
    {
      var tx := BuildStateTxs(false);
      sig := if tx.None? then None else Some(Sig(me, tx.value));
    }

    /** Check the counterparty's signature on my commitment, and keep it if it fits. */
    method VerifySigs(sig: Sig) returns (ok: bool)
      modifies `state
      ensures ok == VerifySig(c, me, old(state), sig)
      ensures state == if ok then old(state).(sig := sig) else old(state)
    {
      var tx := BuildStateTxs(true);
      if tx.None? || sig != Sig(Peer(me), tx.value) {
        return false;
      }
      state := state.(sig := sig);
      ok := true;
    }

    method AdvanceElkrem(elk: Elk, n2: Point) returns (ok: bool)
      modifies `state
      ensures var a := ChannelState.AdvanceElkrem(old(state), elk, n2);
        ok == a.Some? && state == if ok then a.value else old(state)
    {
      if state.stateIdx != 0 && PointOf(elk) != state.elkPoint {
        return false;
      }
      state := state.(elkPoint := state.nextElkPoint);
      state := state.(nextElkPoint := state.n2ElkPoint);
      state := state.(n2ElkPoint := n2);
      ok := true;
    }

    // ---------------------------------------------------- loops over the HTLCs

    method ClearingIdxs() returns (idxs: seq<nat>)
      requires forall i :: 0 <= i < |state.htlcs| ==> state.htlcs[i].idx == i
      ensures forall k :: k in idxs <==> 0 <= k < |state.htlcs| && state.htlcs[k].clearing
      ensures |idxs| > 0 <==> AnyClearing(state.htlcs)
    {
      idxs := [];
      for i := 0 to |state.htlcs|
        invariant forall k :: k in idxs <==> 0 <= k < i && state.htlcs[k].clearing
      {
        if state.htlcs[i].clearing {
          idxs := idxs + [state.htlcs[i].idx];
        }
      }
      if |idxs| > 0 {
        assert idxs[0] in idxs;
        assert state.htlcs[idxs[0]] in state.htlcs;
      }
    }

    method SetClearing(idxs: seq<nat>, clearing: bool)
      requires forall k <- idxs :: k < |state.htlcs|
      modifies `state
      ensures |state.htlcs| == |old(state.htlcs)| && state == old(state).(htlcs := state.htlcs)
      ensures forall k :: 0 <= k < |state.htlcs| ==>
        state.htlcs[k] == if k in idxs then old(state.htlcs)[k].(clearing := clearing) else old(state.htlcs)[k]
    {
      for j := 0 to |idxs|
        invariant |state.htlcs| == |old(state.htlcs)| && state == old(state).(htlcs := state.htlcs)
        invariant forall k :: 0 <= k < |state.htlcs| ==>
          state.htlcs[k] == if k in idxs[..j] then old(state.htlcs)[k].(clearing := clearing) else old(state.htlcs)[k]
      {
        var k := idxs[j];
        assert k in idxs;
        assert idxs[..j + 1] == idxs[..j] + [k];
        state := state.(htlcs := state.htlcs[k := state.htlcs[k].(clearing := clearing)]);
      }
      assert idxs[..|idxs|] == idxs;
    }

    method AddClearingGain()
      modifies `state
      ensures state == old(state).(myAmt := old(state.myAmt) + ClearingGain(old(state.htlcs)))
    {
      var hs, myAmt := state.htlcs, state.myAmt;
      for i := 0 to |hs|
        invariant state == old(state) && myAmt == state.myAmt + ClearingGain(hs[..i])
      {
        GainStep(hs, i);
        if hs[i].clearing && !hs[i].cleared && hs[i].incoming != (hs[i].preimage == 0) {
          myAmt := myAmt + hs[i].amt;
        }
      }
      assert hs[..|hs|] == hs;
      state := state.(myAmt := myAmt);
    }

    method SetCleared()
      modifies `state
      ensures state == old(state).(htlcs := MarkCleared(old(state.htlcs)))
    {
      var hs := state.htlcs;
      for i := 0 to |hs|
        invariant state == old(state).(htlcs := state.htlcs) && |state.htlcs| == |hs|
        invariant forall k :: 0 <= k < i ==> state.htlcs[k] == MarkCleared(hs)[k]
        invariant forall k :: i <= k < |hs| ==> state.htlcs[k] == hs[k]
      {
        if state.htlcs[i].clearing && !state.htlcs[i].cleared {
          state := state.(htlcs := state.htlcs[i := state.htlcs[i].(cleared := true)]);
        }
      }
    }

    /** Take what an outgoing HTLC costs from my amount. */
    method PayOutgoing()
      modifies `state
      ensures state == old(state).(myAmt := old(state.myAmt) - OutgoingCost(old(state.inProg))
                                            - OutgoingCost(old(state.colliding)))
    {
      if state.inProg.Some? {
        if !state.inProg.value.incoming {
          state := state.(myAmt := state.myAmt - state.inProg.value.amt);
        }
      }
      if state.colliding.Some? {
        if !state.colliding.value.incoming {
          state := state.(myAmt := state.myAmt - state.colliding.value.amt);
        }
      }
    }

    method AdvanceMyBase(step: nat)
      modifies `state
      ensures state == ShiftMyBase(me, old(state), step)
    {
      state := state.(myNextBase := state.myN2Base);
      state := state.(myN2Base := HtlcBase(me, state.htlcIdx + step));
    }

    // ------------------------------------------------------------- sending

    /** What sending a message does: it goes out, or an error comes back; only RAM
        is edited. */
    ghost predicate Sent(msg: Option<Msg>, ok: bool, before: seq<Msg>)
      reads this
    {
      ok == msg.Some? && outbox == before + if ok then [msg.value] else []
    }

    method SendDeltaSig() returns (ok: bool)
      modifies `state, `outbox
      ensures Sent(ChannelSteps.SendDeltaSig(c, me, old(state)), ok, old(outbox)) && state.failed == old(state.failed)
    {
      hide ChannelState.SignState;
      state := state.(stateIdx := state.stateIdx + 1);
      state := state.(myAmt := state.myAmt + state.delta);
      state := state.(elkPoint := state.nextElkPoint);
      state := state.(nextElkPoint := state.n2ElkPoint);
      var sig := SignState();
      if sig.None? || state.delta == 0 {
        return false;
      }
      outbox := outbox + [DeltaSig(-state.delta, sig.value)];
      ok := true;
    }

    method SendHashSig() returns (ok: bool)
      requires state.inProg.Some?
      modifies `state, `outbox
      ensures Sent(ChannelSteps.SendHashSig(c, me, old(state)), ok, old(outbox)) && state.failed == old(state.failed)
    {
      hide ChannelState.SignState;
      state := state.(stateIdx := state.stateIdx + 1);
      state := state.(myAmt := state.myAmt - state.inProg.value.amt);
      state := state.(elkPoint := state.nextElkPoint);
      state := state.(nextElkPoint := state.n2ElkPoint);
      var sig := SignState();
      if sig.None? {
        return false;
      }
      state := state.(nextBase := state.n2Base);
      var h := state.inProg.value;
      outbox := outbox + [HashSig(h.amt, h.rhash, h.locktime, sig.value)];
      ok := true;
    }

    method SendPreimageSig(idx: nat) returns (ok: bool)
      requires idx < |state.htlcs|
      modifies `state, `outbox
      ensures Sent(ChannelSteps.SendPreimageSig(c, me, old(state), idx), ok, old(outbox)) && state.failed == old(state.failed)
    {
      hide ChannelState.SignState;
      var h := state.htlcs[idx];
      var myAmt := state.myAmt;
      if h.incoming != (h.preimage == 0) {
        myAmt := myAmt + h.amt;
      }
      state := state.(stateIdx := state.stateIdx + 1, myAmt := myAmt,
                      elkPoint := state.nextElkPoint, nextElkPoint := state.n2ElkPoint);
      var sig := SignState();
      if sig.None? {
        return false;
      }
      outbox := outbox + [PreimageSig(idx, h.preimage, sig.value)];
      ok := true;
    }

    method SendSigRev() returns (ok: bool)
      modifies `state, `outbox
      ensures Sent(ChannelSteps.SendSigRev(c, me, old(state)), ok, old(outbox)) && state.failed == old(state.failed)
    {
      hide ChannelState.SignState;
      var elk := SecretAt(me, state.stateIdx - 1);
      if elk.None? {
        return false;
      }
      state := state.(elkPoint := state.nextElkPoint);
      var sig := SignState();
      if sig.None? {
        return false;
      }
      var n2 := N2PointForThem(me, state);
      if n2.None? {
        return false;
      }
      outbox := outbox + [SigRev(sig.value, elk.value, n2.value, state.myN2Base)];
      ok := true;
    }

    method SendGapSigRev() returns (ok: bool)
      modifies `state, `outbox
      ensures Sent(ChannelSteps.SendGapSigRev(c, me, old(state)), ok, old(outbox)) && state.failed == old(state.failed)
    {
      hide ChannelState.SignState, ClearingGain, OutgoingCost;
      var elk := SecretAt(me, state.stateIdx - 1);
      if elk.None? {
        return false;
      }
      var n2 := N2PointForThem(me, state);
      if n2.None? {
        return false;
      }
      state := state.(elkPoint := state.n2ElkPoint);
      state := state.(stateIdx := state.stateIdx + 1);
      state := state.(myAmt := state.myAmt + state.delta);
      PayOutgoing();
      AddClearingGain();
      var sig := SignState();
      if sig.None? {
        return false;
      }
      outbox := outbox + [GapSigRev(sig.value, elk.value, n2.value, state.myN2Base)];
      ok := true;
    }

    method SendREV() returns (ok: bool)
      modifies `outbox
      ensures Sent(SendRev(me, state), ok, old(outbox))
    {
      var elk := SecretAt(me, state.stateIdx - 1);
      if elk.None? {
        return false;
      }
      var n2 := N2PointForThem(me, state);
      if n2.None? {
        return false;
      }
      outbox := outbox + [Rev(elk.value, n2.value, state.myN2Base)];
      ok := true;
    }

    /** Reply once the record has been saved; fail the channel if that cannot be done. */
    method Answer(gap: bool) returns (ok: bool)
      requires state == disk
      modifies `state, `disk, `outbox
      ensures state.failed == disk.failed
      ensures Did(Reply(old(AsNode()), if gap then ChannelSteps.SendGapSigRev(c, me, old(disk))
                                       else ChannelSteps.SendSigRev(c, me, old(disk))),
                  ok, old(outbox), old(justice))
    {
      hide ChannelSteps.SendGapSigRev, ChannelSteps.SendSigRev;
      if gap {
        ok := SendGapSigRev();
      } else {
        ok := SendSigRev();
      }
      if !ok {
        FailChannel();
      }
    }

    // ------------------------------------------------------------ DeltaSig

    method NoteDeltaCollision(delta: int, clearingIdxs: seq<nat>)
      requires forall k :: k in clearingIdxs <==> 0 <= k < |state.htlcs| && state.htlcs[k].clearing
      requires |clearingIdxs| > 0 <==> AnyClearing(state.htlcs)
      modifies `state
      ensures state == DeltaCollision(me, old(state), delta) && state.failed == old(state.failed)
    {
      if state.inProg.Some? {
        state := state.(inProg := None);
        state := state.(collHashDelta := true);
        AdvanceMyBase(2);
      } else if |clearingIdxs| > 0 {
        SetClearing(clearingIdxs, false);
        assert state.htlcs == Unclear(old(state.htlcs));
        state := state.(collPreimageDelta := true);
      } else {
        state := state.(collision := delta);
      }
    }

    /** Put the clearing marks back that a collision had taken off. */
    method RestoreClearing(clearingIdxs: seq<nat>, ghost before: seq<HTLC>)
      requires |before| == |state.htlcs|
      requires forall k :: k in clearingIdxs <==> 0 <= k < |before| && before[k].clearing
      modifies `state
      ensures state == old(state).(htlcs := Reclear(old(state.htlcs), before))
    {
      SetClearing(clearingIdxs, true);
      assert state.htlcs == Reclear(old(state.htlcs), before);
    }

    /** The two balance checks on an incoming push. */
    method IncomingAffordable(delta: int) returns (ok: bool)
      ensures ok == DeltaAffordable(c, state, delta)
    {
      if delta < 1 {
        return false;
      }
      var myAmt, theirAmt := GetChannelBalances();
      theirAmt := theirAmt - (delta + c.fee);
      myAmt := myAmt + (delta - c.fee);
      if theirAmt < MIN_OUTPUT {
        return false;
      }
      if myAmt < MIN_OUTPUT {
        return false;
      }
      ok := true;
    }

    /** Verify a signature with the next elkrem point in place of the current one. */
    method VerifyNext(sig: Sig) returns (ok: bool)
      modifies `state
      ensures ok == VerifySig(c, me, old(state).(elkPoint := old(state).nextElkPoint), sig)
      ensures ok ==> state == old(state).(sig := sig)
    {
      hide VerifySig;
      var stashElk := state.elkPoint;
      state := state.(elkPoint := state.nextElkPoint);
      ok := VerifySigs(sig);
      if ok {
        state := state.(elkPoint := stashElk);
      }
    }

    /** Check an incoming push against the record in RAM and save it if it is good. */
    method AcceptDelta(delta: int, sig: Sig, clearingIdxs: seq<nat>, inProg: Option<HTLC>) returns (ok: bool)
      requires |state.htlcs| == |disk.htlcs| && inProg == disk.inProg
      requires forall k :: k in clearingIdxs <==> 0 <= k < |disk.htlcs| && disk.htlcs[k].clearing
      modifies `state, `disk
      ensures var t := DeltaTarget(old(state), delta);
        && ok == (DeltaAffordable(c, old(state), delta) && VerifySig(c, me, t.(elkPoint := t.nextElkPoint), sig))
        && state == disk == if ok then DeltaAccepted(old(disk), t, sig) else old(disk).(failed := true)
    {
      hide VerifySig, Reclear, DeltaAffordable;
      ok := IncomingAffordable(delta);
      if !ok {
        FailChannel();
        return;
      }
      state := state.(stateIdx := state.stateIdx + 1, myAmt := state.myAmt + delta);
      ok := VerifyNext(sig);
      if !ok {
        FailChannel();
        return;
      }
      RestoreClearing(clearingIdxs, disk.htlcs);
      state := state.(inProg := inProg);
      SaveQchanState();
    }

    method DeltaSigHandler(delta: int, sig: Sig) returns (ok: bool)
      requires Valid()
      modifies this
      ensures Valid() && broadcast == old(broadcast)
      ensures Did(DeltaSigStep(c, old(AsNode()), delta, sig), ok, old(outbox), old(justice))
    {
      hide VerifySig, DeltaCollision, DeltaTarget, DeltaAccepted, DeltaAffordable, SendRev, AnyClearing,
           ChannelSteps.SendGapSigRev, ChannelSteps.SendSigRev, Indexed;
      DeltaSigIndexed(c, AsNode(), delta, sig);
      InOrder(disk);
      var collision := !clearToSend;
      clearToSend := false;
      ReloadQchanState();
      if closed {
        return false;
      }
      var clearingIdxs := ClearingIdxs();
      var inProg := state.inProg;
      if collision {
        NoteDeltaCollision(delta, clearingIdxs);
      }
      if state.delta > 0 {
        ok := SendREV();
        return;
      }
      if !collision || state.inProg.Some? {
        state := state.(delta := delta);
      }
      var accepted := AcceptDelta(delta, sig, clearingIdxs, inProg);
      if !accepted {
        return false;
      }
      ok := Answer(state.collision != 0 || state.collHashDelta || state.collPreimageDelta);
    }

    // ------------------------------------------------------------- HashSig

    /** The index the incoming HTLC gets, and the marks set when both sides had started. */
    method NoteHashCollision(clearingIdxs: seq<nat>) returns (htlcIdx: nat)
      requires forall k :: k in clearingIdxs <==> 0 <= k < |state.htlcs| && state.htlcs[k].clearing
      requires |clearingIdxs| > 0 <==> AnyClearing(state.htlcs)
      modifies `state
      ensures state == HashCollision(old(state)) && state.failed == old(state.failed)
      ensures htlcIdx == if old(state.inProg).Some? then old(state.inProg).value.idx else old(state.htlcIdx)
    {
      htlcIdx := state.htlcIdx;
      if state.inProg.Some? {
        htlcIdx := state.inProg.value.idx;
      } else if |clearingIdxs| > 0 {
        SetClearing(clearingIdxs, false);
        assert state.htlcs == Unclear(old(state.htlcs));
        state := state.(collHashPreimage := true);
      } else {
        state := state.(collHashDelta := true);
      }
    }

    /** Decide which of two HTLCs offered at once keeps the index. */
    method OrderColliding(mine: HTLC, theirs: HTLC)
      requires state.inProg == Some(theirs)
      modifies `state
      ensures state == OrderHtlcs(c, me, old(state), mine, theirs)
    {
      var curIdx := theirs.idx;
      var nextIdx := state.htlcIdx + 1;
      var inProg, colliding := mine, theirs;
      if c.rank(state.myNextBase) > c.rank(state.nextBase) {
        inProg, colliding := theirs, mine;
      }
      inProg := inProg.(idx := curIdx);
      colliding := colliding.(idx := nextIdx);
      colliding := colliding.(theirBase := state.n2Base);
      colliding := colliding.(myBase := HtlcBase(me, nextIdx));
      state := state.(inProg := Some(inProg), colliding := Some(colliding));
    }

    /** Put an incoming HTLC in the in-progress place and check it against their balance. */
    method TakeIncoming(idx: nat, amt: int, rhash: Digest, locktime: nat) returns (ok: bool)
      modifies `state
      ensures state == old(state).(inProg := Some(IncomingHtlc(me, old(state), idx, amt, rhash, locktime)))
      ensures ok == HashAffordable(c, old(state), amt)
    {
      state := state.(inProg := Some(HTLC(idx, true, amt, rhash, locktime, HtlcBase(me, idx), state.nextBase, 0, false, false)));
      if amt < MIN_OUTPUT {
        return false;
      }
      var myAmt, theirAmt := GetChannelBalances();
      theirAmt := theirAmt - amt;
      ok := theirAmt >= MIN_OUTPUT;
    }

    /** Verify and save a record that holds the incoming HTLC in progress. */
    method SaveIncoming(collision: bool, inProg: Option<HTLC>, sig: Sig, clearingIdxs: seq<nat>) returns (ok: bool)
      requires |state.htlcs| == |disk.htlcs| && inProg == disk.inProg && state.inProg.Some?
      requires forall k :: k in clearingIdxs <==> 0 <= k < |disk.htlcs| && disk.htlcs[k].clearing
      modifies `state, `disk
      ensures ok == VerifySig(c, me, old(state).(elkPoint := old(state).nextElkPoint), sig)
      ensures state == disk == if ok then HashAccepted(c, me, old(disk), collision, old(state), sig)
                               else old(disk).(failed := true)
    {
      hide VerifySig, Reclear, OrderHtlcs, ShiftMyBase;
      var incoming := state.inProg.value;
      ok := VerifyNext(sig);
      if !ok {
        FailChannel();
        return;
      }
      RestoreClearing(clearingIdxs, disk.htlcs);
      SaveQchanState();
      if collision && inProg.Some? {
        OrderColliding(inProg.value, incoming);
      }
      AdvanceMyBase(2);
      SaveQchanState();
    }

    /** Check an incoming HTLC against the record in RAM and save it if it is good. */
    method AcceptHash(collision: bool, inProg: Option<HTLC>, idx: nat, amt: int, rhash: Digest, locktime: nat, sig: Sig,
                      clearingIdxs: seq<nat>)
      returns (ok: bool)
      requires |state.htlcs| == |disk.htlcs| && inProg == disk.inProg
      requires forall k :: k in clearingIdxs <==> 0 <= k < |disk.htlcs| && disk.htlcs[k].clearing
      modifies `state, `disk
      ensures var s := old(state);
        var t := s.(inProg := Some(IncomingHtlc(me, s, idx, amt, rhash, locktime)), stateIdx := s.stateIdx + 1);
        && ok == (HashAffordable(c, s, amt) && VerifySig(c, me, t.(elkPoint := t.nextElkPoint), sig))
        && state == disk == if ok then HashAccepted(c, me, old(disk), collision, t, sig) else old(disk).(failed := true)
    {
      hide VerifySig, HashAffordable, HashAccepted, IncomingHtlc;
      ok := TakeIncoming(idx, amt, rhash, locktime);
      if !ok {
        FailChannel();
        return;
      }
      state := state.(stateIdx := state.stateIdx + 1);
      ok := SaveIncoming(collision, inProg, sig, clearingIdxs);
    }

    method HashSigHandler(amt: int, rhash: Digest, locktime: nat, sig: Sig) returns (ok: bool)
      requires Valid()
      modifies this
      ensures Valid() && broadcast == old(broadcast)
      ensures Did(HashSigStep(c, old(AsNode()), amt, rhash, locktime, sig), ok, old(outbox), old(justice))
    {
      hide VerifySig, HashCollision, HashAccepted, HashAffordable, IncomingHtlc, AnyClearing,
           ChannelSteps.SendGapSigRev, ChannelSteps.SendSigRev, Indexed;
      HashSigIndexed(c, AsNode(), amt, rhash, locktime, sig);
      InOrder(disk);
      var collision := !clearToSend;
      clearToSend := false;
      ReloadQchanState();
      if closed {
        return false;
      }
      var inProg := state.inProg;
      var htlcIdx := state.htlcIdx;
      var clearingIdxs := ClearingIdxs();
      if collision {
        htlcIdx := NoteHashCollision(clearingIdxs);
      }
      var accepted := AcceptHash(collision, inProg, htlcIdx, amt, rhash, locktime, sig, clearingIdxs);
      if !accepted {
        return false;
      }
      ok := Answer(state.collision != 0 || state.colliding.Some? || state.collHashPreimage || state.collHashDelta);
    }

    // --------------------------------------------------------- PreimageSig

    method NotePreimageCollision(clearingIdxs: seq<nat>)
      requires forall k :: k in clearingIdxs <==> 0 <= k < |state.htlcs| && state.htlcs[k].clearing
      requires |clearingIdxs| > 0 <==> AnyClearing(state.htlcs)
      modifies `state
      ensures state == PreimageCollision(old(state)) && state.failed == old(state.failed)
    {
      if state.inProg.Some? {
        state := state.(inProg := None);
        state := state.(collHashPreimage := true);
      } else if |clearingIdxs| > 0 {
        SetClearing(clearingIdxs, false);
        assert state.htlcs == Unclear(old(state.htlcs));
        state := state.(collPreimages := true);
      } else {
        state := state.(collPreimageDelta := true);
      }
    }

    /** Mark one HTLC as being cleared with this preimage. */
    method MarkOne(idx: nat, preimage: nat)
      requires idx < |state.htlcs|
      modifies `state
      ensures state == old(state).(htlcs := MarkClearing(old(state).htlcs, idx, preimage))
    {
      var h := state.htlcs[idx];
      h := h.(clearing := true);
      h := h.(preimage := preimage);
      state := state.(htlcs := state.htlcs[idx := h]);
    }

    method TakePreimage(idx: nat, preimage: nat)
      requires idx < |state.htlcs|
      modifies `state
      ensures state == PreimageTarget(old(state), idx, preimage)
    {
      hide MarkClearing;
      MarkOne(idx, preimage);
      var h := state.htlcs[idx];
      var myAmt := state.myAmt;
      if h.incoming != (h.preimage == 0) {
        myAmt := myAmt + h.amt;
      }
      state := state.(stateIdx := state.stateIdx + 1, myAmt := myAmt);
    }

    /** Is the HTLC open, and does the preimage or the block height allow clearing it? */
    method CheckPreimage(idx: nat, preimage: nat, height: int) returns (ok: bool)
      requires idx < |state.htlcs|
      ensures ok == (!state.htlcs[idx].cleared && MayClear(state.htlcs[idx], preimage, height))
    {
      if state.htlcs[idx].cleared {
        return false;
      }
      var timeout := false;
      if preimage == 0 {
        if AsInt32(state.htlcs[idx].locktime) > height {
          return false;
        }
        timeout := true;
      }
      if !timeout {
        if state.htlcs[idx].rhash != Sha(preimage) {
          return false;
        }
      }
      ok := true;
    }

    /** Check an HTLC being cleared against the record in RAM and save it if it is good. */
    method AcceptPreimage(sig: Sig, clearingIdxs: seq<nat>, inProg: Option<HTLC>) returns (ok: bool)
      requires |state.htlcs| == |disk.htlcs| && inProg == disk.inProg
      requires forall k :: k in clearingIdxs <==> 0 <= k < |disk.htlcs| && disk.htlcs[k].clearing
      modifies `state, `disk
      ensures ok == VerifySig(c, me, old(state).(elkPoint := old(state).nextElkPoint), sig)
      ensures state == disk == if ok then PreimageAccepted(me, old(disk), old(state), sig) else old(disk).(failed := true)
    {
      hide VerifySig, Reclear, ShiftMyBase;
      ok := VerifyNext(sig);
      if !ok {
        FailChannel();
        return;
      }
      state := state.(inProg := inProg);
      RestoreClearing(clearingIdxs, disk.htlcs);
      if state.collHashPreimage {
        AdvanceMyBase(2);
      }
      SaveQchanState();
    }

    method PreimageSigHandler(idx: nat, preimage: nat, sig: Sig, height: int) returns (ok: bool)
      requires Valid()
      modifies this
      ensures Valid() && broadcast == old(broadcast)
      ensures Did(PreimageSigStep(c, old(AsNode()), idx, preimage, sig, height), ok, old(outbox), old(justice))
    {
      hide VerifySig, PreimageCollision, PreimageTarget, PreimageAccepted, SendRev, AnyClearing, MayClear,
           ChannelSteps.SendGapSigRev, ChannelSteps.SendSigRev, Indexed;
      PreimageSigIndexed(c, AsNode(), idx, preimage, sig, height);
      InOrder(disk);
      var collision := !clearToSend;
      clearToSend := false;
      ReloadQchanState();
      if closed {
        return false;
      }
      var clearingIdxs := ClearingIdxs();
      if state.delta > 0 {
        ok := SendREV();
        return;
      }
      if idx >= |state.htlcs| {
        return false;
      }
      var clearable := CheckPreimage(idx, preimage, height);
      if !clearable {
        return false;
      }
      var inProg := state.inProg;
      if collision {
        NotePreimageCollision(clearingIdxs);
      }
      TakePreimage(idx, preimage);
      var accepted := AcceptPreimage(sig, clearingIdxs, inProg);
      if !accepted {
        return false;
      }
      ok := Answer(state.collision != 0 || state.collHashPreimage || state.collPreimages || state.collPreimageDelta);
    }

    // ---------------------------------------------------------- SigRev

    method SomeClearing() returns (clearing: bool)
      ensures clearing == AnyClearing(state.htlcs)
    {
      clearing := false;
      for i := 0 to |state.htlcs|
        invariant forall k :: 0 <= k < i ==> !state.htlcs[k].clearing
      {
        if state.htlcs[i].clearing {
          assert state.htlcs[i] in state.htlcs;
          return true;
        }
      }
    }

    method NothingUnderWay() returns (resting: bool)
      ensures resting == AtRest(state)
    {
      var clearing := SomeClearing();
      resting := state.delta == 0 && state.inProg.None? && !clearing;
    }

    method TakeSigRev()
      requires state.colliding.None?
      modifies `state
      ensures state == SigRevTarget(old(state))
    {
      hide ClearingGain;
      state := state.(stateIdx := state.stateIdx + 1, myAmt := state.myAmt + state.delta, delta := 0);
      PayOutgoing();
      AddClearingGain();
    }

    method SaveSigRev(n2Base: HtlcBase)
      modifies `state, `disk
      ensures disk == state == SigRevAccepted(me, old(state), n2Base)
    {
      hide MarkCleared;
      if state.inProg.Some? || state.collHashDelta {
        AdvanceMyBase(2);
      }
      if state.inProg.Some? {
        state := state.(htlcs := state.htlcs + [state.inProg.value], inProg := None,
                        nextBase := state.n2Base, n2Base := n2Base, htlcIdx := state.htlcIdx + 1);
      }
      SetCleared();
      SaveQchanState();
    }

    /** Verify the signature, take in the revocation, and save what is finished. */
    method AcceptSigRev(sig: Sig, elk: Elk, n2Point: Point, n2Base: HtlcBase) returns (ok: bool)
      requires state.colliding.None?
      modifies `state, `disk
      ensures var t := SigRevTarget(old(state));
        var a := ChannelState.AdvanceElkrem(t.(sig := sig), elk, n2Point);
        && ok == (VerifySig(c, me, t.(elkPoint := t.nextElkPoint), sig) && a.Some?)
        && state == disk
        && if ok then disk == SigRevAccepted(me, a.value, n2Base)
           else Did(Failed(old(AsNode())), false, old(outbox), old(justice))
    {
      hide VerifySig, SigRevTarget, SigRevAccepted, ChannelState.AdvanceElkrem;
      TakeSigRev();
      ok := VerifyNext(sig);
      if !ok {
        FailChannel();
        return;
      }
      ok := AdvanceElkrem(elk, n2Point);
      if !ok {
        FailChannel();
        return;
      }
      SaveSigRev(n2Base);
    }

    method SendLastRev() returns (ok: bool)
      requires state == disk
      modifies `state, `disk, `outbox
      ensures state.failed == disk.failed
      ensures Did(Reply(old(AsNode()), SendRev(me, old(disk))), ok, old(outbox), old(justice))
    {
      hide SendRev;
      ok := SendREV();
      if !ok {
        FailChannel();
      }
    }

    method FinishSigRev(prevAmt: int) returns (ok: bool)
      requires state == disk
      modifies `state, `disk, `outbox, `justice, `clearToSend
      ensures state.failed == disk.failed
      ensures var rev := SendRev(me, old(disk));
        Did(if rev.None? then Failed(old(AsNode()))
            else Res(old(AsNode()).(cts := true), [rev.value], true, Some(Past(old(disk).stateIdx - 1, prevAmt))),
            ok, old(outbox), old(justice))
    {
      hide SendRev;
      ok := SendREV();
      if !ok {
        FailChannel();
        return;
      }
      justice := justice + [Past(state.stateIdx - 1, prevAmt)];
      clearToSend := true;
    }

    method CompleteSigRev(sig: Sig, elk: Elk, n2Point: Point, n2Base: HtlcBase) returns (ok: bool)
      requires state == disk && state.colliding.None?
      modifies `state, `disk, `outbox, `justice, `clearToSend
      ensures state.failed == disk.failed
      ensures Did(SigRevComplete(c, old(AsNode()), sig, elk, n2Point, n2Base), ok, old(outbox), old(justice))
    {
      hide VerifySig, SigRevTarget, SigRevAccepted, ChannelState.AdvanceElkrem, SendRev, Failed;
      var prevAmt := state.myAmt;
      ok := AcceptSigRev(sig, elk, n2Point, n2Base);
      if !ok {
        return;
      }
      ok := FinishSigRev(prevAmt);
    }

    method SigRevHandler(sig: Sig, elk: Elk, n2Point: Point, n2Base: HtlcBase) returns (ok: bool)
      requires Valid()
      modifies this
      ensures Valid() && broadcast == old(broadcast)
      ensures Did(SigRevStep(c, old(AsNode()), sig, elk, n2Point, n2Base), ok, old(outbox), old(justice))
    {
      hide SigRevComplete, SendRev, AtRest, Indexed, Failed, Reply, Refused;
      SigRevIndexed(c, AsNode(), sig, elk, n2Point, n2Base);
      ReloadQchanState();
      if state.delta > 0 {
        FailChannel();
        return false;
      }
      var resting := NothingUnderWay();
      if resting {
        ok := SendLastRev();
        return;
      }
      if state.collision != 0 || state.colliding.Some? {
        FailChannel();
        return false;
      }
      ok := CompleteSigRev(sig, elk, n2Point, n2Base);
    }

    // ------------------------------------------------------- GapSigRev

    method TakeGapSigRev()
      modifies `state
      ensures state == GapTarget(old(state))
    {
      hide ClearingGain;
      state := state.(myAmt := state.myAmt + state.delta, delta := state.collision, collision := 0);
      PayOutgoing();
      AddClearingGain();
      state := state.(stateIdx := state.stateIdx + 1);
    }

    method SaveGapSigRev(n2Base: HtlcBase)
      modifies `state, `disk
      ensures disk == state
      ensures forall sig :: old(state).sig == sig ==> state == GapAccepted(me, old(state), sig, n2Base)
    {
      if n2Base != state.n2Base {
        state := state.(nextBase := state.n2Base);
        state := state.(n2Base := n2Base);
      }
      if state.colliding.Some? {
        AdvanceMyBase(3);
      }
      SaveQchanState();
    }

    /** Take in the revocation, verify the signature, and save the state after the gap. */
    method AcceptGapSigRev(sig: Sig, elk: Elk, n2Point: Point, n2Base: HtlcBase) returns (ok: bool)
      modifies `state, `disk
      ensures var a := ChannelState.AdvanceElkrem(old(state), elk, n2Point);
        && ok == (a.Some? && var t := GapTarget(a.value); VerifySig(c, me, t.(elkPoint := t.nextElkPoint), sig))
        && state == disk == if ok then GapAccepted(me, GapTarget(a.value), sig, n2Base) else old(disk).(failed := true)
    {
      hide VerifySig, GapTarget, ChannelState.AdvanceElkrem;
      ok := AdvanceElkrem(elk, n2Point);
      if !ok {
        FailChannel();
        return;
      }
      TakeGapSigRev();
      ghost var t := state;
      ok := VerifyNext(sig);
      if !ok {
        FailChannel();
        return;
      }
      SaveGapSigRev(n2Base);
      assert GapAccepted(me, t.(sig := sig), sig, n2Base) == GapAccepted(me, t, sig, n2Base);
    }

    method InGap() returns (gap: bool)
      ensures gap == InCollision(state)
    {
      gap := state.collision != 0 || state.colliding.Some? || state.collHashPreimage || state.collHashDelta
             || state.collPreimageDelta || state.collPreimages;
    }

    method GapSigRevHandler(sig: Sig, elk: Elk, n2Point: Point, n2Base: HtlcBase) returns (ok: bool)
      requires Valid()
      modifies this
      ensures Valid() && broadcast == old(broadcast)
      ensures Did(GapSigRevStep(c, old(AsNode()), sig, elk, n2Point, n2Base), ok, old(outbox), old(justice))
    {
      hide VerifySig, GapTarget, GapAccepted, ChannelState.AdvanceElkrem, SendRev, Indexed, InCollision;
      GapSigRevIndexed(c, AsNode(), sig, elk, n2Point, n2Base);
      ReloadQchanState();
      var gap := InGap();
      if !gap {
        FailChannel();
        return false;
      }
      var prevAmt := state.myAmt - state.collision;
      ok := AcceptGapSigRev(sig, elk, n2Point, n2Base);
      if !ok {
        return;
      }
      ok := SendREV();
      if !ok {
        FailChannel();
        return;
      }
      justice := justice + [Past(state.stateIdx - 2, prevAmt)];
    }

    // -------------------------------------------------------------- Rev

    method SaveRev(n2Base: HtlcBase)
      modifies `state, `disk
      ensures disk == state == RevAccepted(old(state), n2Base)
    {
      hide MarkCleared;
      state := state.(delta := 0);
      if n2Base != state.n2Base {
        state := state.(nextBase := state.n2Base, n2Base := n2Base);
      }
      state := state.(collHashDelta := false, collHashPreimage := false, collPreimages := false,
                      collPreimageDelta := false);
      if state.inProg.Some? {
        state := state.(htlcs := state.htlcs + [state.inProg.value], inProg := None, htlcIdx := state.htlcIdx + 1);
      }
      if state.colliding.Some? {
        state := state.(htlcs := state.htlcs + [state.colliding.value], colliding := None, htlcIdx := state.htlcIdx + 1);
      }
      SetCleared();
      SaveQchanState();
    }

    method RevHandler(elk: Elk, n2Point: Point, n2Base: HtlcBase) returns (ok: bool)
      requires Valid()
      modifies this
      ensures Valid() && broadcast == old(broadcast)
      ensures Did(RevStep(c, old(AsNode()), elk, n2Point, n2Base), ok, old(outbox), old(justice))
    {
      hide RevAccepted, SendRev, AtRest, Indexed;
      RevIndexed(c, AsNode(), elk, n2Point, n2Base);
      ReloadQchanState();
      var resting := NothingUnderWay();
      if resting {
        return false;
      }
      if state.delta < 0 {
        ok := SendREV();
        return;
      }
      ok := AdvanceElkrem(elk, n2Point);
      if !ok {
        FailChannel();
        return;
      }
      var prevAmt := state.myAmt - state.delta;
      SaveRev(n2Base);
      RevKeepsIndex(old(disk), elk, n2Point, n2Base);
      justice := justice + [Past(state.stateIdx - 1, prevAmt)];
      clearToSend := true;
    }

    // ------------------------------------------------ starting an operation

    method StartPush(amt: nat) returns (ok: bool)
      requires state == disk
      modifies `state, `disk, `outbox
      ensures state.failed == disk.failed
      ensures var saved := old(AsNode()).(disk := old(disk).(delta := 0 - amt));
        var msg := ChannelSteps.SendDeltaSig(c, me, saved.disk);
        Did(if msg.None? then Refused(saved) else Res(saved, [msg.value], true, None), ok, old(outbox), old(justice))
    {
      hide ChannelSteps.SendDeltaSig;
      var delta := 0 - amt;
      state := state.(delta := delta);
      SaveQchanState();
      ok := SendDeltaSig();
    }

    method PushChannel(amt: nat) returns (ok: bool)
      requires Valid() && clearToSend
      modifies this
      ensures Valid() && broadcast == old(broadcast)
      ensures Did(ChannelSteps.PushChannel(c, old(AsNode()), amt), ok, old(outbox), old(justice))
    {
      hide ChannelSteps.SendDeltaSig, Balances, Indexed;
      PushIndexed(c, AsNode(), amt);
      if state.failed {
        return false;
      }
      if amt >= MAX_SEND {
        return false;
      }
      if amt == 0 {
        return false;
      }
      clearToSend := false;
      ReloadQchanState();
      var myAmt, theirAmt := GetChannelBalances();
      myAmt := myAmt - (c.fee - amt);
      theirAmt := theirAmt + (amt - c.fee);
      if myAmt < MIN_OUTPUT {
        clearToSend := true;
        return false;
      }
      if theirAmt < MIN_OUTPUT {
        clearToSend := true;
        return false;
      }
      if state.delta != 0 {
        FailChannel();
        return false;
      }
      ok := StartPush(amt);
    }

    method StartOffer(h: HTLC) returns (ok: bool)
      requires state == disk
      modifies `state, `disk, `outbox
      ensures state.failed == disk.failed
      ensures var saved := old(AsNode()).(disk := old(disk).(inProg := Some(h)));
        Did(Reply(saved, ChannelSteps.SendHashSig(c, me, saved.disk)), ok, old(outbox), old(justice))
    {
      hide ChannelSteps.SendHashSig;
      state := state.(inProg := Some(h));
      SaveQchanState();
      ok := SendHashSig();
      if !ok {
        FailChannel();
      }
    }

    method OfferHTLC(amt: nat, rhash: Digest, locktime: nat) returns (ok: bool)
      requires Valid() && clearToSend
      modifies this
      ensures Valid() && broadcast == old(broadcast)
      ensures Did(ChannelSteps.OfferHTLC(c, old(AsNode()), amt, rhash, locktime), ok, old(outbox), old(justice))
    {
      hide ChannelSteps.SendHashSig, OutgoingHtlc, Balances, Indexed, Reply, Failed;
      OfferIndexed(c, AsNode(), amt, rhash, locktime);
      if state.failed {
        return false;
      }
      if amt >= MAX_SEND {
        return false;
      }
      if amt == 0 {
        return false;
      }
      clearToSend := false;
      ReloadQchanState();
      var myAmt, theirAmt := GetChannelBalances();
      myAmt := myAmt - (c.fee + amt);
      if myAmt < MIN_OUTPUT {
        clearToSend := true;
        return false;
      }
      if state.delta != 0 || state.inProg.Some? {
        FailChannel();
        return false;
      }
      ok := StartOffer(OutgoingHtlc(me, state, amt, rhash, locktime));
    }

    method StartClear(idx: nat, preimage: nat) returns (ok: bool)
      requires state == disk && idx < |state.htlcs|
      modifies `state, `disk, `outbox
      ensures state.failed == disk.failed
      ensures var saved := old(AsNode()).(disk := old(disk).(htlcs := MarkClearing(old(disk.htlcs), idx, preimage)));
        Did(Reply(saved, ChannelSteps.SendPreimageSig(c, me, saved.disk, idx)), ok, old(outbox), old(justice))
    {
      hide ChannelSteps.SendPreimageSig;
      MarkOne(idx, preimage);
      SaveQchanState();
      ok := SendPreimageSig(idx);
      if !ok {
        FailChannel();
      }
    }

    method ClearHTLC(idx: nat, preimage: nat, height: int) returns (ok: bool)
      requires Valid() && clearToSend
      modifies this
      ensures Valid() && broadcast == old(broadcast)
      ensures Did(ChannelSteps.ClearHTLC(c, old(AsNode()), idx, preimage, height), ok, old(outbox), old(justice))
    {
      hide ChannelSteps.SendPreimageSig, MayClear, MarkClearing, Indexed;
      ClearIndexed(c, AsNode(), idx, preimage, height);
      if state.failed {
        return false;
      }
      clearToSend := false;
      ReloadQchanState();
      if idx >= |state.htlcs| {
        clearToSend := true;
        return false;
      }
      var clearable := CheckPreimage(idx, preimage, height);
      if !clearable {
        clearToSend := true;
        return false;
      }
      if state.delta != 0 || state.inProg.Some? {
        FailChannel();
        return false;
      }
      ok := StartClear(idx, preimage);
    }

    // ------------------------------------------------------ breaking

    /** Forget what is being cleared but has not been. */
    method DropClearing()
      modifies `state
      ensures state == old(state).(htlcs := BreakState(old(state)).htlcs)
    {
      var hs := state.htlcs;
      for i := 0 to |hs|
        invariant state == old(state).(htlcs := state.htlcs) && |state.htlcs| == |hs|
        invariant forall k :: 0 <= k < i ==> state.htlcs[k] == BreakState(old(state)).htlcs[k]
        invariant forall k :: i <= k < |hs| ==> state.htlcs[k] == hs[k]
      {
        if !state.htlcs[i].cleared && state.htlcs[i].clearing {
          state := state.(htlcs := state.htlcs[i := state.htlcs[i].(clearing := false)]);
        }
      }
      assert state.htlcs == BreakState(old(state)).htlcs;
    }

    method BreakChannel() returns (ok: bool)
      modifies this
      ensures ok == BreakTx(c, old(AsNode())).Some?
      ensures broadcast == if ok then BreakTx(c, old(AsNode())) else old(broadcast)
      ensures AsNode() == old(AsNode()).(closed := old(closed) || ok)
      ensures outbox == old(outbox) && justice == old(justice)
    {
      hide BuildStateTx;
      ReloadQchanState();
      if closed {
        return false;
      }
      state := state.(delta := 0);
      DropClearing();
      state := state.(inProg := None, colliding := None);
      assert state == BreakState(disk);
      var tx := BuildStateTxs(true);
      if tx.None? {
        return false;
      }
      broadcast := Some((tx.value, state.sig));
      closed := true;
      ok := true;
    }
  }
}
