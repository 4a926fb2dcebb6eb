/** The HTLC index discipline: whatever the peer sends, HTLCs[i].Idx is i, HTLCIdx
    is the length of the list, and the HTLCs under way have the next indices. */
module ChannelIndices {
  import opened Wrappers
  import opened ChannelState
  import opened ChannelSteps

  ghost predicate Ordered(hs: seq<HTLC>) {
    forall i :: 0 <= i < |hs| ==> hs[i].idx == i
  }

  ghost predicate Indices(next: nat, hs: seq<HTLC>, inProg: Option<HTLC>, colliding: Option<HTLC>) {
    && next == |hs| && Ordered(hs)
    && (inProg.Some? ==> inProg.value.idx == next)
    && (colliding.Some? ==> inProg.Some? && colliding.value.idx == next + 1)
  }

  ghost predicate Indexed(s: StatCom) {
    Indices(s.htlcIdx, s.htlcs, s.inProg, s.colliding)
  }

  ghost predicate SameIds(hs: seq<HTLC>, hs': seq<HTLC>) {
    |hs| == |hs'| && forall i :: 0 <= i < |hs| ==> hs[i].idx == hs'[i].idx
  }

  /** Setting and taking marks leaves the indices alone. */
  lemma MarksKeepIds(hs: seq<HTLC>, before: seq<HTLC>, idx: nat, preimage: nat)
    ensures SameIds(hs, Unclear(hs)) && SameIds(hs, MarkCleared(hs))
    ensures |before| == |hs| ==> SameIds(hs, Reclear(hs, before))
    ensures idx < |hs| ==> SameIds(hs, MarkClearing(hs, idx, preimage))
  {}

  lemma SameIndices(next: nat, hs: seq<HTLC>, hs': seq<HTLC>, inProg: Option<HTLC>, colliding: Option<HTLC>)
    requires Indices(next, hs, inProg, colliding) && SameIds(hs, hs')
    ensures Indices(next, hs', inProg, colliding)
  {}

  lemma SameIdsTrans(a: seq<HTLC>, b: seq<HTLC>, c: seq<HTLC>)
    requires SameIds(a, b) && SameIds(b, c)
    ensures SameIds(a, c)
  {}

  /** What is under way may be appended. */
  lemma AppendIndices(next: nat, hs: seq<HTLC>, inProg: Option<HTLC>, colliding: Option<HTLC>)
    requires Indices(next, hs, inProg, colliding)
    ensures Indices(next + CountSome(inProg) + CountSome(colliding), AppendOpt(AppendOpt(hs, inProg), colliding), None, None)
  {}

  lemma FailIndexed(n: Node)
    requires Indexed(n.disk)
    ensures Indexed(Fail(n).disk)
  {}

  lemma ReplyIndexed(n: Node, msg: Option<Msg>)
    requires Indexed(n.disk)
    ensures Indexed(Reply(n, msg).node.disk)
  {}

  lemma PushIndexed(c: Config, n: Node, amt: int)
    requires n.cts && Indexed(n.disk)
    ensures Indexed(PushChannel(c, n, amt).node.disk)
  {
    hide SendDeltaSig, Balances, Indices;
  }

  lemma OfferIndexed(c: Config, n: Node, amt: nat, rhash: Digest, locktime: nat)
    requires n.cts && Indexed(n.disk)
    ensures Indexed(OfferHTLC(c, n, amt, rhash, locktime).node.disk)
  {
    hide SendHashSig, Balances, Indices, Failed, Refused, Reply;
    var taken := n.(cts := false);
    var s := n.disk;
    var saved := taken.(disk := s.(inProg := Some(OutgoingHtlc(n.me, s, amt, rhash, locktime))));
    RefusedIndexed(n);
    RefusedIndexed(taken);
    CollidingNext(s);
    SameIdsRefl(s.htlcs);
    if s.colliding.None? || s.inProg.None? {
      NewHtlcs(s, s.htlcs, saved.disk);
      ReplyIndexed(saved, SendHashSig(c, n.me, saved.disk));
    }
  }

  lemma ClearIndexed(c: Config, n: Node, idx: nat, preimage: nat, height: int)
    requires n.cts && Indexed(n.disk)
    ensures Indexed(ClearHTLC(c, n, idx, preimage, height).node.disk)
  {
    hide SendPreimageSig, MayClear, Indices, SameIds, MarkClearing;
    var s := n.disk;
    if idx < |s.htlcs| {
      MarksKeepIds(s.htlcs, s.htlcs, idx, preimage);
      SameIndices(s.htlcIdx, s.htlcs, MarkClearing(s.htlcs, idx, preimage), s.inProg, s.colliding);
    }
  }

  lemma DeltaCollisionParts(me: Party, s: StatCom, delta: int)
    ensures var r := DeltaCollision(me, s, delta);
      r.htlcIdx == s.htlcIdx && SameIds(s.htlcs, r.htlcs) && r.colliding == s.colliding
  {
    hide AnyClearing, ShiftMyBase, SameIds, Unclear;
    MarksKeepIds(s.htlcs, s.htlcs, 0, 0);
    assert SameIds(s.htlcs, s.htlcs) by { SameIdsRefl(s.htlcs); }
    ShiftParts(me, s.(inProg := None, collHashDelta := true), 2);
  }

  lemma SameIdsRefl(hs: seq<HTLC>)
    ensures SameIds(hs, hs)
  {}

  lemma ShiftParts(me: Party, s: StatCom, step: nat)
    ensures var r := ShiftMyBase(me, s, step);
      r.htlcIdx == s.htlcIdx && r.htlcs == s.htlcs && r.inProg == s.inProg && r.colliding == s.colliding
  {}

  lemma DeltaSavedIndexed(before: StatCom, s: StatCom, sig: Sig)
    requires Indexed(before) && s.htlcIdx == before.htlcIdx && SameIds(before.htlcs, s.htlcs) && s.colliding == before.colliding
    requires |s.htlcs| == |before.htlcs|
    ensures Indexed(DeltaAccepted(before, s, sig))
  {}

  lemma DeltaTargetParts(before: StatCom, s: StatCom, delta: int)
    requires s.htlcIdx == before.htlcIdx && SameIds(before.htlcs, s.htlcs) && s.colliding == before.colliding
    ensures var t := DeltaTarget(s, delta);
      t.htlcIdx == before.htlcIdx && SameIds(before.htlcs, t.htlcs) && t.colliding == before.colliding
    ensures |DeltaTarget(s, delta).htlcs| == |before.htlcs|
  {}

  lemma EmptyRevIndexed(n: Node, s: StatCom)
    requires Indexed(n.disk)
    ensures Indexed(EmptyRev(n, s).node.disk)
  {
    hide Indexed;
  }

  lemma DeltaSigIndexed(c: Config, n: Node, delta: int, sig: Sig)
    requires Indexed(n.disk)
    ensures Indexed(DeltaSigStep(c, n, delta, sig).node.disk)
  {
    hide Indexed, VerifySig, EmptyRev, DeltaReply, DeltaAffordable, DeltaCollision, DeltaTarget, DeltaAccepted, SameIds, Fail;
    var taken := n.(cts := false);
    var s1 := if !n.cts then DeltaCollision(n.me, n.disk, delta) else n.disk;
    var s2 := if n.cts || s1.inProg.Some? then s1.(delta := delta) else s1;
    var s3 := DeltaTarget(s2, delta);
    DeltaCollisionParts(n.me, n.disk, delta);
    SameIdsRefl(n.disk.htlcs);
    FailIndexed(taken);
    EmptyRevIndexed(taken, s1);
    DeltaTargetParts(n.disk, s2, delta);
    DeltaSavedIndexed(n.disk, s3, sig);
    DeltaReplyIndexed(c, taken.(disk := DeltaAccepted(n.disk, s3, sig)));
  }

  lemma DeltaReplyIndexed(c: Config, n: Node)
    requires Indexed(n.disk)
    ensures Indexed(DeltaReply(c, n).node.disk) && Indexed(HashReply(c, n).node.disk) && Indexed(PreimageReply(c, n).node.disk)
  {
    hide Indexed, SendSigRev, SendGapSigRev, Fail;
    FailIndexed(n);
  }

  lemma HashCollisionParts(s: StatCom)
    ensures var r := HashCollision(s);
      r.htlcIdx == s.htlcIdx && SameIds(s.htlcs, r.htlcs) && r.inProg == s.inProg && r.colliding == s.colliding
  {
    hide AnyClearing, SameIds, Unclear;
    MarksKeepIds(s.htlcs, s.htlcs, 0, 0);
    SameIdsRefl(s.htlcs);
  }

  lemma NewHtlcs(s: StatCom, hs: seq<HTLC>, t: StatCom)
    requires Indexed(s) && SameIds(s.htlcs, hs)
    requires t.htlcIdx == s.htlcIdx && t.htlcs == hs && t.inProg.Some? && t.inProg.value.idx == s.htlcIdx
    requires t.colliding.Some? ==> t.colliding.value.idx == s.htlcIdx + 1
    ensures Indexed(t)
  {}

  lemma CollidingNext(s: StatCom)
    requires Indexed(s)
    ensures s.inProg.Some? ==> s.inProg.value.idx == s.htlcIdx
    ensures s.colliding.Some? ==> s.colliding.value.idx == s.htlcIdx + 1
  {}

  lemma HashSavedIndexed(c: Config, me: Party, before: StatCom, collision: bool, s: StatCom, sig: Sig)
    requires Indexed(before) && s.htlcIdx == before.htlcIdx && SameIds(before.htlcs, s.htlcs) && s.colliding == before.colliding
    requires |s.htlcs| == |before.htlcs| && s.inProg.Some? && s.inProg.value.idx == before.htlcIdx
    ensures Indexed(HashAccepted(c, me, before, collision, s, sig))
  {}

  lemma HashSigIndexed(c: Config, n: Node, amt: int, rhash: Digest, locktime: nat, sig: Sig)
    requires Indexed(n.disk)
    ensures Indexed(HashSigStep(c, n, amt, rhash, locktime, sig).node.disk)
  {
    hide Indexed, VerifySig, HashReply, Balances, HashCollision, HashAccepted, SameIds, Fail;
    var collision := !n.cts;
    var taken := n.(cts := false);
    var s1 := if collision then HashCollision(n.disk) else n.disk;
    CollidingNext(n.disk);
    HashCollisionParts(n.disk);
    SameIdsRefl(n.disk.htlcs);
    var h := IncomingHtlc(n.me, s1, n.disk.htlcIdx, amt, rhash, locktime);
    var s2 := s1.(inProg := Some(h), stateIdx := s1.stateIdx + 1);
    FailIndexed(taken);
    HashSavedIndexed(c, n.me, n.disk, collision, s2, sig);
    DeltaReplyIndexed(c, taken.(disk := HashAccepted(c, n.me, n.disk, collision, s2, sig)));
  }

  lemma PreimageCollisionParts(s: StatCom)
    ensures var r := PreimageCollision(s);
      r.htlcIdx == s.htlcIdx && SameIds(s.htlcs, r.htlcs) && r.colliding == s.colliding
  {
    hide AnyClearing, SameIds, Unclear;
    MarksKeepIds(s.htlcs, s.htlcs, 0, 0);
    SameIdsRefl(s.htlcs);
  }

  lemma PreimageTargetParts(s: StatCom, idx: nat, preimage: nat)
    requires idx < |s.htlcs|
    ensures var r := PreimageTarget(s, idx, preimage);
      r.htlcIdx == s.htlcIdx && SameIds(s.htlcs, r.htlcs) && r.colliding == s.colliding
  {}

  lemma PreimageSavedIndexed(me: Party, before: StatCom, s: StatCom, sig: Sig)
    requires Indexed(before) && s.htlcIdx == before.htlcIdx && SameIds(before.htlcs, s.htlcs) && s.colliding == before.colliding
    requires |s.htlcs| == |before.htlcs|
    ensures Indexed(PreimageAccepted(me, before, s, sig))
  {}

  lemma RefusedIndexed(n: Node)
    requires Indexed(n.disk)
    ensures Indexed(Refused(n).node.disk) && Indexed(Failed(n).node.disk)
  {}

  lemma PreimageSigIndexed(c: Config, n: Node, idx: nat, preimage: nat, sig: Sig, height: int)
    requires Indexed(n.disk)
    ensures Indexed(PreimageSigStep(c, n, idx, preimage, sig, height).node.disk)
  {
    hide Indexed, VerifySig, EmptyRev, PreimageReply, MayClear, PreimageCollision, PreimageTarget,
         PreimageAccepted, SameIds, Fail, Refused, Failed;
    var taken := n.(cts := false);
    FailIndexed(taken);
    EmptyRevIndexed(taken, n.disk);
    RefusedIndexed(taken);
    if idx < |n.disk.htlcs| {
      var s1 := if n.cts then n.disk else PreimageCollision(n.disk);
      var s2 := PreimageTarget(s1, idx, preimage);
      PreimageCollisionParts(n.disk);
      SameIdsRefl(n.disk.htlcs);
      PreimageTargetParts(s1, idx, preimage);
      SameIdsTrans(n.disk.htlcs, s1.htlcs, s2.htlcs);
      PreimageSavedIndexed(n.me, n.disk, s2, sig);
      DeltaReplyIndexed(c, taken.(disk := PreimageAccepted(n.me, n.disk, s2, sig)));
    }
  }

  lemma SigRevSavedIndexed(me: Party, s: StatCom, sig: Sig, elk: Elk, n2Point: Point, n2Base: HtlcBase)
    requires Indexed(s) && s.colliding.None?
    ensures var a := AdvanceElkrem(SigRevTarget(s).(sig := sig), elk, n2Point);
      a.Some? ==> Indexed(SigRevAccepted(me, a.value, n2Base))
  {
    hide ClearingGain;
  }

  lemma SigRevIndexed(c: Config, n: Node, sig: Sig, elk: Elk, n2Point: Point, n2Base: HtlcBase)
    requires Indexed(n.disk)
    ensures Indexed(SigRevStep(c, n, sig, elk, n2Point, n2Base).node.disk)
  {
    hide Indexed, VerifySig, SendRev, AtRest, SigRevTarget, SigRevAccepted, AdvanceElkrem, Fail;
    FailIndexed(n);
    if n.disk.colliding.None? {
      SigRevSavedIndexed(n.me, n.disk, sig, elk, n2Point, n2Base);
      var a := AdvanceElkrem(SigRevTarget(n.disk).(sig := sig), elk, n2Point);
      if a.Some? {
        FailIndexed(n.(disk := SigRevAccepted(n.me, a.value, n2Base)));
      }
    }
  }

  lemma GapSavedIndexed(me: Party, s: StatCom, sig: Sig, n2Base: HtlcBase)
    requires Indexed(s)
    ensures Indexed(GapAccepted(me, GapTarget(s), sig, n2Base))
  {
    hide ClearingGain, Indices, OutgoingCost, ShiftMyBase;
    ShiftParts(me, TakeN2Base(GapTarget(s).(sig := sig), n2Base), 3);
  }

  lemma AdvancedIndexed(s: StatCom, elk: Elk, n2Point: Point)
    requires Indexed(s)
    ensures var a := AdvanceElkrem(s, elk, n2Point); a.Some? ==> Indexed(a.value)
  {}

  lemma GapSigRevIndexed(c: Config, n: Node, sig: Sig, elk: Elk, n2Point: Point, n2Base: HtlcBase)
    requires Indexed(n.disk)
    ensures Indexed(GapSigRevStep(c, n, sig, elk, n2Point, n2Base).node.disk)
  {
    hide Indexed, VerifySig, SendRev, InCollision, GapTarget, GapAccepted, AdvanceElkrem, Fail;
    FailIndexed(n);
    AdvancedIndexed(n.disk, elk, n2Point);
    var a := AdvanceElkrem(n.disk, elk, n2Point);
    if a.Some? {
      GapSavedIndexed(n.me, a.value, sig, n2Base);
      FailIndexed(n.(disk := GapAccepted(n.me, GapTarget(a.value), sig, n2Base)));
    }
  }

  lemma RevSavedIndexed(s: StatCom, n2Base: HtlcBase)
    requires Indexed(s)
    ensures Indexed(RevAccepted(s, n2Base))
  {
    hide Indices, SameIds, MarkCleared, AppendOpt, CountSome;
    var hs := AppendOpt(AppendOpt(s.htlcs, s.inProg), s.colliding);
    var next := s.htlcIdx + CountSome(s.inProg) + CountSome(s.colliding);
    AppendIndices(s.htlcIdx, s.htlcs, s.inProg, s.colliding);
    MarksKeepIds(hs, hs, 0, 0);
    SameIndices(next, hs, MarkCleared(hs), None, None);
  }

  lemma RevIndexed(c: Config, n: Node, elk: Elk, n2Point: Point, n2Base: HtlcBase)
    requires Indexed(n.disk)
    ensures Indexed(RevStep(c, n, elk, n2Point, n2Base).node.disk)
  {
    hide Indexed, SendRev, AtRest, AdvanceElkrem, RevAccepted, Fail;
    FailIndexed(n);
    AdvancedIndexed(n.disk, elk, n2Point);
    var a := AdvanceElkrem(n.disk, elk, n2Point);
    if a.Some? {
      RevSavedIndexed(a.value, n2Base);
    }
  }

  /** Every message handler keeps the index discipline, for any message at all. */
  lemma ReceiveIndexed(c: Config, n: Node, msg: Msg, height: int)
    requires Indexed(n.disk)
    ensures Indexed(Receive(c, n, msg, height).node.disk)
  {
    hide Indexed, DeltaSigStep, HashSigStep, PreimageSigStep, SigRevStep, GapSigRevStep, RevStep;
    match msg
    case DeltaSig(delta, sig) => DeltaSigIndexed(c, n, delta, sig);
    case HashSig(amt, rhash, locktime, sig) => HashSigIndexed(c, n, amt, rhash, locktime, sig);
    case PreimageSig(idx, preimage, sig) => PreimageSigIndexed(c, n, idx, preimage, sig, height);
    case SigRev(sig, elk, n2Point, n2Base) => SigRevIndexed(c, n, sig, elk, n2Point, n2Base);
    case GapSigRev(sig, elk, n2Point, n2Base) => GapSigRevIndexed(c, n, sig, elk, n2Point, n2Base);
    case Rev(elk, n2Point, n2Base) => RevIndexed(c, n, elk, n2Point, n2Base);
  }
}
