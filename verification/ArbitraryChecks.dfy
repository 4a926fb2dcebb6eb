/** What no message of an arbitrary peer, and no call, can make a node do. */
module ArbitraryChecks {
  import opened Wrappers
  import opened ElkremRange
  import opened ChannelState
  import opened ChannelSteps
  import opened ChannelLedger
  import opened ChannelRuns
  import opened ArbitraryPeer
  import opened ArbitraryHtlcs

  // ------------------------------------------------ the stored signature

  /** The stored signature is the peer's, on a commitment of this node at the saved index
      that pays it the saved amount. */
  predicate Countersigned(c: Config, me: Party, s: StatCom) {
    && s.sig.signer == Peer(me)
    && s.sig.tx.holder == me && s.sig.tx.idx == s.stateIdx && s.sig.tx.holderPoint == Pt(me, s.stateIdx)
    && s.sig.tx.holderOut == NetOut(c, s.myAmt)
  }

  /** A signature that was checked against t countersigns any record with t's index and amount. */
  lemma VerifiedCountersigns(c: Config, me: Party, t: StatCom, s: StatCom)
    requires VerifySig(c, me, t, s.sig) && s.stateIdx == t.stateIdx && s.myAmt == t.myAmt
    ensures Countersigned(c, me, s)
  {
    hide AllOuts, TheirAmt, NetOut, AmountsOk;
  }

  lemma SameCountersigned(c: Config, me: Party, s: StatCom, s': StatCom)
    requires Countersigned(c, me, s) && s'.sig == s.sig && s'.stateIdx == s.stateIdx && s'.myAmt == s.myAmt
    ensures Countersigned(c, me, s')
  {}

  lemma RepliesCountersigned(c: Config, n: Node)
    requires Countersigned(c, n.me, n.disk)
    ensures Countersigned(c, n.me, Refused(n).node.disk) && Countersigned(c, n.me, Failed(n).node.disk)
    ensures forall m :: Countersigned(c, n.me, Reply(n, m).node.disk)
    ensures forall t :: Countersigned(c, n.me, EmptyRev(n, t).node.disk)
  {
    hide SendRev, NetOut;
  }

  lemma DeltaAcceptedParts(before: StatCom, s: StatCom, sig: Sig)
    requires |s.htlcs| == |before.htlcs|
    ensures var r := DeltaAccepted(before, s, sig); r.sig == sig && r.stateIdx == s.stateIdx && r.myAmt == s.myAmt
  {
    hide Reclear;
  }

  lemma DeltaSigCountersigned(c: Config, n: Node, delta: int, sig: Sig)
    requires Countersigned(c, n.me, n.disk)
    ensures Countersigned(c, n.me, DeltaSigStep(c, n, delta, sig).node.disk)
  {
    hide Countersigned, VerifySig, EmptyRev, Failed, Refused, Reply, DeltaAffordable, DeltaCollision, DeltaAccepted,
         SendGapSigRev, SendSigRev;
    var taken := n.(cts := false);
    var s1 := if !n.cts then DeltaCollision(n.me, n.disk, delta) else n.disk;
    var s2 := if n.cts || s1.inProg.Some? then s1.(delta := delta) else s1;
    var s3 := DeltaTarget(s2, delta);
    RepliesCountersigned(c, taken);
    if VerifySig(c, n.me, s3.(elkPoint := s3.nextElkPoint), sig) {
      var saved := taken.(disk := DeltaAccepted(n.disk, s3, sig));
      DeltaAcceptedParts(n.disk, s3, sig);
      VerifiedCountersigns(c, n.me, s3.(elkPoint := s3.nextElkPoint), saved.disk);
      RepliesCountersigned(c, saved);
    }
  }

  lemma HashAcceptedParts(c: Config, me: Party, before: StatCom, collision: bool, s: StatCom, sig: Sig)
    requires |s.htlcs| == |before.htlcs| && s.inProg.Some?
    ensures var r := HashAccepted(c, me, before, collision, s, sig);
      r.sig == sig && r.stateIdx == s.stateIdx && r.myAmt == s.myAmt
  {
    hide Reclear;
  }

  lemma HashSigCountersigned(c: Config, n: Node, amt: int, rhash: Digest, locktime: nat, sig: Sig)
    requires Countersigned(c, n.me, n.disk)
    ensures Countersigned(c, n.me, HashSigStep(c, n, amt, rhash, locktime, sig).node.disk)
  {
    hide Countersigned, VerifySig, Failed, Refused, Reply, HashAffordable, HashCollision, HashAccepted, SendGapSigRev,
         SendSigRev, IncomingHtlc;
    var collision := !n.cts;
    var taken := n.(cts := false);
    var s1 := if collision then HashCollision(n.disk) else n.disk;
    var idx := if collision && n.disk.inProg.Some? then n.disk.inProg.value.idx else n.disk.htlcIdx;
    var s2 := s1.(inProg := Some(IncomingHtlc(n.me, s1, idx, amt, rhash, locktime)), stateIdx := s1.stateIdx + 1);
    RepliesCountersigned(c, taken);
    if VerifySig(c, n.me, s2.(elkPoint := s2.nextElkPoint), sig) {
      var saved := taken.(disk := HashAccepted(c, n.me, n.disk, collision, s2, sig));
      HashAcceptedParts(c, n.me, n.disk, collision, s2, sig);
      VerifiedCountersigns(c, n.me, s2.(elkPoint := s2.nextElkPoint), saved.disk);
      RepliesCountersigned(c, saved);
    }
  }

  lemma PreimageAcceptedParts(me: Party, before: StatCom, s: StatCom, sig: Sig)
    requires |s.htlcs| == |before.htlcs|
    ensures var r := PreimageAccepted(me, before, s, sig); r.sig == sig && r.stateIdx == s.stateIdx && r.myAmt == s.myAmt
  {
    hide Reclear;
  }

  lemma PreimageSigCountersigned(c: Config, n: Node, idx: nat, preimage: nat, sig: Sig, height: int)
    requires Countersigned(c, n.me, n.disk)
    ensures Countersigned(c, n.me, PreimageSigStep(c, n, idx, preimage, sig, height).node.disk)
  {
    hide Countersigned, VerifySig, EmptyRev, Failed, Refused, Reply, MayClear, PreimageCollision, PreimageTarget,
         PreimageAccepted, SendGapSigRev, SendSigRev;
    var taken := n.(cts := false);
    RepliesCountersigned(c, taken);
    if idx < |n.disk.htlcs| {
      var s1 := if n.cts then n.disk else PreimageCollision(n.disk);
      var s2 := PreimageTarget(s1, idx, preimage);
      if VerifySig(c, n.me, s2.(elkPoint := s2.nextElkPoint), sig) {
        var saved := taken.(disk := PreimageAccepted(n.me, n.disk, s2, sig));
        PreimageAcceptedParts(n.me, n.disk, s2, sig);
        VerifiedCountersigns(c, n.me, s2.(elkPoint := s2.nextElkPoint), saved.disk);
        RepliesCountersigned(c, saved);
      }
    }
  }

  lemma AdvanceParts(s: StatCom, elk: Elk, n2: Point)
    ensures var a := AdvanceElkrem(s, elk, n2);
      a.Some? ==> (a.value.sig == s.sig && a.value.stateIdx == s.stateIdx && a.value.myAmt == s.myAmt)
  {}

  lemma SigRevAcceptedParts(me: Party, s: StatCom, n2Base: HtlcBase)
    ensures var r := SigRevAccepted(me, s, n2Base); r.sig == s.sig && r.stateIdx == s.stateIdx && r.myAmt == s.myAmt
  {
    hide MarkCleared;
  }

  lemma SigRevCountersigned(c: Config, n: Node, sig: Sig, elk: Elk, n2Point: Point, n2Base: HtlcBase)
    requires Countersigned(c, n.me, n.disk)
    ensures Countersigned(c, n.me, SigRevStep(c, n, sig, elk, n2Point, n2Base).node.disk)
  {
    hide Countersigned, VerifySig, Failed, Refused, Reply, SendRev, AtRest, AdvanceElkrem, SigRevTarget, SigRevAccepted;
    RepliesCountersigned(c, n);
    var t := SigRevTarget(n.disk);
    var a := AdvanceElkrem(t.(sig := sig), elk, n2Point);
    if VerifySig(c, n.me, t.(elkPoint := t.nextElkPoint), sig) && a.Some? {
      var saved := n.(disk := SigRevAccepted(n.me, a.value, n2Base));
      AdvanceParts(t.(sig := sig), elk, n2Point);
      SigRevAcceptedParts(n.me, a.value, n2Base);
      VerifiedCountersigns(c, n.me, t.(elkPoint := t.nextElkPoint), saved.disk);
      RepliesCountersigned(c, saved);
    }
  }

  lemma GapAcceptedParts(me: Party, s: StatCom, sig: Sig, n2Base: HtlcBase)
    ensures var r := GapAccepted(me, s, sig, n2Base); r.sig == sig && r.stateIdx == s.stateIdx && r.myAmt == s.myAmt
  {
    hide TakeN2Base;
    TakeParts(s.(sig := sig), n2Base);
  }

  lemma TakeParts(s: StatCom, n2Base: HtlcBase)
    ensures var r := TakeN2Base(s, n2Base); r.sig == s.sig && r.stateIdx == s.stateIdx && r.myAmt == s.myAmt
  {}

  lemma GapSigRevCountersigned(c: Config, n: Node, sig: Sig, elk: Elk, n2Point: Point, n2Base: HtlcBase)
    requires Countersigned(c, n.me, n.disk)
    ensures Countersigned(c, n.me, GapSigRevStep(c, n, sig, elk, n2Point, n2Base).node.disk)
  {
    hide Countersigned, VerifySig, Failed, SendRev, InCollision, GapTarget, GapAccepted, AdvanceElkrem;
    RepliesCountersigned(c, n);
    var a := AdvanceElkrem(n.disk, elk, n2Point);
    if a.Some? {
      var t := GapTarget(a.value);
      if VerifySig(c, n.me, t.(elkPoint := t.nextElkPoint), sig) {
        var saved := n.(disk := GapAccepted(n.me, t, sig, n2Base));
        GapAcceptedParts(n.me, t, sig, n2Base);
        VerifiedCountersigns(c, n.me, t.(elkPoint := t.nextElkPoint), saved.disk);
        RepliesCountersigned(c, saved);
      }
    }
  }

  lemma RevAcceptedParts(s: StatCom, n2Base: HtlcBase)
    ensures var r := RevAccepted(s, n2Base); r.sig == s.sig && r.stateIdx == s.stateIdx && r.myAmt == s.myAmt
  {
    hide MarkCleared;
  }

  lemma RevCountersigned(c: Config, n: Node, elk: Elk, n2Point: Point, n2Base: HtlcBase)
    requires Countersigned(c, n.me, n.disk)
    ensures Countersigned(c, n.me, RevStep(c, n, elk, n2Point, n2Base).node.disk)
  {
    hide Countersigned, Failed, Refused, EmptyRev, SendRev, AtRest, AdvanceElkrem, RevAccepted;
    RepliesCountersigned(c, n);
    var a := AdvanceElkrem(n.disk, elk, n2Point);
    if a.Some? {
      AdvanceParts(n.disk, elk, n2Point);
      RevAcceptedParts(a.value, n2Base);
      SameCountersigned(c, n.me, n.disk, RevAccepted(a.value, n2Base));
    }
  }

  lemma StartCountersigned(c: Config, n: Node, op: Op, height: int)
    requires n.cts && (!op.Clear? ==> op.amt >= 0) && Countersigned(c, n.me, n.disk)
    ensures Countersigned(c, n.me, StartOp(c, n, op, height).node.disk)
  {
    hide Countersigned, SendDeltaSig, SendHashSig, SendPreimageSig, Balances, MayClear;
    SameCountersigned(c, n.me, n.disk, StartOp(c, n, op, height).node.disk);
  }

  lemma DoCountersigned(c: Config, n: Node, act: Act)
    requires Possible(n, act) && Countersigned(c, n.me, n.disk)
    ensures Countersigned(c, n.me, Do(c, n, act).node.disk)
  {
    hide Countersigned, StartOp, DeltaSigStep, HashSigStep, PreimageSigStep, SigRevStep, GapSigRevStep, RevStep;
    match act
    case TimedOut => RepliesCountersigned(c, n);
    case Begin(op, height) => StartCountersigned(c, n, op, height);
    case Get(DeltaSig(delta, sig), _) => DeltaSigCountersigned(c, n, delta, sig);
    case Get(HashSig(amt, rhash, locktime, sig), _) => HashSigCountersigned(c, n, amt, rhash, locktime, sig);
    case Get(PreimageSig(idx, preimage, sig), height) => PreimageSigCountersigned(c, n, idx, preimage, sig, height);
    case Get(SigRev(sig, elk, n2Point, n2Base), _) => SigRevCountersigned(c, n, sig, elk, n2Point, n2Base);
    case Get(GapSigRev(sig, elk, n2Point, n2Base), _) => GapSigRevCountersigned(c, n, sig, elk, n2Point, n2Base);
    case Get(Rev(elk, n2Point, n2Base), _) => RevCountersigned(c, n, elk, n2Point, n2Base);
  }

  /** Whatever the peer sends, with any HTLCs: the stored signature is always the peer's, on
      a commitment of this node at the saved index that pays it the saved amount. */
  lemma {:induction false} AlwaysCountersigned(c: Config, t: Story, acts: seq<Act>)
    requires IsStory(c, t, acts) && Countersigned(c, t.node.me, t.node.disk)
    ensures var n := Ending(c, t, acts).node; n.me == t.node.me && Countersigned(c, n.me, n.disk)
    decreases |acts|
  {
    hide Do, Possible, Countersigned, Careful;
    if acts != [] {
      DoCountersigned(c, t.node, acts[0]);
      DoKeepsParty(c, t.node, acts[0]);
      AlwaysCountersigned(c, Step(c, t, acts[0]), acts[1..]);
    }
  }

  lemma DoKeepsParty(c: Config, n: Node, act: Act)
    requires Possible(n, act)
    ensures Do(c, n, act).node.me == n.me
  {
    hide Do;
    DoCareful(c, n, act);
  }

  // ---------------------------------------------------------- refused messages

  /** The record after a step is the one before it, but for the failed flag. */
  predicate Unmoved(s: StatCom, s': StatCom) {
    s'.(failed := s.failed) == s
  }

  /** A revocation whose secret does not open the stored point changes nothing. */
  lemma WrongSecretRefused(c: Config, n: Node, m: Msg, height: int)
    requires m.SigRev? || ((m.GapSigRev? || m.Rev?) && n.disk.stateIdx > 0)
    requires PointOf(m.elk) != n.disk.elkPoint
    ensures Unmoved(n.disk, Receive(c, n, m, height).node.disk)
  {
    hide SigRevStep, GapSigRevStep, RevStep, Unmoved;
    match m
    case SigRev(sig, elk, n2Point, n2Base) => SigRevWrongSecret(c, n, sig, elk, n2Point, n2Base);
    case GapSigRev(sig, elk, n2Point, n2Base) => GapWrongSecret(c, n, sig, elk, n2Point, n2Base);
    case Rev(elk, n2Point, n2Base) => RevWrongSecret(c, n, elk, n2Point, n2Base);
  }

  lemma RepliesUnmoved(n: Node)
    ensures Unmoved(n.disk, Refused(n).node.disk) && Unmoved(n.disk, Failed(n).node.disk)
    ensures forall m :: Unmoved(n.disk, Reply(n, m).node.disk)
    ensures forall t :: Unmoved(n.disk, EmptyRev(n, t).node.disk)
  {
    hide SendRev;
  }

  lemma WrongSecret(s: StatCom, elk: Elk, n2Point: Point)
    requires PointOf(elk) != s.elkPoint && s.stateIdx > 0
    ensures AdvanceElkrem(s, elk, n2Point).None?
  {}

  lemma SigRevWrongSecret(c: Config, n: Node, sig: Sig, elk: Elk, n2Point: Point, n2Base: HtlcBase)
    requires PointOf(elk) != n.disk.elkPoint
    ensures Unmoved(n.disk, SigRevStep(c, n, sig, elk, n2Point, n2Base).node.disk)
  {
    hide VerifySig, SendRev, AtRest, SigRevTarget, SigRevAccepted, AdvanceElkrem, Unmoved, Failed, Reply;
    SigRevTargetPoint(n.disk);
    WrongSecret(SigRevTarget(n.disk).(sig := sig), elk, n2Point);
    RepliesUnmoved(n);
  }

  lemma SigRevTargetPoint(s: StatCom)
    ensures SigRevTarget(s).elkPoint == s.elkPoint && SigRevTarget(s).stateIdx == s.stateIdx + 1
  {
    hide ClearingGain, OutgoingCost;
  }

  lemma GapWrongSecret(c: Config, n: Node, sig: Sig, elk: Elk, n2Point: Point, n2Base: HtlcBase)
    requires PointOf(elk) != n.disk.elkPoint && n.disk.stateIdx > 0
    ensures Unmoved(n.disk, GapSigRevStep(c, n, sig, elk, n2Point, n2Base).node.disk)
  {
    hide VerifySig, SendRev, InCollision, GapTarget, GapAccepted, AdvanceElkrem, Unmoved, Failed;
    WrongSecret(n.disk, elk, n2Point);
    RepliesUnmoved(n);
  }

  lemma RevWrongSecret(c: Config, n: Node, elk: Elk, n2Point: Point, n2Base: HtlcBase)
    requires PointOf(elk) != n.disk.elkPoint && n.disk.stateIdx > 0
    ensures Unmoved(n.disk, RevStep(c, n, elk, n2Point, n2Base).node.disk)
  {
    hide AtRest, RevAccepted, AdvanceElkrem, Unmoved, Failed, Refused, EmptyRev;
    WrongSecret(n.disk, elk, n2Point);
    RepliesUnmoved(n);
  }

  /** With nothing under way a revocation changes nothing, whatever its secret. */
  lemma RestUnmoved(c: Config, n: Node, m: Msg, height: int)
    requires m.SigRev? || m.Rev?
    requires n.disk.delta == 0 && n.disk.inProg.None? && forall h <- n.disk.htlcs :: !h.clearing
    ensures Unmoved(n.disk, Receive(c, n, m, height).node.disk)
  {
    hide SendRev, SigRevComplete, AdvanceElkrem, RevAccepted;
  }

  /** A GapSigRev changes nothing unless two operations have crossed. */
  lemma NoGapUnmoved(c: Config, n: Node, m: Msg, height: int)
    requires m.GapSigRev?
    requires n.disk.collision == 0 && n.disk.colliding.None? && !n.disk.collHashDelta && !n.disk.collHashPreimage
    requires !n.disk.collPreimages && !n.disk.collPreimageDelta
    ensures Unmoved(n.disk, Receive(c, n, m, height).node.disk)
  {
    hide VerifySig, SendRev, AdvanceElkrem, GapTarget, GapAccepted;
  }

  /** While a node that has accepted a push waits for the revocation, another opening message
      but an HTLC, or a SigRev, changes nothing; at most the last revocation is sent again. */
  lemma WaitingUnmoved(c: Config, n: Node, m: Msg, height: int)
    requires n.disk.delta > 0 && (m.DeltaSig? || m.PreimageSig? || m.SigRev?)
    ensures var r := Receive(c, n, m, height);
      Unmoved(n.disk, r.node.disk) && |r.out| <= 1 && forall x <- r.out :: x.Rev?
  {
    hide DeltaCollision, SendRev, VerifySig;
    if m.DeltaSig? { DeltaKeepsDelta(n.me, n.disk, m.delta); }
    RevIsRev(n.me, n.disk);
    if m.DeltaSig? { RevIsRev(n.me, DeltaCollision(n.me, n.disk, m.delta)); }
  }

  lemma RevIsRev(me: Party, s: StatCom)
    ensures var m := SendRev(me, s); m.Some? ==> m.value.Rev?
  {}

  /** While a node's own push is under way a Rev changes nothing. */
  lemma PushingUnmoved(c: Config, n: Node, m: Msg, height: int)
    requires n.disk.delta < 0 && m.Rev?
    ensures Unmoved(n.disk, Receive(c, n, m, height).node.disk)
  {
    hide SendRev, AdvanceElkrem, RevAccepted, AtRest;
  }

  /** With a push under way, or an HTLC when it is an HTLC that is started, a node starts
      nothing new. */
  lemma BusyStartsNothing(c: Config, n: Node, op: Op, height: int)
    requires n.cts && (!op.Clear? ==> op.amt >= 0)
    requires n.disk.delta != 0 || (n.disk.inProg.Some? && !op.Push?)
    ensures var r := StartOp(c, n, op, height); !r.ok && r.out == [] && Unmoved(n.disk, r.node.disk)
  {
    hide SendDeltaSig, SendHashSig, SendPreimageSig, Balances, MayClear, Unmoved, Failed, Refused, Reply, OutgoingHtlc,
         MarkClearing;
    NothingDone(n, n);
    NothingDone(n, n.(cts := false));
  }

  lemma NothingDone(n: Node, n': Node)
    requires n'.disk == n.disk
    ensures var r := Refused(n'); !r.ok && r.out == [] && Unmoved(n.disk, r.node.disk)
    ensures var r := Failed(n'); !r.ok && r.out == [] && Unmoved(n.disk, r.node.disk)
  {}

  /** On a channel that has been closed no operation of the peer changes anything. */
  lemma ClosedUnmoved(c: Config, n: Node, m: Msg, height: int)
    requires n.closed && (m.DeltaSig? || m.HashSig? || m.PreimageSig?)
    ensures var r := Receive(c, n, m, height); !r.ok && r.out == [] && r.node.disk == n.disk
  {
    hide DeltaCollision, HashCollision, PreimageCollision, VerifySig, DeltaTarget, PreimageTarget, MayClear;
  }

  /** On a channel that has failed the node starts nothing, and keeps its token. */
  lemma FailedStartsNothing(c: Config, n: Node, op: Op, height: int)
    requires n.cts && n.disk.failed && (!op.Clear? ==> op.amt >= 0)
    ensures StartOp(c, n, op, height) == Res(n, [], false, None)
  {}

  /** An operation that is refused leaves the node as it was, token included, unless the
      channel fails or the signature for a push could not be made. */
  lemma RefusedKeepsToken(c: Config, n: Node, op: Op, height: int)
    requires n.cts && (!op.Clear? ==> op.amt >= 0)
    ensures var r := StartOp(c, n, op, height);
      r.ok || r.node == n || r.node.disk.failed
      || (op.Push? && r.node.disk == n.disk.(delta := -op.amt) && SendDeltaSig(c, n.me, r.node.disk).None?)
  {
    hide SendDeltaSig, SendHashSig, SendPreimageSig, Balances, MayClear;
  }

  /** A closed channel is not put on chain again. */
  lemma ClosedStaysClosed(c: Config, n: Node)
    requires n.closed
    ensures BreakTx(c, n).None?
  {}

  /** A revocation names a secret and a point that the elkrem tree has. */
  predicate InRange(me: Party, m: Msg) {
    Reveals(m) ==>
      && m.elk.Elk? && m.elk.owner == me && m.elk.idx <= MAX_INDEX
      && m.n2Point.secret.Elk? && m.n2Point.secret.owner == me && m.n2Point.secret.idx <= MAX_INDEX
  }

  /** At the end of the range of the tree a node sends no further revocations. */
  lemma RevocationsInRange(c: Config, me: Party, s: StatCom)
    ensures forall m :: Some(m) == SendSigRev(c, me, s) || Some(m) == SendGapSigRev(c, me, s) || Some(m) == SendRev(me, s) ==>
      InRange(me, m) && Reveals(m) && m.n2Point == PointOf(Elk(me, s.stateIdx + 2))
  {
    hide SignState, ClearingGain, OutgoingCost;
  }

  // --------------------------------------------------------- what a peer can offer

  lemma UnclearedSame(hs: seq<HTLC>)
    ensures UnclearedSum(Unclear(hs)) == UnclearedSum(hs)
  {
    if hs != [] {
      var m := |hs| - 1;
      UnclearedSame(hs[..m]);
      assert Unclear(hs)[..m] == Unclear(hs[..m]);
    }
  }

  /** What the peer has outside uncleared HTLCs. */
  function PeerAmount(c: Config, s: StatCom): int {
    c.value - UnclearedSum(s.htlcs) - s.myAmt
  }

  lemma CollisionBalances(c: Config, me: Party, s: StatCom, delta: int)
    ensures Balances(c, HashCollision(s)) == (s.myAmt, PeerAmount(c, s))
    ensures Balances(c, DeltaCollision(me, s, delta)) == (s.myAmt, PeerAmount(c, s))
    ensures Balances(c, s) == (s.myAmt, PeerAmount(c, s))
  {
    hide UnclearedSum, AnyClearing, Unclear;
    UnclearedSame(s.htlcs);
  }

  /** An HTLC is taken from the peer only for an amount that is large enough and that
      leaves the peer its minimum output, whatever its signature. */
  lemma HashSigBounded(c: Config, n: Node, amt: int, rhash: Digest, locktime: nat, sig: Sig, height: int)
    requires !(MIN_OUTPUT <= amt <= PeerAmount(c, n.disk) - MIN_OUTPUT)
    ensures var r := Receive(c, n, HashSig(amt, rhash, locktime, sig), height);
      !r.ok && r.out == [] && Unmoved(n.disk, r.node.disk)
  {
    hide VerifySig, HashReply, HashAccepted, IncomingHtlc, HashCollision, PeerAmount;
    CollisionBalances(c, n.me, n.disk, 0);
  }

  lemma DeltaSigBounded(c: Config, n: Node, delta: int, sig: Sig, height: int)
    requires n.disk.delta <= 0
    requires !(1 <= delta <= PeerAmount(c, n.disk) - c.fee - MIN_OUTPUT && n.disk.myAmt + delta - c.fee >= MIN_OUTPUT)
    ensures var r := Receive(c, n, DeltaSig(delta, sig), height);
      !r.ok && r.out == [] && Unmoved(n.disk, r.node.disk)
  {
    hide VerifySig, DeltaReply, DeltaAccepted, PeerAmount, DeltaCollision, DeltaAffordable, Unmoved, Failed, Refused, EmptyRev;
    var taken := n.(cts := false);
    var s1 := if !n.cts then DeltaCollision(n.me, n.disk, delta) else n.disk;
    NothingDone(n, taken);
    DeltaKeepsDelta(n.me, n.disk, delta);
    NotAffordable(c, n, s1, delta);
  }

  lemma NotAffordable(c: Config, n: Node, s: StatCom, delta: int)
    requires s == n.disk || s == DeltaCollision(n.me, n.disk, delta)
    requires !(1 <= delta <= PeerAmount(c, n.disk) - c.fee - MIN_OUTPUT && n.disk.myAmt + delta - c.fee >= MIN_OUTPUT)
    ensures !DeltaAffordable(c, s, delta) && !DeltaAffordable(c, s.(delta := delta), delta)
  {
    hide PeerAmount, UnclearedSum, DeltaCollision, Balances;
    CollisionBalances(c, n.me, n.disk, delta);
    SameBalances(c, s, delta);
  }

  lemma DeltaKeepsDelta(me: Party, s: StatCom, delta: int)
    ensures DeltaCollision(me, s, delta).delta == s.delta
  {
    hide Unclear, AnyClearing;
  }

  lemma SameBalances(c: Config, s: StatCom, delta: int)
    ensures Balances(c, s.(delta := delta)) == Balances(c, s)
  {}
}
