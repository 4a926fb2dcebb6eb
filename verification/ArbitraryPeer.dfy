/** One node of a channel whose peer sends anything at all. */
module ArbitraryPeer {
  import opened Wrappers
  import opened ChannelState
  import opened ChannelSteps
  import opened ChannelLedger
  import opened ChannelModes
  import opened ChannelHonest
  import opened ChannelRuns
  import opened ChannelIndices

  /** The node's own operations, whatever message comes in, or a timeout. */
  datatype Act = Begin(op: Op, height: int) | Get(msg: Msg, height: int) | TimedOut

  predicate Possible(n: Node, act: Act) {
    act.Begin? ==> n.cts && (!act.op.Clear? ==> act.op.amt >= 0)
  }

  function Do(c: Config, n: Node, act: Act): Res
    requires Possible(n, act)
  {
    match act
    case Begin(op, height) => StartOp(c, n, op, height)
    case Get(msg, height) => Receive(c, n, msg, height)
    case TimedOut => Failed(n)
  }

  /** No HTLC is offered by either side; pushes and everything else may happen. */
  predicate NoOffer(act: Act) {
    match act
    case Begin(op, _) => !op.Offer?
    case Get(msg, _) => !msg.HashSig?
    case TimedOut => true
  }

  /** The node and everything it has sent. */
  datatype Story = Story(node: Node, sent: seq<Msg>)

  predicate IsStory(c: Config, t: Story, acts: seq<Act>)
    decreases |acts|
  {
    acts != [] ==> Possible(t.node, acts[0]) && IsStory(c, Step(c, t, acts[0]), acts[1..])
  }

  function Step(c: Config, t: Story, act: Act): Story
    requires Possible(t.node, act)
  {
    var r := Do(c, t.node, act);
    Story(r.node, t.sent + r.out)
  }

  function Ending(c: Config, t: Story, acts: seq<Act>): Story
    requires IsStory(c, t, acts)
    decreases |acts|
  {
    if acts == [] then t else Ending(c, Step(c, t, acts[0]), acts[1..])
  }

  // --------------------------------------------------------------- revelations

  predicate Reveals(m: Msg) {
    m.SigRev? || m.GapSigRev? || m.Rev?
  }

  /** A message reveals only a secret of this node, older than index limit. */
  predicate OldSecret(me: Party, m: Msg, limit: nat) {
    Reveals(m) ==> m.elk.Elk? && m.elk.owner == me && m.elk.idx < limit
  }

  predicate Careful(n: Node, r: Res) {
    && r.node.me == n.me
    && r.node.disk.stateIdx >= n.disk.stateIdx
    && forall m <- r.out :: OldSecret(n.me, m, r.node.disk.stateIdx)
  }

  /** A reply made from the record that was just saved reveals the state before it. */
  lemma RepliesCareful(c: Config, n: Node)
    ensures Careful(n, Reply(n, SendSigRev(c, n.me, n.disk)))
    ensures Careful(n, Reply(n, SendGapSigRev(c, n.me, n.disk)))
    ensures Careful(n, Reply(n, SendRev(n.me, n.disk)))
  {
    hide SignState, ClearingGain;
  }

  lemma EmptyRevCareful(n: Node, s: StatCom)
    requires s.stateIdx == n.disk.stateIdx
    ensures Careful(n, EmptyRev(n, s))
  {}

  lemma CarefulOnward(n: Node, n': Node, r: Res)
    requires n'.me == n.me && n'.disk.stateIdx >= n.disk.stateIdx && Careful(n', r)
    ensures Careful(n, r)
  {}

  lemma DeltaSigCareful(c: Config, n: Node, delta: int, sig: Sig)
    ensures Careful(n, DeltaSigStep(c, n, delta, sig))
  {
    hide VerifySig, SendGapSigRev, SendSigRev, Careful, DeltaAffordable, Unclear, AnyClearing, Reclear;
    var taken := n.(cts := false);
    var s1 := if !n.cts then DeltaCollision(n.me, n.disk, delta) else n.disk;
    var s2 := if n.cts || s1.inProg.Some? then s1.(delta := delta) else s1;
    var saved := taken.(disk := DeltaAccepted(n.disk, DeltaTarget(s2, delta), sig));
    RefusalsCareful(n, taken);
    EmptyRevCareful(taken, s1);
    CarefulOnward(n, taken, EmptyRev(taken, s1));
    SavedCareful(c, n, saved);
  }

  /** Refusing a message, or failing the channel, reveals nothing. */
  lemma RefusalsCareful(n: Node, taken: Node)
    requires taken.me == n.me && taken.disk == n.disk
    ensures Careful(n, Refused(taken)) && Careful(n, Failed(taken))
  {}

  lemma SavedCareful(c: Config, n: Node, saved: Node)
    requires saved.me == n.me && saved.disk.stateIdx >= n.disk.stateIdx
    ensures Careful(n, DeltaReply(c, saved)) && Careful(n, HashReply(c, saved)) && Careful(n, PreimageReply(c, saved))
  {
    hide SendGapSigRev, SendSigRev;
    RepliesCareful(c, saved);
  }

  lemma HashSavesIndex(c: Config, me: Party, before: StatCom, collision: bool, s: StatCom, sig: Sig)
    requires |s.htlcs| == |before.htlcs| && s.inProg.Some?
    ensures HashAccepted(c, me, before, collision, s, sig).stateIdx == s.stateIdx
  {}

  lemma HashSigCareful(c: Config, n: Node, amt: int, rhash: Digest, locktime: nat, sig: Sig)
    ensures Careful(n, HashSigStep(c, n, amt, rhash, locktime, sig))
  {
    hide VerifySig, HashReply, HashAccepted, OrderHtlcs, HashCollision, HashAffordable, Refused, Failed, IncomingHtlc, Careful;
    var collision := !n.cts;
    var taken := n.(cts := false);
    var s1 := if collision then HashCollision(n.disk) else n.disk;
    HashCollisionKeepsIndex(n.disk);
    var idx := if collision && n.disk.inProg.Some? then n.disk.inProg.value.idx else n.disk.htlcIdx;
    var s2 := s1.(inProg := Some(IncomingHtlc(n.me, s1, idx, amt, rhash, locktime)), stateIdx := s1.stateIdx + 1);
    RefusalsCareful(n, taken);
    HashSavesIndex(c, n.me, n.disk, collision, s2, sig);
    SavedCareful(c, n, taken.(disk := HashAccepted(c, n.me, n.disk, collision, s2, sig)));
  }

  lemma HashCollisionKeepsIndex(s: StatCom)
    ensures HashCollision(s).stateIdx == s.stateIdx
  {}

  lemma PreimageSigCareful(c: Config, n: Node, idx: nat, preimage: nat, sig: Sig, height: int)
    ensures Careful(n, PreimageSigStep(c, n, idx, preimage, sig, height))
  {
    hide VerifySig, PreimageReply, Careful, Unclear, AnyClearing, Reclear, MayClear, MarkClearing;
    var taken := n.(cts := false);
    RefusalsCareful(n, taken);
    EmptyRevCareful(taken, n.disk);
    CarefulOnward(n, taken, EmptyRev(taken, n.disk));
    if idx < |n.disk.htlcs| {
      var s1 := if n.cts then n.disk else PreimageCollision(n.disk);
      SavedCareful(c, n, taken.(disk := PreimageAccepted(n.me, n.disk, PreimageTarget(s1, idx, preimage), sig)));
    }
  }

  lemma SigRevCompleteCareful(c: Config, n: Node, sig: Sig, elk: Elk, n2Point: Point, n2Base: HtlcBase)
    ensures Careful(n, SigRevComplete(c, n, sig, elk, n2Point, n2Base))
  {
    hide VerifySig, SigRevAccepted, ClearingGain, SendRev;
    SigRevSavesIndex(n.me, n.disk, sig, elk, n2Point, n2Base);
    var r := SigRevComplete(c, n, sig, elk, n2Point, n2Base);
    if r.out != [] {
      SendRevOld(n.me, r.node.disk);
    }
  }

  lemma SigRevCareful(c: Config, n: Node, sig: Sig, elk: Elk, n2Point: Point, n2Base: HtlcBase)
    ensures Careful(n, SigRevStep(c, n, sig, elk, n2Point, n2Base))
  {
    hide SigRevComplete, AtRest, Careful, SendRev, SendSigRev, SendGapSigRev, Reply, Failed, Refused;
    RefusalsCareful(n, n);
    RepliesCareful(c, n);
    SigRevCompleteCareful(c, n, sig, elk, n2Point, n2Base);
  }

  lemma SigRevSavesIndex(me: Party, s: StatCom, sig: Sig, elk: Elk, n2Point: Point, n2Base: HtlcBase)
    ensures var advanced := AdvanceElkrem(SigRevTarget(s).(sig := sig), elk, n2Point);
      advanced.Some? ==> SigRevAccepted(me, advanced.value, n2Base).stateIdx == s.stateIdx + 1
  {}

  lemma SendRevOld(me: Party, s: StatCom)
    ensures var m := SendRev(me, s); m.Some? ==> OldSecret(me, m.value, s.stateIdx)
  {}

  lemma GapSigRevCareful(c: Config, n: Node, sig: Sig, elk: Elk, n2Point: Point, n2Base: HtlcBase)
    ensures Careful(n, GapSigRevStep(c, n, sig, elk, n2Point, n2Base))
  {
    hide VerifySig, ClearingGain, InCollision, GapAccepted, SendRev, Failed;
    RefusalsCareful(n, n);
    var a := AdvanceElkrem(n.disk, elk, n2Point);
    if a.Some? {
      var saved := n.(disk := GapAccepted(n.me, GapTarget(a.value), sig, n2Base));
      GapSavesIndex(n.me, n.disk, elk, n2Point, sig, n2Base);
      SendRevOld(n.me, saved.disk);
      RefusalsCareful(saved, saved);
      CarefulOnward(n, saved, Failed(saved));
    }
  }

  lemma GapSavesIndex(me: Party, s: StatCom, elk: Elk, n2Point: Point, sig: Sig, n2Base: HtlcBase)
    ensures var a := AdvanceElkrem(s, elk, n2Point);
      a.Some? ==> GapAccepted(me, GapTarget(a.value), sig, n2Base).stateIdx == s.stateIdx + 1
  {
    hide ClearingGain, OutgoingCost, TakeN2Base;
    GapAcceptedIndex(me, s, sig, n2Base);
    var a := AdvanceElkrem(s, elk, n2Point);
    if a.Some? {
      GapAcceptedIndex(me, GapTarget(a.value), sig, n2Base);
    }
  }

  lemma GapAcceptedIndex(me: Party, s: StatCom, sig: Sig, n2Base: HtlcBase)
    ensures GapAccepted(me, s, sig, n2Base).stateIdx == s.stateIdx
  {}

  lemma RevCareful(c: Config, n: Node, elk: Elk, n2Point: Point, n2Base: HtlcBase)
    ensures Careful(n, RevStep(c, n, elk, n2Point, n2Base))
  {
    hide MarkCleared, AtRest;
  }

  lemma StartCareful(c: Config, n: Node, op: Op, height: int)
    requires n.cts && (!op.Clear? ==> op.amt >= 0)
    ensures Careful(n, StartOp(c, n, op, height))
  {
    hide SignState, Balances, MayClear;
  }

  lemma DoCareful(c: Config, n: Node, act: Act)
    requires Possible(n, act)
    ensures Careful(n, Do(c, n, act))
  {
    hide Careful, StartOp, DeltaSigStep, HashSigStep, PreimageSigStep, SigRevStep, GapSigRevStep, RevStep;
    match act
    case TimedOut => RefusalsCareful(n, n);
    case Begin(op, height) => StartCareful(c, n, op, height);
    case Get(DeltaSig(delta, sig), _) => DeltaSigCareful(c, n, delta, sig);
    case Get(HashSig(amt, rhash, locktime, sig), _) => HashSigCareful(c, n, amt, rhash, locktime, sig);
    case Get(PreimageSig(idx, preimage, sig), height) => PreimageSigCareful(c, n, idx, preimage, sig, height);
    case Get(SigRev(sig, elk, n2Point, n2Base), _) => SigRevCareful(c, n, sig, elk, n2Point, n2Base);
    case Get(GapSigRev(sig, elk, n2Point, n2Base), _) => GapSigRevCareful(c, n, sig, elk, n2Point, n2Base);
    case Get(Rev(elk, n2Point, n2Base), _) => RevCareful(c, n, elk, n2Point, n2Base);
  }

  /** Against any peer, with any mix of pushes, offers and clears: no secret at or
      above the saved index is ever sent, and the saved index never goes down. */
  lemma {:induction false} NeverRevealsCurrent(c: Config, t: Story, acts: seq<Act>)
    requires IsStory(c, t, acts)
    requires forall m <- t.sent :: OldSecret(t.node.me, m, t.node.disk.stateIdx)
    ensures var t' := Ending(c, t, acts);
      && t'.node.me == t.node.me && t'.node.disk.stateIdx >= t.node.disk.stateIdx
      && forall m <- t'.sent :: OldSecret(t.node.me, m, t'.node.disk.stateIdx)
    decreases |acts|
  {
    hide Do, Possible;
    if acts != [] {
      DoCareful(c, t.node, acts[0]);
      NeverRevealsCurrent(c, Step(c, t, acts[0]), acts[1..]);
    }
  }

  lemma DoIndexed(c: Config, n: Node, act: Act)
    requires Possible(n, act) && Indexed(n.disk)
    ensures Indexed(Do(c, n, act).node.disk)
  {
    hide Indexed, PushChannel, OfferHTLC, ClearHTLC, Receive;
    match act
    case TimedOut => FailIndexed(n);
    case Get(msg, height) => ReceiveIndexed(c, n, msg, height);
    case Begin(Push(amt), _) => PushIndexed(c, n, amt);
    case Begin(Offer(amt, rhash, locktime), _) => OfferIndexed(c, n, amt, rhash, locktime);
    case Begin(Clear(idx, preimage), height) => ClearIndexed(c, n, idx, preimage, height);
  }

  /** Whatever the peer sends, HTLCs[i].Idx is i and HTLCIdx is the list's length. */
  lemma {:induction false} AlwaysIndexed(c: Config, t: Story, acts: seq<Act>)
    requires IsStory(c, t, acts) && Indexed(t.node.disk)
    ensures var s := Ending(c, t, acts).node.disk;
      s.htlcIdx == |s.htlcs| && forall i :: 0 <= i < |s.htlcs| ==> s.htlcs[i].idx == i
    decreases |acts|
  {
    hide Do, Possible;
    if acts != [] {
      DoIndexed(c, t.node, acts[0]);
      AlwaysIndexed(c, Step(c, t, acts[0]), acts[1..]);
    }
  }

  // ------------------------------------------------------ breaking the channel

  /** No HTLC is in the record, and the stored signature is the peer's, on the
      commitment this node would build from the stored index and amount. */
  predicate Breakable(c: Config, n: Node) {
    && n.disk.htlcs == [] && n.disk.inProg.None? && n.disk.colliding.None?
    && VerifySig(c, n.me, n.disk, n.disk.sig)
  }

  /** Without HTLCs the commitment I hold depends on the index and my amount only. */
  lemma MineFixed(c: Config, me: Party, s: StatCom, t: StatCom)
    requires s.htlcs == t.htlcs == [] && s.inProg.None? && t.inProg.None? && s.colliding.None? && t.colliding.None?
    requires s.stateIdx == t.stateIdx && s.myAmt == t.myAmt
    ensures BuildStateTx(c, me, s, true) == BuildStateTx(c, me, t, true)
  {
    hide Assemble;
  }

  lemma StillBreakable(c: Config, n: Node, s: StatCom, n': Node)
    requires s.htlcs == n'.disk.htlcs == [] && s.inProg.None? && n'.disk.inProg.None?
    requires s.colliding.None? && n'.disk.colliding.None?
    requires s.stateIdx == n'.disk.stateIdx && s.myAmt == n'.disk.myAmt && n.me == n'.me
    requires VerifySig(c, n.me, s, n'.disk.sig)
    ensures Breakable(c, n')
  {}

  lemma NoneClearing(s: StatCom)
    requires s.htlcs == []
    ensures !AnyClearing(s.htlcs) && ClearingGain(s.htlcs) == 0
  {}

  /** Replies and failures leave the record breakable. */
  lemma ReplyBreakable(c: Config, n: Node)
    requires Breakable(c, n)
    ensures Breakable(c, DeltaReply(c, n).node) && Breakable(c, Fail(n))
  {
    hide VerifySig, SendSigRev, SendGapSigRev, Breakable;
    Unpack(c, n);
    StillBreakable(c, n, n.disk, Fail(n));
  }

  /** Neither does failing, or sending a message or failing if there is none. */
  lemma FailBreakable(c: Config, n: Node)
    requires Breakable(c, n)
    ensures Breakable(c, Failed(n).node) && forall m :: Breakable(c, Reply(n, m).node)
  {
    hide Breakable;
    ReplyBreakable(c, n);
  }

  lemma DeltaAcceptedBreakable(c: Config, n: Node, s: StatCom, delta: int, sig: Sig)
    requires Breakable(c, n)
    requires s.htlcs == [] && s.inProg.None? && s.colliding.None?
    requires var t := DeltaTarget(s, delta); VerifySig(c, n.me, t.(elkPoint := t.nextElkPoint), sig)
    ensures Breakable(c, n.(disk := DeltaAccepted(n.disk, DeltaTarget(s, delta), sig)))
  {}

  lemma DeltaSigBreakable(c: Config, n: Node, delta: int, sig: Sig)
    requires Breakable(c, n)
    ensures Breakable(c, DeltaSigStep(c, n, delta, sig).node)
  {
    hide VerifySig, DeltaReply, DeltaAccepted, SendRev, DeltaAffordable, AnyClearing, Breakable;
    Unpack(c, n);
    NoneClearing(n.disk);
    var taken := n.(cts := false);
    var s1 := if !n.cts then DeltaCollision(n.me, n.disk, delta) else n.disk;
    var s2 := if n.cts || s1.inProg.Some? then s1.(delta := delta) else s1;
    var s3 := DeltaTarget(s2, delta);
    StillBreakable(c, n, n.disk, taken);
    ReplyBreakable(c, taken);
    if VerifySig(c, n.me, s3.(elkPoint := s3.nextElkPoint), sig) {
      DeltaAcceptedBreakable(c, taken, s2, delta, sig);
      ReplyBreakable(c, taken.(disk := DeltaAccepted(n.disk, s3, sig)));
    }
  }

  lemma Unpack(c: Config, n: Node)
    requires Breakable(c, n)
    ensures n.disk.htlcs == [] && n.disk.inProg.None? && n.disk.colliding.None? && VerifySig(c, n.me, n.disk, n.disk.sig)
  {}

  lemma SigRevAcceptedBreakable(c: Config, n: Node, sig: Sig, elk: Elk, n2Point: Point, n2Base: HtlcBase)
    requires Breakable(c, n)
    requires var t := SigRevTarget(n.disk); VerifySig(c, n.me, t.(elkPoint := t.nextElkPoint), sig)
    requires AdvanceElkrem(SigRevTarget(n.disk).(sig := sig), elk, n2Point).Some?
    ensures var s := AdvanceElkrem(SigRevTarget(n.disk).(sig := sig), elk, n2Point).value;
      Breakable(c, n.(disk := SigRevAccepted(n.me, s, n2Base)))
  {
    hide VerifySig, Breakable;
    Unpack(c, n);
    var t := SigRevTarget(n.disk);
    var s := AdvanceElkrem(t.(sig := sig), elk, n2Point).value;
    StillBreakable(c, n, t.(elkPoint := t.nextElkPoint), n.(disk := SigRevAccepted(n.me, s, n2Base)));
  }

  lemma SigRevCompleteBreakable(c: Config, n: Node, sig: Sig, elk: Elk, n2Point: Point, n2Base: HtlcBase)
    requires Breakable(c, n)
    ensures Breakable(c, SigRevComplete(c, n, sig, elk, n2Point, n2Base).node)
  {
    hide VerifySig, SendRev, SigRevTarget, SigRevAccepted, AdvanceElkrem, Breakable, Fail;
    ReplyBreakable(c, n);
    var t := SigRevTarget(n.disk);
    var advanced := AdvanceElkrem(t.(sig := sig), elk, n2Point);
    if VerifySig(c, n.me, t.(elkPoint := t.nextElkPoint), sig) && advanced.Some? {
      SigRevAcceptedBreakable(c, n, sig, elk, n2Point, n2Base);
      var saved := n.(disk := SigRevAccepted(n.me, advanced.value, n2Base));
      ReplyBreakable(c, saved);
      TokenBack(c, saved);
    }
  }

  lemma SigRevBreakable(c: Config, n: Node, sig: Sig, elk: Elk, n2Point: Point, n2Base: HtlcBase)
    requires Breakable(c, n)
    ensures Breakable(c, SigRevStep(c, n, sig, elk, n2Point, n2Base).node)
  {
    hide SigRevComplete, SendRev, AtRest, Breakable, Reply, Failed;
    FailBreakable(c, n);
    SigRevCompleteBreakable(c, n, sig, elk, n2Point, n2Base);
  }

  lemma TokenBack(c: Config, n: Node)
    requires Breakable(c, n)
    ensures Breakable(c, n.(cts := true))
  {}

  lemma GapAcceptedBreakable(c: Config, n: Node, s: StatCom, sig: Sig, n2Base: HtlcBase)
    requires Breakable(c, n) && s.htlcs == [] && s.inProg.None? && s.colliding.None?
    requires var t := GapTarget(s); VerifySig(c, n.me, t.(elkPoint := t.nextElkPoint), sig)
    ensures Breakable(c, n.(disk := GapAccepted(n.me, GapTarget(s), sig, n2Base)))
  {
    hide VerifySig, Breakable, ClearingGain, OutgoingCost, ShiftMyBase;
    Unpack(c, n);
    var t := GapTarget(s);
    StillBreakable(c, n, t.(elkPoint := t.nextElkPoint), n.(disk := GapAccepted(n.me, t, sig, n2Base)));
  }

  lemma GapSigRevBreakable(c: Config, n: Node, sig: Sig, elk: Elk, n2Point: Point, n2Base: HtlcBase)
    requires Breakable(c, n)
    ensures Breakable(c, GapSigRevStep(c, n, sig, elk, n2Point, n2Base).node)
  {
    hide VerifySig, SendRev, InCollision, GapTarget, GapAccepted, Breakable, Fail;
    Unpack(c, n);
    ReplyBreakable(c, n);
    var advanced := AdvanceElkrem(n.disk, elk, n2Point);
    if advanced.Some? {
      var t := GapTarget(advanced.value);
      if VerifySig(c, n.me, t.(elkPoint := t.nextElkPoint), sig) {
        GapAcceptedBreakable(c, n, advanced.value, sig, n2Base);
        ReplyBreakable(c, n.(disk := GapAccepted(n.me, t, sig, n2Base)));
      }
    }
  }

  lemma RevBreakable(c: Config, n: Node, elk: Elk, n2Point: Point, n2Base: HtlcBase)
    requires Breakable(c, n)
    ensures Breakable(c, RevStep(c, n, elk, n2Point, n2Base).node)
  {
    hide VerifySig, SendRev, AtRest, Breakable, RevAccepted, Fail;
    Unpack(c, n);
    ReplyBreakable(c, n);
    RevSavedParts(n.disk, elk, n2Point, n2Base);
    if AdvanceElkrem(n.disk, elk, n2Point).Some? {
      var s := RevAccepted(AdvanceElkrem(n.disk, elk, n2Point).value, n2Base);
      StillBreakable(c, n, n.disk, n.(disk := s, cts := true));
    }
  }

  lemma RevSavedParts(s: StatCom, elk: Elk, n2Point: Point, n2Base: HtlcBase)
    requires s.htlcs == [] && s.inProg.None? && s.colliding.None?
    ensures var a := AdvanceElkrem(s, elk, n2Point);
      a.Some? ==>
        var r := RevAccepted(a.value, n2Base);
        r.htlcs == [] && r.inProg.None? && r.colliding.None? && r.stateIdx == s.stateIdx && r.myAmt == s.myAmt && r.sig == s.sig
  {}

  lemma PreimageSigBreakable(c: Config, n: Node, idx: nat, preimage: nat, sig: Sig, height: int)
    requires Breakable(c, n)
    ensures Breakable(c, PreimageSigStep(c, n, idx, preimage, sig, height).node)
  {}

  lemma StartBreakable(c: Config, n: Node, op: Op, height: int)
    requires n.cts && Breakable(c, n) && !op.Offer? && (op.Push? ==> op.amt >= 0)
    ensures Breakable(c, StartOp(c, n, op, height).node)
  {
    hide VerifySig, SendDeltaSig, Balances, MayClear, Breakable;
    Unpack(c, n);
    StillBreakable(c, n, n.disk, StartOp(c, n, op, height).node);
  }

  lemma DoBreakable(c: Config, n: Node, act: Act)
    requires Possible(n, act) && NoOffer(act) && Breakable(c, n)
    ensures Breakable(c, Do(c, n, act).node)
  {
    hide Breakable, StartOp, DeltaSigStep, HashSigStep, PreimageSigStep, SigRevStep, GapSigRevStep, RevStep;
    match act
    case TimedOut =>
      Unpack(c, n);
      StillBreakable(c, n, n.disk, Fail(n));
    case Begin(op, height) => StartBreakable(c, n, op, height);
    case Get(DeltaSig(delta, sig), _) => DeltaSigBreakable(c, n, delta, sig);
    case Get(PreimageSig(idx, preimage, sig), height) => PreimageSigBreakable(c, n, idx, preimage, sig, height);
    case Get(SigRev(sig, elk, n2Point, n2Base), _) => SigRevBreakable(c, n, sig, elk, n2Point, n2Base);
    case Get(GapSigRev(sig, elk, n2Point, n2Base), _) => GapSigRevBreakable(c, n, sig, elk, n2Point, n2Base);
    case Get(Rev(elk, n2Point, n2Base), _) => RevBreakable(c, n, elk, n2Point, n2Base);
  }

  lemma {:induction false} AlwaysBreakable(c: Config, t: Story, acts: seq<Act>)
    requires IsStory(c, t, acts) && Breakable(c, t.node)
    requires forall act <- acts :: NoOffer(act)
    ensures Breakable(c, Ending(c, t, acts).node)
    decreases |acts|
  {
    hide Do, Possible, Breakable, NoOffer;
    if acts != [] {
      DoBreakable(c, t.node, acts[0]);
      AlwaysBreakable(c, Step(c, t, acts[0]), acts[1..]);
    }
  }

  lemma BreakTxOf(c: Config, n: Node)
    requires Breakable(c, n) && !n.closed
    ensures BreakTx(c, n).Some?
    ensures var (tx, sig) := BreakTx(c, n).value;
      && sig == Sig(Peer(n.me), tx) && tx.holder == n.me && tx.idx == n.disk.stateIdx
      && tx.holderOut == NetOut(c, n.disk.myAmt) && tx.otherOut == NetOut(c, c.value - n.disk.myAmt)
  {
    MineFixed(c, n.me, n.disk, BreakState(n.disk));
  }

  /** On a channel where no HTLC is offered, whatever the peer sends: BreakChannel
      always has a commitment of its own at the saved index and amount, the peer's
      signature on it, and has never revealed a secret that would revoke it. */
  lemma AlwaysBreaksSafely(c: Config, t: Story, acts: seq<Act>)
    requires IsStory(c, t, acts) && Breakable(c, t.node) && t.sent == []
    requires forall act <- acts :: NoOffer(act)
    ensures var t' := Ending(c, t, acts);
      !t'.node.closed ==>
        && BreakTx(c, t'.node).Some?
        && var (tx, sig) := BreakTx(c, t'.node).value;
           && sig == Sig(Peer(t.node.me), tx) && tx.holder == t.node.me
           && tx.idx == t'.node.disk.stateIdx
           && tx.holderOut == NetOut(c, t'.node.disk.myAmt)
           && forall m <- t'.sent :: OldSecret(t.node.me, m, tx.idx)
  {
    hide BreakTx, Breakable, Step;
    AlwaysBreakable(c, t, acts);
    NeverRevealsCurrent(c, t, acts);
    var t' := Ending(c, t, acts);
    if !t'.node.closed {
      BreakTxOf(c, t'.node);
    }
  }
}
