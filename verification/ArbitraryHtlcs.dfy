/** What becomes of the HTLCs of a node whose peer sends anything at all. */
module ArbitraryHtlcs {
  import opened Wrappers
  import opened ChannelState
  import opened ChannelSteps
  import opened ChannelLedger
  import opened ChannelRuns
  import opened ArbitraryPeer

  /** A request to clear HTLC idx, at some block height. */
  datatype Ask = NoClear | Clearing(idx: nat, preimage: nat, height: int)

  function AskOf(act: Act): Ask {
    match act
    case Begin(Clear(idx, preimage), height) => Clearing(idx, preimage, height)
    case Get(PreimageSig(idx, preimage, _), height) => Clearing(idx, preimage, height)
    case _ => NoClear
  }

  /** The HTLC may be paid out: its hash is that of the preimage, or without a preimage its
      locktime has passed. */
  predicate Due(h: HTLC, height: int) {
    if h.preimage == 0 then AsInt32(h.locktime) <= height else h.rhash == Sha(h.preimage)
  }

  /** What one step may do to the HTLC with index i. */
  predicate Lawful(h: HTLC, h': HTLC, i: nat, ask: Ask) {
    && h' == h.(preimage := h'.preimage, clearing := h'.clearing, cleared := h'.cleared)
    && (h.cleared ==> h' == h) && (h.clearing ==> h'.clearing)
    && (h'.cleared && !h.cleared ==> h.clearing && h'.preimage == h.preimage)
    && (h'.preimage != h.preimage || (h'.clearing && !h.clearing) ==>
          h'.clearing && ask.Clearing? && ask.idx == i && ask.preimage == h'.preimage && Due(h', ask.height))
  }

  /** An HTLC nobody has asked to clear. */
  predicate Untouched(h: HTLC) {
    h.preimage == 0 && !h.clearing && !h.cleared
  }

  predicate PendingUntouched(s: StatCom) {
    (s.inProg.Some? ==> Untouched(s.inProg.value)) && (s.colliding.Some? ==> Untouched(s.colliding.value))
  }

  /** No HTLC is dropped or changes its terms, each is marked and cleared lawfully, and
      what is appended was under way. */
  ghost predicate LawfulList(s: StatCom, hs: seq<HTLC>, ask: Ask) {
    && |s.htlcs| <= |hs|
    && (forall i :: 0 <= i < |s.htlcs| ==> Lawful(s.htlcs[i], hs[i], i, ask))
    && (forall i :: |s.htlcs| <= i < |hs| ==> Some(hs[i]) == s.inProg || Some(hs[i]) == s.colliding)
  }

  ghost predicate LawfulStep(s: StatCom, s': StatCom, ask: Ask) {
    PendingUntouched(s') && LawfulList(s, s'.htlcs, ask)
  }

  // ------------------------------------------------------------------ lists

  lemma SameLawful(s: StatCom, s': StatCom, ask: Ask)
    requires PendingUntouched(s') && s'.htlcs == s.htlcs
    ensures LawfulStep(s, s', ask)
  {}

  /** Marks taken off for a check and put back are as they were. */
  lemma Restored(hs: seq<HTLC>)
    ensures Reclear(Unclear(hs), hs) == hs && Reclear(hs, hs) == hs
  {}

  lemma RestoredMark(hs: seq<HTLC>, idx: nat, preimage: nat)
    requires idx < |hs|
    ensures Reclear(MarkClearing(Unclear(hs), idx, preimage), hs) == MarkClearing(hs, idx, preimage)
    ensures Reclear(MarkClearing(hs, idx, preimage), hs) == MarkClearing(hs, idx, preimage)
  {}

  lemma MarkLawful(s: StatCom, s': StatCom, idx: nat, preimage: nat, height: int)
    requires idx < |s.htlcs| && !s.htlcs[idx].cleared && s'.htlcs == MarkClearing(s.htlcs, idx, preimage)
    requires Due(s'.htlcs[idx], height) && PendingUntouched(s')
    ensures LawfulStep(s, s', Clearing(idx, preimage, height))
  {}

  lemma ClearedLawful(s: StatCom, s': StatCom, a: Option<HTLC>, b: Option<HTLC>, ask: Ask)
    requires PendingUntouched(s) && PendingUntouched(s')
    requires (a.None? || a == s.inProg) && (b.None? || b == s.colliding)
    requires s'.htlcs == MarkCleared(AppendOpt(AppendOpt(s.htlcs, a), b))
    ensures LawfulStep(s, s', ask)
  {}

  // --------------------------------------------------------------- handlers

  lemma RefusedLawful(s: StatCom, n: Node, ask: Ask)
    requires LawfulStep(s, n.disk, ask)
    ensures LawfulStep(s, Refused(n).node.disk, ask) && LawfulStep(s, Failed(n).node.disk, ask)
    ensures forall m :: LawfulStep(s, Reply(n, m).node.disk, ask)
    ensures forall t :: LawfulStep(s, EmptyRev(n, t).node.disk, ask)
  {
    hide SendRev;
  }

  lemma DeltaCollisionKeeps(me: Party, s: StatCom, delta: int)
    ensures var r := DeltaCollision(me, s, delta); Reclear(r.htlcs, s.htlcs) == s.htlcs && r.colliding == s.colliding
  {
    hide AnyClearing, Reclear, Unclear;
    Restored(s.htlcs);
  }

  lemma DeltaSigLawful(c: Config, n: Node, delta: int, sig: Sig)
    requires PendingUntouched(n.disk)
    ensures LawfulStep(n.disk, DeltaSigStep(c, n, delta, sig).node.disk, NoClear)
  {
    hide LawfulStep, VerifySig, EmptyRev, Failed, Refused, Reply, DeltaAffordable, DeltaCollision, Reclear, SendGapSigRev,
         SendSigRev;
    var taken := n.(cts := false);
    var s1 := if !n.cts then DeltaCollision(n.me, n.disk, delta) else n.disk;
    var s2 := if n.cts || s1.inProg.Some? then s1.(delta := delta) else s1;
    var saved := DeltaAccepted(n.disk, DeltaTarget(s2, delta), sig);
    DeltaCollisionKeeps(n.me, n.disk, delta);
    Restored(n.disk.htlcs);
    SameLawful(n.disk, n.disk, NoClear);
    SameLawful(n.disk, saved, NoClear);
    RefusedLawful(n.disk, taken, NoClear);
    RefusedLawful(n.disk, taken.(disk := saved), NoClear);
  }

  lemma HashSavedUntouched(c: Config, me: Party, before: StatCom, collision: bool, s: StatCom, sig: Sig)
    requires PendingUntouched(before) && PendingUntouched(s) && |s.htlcs| == |before.htlcs| && s.inProg.Some?
    ensures var r := HashAccepted(c, me, before, collision, s, sig);
      PendingUntouched(r) && r.htlcs == Reclear(s.htlcs, before.htlcs)
  {
    hide Reclear;
  }

  lemma HashCollisionKeeps(s: StatCom)
    ensures HashCollision(s).inProg == s.inProg && HashCollision(s).colliding == s.colliding
    ensures Reclear(HashCollision(s).htlcs, s.htlcs) == s.htlcs
  {
    hide AnyClearing, Reclear, Unclear;
    Restored(s.htlcs);
  }

  lemma HashSigLawful(c: Config, n: Node, amt: int, rhash: Digest, locktime: nat, sig: Sig)
    requires PendingUntouched(n.disk)
    ensures LawfulStep(n.disk, HashSigStep(c, n, amt, rhash, locktime, sig).node.disk, NoClear)
  {
    hide LawfulStep, VerifySig, Failed, Refused, Reply, HashAffordable, HashCollision, HashAccepted, Reclear, SendGapSigRev,
         SendSigRev;
    var collision := !n.cts;
    var taken := n.(cts := false);
    var s1 := if collision then HashCollision(n.disk) else n.disk;
    var idx := if collision && n.disk.inProg.Some? then n.disk.inProg.value.idx else n.disk.htlcIdx;
    var s2 := s1.(inProg := Some(IncomingHtlc(n.me, s1, idx, amt, rhash, locktime)), stateIdx := s1.stateIdx + 1);
    var saved := HashAccepted(c, n.me, n.disk, collision, s2, sig);
    HashCollisionKeeps(n.disk);
    Restored(n.disk.htlcs);
    HashSavedUntouched(c, n.me, n.disk, collision, s2, sig);
    SameLawful(n.disk, n.disk, NoClear);
    SameLawful(n.disk, saved, NoClear);
    RefusedLawful(n.disk, taken, NoClear);
    RefusedLawful(n.disk, taken.(disk := saved), NoClear);
  }

  lemma PreimageSaved(me: Party, s: StatCom, collision: bool, idx: nat, preimage: nat, sig: Sig)
    requires idx < |s.htlcs|
    ensures var s1 := if collision then PreimageCollision(s) else s;
      var r := PreimageAccepted(me, s, PreimageTarget(s1, idx, preimage), sig);
      && r.htlcs == MarkClearing(s.htlcs, idx, preimage) && r.inProg == s.inProg && r.colliding == s.colliding
  {
    hide PreimageCollision, Reclear, Unclear, MarkClearing, PreimageAccepted;
    RestoredMark(s.htlcs, idx, preimage);
    PreimageCollisionKeeps(s);
    var s1 := if collision then PreimageCollision(s) else s;
    PreimageAcceptedKeeps(me, s, PreimageTarget(s1, idx, preimage), sig);
  }

  lemma PreimageCollisionKeeps(s: StatCom)
    ensures var r := PreimageCollision(s); (r.htlcs == s.htlcs || r.htlcs == Unclear(s.htlcs)) && r.colliding == s.colliding
  {
    hide AnyClearing, Unclear;
  }

  lemma PreimageAcceptedKeeps(me: Party, before: StatCom, s: StatCom, sig: Sig)
    requires |s.htlcs| == |before.htlcs|
    ensures var r := PreimageAccepted(me, before, s, sig);
      r.htlcs == Reclear(s.htlcs, before.htlcs) && r.inProg == before.inProg && r.colliding == s.colliding
  {
    hide Reclear;
  }

  lemma PreimageSigLawful(c: Config, n: Node, idx: nat, preimage: nat, sig: Sig, height: int)
    requires PendingUntouched(n.disk)
    ensures LawfulStep(n.disk, PreimageSigStep(c, n, idx, preimage, sig, height).node.disk, Clearing(idx, preimage, height))
  {
    hide LawfulStep, VerifySig, EmptyRev, Failed, Refused, Reply, PreimageCollision, PreimageTarget, PreimageAccepted,
         SendGapSigRev, SendSigRev, PendingUntouched;
    var ask := Clearing(idx, preimage, height);
    var taken := n.(cts := false);
    SameLawful(n.disk, n.disk, ask);
    RefusedLawful(n.disk, taken, ask);
    if idx < |n.disk.htlcs| && !n.disk.htlcs[idx].cleared && MayClear(n.disk.htlcs[idx], preimage, height) {
      var s1 := if n.cts then n.disk else PreimageCollision(n.disk);
      var saved := PreimageAccepted(n.me, n.disk, PreimageTarget(s1, idx, preimage), sig);
      PreimageSaved(n.me, n.disk, !n.cts, idx, preimage, sig);
      StaysUntouched(n.disk, saved);
      MarkLawful(n.disk, saved, idx, preimage, height);
      RefusedLawful(n.disk, taken.(disk := saved), ask);
    }
  }

  lemma StaysUntouched(s: StatCom, s': StatCom)
    requires PendingUntouched(s) && s'.inProg == s.inProg && s'.colliding == s.colliding
    ensures PendingUntouched(s')
  {}

  lemma SigRevSaved(me: Party, s: StatCom, sig: Sig, elk: Elk, n2Point: Point, n2Base: HtlcBase)
    requires PendingUntouched(s)
    ensures var a := AdvanceElkrem(SigRevTarget(s).(sig := sig), elk, n2Point);
      a.Some? ==> LawfulStep(s, SigRevAccepted(me, a.value, n2Base), NoClear)
  {
    hide LawfulStep, ClearingGain, OutgoingCost, SigRevAccepted, MarkCleared;
    var a := AdvanceElkrem(SigRevTarget(s).(sig := sig), elk, n2Point);
    if a.Some? {
      SigRevAcceptedKeeps(me, a.value, n2Base);
      ClearedLawful(s, SigRevAccepted(me, a.value, n2Base), s.inProg, None, NoClear);
    }
  }

  lemma SigRevAcceptedKeeps(me: Party, s: StatCom, n2Base: HtlcBase)
    ensures var r := SigRevAccepted(me, s, n2Base);
      r.htlcs == MarkCleared(AppendOpt(s.htlcs, s.inProg)) && r.inProg.None? && r.colliding == s.colliding
  {
    hide MarkCleared;
  }

  lemma SigRevLawful(c: Config, n: Node, sig: Sig, elk: Elk, n2Point: Point, n2Base: HtlcBase)
    requires PendingUntouched(n.disk)
    ensures LawfulStep(n.disk, SigRevStep(c, n, sig, elk, n2Point, n2Base).node.disk, NoClear)
  {
    hide LawfulStep, VerifySig, Failed, Refused, Reply, SendRev, AtRest, AdvanceElkrem, SigRevTarget, SigRevAccepted,
         PendingUntouched;
    SameLawful(n.disk, n.disk, NoClear);
    RefusedLawful(n.disk, n, NoClear);
    SigRevSaved(n.me, n.disk, sig, elk, n2Point, n2Base);
    var a := AdvanceElkrem(SigRevTarget(n.disk).(sig := sig), elk, n2Point);
    if a.Some? { RefusedLawful(n.disk, n.(disk := SigRevAccepted(n.me, a.value, n2Base)), NoClear); }
  }

  lemma GapSaved(me: Party, s: StatCom, sig: Sig, n2Base: HtlcBase)
    ensures var r := GapAccepted(me, GapTarget(s), sig, n2Base);
      r.htlcs == s.htlcs && r.inProg == s.inProg && r.colliding == s.colliding
  {
    hide GapAccepted, ClearingGain, OutgoingCost;
    GapAcceptedKeeps(me, GapTarget(s), sig, n2Base);
  }

  lemma GapAcceptedKeeps(me: Party, s: StatCom, sig: Sig, n2Base: HtlcBase)
    ensures var r := GapAccepted(me, s, sig, n2Base);
      r.htlcs == s.htlcs && r.inProg == s.inProg && r.colliding == s.colliding
  {
    hide TakeN2Base;
    TakeKeeps(s.(sig := sig), n2Base);
  }

  lemma TakeKeeps(s: StatCom, n2Base: HtlcBase)
    ensures var r := TakeN2Base(s, n2Base); r.htlcs == s.htlcs && r.inProg == s.inProg && r.colliding == s.colliding
  {}

  lemma GapSigRevLawful(c: Config, n: Node, sig: Sig, elk: Elk, n2Point: Point, n2Base: HtlcBase)
    requires PendingUntouched(n.disk)
    ensures LawfulStep(n.disk, GapSigRevStep(c, n, sig, elk, n2Point, n2Base).node.disk, NoClear)
  {
    hide LawfulStep, VerifySig, Failed, Refused, SendRev, InCollision, GapTarget, GapAccepted, PendingUntouched;
    SameLawful(n.disk, n.disk, NoClear);
    RefusedLawful(n.disk, n, NoClear);
    var a := AdvanceElkrem(n.disk, elk, n2Point);
    if a.Some? {
      var saved := GapAccepted(n.me, GapTarget(a.value), sig, n2Base);
      GapSaved(n.me, a.value, sig, n2Base);
      StaysUntouched(n.disk, saved);
      SameLawful(n.disk, saved, NoClear);
      RefusedLawful(n.disk, n.(disk := saved), NoClear);
    }
  }

  lemma RevSaved(s: StatCom, n2Base: HtlcBase)
    requires PendingUntouched(s)
    ensures LawfulStep(s, RevAccepted(s, n2Base), NoClear)
  {
    hide LawfulStep, MarkCleared, RevAccepted, AppendOpt;
    RevAcceptedKeeps(s, n2Base);
    ClearedLawful(s, RevAccepted(s, n2Base), s.inProg, s.colliding, NoClear);
  }

  lemma RevAcceptedKeeps(s: StatCom, n2Base: HtlcBase)
    ensures var r := RevAccepted(s, n2Base);
      && r.htlcs == MarkCleared(AppendOpt(AppendOpt(s.htlcs, s.inProg), s.colliding))
      && r.inProg.None? && r.colliding.None?
  {
    hide MarkCleared, AppendOpt, TakeN2Base;
    TakeKeeps(s.(delta := 0), n2Base);
  }

  lemma RevLawful(c: Config, n: Node, elk: Elk, n2Point: Point, n2Base: HtlcBase)
    requires PendingUntouched(n.disk)
    ensures LawfulStep(n.disk, RevStep(c, n, elk, n2Point, n2Base).node.disk, NoClear)
  {
    hide Failed, Refused, EmptyRev, SendRev, AtRest, RevAccepted, PendingUntouched, LawfulList;
    SameLawful(n.disk, n.disk, NoClear);
    RefusedLawful(n.disk, n, NoClear);
    var a := AdvanceElkrem(n.disk, elk, n2Point);
    if a.Some? {
      StaysUntouched(n.disk, a.value);
      RevSaved(a.value, n2Base);
      SameParts(n.disk, a.value, RevAccepted(a.value, n2Base).htlcs);
    }
  }

  lemma SameParts(s: StatCom, t: StatCom, hs: seq<HTLC>)
    requires t.htlcs == s.htlcs && t.inProg == s.inProg && t.colliding == s.colliding && LawfulList(t, hs, NoClear)
    ensures LawfulList(s, hs, NoClear)
  {}

  lemma PushLawful(c: Config, n: Node, amt: int)
    requires n.cts && PendingUntouched(n.disk)
    ensures LawfulStep(n.disk, PushChannel(c, n, amt).node.disk, NoClear)
  {
    hide LawfulStep, SendDeltaSig, Balances, Failed;
    var taken := n.(cts := false);
    SameLawful(n.disk, n.disk, NoClear);
    RefusedLawful(n.disk, taken, NoClear);
    SameLawful(n.disk, n.disk.(delta := -amt), NoClear);
  }

  lemma OfferLawful(c: Config, n: Node, amt: nat, rhash: Digest, locktime: nat)
    requires n.cts && PendingUntouched(n.disk)
    ensures LawfulStep(n.disk, OfferHTLC(c, n, amt, rhash, locktime).node.disk, NoClear)
  {
    hide LawfulStep, SendHashSig, Balances, Failed, Reply;
    var taken := n.(cts := false);
    var saved := taken.(disk := n.disk.(inProg := Some(OutgoingHtlc(n.me, n.disk, amt, rhash, locktime))));
    SameLawful(n.disk, n.disk, NoClear);
    RefusedLawful(n.disk, taken, NoClear);
    SameLawful(n.disk, saved.disk, NoClear);
    RefusedLawful(n.disk, saved, NoClear);
  }

  lemma ClearLawful(c: Config, n: Node, idx: nat, preimage: nat, height: int)
    requires n.cts && PendingUntouched(n.disk)
    ensures LawfulStep(n.disk, ClearHTLC(c, n, idx, preimage, height).node.disk, Clearing(idx, preimage, height))
  {
    hide LawfulStep, SendPreimageSig, Failed, Reply;
    var ask := Clearing(idx, preimage, height);
    var taken := n.(cts := false);
    SameLawful(n.disk, n.disk, ask);
    RefusedLawful(n.disk, taken, ask);
    if idx < |n.disk.htlcs| && !n.disk.htlcs[idx].cleared && MayClear(n.disk.htlcs[idx], preimage, height) {
      var saved := taken.(disk := n.disk.(htlcs := MarkClearing(n.disk.htlcs, idx, preimage)));
      MarkLawful(n.disk, saved.disk, idx, preimage, height);
      RefusedLawful(n.disk, saved, ask);
    }
  }

  /** Any operation of the node and any message at all treats every HTLC lawfully. */
  lemma DoLawful(c: Config, n: Node, act: Act)
    requires Possible(n, act) && PendingUntouched(n.disk)
    ensures LawfulStep(n.disk, Do(c, n, act).node.disk, AskOf(act))
  {
    hide LawfulStep, PushChannel, OfferHTLC, ClearHTLC, DeltaSigStep, HashSigStep, PreimageSigStep, SigRevStep, GapSigRevStep,
         RevStep, PendingUntouched;
    match act
    case TimedOut =>
      SameLawful(n.disk, n.disk, NoClear);
      RefusedLawful(n.disk, n, NoClear);
    case Begin(Push(amt), _) => PushLawful(c, n, amt);
    case Begin(Offer(amt, rhash, locktime), _) => OfferLawful(c, n, amt, rhash, locktime);
    case Begin(Clear(idx, preimage), height) => ClearLawful(c, n, idx, preimage, height);
    case Get(DeltaSig(delta, sig), _) => DeltaSigLawful(c, n, delta, sig);
    case Get(HashSig(amt, rhash, locktime, sig), _) => HashSigLawful(c, n, amt, rhash, locktime, sig);
    case Get(PreimageSig(idx, preimage, sig), height) => PreimageSigLawful(c, n, idx, preimage, sig, height);
    case Get(SigRev(sig, elk, n2Point, n2Base), _) => SigRevLawful(c, n, sig, elk, n2Point, n2Base);
    case Get(GapSigRev(sig, elk, n2Point, n2Base), _) => GapSigRevLawful(c, n, sig, elk, n2Point, n2Base);
    case Get(Rev(elk, n2Point, n2Base), _) => RevLawful(c, n, elk, n2Point, n2Base);
  }

  // ----------------------------------------------------------------- stories

  /** Somebody asked for HTLC i with the preimage it holds, when it was due. */
  predicate AskedFor(h: HTLC, i: nat, act: Act) {
    var ask := AskOf(act);
    ask.Clearing? && ask.idx == i && ask.preimage == h.preimage && Due(h, ask.height)
  }

  /** The HTLC is marked, cleared, or has a preimage only because of one of the acts. */
  ghost predicate Accounted(h: HTLC, i: nat, acts: seq<Act>) {
    && (h.cleared || h.preimage != 0 ==> h.clearing)
    && (h.clearing ==> exists act <- acts :: AskedFor(h, i, act))
  }

  ghost predicate AllAccounted(s: StatCom, acts: seq<Act>) {
    PendingUntouched(s) && forall i :: 0 <= i < |s.htlcs| ==> Accounted(s.htlcs[i], i, acts)
  }

  lemma LawfulAccounted(h: HTLC, h': HTLC, i: nat, before: seq<Act>, act: Act)
    requires Lawful(h, h', i, AskOf(act)) && Accounted(h, i, before)
    ensures Accounted(h', i, before + [act])
  {
    hide AskOf;
    if h'.clearing {
      if h'.preimage != h.preimage || !h.clearing {
        assert AskedFor(h', i, act) && act in before + [act];
      } else {
        var a :| a in before && AskedFor(h, i, a);
        assert AskedFor(h', i, a) && a in before + [act];
      }
    }
  }

  lemma UntouchedAccounted(h: HTLC, i: nat, acts: seq<Act>)
    requires Untouched(h)
    ensures Accounted(h, i, acts)
  {}

  lemma StepAccounted(s: StatCom, s': StatCom, before: seq<Act>, act: Act)
    requires AllAccounted(s, before) && LawfulStep(s, s', AskOf(act))
    ensures AllAccounted(s', before + [act])
  {
    hide Accounted, Lawful, AskOf;
    forall i | 0 <= i < |s'.htlcs| ensures Accounted(s'.htlcs[i], i, before + [act]) {
      if i < |s.htlcs| {
        LawfulAccounted(s.htlcs[i], s'.htlcs[i], i, before, act);
      } else {
        UntouchedAccounted(s'.htlcs[i], i, before + [act]);
      }
    }
  }

  lemma {:induction false} EndAccounted(c: Config, t: Story, acts: seq<Act>, before: seq<Act>)
    requires IsStory(c, t, acts) && AllAccounted(t.node.disk, before)
    ensures AllAccounted(Ending(c, t, acts).node.disk, before + acts)
    decreases |acts|
  {
    hide Do, Possible, AllAccounted;
    if acts == [] {
      assert before + acts == before;
    } else {
      var next := Step(c, t, acts[0]);
      UnpackAccounted(t.node.disk, before);
      DoLawful(c, t.node, acts[0]);
      StepAccounted(t.node.disk, next.node.disk, before, acts[0]);
      EndAccounted(c, next, acts[1..], before + [acts[0]]);
      assert before + [acts[0]] + acts[1..] == before + acts;
    }
  }

  lemma UnpackAccounted(s: StatCom, acts: seq<Act>)
    requires AllAccounted(s, acts)
    ensures PendingUntouched(s)
  {}

  /** Whatever the peer sends: an HTLC holds a preimage only if it is that of its hash, and
      it is being cleared, or has been, only because the node or its peer asked for it with
      the preimage it holds, or, without one, when its locktime had passed. */
  lemma ClearedOnlyWhenDue(c: Config, t: Story, acts: seq<Act>)
    requires IsStory(c, t, acts) && PendingUntouched(t.node.disk) && forall h <- t.node.disk.htlcs :: Untouched(h)
    ensures var hs := Ending(c, t, acts).node.disk.htlcs;
      forall i :: 0 <= i < |hs| ==>
        && (hs[i].preimage != 0 ==> hs[i].rhash == Sha(hs[i].preimage))
        && (hs[i].cleared ==> hs[i].clearing)
        && (hs[i].clearing ==> exists act <- acts :: AskedFor(hs[i], i, act))
  {
    hide AskedFor, Accounted;
    forall i | 0 <= i < |t.node.disk.htlcs| ensures Accounted(t.node.disk.htlcs[i], i, []) {
      UntouchedAccounted(t.node.disk.htlcs[i], i, []);
    }
    EndAccounted(c, t, acts, []);
    assert [] + acts == acts;
    var hs := Ending(c, t, acts).node.disk.htlcs;
    forall i | 0 <= i < |hs| ensures hs[i].preimage != 0 ==> hs[i].rhash == Sha(hs[i].preimage) {
      PreimageFits(hs[i], i, acts);
    }
    forall i | 0 <= i < |hs| ensures hs[i].cleared ==> hs[i].clearing { PreimageFits(hs[i], i, acts); }
    forall i | 0 <= i < |hs| ensures hs[i].clearing ==> exists act <- acts :: AskedFor(hs[i], i, act) {
      PreimageFits(hs[i], i, acts);
    }
  }

  lemma PreimageFits(h: HTLC, i: nat, acts: seq<Act>)
    requires Accounted(h, i, acts)
    ensures h.preimage != 0 ==> h.rhash == Sha(h.preimage)
    ensures h.cleared ==> h.clearing
    ensures h.clearing ==> exists act <- acts :: AskedFor(h, i, act)
  {
    hide AskOf;
  }

  /** The terms of an HTLC are never changed, and one that is cleared stays as it is. */
  predicate Kept(h: HTLC, h': HTLC) {
    h' == h.(preimage := h'.preimage, clearing := h'.clearing, cleared := h'.cleared) && (h.cleared ==> h' == h)
  }

  lemma LawfulKept(h0: HTLC, h: HTLC, h': HTLC, i: nat, ask: Ask)
    requires Kept(h0, h) && Lawful(h, h', i, ask)
    ensures Kept(h0, h')
  {}

  lemma {:induction false} HtlcsKept(c: Config, t: Story, acts: seq<Act>)
    requires IsStory(c, t, acts) && PendingUntouched(t.node.disk)
    ensures var hs := t.node.disk.htlcs; var hs' := Ending(c, t, acts).node.disk.htlcs;
      |hs| <= |hs'| && forall i :: 0 <= i < |hs| ==> Kept(hs[i], hs'[i])
    decreases |acts|
  {
    hide Do, Possible, Kept, Lawful, AskOf, PendingUntouched;
    var hs := t.node.disk.htlcs;
    if acts == [] {
      forall i | 0 <= i < |hs| ensures Kept(hs[i], hs[i]) { KeptSelf(hs[i]); }
    } else {
      var next := Step(c, t, acts[0]);
      DoLawful(c, t.node, acts[0]);
      HtlcsKept(c, next, acts[1..]);
      var mid, last := next.node.disk.htlcs, Ending(c, next, acts[1..]).node.disk.htlcs;
      forall i | 0 <= i < |hs| ensures Kept(hs[i], last[i]) {
        KeptSelf(hs[i]);
        LawfulKept(hs[i], hs[i], mid[i], i, AskOf(acts[0]));
        KeptTwice(hs[i], mid[i], last[i]);
      }
    }
  }

  lemma KeptSelf(h: HTLC)
    ensures Kept(h, h)
  {}

  lemma KeptTwice(a: HTLC, b: HTLC, c: HTLC)
    requires Kept(a, b) && Kept(b, c)
    ensures Kept(a, c)
  {}
}
