/** The channel operations and message handlers of qln/pushpull.go and
    qln/htlc.go as functions from a node to a node.  The class in Qchan.dfy is
    proved to compute them. */
module ChannelSteps {
  import opened Wrappers
  import opened ChannelState

  datatype Msg =
    | DeltaSig(delta: int, sig: Sig)
    | HashSig(amt: int, rhash: Digest, locktime: nat, sig: Sig)
    | PreimageSig(idx: nat, preimage: nat, sig: Sig)
    | SigRev(sig: Sig, elk: Elk, n2Point: Point, n2Base: HtlcBase)
    | GapSigRev(sig: Sig, elk: Elk, n2Point: Point, n2Base: HtlcBase)
    | Rev(elk: Elk, n2Point: Point, n2Base: HtlcBase)

  /** One party: the saved record, whether the channel is clear to send, and
      whether it has been closed. */
  datatype Node = Node(me: Party, disk: StatCom, cts: bool, closed: bool)

  /** The past state (index and my amount) handed to BuildJusticeSig. */
  datatype Past = Past(idx: int, amt: int)

  datatype Res = Res(node: Node, out: seq<Msg>, ok: bool, justice: Option<Past>)

  function Fail(n: Node): Node {
    n.(disk := n.disk.(failed := true))
  }

  function Failed(n: Node): Res {
    Res(Fail(n), [], false, None)
  }

  /** Return an error without touching the channel. */
  function Refused(n: Node): Res {
    Res(n, [], false, None)
  }

  // ------------------------------------------------------------ sending

  function SendDeltaSig(c: Config, me: Party, s: StatCom): Option<Msg> {
    var t := s.(stateIdx := s.stateIdx + 1, myAmt := s.myAmt + s.delta,
                elkPoint := s.nextElkPoint, nextElkPoint := s.n2ElkPoint);
    var sig := SignState(c, me, t);
    if sig.None? || s.delta == 0 then None else Some(DeltaSig(-s.delta, sig.value))
  }

  function SendHashSig(c: Config, me: Party, s: StatCom): Option<Msg>
    requires s.inProg.Some?
  {
    var h := s.inProg.value;
    var t := s.(stateIdx := s.stateIdx + 1, myAmt := s.myAmt - h.amt,
                elkPoint := s.nextElkPoint, nextElkPoint := s.n2ElkPoint);
    var sig := SignState(c, me, t);
    if sig.None? then None else Some(HashSig(h.amt, h.rhash, h.locktime, sig.value))
  }

  function SendPreimageSig(c: Config, me: Party, s: StatCom, idx: nat): Option<Msg>
    requires idx < |s.htlcs|
  {
    var h := s.htlcs[idx];
    var t := s.(stateIdx := s.stateIdx + 1, myAmt := s.myAmt + if Gains(h) then h.amt else 0,
                elkPoint := s.nextElkPoint, nextElkPoint := s.n2ElkPoint);
    var sig := SignState(c, me, t);
    if sig.None? then None else Some(PreimageSig(idx, h.preimage, sig.value))
  }

  /** Sign the state just accepted and revoke the one before it. */
  function SendSigRev(c: Config, me: Party, s: StatCom): Option<Msg> {
    var elk := SecretAt(me, s.stateIdx - 1);
    var sig := SignState(c, me, s.(elkPoint := s.nextElkPoint));
    var n2 := N2PointForThem(me, s);
    if elk.None? || sig.None? || n2.None? then None
    else Some(SigRev(sig.value, elk.value, n2.value, s.myN2Base))
  }

  /** In a collision: sign the state after the gap state, revoke the one before it. */
  function SendGapSigRev(c: Config, me: Party, s: StatCom): Option<Msg> {
    var elk := SecretAt(me, s.stateIdx - 1);
    var n2 := N2PointForThem(me, s);
    var t := s.(elkPoint := s.n2ElkPoint, stateIdx := s.stateIdx + 1,
                myAmt := s.myAmt + s.delta - OutgoingCost(s.inProg) - OutgoingCost(s.colliding)
                         + ClearingGain(s.htlcs));
    var sig := SignState(c, me, t);
    if elk.None? || sig.None? || n2.None? then None
    else Some(GapSigRev(sig.value, elk.value, n2.value, s.myN2Base))
  }

  function SendRev(me: Party, s: StatCom): Option<Msg> {
    var elk := SecretAt(me, s.stateIdx - 1);
    var n2 := N2PointForThem(me, s);
    if elk.None? || n2.None? then None else Some(Rev(elk.value, n2.value, s.myN2Base))
  }

  /** Save was done; send a reply, or fail the channel when it cannot be made. */
  function Reply(n: Node, msg: Option<Msg>): Res {
    if msg.None? then Failed(n) else Res(n, [msg.value], true, None)
  }

  /** Answer with the last revocation and nothing else. */
  function EmptyRev(n: Node, s: StatCom): Res {
    var rev := SendRev(n.me, s);
    if rev.None? then Refused(n) else Res(n, [rev.value], true, None)
  }

  // --------------------------------------------------------- local operations

  /** PushChannel, once the clear-to-send token has been taken. */
  function PushChannel(c: Config, n: Node, amt: int): Res
    requires n.cts
  {
    var taken := n.(cts := false);
    var s := n.disk;
    var b := Balances(c, s);
    if s.failed || amt >= MAX_SEND || amt <= 0 then Refused(n)
    else if b.0 - (c.fee - amt) < MIN_OUTPUT then Refused(n)
    else if b.1 + amt - c.fee < MIN_OUTPUT then Refused(n)
    else if s.delta != 0 then Failed(taken)
    else
      var saved := taken.(disk := s.(delta := -amt));
      var msg := SendDeltaSig(c, n.me, saved.disk);
      if msg.None? then Refused(saved) else Res(saved, [msg.value], true, None)
  }

  function OutgoingHtlc(me: Party, s: StatCom, amt: nat, rhash: Digest, locktime: nat): HTLC {
    HTLC(s.htlcIdx, false, amt, rhash, locktime, HtlcBase(me, s.htlcIdx), s.nextBase, 0, false, false)
  }

  function OfferHTLC(c: Config, n: Node, amt: nat, rhash: Digest, locktime: nat): Res
    requires n.cts
  {
    var taken := n.(cts := false);
    var s := n.disk;
    if s.failed || amt >= MAX_SEND || amt == 0 then Refused(n)
    else if Balances(c, s).0 - (c.fee + amt) < MIN_OUTPUT then Refused(n)
    else if s.delta != 0 || s.inProg.Some? then Failed(taken)
    else
      var saved := taken.(disk := s.(inProg := Some(OutgoingHtlc(n.me, s, amt, rhash, locktime))));
      Reply(saved, SendHashSig(c, n.me, saved.disk))
  }

  function MarkClearing(hs: seq<HTLC>, idx: nat, preimage: nat): (r: seq<HTLC>)
    requires idx < |hs|
    ensures |r| == |hs|
  {
    hs[idx := hs[idx].(clearing := true, preimage := preimage)]
  }

  /** May HTLC h be cleared with this preimage at this block height? */
  predicate MayClear(h: HTLC, preimage: nat, height: int) {
    if preimage == 0 then AsInt32(h.locktime) <= height else h.rhash == Sha(preimage)
  }

  function ClearHTLC(c: Config, n: Node, idx: nat, preimage: nat, height: int): Res
    requires n.cts
  {
    var taken := n.(cts := false);
    var s := n.disk;
    if s.failed || idx >= |s.htlcs| then Refused(n)
    else if s.htlcs[idx].cleared then Refused(n)
    else if !MayClear(s.htlcs[idx], preimage, height) then Refused(n)
    else if s.delta != 0 || s.inProg.Some? then Failed(taken)
    else
      var saved := taken.(disk := s.(htlcs := MarkClearing(s.htlcs, idx, preimage)));
      Reply(saved, SendPreimageSig(c, n.me, saved.disk, idx))
  }

  // ------------------------------------------------------------- DeltaSig

  function ShiftMyBase(me: Party, s: StatCom, step: nat): StatCom {
    s.(myNextBase := s.myN2Base, myN2Base := HtlcBase(me, s.htlcIdx + step))
  }

  /** What a DeltaSig changes in RAM before its signature is checked when this
      node had itself started an operation. */
  function DeltaCollision(me: Party, s: StatCom, delta: int): (r: StatCom)
    ensures |r.htlcs| == |s.htlcs|
  {
    if s.inProg.Some? then ShiftMyBase(me, s.(inProg := None, collHashDelta := true), 2)
    else if AnyClearing(s.htlcs) then s.(htlcs := Unclear(s.htlcs), collPreimageDelta := true)
    else s.(collision := delta)
  }

  /** The record against which a DeltaSig is verified. */
  function DeltaTarget(s: StatCom, delta: int): StatCom {
    s.(stateIdx := s.stateIdx + 1, myAmt := s.myAmt + delta)
  }

  /** The record saved once the signature of a DeltaSig has been checked. */
  function DeltaAccepted(before: StatCom, s: StatCom, sig: Sig): StatCom
    requires |s.htlcs| == |before.htlcs|
  {
    s.(sig := sig, htlcs := Reclear(s.htlcs, before.htlcs), inProg := before.inProg)
  }

  function DeltaReply(c: Config, n: Node): Res {
    if n.disk.collision != 0 || n.disk.collHashDelta || n.disk.collPreimageDelta
    then Reply(n, SendGapSigRev(c, n.me, n.disk))
    else Reply(n, SendSigRev(c, n.me, n.disk))
  }

  /** Is the incoming amount positive, and does it leave both sides with a
      sufficient output? */
  predicate DeltaAffordable(c: Config, s: StatCom, delta: int) {
    var b := Balances(c, s);
    && delta >= 1
    && b.1 - (delta + c.fee) >= MIN_OUTPUT
    && b.0 + delta - c.fee >= MIN_OUTPUT
  }

  function DeltaSigStep(c: Config, n: Node, delta: int, sig: Sig): Res {
    var collision := !n.cts;
    var taken := n.(cts := false);
    var s1 := if collision then DeltaCollision(n.me, n.disk, delta) else n.disk;
    if n.closed then Refused(taken)
    else if s1.delta > 0 then EmptyRev(taken, s1)
    else
      var s2 := if !collision || s1.inProg.Some? then s1.(delta := delta) else s1;
      var s3 := DeltaTarget(s2, delta);
      if !DeltaAffordable(c, s2, delta) then Failed(taken)
      else if !VerifySig(c, n.me, s3.(elkPoint := s3.nextElkPoint), sig) then Failed(taken)
      else DeltaReply(c, taken.(disk := DeltaAccepted(n.disk, s3, sig)))
  }

  // -------------------------------------------------------------- HashSig

  function HashCollision(s: StatCom): (r: StatCom)
    ensures |r.htlcs| == |s.htlcs|
  {
    if s.inProg.Some? then s
    else if AnyClearing(s.htlcs) then s.(htlcs := Unclear(s.htlcs), collHashPreimage := true)
    else s.(collHashDelta := true)
  }

  function IncomingHtlc(me: Party, s: StatCom, idx: nat, amt: int, rhash: Digest, locktime: nat): HTLC {
    HTLC(idx, true, amt, rhash, locktime, HtlcBase(me, idx), s.nextBase, 0, false, false)
  }

  /** Two HTLCs were offered at once: the order of the next base points decides
      which keeps the index, and the other moves up by one. */
  function OrderHtlcs(c: Config, me: Party, s: StatCom, mine: HTLC, theirs: HTLC): StatCom {
    var first := if c.rank(s.myNextBase) > c.rank(s.nextBase) then theirs else mine;
    var second := if c.rank(s.myNextBase) > c.rank(s.nextBase) then mine else theirs;
    s.(inProg := Some(first.(idx := theirs.idx)),
       colliding := Some(second.(idx := s.htlcIdx + 1, theirBase := s.n2Base,
                                 myBase := HtlcBase(me, s.htlcIdx + 1))))
  }

  /** The record saved once the signature of a HashSig has been checked. */
  function HashAccepted(c: Config, me: Party, before: StatCom, collision: bool, s: StatCom, sig: Sig): StatCom
    requires |s.htlcs| == |before.htlcs| && s.inProg.Some?
  {
    var s1 := s.(sig := sig, htlcs := Reclear(s.htlcs, before.htlcs));
    var s2 := if collision && before.inProg.Some?
              then OrderHtlcs(c, me, s1, before.inProg.value, s.inProg.value) else s1;
    ShiftMyBase(me, s2, 2)
  }

  function HashReply(c: Config, n: Node): Res {
    var s := n.disk;
    if s.collision != 0 || s.colliding.Some? || s.collHashPreimage || s.collHashDelta
    then Reply(n, SendGapSigRev(c, n.me, s))
    else Reply(n, SendSigRev(c, n.me, s))
  }

  /** Is the incoming HTLC large enough, and can the counterparty pay for it? */
  predicate HashAffordable(c: Config, s: StatCom, amt: int) {
    amt >= MIN_OUTPUT && Balances(c, s).1 - amt >= MIN_OUTPUT
  }

  function HashSigStep(c: Config, n: Node, amt: int, rhash: Digest, locktime: nat, sig: Sig): Res {
    var collision := !n.cts;
    var taken := n.(cts := false);
    var s1 := if collision then HashCollision(n.disk) else n.disk;
    var idx := if collision && n.disk.inProg.Some? then n.disk.inProg.value.idx else n.disk.htlcIdx;
    var s2 := s1.(inProg := Some(IncomingHtlc(n.me, s1, idx, amt, rhash, locktime)),
                  stateIdx := s1.stateIdx + 1);
    if n.closed then Refused(taken)
    else if !HashAffordable(c, s1, amt) then Failed(taken)
    else if !VerifySig(c, n.me, s2.(elkPoint := s2.nextElkPoint), sig) then Failed(taken)
    else HashReply(c, taken.(disk := HashAccepted(c, n.me, n.disk, collision, s2, sig)))
  }

  // ---------------------------------------------------------- PreimageSig

  function PreimageCollision(s: StatCom): (r: StatCom)
    ensures |r.htlcs| == |s.htlcs|
  {
    if s.inProg.Some? then s.(inProg := None, collHashPreimage := true)
    else if AnyClearing(s.htlcs) then s.(htlcs := Unclear(s.htlcs), collPreimages := true)
    else s.(collPreimageDelta := true)
  }

  /** The record against which a PreimageSig is verified. */
  function PreimageTarget(s: StatCom, idx: nat, preimage: nat): (r: StatCom)
    requires idx < |s.htlcs|
    ensures |r.htlcs| == |s.htlcs|
  {
    var hs := MarkClearing(s.htlcs, idx, preimage);
    s.(stateIdx := s.stateIdx + 1, htlcs := hs,
       myAmt := s.myAmt + if Gains(hs[idx]) then hs[idx].amt else 0)
  }

  /** The record saved once the signature of a PreimageSig has been checked. */
  function PreimageAccepted(me: Party, before: StatCom, s: StatCom, sig: Sig): StatCom
    requires |s.htlcs| == |before.htlcs|
  {
    var s1 := s.(sig := sig, inProg := before.inProg, htlcs := Reclear(s.htlcs, before.htlcs));
    if s1.collHashPreimage then ShiftMyBase(me, s1, 2) else s1
  }

  function PreimageReply(c: Config, n: Node): Res {
    var s := n.disk;
    if s.collision != 0 || s.collHashPreimage || s.collPreimages || s.collPreimageDelta
    then Reply(n, SendGapSigRev(c, n.me, s))
    else Reply(n, SendSigRev(c, n.me, s))
  }

  function PreimageSigStep(c: Config, n: Node, idx: nat, preimage: nat, sig: Sig, height: int): Res {
    var taken := n.(cts := false);
    var s0 := n.disk;
    if n.closed then Refused(taken)
    else if s0.delta > 0 then EmptyRev(taken, s0)
    else if idx >= |s0.htlcs| then Refused(taken)
    else if s0.htlcs[idx].cleared || !MayClear(s0.htlcs[idx], preimage, height) then Refused(taken)
    else
      var s1 := if n.cts then s0 else PreimageCollision(s0);
      var s2 := PreimageTarget(s1, idx, preimage);
      if !VerifySig(c, n.me, s2.(elkPoint := s2.nextElkPoint), sig) then Failed(taken)
      else PreimageReply(c, taken.(disk := PreimageAccepted(n.me, s0, s2, sig)))
  }

  // -------------------------------------------------------------- SigRev

  /** Is there any operation under way in the saved record? */
  predicate AtRest(s: StatCom) {
    s.delta == 0 && s.inProg.None? && !AnyClearing(s.htlcs)
  }

  /** The record against which a SigRev is verified. */
  function SigRevTarget(s: StatCom): StatCom {
    s.(stateIdx := s.stateIdx + 1, delta := 0,
       myAmt := s.myAmt + s.delta - OutgoingCost(s.inProg) + ClearingGain(s.htlcs))
  }

  /** The record saved once a SigRev has been checked: nothing is under way. */
  function SigRevAccepted(me: Party, s: StatCom, n2Base: HtlcBase): StatCom {
    var s1 := if s.inProg.Some? || s.collHashDelta then ShiftMyBase(me, s, 2) else s;
    var s2 := if s1.inProg.Some?
              then s1.(htlcs := s1.htlcs + [s1.inProg.value], inProg := None,
                       nextBase := s1.n2Base, n2Base := n2Base, htlcIdx := s1.htlcIdx + 1)
              else s1;
    s2.(htlcs := MarkCleared(s2.htlcs))
  }

  function SigRevComplete(c: Config, n: Node, sig: Sig, elk: Elk, n2Point: Point, n2Base: HtlcBase): Res {
    var t := SigRevTarget(n.disk);
    if !VerifySig(c, n.me, t.(elkPoint := t.nextElkPoint), sig) then Failed(n)
    else
      var advanced := AdvanceElkrem(t.(sig := sig), elk, n2Point);
      if advanced.None? then Failed(n)
      else
        var saved := n.(disk := SigRevAccepted(n.me, advanced.value, n2Base));
        var rev := SendRev(n.me, saved.disk);
        if rev.None? then Failed(saved)
        else Res(saved.(cts := true), [rev.value], true, Some(Past(saved.disk.stateIdx - 1, n.disk.myAmt)))
  }

  function SigRevStep(c: Config, n: Node, sig: Sig, elk: Elk, n2Point: Point, n2Base: HtlcBase): Res {
    var s := n.disk;
    if s.delta > 0 then Failed(n)
    else if AtRest(s) then Reply(n, SendRev(n.me, s))
    else if s.collision != 0 || s.colliding.Some? then Failed(n)
    else SigRevComplete(c, n, sig, elk, n2Point, n2Base)
  }

  // ------------------------------------------------------------ GapSigRev

  /** Take in the counterparty's next base point, unless it is the stored one. */
  function TakeN2Base(s: StatCom, n2Base: HtlcBase): StatCom {
    if n2Base != s.n2Base then s.(nextBase := s.n2Base, n2Base := n2Base) else s
  }

  predicate InCollision(s: StatCom) {
    || s.collision != 0 || s.colliding.Some?
    || s.collHashPreimage || s.collHashDelta || s.collPreimageDelta || s.collPreimages
  }

  /** The record against which a GapSigRev is verified, once the revocation is in. */
  function GapTarget(s: StatCom): StatCom {
    s.(stateIdx := s.stateIdx + 1,
       myAmt := s.myAmt + s.delta - OutgoingCost(s.inProg) - OutgoingCost(s.colliding) + ClearingGain(s.htlcs),
       delta := s.collision, collision := 0)
  }

  /** The record saved once the signature of a GapSigRev has been checked. */
  function GapAccepted(me: Party, s: StatCom, sig: Sig, n2Base: HtlcBase): StatCom {
    var s1 := TakeN2Base(s.(sig := sig), n2Base);
    if s1.colliding.Some? then ShiftMyBase(me, s1, 3) else s1
  }

  function GapSigRevStep(c: Config, n: Node, sig: Sig, elk: Elk, n2Point: Point, n2Base: HtlcBase): Res {
    var s := n.disk;
    var advanced := AdvanceElkrem(s, elk, n2Point);
    if !InCollision(s) || advanced.None? then Failed(n)
    else
      var t := GapTarget(advanced.value);
      if !VerifySig(c, n.me, t.(elkPoint := t.nextElkPoint), sig) then Failed(n)
      else
        var saved := n.(disk := GapAccepted(n.me, t, sig, n2Base));
        var rev := SendRev(n.me, saved.disk);
        if rev.None? then Failed(saved)
        else Res(saved, [rev.value], true, Some(Past(saved.disk.stateIdx - 2, s.myAmt - s.collision)))
  }

  // ------------------------------------------------------------------ Rev

  function CountSome(o: Option<HTLC>): nat {
    if o.Some? then 1 else 0
  }

  /** The record saved once a Rev has been checked: nothing is under way. */
  function RevAccepted(s: StatCom, n2Base: HtlcBase): StatCom {
    var s1 := TakeN2Base(s.(delta := 0), n2Base);
    s1.(collHashDelta := false, collHashPreimage := false, collPreimages := false, collPreimageDelta := false,
        htlcs := MarkCleared(AppendOpt(AppendOpt(s1.htlcs, s1.inProg), s1.colliding)),
        inProg := None, colliding := None,
        htlcIdx := s1.htlcIdx + CountSome(s1.inProg) + CountSome(s1.colliding))
  }

  function RevStep(c: Config, n: Node, elk: Elk, n2Point: Point, n2Base: HtlcBase): Res {
    var s := n.disk;
    if AtRest(s) then Refused(n)
    else if s.delta < 0 then EmptyRev(n, s)
    else
      var advanced := AdvanceElkrem(s, elk, n2Point);
      if advanced.None? then Failed(n)
      else Res(n.(disk := RevAccepted(advanced.value, n2Base), cts := true), [], true,
               Some(Past(s.stateIdx - 1, s.myAmt - s.delta)))
  }

  /** Dispatch a message to its handler. */
  function Receive(c: Config, n: Node, msg: Msg, height: int): Res {
    match msg
    case DeltaSig(delta, sig) => DeltaSigStep(c, n, delta, sig)
    case HashSig(amt, rhash, locktime, sig) => HashSigStep(c, n, amt, rhash, locktime, sig)
    case PreimageSig(idx, preimage, sig) => PreimageSigStep(c, n, idx, preimage, sig, height)
    case SigRev(sig, elk, n2Point, n2Base) => SigRevStep(c, n, sig, elk, n2Point, n2Base)
    case GapSigRev(sig, elk, n2Point, n2Base) => GapSigRevStep(c, n, sig, elk, n2Point, n2Base)
    case Rev(elk, n2Point, n2Base) => RevStep(c, n, elk, n2Point, n2Base)
  }

  // ----------------------------------------------------------------- break

  /** Drop everything under way before breaking the channel. */
  function BreakState(s: StatCom): StatCom {
    s.(delta := 0, inProg := None, colliding := None,
       htlcs := seq(|s.htlcs|, i requires 0 <= i < |s.htlcs| =>
         if !s.htlcs[i].cleared && s.htlcs[i].clearing then s.htlcs[i].(clearing := false) else s.htlcs[i]))
  }

  /** The commitment BreakChannel puts on chain, with the stored countersignature. */
  function BreakTx(c: Config, n: Node): Option<(Commit, Sig)> {
    var tx := BuildStateTx(c, n.me, BreakState(n.disk), true);
    if n.closed || tx.None? then None else Some((tx.value, n.disk.sig))
  }
}
