/** The saved state of a payment channel and the commitment transactions built
    from it (qln/lnchannels.go, qln/buildtx.go, qln/signtx.go, qln/elkpoints.go).

    Cryptography is symbolic: an elkrem secret is named by its owner and index,
    an elkrem point by the secret it comes from, an HTLC base point by its owner
    and index, and a signature by its signer and the exact transaction signed. */
module ChannelState {
  import opened Wrappers
  import opened ElkremRange

  datatype Party = Alice | Bob

  function Peer(p: Party): Party {
    if p == Alice then Bob else Alice
  }

  /** Smallest output a commitment may carry, after the fee. */
  const MIN_OUTPUT: int := 100000
  /** Pushes and HTLCs must stay below this amount. */
  const MAX_SEND: int := 0x4000_0000

  datatype Elk = Elk(owner: Party, idx: nat) | ForeignElk(id: nat)
  datatype Point = PointOf(secret: Elk)
  datatype HtlcBase = HtlcBase(owner: Party, idx: nat) | ForeignBase(id: nat)
  datatype Digest = Sha(preimage: nat) | ForeignDigest(id: nat)

  /** preimage 0 stands for the all-zero preimage, which means "timed out". */
  datatype HTLC = HTLC(idx: nat, incoming: bool, amt: int, rhash: Digest, locktime: nat,
                       myBase: HtlcBase, theirBase: HtlcBase,
                       preimage: nat, clearing: bool, cleared: bool)

  /** The state record, as saved to disk. */
  datatype StatCom = StatCom(
    stateIdx: nat, myAmt: int, delta: int, collision: int,
    elkPoint: Point, nextElkPoint: Point, n2ElkPoint: Point,
    sig: Sig,
    htlcIdx: nat, inProg: Option<HTLC>, colliding: Option<HTLC>,
    collHashDelta: bool, collHashPreimage: bool, collPreimages: bool, collPreimageDelta: bool,
    nextBase: HtlcBase, n2Base: HtlcBase, myNextBase: HtlcBase, myN2Base: HtlcBase,
    htlcs: seq<HTLC>, failed: bool)

  datatype HtlcOut = HtlcOut(offered: bool, remoteKey: (HtlcBase, Point), localKey: (HtlcBase, Point),
                             rhash: Digest, locktime: nat, amt: int)

  /** A commitment transaction, seen from the party that holds it.  Outputs are
      sorted before signing, so the HTLC outputs form a multiset.  holderPoint
      fixes every revocation and timeout key of the transaction. */
  datatype Commit = Commit(holder: Party, idx: nat, holderPoint: Point,
                           holderOut: int, otherOut: int, htlcOuts: multiset<HtlcOut>)

  datatype Sig = Sig(signer: Party, tx: Commit)

  /** What both nodes know about the channel and never change: its capacity, the
      symmetric fee, and the byte order of base points. */
  datatype Config = Config(value: int, fee: nat, rank: HtlcBase -> int)

  // ---------------------------------------------------------------- HTLC sums

  predicate Live(h: HTLC) {
    !h.cleared && !h.clearing
  }

  function LiveSum(hs: seq<HTLC>): int {
    if hs == [] then 0
    else LiveSum(hs[..|hs| - 1]) + if Live(hs[|hs| - 1]) then hs[|hs| - 1].amt else 0
  }

  function UnclearedSum(hs: seq<HTLC>): int {
    if hs == [] then 0
    else UnclearedSum(hs[..|hs| - 1]) + if !hs[|hs| - 1].cleared then hs[|hs| - 1].amt else 0
  }

  function OptAmt(o: Option<HTLC>): int {
    if o.Some? then o.value.amt else 0
  }

  /** My balance and the counterparty's, outside HTLCs. */
  function Balances(c: Config, s: StatCom): (r: (int, int)) {
    (s.myAmt, c.value - UnclearedSum(s.htlcs) - s.myAmt)
  }

  // ------------------------------------------------------- building a commitment

  /** An amount becomes an output, net of the fee, only when it is positive. */
  function NetOut(c: Config, amt: int): int {
    if amt > 0 then amt - c.fee else 0
  }

  function GenHtlcOut(me: Party, s: StatCom, h: HTLC, mine: bool): HtlcOut {
    var own := (h.myBase, PointOf(Elk(me, s.stateIdx)));
    var their := (h.theirBase, s.elkPoint);
    var offered := h.incoming != mine;
    HtlcOut(offered, if mine then their else own, if mine then own else their,
            h.rhash, if offered then 0 else h.locktime, h.amt)
  }

  function LiveOuts(me: Party, s: StatCom, hs: seq<HTLC>, mine: bool): multiset<HtlcOut> {
    if hs == [] then multiset{}
    else
      var last := hs[|hs| - 1];
      LiveOuts(me, s, hs[..|hs| - 1], mine)
      + if Live(last) then multiset{GenHtlcOut(me, s, last, mine)} else multiset{}
  }

  function OptOuts(me: Party, s: StatCom, o: Option<HTLC>, mine: bool): multiset<HtlcOut> {
    if o.Some? then multiset{GenHtlcOut(me, s, o.value, mine)} else multiset{}
  }

  function AllOuts(me: Party, s: StatCom, mine: bool): multiset<HtlcOut> {
    LiveOuts(me, s, s.htlcs, mine) + OptOuts(me, s, s.inProg, mine) + OptOuts(me, s, s.colliding, mine)
  }

  predicate AmountsOk(c: Config, holderOut: int, otherOut: int) {
    && (holderOut != 0 ==> holderOut >= MIN_OUTPUT)
    && (otherOut != 0 ==> otherOut >= MIN_OUTPUT)
  }

  /** Put a commitment together from its parts, or refuse amounts that are too low. */
  function Assemble(c: Config, holder: Party, idx: nat, point: Point, holderAmt: int, otherAmt: int,
                    outs: multiset<HtlcOut>): Option<Commit>
  {
    var holderOut := NetOut(c, holderAmt);
    var otherOut := NetOut(c, otherAmt);
    if idx > MAX_INDEX then None
    else if !AmountsOk(c, holderOut, otherOut) then None
    else if holderOut == 0 && otherOut == 0 && outs == multiset{} then None
    else if exists o <- outs :: o.amt - c.fee < MIN_OUTPUT then None
    else Some(Commit(holder, idx, point, holderOut, otherOut, outs))
  }

  /** What is left for the counterparty once open HTLCs and my amount are taken
      from the capacity. */
  function TheirAmt(c: Config, s: StatCom): int {
    c.value - OptAmt(s.inProg) - OptAmt(s.colliding) - LiveSum(s.htlcs) - s.myAmt
  }

  /** The commitment built from the state in RAM; mine selects whether it is the
      transaction this node holds or the one its peer holds. */
  function BuildStateTx(c: Config, me: Party, s: StatCom, mine: bool): Option<Commit> {
    if mine
    then Assemble(c, me, s.stateIdx, PointOf(Elk(me, s.stateIdx)), s.myAmt, TheirAmt(c, s), AllOuts(me, s, true))
    else Assemble(c, Peer(me), s.stateIdx, s.elkPoint, TheirAmt(c, s), s.myAmt, AllOuts(me, s, false))
  }

  /** My signature on the counterparty's commitment. */
  function SignState(c: Config, me: Party, s: StatCom): Option<Sig> {
    var tx := BuildStateTx(c, me, s, false);
    if tx.None? then None else Some(Sig(me, tx.value))
  }

  /** Does the signature fit the commitment I would hold? */
  predicate VerifySig(c: Config, me: Party, s: StatCom, sig: Sig) {
    var tx := BuildStateTx(c, me, s, true);
    tx.Some? && sig == Sig(Peer(me), tx.value)
  }

  // ------------------------------------------------------------- elkrem points

  /** The secret of a past state; out of range when the index underflows. */
  function SecretAt(me: Party, idx: int): Option<Elk> {
    if 0 <= idx <= MAX_INDEX then Some(Elk(me, idx)) else None
  }

  function N2PointForThem(me: Party, s: StatCom): Option<Point> {
    if s.stateIdx + 2 > MAX_INDEX then None else Some(PointOf(Elk(me, s.stateIdx + 2)))
  }

  /** Accept a revocation: it must open the current point, then the three stored
      points move down by one. */
  function AdvanceElkrem(s: StatCom, elk: Elk, n2: Point): Option<StatCom> {
    if s.stateIdx != 0 && PointOf(elk) != s.elkPoint then None
    else Some(s.(elkPoint := s.nextElkPoint, nextElkPoint := s.n2ElkPoint, n2ElkPoint := n2))
  }

  // --------------------------------------------------------------- HTLC flags

  function AppendOpt(hs: seq<HTLC>, o: Option<HTLC>): seq<HTLC> {
    if o.Some? then hs + [o.value] else hs
  }

  predicate AnyClearing(hs: seq<HTLC>) {
    exists h <- hs :: h.clearing
  }

  /** Take the clearing mark off every HTLC. */
  function Unclear(hs: seq<HTLC>): (r: seq<HTLC>)
    ensures |r| == |hs|
  {
    seq(|hs|, i requires 0 <= i < |hs| => hs[i].(clearing := false))
  }

  /** Put the clearing mark back on every HTLC that carried it before. */
  function Reclear(hs: seq<HTLC>, before: seq<HTLC>): (r: seq<HTLC>)
    requires |hs| == |before|
    ensures |r| == |hs|
  {
    seq(|hs|, i requires 0 <= i < |hs| => if before[i].clearing then hs[i].(clearing := true) else hs[i])
  }

  /** Everything that is being cleared is now cleared. */
  function MarkCleared(hs: seq<HTLC>): (r: seq<HTLC>)
    ensures |r| == |hs|
  {
    seq(|hs|, i requires 0 <= i < |hs| =>
      if hs[i].clearing && !hs[i].cleared then hs[i].(cleared := true) else hs[i])
  }

  /** An incoming HTLC pays me when its preimage is known, an outgoing one when
      it timed out. */
  predicate Gains(h: HTLC) {
    h.incoming != (h.preimage == 0)
  }

  /** What I gain from the HTLCs now being cleared. */
  function ClearingGain(hs: seq<HTLC>): int {
    if hs == [] then 0
    else
      var h := hs[|hs| - 1];
      ClearingGain(hs[..|hs| - 1]) + if h.clearing && !h.cleared && Gains(h) then h.amt else 0
  }

  /** What I pay into an HTLC that is being offered. */
  function OutgoingCost(o: Option<HTLC>): int {
    if o.Some? && !o.value.incoming then o.value.amt else 0
  }

  /** Locktimes are stored unsigned and compared as signed 32-bit numbers. */
  function AsInt32(x: nat): int {
    var low := x % 0x1_0000_0000;
    if low >= 0x8000_0000 then low - 0x1_0000_0000 else low
  }
}
