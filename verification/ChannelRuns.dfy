/** Two honest nodes joined by two first-in first-out links.  A run is any sequence
    of local operations and deliveries, in any order the links allow. */
module ChannelRuns {
  import opened Wrappers
  import opened ElkremRange
  import opened ChannelState
  import opened ChannelSteps
  import opened ChannelLedger
  import opened ChannelModes
  import opened ChannelHonest
  import opened ChannelCollisions

  datatype Net = Net(alice: Node, bob: Node, toAlice: seq<Msg>, toBob: seq<Msg>)

  function NodeOf(n: Net, p: Party): Node {
    if p == Alice then n.alice else n.bob
  }

  function Inbox(n: Net, p: Party): seq<Msg> {
    if p == Alice then n.toAlice else n.toBob
  }

  /** The net seen from party p. */
  function MkNet(p: Party, mine: Node, theirs: Node, toMe: seq<Msg>, toThem: seq<Msg>): Net {
    if p == Alice then Net(mine, theirs, toMe, toThem) else Net(theirs, mine, toThem, toMe)
  }

  /** p's node has moved to r.node, its inbox is now toMe, and its answers are sent. */
  function Moved(n: Net, p: Party, r: Res, toMe: seq<Msg>): Net {
    MkNet(p, r.node, NodeOf(n, Peer(p)), toMe, Inbox(n, Peer(p)) + r.out)
  }

  // --------------------------------------------------------------- operations

  function StartOp(c: Config, n: Node, op: Op, height: int): Res
    requires n.cts
    requires match op case Push(amt) => amt >= 0 case Offer(amt, _, _) => amt >= 0 case Clear(_, _) => true
  {
    match op
    case Push(amt) => PushChannel(c, n, amt)
    case Offer(amt, rhash, locktime) => OfferHTLC(c, n, amt, rhash, locktime)
    case Clear(idx, preimage) => ClearHTLC(c, n, idx, preimage, height)
  }

  /** When an honest caller starts an operation: the token is free, its own record says
      the amount is affordable, and it clears an HTLC only when it gains by it.  The last
      condition is an assumption that no caller can check, since it reads the peer's
      record: the peer is not clearing the same HTLC.  ChannelLimits.RaceFails shows
      what happens when it is. */
  predicate MayStart(c: Config, n: Net, p: Party, op: Op, height: int) {
    var s := NodeOf(n, p).disk;
    var peer := NodeOf(n, Peer(p)).disk;
    var b := Balances(c, s);
    && NodeOf(n, p).cts
    && s.stateIdx + 4 <= MAX_INDEX
    && match op
       case Push(amt) =>
         0 < amt < MAX_SEND && b.0 - amt >= MIN_OUTPUT + c.fee && b.1 + amt >= MIN_OUTPUT + c.fee
       case Offer(amt, _, _) =>
         MIN_OUTPUT + c.fee <= amt < MAX_SEND && b.0 - amt >= MIN_OUTPUT + c.fee
       case Clear(idx, preimage) =>
         && idx < |s.htlcs| && !s.htlcs[idx].cleared && MayClear(s.htlcs[idx], preimage, height)
         && s.htlcs[idx].incoming == (preimage != 0)
         && (idx < |peer.htlcs| && peer.htlcs[idx].clearing ==> peer.htlcs[idx].cleared)
  }

  // -------------------------------------------------------------------- phases

  /** What the party that is still waiting for a Rev waits for: the end of p's lone
      operation, or of a collision between p's and its own. */
  datatype Wait = Single(l: Ledger, op: Op) | Double(l: Ledger, opP: Op, opQ: Op)

  /** Every situation two honest nodes can be in.  p is the party named first. */
  datatype Phase =
    | Quiet(l: Ledger)
    | Asked(p: Party, l: Ledger, op: Op)
    | Replied(p: Party, l: Ledger, op: Op)
    | Closed(p: Party, w: Wait, next: Option<Op>)
    | Crossed(p: Party, l: Ledger, opP: Op, opQ: Op)
    | HalfGap(p: Party, l: Ledger, opP: Op, opQ: Op)
    | BothGap(p: Party, l: Ledger, opP: Op, opQ: Op)
    | HalfDone(p: Party, l: Ledger, opP: Op, opQ: Op)
    | BothDone(p: Party, l: Ledger, opP: Op, opQ: Op)

  /** The ledger p has already reached. */
  function After(c: Config, p: Party, w: Wait): Ledger {
    match w
    case Single(l, op) => Apply(l, p, op)
    case Double(l, opP, opQ) => ApplyBoth(c, l, p, opP, opQ)
  }

  function Waiting(c: Config, p: Party, w: Wait): StatCom {
    match w
    case Single(l, op) => Got(c, Peer(p), l, op)
    case Double(l, opP, opQ) => Fin(c, Peer(p), l, opQ, opP)
  }

  /** An operation an honest caller starts. */
  predicate HonestOp(c: Config, l: Ledger, p: Party, op: Op, height: int) {
    ValidOp(c, l, p, op, height) && Gainful(l, p, op)
  }

  /** Two operations honest callers have started at once. */
  predicate BothHonest(c: Config, l: Ledger, p: Party, opP: Op, opQ: Op, height: int) {
    BothValid(c, l, p, opP, opQ, height) && Gainful(l, p, opP) && Gainful(l, Peer(p), opQ)
  }

  predicate ValidWait(c: Config, p: Party, w: Wait, height: int) {
    match w
    case Single(l, op) => ValidLedger(c, l) && HonestOp(c, l, p, op, height) && l.idx + 4 <= MAX_INDEX
    case Double(l, opP, opQ) => BothHonest(c, l, p, opP, opQ, height)
  }

  predicate ValidPhase(c: Config, ph: Phase, height: int) {
    match ph
    case Quiet(l) => ValidLedger(c, l) && l.idx <= MAX_INDEX
    case Asked(p, l, op) => ValidLedger(c, l) && HonestOp(c, l, p, op, height) && l.idx + 4 <= MAX_INDEX
    case Replied(p, l, op) => ValidLedger(c, l) && HonestOp(c, l, p, op, height) && l.idx + 4 <= MAX_INDEX
    case Closed(p, w, next) =>
      && ValidWait(c, p, w, height)
      && (next.Some? ==> HonestOp(c, After(c, p, w), p, next.value, height) && After(c, p, w).idx + 4 <= MAX_INDEX)
    case Crossed(p, l, opP, opQ) => BothHonest(c, l, p, opP, opQ, height)
    case HalfGap(p, l, opP, opQ) => BothHonest(c, l, p, opP, opQ, height)
    case BothGap(p, l, opP, opQ) => BothHonest(c, l, p, opP, opQ, height)
    case HalfDone(p, l, opP, opQ) => BothHonest(c, l, p, opP, opQ, height)
    case BothDone(p, l, opP, opQ) => BothHonest(c, l, p, opP, opQ, height)
  }

  /** The whole net in a phase: both records and both links. */
  function Render(c: Config, ph: Phase): Net {
    match ph
    case Quiet(l) =>
      MkNet(Alice, Holding(Alice, Rest(c, Alice, l), true), Holding(Bob, Rest(c, Bob, l), true), [], [])
    case Asked(p, l, op) =>
      MkNet(p, Holding(p, Sent(c, p, l, op), false), Holding(Peer(p), Rest(c, Peer(p), l), true),
            [], [Opening(c, p, l, op)])
    case Replied(p, l, op) =>
      MkNet(p, Holding(p, Sent(c, p, l, op), false), Holding(Peer(p), Got(c, Peer(p), l, op), false),
            [Answer(c, Peer(p), l, op)], [])
    case Closed(p, w, None) =>
      MkNet(p, Holding(p, Rest(c, p, After(c, p, w)), true), Holding(Peer(p), Waiting(c, p, w), false),
            [], [Closing(p, After(c, p, w))])
    case Closed(p, w, Some(op)) =>
      MkNet(p, Holding(p, Sent(c, p, After(c, p, w), op), false), Holding(Peer(p), Waiting(c, p, w), false),
            [], [Closing(p, After(c, p, w)), Opening(c, p, After(c, p, w), op)])
    case Crossed(p, l, opP, opQ) =>
      MkNet(p, Holding(p, Sent(c, p, l, opP), false), Holding(Peer(p), Sent(c, Peer(p), l, opQ), false),
            [Opening(c, Peer(p), l, opQ)], [Opening(c, p, l, opP)])
    case HalfGap(p, l, opP, opQ) =>
      MkNet(p, Holding(p, Gap(c, p, l, opP, opQ), false), Holding(Peer(p), Sent(c, Peer(p), l, opQ), false),
            [], [Opening(c, p, l, opP), GapAnswer(c, p, l, opP, opQ)])
    case BothGap(p, l, opP, opQ) =>
      MkNet(p, Holding(p, Gap(c, p, l, opP, opQ), false), Holding(Peer(p), Gap(c, Peer(p), l, opQ, opP), false),
            [GapAnswer(c, Peer(p), l, opQ, opP)], [GapAnswer(c, p, l, opP, opQ)])
    case HalfDone(p, l, opP, opQ) =>
      MkNet(p, Holding(p, Fin(c, p, l, opP, opQ), false), Holding(Peer(p), Gap(c, Peer(p), l, opQ, opP), false),
            [], [GapAnswer(c, p, l, opP, opQ), Closing(p, ApplyBoth(c, l, p, opP, opQ))])
    case BothDone(p, l, opP, opQ) =>
      MkNet(p, Holding(p, Fin(c, p, l, opP, opQ), false), Holding(Peer(p), Fin(c, Peer(p), l, opQ, opP), false),
            [Closing(Peer(p), ApplyBoth(c, l, p, opP, opQ))], [Closing(p, ApplyBoth(c, l, p, opP, opQ))])
  }

  /** The phase after party x starts op. */
  function AfterStart(ph: Phase, x: Party, op: Op): Phase {
    match ph
    case Quiet(l) => Asked(x, l, op)
    case Asked(p, l, first) => Crossed(p, l, first, op)
    case Closed(p, w, _) => Closed(p, w, Some(op))
    case _ => ph
  }

  /** The phase after party x takes the first message of its inbox. */
  function AfterDeliver(c: Config, ph: Phase, x: Party): Phase {
    match ph
    case Quiet(_) => ph
    case Asked(p, l, op) => Replied(p, l, op)
    case Replied(p, l, op) => Closed(p, Single(l, op), None)
    case Closed(p, w, None) => Quiet(After(c, p, w))
    case Closed(p, w, Some(op)) => Asked(p, After(c, p, w), op)
    case Crossed(p, l, opP, opQ) => if x == p then HalfGap(p, l, opP, opQ) else HalfGap(x, l, opQ, opP)
    case HalfGap(p, l, opP, opQ) => BothGap(p, l, opP, opQ)
    case BothGap(p, l, opP, opQ) => if x == p then HalfDone(p, l, opP, opQ) else HalfDone(x, l, opQ, opP)
    case HalfDone(p, l, opP, opQ) => BothDone(p, l, opP, opQ)
    case BothDone(p, l, opP, opQ) =>
      if x == p then Closed(p, Double(l, opP, opQ), None) else Closed(x, Double(l, opQ, opP), None)
  }

  /** The justice pair produced when party x takes a message. */
  function DeliveryPast(c: Config, ph: Phase, x: Party): Option<Past> {
    match ph
    case Replied(p, l, op) => Some(Past(l.idx, Amt(l, p)))
    case Closed(p, Single(l, op), _) =>
      Some(Past(l.idx, Amt(Apply(l, p, op), x) - if op.Push? then op.amt else 0))
    case Closed(p, Double(l, opP, opQ), _) =>
      Some(Past(l.idx + 1, Amt(ApplyBoth(c, l, p, opP, opQ), x) - Crossing(l, opQ, opP)))
    case BothGap(p, l, opP, opQ) =>
      if x == p then Some(Past(l.idx, Amt(Apply(l, Peer(p), opQ), p) - Crossing(l, opP, opQ)))
      else Some(Past(l.idx, Amt(Apply(l, p, opP), x) - Crossing(l, opQ, opP)))
    case HalfDone(p, l, opP, opQ) => Some(Past(l.idx, Amt(Apply(l, p, opP), x) - Crossing(l, opQ, opP)))
    case BothDone(p, l, opP, opQ) =>
      if x == p then Some(Past(l.idx + 1, Amt(ApplyBoth(c, l, p, opP, opQ), p) - Crossing(l, opP, opQ)))
      else Some(Past(l.idx + 1, Amt(ApplyBoth(c, l, p, opP, opQ), x) - Crossing(l, opQ, opP)))
    case _ => None
  }

  // -------------------------------------------------------------- simulation

  lemma AfterValid(c: Config, p: Party, w: Wait, height: int)
    requires ValidWait(c, p, w, height)
    ensures ValidLedger(c, After(c, p, w))
    ensures 0 < After(c, p, w).idx <= MAX_INDEX
  {
    match w
    case Single(l, op) => ApplyValid(c, l, p, op, height);
    case Double(l, opP, opQ) => ApplyBothValid(c, l, p, opP, opQ, height);
  }

  /** What a party at rest observes is what the ledger says. */
  lemma RestMayStart(c: Config, n: Net, p: Party, l: Ledger, op: Op, height: int)
    requires ValidLedger(c, l) && NodeOf(n, p) == Holding(p, Rest(c, p, l), true)
    requires MayStart(c, n, p, op, height)
    ensures HonestOp(c, l, p, op, height) && l.idx + 4 <= MAX_INDEX
  {
    UnclearedSumView(p, View(p, l.entries), l.entries);
  }

  /** An honest node at rest can start any valid operation. */
  lemma Starts(c: Config, p: Party, l: Ledger, op: Op, height: int)
    requires ValidLedger(c, l) && ValidOp(c, l, p, op, height) && l.idx + 4 <= MAX_INDEX
    ensures StartOp(c, Holding(p, Rest(c, p, l), true), op, height)
         == Res(Holding(p, Sent(c, p, l, op), false), [Opening(c, p, l, op)], true, None)
  {
    hide PushChannel, OfferHTLC, ClearHTLC;
    match op
    case Push(_) => StartsPush(c, p, l, op, height);
    case Offer(_, _, _) => StartsOffer(c, p, l, op, height);
    case Clear(_, _) => StartsClear(c, p, l, op, height);
  }

  /** An honest node at rest accepts any valid operation of its peer. */
  lemma Accepts(c: Config, p: Party, l: Ledger, op: Op, height: int)
    requires ValidLedger(c, l) && ValidOp(c, l, Peer(p), op, height) && l.idx + 4 <= MAX_INDEX
    ensures Receive(c, Holding(p, Rest(c, p, l), true), Opening(c, Peer(p), l, op), height)
         == Res(Holding(p, Got(c, p, l, op), false), [Answer(c, p, l, op)], true, None)
  {
    hide Receive;
    match op
    case Push(_) => AcceptsPush(c, p, l, op, height);
    case Offer(_, _, _) => AcceptsOffer(c, p, l, op, height);
    case Clear(_, _) => AcceptsClear(c, p, l, op, height);
  }

  /** A node that has started an operation accepts its peer's and enters the gap. */
  lemma EntersGap(c: Config, p: Party, l: Ledger, mine: Op, theirs: Op, height: int)
    requires CrossingValid(c, l, p, mine, theirs, height) && DistinctBases(c)
    ensures Receive(c, Holding(p, Sent(c, p, l, mine), false), Opening(c, Peer(p), l, theirs), height)
         == Reply(Holding(p, Gap(c, p, l, mine, theirs), false), SendGapSigRev(c, p, Gap(c, p, l, mine, theirs)))
  {
    hide Receive;
    match theirs
    case Push(_) => CrossesPush(c, p, l, mine, theirs, height);
    case Offer(_, _, _) => CrossesOffer(c, p, l, mine, theirs, height);
    case Clear(_, _) => CrossesClear(c, p, l, mine, theirs, height);
  }

  /** When the peer is honest its operation is answered as expected. */
  lemma Crosses(c: Config, p: Party, l: Ledger, mine: Op, theirs: Op, height: int)
    requires BothHonest(c, l, p, mine, theirs, height) && DistinctBases(c)
    ensures Receive(c, Holding(p, Sent(c, p, l, mine), false), Opening(c, Peer(p), l, theirs), height)
         == Res(Holding(p, Gap(c, p, l, mine, theirs), false), [GapAnswer(c, p, l, mine, theirs)], true, None)
  {
    hide Receive, SendGapSigRev, Gap, Sent, Opening, GapAnswer;
    EntersGap(c, p, l, mine, theirs, height);
    GapAnswers(c, p, l, mine, theirs, height);
  }

  /** Rev ends the wait. */
  lemma Settles(c: Config, p: Party, w: Wait, height: int)
    requires ValidWait(c, p, w, height) && DistinctBases(c)
    ensures var q := Peer(p); var l := After(c, p, w);
      l.idx > 0 &&
      Receive(c, Holding(q, Waiting(c, p, w), false), Closing(p, l), height)
        == Res(Holding(q, Rest(c, q, l), true), [], true, DeliveryPast(c, Closed(p, w, None), q))
  {
    hide Receive, Rest, Sent, Got, Gap, Fin, Apply, ApplyBoth, Closing;
    var q := Peer(p);
    AfterValid(c, p, w, height);
    match w {
      case Single(l, op) => SettlesGot(c, q, l, op, height);
      case Double(l, opP, opQ) =>
        ApplyBothSymmetric(c, l, p, opP, opQ);
        BothParts(c, l, p, opP, opQ);
        SettlesBoth(c, q, l, opQ, opP, height);
    }
  }

  /** The ledger a party that is clear to send holds. */
  function HeldLedger(c: Config, ph: Phase): Ledger {
    match ph
    case Quiet(l) => l
    case Asked(_, l, _) => l
    case Replied(_, l, _) => l
    case Closed(p, w, _) => After(c, p, w)
    case Crossed(_, l, _, _) => l
    case HalfGap(_, l, _, _) => l
    case BothGap(_, l, _, _) => l
    case HalfDone(_, l, _, _) => l
    case BothDone(_, l, _, _) => l
  }

  /** Only a party at rest is clear to send. */
  lemma ClearMeansRest(c: Config, ph: Phase, x: Party, height: int)
    requires ValidPhase(c, ph, height) && NodeOf(Render(c, ph), x).cts
    ensures NodeOf(Render(c, ph), x) == Holding(x, Rest(c, x, HeldLedger(c, ph)), true)
    ensures ValidLedger(c, HeldLedger(c, ph))
    ensures ph.Quiet? || (ph.Asked? && x == Peer(ph.p)) || (ph.Closed? && x == ph.p && ph.next.None?)
  {
    hide Rest, Sent, Got, Gap, Fin, ValidOp, ValidLedger, Opening, Answer, GapAnswer, Apply, ApplyBoth;
    if ph.Closed? { AfterValid(c, ph.p, ph.w, height); }
  }

  lemma ClearToStart(c: Config, n: Net, x: Party, op: Op, height: int)
    requires MayStart(c, n, x, op, height)
    ensures NodeOf(n, x).cts && (op.Push? ==> op.amt >= 0) && (op.Offer? ==> op.amt >= 0)
  {}

  /** Starting an operation moves the net from one phase to the next. */
  lemma StartSimulates(c: Config, ph: Phase, x: Party, op: Op, height: int)
    requires ValidPhase(c, ph, height) && MayStart(c, Render(c, ph), x, op, height)
    ensures ValidPhase(c, AfterStart(ph, x, op), height)
    ensures var n := Render(c, ph);
      var r := StartOp(c, NodeOf(n, x), op, height);
      r.ok && r.justice.None? && |r.out| == 1 && Moved(n, x, r, Inbox(n, x)) == Render(c, AfterStart(ph, x, op))
  {
    var n := Render(c, ph);
    var l := HeldLedger(c, ph);
    hide Rest, Sent, Got, Gap, Fin, ValidOp, ValidLedger, MayStart, StartOp, Moved, Render, ValidPhase, AfterStart;
    ClearToStart(c, n, x, op, height);
    ClearMeansRest(c, ph, x, height);
    RestMayStart(c, n, x, l, op, height);
    Starts(c, x, l, op, height);
    StartRender(c, ph, x, op, height);
    if ph.Asked? { AskedCompatible(c, ph, op, height); }
    StartValid(c, ph, x, op, height);
  }

  /** The net once x has gone from rest to having sent its opening message. */
  lemma StartRender(c: Config, ph: Phase, x: Party, op: Op, height: int)
    requires ph.Quiet? || (ph.Asked? && x == Peer(ph.p)) || (ph.Closed? && x == ph.p && ph.next.None?)
    ensures var n := Render(c, ph); var l := HeldLedger(c, ph);
      Moved(n, x, Res(Holding(x, Sent(c, x, l, op), false), [Opening(c, x, l, op)], true, None), Inbox(n, x))
        == Render(c, AfterStart(ph, x, op))
  {
    hide Rest, Sent, Got, Gap, Fin, Opening, Answer, GapAnswer, Apply, ApplyBoth, Waiting;
  }

  lemma StartValid(c: Config, ph: Phase, x: Party, op: Op, height: int)
    requires ValidPhase(c, ph, height)
    requires HonestOp(c, HeldLedger(c, ph), x, op, height) && HeldLedger(c, ph).idx + 4 <= MAX_INDEX
    requires ph.Quiet? || (ph.Asked? && x == Peer(ph.p)) || (ph.Closed? && x == ph.p && ph.next.None?)
    requires ph.Asked? ==> Compatible(ph.op, op)
    ensures ValidPhase(c, AfterStart(ph, x, op), height)
  {
    hide ValidOp, ValidLedger, Apply, ApplyBoth;
  }

  lemma AskedCompatible(c: Config, ph: Phase, op: Op, height: int)
    requires ph.Asked? && ValidPhase(c, ph, height)
    requires HonestOp(c, ph.l, Peer(ph.p), op, height) && MayStart(c, Render(c, ph), Peer(ph.p), op, height)
    ensures Compatible(ph.op, op)
  {
    if ph.op.Clear? && op.Clear? {
      assert Sent(c, ph.p, ph.l, ph.op).htlcs[ph.op.idx].clearing;
    }
  }

  // ----------------------------------------------------------------- deliveries

  /** Crossing phases read the same from either side. */
  function Flip(ph: Phase): Phase {
    match ph
    case Crossed(p, l, opP, opQ) => Crossed(Peer(p), l, opQ, opP)
    case BothGap(p, l, opP, opQ) => BothGap(Peer(p), l, opQ, opP)
    case BothDone(p, l, opP, opQ) => BothDone(Peer(p), l, opQ, opP)
    case _ => ph
  }

  lemma FlipSame(c: Config, ph: Phase, height: int)
    requires ValidPhase(c, ph, height) && DistinctBases(c)
    ensures Render(c, Flip(ph)) == Render(c, ph) && ValidPhase(c, Flip(ph), height)
  {
    hide Rest, Sent, Got, Gap, Fin, Opening, Answer, GapAnswer, Apply, ApplyBoth, ValidOp, ValidLedger;
    match ph
    case Crossed(p, l, opP, opQ) =>
    case BothGap(p, l, opP, opQ) =>
    case BothDone(p, l, opP, opQ) => BothDoneSymmetric(c, p, l, opP, opQ, height);
    case _ =>
  }

  lemma BothDoneSymmetric(c: Config, p: Party, l: Ledger, opP: Op, opQ: Op, height: int)
    requires BothHonest(c, l, p, opP, opQ, height) && DistinctBases(c)
    ensures ApplyBoth(c, l, p, opP, opQ) == ApplyBoth(c, l, Peer(p), opQ, opP)
    ensures ApplyBoth(c, l, p, opP, opQ).idx == l.idx + 2
    ensures BothHonest(c, l, Peer(p), opQ, opP, height)
  {
    ApplyBothSymmetric(c, l, p, opP, opQ);
  }

  /** The party that takes the next message in a phase, up to symmetry. */
  function Taker(ph: Phase): Party {
    match ph
    case Quiet(_) => Alice
    case Asked(p, _, _) => Peer(p)
    case Replied(p, _, _) => p
    case Closed(p, _, _) => Peer(p)
    case Crossed(p, _, _, _) => p
    case HalfGap(p, _, _, _) => Peer(p)
    case BothGap(p, _, _, _) => p
    case HalfDone(p, _, _, _) => Peer(p)
    case BothDone(p, _, _, _) => p
  }

  /** What the taker's handler returns in a phase. */
  function TakerRes(c: Config, ph: Phase): Res
    requires !ph.Quiet?
    requires ph.Closed? ==> After(c, ph.p, ph.w).idx > 0
  {
    match ph
    case Asked(p, l, op) =>
      Res(Holding(Peer(p), Got(c, Peer(p), l, op), false), [Answer(c, Peer(p), l, op)], true, None)
    case Replied(p, l, op) =>
      Res(Holding(p, Rest(c, p, Apply(l, p, op)), true), [Closing(p, Apply(l, p, op))], true, Some(Past(l.idx, Amt(l, p))))
    case Closed(p, w, _) =>
      Res(Holding(Peer(p), Rest(c, Peer(p), After(c, p, w)), true), [], true,
          DeliveryPast(c, Closed(p, w, None), Peer(p)))
    case Crossed(p, l, opP, opQ) =>
      Res(Holding(p, Gap(c, p, l, opP, opQ), false), [GapAnswer(c, p, l, opP, opQ)], true, None)
    case HalfGap(p, l, opP, opQ) =>
      Res(Holding(Peer(p), Gap(c, Peer(p), l, opQ, opP), false), [GapAnswer(c, Peer(p), l, opQ, opP)], true, None)
    case BothGap(p, l, opP, opQ) =>
      Res(Holding(p, Fin(c, p, l, opP, opQ), false), [Closing(p, ApplyBoth(c, l, p, opP, opQ))], true,
          Some(Past(l.idx, Amt(Apply(l, Peer(p), opQ), p) - Crossing(l, opP, opQ))))
    case HalfDone(p, l, opP, opQ) =>
      Res(Holding(Peer(p), Fin(c, Peer(p), l, opQ, opP), false), [Closing(Peer(p), ApplyBoth(c, l, Peer(p), opQ, opP))], true,
          Some(Past(l.idx, Amt(Apply(l, p, opP), Peer(p)) - Crossing(l, opQ, opP))))
    case BothDone(p, l, opP, opQ) =>
      Res(Holding(p, Rest(c, p, ApplyBoth(c, l, p, opP, opQ)), true), [], true,
          Some(Past(l.idx + 1, Amt(ApplyBoth(c, l, p, opP, opQ), p) - Crossing(l, opP, opQ))))
  }

  /** The handler of the taker does what the phase says: it accepts the signature
      it is given, saves the next record and sends the next message. */
  lemma TakerHandles(c: Config, ph: Phase, height: int)
    requires ValidPhase(c, ph, height) && DistinctBases(c) && !ph.Quiet?
    ensures ph.Closed? ==> After(c, ph.p, ph.w).idx > 0
    ensures var n := Render(c, ph); var x := Taker(ph);
      |Inbox(n, x)| > 0 && Receive(c, NodeOf(n, x), Inbox(n, x)[0], height) == TakerRes(c, ph)
  {
    hide Receive, Rest, Sent, Got, Gap, Fin, Opening, Answer, GapAnswer, Apply, ApplyBoth, ValidOp, ValidLedger,
         DeliveryPast, Waiting;
    match ph {
      case Asked(p, l, op) => Accepts(c, Peer(p), l, op, height);
      case Replied(p, l, op) => ClosesWithRev(c, p, l, op, height);
      case Closed(p, w, next) => AfterValid(c, p, w, height); Settles(c, p, w, height);
      case Crossed(p, l, opP, opQ) => Crosses(c, p, l, opP, opQ, height);
      case HalfGap(p, l, opP, opQ) => Crosses(c, Peer(p), l, opQ, opP, height);
      case BothGap(p, l, opP, opQ) => LeavesGap(c, p, l, opP, opQ, height);
      case HalfDone(p, l, opP, opQ) => LeavesGap(c, Peer(p), l, opQ, opP, height);
      case BothDone(p, l, opP, opQ) =>
        BothDoneSymmetric(c, p, l, opP, opQ, height);
        SettlesBoth(c, p, l, opP, opQ, height);
    }
  }

  /** What the taker does to the net leads to the next phase. */
  ghost predicate RendersNext(c: Config, ph: Phase)
    requires !ph.Quiet? && (ph.Closed? ==> After(c, ph.p, ph.w).idx > 0)
  {
    var n := Render(c, ph);
    var x := Taker(ph);
    && |Inbox(n, x)| > 0
    && Moved(n, x, TakerRes(c, ph), Inbox(n, x)[1..]) == Render(c, AfterDeliver(c, ph, x))
    && TakerRes(c, ph).justice == DeliveryPast(c, ph, x)
  }

  lemma TakerRender(c: Config, ph: Phase)
    requires !ph.Quiet? && (ph.Closed? ==> After(c, ph.p, ph.w).idx > 0)
    requires ph.HalfDone? || ph.BothDone? ==>
      ApplyBoth(c, ph.l, ph.p, ph.opP, ph.opQ) == ApplyBoth(c, ph.l, Peer(ph.p), ph.opQ, ph.opP)
    ensures RendersNext(c, ph)
  {
    hide RendersNext, After, ApplyBoth;
    match ph
    case Asked(_, _, _) => LoneRender(c, ph);
    case Replied(_, _, _) => LoneRender(c, ph);
    case Closed(_, _, _) => LoneRender(c, ph);
    case Crossed(_, _, _, _) => GapRender(c, ph);
    case HalfGap(_, _, _, _) => GapRender(c, ph);
    case BothGap(_, _, _, _) => GapRender(c, ph);
    case HalfDone(_, _, _, _) => DoneRender(c, ph);
    case BothDone(_, _, _, _) => DoneRender(c, ph);
  }

  lemma LoneRender(c: Config, ph: Phase)
    requires ph.Asked? || ph.Replied? || (ph.Closed? && After(c, ph.p, ph.w).idx > 0)
    ensures RendersNext(c, ph)
  {
    hide Rest, Sent, Got, Gap, Fin, Opening, Answer, Apply, ApplyBoth, Crossing, Amt, Closing, Waiting;
    if ph.Closed? && ph.next.None? { RestBoth(c, ph.p, ph.w); }
    if ph.Replied? { WaitsFor(c, ph.p, Single(ph.l, ph.op)); }
  }

  lemma GapRender(c: Config, ph: Phase)
    requires ph.Crossed? || ph.HalfGap? || ph.BothGap?
    ensures RendersNext(c, ph)
  {
    hide Sent, Gap, Fin, Opening, GapAnswer, Apply, ApplyBoth, Crossing, Amt, Closing;
  }

  lemma DoneRender(c: Config, ph: Phase)
    requires ph.HalfDone? || ph.BothDone?
    requires ApplyBoth(c, ph.l, ph.p, ph.opP, ph.opQ) == ApplyBoth(c, ph.l, Peer(ph.p), ph.opQ, ph.opP)
    ensures RendersNext(c, ph)
  {
    hide Rest, Gap, Fin, GapAnswer, Apply, ApplyBoth, Crossing, Amt, Closing, Waiting;
    if ph.BothDone? { WaitsFor(c, ph.p, Double(ph.l, ph.opP, ph.opQ)); }
  }

  lemma WaitsFor(c: Config, p: Party, w: Wait)
    ensures Waiting(c, p, w) == match w
                                case Single(l, op) => Got(c, Peer(p), l, op)
                                case Double(l, opP, opQ) => Fin(c, Peer(p), l, opQ, opP)
  {
    hide Got, Fin;
  }

  lemma RestBoth(c: Config, p: Party, w: Wait)
    ensures Render(c, Quiet(After(c, p, w)))
         == MkNet(p, Holding(p, Rest(c, p, After(c, p, w)), true),
                  Holding(Peer(p), Rest(c, Peer(p), After(c, p, w)), true), [], [])
  {
    hide Rest, After;
  }

  lemma AfterDeliverValid(c: Config, ph: Phase, height: int)
    requires ValidPhase(c, ph, height) && !ph.Quiet?
    ensures ValidPhase(c, AfterDeliver(c, ph, Taker(ph)), height)
  {
    hide ValidOp, ValidLedger, Apply, ApplyBoth;
    match ph
    case Asked(p, l, op) =>
    case Replied(p, l, op) =>
    case Closed(p, w, next) => AfterValid(c, p, w, height);
    case Crossed(p, l, opP, opQ) =>
    case HalfGap(p, l, opP, opQ) =>
    case BothGap(p, l, opP, opQ) =>
    case HalfDone(p, l, opP, opQ) =>
    case BothDone(p, l, opP, opQ) =>
  }

  lemma TakerSimulates(c: Config, ph: Phase, height: int)
    requires ValidPhase(c, ph, height) && DistinctBases(c) && !ph.Quiet?
    ensures var n := Render(c, ph); var x := Taker(ph);
      && |Inbox(n, x)| > 0
      && var r := Receive(c, NodeOf(n, x), Inbox(n, x)[0], height);
         && r.ok && r.justice == DeliveryPast(c, ph, x)
         && Moved(n, x, r, Inbox(n, x)[1..]) == Render(c, AfterDeliver(c, ph, x))
    ensures ValidPhase(c, AfterDeliver(c, ph, Taker(ph)), height)
  {
    if ph.HalfDone? || ph.BothDone? { BothDoneSymmetric(c, ph.p, ph.l, ph.opP, ph.opQ, height); }
    hide Receive, Render, Moved, AfterDeliver, DeliveryPast, ValidPhase, ApplyBoth, Inbox, NodeOf, After;
    TakerHandles(c, ph, height);
    TakerRender(c, ph);
    AfterDeliverValid(c, ph, height);
    TakerOk(c, ph);
  }

  lemma TakerOk(c: Config, ph: Phase)
    requires !ph.Quiet? && (ph.Closed? ==> After(c, ph.p, ph.w).idx > 0)
    ensures TakerRes(c, ph).ok
  {
    hide Rest, Sent, Got, Gap, Fin, Opening, Answer, GapAnswer, Apply, ApplyBoth, Crossing, Amt, Closing;
  }

  /** Any delivery moves the net from one phase to the next, without an error. */
  lemma DeliverSimulates(c: Config, ph: Phase, x: Party, height: int)
    requires ValidPhase(c, ph, height) && DistinctBases(c) && Inbox(Render(c, ph), x) != []
    ensures var n := Render(c, ph);
      var r := Receive(c, NodeOf(n, x), Inbox(n, x)[0], height);
      && r.ok && r.justice == DeliveryPast(c, ph, x)
      && Moved(n, x, r, Inbox(n, x)[1..]) == Render(c, AfterDeliver(c, ph, x))
    ensures ValidPhase(c, AfterDeliver(c, ph, x), height)
  {
    hide Receive, Moved, ValidPhase;
    NonEmptyInbox(c, ph, x);
    FlipSame(c, ph, height);
    if x == Taker(ph) {
      TakerSimulates(c, ph, height);
    } else {
      TakerSimulates(c, Flip(ph), height);
      FlipDelivers(c, ph, x, height);
    }
  }

  lemma NonEmptyInbox(c: Config, ph: Phase, x: Party)
    requires Inbox(Render(c, ph), x) != []
    ensures !ph.Quiet? && (x == Taker(ph) || ph.Crossed? || ph.BothGap? || ph.BothDone?)
  {
    hide Rest, Sent, Got, Gap, Fin, Opening, Answer, GapAnswer, Apply, ApplyBoth;
  }

  lemma FlipDelivers(c: Config, ph: Phase, x: Party, height: int)
    requires ValidPhase(c, ph, height) && DistinctBases(c)
    requires ph.Crossed? || ph.BothGap? || ph.BothDone?
    requires x == Peer(Taker(ph))
    ensures AfterDeliver(c, Flip(ph), x) == AfterDeliver(c, ph, x) && Taker(Flip(ph)) == x
    ensures DeliveryPast(c, Flip(ph), x) == DeliveryPast(c, ph, x)
  {}
}
