/** What holds in every run of two honest nodes, whatever operations they start and
    in whatever order the links deliver. */
module ChannelTheorems {
  import opened Wrappers
  import opened ChannelState
  import opened ChannelSteps
  import opened ChannelLedger
  import opened ChannelModes
  import opened ChannelHonest
  import opened ChannelCollisions
  import opened ChannelRuns

  /** One event of a run: p starts an operation, p takes a message, or blocks are mined. */
  datatype Event = Start(p: Party, op: Op) | Deliver(p: Party) | Mined(blocks: nat)

  /** The net, the block height, and a record of what has happened: did every call
      succeed, how many operations were started and messages delivered, what Alice
      is owed once everything settles, the commitments each party has signed (the
      first when the channel was funded), and the past states each party has
      prepared justice for. */
  datatype World = World(net: Net, height: int, ok: bool, started: nat, delivered: nat, owed: int,
                         pushOnly: bool, signedAlice: seq<Commit>, signedBob: seq<Commit>,
                         pastAlice: seq<Past>, pastBob: seq<Past>)

  function Signed(w: World, p: Party): seq<Commit> {
    if p == Alice then w.signedAlice else w.signedBob
  }

  function Pasts(w: World, p: Party): seq<Past> {
    if p == Alice then w.pastAlice else w.pastBob
  }

  function AddSigned(w: World, p: Party, txs: seq<Commit>): World {
    if p == Alice then w.(signedAlice := w.signedAlice + txs) else w.(signedBob := w.signedBob + txs)
  }

  function AddPast(w: World, p: Party, past: Option<Past>): World {
    if past.None? then w
    else if p == Alice then w.(pastAlice := w.pastAlice + [past.value])
    else w.(pastBob := w.pastBob + [past.value])
  }

  /** The commitments signed in a batch of messages. */
  function SignedIn(out: seq<Msg>): seq<Commit> {
    if out == [] then []
    else (if out[0].Rev? then [] else [out[0].sig.tx]) + SignedIn(out[1..])
  }

  /** A freshly funded channel in which Alice has a and Bob has b. */
  function Funded(c: Config, a: int, b: int): World {
    var l := Ledger(0, a, b, []);
    World(Render(c, Quiet(l)), 0, true, 0, 0, a, true, [CommitOf(c, Bob, l)], [CommitOf(c, Alice, l)], [], [])
  }

  predicate Fundable(c: Config, a: int, b: int) {
    a + b == c.value && c.value > 0 && AmtOk(c, a) && AmtOk(c, b)
  }

  predicate Enabled(c: Config, w: World, e: Event) {
    match e
    case Start(p, op) => MayStart(c, w.net, p, op, w.height)
    case Deliver(p) => Inbox(w.net, p) != []
    case Mined(_) => true
  }

  /** What an operation that p starts is worth to Alice, by p's own record. */
  function Worth(s: StatCom, p: Party, op: Op): int {
    match op
    case Push(amt) => if p == Alice then -amt else amt
    case Offer(amt, _, _) => if p == Alice then -amt else 0
    case Clear(idx, _) => if p == Alice && idx < |s.htlcs| then s.htlcs[idx].amt else 0
  }

  function Next(c: Config, w: World, e: Event): World
    requires Enabled(c, w, e)
  {
    match e
    case Mined(blocks) => w.(height := w.height + blocks)
    case Start(p, op) =>
      var n := NodeOf(w.net, p);
      var r := StartOp(c, n, op, w.height);
      AddSigned(w.(net := Moved(w.net, p, r, Inbox(w.net, p)), ok := w.ok && r.ok,
                   started := w.started + 1, owed := w.owed + Worth(n.disk, p, op),
                   pushOnly := w.pushOnly && op.Push?),
                p, SignedIn(r.out))
    case Deliver(p) =>
      var r := Receive(c, NodeOf(w.net, p), Inbox(w.net, p)[0], w.height);
      AddPast(AddSigned(w.(net := Moved(w.net, p, r, Inbox(w.net, p)[1..]), ok := w.ok && r.ok,
                           delivered := w.delivered + 1),
                        p, SignedIn(r.out)),
              p, r.justice)
  }

  predicate IsRun(c: Config, w: World, events: seq<Event>)
    decreases |events|
  {
    events != [] ==> Enabled(c, w, events[0]) && IsRun(c, Next(c, w, events[0]), events[1..])
  }

  /** The world at the end of a run. */
  function End(c: Config, w: World, events: seq<Event>): World
    requires IsRun(c, w, events)
    decreases |events|
  {
    if events == [] then w else End(c, Next(c, w, events[0]), events[1..])
  }

  // ------------------------------------------------------------- bookkeeping

  /** The ledger everything under way leads to. */
  function Outcome(c: Config, ph: Phase): Ledger {
    match ph
    case Quiet(l) => l
    case Asked(p, l, op) => Apply(l, p, op)
    case Replied(p, l, op) => Apply(l, p, op)
    case Closed(p, w, None) => After(c, p, w)
    case Closed(p, w, Some(op)) => Apply(After(c, p, w), p, op)
    case Crossed(p, l, opP, opQ) => ApplyBoth(c, l, p, opP, opQ)
    case HalfGap(p, l, opP, opQ) => ApplyBoth(c, l, p, opP, opQ)
    case BothGap(p, l, opP, opQ) => ApplyBoth(c, l, p, opP, opQ)
    case HalfDone(p, l, opP, opQ) => ApplyBoth(c, l, p, opP, opQ)
    case BothDone(p, l, opP, opQ) => ApplyBoth(c, l, p, opP, opQ)
  }

  /** How many deliveries a message still stands for, its own included. */
  function Weight(m: Msg): nat {
    match m
    case DeltaSig(_, _) => 3
    case HashSig(_, _, _, _) => 3
    case PreimageSig(_, _, _) => 3
    case SigRev(_, _, _, _) => 2
    case GapSigRev(_, _, _, _) => 2
    case Rev(_, _, _) => 1
  }

  function Load(ms: seq<Msg>): nat {
    if ms == [] then 0 else Weight(ms[0]) + Load(ms[1..])
  }

  /** The deliveries still to come before both parties are at rest. */
  function InFlight(n: Net): nat {
    Load(n.toAlice) + Load(n.toBob)
  }

  function PhaseLoad(ph: Phase): nat {
    match ph
    case Quiet(_) => 0
    case Asked(_, _, _) => 3
    case Replied(_, _, _) => 2
    case Closed(_, _, next) => if next.None? then 1 else 4
    case Crossed(_, _, _, _) => 6
    case HalfGap(_, _, _, _) => 5
    case BothGap(_, _, _, _) => 4
    case HalfDone(_, _, _, _) => 3
    case BothDone(_, _, _, _) => 2
  }

  lemma LoadFew(m: Msg, m': Msg)
    ensures Load([m]) == Weight(m)
    ensures Load([m, m']) == Weight(m) + Weight(m')
  {
    assert [m][1..] == [];
    assert [m, m'][1..] == [m'] && [m'][1..] == [];
  }

  lemma OpeningWeight(c: Config, p: Party, l: Ledger, op: Op)
    ensures Weight(Opening(c, p, l, op)) == 3
  {
    hide CommitOf, Apply;
  }

  /** What is in flight depends on the phase only. */
  lemma RenderLoad(c: Config, ph: Phase, height: int)
    requires ValidPhase(c, ph, height)
    ensures InFlight(Render(c, ph)) == PhaseLoad(ph)
  {
    hide Rest, Sent, Got, Gap, Fin, Apply, ApplyBoth, CommitOf, ValidOp, ValidLedger, Opening, Load;
    EmptyLoad();
    match ph
    case Quiet(l) =>
    case Asked(p, l, op) =>
      OpeningWeight(c, p, l, op);
      LoadFew(Opening(c, p, l, op), Opening(c, p, l, op));
    case Replied(p, l, op) => LoadFew(Answer(c, Peer(p), l, op), Answer(c, Peer(p), l, op));
    case Closed(p, w, next) =>
      AfterValid(c, p, w, height);
      var rev := Closing(p, After(c, p, w));
      LoadFew(rev, rev);
      if next.Some? {
        OpeningWeight(c, p, After(c, p, w), next.value);
        LoadFew(rev, Opening(c, p, After(c, p, w), next.value));
      }
    case Crossed(p, l, opP, opQ) =>
      OpeningWeight(c, p, l, opP);
      OpeningWeight(c, Peer(p), l, opQ);
      LoadFew(Opening(c, p, l, opP), Opening(c, p, l, opP));
      LoadFew(Opening(c, Peer(p), l, opQ), Opening(c, Peer(p), l, opQ));
    case HalfGap(p, l, opP, opQ) =>
      OpeningWeight(c, p, l, opP);
      LoadFew(Opening(c, p, l, opP), GapAnswer(c, p, l, opP, opQ));
    case BothGap(p, l, opP, opQ) =>
      LoadFew(GapAnswer(c, p, l, opP, opQ), GapAnswer(c, p, l, opP, opQ));
      LoadFew(GapAnswer(c, Peer(p), l, opQ, opP), GapAnswer(c, Peer(p), l, opQ, opP));
    case HalfDone(p, l, opP, opQ) =>
      BothParts(c, l, p, opP, opQ);
      LoadFew(GapAnswer(c, p, l, opP, opQ), Closing(p, ApplyBoth(c, l, p, opP, opQ)));
    case BothDone(p, l, opP, opQ) =>
      BothParts(c, l, p, opP, opQ);
      LoadFew(Closing(p, ApplyBoth(c, l, p, opP, opQ)), Closing(p, ApplyBoth(c, l, p, opP, opQ)));
      LoadFew(Closing(Peer(p), ApplyBoth(c, l, p, opP, opQ)), Closing(Peer(p), ApplyBoth(c, l, p, opP, opQ)));
  }

  lemma EmptyLoad()
    ensures Load([]) == 0
  {}

  /** Deliveries do not change where the channel is heading, whichever comes first. */
  lemma OutcomeKept(c: Config, ph: Phase, x: Party, height: int)
    requires ValidPhase(c, ph, height) && DistinctBases(c) && Inbox(Render(c, ph), x) != []
    ensures Outcome(c, AfterDeliver(c, ph, x)) == Outcome(c, ph)
  {
    hide Rest, Sent, Got, Gap, Fin, Opening, Answer, GapAnswer, Apply, ApplyBoth, ValidOp, ValidLedger;
    NonEmptyInbox(c, ph, x);
    if ph.Crossed? || ph.BothGap? || ph.BothDone? {
      BothDoneSymmetric(c, ph.p, ph.l, ph.opP, ph.opQ, height);
    }
  }

  /** A delivery takes exactly one unit off what is in flight. */
  lemma LoadDrops(c: Config, ph: Phase, x: Party)
    requires Inbox(Render(c, ph), x) != []
    ensures PhaseLoad(AfterDeliver(c, ph, x)) == PhaseLoad(ph) - 1
  {
    hide Rest, Sent, Got, Gap, Fin, Opening, Answer, GapAnswer, Apply, ApplyBoth;
    NonEmptyInbox(c, ph, x);
  }

  /** Starting an operation moves the outcome by that operation's effect. */
  lemma OutcomeMoves(c: Config, ph: Phase, x: Party, op: Op, height: int)
    requires ValidPhase(c, ph, height) && MayStart(c, Render(c, ph), x, op, height)
    ensures var after := Outcome(c, AfterStart(ph, x, op));
      && after.idx == Outcome(c, ph).idx + 1
      && after.alice == Outcome(c, ph).alice + Worth(NodeOf(Render(c, ph), x).disk, x, op)
      && PhaseLoad(AfterStart(ph, x, op)) == PhaseLoad(ph) + 3
  {
    hide Sent, Got, Gap, Fin, Opening, Answer, GapAnswer, CommitOf;
    var l := HeldLedger(c, ph);
    ClearToStart(c, Render(c, ph), x, op, height);
    ClearMeansRest(c, ph, x, height);
    RestMayStart(c, Render(c, ph), x, l, op, height);
    WorthOfOp(c, l, x, op, height);
    if ph.Asked? { AskedCompatible(c, ph, op, height); }
    OutcomeAfterStart(c, ph, x, op);
  }

  lemma WorthOfOp(c: Config, l: Ledger, x: Party, op: Op, height: int)
    requires HonestOp(c, l, x, op, height)
    ensures Worth(Rest(c, x, l), x, op) == Effect(l, x, op, Alice)
  {}

  lemma OutcomeAfterStart(c: Config, ph: Phase, x: Party, op: Op)
    requires ph.Quiet? || (ph.Asked? && x == Peer(ph.p)) || (ph.Closed? && x == ph.p && ph.next.None?)
    ensures Outcome(c, AfterStart(ph, x, op)).idx == Outcome(c, ph).idx + 1
    ensures Outcome(c, AfterStart(ph, x, op)).alice == Outcome(c, ph).alice + Effect(HeldLedger(c, ph), x, op, Alice)
  {}

  // ---------------------------------------------------------- signatures made

  function Theirs(c: Config, p: Party, l: Ledger): Commit {
    CommitOf(c, Peer(p), l)
  }

  /** The commitments p has signed since the oldest ledger it may still need. */
  function Tail(c: Config, ph: Phase, p: Party): seq<Commit> {
    match ph
    case Quiet(l) => [Theirs(c, p, l)]
    case Asked(x, l, op) => if p == x then [Theirs(c, p, l), Theirs(c, p, Apply(l, x, op))] else [Theirs(c, p, l)]
    case Replied(x, l, op) => [Theirs(c, p, l), Theirs(c, p, Apply(l, x, op))]
    case Closed(x, w, next) =>
      if p == x
      then [Theirs(c, p, After(c, x, w))] + if next.Some? then [Theirs(c, p, Apply(After(c, x, w), x, next.value))] else []
      else if w.Single? then [Theirs(c, p, w.l), Theirs(c, p, After(c, x, w))]
      else [Theirs(c, p, w.l), Theirs(c, p, Apply(w.l, p, w.opQ)), Theirs(c, p, After(c, x, w))]
    case Crossed(x, l, opP, opQ) => [Theirs(c, p, l), Theirs(c, p, Apply(l, p, if p == x then opP else opQ))]
    case HalfGap(x, l, opP, opQ) =>
      [Theirs(c, p, l), Theirs(c, p, Apply(l, p, if p == x then opP else opQ))]
      + if p == x then [Theirs(c, p, ApplyBoth(c, l, x, opP, opQ))] else []
    case BothGap(x, l, opP, opQ) => GapTail(c, x, l, opP, opQ, p)
    case HalfDone(x, l, opP, opQ) => GapTail(c, x, l, opP, opQ, p)
    case BothDone(x, l, opP, opQ) => GapTail(c, x, l, opP, opQ, p)
  }

  function GapTail(c: Config, x: Party, l: Ledger, opP: Op, opQ: Op, p: Party): seq<Commit> {
    [Theirs(c, p, l), Theirs(c, p, Apply(l, p, if p == x then opP else opQ)),
     Theirs(c, p, ApplyBoth(c, l, x, opP, opQ))]
  }

  /** A commitment holder keeps for index i, built on its elkrem point i. */
  predicate ForIndex(tx: Commit, holder: Party, i: int) {
    tx.holder == holder && tx.idx == i && tx.holderPoint == PointOf(Elk(holder, tx.idx))
  }

  /** One commitment for every index, in order, and the last ones are tail. */
  predicate SignedOk(p: Party, txs: seq<Commit>, tail: seq<Commit>) {
    && 0 < |tail| <= |txs|
    && txs[|txs| - |tail|..] == tail
    && forall i :: 0 <= i < |txs| ==> ForIndex(txs[i], Peer(p), i)
  }

  lemma SignedInOne(m: Msg)
    ensures SignedIn([m]) == if m.Rev? then [] else [m.sig.tx]
    ensures SignedIn([]) == []
  {
    assert [m][1..] == [];
  }

  /** What x signs when it starts op extends its tail. */
  lemma StartTail(c: Config, ph: Phase, x: Party, op: Op, y: Party)
    requires ph.Quiet? || (ph.Asked? && x == Peer(ph.p)) || (ph.Closed? && x == ph.p && ph.next.None?)
    ensures Tail(c, AfterStart(ph, x, op), x) == Tail(c, ph, x) + [Theirs(c, x, Apply(HeldLedger(c, ph), x, op))]
    ensures y != x ==> Tail(c, AfterStart(ph, x, op), y) == Tail(c, ph, y)
    ensures |Tail(c, ph, x)| > 0 && Tail(c, ph, x)[|Tail(c, ph, x)| - 1] == Theirs(c, x, HeldLedger(c, ph))
  {
    hide Apply, ApplyBoth, After;
  }

  lemma OpeningSigns(c: Config, p: Party, l: Ledger, op: Op)
    ensures SignedIn([Opening(c, p, l, op)]) == [Theirs(c, p, Apply(l, p, op))]
    ensures Theirs(c, p, Apply(l, p, op)).idx == l.idx + 1 && Theirs(c, p, Apply(l, p, op)).holder == Peer(p)
  {
    SignedInOne(Opening(c, p, l, op));
  }

  /** How the tail of the party that takes a message moves on: either it signs the
      next index, or it forgets the oldest ones. */
  predicate TailMoves(x: Party, t: seq<Commit>, t': seq<Commit>, txs: seq<Commit>) {
    && |t| > 0
    && (txs == [] ==> exists k :: 0 <= k < |t| && t' == t[k..])
    && (txs != [] ==> |txs| == 1 && t' == t + txs && ForIndex(txs[0], Peer(x), t[|t| - 1].idx + 1))
  }

  lemma TailDrops(x: Party, t: seq<Commit>, t': seq<Commit>, k: nat)
    requires k < |t| && t' == t[k..]
    ensures TailMoves(x, t, t', [])
  {}

  lemma TheirsIs(c: Config, p: Party, l: Ledger)
    ensures Theirs(c, p, l) == CommitOf(c, Peer(p), l)
  {}

  /** Answers that carry a signature: SigRev and GapSigRev. */
  lemma SigningTail(c: Config, ph: Phase, height: int)
    requires ValidPhase(c, ph, height) && DistinctBases(c) && (ph.Asked? || ph.Crossed? || ph.HalfGap?)
    ensures var x := Taker(ph);
      TailMoves(x, Tail(c, ph, x), Tail(c, AfterDeliver(c, ph, x), x), SignedIn(TakerRes(c, ph).out))
  {
    hide Rest, Sent, Got, Gap, Fin, Opening, DeliveryPast, ValidOp, ValidLedger, Amt, Crossing, Effect, EntriesAfter,
         SignedIn, TailMoves, ApplyBoth, Apply, CommitOf, Theirs;
    var x := Taker(ph);
    var t := Tail(c, ph, x);
    var t' := Tail(c, AfterDeliver(c, ph, x), x);
    if ph.Asked? {
      ApplyParts(ph.l, ph.p, ph.op);
      TheirsIs(c, x, Apply(ph.l, ph.p, ph.op));
      SignedInOne(Answer(c, x, ph.l, ph.op));
      TailSigns(c, x, t, t', ph.l, Apply(ph.l, ph.p, ph.op));
    } else {
      var both := ApplyBoth(c, ph.l, ph.p, ph.opP, ph.opQ);
      var mine := if ph.Crossed? then ph.opP else ph.opQ;
      var theirs := if ph.Crossed? then ph.opQ else ph.opP;
      ApplyParts(ph.l, x, mine);
      TheirsIs(c, x, both);
      BothParts(c, ph.l, ph.p, ph.opP, ph.opQ);
      BothDoneSymmetric(c, ph.p, ph.l, ph.opP, ph.opQ, height);
      SignedInOne(GapAnswer(c, x, ph.l, mine, theirs));
      TailSigns(c, x, t, t', Apply(ph.l, x, mine), both);
    }
  }

  /** Deliveries after which nothing is signed. */
  lemma DroppingTail(c: Config, ph: Phase, height: int)
    requires ValidPhase(c, ph, height) && DistinctBases(c) && !ph.Quiet? && !ph.Asked? && !ph.Crossed? && !ph.HalfGap?
    requires ph.Closed? ==> After(c, ph.p, ph.w).idx > 0
    ensures var x := Taker(ph);
      TailMoves(x, Tail(c, ph, x), Tail(c, AfterDeliver(c, ph, x), x), [])
      && SignedIn(TakerRes(c, ph).out) == []
  {
    hide Rest, Sent, Got, Gap, Fin, Opening, DeliveryPast, ValidOp, ValidLedger, Amt, Crossing, Effect, EntriesAfter,
         SignedIn, TailMoves, ApplyBoth, CommitOf;
    var x := Taker(ph);
    var t := Tail(c, ph, x);
    var t' := Tail(c, AfterDeliver(c, ph, x), x);
    if ph.Replied? {
      SignedInOne(Closing(x, Apply(ph.l, ph.p, ph.op)));
      TailDrops(x, t, t', 1);
    } else if ph.Closed? {
      SignedInOne(Closing(ph.p, After(c, ph.p, ph.w)));
      TailDrops(x, t, t', |t| - 1);
    } else {
      BothParts(c, ph.l, ph.p, ph.opP, ph.opQ);
      BothDoneSymmetric(c, ph.p, ph.l, ph.opP, ph.opQ, height);
      SignedInOne(Closing(x, ApplyBoth(c, ph.l, ph.p, ph.opP, ph.opQ)));
      TailDrops(x, t, t', if ph.BothDone? then 2 else 0);
    }
  }

  /** What the taker of a message signs in its answer. */
  lemma TakerTail(c: Config, ph: Phase, height: int)
    requires ValidPhase(c, ph, height) && DistinctBases(c) && !ph.Quiet?
    requires ph.Closed? ==> After(c, ph.p, ph.w).idx > 0
    ensures var x := Taker(ph);
      TailMoves(x, Tail(c, ph, x), Tail(c, AfterDeliver(c, ph, x), x), SignedIn(TakerRes(c, ph).out))
  {
    hide ValidPhase, Tail, AfterDeliver, TailMoves, TakerRes, SignedIn, After;
    if ph.Asked? || ph.Crossed? || ph.HalfGap? {
      SigningTail(c, ph, height);
    } else {
      DroppingTail(c, ph, height);
    }
  }

  lemma TailSigns(c: Config, x: Party, t: seq<Commit>, t': seq<Commit>, last: Ledger, l: Ledger)
    requires |t| > 0 && t[|t| - 1] == Theirs(c, x, last) && t' == t + [Theirs(c, x, l)] && l.idx == last.idx + 1
    ensures TailMoves(x, t, t', [Theirs(c, x, l)])
  {}

  /** The other party's tail does not move. */
  lemma OtherTail(c: Config, ph: Phase, height: int)
    requires ValidPhase(c, ph, height) && DistinctBases(c) && !ph.Quiet?
    ensures var x := Taker(ph); Tail(c, AfterDeliver(c, ph, x), Peer(x)) == Tail(c, ph, Peer(x))
  {
    hide ValidOp, ValidLedger, CommitOf, Apply, ApplyBoth;
    if ph.HalfDone? || ph.BothDone? || ph.HalfGap? {
      BothDoneSymmetric(c, ph.p, ph.l, ph.opP, ph.opQ, height);
    }
  }

  // ------------------------------------------------------------------ justice

  /** Only pushes have happened so far. */
  predicate PushPhase(ph: Phase) {
    match ph
    case Quiet(l) => l.entries == []
    case Asked(_, l, op) => l.entries == [] && op.Push?
    case Replied(_, l, op) => l.entries == [] && op.Push?
    case Closed(_, w, next) =>
      && w.l.entries == []
      && (if w.Single? then w.op.Push? else w.opP.Push? && w.opQ.Push?)
      && (next.Some? ==> next.value.Push?)
    case Crossed(_, l, opP, opQ) => l.entries == [] && opP.Push? && opQ.Push?
    case HalfGap(_, l, opP, opQ) => l.entries == [] && opP.Push? && opQ.Push?
    case BothGap(_, l, opP, opQ) => l.entries == [] && opP.Push? && opQ.Push?
    case HalfDone(_, l, opP, opQ) => l.entries == [] && opP.Push? && opQ.Push?
    case BothDone(_, l, opP, opQ) => l.entries == [] && opP.Push? && opQ.Push?
  }

  /** The past state is the one signed for the peer at that index: my output there
      is what the remembered amount makes. */
  predicate PastFits(c: Config, txs: seq<Commit>, past: Past) {
    0 <= past.idx < |txs| && txs[past.idx].idx == past.idx && txs[past.idx].otherOut == NetOut(c, past.amt)
  }

  /** The tail holds the commitment the past state stands for. */
  predicate TailHas(c: Config, t: seq<Commit>, past: Past) {
    && |t| > 0
    && var k := past.idx - t[0].idx;
       0 <= k < |t| && t[k].idx == past.idx && t[k].otherOut == NetOut(c, past.amt)
  }

  lemma TailHasLedger(c: Config, p: Party, t: seq<Commit>, k: nat, base: Ledger, l: Ledger, past: Past)
    requires k < |t| && t[0] == Theirs(c, p, base) && t[k] == Theirs(c, p, l)
    requires l.idx == base.idx + k && past == Past(l.idx, Amt(l, p))
    ensures TailHas(c, t, past)
  {}

  /** Taking the peer's push back off gives the amount before it. */
  lemma PushUndone(c: Config, l: Ledger, p: Party, mine: Op, theirs: Op)
    requires mine.Push? && theirs.Push? && l.entries == []
    ensures Amt(Apply(l, Peer(p), theirs), p) - theirs.amt == Amt(l, p)
    ensures Amt(Apply(l, Peer(p), theirs), p) - Crossing(l, mine, theirs) == Amt(l, p)
    ensures Amt(ApplyBoth(c, l, p, mine, theirs), p) - Crossing(l, mine, theirs) == Amt(Apply(l, p, mine), p)
    ensures Apply(l, p, mine).idx == l.idx + 1
  {}

  lemma JusticeAlone(c: Config, ph: Phase, x: Party)
    requires PushPhase(ph) && ((ph.Replied? && x == ph.p) || (ph.Closed? && x == Peer(ph.p) && ph.w.Single?))
    ensures DeliveryPast(c, ph, x).Some? && TailHas(c, Tail(c, ph, x), DeliveryPast(c, ph, x).value)
  {}

  lemma JusticeGap(c: Config, ph: Phase, x: Party)
    requires PushPhase(ph) && (ph.BothGap? || (ph.HalfDone? && x == Peer(ph.p)))
    ensures DeliveryPast(c, ph, x).Some? && TailHas(c, Tail(c, ph, x), DeliveryPast(c, ph, x).value)
  {
    hide NetOut, EntryOuts, CommitOf, Theirs, Apply, ApplyBoth, TailHas, Crossing;
    var t := Tail(c, ph, x);
    var past := DeliveryPast(c, ph, x).value;
    if x == ph.p { PushUndone(c, ph.l, x, ph.opP, ph.opQ); } else { PushUndone(c, ph.l, x, ph.opQ, ph.opP); }
    TailHasLedger(c, x, t, 0, ph.l, ph.l, past);
  }

  lemma JusticeEnd(c: Config, ph: Phase, x: Party, height: int)
    requires ValidPhase(c, ph, height) && PushPhase(ph) && DistinctBases(c)
    requires ph.BothDone? || (ph.Closed? && x == Peer(ph.p) && ph.w.Double?)
    ensures DeliveryPast(c, ph, x).Some? && TailHas(c, Tail(c, ph, x), DeliveryPast(c, ph, x).value)
  {
    hide ValidOp, ValidLedger, NetOut, EntryOuts, CommitOf, Theirs, Apply, ApplyBoth, TailHas, Crossing;
    var t := Tail(c, ph, x);
    var past := DeliveryPast(c, ph, x).value;
    var l := if ph.BothDone? then ph.l else ph.w.l;
    var opP := if ph.BothDone? then ph.opP else ph.w.opP;
    var opQ := if ph.BothDone? then ph.opQ else ph.w.opQ;
    var mine := if x == ph.p then opP else opQ;
    BothDoneSymmetric(c, ph.p, l, opP, opQ, height);
    PushUndone(c, l, x, mine, if x == ph.p then opQ else opP);
    TailHasLedger(c, x, t, 1, l, Apply(l, x, mine), past);
  }

  /** In a push-only phase the justice pair is one of the commitments of the tail. */
  lemma JusticeInTail(c: Config, ph: Phase, x: Party, height: int)
    requires ValidPhase(c, ph, height) && PushPhase(ph) && DistinctBases(c) && Inbox(Render(c, ph), x) != []
    requires DeliveryPast(c, ph, x).Some?
    ensures TailHas(c, Tail(c, ph, x), DeliveryPast(c, ph, x).value)
  {
    hide Render, Inbox, ValidPhase, TailHas, Tail;
    NonEmptyInbox(c, ph, x);
    if ph.BothDone? || (ph.Closed? && ph.w.Double?) {
      JusticeEnd(c, ph, x, height);
    } else if ph.BothGap? || ph.HalfDone? {
      JusticeGap(c, ph, x);
    } else if ph.Replied? || ph.Closed? {
      JusticeAlone(c, ph, x);
    }
  }

  lemma PushKept(c: Config, ph: Phase, x: Party)
    requires PushPhase(ph)
    ensures PushPhase(AfterDeliver(c, ph, x))
  {}

  lemma PushStarted(ph: Phase, x: Party, op: Op)
    requires PushPhase(ph) && op.Push?
    ensures PushPhase(AfterStart(ph, x, op))
  {}

  // -------------------------------------------------------------- the invariant

  /** The world is in phase ph and its books agree with it. */
  predicate InPhase(c: Config, w: World, ph: Phase) {
    && ValidPhase(c, ph, w.height)
    && w.net == Render(c, ph)
    && w.ok
    && Outcome(c, ph).idx == w.started
    && Outcome(c, ph).alice == w.owed
    && PhaseLoad(ph) + w.delivered == 3 * w.started
    && SignedOk(Alice, w.signedAlice, Tail(c, ph, Alice))
    && SignedOk(Bob, w.signedBob, Tail(c, ph, Bob))
    && (w.pushOnly ==> PushPhase(ph))
    && (w.pushOnly ==> forall past <- w.pastAlice :: PastFits(c, w.signedAlice, past))
    && (w.pushOnly ==> forall past <- w.pastBob :: PastFits(c, w.signedBob, past))
  }

  lemma FundedInPhase(c: Config, a: int, b: int)
    requires Fundable(c, a, b)
    ensures InPhase(c, Funded(c, a, b), Quiet(Ledger(0, a, b, [])))
  {
    hide ValidLedger, SignedOk, CommitOf, Render;
    FundedLedger(c, a, b);
    FirstSigned(c, Alice, a, b);
    FirstSigned(c, Bob, a, b);
  }

  lemma FundedLedger(c: Config, a: int, b: int)
    requires Fundable(c, a, b)
    ensures ValidLedger(c, Ledger(0, a, b, []))
  {}

  lemma FirstSigned(c: Config, p: Party, a: int, b: int)
    ensures var txs := [CommitOf(c, Peer(p), Ledger(0, a, b, []))]; SignedOk(p, txs, txs)
  {
    hide NetOut, EntryOuts;
  }

  lemma PhaseSurvives(c: Config, ph: Phase, height: int, blocks: nat)
    requires ValidPhase(c, ph, height)
    ensures ValidPhase(c, ph, height + blocks)
  {
    hide ValidLedger, Apply, ApplyBoth;
  }

  lemma PastsStay(c: Config, txs: seq<Commit>, more: seq<Commit>, pasts: seq<Past>)
    requires forall past <- pasts :: PastFits(c, txs, past)
    ensures forall past <- pasts :: PastFits(c, txs + more, past)
  {}

  lemma TailPastFits(c: Config, p: Party, txs: seq<Commit>, tail: seq<Commit>, past: Past)
    requires SignedOk(p, txs, tail) && TailHas(c, tail, past)
    ensures PastFits(c, txs, past)
  {}

  lemma TailSignedOk(p: Party, txs: seq<Commit>, t: seq<Commit>, t': seq<Commit>, more: seq<Commit>)
    requires SignedOk(p, txs, t) && TailMoves(p, t, t', more)
    ensures SignedOk(p, txs + more, t')
  {}

  /** The signatures in the messages of a step extend the books of the party that
      made it, and leave the other's alone. */
  lemma StartBooks(c: Config, ph: Phase, x: Party, op: Op, height: int, y: Party)
    requires ValidPhase(c, ph, height) && MayStart(c, Render(c, ph), x, op, height)
    ensures var r := StartOp(c, NodeOf(Render(c, ph), x), op, height);
      && |r.out| == 1
      && SignedIn(r.out) == [Theirs(c, x, Apply(HeldLedger(c, ph), x, op))]
      && TailMoves(x, Tail(c, ph, x), Tail(c, AfterStart(ph, x, op), x), SignedIn(r.out))
      && (y != x ==> Tail(c, AfterStart(ph, x, op), y) == Tail(c, ph, y))
  {
    hide StartOp, Rest, Sent, ValidPhase, MayStart, Render, Tail, AfterStart, HeldLedger, ValidOp, ValidLedger, CommitOf;
    var l := HeldLedger(c, ph);
    ClearToStart(c, Render(c, ph), x, op, height);
    ClearMeansRest(c, ph, x, height);
    RestMayStart(c, Render(c, ph), x, l, op, height);
    Starts(c, x, l, op, height);
    OpeningSigns(c, x, l, op);
    StartTail(c, ph, x, op, y);
    TailSigns(c, x, Tail(c, ph, x), Tail(c, AfterStart(ph, x, op), x), l, Apply(l, x, op));
  }

  lemma StartKeeps(c: Config, w: World, ph: Phase, x: Party, op: Op)
    requires InPhase(c, w, ph) && MayStart(c, w.net, x, op, w.height)
    ensures InPhase(c, Next(c, w, Start(x, op)), AfterStart(ph, x, op))
  {
    hide StartOp, ValidPhase, MayStart, Render, Tail, AfterStart, TailMoves, SignedOk, PastFits, Outcome, Worth, PushPhase,
         SignedIn, PhaseLoad, Moved, NodeOf, Inbox;
    ClearToStart(c, w.net, x, op, w.height);
    StartSimulates(c, ph, x, op, w.height);
    OutcomeMoves(c, ph, x, op, w.height);
    StartBooks(c, ph, x, op, w.height, Peer(x));
    var more := SignedIn(StartOp(c, NodeOf(w.net, x), op, w.height).out);
    TailSignedOk(x, Signed(w, x), Tail(c, ph, x), Tail(c, AfterStart(ph, x, op), x), more);
    if w.pushOnly && op.Push? {
      PushStarted(ph, x, op);
      PastsStay(c, Signed(w, x), more, Pasts(w, x));
    }
  }

  lemma DeliverBooks(c: Config, ph: Phase, x: Party, height: int)
    requires ValidPhase(c, ph, height) && DistinctBases(c) && Inbox(Render(c, ph), x) != []
    ensures var r := Receive(c, NodeOf(Render(c, ph), x), Inbox(Render(c, ph), x)[0], height);
      && TailMoves(x, Tail(c, ph, x), Tail(c, AfterDeliver(c, ph, x), x), SignedIn(r.out))
      && Tail(c, AfterDeliver(c, ph, x), Peer(x)) == Tail(c, ph, Peer(x))
  {
    hide Receive, ValidPhase, Render, Tail, AfterDeliver, TailMoves, TakerRes, SignedIn, Inbox, NodeOf, After, DeliveryPast;
    NonEmptyInbox(c, ph, x);
    FlipSame(c, ph, height);
    if x == Taker(ph) {
      TakerHandles(c, ph, height);
      TakerTail(c, ph, height);
      OtherTail(c, ph, height);
    } else {
      FlipDelivers(c, ph, x, height);
      FlipTail(c, ph, x, height);
      FlipTail(c, ph, Peer(x), height);
      TakerHandles(c, Flip(ph), height);
      TakerTail(c, Flip(ph), height);
      OtherTail(c, Flip(ph), height);
    }
  }

  lemma FlipTail(c: Config, ph: Phase, y: Party, height: int)
    requires ValidPhase(c, ph, height) && DistinctBases(c) && (ph.Crossed? || ph.BothGap? || ph.BothDone?)
    ensures Tail(c, Flip(ph), y) == Tail(c, ph, y)
    ensures !Flip(ph).Closed? && !Flip(ph).Quiet?
  {
    hide CommitOf, Apply, ApplyBoth;
    BothDoneSymmetric(c, ph.p, ph.l, ph.opP, ph.opQ, height);
  }

  lemma DeliverKeeps(c: Config, w: World, ph: Phase, x: Party)
    requires InPhase(c, w, ph) && DistinctBases(c) && Inbox(w.net, x) != []
    ensures InPhase(c, Next(c, w, Deliver(x)), AfterDeliver(c, ph, x))
  {
    hide Receive, ValidPhase, Render, Tail, AfterDeliver, TailMoves, SignedOk, PastFits, Outcome, PushPhase,
         SignedIn, PhaseLoad, Moved, NodeOf, Inbox, DeliveryPast, TailHas;
    DeliverSimulates(c, ph, x, w.height);
    OutcomeKept(c, ph, x, w.height);
    LoadDrops(c, ph, x);
    DeliverBooks(c, ph, x, w.height);
    var r := Receive(c, NodeOf(w.net, x), Inbox(w.net, x)[0], w.height);
    var more := SignedIn(r.out);
    TailSignedOk(x, Signed(w, x), Tail(c, ph, x), Tail(c, AfterDeliver(c, ph, x), x), more);
    if w.pushOnly {
      PushKept(c, ph, x);
      PastsStay(c, Signed(w, x), more, Pasts(w, x));
      if r.justice.Some? {
        JusticeInTail(c, ph, x, w.height);
        TailPastFits(c, x, Signed(w, x), Tail(c, ph, x), r.justice.value);
        PastsStay(c, Signed(w, x), more, [r.justice.value]);
        assert [r.justice.value][0] == r.justice.value;
      }
    }
  }

  lemma NextKeeps(c: Config, w: World, ph: Phase, e: Event) returns (ph': Phase)
    requires InPhase(c, w, ph) && DistinctBases(c) && Enabled(c, w, e)
    ensures InPhase(c, Next(c, w, e), ph')
  {
    hide InPhase, Next, AfterStart, AfterDeliver, MayStart, Inbox;
    match e
    case Start(x, op) => StartKeeps(c, w, ph, x, op); ph' := AfterStart(ph, x, op);
    case Deliver(x) => DeliverKeeps(c, w, ph, x); ph' := AfterDeliver(c, ph, x);
    case Mined(blocks) => MinedKeeps(c, w, ph, blocks); ph' := ph;
  }

  lemma MinedKeeps(c: Config, w: World, ph: Phase, blocks: nat)
    requires InPhase(c, w, ph)
    ensures InPhase(c, Next(c, w, Mined(blocks)), ph)
  {
    hide ValidPhase, Render, Tail, SignedOk, PastFits, Outcome, PushPhase, PhaseLoad;
    PhaseSurvives(c, ph, w.height, blocks);
  }

  /** Every run of two honest nodes stays within the phases. */
  lemma {:induction false} RunKeeps(c: Config, w: World, ph: Phase, events: seq<Event>) returns (ph': Phase)
    requires InPhase(c, w, ph) && DistinctBases(c) && IsRun(c, w, events)
    ensures InPhase(c, End(c, w, events), ph')
    decreases |events|
  {
    hide InPhase, Next, Enabled;
    if events == [] {
      ph' := ph;
    } else {
      var ph1 := NextKeeps(c, w, ph, events[0]);
      ph' := RunKeeps(c, Next(c, w, events[0]), ph1, events[1..]);
    }
  }

  // ------------------------------------------------------------- the theorems

  /** A node with nothing under way: clear to send, no amount or HTLC pending, and
      everything that was being cleared is cleared. */
  predicate Idle(n: Node) {
    && n.cts && n.disk.delta == 0 && n.disk.collision == 0
    && n.disk.inProg.None? && n.disk.colliding.None?
    && forall h <- n.disk.htlcs :: h.clearing ==> h.cleared
  }

  /** Two HTLC lists that are mirror images of each other. */
  predicate Mirrored(hs: seq<HTLC>, hs': seq<HTLC>) {
    && |hs| == |hs'|
    && forall i :: 0 <= i < |hs| ==>
         && hs[i].idx == i && hs'[i].idx == i
         && hs[i].incoming == !hs'[i].incoming
         && hs[i].amt == hs'[i].amt && hs[i].rhash == hs'[i].rhash && hs[i].locktime == hs'[i].locktime
         && hs[i].myBase == hs'[i].theirBase && hs[i].theirBase == hs'[i].myBase
         && hs[i].cleared == hs'[i].cleared && hs[i].preimage == hs'[i].preimage
  }

  /** The three stored points are the peer's points r, r + 1, r + 2. */
  predicate PointsFrom(p: Party, s: StatCom, r: nat) {
    && s.elkPoint == PointOf(Elk(Peer(p), r))
    && s.nextElkPoint == PointOf(Elk(Peer(p), r + 1))
    && s.n2ElkPoint == PointOf(Elk(Peer(p), r + 2))
  }

  /** What every record of an honest node satisfies. */
  predicate Sound(p: Party, s: StatCom) {
    && !s.failed
    && (PointsFrom(p, s, s.stateIdx) || (s.stateIdx > 0 && PointsFrom(p, s, s.stateIdx - 1)))
    && s.sig.signer == Peer(p) && ForIndex(s.sig.tx, p, s.stateIdx)
  }

  lemma RecordsSound(c: Config, p: Party, l: Ledger, op: Op)
    ensures Sound(p, Rest(c, p, l)) && Sound(p, Sent(c, p, l, op)) && Sound(p, Got(c, p, l, op))
  {
    hide View, Mark, NetOut, EntryOuts, Effect, EntriesAfter;
  }

  lemma GapRecordsSound(c: Config, p: Party, l: Ledger, mine: Op, theirs: Op)
    ensures Sound(p, Gap(c, p, l, mine, theirs)) && Sound(p, Fin(c, p, l, mine, theirs))
  {
    hide View, Mark, NetOut, EntryOuts, Effect, EntriesAfter, FirstPending, SecondPending;
  }

  lemma PhaseFacts(c: Config, ph: Phase, p: Party)
    ensures Sound(p, NodeOf(Render(c, ph), p).disk)
  {
    hide Rest, Sent, Got, Gap, Fin, Opening, Answer, GapAnswer, Apply, ApplyBoth, Closing, Sound;
    match ph
    case Quiet(l) => RecordsSound(c, p, l, Push(0));
    case Asked(_, l, op) => RecordsSound(c, p, l, op);
    case Replied(_, l, op) => RecordsSound(c, p, l, op);
    case Closed(x, w, next) =>
      RecordsSound(c, p, After(c, x, w), if next.Some? then next.value else Push(0));
      if w.Single? { RecordsSound(c, p, w.l, w.op); } else { GapRecordsSound(c, p, w.l, w.opQ, w.opP); }
    case Crossed(x, l, opP, opQ) => RecordsSound(c, p, l, if p == x then opP else opQ);
    case HalfGap(x, l, opP, opQ) =>
      RecordsSound(c, p, l, opQ);
      GapRecordsSound(c, p, l, opP, opQ);
    case BothGap(x, l, opP, opQ) =>
      GapRecordsSound(c, p, l, opP, opQ);
      GapRecordsSound(c, p, l, opQ, opP);
    case HalfDone(x, l, opP, opQ) =>
      GapRecordsSound(c, p, l, opP, opQ);
      GapRecordsSound(c, p, l, opQ, opP);
    case BothDone(x, l, opP, opQ) =>
      GapRecordsSound(c, p, l, opP, opQ);
      GapRecordsSound(c, p, l, opQ, opP);
  }

  /** Nothing in flight means nothing under way on either side, and the records are
      two views of one ledger; otherwise some party is not idle. */
  lemma QuietFacts(c: Config, ph: Phase, height: int)
    requires ValidPhase(c, ph, height)
    ensures ph.Quiet? <==> Idle(Render(c, ph).alice) && Idle(Render(c, ph).bob)
    ensures PhaseLoad(ph) == 0 <==> ph.Quiet?
    ensures ph.Quiet? ==> var n := Render(c, ph);
      && n.toAlice == [] && n.toBob == []
      && Mirrored(n.alice.disk.htlcs, n.bob.disk.htlcs)
      && n.alice.disk.htlcIdx == n.bob.disk.htlcIdx == |n.alice.disk.htlcs|
      && n.alice.disk.stateIdx == n.bob.disk.stateIdx == Outcome(c, ph).idx
      && n.alice.disk.myAmt == Outcome(c, ph).alice
      && n.alice.disk.myAmt + n.bob.disk.myAmt + UnclearedSum(n.alice.disk.htlcs) == c.value
  {
    hide ValidOp, CommitOf, Sent, Got, Gap, Fin, Opening, Answer, GapAnswer, Apply, ApplyBoth;
    if ph.Quiet? {
      UnclearedSumView(Alice, View(Alice, ph.l.entries), ph.l.entries);
    }
  }

  /** Agreement.  In every run no call returns an error, so every signature made is
      the one the other side expects, and no node marks the channel as failed. */
  lemma Agreement(c: Config, a: int, b: int, events: seq<Event>)
    requires Fundable(c, a, b) && DistinctBases(c) && IsRun(c, Funded(c, a, b), events)
    ensures var w := End(c, Funded(c, a, b), events);
      w.ok && !w.net.alice.disk.failed && !w.net.bob.disk.failed
  {
    hide Funded, Render, PointsFrom, ForIndex, ValidPhase, Tail, SignedOk, Outcome, PushPhase, PastFits;
    FundedInPhase(c, a, b);
    var ph := RunKeeps(c, Funded(c, a, b), Quiet(Ledger(0, a, b, [])), events);
    var w := End(c, Funded(c, a, b), events);
    PhaseFacts(c, ph, Alice);
    PhaseFacts(c, ph, Bob);
  }

  /** Progress.  Every operation costs exactly three deliveries, collision or not,
      and as long as a party is not idle a message is in flight. */
  lemma Progress(c: Config, a: int, b: int, events: seq<Event>)
    requires Fundable(c, a, b) && DistinctBases(c) && IsRun(c, Funded(c, a, b), events)
    ensures var w := End(c, Funded(c, a, b), events);
      && InFlight(w.net) + w.delivered == 3 * w.started
      && (InFlight(w.net) == 0 <==> Idle(w.net.alice) && Idle(w.net.bob))
  {
    hide Funded, Render, ValidPhase, Tail, SignedOk, Outcome, PushPhase, PastFits, Idle, Mirrored, PhaseLoad, InFlight;
    FundedInPhase(c, a, b);
    var ph := RunKeeps(c, Funded(c, a, b), Quiet(Ledger(0, a, b, [])), events);
    var w := End(c, Funded(c, a, b), events);
    RenderLoad(c, ph, w.height);
    QuietFacts(c, ph, w.height);
  }

  /** Settlement.  Whenever nothing is in flight both parties are idle at the same
      index, which is the number of operations started; Alice has exactly what those
      operations are worth to her; both amounts and the uncleared HTLCs add up to
      the capacity; and the two HTLC lists are mirror images numbered from 0. */
  lemma Settlement(c: Config, a: int, b: int, events: seq<Event>)
    requires Fundable(c, a, b) && DistinctBases(c) && IsRun(c, Funded(c, a, b), events)
    ensures var w := End(c, Funded(c, a, b), events);
      var s := w.net.alice.disk; var t := w.net.bob.disk;
      InFlight(w.net) == 0 ==>
        && Idle(w.net.alice) && Idle(w.net.bob)
        && s.stateIdx == t.stateIdx == w.started
        && s.myAmt == w.owed
        && s.myAmt + t.myAmt + UnclearedSum(s.htlcs) == c.value
        && s.htlcIdx == t.htlcIdx == |s.htlcs|
        && Mirrored(s.htlcs, t.htlcs)
  {
    hide Funded, Render, ValidPhase, Tail, SignedOk, Outcome, PushPhase, PastFits, Idle, Mirrored, PhaseLoad, InFlight;
    FundedInPhase(c, a, b);
    var ph := RunKeeps(c, Funded(c, a, b), Quiet(Ledger(0, a, b, [])), events);
    var w := End(c, Funded(c, a, b), events);
    RenderLoad(c, ph, w.height);
    QuietFacts(c, ph, w.height);
  }

  /** Key windows.  At every moment the stored points are the peer's points r, r + 1,
      r + 2 with r the saved index or one less, the stored signature is the peer's for
      this node's commitment at the saved index, and the k-th commitment either party
      has signed is for index k and uses point k: no index is ever signed twice. */
  lemma KeyWindows(c: Config, a: int, b: int, events: seq<Event>, p: Party)
    requires Fundable(c, a, b) && DistinctBases(c) && IsRun(c, Funded(c, a, b), events)
    ensures var w := End(c, Funded(c, a, b), events);
      var s := NodeOf(w.net, p).disk;
      && (PointsFrom(p, s, s.stateIdx) || (s.stateIdx > 0 && PointsFrom(p, s, s.stateIdx - 1)))
      && s.sig.signer == Peer(p) && ForIndex(s.sig.tx, p, s.stateIdx)
      && forall k :: 0 <= k < |Signed(w, p)| ==> ForIndex(Signed(w, p)[k], Peer(p), k)
  {
    hide Funded, Render, PointsFrom, ForIndex, ValidPhase, Tail, Outcome, PushPhase, PastFits;
    FundedInPhase(c, a, b);
    var ph := RunKeeps(c, Funded(c, a, b), Quiet(Ledger(0, a, b, [])), events);
    var w := End(c, Funded(c, a, b), events);
    PhaseFacts(c, ph, p);
  }

  /** Justice.  As long as only pushes happen, each past state handed to
      BuildJusticeSig is the state this node signed for its peer at that index. */
  lemma Justice(c: Config, a: int, b: int, events: seq<Event>, p: Party)
    requires Fundable(c, a, b) && DistinctBases(c) && IsRun(c, Funded(c, a, b), events)
    ensures var w := End(c, Funded(c, a, b), events);
      w.pushOnly ==> forall past <- Pasts(w, p) :: PastFits(c, Signed(w, p), past)
  {
    hide Funded, Render, ValidPhase, Tail, SignedOk, Outcome, PushPhase, PastFits;
    FundedInPhase(c, a, b);
    var ph := RunKeeps(c, Funded(c, a, b), Quiet(Ledger(0, a, b, [])), events);
  }
}
