/** When an honest node can still close the channel on its own (qln/break.go:12-66): the
    commitment BreakChannel builds from the saved record, against the signature saved
    with it. */
module ChannelBreaks {
  import opened Wrappers
  import opened ElkremRange
  import opened ChannelState
  import opened ChannelSteps
  import opened ChannelLedger
  import opened ChannelModes
  import opened ChannelHonest
  import opened ChannelCollisions
  import opened ChannelRuns
  import opened ChannelTheorems

  /** BreakChannel puts a commitment on chain that the peer has signed. */
  predicate BreaksWell(c: Config, n: Node) {
    var tx := BreakTx(c, n);
    tx.Some? && tx.value.1 == Sig(Peer(n.me), tx.value.0)
  }

  /** Is no HTLC in the list uncleared? */
  predicate NoneOpen(hs: seq<HTLC>) {
    forall h <- hs :: h.cleared
  }

  /** The stored point is the one the peer holds its current commitment under: the
      revocation of the state before it has come in. */
  predicate PointCurrent(p: Party, s: StatCom) {
    s.elkPoint == Pt(Peer(p), s.stateIdx)
  }

  /** The saved signature is the peer's on p's commitment of ledger l, and the record has
      the index and the amount of l.  Either its HTLCs are those of l, or the stored point
      is still the one before. */
  predicate Countersigns(c: Config, p: Party, s: StatCom, l: Ledger) {
    && ValidLedger(c, l) && l.idx <= MAX_INDEX
    && s.sig == Sig(Peer(p), CommitOf(c, p, l)) && s.stateIdx == l.idx && s.myAmt == Amt(l, p)
    && if PointCurrent(p, s) then ShowsAll(p, BreakState(s).htlcs, l.entries)
       else l.idx > 0 && s.elkPoint == Pt(Peer(p), l.idx - 1)
  }

  // --------------------------------------------------------------- one record

  /** With the current point BreakChannel always works. */
  lemma CurrentBreaks(c: Config, p: Party, s: StatCom, l: Ledger)
    requires Countersigns(c, p, s, l) && PointCurrent(p, s)
    ensures BreaksWell(c, Holding(p, s, true)) && BreaksWell(c, Holding(p, s, false))
  {
    hide CommitOf, ValidLedger, ShowsAll;
    BuildDepicts(c, p, BreakState(s), l, true);
  }

  /** Every HTLC output is made with the stored point. */
  lemma PointInOuts(p: Party, s: StatCom, hs: seq<HTLC>, o: HtlcOut)
    requires o in LiveOuts(p, s, hs, true)
    ensures o.remoteKey.1 == s.elkPoint
  {}

  lemma SomeOut(p: Party, s: StatCom, hs: seq<HTLC>)
    ensures LiveOuts(p, s, hs, true) == multiset{} <==> forall h <- hs :: !Live(h)
    ensures (forall h <- hs :: !Live(h)) ==> LiveSum(hs) == 0
  {
    if hs != [] {
      var n := |hs| - 1;
      SomeOut(p, s, hs[..n]);
      assert hs == hs[..n] + [hs[n]];
    }
  }

  lemma PointInEntries(holder: Party, idx: nat, es: seq<Entry>, o: HtlcOut)
    requires o in EntryOuts(holder, idx, es)
    ensures o.remoteKey.1 == Pt(Peer(holder), idx)
  {}

  lemma OpenAreLive(s: StatCom)
    ensures (forall h <- BreakState(s).htlcs :: !Live(h)) <==> NoneOpen(s.htlcs)
  {
    var hs := BreakState(s).htlcs;
    if forall h <- hs :: !Live(h) {
      forall h | h in s.htlcs ensures h.cleared {
        var i :| 0 <= i < |s.htlcs| && s.htlcs[i] == h;
        assert hs[i] in hs;
      }
    }
  }

  lemma NoOutsNoSum(c: Config, holder: Party, l: Ledger)
    requires EntriesOk(c, l.entries) && EntryOuts(holder, l.idx, l.entries) == multiset{}
    ensures OpenSum(l.entries) == 0
  {
    if OpenSum(l.entries) > 0 { EntryOutsNonEmpty(c, holder, l.idx, l.entries); }
    OpenSumPositive(c, l.entries);
  }

  lemma OpenSumPositive(c: Config, es: seq<Entry>)
    requires EntriesOk(c, es)
    ensures OpenSum(es) >= 0
  {}

  /** The outputs BreakChannel builds: those of the uncleared HTLCs. */
  lemma BreakOuts(c: Config, p: Party, s: StatCom)
    ensures var b := BreakState(s);
      && AllOuts(p, b, true) == LiveOuts(p, b, b.htlcs, true)
      && TheirAmt(c, b) == c.value - LiveSum(b.htlcs) - s.myAmt
  {
    hide LiveOuts, LiveSum;
  }

  /** With the point before, BreakChannel works only if no HTLC takes part: none is open
      in the record, and none is in the commitment that was signed. */
  lemma StaleBreaks(c: Config, p: Party, s: StatCom, l: Ledger)
    requires Countersigns(c, p, s, l) && !PointCurrent(p, s)
    ensures BreaksWell(c, Holding(p, s, true)) == BreaksWell(c, Holding(p, s, false))
         == (NoneOpen(s.htlcs) && s.sig.tx.htlcOuts == multiset{})
  {
    hide LiveOuts, EntryOuts, LiveSum, OpenSum, AllOuts, NoneOpen, Live, TheirAmt;
    var b := BreakState(s);
    BreakOuts(c, p, s);
    SomeOut(p, b, b.htlcs);
    OpenAreLive(s);
    if NoneOpen(s.htlcs) && s.sig.tx.htlcOuts == multiset{} {
      NoOutsNoSum(c, p, l);
      AssembleValid(c, p, l);
    } else if !NoneOpen(s.htlcs) {
      var o :| o in LiveOuts(p, b, b.htlcs, true);
      PointInOuts(p, b, b.htlcs, o);
      if o in EntryOuts(p, l.idx, l.entries) { PointInEntries(p, l.idx, l.entries, o); }
    }
  }

  /** What decides it, read off the record. */
  predicate CanBreak(p: Party, s: StatCom) {
    PointCurrent(p, s) || (NoneOpen(s.htlcs) && s.sig.tx.htlcOuts == multiset{})
  }

  lemma CountersignedBreaks(c: Config, p: Party, s: StatCom, l: Ledger, cts: bool)
    requires Countersigns(c, p, s, l)
    ensures BreaksWell(c, Holding(p, s, cts)) <==> CanBreak(p, s)
  {
    hide Countersigns, BreaksWell, NoneOpen, PointCurrent;
    if PointCurrent(p, s) { CurrentBreaks(c, p, s, l); } else { StaleBreaks(c, p, s, l); }
  }

  // -------------------------------------------------- the records of a run

  /** The record goes with a signature for some ledger. */
  ghost predicate Countersigned(c: Config, p: Party, s: StatCom) {
    exists l :: Countersigns(c, p, s, l)
  }

  lemma RestSigned(c: Config, p: Party, l: Ledger)
    requires ValidLedger(c, l) && l.idx <= MAX_INDEX
    ensures Countersigned(c, p, Rest(c, p, l))
  {
    hide CommitOf, ValidLedger;
    assert Countersigns(c, p, Rest(c, p, l), l);
  }

  lemma SentSigned(c: Config, p: Party, l: Ledger, op: Op, height: int)
    requires ValidLedger(c, l) && l.idx + 4 <= MAX_INDEX && ValidOp(c, l, p, op, height)
    ensures Countersigned(c, p, Sent(c, p, l, op))
  {
    hide CommitOf, ValidLedger;
    assert Countersigns(c, p, Sent(c, p, l, op), l);
  }

  lemma GotSigned(c: Config, p: Party, l: Ledger, op: Op, height: int)
    requires ValidLedger(c, l) && l.idx + 4 <= MAX_INDEX && ValidOp(c, l, Peer(p), op, height)
    ensures Countersigned(c, p, Got(c, p, l, op))
  {
    hide CommitOf, ValidLedger, View, Mark, Effect, EntriesAfter, BreakState;
    ApplyValid(c, l, Peer(p), op, height);
    assert Countersigns(c, p, Got(c, p, l, op), Apply(l, Peer(p), op));
  }

  lemma GapSigned(c: Config, p: Party, l: Ledger, mine: Op, theirs: Op, height: int)
    requires BothValid(c, l, p, mine, theirs, height)
    ensures Countersigned(c, p, Gap(c, p, l, mine, theirs))
  {
    hide CommitOf, ValidLedger, View, Mark, Effect, EntriesAfter, BreakState, FirstPending, SecondPending;
    ApplyValid(c, l, Peer(p), theirs, height);
    assert Countersigns(c, p, Gap(c, p, l, mine, theirs), Apply(l, Peer(p), theirs));
  }

  lemma FinSigned(c: Config, p: Party, l: Ledger, mine: Op, theirs: Op, height: int)
    requires BothValid(c, l, p, mine, theirs, height)
    ensures Countersigned(c, p, Fin(c, p, l, mine, theirs))
  {
    hide CommitOf, ValidLedger, View, Mark, Effect, EntriesAfter, BreakState, FirstPending, SecondPending;
    ApplyBothValid(c, l, p, mine, theirs, height);
    assert Countersigns(c, p, Fin(c, p, l, mine, theirs), ApplyBoth(c, l, p, mine, theirs));
  }

  lemma PhaseSigned(c: Config, ph: Phase, p: Party, height: int)
    requires ValidPhase(c, ph, height) && DistinctBases(c)
    ensures Countersigned(c, p, NodeOf(Render(c, ph), p).disk)
  {
    hide Countersigned, Rest, Sent, Got, Gap, Fin, Opening, Answer, GapAnswer, Apply, ApplyBoth, Closing, ValidOp, ValidLedger;
    match ph
    case Quiet(l) => RestSigned(c, p, l);
    case Asked(x, l, op) => if p == x { SentSigned(c, p, l, op, height); } else { RestSigned(c, p, l); }
    case Replied(x, l, op) =>
      if p == x { SentSigned(c, p, l, op, height); } else { GotSigned(c, p, l, op, height); }
    case Closed(x, w, next) => WaitSigned(c, x, w, next, p, height);
    case Crossed(x, l, opP, opQ) => SentSigned(c, p, l, if p == x then opP else opQ, height);
    case HalfGap(x, l, opP, opQ) =>
      if p == x { GapSigned(c, p, l, opP, opQ, height); } else { SentSigned(c, p, l, opQ, height); }
    case BothGap(x, l, opP, opQ) => EachGapSigned(c, x, l, opP, opQ, p, height);
    case HalfDone(x, l, opP, opQ) => EachGapSigned(c, x, l, opP, opQ, p, height);
    case BothDone(x, l, opP, opQ) => EachGapSigned(c, x, l, opP, opQ, p, height);
  }

  lemma EachGapSigned(c: Config, x: Party, l: Ledger, opP: Op, opQ: Op, p: Party, height: int)
    requires BothHonest(c, l, x, opP, opQ, height) && DistinctBases(c)
    ensures p == x ==> Countersigned(c, p, Gap(c, p, l, opP, opQ)) && Countersigned(c, p, Fin(c, p, l, opP, opQ))
    ensures p != x ==> Countersigned(c, p, Gap(c, p, l, opQ, opP)) && Countersigned(c, p, Fin(c, p, l, opQ, opP))
  {
    hide Countersigned, Gap, Fin, ApplyBoth, ValidLedger, ValidOp;
    BothDoneSymmetric(c, x, l, opP, opQ, height);
    if p == x {
      GapSigned(c, p, l, opP, opQ, height);
      FinSigned(c, p, l, opP, opQ, height);
    } else {
      GapSigned(c, p, l, opQ, opP, height);
      FinSigned(c, p, l, opQ, opP, height);
    }
  }

  lemma WaitSigned(c: Config, x: Party, w: Wait, next: Option<Op>, p: Party, height: int)
    requires ValidPhase(c, Closed(x, w, next), height) && DistinctBases(c)
    ensures Countersigned(c, p, NodeOf(Render(c, Closed(x, w, next)), p).disk)
  {
    hide Countersigned, Rest, Sent, Got, Gap, Fin, Opening, Apply, ApplyBoth, Closing, ValidOp, ValidLedger;
    AfterValid(c, x, w, height);
    if p == x {
      if next.Some? { SentSigned(c, p, After(c, x, w), next.value, height); } else { RestSigned(c, p, After(c, x, w)); }
    } else {
      match w
      case Single(l, op) => GotSigned(c, p, l, op, height);
      case Double(l, opP, opQ) => EachGapSigned(c, x, l, opP, opQ, p, height);
    }
  }

  // ---------------------------------------------------------------- theorems

  /** At any moment of an honest run a party can close the channel on its own exactly when
      the revocation of the state before has come in, or no HTLC takes part: none is open
      in its record and none is in the commitment it has a signature for. */
  lemma BreakExact(c: Config, a: int, b: int, events: seq<Event>, p: Party)
    requires Fundable(c, a, b) && DistinctBases(c) && IsRun(c, Funded(c, a, b), events)
    ensures var n := NodeOf(End(c, Funded(c, a, b), events).net, p);
      BreaksWell(c, n) <==> CanBreak(p, n.disk)
  {
    hide Funded, Render, ValidPhase, Tail, SignedOk, Outcome, PushPhase, PastFits, BreaksWell, CanBreak, Countersigns;
    FundedInPhase(c, a, b);
    var ph := RunKeeps(c, Funded(c, a, b), Quiet(Ledger(0, a, b, [])), events);
    var w := End(c, Funded(c, a, b), events);
    var n := NodeOf(w.net, p);
    PhaseSigned(c, ph, p, w.height);
    PhaseOpen(c, ph, p);
    var l :| Countersigns(c, p, n.disk, l);
    CountersignedBreaks(c, p, n.disk, l, n.cts);
  }

  lemma PhaseOpen(c: Config, ph: Phase, p: Party)
    ensures var n := NodeOf(Render(c, ph), p); n == Holding(p, n.disk, n.cts)
  {
    hide Rest, Sent, Got, Gap, Fin, Opening, Answer, GapAnswer, Apply, ApplyBoth, Closing, Waiting, After;
  }

  /** A party that has answered an operation, and so revoked the state before, cannot
      close the channel until the next message comes, unless the operation was a push and
      no HTLC is open. */
  lemma AnsweredBreaks(c: Config, p: Party, l: Ledger, op: Op, height: int)
    requires ValidLedger(c, l) && l.idx + 4 <= MAX_INDEX && ValidOp(c, l, Peer(p), op, height)
    ensures BreaksWell(c, Holding(p, Got(c, p, l, op), false))
       <==> (op.Push? && forall e <- l.entries :: e.cleared)
  {
    hide BreaksWell, Countersigns, CanBreak;
    GotSigned(c, p, l, op, height);
    var signed :| Countersigns(c, p, Got(c, p, l, op), signed);
    CountersignedBreaks(c, p, Got(c, p, l, op), signed, false);
    GotCanBreak(c, p, l, op, height);
  }

  lemma GotCanBreak(c: Config, p: Party, l: Ledger, op: Op, height: int)
    requires ValidOp(c, l, Peer(p), op, height)
    ensures CanBreak(p, Got(c, p, l, op)) <==> (op.Push? && forall e <- l.entries :: e.cleared)
  {
    hide EntryOuts, NetOut, Effect, ValidOp;
    var es := EntriesAfter(l.entries, Peer(p), op);
    GotList(c, p, l, op, height);
    NoOuts(p, l.idx + 1, es);
    if op.Offer? { assert es[|l.entries|] in es; }
  }

  lemma GotList(c: Config, p: Party, l: Ledger, op: Op, height: int)
    requires ValidOp(c, l, Peer(p), op, height)
    ensures NoneOpen(Got(c, p, l, op).htlcs) <==> forall e <- l.entries :: e.cleared
    ensures op.Clear? ==> !NoneOpen(Got(c, p, l, op).htlcs)
  {
    hide CommitOf;
    var hs := Got(c, p, l, op).htlcs;
    assert forall i :: 0 <= i < |hs| ==> hs[i] in hs && hs[i].cleared == l.entries[i].cleared;
    if op.Clear? { assert l.entries[op.idx] in l.entries; }
  }

  lemma NoOuts(holder: Party, idx: nat, es: seq<Entry>)
    ensures EntryOuts(holder, idx, es) == multiset{} <==> forall e <- es :: e.cleared
  {
    if es != [] {
      var n := |es| - 1;
      NoOuts(holder, idx, es[..n]);
      assert es == es[..n] + [es[n]];
    }
  }
}
