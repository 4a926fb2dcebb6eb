/** Each handler, run on the record an honest node has, produces the next record
    and the next message, and accepts the signature it is given. */
module ChannelHonest {
  import opened Wrappers
  import opened ElkremRange
  import opened ChannelState
  import opened ChannelSteps
  import opened ChannelLedger
  import opened ChannelModes

  /** An honest node holding record s. */
  function Holding(p: Party, s: StatCom, cts: bool): Node {
    Node(p, s, cts, false)
  }

  // ------------------------------------------------------------- sums and flags

  lemma UnclearedSumView(p: Party, hs: seq<HTLC>, es: seq<Entry>)
    requires |hs| == |es|
    requires forall i :: 0 <= i < |hs| ==> hs[i].cleared == es[i].cleared && hs[i].amt == es[i].amt
    ensures UnclearedSum(hs) == OpenSum(es)
  {}

  /** GetChannelBalances gives both ledger amounts, whatever is being cleared. */
  lemma BalancesView(c: Config, p: Party, s: StatCom, l: Ledger, op: Op)
    requires ValidLedger(c, l) && s.htlcs == Mark(View(p, l.entries), op)
    requires op.Clear? ==> op.idx < |l.entries|
    ensures Balances(c, s) == (s.myAmt, Amt(l, p) + Amt(l, Peer(p)) - s.myAmt)
  {
    UnclearedSumView(p, s.htlcs, l.entries);
  }

  lemma ClearingGainUpdate(hs: seq<HTLC>, i: nat, h: HTLC)
    requires i < |hs|
    ensures ClearingGain(hs[i := h]) == ClearingGain(hs)
      - (if hs[i].clearing && !hs[i].cleared && Gains(hs[i]) then hs[i].amt else 0)
      + (if h.clearing && !h.cleared && Gains(h) then h.amt else 0)
  {
    var n := |hs| - 1;
    if i == n {
      assert hs[i := h][..n] == hs[..n];
    } else {
      ClearingGainUpdate(hs[..n], i, h);
      assert hs[i := h][..n] == hs[..n][i := h];
    }
  }

  lemma ClearingGainView(hs: seq<HTLC>)
    requires forall h <- hs :: h.clearing ==> h.cleared
    ensures ClearingGain(hs) == 0
  {}

  /** What p gains from its own clearing mark is the effect of its operation. */
  lemma GainOfMark(p: Party, l: Ledger, q: Party, op: Op, height: int, c: Config)
    requires ValidOp(c, l, q, op, height)
    ensures ClearingGain(Mark(View(p, l.entries), op)) == if op.Clear? then Effect(l, q, op, p) else 0
  {
    var hs := View(p, l.entries);
    ClearingGainView(hs);
    if op.Clear? {
      ClearingGainUpdate(hs, op.idx, hs[op.idx].(clearing := true, preimage := op.preimage));
    }
  }

  // -------------------------------------------------- starting an operation

  /** The state the opening message of op signs. */
  lemma OpeningSigned(c: Config, p: Party, l: Ledger, op: Op, height: int, t: StatCom)
    requires ValidLedger(c, l) && ValidOp(c, l, p, op, height) && l.idx + 4 <= MAX_INDEX
    requires t == Sent(c, p, l, op).(stateIdx := l.idx + 1, myAmt := Amt(Apply(l, p, op), p),
                                     elkPoint := Pt(Peer(p), l.idx + 1), nextElkPoint := Pt(Peer(p), l.idx + 2))
    ensures SignState(c, p, t) == Some(Sig(p, CommitOf(c, Peer(p), Apply(l, p, op))))
  {
    ApplyValid(c, l, p, op, height);
    if op.Offer? {
      AppendShows(p, View(p, l.entries), l.entries, Opened(p, op));
    } else {
      MarkedShows(p, l.entries, p, op);
    }
    SignaturesMatch(c, p, t, Apply(l, p, op));
  }

  lemma StartsPush(c: Config, p: Party, l: Ledger, op: Op, height: int)
    requires ValidLedger(c, l) && ValidOp(c, l, p, op, height) && l.idx + 4 <= MAX_INDEX && op.Push?
    ensures PushChannel(c, Holding(p, Rest(c, p, l), true), op.amt)
         == Res(Holding(p, Sent(c, p, l, op), false), [Opening(c, p, l, op)], true, None)
  {
    hide SignState;
    var s := Rest(c, p, l);
    BalancesView(c, p, s, l, op);
    OpeningSigned(c, p, l, op, height,
      Sent(c, p, l, op).(stateIdx := l.idx + 1, myAmt := Amt(Apply(l, p, op), p),
                         elkPoint := Pt(Peer(p), l.idx + 1), nextElkPoint := Pt(Peer(p), l.idx + 2)));
  }

  lemma StartsOffer(c: Config, p: Party, l: Ledger, op: Op, height: int)
    requires ValidLedger(c, l) && ValidOp(c, l, p, op, height) && l.idx + 4 <= MAX_INDEX && op.Offer?
    ensures OfferHTLC(c, Holding(p, Rest(c, p, l), true), op.amt, op.rhash, op.locktime)
         == Res(Holding(p, Sent(c, p, l, op), false), [Opening(c, p, l, op)], true, None)
  {
    hide SignState;
    var s := Rest(c, p, l);
    BalancesView(c, p, s, l, op);
    OpeningSigned(c, p, l, op, height,
      Sent(c, p, l, op).(stateIdx := l.idx + 1, myAmt := Amt(Apply(l, p, op), p),
                         elkPoint := Pt(Peer(p), l.idx + 1), nextElkPoint := Pt(Peer(p), l.idx + 2)));
  }

  lemma StartsClear(c: Config, p: Party, l: Ledger, op: Op, height: int)
    requires ValidLedger(c, l) && ValidOp(c, l, p, op, height) && l.idx + 4 <= MAX_INDEX && op.Clear?
    ensures ClearHTLC(c, Holding(p, Rest(c, p, l), true), op.idx, op.preimage, height)
         == Res(Holding(p, Sent(c, p, l, op), false), [Opening(c, p, l, op)], true, None)
  {
    hide SignState;
    OpeningSigned(c, p, l, op, height,
      Sent(c, p, l, op).(stateIdx := l.idx + 1, myAmt := Amt(Apply(l, p, op), p),
                         elkPoint := Pt(Peer(p), l.idx + 1), nextElkPoint := Pt(Peer(p), l.idx + 2)));
  }

  // ------------------------------------------- answering when nothing is under way

  /** The record an incoming opening message is verified against. */
  lemma OpeningVerified(c: Config, p: Party, l: Ledger, op: Op, height: int, t: StatCom)
    requires ValidLedger(c, l) && ValidOp(c, l, Peer(p), op, height) && l.idx + 4 <= MAX_INDEX
    requires t.stateIdx == l.idx + 1 && t.myAmt == Amt(Apply(l, Peer(p), op), p)
    requires t.elkPoint == Pt(Peer(p), l.idx + 1) && t.colliding.None?
    requires if op.Offer? then t.inProg == Some(ViewEntry(p, |l.entries|, Opened(Peer(p), op))) else t.inProg.None?
    requires ShowsAll(p, t.htlcs, if op.Offer? then l.entries else EntriesAfter(l.entries, Peer(p), op))
    ensures forall sig :: VerifySig(c, p, t, sig) <==> sig == Sig(Peer(p), CommitOf(c, p, Apply(l, Peer(p), op)))
    ensures SignState(c, p, t) == Some(Sig(p, CommitOf(c, Peer(p), Apply(l, Peer(p), op))))
  {
    var q := Peer(p);
    ApplyValid(c, l, q, op, height);
    if op.Offer? {
      AppendShows(p, t.htlcs, l.entries, Opened(q, op));
    }
    SignaturesMatch(c, p, t, Apply(l, q, op));
  }

  /** An honest node that accepted op signs and revokes as expected. */
  lemma AnswersGot(c: Config, p: Party, l: Ledger, op: Op, height: int)
    requires ValidLedger(c, l) && ValidOp(c, l, Peer(p), op, height) && l.idx + 4 <= MAX_INDEX
    ensures SendSigRev(c, p, Got(c, p, l, op)) == Some(Answer(c, p, l, op))
  {
    hide SignState;
    var s := Got(c, p, l, op);
    MarkedShows(p, l.entries, Peer(p), op);
    OpeningVerified(c, p, l, op, height, s.(elkPoint := s.nextElkPoint));
  }

  lemma AcceptsPush(c: Config, p: Party, l: Ledger, op: Op, height: int)
    requires ValidLedger(c, l) && ValidOp(c, l, Peer(p), op, height) && l.idx + 4 <= MAX_INDEX && op.Push?
    ensures Receive(c, Holding(p, Rest(c, p, l), true), Opening(c, Peer(p), l, op), height)
         == Res(Holding(p, Got(c, p, l, op), false), [Answer(c, p, l, op)], true, None)
  {
    hide SignState, VerifySig, SendSigRev, Answer, CommitOf;
    var s := Rest(c, p, l);
    BalancesView(c, p, s.(delta := op.amt), l, op);
    var t := DeltaTarget(s.(delta := op.amt), op.amt);
    OpeningVerified(c, p, l, op, height, t.(elkPoint := t.nextElkPoint));
    assert Reclear(s.htlcs, s.htlcs) == s.htlcs;
    AnswersGot(c, p, l, op, height);
  }

  lemma AcceptsOffer(c: Config, p: Party, l: Ledger, op: Op, height: int)
    requires ValidLedger(c, l) && ValidOp(c, l, Peer(p), op, height) && l.idx + 4 <= MAX_INDEX && op.Offer?
    ensures Receive(c, Holding(p, Rest(c, p, l), true), Opening(c, Peer(p), l, op), height)
         == Res(Holding(p, Got(c, p, l, op), false), [Answer(c, p, l, op)], true, None)
  {
    hide SignState, VerifySig, SendSigRev, Answer, CommitOf;
    var s := Rest(c, p, l);
    var k := |l.entries|;
    BalancesView(c, p, s, l, op);
    var t := s.(inProg := Some(ViewEntry(p, k, Opened(Peer(p), op))), stateIdx := l.idx + 1);
    OpeningVerified(c, p, l, op, height, t.(elkPoint := t.nextElkPoint));
    assert Reclear(s.htlcs, s.htlcs) == s.htlcs;
    AnswersGot(c, p, l, op, height);
  }

  lemma AcceptsClear(c: Config, p: Party, l: Ledger, op: Op, height: int)
    requires ValidLedger(c, l) && ValidOp(c, l, Peer(p), op, height) && l.idx + 4 <= MAX_INDEX && op.Clear?
    ensures Receive(c, Holding(p, Rest(c, p, l), true), Opening(c, Peer(p), l, op), height)
         == Res(Holding(p, Got(c, p, l, op), false), [Answer(c, p, l, op)], true, None)
  {
    hide SignState, VerifySig, SendSigRev, Answer, CommitOf;
    var s := Rest(c, p, l);
    var t := PreimageTarget(s, op.idx, op.preimage);
    MarkedShows(p, l.entries, Peer(p), op);
    OpeningVerified(c, p, l, op, height, t.(elkPoint := t.nextElkPoint));
    assert Reclear(t.htlcs, s.htlcs) == t.htlcs;
    AnswersGot(c, p, l, op, height);
  }

  // ------------------------------------------------- closing a lone operation

  /** SigRev brings the party that started op to rest at the new ledger. */
  lemma ClosesWithRev(c: Config, p: Party, l: Ledger, op: Op, height: int)
    requires ValidLedger(c, l) && ValidOp(c, l, p, op, height) && l.idx + 4 <= MAX_INDEX
    ensures Receive(c, Holding(p, Sent(c, p, l, op), false), Answer(c, Peer(p), l, op), height)
         == Res(Holding(p, Rest(c, p, Apply(l, p, op)), true), [Closing(p, Apply(l, p, op))], true,
                Some(Past(l.idx, Amt(l, p))))
  {
    hide CommitOf, Sent, Rest, AtRest, Apply, SigRevComplete, Closing, Failed, Reply, SendRev;
    ApplyParts(l, p, op);
    SentParts(c, p, l, op);
    NotAtRest(Sent(c, p, l, op), p, l, op);
    CompletesSigRev(c, p, l, op, height);
  }

  lemma CompletesSigRev(c: Config, p: Party, l: Ledger, op: Op, height: int)
    requires ValidLedger(c, l) && ValidOp(c, l, p, op, height) && l.idx + 4 <= MAX_INDEX
    ensures var after := Apply(l, p, op);
      && after.idx > 0
      && SigRevComplete(c, Holding(p, Sent(c, p, l, op), false), Sig(Peer(p), CommitOf(c, p, after)), Elk(Peer(p), l.idx),
                        Pt(Peer(p), l.idx + 3), HtlcBase(Peer(p), |l.entries| + 1 + OneIf(op.Offer?)))
         == Res(Holding(p, Rest(c, p, after), true), [Closing(p, after)], true, Some(Past(l.idx, Amt(l, p))))
  {
    hide VerifySig, CommitOf, Sent, Rest, SendRev, Apply, SigRevTarget, SigRevAccepted, AdvanceElkrem, Closing, Failed;
    ApplyParts(l, p, op);
    SentParts(c, p, l, op);
    SentTarget(c, p, l, op, height);
    SentSettles(c, p, l, op);
    RestAnswers(p, Apply(l, p, op), c);
    SentVerified(c, p, l, op, height, SigRevTarget(Sent(c, p, l, op)).(elkPoint := Pt(Peer(p), l.idx + 1)));
  }

  lemma SentParts(c: Config, p: Party, l: Ledger, op: Op)
    ensures var s := Sent(c, p, l, op);
      && s.delta == (if op.Push? then -op.amt else 0) && s.inProg.Some? == op.Offer?
      && s.htlcs == Mark(View(p, l.entries), op)
      && s.collision == 0 && s.colliding.None? && s.myAmt == Amt(l, p)
      && s.nextElkPoint == Pt(Peer(p), l.idx + 1)
  {
    hide CommitOf, Mark, View;
  }

  /** The record a SigRev is verified against. */
  lemma SentTarget(c: Config, p: Party, l: Ledger, op: Op, height: int)
    requires ValidOp(c, l, p, op, height)
    ensures SigRevTarget(Sent(c, p, l, op))
         == Sent(c, p, l, op).(stateIdx := l.idx + 1, delta := 0, myAmt := Amt(Apply(l, p, op), p))
    ensures SigRevTarget(Sent(c, p, l, op)).nextElkPoint == Pt(Peer(p), l.idx + 1)
  {
    hide CommitOf, Mark, View, ClearingGain, OutgoingCost, Apply;
    SentAmount(c, p, l, op, height);
  }

  /** The record a SigRev saves. */
  lemma SentSettles(c: Config, p: Party, l: Ledger, op: Op)
    requires op.Clear? ==> op.idx < |l.entries|
    ensures var after := Apply(l, p, op);
      var t := Sent(c, p, l, op).(stateIdx := l.idx + 1, delta := 0, myAmt := Amt(after, p),
                                  sig := Sig(Peer(p), CommitOf(c, p, after)));
      var advanced := AdvanceElkrem(t, Elk(Peer(p), l.idx), Pt(Peer(p), l.idx + 3));
      && advanced.Some?
      && SigRevAccepted(p, advanced.value, HtlcBase(Peer(p), |l.entries| + 1 + OneIf(op.Offer?))) == Rest(c, p, after)
  {
    hide CommitOf, MarkCleared, Mark, View, EntriesAfter, Apply;
    ApplyParts(l, p, op);
    MarkedClears(p, l.entries, p, op);
  }

  lemma RestAnswers(p: Party, l: Ledger, c: Config)
    requires 0 < l.idx && l.idx + 2 <= MAX_INDEX
    ensures SendRev(p, Rest(c, p, l)) == Some(Closing(p, l)) && Rest(c, p, l).stateIdx == l.idx
  {
    hide CommitOf, View;
  }

  lemma ApplyParts(l: Ledger, p: Party, op: Op)
    ensures Apply(l, p, op).idx == l.idx + 1
    ensures Apply(l, p, op).entries == EntriesAfter(l.entries, p, op)
    ensures |EntriesAfter(l.entries, p, op)| == |l.entries| + OneIf(op.Offer?)
    ensures forall x :: Amt(Apply(l, p, op), x) == Amt(l, x) + Effect(l, p, op, x)
  {}

  /** A SigRev moves my amount to the one after op. */
  lemma SentAmount(c: Config, p: Party, l: Ledger, op: Op, height: int)
    requires ValidOp(c, l, p, op, height)
    ensures var s := Sent(c, p, l, op);
      s.myAmt + s.delta - OutgoingCost(s.inProg) + ClearingGain(s.htlcs) == Amt(Apply(l, p, op), p)
  {
    GainOfMark(p, l, p, op, height, c);
  }

  /** The answer to op is verified against the ledger after op. */
  lemma SentVerified(c: Config, p: Party, l: Ledger, op: Op, height: int, t: StatCom)
    requires ValidLedger(c, l) && ValidOp(c, l, p, op, height) && l.idx + 4 <= MAX_INDEX
    requires t == Sent(c, p, l, op).(stateIdx := l.idx + 1, delta := 0, myAmt := Amt(Apply(l, p, op), p),
                                     elkPoint := Pt(Peer(p), l.idx + 1))
    ensures forall sig :: VerifySig(c, p, t, sig) <==> sig == Sig(Peer(p), CommitOf(c, p, Apply(l, p, op)))
  {
    ApplyValid(c, l, p, op, height);
    if op.Offer? {
      AppendShows(p, View(p, l.entries), l.entries, Opened(p, op));
    } else {
      MarkedShows(p, l.entries, p, op);
    }
    SignaturesMatch(c, p, t, Apply(l, p, op));
  }

  /** Rev brings the party that accepted op to rest at the same ledger. */
  lemma SettlesGot(c: Config, p: Party, l: Ledger, op: Op, height: int)
    requires ValidLedger(c, l) && ValidOp(c, l, Peer(p), op, height) && l.idx + 4 <= MAX_INDEX
    ensures Receive(c, Holding(p, Got(c, p, l, op), false), Closing(Peer(p), Apply(l, Peer(p), op)), height)
         == Res(Holding(p, Rest(c, p, Apply(l, Peer(p), op)), true), [], true,
                Some(Past(l.idx, Amt(Apply(l, Peer(p), op), p) - if op.Push? then op.amt else 0)))
  {
    hide CommitOf, MarkCleared, Mark, View;
    NotAtRest(Got(c, p, l, op), p, l, op);
    MarkedClears(p, l.entries, Peer(p), op);
  }

  lemma NotAtRest(s: StatCom, p: Party, l: Ledger, op: Op)
    requires op.Push? ==> s.delta != 0
    requires op.Offer? ==> s.inProg.Some?
    requires op.Clear? ==> op.idx < |l.entries| && s.htlcs == Mark(View(p, l.entries), op)
    ensures !AtRest(s)
  {
    if op.Clear? { assert s.htlcs[op.idx].clearing; }
  }
}
