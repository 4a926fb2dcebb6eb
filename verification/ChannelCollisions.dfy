/** What the handlers do when both parties have started an operation: every pair of
    kinds goes through the gap state and ends with both operations applied. */
module ChannelCollisions {
  import opened Wrappers
  import opened ElkremRange
  import opened ChannelState
  import opened ChannelSteps
  import opened ChannelLedger
  import opened ChannelModes
  import opened ChannelHonest

  /** Each operation is valid from ledger l, and both index steps fit. */
  predicate CrossingValid(c: Config, l: Ledger, p: Party, mine: Op, theirs: Op, height: int) {
    && ValidLedger(c, l) && l.idx + 4 <= MAX_INDEX
    && ValidOp(c, l, p, mine, height) && ValidOp(c, l, Peer(p), theirs, height)
  }

  /** Besides, they do not clear the same HTLC. */
  predicate BothValid(c: Config, l: Ledger, p: Party, mine: Op, theirs: Op, height: int) {
    CrossingValid(c, l, p, mine, theirs, height) && Compatible(mine, theirs)
  }

  // ----------------------------------------------------- the list in the gap

  lemma MarkShows(p: Party, hs: seq<HTLC>, es: seq<Entry>, q: Party, op: Op)
    requires ShowsAll(p, hs, es) && (op.Clear? ==> op.idx < |es|) && !op.Offer?
    ensures ShowsAll(p, Mark(hs, op), EntriesAfter(es, q, op))
  {}

  /** The list with both clearing marks and both pending HTLCs. */
  function BothList(c: Config, p: Party, l: Ledger, mine: Op, theirs: Op): seq<HTLC> {
    AppendOpt(AppendOpt(Mark(Mark(View(p, l.entries), mine), theirs),
                        FirstPending(c, p, l, mine, theirs)),
              SecondPending(c, p, l, mine, theirs))
  }

  /** It shows the entries after both operations. */
  lemma BothShow(c: Config, p: Party, l: Ledger, mine: Op, theirs: Op)
    requires Compatible(mine, theirs)
    requires mine.Clear? ==> mine.idx < |l.entries|
    requires theirs.Clear? ==> theirs.idx < |l.entries|
    ensures ShowsAll(p, BothList(c, p, l, mine, theirs), ApplyBoth(c, l, p, mine, theirs).entries)
  {
    hide ShowsAll, Mark, View;
    var q := Peer(p);
    var es := l.entries;
    var hs := View(p, es);
    assert ShowsAll(p, hs, es) by { ViewShows(p, es); }
    MarkNothing(hs, mine);
    MarkNothing(Mark(hs, mine), theirs);
    if mine.Offer? && theirs.Offer? {
      var first := if GoesFirst(c, l, p) then Opened(p, mine) else Opened(q, theirs);
      var second := if GoesFirst(c, l, p) then Opened(q, theirs) else Opened(p, mine);
      AppendShows(p, hs, es, first);
      AppendShows(p, AppendOpt(hs, Some(ViewEntry(p, |es|, first))), es + [first], second);
    } else if mine.Offer? {
      EntriesAfterCommute(es, p, mine, theirs);
      MarkShows(p, hs, es, q, theirs);
      AppendShows(p, Mark(hs, theirs), EntriesAfter(es, q, theirs), Opened(p, mine));
    } else if theirs.Offer? {
      MarkShows(p, hs, es, p, mine);
      AppendShows(p, Mark(hs, mine), EntriesAfter(es, p, mine), Opened(q, theirs));
    } else {
      MarkShows(p, hs, es, p, mine);
      MarkShows(p, Mark(hs, mine), EntriesAfter(es, p, mine), q, theirs);
    }
  }

  lemma ViewShows(p: Party, es: seq<Entry>)
    ensures ShowsAll(p, View(p, es), es)
  {}

  lemma MarkNothing(hs: seq<HTLC>, op: Op)
    ensures !op.Clear? ==> Mark(hs, op) == hs
  {}

  /** Once everything being cleared is cleared, the list is the view of the new entries. */
  lemma BothClears(c: Config, p: Party, l: Ledger, mine: Op, theirs: Op)
    requires Compatible(mine, theirs)
    requires mine.Clear? ==> mine.idx < |l.entries|
    requires theirs.Clear? ==> theirs.idx < |l.entries|
    ensures MarkCleared(BothList(c, p, l, mine, theirs)) == View(p, ApplyBoth(c, l, p, mine, theirs).entries)
  {
    hide MarkCleared, Mark, View;
    var q := Peer(p);
    var es := l.entries;
    var hs := View(p, es);
    MarkNothing(hs, mine);
    MarkNothing(Mark(hs, mine), theirs);
    if mine.Offer? && theirs.Offer? {
      var first := if GoesFirst(c, l, p) then Opened(p, mine) else Opened(q, theirs);
      var second := if GoesFirst(c, l, p) then Opened(q, theirs) else Opened(p, mine);
      NothingToClear(p, es + [first] + [second]);
      ViewAppend(p, es, first);
      ViewAppend(p, es + [first], second);
    } else if mine.Offer? {
      EntriesAfterCommute(es, p, mine, theirs);
      MarkNothing(Mark(hs, theirs), mine);
      TwoClears(p, es, q, theirs, p, mine);
    } else {
      TwoClears(p, es, p, mine, q, theirs);
    }
  }

  lemma NothingToClear(p: Party, es: seq<Entry>)
    ensures MarkCleared(View(p, es)) == View(p, es)
  {}

  lemma ViewAppend(p: Party, es: seq<Entry>, e: Entry)
    ensures View(p, es + [e]) == View(p, es) + [ViewEntry(p, |es|, e)]
  {}

  /** Marks of two operations, and the HTLC of the second, all settled. */
  lemma TwoClears(p: Party, es: seq<Entry>, q: Party, op: Op, q': Party, op': Op)
    requires !op.Offer? && (op.Clear? ==> op.idx < |es|) && (op'.Clear? ==> op'.idx < |es|)
    ensures MarkCleared(AppendOpt(Mark(Mark(View(p, es), op), op'),
                                  if op'.Offer? then Some(ViewEntry(p, |es|, Opened(q', op'))) else None))
         == View(p, EntriesAfter(EntriesAfter(es, q, op), q', op'))
  {}

  // ---------------------------------------------------------- amounts in the gap

  /** What my peer's clear would pay me. */
  function ForeignGain(l: Ledger, p: Party, theirs: Op): int {
    if theirs.Clear? then Effect(l, Peer(p), theirs, p) else 0
  }

  /** From the gap state my amount moves to the one after both operations, and past
      it by what the peer's clear pays me: that is added a second time. */
  lemma GapAmount(c: Config, p: Party, l: Ledger, mine: Op, theirs: Op, height: int)
    requires BothValid(c, l, p, mine, theirs, height)
    ensures var s := Gap(c, p, l, mine, theirs);
      s.myAmt + s.delta - OutgoingCost(s.inProg) - OutgoingCost(s.colliding) + ClearingGain(s.htlcs)
        == Amt(ApplyBoth(c, l, p, mine, theirs), p) + ForeignGain(l, p, theirs)
    ensures Gainful(l, Peer(p), theirs) ==> ForeignGain(l, p, theirs) == 0
  {
    var s := Gap(c, p, l, mine, theirs);
    hide ClearingGain, CommitOf, View, Mark;
    BothGain(p, l, mine, theirs, height, c);
  }

  /** In a collision every clear that pays me adds to my amount. */
  lemma BothGain(p: Party, l: Ledger, mine: Op, theirs: Op, height: int, c: Config)
    requires ValidOp(c, l, p, mine, height) && ValidOp(c, l, Peer(p), theirs, height) && Compatible(mine, theirs)
    ensures ClearingGain(Mark(Mark(View(p, l.entries), mine), theirs))
         == (if mine.Clear? then Effect(l, p, mine, p) else 0) + ForeignGain(l, p, theirs)
  {
    var hs := Mark(View(p, l.entries), mine);
    GainOfMark(p, l, p, mine, height, c);
    if theirs.Clear? {
      ClearingGainUpdate(hs, theirs.idx, hs[theirs.idx].(clearing := true, preimage := theirs.preimage));
    }
  }

  // ----------------------------------------------------------- signing for n + 2

  /** The record with both operations in it, one index up from the gap. */
  predicate ShowsBoth(c: Config, p: Party, l: Ledger, mine: Op, theirs: Op, t: StatCom) {
    && t.stateIdx == l.idx + 2
    && t.myAmt == Amt(ApplyBoth(c, l, p, mine, theirs), p)
    && t.elkPoint == Pt(Peer(p), l.idx + 2)
    && t.htlcs == Mark(Mark(View(p, l.entries), mine), theirs)
    && t.inProg == FirstPending(c, p, l, mine, theirs)
    && t.colliding == SecondPending(c, p, l, mine, theirs)
  }

  lemma BothSigned(c: Config, p: Party, l: Ledger, mine: Op, theirs: Op, height: int, t: StatCom)
    requires BothValid(c, l, p, mine, theirs, height) && ShowsBoth(c, p, l, mine, theirs, t)
    ensures SignState(c, p, t) == Some(Sig(p, CommitOf(c, Peer(p), ApplyBoth(c, l, p, mine, theirs))))
    ensures forall sig :: VerifySig(c, p, t, sig)
                     <==> sig == Sig(Peer(p), CommitOf(c, p, ApplyBoth(c, l, p, mine, theirs)))
  {
    hide SignState, VerifySig, CommitOf, ShowsAll, View, Mark;
    ApplyBothValid(c, l, p, mine, theirs, height);
    BothShow(c, p, l, mine, theirs);
    SignaturesMatch(c, p, t, ApplyBoth(c, l, p, mine, theirs));
  }

  lemma GapAnswers(c: Config, p: Party, l: Ledger, mine: Op, theirs: Op, height: int)
    requires Gainful(l, Peer(p), theirs)
    requires BothValid(c, l, p, mine, theirs, height)
    ensures SendGapSigRev(c, p, Gap(c, p, l, mine, theirs)) == Some(GapAnswer(c, p, l, mine, theirs))
  {
    hide SignState, CommitOf, ClearingGain, View, Mark, Apply;
    ApplyParts(l, Peer(p), theirs);
    GapAmount(c, p, l, mine, theirs, height);
    var s := Gap(c, p, l, mine, theirs);
    BothSigned(c, p, l, mine, theirs, height,
               s.(elkPoint := s.n2ElkPoint, stateIdx := s.stateIdx + 1,
                  myAmt := Amt(ApplyBoth(c, l, p, mine, theirs), p)));
  }

  // ------------------------------------------------- entering the gap state

  /** The flags of a ledger's view: something is being cleared exactly when some
      entry has been cleared, or when my own operation clears one. */
  lemma ClearingMarks(p: Party, l: Ledger, op: Op)
    requires op.Clear? ==> op.idx < |l.entries|
    ensures AnyClearing(Mark(View(p, l.entries), op)) <==> (SomeCleared(l) || op.Clear?)
  {
    var hs := Mark(View(p, l.entries), op);
    if op.Clear? { assert hs[op.idx].clearing; }
    if e :| e in l.entries && e.cleared {
      var i :| 0 <= i < |l.entries| && l.entries[i] == e;
      assert hs[i].clearing;
    }
  }

  /** Taking the marks off shows the ledger before my operation, and putting them
      back restores what was there, with the peer's mark added. */
  lemma UnclearShows(p: Party, l: Ledger, op: Op)
    requires op.Clear? ==> op.idx < |l.entries|
    ensures var hs := Mark(View(p, l.entries), op);
      ShowsAll(p, Unclear(hs), l.entries) && Reclear(Unclear(hs), hs) == hs
  {}

  lemma ReclearSame(hs: seq<HTLC>)
    ensures Reclear(hs, hs) == hs
  {}

  /** GetChannelBalances is not disturbed by clearing marks, on or off. */
  lemma CrossingBalances(c: Config, p: Party, l: Ledger, op: Op, s: StatCom)
    requires ValidLedger(c, l) && s.myAmt == Amt(l, p)
    requires op.Clear? ==> op.idx < |l.entries|
    requires var hs := Mark(View(p, l.entries), op); s.htlcs == hs || s.htlcs == Unclear(hs)
    ensures Balances(c, s) == (Amt(l, p), Amt(l, Peer(p)))
  {
    UnclearedSumView(p, s.htlcs, l.entries);
  }

  /** In the gap state every handler answers with GapSigRev. */
  lemma GapReplies(c: Config, p: Party, l: Ledger, mine: Op, theirs: Op)
    requires theirs.Push? ==> theirs.amt > 0
    ensures var n := Holding(p, Gap(c, p, l, mine, theirs), false);
      var r := Reply(n, SendGapSigRev(c, p, n.disk));
      && (theirs.Push? ==> DeltaReply(c, n) == r)
      && (theirs.Offer? ==> HashReply(c, n) == r)
      && (theirs.Clear? ==> PreimageReply(c, n) == r)
  {
    hide CommitOf, Mark, View, Apply, SendGapSigRev, SendSigRev;
  }

  /** What a DeltaSig saves in a collision is the gap record. */
  lemma PushMakesGap(c: Config, p: Party, l: Ledger, mine: Op, theirs: Op, t: StatCom)
    requires Compatible(mine, theirs) && theirs.Push?
    requires mine.Clear? ==> mine.idx < |l.entries|
    requires t == DeltaTarget(DeltaCollision(p, Sent(c, p, l, mine), theirs.amt), theirs.amt)
    ensures DeltaAccepted(Sent(c, p, l, mine), t, Sig(Peer(p), CommitOf(c, p, Apply(l, Peer(p), theirs))))
         == Gap(c, p, l, mine, theirs)
  {
    hide CommitOf, Mark, View, AnyClearing, Unclear, Reclear, Apply;
    var s := Sent(c, p, l, mine);
    ApplyParts(l, Peer(p), theirs);
    ClearingMarks(p, l, mine);
    UnclearShows(p, l, mine);
    ReclearSame(s.htlcs);
    MarkNothing(View(p, l.entries), mine);
    MarkNothing(s.htlcs, theirs);
  }

  /** The record a crossing DeltaSig is verified against. */
  lemma PushVerified(c: Config, p: Party, l: Ledger, mine: Op, theirs: Op, height: int, t: StatCom)
    requires CrossingValid(c, l, p, mine, theirs, height) && theirs.Push?
    requires t == DeltaTarget(DeltaCollision(p, Sent(c, p, l, mine), theirs.amt), theirs.amt)
    ensures forall sig :: VerifySig(c, p, t.(elkPoint := t.nextElkPoint), sig)
                     <==> sig == Sig(Peer(p), CommitOf(c, p, Apply(l, Peer(p), theirs)))
  {
    hide SignState, VerifySig, CommitOf, ShowsAll, Mark, View, AnyClearing, Unclear, Apply;
    ApplyParts(l, Peer(p), theirs);
    ClearingMarks(p, l, mine);
    UnclearShows(p, l, mine);
    MarkNothing(View(p, l.entries), mine);
    ViewShows(p, l.entries);
    OpeningVerified(c, p, l, theirs, height, t.(elkPoint := t.nextElkPoint));
  }

  /** A DeltaSig reaches a node that has started mine. */
  lemma CrossesPush(c: Config, p: Party, l: Ledger, mine: Op, theirs: Op, height: int)
    requires CrossingValid(c, l, p, mine, theirs, height) && theirs.Push?
    ensures Receive(c, Holding(p, Sent(c, p, l, mine), false), Opening(c, Peer(p), l, theirs), height)
         == Reply(Holding(p, Gap(c, p, l, mine, theirs), false), SendGapSigRev(c, p, Gap(c, p, l, mine, theirs)))
  {
    hide SendGapSigRev, Gap, DeltaReply, VerifySig, CommitOf, Mark, View, AnyClearing, Unclear, DeltaAccepted, Balances, Apply;
    var s := Sent(c, p, l, mine);
    var s1 := DeltaCollision(p, s, theirs.amt);
    var t := DeltaTarget(s1, theirs.amt);
    CrossingBalances(c, p, l, mine, s1);
    PushVerified(c, p, l, mine, theirs, height, t);
    PushMakesGap(c, p, l, mine, theirs, t);
    GapReplies(c, p, l, mine, theirs);
  }

  /** What a HashSig saves in a collision is the gap record. */
  lemma OfferMakesGap(c: Config, p: Party, l: Ledger, mine: Op, theirs: Op, t: StatCom)
    requires Compatible(mine, theirs) && theirs.Offer? && DistinctBases(c)
    requires mine.Clear? ==> mine.idx < |l.entries|
    requires t == HashCollision(Sent(c, p, l, mine)).(
      inProg := Some(ViewEntry(p, |l.entries|, Opened(Peer(p), theirs))), stateIdx := l.idx + 1)
    ensures HashAccepted(c, p, Sent(c, p, l, mine), true, t, Sig(Peer(p), CommitOf(c, p, Apply(l, Peer(p), theirs))))
         == Gap(c, p, l, mine, theirs)
  {
    hide CommitOf, Mark, View, AnyClearing, Unclear, Reclear, Apply;
    var s := Sent(c, p, l, mine);
    ApplyParts(l, Peer(p), theirs);
    ClearingMarks(p, l, mine);
    UnclearShows(p, l, mine);
    ReclearSame(s.htlcs);
    MarkNothing(View(p, l.entries), mine);
    MarkNothing(s.htlcs, theirs);
    assert c.rank(HtlcBase(Alice, |l.entries|)) != c.rank(HtlcBase(Bob, |l.entries|));
  }

  /** The record a crossing HashSig is verified against. */
  lemma OfferVerified(c: Config, p: Party, l: Ledger, mine: Op, theirs: Op, height: int, t: StatCom)
    requires CrossingValid(c, l, p, mine, theirs, height) && theirs.Offer?
    requires t == HashCollision(Sent(c, p, l, mine)).(
      inProg := Some(ViewEntry(p, |l.entries|, Opened(Peer(p), theirs))), stateIdx := l.idx + 1)
    ensures forall sig :: VerifySig(c, p, t.(elkPoint := t.nextElkPoint), sig)
                     <==> sig == Sig(Peer(p), CommitOf(c, p, Apply(l, Peer(p), theirs)))
  {
    hide SignState, VerifySig, CommitOf, ShowsAll, Mark, View, AnyClearing, Unclear, Apply;
    ApplyParts(l, Peer(p), theirs);
    ClearingMarks(p, l, mine);
    UnclearShows(p, l, mine);
    MarkNothing(View(p, l.entries), mine);
    ViewShows(p, l.entries);
    OpeningVerified(c, p, l, theirs, height, t.(elkPoint := t.nextElkPoint));
  }

  /** A HashSig reaches a node that has started mine. */
  lemma CrossesOffer(c: Config, p: Party, l: Ledger, mine: Op, theirs: Op, height: int)
    requires CrossingValid(c, l, p, mine, theirs, height) && theirs.Offer? && DistinctBases(c)
    ensures Receive(c, Holding(p, Sent(c, p, l, mine), false), Opening(c, Peer(p), l, theirs), height)
         == Reply(Holding(p, Gap(c, p, l, mine, theirs), false), SendGapSigRev(c, p, Gap(c, p, l, mine, theirs)))
  {
    hide SendGapSigRev, Gap, HashReply, VerifySig, CommitOf, Mark, View, AnyClearing, Unclear, HashAccepted, Balances, Apply;
    var s := Sent(c, p, l, mine);
    var s1 := HashCollision(s);
    var t := s1.(inProg := Some(ViewEntry(p, |l.entries|, Opened(Peer(p), theirs))), stateIdx := l.idx + 1);
    CrossingBalances(c, p, l, mine, s1);
    OfferVerified(c, p, l, mine, theirs, height, t);
    OfferMakesGap(c, p, l, mine, theirs, t);
    GapReplies(c, p, l, mine, theirs);
  }

  /** Clearing one more HTLC while the marks of my own operation are off. */
  lemma UnclearMarkShows(p: Party, l: Ledger, mine: Op, theirs: Op)
    requires mine.Clear? ==> mine.idx < |l.entries|
    requires theirs.Clear? && theirs.idx < |l.entries|
    ensures var hs := Mark(View(p, l.entries), mine);
      && ShowsAll(p, Mark(Unclear(hs), theirs), EntriesAfter(l.entries, Peer(p), theirs))
      && Reclear(Mark(Unclear(hs), theirs), hs) == Mark(hs, theirs)
      && Reclear(Mark(hs, theirs), hs) == Mark(hs, theirs)
  {
    var hs := Mark(View(p, l.entries), mine);
    assert Reclear(Mark(Unclear(hs), theirs), hs) == Mark(hs, theirs);
    assert Reclear(Mark(hs, theirs), hs) == Mark(hs, theirs);
  }

  /** What a PreimageSig saves in a collision is the gap record. */
  lemma ClearMakesGap(c: Config, p: Party, l: Ledger, mine: Op, theirs: Op, height: int, t: StatCom)
    requires CrossingValid(c, l, p, mine, theirs, height) && theirs.Clear?
    requires t == PreimageTarget(PreimageCollision(Sent(c, p, l, mine)), theirs.idx, theirs.preimage)
    ensures PreimageAccepted(p, Sent(c, p, l, mine), t, Sig(Peer(p), CommitOf(c, p, Apply(l, Peer(p), theirs))))
         == Gap(c, p, l, mine, theirs)
  {
    hide CommitOf, AnyClearing, Apply, Reclear, Unclear, View;
    ApplyParts(l, Peer(p), theirs);
    ClearingMarks(p, l, mine);
    UnclearMarkShows(p, l, mine, theirs);
    ClearedGain(c, p, l, mine, theirs, height);
  }

  /** The peer's clear changes my amount by its effect. */
  lemma ClearedGain(c: Config, p: Party, l: Ledger, mine: Op, theirs: Op, height: int)
    requires CrossingValid(c, l, p, mine, theirs, height) && theirs.Clear?
    ensures var s := PreimageCollision(Sent(c, p, l, mine));
      && theirs.idx < |s.htlcs|
      && var t := PreimageTarget(s, theirs.idx, theirs.preimage);
         && t.myAmt == Amt(Apply(l, Peer(p), theirs), p)
         && t.htlcs == Mark(s.htlcs, theirs)
  {
    hide CommitOf, AnyClearing;
  }

  /** The record a crossing PreimageSig is verified against. */
  lemma ClearVerified(c: Config, p: Party, l: Ledger, mine: Op, theirs: Op, height: int, t: StatCom)
    requires CrossingValid(c, l, p, mine, theirs, height) && theirs.Clear?
    requires t == PreimageTarget(PreimageCollision(Sent(c, p, l, mine)), theirs.idx, theirs.preimage)
    ensures forall sig :: VerifySig(c, p, t.(elkPoint := t.nextElkPoint), sig)
                     <==> sig == Sig(Peer(p), CommitOf(c, p, Apply(l, Peer(p), theirs)))
  {
    hide SignState, VerifySig, CommitOf, ShowsAll, AnyClearing, Unclear, Apply, View, MarkClearing;
    ClearedGain(c, p, l, mine, theirs, height);
    ClearingMarks(p, l, mine);
    UnclearMarkShows(p, l, mine, theirs);
    MarkNothing(View(p, l.entries), mine);
    MarkedShows(p, l.entries, Peer(p), theirs);
    OpeningVerified(c, p, l, theirs, height, t.(elkPoint := t.nextElkPoint));
  }

  /** A PreimageSig reaches a node that has started mine. */
  lemma CrossesClear(c: Config, p: Party, l: Ledger, mine: Op, theirs: Op, height: int)
    requires CrossingValid(c, l, p, mine, theirs, height) && theirs.Clear?
    ensures Receive(c, Holding(p, Sent(c, p, l, mine), false), Opening(c, Peer(p), l, theirs), height)
         == Reply(Holding(p, Gap(c, p, l, mine, theirs), false), SendGapSigRev(c, p, Gap(c, p, l, mine, theirs)))
  {
    hide SendGapSigRev, Gap, PreimageReply, VerifySig, CommitOf, AnyClearing, Unclear, PreimageAccepted, PreimageTarget, Apply;
    var s := Sent(c, p, l, mine);
    var t := PreimageTarget(PreimageCollision(s), theirs.idx, theirs.preimage);
    ClearVerified(c, p, l, mine, theirs, height, t);
    ClearMakesGap(c, p, l, mine, theirs, height, t);
    GapReplies(c, p, l, mine, theirs);
  }

  // ------------------------------------------------- leaving the gap state

  /** The gap record once the peer's revocation is in. */
  function GapAdvanced(c: Config, p: Party, l: Ledger, mine: Op, theirs: Op): StatCom {
    Gap(c, p, l, mine, theirs).(elkPoint := Pt(Peer(p), l.idx + 1), nextElkPoint := Pt(Peer(p), l.idx + 2),
                                n2ElkPoint := Pt(Peer(p), l.idx + 3))
  }

  lemma GapFields(c: Config, p: Party, l: Ledger, mine: Op, theirs: Op, height: int, t: StatCom)
    requires Gainful(l, Peer(p), theirs)
    requires BothValid(c, l, p, mine, theirs, height) && t == GapTarget(GapAdvanced(c, p, l, mine, theirs))
    ensures t.stateIdx == l.idx + 2 && t.myAmt == Amt(ApplyBoth(c, l, p, mine, theirs), p)
  {
    hide CommitOf, ClearingGain, Mark, View, Apply, ApplyBoth;
    ApplyParts(l, Peer(p), theirs);
    GapAmount(c, p, l, mine, theirs, height);
  }

  /** The record a GapSigRev is verified against, and the one it saves. */
  lemma GapTargets(c: Config, p: Party, l: Ledger, mine: Op, theirs: Op, height: int, t: StatCom)
    requires Gainful(l, Peer(p), theirs)
    requires BothValid(c, l, p, mine, theirs, height) && t == GapTarget(GapAdvanced(c, p, l, mine, theirs))
    ensures ShowsBoth(c, p, l, mine, theirs, t.(elkPoint := t.nextElkPoint))
    ensures GapAccepted(p, t, Sig(Peer(p), CommitOf(c, p, ApplyBoth(c, l, p, mine, theirs))),
                        HtlcBase(Peer(p), |l.entries| + 1 + OneIf(mine.Offer? || theirs.Offer?)))
         == Fin(c, p, l, mine, theirs)
  {
    hide ShowsBoth, GapAccepted, Fin, GapTarget, GapAdvanced;
    GapTargetShows(c, p, l, mine, theirs, height, t);
    GapSaves(c, p, l, mine, theirs, height, t);
  }

  lemma GapTargetShows(c: Config, p: Party, l: Ledger, mine: Op, theirs: Op, height: int, t: StatCom)
    requires Gainful(l, Peer(p), theirs)
    requires BothValid(c, l, p, mine, theirs, height) && t == GapTarget(GapAdvanced(c, p, l, mine, theirs))
    ensures ShowsBoth(c, p, l, mine, theirs, t.(elkPoint := t.nextElkPoint))
  {
    hide CommitOf, ClearingGain, Mark, View, Apply, ApplyBoth, OutgoingCost;
    BothParts(c, l, p, mine, theirs);
    GapFields(c, p, l, mine, theirs, height, t);
  }

  lemma GapSaves(c: Config, p: Party, l: Ledger, mine: Op, theirs: Op, height: int, t: StatCom)
    requires Gainful(l, Peer(p), theirs)
    requires BothValid(c, l, p, mine, theirs, height) && t == GapTarget(GapAdvanced(c, p, l, mine, theirs))
    ensures GapAccepted(p, t, Sig(Peer(p), CommitOf(c, p, ApplyBoth(c, l, p, mine, theirs))),
                        HtlcBase(Peer(p), |l.entries| + 1 + OneIf(mine.Offer? || theirs.Offer?)))
         == Fin(c, p, l, mine, theirs)
  {
    hide CommitOf, ClearingGain, Mark, View, Apply, ApplyBoth, OutgoingCost;
    BothParts(c, l, p, mine, theirs);
    GapFields(c, p, l, mine, theirs, height, t);
  }

  lemma GapIsCollision(c: Config, p: Party, l: Ledger, mine: Op, theirs: Op)
    requires theirs.Push? ==> theirs.amt > 0
    ensures InCollision(Gap(c, p, l, mine, theirs))
  {
    hide CommitOf, Mark, View, Apply;
  }

  lemma GapAdvances(c: Config, p: Party, l: Ledger, mine: Op, theirs: Op)
    ensures AdvanceElkrem(Gap(c, p, l, mine, theirs), Elk(Peer(p), l.idx), Pt(Peer(p), l.idx + 3))
         == Some(GapAdvanced(c, p, l, mine, theirs))
    ensures Gap(c, p, l, mine, theirs).collision == Crossing(l, mine, theirs)
    ensures Gap(c, p, l, mine, theirs).myAmt == Amt(Apply(l, Peer(p), theirs), p)
  {
    hide CommitOf, Mark, View, Crossing;
  }

  /** GapSigRev takes the gap record to the one with both operations in it. */
  lemma LeavesGap(c: Config, p: Party, l: Ledger, mine: Op, theirs: Op, height: int)
    requires Gainful(l, Peer(p), theirs)
    requires BothValid(c, l, p, mine, theirs, height) && DistinctBases(c)
    ensures Receive(c, Holding(p, Gap(c, p, l, mine, theirs), false), GapAnswer(c, Peer(p), l, theirs, mine), height)
         == Res(Holding(p, Fin(c, p, l, mine, theirs), false), [Closing(p, ApplyBoth(c, l, p, mine, theirs))], true,
                Some(Past(l.idx, Amt(Apply(l, Peer(p), theirs), p) - Crossing(l, mine, theirs))))
  {
    hide SignState, VerifySig, CommitOf, Mark, View, Apply, ApplyBoth, GapTarget, GapAccepted, InCollision, ShowsBoth,
         Gap, GapAdvanced, AdvanceElkrem, Crossing, Fin, SendRev, Closing;
    FinAnswers(c, p, l, mine, theirs);
    GapAdvances(c, p, l, mine, theirs);
    GapFields(c, p, l, mine, theirs, height, GapTarget(GapAdvanced(c, p, l, mine, theirs)));
    BothParts(c, l, p, mine, theirs);
    ApplyBothSymmetric(c, l, p, mine, theirs);
    GapIsCollision(c, p, l, mine, theirs);
    var t := GapTarget(GapAdvanced(c, p, l, mine, theirs));
    GapTargets(c, p, l, mine, theirs, height, t);
    BothSigned(c, p, l, mine, theirs, height, t.(elkPoint := t.nextElkPoint));
  }

  /** With both operations in it, the record revokes the gap state. */
  lemma FinAnswers(c: Config, p: Party, l: Ledger, mine: Op, theirs: Op)
    requires l.idx + 4 <= MAX_INDEX
    ensures ApplyBoth(c, l, p, mine, theirs).idx == l.idx + 2
    ensures SendRev(p, Fin(c, p, l, mine, theirs)) == Some(Closing(p, ApplyBoth(c, l, p, mine, theirs)))
    ensures Fin(c, p, l, mine, theirs).stateIdx == l.idx + 2
  {
    hide ApplyBoth, CommitOf, Gap;
    BothParts(c, l, p, mine, theirs);
  }

  lemma BothParts(c: Config, l: Ledger, p: Party, opP: Op, opQ: Op)
    ensures ApplyBoth(c, l, p, opP, opQ).idx == l.idx + 2
    ensures |ApplyBoth(c, l, p, opP, opQ).entries| == |l.entries| + OneIf(opP.Offer?) + OneIf(opQ.Offer?)
  {}

  lemma FinAccepted(c: Config, p: Party, l: Ledger, mine: Op, theirs: Op)
    requires Compatible(mine, theirs)
    requires mine.Clear? ==> mine.idx < |l.entries|
    requires theirs.Clear? ==> theirs.idx < |l.entries|
    ensures var both := ApplyBoth(c, l, p, mine, theirs);
      RevAccepted(Fin(c, p, l, mine, theirs).(elkPoint := Pt(Peer(p), both.idx), nextElkPoint := Pt(Peer(p), both.idx + 1),
                                               n2ElkPoint := Pt(Peer(p), both.idx + 2)),
                  HtlcBase(Peer(p), |both.entries| + 1))
      == Rest(c, p, both)
  {
    hide CommitOf, Mark, View, Apply, ApplyBoth, MarkCleared;
    BothParts(c, l, p, mine, theirs);
    BothClears(c, p, l, mine, theirs);
  }

  /** Rev brings a party to rest at the ledger with both operations in it. */
  lemma SettlesBoth(c: Config, p: Party, l: Ledger, mine: Op, theirs: Op, height: int)
    requires BothValid(c, l, p, mine, theirs, height) && DistinctBases(c)
    ensures Receive(c, Holding(p, Fin(c, p, l, mine, theirs), false),
                    Closing(Peer(p), ApplyBoth(c, l, p, mine, theirs)), height)
         == Res(Holding(p, Rest(c, p, ApplyBoth(c, l, p, mine, theirs)), true), [], true,
                Some(Past(l.idx + 1, Amt(ApplyBoth(c, l, p, mine, theirs), p) - Crossing(l, mine, theirs))))
  {
    hide CommitOf, Mark, View, Apply, ApplyBoth, MarkCleared, RevAccepted, AtRest, Rest, Gap;
    BothParts(c, l, p, mine, theirs);
    FinAccepted(c, p, l, mine, theirs);
    FinBusy(c, p, l, mine, theirs);
    FinFields(c, p, l, mine, theirs);
  }

  lemma FinFields(c: Config, p: Party, l: Ledger, mine: Op, theirs: Op)
    requires theirs.Push? ==> theirs.amt > 0
    ensures var s := Fin(c, p, l, mine, theirs);
      && s.delta == Crossing(l, mine, theirs) >= 0
      && s.stateIdx == l.idx + 2 && s.elkPoint == Pt(Peer(p), l.idx + 1)
  {
    hide CommitOf, Mark, View;
  }

  /** A party waiting for the last Rev of a collision is not at rest. */
  lemma FinBusy(c: Config, p: Party, l: Ledger, mine: Op, theirs: Op)
    requires mine.Clear? ==> mine.idx < |l.entries|
    requires theirs.Clear? ==> theirs.idx < |l.entries|
    requires theirs.Push? ==> theirs.amt > 0
    ensures !AtRest(Fin(c, p, l, mine, theirs))
  {
    var s := Fin(c, p, l, mine, theirs);
    if mine.Clear? { assert s.htlcs[mine.idx].clearing; }
    else if theirs.Clear? { assert s.htlcs[theirs.idx].clearing; }
    else if mine.Push? && theirs.Push? && SomeCleared(l) {
      ClearingMarks(p, l, mine);
    }
  }
}
