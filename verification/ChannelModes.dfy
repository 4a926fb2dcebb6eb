/** The records and messages an honest node goes through, written out as functions
    of the shared ledger and of the operations under way. */
module ChannelModes {
  import opened Wrappers
  import opened ChannelState
  import opened ChannelSteps
  import opened ChannelLedger

  // ----------------------------------------------------------------- records

  /** Nothing under way: the record is p's view of the ledger. */
  function Rest(c: Config, p: Party, l: Ledger): StatCom {
    var q := Peer(p);
    var k := |l.entries|;
    StatCom(l.idx, Amt(l, p), 0, 0, Pt(q, l.idx), Pt(q, l.idx + 1), Pt(q, l.idx + 2),
            Sig(q, CommitOf(c, p, l)), k, None, None, false, false, false, false,
            HtlcBase(q, k), HtlcBase(q, k + 1), HtlcBase(p, k), HtlcBase(p, k + 1),
            View(p, l.entries), false)
  }

  /** The clearing mark of an operation that clears. */
  function Mark(hs: seq<HTLC>, op: Op): (r: seq<HTLC>)
    ensures |r| == |hs|
  {
    if op.Clear? && op.idx < |hs| then MarkClearing(hs, op.idx, op.preimage) else hs
  }

  /** p started op and waits for an answer. */
  function Sent(c: Config, p: Party, l: Ledger, op: Op): StatCom {
    var k := |l.entries|;
    var s := Rest(c, p, l);
    s.(delta := if op.Push? then -op.amt else 0,
       inProg := if op.Offer? then Some(ViewEntry(p, k, Opened(p, op))) else None,
       htlcs := Mark(s.htlcs, op))
  }

  function OneIf(b: bool): nat {
    if b then 1 else 0
  }

  /** p accepted its peer's op, answered with SigRev, and waits for Rev. */
  function Got(c: Config, p: Party, l: Ledger, op: Op): StatCom {
    var q := Peer(p);
    var k := |l.entries|;
    var s := Rest(c, p, l);
    var after := Apply(l, q, op);
    s.(stateIdx := after.idx, myAmt := Amt(after, p), sig := Sig(q, CommitOf(c, p, after)),
       delta := if op.Push? then op.amt else 0,
       inProg := if op.Offer? then Some(ViewEntry(p, k, Opened(q, op))) else None,
       htlcs := Mark(s.htlcs, op),
       myNextBase := HtlcBase(p, k + OneIf(op.Offer?)), myN2Base := HtlcBase(p, k + 1 + OneIf(op.Offer?)))
  }

  /** The HTLC that will get the next index, and the one after it. */
  function FirstPending(c: Config, p: Party, l: Ledger, mine: Op, theirs: Op): Option<HTLC> {
    var k := |l.entries|;
    if mine.Offer? && (!theirs.Offer? || GoesFirst(c, l, p)) then Some(ViewEntry(p, k, Opened(p, mine)))
    else if theirs.Offer? then Some(ViewEntry(p, k, Opened(Peer(p), theirs)))
    else None
  }

  function SecondPending(c: Config, p: Party, l: Ledger, mine: Op, theirs: Op): Option<HTLC> {
    var k := |l.entries| + 1;
    if mine.Offer? && theirs.Offer?
    then Some(if GoesFirst(c, l, p) then ViewEntry(p, k, Opened(Peer(p), theirs))
              else ViewEntry(p, k, Opened(p, mine)))
    else None
  }

  /** Has any HTLC of the ledger been cleared?  Such HTLCs keep their clearing mark,
      which is what the handlers look at when they classify a collision. */
  predicate SomeCleared(l: Ledger) {
    exists e <- l.entries :: e.cleared
  }

  /** The collision amount the handler records for two crossing pushes. */
  function Crossing(l: Ledger, mine: Op, theirs: Op): int {
    if mine.Push? && theirs.Push? && !SomeCleared(l) then theirs.amt else 0
  }

  /** The four collision flags, as the handlers set them. */
  function Flagged(s: StatCom, l: Ledger, mine: Op, theirs: Op): StatCom {
    var h := SomeCleared(l);
    s.(collHashDelta := (mine.Offer? && theirs.Push?) || (mine.Push? && theirs.Offer? && !h),
       collHashPreimage := (mine.Offer? && theirs.Clear?) || (mine.Clear? && theirs.Offer?)
                           || (mine.Push? && theirs.Offer? && h),
       collPreimages := (mine.Clear? && theirs.Clear?) || (mine.Push? && theirs.Clear? && h),
       collPreimageDelta := (mine.Clear? && theirs.Push?) || (mine.Push? && theirs.Clear? && !h)
                            || (mine.Push? && theirs.Push? && h))
  }

  /** p started mine, then received its peer's theirs: the gap state. */
  function Gap(c: Config, p: Party, l: Ledger, mine: Op, theirs: Op): StatCom {
    var q := Peer(p);
    var k := |l.entries|;
    var shift := OneIf(mine.Offer? || theirs.Offer?);
    var s := Flagged(Rest(c, p, l), l, mine, theirs);
    var after := Apply(l, q, theirs);
    s.(stateIdx := after.idx, myAmt := Amt(after, p), sig := Sig(q, CommitOf(c, p, after)),
       delta := if mine.Push? then -mine.amt else 0,
       collision := Crossing(l, mine, theirs),
       inProg := FirstPending(c, p, l, mine, theirs),
       colliding := SecondPending(c, p, l, mine, theirs),
       htlcs := Mark(Mark(s.htlcs, mine), theirs),
       myNextBase := HtlcBase(p, k + shift), myN2Base := HtlcBase(p, k + 1 + shift))
  }

  /** p has both operations signed, answered with Rev, and waits for Rev. */
  function Fin(c: Config, p: Party, l: Ledger, mine: Op, theirs: Op): StatCom {
    var q := Peer(p);
    var k := |l.entries|;
    var shift := OneIf(mine.Offer? || theirs.Offer?);
    var both := ApplyBoth(c, l, p, mine, theirs);
    var myShift := |both.entries| - k;
    var s := Gap(c, p, l, mine, theirs);
    s.(stateIdx := both.idx, myAmt := Amt(both, p), sig := Sig(q, CommitOf(c, p, both)),
       delta := Crossing(l, mine, theirs), collision := 0,
       elkPoint := Pt(q, l.idx + 1), nextElkPoint := Pt(q, l.idx + 2), n2ElkPoint := Pt(q, l.idx + 3),
       nextBase := HtlcBase(q, k + shift), n2Base := HtlcBase(q, k + 1 + shift),
       myNextBase := HtlcBase(p, |both.entries|), myN2Base := HtlcBase(p, |both.entries| + 1))
  }

  // ---------------------------------------------------------------- messages

  /** The message that opens p's operation. */
  function Opening(c: Config, p: Party, l: Ledger, op: Op): Msg {
    var sig := Sig(p, CommitOf(c, Peer(p), Apply(l, p, op)));
    match op
    case Push(amt) => DeltaSig(amt, sig)
    case Offer(amt, rhash, locktime) => HashSig(amt, rhash, locktime, sig)
    case Clear(idx, preimage) => PreimageSig(idx, preimage, sig)
  }

  /** p's answer to its peer's op. */
  function Answer(c: Config, p: Party, l: Ledger, op: Op): Msg {
    SigRev(Sig(p, CommitOf(c, Peer(p), Apply(l, Peer(p), op))), Elk(p, l.idx), Pt(p, l.idx + 3),
           HtlcBase(p, |l.entries| + 1 + OneIf(op.Offer?)))
  }

  /** p's answer in a collision. */
  function GapAnswer(c: Config, p: Party, l: Ledger, mine: Op, theirs: Op): Msg {
    GapSigRev(Sig(p, CommitOf(c, Peer(p), ApplyBoth(c, l, p, mine, theirs))), Elk(p, l.idx), Pt(p, l.idx + 3),
              HtlcBase(p, |l.entries| + 1 + OneIf(mine.Offer? || theirs.Offer?)))
  }

  /** p's revocation once it holds ledger l, with a positive index. */
  function Closing(p: Party, l: Ledger): Msg
    requires l.idx > 0
  {
    Rev(Elk(p, l.idx - 1), Pt(p, l.idx + 2), HtlcBase(p, |l.entries| + 1))
  }

  // ----------------------------------------------------- facts about HTLC lists

  lemma MarkedShows(p: Party, es: seq<Entry>, q: Party, op: Op)
    requires op.Clear? ==> op.idx < |es|
    ensures !op.Offer? ==> ShowsAll(p, Mark(View(p, es), op), EntriesAfter(es, q, op))
  {}

  /** Taking the pending HTLC in and marking what was being cleared as cleared gives
      the view of the entries after the operation. */
  lemma MarkedClears(p: Party, es: seq<Entry>, q: Party, op: Op)
    requires op.Clear? ==> op.idx < |es|
    ensures MarkCleared(AppendOpt(Mark(View(p, es), op),
                                  if op.Offer? then Some(ViewEntry(p, |es|, Opened(q, op))) else None))
         == View(p, EntriesAfter(es, q, op))
  {}

  lemma AppendShows(p: Party, hs: seq<HTLC>, es: seq<Entry>, e: Entry)
    requires ShowsAll(p, hs, es) && !e.cleared
    ensures ShowsAll(p, AppendOpt(hs, Some(ViewEntry(p, |es|, e))), es + [e])
  {}
}
