/** The ledger the two nodes of a channel keep together: one index, two amounts
    and one list of HTLCs, with no notion of messages.  Each node's record at
    rest is a view of it, and each commitment is determined by it. */
module ChannelLedger {
  import opened Wrappers
  import opened ElkremRange
  import opened ChannelState

  datatype Entry = Entry(offerer: Party, amt: int, rhash: Digest, locktime: nat,
                         cleared: bool, preimage: nat)

  datatype Ledger = Ledger(idx: nat, alice: int, bob: int, entries: seq<Entry>)

  /** The three things a party can do. */
  datatype Op = Push(amt: int)
              | Offer(amt: int, rhash: Digest, locktime: nat)
              | Clear(idx: nat, preimage: nat)

  function Amt(l: Ledger, p: Party): int {
    if p == Alice then l.alice else l.bob
  }

  function OpenSum(es: seq<Entry>): int {
    if es == [] then 0
    else OpenSum(es[..|es| - 1]) + if es[|es| - 1].cleared then 0 else es[|es| - 1].amt
  }

  /** Who is paid when the entry is cleared with this preimage. */
  function Gainer(e: Entry, preimage: nat): Party {
    if preimage == 0 then e.offerer else Peer(e.offerer)
  }

  // ------------------------------------------------------- operations on a ledger

  function Opened(p: Party, op: Op): Entry
    requires op.Offer?
  {
    Entry(p, op.amt, op.rhash, op.locktime, false, 0)
  }

  /** What the operation of p changes in the amount of party x. */
  function Effect(l: Ledger, p: Party, op: Op, x: Party): int {
    match op
    case Push(amt) => if x == p then -amt else amt
    case Offer(amt, _, _) => if x == p then -amt else 0
    case Clear(idx, preimage) =>
      if idx < |l.entries| && Gainer(l.entries[idx], preimage) == x then l.entries[idx].amt else 0
  }

  /** The entries after an operation. */
  function EntriesAfter(es: seq<Entry>, p: Party, op: Op): seq<Entry> {
    match op
    case Push(_) => es
    case Offer(_, _, _) => es + [Opened(p, op)]
    case Clear(idx, preimage) =>
      if idx < |es| then es[idx := es[idx].(cleared := true, preimage := preimage)] else es
  }

  function Apply(l: Ledger, p: Party, op: Op): Ledger {
    Ledger(l.idx + 1, l.alice + Effect(l, p, op, Alice), l.bob + Effect(l, p, op, Bob),
           EntriesAfter(l.entries, p, op))
  }

  /** Does p's HTLC come first when both parties offer one from ledger l?  The
      party whose next base point sorts first keeps the lower index. */
  predicate GoesFirst(c: Config, l: Ledger, p: Party) {
    c.rank(HtlcBase(p, |l.entries|)) <= c.rank(HtlcBase(Peer(p), |l.entries|))
  }

  /** Both parties acted at once.  Only the order of two offers matters. */
  function ApplyBoth(c: Config, l: Ledger, p: Party, opP: Op, opQ: Op): Ledger {
    var q := Peer(p);
    var es := if opP.Offer? && opQ.Offer? && !GoesFirst(c, l, p)
              then EntriesAfter(EntriesAfter(l.entries, q, opQ), p, opP)
              else EntriesAfter(EntriesAfter(l.entries, p, opP), q, opQ);
    Ledger(l.idx + 2,
           l.alice + Effect(l, p, opP, Alice) + Effect(l, q, opQ, Alice),
           l.bob + Effect(l, p, opP, Bob) + Effect(l, q, opQ, Bob), es)
  }

  // ------------------------------------------------------------------ validity

  predicate AmtOk(c: Config, x: int) {
    x == 0 || x >= MIN_OUTPUT + c.fee
  }

  predicate EntriesOk(c: Config, es: seq<Entry>) {
    forall e <- es :: !e.cleared ==> e.amt >= MIN_OUTPUT + c.fee
  }

  /** Money adds up to the capacity, and every amount makes a valid output. */
  predicate ValidLedger(c: Config, l: Ledger) {
    && l.alice + l.bob + OpenSum(l.entries) == c.value
    && AmtOk(c, l.alice) && AmtOk(c, l.bob)
    && EntriesOk(c, l.entries)
    && c.value > 0
  }

  /** p may start op when its own ledger is l: the amounts are affordable, and an HTLC
      is cleared only with its preimage or after its locktime. */
  predicate ValidOp(c: Config, l: Ledger, p: Party, op: Op, height: int) {
    match op
    case Push(amt) =>
      && 0 < amt < MAX_SEND
      && Amt(l, p) - amt >= MIN_OUTPUT + c.fee
      && Amt(l, Peer(p)) + amt >= MIN_OUTPUT + c.fee
    case Offer(amt, _, _) =>
      && MIN_OUTPUT + c.fee <= amt < MAX_SEND
      && Amt(l, p) - amt >= MIN_OUTPUT + c.fee
    case Clear(idx, preimage) =>
      && idx < |l.entries|
      && !l.entries[idx].cleared
      && (if preimage == 0 then AsInt32(l.entries[idx].locktime) <= height
          else l.entries[idx].rhash == Sha(preimage))
  }

  /** If op clears an HTLC, the party that starts it is the one that is paid. */
  predicate Gainful(l: Ledger, p: Party, op: Op) {
    op.Clear? ==> op.idx < |l.entries| && Gainer(l.entries[op.idx], op.preimage) == p
  }

  /** Two operations started at the same time do not clear the same HTLC. */
  predicate Compatible(opP: Op, opQ: Op) {
    opP.Clear? && opQ.Clear? ==> opP.idx != opQ.idx
  }

  /** Base points of the two parties never coincide in the order. */
  ghost predicate DistinctBases(c: Config) {
    forall i: nat, j: nat :: c.rank(HtlcBase(Alice, i)) != c.rank(HtlcBase(Bob, j))
  }

  lemma OpenSumUpdate(es: seq<Entry>, i: nat, e: Entry)
    requires i < |es|
    ensures OpenSum(es[i := e]) == OpenSum(es) - (if es[i].cleared then 0 else es[i].amt)
                                   + (if e.cleared then 0 else e.amt)
  {
    var n := |es| - 1;
    if i == n {
      assert es[i := e][..n] == es[..n];
    } else {
      OpenSumUpdate(es[..n], i, e);
      assert es[i := e][..n] == es[..n][i := e];
    }
  }

  lemma OpenSumAppend(es: seq<Entry>, e: Entry)
    ensures OpenSum(es + [e]) == OpenSum(es) + if e.cleared then 0 else e.amt
  {
    assert (es + [e])[..|es|] == es;
  }

  /** What an operation moves into the open HTLCs. */
  function LockedBy(es: seq<Entry>, op: Op): int {
    match op
    case Push(_) => 0
    case Offer(amt, _, _) => amt
    case Clear(idx, _) => if idx < |es| then -es[idx].amt else 0
  }

  /** Every operation keeps the sum of both amounts and of the open HTLCs. */
  lemma EntriesAfterSum(es: seq<Entry>, p: Party, op: Op)
    requires op.Clear? ==> op.idx < |es| && !es[op.idx].cleared
    ensures OpenSum(EntriesAfter(es, p, op)) == OpenSum(es) + LockedBy(es, op)
  {
    match op
    case Push(_) =>
    case Offer(_, _, _) => OpenSumAppend(es, Opened(p, op));
    case Clear(idx, preimage) => OpenSumUpdate(es, idx, es[idx].(cleared := true, preimage := preimage));
  }

  /** Conservation: a valid operation on a valid ledger gives a valid ledger. */
  lemma ApplyValid(c: Config, l: Ledger, p: Party, op: Op, height: int)
    requires ValidLedger(c, l) && ValidOp(c, l, p, op, height)
    ensures ValidLedger(c, Apply(l, p, op))
  {
    EntriesAfterSum(l.entries, p, op);
  }

  lemma EntriesAfterOk(c: Config, es: seq<Entry>, p: Party, op: Op)
    requires EntriesOk(c, es) && (op.Offer? ==> op.amt >= MIN_OUTPUT + c.fee)
    ensures EntriesOk(c, EntriesAfter(es, p, op))
  {}

  /** Whatever both parties spend at once, each still has enough for an output:
      an operation only takes from the party that starts it. */
  lemma BothAmounts(c: Config, l: Ledger, p: Party, opP: Op, opQ: Op, height: int)
    requires ValidLedger(c, l)
    requires ValidOp(c, l, p, opP, height) && ValidOp(c, l, Peer(p), opQ, height)
    ensures forall x :: AmtOk(c, Amt(l, x) + Effect(l, p, opP, x) + Effect(l, Peer(p), opQ, x))
  {}

  /** Entries after both operations: still large enough, and their sum has moved
      by what both operations lock. */
  lemma BothEntries(c: Config, es: seq<Entry>, p: Party, opP: Op, q: Party, opQ: Op)
    requires EntriesOk(c, es) && Compatible(opP, opQ)
    requires opP.Offer? ==> opP.amt >= MIN_OUTPUT + c.fee
    requires opQ.Offer? ==> opQ.amt >= MIN_OUTPUT + c.fee
    requires opP.Clear? ==> opP.idx < |es| && !es[opP.idx].cleared
    requires opQ.Clear? ==> opQ.idx < |es| && !es[opQ.idx].cleared
    ensures EntriesOk(c, EntriesAfter(EntriesAfter(es, p, opP), q, opQ))
    ensures OpenSum(EntriesAfter(EntriesAfter(es, p, opP), q, opQ))
         == OpenSum(es) + LockedBy(es, opP) + LockedBy(es, opQ)
  {
    EntriesAfterSum(es, p, opP);
    EntriesAfterSum(EntriesAfter(es, p, opP), q, opQ);
    EntriesAfterOk(c, es, p, opP);
    EntriesAfterOk(c, EntriesAfter(es, p, opP), q, opQ);
  }

  /** Conservation when both parties act at once. */
  lemma ApplyBothValid(c: Config, l: Ledger, p: Party, opP: Op, opQ: Op, height: int)
    requires ValidLedger(c, l) && Compatible(opP, opQ)
    requires ValidOp(c, l, p, opP, height) && ValidOp(c, l, Peer(p), opQ, height)
    ensures ValidLedger(c, ApplyBoth(c, l, p, opP, opQ))
  {
    hide EntriesAfter, OpenSum, EntriesOk;
    BothEntries(c, l.entries, p, opP, Peer(p), opQ);
    BothEntries(c, l.entries, Peer(p), opQ, p, opP);
    BothAmounts(c, l, p, opP, opQ, height);
    EffectBalance(c, l, p, opP, height);
    EffectBalance(c, l, Peer(p), opQ, height);
    var r := ApplyBoth(c, l, p, opP, opQ);
    assert r.alice == Amt(l, Alice) + Effect(l, p, opP, Alice) + Effect(l, Peer(p), opQ, Alice);
    assert r.bob == Amt(l, Bob) + Effect(l, p, opP, Bob) + Effect(l, Peer(p), opQ, Bob);
  }

  /** One operation takes from the two amounts what it locks in HTLCs. */
  lemma EffectBalance(c: Config, l: Ledger, p: Party, op: Op, height: int)
    requires ValidOp(c, l, p, op, height)
    ensures Effect(l, p, op, Alice) + Effect(l, p, op, Bob) == -LockedBy(l.entries, op)
  {}

  lemma EntriesAfterCommute(es: seq<Entry>, p: Party, opP: Op, opQ: Op)
    requires Compatible(opP, opQ) && !(opP.Offer? && opQ.Offer?)
    requires opP.Clear? ==> opP.idx < |es|
    requires opQ.Clear? ==> opQ.idx < |es|
    ensures EntriesAfter(EntriesAfter(es, p, opP), Peer(p), opQ)
         == EntriesAfter(EntriesAfter(es, Peer(p), opQ), p, opP)
  {}

  /** It does not matter whose operation is named first. */
  lemma ApplyBothSymmetric(c: Config, l: Ledger, p: Party, opP: Op, opQ: Op)
    requires DistinctBases(c) && Compatible(opP, opQ)
    requires opP.Clear? ==> opP.idx < |l.entries|
    requires opQ.Clear? ==> opQ.idx < |l.entries|
    ensures ApplyBoth(c, l, p, opP, opQ) == ApplyBoth(c, l, Peer(p), opQ, opP)
  {}

  /** Acting at once is acting one after the other, with p first unless both offer
      an HTLC and the base points put q first. */
  lemma ApplyBothIsSequential(c: Config, l: Ledger, p: Party, opP: Op, opQ: Op)
    requires Compatible(opP, opQ)
    requires opP.Clear? ==> opP.idx < |l.entries|
    requires opQ.Clear? ==> opQ.idx < |l.entries|
    ensures ApplyBoth(c, l, p, opP, opQ)
         == if opP.Offer? && opQ.Offer? && !GoesFirst(c, l, p)
            then Apply(Apply(l, Peer(p), opQ), p, opP)
            else Apply(Apply(l, p, opP), Peer(p), opQ)
  {}

  // -------------------------------------------------- records and commitments

  function Pt(p: Party, idx: nat): Point {
    PointOf(Elk(p, idx))
  }

  /** Entry i of the ledger as party p stores it. */
  function ViewEntry(p: Party, i: nat, e: Entry): HTLC {
    HTLC(i, e.offerer != p, e.amt, e.rhash, e.locktime,
         HtlcBase(p, i), HtlcBase(Peer(p), i), e.preimage, e.cleared, e.cleared)
  }

  function View(p: Party, es: seq<Entry>): (r: seq<HTLC>)
    ensures |r| == |es|
  {
    seq(|es|, i requires 0 <= i < |es| => ViewEntry(p, i, es[i]))
  }

  function EntryOut(holder: Party, idx: nat, i: nat, e: Entry): HtlcOut {
    var q := Peer(holder);
    var offered := e.offerer == holder;
    HtlcOut(offered, (HtlcBase(q, i), Pt(q, idx)), (HtlcBase(holder, i), Pt(holder, idx)),
            e.rhash, if offered then 0 else e.locktime, e.amt)
  }

  function EntryOuts(holder: Party, idx: nat, es: seq<Entry>): multiset<HtlcOut> {
    if es == [] then multiset{}
    else
      var i := |es| - 1;
      EntryOuts(holder, idx, es[..i])
      + if es[i].cleared then multiset{} else multiset{EntryOut(holder, idx, i, es[i])}
  }

  /** The one commitment party holder has for ledger l. */
  function CommitOf(c: Config, holder: Party, l: Ledger): Commit {
    Commit(holder, l.idx, Pt(holder, l.idx), NetOut(c, Amt(l, holder)), NetOut(c, Amt(l, Peer(holder))),
           EntryOuts(holder, l.idx, l.entries))
  }

  // --------------------------------------------- a record that depicts a ledger

  /** h is entry i as p would put it into a commitment: same script, same keys, and
      left out exactly when the entry is cleared. */
  predicate Shows(p: Party, h: HTLC, i: nat, e: Entry) {
    && h.incoming == (e.offerer != p)
    && h.amt == e.amt && h.rhash == e.rhash && h.locktime == e.locktime
    && h.myBase == HtlcBase(p, i) && h.theirBase == HtlcBase(Peer(p), i)
    && Live(h) == !e.cleared
  }

  predicate ShowsAll(p: Party, hs: seq<HTLC>, es: seq<Entry>) {
    |hs| == |es| && forall i :: 0 <= i < |hs| ==> Shows(p, hs[i], i, es[i])
  }

  /** The list together with the HTLCs that have no place in it yet. */
  function AllHtlcs(s: StatCom): seq<HTLC> {
    AppendOpt(AppendOpt(s.htlcs, s.inProg), s.colliding)
  }

  predicate OptLive(o: Option<HTLC>) {
    o.Some? ==> Live(o.value)
  }

  /** The record, as it stands in RAM when a commitment is built, describes l. */
  predicate Depicts(p: Party, s: StatCom, l: Ledger) {
    && s.stateIdx == l.idx
    && s.myAmt == Amt(l, p)
    && s.elkPoint == Pt(Peer(p), l.idx)
    && ShowsAll(p, AllHtlcs(s), l.entries)
    && OptLive(s.inProg) && OptLive(s.colliding)
  }

  lemma LiveSumShows(p: Party, hs: seq<HTLC>, es: seq<Entry>)
    requires ShowsAll(p, hs, es)
    ensures LiveSum(hs) == OpenSum(es)
  {}

  lemma LiveOutsShows(p: Party, s: StatCom, hs: seq<HTLC>, es: seq<Entry>, mine: bool)
    requires ShowsAll(p, hs, es)
    requires s.elkPoint == Pt(Peer(p), s.stateIdx)
    ensures LiveOuts(p, s, hs, mine) == EntryOuts(if mine then p else Peer(p), s.stateIdx, es)
  {
    if hs != [] {
      var n := |hs| - 1;
      LiveOutsShows(p, s, hs[..n], es[..n], mine);
      assert Shows(p, hs[n], n, es[n]);
    }
  }

  /** The loops over the list and the two pending HTLCs build the same outputs as
      one loop over all of them. */
  lemma PendingOuts(me: Party, s: StatCom, mine: bool)
    requires OptLive(s.inProg) && OptLive(s.colliding)
    ensures AllOuts(me, s, mine) == LiveOuts(me, s, AllHtlcs(s), mine)
    ensures OptAmt(s.inProg) + OptAmt(s.colliding) + LiveSum(s.htlcs) == LiveSum(AllHtlcs(s))
  {
    hide LiveOuts, LiveSum, OptOuts, OptAmt, AppendOpt;
    AppendOuts(me, s, s.htlcs, s.inProg, mine);
    AppendOuts(me, s, AppendOpt(s.htlcs, s.inProg), s.colliding, mine);
  }

  lemma AppendOuts(me: Party, s: StatCom, hs: seq<HTLC>, o: Option<HTLC>, mine: bool)
    requires OptLive(o)
    ensures LiveOuts(me, s, AppendOpt(hs, o), mine) == LiveOuts(me, s, hs, mine) + OptOuts(me, s, o, mine)
    ensures LiveSum(AppendOpt(hs, o)) == LiveSum(hs) + OptAmt(o)
  {
    if o.Some? { assert AppendOpt(hs, o)[..|hs|] == hs; }
  }

  lemma EntryOutsBound(c: Config, holder: Party, idx: nat, es: seq<Entry>)
    requires EntriesOk(c, es)
    ensures forall o <- EntryOuts(holder, idx, es) :: o.amt - c.fee >= MIN_OUTPUT
  {}

  /** With nothing left for either party, some HTLC output remains. */
  lemma EntryOutsNonEmpty(c: Config, holder: Party, idx: nat, es: seq<Entry>)
    requires OpenSum(es) > 0
    ensures EntryOuts(holder, idx, es) != multiset{}
  {}

  /** The outputs and sums of a record that depicts a ledger are the ledger's. */
  lemma OutsDepict(p: Party, s: StatCom, l: Ledger, mine: bool)
    requires Depicts(p, s, l)
    ensures AllOuts(p, s, mine) == EntryOuts(if mine then p else Peer(p), l.idx, l.entries)
    ensures OptAmt(s.inProg) + OptAmt(s.colliding) + LiveSum(s.htlcs) == OpenSum(l.entries)
  {
    PendingOuts(p, s, mine);
    LiveSumShows(p, AllHtlcs(s), l.entries);
    LiveOutsShows(p, s, AllHtlcs(s), l.entries, mine);
  }

  lemma AssembleValid(c: Config, holder: Party, l: Ledger)
    requires ValidLedger(c, l) && l.idx <= MAX_INDEX
    ensures Assemble(c, holder, l.idx, Pt(holder, l.idx), Amt(l, holder), Amt(l, Peer(holder)),
                     EntryOuts(holder, l.idx, l.entries)) == Some(CommitOf(c, holder, l))
  {
    EntryOutsBound(c, holder, l.idx, l.entries);
    if l.alice == 0 && l.bob == 0 {
      EntryOutsNonEmpty(c, holder, l.idx, l.entries);
    }
  }

  /** The centre of the protocol: two records that depict the same ledger, one on
      each side, build the same commitment, so a signature made on one side is
      accepted on the other. */
  lemma BuildDepicts(c: Config, p: Party, s: StatCom, l: Ledger, mine: bool)
    requires ValidLedger(c, l) && Depicts(p, s, l) && l.idx <= MAX_INDEX
    ensures BuildStateTx(c, p, s, mine) == Some(CommitOf(c, if mine then p else Peer(p), l))
  {
    OutsDepict(p, s, l, mine);
    AssembleValid(c, if mine then p else Peer(p), l);
    assert TheirAmt(c, s) == Amt(l, Peer(p));
  }

  /** A record that depicts l signs the counterparty's commitment for l, and
      accepts exactly the counterparty's signature on its own. */
  lemma SignaturesMatch(c: Config, p: Party, s: StatCom, l: Ledger)
    requires ValidLedger(c, l) && Depicts(p, s, l) && l.idx <= MAX_INDEX
    ensures SignState(c, p, s) == Some(Sig(p, CommitOf(c, Peer(p), l)))
    ensures forall sig :: VerifySig(c, p, s, sig) <==> sig == Sig(Peer(p), CommitOf(c, p, l))
  {
    BuildDepicts(c, p, s, l, true);
    BuildDepicts(c, p, s, l, false);
  }
}
