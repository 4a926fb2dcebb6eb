# lit: channel protocol, secrets, routes, transport and codecs

A Dafny model of five parts of lit, a Lightning Network node, and proofs about them.
`dafny verify dfyconfig.toml` checks everything.

**The channel update protocol** (`Channel*.dfy`, `ArbitraryPeer.dfy`, `Qchan.dfy`). Two nodes move a
shared commitment forward with DeltaSig, HashSig or PreimageSig, then SigRev, then Rev; when both
start at once they go through a gap state with GapSigRev. `ChannelState` holds the saved record and
the commitments built from it, with symbolic secrets, points and signatures; `ChannelSteps` has one
step per handler. `ChannelLedger` is the reference: a plain account of amounts and HTLCs, on which
one operation or two crossing ones act. `ChannelModes`, `ChannelHonest` and `ChannelCollisions` give
the records and messages an honest exchange goes through as functions of that ledger; `ChannelRuns`
shows that every step leads from one such phase to another, and `ChannelTheorems` draws the
consequences for all runs. `ChannelBreaks` tells when a party can close the channel on its own, and
`ChannelCommits` accounts for every amount in a commitment. `ArbitraryPeer`, `ArbitraryHtlcs` and
`ArbitraryChecks` are about one node whose peer sends anything.
`Qchan` is the channel object itself, with fields updated in place and loops over HTLCs as in the
code; each method is proved to do what the step of the same name says. `StateHints` covers the index
hidden in a commitment.

**Elkrem** (`Elkrem.dfy`, `ElkremSerdes.dfy`). The log-size receiver against the plain list of every
hash accepted, and its byte form.

**Route finding** (`Graphs.dfy`, `BellmanFord.dfy`, `RouteTables.dfy`, `Routing.dfy`). Relaxation from a dummy vertex,
reweighting, and the lazy search, over real weights.

**The encrypted transport** (`Noise.dfy`, `NoiseSecrets.dfy`, `Transport.dfy`, `Lndc.dfy`). The handshake and the byte
stream with rotating keys; keys are symbolic terms and sealing is ideal.

**Codecs and arithmetic** (`Squasher.dfy`, `Checksum.dfy`, `ChecksumField.dfy`, `Bech32.dfy`,
`CompactBits.dfy`, `Difficulty.dfy`, `MultihopTimelocks.dfy`). `Numbers.dfy` and `Wrappers.dfy` hold what several parts share.

## Assumptions about honest runs

The runs of `ChannelTheorems` start from a funded channel. A caller starts an operation only with the
clear-to-send token, only for an amount that its own record says both sides can bear, and clears an
HTLC only when it is the one paid. It could check these. Two more it cannot: the peer is not clearing
the same HTLC, and both nodes see one block height. `ChannelLimits` shows when each operation goes
through without them: `PushExact` and `OfferExact` for amounts, `ClearExact` for two heights, and
`CollisionExact` for two operations that cross, whoever is paid and also for one HTLC cleared twice.

## What the code does differently from what it promises

- `PushChannel` checks `MyAmt - (Fee - amt)` (qln/pushpull.go:165): on the pusher's own side it refuses
  exactly when its amount less the fee plus the push is below the minimum output, so a push is never
  refused for being more than it can pay (`ChannelLimits.PushRefused`). The receiver's check at qln/pushpull.go:408-431 decides, and fails the
  channel.
- `OfferHTLC` does not check that the amount makes an output by itself (qln/htlc.go:56-90): an offer the
  payer can afford but that is too small fails the payer's own channel.
- In a collision, `SendGapSigRev` and `GapSigRevHandler` add every HTLC being cleared that pays this
  node, also one the peer is clearing and that was added already (qln/pushpull.go:527-531). Nothing
  goes wrong as long as only the paid party clears.
- After the locktime its offerer may time an HTLC out while its receiver presents the preimage. Each is
  paid by its own record; each handler then takes the peer's preimage (qln/htlc.go:673-680), and the
  channel fails (`ChannelLimits.RaceFails`). Neither can see it coming.
- A timeout that only the clearing node has reached is refused by its peer, which gives up its
  clear-to-send token and answers nothing (qln/htlc.go:602-623): both nodes then wait in vain.
- A node that has accepted a new state and revoked the old one keeps the old elkrem point until the next
  message (qln/pushpull.go:443-449), and `BreakChannel` drops what is under way (qln/break.go:34-43).
  Until then the commitment it puts on chain does not fit the saved signature, unless no HTLC is open
  and none was signed for (`ChannelBreaks.BreakExact`).
- `Clearing` stays set on cleared HTLCs, so once an HTLC has been cleared two crossing pushes are taken
  for a preimage collision (qln/pushpull.go:355-363). They still settle correctly.
- An elkrem descent returns a hash, not an error, for the index just before the subtree. The receiver
  never asks for it.
- A heap entry that is out of date still relaxes edges, from the current distance but with its own old
  amount (qln/routing.go:381-414). Once the search has left out an edge it can return a route on which the
  amount does not fit: with 200000 from vertex 0, edges 0-1 (weight 3), 0-2 (1), 2-1 (1, rate 2) and 1-3
  (0, capacity 300000) give 0-2-1-3, where 400000 arrive at 1 (`Routing.StaleEntry`).
- An empty `Write` ends the stream for the reader.
- The comment at qln/multihop.go:151 promises five blocks of leeway per hop. Rounding at the next node
  removes it: with one new block at each hop only the first half of a route is forwarded.
- The table of bech32 letters ends at 127 in a list of 256 entries (bech32/bech32.go:16-24), so a
  character from 128 to 255 is read as two symbols "q" instead of being refused.
- `BigToCompact` rounds the size of a negative number up; when that carries into a fourth byte the form
  is read back as zero. From 128 * 256^254 on the exponent wraps (coinparam/bits.go:62-98).

## Model

| member | source | states |
|---|---|---|
| ChannelTheorems.Agreement | qln/pushpull.go:260-587 | In every run of two honest nodes over FIFO links, whatever mix of pushes, offers and clears they start and however deliveries interleave, no call returns an error and no record is marked failed: each signature sent is the one the receiver rebuilds |
| ChannelTheorems.Progress | qln/pushpull.go:712-919 | Deliveries made plus deliveries the messages in flight still stand for equal three per operation started, collisions included, and something is in flight exactly while a party is not idle |
| ChannelTheorems.Settlement | qln/pushpull.go:947-1061 | With nothing in flight both nodes are at the same index, the number of operations started; Alice has exactly what those operations are worth to her; both amounts and the uncleared HTLCs add up to the capacity; the HTLC lists mirror each other and are numbered from 0 |
| ChannelTheorems.KeyWindows | qln/elkpoints.go:16-68 | At every moment of an honest run the three stored points are the peer's points r, r+1, r+2 with r the saved index or one less, the stored signature is the peer's for this node's commitment at the saved index, and the k-th commitment ever signed is for index k under point k, so no index is signed twice |
| ChannelTheorems.Justice | qln/pushpull.go:697-702 | In push-only runs every past state given to BuildJusticeSig, on the SigRev, Rev and both GapSigRev paths, is the state this node signed for its peer at that index |
| ChannelTheorems.RunKeeps | qln/pushpull.go:292-485 | The invariant behind the theorems: every reachable world is one of nine phases of the protocol, with records, links, books and signed commitments as that phase says |
| ChannelRuns.StartSimulates | qln/htlc.go:19-183 | Starting any affordable operation takes the net from the records and links of one phase to those of the next |
| ChannelRuns.DeliverSimulates | qln/pushpull.go:592-707 | Delivering the next message on either link takes the net from one phase to the next, without error, and yields the past state that phase predicts |
| ChannelBreaks.BreakExact | qln/break.go:12-47 | At any moment of any honest run BreakChannel's commitment carries the peer's signature if and only if the saved point is the current one, or no HTLC is open in the record and none is in the commitment last signed |
| ChannelBreaks.StaleBreaks | qln/buildtx.go:425-437 | While the point is still the one before, each HTLC output is made with the wrong key, and pending operations are missing from the commitment |
| ChannelBreaks.AnsweredBreaks | qln/pushpull.go:436-486 | A party that has answered an operation can close the channel on its own if and only if it was a push and every HTLC is cleared |
| ArbitraryPeer.NeverRevealsCurrent | qln/pushpull.go:923-942 | Against a peer that sends any messages at all, with any operations of its own, a node never sends an elkrem secret at or above its saved index, and the saved index never goes down |
| ArbitraryPeer.AlwaysBreaksSafely | qln/break.go:12-47 | On a channel where no HTLC is offered, whatever the peer sends, BreakChannel always has a commitment of its own at the saved index and amount, the peer's signature on exactly it, and has revealed no secret that revokes it |
| ArbitraryPeer.AlwaysIndexed | qln/pushpull.go:800-811 | Whatever the peer sends, HTLCs[i].Idx is i and HTLCIdx is the length of the list |
| ArbitraryHtlcs.DoLawful | qln/htlc.go:588-679 | One operation or message of any kind drops no HTLC and changes no terms; it marks only the HTLC it names, only if that was not cleared, and only with the preimage of its hash or, without one, at a height past its locktime; and it clears only what was marked |
| ArbitraryHtlcs.ClearedOnlyWhenDue | qln/htlc.go:606-627 | Whatever the peer sends, every HTLC with a preimage has the hash of that preimage, and every HTLC being cleared or cleared was asked for, in some step, with the preimage it holds, or with none when its locktime had passed at the height of that step |
| ArbitraryHtlcs.HtlcsKept | qln/htlc.go:602-604 | Whatever the peer sends, no HTLC is lost, its terms stay, and one that is cleared stays as it is |
| ArbitraryChecks.AlwaysCountersigned | qln/signtx.go:321-369 | Whatever the peer sends, with any HTLCs, the stored signature is the peer's, on a commitment of this node at the saved index that pays it the saved amount |
| ArbitraryChecks.WrongSecretRefused | qln/elkpoints.go:70-112 | A SigRev, GapSigRev or Rev whose secret does not open the stored point changes nothing but the failed flag |
| ArbitraryChecks.RestUnmoved | qln/pushpull.go:733-747 | With nothing under way a SigRev or Rev changes nothing but the failed flag, whatever its secret and signature |
| ArbitraryChecks.NoGapUnmoved | qln/pushpull.go:607-616 | A GapSigRev changes nothing but the failed flag unless two operations have crossed |
| ArbitraryChecks.WaitingUnmoved | qln/pushpull.go:384-394 | While a node that has accepted a push waits for the revocation, a DeltaSig, PreimageSig or SigRev changes nothing, and at most the last revocation is sent again |
| ArbitraryChecks.PushingUnmoved | qln/pushpull.go:970-974 | While a node's own push is under way a Rev changes nothing |
| ArbitraryChecks.ClosedUnmoved | qln/htlc.go:215-219 | On a closed channel a DeltaSig, HashSig or PreimageSig is refused, answered by nothing, and changes nothing |
| ArbitraryChecks.ClosedStaysClosed | qln/break.go:23-28 | A closed channel is not put on chain again |
| ArbitraryChecks.FailedStartsNothing | qln/htlc.go:22-24 | On a failed channel no operation starts, and the node keeps its token |
| ArbitraryChecks.BusyStartsNothing | qln/htlc.go:84-90 | With a push under way, or an HTLC when an HTLC is started, no operation starts |
| ArbitraryChecks.RefusedKeepsToken | qln/htlc.go:71-82 | An operation that is refused leaves the node as it was, token included, unless the channel fails or a push cannot be signed |
| ArbitraryChecks.RevocationsInRange | qln/pushpull.go:555-588 | Every revocation names a secret, and a point two states on, that the elkrem tree of 2^48-1 hashes has; beyond it none is sent |
| ArbitraryChecks.HashSigBounded | qln/htlc.go:269-290 | A HashSig for less than the minimum output, or for more than what the peer has outside HTLCs less the minimum output, is refused whatever its signature |
| ArbitraryChecks.DeltaSigBounded | qln/pushpull.go:396-431 | A DeltaSig that is not positive or does not leave both sides their minimum output and fee is refused whatever its signature |
| ChannelIndices.ReceiveIndexed | qln/htlc.go:321-345 | Every handler, for every message, keeps the HTLC list numbered and the HTLCs under way at the next indices, crossing offers included |
| ChannelLedger.ApplyValid | qln/pushpull.go:403-431 | One affordable operation keeps the capacity: amounts and open HTLCs add up, and no side falls below its minimum output |
| ChannelLedger.ApplyBothValid | qln/pushpull.go:509-531 | So do two crossing operations that are each affordable alone |
| ChannelLedger.ApplyBothSymmetric | qln/htlc.go:321-331 | Both sides compute the same outcome of a collision, whichever order their base points give two crossing HTLCs |
| ChannelLedger.ApplyBothIsSequential | qln/pushpull.go:489-531 | The outcome of a collision is that of doing the two operations one after the other, in the order the base points decide |
| ChannelLedger.BuildDepicts | qln/buildtx.go:131-276 | The two parties, each from its own record, build the same commitment transaction: the one of the ledger both records depict |
| ChannelLedger.SignaturesMatch | qln/signtx.go:159-206 | A record that depicts a ledger signs the peer's commitment of that ledger and accepts exactly the peer's signature on its own |
| ChannelCommits.Conservation | qln/buildtx.go:150-191 | Every commitment that is built pays each party its amount less the fee, or nothing if that is not above the fee; and with both amounts not negative its two outputs, all HTLC outputs, and one fee for each party that has anything add up to the capacity |
| ChannelCommits.NeverOverpays | qln/buildtx.go:150-191 | When neither amount is negative the outputs together never exceed the capacity |
| ChannelCommits.BuiltExact | qln/buildtx.go:193-276 | A commitment is built if and only if the index is in range, neither amount makes dust, no HTLC in it is below the minimum output and fee, and it has an output |
| ChannelCommits.SignedReading | qln/htlc.go:613-617 | A locktime is compared as the signed number with the same 32 bits |
| ChannelHonest.StartsPush | qln/pushpull.go:111-287 | A push started at rest saves only the delta and sends the signature for the next ledger |
| ChannelHonest.StartsOffer | qln/htlc.go:19-183 | An HTLC offered at rest is saved in progress and sent with the signature for the next ledger |
| ChannelHonest.StartsClear | qln/htlc.go:395-550 | An HTLC cleared at rest is marked and sent with the signature for the next ledger |
| ChannelHonest.AcceptsPush | qln/pushpull.go:292-485 | At rest a DeltaSig is accepted and answered with the signature and revocation the pusher expects |
| ChannelHonest.AcceptsOffer | qln/htlc.go:185-393 | At rest a HashSig is accepted and answered likewise |
| ChannelHonest.AcceptsClear | qln/htlc.go:552-747 | At rest a PreimageSig is accepted and answered likewise |
| ChannelHonest.ClosesWithRev | qln/pushpull.go:712-919 | SigRev ends the operation for the party that started it: it is at rest with the new ledger and revokes the old state |
| ChannelHonest.SettlesGot | qln/pushpull.go:947-1061 | Rev ends it for the other party |
| ChannelCollisions.CrossesPush | qln/pushpull.go:332-373 | A DeltaSig that meets an operation already started, of any kind, is verified against the record without it and leads to the gap state |
| ChannelCollisions.CrossesOffer | qln/htlc.go:226-363 | A HashSig that meets an operation already started does the same, with the two HTLCs put in the order of the base points |
| ChannelCollisions.CrossesClear | qln/htlc.go:651-715 | A PreimageSig that meets an operation already started does the same |
| ChannelCollisions.GapAnswers | qln/pushpull.go:489-552 | The GapSigRev sent from the gap state signs the commitment with both operations in it |
| ChannelCollisions.LeavesGap | qln/pushpull.go:592-707 | GapSigRev is verified against the state with both operations, moves the index by one more, and is answered with the revocation of the gap state |
| ChannelCollisions.SettlesBoth | qln/pushpull.go:978-1033 | The Rev that ends a collision appends both HTLCs in order and leaves the record at rest |
| ChannelLimits.GapAnswerExact | qln/pushpull.go:527-531 | In a collision of any two valid operations the GapSigRev is made and accepted if and only if each HTLC being cleared pays the party that clears it and the two do not clear the same one: otherwise a payment is counted twice, or one party's record takes the HTLC for the other's |
| ChannelLimits.CollisionExact | qln/pushpull.go:592-707 | All six deliveries of a collision succeed under that same condition and no other, and then both parties are at rest with both operations applied |
| ChannelLimits.RaceFails | qln/htlc.go:673-680 | When the offerer times an HTLC out while the receiver presents its preimage, each is paid by its own record and the exchange fails |
| ChannelLimits.RaceExample | qln/htlc.go:552-747 | Such a race can happen: on this ledger both clears are valid at once |
| ChannelLimits.PushExact | qln/pushpull.go:164-166 | A push of any amount from rest goes through if and only if it is positive and below the largest amount, the pusher can pay it, and both sides keep a sufficient output; the receiver decides this |
| ChannelLimits.PushRefused | qln/pushpull.go:111-178 | A push at rest is refused, with the node as it was, if and only if it is not positive, not below the largest amount, or too small: the pusher's amount less the fee plus the push, or its peer's, is below the minimum output |
| ChannelLimits.OverdrawnPush | qln/pushpull.go:165-178 | PushChannel's own check adds the amount: a push of more than the pusher has is sent, and the peer marks the channel failed |
| ChannelLimits.OfferExact | qln/htlc.go:56-90 | An offer of any amount from rest goes through if and only if the amount is below the largest, makes an output of its own after the fee, and leaves one to the party that offers it |
| ChannelLimits.SmallOffer | qln/buildtx.go:131-276 | An affordable offer too small for an output passes OfferHTLC's checks, is not signed, and fails the channel of the party that made it |
| ChannelLimits.ClearExact | qln/htlc.go:395-499 | A clear from rest goes through if and only if the HTLC is there and open and its preimage fits or, for a timeout, its locktime has passed at the heights of both nodes |
| ChannelLimits.EarlyClear | qln/htlc.go:552-623 | A timeout the peer has not reached leaves both nodes without the clear-to-send token and nothing in flight |
| Qchan.Qchan.PushChannel | qln/pushpull.go:111-223 | The whole effect of starting a push: saved record, token, message, error |
| Qchan.Qchan.OfferHTLC | qln/htlc.go:19-129 | The whole effect of offering an HTLC |
| Qchan.Qchan.ClearHTLC | qln/htlc.go:395-499 | The whole effect of clearing an HTLC, with the height and preimage checks |
| Qchan.Qchan.DeltaSigHandler | qln/pushpull.go:292-486 | The handler's field-by-field updates leave the node, the outbox and the error that the protocol step says, for every record and message |
| Qchan.Qchan.HashSigHandler | qln/htlc.go:185-393 | The same for an incoming HTLC, with its loops over clearing HTLCs |
| Qchan.Qchan.PreimageSigHandler | qln/htlc.go:552-747 | The same for an HTLC being cleared |
| Qchan.Qchan.SigRevHandler | qln/pushpull.go:712-920 | The same for SigRev, with the past state stashed for justice |
| Qchan.Qchan.GapSigRevHandler | qln/pushpull.go:592-708 | The same for GapSigRev |
| Qchan.Qchan.RevHandler | qln/pushpull.go:947-1061 | The same for Rev |
| Qchan.Qchan.FailChannel | qln/pushpull.go:1064-1068 | Only the failed flag of the saved record changes, and the record in RAM is the saved one |
| Qchan.Qchan.SendDeltaSig | qln/pushpull.go:260-287 | The message signs the state after the push; nothing is saved |
| Qchan.Qchan.SendHashSig | qln/htlc.go:160-183 | The message signs the state with the new HTLC; nothing is saved |
| Qchan.Qchan.SendPreimageSig | qln/htlc.go:527-550 | The message signs the state without the HTLC; nothing is saved |
| Qchan.Qchan.SendSigRev | qln/pushpull.go:555-588 | Signs the accepted state and reveals the one before; nothing is saved |
| Qchan.Qchan.SendGapSigRev | qln/pushpull.go:489-552 | Signs one state beyond the gap and reveals the one before it; nothing is saved |
| Qchan.Qchan.SendREV | qln/pushpull.go:923-942 | Reveals the state before the saved one |
| Qchan.Qchan.BuildStateTxs | qln/buildtx.go:131-276 | The loops over HTLCs and the amount checks build the commitment that the other functions speak of, or refuse it |
| Qchan.Qchan.GetChannelBalances | qln/lnchannels.go:275-288 | Both balances outside uncleared HTLCs |
| Qchan.Qchan.SignState | qln/signtx.go:159-206 | A signature on the peer's commitment of the record in RAM |
| Qchan.Qchan.VerifySigs | qln/signtx.go:321-369 | Succeeds exactly for the peer's signature on this node's commitment, which it then keeps |
| Qchan.Qchan.AdvanceElkrem | qln/elkpoints.go:54-112 | Accepts exactly the secret of the stored point (any secret at index 0) and moves the three points down |
| Qchan.Qchan.BreakChannel | qln/break.go:12-66 | Puts on chain the commitment of the saved record with nothing under way, with the stored signature, and marks the channel closed |
| StateHints.HintFound | qln/buildtx.go:20-69 | A 48-bit state index hidden in a commitment is found again if and only if the mask has at most 48 bits, apart from index 0 under a larger mask |
| StateHints.HintUnique | qln/buildtx.go:48-69 | Different indices never leave the same hint |
| Elkrem.DescentExact | elkrem/elkrem.go:62-80 | Descending from a node yields exactly the hashes of its subtree in post-order; it also yields one for the index just before, and fails for every other |
| Elkrem.Descend | elkrem/elkrem.go:62-80 | The loop computes the descent, with 64-bit wrap-around |
| Elkrem.ElkremSender.AtIndex | elkrem/elkrem.go:96-99 | The w-th hash of the tree in post-order for every w up to 2^48-2, an error beyond |
| Elkrem.ElkremReceiver.AddNext | elkrem/elkrem.go:103-128 | An accepted hash is appended to the list of all hashes; a rejected one changes nothing |
| Elkrem.ElkremReceiver.AtIndex | elkrem/elkrem.go:131-148 | The w-th hash ever accepted, for every w up to the last, and an error beyond |
| Elkrem.ElkremReceiver.UpTo | elkrem/elkrem.go:151-156 | The index of the last hash accepted |
| Elkrem.AddedKeeps | elkrem/elkrem.go:110-127 | A merge or push keeps the stack well formed and the list it stands for grows by the new hash |
| Elkrem.LookupRefines | elkrem/elkrem.go:131-148 | The logarithmic stack refines the list of all hashes |
| Elkrem.ReceivedIsKept | elkrem/elkrem.go:103-148 | For any sequence of hashes that AddNext accepts, from an honest sender or not, AtIndex gives each of them back and nothing else |
| Elkrem.NextFits | elkrem/elkrem.go:110-127 | The next hash of a tree is accepted on top of the canonical stack and gives the next canonical stack |
| Elkrem.HonestAccepted | elkrem/elkrem.go:36-37 | No hash of an honest sender is rejected over the whole range of 2^48-1, and the receiver then holds at most 48 nodes |
| Elkrem.StackBounds | elkrem/serdes.go:26-30 | Any receiver with at most 2^48-1 hashes has at most 48 nodes, none above height 47, in falling heights |
| ElkremSerdes.ToBytes | elkrem/serdes.go:20-65 | Written out with the count in front unless there are more than 48 nodes; the count is one byte, so 256 nodes would be written as none |
| ElkremSerdes.FromBytes | elkrem/serdes.go:67-122 | Accepts exactly the bytes of receivers that pass the sanity checks, and returns the one they represent |
| ElkremSerdes.OneReceiver | elkrem/serdes.go:79-120 | Bytes represent at most one sane receiver |
| ElkremSerdes.SaveAndRestore | elkrem/serdes.go:20-122 | Saving and loading a receiver never fails and changes nothing |
| Numbers.BigEndianAt | elkrem/serdes.go:36-45 | Each byte is a digit to the base of 256, high digit first |
| Graphs.Shorten | qln/routing.go:307-324 | Without negative cycles every walk can be cut to fewer edges than there are vertices at no cost |
| Graphs.ReweightedWalk | qln/routing.go:333-336 | Reweighting changes the weight of a walk only by a term of its ends |
| Graphs.ReweightedNonNegative | qln/routing.go:333-336 | All reweighted edges are non-negative |
| Graphs.FeasibleMeansNone | qln/routing.go:326-331 | Distances that no edge improves rule out negative cycles |
| BellmanFord.Relax | qln/routing.go:287-324 | After the rounds, or an early end, either nothing is left to relax or no walk of as many edges as vertices is shorter than its distance |
| BellmanFord.FindPotential | qln/routing.go:287-331 | A negative cycle is reported if and only if the channel graph has one; otherwise the distances are a potential |
| RouteTables.WrapExact | qln/routing.go:393-406 | Amounts are kept up to a multiple of 2^64, whole when 64 bits hold them |
| RouteTables.QuotientFloors | qln/routing.go:398-399 | Dividing by the rate of a reciprocal edge rounds down for amounts that are not negative |
| RouteTables.QuotientOdd | qln/routing.go:398-399 | For negative ones it rounds toward zero |
| RouteTables.ThereAndBack | qln/routing.go:393-406 | An exchange into coins of less worth is undone exactly by the one back at the same rate, as long as 64 bits hold the amount |
| RouteTables.BackAndThere | qln/routing.go:393-406 | The other way round less than one coin of the greater worth is lost |
| RouteTables.TakenOk | qln/routing.go:408-424 | Taking an edge keeps every distance the weight of a simple walk and the predecessors free of cycles, zero-weight cycles included |
| RouteTables.TakenDescends | qln/routing.go:408-424 | Each update uses up one of finitely many possible distances, so the search ends |
| Routing.Pop | qln/heap.go:24-51 | A nearest entry is taken off and the rest stay |
| Routing.Explore | qln/routing.go:374-425 | All usable edges of the vertex popped are relaxed, from its current distance and the entry's possibly stale amount; every edge taken can carry what some walk leaves; and the ghost result `excluded` tells whether one that would have bettered a distance was left out |
| Routing.Search | qln/routing.go:342-425 | The search ends with sound tables in which each vertex is reached by an edge that carries; unless an edge that would have bettered a distance was excluded, every edge is relaxed and each vertex's walk delivers along itself; none is excluded when every walk without a repeated vertex keeps the amount usable |
| Routing.ReadRoute | qln/routing.go:439-442 | Following the predecessors comes to an end, at the origin |
| Routing.ChainRoute | qln/routing.go:408-442 | The chain of predecessors is the vertices of a walk of listed edges that weighs no more than the target's distance, and each of which can take what some walk to its start leaves of the amount |
| Routing.StraightRoute | qln/routing.go:408-442 | When nothing was left out the chain is the walk behind the distance, and each edge can take what the route itself leaves before it |
| Routing.Nearest | qln/routing.go:408-420 | With every edge relaxed the distances are least |
| Routing.PopClean | qln/routing.go:363-414 | As long as nothing has been left out the entry popped is up to date, or its vertex has nothing left to relax |
| Routing.CurrentUsable | qln/routing.go:374-399 | The amount of such an entry is what a walk without a repeated vertex leaves |
| Routing.CarriesWhole | qln/routing.go:381-391 | If no edge changes the amount, each edge of a route found has a known coin and capacity for all of the amount, which is above the minimum output and fee |
| Routing.StaleEntry | qln/routing.go:381-414 | An entry that is out of date takes an edge that its vertex's own amount does not fit |
| Routing.FindPath | qln/routing.go:277-446 | Ends on every graph; reports a negative cycle exactly when there is one; every route is a walk of listed edges from origin to target, each of which can take what some walk to its start leaves of the amount; unless the search excluded an edge that would have bettered a distance the route is the lightest, delivers the amount along itself, and no route means there is no walk; and it excludes none when every walk without a repeated vertex keeps the amount usable, lossy exchange cycles or not |
| Noise.HandshakeMirrors | lndc/noise.go:412-667 | After three acts delivered unchanged both machines have mirrored ciphers, know each other's static keys, and start at nonce zero under two different keys |
| Noise.ActOneExact | lndc/noise.go:440-467 | The tag of act one fits no other ephemeral key |
| Noise.ActTwoExact | lndc/noise.go:511-555 | The tag of act two fits no other pair of keys |
| Noise.ActThreeExact | lndc/noise.go:590-631 | The tag of act three fits no other sealed static key and no other version |
| Noise.AfterRotations | lndc/noise.go:81-154 | After k messages the key has been rotated k/1000 times and the nonce is k mod 1000 |
| Noise.NoncesUnique | lndc/noise.go:136-154 | No key and nonce are used together twice on a stream, and the nonce stays below the rotation interval |
| Transport.NonceUsedOnce | lndc/noise.go:81-154 | In any run of Writes and Reads no two texts are sealed under the same key and nonce, and the cipher ends in the state after exactly the records written |
| Noise.StreamsApart | lndc/noise.go:638-667 | The two directions never share a key |
| NoiseSecrets.SessionSecret | lndc/noise.go:186-205 | The keys of an honest connection can be computed if and only if one has a private key out of each of the three pairs combined: the two ephemeral keys, and each static key with the other side's ephemeral key |
| NoiseSecrets.SessionsApart | lndc/noise.go:412-667 | Two honest handshakes end with the same key only if they used the same four keys |
| NoiseSecrets.ActThreeAuthentic | lndc/noise.go:590-631 | Whoever made an act three that is accepted under a name has the private key of that name, or the responder's ephemeral key |
| NoiseSecrets.ActTwoAuthentic | lndc/noise.go:511-555 | Likewise for act two and the responder's name |
| NoiseSecrets.PastKeysSafe | lndc/noise.go:136-154 | Stealing the whole cipher state after a rotation gives away no key from before it |
| Transport.RecordReads | lndc/noise.go:673-726 | A record is read back whole whatever follows it |
| Transport.OutOfOrderFails | lndc/noise.go:99-112 | A record opens only at its own place in the stream: one that was repeated, left out or moved makes the read fail, across any number of rotations |
| Transport.ChunksWhole | lndc/conn.go:145-176 | The chunks of a write put together are what was written, and none is empty unless the write was |
| Transport.ReadCarries | lndc/conn.go:120-138 | A Read keeps the stream in order, and returns EOF if and only if the record it takes is empty |
| Transport.StreamFaithful | lndc/conn.go:120-176 | For any Writes and Reads in any order, across any number of key rotations, no Read fails, the bytes read are a prefix of those written, and the two ciphers coincide once the wire is drained; without empty Writes no Read returns EOF |
| Transport.EmptyWriteEnds | lndc/conn.go:129-137 | An empty Write makes the Read that takes it return EOF even when more has been written |
| Lndc.CipherState.Encrypt | lndc/noise.go:81-94 | Seals under the current key and nonce, then moves on and rotates every thousandth time |
| Lndc.CipherState.Decrypt | lndc/noise.go:99-112 | Opens only what was sealed under the same key, nonce and data, and moves on either way |
| Lndc.CipherState.RotateKey | lndc/noise.go:136-154 | Key and salt are the two halves derived from the old ones |
| Lndc.Machine.GenActOne | lndc/noise.go:412-434 | The step by step updates of the machine are those of the act, with its failures |
| Lndc.Machine.RecvActOne | lndc/noise.go:440-467 | The step by step updates of the machine are those of the act, with its failures |
| Lndc.Machine.GenActTwo | lndc/noise.go:472-506 | The step by step updates of the machine are those of the act, with its failures |
| Lndc.Machine.RecvActTwo | lndc/noise.go:511-555 | The step by step updates of the machine are those of the act, with its failures |
| Lndc.Machine.GenActThree | lndc/noise.go:563-584 | The step by step updates of the machine are those of the act, with its failures |
| Lndc.Machine.RecvActThree | lndc/noise.go:590-631 | The step by step updates of the machine are those of the act, with its failures |
| Lndc.Machine.Split | lndc/noise.go:638-667 | Send and receive ciphers are set up according to the role |
| Lndc.Machine.WriteMessage | lndc/noise.go:673-701 | Appends one record, or refuses more than 65535 bytes |
| Lndc.Machine.ReadMessage | lndc/noise.go:705-726 | Takes one record off the wire |
| Lndc.RunHandshake | lndc/conn.go:37-106 | Dial goes through if and only if the key it meets hashes to the address given; then both machines are mirrored, under keys that need a private key out of each pair, and otherwise the listener never gets its keys |
| Lndc.Conn.Write | lndc/conn.go:145-176 | All bytes go out, in records of at most 65535 bytes |
| Lndc.Conn.Read | lndc/conn.go:120-138 | Bytes come out of the buffer, refilled from the next record, as the stream says |
| Squasher.ByteSquasher | bech32/bech32.go:44-60 | The loop keeps every bit: the input's bits are the output's followed by those still stashed; it stops at a byte that is too wide |
| Squasher.Bytes8to5 | bech32/bech32.go:28-67 | Never refused; the same bits, padded with fewer than five zeros |
| Squasher.Bytes5to8 | bech32/bech32.go:35-72 | Accepts exactly what some bytes squash to, and returns those bytes |
| Squasher.SquashesOneToOne | bech32/bech32.go:44-73 | Squashing and unsquashing are inverse and single-valued |
| Checksum.PolyMod | bech32/bech32.go:104-125 | The two loops compute the checksum polynomial |
| Checksum.HRPExpand | bech32/bech32.go:128-145 | High bits, a zero, low bits |
| Checksum.CreateChecksum | bech32/bech32.go:148-165 | Six squashed symbols that make the whole pass the check, for any data |
| Checksum.VerifyChecksum | bech32/bech32.go:167-172 | True exactly when the checksum is one |
| Checksum.FoldLinear | bech32/bech32.go:104-125 | The checksums of two lists differ by the checksum of their difference |
| Checksum.NullsInjective | bech32/bech32.go:114-122 | Adding zeros to a checksum loses nothing: the generator is invertible |
| Checksum.ChecksumPasses | bech32/bech32.go:148-172 | Every checksum made passes |
| Checksum.BurstDetected | bech32/bech32.go:104-172 | Two accepted strings of equal length under one human readable part that differ only within six consecutive symbols are identical, for any length |
| ChecksumField.GeneratorSymbols | bech32/bech32.go:107-109 | Generator word i is 2^i times the polynomial 29, 22, 20, 21, 29, 18 over the field of 32 elements, symbol by symbol (section "Checksum" of BIP-173) |
| ChecksumField.StepIsRemainder | bech32/bech32.go:114-122 | One step takes the remainder modulo that polynomial: the symbol that falls out is replaced by its multiple of the rest |
| ChecksumField.PassesBySymbols | bech32/bech32.go:167-172 | A string passes if and only if the remainder of its symbols, behind a leading 1, is 1 |
| ChecksumField.ExpandedBack | bech32/bech32.go:128-145 | The human readable part can be read back from its expansion, with a zero between its two halves |
| Bech32.SquashedBytesToString | bech32/bech32.go:76-85 | Letters for squashed data, refused otherwise |
| Bech32.StringToSquashedBytes | bech32/bech32.go:89-98 | Letters of either case back to symbols, refused exactly when no symbols have these letters; two symbols "q" for a character from 128 to 255 |
| Bech32.SpelledAscii | bech32/bech32.go:14-24 | A string is read as itself, up to case, if and only if it is ASCII |
| Bech32.ReadAlike | bech32/bech32.go:14-24 | A character from 128 to 255 is read like "qq" wherever it stands |
| Bech32.LetterBack | bech32/bech32.go:11-24 | The inverse table gives back every symbol from its letter |
| Bech32.EncodeSquashed | bech32/bech32.go:185-194 | A string of the form hrp, separator, letters with a checksum that fits; the empty string for unsquashed data |
| Bech32.Encode | bech32/bech32.go:176-179 | The encoding of these bytes under this human readable part |
| Bech32.DecodeSquashed | bech32/bech32.go:213-252 | Succeeds exactly for strings of one case with a separator, known letters and a checksum that fits |
| Bech32.Decode | bech32/bech32.go:199-209 | Succeeds exactly for strings that, lower-cased, encode some bytes under some human readable part |
| Bech32.RoundTrip | bech32/bech32.go:176-252 | Decoding what was encoded gives back the human readable part and the bytes, for every lower-case ASCII part and all bytes |
| CompactBits.CompactToBig | coinparam/bits.go:30-56 | The number a compact form stands for, sign included |
| CompactBits.BigToCompact | coinparam/bits.go:62-98 | For every number, exponent and three leading bytes, normalised so that the sign bit stays clear, with the exponent taken modulo 256; a negative number is shifted rounding its size up, and carries the sign bit |
| CompactBits.RoundsDown | coinparam/bits.go:30-98 | Read back, a number is positive, not larger, and short by less than one part in 2^15 if and only if it is below 128 * 256^254 |
| CompactBits.NegativeExact | coinparam/bits.go:62-98 | A negative number of at most 254 bytes is read back within one part in 2^15, or as zero exactly when its three leading bytes are all ones and something follows |
| CompactBits.Monotone | coinparam/bits.go:62-98 | Larger numbers have larger compact forms, below 128 * 256^254 |
| CompactBits.Idempotent | coinparam/bits.go:30-98 | Writing, reading and writing again gives the same form |
| CompactBits.ReadsMonotone | coinparam/bits.go:30-98 | What is read back keeps the order of the numbers written |
| Difficulty.CalcDiffAdjustBitcoin | coinparam/difficulty.go:17-47 | For any previous bits the new target is the previous one times the time from start to end, held between the timespan over the factor and the timespan times the factor, over the timespan, rounded down, or the limit if that is smaller, in compact form; read back it is never above the limit, nor above the factor times the previous one |
| Difficulty.LongerIsEasier | coinparam/difficulty.go:19-42 | A longer epoch never gives a smaller target |
| Difficulty.OnSchedule | coinparam/difficulty.go:19-47 | An epoch that took the timespan leaves the bits as they are |
| MultihopTimelocks.CheckedStep | qln/multihop.go:270-282 | The check passes exactly when two lock times are left, and then the forwarded HTLC keeps one on each side |
| MultihopTimelocks.ForwardsExact | qln/multihop.go:149-282 | For any heights at the sender and at both chains of every forwarding node, the first k nodes all forward if and only if the whole lock times in front of the first node cover one for each node up to each of them, one more, and those that new blocks take away, rounded up at every hop; the k-th locktime is then known exactly |
| MultihopTimelocks.RisingForwards | qln/multihop.go:149-282 | When no node sees a lower height than the one before it, the condition at the k-th node alone decides |
| MultihopTimelocks.RouteForwards | qln/multihop.go:149-152 | On a route of any length at one height every check passes and each HTLC expires a lock time before the one that funds it |
| MultihopTimelocks.LeewayLost | qln/multihop.go:151-152 | The five blocks of leeway per hop do not help: with one new block at each hop the first k nodes of a path of n forward if and only if 2k is at most n + n/100 |

## Left out

- ReSendMsg, which nothing calls.
- The Data field and its copies in messages; logging, events, and an event that cannot be published, which leaves `SigRevHandler` without clearing the channel to send.
- Second-stage HTLC transactions and their signatures (qln/buildtx.go:283-355 and the HTLC loops of qln/signtx.go): the index tests count cleared HTLCs that are skipped when outputs are built. Commitment outputs only.
- KeyGen paths, scripts, outpoints, the confirmation check and wallets that are not connected: every wallet call succeeds.
- Errors of loading and saving; a record is copied whole, and no other handler runs in between.
- The record of a channel as an object shared by reference: `Qchan` holds the record as a value, so what sharing one HTLC object in two places does is not captured.
- Different fees on the two sides: the code assumes them equal.
- Wrap-around of 64-bit amounts and of 32-bit deltas, and HTLC counts above 2^31.
- The elkrem receiver inside the channel: loading a channel starts an empty one (qln/serdes.go:63-64), so it never rejects there. It is proved on its own.
- The 60 second timeout as time; in `ArbitraryPeer` it may strike at any moment.
- SetHTLCClearedOnChain and claims on chain; ClaimHTLC started by a PreimageSig.
- ArbitraryPeer.AlwaysBreaksSafely: channels on which no HTLC is offered; with HTLCs it is false, and `ChannelBreaks` has the exact condition for two honest nodes.
- ChannelTheorems.Justice: pushes only, because only the index and the amount are rewound before the signature is built, not the HTLCs.
- SimpleCloseTx, GetChanHint and GetKeysFromState: keys of an output are named by the points they come from.
- Fewer than six symbols that pass the checksum: the code panics when it cuts the checksum off, the model refuses them.
- Bech32.DecodeSquashed: strings in ASCII; the case of other letters follows Unicode tables that are not part of this model.
- Bech32.Decode: strings in ASCII, likewise.
- Bech32.StringToSquashedBytes: characters up to 255, where the code's table ends and its index panics.
- Segwit addresses.
- Elkrem.ElkremReceiver.AtIndex: an empty list of nodes that is not nil makes the code index it out of range; the model returns an error.
- Building the graph from the channel map, weights as floating point numbers, the predecessors kept during relaxation and thrown away after it, and the heap library: `Routing.Pop` takes some nearest entry.
- A rate of zero in a reciprocal edge, which divides by zero.
- Handshake timeouts and network errors; curve points and hashes that collide. A read that has to wait for bytes is modelled as one that has not happened yet.
- Other difficulty rules (Kimoto Gravity Well), which use floating point.
- MultihopTimelocks.ForwardsExact: heights and paths for which no locktime overflows; path lookup, state and messages of multihop payments are not modelled.
