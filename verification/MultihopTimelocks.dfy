/** Locktimes along a multihop route (qln/multihop.go:149-152, 266-282).  Locktimes are
    unsigned 32-bit numbers and wrap; heights are signed. */
module MultihopTimelocks {

  const DEFAULT_LOCK_TIME: nat := 500

  /** The heights a forwarding node sees when the payment reaches it: of the chain it is
      paid on, and of the chain it pays on. */
  datatype Stop = Stop(incoming: nat, outgoing: nat)

  /** A payment: the height the sender sees, the number of nodes on its path, and the
      nodes that forward it. */
  datatype Payment = Payment(height: nat, pathLength: nat, stops: seq<Stop>)

  function U32(x: int): (r: nat)
    ensures r < 0x1_0000_0000
    ensures 0 <= x < 0x1_0000_0000 ==> r == x
  {
    x % 0x1_0000_0000
  }

  // ------------------------------------------------------------- the code

  /** The sender's locktime: five blocks of leeway for every node of the path. */
  function InitialLocktime(height: nat, pathLength: nat): nat {
    U32(height + pathLength * (DEFAULT_LOCK_TIME + 5))
  }

  /** Is the HTLC that funds this hop too close to its end? */
  predicate TooClose(prev: nat, s: Stop) {
    U32(prev - DEFAULT_LOCK_TIME) < U32(s.incoming + DEFAULT_LOCK_TIME)
  }

  /** The locktime a node gives the HTLC it forwards. */
  function ForwardedLocktime(prev: nat, s: Stop): nat {
    U32((U32(prev - s.incoming) / DEFAULT_LOCK_TIME - 1) * DEFAULT_LOCK_TIME + s.outgoing)
  }

  /** The locktime after k nodes have forwarded. */
  function LocktimeAt(p: Payment, k: nat): nat
    requires k <= |p.stops|
  {
    if k == 0 then InitialLocktime(p.height, p.pathLength)
    else ForwardedLocktime(LocktimeAt(p, k - 1), p.stops[k - 1])
  }

  /** The checks of the first k forwarding nodes pass. */
  predicate Forwards(p: Payment, k: nat)
    requires k <= |p.stops|
  {
    forall j :: 0 <= j < k ==> !TooClose(LocktimeAt(p, j), p.stops[j])
  }

  // ------------------------------------------------- what decides a payment

  /** The height at which the j-th locktime was set. */
  function SetAt(p: Payment, j: nat): nat
    requires j <= |p.stops|
  {
    if j == 0 then p.height else p.stops[j - 1].outgoing
  }

  /** Whole lock times the first forwarding node finds in front of it. */
  function Budget(p: Payment): int
    requires p.stops != []
  {
    (p.pathLength * (DEFAULT_LOCK_TIME + 5) - (p.stops[0].incoming - p.height)) / DEFAULT_LOCK_TIME
  }

  /** Lock times, rounded up, that new blocks take away between forwarding nodes up to
      the k-th. */
  function Lost(p: Payment, k: nat): int
    requires k <= |p.stops|
  {
    if k <= 1 then 0
    else Lost(p, k - 1) + (p.stops[k - 1].incoming - SetAt(p, k - 1) + DEFAULT_LOCK_TIME - 1) / DEFAULT_LOCK_TIME
  }

  /** The sum of the heights at which the first locktimes were set. */
  function Heights(p: Payment, k: nat): nat
    requires k <= |p.stops|
  {
    SetAt(p, k) + if k == 0 then 0 else Heights(p, k - 1)
  }

  /** The forwarding nodes lie between sender and receiver, and heights are so far below
      2^31 that no locktime can overflow. */
  predicate InRange(p: Payment) {
    && |p.stops| + 2 <= p.pathLength
    && p.pathLength * (DEFAULT_LOCK_TIME + 5) + Heights(p, |p.stops|) < 0x8000_0000
    && forall s <- p.stops :: s.incoming < 0x8000_0000
  }

  lemma {:induction false} HeightsGrow(p: Payment, j: nat, k: nat)
    requires j <= k <= |p.stops|
    ensures Heights(p, j) <= Heights(p, k)
    decreases k
  {
    if j < k { HeightsGrow(p, j, k - 1); }
  }

  // ---------------------------------------------------------------- one node

  /** A check passes exactly when two lock times are left, and then a full one is left
      on both sides. */
  lemma CheckedStep(prev: nat, s: Stop)
    requires DEFAULT_LOCK_TIME <= prev < 0x8000_0000 && s.incoming < 0x8000_0000
    ensures !TooClose(prev, s) <==> prev >= s.incoming + 2 * DEFAULT_LOCK_TIME
    ensures !TooClose(prev, s) && s.outgoing + prev < 0x1_0000_0000 ==>
      && ForwardedLocktime(prev, s) == ((prev - s.incoming) / DEFAULT_LOCK_TIME - 1) * DEFAULT_LOCK_TIME + s.outgoing
      && s.outgoing + DEFAULT_LOCK_TIME <= ForwardedLocktime(prev, s)
      && ForwardedLocktime(prev, s) - s.outgoing <= prev - s.incoming - DEFAULT_LOCK_TIME
  {}

  /** What is left when the k-th node takes its turn: the budget, less one for each node
      before it, less what new blocks have taken. */
  lemma Left(p: Payment, k: nat)
    requires InRange(p) && 1 <= k <= |p.stops|
    requires LocktimeAt(p, k - 1)
          == if k == 1 then p.height + p.pathLength * (DEFAULT_LOCK_TIME + 5)
             else SetAt(p, k - 1) + DEFAULT_LOCK_TIME * (Budget(p) - (k - 1) - Lost(p, k - 1))
    ensures (LocktimeAt(p, k - 1) - p.stops[k - 1].incoming) / DEFAULT_LOCK_TIME == Budget(p) - (k - 1) - Lost(p, k)
  {}

  /** When a payment gets through: all checks of the first k forwarding nodes pass if and
      only if the budget covers each of them, and the locktime is then known. */
  lemma {:induction false} ForwardsExact(p: Payment, k: nat)
    requires InRange(p) && 1 <= k <= |p.stops|
    ensures Forwards(p, k) <==> forall j :: 1 <= j <= k ==> Budget(p) >= j + 1 + Lost(p, j)
    ensures Forwards(p, k) ==> LocktimeAt(p, k) == p.stops[k - 1].outgoing + DEFAULT_LOCK_TIME * (Budget(p) - k - Lost(p, k))
    ensures Forwards(p, k) ==> LocktimeAt(p, k) <= p.pathLength * (DEFAULT_LOCK_TIME + 5) + Heights(p, k)
    decreases k
  {
    hide TooClose, ForwardedLocktime, Budget, Lost, InitialLocktime;
    HeightsGrow(p, k, |p.stops|);
    HeightsGrow(p, 0, |p.stops|);
    Sent(p);
    if k > 1 { ForwardsExact(p, k - 1); }
    if k == 1 || Forwards(p, k - 1) {
      assert k > 1 ==> Budget(p) >= k + Lost(p, k - 1);
      Left(p, k);
      CheckedStep(LocktimeAt(p, k - 1), p.stops[k - 1]);
    }
  }

  lemma Sent(p: Payment)
    requires InRange(p)
    ensures LocktimeAt(p, 0) == p.height + p.pathLength * (DEFAULT_LOCK_TIME + 5)
    ensures Lost(p, 0) == 0 && (p.stops != [] ==> Lost(p, 1) == 0)
  {
    HeightsGrow(p, 0, |p.stops|);
  }

  // ------------------------------------------------------------- consequences

  /** No node sees its incoming chain at a lower height than the node before it did. */
  predicate Rising(p: Payment) {
    forall j :: 1 <= j < |p.stops| ==> p.stops[j].incoming >= SetAt(p, j)
  }

  lemma {:induction false} LostGrows(p: Payment, j: nat, k: nat)
    requires 1 <= j <= k <= |p.stops| && Rising(p)
    ensures Lost(p, j) <= Lost(p, k)
    decreases k
  {
    if j < k { LostGrows(p, j, k - 1); }
  }

  /** When heights only rise the last node decides. */
  lemma RisingForwards(p: Payment, k: nat)
    requires InRange(p) && 1 <= k <= |p.stops| && Rising(p)
    ensures Forwards(p, k) <==> Budget(p) >= k + 1 + Lost(p, k)
  {
    hide Budget, Lost, Forwards, InRange, Rising;
    ForwardsExact(p, k);
    forall j | 1 <= j <= k ensures Lost(p, j) <= Lost(p, k) { LostGrows(p, j, k); }
  }

  /** The first node is at the sender's height, and each later one sees rate more blocks
      than the one before it. */
  predicate Steady(p: Payment, rate: nat) {
    forall j :: 0 <= j < |p.stops| ==>
      p.stops[j].outgoing == p.stops[j].incoming == SetAt(p, j) + if j == 0 then 0 else rate
  }

  lemma {:induction false} SteadyLoss(p: Payment, rate: nat, k: nat)
    requires Steady(p, rate) && rate <= DEFAULT_LOCK_TIME && 1 <= k <= |p.stops|
    ensures Lost(p, k) == if rate == 0 then 0 else k - 1
    decreases k
  {
    if k > 1 { SteadyLoss(p, rate, k - 1); }
  }

  lemma SteadyBudget(p: Payment, rate: nat)
    requires Steady(p, rate) && p.stops != []
    ensures Rising(p) && Budget(p) == p.pathLength + p.pathLength / 100
  {}

  lemma SteadyForwards(p: Payment, k: nat)
    requires InRange(p) && Steady(p, 0) && 1 <= k <= |p.stops|
    ensures Forwards(p, k)
    ensures LocktimeAt(p, k) == p.stops[k - 1].outgoing + DEFAULT_LOCK_TIME * (p.pathLength + p.pathLength / 100 - k)
  {
    hide Budget, Lost, LocktimeAt, Rising, Forwards, Steady;
    SteadyBudget(p, 0);
    SteadyLoss(p, 0, k);
    RisingForwards(p, k);
    ForwardsExact(p, k);
  }

  /** On a route of any length at one common block height, the check of every node
      between sender and receiver passes, and each forwarded HTLC expires at least the
      default lock time before the one that funds it. */
  lemma RouteForwards(p: Payment, k: nat)
    requires InRange(p) && Steady(p, 0) && 1 <= k <= |p.stops|
    ensures Forwards(p, k)
    ensures LocktimeAt(p, k) + DEFAULT_LOCK_TIME <= LocktimeAt(p, k - 1)
  {
    hide Budget, Lost, LocktimeAt, Rising, Forwards;
    SteadyForwards(p, k);
    if k > 1 { SteadyForwards(p, k - 1); } else { Sent(p); }
  }

  /** The five blocks of leeway per hop are rounded away at the first node: with as
      little as one new block at each hop, only the first half of a route passes. */
  lemma LeewayLost(p: Payment, rate: nat, k: nat)
    requires InRange(p) && Steady(p, rate) && 1 <= rate <= DEFAULT_LOCK_TIME && 1 <= k <= |p.stops|
    ensures Forwards(p, k) <==> 2 * k <= p.pathLength + p.pathLength / 100
  {
    hide Budget, Lost, Forwards, InRange, Rising, Steady;
    SteadyBudget(p, rate);
    SteadyLoss(p, rate, k);
    RisingForwards(p, k);
  }
}
