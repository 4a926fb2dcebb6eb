/** The adjustment of the difficulty at the end of an epoch (coinparam/difficulty.go:17-47). */
module Difficulty {
  import opened Numbers
  import opened CompactBits

  /** x, held between two bounds. */
  predicate IsHeld(held: int, x: int, low: int, high: int) {
    && low <= held <= high
    && (x < low ==> held == low) && (low <= x <= high ==> held == x) && (x > high ==> held == high)
  }

  /** n is the target times duration over timespan, rounded down. */
  predicate IsShare(n: int, target: int, duration: int, timespan: nat) {
    n * timespan <= target * duration && target * duration < (n + 1) * timespan
  }

  function Least(a: int, b: int): int {
    if a <= b then a else b
  }

  /** compact is the target of the next epoch: the previous one times the time the last epoch
      took, held between timespan / factor and timespan * factor, over the time it should
      have taken, but no easier than the limit. */
  ghost predicate Retargeted(start: int, end: int, bits: nat, timespan: nat, factor: nat, powLimit: nat, compact: nat)
    requires factor > 0
  {
    exists duration, n ::
      && IsHeld(duration, end - start, timespan / factor, timespan * factor)
      && IsShare(n, Target(bits), duration, timespan) && Written(Least(n, powLimit), compact)
  }

  /** The division rounds toward minus infinity. */
  function Quotient(target: int, duration: int, timespan: nat): int
    requires timespan > 0
  {
    target * duration / timespan
  }

  /** timespan is the target timespan in seconds, factor the retarget adjustment factor;
      the previous target is that of the last header of the epoch. */
  method CalcDiffAdjustBitcoin(start: int, end: int, bits: nat, timespan: nat, factor: nat, powLimit: nat)
    returns (compact: nat)
    requires bits < WORD && timespan > 0 && factor > 0 && powLimit < LIMIT
    ensures Retargeted(start, end, bits, timespan, factor, powLimit, compact)
    ensures compact < WORD && Target(compact) <= powLimit
    ensures if Target(bits) >= 0 then 0 <= Target(compact) <= Target(bits) * factor else Target(compact) <= 0
  {
    hide Target, CompactOf, NegativeOf, Quotient, Retargeted, IsShare;
    var duration := end - start;
    var minRetargetTimespan := timespan / factor;
    var maxRetargetTimespan := timespan * factor;
    Clamped(timespan, factor);
    if duration < minRetargetTimespan {
      duration := minRetargetTimespan;
    } else if duration > maxRetargetTimespan {
      duration := maxRetargetTimespan;
    }
    var prevTarget := CompactToBig(bits);
    var newTarget := Quotient(prevTarget, duration, timespan);
    Floored(prevTarget, duration, timespan);
    ghost var share := newTarget;
    if newTarget > powLimit {
      newTarget := powLimit;
    }
    compact := BigToCompact(newTarget);
    IsRetargeted(start, end, bits, timespan, factor, powLimit, compact, duration, share);
    Bounded(start, end, bits, timespan, factor, powLimit, compact);
  }

  lemma IsRetargeted(start: int, end: int, bits: nat, timespan: nat, factor: nat, powLimit: nat, compact: nat,
                     duration: int, n: int)
    requires factor > 0 && IsHeld(duration, end - start, timespan / factor, timespan * factor)
    requires IsShare(n, Target(bits), duration, timespan) && Written(Least(n, powLimit), compact)
    ensures Retargeted(start, end, bits, timespan, factor, powLimit, compact)
  {
    hide IsShare, Written, IsHeld;
  }

  // ------------------------------------------------------------------ bounds

  lemma ShareBounds(n: int, target: int, duration: nat, timespan: nat, factor: nat)
    requires timespan > 0 && IsShare(n, target, duration, timespan) && duration <= timespan * factor
    ensures if target >= 0 then 0 <= n <= target * factor else n <= 0
  {
    if target >= 0 {
      MulMono(0, duration, target);
      MulStrict(0, n + 1, timespan);
      MulMono(duration, timespan * factor, target);
      Regroup(target, factor, timespan);
      Expand(target * factor, timespan);
      MulStrict(n, target * factor + 1, timespan);
    } else {
      MulMono(target, 0, duration);
      MulStrict(n, 1, timespan);
    }
  }

  lemma Bounded(start: int, end: int, bits: nat, timespan: nat, factor: nat, powLimit: nat, compact: nat)
    requires timespan > 0 && factor > 0 && powLimit < LIMIT && Retargeted(start, end, bits, timespan, factor, powLimit, compact)
    ensures Target(compact) <= powLimit
    ensures if Target(bits) >= 0 then 0 <= Target(compact) <= Target(bits) * factor else Target(compact) <= 0
  {
    hide Target, CompactOf, NegativeOf, IsShare;
    var duration, n :|
      && IsHeld(duration, end - start, timespan / factor, timespan * factor)
      && IsShare(n, Target(bits), duration, timespan) && Written(Least(n, powLimit), compact);
    Clamped(timespan, factor);
    ShareBounds(n, Target(bits), duration, timespan, factor);
    var written := Least(n, powLimit);
    if written >= 0 { ReadsAtMost(written, compact); } else { ReadsNegative(-written, compact); }
  }

  lemma Clamped(timespan: nat, factor: nat)
    requires factor > 0
    ensures 0 <= timespan / factor <= timespan <= timespan * factor
  {
    DivBounds(timespan, factor);
    MulMono(1, factor, timespan);
    if timespan / factor > timespan { MulMono(timespan + 1, timespan / factor, factor); }
  }

  lemma Floored(target: int, duration: int, timespan: nat)
    requires timespan > 0
    ensures IsShare(Quotient(target, duration, timespan), target, duration, timespan)
  {
    var x := target * duration;
    FloorBounds(x, timespan);
  }

  lemma FloorBounds(x: int, t: nat)
    requires t > 0
    ensures x / t * t <= x < (x / t + 1) * t
  {}

  // ---------------------------------------------------------------- theorems

  lemma HeldMonotone(h: int, x: int, h': int, x': int, low: int, high: int)
    requires IsHeld(h, x, low, high) && IsHeld(h', x', low, high) && x <= x'
    ensures h <= h'
  {}

  lemma ShareMonotone(n: int, d: int, n': int, d': int, target: nat, timespan: nat)
    requires timespan > 0 && IsShare(n, target, d, timespan) && IsShare(n', target, d', timespan) && d <= d'
    ensures n <= n'
  {
    MulMono(d, d', target);
    MulStrict(n, n' + 1, timespan);
  }

  /** The longer the last epoch took, the easier the next: its target is at least as large. */
  lemma LongerIsEasier(start: int, end: int, start': int, end': int, bits: nat, timespan: nat, factor: nat, powLimit: nat,
                       compact: nat, compact': nat)
    requires timespan > 0 && factor > 0 && powLimit < LIMIT && Target(bits) >= 0
    requires Retargeted(start, end, bits, timespan, factor, powLimit, compact)
    requires Retargeted(start', end', bits, timespan, factor, powLimit, compact')
    requires end - start <= end' - start'
    ensures Target(compact) <= Target(compact')
  {
    hide Target, CompactOf, NegativeOf, IsShare;
    var low, high := timespan / factor, timespan * factor;
    var d, n :|
      IsHeld(d, end - start, low, high) && IsShare(n, Target(bits), d, timespan) && Written(Least(n, powLimit), compact);
    var d', n' :|
      IsHeld(d', end' - start', low, high) && IsShare(n', Target(bits), d', timespan) && Written(Least(n', powLimit), compact');
    Clamped(timespan, factor);
    HeldMonotone(d, end - start, d', end' - start', low, high);
    ShareMonotone(n, d, n', d', Target(bits), timespan);
    ShareBounds(n, Target(bits), d, timespan, factor);
    ShareBounds(n', Target(bits), d', timespan, factor);
    ReadsMonotone(Least(n, powLimit), compact, Least(n', powLimit), compact');
  }

  /** After an epoch that took the time it should, the bits stay as they are. */
  lemma OnSchedule(start: int, end: int, bits: nat, m: nat, timespan: nat, factor: nat, powLimit: nat, compact: nat)
    requires timespan > 0 && factor > 0 && powLimit < LIMIT
    requires CompactOf(m, bits) && m < LIMIT && Target(bits) <= powLimit
    requires end - start == timespan && Retargeted(start, end, bits, timespan, factor, powLimit, compact)
    ensures compact == bits
  {
    hide Target, CompactOf, NegativeOf, IsShare;
    var low, high := timespan / factor, timespan * factor;
    var d, n :|
      IsHeld(d, end - start, low, high) && IsShare(n, Target(bits), d, timespan) && Written(Least(n, powLimit), compact);
    Clamped(timespan, factor);
    Idempotent(m, bits);
    WholeShare(n, Target(bits), timespan);
    FormUnique(n, bits, compact);
  }

  lemma WholeShare(n: int, target: int, timespan: nat)
    requires timespan > 0 && IsShare(n, target, timespan, timespan)
    ensures n == target
  {
    MulStrict(n, target + 1, timespan);
    MulStrict(target, n + 1, timespan);
  }
}
