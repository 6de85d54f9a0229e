/**
  The worker's reconnect schedule: capped exponential backoff with jitter, reset
  by a session that ends cleanly. Durations are integers (nanoseconds) that are
  small enough not to overflow when doubled.
 */
module Backoff {
  const DEFAULT_INITIAL: nat := 1_000_000_000
  const DEFAULT_MAX: nat := 60_000_000_000

  function Min(a: int, b: int): int {
    if a <= b then a else b
  }

  /** Non-positive arguments fall back to the defaults, and the cap is never below the start. */
  function StartOf(initial: int): nat {
    if initial <= 0 then DEFAULT_INITIAL else initial
  }

  function CapOf(initial: int, max: int): (cap: nat)
    ensures cap >= StartOf(initial) >= 1
  {
    var cap := if max <= 0 then DEFAULT_MAX else max;
    if cap < StartOf(initial) then StartOf(initial) else cap
  }

  function Pow2(k: nat): nat {
    if k == 0 then 1 else 2 * Pow2(k - 1)
  }

  /** The un-jittered delay after k earlier failures in a row. */
  function Scheduled(initial: nat, max: nat, k: nat): nat {
    Min(max, initial * Pow2(k))
  }

  /** Doubling and capping step by step is capping the power at the end. */
  lemma ScheduleDoubles(initial: nat, max: nat, k: nat)
    ensures Scheduled(initial, max, k + 1) == Min(max, 2 * Scheduled(initial, max, k))
  {
  }

  /** A uniform roll in [0, 1) spreads a base delay over a quarter either way. */
  function Jittered(base: nat, roll: real): int {
    (base as real * (0.75 + 0.5 * roll)).Floor
  }

  lemma Spread(b: real, roll: real)
    requires 0.0 <= b && 0.0 <= roll < 1.0
    ensures 0.75 * b <= b * (0.75 + 0.5 * roll) <= 1.25 * b
  {
    NonNegative(b, 0.5 * roll);
    NonNegative(b, 0.5 - 0.5 * roll);
    assert b * (0.75 + 0.5 * roll) == 0.75 * b + b * (0.5 * roll) == 1.25 * b - b * (0.5 - 0.5 * roll);
  }

  lemma NonNegative(x: real, y: real)
    requires x >= 0.0 && y >= 0.0
    ensures x * y >= 0.0
  {
  }

  lemma JitterBounds(base: nat, roll: real)
    requires 0.0 <= roll < 1.0
    ensures 0.75 * base as real - 1.0 < Jittered(base, roll) as real <= 1.25 * base as real
  {
    Spread(base as real, roll);
  }

  class Backoff {
    const initial: nat
    const max: nat
    var current: nat

    /** The schedule stands at k failures since the last reset. */
    ghost predicate At(k: nat)
      reads this
    {
      current == Scheduled(initial, max, k)
    }

    constructor (initial: int, max: int)
      ensures this.initial == StartOf(initial) && this.max == CapOf(initial, max) && At(0)
      ensures this.initial == if initial > 0 then initial else 1_000_000_000
      ensures var asked := if max > 0 then max else 60_000_000_000;
              this.max == if asked >= this.initial then asked else this.initial
      ensures current == this.initial
    {
      this.initial := StartOf(initial);
      this.max := CapOf(initial, max);
      this.current := StartOf(initial);
    }

    method Next(roll: real, ghost k: nat) returns (base: nat, delay: int)
      requires At(k)
      modifies this`current
      ensures base == Scheduled(initial, max, k) && delay == Jittered(base, roll)
      ensures base == old(current) && current == if 2 * base <= max then 2 * base else max
      ensures delay as real <= base as real * (0.75 + roll / 2.0) < delay as real + 1.0
      ensures At(k + 1)
    {
      ScheduleDoubles(initial, max, k);
      base := current;
      var next := current * 2;
      if next > max {
        next := max;
      }
      current := next;
      delay := Jittered(base, roll);
    }

    method Reset()
      modifies this`current
      ensures current == initial && (initial <= max ==> At(0))
    {
      current := initial;
    }
  }

  /** Failures in a row at the end of a history of sessions (true is a failed one). */
  function FailuresInARow(failed: seq<bool>): nat {
    if failed == [] || !failed[|failed| - 1] then 0 else 1 + FailuresInARow(failed[..|failed| - 1])
  }

  /** A history that ends in k failures after a clean session, or after none, has k in a row. */
  lemma {:induction false} FailuresCounted(failed: seq<bool>, k: nat)
    requires k <= |failed| && (forall i :: |failed| - k <= i < |failed| ==> failed[i])
    requires k < |failed| ==> !failed[|failed| - k - 1]
    ensures FailuresInARow(failed) == k
  {
    if k > 0 {
      FailuresCounted(failed[..|failed| - 1], k - 1);
    }
  }

  /** The delays of a worker's whole history: none after a clean session, the schedule after a failed one. */
  function Delays(initial: nat, max: nat, failed: seq<bool>, rolls: seq<real>): seq<int>
    requires |rolls| == |failed|
  {
    if failed == [] then []
    else
      var n := |failed| - 1;
      Delays(initial, max, failed[..n], rolls[..n])
      + if failed[n] then [Jittered(Scheduled(initial, max, FailuresInARow(failed[..n])), rolls[n])] else []
  }

  /**
    The worker loop over any finite history of sessions; cancellation only cuts the
    history short. A session that panics counts as failed.
   */
  method RunWorker(initial: int, max: int, failed: seq<bool>, rolls: seq<real>) returns (delays: seq<int>)
    requires |rolls| == |failed|
    ensures delays == Delays(StartOf(initial), CapOf(initial, max), failed, rolls)
  {
    var b := new Backoff(initial, max);
    delays := [];
    for i := 0 to |failed|
      invariant delays == Delays(b.initial, b.max, failed[..i], rolls[..i])
      invariant b.At(FailuresInARow(failed[..i])) && b.initial <= b.max
    {
      ghost var now, next := failed[..i], failed[..i + 1];
      assert next[..i] == now && rolls[..i + 1][..i] == rolls[..i];
      if failed[i] {
        var _, delay := b.Next(rolls[i], FailuresInARow(now));
        delays := delays + [delay];
      } else {
        b.Reset();
      }
    }
    assert failed[..|failed|] == failed && rolls[..|rolls|] == rolls;
  }

  /** No delay of any history exceeds the cap by more than the jitter. */
  lemma {:induction false} DelaysCapped(initial: nat, max: nat, failed: seq<bool>, rolls: seq<real>, i: nat)
    requires |rolls| == |failed| && i < |Delays(initial, max, failed, rolls)|
    requires forall j :: 0 <= j < |rolls| ==> 0.0 <= rolls[j] < 1.0
    ensures Delays(initial, max, failed, rolls)[i] as real <= 1.25 * max as real
  {
    var n := |failed| - 1;
    if i < |Delays(initial, max, failed[..n], rolls[..n])| {
      DelaysCapped(initial, max, failed[..n], rolls[..n], i);
    } else {
      JitterBounds(Scheduled(initial, max, FailuresInARow(failed[..n])), rolls[n]);
    }
  }
}
