/** The two rate limits: pacing of credits (reference/arbor-cc.h) and the token
    bucket that pays for repair traffic (reference/arbor-host.cc). */
module Pacing {
  import opened Prelude

  function Max(a: nat, b: nat): nat {
    if a < b then b else a
  }

  // ------------------------------------------------------------ credit pacing

  /** How far a deadline may lag behind the clock: a burst of at most `maxBurst`. */
  function Debt(pacing: nat, maxBurst: nat): nat {
    pacing * (Max(1, maxBurst) - 1)
  }

  /** The earliest time of the next credit, once one is issued at `now`. */
  function AdvancePacing(next: nat, now: nat, pacing: nat, maxBurst: nat): nat {
    if pacing == 0 then now
    else Max(next, if now > Debt(pacing, maxBurst) then now - Debt(pacing, maxBurst) else 0) + pacing
  }

  /** A run of credits issued through the pacing gate on one subchannel. */
  ghost predicate PacedRun(next: nat, pacing: nat, maxBurst: nat, times: seq<nat>)
    decreases |times|
  {
    times == [] ||
    (next <= times[0] && (|times| > 1 ==> times[0] <= times[1])
     && PacedRun(AdvancePacing(next, times[0], pacing, maxBurst), pacing, maxBurst, times[1..]))
  }

  /** A deadline never advances by less than one gap per credit. */
  lemma {:induction false} LastIsPaced(next: nat, pacing: nat, maxBurst: nat, times: seq<nat>)
    requires pacing > 0 && times != [] && PacedRun(next, pacing, maxBurst, times)
    ensures times[|times| - 1] >= next + (|times| - 1) * pacing
    decreases |times|
  {
    if |times| > 1 {
      LastIsPaced(AdvancePacing(next, times[0], pacing, maxBurst), pacing, maxBurst, times[1..]);
      assert times[1..][|times| - 2] == times[|times| - 1];
    }
  }

  /** Without pacing the gate lets every credit through: a run passes it as soon as its
      first credit does. */
  lemma {:induction false} UnpacedPasses(next: nat, maxBurst: nat, times: seq<nat>)
    requires forall i, j :: 0 <= i < j < |times| ==> times[i] <= times[j]
    ensures PacedRun(next, 0, maxBurst, times) <==> times == [] || next <= times[0]
    decreases |times|
  {
    if times != [] {
      UnpacedPasses(AdvancePacing(next, times[0], 0, maxBurst), maxBurst, times[1..]);
    }
  }

  /** The next deadline: the clock itself without pacing, otherwise one gap after the last
      deadline, or after the earliest moment the debt limit allows, whichever is later. */
  lemma DeadlineIs(next: nat, now: nat, pacing: nat, maxBurst: nat)
    ensures var d := AdvancePacing(next, now, pacing, maxBurst);
            && (pacing == 0 ==> d == now)
            && (pacing > 0 ==>
                  && d >= next + pacing && d >= pacing && d + Debt(pacing, maxBurst) >= now + pacing
                  && (d == next + pacing || d == pacing || d + Debt(pacing, maxBurst) == now + pacing))
  {
  }

  /** Over any run, n credits with burst B span at least (n - B) gaps. */
  lemma RateBound(next: nat, pacing: nat, maxBurst: nat, times: seq<nat>)
    requires pacing > 0 && times != [] && PacedRun(next, pacing, maxBurst, times)
    ensures times[|times| - 1] - times[0] >= (|times| - Max(1, maxBurst)) * pacing
  {
    var n, b := |times|, Max(1, maxBurst);
    var after := AdvancePacing(next, times[0], pacing, maxBurst);
    assert after >= times[0] - Debt(pacing, maxBurst) + pacing;
    assert (n - b) * pacing == (n - 2) * pacing - (b - 1) * pacing + pacing;
    if n > 1 {
      LastIsPaced(after, pacing, maxBurst, times[1..]);
      assert times[1..][n - 2] == times[n - 1];
    } else {
      assert (1 - b) * pacing == -(b - 1) * pacing;
    }
  }

  /** From a deadline the debt limit does not touch, n credits fit at one instant if the last one does. */
  lemma {:induction false} BurstFits(next: nat, now: nat, pacing: nat, maxBurst: nat, n: nat)
    requires pacing > 0 && now <= next + Debt(pacing, maxBurst)
    requires n > 0 ==> next + (n - 1) * pacing <= now
    ensures PacedRun(next, pacing, maxBurst, seq(n, _ => now))
    decreases n
  {
    if n > 0 {
      var times := seq(n, _ => now);
      assert times[1..] == seq(n - 1, _ => now);
      assert (n - 1) * pacing == (n - 2) * pacing + pacing;
      assert n > 1 ==> (n - 2) * pacing >= 0;
      assert (n - 1) * pacing >= 0;
      assert AdvancePacing(next, now, pacing, maxBurst) == next + pacing;
      BurstFits(next + pacing, now, pacing, maxBurst, n - 1);
    }
  }

  /** The bound is tight: after an idle spell exactly B credits pass the gate at one instant. */
  lemma BurstIsExact(next: nat, now: nat, pacing: nat, maxBurst: nat, n: nat)
    requires pacing > 0 && next + Debt(pacing, maxBurst) <= now && Debt(pacing, maxBurst) < now
    ensures PacedRun(next, pacing, maxBurst, seq(n, _ => now)) <==> n <= Max(1, maxBurst)
  {
    var b, times := Max(1, maxBurst), seq(n, _ => now);
    if n > b {
      if PacedRun(next, pacing, maxBurst, times) {
        RateBound(next, pacing, maxBurst, times);
        ScaleMonotone(1, n - b, pacing);
      }
    } else if n > 0 {
      var after := AdvancePacing(next, now, pacing, maxBurst);
      assert after == now - Debt(pacing, maxBurst) + pacing;
      assert times[1..] == seq(n - 1, _ => now);
      if n > 1 {
        ScaleMonotone(n - 1, b - 1, pacing);
        assert (n - 1) * pacing == (n - 2) * pacing + pacing;
        BurstFits(after, now, pacing, maxBurst, n - 1);
      }
    }
  }

  // ------------------------------------------------------------ token bucket

  /** Tokens in bytes, and when they were last topped up. */
  datatype Bucket = Bucket(tokens: real, at: nat)

  function Least(a: real, b: real): real {
    if a < b then a else b
  }

  function Most(a: real, b: real): real {
    if a < b then b else a
  }

  function Refill(b: Bucket, now: nat, rate: real, cap: real): Bucket
    requires b.at <= now
  {
    Bucket(Least(cap, b.tokens + (now - b.at) as real * rate), now)
  }

  /** Top up, with room for at least one charge of this size, and pay if the tokens suffice. */
  function Charge(b: Bucket, now: nat, rate: real, cap: real, size: real): (r: (Bucket, bool))
    requires b.at <= now
    ensures r.0.at == now
  {
    var full := Refill(b, now, rate, cap);
    if full.tokens < size then (full, false) else (full.(tokens := full.tokens - size), true)
  }

  /** The repair credit's charge: the cap makes room for one charge larger than the burst. */
  function ChargeRepair(b: Bucket, now: nat, rate: real, burst: real, size: real): (Bucket, bool)
    requires b.at <= now
  {
    Charge(b, now, rate, Most(burst, size), size)
  }

  // One attempt to charge; `tail` charges (END replay) keep the plain cap.
  datatype Attempt = Attempt(now: nat, size: real, tail: bool)

  function CapOf(burst: real, a: Attempt): real {
    if a.tail then burst else Most(burst, a.size)
  }

  ghost predicate Ordered(at: nat, attempts: seq<Attempt>)
    decreases |attempts|
  {
    attempts == [] || (at <= attempts[0].now && attempts[0].size >= 0.0 && Ordered(attempts[0].now, attempts[1..]))
  }

  /** The bucket after a run of attempts, and the bytes they charged. */
  ghost function Spend(b: Bucket, rate: real, burst: real, attempts: seq<Attempt>): (r: (Bucket, real))
    requires Ordered(b.at, attempts)
    decreases |attempts|
  {
    if attempts == [] then (b, 0.0)
    else
      var a := attempts[0];
      var (after, paid) := Charge(b, a.now, rate, CapOf(burst, a), a.size);
      var (last, rest) := Spend(after, rate, burst, attempts[1..]);
      (last, if paid then a.size + rest else rest)
  }

  function Earned(rate: real, from: nat, to: nat): real
    requires from <= to
  {
    (to - from) as real * rate
  }

  lemma EarnedAdds(rate: real, x: nat, y: nat, z: nat)
    requires x <= y <= z && rate >= 0.0
    ensures Earned(rate, x, z) == Earned(rate, x, y) + Earned(rate, y, z)
    ensures Earned(rate, x, y) >= 0.0
  {
    assert (z - x) as real == (z - y) as real + (y - x) as real;
  }

  lemma ChargeIsPaidFor(b: Bucket, now: nat, rate: real, cap: real, size: real)
    requires b.at <= now && b.tokens >= 0.0 && rate >= 0.0 && cap >= 0.0 && size >= 0.0
    ensures var (after, paid) := Charge(b, now, rate, cap, size);
            after.tokens >= 0.0 && (if paid then size else 0.0) + after.tokens <= b.tokens + Earned(rate, b.at, now)
  {
    EarnedAdds(rate, b.at, now, now);
  }

  /** Over any run, the bytes charged are paid for by the initial tokens and the
      time elapsed, and the bucket never goes negative. */
  lemma {:induction false} BudgetBound(b: Bucket, rate: real, burst: real, attempts: seq<Attempt>)
    requires Ordered(b.at, attempts) && b.tokens >= 0.0 && rate >= 0.0 && burst >= 0.0
    ensures var (last, spent) := Spend(b, rate, burst, attempts);
            last.tokens >= 0.0 && b.at <= last.at && spent + last.tokens <= b.tokens + Earned(rate, b.at, last.at)
    decreases |attempts|
  {
    if attempts == [] {
      EarnedAdds(rate, b.at, b.at, b.at);
    } else {
      var a := attempts[0];
      hide Earned;
      ChargeIsPaidFor(b, a.now, rate, CapOf(burst, a), a.size);
      var (after, paid) := Charge(b, a.now, rate, CapOf(burst, a), a.size);
      hide Charge, CapOf;
      BudgetBound(after, rate, burst, attempts[1..]);
      EarnedAdds(rate, b.at, a.now, Spend(b, rate, burst, attempts).0.at);
    }
  }

  /** How long a failed repair charge waits before trying again. */
  function RefillWait(tokens: real, size: real, rate: real): nat
    requires rate > 0.0 && tokens < size
  {
    ((size - tokens) / rate).Floor + 1
  }

  lemma WaitCovers(tokens: real, size: real, rate: real)
    requires rate > 0.0 && tokens < size
    ensures tokens + RefillWait(tokens, size, rate) as real * rate >= size
  {
    var q := (size - tokens) / rate;
    assert q * rate == size - tokens;
    var w := RefillWait(tokens, size, rate) as real;
    assert w >= q;
    assert w * rate >= q * rate;
  }

  /** The retry is funded if nothing else touches the bucket meanwhile. */
  lemma RefillWaitSuffices(b: Bucket, now: nat, rate: real, burst: real, size: real)
    requires b.at <= now && rate > 0.0 && !ChargeRepair(b, now, rate, burst, size).1
    ensures var failed := ChargeRepair(b, now, rate, burst, size).0;
            failed.tokens < size && ChargeRepair(failed, now + RefillWait(failed.tokens, size, rate), rate, burst,
                                                 size).1
  {
    WaitCovers(ChargeRepair(b, now, rate, burst, size).0.tokens, size, rate);
  }

  /** END-timeout tops up the same bucket with the plain cap.  The retry still
      succeeds whenever that happens, if and only if the charge fits the burst. */
  lemma RetrySurvivesTailRefill(failed: Bucket, rate: real, burst: real, size: real)
    requires rate > 0.0 && failed.tokens < size
    ensures (forall t: nat :: failed.at <= t <= failed.at + RefillWait(failed.tokens, size, rate) ==>
               ChargeRepair(Refill(failed, t, rate, burst), failed.at + RefillWait(failed.tokens, size, rate), rate,
                            burst, size).1)
            <==> size <= burst
  {
    var due := failed.at + RefillWait(failed.tokens, size, rate);
    WaitCovers(failed.tokens, size, rate);
    if size <= burst {
      forall t: nat | failed.at <= t <= due
        ensures ChargeRepair(Refill(failed, t, rate, burst), due, rate, burst, size).1 {
        var x, y := (t - failed.at) as real, (due - t) as real;
        assert x + y == (due - failed.at) as real;
        assert x * rate + y * rate == (due - failed.at) as real * rate;
        assert y * rate >= 0.0;
      }
    } else {
      assert !ChargeRepair(Refill(failed, due, rate, burst), due, rate, burst, size).1;
    }
  }
}
