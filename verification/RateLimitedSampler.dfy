/**
The token bucket that limits how many traces are sampled
(RateLimitedSampler.java and RateLimitedSampler.py). Rounding is left out:
tokens are real numbers. The clock is the argument of each call, in
nanoseconds, and does not run backwards; the rate is positive, as the options
of the connector require.
*/
module RateLimitedSampler {

  const NANOS_PER_SECOND := 1_000_000_000.0

  function Min(a: real, b: real): real {
    if a < b then a else b
  }

  function Capacity(rate: real): real {
    if 1.0 < rate then rate else 1.0
  }

  /** The tokens that flow in between two moments. */
  function Gain(rate: real, from: int, to: int): real {
    ((to - from) as real / NANOS_PER_SECOND) * rate
  }

  // ----- one call, as a step of a bucket -----

  datatype Bucket = Bucket(tokens: real, refilled: int)

  function Full(rate: real, now: int): Bucket {
    Bucket(Capacity(rate), now)
  }

  function Refill(rate: real, b: Bucket, now: int): Bucket {
    Bucket(Min(Capacity(rate), b.tokens + Gain(rate, b.refilled, now)), now)
  }

  /** The bucket after a call for which one token is spent, or none. */
  function Spend(rate: real, b: Bucket, now: int, spend: bool): Bucket {
    var full := Refill(rate, b, now);
    if spend then full.(tokens := full.tokens - 1.0) else full
  }

  /** The sampler spends a token whenever there is a whole one. */
  predicate Accepts(rate: real, b: Bucket, now: int) {
    Refill(rate, b, now).tokens >= 1.0
  }

  class Sampler {
    const tracesPerSecond: real
    const capacity: real
    var tokens: real
    var lastRefillNanos: int

    ghost predicate Valid()
      reads this
    {
      tracesPerSecond > 0.0 && capacity == Capacity(tracesPerSecond) && 0.0 <= tokens <= capacity
    }

    ghost function State(): Bucket
      reads this
    {
      Bucket(tokens, lastRefillNanos)
    }

    constructor (tracesPerSecond: real, now: int)
      requires tracesPerSecond > 0.0
      ensures Valid() && this.tracesPerSecond == tracesPerSecond && State() == Full(tracesPerSecond, now)
      ensures tokens == (if tracesPerSecond > 1.0 then tracesPerSecond else 1.0) && lastRefillNanos == now
    {
      this.tracesPerSecond := tracesPerSecond;
      this.capacity := if 1.0 < tracesPerSecond then tracesPerSecond else 1.0;
      this.tokens := if 1.0 < tracesPerSecond then tracesPerSecond else 1.0;
      this.lastRefillNanos := now;
    }

    method TryAcquire(now: int) returns (sampled: bool)
      requires Valid() && now >= lastRefillNanos
      modifies this
      ensures Valid()
      ensures sampled == old(Accepts(tracesPerSecond, State(), now))
      ensures State() == old(Spend(tracesPerSecond, State(), now, Accepts(tracesPerSecond, State(), now)))
      ensures var limit := if tracesPerSecond > 1.0 then tracesPerSecond else 1.0;
              var held := old(tokens) + (now - old(lastRefillNanos)) as real / 1000000000.0 * tracesPerSecond;
              && sampled == (held >= 1.0) && lastRefillNanos == now
              && tokens == (if held < limit then held else limit) - (if sampled then 1.0 else 0.0)
    {
      StaysLevel(tracesPerSecond, State(), now, Accepts(tracesPerSecond, State(), now));
      tokens := Min(capacity, tokens + ((now - lastRefillNanos) as real / NANOS_PER_SECOND) * tracesPerSecond);
      lastRefillNanos := now;
      if tokens < 1.0 {
        return false;
      }
      tokens := tokens - 1.0;
      return true;
    }
  }

  lemma GainNonNegative(rate: real, from: int, to: int)
    requires rate >= 0.0 && from <= to
    ensures Gain(rate, from, to) >= 0.0
  {
    var seconds := (to - from) as real / NANOS_PER_SECOND;
    assert seconds >= 0.0;
    assert seconds * rate >= 0.0;
  }

  lemma GainAdds(rate: real, a: int, b: int, c: int)
    ensures Gain(rate, a, b) + Gain(rate, b, c) == Gain(rate, a, c)
  {
    var first, second := (b - a) as real / NANOS_PER_SECOND, (c - b) as real / NANOS_PER_SECOND;
    assert (c - a) as real / NANOS_PER_SECOND == first + second;
    assert first * rate + second * rate == (first + second) * rate;
  }

  // ----- runs -----

  /** Call times that do not run backwards, the first one not before the given moment. */
  ghost predicate Clock(from: int, times: seq<int>)
    decreases times
  {
    times != [] ==> from <= times[0] && Clock(times[0], times[1..])
  }

  /** The decisions of the sampler over a run of calls. */
  function Decisions(rate: real, b: Bucket, times: seq<int>): (d: seq<bool>)
    ensures |d| == |times|
    decreases times
  {
    if times == [] then []
    else
      var sampled := Accepts(rate, b, times[0]);
      [sampled] + Decisions(rate, Spend(rate, b, times[0], sampled), times[1..])
  }

  /** The bucket after a run in which the given calls are accepted. */
  function After(rate: real, b: Bucket, times: seq<int>, accepted: seq<bool>): Bucket
    requires |accepted| == |times|
    decreases times
  {
    if times == [] then b else After(rate, Spend(rate, b, times[0], accepted[0]), times[1..], accepted[1..])
  }

  /** A schedule that accepts a call only when the bucket holds a whole token. */
  predicate Affordable(rate: real, b: Bucket, times: seq<int>, accepted: seq<bool>)
    requires |accepted| == |times|
    decreases times
  {
    times != [] ==>
      && (accepted[0] ==> Refill(rate, b, times[0]).tokens >= 1.0)
      && Affordable(rate, Spend(rate, b, times[0], accepted[0]), times[1..], accepted[1..])
  }

  function Count(accepted: seq<bool>): nat {
    if accepted == [] then 0 else (if accepted[0] then 1 else 0) + Count(accepted[1..])
  }

  predicate Level(rate: real, b: Bucket) {
    0.0 <= b.tokens <= Capacity(rate)
  }

  /** Every call leaves the bucket between empty and full. */
  lemma StaysLevel(rate: real, b: Bucket, now: int, spend: bool)
    requires rate > 0.0 && Level(rate, b) && b.refilled <= now
    requires spend ==> Accepts(rate, b, now)
    ensures Level(rate, Spend(rate, b, now, spend)) && Level(rate, Refill(rate, b, now))
  {
    GainNonNegative(rate, b.refilled, now);
  }

  lemma {:induction false} RunStaysLevel(rate: real, b: Bucket, times: seq<int>)
    requires rate > 0.0 && Level(rate, b) && Clock(b.refilled, times)
    ensures Level(rate, After(rate, b, times, Decisions(rate, b, times)))
    ensures Affordable(rate, b, times, Decisions(rate, b, times))
    decreases times
  {
    if times != [] {
      var sampled := Accepts(rate, b, times[0]);
      StaysLevel(rate, b, times[0], sampled);
      RunStaysLevel(rate, Spend(rate, b, times[0], sampled), times[1..]);
    }
  }

  /** No affordable schedule accepts more than the bucket held at the first call and what flowed in since. */
  lemma {:induction false} Budget(rate: real, b: Bucket, times: seq<int>, accepted: seq<bool>)
    requires rate > 0.0 && Level(rate, b) && Clock(b.refilled, times) && times != []
    requires |accepted| == |times| && Affordable(rate, b, times, accepted)
    ensures Count(accepted) as real <=
            Refill(rate, b, times[0]).tokens + Gain(rate, times[0], times[|times| - 1])
    decreases times
  {
    var b' := Spend(rate, b, times[0], accepted[0]);
    StaysLevel(rate, b, times[0], accepted[0]);
    if |times| == 1 {
      assert accepted[1..] == [] && Gain(rate, times[0], times[0]) == 0.0;
    } else {
      Budget(rate, b', times[1..], accepted[1..]);
      GainAdds(rate, times[0], times[1], times[|times| - 1]);
      assert b'.refilled == times[0];
    }
  }

  /** The decisions of a run, from call i on, are those of a run from the bucket that call i finds. */
  lemma {:induction false} DecisionsFrom(rate: real, b: Bucket, times: seq<int>, i: nat, j: nat) returns (b': Bucket)
    requires rate > 0.0 && Level(rate, b) && Clock(b.refilled, times) && i < j <= |times|
    ensures Level(rate, b') && Clock(b'.refilled, times[i..j])
    ensures Decisions(rate, b, times)[i..j] == Decisions(rate, b', times[i..j])
    decreases times
  {
    if i == 0 {
      b' := b;
      DecisionsOfPrefix(rate, b, times, j);
    } else {
      var sampled := Accepts(rate, b, times[0]);
      StaysLevel(rate, b, times[0], sampled);
      b' := DecisionsFrom(rate, Spend(rate, b, times[0], sampled), times[1..], i - 1, j - 1);
      assert times[i..j] == times[1..][i - 1..j - 1];
      assert Decisions(rate, b, times)[i..j] ==
             Decisions(rate, Spend(rate, b, times[0], sampled), times[1..])[i - 1..j - 1];
    }
  }

  lemma {:induction false} DecisionsOfPrefix(rate: real, b: Bucket, times: seq<int>, k: nat)
    requires Clock(b.refilled, times) && k <= |times|
    ensures Clock(b.refilled, times[..k])
    ensures Decisions(rate, b, times)[..k] == Decisions(rate, b, times[..k])
    decreases times
  {
    if k > 0 {
      var sampled := Accepts(rate, b, times[0]);
      var b' := Spend(rate, b, times[0], sampled);
      DecisionsOfPrefix(rate, b', times[1..], k - 1);
      assert times[..k][1..] == times[1..][..k - 1];
      assert Decisions(rate, b, times)[..k] == [sampled] + Decisions(rate, b', times[1..])[..k - 1];
    }
  }

  /** Calls i to j, both included, are sampled at most max(1, rate) + rate * (their distance in seconds) times. */
  lemma {:induction false} WindowBound(rate: real, start: int, times: seq<int>, i: nat, j: nat)
    requires rate > 0.0 && Clock(start, times) && i <= j < |times|
    ensures Count(Decisions(rate, Full(rate, start), times)[i..j + 1]) as real <=
            (if rate > 1.0 then rate else 1.0) + (times[j] - times[i]) as real / 1000000000.0 * rate
  {
    hide *;
    CapacityAndGain(rate, times[i], times[j]);
    Window(rate, start, times, i, j);
  }

  lemma CapacityAndGain(rate: real, from: int, to: int)
    ensures Capacity(rate) == if rate > 1.0 then rate else 1.0
    ensures Gain(rate, from, to) == (to - from) as real / 1000000000.0 * rate
  {
  }

  lemma {:induction false} Window(rate: real, start: int, times: seq<int>, i: nat, j: nat)
    requires rate > 0.0 && Clock(start, times) && i <= j < |times|
    ensures Count(Decisions(rate, Full(rate, start), times)[i..j + 1]) as real <=
            Capacity(rate) + Gain(rate, times[i], times[j])
  {
    var b := DecisionsFrom(rate, Full(rate, start), times, i, j + 1);
    var window := times[i..j + 1];
    RunStaysLevel(rate, b, window);
    StaysLevel(rate, b, window[0], false);
    Budget(rate, b, window, Decisions(rate, b, window));
  }

  // ----- a burst -----

  /** Of the calls made at the start of a new sampler, the first max(1, rate), rounded down, are sampled and no other. */
  lemma {:induction false} BurstAtStart(rate: real, start: int, times: seq<int>)
    requires rate > 0.0 && forall k :: 0 <= k < |times| ==> times[k] == start
    ensures forall k :: 0 <= k < |times| ==>
              (Decisions(rate, Full(rate, start), times)[k] <==> k < (if rate > 1.0 then rate else 1.0).Floor)
  {
    Burst(rate, Full(rate, start), times);
  }

  /** While no time passes, a bucket has as many whole tokens to spend as it holds. */
  lemma {:induction false} Burst(rate: real, b: Bucket, times: seq<int>)
    requires Level(rate, b) && forall k :: 0 <= k < |times| ==> times[k] == b.refilled
    ensures forall k :: 0 <= k < |times| ==> (Decisions(rate, b, times)[k] <==> k < b.tokens.Floor)
    decreases times
  {
    if times != [] {
      var sampled := Accepts(rate, b, times[0]);
      var b' := Spend(rate, b, times[0], sampled);
      assert Gain(rate, b.refilled, times[0]) == 0.0;
      Burst(rate, b', times[1..]);
      assert b'.tokens.Floor == if sampled then b.tokens.Floor - 1 else b.tokens.Floor;
      assert Decisions(rate, b, times) == [sampled] + Decisions(rate, b', times[1..]);
    }
  }

  // ----- no schedule does better -----

  /**
  The sampler against a rival on its own bucket. It is ahead in calls accepted, and in calls accepted
  and tokens in hand together.
  */
  ghost predicate Ahead(greedy: Bucket, accepted: int, rival: Bucket, rivalAccepted: int) {
    && greedy.refilled == rival.refilled && accepted >= rivalAccepted
    && accepted as real + greedy.tokens >= rivalAccepted as real + rival.tokens
  }

  lemma StaysAhead(rate: real, greedy: Bucket, accepted: int, rival: Bucket, rivalAccepted: int, now: int, pick: bool)
    requires rate > 0.0 && Ahead(greedy, accepted, rival, rivalAccepted)
    requires pick ==> Accepts(rate, rival, now)
    ensures var sampled := Accepts(rate, greedy, now);
            Ahead(Spend(rate, greedy, now, sampled), accepted + (if sampled then 1 else 0),
                  Spend(rate, rival, now, pick), rivalAccepted + (if pick then 1 else 0))
  {
    if pick && !Accepts(rate, greedy, now) {
      assert accepted as real > rivalAccepted as real;
    }
  }

  lemma {:induction false} AheadThroughout(rate: real, greedy: Bucket, accepted: int, rival: Bucket, rivalAccepted: int,
                                           times: seq<int>, picks: seq<bool>, k: nat)
    requires rate > 0.0 && Ahead(greedy, accepted, rival, rivalAccepted)
    requires |picks| == |times| && Affordable(rate, rival, times, picks) && k <= |times|
    ensures accepted + Count(Decisions(rate, greedy, times)[..k]) >= rivalAccepted + Count(picks[..k])
    decreases times
  {
    if k > 0 {
      var now, pick := times[0], picks[0];
      var sampled := Accepts(rate, greedy, now);
      StaysAhead(rate, greedy, accepted, rival, rivalAccepted, now, pick);
      var greedy', rival' := Spend(rate, greedy, now, sampled), Spend(rate, rival, now, pick);
      AheadThroughout(rate, greedy', accepted + (if sampled then 1 else 0), rival',
                      rivalAccepted + (if pick then 1 else 0), times[1..], picks[1..], k - 1);
      CountPrefix(Decisions(rate, greedy, times), k);
      CountPrefix(picks, k);
    }
  }

  lemma CountPrefix(accepted: seq<bool>, k: nat)
    requires 0 < k <= |accepted|
    ensures Count(accepted[..k]) == (if accepted[0] then 1 else 0) + Count(accepted[1..][..k - 1])
  {
    assert accepted[..k][1..] == accepted[1..][..k - 1];
  }

  /** Any other schedule that never overdraws the same bucket has accepted no more calls, at any moment. */
  lemma {:induction false} GreedyIsOptimal(rate: real, start: int, times: seq<int>, picks: seq<bool>, k: nat)
    requires rate > 0.0 && |picks| == |times| && k <= |times|
    requires Affordable(rate, Full(rate, start), times, picks)
    ensures Count(picks[..k]) <= Count(Decisions(rate, Full(rate, start), times)[..k])
  {
    AheadThroughout(rate, Full(rate, start), 0, Full(rate, start), 0, times, picks, k);
  }

  // ----- nothing is dropped below the rate -----

  /** Every call brings at least one token with it. */
  ghost predicate Spaced(rate: real, from: int, times: seq<int>) {
    && (times != [] ==> Gain(rate, from, times[0]) >= 1.0)
    && forall k :: 0 < k < |times| ==> Gain(rate, times[k - 1], times[k]) >= 1.0
  }

  lemma SpacedRest(rate: real, from: int, times: seq<int>)
    requires times != [] && Spaced(rate, from, times)
    ensures Spaced(rate, times[0], times[1..])
  {
    hide Gain;
    forall k | 0 < k < |times[1..]|
      ensures Gain(rate, times[1..][k - 1], times[1..][k]) >= 1.0
    {
      assert Gain(rate, times[k + 1 - 1], times[k + 1]) >= 1.0;
    }
  }

  lemma {:induction false} SpacedRun(rate: real, b: Bucket, times: seq<int>)
    requires b.tokens >= 0.0 && Spaced(rate, b.refilled, times)
    ensures forall i :: 0 <= i < |times| ==> Decisions(rate, b, times)[i]
    decreases times
  {
    hide Gain;
    if times != [] {
      SpacedRest(rate, b.refilled, times);
      SpacedRun(rate, Spend(rate, b, times[0], true), times[1..]);
    }
  }

  /** Calls that come at least 1 / rate seconds after one another are all sampled. */
  lemma {:induction false} SpacedCallsAreAccepted(rate: real, b: Bucket, times: seq<int>)
    requires rate > 0.0 && b.tokens >= 0.0
    requires times != [] ==> (times[0] - b.refilled) as real / 1000000000.0 * rate >= 1.0
    requires forall k :: 0 < k < |times| ==> (times[k] - times[k - 1]) as real / 1000000000.0 * rate >= 1.0
    ensures forall i :: 0 <= i < |times| ==> Decisions(rate, b, times)[i]
  {
    hide *;
    if times != [] {
      CapacityAndGain(rate, b.refilled, times[0]);
    }
    forall k | 0 < k < |times|
      ensures Gain(rate, times[k - 1], times[k]) >= 1.0
    {
      CapacityAndGain(rate, times[k - 1], times[k]);
    }
    AllSpaced(rate, b.refilled, times);
    SpacedRun(rate, b, times);
  }

  lemma AllSpaced(rate: real, from: int, times: seq<int>)
    requires times != [] ==> Gain(rate, from, times[0]) >= 1.0
    requires forall k :: 0 < k < |times| ==> Gain(rate, times[k - 1], times[k]) >= 1.0
    ensures Spaced(rate, from, times)
  {
    hide Gain;
  }
}
