/** Filling a stress case with neutral padding until it measures exactly the
    target number of input tokens. */
module StressFill {
  import opened Text

  const MAX_PADDING: int := 2 * 1024 * 1024
  const NEIGHBOURHOOD := 128

  datatype Measurement = Measurement(prompt: string, tokens: int)

  datatype Failure =
    | TargetExceedsContext | MeasurementFailed | CaseExceedsContext | BaseAboveTarget | TargetUnreachable | NotConstructible

  datatype Outcome = Prepared(prompt: string, tokens: int, padding: int) | Failed(failure: Failure)

  function Max(a: int, b: int): int {
    if a < b then b else a
  }

  function Min(a: int, b: int): int {
    if a < b then a else b
  }

  /** The tokenizer endpoint: the n-th request's answer, if it gives one. */
  type Oracle = (nat, int) -> Option<int>

  ghost predicate Answered(oracle: Oracle, requests: nat, padding: int, tokens: int) {
    exists n :: 0 <= n < requests && oracle(n, padding) == Some(tokens)
  }

  /** The endpoint always answers, and its positive answer depends on the padding alone. */
  ghost predicate Steady(oracle: Oracle, count: int -> int) {
    forall n, p :: oracle(n, p) == Some(count(p)) && count(p) > 0
  }

  ghost predicate NonDecreasing(count: int -> int) {
    forall p, q :: 0 <= p <= q <= MAX_PADDING ==> count(p) <= count(q)
  }

  predicate InRange(padding: int) {
    0 <= padding <= MAX_PADDING
  }

  /** The cache of the padding measurements taken so far. */
  class Meter {
    const render: int -> string
    const oracle: Oracle
    var cache: map<int, Measurement>
    var requests: nat

    ghost predicate Valid()
      reads this
    {
      forall p :: p in cache ==> InRange(p) && cache[p].prompt == render(p) && cache[p].tokens > 0
                                 && Answered(oracle, requests, p, cache[p].tokens)
    }

    constructor (render: int -> string, oracle: Oracle)
      ensures Valid() && cache == map[] && requests == 0 && this.render == render && this.oracle == oracle
    {
      this.render, this.oracle, cache, requests := render, oracle, map[], 0;
    }

    /** One measurement: at most one request, and none for a padding seen before. */
    method Measured(padding: int) returns (value: Option<Measurement>)
      requires Valid()
      modifies this
      ensures Valid()
      ensures padding in old(cache) ==> value == Some(old(cache)[padding]) && requests == old(requests)
      ensures old(requests) <= requests <= old(requests) + 1
      ensures value.None? ==> cache == old(cache)
      ensures value.Some? ==> cache == old(cache)[padding := value.value]
      ensures value.Some? ==> InRange(padding) && value.value.prompt == render(padding) && value.value.tokens > 0
      ensures forall count :: Steady(oracle, count) && InRange(padding) ==> value.Some? && value.value.tokens == count(padding)
    {
      if padding in cache {
        return Some(cache[padding]);
      }
      if !InRange(padding) {
        return None;
      }
      var answer := oracle(requests, padding);
      requests := requests + 1;
      if answer.None? || answer.value <= 0 {
        return None;
      }
      var measurement := Measurement(render(padding), answer.value);
      cache := cache[padding := measurement];
      return Some(measurement);
    }
  }

  // ---- The search ----

  function Pow2(k: nat): nat {
    if k == 0 then 1 else 2 * Pow2(k - 1)
  }

  lemma {:induction false} Pow2Grows(j: nat, k: nat)
    ensures j < k ==> 2 * Pow2(j) <= Pow2(k)
    ensures Pow2(j) > 0
    decreases j + k
  {
    if j > 0 && k > 0 {
      Pow2Grows(j - 1, k - 1);
    } else if j > 0 {
      Pow2Grows(j - 1, 0);
    } else if k > 1 {
      Pow2Grows(0, k - 1);
    }
  }

  lemma Pow2Values()
    ensures Pow2(11) == 2048 && Pow2(12) == 4096 && Pow2(20) == 1024 * 1024 && Pow2(21) == MAX_PADDING
  {
  }

  /** The tokens the meter has measured for a padding, at most or above the target. */
  ghost predicate AtMost(meter: Meter, padding: int, target: int)
    reads meter
  {
    padding in meter.cache && meter.cache[padding].tokens <= target
  }

  ghost predicate Above(meter: Meter, padding: int, target: int)
    reads meter
  {
    padding in meter.cache && meter.cache[padding].tokens > target
  }

  /** A failure that a steady endpoint cannot cause. */
  ghost predicate Unsteady(oracle: Oracle) {
    forall count :: !Steady(oracle, count)
  }

  /** Where the doubling stands: nothing doubled yet, or the last padding that
      measured at most the target is half the next one. */
  predicate Doubling(low: int, high: int, doublings: nat) {
    && 0 <= low < high && low <= MAX_PADDING && 1024 * Pow2(doublings) <= high
    && if doublings == 0 then low == 0 else 2 * low == high
  }

  lemma NextDoubling(low: int, high: int, doublings: nat)
    requires Doubling(low, high, doublings) && high <= MAX_PADDING
    ensures Doubling(high, high * 2, doublings + 1)
  {
  }

  function HalvingsLeft(doublings: nat): nat {
    if doublings == 0 then 21 else 20
  }

  /** However the doubling ends, few requests were made and the bracket is small. */
  lemma DoublingFits(low: int, high: int, doublings: nat)
    requires Doubling(low, high, doublings)
    ensures doublings <= 12 && (high <= MAX_PADDING ==> doublings <= 11)
    ensures Min(high, MAX_PADDING) - low <= Pow2(HalvingsLeft(doublings))
    ensures low < MAX_PADDING ==> doublings <= 11 && low < Min(high, MAX_PADDING)
  {
    Pow2Values();
    Pow2Grows(11, doublings);
    Pow2Grows(12, doublings);
  }

  /** Doubles the padding until it measures above the target. */
  method Bracket(meter: Meter, target: int, initial: int)
    returns (failure: Option<Failure>, low: int, high: int, ghost halvings: nat)
    requires meter.Valid() && AtMost(meter, 0, target) && meter.requests <= 1
    modifies meter
    ensures meter.Valid() && meter.requests + (if failure.None? then halvings else 0) <= 33
    ensures failure.None? ==> AtMost(meter, low, target) && Above(meter, high, target) && low < high && high - low <= Pow2(halvings)
    ensures failure == Some(MeasurementFailed) ==> Unsteady(meter.oracle)
    ensures failure.Some? ==> failure.value == MeasurementFailed
                              || (failure.value == TargetUnreachable && AtMost(meter, MAX_PADDING, target))
  {
    low, high := 0, Max(1024, initial);
    ghost var doublings := 0;
    while high <= MAX_PADDING
      invariant meter.Valid() && AtMost(meter, low, target) && Doubling(low, high, doublings)
      invariant meter.requests <= 1 + doublings
      decreases MAX_PADDING - high
    {
      DoublingFits(low, high, doublings);
      var value := meter.Measured(high);
      if value.None? {
        return Some(MeasurementFailed), low, high, 0;
      }
      if value.value.tokens > target {
        return None, low, high, HalvingsLeft(doublings);
      }
      NextDoubling(low, high, doublings);
      low, high, doublings := high, high * 2, doublings + 1;
    }
    DoublingFits(low, high, doublings);
    high := MAX_PADDING;
    failure := AtMaximum(meter, target);
    halvings := HalvingsLeft(doublings);
  }

  /** The last resort of the doubling: the largest padding must exceed the target. */
  method AtMaximum(meter: Meter, target: int) returns (failure: Option<Failure>)
    requires meter.Valid()
    modifies meter
    ensures meter.Valid() && meter.requests <= old(meter.requests) + 1
    ensures forall p :: p in old(meter.cache) ==> p in meter.cache && meter.cache[p] == old(meter.cache)[p]
    ensures failure.None? ==> Above(meter, MAX_PADDING, target)
    ensures failure == Some(MeasurementFailed) ==> Unsteady(meter.oracle)
    ensures failure.Some? ==> failure.value == MeasurementFailed
                              || (failure.value == TargetUnreachable && AtMost(meter, MAX_PADDING, target))
  {
    var value := meter.Measured(MAX_PADDING);
    if value.None? {
      return Some(MeasurementFailed);
    }
    failure := if value.value.tokens <= target then Some(TargetUnreachable) else None;
  }

  lemma HalvesFit(length: int, k: nat)
    requires 1 < length <= Pow2(k)
    ensures k > 0 && length / 2 <= Pow2(k - 1) && length - length / 2 <= Pow2(k - 1)
  {
  }

  /** Bisects between a padding at most and a padding above the target. */
  method Bisect(meter: Meter, target: int, from: int, to: int, ghost halvings: nat)
    returns (failed: bool, low: int, high: int)
    requires meter.Valid() && AtMost(meter, from, target) && Above(meter, to, target)
    requires from < to && to - from <= Pow2(halvings) && meter.requests + halvings <= 33
    modifies meter
    ensures meter.Valid() && meter.requests <= 33
    ensures failed ==> Unsteady(meter.oracle)
    ensures !failed ==> low + 1 == high && AtMost(meter, low, target) && Above(meter, high, target)
  {
    low, high := from, to;
    ghost var left := halvings;
    while low + 1 < high
      invariant meter.Valid() && AtMost(meter, low, target) && Above(meter, high, target)
      invariant low < high && high - low <= Pow2(left) && meter.requests + left <= 33
      decreases high - low
    {
      HalvesFit(high - low, left);
      var middle := low + (high - low) / 2;
      var value := meter.Measured(middle);
      if value.None? {
        return true, low, high;
      }
      left := left - 1;
      if value.value.tokens <= target {
        low := middle;
      } else {
        high := middle;
      }
    }
    failed := false;
  }

  /** Probes a bounded neighbourhood of the boundary, lowest padding first. */
  method ProbeAround(meter: Meter, target: int, low: int, high: int) returns (outcome: Outcome)
    requires meter.Valid() && meter.requests <= 33 && low + 1 == high
    requires low in meter.cache && high in meter.cache
    modifies meter
    ensures meter.Valid() && meter.requests <= 289
    ensures outcome.Prepared? ==> outcome.padding in meter.cache && meter.cache[outcome.padding] == Measurement(outcome.prompt, outcome.tokens)
                                  && outcome.tokens == target
    ensures outcome == Failed(MeasurementFailed) ==> Unsteady(meter.oracle)
    ensures outcome.Failed? ==> outcome.failure in {MeasurementFailed, NotConstructible}
  {
    var start, stop := Max(0, low - NEIGHBOURHOOD), Min(MAX_PADDING, high + NEIGHBOURHOOD);
    for padding := start to stop + 1
      invariant meter.Valid() && low in meter.cache && high in meter.cache
      invariant meter.requests <= 33 + (padding - start) - (if padding > low then 1 else 0) - (if padding > high then 1 else 0)
    {
      var value := meter.Measured(padding);
      if value.None? {
        return Failed(MeasurementFailed);
      }
      if value.value.tokens == target {
        return Prepared(value.value.prompt, value.value.tokens, padding);
      }
    }
    return Failed(NotConstructible);
  }

  ghost predicate Reaches(count: int -> int, target: int) {
    exists p :: InRange(p) && count(p) == target
  }

  /** When the search succeeds with a steady, non-decreasing tokenizer: the bare
      case has the target size, or some padding does and the largest exceeds it. */
  ghost predicate Reachable(count: int -> int, target: int) {
    count(0) == target || (Reaches(count, target) && count(MAX_PADDING) > target)
  }

  ghost predicate CacheAgrees(meter: Meter, count: int -> int)
    reads meter
  {
    forall p :: p in meter.cache ==> InRange(p) && meter.cache[p].tokens == count(p)
  }

  lemma SteadyCacheAgrees(meter: Meter, count: int -> int)
    requires meter.Valid() && Steady(meter.oracle, count)
    ensures CacheAgrees(meter, count)
  {
  }

  /** Between a padding at most and the next one above the target, only the first
      can have the target size. */
  lemma BoundaryDecides(count: int -> int, low: int, target: int)
    requires NonDecreasing(count) && InRange(low) && InRange(low + 1)
    requires count(low) <= target < count(low + 1)
    ensures Reaches(count, target) <==> count(low) == target
    ensures count(MAX_PADDING) > target
  {
  }

  /** The bracketed search: from the measured base to an exact case. */
  method Fill(meter: Meter, target: int, initial: int) returns (outcome: Outcome)
    requires meter.Valid() && meter.requests <= 1 && 0 in meter.cache && meter.cache[0].tokens < target
    modifies meter
    ensures meter.Valid() && meter.requests <= 289
    ensures outcome.Prepared? ==> outcome.padding in meter.cache && outcome.tokens == target
                                  && meter.cache[outcome.padding] == Measurement(outcome.prompt, outcome.tokens)
    ensures forall count :: Steady(meter.oracle, count) && NonDecreasing(count) ==>
              (outcome.Prepared? <==> Reachable(count, target))
    ensures outcome.Failed? ==> outcome.failure in {MeasurementFailed, TargetUnreachable, NotConstructible}
    ensures outcome == Failed(MeasurementFailed) ==> Unsteady(meter.oracle)
    ensures outcome == Failed(TargetUnreachable) ==> AtMost(meter, MAX_PADDING, target)
  {
    var failure, low, high, halvings := Bracket(meter, target, initial);
    if failure.Some? {
      forall count | Steady(meter.oracle, count) && NonDecreasing(count) ensures !Reachable(count, target) {
        SteadyCacheAgrees(meter, count);
        assert count(0) <= count(MAX_PADDING) <= target;
      }
      return Failed(failure.value);
    }
    var failed;
    failed, low, high := Bisect(meter, target, low, high, halvings);
    if failed {
      return Failed(MeasurementFailed);
    }
    var value := meter.Measured(low);
    assert value == Some(meter.cache[low]);
    forall count | Steady(meter.oracle, count) && NonDecreasing(count)
      ensures Reachable(count, target) <==> meter.cache[low].tokens == target
    {
      SteadyCacheAgrees(meter, count);
      BoundaryDecides(count, low, target);
    }
    ghost var settled := meter.cache[low].tokens;
    if value.value.tokens != target {
      outcome := ProbeAround(meter, target, low, high);
      forall count | Steady(meter.oracle, count) && NonDecreasing(count) ensures outcome.Failed? {
        SteadyCacheAgrees(meter, count);
      }
    } else {
      outcome := Prepared(value.value.prompt, value.value.tokens, low);
    }
  }

  /** Some answer among the requests made was within the limit, or beyond it. */
  ghost predicate AnsweredAtMost(oracle: Oracle, requests: nat, padding: int, limit: int) {
    exists tokens :: Answered(oracle, requests, padding, tokens) && tokens <= limit
  }

  ghost predicate AnsweredAbove(oracle: Oracle, requests: nat, padding: int, limit: int) {
    exists tokens :: Answered(oracle, requests, padding, tokens) && tokens > limit
  }

  /** What each failure means. */
  ghost predicate FailsFor(failure: Failure, oracle: Oracle, requests: nat, target: int, context: int, output: int, initial: int) {
    match failure
    case TargetExceedsContext => target < 0 || target > context - output
    case MeasurementFailed => Unsteady(oracle) || (target == 0 && !InRange(initial))
    case CaseExceedsContext => target == 0 && AnsweredAbove(oracle, requests, initial, context - output)
    case BaseAboveTarget => target > 0 && AnsweredAbove(oracle, requests, 0, target)
    case TargetUnreachable => target > 0 && AnsweredAtMost(oracle, requests, MAX_PADDING, target)
    case NotConstructible => 0 < target <= context - output
  }

  method PrepareGenerationCase(render: int -> string, oracle: Oracle, targetInput: Option<int>, context: int,
                               output: int, initial: int) returns (outcome: Outcome, requests: nat)
    ensures requests <= 289
    ensures outcome.Prepared? ==> InRange(outcome.padding) && outcome.prompt == render(outcome.padding)
                                  && Answered(oracle, requests, outcome.padding, outcome.tokens)
                                  && outcome.tokens + output <= context
    ensures outcome.Prepared? ==> var target := if targetInput.None? then 0 else targetInput.value;
                                  if target == 0 then outcome.padding == initial else outcome.tokens == target
    ensures outcome.Failed? ==> FailsFor(outcome.failure, oracle, requests, if targetInput.None? then 0 else targetInput.value,
                                         context, output, initial)
    ensures targetInput.None? || targetInput.value == 0 ==>
              forall count :: Steady(oracle, count) ==>
                (outcome.Prepared? <==> output <= context && InRange(initial) && count(initial) + output <= context)
    ensures targetInput.Some? && targetInput.value != 0 ==>
              forall count :: Steady(oracle, count) && NonDecreasing(count) ==>
                (outcome.Prepared? <==> 0 < targetInput.value <= context - output && Reachable(count, targetInput.value))
  {
    var target := if targetInput.None? then 0 else targetInput.value;
    if target < 0 || target > context - output {
      return Failed(TargetExceedsContext), 0;
    }
    var meter := new Meter(render, oracle);
    if target == 0 {
      var value := meter.Measured(initial);
      if value.None? {
        return Failed(MeasurementFailed), meter.requests;
      }
      if value.value.tokens + output > context {
        return Failed(CaseExceedsContext), meter.requests;
      }
      return Prepared(value.value.prompt, value.value.tokens, initial), meter.requests;
    }
    var base := meter.Measured(0);
    if base.None? {
      return Failed(MeasurementFailed), meter.requests;
    }
    if base.value.tokens > target {
      forall count | Steady(oracle, count) && NonDecreasing(count) ensures !Reachable(count, target) {
        assert forall p :: InRange(p) ==> count(0) <= count(p);
      }
      return Failed(BaseAboveTarget), meter.requests;
    }
    if base.value.tokens == target {
      return Prepared(base.value.prompt, base.value.tokens, 0), meter.requests;
    }
    outcome := Fill(meter, target, initial);
    requests := meter.requests;
  }
}
