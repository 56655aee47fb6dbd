/** The entry-count gate between refresh cycles (`delta_verdict`) and what it promises along a
    chain of cycles. */
module DeltaGate {

  import opened Wrappers
  import opened BlocklistDownload

  const USIZE_MAX: nat := 0xffff_ffff_ffff_ffff
  const MIN_COUNT_BASELINE: nat := 5000
  const MAX_COUNT_GROWTH_MULTIPLIER: nat := 5
  const MIN_COUNT_RETENTION_DIVISOR: nat := 5
  /** Seven days, in nanoseconds. */
  const DELTA_CHECK_GRACE_PERIOD: nat := 7 * 24 * 3600 * 1_000_000_000

  function SaturatingMul(a: nat, b: nat): nat {
    if a * b <= USIZE_MAX then a * b else USIZE_MAX
  }

  /** The last accepted count and how long ago it was written. */
  datatype Baseline = Baseline(count: nat, elapsed: nat)

  function DeltaVerdict(current: nat, previous: Option<Baseline>): Result<(), ValidationFailure> {
    match previous
    case None => Success(())
    case Some(p) =>
      if p.count < MIN_COUNT_BASELINE then Success(())
      else if p.elapsed > DELTA_CHECK_GRACE_PERIOD then Success(())
      else if current > SaturatingMul(p.count, MAX_COUNT_GROWTH_MULTIPLIER)
           || SaturatingMul(current, MIN_COUNT_RETENTION_DIVISOR) < p.count
      then Failure(SuspiciousCountDelta(p.count, current))
      else Success(())
  }

  predicate IsBinding(p: Baseline) {
    p.count >= MIN_COUNT_BASELINE && p.elapsed <= DELTA_CHECK_GRACE_PERIOD
  }

  /** Saturation never shows: on 64-bit counts a binding baseline accepts exactly the counts within
      a factor of five of it, in unbounded arithmetic, and any other baseline accepts everything. */
  lemma VerdictIsFactorFive(current: nat, previous: Option<Baseline>)
    requires current <= USIZE_MAX && (previous.Some? ==> previous.value.count <= USIZE_MAX)
    ensures DeltaVerdict(current, previous).Success?
       <==> (previous.Some? && IsBinding(previous.value) ==>
               current <= 5 * previous.value.count && previous.value.count <= 5 * current)
  {
  }

  // ---------- chains of accepted cycles ----------

  /** One accepted cycle: its count, the age of the baseline it was held against, and whether its
      count was saved as the next baseline (a failed save is only logged). */
  datatype Cycle = Cycle(count: nat, elapsed: nat, saved: bool)

  /** Every cycle is accepted against the last saved count, which binds it. */
  predicate AcceptedChain(baseline: nat, cycles: seq<Cycle>)
    decreases cycles
  {
    cycles != [] ==>
      var c := cycles[0];
      && c.count <= USIZE_MAX
      && IsBinding(Baseline(baseline, c.elapsed))
      && DeltaVerdict(c.count, Some(Baseline(baseline, c.elapsed))).Success?
      && AcceptedChain(if c.saved then c.count else baseline, cycles[1..])
  }

  function SavedCount(cycles: seq<Cycle>): nat {
    if cycles == [] then 0 else (if cycles[0].saved then 1 else 0) + SavedCount(cycles[1..])
  }

  function Pow5(n: nat): (p: nat)
    ensures p >= 1
  {
    if n == 0 then 1 else 5 * Pow5(n - 1)
  }

  lemma MulMonotone(a: nat, b: nat, k: nat)
    requires a <= b
    ensures a * k <= b * k
  {
  }

  /** Drift is bounded by the saved baselines alone: after a chain whose last count is preceded by
      `k` saved ones, that count is within a factor of 5^(k+1) of the first baseline. Cycles whose
      save failed do not compound. */
  lemma {:induction false} DriftIsBoundedBySavedBaselines(baseline: nat, cycles: seq<Cycle>)
    requires cycles != [] && baseline <= USIZE_MAX && AcceptedChain(baseline, cycles)
    ensures var k := SavedCount(cycles[..|cycles| - 1]) + 1;
            var last := cycles[|cycles| - 1].count;
            last <= baseline * Pow5(k) && baseline <= last * Pow5(k)
    decreases |cycles|
  {
    var c := cycles[0];
    VerdictIsFactorFive(c.count, Some(Baseline(baseline, c.elapsed)));
    var rest := cycles[1..];
    if rest != [] {
      var next := if c.saved then c.count else baseline;
      DriftIsBoundedBySavedBaselines(next, rest);
      assert cycles[..|cycles| - 1][1..] == rest[..|rest| - 1];
      var j := SavedCount(rest[..|rest| - 1]) + 1;
      var last := rest[|rest| - 1].count;
      if c.saved {
        MulMonotone(next, 5 * baseline, Pow5(j));
        MulMonotone(baseline, 5 * next, 1);
        assert baseline * Pow5(j + 1) == 5 * baseline * Pow5(j);
        assert last * Pow5(j + 1) == 5 * (last * Pow5(j));
      }
    } else {
      assert cycles[..|cycles| - 1] == [];
      assert Pow5(1) == 5 * Pow5(0);
    }
  }

  lemma {:induction false} AllSavedCount(cycles: seq<Cycle>)
    requires forall c :: c in cycles ==> c.saved
    ensures SavedCount(cycles) == |cycles|
  {
    if cycles != [] {
      assert cycles[0] in cycles;
      assert forall c :: c in cycles[1..] ==> c in cycles;
      AllSavedCount(cycles[1..]);
    }
  }

  /** With every baseline saved, n cycles move the count by at most a factor of 5^n either way. */
  lemma DriftOverNCycles(baseline: nat, cycles: seq<Cycle>)
    requires cycles != [] && baseline <= USIZE_MAX && AcceptedChain(baseline, cycles)
    requires forall c :: c in cycles ==> c.saved
    ensures var last := cycles[|cycles| - 1].count;
            last <= baseline * Pow5(|cycles|) && baseline <= last * Pow5(|cycles|)
  {
    DriftIsBoundedBySavedBaselines(baseline, cycles);
    assert forall c :: c in cycles[..|cycles| - 1] ==> c in cycles;
    AllSavedCount(cycles[..|cycles| - 1]);
  }

  function GrowthChain(baseline: nat, n: nat): seq<Cycle>
    decreases n
  {
    if n == 0 then [] else [Cycle(5 * baseline, 0, true)] + GrowthChain(5 * baseline, n - 1)
  }

  /** The bound is tight: a feed can grow by the full factor in every one of n cycles. */
  lemma {:induction false} DriftBoundIsReached(baseline: nat, n: nat)
    requires n > 0 && baseline >= MIN_COUNT_BASELINE && baseline * Pow5(n) <= USIZE_MAX
    ensures AcceptedChain(baseline, GrowthChain(baseline, n))
    ensures |GrowthChain(baseline, n)| == n && GrowthChain(baseline, n)[n - 1].count == baseline * Pow5(n)
    decreases n
  {
    assert baseline * Pow5(n) == 5 * baseline * Pow5(n - 1);
    MulMonotone(1, Pow5(n - 1), 5 * baseline);
    assert GrowthChain(baseline, n)[1..] == GrowthChain(5 * baseline, n - 1);
    VerdictIsFactorFive(5 * baseline, Some(Baseline(baseline, 0)));
    if n > 1 {
      DriftBoundIsReached(5 * baseline, n - 1);
    }
  }
}
