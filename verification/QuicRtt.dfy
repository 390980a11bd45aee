/** The smoothed round-trip estimator, in integer arithmetic (RFC 6298, section 2; RFC 9002, section 5.3). */
module QuicRtt {
  import opened QuicVarint
  import opened QuicCredit

  datatype Quality = Excellent | Normal | HighRtt | Poor

  predicate Degraded(q: Quality) {
    q == HighRtt || q == Poor
  }

  function Classify(srtt: u64): Quality {
    if srtt <= 50000 then Excellent
    else if srtt <= 150000 then Normal
    else if srtt <= 500000 then HighRtt
    else Poor
  }

  /** The classes by their limits in milliseconds; windows grow above 150 of them. */
  lemma QualityIs(srtt: u64)
    ensures Classify(srtt) == Excellent <==> srtt <= 50 * 1000
    ensures Classify(srtt) == Normal <==> 50 * 1000 < srtt <= 150 * 1000
    ensures Classify(srtt) == HighRtt <==> 150 * 1000 < srtt <= 500 * 1000
    ensures Classify(srtt) == Poor <==> srtt > 500 * 1000
    ensures Degraded(Classify(srtt)) <==> srtt > 150 * 1000
  {
  }

  function Max(a: int, b: int): int {
    if a < b then b else a
  }

  datatype Estimator = Estimator(initialized: bool, srtt: u64, rttvar: u64, minRtt: u64)

  function Distance(a: u64, b: u64): u64 {
    if a > b then a - b else b - a
  }

  function Sample(e: Estimator, sample: u64): Estimator {
    if sample == 0 then e
    else if !e.initialized then Estimator(true, sample, sample / 2, sample)
    else
      Estimator(true,
                Wrap(Wrap(7 * e.srtt) + sample) / 8,
                Wrap(Wrap(3 * e.rttvar) + Distance(e.srtt, sample)) / 4,
                if sample < e.minRtt then sample else e.minRtt)
  }

  function Samples(e: Estimator, samples: seq<u64>): Estimator
    decreases |samples|
  {
    if samples == [] then e else Sample(Samples(e, samples[..|samples| - 1]), samples[|samples| - 1])
  }

  const FRESH := Estimator(false, 0, 0, 0)

  /** The range in which no intermediate product leaves 64 bits. */
  const SAFE_SAMPLE: nat := 0x2000_0000_0000_0000

  predicate IsMinOf(m: int, s: seq<u64>) {
    m in s && forall i :: 0 <= i < |s| ==> m <= s[i]
  }

  predicate IsMaxOf(m: int, s: seq<u64>) {
    m in s && forall i :: 0 <= i < |s| ==> s[i] <= m
  }

  /** The estimate stays between `low` and `high`, and its exact arithmetic fits in 64 bits. */
  predicate Within(e: Estimator, low: nat, high: nat) {
    e.initialized && low <= e.srtt <= high && e.rttvar <= high && low <= e.minRtt <= high
  }

  /** In the safe range no product or sum leaves 64 bits, so the arithmetic is exact. */
  lemma SampleExact(e: Estimator, sample: u64)
    requires e.initialized && 0 < sample < SAFE_SAMPLE && e.srtt < SAFE_SAMPLE && e.rttvar < SAFE_SAMPLE
    ensures 7 * e.srtt + sample < U64 && 3 * e.rttvar + Distance(e.srtt, sample) < U64
    ensures Sample(e, sample).srtt == (7 * e.srtt + sample) / 8
    ensures Sample(e, sample).rttvar == (3 * e.rttvar + Distance(e.srtt, sample)) / 4
  {
    var difference := Distance(e.srtt, sample);
    WrapSmall(7 * e.srtt);
    WrapSmall(7 * e.srtt + sample);
    WrapSmall(3 * e.rttvar);
    WrapSmall(3 * e.rttvar + difference);
  }

  /** The first sample is taken as it is, and half of it, rounded down, as its variation. */
  lemma FirstSample(sample: u64)
    requires sample > 0
    ensures var e := Sample(FRESH, sample);
            && e.initialized && e.srtt == e.minRtt == sample && 2 * e.rttvar <= sample <= 2 * e.rttvar + 1
  {
  }

  lemma WithinStep(e: Estimator, sample: u64, low: nat, high: nat)
    requires Within(e, low, high) && 0 < low <= sample <= high < SAFE_SAMPLE
    ensures Within(Sample(e, sample), low, high)
  {
    SampleExact(e, sample);
    assert 8 * low <= 7 * e.srtt + sample <= 8 * high;
    assert 3 * e.rttvar + Distance(e.srtt, sample) <= 4 * high;
  }

  lemma WithinWiden(e: Estimator, low: nat, high: nat, low': nat, high': nat)
    requires Within(e, low, high) && low' <= low && high <= high'
    ensures Within(e, low', high')
  {
  }

  /**
    For every non-empty sequence of non-zero samples: the minimum is the smallest of them,
    and the smoothed value and the variation stay within their range, without overflow.
   */
  lemma {:induction false} EstimatorBounds(samples: seq<u64>, low: nat, high: nat)
    requires IsMinOf(low, samples) && IsMaxOf(high, samples) && 0 < low && high < SAFE_SAMPLE
    ensures Within(Samples(FRESH, samples), low, high)
    ensures Samples(FRESH, samples).minRtt == low
    decreases |samples|
  {
    var n := |samples| - 1;
    var before := samples[..n];
    if n == 0 {
      assert before == [];
    } else {
      var l, h := Extremes(before);
      assert forall i :: 0 <= i < n ==> before[i] == samples[i];
      assert l in samples && h in samples;
      EstimatorBounds(before, l, h);
      var e := Samples(FRESH, before);
      WithinWiden(e, l, h, low, high);
      WithinStep(e, samples[n], low, high);
      assert low in before || low == samples[n];
    }
  }

  lemma {:induction false} Extremes(s: seq<u64>) returns (low: nat, high: nat)
    requires s != []
    ensures IsMinOf(low, s) && IsMaxOf(high, s)
    decreases |s|
  {
    var n := |s| - 1;
    low, high := s[n], s[n];
    if n > 0 {
      var t := s[..n];
      var l, h := Extremes(t);
      low, high := Min(l, s[n]), Max(h, s[n]);
      forall i | 0 <= i < |s|
        ensures low <= s[i] <= high
      {
        if i < n { assert t[i] == s[i]; }
      }
    }
  }

  /** What is claimed of the estimator after some samples. */
  predicate BoundsHold(samples: seq<u64>, low: nat, high: nat) {
    IsMinOf(low, samples) && IsMaxOf(high, samples) && 0 < low ==>
      Within(Samples(FRESH, samples), low, high) && Samples(FRESH, samples).minRtt == low
  }

  /** Two samples of 2^61 already wrap: the smoothed value becomes zero. */
  lemma TwoSamplesWrap()
    ensures var twice := [SAFE_SAMPLE, SAFE_SAMPLE];
            Samples(FRESH, twice).srtt == 0 && !BoundsHold(twice, SAFE_SAMPLE, SAFE_SAMPLE)
  {
    var twice: seq<u64> := [SAFE_SAMPLE, SAFE_SAMPLE];
    var once: seq<u64> := twice[..1];
    assert once == [SAFE_SAMPLE] && once[..0] == [];
    assert Samples(FRESH, once) == Sample(FRESH, SAFE_SAMPLE);
    assert Samples(FRESH, twice) == Sample(Samples(FRESH, once), twice[1]);
    WrapSmall(7 * SAFE_SAMPLE);
    assert Wrap(7 * SAFE_SAMPLE + SAFE_SAMPLE) == 0;
  }

  /** The bounds hold for all samples up to a limit if and only if the limit is below 2^61. */
  lemma SafeSampleIff(limit: u64)
    ensures limit < SAFE_SAMPLE <==>
            forall samples: seq<u64>, low: nat, high: nat :: high <= limit ==> BoundsHold(samples, low, high)
  {
    if limit < SAFE_SAMPLE {
      forall samples: seq<u64>, low: nat, high: nat | high <= limit
        ensures BoundsHold(samples, low, high)
      {
        if IsMinOf(low, samples) && IsMaxOf(high, samples) && 0 < low { EstimatorBounds(samples, low, high); }
      }
    } else {
      TwoSamplesWrap();
    }
  }

  /** A repeated sample moves the value strictly towards the sample, until it is at most 7 below. */
  lemma MovesCloser(e: Estimator, s: u64)
    requires e.initialized && e.srtt < SAFE_SAMPLE && 0 < s < SAFE_SAMPLE
    ensures var next := Sample(e, s).srtt;
            && (s < e.srtt ==> s <= next < e.srtt)
            && (e.srtt < s - 7 ==> e.srtt < next < s)
            && (s - 7 <= e.srtt <= s ==> next == e.srtt)
  {
    WrapSmall(7 * e.srtt);
    WrapSmall(7 * e.srtt + s);
    assert Sample(e, s).srtt == (7 * e.srtt + s) / 8;
  }

  /** The same sample `n` times. */
  function Copies(s: u64, n: nat): seq<u64> {
    seq(n, _ => s)
  }

  /** Each of `n` equal samples brings the value at least one closer, and a settled value stays. */
  lemma {:induction false} Approaches(e: Estimator, s: u64, n: nat)
    requires e.initialized && e.srtt < SAFE_SAMPLE && 0 < s < SAFE_SAMPLE
    ensures var v := Samples(e, Copies(s, n));
            && v.initialized
            && (s <= e.srtt ==> s <= v.srtt <= Max(s, e.srtt - n))
            && (e.srtt < s ==> Min(e.srtt + n, s - 7) <= v.srtt <= s)
            && (s - 7 <= e.srtt <= s ==> v.srtt == e.srtt)
  {
    if n > 0 {
      Approaches(e, s, n - 1);
      assert Copies(s, n)[..n - 1] == Copies(s, n - 1);
      MovesCloser(Samples(e, Copies(s, n - 1)), s);
    }
  }

  /**
    Under a constant sample the value settles: exactly on the sample when it comes from
    above, and otherwise on a value at most 7 below it.
   */
  lemma Settles(e: Estimator, s: u64, n: nat)
    requires e.initialized && e.srtt < SAFE_SAMPLE && 0 < s < SAFE_SAMPLE
    requires n >= e.srtt - s && n >= s - 7 - e.srtt
    ensures s <= e.srtt ==> Samples(e, Copies(s, n)).srtt == s
    ensures e.srtt < s ==> s - 7 <= Samples(e, Copies(s, n)).srtt <= s
  {
    Approaches(e, s, n);
  }
}
