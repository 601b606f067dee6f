/**
 * The two time mappings that turn a timestamp into the colormap's input:
 * linear over [begin, end), and cyclic with a period of `duration`.
 * Division is on reals; the floating-point rounding of the source is not
 * modelled.
 */
module TimeMapping {
  import opened Wrappers

  datatype Mapping =
    | Linear(begin: nat, end: nat)
    | Cyclic(begin: nat, duration: nat)

  datatype MappingError = BeginNotBeforeEnd

  /** `generate_linear_time_mapping`: fails its assertion unless begin < end. */
  function GenerateLinear(begin: nat, end: nat): (r: Result<Mapping, MappingError>)
    ensures r.Ok? <==> begin < end
    ensures r.Ok? ==> r.value.Linear? && r.value.begin == begin && r.value.end == end
  {
    if begin < end then Ok(Linear(begin, end)) else Err(BeginNotBeforeEnd)
  }

  /**
   * The integer numerator of the cyclic mapping, `(t − begin) mod duration`,
   * for timestamps at or after `begin`: the position of `t` inside its
   * period.
   */
  function CyclicPhase(begin: nat, duration: nat, t: nat): (phase: nat)
    requires 0 < duration && begin <= t
    ensures phase < duration
    ensures (t - begin - phase) % duration == 0
  {
    ModSplit(t - begin, duration);
    (t - begin) % duration
  }

  /** `n` minus its remainder is a multiple of `d`. */
  lemma ModSplit(n: nat, d: nat)
    requires 0 < d
    ensures (n - n % d) % d == 0
  {
    assert n - n % d == d * (n / d);
    MulMod(n / d, d);
  }

  lemma {:induction false} MulMod(q: nat, d: nat)
    requires 0 < d
    ensures (d * q) % d == 0
  {
    if q > 0 {
      MulMod(q - 1, d);
      assert d * q == d * (q - 1) + d;
      ModShift(d * (q - 1), d);
    }
  }

  /** Adding one period leaves the remainder unchanged. */
  lemma ModShift(n: nat, d: nat)
    requires 0 < d
    ensures (n + d) % d == n % d
  {
    var q, r := n / d, n % d;
    assert n + d == d * (q + 1) + r;
    ModUnique(n + d, d, q + 1, r);
  }

  /** The remainder is the only r in [0, d) with n = d·q + r. */
  lemma ModUnique(n: nat, d: nat, q: nat, r: nat)
    requires 0 < d && r < d && n == d * q + r
    ensures n % d == r
  {
    var q', r' := n / d, n % d;
    assert n == d * q' + r';
    if q' < q {
      assert d * (q - q') == r' - r;
      MulAtLeast(d, q - q');
    } else if q' > q {
      assert d * (q' - q) == r - r';
      MulAtLeast(d, q' - q);
    }
  }

  lemma MulAtLeast(d: nat, x: int)
    requires 0 < d && x >= 1
    ensures d * x >= d
  {
  }

  /** The cyclic numerator repeats every `duration`. */
  lemma {:induction false} CyclicPhasePeriodic(begin: nat, duration: nat, t: nat, k: nat)
    requires 0 < duration && begin <= t
    ensures CyclicPhase(begin, duration, t + k * duration) == CyclicPhase(begin, duration, t)
  {
    if k > 0 {
      CyclicPhasePeriodic(begin, duration, t, k - 1);
      assert t + k * duration - begin == (t + (k - 1) * duration - begin) + duration;
      ModShift(t + (k - 1) * duration - begin, duration);
    }
  }

  /** The value handed to the colormap for timestamp `t`. */
  function Apply(m: Mapping, t: nat): real
    requires m.begin <= t
    requires m.Linear? ==> m.begin < m.end
    requires m.Cyclic? ==> 0 < m.duration
  {
    match m
    case Linear(begin, end) => (t - begin) as real / (end - begin) as real
    case Cyclic(begin, duration) => CyclicPhase(begin, duration, t) as real / duration as real
  }

  /** Inside [begin, end) the linear mapping lands in [0, 1), and begin maps to 0. */
  lemma LinearInUnit(begin: nat, end: nat, t: nat)
    requires begin <= t < end
    ensures 0.0 <= Apply(Linear(begin, end), t) < 1.0
    ensures Apply(Linear(begin, end), begin) == 0.0
  {
    QuotientInUnit(t - begin, end - begin);
  }

  /** The cyclic mapping always lands in [0, 1). */
  lemma CyclicInUnit(begin: nat, duration: nat, t: nat)
    requires 0 < duration && begin <= t
    ensures 0.0 <= Apply(Cyclic(begin, duration), t) < 1.0
  {
    QuotientInUnit(CyclicPhase(begin, duration, t), duration);
  }

  /** The cyclic mapping gives the same value one whole number of periods later. */
  lemma CyclicPeriodic(begin: nat, duration: nat, t: nat, k: nat)
    requires 0 < duration && begin <= t
    ensures Apply(Cyclic(begin, duration), t + k * duration) == Apply(Cyclic(begin, duration), t)
  {
    CyclicPhasePeriodic(begin, duration, t, k);
  }

  lemma QuotientInUnit(n: nat, d: nat)
    requires n < d
    ensures 0.0 <= n as real / d as real < 1.0
  {
    var q := n as real / d as real;
    assert q * d as real == n as real;
  }
}
