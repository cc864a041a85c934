/**
 The per-month population and grain rules. Each rule computes a delta from
 the values of the previous month and then applies it with clamping to zero.
 Floating-point quantities (grain height, the deer-to-bear ratio) are reals.
 */
module Rules {

  /** The ratio above which bears take deer. The comparison in the deer rule
      uses the literal 2; the declared equilibrium constant has the same value. */
  const PredationThreshold: real := 2.0
  const GrainGrowsPerMonth: real := 8.0
  const OneDeerEatsPerMonth: real := 0.5
  const MidTemp: real := 40.0
  const MidPrecip: real := 10.0

  /** The deer-to-bear ratio. With no bears the program stores the largest
      float, which stands here for a value above every threshold. */
  datatype Ratio = Unbounded | Finite(value: real)

  /** The growth responses to temperature and precipitation. Their
      definitions are not part of this model, so they are parameters. */
  datatype Factors = Factors(temp: (real, real) -> real, precip: (real, real) -> real)

  function DeerToBears(deer: int, bears: int): (r: Ratio)
    ensures r.Unbounded? <==> bears <= 0
    ensures r.Finite? ==> r.value * (bears as real) == deer as real
  {
    if bears <= 0 then Unbounded else Finite(deer as real / bears as real)
  }

  /** Whether the bears press on the deer this month: the ratio strictly
      above the threshold, which the no-bear sentinel always is. */
  function Predation(ratio: Ratio): (p: bool)
    ensures ratio.Unbounded? ==> p
    ensures ratio.Finite? && ratio.value <= PredationThreshold ==> !p
  {
    match ratio
    case Unbounded => true
    case Finite(v) => v > PredationThreshold
  }

  /** Predation applies exactly when there are no bears or more than two
      deer per bear. */
  lemma PredationIff(deer: int, bears: int)
    ensures Predation(DeerToBears(deer, bears)) <==> bears <= 0 || deer > 2 * bears
  {
  }

  /** The deer rule: one up when there is more grain than deer, one down
      when there is less, and one more down under predation. */
  function DeerDelta(deer: int, height: real, ratio: Ratio): (r: int)
    ensures -2 <= r <= 1
    ensures r == 1 <==> (deer as real) < height && !Predation(ratio)
    ensures r == -2 <==> (deer as real) > height && Predation(ratio)
    ensures r == 0 <==> ((deer as real) == height && !Predation(ratio))
                        || ((deer as real) < height && Predation(ratio))
  {
    var grain := if deer as real > height then -1 else if (deer as real) < height then 1 else 0;
    if Predation(ratio) then grain - 1 else grain
  }

  function Distance(a: int, b: int): nat {
    if a < b then b - a else a - b
  }

  /** The bear rule: the bear count moves one step toward the deer count. */
  function BearDelta(bears: int, deer: int): (r: int)
    ensures -1 <= r <= 1
    ensures r == 0 <==> bears == deer
    ensures r == 1 <==> bears < deer
    ensures bears != deer ==> Distance(bears + r, deer) == Distance(bears, deer) - 1
  {
    if bears > deer then -1 else if bears < deer then 1 else 0
  }

  /** Whether a growth response lies in [0, 1]. */
  predicate InUnit(x: real) {
    0.0 <= x <= 1.0
  }

  /** The grain rule: growth scaled by both weather responses, less what
      the deer eat. With both responses in [0, 1], the grain grows by at
      most the monthly maximum and shrinks by at most half an inch per deer. */
  function GrainDelta(f: Factors, temp: real, precip: real, deer: int): (r: real)
    ensures InUnit(f.temp(temp, MidTemp)) && InUnit(f.precip(precip, MidPrecip)) ==>
              -(deer as real) * OneDeerEatsPerMonth <= r <= GrainGrowsPerMonth - (deer as real) * OneDeerEatsPerMonth
  {
    var a, b := f.temp(temp, MidTemp), f.precip(precip, MidPrecip);
    FractionProduct(a, b);
    a * b * GrainGrowsPerMonth - (deer as real) * OneDeerEatsPerMonth
  }

  /** The product of two values in [0, 1] lies in [0, 1]. */
  lemma FractionProduct(a: real, b: real)
    ensures InUnit(a) && InUnit(b) ==> InUnit(a * b)
  {
    if InUnit(a) && InUnit(b) {
      NonnegProduct(a, b);
      NonnegProduct(1.0 - a, b);
      assert (1.0 - a) * b == b - a * b;
    }
  }

  lemma NonnegProduct(x: real, y: real)
    requires x >= 0.0 && y >= 0.0
    ensures x * y >= 0.0
  {
  }

  /** More deer leave less grain: each deer costs exactly half an inch. */
  lemma GrainDeltaPerDeer(f: Factors, temp: real, precip: real, deer: int, more: int)
    ensures GrainDelta(f, temp, precip, deer) - GrainDelta(f, temp, precip, deer + more)
            == (more as real) * OneDeerEatsPerMonth
  {
  }

  /** Applying a population delta: a negative count becomes zero. */
  function ClampCount(x: int): (r: int)
    ensures r >= 0
    ensures r >= x
    ensures x >= 0 ==> r == x
    ensures x < 0 ==> r == 0
  {
    if x < 0 then 0 else x
  }

  /** Applying the grain delta: a negative height becomes zero. */
  function ClampHeight(x: real): (r: real)
    ensures r >= 0.0
    ensures r >= x
    ensures x >= 0.0 ==> r == x
    ensures x < 0.0 ==> r == 0.0
  {
    if x < 0.0 then 0.0 else x
  }
}
