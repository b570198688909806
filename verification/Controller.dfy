/** The adaptive controller that turns a rank's parameter cache into the PCIe share alpha: one
    algorithm instance per operation, what each algorithm suggests from a cached entry and what
    rank 0 learns from a measured run. Reals stand for doubles. */
module Controller {
  datatype OpKey = OpKey(op: nat, bytes: nat, bucketBytes: nat, dataType: nat, ranks: nat, topology: nat)

  datatype Param = Param(alpha: real, usePcie: bool)

  type Cache = map<OpKey, Param>

  /** The configured algorithm; `initial` is what a fresh instance starts from. */
  datatype AnyAlgorithm =
    | InverseProportion(initial: real, decrease: real, low: real, high: real)
    | SplitRatio(initial: real, minimum: real, eta: real, smooth: real, warmup: nat)
    | Static(initial: real)

  /** Eta and the smoothing factor always lie strictly between 0 and 1; the initial and the minimum
      alpha of split-ratio are whatever the environment says. */
  type Algorithm = a: AnyAlgorithm | a.SplitRatio? ==> 0.0 < a.eta < 1.0 && 0.0 < a.smooth < 1.0
    witness Static(0.8)

  const INVERSE_MIN: real := 0.001
  const INVERSE_MAX: real := 0.39
  const SPLIT_MAX: real := 0.999
  const MIB: nat := 0x10_0000
  const GIB: real := 1073741824.0

  function Between(low: real, x: real, high: real): real {
    if x < low then low else if x > high then high else x
  }

  /** `std::max(low, std::min(high, x))`: the lower bound wins. */
  function MaxMin(low: real, x: real, high: real): real {
    var capped := if high < x then high else x;
    if low < capped then capped else low
  }

  // ---- Suggesting ----

  /** The alpha an instance holding `own` suggests for the cached parameter. */
  function Suggested(algo: Algorithm, own: real, cached: Param): real {
    match algo
    case InverseProportion(_, _, _, _) => Between(INVERSE_MIN, cached.alpha, INVERSE_MAX)
    case SplitRatio(_, minimum, _, _, _) =>
      MaxMin(minimum, if cached.alpha > 0.0 then cached.alpha else own, SPLIT_MAX)
    case Static(_) => own
  }

  /** When the suggestion for a cached entry is the same whatever the instance went through: always
      with the inverse-proportion algorithm, and with split-ratio exactly when the cached alpha is
      positive or the configured minimum leaves no choice. */
  lemma SuggestionIgnoresOwnExactly(algo: Algorithm, cached: Param)
    ensures (forall own1, own2 :: Suggested(algo, own1, cached) == Suggested(algo, own2, cached)) <==>
            algo.InverseProportion? || (algo.SplitRatio? && (cached.alpha > 0.0 || algo.minimum >= SPLIT_MAX))
  {
    if algo.SplitRatio? && cached.alpha <= 0.0 && algo.minimum < SPLIT_MAX {
      assert Suggested(algo, algo.minimum, cached) == algo.minimum;
      assert Suggested(algo, SPLIT_MAX, cached) == SPLIT_MAX;
    } else if algo.Static? {
      assert Suggested(algo, 0.0, cached) != Suggested(algo, 1.0, cached);
    }
  }

  // ---- Learning ----

  /** The measurements of a run: times in seconds, zero when not measured. */
  datatype Stat = Stat(fastOk: bool, pcieOk: bool, fastBytes: nat, pcieBytes: nat, fastTime: real, pcieTime: real)

  /** In GiB a second; zero without bytes or without a time. */
  function Bandwidth(bytes: nat, time: real): (b: real)
    ensures b >= 0.0 && (b > 0.0 <==> bytes > 0 && time > 0.0)
  {
    if time > 0.0 && bytes > 0 then
      QuotientPositive(bytes as real, time);
      QuotientPositive(bytes as real / time, GIB);
      bytes as real / time / GIB
    else 0.0
  }

  lemma QuotientPositive(x: real, y: real)
    requires x > 0.0 && y > 0.0
    ensures x / y > 0.0
  {
    Sign(x / y, y);
  }

  lemma Sign(a: real, m: real)
    requires m > 0.0
    ensures a * m > 0.0 <==> a > 0.0
    ensures a * m == 0.0 <==> a == 0.0
  {
  }

  /** The state of one algorithm object: its alpha, the smoothed PCIe bandwidth (split-ratio) and
      how many runs it has counted. */
  datatype Instance = Instance(alpha: real, bandwidth: real, samples: nat)

  function Fresh(algo: Algorithm): Instance {
    Instance(algo.initial, 0.0, 0)
  }

  function Learn(algo: Algorithm, me: Instance, st: Stat): Instance {
    match algo
    case InverseProportion(_, _, _, _) => LearnInverse(algo, me, st)
    case SplitRatio(_, _, _, _, _) => LearnSplit(algo, me, st)
    case Static(_) => me
  }

  function AfterFailure(alpha: real, factor: real, least: real): real {
    if alpha * factor < least then least else alpha * factor
  }

  /** The first two usable runs are only counted. */
  function LearnInverse(algo: Algorithm, me: Instance, st: Stat): Instance
    requires algo.InverseProportion?
  {
    if !st.fastOk || !st.pcieOk then me.(alpha := AfterFailure(me.alpha, algo.decrease, INVERSE_MIN))
    else if st.pcieBytes == 0 then me
    else if me.samples < 2 then me.(samples := me.samples + 1)
    else if st.pcieTime > 0.0 && st.fastTime > 0.0 then
      me.(alpha := AtRate(me.alpha, st.fastTime / st.pcieTime, algo.low, algo.high), samples := me.samples + 1)
    else me.(alpha := Between(INVERSE_MIN, me.alpha, INVERSE_MAX), samples := me.samples + 1)
  }

  function AtRate(alpha: real, rate: real, low: real, high: real): real {
    if low < rate < high then alpha
    else if rate <= low then Between(INVERSE_MIN, alpha * 0.5, INVERSE_MAX)
    else Between(INVERSE_MIN, alpha * (rate * 0.96), INVERSE_MAX)
  }

  /** Both sides worked, PCIe carried bytes, and both bandwidths could be measured. */
  predicate Usable(st: Stat) {
    && st.fastOk && st.pcieOk && st.pcieBytes > 0
    && Bandwidth(st.pcieBytes, st.pcieTime) > 0.0 && Bandwidth(st.fastBytes, st.fastTime) > 0.0
  }

  /** Small PCIe parts do not change an estimate that exists already. */
  function Smoothed(algo: Algorithm, before: real, st: Stat): (bp: real)
    requires algo.SplitRatio? && Usable(st)
    ensures bp > 0.0
  {
    var now := Bandwidth(st.pcieBytes, st.pcieTime);
    if before <= 0.0 then now
    else if st.pcieBytes >= 4 * MIB then
      MixPositive(algo.smooth, now, before);
      algo.smooth * now + (1.0 - algo.smooth) * before
    else before
  }

  /** The share of PCIe in the two bandwidths. */
  function Balance(bp: real, bf: real): (x: real)
    requires bp > 0.0 && bf > 0.0
    ensures 0.0 < x < 1.0
  {
    BalanceInside(bp, bf);
    bp / (bp + bf)
  }

  /** PCIe would take clearly longer than the fast side. */
  predicate Overloaded(alpha: real, bp: real, bf: real)
    requires bp > 0.0 && bf > 0.0
  {
    alpha / bp > (1.0 - alpha) / bf * 1.05
  }

  /** After the warm-up an overloaded PCIe gives up a tenth when the run was big. */
  predicate BacksOff(algo: Algorithm, alpha: real, count: nat, pcieBytes: nat, bp: real, bf: real)
    requires algo.SplitRatio? && bp > 0.0 && bf > 0.0
  {
    count > algo.warmup && Overloaded(alpha, bp, bf) && pcieBytes >= 16 * MIB
  }

  function Towards(alpha: real, x: real, eta: real): real {
    alpha + eta * (x - alpha)
  }

  function Moved(algo: Algorithm, alpha: real, count: nat, pcieBytes: nat, bp: real, bf: real): real
    requires algo.SplitRatio? && bp > 0.0 && bf > 0.0
  {
    if BacksOff(algo, alpha, count, pcieBytes, bp, bf) then alpha * 0.9
    else Towards(alpha, Balance(bp, bf), algo.eta)
  }

  function LearnSplit(algo: Algorithm, me: Instance, st: Stat): Instance
    requires algo.SplitRatio?
  {
    var count := me.samples + 1;
    if !st.fastOk || !st.pcieOk then
      Instance(AfterFailure(me.alpha, 0.5, algo.minimum), me.bandwidth, count)
    else if !Usable(st) then Instance(me.alpha, me.bandwidth, count)
    else
      var bp := Smoothed(algo, me.bandwidth, st);
      var next := Moved(algo, me.alpha, count, st.pcieBytes, bp, Bandwidth(st.fastBytes, st.fastTime));
      Instance(MaxMin(algo.minimum, next, SPLIT_MAX), bp, count)
  }

  lemma MixPositive(part: real, x: real, y: real)
    requires 0.0 < part < 1.0 && x > 0.0 && y > 0.0
    ensures part * x + (1.0 - part) * y > 0.0
  {
    Sign(part, x);
    Sign(1.0 - part, y);
  }

  lemma BalanceInside(bp: real, bf: real)
    requires bp > 0.0 && bf > 0.0
    ensures 0.0 < bp / (bp + bf) < 1.0
  {
    QuotientPositive(bp, bp + bf);
    QuotientPositive(bf, bp + bf);
    assert (bp / (bp + bf)) * (bp + bf) == bp;
    assert (bf / (bp + bf)) * (bp + bf) == bf;
    assert (bp / (bp + bf) + bf / (bp + bf)) * (bp + bf) == bp + bf;
    assert bp / (bp + bf) + bf / (bp + bf) == 1.0;
  }

  // ---- One instance per operation key, created on first use ----

  type Instances = map<OpKey, Instance>

  function InstanceOf(algo: Algorithm, m: Instances, k: OpKey): Instance {
    if k in m then m[k] else Fresh(algo)
  }

  /** The instance's own alpha as long as no round has given a parameter for the operation. */
  function AlphaFor(algo: Algorithm, m: Instances, k: OpKey, cache: Cache): real {
    var own := InstanceOf(algo, m, k).alpha;
    if k in cache then Suggested(algo, own, cache[k]) else own
  }

  function AfterSuggest(algo: Algorithm, m: Instances, k: OpKey, cache: Cache): Instances {
    m[k := InstanceOf(algo, m, k).(alpha := AlphaFor(algo, m, k, cache))]
  }

  function AfterUpdate(algo: Algorithm, m: Instances, k: OpKey, st: Stat): Instances {
    m[k := Learn(algo, InstanceOf(algo, m, k), st)]
  }

  /** PCIe is on by default. */
  function UseFor(k: OpKey, cache: Cache): bool {
    if k in cache then cache[k].usePcie else true
  }

  /** What rank 0 puts into its cache and announces after a measured run: PCIe stays as it was
      unless this run put bytes on it or it is disabled. */
  function ParamAfter(algo: Algorithm, m: Instances, k: OpKey, st: Stat, pcieEnabled: bool, cache: Cache): Param {
    var worked := st.pcieOk && Bandwidth(st.pcieBytes, st.pcieTime) > 0.0;
    Param(Learn(algo, InstanceOf(algo, m, k), st).alpha,
          pcieEnabled && if st.pcieBytes > 0 then worked else UseFor(k, cache))
  }

  /** Instances of keys that no round has ever given a parameter for are as new; static ones always
      are. */
  ghost predicate AsNew(algo: Algorithm, m: Instances, cache: Cache) {
    forall k :: k in m && (k !in cache || algo.Static?) ==> m[k] == Fresh(algo)
  }

  class AdaptiveController {
    const algo: Algorithm
    var instances: Instances

    constructor (algo: Algorithm)
      ensures this.algo == algo && instances == map[]
    {
      this.algo := algo;
      instances := map[];
    }

    ghost predicate Valid(cache: Cache)
      reads this
    {
      AsNew(algo, instances, cache)
    }

    method GetOrCreate(k: OpKey) returns (me: Instance)
      modifies this
      ensures me == InstanceOf(algo, old(instances), k) && instances == old(instances)[k := me]
    {
      if k !in instances {
        instances := instances[k := Fresh(algo)];
      }
      me := instances[k];
      assert k in old(instances) ==> old(instances)[k := me] == old(instances);
    }

    method SuggestAlpha(k: OpKey, cache: Cache) returns (alpha: real)
      requires Valid(cache)
      modifies this
      ensures Valid(cache)
      ensures alpha == AlphaFor(algo, old(instances), k, cache)
      ensures k !in cache || algo.Static? ==> alpha == algo.initial
      ensures k in cache && algo.InverseProportion? ==>
        && (0.001 <= cache[k].alpha <= 0.39 ==> alpha == cache[k].alpha)
        && (cache[k].alpha < 0.001 ==> alpha == 0.001) && (cache[k].alpha > 0.39 ==> alpha == 0.39)
      ensures k in cache && algo.SplitRatio? ==>
        var wanted := if cache[k].alpha > 0.0 then cache[k].alpha else old(InstanceOf(algo, instances, k).alpha);
        && (algo.minimum <= wanted <= 0.999 ==> alpha == wanted)
        && (wanted < algo.minimum || algo.minimum > 0.999 ==> alpha == algo.minimum)
        && (wanted > 0.999 >= algo.minimum ==> alpha == 0.999)
      ensures instances == AfterSuggest(algo, old(instances), k, cache)
    {
      var me := GetOrCreate(k);
      if k !in cache {
        alpha := me.alpha;
      } else {
        alpha := Suggested(algo, me.alpha, cache[k]);
        instances := instances[k := me.(alpha := alpha)];
      }
    }

    /** Rank 0's feedback after a measured run. */
    method Update(k: OpKey, st: Stat, pcieEnabled: bool, cache: Cache) returns (cache': Cache)
      requires Valid(cache)
      modifies this
      ensures Valid(cache') && instances == AfterUpdate(algo, old(instances), k, st)
      ensures cache' == cache[k := ParamAfter(algo, old(instances), k, st, pcieEnabled, cache)]
      ensures cache'[k].alpha == instances[k].alpha
      ensures !pcieEnabled ==> !cache'[k].usePcie
      ensures pcieEnabled && st.pcieBytes > 0 ==> (cache'[k].usePcie <==> st.pcieOk && st.pcieTime > 0.0)
      ensures pcieEnabled && st.pcieBytes == 0 ==> (cache'[k].usePcie <==> k !in cache || cache[k].usePcie)
    {
      var me := GetOrCreate(k);
      var usePcie := UseFor(k, cache);
      me := Learn(algo, me, st);
      instances := instances[k := me];
      if pcieEnabled {
        if st.pcieBytes > 0 {
          usePcie := st.pcieOk && Bandwidth(st.pcieBytes, st.pcieTime) > 0.0;
        }
      } else {
        usePcie := false;
      }
      cache' := cache[k := Param(me.alpha, usePcie)];
    }
  }

  // ---- What the inverse-proportion algorithm learns ----

  lemma RateDirection(alpha: real, rate: real, low: real, high: real)
    requires INVERSE_MIN <= alpha <= INVERSE_MAX && 0.0 < low < high
    ensures INVERSE_MIN <= AtRate(alpha, rate, low, high) <= INVERSE_MAX
    ensures AtRate(alpha, rate, low, high) > alpha ==> rate >= high && rate * 0.96 > 1.0
    ensures AtRate(alpha, rate, low, high) < alpha ==> rate <= low || (rate >= high && rate * 0.96 < 1.0)
  {
    if rate >= high {
      if rate * 0.96 >= 1.0 {
        Grows(alpha, rate * 0.96);
      } else {
        Shrinks(alpha, rate * 0.96);
      }
      assert rate * 0.96 == 1.0 ==> alpha * (rate * 0.96) == alpha;
    }
  }

  predicate TakesAway(rate: real, low: real, high: real) {
    rate <= low || (rate >= high && rate * 0.96 < 1.0)
  }

  predicate Timed(st: Stat) {
    st.fastTime > 0.0 && st.pcieTime > 0.0
  }

  /** It never leaves its range, moves towards PCIe only when PCIe was clearly the faster side, and
      away from it only after a failure, when PCIe was clearly the slower side, or when the upper
      hold rate is so low that 0.96 of a rate beyond it is still less than one. */
  lemma LearnsInTheRightDirection(algo: Algorithm, me: Instance, st: Stat)
    requires algo.InverseProportion? && 0.0 < algo.decrease <= 1.0 && 0.0 < algo.low < algo.high
    requires INVERSE_MIN <= me.alpha <= INVERSE_MAX
    ensures var next := Learn(algo, me, st).alpha;
      && INVERSE_MIN <= next <= INVERSE_MAX
      && (next > me.alpha ==> st.fastOk && st.pcieOk && Timed(st) && st.fastTime / st.pcieTime >= algo.high)
      && (next < me.alpha && st.fastOk && st.pcieOk ==>
            Timed(st) && TakesAway(st.fastTime / st.pcieTime, algo.low, algo.high))
  {
    if !st.fastOk || !st.pcieOk {
      FailureDirection(me.alpha, algo.decrease);
    } else if Timed(st) {
      RateDirection(me.alpha, st.fastTime / st.pcieTime, algo.low, algo.high);
    }
  }

  /** A clearly faster PCIe gets so much more that, bytes taking time in proportion, it would need
      0.96 of the fast side's time; a clearly slower one gets half. Both within the range, and once
      two usable runs have been counted. */
  lemma AimsAtTheFastTime(algo: Algorithm, me: Instance, st: Stat)
    requires algo.InverseProportion? && st.fastOk && st.pcieOk && st.pcieBytes > 0 && Timed(st)
    requires 0.0 < algo.low < algo.high
    ensures var next := Learn(algo, me, st);
      && next.samples == me.samples + 1
      && (me.samples < 2 ==> next.alpha == me.alpha)
      && (me.samples >= 2 && INVERSE_MIN < next.alpha < INVERSE_MAX ==>
           && (st.fastTime >= algo.high * st.pcieTime ==> next.alpha * st.pcieTime == 0.96 * st.fastTime * me.alpha)
           && (st.fastTime <= algo.low * st.pcieTime ==> next.alpha + next.alpha == me.alpha)
           && (algo.low * st.pcieTime < st.fastTime < algo.high * st.pcieTime ==> next.alpha == me.alpha))
  {
    var rate := st.fastTime / st.pcieTime;
    assert rate * st.pcieTime == st.fastTime;
    RatesCompare(rate, algo.low, st.pcieTime);
    RatesCompare(rate, algo.high, st.pcieTime);
    if me.samples >= 2 && rate >= algo.high && INVERSE_MIN < Learn(algo, me, st).alpha < INVERSE_MAX {
      TimesOut(me.alpha, rate, st.pcieTime, st.fastTime);
    }
  }

  lemma RatesCompare(rate: real, bound: real, time: real)
    requires time > 0.0
    ensures rate >= bound <==> rate * time >= bound * time
    ensures rate <= bound <==> rate * time <= bound * time
  {
    Sign(rate - bound, time);
    Sign(bound - rate, time);
    assert (rate - bound) * time == rate * time - bound * time;
    assert (bound - rate) * time == bound * time - rate * time;
  }

  lemma TimesOut(alpha: real, rate: real, pcie: real, fast: real)
    requires rate * pcie == fast
    ensures alpha * (rate * 0.96) * pcie == 0.96 * fast * alpha
  {
    assert alpha * (rate * 0.96) * pcie == alpha * 0.96 * (rate * pcie);
  }

  /** After a failure alpha is the configured fraction of what it was, or the lower bound. */
  lemma FailureTakesItsFraction(algo: Algorithm, me: Instance, st: Stat)
    requires !st.fastOk || !st.pcieOk
    ensures var next := Learn(algo, me, st).alpha;
      && (algo.InverseProportion? ==> next == me.alpha * algo.decrease || (me.alpha * algo.decrease < next == 0.001))
      && (algo.SplitRatio? ==> next + next == me.alpha || (me.alpha < next + next && next == algo.minimum))
      && (algo.Static? ==> next == me.alpha)
  {
  }

  /** A rate beyond the upper hold rate never takes bytes from PCIe exactly when that hold rate is
      at least 1 / 0.96. The default, 1.1, is; the environment can set one that is not. */
  lemma FasterNeverLosesExactly(low: real, high: real)
    requires 0.0 < low < high
    ensures (forall alpha, rate :: INVERSE_MIN <= alpha <= INVERSE_MAX && rate >= high ==>
               AtRate(alpha, rate, low, high) >= alpha)
            <==> high * 0.96 >= 1.0
  {
    if high * 0.96 >= 1.0 {
      forall alpha, rate | INVERSE_MIN <= alpha <= INVERSE_MAX && rate >= high
        ensures AtRate(alpha, rate, low, high) >= alpha
      {
        RateDirection(alpha, rate, low, high);
      }
    } else {
      assert AtRate(INVERSE_MAX, high, low, high) < INVERSE_MAX;
    }
  }

  lemma FailureDirection(alpha: real, decrease: real)
    requires INVERSE_MIN <= alpha <= INVERSE_MAX && 0.0 < decrease <= 1.0
    ensures INVERSE_MIN <= AfterFailure(alpha, decrease, INVERSE_MIN) <= alpha
  {
    Shrinks(alpha, decrease);
  }

  lemma Shrinks(x: real, f: real)
    requires x >= 0.0 && 0.0 < f <= 1.0
    ensures 0.0 <= x * f <= x
  {
    assert x * (1.0 - f) >= 0.0;
    assert x * (1.0 - f) == x - x * f;
  }

  lemma Grows(x: real, f: real)
    requires x >= 0.0 && f >= 1.0
    ensures x * f >= x
  {
    assert x * (f - 1.0) >= 0.0;
    assert x * (f - 1.0) == x * f - x;
  }

  // ---- What the split-ratio algorithm learns ----

  /** At the balance, and only there, both sides take equally long; and an overloaded PCIe has more
      than the balance. */
  lemma BalancedExactly(alpha: real, bp: real, bf: real)
    requires bp > 0.0 && bf > 0.0
    ensures alpha / bp == (1.0 - alpha) / bf <==> alpha == Balance(bp, bf)
    ensures alpha < 1.0 && Overloaded(alpha, bp, bf) ==> alpha > Balance(bp, bf)
  {
    var p, f, x := alpha / bp, (1.0 - alpha) / bf, Balance(bp, bf);
    CrossMultiplied(alpha, bp, bf, p, f, x);
    if alpha < 1.0 {
      QuotientPositive(1.0 - alpha, bf);
    }
  }

  lemma CrossMultiplied(alpha: real, bp: real, bf: real, p: real, f: real, x: real)
    requires bp > 0.0 && bf > 0.0 && p * bp == alpha && f * bf == 1.0 - alpha && x * (bp + bf) == bp
    ensures p == f <==> alpha == x
    ensures p > f <==> alpha > x
  {
    assert (alpha - x) * (bp + bf) == (p - f) * (bp * bf) by {
      assert (alpha - x) * (bp + bf) == alpha * bf - (1.0 - alpha) * bp;
      assert alpha * bf == p * bp * bf;
      assert (1.0 - alpha) * bp == f * bf * bp;
    }
    SameSign(alpha - x, bp + bf, p - f, bp * bf);
  }

  lemma SameSign(a: real, m: real, b: real, n: real)
    requires m > 0.0 && n > 0.0 && a * m == b * n
    ensures a == 0.0 <==> b == 0.0
    ensures a > 0.0 <==> b > 0.0
  {
    Sign(a, m);
    Sign(b, n);
  }

  /** The bandwidth estimate starts with the first usable run, ignores runs below 4 MiB from then on,
      and otherwise moves the smoothing share of the way to the new measurement. */
  lemma SmoothingKeepsDistance(algo: Algorithm, before: real, st: Stat)
    requires algo.SplitRatio? && Usable(st)
    ensures var now, next := st.pcieBytes as real / st.pcieTime / 1073741824.0, Smoothed(algo, before, st);
      && (before <= 0.0 ==> next == now)
      && (before > 0.0 && st.pcieBytes < 0x40_0000 ==> next == before)
      && (before > 0.0 && st.pcieBytes >= 0x40_0000 ==>
           && next - now == (1.0 - algo.smooth) * (before - now)
           && (before <= now ==> before <= next <= now) && (now <= before ==> now <= next <= before))
  {
    var now := Bandwidth(st.pcieBytes, st.pcieTime);
    if before > 0.0 && st.pcieBytes >= 4 * MIB {
      Mixed(algo.smooth, now, before, Smoothed(algo, before, st));
    }
  }

  lemma Mixed(part: real, x: real, y: real, mix: real)
    requires 0.0 < part < 1.0 && mix == part * x + (1.0 - part) * y
    ensures mix - x == (1.0 - part) * (y - x)
    ensures (y <= x ==> y <= mix <= x) && (x <= y ==> x <= mix <= y)
  {
    assert mix - x == (1.0 - part) * (y - x) by {
      assert (1.0 - part) * (y - x) == (1.0 - part) * y - (1.0 - part) * x;
      assert (1.0 - part) * x == x - part * x;
    }
    assert y - mix == part * (y - x) by {
      assert part * (y - x) == part * y - part * x;
      assert (1.0 - part) * y == y - part * y;
    }
    if y <= x {
      Sign(x - y, part);
      Sign(x - y, 1.0 - part);
      assert part * (y - x) == -((x - y) * part) && (1.0 - part) * (y - x) == -((x - y) * (1.0 - part));
    } else {
      Sign(y - x, part);
      Sign(y - x, 1.0 - part);
      assert part * (y - x) == (y - x) * part && (1.0 - part) * (y - x) == (y - x) * (1.0 - part);
    }
  }

  /** Alpha keeps the fraction 1 - eta of its distance from the balance, unless an overloaded PCIe
      gives up a tenth: never in the warm-up and never for a run below 16 MiB. */
  lemma SplitKeepsDistance(algo: Algorithm, me: Instance, st: Stat)
    requires algo.SplitRatio? && Usable(st)
    ensures var next := Learn(algo, me, st);
      var bp := Smoothed(algo, me.bandwidth, st);
      var bf := st.fastBytes as real / st.fastTime / 1073741824.0;
      && next.samples == me.samples + 1 && next.bandwidth == bp && bf > 0.0
      && (algo.minimum < next.alpha < SPLIT_MAX ==>
           && (me.alpha / bp > (1.0 - me.alpha) / bf * 1.05 && next.samples > algo.warmup &&
               st.pcieBytes >= 0x100_0000 ==>
                 next.alpha == me.alpha * 0.9)
           && (me.alpha / bp <= (1.0 - me.alpha) / bf * 1.05 || next.samples <= algo.warmup ||
               st.pcieBytes < 0x100_0000 ==>
                 next.alpha - bp / (bp + bf) == (1.0 - algo.eta) * (me.alpha - bp / (bp + bf))))
  {
    var bp, bf := Smoothed(algo, me.bandwidth, st), Bandwidth(st.fastBytes, st.fastTime);
    if !BacksOff(algo, me.alpha, me.samples + 1, st.pcieBytes, bp, bf) {
      TowardsKeeps(me.alpha, Balance(bp, bf), algo.eta);
    }
  }

  lemma TowardsKeeps(a: real, x: real, eta: real)
    ensures Towards(a, x, eta) - x == (1.0 - eta) * (a - x)
  {
    assert (1.0 - eta) * (a - x) == (a - x) - eta * (a - x);
    assert eta * (a - x) == -(eta * (x - a));
  }

  /** A usable run moves alpha towards the split at which both sides would take equally long, as
      long as that split is an allowed one, and leaves it there once reached. */
  lemma SplitLearnsTowardsBalance(algo: Algorithm, me: Instance, st: Stat)
    requires algo.SplitRatio? && Usable(st)
    requires algo.minimum <= me.alpha <= SPLIT_MAX
    requires algo.minimum <= Balance(Smoothed(algo, me.bandwidth, st),
             Bandwidth(st.fastBytes, st.fastTime)) <= SPLIT_MAX
    ensures var next, x := Learn(algo, me, st).alpha,
                           Balance(Smoothed(algo, me.bandwidth, st), Bandwidth(st.fastBytes, st.fastTime));
      && (me.alpha < x ==> me.alpha < next < x)
      && (me.alpha > x ==> next < me.alpha)
      && (me.alpha == x ==> next == x)
  {
    var bp, bf := Smoothed(algo, me.bandwidth, st), Bandwidth(st.fastBytes, st.fastTime);
    MovedTowardsBalance(algo, me.alpha, me.samples + 1, st.pcieBytes, bp, bf, Balance(bp, bf));
  }

  lemma MovedTowardsBalance(algo: Algorithm, alpha: real, count: nat, pcieBytes: nat, bp: real, bf: real, x: real)
    requires algo.SplitRatio? && bp > 0.0 && bf > 0.0 && x == Balance(bp, bf) && alpha <= SPLIT_MAX
    ensures var next := Moved(algo, alpha, count, pcieBytes, bp, bf);
      && (alpha < x ==> alpha < next < x)
      && (alpha > x ==> next < alpha)
      && (alpha == x ==> next == x)
  {
    if BacksOff(algo, alpha, count, pcieBytes, bp, bf) {
      BalancedExactly(alpha, bp, bf);
    } else {
      PartOfTheWay(alpha, x, algo.eta);
    }
  }

  lemma PartOfTheWay(a: real, x: real, eta: real)
    requires 0.0 < eta < 1.0
    ensures a < x ==> a < Towards(a, x, eta) < x
    ensures a > x ==> x < Towards(a, x, eta) < a
    ensures a == x ==> Towards(a, x, eta) == x
  {
    Sign(x - a, eta);
    Sign(x - a, 1.0 - eta);
    Sign(a - x, eta);
    Sign(a - x, 1.0 - eta);
    assert (x - a) * eta == eta * (x - a) && (a - x) * eta == -(eta * (x - a));
    assert (x - a) * (1.0 - eta) == (x - a) - eta * (x - a);
    assert (a - x) * (1.0 - eta) == -((x - a) - eta * (x - a));
  }

  /** A positive alpha stays positive, and one that is not negative stays so. */
  lemma LearnKeepsSign(algo: Algorithm, me: Instance, st: Stat)
    requires algo.SplitRatio?
    ensures me.alpha > 0.0 ==> Learn(algo, me, st).alpha > 0.0
    ensures me.alpha >= 0.0 ==> Learn(algo, me, st).alpha >= 0.0
  {
    if st.fastOk && st.pcieOk && Usable(st) {
      PartOfTheWay(me.alpha, Balance(Smoothed(algo, me.bandwidth, st), Bandwidth(st.fastBytes, st.fastTime)), algo.eta);
    }
  }
}
