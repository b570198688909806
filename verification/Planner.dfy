/** The byte split of a collective between the fast backend and PCIe. */
module Planner {
  import opened Arith
  import opened Ir

  /** Byte counts are 64-bit unsigned. */
  const WORD: nat := 0x1_0000_0000_0000_0000
  const ALIGN: nat := 128

  datatype Config = Config(pcieEnabled: bool, minMessage: nat, minChunk: nat)

  datatype Plan = Plan(fast: nat, pcie: nat, usePcie: bool)

  function Clamp(alpha: real): real {
    if alpha < 0.0 then 0.0 else if alpha > 1.0 then 1.0 else alpha
  }

  /** Bytes that `alpha` gives to PCIe. */
  function Share(total: nat, alpha: real): (share: nat)
    ensures share <= total
  {
    var part := (total as real) * Clamp(alpha);
    ShareBound(total, Clamp(alpha));
    part.Floor
  }

  lemma ShareBound(total: nat, a: real)
    requires 0.0 <= a <= 1.0
    ensures 0.0 <= (total as real) * a <= total as real
  {
    assert (total as real) * (1.0 - a) >= 0.0;
    assert (total as real) * (1.0 - a) == total as real - (total as real) * a;
  }

  /** The bytes given to PCIe are the share alpha asks for, less a fraction of a byte. */
  lemma ShareIsProportional(total: nat, alpha: real)
    ensures 0.0 <= alpha <= 1.0 ==>
      (Share(total, alpha) as real) <= alpha * (total as real) < (Share(total, alpha) as real) + 1.0
    ensures alpha <= 0.0 ==> Share(total, alpha) == 0
    ensures alpha >= 1.0 ==> Share(total, alpha) == total
  {
    var a := if alpha < 0.0 then 0.0 else if alpha > 1.0 then 1.0 else alpha;
    assert (total as real) * a == a * (total as real);
  }

  function RoundUp(x: nat): (r: nat)
    ensures r % ALIGN == 0 && x <= r < x + ALIGN
  {
    (x + ALIGN - 1) / ALIGN * ALIGN
  }

  predicate Gate(cfg: Config, total: nat, hint: bool) {
    cfg.pcieEnabled && total >= cfg.minMessage && hint
  }

  /** Bytes left to the fast backend once slivers have been moved over. */
  function FastShare(cfg: Config, total: nat, alpha: real): (fast: nat)
    ensures fast <= total
  {
    var fast := total - Share(total, alpha);
    if 0 < fast < cfg.minChunk then 0 else fast
  }

  /** The fast side gets the rest, less than a byte more than its own share, unless that is less than
      the minimum chunk: then it gets nothing. */
  lemma FastShareIsRest(cfg: Config, total: nat, alpha: real)
    requires 0.0 <= alpha <= 1.0
    ensures var fast, rest := FastShare(cfg, total, alpha), (1.0 - alpha) * (total as real);
      && (fast > 0 ==> fast >= cfg.minChunk && rest <= (fast as real) < rest + 1.0)
      && (fast == 0 ==> rest == 0.0 || rest < cfg.minChunk as real)
      && (rest >= cfg.minChunk as real ==> rest <= (fast as real) < rest + 1.0)
  {
    ShareIsProportional(total, alpha);
    assert (1.0 - alpha) * (total as real) == (total as real) - alpha * (total as real);
  }

  predicate UsesPcie(cfg: Config, total: nat, alpha: real, hint: bool) {
    Gate(cfg, total, hint) && total - FastShare(cfg, total, alpha) >= cfg.minChunk
  }

  /** A split that can be launched: both parts together are the message, the PCIe part is not
      empty, and the fast part is whole alignment units. */
  predicate GoodSplit(plan: Plan, total: nat) {
    plan.fast + plan.pcie == total && plan.pcie > 0 && plan.fast % ALIGN == 0
  }

  /** Rounding both parts up neither uses up the message nor leaves the 64-bit range. */
  predicate RoundsInside(fast: nat, total: nat)
    requires fast <= total
  {
    RoundUp(fast) < total && RoundUp(fast) + RoundUp(total - fast) < WORD
  }

  method CreatePlan(cfg: Config, total: nat, alpha: real, hint: bool) returns (plan: Plan)
    requires total < WORD
    ensures plan.usePcie == UsesPcie(cfg, total, alpha, hint)
    ensures plan.usePcie <==>
      cfg.pcieEnabled && hint && total >= cfg.minMessage && total - FastShare(cfg, total, alpha) >= cfg.minChunk
    ensures plan.usePcie ==> plan.fast == RoundUp(FastShare(cfg, total, alpha)) % WORD
    ensures plan.usePcie ==> (GoodSplit(plan, total) <==> RoundsInside(FastShare(cfg, total, alpha), total))
  {
    if !cfg.pcieEnabled || total < cfg.minMessage || !hint {
      return Plan(total, 0, false);
    }
    plan := Divide(cfg, total, alpha);
    plan := Align(plan, total);
  }

  /** The split by `alpha` with slivers moved over. */
  method Divide(cfg: Config, total: nat, alpha: real) returns (plan: Plan)
    ensures plan.fast + plan.pcie == total && plan.usePcie == (total - FastShare(cfg, total, alpha) >= cfg.minChunk)
    ensures plan.usePcie ==> plan.fast == FastShare(cfg, total, alpha)
  {
    var a := alpha;
    if a < 0.0 { a := 0.0; }
    if a > 1.0 { a := 1.0; }
    ShareBound(total, a);
    var pcie: nat := ((total as real) * a).Floor;
    assert pcie == Share(total, alpha);
    var fast := total - pcie;
    if fast > 0 && fast < cfg.minChunk {
      pcie := pcie + fast;
      fast := 0;
    }
    if pcie > 0 && pcie < cfg.minChunk {
      fast := fast + pcie;
      pcie := 0;
    }
    if pcie < cfg.minChunk {
      plan := Plan(total, 0, false);
    } else if fast < cfg.minChunk {
      plan := Plan(0, total, true);
    } else {
      plan := Plan(fast, pcie, true);
    }
  }

  /** Rounding up in 64-bit arithmetic: within 127 bytes of the end of the range it comes out as 0. */
  method RoundWord(x: nat) returns (r: nat)
    requires x < WORD
    ensures r == RoundUp(x) % WORD
  {
    r := (x + ALIGN - 1) % WORD / ALIGN * ALIGN;
  }

  /** Rounds both parts up and takes what then exceeds the message from the PCIe part. */
  method Align(p: Plan, total: nat) returns (plan: Plan)
    requires p.fast + p.pcie == total < WORD
    ensures plan.usePcie == p.usePcie && plan.fast == RoundUp(p.fast) % WORD
    ensures GoodSplit(plan, total) <==> RoundsInside(p.fast, total)
  {
    var fast := RoundWord(p.fast);
    var pcie := RoundWord(p.pcie);
    SumOfRounded(p.fast, p.pcie, RoundUp(p.fast), RoundUp(p.pcie), fast, pcie);
    OneWrap(fast + pcie);
    OneWrap(total - fast);
    if (fast + pcie) % WORD > total {
      pcie := (total - fast) % WORD;
    }
    plan := Plan(fast, pcie, p.usePcie);
  }

  lemma OneWrap(x: int)
    requires 0 <= x + WORD && x < 2 * WORD
    ensures x % WORD == if x < 0 then x + WORD else if x < WORD then x else x - WORD
  {
  }

  /** When the rounded parts leave the 64-bit range, what is left of them is far less than the
      message or still more than it. */
  lemma SumOfRounded(f: nat, p: nat, up: nat, other: nat, fast: nat, pcie: nat)
    requires f + p < WORD && up == RoundUp(f) && other == RoundUp(p) && fast == up % WORD && pcie == other % WORD
    ensures fast % ALIGN == 0 && fast < WORD && pcie < WORD
    ensures up + other < WORD ==> fast == up && pcie == other && f <= fast < f + ALIGN && p <= pcie < p + ALIGN
    ensures up + other >= WORD ==> fast + pcie >= WORD || (fast <= ALIGN && pcie <= ALIGN)
    ensures up + other >= WORD ==> f + p > 2 * ALIGN && fast + pcie <= WORD + ALIGN
  {
    var a, b := (f + ALIGN - 1) / ALIGN, (p + ALIGN - 1) / ALIGN;
    assert WORD == ALIGN * 0x200_0000_0000_0000;
    OneWrap(up);
    OneWrap(other);
  }

  /** With a minimum chunk of at least one alignment unit every plan that uses PCIe is a good
      split, the last 256 bytes of the 64-bit range aside, and neither part cuts an element of a
      message of whole elements. */
  lemma BigChunksSplitWell(cfg: Config, total: nat, alpha: real, hint: bool, elementSize: nat)
    requires cfg.minChunk >= ALIGN && UsesPcie(cfg, total, alpha, hint)
    requires elementSize in {1, 2, 4, 8} && total % elementSize == 0
    ensures var fast := RoundUp(FastShare(cfg, total, alpha));
      && (total <= WORD - 2 * ALIGN ==> RoundsInside(FastShare(cfg, total, alpha), total))
      && fast < total && fast % elementSize == 0 && (total - fast) % elementSize == 0
  {
    var share := FastShare(cfg, total, alpha);
    LeavesMore(cfg, total, alpha, hint, share);
    WholeElements(RoundUp(share), total, elementSize);
  }

  lemma LeavesMore(cfg: Config, total: nat, alpha: real, hint: bool, share: nat)
    requires cfg.minChunk >= ALIGN && UsesPcie(cfg, total, alpha, hint) && share == FastShare(cfg, total, alpha)
    ensures RoundUp(share) < total
  {
  }

  lemma WholeElements(fast: nat, total: nat, elementSize: nat)
    requires fast % ALIGN == 0 && fast <= total && elementSize in {1, 2, 4, 8} && total % elementSize == 0
    ensures fast % elementSize == 0 && (total - fast) % elementSize == 0
  {
    DivModDef(total, elementSize);
    var parts := if elementSize == 1 then 128 else if elementSize == 2 then 64 else if elementSize == 4 then 32 else 16;
    WholeParts(fast, total, elementSize, parts, fast / ALIGN, total / elementSize);
  }

  lemma WholeParts(fast: nat, total: nat, e: nat, parts: nat, k: nat, m: nat)
    requires e > 0 && parts * e == ALIGN && fast == k * ALIGN && total == m * e && fast <= total
    ensures fast % e == 0 && (total - fast) % e == 0
  {
    var n := k * parts;
    assert n * e == k * (parts * e);
    if n > m {
      NextMultiple(m, n, e);
    }
    assert (m - n) * e == m * e - n * e;
    DivModIs(fast, e, n, 0);
    DivModIs(total - fast, e, m - n, 0);
  }

  /** A smaller minimum does not: 4 MiB less 64 bytes to the fast backend rounds up to the whole
      message, and nothing is left for PCIe although the plan uses it. */
  lemma SmallChunksCanFail()
    ensures var cfg := Config(true, 0, 64);
      var total := 4 * 1024 * 1024;
      var alpha := 64.0 / 4194304.0;
      && UsesPcie(cfg, total, alpha, true)
      && !RoundsInside(FastShare(cfg, total, alpha), total)
  {
    assert (4194304 as real) * (64.0 / 4194304.0) == 64.0;
    assert Share(4194304, 64.0 / 4194304.0) == 64;
  }
}
