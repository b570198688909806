/** What the parameter round is for: every rank keeps its own algorithm instances, only rank 0's
    learn, and yet all ranks must choose the same parameters for the same collective. The ranks
    run the same list of collectives; each collective is a round of `ParamRound` and then one
    suggestion of the rank's own controller. */
module Launches {
  import opened Ir
  import opened Controller
  import opened ParamRound
  import Planner

  /** `left` is what an earlier communicator left in the shared table; `program` lists the keys of
      the collectives, the same on every rank. */
  datatype Setup = Setup(ranks: nat, left: Option<Entry>, algo: Algorithm, pcieEnabled: bool, program: seq<OpKey>)

  datatype Launch = Launch(key: OpKey, alpha: real, usePcie: bool)

  /** `own[r]` holds the instances of rank `r`'s controller, `launched[r]` what it has launched. */
  datatype World = World(round: State, own: seq<Instances>, launched: seq<seq<Launch>>)

  datatype Step =
    | Protocol(action: Action)
    | Feedback(key: OpKey, st: Stat)
    | Suggest(rank: nat)

  predicate Shaped(w: World) {
    |w.own| == |w.launched| == |w.round.place| == |w.round.caches| > 0
  }

  /** Rank 0's update of one entry, for whatever operation and measurements it finds. */
  function Announcement(c: Setup, w: World, k: OpKey, st: Stat): Entry
    requires Shaped(w)
  {
    Entry(k, ParamAfter(c.algo, w.own[0], k, st, c.pcieEnabled, w.round.caches[0]))
  }

  /** A rank starts its next round once the collective of the last one is launched, and there is
      another. */
  predicate Ready(c: Setup, w: World, r: nat)
    requires Shaped(w) && r < |w.own|
  {
    |w.launched[r]| == w.round.place[r].round < |c.program|
  }

  predicate Can(c: Setup, w: World, a: Step) {
    && Shaped(w)
    && match a
       case Protocol(act) =>
         && !act.Write? && Enabled(w.round, act)
         && (act.BeginRound? || act.Start? ==> Ready(c, w, RankOf(act)))
       case Feedback(k, st) => Enabled(w.round, Write(Announcement(c, w, k, st)))
       case Suggest(r) =>
         && r < |w.own| && w.round.place[r].phase == Begin
         && |w.launched[r]| < w.round.place[r].round && |w.launched[r]| < |c.program|
  }

  function Chosen(algo: Algorithm, own: Instances, k: OpKey, cache: Cache): Launch {
    Launch(k, AlphaFor(algo, own, k, cache), UseFor(k, cache))
  }

  function After(c: Setup, w: World, a: Step): World
    requires Can(c, w, a)
  {
    match a
    case Protocol(act) => w.(round := Next(w.round, act))
    case Feedback(k, st) =>
      World(Next(w.round, Write(Announcement(c, w, k, st))), w.own[0 := AfterUpdate(c.algo, w.own[0], k, st)],
          w.launched)
    case Suggest(r) =>
      var k, cache := c.program[|w.launched[r]|], w.round.caches[r];
      World(w.round, w.own[r := AfterSuggest(c.algo, w.own[r], k, cache)],
            w.launched[r := w.launched[r] + [Chosen(c.algo, w.own[r], k, cache)]])
  }

  predicate Goes(c: Setup, w: World, a: Step, w': World) {
    Can(c, w, a) && w' == After(c, w, a)
  }

  ghost predicate Runs(c: Setup, steps: seq<Step>, w: World) {
    if |steps| == 0 then
      w == World(Initial(c.ranks, c.left), seq(c.ranks, i => map[]), seq(c.ranks, i => []))
    else
      var front, last := steps[..|steps| - 1], steps[|steps| - 1];
      exists w0 :: Runs(c, front, w0) && Goes(c, w0, last, w)
  }

  // ---- What a rank that only ever suggests chooses, from the announcements alone ----

  function KeptAfter(c: Setup, history: seq<Option<Entry>>, m: nat): Instances
    requires m <= |history| && m <= |c.program|
  {
    if m == 0 then map[]
    else AfterSuggest(c.algo, KeptAfter(c, history, m - 1), c.program[m - 1], CacheAfter(history, m))
  }

  function LaunchOf(c: Setup, history: seq<Option<Entry>>, m: nat): Launch
    requires m < |history| && m < |c.program|
  {
    Chosen(c.algo, KeptAfter(c, history, m), c.program[m], CacheAfter(history, m + 1))
  }

  lemma {:induction false} KeptStable(c: Setup, h: seq<Option<Entry>>, e: Option<Entry>, m: nat)
    requires m <= |h| && m <= |c.program|
    ensures KeptAfter(c, h + [e], m) == KeptAfter(c, h, m)
  {
    if m > 0 {
      KeptStable(c, h, e, m - 1);
      CacheStable(h, e, m);
    }
  }

  lemma LaunchStable(c: Setup, h: seq<Option<Entry>>, e: Option<Entry>, m: nat)
    requires m < |h| && m < |c.program|
    ensures LaunchOf(c, h + [e], m) == LaunchOf(c, h, m)
  {
    KeptStable(c, h, e, m);
    CacheStable(h, e, m + 1);
  }

  // ---- Rank 0's instances against those of the other ranks ----

  /** The configurations with which all ranks use the same alpha; with the others they still make
      the same plans. */
  predicate Agrees(algo: Algorithm) {
    !(algo.SplitRatio? && algo.initial < 0.0 && algo.minimum < 0.0)
  }

  function Look(cache: Cache, k: OpKey): Option<Param> {
    if k in cache then Some(cache[k]) else None
  }

  function SuggestedFrom(algo: Algorithm, own: real, cached: Option<Param>): real {
    match cached
    case None => own
    case Some(p) => Suggested(algo, own, p)
  }

  /** How rank 0's own alpha `a` and another rank's `b` for one operation can differ. */
  predicate Related(algo: Algorithm, a: real, b: real, cached: Option<Param>) {
    && (cached.None? || algo.Static? ==> a == b)
    && (algo.SplitRatio? ==>
          && (cached.Some? && cached.value.alpha <= 0.0 ==> a == b || (a <= 0.0 && b <= 0.0))
          && (a <= 0.0 ==> b <= 0.0)
          && (algo.initial >= 0.0 ==> a >= 0.0 && b >= 0.0))
  }

  predicate Close(algo: Algorithm, x: real, y: real) {
    Planner.Clamp(x) == Planner.Clamp(y) && (Agrees(algo) ==> x == y)
  }

  lemma SuggestKeepsRelated(algo: Algorithm, a: real, b: real, cached: Option<Param>)
    requires Related(algo, a, b, cached)
    ensures var x, y := SuggestedFrom(algo, a, cached), SuggestedFrom(algo, b, cached);
      Related(algo, x, y, cached) && Close(algo, x, y)
  {
  }

  lemma LearnKeepsRelated(algo: Algorithm, me: Instance, b: real, cached: Option<Param>, st: Stat, use: bool)
    requires Related(algo, me.alpha, b, cached)
    ensures var learned := Learn(algo, me, st).alpha; Related(algo, learned, b, Some(Param(learned, use)))
  {
    if algo.SplitRatio? {
      LearnKeepsSign(algo, me, st);
    }
  }

  ghost predicate AllRelated(algo: Algorithm, zero: Instances, other: Instances, cache: Cache) {
    forall k :: Related(algo, InstanceOf(algo, zero, k).alpha, InstanceOf(algo, other, k).alpha, Look(cache, k))
  }

  /** Rank 0's alphas are still those of the other ranks. */
  ghost predicate SameAlphas(algo: Algorithm, zero: Instances, other: Instances) {
    forall k :: InstanceOf(algo, zero, k).alpha == InstanceOf(algo, other, k).alpha
  }

  /** Until rank 0 has learned anything nothing differs; from then on the table holds what its
      cache holds. */
  ghost predicate TableKnown(algo: Algorithm, zero: Instances, other: Instances, table: Option<Entry>, cache: Cache) {
    SameAlphas(algo, zero, other) || Merged1(cache, table) == cache
  }

  lemma SuggestKeepsAll(algo: Algorithm, zero: Instances, other: Instances, cache: Cache, table: Option<Entry>,
                        k: OpKey)
    requires AllRelated(algo, zero, other, cache) && TableKnown(algo, zero, other, table, cache)
    ensures var zero', other' := AfterSuggest(algo, zero, k, cache), AfterSuggest(algo, other, k, cache);
      && AllRelated(algo, zero', other', cache) && TableKnown(algo, zero', other', table, cache)
    ensures Close(algo, AlphaFor(algo, zero, k, cache), AlphaFor(algo, other, k, cache))
  {
    var zero', other' := AfterSuggest(algo, zero, k, cache), AfterSuggest(algo, other, k, cache);
    var a, b := InstanceOf(algo, zero, k).alpha, InstanceOf(algo, other, k).alpha;
    assert Related(algo, a, b, Look(cache, k));
    SuggestKeepsRelated(algo, a, b, Look(cache, k));
    assert SuggestedFrom(algo, a, Look(cache, k)) == AlphaFor(algo, zero, k, cache);
    assert SuggestedFrom(algo, b, Look(cache, k)) == AlphaFor(algo, other, k, cache);
    forall j
      ensures Related(algo, InstanceOf(algo, zero', j).alpha, InstanceOf(algo, other', j).alpha, Look(cache, j))
    {
      assert Related(algo, InstanceOf(algo, zero, j).alpha, InstanceOf(algo, other, j).alpha, Look(cache, j));
    }
    if SameAlphas(algo, zero, other) {
      forall j ensures InstanceOf(algo, zero', j).alpha == InstanceOf(algo, other', j).alpha {
        assert InstanceOf(algo, zero, j).alpha == InstanceOf(algo, other, j).alpha;
      }
    }
  }

  lemma LearnKeepsAll(algo: Algorithm, zero: Instances, other: Instances, cache: Cache, k: OpKey, st: Stat, use: bool)
    requires AllRelated(algo, zero, other, cache)
    ensures var zero' := AfterUpdate(algo, zero, k, st); var e := Entry(k, Param(zero'[k].alpha, use));
      && AllRelated(algo, zero', other, cache[k := e.param])
      && TableKnown(algo, zero', other, Some(e), cache[k := e.param])
  {
    var zero' := AfterUpdate(algo, zero, k, st);
    var cache' := cache[k := Param(zero'[k].alpha, use)];
    forall j
      ensures Related(algo, InstanceOf(algo, zero', j).alpha, InstanceOf(algo, other, j).alpha, Look(cache', j))
    {
      assert Related(algo, InstanceOf(algo, zero, j).alpha, InstanceOf(algo, other, j).alpha, Look(cache, j));
      if j == k {
        LearnKeepsRelated(algo, InstanceOf(algo, zero, k), InstanceOf(algo, other, k).alpha, Look(cache, k), st, use);
      }
    }
  }

  lemma MergeKeepsAll(algo: Algorithm, zero: Instances, other: Instances, cache: Cache, table: Option<Entry>)
    requires AllRelated(algo, zero, other, cache) && TableKnown(algo, zero, other, table, cache)
    ensures AllRelated(algo, zero, other, Merged1(cache, table))
    ensures TableKnown(algo, zero, other, table, Merged1(cache, table))
  {
    if SameAlphas(algo, zero, other) {
      forall j
        ensures Related(algo, InstanceOf(algo, zero, j).alpha, InstanceOf(algo, other, j).alpha,
                        Look(Merged1(cache, table), j))
      {
        assert InstanceOf(algo, zero, j).alpha == InstanceOf(algo, other, j).alpha;
        assert Related(algo, InstanceOf(algo, zero, j).alpha, InstanceOf(algo, other, j).alpha, Look(cache, j));
      }
    }
  }

  // ---- Invariant ----

  predicate CountOk(c: Setup, w: World, r: nat)
    requires Shaped(w) && r < |w.own|
  {
    var done, place := |w.launched[r]|, w.round.place[r];
    && done <= place.round <= done + 1
    && (place.phase != Begin ==> done == place.round < |c.program|)
    && done <= |w.round.history| && done <= |c.program|
  }

  /** A rank other than 0 has exactly the instances and launches the announcements give it. */
  ghost predicate OtherOk(c: Setup, w: World, r: nat)
    requires Shaped(w) && r < |w.own| && CountOk(c, w, r)
  {
    && w.own[r] == KeptAfter(c, w.round.history, |w.launched[r]|)
    && forall i :: 0 <= i < |w.launched[r]| ==> w.launched[r][i] == LaunchOf(c, w.round.history, i)
  }

  predicate Alike(algo: Algorithm, l: Launch, l': Launch) {
    l.key == l'.key && l.usePcie == l'.usePcie && Close(algo, l.alpha, l'.alpha)
  }

  ghost predicate ZeroOk(c: Setup, w: World)
    requires Shaped(w) && CountOk(c, w, 0)
  {
    var kept := KeptAfter(c, w.round.history, |w.launched[0]|);
    && AllRelated(c.algo, w.own[0], kept, w.round.caches[0])
    && TableKnown(c.algo, w.own[0], kept, w.round.table, w.round.caches[0])
    && forall i :: 0 <= i < |w.launched[0]| ==> Alike(c.algo, w.launched[0][i], LaunchOf(c, w.round.history, i))
  }

  ghost predicate RankOk(c: Setup, w: World, r: nat)
    requires Shaped(w) && r < |w.own|
  {
    CountOk(c, w, r) && if r == 0 then ZeroOk(c, w) else OtherOk(c, w, r)
  }

  ghost predicate WorldInv(c: Setup, w: World) {
    && Shaped(w) && |w.own| == c.ranks && Inv(w.round)
    && forall r :: 0 <= r < |w.own| ==> RankOk(c, w, r)
  }

  /** At the moment of a suggestion the rank's cache is the merge of the rounds up to its own. */
  lemma CacheAtSuggest(c: Setup, w: World, r: nat)
    requires WorldInv(c, w) && Can(c, w, Suggest(r))
    ensures |w.launched[r]| < |w.round.history|
    ensures w.round.caches[r] == CacheAfter(w.round.history, |w.launched[r]| + 1)
  {
    assert RankOk(c, w, r);
    AtStartOfRound(w.round, r);
  }

  lemma SuggestKeepsRank(c: Setup, w: World, r: nat)
    requires WorldInv(c, w) && Can(c, w, Suggest(r))
    ensures RankOk(c, After(c, w, Suggest(r)), r)
  {
    assert RankOk(c, w, r);
    CacheAtSuggest(c, w, r);
    if r == 0 {
      var m := |w.launched[0]|;
      SuggestKeepsAll(c.algo, w.own[0], KeptAfter(c, w.round.history, m), w.round.caches[0], w.round.table,
          c.program[m]);
    }
  }

  lemma HistoryGrows(c: Setup, w: World, w': World, r: nat)
    requires Shaped(w) && Shaped(w') && r < |w.own| == |w'.own| && RankOk(c, w, r)
    requires w'.own[r] == w.own[r] && w'.launched[r] == w.launched[r] && CountOk(c, w', r)
    requires w'.round.history == w.round.history || w'.round.history == w.round.history + [w.round.table]
    requires r == 0 ==> w'.round.table == w.round.table && w'.round.caches[0] == w.round.caches[0]
    ensures RankOk(c, w', r)
  {
    if w'.round.history != w.round.history {
      KeptStable(c, w.round.history, w.round.table, |w.launched[r]|);
      forall i | 0 <= i < |w.launched[r]|
        ensures LaunchOf(c, w'.round.history, i) == LaunchOf(c, w.round.history, i)
      {
        LaunchStable(c, w.round.history, w.round.table, i);
      }
    }
  }

  lemma KeepsCount(c: Setup, w: World, a: Step, r: nat)
    requires Can(c, w, a) && r < |w.own| && CountOk(c, w, r)
    requires a == Suggest(r) ==> |w.launched[r]| < |w.round.history|
    ensures CountOk(c, After(c, w, a), r)
  {
  }

  lemma KeepsRank(c: Setup, w: World, a: Step, r: nat)
    requires WorldInv(c, w) && Can(c, w, a) && r < |w.own|
    ensures RankOk(c, After(c, w, a), r)
  {
    var w' := After(c, w, a);
    assert RankOk(c, w, r);
    if a == Suggest(r) {
      CacheAtSuggest(c, w, r);
    }
    KeepsCount(c, w, a, r);
    if a == Suggest(r) {
      SuggestKeepsRank(c, w, r);
    } else if r == 0 && a.Feedback? {
      var p := Announcement(c, w, a.key, a.st).param;
      LearnKeepsAll(c.algo, w.own[0], KeptAfter(c, w.round.history, |w.launched[0]|), w.round.caches[0], a.key, a.st,
          p.usePcie);
    } else if a == Protocol(Merge(0)) && r == 0 {
      MergeKeepsAll(c.algo, w.own[0], KeptAfter(c, w.round.history, |w.launched[0]|), w.round.caches[0], w.round.table);
    } else {
      HistoryGrows(c, w, w', r);
    }
  }

  lemma KeepsWorld(c: Setup, w: World, a: Step)
    requires WorldInv(c, w) && Can(c, w, a)
    ensures WorldInv(c, After(c, w, a))
  {
    match a {
      case Protocol(act) => KeepsInv(w.round, act);
      case Feedback(k, st) => KeepsInv(w.round, Write(Announcement(c, w, k, st)));
      case Suggest(_) =>
    }
    forall r | 0 <= r < |w.own| ensures RankOk(c, After(c, w, a), r) {
      KeepsRank(c, w, a, r);
    }
  }

  lemma {:induction false} RunsKeepWorld(c: Setup, steps: seq<Step>, w: World)
    requires c.ranks > 0 && Runs(c, steps, w)
    ensures WorldInv(c, w)
    decreases |steps|
  {
    if |steps| == 0 {
      StartsInv(c.ranks, c.left);
    } else {
      var m := |steps| - 1;
      var w0 :| Runs(c, steps[..m], w0) && Goes(c, w0, steps[m], w);
      RunsKeepWorld(c, steps[..m], w0);
      KeepsWorld(c, w0, steps[m]);
    }
  }

  // ---- What the controller's methods ask of their callers ----

  ghost predicate AllAsNew(c: Setup, w: World) {
    && |w.own| == |w.round.caches|
    && forall r :: 0 <= r < |w.own| ==> AsNew(c.algo, w.own[r], w.round.caches[r])
  }

  lemma KeepsAsNew(c: Setup, w: World, a: Step)
    requires AllAsNew(c, w) && Can(c, w, a)
    ensures AllAsNew(c, After(c, w, a))
  {
    var w' := After(c, w, a);
    forall r | 0 <= r < |w'.own| ensures AsNew(c.algo, w'.own[r], w'.round.caches[r]) {
      assert AsNew(c.algo, w.own[r], w.round.caches[r]);
    }
  }

  /** In every reachable state every rank's controller is valid for its cache, so all its calls are
      allowed. */
  lemma {:induction false} ControllersStayValid(c: Setup, steps: seq<Step>, w: World)
    requires Runs(c, steps, w)
    ensures AllAsNew(c, w)
    decreases |steps|
  {
    if |steps| > 0 {
      var m := |steps| - 1;
      var w0 :| Runs(c, steps[..m], w0) && Goes(c, w0, steps[m], w);
      ControllersStayValid(c, steps[..m], w0);
      KeepsAsNew(c, w0, steps[m]);
    }
  }

  // ---- Main results ----

  /** The planner makes the same plan of both, for every configuration and message. */
  ghost predicate SamePlan(l: Launch, l': Launch) {
    forall cfg, total ::
      && Planner.UsesPcie(cfg, total, l.alpha, l.usePcie) == Planner.UsesPcie(cfg, total, l'.alpha, l'.usePcie)
      && Planner.FastShare(cfg, total, l.alpha) == Planner.FastShare(cfg, total, l'.alpha)
  }

  /** Whatever the interleaving, the measurements, the learned alphas and the configuration, any
      two ranks launch their i-th collective with the same plan: the operation the program names,
      PCIe on or off on both, and the same split. The alphas are equal as well, unless rank 0 is
      one of the two and the configured initial and minimum alpha are both negative. */
  lemma SameLaunches(c: Setup, steps: seq<Step>, w: World, p: nat, q: nat, i: nat)
    requires c.ranks > 0 && Runs(c, steps, w) && p < |w.launched| && q < |w.launched|
    requires i < |w.launched[p]| && i < |w.launched[q]|
    ensures var l, l' := w.launched[p][i], w.launched[q][i];
      && i < |c.program| && l.key == l'.key == c.program[i]
      && l.usePcie == l'.usePcie && SamePlan(l, l')
      && (Agrees(c.algo) || (p != 0 && q != 0) ==> l == l')
  {
    RunsKeepWorld(c, steps, w);
    assert RankOk(c, w, p) && RankOk(c, w, q);
    var l := LaunchOf(c, w.round.history, i);
    assert Alike(c.algo, w.launched[p][i], l) && Alike(c.algo, w.launched[q][i], l);
    SameClamp(w.launched[p][i], w.launched[q][i]);
  }

  lemma SameClamp(l: Launch, l': Launch)
    requires Planner.Clamp(l.alpha) == Planner.Clamp(l'.alpha) && l.usePcie == l'.usePcie
    ensures SamePlan(l, l')
  {
    forall cfg, total: nat ensures Planner.FastShare(cfg, total, l.alpha) == Planner.FastShare(cfg, total, l'.alpha) {
      assert Planner.Share(total, l.alpha) == Planner.Share(total, l'.alpha);
    }
  }

  /** Announcement `a` is about `k` and none after it among the first `m` is. */
  predicate IsLastFor(history: seq<Option<Entry>>, m: nat, a: nat, k: OpKey) {
    && a < m <= |history| && history[a].Some? && history[a].value.key == k
    && forall x :: a < x < m && history[x].Some? ==> history[x].value.key != k
  }

  predicate NoneFor(history: seq<Option<Entry>>, m: nat, k: OpKey) {
    m <= |history| && forall x :: 0 <= x < m && history[x].Some? ==> history[x].value.key != k
  }

  lemma {:induction false} CacheHasLast(history: seq<Option<Entry>>, m: nat, a: nat, k: OpKey)
    requires IsLastFor(history, m, a, k)
    ensures k in CacheAfter(history, m) && CacheAfter(history, m)[k] == history[a].value.param
  {
    if a < m - 1 {
      CacheHasLast(history, m - 1, a, k);
    }
  }

  lemma {:induction false} CacheHasNone(history: seq<Option<Entry>>, m: nat, k: OpKey)
    requires NoneFor(history, m, k)
    ensures k !in CacheAfter(history, m)
  {
    if m > 0 {
      CacheHasNone(history, m - 1, k);
    }
  }

  /** What is learned reaches the launches: a rank's i-th collective uses the alpha last announced
      for its operation up to that round, if it is in the algorithm's range, and its PCIe switch. */
  lemma LaunchUsesAnnouncement(c: Setup, steps: seq<Step>, w: World, r: nat, i: nat, a: nat)
    requires c.ranks > 0 && Runs(c, steps, w) && r < |w.launched| && i < |w.launched[r]| && i < |c.program|
    requires IsLastFor(w.round.history, i + 1, a, c.program[i])
    ensures var l, announced := w.launched[r][i], w.round.history[a].value.param;
      && l.usePcie == announced.usePcie
      && (c.algo.InverseProportion? && 0.001 <= announced.alpha <= 0.39 ==> l.alpha == announced.alpha)
      && (c.algo.SplitRatio? && 0.0 < announced.alpha <= 0.999 && c.algo.minimum <= announced.alpha ==>
            l.alpha == announced.alpha)
      && (c.algo.Static? ==> l.alpha == c.algo.initial)
  {
    LaunchIsLike(c, steps, w, r, i);
    CacheHasLast(w.round.history, i + 1, a, c.program[i]);
    KeptAsNew(c, w.round.history, i);
    ChosenFromAnnounced(c.algo, KeptAfter(c, w.round.history, i), c.program[i], CacheAfter(w.round.history, i),
        CacheAfter(w.round.history, i + 1), w.launched[r][i]);
  }

  lemma LaunchIsLike(c: Setup, steps: seq<Step>, w: World, r: nat, i: nat)
    requires c.ranks > 0 && Runs(c, steps, w) && r < |w.launched| && i < |w.launched[r]| && i < |c.program|
    ensures i < |w.round.history|
    ensures var l := Chosen(c.algo, KeptAfter(c, w.round.history, i), c.program[i], CacheAfter(w.round.history, i + 1));
      Alike(c.algo, w.launched[r][i], l) && (r != 0 ==> w.launched[r][i] == l)
  {
    RunsKeepWorld(c, steps, w);
    assert RankOk(c, w, r);
    assert r != 0 ==> w.launched[r][i] == LaunchOf(c, w.round.history, i);
    assert r == 0 ==> Alike(c.algo, w.launched[0][i], LaunchOf(c, w.round.history, i));
  }

  lemma ChosenFromAnnounced(algo: Algorithm, own: Instances, k: OpKey, before: Cache, cache: Cache, l: Launch)
    requires k in cache && AsNew(algo, own, before) && Alike(algo, l, Chosen(algo, own, k, cache))
    ensures l.usePcie == cache[k].usePcie
    ensures algo.InverseProportion? && 0.001 <= cache[k].alpha <= 0.39 ==> l.alpha == cache[k].alpha
    ensures algo.SplitRatio? && 0.0 < cache[k].alpha <= 0.999 && algo.minimum <= cache[k].alpha ==>
      l.alpha == cache[k].alpha
    ensures algo.Static? ==> l.alpha == algo.initial
  {
  }

  /** Before the first announcement for its operation a collective uses the initial alpha, and PCIe. */
  lemma LaunchBeforeAnnouncement(c: Setup, steps: seq<Step>, w: World, r: nat, i: nat)
    requires c.ranks > 0 && Runs(c, steps, w) && r < |w.launched| && i < |w.launched[r]| && i < |c.program|
    requires NoneFor(w.round.history, i + 1, c.program[i])
    ensures w.launched[r][i].usePcie
    ensures r != 0 || Agrees(c.algo) ==> w.launched[r][i].alpha == c.algo.initial
  {
    LaunchIsLike(c, steps, w, r, i);
    CacheHasNone(w.round.history, i + 1, c.program[i]);
    KeptAsNew(c, w.round.history, i);
    CacheGrows(w.round.history, i, i + 1, c.program[i]);
    ChosenAsNew(c.algo, KeptAfter(c, w.round.history, i), c.program[i], CacheAfter(w.round.history, i),
        CacheAfter(w.round.history, i + 1));
  }

  lemma ChosenAsNew(algo: Algorithm, own: Instances, k: OpKey, before: Cache, cache: Cache)
    requires AsNew(algo, own, before) && k !in before && k !in cache
    ensures Chosen(algo, own, k, cache) == Launch(k, algo.initial, true)
  {
  }

  lemma CacheGrows(history: seq<Option<Entry>>, m: nat, m': nat, k: OpKey)
    requires m' == m + 1 <= |history|
    ensures k in CacheAfter(history, m) ==> k in CacheAfter(history, m')
  {
  }

  lemma {:induction false} KeptAsNew(c: Setup, history: seq<Option<Entry>>, m: nat)
    requires m <= |history| && m <= |c.program|
    ensures AsNew(c.algo, KeptAfter(c, history, m), CacheAfter(history, m))
  {
    if m > 0 {
      KeptAsNew(c, history, m - 1);
    }
  }

  predicate AllLaunched(c: Setup, w: World) {
    forall r :: 0 <= r < |w.launched| ==> |w.launched[r]| == |c.program|
  }

  /** Whoever is between two rounds launches its collective, begins the next round, or has launched
      the whole program. */
  lemma BetweenRounds(c: Setup, w: World, r: nat) returns (a: Step)
    requires WorldInv(c, w) && r < |w.own| && w.round.place[r].phase == Begin
    requires |w.launched[r]| < |c.program|
    requires Enabled(w.round, if r == 0 then BeginRound else Start(r))
    ensures Can(c, w, a)
  {
    assert RankOk(c, w, r);
    a := if |w.launched[r]| < w.round.place[r].round then Suggest(r)
        else Protocol(if r == 0 then BeginRound else Start(r));
  }

  /** The ranks launch the whole program: until they have, some rank can go on in every reachable
      state. */
  lemma NeverStuck(c: Setup, steps: seq<Step>, w: World) returns (a: Step)
    requires c.ranks > 0 && Runs(c, steps, w) && !AllLaunched(c, w)
    ensures Can(c, w, a)
  {
    RunsKeepWorld(c, steps, w);
    var s := w.round;
    assert RankOk(c, w, 0);
    if s.place[0].phase == AtBarrier {
      var act := BarrierGoesOn(s);
      if act.Start? {
        assert RankOk(c, w, act.rank);
        a := BetweenRounds(c, w, act.rank);
      } else {
        a := Protocol(act);
      }
    } else if s.place[0].phase != Begin {
      var act := ZeroGoesOn(s);
      a := Protocol(act);
    } else if |w.launched[0]| < |c.program| {
      var act := ZeroGoesOn(s);
      a := BetweenRounds(c, w, 0);
    } else {
      a := LastRound(c, w);
    }
  }

  /** Rank 0 is through with the program: the others are out of the barrier or can leave it, and
      launch what is left. */
  lemma LastRound(c: Setup, w: World) returns (a: Step)
    requires WorldInv(c, w) && !AllLaunched(c, w)
    requires w.round.place[0].phase == Begin && |w.launched[0]| == |c.program|
    ensures Can(c, w, a)
  {
    assert RankOk(c, w, 0);
    var r :| 0 <= r < |w.launched| && |w.launched[r]| != |c.program|;
    assert RankOk(c, w, r) && PlaceOk(w.round, r);
    if w.round.place[r].phase == AtBarrier {
      StragglerLeaves(w.round, r);
      a := Protocol(Pass(r));
    } else {
      a := Suggest(r);
    }
  }

  ghost predicate AlwaysSameAlpha(algo: Algorithm) {
    forall c: Setup, steps, w: World, p, q, i :: c.algo == algo && c.ranks > 0 && Runs(c, steps, w)
      && 0 <= p < |w.launched| && 0 <= q < |w.launched| && 0 <= i < |w.launched[p]| && i < |w.launched[q]|
      ==> w.launched[p][i].alpha == w.launched[q][i].alpha
  }

  /** The exact condition on the configuration for equal alphas. */
  lemma SameAlphaExactly(algo: Algorithm)
    ensures AlwaysSameAlpha(algo) <==> Agrees(algo)
  {
    if Agrees(algo) {
      forall c: Setup, steps, w: World, p: nat, q: nat, i: nat | c.algo == algo && c.ranks > 0 && Runs(c, steps, w)
        && p < |w.launched| && q < |w.launched| && i < |w.launched[p]| && i < |w.launched[q]|
        ensures w.launched[p][i].alpha == w.launched[q][i].alpha
      {
        SameLaunches(c, steps, w, p, q, i);
      }
    } else {
      var k := OpKey(0, 0, 0, 0, 0, 0);
      var c := Setup(2, None, algo, true, [k, k, k]);
      var steps, w := NegativeAlphasDiffer(c, k);
      assert w.launched[0][2].alpha != w.launched[1][2].alpha;
    }
  }

  // ---- Two ranks with negative alphas, three collectives, two failed runs ----

  ghost predicate Possible(c: Setup, w: World) {
    exists steps :: Runs(c, steps, w)
  }

  /** `p` holds of everything reachable from where it holds. */
  ghost predicate Closed(c: Setup, p: World -> bool) {
    forall w, a :: p(w) && Can(c, w, a) ==> p(After(c, w, a))
  }

  lemma Go(c: Setup, p: World -> bool, w: World, a: Step, w': World)
    requires Closed(c, p) && p(w) && Goes(c, w, a, w')
    ensures p(w')
  {
  }

  lemma RunsClosed(c: Setup) returns (p: World -> bool)
    ensures Closed(c, p)
    ensures forall w :: p(w) <==> Possible(c, w)
  {
    p := (w: World) => Possible(c, w);
    forall w, a | Possible(c, w) && Can(c, w, a) ensures Possible(c, After(c, w, a)) {
      var steps :| Runs(c, steps, w);
      var more := steps + [a];
      assert more[..|more| - 1] == steps && Goes(c, w, a, After(c, w, a));
      assert Runs(c, more, After(c, w, a));
    }
  }

  /** Both ranks are in round `m`. */
  function Two(pending: nat, table: Option<Entry>, c0: Cache, c1: Cache, m: nat, f0: Phase, f1: Phase,
               history: seq<Option<Entry>>): State
  {
    State(pending, table, [c0, c1], [Place(m, f0), Place(m, f1)], history)
  }

  predicate TwoRanks(w: World, m: nat) {
    |w.own| == 2 && |w.launched| == 2 && |w.launched[0]| == |w.launched[1]| == m
  }

  lemma AnnounceIt(c: Setup, p: World -> bool, w: World, m: nat, zero: Cache, cache: Cache, history: seq<Option<Entry>>,
                   table: Option<Entry>, f: Phase)
    requires Closed(c, p) && p(w) && TwoRanks(w, m) && f in {Started, Written}
    requires w.round == Two(0, table, zero, cache, m, f, Begin, history)
    ensures p(w.(round := Two(1, table, zero, cache, m, Announced, Begin, history + [table])))
  {
    Go(c, p, w, Protocol(Announce), w.(round := Two(1, table, zero, cache, m, Announced, Begin, history + [table])));
  }

  lemma ZeroReads(c: Setup, p: World -> bool, w: World, m: nat, zero: Cache, one: Cache, history: seq<Option<Entry>>,
                  table: Option<Entry>)
    requires Closed(c, p) && p(w) && TwoRanks(w, m) && m < |c.program|
    requires w.round == Two(1, table, zero, one, m, Announced, Begin, history)
    ensures p(w.(round := Two(1, table, Merged1(zero, table), one, m, Merged, Started, history)))
  {
    var w1 := w.(round := Two(1, table, Merged1(zero, table), one, m, Merged, Begin, history));
    Go(c, p, w, Protocol(Merge(0)), w1);
    var w2 := w.(round := Two(1, table, Merged1(zero, table), one, m, Merged, Started, history));
    Go(c, p, w1, Protocol(Start(1)), w2);
  }

  lemma OneReads(c: Setup, p: World -> bool, w: World, m: nat, zero: Cache, one: Cache, history: seq<Option<Entry>>,
                 table: Option<Entry>)
    requires Closed(c, p) && p(w) && TwoRanks(w, m)
    requires w.round == Two(1, table, zero, one, m, Merged, Started, history)
    ensures p(w.(round := Two(0, table, zero, Merged1(one, table), m, Merged, CountedOff, history)))
  {
    var w1 := w.(round := Two(1, table, zero, Merged1(one, table), m, Merged, Merged, history));
    Go(c, p, w, Protocol(Merge(1)), w1);
    var w2 := w.(round := Two(0, table, zero, Merged1(one, table), m, Merged, CountedOff, history));
    Go(c, p, w1, Protocol(CountOff(1)), w2);
  }

  lemma MeetAtBarrier(c: Setup, p: World -> bool, w: World, m: nat, cache: Cache, history: seq<Option<Entry>>,
                      table: Option<Entry>)
    requires Closed(c, p) && p(w) && TwoRanks(w, m)
    requires w.round == Two(0, table, cache, cache, m, Merged, CountedOff, history)
    ensures p(w.(round := Two(0, table, cache, cache, m + 1, Begin, Begin, history)))
  {
    var w1 := w.(round := Two(0, table, cache, cache, m, AtBarrier, CountedOff, history));
    Go(c, p, w, Protocol(Arrive(0)), w1);
    var w2 := w.(round := Two(0, table, cache, cache, m, AtBarrier, AtBarrier, history));
    Go(c, p, w1, Protocol(Arrive(1)), w2);
    var passed := State(0, table, [cache, cache], [Place(m + 1, Begin), Place(m, AtBarrier)], history);
    var w3 := w.(round := passed);
    Go(c, p, w2, Protocol(Pass(0)), w3);
    Go(c, p, w3, Protocol(Pass(1)), w.(round := Two(0, table, cache, cache, m + 1, Begin, Begin, history)));
  }

  lemma SuggestBoth(c: Setup, p: World -> bool, w: World, m: nat, cache: Cache, history: seq<Option<Entry>>,
                    table: Option<Entry>, k: OpKey) returns (w': World)
    requires Closed(c, p) && p(w) && TwoRanks(w, m) && m < |c.program| && k == c.program[m]
    requires w.round == Two(0, table, cache, cache, m + 1, Begin, Begin, history)
    ensures p(w') && w'.round == w.round && TwoRanks(w', m + 1)
    ensures w'.own == [AfterSuggest(c.algo, w.own[0], k, cache), AfterSuggest(c.algo, w.own[1], k, cache)]
    ensures w'.launched[0] == w.launched[0] + [Chosen(c.algo, w.own[0], k, cache)]
    ensures w'.launched[1] == w.launched[1] + [Chosen(c.algo, w.own[1], k, cache)]
  {
    var w1 := After(c, w, Suggest(0));
    Go(c, p, w, Suggest(0), w1);
    w' := After(c, w1, Suggest(1));
    Go(c, p, w1, Suggest(1), w');
  }

  /** From the announcement of a round to the beginning of the next. */
  lemma RestOfRound(c: Setup, p: World -> bool, w: World, m: nat, zero: Cache, cache: Cache,
                    history: seq<Option<Entry>>,
                    table: Option<Entry>, f: Phase, k: OpKey) returns (w': World)
    requires Closed(c, p) && p(w) && TwoRanks(w, m) && f in {Started, Written} && m < |c.program| && k == c.program[m]
    requires w.round == Two(0, table, zero, cache, m, f, Begin, history)
    requires Merged1(zero, table) == Merged1(cache, table) == zero
    ensures p(w') && TwoRanks(w', m + 1)
    ensures w'.round == Two(0, table, zero, zero, m + 1, Begin, Begin, history + [table])
    ensures w'.own == [AfterSuggest(c.algo, w.own[0], k, zero), AfterSuggest(c.algo, w.own[1], k, zero)]
    ensures w'.launched[0] == w.launched[0] + [Chosen(c.algo, w.own[0], k, zero)]
    ensures w'.launched[1] == w.launched[1] + [Chosen(c.algo, w.own[1], k, zero)]
  {
    var announced := history + [table];
    AnnounceIt(c, p, w, m, zero, cache, history, table, f);
    ZeroReads(c, p, w.(round := Two(1, table, zero, cache, m, Announced, Begin, announced)), m, zero, cache,
        announced, table);
    OneReads(c, p, w.(round := Two(1, table, zero, cache, m, Merged, Started, announced)), m, zero, cache, announced,
        table);
    MeetAtBarrier(c, p, w.(round := Two(0, table, zero, zero, m, Merged, CountedOff, announced)), m, zero, announced,
        table);
    w' := SuggestBoth(c, p, w.(round := Two(0, table, zero, zero, m + 1, Begin, Begin, announced)), m, zero,
        announced, table, k);
  }

  predicate BothNegative(algo: Algorithm) {
    algo.SplitRatio? && algo.initial < 0.0 && algo.minimum < 0.0
  }

  /** A run whose fast side failed. */
  const FAILED: Stat := Stat(false, true, 1, 0, 0.0, 0.0)

  function Larger(x: real, y: real): real {
    if x < y then y else x
  }

  /** A failed run takes rank 0 half the way to zero, and only rank 0. */
  lemma FailedAlphas(algo: Algorithm, zero: Instances, one: Instances, k: OpKey, cache: Cache)
    requires BothNegative(algo) && k in zero && zero[k].alpha < 0.0 && k in one && k in cache
    requires cache[k].alpha == AfterUpdate(algo, zero, k, FAILED)[k].alpha
    ensures AlphaFor(algo, AfterUpdate(algo, zero, k, FAILED), k, cache) ==
            Larger(algo.minimum, zero[k].alpha * 0.5) < 0.0
    ensures AlphaFor(algo, one, k, cache) == MaxMin(algo.minimum, one[k].alpha, SPLIT_MAX)
  {
  }

  lemma FailedRound(c: Setup, p: World -> bool, w: World, m: nat, k: OpKey, cache: Cache,
                    history: seq<Option<Entry>>, table: Option<Entry>)
      returns (w': World, cache': Cache, history': seq<Option<Entry>>, table': Option<Entry>)
    requires Closed(c, p) && p(w) && TwoRanks(w, m) && w.round == Two(0, table, cache, cache, m, Begin, Begin, history)
    requires BothNegative(c.algo) && m < |c.program| && c.program[m] == k
    requires k in w.own[0] && w.own[0][k].alpha < 0.0 && k in w.own[1]
    ensures p(w') && TwoRanks(w', m + 1) && w'.round == Two(0, table', cache', cache', m + 1, Begin, Begin, history')
    ensures k in w'.own[0] && w'.own[0][k].alpha == Larger(c.algo.minimum, w.own[0][k].alpha * 0.5) < 0.0
    ensures k in w'.own[1] && w'.own[1][k].alpha == MaxMin(c.algo.minimum, w.own[1][k].alpha, SPLIT_MAX)
    ensures w'.launched[0][m].alpha == w'.own[0][k].alpha && w'.launched[1][m].alpha == w'.own[1][k].alpha
  {
    var w1 := w.(round := Two(0, table, cache, cache, m, Started, Begin, history));
    Go(c, p, w, Protocol(BeginRound), w1);
    var e := Announcement(c, w1, k, FAILED);
    cache', table', history' := cache[k := e.param], Some(e), history + [Some(e)];
    var own := AfterUpdate(c.algo, w.own[0], k, FAILED);
    var w2 := World(Two(0, table', cache', cache, m, Written, Begin, history), [own, w.own[1]], w.launched);
    Go(c, p, w1, Feedback(k, FAILED), w2);
    FailedAlphas(c.algo, w.own[0], w.own[1], k, cache');
    w' := RestOfRound(c, p, w2, m, cache', cache, history, table', Written, k);
  }

  lemma FirstRound(c: Setup, p: World -> bool, k: OpKey) returns (w: World)
    requires Closed(c, p) && p(World(Two(0, None, map[], map[], 0, Begin, Begin, []), [map[], map[]], [[], []]))
    requires |c.program| > 0 && c.program[0] == k
    ensures p(w) && TwoRanks(w, 1) && w.round == Two(0, None, map[], map[], 1, Begin, Begin, [None])
    ensures k in w.own[0] && k in w.own[1] && w.own[0][k].alpha == w.own[1][k].alpha == c.algo.initial
  {
    var w0 := World(Two(0, None, map[], map[], 0, Begin, Begin, []), [map[], map[]], [[], []]);
    var w1 := w0.(round := Two(0, None, map[], map[], 0, Started, Begin, []));
    Go(c, p, w0, Protocol(BeginRound), w1);
    w := RestOfRound(c, p, w1, 0, map[], map[], [], None, Started, k);
  }

  lemma NegativeAlphasDiffer(c: Setup, k: OpKey) returns (steps: seq<Step>, w: World)
    requires c.ranks == 2 && c.left == None && c.program == [k, k, k] && BothNegative(c.algo)
    ensures Runs(c, steps, w) && |w.launched| == 2 && |w.launched[0]| == |w.launched[1]| == 3
    ensures w.launched[0][2].alpha != w.launched[1][2].alpha
  {
    var p := RunsClosed(c);
    StartIsPossible(c);
    var w1 := FirstRound(c, p, k);
    var w2, cache, history, table := FailedRound(c, p, w1, 1, k, map[], [None], None);
    w, cache, history, table := FailedRound(c, p, w2, 2, k, cache, history, table);
    steps :| Runs(c, steps, w);
  }

  lemma StartIsPossible(c: Setup)
    requires c.ranks == 2 && c.left == None
    ensures Possible(c, World(Two(0, None, map[], map[], 0, Begin, Begin, []), [map[], map[]], [[], []]))
  {
    var w0 := World(Two(0, None, map[], map[], 0, Begin, Begin, []), [map[], map[]], [[], []]);
    assert w0 == World(Initial(2, None), seq(2, i => map[]), seq(2, i => []));
    assert Runs(c, [], w0);
  }
}
