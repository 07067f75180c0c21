/** The two local searches of generate.go as functions of the layout state
    and of the supplied random positions (`RandPos`). The score is a
    parameter: any deterministic function from grid to an ordered value.
    Each run stops early when the supplied positions are used up. */
module Search {
  import opened Keyboard

  /** `greedyImprove` returns once `stuck` exceeds this. */
  const STUCK_LIMIT: int := 500

  /** The initial patience of `fullImprove`; later phases use `900 * tier * tier`. */
  const INITIAL_MAX: int := 600

  /** The patience of a phase at `tier` after the first tier change. */
  function Patience(tier: int): int {
    900 * tier * tier
  }

  /** Capacity of the rollback buffer `Swaps`. */
  const SWAPS_LEN: int := 7

  // ---------------------------------------------------------------------
  // greedyImprove

  /** The loop state of `greedyImprove`: the layout and the stagnation counter. */
  datatype Climb = Climb(s: State, stuck: nat)

  /** The result of a run, with the number of positions it used. */
  datatype ClimbRun = ClimbRun(last: Climb, used: nat)

  /** One iteration: swap two cells, keep the swap on a strictly lower
      score, otherwise swap them back and count the failure. */
  function GreedyStep(c: Climb, a: Pos, b: Pos, score: Grid -> real): (r: Climb)
    requires IsGrid(c.s.keys) && InGrid(a) && InGrid(b)
    ensures IsGrid(r.s.keys)
  {
    var t := SwapState(c.s, a, b);
    if score(t.keys) < score(c.s.keys) then Climb(t, 0)
    else Climb(SwapState(t, a, b), c.stuck + 1)
  }

  /** The loop of `greedyImprove`: it returns right after the iteration that
      takes `stuck` past the limit, or when the positions run out. */
  function GreedyRun(c: Climb, draws: seq<Pos>, score: Grid -> real): (r: ClimbRun)
    requires IsGrid(c.s.keys) && AllInGrid(draws)
    ensures IsGrid(r.last.s.keys) && r.used <= |draws|
    decreases |draws|
  {
    if |draws| < 2 then ClimbRun(c, 0)
    else
      var next := GreedyStep(c, draws[0], draws[1], score);
      if next.stuck > STUCK_LIMIT then ClimbRun(next, 2)
      else
        var r := GreedyRun(next, draws[2..], score);
        ClimbRun(r.last, r.used + 2)
  }

  /** A step keeps a consistent layout consistent. */
  lemma GreedyStepKeepsConsistent(c: Climb, a: Pos, b: Pos, score: Grid -> real)
    requires Valid(c.s) && InGrid(a) && InGrid(b)
    ensures Valid(GreedyStep(c, a, b, score).s)
  {
    var t := SwapState(c.s, a, b);
    var r := GreedyStep(c, a, b, score);
    if score(t.keys) < score(c.s.keys) {
      SwapKeepsConsistent(c.s, a, b);
      assert r.s == t;
    } else {
      SwapInvolution(c.s, a, b);
      assert r.s == c.s;
    }
  }

  /** A step keeps the swap exactly when it strictly lowers the score, and
      then resets `stuck`; otherwise the layout is restored exactly and
      `stuck` grows by one. */
  lemma GreedyStepAcceptsOnlyImprovement(c: Climb, a: Pos, b: Pos, score: Grid -> real)
    requires Valid(c.s) && InGrid(a) && InGrid(b)
    ensures var r := GreedyStep(c, a, b, score);
      && (r.stuck == 0 <==> score(SwapState(c.s, a, b).keys) < score(c.s.keys))
      && (r.stuck == 0 ==> r.s == SwapState(c.s, a, b))
      && (r.stuck != 0 ==> r.stuck == c.stuck + 1 && r.s == c.s)
  {
    var t := SwapState(c.s, a, b);
    if score(t.keys) >= score(c.s.keys) {
      SwapInvolution(c.s, a, b);
    }
  }

  /** So a step never makes a consistent layout worse: it is unchanged or
      strictly better. */
  lemma GreedyStepNoWorse(c: Climb, a: Pos, b: Pos, score: Grid -> real)
    requires Valid(c.s) && InGrid(a) && InGrid(b)
    ensures var r := GreedyStep(c, a, b, score);
      Valid(r.s) && (r.s == c.s || score(r.s.keys) < score(c.s.keys))
  {
    GreedyStepKeepsConsistent(c, a, b, score);
    GreedyStepAcceptsOnlyImprovement(c, a, b, score);
  }

  /** A run keeps the reverse index consistent with the grid. */
  lemma {:induction false} GreedyRunKeepsConsistent(c: Climb, draws: seq<Pos>, score: Grid -> real)
    requires Valid(c.s) && AllInGrid(draws)
    ensures Valid(GreedyRun(c, draws, score).last.s)
    decreases |draws|
  {
    if |draws| >= 2 {
      var next := GreedyStep(c, draws[0], draws[1], score);
      GreedyStepKeepsConsistent(c, draws[0], draws[1], score);
      if next.stuck <= STUCK_LIMIT {
        GreedyRunKeepsConsistent(next, draws[2..], score);
      }
    }
  }

  /** A run only rearranges the symbols on the grid: none is lost or duplicated. */
  lemma {:induction false} GreedyRunKeepsSymbols(c: Climb, draws: seq<Pos>, score: Grid -> real)
    requires IsGrid(c.s.keys) && AllInGrid(draws)
    ensures multiset(GreedyRun(c, draws, score).last.s.keys) == multiset(c.s.keys)
    decreases |draws|
  {
    if |draws| >= 2 {
      var a, b := draws[0], draws[1];
      var next := GreedyStep(c, a, b, score);
      var t := SwapState(c.s, a, b);
      SwapGridPermutes(c.s.keys, a, b);
      SwapGridPermutes(t.keys, a, b);
      assert multiset(next.s.keys) == multiset(c.s.keys);
      if next.stuck <= STUCK_LIMIT {
        GreedyRunKeepsSymbols(next, draws[2..], score);
      }
    }
  }

  /** Over a whole run the layout either stays as it was or ends with a
      strictly lower score: the score never increases. */
  lemma {:induction false} GreedyRunNeverWorse(c: Climb, draws: seq<Pos>, score: Grid -> real)
    requires Valid(c.s) && AllInGrid(draws)
    ensures var r := GreedyRun(c, draws, score);
      r.last.s == c.s || score(r.last.s.keys) < score(c.s.keys)
    decreases |draws|
  {
    if |draws| >= 2 {
      var next := GreedyStep(c, draws[0], draws[1], score);
      GreedyStepNoWorse(c, draws[0], draws[1], score);
      if next.stuck <= STUCK_LIMIT {
        GreedyRunNeverWorse(next, draws[2..], score);
      }
    }
  }

  /** The run ends either with `stuck` just past the limit, after at least
      that many consecutive failed swaps, or because fewer than two
      positions are left; it never stops early otherwise. */
  lemma {:induction false} GreedyRunStopsOnStagnation(c: Climb, draws: seq<Pos>, score: Grid -> real)
    requires IsGrid(c.s.keys) && AllInGrid(draws) && c.stuck <= STUCK_LIMIT
    ensures var r := GreedyRun(c, draws, score);
      && r.last.stuck <= STUCK_LIMIT + 1
      && (r.last.stuck <= STUCK_LIMIT ==> |draws| - r.used < 2)
      && (r.last.stuck > STUCK_LIMIT ==> r.used >= 2 * (STUCK_LIMIT + 1 - c.stuck))
    decreases |draws|
  {
    if |draws| >= 2 {
      var next := GreedyStep(c, draws[0], draws[1], score);
      if next.stuck <= STUCK_LIMIT {
        GreedyRunStopsOnStagnation(next, draws[2..], score);
      }
    }
  }

  /** `n` iterations of the greedy loop body, with no stop test. */
  function Climbs(c: Climb, draws: seq<Pos>, n: nat, score: Grid -> real): (r: Climb)
    requires IsGrid(c.s.keys) && AllInGrid(draws) && 2 * n <= |draws|
    ensures IsGrid(r.s.keys)
    decreases n
  {
    if n == 0 then c
    else Climbs(GreedyStep(c, draws[0], draws[1], score), draws[2..], n - 1, score)
  }

  /** The stopping rule of `greedyImprove`: the run is the first iteration
      after which `stuck` exceeds the limit (no earlier iteration does), or,
      if none does, the last iteration the positions allow. */
  lemma {:induction false} GreedyRunStopsAtFirstStagnation(c: Climb, draws: seq<Pos>, score: Grid -> real)
    requires IsGrid(c.s.keys) && AllInGrid(draws)
    ensures var r := GreedyRun(c, draws, score);
      && r.used % 2 == 0
      && r.last == Climbs(c, draws, r.used / 2, score)
      && (r.last.stuck > STUCK_LIMIT || |draws| - r.used < 2)
      && forall k :: 0 < k < r.used / 2 ==> Climbs(c, draws, k, score).stuck <= STUCK_LIMIT
    decreases |draws|
  {
    if |draws| >= 2 {
      var next := GreedyStep(c, draws[0], draws[1], score);
      var rest := draws[2..];
      if next.stuck <= STUCK_LIMIT {
        GreedyRunStopsAtFirstStagnation(next, rest, score);
        var r := GreedyRun(next, rest, score);
        assert Climbs(c, draws, r.used / 2 + 1, score) == Climbs(next, rest, r.used / 2, score);
        forall k | 0 < k < r.used / 2 + 1
          ensures Climbs(c, draws, k, score).stuck <= STUCK_LIMIT
        {
          assert Climbs(c, draws, k, score) == Climbs(next, rest, k - 1, score);
        }
      } else {
        assert Climbs(c, draws, 1, score) == Climbs(next, rest, 0, score);
      }
    }
  }

  // ---------------------------------------------------------------------
  // fullImprove

  /** The loop state of `fullImprove`: the layout, the counter `i` of
      iterations without improvement, `tier`, `changed`, the counters
      `changes` and `rejected`, and the patience `max`. */
  datatype Tiered = Tiered(s: State, i: int, tier: int, changed: bool,
                           changes: nat, rejected: nat, max: int)

  /** The state `fullImprove` starts from. */
  function Start(s: State): (t: Tiered)
    ensures t.s == s && t.tier == 2 && t.max == INITIAL_MAX
  {
    Tiered(s, 0, 2, false, 0, 0, INITIAL_MAX)
  }

  /** The pairs of positions one perturbation draws, in drawing order. */
  function DrawPairs(draws: seq<Pos>, n: nat): (ps: seq<Pair>)
    requires 2 * n <= |draws| && AllInGrid(draws)
    ensures |ps| == n && PairsInGrid(ps)
    ensures forall k :: 0 <= k < n ==> ps[k] == Pair(draws[2 * k], draws[2 * k + 1])
  {
    seq(n, k requires 0 <= k < n => Pair(draws[2 * k], draws[2 * k + 1]))
  }

  /** The invariant of the tier schedule while the search runs: a tier in
      1..3 (so the buffer of seven pairs is never overrun), `i` within the
      patience, and the patience either the initial one or `Patience(tier)`. */
  ghost predicate Schedule(t: Tiered) {
    && 1 <= t.tier <= 3 && t.tier <= SWAPS_LEN
    && 0 <= t.i <= t.max
    && (t.max == Patience(t.tier) || (t.tier == 2 && t.max == INITIAL_MAX))
  }

  /** One iteration: apply `tier` random swaps (recorded in the buffer from
      `Swaps[tier-1]` down to `Swaps[0]`); keep them on a strictly lower
      score; otherwise undo them from `Swaps[0]` up, and on the reject path
      only, when `i` exceeds the patience, change tier. */
  function FullStep(t: Tiered, draws: seq<Pos>, score: Grid -> real): (r: Tiered)
    requires IsGrid(t.s.keys) && 1 <= t.tier && |draws| == 2 * t.tier && AllInGrid(draws)
    ensures IsGrid(r.s.keys) && 1 <= r.tier
  {
    var ps := DrawPairs(draws, t.tier);
    var perturbed := ApplyPairs(t.s, ps);
    if score(perturbed.keys) < score(t.s.keys) then
      t.(s := perturbed, i := 0, changed := true, changes := t.changes + 1)
    else
      var swaps := Reverse(ps);
      assert PairsInGrid(swaps);
      Rejected(t.(s := ApplyPairs(perturbed, swaps)))
  }

  /** The counters after a rejected perturbation, whose swaps `t.s` has
      already undone: count the rejection, and once `i` exceeds the
      patience change tier and reset `i`, unless the search breaks off. */
  function Rejected(t: Tiered): (r: Tiered)
    ensures r.s == t.s && r.rejected == t.rejected + 1 && r.changes == t.changes
  {
    var i := t.i + 1;
    if i > t.max then
      var tier := if t.changed then 1 else t.tier + 1;
      Tiered(t.s, if tier > 3 then i else 0, tier, false, t.changes, t.rejected + 1, Patience(tier))
    else
      t.(i := i, rejected := t.rejected + 1)
  }

  /** The loop of `fullImprove`: it breaks once the tier exceeds 3, or stops
      when fewer positions are left than the next perturbation needs. */
  function FullRun(t: Tiered, draws: seq<Pos>, score: Grid -> real): (r: Tiered)
    requires IsGrid(t.s.keys) && 1 <= t.tier && AllInGrid(draws)
    ensures IsGrid(r.s.keys) && 1 <= r.tier
    decreases |draws|
  {
    if t.tier > 3 || |draws| < 2 * t.tier then t
    else FullRun(FullStep(t, draws[..2 * t.tier], score), draws[2 * t.tier..], score)
  }

  /** One iteration of the tiered loop, when it runs. */
  lemma FullRunUnfold(t: Tiered, draws: seq<Pos>, score: Grid -> real)
    requires IsGrid(t.s.keys) && 1 <= t.tier <= 3 && 2 * t.tier <= |draws| && AllInGrid(draws)
    ensures AllInGrid(draws[..2 * t.tier]) && AllInGrid(draws[2 * t.tier..])
    ensures FullRun(t, draws, score) == FullRun(FullStep(t, draws[..2 * t.tier], score), draws[2 * t.tier..], score)
  {
  }

  /** The step that keeps its perturbation. */
  lemma FullStepAccept(t: Tiered, draws: seq<Pos>, score: Grid -> real)
    requires IsGrid(t.s.keys) && 1 <= t.tier && |draws| == 2 * t.tier && AllInGrid(draws)
    requires score(ApplyPairs(t.s, DrawPairs(draws, t.tier)).keys) < score(t.s.keys)
    ensures FullStep(t, draws, score)
         == t.(s := ApplyPairs(t.s, DrawPairs(draws, t.tier)), i := 0, changed := true, changes := t.changes + 1)
  {
  }

  /** The step that rolls its perturbation back. */
  lemma FullStepReject(t: Tiered, draws: seq<Pos>, score: Grid -> real)
    requires IsGrid(t.s.keys) && 1 <= t.tier && |draws| == 2 * t.tier && AllInGrid(draws)
    requires !(score(ApplyPairs(t.s, DrawPairs(draws, t.tier)).keys) < score(t.s.keys))
    ensures var ps := DrawPairs(draws, t.tier);
      FullStep(t, draws, score) == Rejected(t.(s := ApplyPairs(ApplyPairs(t.s, ps), Reverse(ps))))
  {
  }

  /** A perturbation is either kept with a strictly lower score, or rolled
      back so that the layout is exactly what it was before. */
  lemma FullStepRollsBack(t: Tiered, draws: seq<Pos>, score: Grid -> real)
    requires Valid(t.s) && 1 <= t.tier && |draws| == 2 * t.tier && AllInGrid(draws)
    ensures var r := FullStep(t, draws, score);
      && Valid(r.s)
      && ((r.changes == t.changes + 1 && r.changed && r.i == 0 && score(r.s.keys) < score(t.s.keys))
          || (r.rejected == t.rejected + 1 && r.s == t.s))
  {
    var ps := DrawPairs(draws, t.tier);
    var perturbed := ApplyPairs(t.s, ps);
    var r := FullStep(t, draws, score);
    if score(perturbed.keys) < score(t.s.keys) {
      ApplyPairsKeepsConsistent(t.s, ps);
      assert r.s == perturbed;
    } else {
      Rollback(t.s, ps);
      assert r.s == t.s;
    }
  }

  /** The tier rule: the schedule invariant holds after every step that does
      not end the search; the search ends (tier 4) exactly when a patience
      run at tier 3 without improvement is rejected past its patience; the
      tier only drops, to 1, after a phase with an improvement, and only
      rises, by one, after a phase without. */
  lemma FullStepSchedule(t: Tiered, draws: seq<Pos>, score: Grid -> real)
    requires IsGrid(t.s.keys) && Schedule(t) && |draws| == 2 * t.tier && AllInGrid(draws)
    ensures var r := FullStep(t, draws, score);
      && (r.tier <= 3 ==> Schedule(r))
      && (r.tier > 3 <==> r.rejected == t.rejected + 1 && t.i + 1 > t.max && !t.changed && t.tier == 3)
      && r.tier <= 4
      && (r.tier < t.tier ==> r.tier == 1 && t.changed)
      && (r.tier > t.tier ==> r.tier == t.tier + 1 && !t.changed)
  {
  }

  /** The tier rule of one step. An accepted perturbation sets `changed`,
      resets `i` and leaves tier and patience alone. A rejection counts one
      more iteration; only when that takes `i` past the patience does the
      tier change: to 1 after a phase with a change, else up by one. The
      patience then becomes `900 * tier * tier`, `changed` is cleared, and
      `i` restarts at 0 unless the search breaks off beyond tier 3. */
  lemma FullStepTierRule(t: Tiered, draws: seq<Pos>, score: Grid -> real)
    requires IsGrid(t.s.keys) && 1 <= t.tier && |draws| == 2 * t.tier && AllInGrid(draws)
    ensures var r := FullStep(t, draws, score);
      var rejected := r.rejected == t.rejected + 1;
      && (!rejected ==> r.rejected == t.rejected && r.changed && r.i == 0 && r.tier == t.tier && r.max == t.max)
      && (rejected && t.i + 1 <= t.max ==>
            r.i == t.i + 1 && r.tier == t.tier && r.max == t.max && r.changed == t.changed)
      && (rejected && t.i + 1 > t.max ==>
            && r.tier == (if t.changed then 1 else t.tier + 1)
            && r.max == Patience(r.tier) && !r.changed
            && r.i == (if r.tier <= 3 then 0 else t.i + 1))
  {
  }

  /** `fullImprove` starts within the schedule, so its whole run stays within
      it until the search breaks off at tier 4. */
  lemma StartSchedule(s: State, draws: seq<Pos>, score: Grid -> real)
    requires IsGrid(s.keys) && AllInGrid(draws)
    ensures Schedule(Start(s))
    ensures var r := FullRun(Start(s), draws, score);
      r.tier <= 4 && (r.tier <= 3 ==> Schedule(r))
  {
    FullRunSchedule(Start(s), draws, score);
  }

  /** Over a whole tiered run the layout either stays as it was or ends with
      a strictly lower score, and its reverse index stays consistent. */
  lemma {:induction false} FullRunNeverWorse(t: Tiered, draws: seq<Pos>, score: Grid -> real)
    requires Valid(t.s) && 1 <= t.tier && AllInGrid(draws)
    ensures var r := FullRun(t, draws, score);
      Valid(r.s) && (r.s == t.s || score(r.s.keys) < score(t.s.keys))
    decreases |draws|
  {
    if t.tier <= 3 && |draws| >= 2 * t.tier {
      var step := draws[..2 * t.tier];
      FullStepRollsBack(t, step, score);
      FullRunNeverWorse(FullStep(t, step, score), draws[2 * t.tier..], score);
    }
  }

  /** A tiered run only rearranges the symbols on the grid. */
  lemma {:induction false} FullRunKeepsSymbols(t: Tiered, draws: seq<Pos>, score: Grid -> real)
    requires IsGrid(t.s.keys) && 1 <= t.tier && AllInGrid(draws)
    ensures multiset(FullRun(t, draws, score).s.keys) == multiset(t.s.keys)
    decreases |draws|
  {
    if t.tier <= 3 && |draws| >= 2 * t.tier {
      var step := draws[..2 * t.tier];
      var ps := DrawPairs(step, t.tier);
      var perturbed := ApplyPairs(t.s, ps);
      ApplyPairsPermutes(t.s, ps);
      ApplyPairsPermutes(perturbed, Reverse(ps));
      var next := FullStep(t, step, score);
      assert multiset(next.s.keys) == multiset(t.s.keys);
      FullRunKeepsSymbols(next, draws[2 * t.tier..], score);
    }
  }

  /** A run from a state within the schedule ends within it, or at tier 4
      once the search has broken off. */
  lemma {:induction false} FullRunSchedule(t: Tiered, draws: seq<Pos>, score: Grid -> real)
    requires IsGrid(t.s.keys) && Schedule(t) && AllInGrid(draws)
    ensures var r := FullRun(t, draws, score);
      && (r.tier <= 3 ==> Schedule(r))
      && r.tier <= 4
    decreases |draws|
  {
    if |draws| >= 2 * t.tier {
      var step := draws[..2 * t.tier];
      FullStepSchedule(t, step, score);
      var next := FullStep(t, step, score);
      if next.tier <= 3 {
        FullRunSchedule(next, draws[2 * t.tier..], score);
      }
    }
  }

  /** The outcome of several tiered iterations: the state, the positions
      used and the number of iterations done. */
  datatype Stepped = Stepped(last: Tiered, used: nat, steps: nat)

  /** Up to `n` iterations of the tiered loop body with no tier test: they
      stop early only when the positions run out. */
  function Steps(t: Tiered, draws: seq<Pos>, n: nat, score: Grid -> real): (r: Stepped)
    requires IsGrid(t.s.keys) && 1 <= t.tier && AllInGrid(draws)
    ensures IsGrid(r.last.s.keys) && 1 <= r.last.tier && r.used <= |draws| && r.steps <= n
    decreases n
  {
    if n == 0 || |draws| < 2 * t.tier then Stepped(t, 0, 0)
    else
      var r := Steps(FullStep(t, draws[..2 * t.tier], score), draws[2 * t.tier..], n - 1, score);
      Stepped(r.last, r.used + 2 * t.tier, r.steps + 1)
  }

  /** The stopping rule of `fullImprove`: the run is the first iteration that
      takes the tier past 3 (it is at most 3 before every iteration done), or, if
      none does, the last iteration the positions allow. */
  lemma {:induction false} FullRunBreaksAtFirstTierFour(t: Tiered, draws: seq<Pos>, score: Grid -> real)
      returns (n: nat)
    requires IsGrid(t.s.keys) && 1 <= t.tier && AllInGrid(draws)
    ensures var r := Steps(t, draws, n, score);
      && r.steps == n
      && FullRun(t, draws, score) == r.last
      && (r.last.tier > 3 || |draws| - r.used < 2 * r.last.tier)
      && forall k :: 0 <= k < n ==> Steps(t, draws, k, score).last.tier <= 3
    decreases |draws|
  {
    if t.tier > 3 || |draws| < 2 * t.tier {
      n := 0;
    } else {
      FullRunUnfold(t, draws, score);
      var next := FullStep(t, draws[..2 * t.tier], score);
      var rest := draws[2 * t.tier..];
      var m := FullRunBreaksAtFirstTierFour(next, rest, score);
      n := m + 1;
      StepsUnfold(t, draws, n, score);
      forall k | 0 <= k < n
        ensures Steps(t, draws, k, score).last.tier <= 3
      {
        if k > 0 {
          StepsUnfold(t, draws, k, score);
        }
      }
    }
  }

  /** One iteration of `Steps`, when the positions allow it. */
  lemma StepsUnfold(t: Tiered, draws: seq<Pos>, n: nat, score: Grid -> real)
    requires IsGrid(t.s.keys) && 1 <= t.tier && AllInGrid(draws) && 0 < n && 2 * t.tier <= |draws|
    ensures AllInGrid(draws[2 * t.tier..])
    ensures var r := Steps(FullStep(t, draws[..2 * t.tier], score), draws[2 * t.tier..], n - 1, score);
      Steps(t, draws, n, score) == Stepped(r.last, r.used + 2 * t.tier, r.steps + 1)
  {
  }
}
