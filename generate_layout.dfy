/** The layout object of generate.go and the procedures that mutate it in
    place: `Swap`, `randomLayout`, `greedyImprove`, `fullImprove` and the
    column normalisation at the end of `Populate`. Each is proved against
    the value-level functions of Keyboard, Dealing, Search and Normalize.
    Random draws are supplied as sequences; the score is a parameter. */
module Generate {
  import opened Keyboard
  import opened Dealing
  import opened Search
  import opened Normalize

  /** A 3x10 array read in row-major order. */
  function Flatten(a: array2<char>): (g: Grid)
    requires a.Length0 == ROWS && a.Length1 == COLS
    reads a
    ensures IsGrid(g)
  {
    seq(CELLS, k requires 0 <= k < CELLS reads a => a[k / COLS, k % COLS])
  }

  /** Cell `p` of the flattened grid is `a[p.Row, p.Col]`. */
  lemma FlattenCells(a: array2<char>)
    requires a.Length0 == ROWS && a.Length1 == COLS
    ensures forall p :: InGrid(p) ==> At(Flatten(a), p) == a[p.Row, p.Col]
  {
  }

  /** An array whose every cell holds the symbol at its row-major index in
      `g` flattens to `g`. */
  lemma FlattenFrom(a: array2<char>, g: Grid)
    requires a.Length0 == ROWS && a.Length1 == COLS && IsGrid(g)
    requires forall p :: InGrid(p) ==> a[p.Row, p.Col] == g[Index(p)]
    ensures Flatten(a) == g
  {
    forall j | 0 <= j < CELLS ensures Flatten(a)[j] == g[j] {
      var p := PosOf(j);
      assert a[p.Row, p.Col] == g[j];
    }
  }

  /** The dealing loops' invariant after `n` cells: the remaining pool deals
      the rest of `dealt`, the total plus the pool's frequencies is the whole
      pool's, and the first `n` cells in row-major order hold `dealt`. */
  ghost predicate DealtSoFar(k: array2<char>, pool: seq<char>, picks: seq<int>, letters: map<char, int>,
                          dealt: seq<char>, chars: seq<char>, n: int, t: int)
    reads k
  {
    && k.Length0 == ROWS && k.Length1 == COLS
    && PoolLeft(pool, picks, letters, dealt, chars, n, t)
    && (forall p :: InGrid(p) && Index(p) < n ==> k[p.Row, p.Col] == dealt[Index(p)])
  }

  /** The part of the dealing invariant about the pool: what is left of it
      deals the rest of `dealt`, and the total accounts for what was taken. */
  ghost predicate PoolLeft(pool: seq<char>, picks: seq<int>, letters: map<char, int>,
                           dealt: seq<char>, chars: seq<char>, n: int, t: int)
  {
    && |picks| == |dealt| == CELLS && 0 <= n <= CELLS
    && |chars| == CELLS - n && ValidPicks(chars, picks[n..])
    && Deal(chars, picks[n..]) == dealt[n..]
    && t + SumFreq(chars, letters) == SumFreq(pool, letters)
  }

  /** Dealing cell `n` takes `dealt[n]` out of the pool and adds its frequency. */
  lemma PoolStep(pool: seq<char>, picks: seq<int>, letters: map<char, int>,
                 dealt: seq<char>, chars: seq<char>, n: int, t: int)
    requires PoolLeft(pool, picks, letters, dealt, chars, n, t) && n < CELLS
    ensures 0 <= picks[n] < |chars| && chars[picks[n]] == dealt[n]
    ensures var c := chars[picks[n]];
      PoolLeft(pool, picks, letters, dealt, RemoveFirst(chars, c), n + 1, t + Freq(letters, c))
  {
    var c := chars[picks[n]];
    DealStep(chars, picks[n..]);
    assert picks[n..][1..] == picks[n + 1..];
    assert dealt[n..][1..] == dealt[n + 1..];
    RemoveFirstSum(chars, c, letters);
  }

  /** One iteration of the inner loop of `randomLayout`: draw the cell's
      symbol from the pool, place it, add its frequency, remove it from the pool. */
  method DealCell(k: array2<char>, row: int, col: int, ghost pool: seq<char>, picks: seq<int>,
                  letters: map<char, int>, ghost dealt: seq<char>, chars0: seq<char>, t0: int)
      returns (chars: seq<char>, t: int)
    requires InGrid(Pos(col, row))
    requires DealtSoFar(k, pool, picks, letters, dealt, chars0, row * COLS + col, t0)
    modifies k
    ensures DealtSoFar(k, pool, picks, letters, dealt, chars, row * COLS + col + 1, t)
  {
    var n := row * COLS + col;
    var c := chars0[picks[n]];
    PoolStep(pool, picks, letters, dealt, chars0, n, t0);
    k[row, col] := c;
    t := t0 + Freq(letters, c);
    chars := RemoveFirst(chars0, c);
    assert Index(Pos(col, row)) == n;
    forall p | InGrid(p) && Index(p) == n ensures p == Pos(col, row) {
      IndexInjective(p, Pos(col, row));
    }
  }

  /** The inner loop of `randomLayout`: deal the ten cells of one row. */
  method DealRow(k: array2<char>, row: int, ghost pool: seq<char>, picks: seq<int>, letters: map<char, int>,
                 ghost dealt: seq<char>, chars0: seq<char>, t0: int)
      returns (chars: seq<char>, t: int)
    requires 0 <= row < ROWS && DealtSoFar(k, pool, picks, letters, dealt, chars0, row * COLS, t0)
    modifies k
    ensures DealtSoFar(k, pool, picks, letters, dealt, chars, (row + 1) * COLS, t)
  {
    chars, t := chars0, t0;
    ghost var base := row * COLS;
    var col := 0;
    while col < COLS
      invariant 0 <= col <= COLS
      invariant DealtSoFar(k, pool, picks, letters, dealt, chars, base + col, t)
    {
      chars, t := DealCell(k, row, col, pool, picks, letters, dealt, chars, t);
      col := col + 1;
    }
    assert base + COLS == (row + 1) * COLS;
  }

  /** The loops of `randomLayout`: fill the rows top to bottom, each left to
      right, with the symbol at index `picks[n]` of the remaining pool,
      removing it from the pool and adding its frequency to the total.
      `picks` are the values `rand.Intn` returns, so each is within the pool
      as it is when drawn. */
  method DealGrid(pool: seq<char>, picks: seq<int>, letters: map<char, int>) returns (k: array2<char>, t: int)
    requires |pool| == CELLS && ValidPicks(pool, picks) && |picks| == CELLS
    ensures fresh(k) && k.Length0 == ROWS && k.Length1 == COLS
    ensures Flatten(k) == Deal(pool, picks)
    ensures t == SumFreq(pool, letters)
  {
    ghost var dealt := Deal(pool, picks);
    var chars := pool;
    k := new char[ROWS, COLS];
    t := 0;
    DealtStart(k, pool, picks, letters);
    var row := 0;
    while row < ROWS
      invariant 0 <= row <= ROWS
      invariant DealtSoFar(k, pool, picks, letters, dealt, chars, row * COLS, t)
    {
      chars, t := DealRow(k, row, pool, picks, letters, dealt, chars, t);
      assert (row + 1) * COLS == row * COLS + COLS;
      row := row + 1;
    }
    DealtDone(k, pool, picks, letters, dealt, chars, t);
  }

  /** Before the first cell, nothing is dealt and the pool is whole. */
  lemma DealtStart(k: array2<char>, pool: seq<char>, picks: seq<int>, letters: map<char, int>)
    requires k.Length0 == ROWS && k.Length1 == COLS
    requires |pool| == CELLS && ValidPicks(pool, picks) && |picks| == CELLS
    ensures DealtSoFar(k, pool, picks, letters, Deal(pool, picks), pool, 0, 0)
  {
    assert picks[0..] == picks;
  }

  /** After the last cell, the array holds the whole deal and the total is
      the whole pool's. */
  lemma DealtDone(k: array2<char>, pool: seq<char>, picks: seq<int>, letters: map<char, int>,
                  dealt: seq<char>, chars: seq<char>, t: int)
    requires DealtSoFar(k, pool, picks, letters, dealt, chars, CELLS, t)
    ensures Flatten(k) == dealt && t == SumFreq(pool, letters)
  {
    assert chars == [];
    FlattenFrom(k, dealt);
  }

  /** A grid dealt from a whole pool of 30 different symbols is a
      permutation of the pool, and `GenKeymap` is its consistent reverse
      index over exactly the pool's symbols. */
  lemma DealtLayout(pool: seq<char>, picks: seq<int>)
    requires |pool| == CELLS && Distinct(pool) && ValidPicks(pool, picks) && |picks| == CELLS
    ensures var g := Deal(pool, picks);
      && multiset(g) == multiset(pool)
      && Valid(State(g, GenKeymap(g)))
      && GenKeymap(g).Keys == (set c | c in pool)
  {
    var g := Deal(pool, picks);
    DealDistinct(pool, picks);
    DealIsPermutation(pool, picks);
    GenKeymapConsistent(g);
    forall c ensures c in g <==> c in pool {
      assert c in g <==> c in multiset(g);
      assert c in pool <==> c in multiset(pool);
    }
  }

  lemma DealtAlphabet(picks: seq<int>)
    requires ValidPicks(ALPHABET, picks) && |picks| == CELLS
    ensures var g := Deal(ALPHABET, picks);
      && multiset(g) == multiset(ALPHABET)
      && Valid(State(g, GenKeymap(g)))
      && GenKeymap(g).Keys == (set c | c in ALPHABET)
  {
    AlphabetDistinct();
    DealtLayout(ALPHABET, picks);
  }

  class Layout {
    /** `Keys`: three rows of ten symbols. */
    var keys: array2<char>
    /** `Keymap`: symbol -> position. */
    var keymap: map<char, Pos>
    /** `Total`: the summed corpus frequency of the placed symbols. */
    var total: int

    predicate Shaped()
      reads this
    {
      keys.Length0 == ROWS && keys.Length1 == COLS
    }

    /** The grid in row-major order. */
    function Cells(): (g: Grid)
      requires Shaped()
      reads this, keys
      ensures IsGrid(g)
    {
      Flatten(keys)
    }

    function View(): (s: State)
      requires Shaped()
      reads this, keys
      ensures s.keys == Cells() && s.keymap == keymap
    {
      State(Cells(), keymap)
    }

    /** The composite literal `Layout{Keys: k, Keymap: m, Total: t}`. */
    constructor (k: array2<char>, m: map<char, Pos>, t: int)
      ensures keys == k && keymap == m && total == t
    {
      keys := k;
      keymap := m;
      total := t;
    }

    /** `Swap`: exchange two cells, then point `Keymap` at the new positions
        of the two symbols, first `a`'s, then `b`'s. */
    method Swap(a: Pos, b: Pos)
      requires Shaped() && InGrid(a) && InGrid(b)
      modifies this`keymap, keys
      ensures Shaped() && View() == SwapState(old(View()), a, b)
    {
      ghost var s := View();
      FlattenCells(keys);
      var x, y := keys[a.Row, a.Col], keys[b.Row, b.Col];
      keys[a.Row, a.Col] := y;
      keys[b.Row, b.Col] := x;
      FlattenCells(keys);
      GridExt(Cells(), SwapGrid(s.keys, a, b));
      keymap := keymap[keys[a.Row, a.Col] := a];
      keymap := keymap[keys[b.Row, b.Col] := b];
    }

    /** `greedyImprove`: swap two random cells, keep the swap when the score
        drops strictly, otherwise swap back and count the failure; return
        once more than 500 swaps in a row have failed. The random positions
        are `draws`, two per iteration; the loop also returns when they run out. */
    method GreedyImprove(draws: seq<Pos>, score: Grid -> real)
      requires Shaped() && AllInGrid(draws)
      modifies this`keymap, keys
      ensures Shaped() && View() == GreedyRun(Climb(old(View()), 0), draws, score).last.s
    {
      ghost var goal := GreedyRun(Climb(View(), 0), draws, score).last;
      var stuck := 0;
      var n := 0;
      while true
        invariant Shaped() && 0 <= n <= |draws| && 0 <= stuck <= STUCK_LIMIT
        invariant GreedyRun(Climb(View(), stuck), draws[n..], score).last == goal
        decreases |draws| - n
      {
        if |draws| - n < 2 {
          return;
        }
        ghost var c := Climb(View(), stuck);
        assert draws[n..][2..] == draws[n + 2..];
        var first := score(Cells());
        var a, b := draws[n], draws[n + 1];
        n := n + 2;
        Swap(a, b);
        var second := score(Cells());
        if second < first {
          stuck := 0;
        } else {
          Swap(a, b);
          stuck := stuck + 1;
        }
        assert Climb(View(), stuck) == GreedyStep(c, a, b, score);
        if stuck > STUCK_LIMIT {
          return;
        }
      }
    }

    /** The drawing loop of `fullImprove`: for `j` from `tier - 1` down to 0,
        swap two random cells and record the pair in `swaps[j]`. So the
        pairs are applied in drawing order and stored last-drawn first. */
    method Perturb(ps: seq<Pair>, swaps: array<Pair>)
      requires Shaped() && 1 <= |ps| <= swaps.Length && PairsInGrid(ps)
      modifies this`keymap, keys, swaps
      ensures Shaped() && View() == ApplyPairs(old(View()), ps)
      ensures swaps[..|ps|] == Reverse(ps)
      ensures swaps[|ps|..] == old(swaps[|ps|..])
    {
      ghost var s0 := View();
      ghost var tail := swaps[|ps|..];
      var k := 0;
      while k < |ps|
        invariant 0 <= k <= |ps|
        invariant Shaped() && View() == ApplyPairs(s0, ps[..k])
        invariant swaps[..][|ps| - k..|ps|] == Reverse(ps[..k])
        invariant swaps[|ps|..] == tail
      {
        assert ps[..k + 1][..k] == ps[..k];
        ghost var before := swaps[..];
        DrawOne(ps[k], swaps, |ps| - 1 - k);
        assert swaps[..][|ps| - 1 - k..|ps|] == [ps[k]] + before[|ps| - k..|ps|];
        k := k + 1;
      }
      assert ps[..|ps|] == ps;
    }

    /** One iteration of the drawing loop: swap the pair, then record it in `swaps[j]`. */
    method DrawOne(p: Pair, swaps: array<Pair>, j: int)
      requires Shaped() && InGrid(p.a) && InGrid(p.b) && 0 <= j < swaps.Length
      modifies this`keymap, keys, swaps
      ensures Shaped() && View() == SwapPair(old(View()), p)
      ensures swaps[..] == old(swaps[..])[j := p]
    {
      Swap(p.a, p.b);
      swaps[j] := p;
    }

    /** The undo loop of `fullImprove`: for `j` from 0 up to `tier - 1`,
        swap the pair recorded in `swaps[j]` again. */
    method Undo(swaps: array<Pair>, tier: int)
      requires Shaped() && 0 <= tier <= swaps.Length && PairsInGrid(swaps[..tier])
      modifies this`keymap, keys
      ensures Shaped() && View() == ApplyPairs(old(View()), swaps[..tier])
    {
      ghost var s0 := View();
      ghost var ps := swaps[..tier];
      var j := 0;
      while j < tier
        invariant 0 <= j <= tier
        invariant Shaped() && View() == ApplyPairs(s0, ps[..j])
      {
        assert ps[..j + 1][..j] == ps[..j] && ps[j] == swaps[j];
        Swap(swaps[j].a, swaps[j].b);
        j := j + 1;
      }
      assert ps[..tier] == ps;
    }

    /** `fullImprove`: apply `tier` random swaps; keep them when the score
        drops strictly, otherwise undo them, and once more than `max`
        iterations in a row have failed move to tier 1 (after a phase with
        an improvement) or up one tier (after one without), stopping beyond
        tier 3. The random positions are `draws`, `2 * tier` per iteration;
        the loop also returns when they run out. */
    method FullImprove(draws: seq<Pos>, score: Grid -> real)
      requires Shaped() && AllInGrid(draws)
      modifies this`keymap, keys
      ensures Shaped() && View() == FullRun(Start(old(View())), draws, score).s
    {
      ghost var goal := FullRun(Start(View()), draws, score);
      var i, tier, changed, changes, rejected, max := 0, 2, false, 0, 0, INITIAL_MAX;
      var swaps := new Pair[SWAPS_LEN](_ => Pair(Pos(0, 0), Pos(0, 0)));
      var rest := draws;
      while true
        invariant Shaped() && AllInGrid(rest) && 1 <= tier <= 3
        invariant FullRun(Tiered(View(), i, tier, changed, changes, rejected, max), rest, score) == goal
        decreases |rest|
      {
        if |rest| < 2 * tier {
          return;
        }
        FullRunUnfold(Tiered(View(), i, tier, changed, changes, rejected, max), rest, score);
        var step := rest[..2 * tier];
        rest := rest[2 * tier..];
        i, tier, changed, changes, rejected, max := Iterate(step, swaps, i, tier, changed, changes, rejected, max, score);
        if tier > 3 {
          break;
        }
      }
    }

    /** One pass of the loop body of `fullImprove`: perturb, then keep or
        undo, and on the reject path past the patience change tier. */
    method Iterate(step: seq<Pos>, swaps: array<Pair>, i: int, tier: int, changed: bool,
                   changes: nat, rejected: nat, max: int, score: Grid -> real)
      returns (i': int, tier': int, changed': bool, changes': nat, rejected': nat, max': int)
      requires Shaped() && 1 <= tier <= swaps.Length && |step| == 2 * tier && AllInGrid(step)
      modifies this`keymap, keys, swaps
      ensures Shaped()
      ensures Tiered(View(), i', tier', changed', changes', rejected', max')
           == FullStep(Tiered(old(View()), i, tier, changed, changes, rejected, max), step, score)
    {
      ghost var t := Tiered(View(), i, tier, changed, changes, rejected, max);
      var ps := DrawPairs(step, tier);
      var first := score(Cells());
      Perturb(ps, swaps);
      var second := score(Cells());
      ghost var perturbed := ApplyPairs(t.s, ps);
      assert first == score(t.s.keys) && second == score(perturbed.keys);
      if second < first {
        FullStepAccept(t, step, score);
        i', tier', changed', changes', rejected', max' := 0, tier, true, changes + 1, rejected, max;
      } else {
        FullStepReject(t, step, score);
        i', tier', changed', changes', rejected', max' := Reject(swaps, i, tier, changed, changes, rejected, max);
        assert View() == ApplyPairs(perturbed, Reverse(ps));
        assert Tiered(View(), i, tier, changed, changes, rejected, max) == t.(s := View());
      }
    }

    /** The reject path: undo the perturbation, count the rejection, and
        once `i` exceeds the patience change tier. */
    method Reject(swaps: array<Pair>, i: int, tier: int, changed: bool,
                  changes: nat, rejected: nat, max: int)
      returns (i': int, tier': int, changed': bool, changes': nat, rejected': nat, max': int)
      requires Shaped() && 0 <= tier <= swaps.Length && PairsInGrid(swaps[..tier])
      modifies this`keymap, keys
      ensures Shaped() && View() == ApplyPairs(old(View()), swaps[..tier])
      ensures Tiered(View(), i', tier', changed', changes', rejected', max')
           == Rejected(Tiered(View(), i, tier, changed, changes, rejected, max))
    {
      Undo(swaps, tier);
      i', tier', changed', changes', rejected', max' := i + 1, tier, changed, changes, rejected + 1, max;
      if i' > max {
        if changed {
          tier' := 1;
        } else {
          tier' := tier + 1;
        }
        max' := Patience(tier');
        changed' := false;
        if tier' <= 3 {
          i' := 0;
        }
      }
    }

    /** The last pass of `Populate`: in every column outside 3..6 whose top
        symbol is strictly rarer than its bottom one, swap the two. */
    method NormalizeRows(letters: map<char, int>)
      requires Shaped()
      modifies this`keymap, keys
      ensures Shaped() && View() == NormalizeFrom(old(View()), 0, letters)
    {
      ghost var goal := NormalizeFrom(View(), 0, letters);
      var col := 0;
      while col < COLS
        invariant 0 <= col <= COLS && Shaped()
        invariant NormalizeFrom(View(), col, letters) == goal
      {
        NormalizeColumn(col, letters);
        col := col + 1;
      }
    }

    /** One column of the normalisation pass. */
    method NormalizeColumn(col: int, letters: map<char, int>)
      requires Shaped() && 0 <= col < COLS
      modifies this`keymap, keys
      ensures Shaped() && NormalizeFrom(View(), col + 1, letters) == NormalizeFrom(old(View()), col, letters)
    {
      FlattenCells(keys);
      if !(3 <= col <= 6) && Freq(letters, keys[0, col]) < Freq(letters, keys[2, col]) {
        Swap(Pos(col, 0), Pos(col, 2));
      }
    }
  }

  /** `randomLayout`: deal the grid, then build its reverse index. The
      layout is a consistent permutation of the 30 symbols. */
  method RandomLayout(picks: seq<int>, letters: map<char, int>) returns (l: Layout)
    requires ValidPicks(ALPHABET, picks) && |picks| == CELLS
    ensures fresh(l) && fresh(l.keys) && l.Shaped()
    ensures l.Cells() == Deal(ALPHABET, picks)
    ensures l.keymap == GenKeymap(l.Cells())
    ensures l.total == SumFreq(ALPHABET, letters)
    ensures Valid(l.View())
    ensures multiset(l.Cells()) == multiset(ALPHABET)
    ensures l.keymap.Keys == (set c | c in ALPHABET)
  {
    var k, t := DealGrid(ALPHABET, picks, letters);
    var g := Flatten(k);
    DealtAlphabet(picks);
    l := new Layout(k, GenKeymap(g), t);
  }
}
