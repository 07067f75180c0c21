/** The layout representation of generate.go: a 3x10 grid of symbols, its
    reverse index (symbol -> position), and the swap primitive, as values.
    As a value the grid is read in row-major order, cell `Row * 10 + Col`;
    the class in generate_layout.dfy keeps the two-dimensional array and is
    proved against these functions. */
module Keyboard {

  const ROWS: int := 3
  const COLS: int := 10
  const CELLS: int := 30

  /** The 30 symbols a random layout is dealt from (26 letters and 4 punctuation marks). */
  const ALPHABET: string := "abcdefghijklmnopqrstuvwxyz,./'"

  /** A key position; the column is the first field, as in the unkeyed literal `Pos{col, 0}`. */
  datatype Pos = Pos(Col: int, Row: int)

  /** A swap pair, as recorded in the rollback buffer of the tiered search. */
  datatype Pair = Pair(a: Pos, b: Pos)

  /** The `Keys` grid as a value: its 30 symbols in row-major order. */
  type Grid = seq<char>

  /** The part of a layout the search mutates: the grid and its reverse index `Keymap`. */
  datatype State = State(keys: Grid, keymap: map<char, Pos>)

  /** `Data.Letters[c]`: a missing symbol reads as 0, as a Go map lookup does. */
  function Freq(letters: map<char, int>, c: char): int {
    if c in letters then letters[c] else 0
  }

  predicate InGrid(p: Pos) {
    0 <= p.Row < ROWS && 0 <= p.Col < COLS
  }

  predicate AllInGrid(ps: seq<Pos>) {
    forall k :: 0 <= k < |ps| ==> InGrid(ps[k])
  }

  predicate IsGrid(g: Grid) {
    |g| == CELLS
  }

  /** The row-major index of a position. */
  function Index(p: Pos): (k: int)
    requires InGrid(p)
    ensures 0 <= k < CELLS
  {
    p.Row * COLS + p.Col
  }

  /** Different positions have different indices. */
  lemma IndexInjective(p: Pos, q: Pos)
    requires InGrid(p) && InGrid(q) && Index(p) == Index(q)
    ensures p == q
  {
  }

  /** The position of a row-major index. */
  function PosOf(k: int): (p: Pos)
    requires 0 <= k < CELLS
    ensures InGrid(p) && Index(p) == k
  {
    Pos(k % COLS, k / COLS)
  }

  /** `Keys[p.Row][p.Col]`. */
  function At(g: Grid, p: Pos): char
    requires IsGrid(g) && InGrid(p)
  {
    g[Index(p)]
  }

  /** The reverse index agrees with the grid in both directions:
      every cell's symbol maps back to that cell, and every indexed
      symbol sits where the index says. */
  ghost predicate Consistent(g: Grid, m: map<char, Pos>)
    requires IsGrid(g)
  {
    && (forall p :: InGrid(p) ==> At(g, p) in m && m[At(g, p)] == p)
    && (forall c :: c in m ==> InGrid(m[c]) && At(g, m[c]) == c)
  }

  ghost predicate Valid(s: State) {
    IsGrid(s.keys) && Consistent(s.keys, s.keymap)
  }

  /** The grid with the symbols at `a` and `b` exchanged (a tuple assignment in the source). */
  function SwapGrid(g: Grid, a: Pos, b: Pos): (r: Grid)
    requires IsGrid(g) && InGrid(a) && InGrid(b)
    ensures IsGrid(r)
  {
    g[Index(a) := At(g, b)][Index(b) := At(g, a)]
  }

  /** Exactly the two cells change, and they exchange their symbols. */
  lemma SwapGridCells(g: Grid, a: Pos, b: Pos)
    requires IsGrid(g) && InGrid(a) && InGrid(b)
    ensures At(SwapGrid(g, a, b), a) == At(g, b) && At(SwapGrid(g, a, b), b) == At(g, a)
    ensures forall p :: InGrid(p) && p != a && p != b ==> At(SwapGrid(g, a, b), p) == At(g, p)
  {
  }

  /** A swap only rearranges the placed symbols. */
  lemma SwapGridPermutes(g: Grid, a: Pos, b: Pos)
    requires IsGrid(g) && InGrid(a) && InGrid(b)
    ensures multiset(SwapGrid(g, a, b)) == multiset(g)
  {
    var ka, kb := Index(a), Index(b);
    var g1 := g[ka := g[kb]];
    calc {
      multiset(SwapGrid(g, a, b));
      multiset(g1[kb := g[ka]]);
      multiset(g1) - multiset{g1[kb]} + multiset{g[ka]};
      multiset(g) - multiset{g[ka]} + multiset{g[kb]} - multiset{g[kb]} + multiset{g[ka]};
      multiset(g);
    }
  }

  /** The swap primitive: exchange two cells, then point the index at the
      new positions of the two symbols involved. */
  function SwapState(s: State, a: Pos, b: Pos): (r: State)
    requires IsGrid(s.keys) && InGrid(a) && InGrid(b)
    ensures IsGrid(r.keys) && r.keys == SwapGrid(s.keys, a, b)
  {
    var g := SwapGrid(s.keys, a, b);
    State(g, s.keymap[At(g, a) := a][At(g, b) := b])
  }

  /** After a swap the index sends the symbol now at `b` to `b`, the symbol
      now at `a` to `a` (unless both cells hold the same symbol), and every
      other symbol where it was. */
  lemma SwapStateKeymap(s: State, a: Pos, b: Pos)
    requires IsGrid(s.keys) && InGrid(a) && InGrid(b)
    ensures var r := SwapState(s, a, b);
      && At(r.keys, b) in r.keymap && r.keymap[At(r.keys, b)] == b
      && At(r.keys, a) in r.keymap
      && (At(r.keys, a) != At(r.keys, b) ==> r.keymap[At(r.keys, a)] == a)
      && r.keymap.Keys == s.keymap.Keys + {At(s.keys, a), At(s.keys, b)}
      && (forall c :: c in s.keymap && c != At(s.keys, a) && c != At(s.keys, b) ==> r.keymap[c] == s.keymap[c])
  {
    SwapGridCells(s.keys, a, b);
  }

  function SwapPair(s: State, p: Pair): (r: State)
    requires IsGrid(s.keys) && InGrid(p.a) && InGrid(p.b)
    ensures IsGrid(r.keys)
  {
    SwapState(s, p.a, p.b)
  }

  predicate PairsInGrid(ps: seq<Pair>) {
    forall k :: 0 <= k < |ps| ==> InGrid(ps[k].a) && InGrid(ps[k].b)
  }

  /** Apply the pairs in sequence order, first to last. */
  function ApplyPairs(s: State, ps: seq<Pair>): (r: State)
    requires IsGrid(s.keys) && PairsInGrid(ps)
    ensures IsGrid(r.keys)
    decreases |ps|
  {
    if ps == [] then s else SwapPair(ApplyPairs(s, ps[..|ps| - 1]), ps[|ps| - 1])
  }

  function Reverse<T>(xs: seq<T>): (r: seq<T>)
    ensures |r| == |xs|
    ensures forall k :: 0 <= k < |xs| ==> r[k] == xs[|xs| - 1 - k]
  {
    if xs == [] then [] else [xs[|xs| - 1]] + Reverse(xs[..|xs| - 1])
  }

  /** After a swap every cell's symbol still maps back to its cell. */
  lemma SwapIndexesCells(s: State, a: Pos, b: Pos)
    requires Valid(s) && InGrid(a) && InGrid(b)
    ensures var r := SwapState(s, a, b);
      forall p :: InGrid(p) ==> At(r.keys, p) in r.keymap && r.keymap[At(r.keys, p)] == p
  {
    var r := SwapState(s, a, b);
    SwapGridCells(s.keys, a, b);
    SwapStateKeymap(s, a, b);
    forall p | InGrid(p)
      ensures At(r.keys, p) in r.keymap && r.keymap[At(r.keys, p)] == p
    {
      if p != a && p != b {
        assert At(r.keys, p) == At(s.keys, p);
        assert s.keymap[At(s.keys, p)] == p;
      }
    }
  }

  /** After a swap every indexed symbol still sits where the index says. */
  lemma SwapIndexesSymbols(s: State, a: Pos, b: Pos)
    requires Valid(s) && InGrid(a) && InGrid(b)
    ensures var r := SwapState(s, a, b);
      forall c :: c in r.keymap ==> InGrid(r.keymap[c]) && At(r.keys, r.keymap[c]) == c
  {
    var r := SwapState(s, a, b);
    SwapGridCells(s.keys, a, b);
    SwapStateKeymap(s, a, b);
    forall c | c in r.keymap
      ensures InGrid(r.keymap[c]) && At(r.keys, r.keymap[c]) == c
    {
      if c == At(r.keys, b) {
        assert r.keymap[c] == b;
      } else if c == At(r.keys, a) {
        assert r.keymap[c] == a;
      } else {
        var q := s.keymap[c];
        assert r.keymap[c] == q && At(s.keys, q) == c;
        assert q != a && q != b;
      }
    }
  }

  /** Swapping keeps a consistent index consistent. */
  lemma SwapKeepsConsistent(s: State, a: Pos, b: Pos)
    requires Valid(s) && InGrid(a) && InGrid(b)
    ensures Valid(SwapState(s, a, b))
  {
    SwapIndexesCells(s, a, b);
    SwapIndexesSymbols(s, a, b);
  }

  /** Two grids that agree at every position are equal. */
  lemma GridExt(g: Grid, h: Grid)
    requires IsGrid(g) && IsGrid(h)
    requires forall p :: InGrid(p) ==> At(g, p) == At(h, p)
    ensures g == h
  {
    forall k | 0 <= k < CELLS ensures g[k] == h[k] {
      assert At(g, PosOf(k)) == At(h, PosOf(k));
    }
  }

  /** Swapping a cell with itself changes nothing in a consistent layout. */
  lemma SwapSameIsNoop(s: State, a: Pos)
    requires Valid(s) && InGrid(a)
    ensures SwapState(s, a, a) == s
  {
    var r := SwapState(s, a, a);
    SwapGridCells(s.keys, a, a);
    GridExt(r.keys, s.keys);
  }

  /** Applying the same swap twice restores grid and index exactly (the undo step). */
  lemma SwapInvolution(s: State, a: Pos, b: Pos)
    requires Valid(s) && InGrid(a) && InGrid(b)
    ensures SwapState(SwapState(s, a, b), a, b) == s
  {
    var t := SwapState(s, a, b);
    var r := SwapState(t, a, b);
    SwapGridCells(s.keys, a, b);
    SwapGridCells(t.keys, a, b);
    GridExt(r.keys, s.keys);
    assert r.keymap == s.keymap;
  }

  lemma {:induction false} ApplyPairsKeepsConsistent(s: State, ps: seq<Pair>)
    requires Valid(s) && PairsInGrid(ps)
    ensures Valid(ApplyPairs(s, ps))
    decreases |ps|
  {
    if ps != [] {
      var q := ps[..|ps| - 1];
      ApplyPairsKeepsConsistent(s, q);
      SwapKeepsConsistent(ApplyPairs(s, q), ps[|ps| - 1].a, ps[|ps| - 1].b);
    }
  }

  /** Any sequence of swaps only rearranges the placed symbols. */
  lemma {:induction false} ApplyPairsPermutes(s: State, ps: seq<Pair>)
    requires IsGrid(s.keys) && PairsInGrid(ps)
    ensures multiset(ApplyPairs(s, ps).keys) == multiset(s.keys)
    decreases |ps|
  {
    if ps != [] {
      var q, x := ps[..|ps| - 1], ps[|ps| - 1];
      ApplyPairsPermutes(s, q);
      SwapGridPermutes(ApplyPairs(s, q).keys, x.a, x.b);
    }
  }

  /** Applying one pair and then the rest equals applying the whole sequence. */
  lemma {:induction false} ApplyPairsCons(s: State, x: Pair, ps: seq<Pair>)
    requires IsGrid(s.keys) && InGrid(x.a) && InGrid(x.b) && PairsInGrid(ps)
    ensures PairsInGrid([x] + ps)
    ensures ApplyPairs(s, [x] + ps) == ApplyPairs(SwapPair(s, x), ps)
    decreases |ps|
  {
    var xs := [x] + ps;
    assert PairsInGrid(xs) by {
      forall k | 0 <= k < |xs| ensures InGrid(xs[k].a) && InGrid(xs[k].b) {
        if k > 0 { assert xs[k] == ps[k - 1]; }
      }
    }
    if ps == [] {
      assert xs[..0] == [];
    } else {
      var q, y := ps[..|ps| - 1], ps[|ps| - 1];
      assert xs[..|xs| - 1] == [x] + q;
      assert xs[|xs| - 1] == y;
      ApplyPairsCons(s, x, q);
      calc {
        ApplyPairs(s, xs);
        SwapPair(ApplyPairs(s, [x] + q), y);
        SwapPair(ApplyPairs(SwapPair(s, x), q), y);
        ApplyPairs(SwapPair(s, x), ps);
      }
    }
  }

  /** Rollback: undoing the applied pairs in reverse order restores the state exactly. */
  lemma {:induction false} Rollback(s: State, ps: seq<Pair>)
    requires Valid(s) && PairsInGrid(ps)
    ensures PairsInGrid(Reverse(ps))
    ensures ApplyPairs(ApplyPairs(s, ps), Reverse(ps)) == s
    decreases |ps|
  {
    if ps != [] {
      var q, x := ps[..|ps| - 1], ps[|ps| - 1];
      var t := ApplyPairs(s, q);
      assert Reverse(ps) == [x] + Reverse(q);
      ApplyPairsKeepsConsistent(s, q);
      ApplyPairsCons(SwapPair(t, x), x, Reverse(q));
      SwapInvolution(t, x.a, x.b);
      Rollback(s, q);
    }
  }

  /** The order of the undo matters: undoing two overlapping swaps in the
      order they were applied leaves three top-row symbols rotated
      instead of restored. */
  lemma UndoInApplyOrderFails()
    ensures var s := State(ALPHABET, GenKeymap(ALPHABET));
      var ps := [Pair(Pos(0, 0), Pos(1, 0)), Pair(Pos(1, 0), Pos(2, 0))];
      PairsInGrid(ps) && ApplyPairs(ApplyPairs(s, ps), ps).keys[..3] == "cab"
  {
    var s := State(ALPHABET, GenKeymap(ALPHABET));
    var x, y := Pair(Pos(0, 0), Pos(1, 0)), Pair(Pos(1, 0), Pos(2, 0));
    var ps := [x, y];
    var s1 := ApplyPairs(s, ps);
    TwoPairs(s, x, y);
    assert s1.keys[..3] == "bca";
    TwoPairs(s1, x, y);
  }

  /** Applying a two-pair sequence is two swaps. */
  lemma TwoPairs(s: State, x: Pair, y: Pair)
    requires IsGrid(s.keys) && InGrid(x.a) && InGrid(x.b) && InGrid(y.a) && InGrid(y.b)
    ensures PairsInGrid([x, y]) && ApplyPairs(s, [x, y]) == SwapPair(SwapPair(s, x), y)
  {
    assert [x, y][..1] == [x] && [x][..0] == [];
    assert ApplyPairs(s, [x]) == SwapPair(ApplyPairs(s, []), x);
  }

  predicate Distinct<T(==)>(xs: seq<T>) {
    forall i, j :: 0 <= i < j < |xs| ==> xs[i] != xs[j]
  }

  /** A consistent index makes the grid a permutation of the indexed symbols:
      no symbol is placed twice and the placed symbols are exactly the index's keys. */
  lemma ConsistentIsPermutation(s: State)
    requires Valid(s)
    ensures Distinct(s.keys)
    ensures (set c | c in s.keys) == s.keymap.Keys
  {
    var g := s.keys;
    forall i, j | 0 <= i < j < |g| ensures g[i] != g[j] {
      assert g[i] == At(g, PosOf(i)) && g[j] == At(g, PosOf(j));
    }
    forall c | c in s.keymap ensures c in g {
      assert g[Index(s.keymap[c])] == c;
    }
    forall c | c in g ensures c in s.keymap {
      var k :| 0 <= k < |g| && g[k] == c;
      assert c == At(g, PosOf(k));
    }
  }

  /** The reverse index built from the first `k` cells in row-major order; a
      later cell overwrites an earlier one with the same symbol. */
  function KeymapUpTo(g: Grid, k: int): map<char, Pos>
    requires IsGrid(g) && 0 <= k <= CELLS
  {
    if k == 0 then map[] else KeymapUpTo(g, k - 1)[g[k - 1] := PosOf(k - 1)]
  }

  /** `GenKeymap`: the reverse index of a whole grid. */
  function GenKeymap(g: Grid): map<char, Pos>
    requires IsGrid(g)
  {
    KeymapUpTo(g, CELLS)
  }

  lemma {:induction false} KeymapUpToIndexes(g: Grid, k: int)
    requires IsGrid(g) && 0 <= k <= CELLS && Distinct(g)
    ensures KeymapUpTo(g, k).Keys == (set j | 0 <= j < k :: g[j])
    ensures forall j :: 0 <= j < k ==> KeymapUpTo(g, k)[g[j]] == PosOf(j)
  {
    if k > 0 {
      KeymapUpToIndexes(g, k - 1);
    }
  }

  /** For a grid without repeated symbols, `GenKeymap` is its consistent
      reverse index, over exactly the placed symbols. */
  lemma GenKeymapConsistent(g: Grid)
    requires IsGrid(g) && Distinct(g)
    ensures Consistent(g, GenKeymap(g))
    ensures GenKeymap(g).Keys == (set c | c in g)
  {
    var m := GenKeymap(g);
    KeymapUpToIndexes(g, CELLS);
    forall p | InGrid(p) ensures At(g, p) in m && m[At(g, p)] == p {
      assert g[Index(p)] == At(g, p);
    }
    forall c | c in m ensures InGrid(m[c]) && At(g, m[c]) == c {
      var j :| 0 <= j < CELLS && g[j] == c;
    }
    assert m.Keys == (set c | c in g) by {
      forall c | c in g ensures c in m {
        var j :| 0 <= j < CELLS && g[j] == c;
      }
    }
  }
}
