/** The last step of `Populate`: in the outer columns (0-2 and 7-9) the more
    frequent of the top-row and bottom-row symbols is moved to the top row. */
module Normalize {
  import opened Keyboard

  /** Columns 3 to 6 are skipped. */
  predicate Outer(col: int) {
    !(3 <= col <= 6)
  }

  /** The column's two symbols are exchanged: the top one is strictly rarer. */
  function Flips(g: Grid, col: int, letters: map<char, int>): bool
    requires IsGrid(g) && 0 <= col < COLS
  {
    Freq(letters, At(g, Pos(col, 0))) < Freq(letters, At(g, Pos(col, 2)))
  }

  /** The loop from column `col` on, one swap per flipped outer column. */
  function NormalizeFrom(s: State, col: int, letters: map<char, int>): (r: State)
    requires IsGrid(s.keys) && 0 <= col <= COLS
    ensures IsGrid(r.keys)
    decreases COLS - col
  {
    if col == COLS then s
    else if Outer(col) && Flips(s.keys, col, letters) then
      NormalizeFrom(SwapState(s, Pos(col, 0), Pos(col, 2)), col + 1, letters)
    else NormalizeFrom(s, col + 1, letters)
  }

  /** The position whose symbol ends up at `p`, read off the original grid:
      the top and bottom cells of a flipped outer column trade places, and
      every other cell keeps its symbol. */
  function Source(g: Grid, p: Pos, letters: map<char, int>): (q: Pos)
    requires IsGrid(g) && InGrid(p)
    ensures InGrid(q) && q.Col == p.Col
  {
    if Outer(p.Col) && p.Row != 1 && Flips(g, p.Col, letters) then Pos(p.Col, 2 - p.Row) else p
  }

  /** `Source` reads only the column of `p`. */
  lemma SourceSameColumn(g: Grid, h: Grid, p: Pos, letters: map<char, int>)
    requires IsGrid(g) && IsGrid(h) && InGrid(p)
    requires At(g, Pos(p.Col, 0)) == At(h, Pos(p.Col, 0)) && At(g, Pos(p.Col, 2)) == At(h, Pos(p.Col, 2))
    ensures Source(g, p, letters) == Source(h, p, letters)
  {
  }

  /** A step that touches column `col` at most leaves the later columns' sources alone. */
  lemma {:induction false} NormalizeFromStep(s: State, t: State, col: int, letters: map<char, int>)
    requires IsGrid(s.keys) && IsGrid(t.keys) && 0 <= col < COLS
    requires forall p {:trigger At(t.keys, p)} :: InGrid(p) && p.Col != col ==> At(t.keys, p) == At(s.keys, p)
    requires forall p {:trigger At(t.keys, p)} :: InGrid(p) && p.Col == col ==>
      At(t.keys, p) == At(s.keys, Source(s.keys, p, letters))
    ensures forall p {:trigger At(NormalizeFrom(t, col + 1, letters).keys, p)} :: InGrid(p) ==>
        At(NormalizeFrom(t, col + 1, letters).keys, p)
        == (if p.Col < col then At(s.keys, p) else At(s.keys, Source(s.keys, p, letters)))
    decreases COLS - col, 0
  {
    var r := NormalizeFrom(t, col + 1, letters);
    NormalizeFromCells(t, col + 1, letters);
    forall p | InGrid(p)
      ensures At(r.keys, p) == (if p.Col < col then At(s.keys, p) else At(s.keys, Source(s.keys, p, letters)))
    {
      if p.Col > col {
        SourceSameColumn(t.keys, s.keys, p, letters);
        var q := Source(s.keys, p, letters);
        assert At(t.keys, q) == At(s.keys, q);
      }
    }
  }

  /** Columns before `col` are left as they are; from `col` on, every cell
      holds the symbol of its `Source`. */
  lemma {:induction false} NormalizeFromCells(s: State, col: int, letters: map<char, int>)
    requires IsGrid(s.keys) && 0 <= col <= COLS
    ensures forall p {:trigger At(NormalizeFrom(s, col, letters).keys, p)} :: InGrid(p) ==>
      At(NormalizeFrom(s, col, letters).keys, p)
      == (if p.Col < col then At(s.keys, p) else At(s.keys, Source(s.keys, p, letters)))
    decreases COLS - col, 1
  {
    if col < COLS {
      var top, bottom := Pos(col, 0), Pos(col, 2);
      if Outer(col) && Flips(s.keys, col, letters) {
        var t := SwapState(s, top, bottom);
        SwapGridCells(s.keys, top, bottom);
        NormalizeFromStep(s, t, col, letters);
      } else {
        NormalizeFromStep(s, s, col, letters);
      }
    }
  }

  /** The whole loop: every cell holds the symbol of its `Source`. */
  lemma NormalizeCells(s: State, letters: map<char, int>)
    requires IsGrid(s.keys)
    ensures forall p :: InGrid(p) ==>
      At(NormalizeFrom(s, 0, letters).keys, p) == At(s.keys, Source(s.keys, p, letters))
  {
    NormalizeFromCells(s, 0, letters);
  }

  /** Afterwards every outer column has its more frequent symbol on top
      (or two equally frequent ones). */
  lemma NormalizeOrders(s: State, letters: map<char, int>)
    requires IsGrid(s.keys)
    ensures var g := NormalizeFrom(s, 0, letters).keys;
      forall col :: 0 <= col < COLS && Outer(col) ==>
        Freq(letters, At(g, Pos(col, 0))) >= Freq(letters, At(g, Pos(col, 2)))
  {
    NormalizeCells(s, letters);
    var g := NormalizeFrom(s, 0, letters).keys;
    forall col | 0 <= col < COLS && Outer(col)
      ensures Freq(letters, At(g, Pos(col, 0))) >= Freq(letters, At(g, Pos(col, 2)))
    {
      assert At(g, Pos(col, 0)) == At(s.keys, Source(s.keys, Pos(col, 0), letters));
      assert At(g, Pos(col, 2)) == At(s.keys, Source(s.keys, Pos(col, 2), letters));
    }
  }

  /** The middle columns and the home row are untouched. */
  lemma NormalizeKeepsRest(s: State, letters: map<char, int>)
    requires IsGrid(s.keys)
    ensures var g := NormalizeFrom(s, 0, letters).keys;
      forall p :: InGrid(p) && (p.Row == 1 || !Outer(p.Col)) ==> At(g, p) == At(s.keys, p)
  {
    NormalizeCells(s, letters);
  }

  /** No column flips, so the loop changes nothing. */
  lemma {:induction false} NormalizeFromNoFlip(s: State, col: int, letters: map<char, int>)
    requires IsGrid(s.keys) && 0 <= col <= COLS
    requires forall c :: col <= c < COLS && Outer(c) ==> !Flips(s.keys, c, letters)
    ensures NormalizeFrom(s, col, letters) == s
    decreases COLS - col
  {
    if col < COLS {
      NormalizeFromNoFlip(s, col + 1, letters);
    }
  }

  /** Normalising a normalised layout changes nothing. */
  lemma NormalizeIdempotent(s: State, letters: map<char, int>)
    requires IsGrid(s.keys)
    ensures var r := NormalizeFrom(s, 0, letters);
      NormalizeFrom(r, 0, letters) == r
  {
    var r := NormalizeFrom(s, 0, letters);
    NormalizeOrders(s, letters);
    NormalizeFromNoFlip(r, 0, letters);
  }

  /** The swaps the loop makes from column `col` on, in order. */
  function FlipPairs(s: State, col: int, letters: map<char, int>): (ps: seq<Pair>)
    requires IsGrid(s.keys) && 0 <= col <= COLS
    ensures PairsInGrid(ps)
    decreases COLS - col
  {
    if col == COLS then []
    else if Outer(col) && Flips(s.keys, col, letters) then
      var x, rest := Pair(Pos(col, 0), Pos(col, 2)), FlipPairs(SwapState(s, Pos(col, 0), Pos(col, 2)), col + 1, letters);
      assert forall k :: 0 < k < |[x] + rest| ==> ([x] + rest)[k] == rest[k - 1];
      [x] + rest
    else FlipPairs(s, col + 1, letters)
  }

  /** The loop is the sequence of swaps `FlipPairs` lists. */
  lemma {:induction false} NormalizeFromApplies(s: State, col: int, letters: map<char, int>)
    requires IsGrid(s.keys) && 0 <= col <= COLS
    ensures NormalizeFrom(s, col, letters) == ApplyPairs(s, FlipPairs(s, col, letters))
    decreases COLS - col, 1
  {
    if col == COLS {
      assert FlipPairs(s, col, letters) == [];
    } else {
      if Outer(col) && Flips(s.keys, col, letters) {
        FlipApplies(s, col, letters);
      } else {
        NoFlipApplies(s, col, letters);
      }
    }
  }

  /** `NormalizeFromApplies` for a column that does not flip. */
  lemma {:induction false} NoFlipApplies(s: State, col: int, letters: map<char, int>)
    requires IsGrid(s.keys) && 0 <= col < COLS && !(Outer(col) && Flips(s.keys, col, letters))
    ensures NormalizeFrom(s, col, letters) == ApplyPairs(s, FlipPairs(s, col, letters))
    decreases COLS - col, 0
  {
    NoFlipSkips(s, col, letters);
    NormalizeFromApplies(s, col + 1, letters);
  }

  /** A column that does not flip adds no swap. */
  lemma NoFlipSkips(s: State, col: int, letters: map<char, int>)
    requires IsGrid(s.keys) && 0 <= col < COLS && !(Outer(col) && Flips(s.keys, col, letters))
    ensures NormalizeFrom(s, col, letters) == NormalizeFrom(s, col + 1, letters)
    ensures FlipPairs(s, col, letters) == FlipPairs(s, col + 1, letters)
  {
  }

  /** `NormalizeFromApplies` for a column that flips. */
  lemma {:induction false} FlipApplies(s: State, col: int, letters: map<char, int>)
    requires IsGrid(s.keys) && 0 <= col < COLS && Outer(col) && Flips(s.keys, col, letters)
    ensures NormalizeFrom(s, col, letters) == ApplyPairs(s, FlipPairs(s, col, letters))
    decreases COLS - col, 0
  {
    var x := Pair(Pos(col, 0), Pos(col, 2));
    var t := SwapPair(s, x);
    var rest := FlipPairs(t, col + 1, letters);
    assert NormalizeFrom(s, col, letters) == NormalizeFrom(t, col + 1, letters);
    assert FlipPairs(s, col, letters) == [x] + rest;
    NormalizeFromApplies(t, col + 1, letters);
    ApplyPairsCons(s, x, rest);
  }

  /** The loop keeps the reverse index consistent and only rearranges symbols. */
  lemma NormalizeKeepsConsistent(s: State, letters: map<char, int>)
    requires Valid(s)
    ensures Valid(NormalizeFrom(s, 0, letters))
    ensures multiset(NormalizeFrom(s, 0, letters).keys) == multiset(s.keys)
  {
    var ps := FlipPairs(s, 0, letters);
    NormalizeFromApplies(s, 0, letters);
    ApplyPairsKeepsConsistent(s, ps);
    ApplyPairsPermutes(s, ps);
  }
}
