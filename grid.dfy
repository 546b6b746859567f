/** The 20x10 playing field of `game_board` (src/main.rs:345-469) as a value:
    which cells are solid, when a piece collides, what committing a piece puts
    into the field, and the full-line clearing of `lower`, exactly as the
    loops of src/main.rs:436-454 do it. */
module Grids {
  import opened Masks
  import opened Tetronimos

  const Height: nat := 20
  const Width: nat := 10

  /** One row of the field: `[bool; 10]`. */
  type GridRow = r: seq<bool> | |r| == 10
    witness [false, false, false, false, false, false, false, false, false, false]

  /** The field `[[bool; 10]; 20]`, indexed `g[row][column]`. */
  type Grid = g: seq<GridRow> | |g| == 20
    witness seq(20, _ => [false, false, false, false, false, false, false, false, false, false])

  const EmptyLine: GridRow := [false, false, false, false, false, false, false, false, false, false]

  /** The field `game_board::new` starts with. */
  function EmptyGrid(): (g: Grid)
    ensures forall r, c | 0 <= r < Height && 0 <= c < Width :: !g[r][c]
  {
    seq(20, r => EmptyLine)
  }

  /** `block` (src/main.rs:366-376): a cell is solid when it lies below or
      to the right of the field, or when the field holds a block there. The
      source's tests `x < 0 || y < 0` can never hold for `usize`. */
  predicate Solid(g: Grid, r: nat, c: nat) {
    r >= Height || c >= Width || g[r][c]
  }

  /** `is_overlapping` (src/main.rs:412-421): some occupied cell of the mask
      lands on a solid cell. */
  predicate Overlaps(g: Grid, p: Piece) {
    exists i, j | 0 <= i < 4 && 0 <= j < 4 :: p.blocks[i][j] && Solid(g, p.x + i, p.y + j)
  }

  /** Every occupied cell of the piece lies inside the field. */
  predicate InGrid(p: Piece) {
    forall i, j | 0 <= i < 4 && 0 <= j < 4 && p.blocks[i][j] :: p.x + i < Height && p.y + j < Width
  }

  /** A piece does not overlap exactly when each of its occupied cells lies
      inside the field on an empty cell. */
  lemma FitIff(g: Grid, p: Piece)
    ensures !Overlaps(g, p) <==>
      forall i, j | 0 <= i < 4 && 0 <= j < 4 && p.blocks[i][j] ::
        p.x + i < Height && p.y + j < Width && !g[p.x + i][p.y + j]
  {
  }

  /** A piece that does not overlap lies inside the field. */
  lemma FitsInGrid(g: Grid, p: Piece)
    requires !Overlaps(g, p)
    ensures InGrid(p)
  {
    FitIff(g, p);
  }

  /** Fields with the same cells are equal. */
  lemma GridExt(a: Grid, b: Grid)
    requires forall r, c | 0 <= r < Height && 0 <= c < Width :: a[r][c] == b[r][c]
    ensures a == b
  {
    forall r | 0 <= r < Height
      ensures a[r] == b[r]
    {
      assert forall c | 0 <= c < Width :: a[r][c] == b[r][c];
    }
  }

  /** Cell `(r, c)` of the field is under an occupied cell of the piece. */
  predicate Covers(p: Piece, r: nat, c: nat) {
    p.x <= r && p.y <= c && Cell(p.blocks, r - p.x, c - p.y)
  }

  /** The field with the piece's occupied cells set: the commit loop of
      `lower` (src/main.rs:428-434), and the overlay `game_board::draw`
      builds before printing (src/main.rs:380-390). The source indexes the
      field at each occupied cell, so the piece must lie inside it. */
  function Commit(g: Grid, p: Piece): Grid
    requires InGrid(p)
  {
    seq(20, r requires 0 <= r < 20 => seq(10, c requires 0 <= c < 10 => g[r][c] || Covers(p, r, c)))
  }

  /** Committing keeps every block of the field, sets every cell under an
      occupied cell of the piece, and sets nothing else. */
  lemma CommitCells(g: Grid, p: Piece)
    requires InGrid(p)
    ensures forall r, c | 0 <= r < Height && 0 <= c < Width && g[r][c] :: Commit(g, p)[r][c]
    ensures forall i, j | 0 <= i < 4 && 0 <= j < 4 && p.blocks[i][j] :: Commit(g, p)[p.x + i][p.y + j]
    ensures forall r, c | 0 <= r < Height && 0 <= c < Width && Commit(g, p)[r][c] ::
      g[r][c] || exists i, j | 0 <= i < 4 && 0 <= j < 4 && p.blocks[i][j] :: r == p.x + i && c == p.y + j
  {
    forall r, c | 0 <= r < Height && 0 <= c < Width && Commit(g, p)[r][c] && !g[r][c]
      ensures exists i, j | 0 <= i < 4 && 0 <= j < 4 && p.blocks[i][j] :: r == p.x + i && c == p.y + j
    {
      assert Covers(p, r, c);
      var i, j := r - p.x, c - p.y;
      assert 0 <= i < 4 && 0 <= j < 4 && p.blocks[i][j];
    }
    forall i, j | 0 <= i < 4 && 0 <= j < 4 && p.blocks[i][j]
      ensures Commit(g, p)[p.x + i][p.y + j]
    {
      assert Covers(p, p.x + i, p.y + j);
    }
  }

  /** Row `x` has no empty cell: the scan of src/main.rs:437-444. */
  predicate FullRow(g: Grid, x: nat)
    requires x < Height
  {
    forall c | 0 <= c < Width :: g[x][c]
  }

  /** The copy loop `for x2 in (1..k).rev()` (src/main.rs:448-452) from
      `x2 == hi` down to `x2 == 1`: each step copies row `x2` into row `x2 + 1`. */
  function CopyDown(g: Grid, hi: nat): Grid
    requires hi < Height - 1
    decreases hi
  {
    if hi < 1 then g else CopyDown(g[hi + 1 := g[hi]], hi - 1)
  }

  /** What `lower` does to a full row `k` (src/main.rs:445-453): the row is
      blanked, then the copy loop runs for `x2` from `k - 1` down to 1. */
  function ClearRow(g: Grid, k: nat): Grid
    requires k < Height
  {
    var blank := g[k := EmptyLine];
    if k == 0 then blank else CopyDown(blank, k - 1)
  }

  /** The line-clear loop `for x in 0..20` (src/main.rs:436-454) from row `x`
      on: every row found full, top to bottom, is cleared as written. */
  function ClearFrom(g: Grid, x: nat): Grid
    requires x <= Height
    decreases Height - x
  {
    if x == Height then g
    else ClearFrom(if FullRow(g, x) then ClearRow(g, x) else g, x + 1)
  }

  /** The whole line-clear pass of `lower`. */
  function ClearLines(g: Grid): Grid {
    ClearFrom(g, 0)
  }

  /** The copy loop moves rows `1..hi` down by one and leaves the others. */
  lemma {:induction false} CopyDownRow(g: Grid, hi: nat, r: nat)
    requires hi < Height - 1 && r < Height
    ensures CopyDown(g, hi)[r] == if 2 <= r <= hi + 1 then g[r - 1] else g[r]
    decreases hi
  {
    if hi >= 1 {
      var h: Grid := g[hi + 1 := g[hi]];
      CopyDownRow(h, hi - 1, r);
    }
  }

  /** Clearing a full row `k` as written: rows below `k` are untouched. When
      `k >= 2`, rows `2..k` receive the old rows `1..k-1` while rows 0 and 1
      stay, so row 1 appears twice and row 0 never falls; when `k` is 0 or 1
      only row `k` changes, and it becomes empty. */
  lemma ClearRowAsWritten(g: Grid, k: nat)
    requires k < Height
    ensures forall r | k < r < Height :: ClearRow(g, k)[r] == g[r]
    ensures k >= 2 ==> forall r | 2 <= r <= k :: ClearRow(g, k)[r] == g[r - 1]
    ensures k >= 2 ==> ClearRow(g, k)[0] == g[0] && ClearRow(g, k)[1] == g[1]
    ensures k < 2 ==> ClearRow(g, k) == g[k := EmptyLine]
  {
    var blank: Grid := g[k := EmptyLine];
    if k >= 1 {
      assert ClearRow(g, k) == CopyDown(blank, k - 1);
      forall r | k < r < Height
        ensures ClearRow(g, k)[r] == g[r]
      {
        CopyDownRow(blank, k - 1, r);
      }
      forall r | 2 <= r <= k
        ensures ClearRow(g, k)[r] == g[r - 1]
      {
        CopyDownRow(blank, k - 1, r);
      }
      CopyDownRow(blank, k - 1, 0);
      CopyDownRow(blank, k - 1, 1);
    }
  }

  /** The usual clear of a full row `k`: every row above it falls by one
      and an empty row enters at the top. */
  function ShiftClear(g: Grid, k: nat): (h: Grid)
    requires k < Height
    ensures h[0] == EmptyLine
    ensures forall r | 1 <= r <= k :: h[r] == g[r - 1]
    ensures forall r | k < r < Height :: h[r] == g[r]
  {
    [EmptyLine] + g[..k] + g[k + 1..]
  }

  /** The clear as written agrees with the usual one only on row 0: for any
      lower row it differs as soon as row 0 of the field holds a block. */
  lemma ClearRowVersusShift(g: Grid, k: nat)
    requires k < Height
    ensures k == 0 ==> ClearRow(g, k) == ShiftClear(g, k)
    ensures k >= 1 && g[0] != EmptyLine ==> ClearRow(g, k) != ShiftClear(g, k)
  {
    ClearRowAsWritten(g, k);
    if k == 0 {
      assert ClearRow(g, k) == ShiftClear(g, k);
    } else if g[0] != EmptyLine {
      assert ClearRow(g, k)[0] == g[0];
    }
  }

  /** After clearing a full row `k`, rows `0..k` are no fuller than rows
      `0..k-1` were before: if none of those was full, none of these is. */
  lemma ClearRowKeepsNoFull(g: Grid, k: nat)
    requires k < Height
    requires forall r | 0 <= r < k :: !FullRow(g, r)
    ensures forall r | 0 <= r <= k :: !FullRow(ClearRow(g, k), r)
    ensures forall r | k < r < Height :: ClearRow(g, k)[r] == g[r]
  {
    ClearRowAsWritten(g, k);
    var h := ClearRow(g, k);
    forall r | 0 <= r <= k
      ensures !FullRow(h, r)
    {
      if k >= 2 && 2 <= r {
        assert h[r] == g[r - 1];
        assert !FullRow(g, r - 1);
        var c :| 0 <= c < Width && !g[r - 1][c];
        assert !h[r][c];
      } else if k >= 2 {
        assert h[r] == g[r];
        assert !FullRow(g, r);
        var c :| 0 <= c < Width && !g[r][c];
        assert !h[r][c];
      } else if r == k {
        assert !h[r][0];
      } else {
        assert h[r] == g[r];
        assert !FullRow(g, r);
        var c :| 0 <= c < Width && !g[r][c];
        assert !h[r][c];
      }
    }
  }

  /** The pass from row `x` on leaves no full row, given that none of the
      rows above `x` is full. */
  lemma {:induction false} ClearFromLeavesNoFull(g: Grid, x: nat)
    requires x <= Height
    requires forall r | 0 <= r < x :: !FullRow(g, r)
    ensures forall r | 0 <= r < Height :: !FullRow(ClearFrom(g, x), r)
    decreases Height - x
  {
    if x < Height {
      if FullRow(g, x) {
        ClearRowKeepsNoFull(g, x);
        ClearFromLeavesNoFull(ClearRow(g, x), x + 1);
      } else {
        ClearFromLeavesNoFull(g, x + 1);
      }
    }
  }

  /** After the line-clear pass no row is full. */
  lemma ClearLinesLeavesNoFull(g: Grid)
    ensures forall r | 0 <= r < Height :: !FullRow(ClearLines(g), r)
  {
    ClearFromLeavesNoFull(g, 0);
  }

  /** Without a full row from `x` on, the pass changes nothing. */
  lemma {:induction false} ClearFromNoFull(g: Grid, x: nat)
    requires x <= Height
    requires forall r | x <= r < Height :: !FullRow(g, r)
    ensures ClearFrom(g, x) == g
    decreases Height - x
  {
    if x < Height {
      ClearFromNoFull(g, x + 1);
    }
  }

  /** Without a full row the line-clear pass changes nothing. */
  lemma ClearLinesNoFull(g: Grid)
    requires forall r | 0 <= r < Height :: !FullRow(g, r)
    ensures ClearLines(g) == g
  {
    ClearFromNoFull(g, 0);
  }

  /** With exactly one full row `k`, the pass clears just that row. */
  lemma ClearLinesSingle(g: Grid, k: nat)
    requires k < Height && FullRow(g, k)
    requires forall r | 0 <= r < Height && r != k :: !FullRow(g, r)
    ensures ClearLines(g) == ClearRow(g, k)
  {
    ClearRowKeepsNoFull(g, k);
    var h := ClearRow(g, k);
    forall r | k < r < Height
      ensures !FullRow(h, r)
    {
      assert h[r] == g[r];
      assert !FullRow(g, r);
    }
    ClearFromNoFull(h, k + 1);
    ClearFromNoFullUntil(g, 0, k);
  }

  /** Rows above `k` that are not full are passed over. */
  lemma {:induction false} ClearFromNoFullUntil(g: Grid, x: nat, k: nat)
    requires x <= k < Height
    requires forall r | x <= r < k :: !FullRow(g, r)
    ensures ClearFrom(g, x) == ClearFrom(g, k)
    decreases k - x
  {
    if x < k {
      ClearFromNoFullUntil(g, x + 1, k);
    }
  }
}
