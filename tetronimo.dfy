/** The falling piece, `Tetronimo` (src/main.rs:7-100), and the seven pieces of
    `generate_batch` (src/main.rs:103-175). The piece is mutated in place, so it
    is a class over a 4x4 array; its methods are proved against the pure mask
    geometry of module Masks. */
module Tetronimos {
  import opened Masks
  import opened Shapes

  /** A piece as a value: its mask and the board position of the mask's
      top-left cell (`x` is the board row, `y` the board column). */
  datatype Piece = Piece(blocks: Mask, x: nat, y: nat)

  /** The piece `Tetronimo::new` (src/main.rs:15-28) returns for mask `m`. */
  function NewPiece(m: Mask): Piece
    requires !IsEmpty(m)
  {
    Piece(Spawned(m), 0, 0)
  }

  /** The seven kinds of piece. */
  datatype Kind = T | J | L | O | S | Z | I

  /** The kinds in the order `generate_batch` pushes them. */
  const Kinds: seq<Kind> := [T, J, L, O, S, Z, I]

  /** The shape `generate_batch` (src/main.rs:103-175) passes to
      `Tetronimo::new` for each kind. */
  function Source(k: Kind): Mask {
    match k
    case T => TSource
    case J => JSource
    case L => LSource
    case O => OSource
    case S => SSource
    case Z => ZSource
    case I => ISource
  }

  /** The piece of each kind as `Tetronimo::new` leaves it, written out;
      `SpawnIsNew` proves that each is what the constructor makes of its
      source shape. */
  function Spawn(k: Kind): (p: Piece)
    ensures p.x == 0 && p.y == 0 && Normalised(p.blocks) && Count(p.blocks) == 4
  {
    match k
    case T => Piece(T0, 0, 0)
    case J => Piece(J0, 0, 0)
    case L => Piece(L0, 0, 0)
    case O => Piece(O0, 0, 0)
    case S => Piece(S0, 0, 0)
    case Z => Piece(Z0, 0, 0)
    case I => Piece(I0, 0, 0)
  }

  /** The written-out piece of each kind is `Tetronimo::new` of its shape. */
  lemma SpawnIsNew(k: Kind)
    ensures !IsEmpty(Source(k)) && Spawn(k) == NewPiece(Source(k))
  {
    match k
    case T => TSpawn();
    case J => JSpawn();
    case L => LSpawn();
    case O => OSpawn();
    case S => SSpawn();
    case Z => ZSpawn();
    case I => ISpawn();
  }

  /** The written-out piece of each kind, in push order, is what
      `Tetronimo::new` makes of the shape pushed for it. */
  lemma KindsAreNew()
    ensures forall k | 0 <= k < 7 :: !IsEmpty(Source(Kinds[k])) && Spawn(Kinds[k]) == NewPiece(Source(Kinds[k]))
  {
    forall k | 0 <= k < 7
      ensures !IsEmpty(Source(Kinds[k])) && Spawn(Kinds[k]) == NewPiece(Source(Kinds[k]))
    {
      SpawnIsNew(Kinds[k]);
    }
  }

  /** `generate_batch` (src/main.rs:103-175): seven pieces, the k-th being
      `Tetronimo::new` of the k-th shape pushed. Each is held by its
      written-out kind. */
  function Batch(): (b: seq<Piece>)
    ensures |b| == 7
    ensures forall k | 0 <= k < 7 :: !IsEmpty(Source(Kinds[k])) && b[k] == NewPiece(Source(Kinds[k]))
  {
    KindsAreNew();
    seq(7, k requires 0 <= k < 7 => Spawn(Kinds[k]))
  }

  /** The k-th piece of the batch is held by the k-th kind. */
  lemma BatchHolds(k: nat)
    requires k < 7
    ensures Batch()[k] == Spawn(Kinds[k])
  {
  }

  /** The piece after `move_left` (src/main.rs:83-87): the column drops by one
      unless it is already 0. */
  function MovedLeft(p: Piece): Piece {
    if p.y > 0 then p.(y := p.y - 1) else p
  }

  /** The piece after `move_right` (src/main.rs:89-91). */
  function MovedRight(p: Piece): Piece {
    p.(y := p.y + 1)
  }

  /** The piece after `move_down` (src/main.rs:93-95). */
  function MovedDown(p: Piece): Piece {
    p.(x := p.x + 1)
  }

  /** The piece after `move_up` (src/main.rs:97-99); row 0 would underflow. */
  function MovedUp(p: Piece): Piece
    requires p.x > 0
  {
    p.(x := p.x - 1)
  }

  /** The piece after `rotate` (src/main.rs:49-59). */
  function Rotated(p: Piece): Piece
    requires !IsEmpty(p.blocks)
  {
    p.(blocks := Rotate(p.blocks))
  }

  /** A translation changes only the position, by one cell, except that
      `move_left` at column 0 does nothing; `move_left` after `move_right`
      and `move_up` after `move_down` give the piece back. */
  lemma MovesKeepShape(p: Piece)
    ensures MovedLeft(p).blocks == MovedRight(p).blocks == MovedDown(p).blocks == p.blocks
    ensures MovedLeft(p).x == MovedRight(p).x == p.x && MovedDown(p).y == p.y
    ensures p.y == 0 ==> MovedLeft(p) == p
    ensures p.y > 0 ==> MovedLeft(p).y == p.y - 1
    ensures MovedRight(p).y == p.y + 1 && MovedDown(p).x == p.x + 1
    ensures MovedLeft(MovedRight(p)) == p
    ensures MovedUp(MovedDown(p)) == p
  {
  }

  /** A rotation keeps the number of cells and leaves the shape normalised;
      four of them give a normalised shape back. */
  lemma RotatedShape(p: Piece)
    requires Normalised(p.blocks)
    ensures Normalised(Rotated(p).blocks) && Count(Rotated(p).blocks) == Count(p.blocks)
    ensures Rotated(p).x == p.x && Rotated(p).y == p.y
    ensures Rotated(Rotated(Rotated(Rotated(p)))) == p
  {
    RotateFourTimes(p.blocks);
  }

  class Tetronimo {
    /** The 4x4 mask `blocks`, indexed `[row, column]`. */
    const blocks: array2<bool>
    /** Board row of the mask's top-left cell. */
    var x: nat
    /** Board column of the mask's top-left cell. */
    var y: nat

    ghost predicate Valid() {
      blocks.Length0 == 4 && blocks.Length1 == 4
    }

    function RowAt(i: nat): Row
      requires Valid() && i < 4
      reads blocks
    {
      [blocks[i, 0], blocks[i, 1], blocks[i, 2], blocks[i, 3]]
    }

    /** The mask as a value. */
    function Blocks(): (m: Mask)
      requires Valid()
      reads blocks
      ensures forall i, j | 0 <= i < 4 && 0 <= j < 4 :: m[i][j] == blocks[i, j]
    {
      [RowAt(0), RowAt(1), RowAt(2), RowAt(3)]
    }

    /** The whole piece as a value. */
    function Value(): Piece
      requires Valid()
      reads this, blocks
    {
      Piece(Blocks(), x, y)
    }

    /** `Tetronimo::new` (src/main.rs:15-28): the mask normalised and turned
        twice, at position (0, 0). On an empty mask the source never returns. */
    constructor (m: Mask)
      requires !IsEmpty(m)
      ensures Valid() && fresh(blocks)
      ensures Value() == NewPiece(m)
    {
      blocks := new bool[4, 4]((i, j) requires 0 <= i < 4 && 0 <= j < 4 => m[i][j]);
      x, y := 0, 0;
      new;
      Explode(m);
      assert Blocks() == m;
      Normalise();
      Rotate();
      Rotate();
    }

    /** A piece holding the value `p`: where the source moves a piece popped
        from the bag into the board. */
    constructor Of(p: Piece)
      ensures Valid() && fresh(blocks)
      ensures Value() == p
    {
      blocks := new bool[4, 4]((i, j) requires 0 <= i < 4 && 0 <= j < 4 => p.blocks[i][j]);
      x, y := p.x, p.y;
      new;
      Explode(p.blocks);
    }

    /** One row assignment `self.blocks[i] = r`. */
    method SetRow(i: nat, r: Row)
      requires Valid() && i < 4
      modifies blocks
      ensures Blocks() == old(Blocks())[i := r]
    {
      blocks[i, 0], blocks[i, 1], blocks[i, 2], blocks[i, 3] := r[0], r[1], r[2], r[3];
      assert RowAt(i) == r;
      assert forall k | 0 <= k < 4 && k != i :: RowAt(k) == old(RowAt(k));
      RowsExt(Blocks(), old(Blocks())[i := r]);
    }

    /** The body of the row loop of `normalise` (src/main.rs:66-69): each row
        takes the one below it and row 3 is cleared. */
    method ShiftRowsUp()
      requires Valid()
      modifies blocks
      ensures Blocks() == ShiftUp(old(Blocks()))
    {
      ghost var before := Blocks();
      SetRow(0, RowAt(1));
      assert Blocks() == [before[1], before[1], before[2], before[3]];
      SetRow(1, RowAt(2));
      assert Blocks() == [before[1], before[2], before[2], before[3]];
      SetRow(2, RowAt(3));
      assert Blocks() == [before[1], before[2], before[3], before[3]];
      SetRow(3, EmptyRow);
    }

    /** The inner loop of the column shift of `normalise` (src/main.rs:75-78)
        on one row: each cell takes the one to its right and the last cell is
        cleared. */
    method ShiftCellsLeft(row: nat)
      requires Valid() && row < 4
      modifies blocks
      ensures Blocks() == old(Blocks())[row := ShiftRowLeft(old(Blocks())[row])]
    {
      ghost var r := RowAt(row);
      for col := 0 to 3
        invariant forall i, j | 0 <= i < 4 && i != row && 0 <= j < 4 :: blocks[i, j] == old(blocks[i, j])
        invariant forall j | 0 <= j < col :: blocks[row, j] == r[j + 1]
        invariant forall j | col <= j < 4 :: blocks[row, j] == r[j]
      {
        blocks[row, col] := blocks[row, col + 1];
      }
      blocks[row, 3] := false;
      assert RowAt(row) == ShiftRowLeft(r);
      assert forall i | 0 <= i < 4 && i != row :: RowAt(i) == old(RowAt(i));
      RowsExt(Blocks(), old(Blocks())[row := ShiftRowLeft(old(Blocks())[row])]);
    }

    /** The body of the column loop of `normalise` (src/main.rs:74-79): in
        every row each cell takes the one to its right and column 3 is cleared. */
    method ShiftColumnsLeft()
      requires Valid()
      modifies blocks
      ensures Blocks() == ShiftLeft(old(Blocks()))
    {
      ghost var before := Blocks();
      for row := 0 to 4
        invariant forall i | 0 <= i < 4 :: Blocks()[i] == if i < row then ShiftRowLeft(before[i]) else before[i]
      {
        ShiftCellsLeft(row);
      }
      assert Blocks() == ShiftLeft(before);
    }

    /** `normalise` (src/main.rs:61-81), in place: rows move up while row 0
        is empty, then columns move left while column 0 is empty. */
    method Normalise()
      requires Valid() && !IsEmpty(Blocks())
      modifies blocks
      ensures Blocks() == Masks.Normalise(old(Blocks()))
    {
      while !blocks[0, 0] && !blocks[0, 1] && !blocks[0, 2] && !blocks[0, 3]
        invariant !IsEmpty(Blocks())
        invariant NormaliseRows(Blocks()) == NormaliseRows(old(Blocks()))
        decreases TopRow(Blocks())
      {
        ghost var before := Blocks();
        EmptyIffNoTopRow(before);
        CountZeroIffEmpty(before);
        ShiftRowsUp();
        CountZeroIffEmpty(Blocks());
      }
      ghost var rows := Blocks();
      CountZeroIffEmpty(old(Blocks()));
      CountZeroIffEmpty(rows);
      while !blocks[0, 0] && !blocks[1, 0] && !blocks[2, 0] && !blocks[3, 0]
        invariant !IsEmpty(Blocks())
        invariant NormaliseColumns(Blocks()) == NormaliseColumns(rows)
        decreases LeftColumn(Blocks())
      {
        ghost var before := Blocks();
        ShiftColumnsLeft();
        ShiftLeftStep(before);
      }
    }

    /** The quarter turn of `rotate` (src/main.rs:50-56): fill `new_blocks`
        with `new_blocks[r][c] = blocks[3 - c][r]` and copy it over the mask. */
    method TurnBlocks()
      requires Valid()
      modifies blocks
      ensures Blocks() == Turn(old(Blocks()))
    {
      ghost var m := Blocks();
      var turned := new bool[4, 4];
      for r := 0 to 4
        modifies turned
        invariant forall i, j | 0 <= i < r && 0 <= j < 4 :: turned[i, j] == blocks[3 - j, i]
      {
        for c := 0 to 4
          modifies turned
          invariant forall i, j | 0 <= i < r && 0 <= j < 4 :: turned[i, j] == blocks[3 - j, i]
          invariant forall j | 0 <= j < c :: turned[r, j] == blocks[3 - j, r]
        {
          turned[r, c] := blocks[3 - c, r];
        }
      }
      forall i, j | 0 <= i < 4 && 0 <= j < 4 {
        blocks[i, j] := turned[i, j];
      }
      TurnByCells(m, Blocks());
    }

    /** `rotate` (src/main.rs:49-59): a quarter turn, then `normalise`. */
    method Rotate()
      requires Valid() && !IsEmpty(Blocks())
      modifies blocks
      ensures Blocks() == Masks.Rotate(old(Blocks()))
      ensures Value() == Rotated(old(Value()))
    {
      TurnBlocks();
      CountZeroIffEmpty(old(Blocks()));
      CountZeroIffEmpty(Blocks());
      Normalise();
    }

    /** One pass of the outer loop of `draw` (src/main.rs:33-43): the cells of
        row `row`, the trailing space dropped, then a newline. */
    method DrawRow(s: string, row: nat) returns (r: string)
      requires Valid() && row < 4
      ensures r == s + RowText(Blocks()[row])
    {
      ghost var cells := RowAt(row);
      r := s;
      for col := 0 to 4
        invariant r == s + CellsText(cells, col)
      {
        if blocks[row, col] {
          r := r + "x ";
        } else {
          r := r + "- ";
        }
      }
      // remove the trailing space of the last cell
      assert r[..|r| - 1] == s + CellsText(cells, 4)[..7];
      CellsThenNewline(cells);
      r := r[..|r| - 1];
      r := r + "\n";
    }

    /** `draw` (src/main.rs:30-47): appends the text of the mask to `s`. */
    method Draw(s: string) returns (r: string)
      requires Valid()
      ensures r == s + Render(Blocks())
    {
      r := s;
      for row := 0 to 4
        invariant r == s + RowsText(Blocks(), row)
      {
        r := DrawRow(r, row);
      }
      RowsThenBlank(Blocks());
      r := r + "\n";
    }

    /** `move_left` (src/main.rs:83-87). */
    method MoveLeft()
      requires Valid()
      modifies this
      ensures Value() == MovedLeft(old(Value()))
    {
      if y > 0 {
        y := y - 1;
      }
    }

    /** `move_right` (src/main.rs:89-91). */
    method MoveRight()
      requires Valid()
      modifies this
      ensures Value() == MovedRight(old(Value()))
    {
      y := y + 1;
    }

    /** `move_down` (src/main.rs:93-95). */
    method MoveDown()
      requires Valid()
      modifies this
      ensures Value() == MovedDown(old(Value()))
    {
      x := x + 1;
    }

    /** `move_up` (src/main.rs:97-99). Row 0 would underflow `usize`; the
        only caller moves up right after a move down. */
    method MoveUp()
      requires Valid() && x > 0
      modifies this
      ensures Value() == MovedUp(old(Value()))
    {
      x := x - 1;
    }

    /** Moving piece `p` into this one, as `self.current_tetronimo = p` does. */
    method Assign(p: Piece)
      requires Valid()
      modifies this, blocks
      ensures Value() == p
    {
      forall i, j | 0 <= i < 4 && 0 <= j < 4 {
        blocks[i, j] := p.blocks[i][j];
      }
      x, y := p.x, p.y;
      Explode(p.blocks);
    }
  }
}
