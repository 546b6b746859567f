/** `game_board` (src/main.rs:345-469) and the key handler of `start_app`
    (src/main.rs:529-556) as a class: the field is a 20x10 array changed in
    place, the bag and the status are fields, and the falling piece is a
    `Tetronimo` whose contents are overwritten when the next piece comes.
    Every method is proved against the state machine of module Games. */
module Boards {
  import opened Masks
  import opened Tetronimos
  import opened Grids
  import opened Games

  /** Row `r` of a field array as a value. */
  function RowOf(a: array2<bool>, r: nat): GridRow
    requires a.Length0 == Height && a.Length1 == Width && r < Height
    reads a
  {
    seq(10, c requires 0 <= c < 10 reads a => a[r, c])
  }

  /** A field array as a value. */
  function GridOf(a: array2<bool>): Grid
    requires a.Length0 == Height && a.Length1 == Width
    reads a
  {
    seq(20, r requires 0 <= r < 20 reads a => RowOf(a, r))
  }

  /** The value has the array's cells. */
  lemma GridOfCells(a: array2<bool>)
    requires a.Length0 == Height && a.Length1 == Width
    ensures forall r, c | 0 <= r < Height && 0 <= c < Width :: GridOf(a)[r][c] == a[r, c]
  {
  }

  /** Writes the occupied cells of `t` into `a`, as the commit loop of
      `lower` (src/main.rs:428-434) and the overlay loop of `draw`
      (src/main.rs:384-390) do. Both index the array at every occupied cell,
      which panics outside the field: `ok` is false then, and what was
      already written is never looked at again. */
  method Place(a: array2<bool>, t: Tetronimo) returns (ok: bool)
    requires a.Length0 == Height && a.Length1 == Width && t.Valid() && a != t.blocks
    modifies a
    ensures ok == InGrid(t.Value())
    ensures ok ==> GridOf(a) == Commit(old(GridOf(a)), t.Value())
  {
    ghost var p, g := t.Value(), GridOf(a);
    GridOfCells(a);
    for i := 0 to 4
      invariant forall i', j | 0 <= i' < i && 0 <= j < 4 && p.blocks[i'][j] :: p.x + i' < Height && p.y + j < Width
      invariant forall r, c | 0 <= r < Height && 0 <= c < Width ::
        a[r, c] == (g[r][c] || (r < p.x + i && Covers(p, r, c)))
    {
      var fits := PlaceRow(a, t, i);
      if !fits {
        return false;
      }
    }
    ok := true;
    PlacedIsCommit(a, g, p);
  }

  /** One pass of the outer loop of `Place`: writes the occupied cells of row
      `i` of the mask, or stops at the first one outside the field. */
  method PlaceRow(a: array2<bool>, t: Tetronimo, i: nat) returns (ok: bool)
    requires a.Length0 == Height && a.Length1 == Width && t.Valid() && a != t.blocks && i < 4
    modifies a
    ensures ok == forall j | 0 <= j < 4 && t.blocks[i, j] :: t.x + i < Height && t.y + j < Width
    ensures ok ==> forall r, c | 0 <= r < Height && 0 <= c < Width ::
      a[r, c] == (old(a[r, c]) || (r == t.x + i && Covers(t.Value(), r, c)))
  {
    for j := 0 to 4
      invariant forall j' | 0 <= j' < j && t.blocks[i, j'] :: t.x + i < Height && t.y + j' < Width
      invariant forall r, c | 0 <= r < Height && 0 <= c < Width ::
        a[r, c] == (old(a[r, c]) || (r == t.x + i && t.y <= c < t.y + j && t.blocks[i, c - t.y]))
    {
      if t.blocks[i, j] {
        if t.x + i >= Height || t.y + j >= Width {
          return false;
        }
        a[t.x + i, t.y + j] := true;
      }
    }
    ok := true;
  }

  /** A field array holding exactly the old cells and those under the piece
      is the committed field. */
  lemma PlacedIsCommit(a: array2<bool>, g: Grid, p: Piece)
    requires a.Length0 == Height && a.Length1 == Width && InGrid(p)
    requires forall r, c | 0 <= r < Height && 0 <= c < Width :: a[r, c] == (g[r][c] || Covers(p, r, c))
    ensures GridOf(a) == Commit(g, p)
  {
    GridOfCells(a);
    GridExt(GridOf(a), Commit(g, p));
  }

  class GameBoard {
    /** The field `blocks: [[bool; 10]; 20]`, indexed `[row, column]`. */
    const blocks: array2<bool>
    /** The bag `current_batch`, by kind; its last element is popped next. */
    var batch: seq<Kind>
    /** The falling piece `current_tetronimo`. */
    const current: Tetronimo
    /** Whether the program still runs, or which panic ended it. */
    var status: Status

    /** The arrays have the sizes of the source's types and are distinct. */
    ghost predicate Shaped() {
      blocks.Length0 == Height && blocks.Length1 == Width && current.Valid() && blocks != current.blocks
    }

    /** The field as a value. */
    function Field(): Grid
      requires Shaped()
      reads blocks
    {
      GridOf(blocks)
    }

    /** The whole board as a value. */
    function State(): Game
      requires Shaped()
      reads this, blocks, current, current.blocks
    {
      Game(Field(), batch, current.Value(), status)
    }

    ghost predicate Valid()
      reads this, blocks, current, current.blocks
    {
      Shaped() && Inv(State())
    }

    /** `game_board::new` (src/main.rs:354-363), given the order `shuffled`
        that the shuffle puts the new batch in. */
    constructor (shuffled: seq<Kind>)
      requires IsShuffle(shuffled)
      ensures Valid() && fresh(blocks) && fresh(current) && fresh(current.blocks)
      ensures State() == Start(shuffled)
    {
      ShuffleLength(shuffled);
      blocks := new bool[Height, Width]((r, c) => false);
      current := new Tetronimo.Of(Spawn(shuffled[6]));
      batch := shuffled[..6];
      status := Playing;
      new;
      GridOfCells(blocks);
      GridExt(Field(), EmptyGrid());
      assert State() == Start(shuffled);
    }

    /** `block` (src/main.rs:366-376). */
    function Block(x: nat, y: nat): (b: bool)
      requires Shaped()
      reads blocks
      ensures b <==> x >= Height || y >= Width || Field()[x][y]
    {
      GridOfCells(blocks);
      if x >= Height || y >= Width then true else blocks[x, y]
    }

    /** `is_overlapping` (src/main.rs:412-421): scans the 4x4 mask and
        stops at the first occupied cell on a solid cell. */
    method IsOverlapping(t: Tetronimo) returns (b: bool)
      requires Shaped() && t.Valid()
      ensures b == Overlaps(Field(), t.Value())
    {
      for i := 0 to 4
        invariant forall i', j | 0 <= i' < i && 0 <= j < 4 :: !(t.blocks[i', j] && Block(t.x + i', t.y + j))
      {
        for j := 0 to 4
          invariant forall i', j' | 0 <= i' < i && 0 <= j' < 4 :: !(t.blocks[i', j'] && Block(t.x + i', t.y + j'))
          invariant forall j' | 0 <= j' < j :: !(t.blocks[i, j'] && Block(t.x + i, t.y + j'))
        {
          if t.blocks[i, j] && Block(t.x + i, t.y + j) {
            return true;
          }
        }
      }
      return false;
    }

    /** The scan of row `x` in the line clear (src/main.rs:437-444),
        stopping at the first empty cell. */
    method IsFullRow(x: nat) returns (full: bool)
      requires Shaped() && x < Height
      ensures full == FullRow(Field(), x)
    {
      full := true;
      for y := 0 to Width
        invariant full == forall c | 0 <= c < y :: blocks[x, c]
      {
        if !blocks[x, y] {
          full := false;
          break;
        }
      }
      GridOfCells(blocks);
    }

    /** Blanking a full row (src/main.rs:445-447). */
    method ClearRowCells(x: nat)
      requires Shaped() && x < Height
      modifies blocks
      ensures Field() == old(Field())[x := EmptyLine]
    {
      GridOfCells(blocks);
      for y := 0 to Width
        invariant forall r, c | 0 <= r < Height && 0 <= c < Width ::
          blocks[r, c] == if r == x && c < y then false else old(blocks[r, c])
      {
        blocks[x, y] := false;
      }
      GridOfCells(blocks);
      GridExt(Field(), old(Field())[x := EmptyLine]);
    }

    /** One pass of the copy loop (src/main.rs:449-451): row `from` is
        copied into the row below it. */
    method CopyRow(from: nat)
      requires Shaped() && from + 1 < Height
      modifies blocks
      ensures Field() == old(Field())[from + 1 := old(Field())[from]]
    {
      GridOfCells(blocks);
      for y := 0 to Width
        invariant forall r, c | 0 <= r < Height && 0 <= c < Width ::
          blocks[r, c] == if r == from + 1 && c < y then old(blocks[from, c]) else old(blocks[r, c])
      {
        blocks[from + 1, y] := blocks[from, y];
      }
      GridOfCells(blocks);
      GridExt(Field(), old(Field())[from + 1 := old(Field())[from]]);
    }

    /** The line-clear pass of `lower` (src/main.rs:436-454), rows top to
        bottom. */
    method ClearFullLines()
      requires Shaped()
      modifies blocks
      ensures Field() == ClearLines(old(Field()))
    {
      for x := 0 to Height
        invariant ClearFrom(Field(), x) == ClearLines(old(Field()))
      {
        var full := IsFullRow(x);
        if full {
          ghost var g := Field();
          ClearRowCells(x);
          if x >= 1 {
            ghost var blank := Field();
            for x2 := x downto 1
              invariant CopyDown(Field(), x2 - 1) == CopyDown(blank, x - 1)
            {
              CopyRow(x2);
            }
          }
          assert Field() == ClearRow(g, x);
        }
      }
    }

    /** `current_batch.pop()`. */
    method Pop() returns (p: Option<Kind>)
      modifies this
      ensures old(batch) == [] ==> p == None && batch == []
      ensures old(batch) != [] ==> p == Some(old(batch)[|old(batch)| - 1]) && batch == old(batch)[..|old(batch)| - 1]
      ensures status == old(status)
    {
      if |batch| == 0 {
        p := None;
      } else {
        p := Some(batch[|batch| - 1]);
        batch := batch[..|batch| - 1];
      }
    }

    /** The commit and the line clear of `lower` (src/main.rs:428-454). */
    method CommitAndClear()
      requires Shaped() && InGrid(current.Value())
      modifies blocks
      ensures Field() == ClearLines(Commit(old(Field()), current.Value()))
    {
      var placed := Place(blocks, current);
      assert placed;
      ClearFullLines();
    }

    /** The pop of `lower` (src/main.rs:456-461): the next piece is taken
        from the bag, which is refilled with the batch in the order `refill`
        when it is empty. */
    method PopNext(refill: seq<Kind>)
      requires Shaped() && IsShuffle(refill)
      modifies this, current, current.blocks
      ensures Shaped() && status == old(status)
      ensures batch == Next(old(batch), refill).1 && current.Value() == Spawn(Next(old(batch), refill).0)
    {
      ShuffleLength(refill);
      var popped := Pop();
      if popped.None? {
        batch := refill;
        popped := Pop();
      }
      NextIsPop(old(batch), refill, popped.value, batch);
      current.Assign(Spawn(popped.value));
    }

    /** The end of the landing branch of `lower` (src/main.rs:456-466): the
        next piece is popped, and the game is over when it overlaps. */
    method Respawn(refill: seq<Kind>)
      requires Shaped() && IsShuffle(refill)
      modifies this, current, current.blocks
      ensures Shaped() && batch == Next(old(batch), refill).1 && current.Value() == Spawn(Next(old(batch), refill).0)
      ensures status == if Overlaps(Field(), current.Value()) then GameOver else Playing
    {
      PopNext(refill);
      var over := IsOverlapping(current);
      status := if over then GameOver else Playing;
    }

    /** The landing branch of `lower` (src/main.rs:427-466), entered with
        the piece moved back up to where it stands. */
    method Land(refill: seq<Kind>)
      requires Shaped() && status == Playing && InGrid(current.Value()) && IsShuffle(refill)
      modifies this, blocks, current, current.blocks
      ensures Shaped()
      ensures State() == Landed(old(State()), refill)
    {
      ghost var s := State();
      CommitAndClear();
      ghost var g := Field();
      assert g == Landed(s, refill).grid;
      Respawn(refill);
      assert Field() == g;
    }

    /** `lower` (src/main.rs:423-467). `refill` is the order the shuffle
        would give a new batch, used only when the bag is empty. */
    method Lower(refill: seq<Kind>)
      requires Valid() && status == Playing && IsShuffle(refill)
      modifies this, blocks, current, current.blocks
      ensures Valid()
      ensures State() == Lowered(old(State()), refill)
    {
      ghost var s := State();
      assert InGrid(s.piece);
      current.MoveDown();
      assert Field() == s.grid;
      var over := IsOverlapping(current);
      assert over == Overlaps(s.grid, MovedDown(s.piece));
      if over {
        current.MoveUp();
        assert State() == s;
        Land(refill);
        assert State() == Lowered(s, refill);
      } else {
        assert State() == Lowered(s, refill);
      }
      LoweredInv(s, refill);
      assert Inv(State());
      assert Shaped();
    }

    /** The field with the piece drawn in, as `draw` builds it
        (src/main.rs:380-390) before printing; `None` where the source
        would index outside the field. */
    method Overlay() returns (view: Option<Grid>)
      requires Shaped()
      ensures view == if InGrid(current.Value()) then Some(Commit(Field(), current.Value())) else None
    {
      var cur := new bool[Height, Width]((r, c) requires 0 <= r < Height && 0 <= c < Width reads blocks => blocks[r, c]);
      GridOfCells(cur);
      GridOfCells(blocks);
      GridExt(GridOf(cur), Field());
      var placed := Place(cur, current);
      view := if placed then Some(GridOf(cur)) else None;
    }

    /** Keys `a` and `d` (src/main.rs:530-543): one column left or right,
        undone when the piece then overlaps. */
    method Slide(left: bool)
      requires Shaped()
      modifies current
      ensures Shaped()
      ensures var s := old(State());
        var moved := if left then MovedLeft(s.piece) else MovedRight(s.piece);
        State() == s.(piece := if Overlaps(s.grid, moved) then (if left then MovedRight(moved) else MovedLeft(moved)) else moved)
    {
      if left {
        current.MoveLeft();
      } else {
        current.MoveRight();
      }
      var over := IsOverlapping(current);
      if over {
        if left {
          current.MoveRight();
        } else {
          current.MoveLeft();
        }
      }
    }

    /** Key `w` (src/main.rs:545-547): the piece turns, with no check
        against the field. */
    method TurnKey()
      requires Shaped() && Count(current.Blocks()) == 4
      modifies current.blocks
      ensures State() == old(State()).(piece := Rotated(old(current.Value())))
    {
      CountZeroIffEmpty(current.Blocks());
      current.Rotate();
    }

    /** The key handler's action (src/main.rs:529-555). */
    method Act(key: string, refill: seq<Kind>)
      requires Valid() && status == Playing && IsShuffle(refill)
      modifies this, blocks, current, current.blocks
      ensures Shaped()
      ensures State() == Acted(old(State()), key, refill)
    {
      ghost var s := State();
      if key == "a" {
        Slide(true);
      } else if key == "d" {
        Slide(false);
      } else if key == "w" {
        TurnKey();
      } else if key == "s" {
        Lower(refill);
      }
    }

    /** The key handler (src/main.rs:529-556) followed by its redraw. */
    method Key(key: string, refill: seq<Kind>)
      requires Valid() && status == Playing && IsShuffle(refill)
      modifies this, blocks, current, current.blocks
      ensures Valid()
      ensures State() == Keyed(old(State()), key, refill)
    {
      ghost var s := State();
      Act(key, refill);
      Redraw();
      KeyedInv(s, key, refill);
    }

    /** The redraw after a key (src/main.rs:556): `draw` panics when the
        piece does not lie inside the field. */
    method Redraw()
      requires Shaped()
      modifies this
      ensures Shaped() && State() == Redrawn(old(State()))
    {
      if status == Playing {
        var view := Overlay();
        if view.None? {
          status := Crashed;
        }
      }
    }
  }
}
