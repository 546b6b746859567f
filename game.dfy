/** The rules of `game_board` (src/main.rs:345-469) and of the key handler
    (src/main.rs:529-556) as a state machine on values. A panic of the source
    is a status: `GameOver` for the `panic!` at src/main.rs:464, `Crashed` for
    the out-of-bounds index of the redraw that follows a key
    (src/main.rs:387 and 556). Nothing runs after a panic, so every step
    starts from a `Playing` state. The shuffle of `thread_rng` is a parameter:
    the order the next refill of the bag would come in. */
module Games {
  import opened Masks
  import opened Shapes
  import opened Tetronimos
  import opened Grids

  datatype Option<T> = None | Some(value: T)

  datatype Status = Playing | GameOver | Crashed

  /** The fields of `game_board`: the field, the bag `current_batch` (a stack
      that `pop` empties from the back) and the falling piece; and whether
      the program is still running. A piece in the bag is never changed
      before it is popped, so the bag records each by its kind: the piece
      itself is `Spawn` of the kind. */
  datatype Game = Game(grid: Grid, bag: seq<Kind>, piece: Piece, status: Status)

  /** `generate_batch()` followed by `shuffle`: some order of the seven kinds. */
  predicate IsShuffle(s: seq<Kind>) {
    multiset(s) == multiset(Kinds)
  }

  /** What holds in every reachable state: the piece is one of the pieces'
      orientations (normalised, four cells); while the game runs the piece
      lies inside the field, so the commit of `lower` and the redraw index
      only existing cells; the bag is a part of one batch; and the line clear
      has left no full row. */
  predicate Inv(s: Game) {
    && Normalised(s.piece.blocks) && Count(s.piece.blocks) == 4
    && (s.status == Playing ==> InGrid(s.piece))
    && |s.bag| <= 6 && multiset(s.bag) <= multiset(Kinds)
    && (forall r | 0 <= r < Height :: !FullRow(s.grid, r))
  }

  /** A shuffled batch has the seven pieces. */
  lemma ShuffleLength(s: seq<Kind>)
    requires IsShuffle(s)
    ensures |s| == 7
  {
    assert |s| == |multiset(s)|;
  }

  /** `game_board::new` (src/main.rs:354-363): an empty field, the shuffled
      batch with its last piece popped as the falling piece. */
  function Start(shuffled: seq<Kind>): (s: Game)
    requires IsShuffle(shuffled)
    ensures s.grid == EmptyGrid() && s.status == Playing
    ensures |s.bag| == 6 && s.piece == Spawn(shuffled[6]) && s.piece.x == 0 && s.piece.y == 0
    ensures multiset(s.bag) + multiset{shuffled[6]} == multiset(Kinds)
    ensures Inv(s)
  {
    ShuffleLength(shuffled);
    assert shuffled == shuffled[..6] + [shuffled[6]];
    AtOriginInGrid(Spawn(shuffled[6]));
    EmptyGridNoFull();
    Game(EmptyGrid(), shuffled[..6], Spawn(shuffled[6]), Playing)
  }

  /** The pop at the end of `lower` (src/main.rs:456-461): the last kind of
      the bag, or, when the bag is empty, the last kind of a fresh shuffled
      batch, whose other six become the bag. */
  function Next(bag: seq<Kind>, refill: seq<Kind>): (r: (Kind, seq<Kind>))
    requires IsShuffle(refill)
    ensures |bag| > 0 ==> r.0 == bag[|bag| - 1] && |r.1| == |bag| - 1
    ensures |bag| == 0 ==> r.0 == refill[6] && |r.1| == 6
  {
    ShuffleLength(refill);
    var from := if |bag| > 0 then bag else refill;
    (from[|from| - 1], from[..|from| - 1])
  }

  /** The pop takes one piece out of the bag, or out of a whole batch when
      the bag is empty. */
  lemma NextTakesOne(bag: seq<Kind>, refill: seq<Kind>)
    requires IsShuffle(refill)
    ensures multiset(Next(bag, refill).1) + multiset{Next(bag, refill).0} ==
      if |bag| > 0 then multiset(bag) else multiset(Kinds)
  {
    ShuffleLength(refill);
    var from := if |bag| > 0 then bag else refill;
    assert from == from[..|from| - 1] + [from[|from| - 1]];
  }

  /** `Next` is the pop of the bag, or of the refill when the bag is empty. */
  lemma NextIsPop(bag: seq<Kind>, refill: seq<Kind>, k: Kind, rest: seq<Kind>)
    requires IsShuffle(refill)
    requires |bag| > 0 ==> k == bag[|bag| - 1] && rest == bag[..|bag| - 1]
    requires |bag| == 0 ==> |refill| > 0 && k == refill[|refill| - 1] && rest == refill[..|refill| - 1]
    ensures Next(bag, refill) == (k, rest)
  {
  }

  /** The landing branch of `lower` (src/main.rs:427-466): the piece is
      written into the field where it stands, full lines are cleared, the
      next piece is popped, and the game is over when that one overlaps. */
  function Landed(s: Game, refill: seq<Kind>): Game
    requires InGrid(s.piece) && IsShuffle(refill)
  {
    var g := ClearLines(Commit(s.grid, s.piece));
    var next := Next(s.bag, refill);
    Game(g, next.1, Spawn(next.0), if Overlaps(g, Spawn(next.0)) then GameOver else Playing)
  }

  /** `lower` (src/main.rs:423-467): the piece moves down a row, and lands
      where it was if it then overlaps. */
  function Lowered(s: Game, refill: seq<Kind>): Game
    requires s.status == Playing && InGrid(s.piece) && IsShuffle(refill)
  {
    var down := MovedDown(s.piece);
    if !Overlaps(s.grid, down) then s.(piece := down) else Landed(s, refill)
  }

  /** The redraw after a key (src/main.rs:556): `draw` indexes the field at
      every occupied cell of the piece (src/main.rs:385-389) and panics on a
      cell outside it. */
  function Redrawn(s: Game): Game {
    if s.status == Playing && !InGrid(s.piece) then s.(status := Crashed) else s
  }

  /** The action of a key (src/main.rs:529-555): `a` and `d` move the piece
      sideways and move it back when it then overlaps, `w` rotates it
      without any check, `s` lowers it, any other key does nothing. */
  function Acted(s: Game, key: string, refill: seq<Kind>): Game
    requires Inv(s) && s.status == Playing && IsShuffle(refill)
  {
    if key == "a" then
      var l := MovedLeft(s.piece);
      s.(piece := if Overlaps(s.grid, l) then MovedRight(l) else l)
    else if key == "d" then
      var r := MovedRight(s.piece);
      s.(piece := if Overlaps(s.grid, r) then MovedLeft(r) else r)
    else if key == "w" then
      s.(piece := Rotated(s.piece))
    else if key == "s" then
      Lowered(s, refill)
    else
      s
  }

  /** The key handler (src/main.rs:529-556): the key's action, then the
      redraw. */
  function Keyed(s: Game, key: string, refill: seq<Kind>): Game
    requires Inv(s) && s.status == Playing && IsShuffle(refill)
  {
    Redrawn(Acted(s, key, refill))
  }

  /** A piece whose mask is at (0, 0) lies inside the field. */
  lemma AtOriginInGrid(p: Piece)
    requires p.x == 0 && p.y == 0
    ensures InGrid(p)
  {
  }

  /** The empty field has no full row. */
  lemma EmptyGridNoFull()
    ensures forall r | 0 <= r < Height :: !FullRow(EmptyGrid(), r)
  {
    forall r | 0 <= r < Height
      ensures !FullRow(EmptyGrid(), r)
    {
      assert !EmptyGrid()[r][0];
    }
  }

  /** When the row below is free, `lower` only moves the piece down: the
      field, the bag and the status stay. */
  lemma LowerFalls(s: Game, refill: seq<Kind>)
    requires s.status == Playing && InGrid(s.piece) && IsShuffle(refill)
    requires !Overlaps(s.grid, MovedDown(s.piece))
    ensures Lowered(s, refill).grid == s.grid && Lowered(s, refill).bag == s.bag
    ensures Lowered(s, refill).status == Playing
    ensures Lowered(s, refill).piece.x == s.piece.x + 1
    ensures Lowered(s, refill).piece.y == s.piece.y && Lowered(s, refill).piece.blocks == s.piece.blocks
  {
  }

  /** When the row below is not free, `lower` lands the piece where it was:
      the field keeps its blocks and gains every cell of the piece before
      the line clear, which leaves no full row; the next piece is popped,
      and the game is over exactly when it overlaps the new field. */
  lemma LowerLands(s: Game, refill: seq<Kind>)
    requires s.status == Playing && InGrid(s.piece) && IsShuffle(refill)
    requires Overlaps(s.grid, MovedDown(s.piece))
    ensures Lowered(s, refill).grid == ClearLines(Commit(s.grid, s.piece))
    ensures forall r, c | 0 <= r < Height && 0 <= c < Width && s.grid[r][c] :: Commit(s.grid, s.piece)[r][c]
    ensures forall i, j | 0 <= i < 4 && 0 <= j < 4 && s.piece.blocks[i][j] ::
      Commit(s.grid, s.piece)[s.piece.x + i][s.piece.y + j]
    ensures forall r | 0 <= r < Height :: !FullRow(Lowered(s, refill).grid, r)
    ensures Lowered(s, refill).piece == Spawn(Next(s.bag, refill).0) && Lowered(s, refill).bag == Next(s.bag, refill).1
    ensures Lowered(s, refill).status == GameOver <==> Overlaps(Lowered(s, refill).grid, Lowered(s, refill).piece)
    ensures Lowered(s, refill).status != GameOver ==> Lowered(s, refill).status == Playing
  {
    CommitCells(s.grid, s.piece);
    ClearLinesLeavesNoFull(Commit(s.grid, s.piece));
  }

  /** After `lower` a running game's piece does not overlap the field, so
      the redraw of the timer (src/main.rs:509-510) never fails. */
  lemma LoweredFits(s: Game, refill: seq<Kind>)
    requires s.status == Playing && InGrid(s.piece) && IsShuffle(refill)
    ensures Lowered(s, refill).status == Playing ==> !Overlaps(Lowered(s, refill).grid, Lowered(s, refill).piece)
    ensures Lowered(s, refill).status == Playing ==> InGrid(Lowered(s, refill).piece)
  {
    if Lowered(s, refill).status == Playing {
      FitsInGrid(Lowered(s, refill).grid, Lowered(s, refill).piece);
    }
  }

  /** `lower` keeps the invariant. */
  lemma LoweredInv(s: Game, refill: seq<Kind>)
    requires Inv(s) && s.status == Playing && IsShuffle(refill)
    ensures Inv(Lowered(s, refill))
  {
    var down := MovedDown(s.piece);
    if Overlaps(s.grid, down) {
      LowerLands(s, refill);
      var next := Next(s.bag, refill);
      NextTakesOne(s.bag, refill);
      AtOriginInGrid(Spawn(next.0));
      assert multiset(next.1) <= multiset(Kinds) by {
        assert multiset(next.1) <= multiset(next.1) + multiset{next.0};
      }
    } else {
      FitsInGrid(s.grid, down);
    }
  }

  /** A piece inside the field a column further left, when its column was
      0, still lies inside the field one column right: masks are four cells
      wide. */
  lemma NudgedRightInGrid(p: Piece)
    requires InGrid(p) && p.y == 0
    ensures InGrid(MovedRight(p))
  {
  }

  /** The `a` key: the piece moves one column left when that cell range is
      free, and otherwise stays; nothing else changes. A piece that did not
      overlap still does not, and its row is unchanged. */
  /** The `a` key on a piece that then overlaps: `move_right` puts it back. */
  lemma LeftUndone(s: Game, refill: seq<Kind>)
    requires Inv(s) && s.status == Playing && IsShuffle(refill)
    requires s.piece.y > 0 && Overlaps(s.grid, MovedLeft(s.piece))
    ensures Acted(s, "a", refill) == s
  {
    assert MovedRight(MovedLeft(s.piece)) == s.piece;
  }

  /** The `d` key on a piece that then overlaps: `move_left` puts it back. */
  lemma RightUndone(s: Game, refill: seq<Kind>)
    requires Inv(s) && s.status == Playing && IsShuffle(refill)
    requires Overlaps(s.grid, MovedRight(s.piece))
    ensures Acted(s, "d", refill) == s
  {
    MovesKeepShape(s.piece);
  }

  lemma LeftKey(s: Game, refill: seq<Kind>)
    requires Inv(s) && s.status == Playing && IsShuffle(refill)
    requires !Overlaps(s.grid, s.piece)
    ensures Keyed(s, "a", refill).grid == s.grid && Keyed(s, "a", refill).bag == s.bag
    ensures Keyed(s, "a", refill).status == Playing
    ensures Keyed(s, "a", refill).piece ==
      if s.piece.y > 0 && !Overlaps(s.grid, MovedLeft(s.piece)) then MovedLeft(s.piece) else s.piece
    ensures !Overlaps(Keyed(s, "a", refill).grid, Keyed(s, "a", refill).piece)
    ensures Keyed(s, "a", refill).piece.x == s.piece.x
  {
    var l := MovedLeft(s.piece);
    var a := Acted(s, "a", refill);
    if s.piece.y > 0 && !Overlaps(s.grid, l) {
      FitsInGrid(s.grid, l);
      assert a == s.(piece := l);
    } else if s.piece.y == 0 {
      assert l == s.piece;
      assert a == s;
    } else {
      LeftUndone(s, refill);
    }
    assert Keyed(s, "a", refill) == a;
  }

  /** The `a` key on a piece at column 0 that overlaps the field (a state a
      rotation can reach): `move_left` does nothing, the piece still
      overlaps, so the undoing `move_right` moves it one column RIGHT. */
  lemma LeftKeyAtEdge(s: Game, refill: seq<Kind>)
    requires Inv(s) && s.status == Playing && IsShuffle(refill)
    requires s.piece.y == 0 && Overlaps(s.grid, s.piece)
    ensures Keyed(s, "a", refill).piece == MovedRight(s.piece)
    ensures Keyed(s, "a", refill).piece.y == 1
    ensures Keyed(s, "a", refill).grid == s.grid && Keyed(s, "a", refill).bag == s.bag
    ensures Keyed(s, "a", refill).status == Playing
  {
    NudgedRightInGrid(s.piece);
  }

  /** The `d` key: the piece moves one column right when that is free, and
      otherwise stays; nothing else changes. A piece that did not overlap
      still does not, and its row is unchanged. */
  lemma RightKey(s: Game, refill: seq<Kind>)
    requires Inv(s) && s.status == Playing && IsShuffle(refill)
    requires !Overlaps(s.grid, s.piece)
    ensures Keyed(s, "d", refill).grid == s.grid && Keyed(s, "d", refill).bag == s.bag
    ensures Keyed(s, "d", refill).status == Playing
    ensures Keyed(s, "d", refill).piece ==
      if !Overlaps(s.grid, MovedRight(s.piece)) then MovedRight(s.piece) else s.piece
    ensures !Overlaps(Keyed(s, "d", refill).grid, Keyed(s, "d", refill).piece)
    ensures Keyed(s, "d", refill).piece.x == s.piece.x
  {
    var r := MovedRight(s.piece);
    assert Acted(s, "d", refill) == s.(piece := Acted(s, "d", refill).piece);
    if !Overlaps(s.grid, r) {
      FitsInGrid(s.grid, r);
    } else {
      RightUndone(s, refill);
    }
  }

  /** The `w` key: the piece is rotated where it stands, without looking at
      the field; the redraw then fails exactly when the rotated piece sticks
      out of the field. */
  lemma RotateKey(s: Game, refill: seq<Kind>)
    requires Inv(s) && s.status == Playing && IsShuffle(refill)
    ensures Keyed(s, "w", refill).grid == s.grid && Keyed(s, "w", refill).bag == s.bag
    ensures Keyed(s, "w", refill).piece == Rotated(s.piece)
    ensures Keyed(s, "w", refill).status == Crashed <==> !InGrid(Rotated(s.piece))
    ensures Keyed(s, "w", refill).status != Crashed ==> Keyed(s, "w", refill).status == Playing
    ensures Inv(Keyed(s, "w", refill))
  {
  }

  /** The `a` and `d` keys keep the game running: the piece ends inside the
      field with its mask and row unchanged, and the field and the bag stay. */
  lemma SlideKeepsPlaying(s: Game, key: string, refill: seq<Kind>)
    requires Inv(s) && s.status == Playing && IsShuffle(refill) && (key == "a" || key == "d")
    ensures Keyed(s, key, refill).status == Playing
    ensures Keyed(s, key, refill).grid == s.grid && Keyed(s, key, refill).bag == s.bag
    ensures Keyed(s, key, refill).piece.blocks == s.piece.blocks
    ensures Keyed(s, key, refill).piece.x == s.piece.x
    ensures Inv(Keyed(s, key, refill))
  {
    var p := Acted(s, key, refill).piece;
    assert Acted(s, key, refill) == s.(piece := p);
    assert InGrid(p) by {
      if key == "a" {
        var l := MovedLeft(s.piece);
        if Overlaps(s.grid, l) && s.piece.y == 0 {
          NudgedRightInGrid(s.piece);
        } else if !Overlaps(s.grid, l) {
          FitsInGrid(s.grid, l);
        } else {
          LeftUndone(s, refill);
        }
      } else {
        var r := MovedRight(s.piece);
        if !Overlaps(s.grid, r) {
          FitsInGrid(s.grid, r);
        } else {
          RightUndone(s, refill);
        }
      }
    }
  }

  /** Only a rotation can make the redraw fail; `a`, `d` and `s` keep the
      piece inside the field, and any other key changes nothing. */
  lemma OnlyRotateCrashes(s: Game, key: string, refill: seq<Kind>)
    requires Inv(s) && s.status == Playing && IsShuffle(refill)
    ensures Keyed(s, key, refill).status == Crashed ==> key == "w"
    ensures key != "a" && key != "d" && key != "w" && key != "s" ==> Keyed(s, key, refill) == s
    ensures key == "s" ==> Keyed(s, key, refill) == Lowered(s, refill)
  {
    if key == "a" || key == "d" {
      SlideKeepsPlaying(s, key, refill);
    } else if key == "s" {
      LoweredFits(s, refill);
    }
  }

  /** Every key keeps the invariant. */
  lemma KeyedInv(s: Game, key: string, refill: seq<Kind>)
    requires Inv(s) && s.status == Playing && IsShuffle(refill)
    ensures Inv(Keyed(s, key, refill))
  {
    if key == "a" || key == "d" {
      SlideKeepsPlaying(s, key, refill);
    } else if key == "w" {
      RotateKey(s, refill);
    } else if key == "s" {
      OnlyRotateCrashes(s, key, refill);
      LoweredInv(s, refill);
    }
  }

  /** A horizontal I piece on row 17 of an empty field: rotating it would
      need rows 17 to 20, so the redraw after `w` fails. */
  lemma RotateCanCrash()
    ensures Inv(Game(EmptyGrid(), [], Piece(I0, 17, 0), Playing))
    ensures Keyed(Game(EmptyGrid(), [], Piece(I0, 17, 0), Playing), "w", Kinds).status == Crashed
  {
    EmptyGridNoFull();
    ITurn0();
    assert I1[3][0];
  }
}
