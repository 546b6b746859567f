# Tetris core: pieces, field, line clear and keys

This project models the game core of a small Tetris written in Rust for the
browser (`src/main.rs`), together with proofs about it. The core consists of:

- the falling piece `Tetronimo`: a 4x4 boolean mask and a board position,
  with `new`, `rotate`, `normalise`, the four moves and `draw`;
- `generate_batch`, which builds the seven pieces from upside-down shapes;
- `game_board`: a 20x10 field, a bag of pieces and the falling piece, with
  `new`, `block`, `is_overlapping`, `lower` and the overlay part of `draw`;
- the key handler of `start_app`, where `a`, `d`, `w` and `s` move, rotate
  or lower the piece, and the redraw that follows each key.

The project has three layers:

- **Values.** `Masks`, `Shapes` and `Grids` give the geometry as functions on
  values: normalising, quarter turns, the text a mask draws as, collision,
  committing a piece and the line clear.
- **State machine.** `Games` gives the rules, on one value
  `Game(grid, bag, piece, status)`.
- **Classes.** `Tetronimos.Tetronimo` and `Boards.GameBoard` follow the
  source's mutable structs. The mask and the field are arrays changed in
  place by loops. Every method is proved against the value layer: for
  example, `GameBoard.Lower` ensures `State() == Lowered(old(State()), refill)`.
  The properties are then proved once, about the values.

The properties proved include:

- `rotate` keeps four cells and a normalised shape. Four rotations give the
  shape back.
- `normalise` is a shift to the top-left corner, and it is idempotent.
- `test_rotate` passes: the seven pieces drawn through their four
  orientations give exactly the expected text.
- The line clear leaves no full row.
- `lower` either moves the piece down, or commits it, clears lines and pops
  the next piece. The game is over exactly when that piece overlaps.
- Every key keeps the invariant of reachable states. The invariant is: a
  normalised four-cell piece, inside the field while the game runs, a bag
  that is part of one batch, and no full row.
- Only `w` can make the redraw index outside the field, and it can.

Two places where the program does not do what it evidently means are
modelled as written:

- **Line clear.** For a full row `k >= 2`, the copy loop
  `for x2 in (1..k).rev()` writes rows `1..k-1` into rows `2..k`. So row `k-1`
  moves down over the cleared row, row 1 ends up in both rows 1 and 2, and
  row 0 never falls. For `k` equal to 0 or 1, the row is only blanked. This is
  stated in `Grids.ClearRowAsWritten`. The rest of the model uses this
  behaviour. The result is still that no row is full, which is what
  `ClearLinesLeavesNoFull` proves. `Grids.ShiftClear` is the usual clear,
  where every row above falls by one. `Grids.ClearRowVersusShift` proves that
  the two agree for row 0, and differ for every lower row once row 0 of the
  field holds a block.
- **Rotation.** `rotate` is applied on `w` without any look at the field. A
  piece near the bottom or right edge can then stick out of the field, and
  the redraw indexes out of bounds and panics. `Games.RotateCanCrash`
  exhibits such a state, which satisfies the invariant. A rotation can also
  leave the piece overlapping blocks of the field. If such a piece stands at
  column 0, `a` moves it one column to the right: `move_left` does nothing
  there, the piece still overlaps, and the undoing `move_right` runs
  (src/main.rs:532-535). `Games.LeftKeyAtEdge` states this.

A panic of the source is a status of the model:

- `GameOver` is the `panic!` at src/main.rs:464-466.
- `Crashed` is the out-of-bounds index in `draw` right after a key
  (src/main.rs:387 and 556).

Nothing runs after a panic, so every step is stated from a `Playing` state.

## Model

| member | source | states |
|---|---|---|
| Masks.ShiftUp | src/main.rs:65-70 | one pass of the row loop of `normalise`: the bottom row becomes empty, and no cell is lost when row 0 was empty |
| Masks.ShiftRowLeft | src/main.rs:75-78 | one row of the column shift: every cell takes the one to its right and the last becomes empty |
| Masks.ShiftLeft | src/main.rs:73-80 | one pass of the column loop: no cell is lost when column 0 was empty |
| Masks.TopRow | src/main.rs:65 | the index of the first occupied row, with every row above it empty (4 for an empty mask) |
| Masks.LeftColumn | src/main.rs:73 | the index of the first occupied column, with every column left of it empty |
| Masks.EmptyIffNoTopRow | src/main.rs:65-70 | the row loop has an occupied row to stop at exactly when the mask is not empty |
| Masks.NormaliseRows | src/main.rs:65-70 | the row loop ends with row 0 occupied and the same number of cells (it terminates on a non-empty mask) |
| Masks.NormaliseColumns | src/main.rs:73-80 | the column loop ends with column 0 occupied, the same number of cells, and an occupied row 0 kept occupied |
| Masks.Normalise | src/main.rs:61-81 | `normalise` leaves the shape touching row 0 and column 0, with its cell count kept |
| Masks.NormaliseIsShift | src/main.rs:61-81 | `normalise` moves the shape up by its first occupied row and left by its first occupied column |
| Masks.NormaliseFixesNormalised | src/main.rs:61-81 | a shape already in the corner is left unchanged |
| Masks.NormaliseIdempotent | src/main.rs:61-81 | normalising twice is normalising once |
| Masks.NormaliseIgnoresShift | src/main.rs:61-81 | moving a shape towards the corner without losing cells does not change where `normalise` puts it |
| Masks.Turn | src/main.rs:50-56 | the quarter turn keeps the number of cells |
| Masks.TurnCell | src/main.rs:53 | cell `(r, c)` of the turn is cell `(3 - c, r)` of the mask |
| Masks.TurnByCells | src/main.rs:50-56 | a mask whose every cell `(r, c)` is cell `(3 - c, r)` of another is that mask's turn |
| Masks.TurnFourTimes | src/main.rs:50-56 | four quarter turns are the identity |
| Masks.TurnThenNormalise | src/main.rs:49-59 | turning then normalising does not depend on where the shape stood in the frame |
| Masks.Rotate | src/main.rs:49-59 | `rotate` gives a normalised shape with the same number of cells |
| Masks.RotateFourTimes | src/main.rs:49-59 | four rotations of a normalised shape give it back |
| Masks.CellsText | src/main.rs:33-39 | the inner loop of `draw` appends two characters per cell |
| Masks.RowsText | src/main.rs:32-44 | the outer loop of `draw` appends eight characters per row |
| Masks.CellsThenNewline | src/main.rs:40-43 | dropping the last space and adding a newline gives the row's line |
| Masks.RowsThenBlank | src/main.rs:44-46 | the four lines and a blank line are the whole drawing |
| Masks.RenderAt | src/main.rs:30-47 | reading the drawing back: `x` or `-` at column `2j` of line `i`, the separators, and the final blank line |
| Masks.RowEmpty | src/main.rs:65 | the condition of the row loop of `normalise`: none of the four cells of the row is occupied |
| Masks.ColumnZeroEmpty | src/main.rs:73 | the condition of the column loop of `normalise`: none of the four rows has column 0 occupied |
| Masks.CellText | src/main.rs:34-38 | the text the inner loop of `draw` appends for one cell: `x ` when occupied, `- ` when empty |
| Masks.Glyph | src/main.rs:34-38 | the character of a cell: `x` when occupied, `-` when empty |
| Masks.RowText | src/main.rs:32-43 | one line of the drawing: the four glyphs separated by spaces, then a newline |
| Masks.Render | src/main.rs:30-47 | the whole drawing: the four lines, then a blank line |
| Masks.RenderInjective | src/main.rs:30-47 | different masks draw as different text |
| Shapes.TSource | src/main.rs:109-113 | the T shape as pushed, upside down in the bottom-left corner |
| Shapes.JSource | src/main.rs:119-123 | the J shape as pushed |
| Shapes.LSource | src/main.rs:129-133 | the L shape as pushed |
| Shapes.OSource | src/main.rs:138-142 | the O shape as pushed |
| Shapes.SSource | src/main.rs:148-152 | the S shape as pushed |
| Shapes.ZSource | src/main.rs:158-162 | the Z shape as pushed |
| Shapes.ISource | src/main.rs:167-171 | the I shape as pushed |
| Shapes.Spawned | src/main.rs:15-28 | the mask `new` makes is normalised and keeps its cells |
| Shapes.TSpawn | src/main.rs:105-113 | `new` turns the T shape into the T0 orientation |
| Shapes.JSpawn | src/main.rs:116-123 | `new` turns the J shape into J0 |
| Shapes.LSpawn | src/main.rs:126-133 | `new` turns the L shape into L0 |
| Shapes.OSpawn | src/main.rs:135-142 | `new` turns the O shape into O0 |
| Shapes.SSpawn | src/main.rs:145-152 | `new` turns the S shape into S0 |
| Shapes.ZSpawn | src/main.rs:155-162 | `new` turns the Z shape into Z0 |
| Shapes.ISpawn | src/main.rs:165-171 | `new` turns the I shape into I0 |
| Shapes.TTurn0 | src/main.rs:193-202 | rotating T0 gives T1 |
| Shapes.TTurn1 | src/main.rs:198-207 | rotating T1 gives T2 |
| Shapes.TTurn2 | src/main.rs:203-212 | rotating T2 gives T3 |
| Shapes.TTurn3 | src/main.rs:49-59 | rotating T3 gives T0 |
| Shapes.JTurn0 | src/main.rs:214-223 | rotating J0 gives J1 |
| Shapes.JTurn1 | src/main.rs:219-228 | rotating J1 gives J2 |
| Shapes.JTurn2 | src/main.rs:224-233 | rotating J2 gives J3 |
| Shapes.JTurn3 | src/main.rs:49-59 | rotating J3 gives J0 |
| Shapes.LTurn0 | src/main.rs:235-244 | rotating L0 gives L1 |
| Shapes.LTurn1 | src/main.rs:240-249 | rotating L1 gives L2 |
| Shapes.LTurn2 | src/main.rs:245-254 | rotating L2 gives L3 |
| Shapes.LTurn3 | src/main.rs:49-59 | rotating L3 gives L0 |
| Shapes.OTurn0 | src/main.rs:256-265 | rotating O0 gives O0 |
| Shapes.STurn0 | src/main.rs:277-286 | rotating S0 gives S1 |
| Shapes.STurn1 | src/main.rs:282-291 | rotating S1 gives S0 |
| Shapes.ZTurn0 | src/main.rs:298-307 | rotating Z0 gives Z1 |
| Shapes.ZTurn1 | src/main.rs:303-312 | rotating Z1 gives Z0 |
| Shapes.ITurn0 | src/main.rs:319-328 | rotating the horizontal I0 gives the vertical I1 |
| Shapes.ITurn1 | src/main.rs:324-333 | rotating I1 gives I0 |
| Tetronimos.NewPiece | src/main.rs:15-28 | the piece `new` returns: the mask normalised and rotated twice, at (0, 0) |
| Tetronimos.Source | src/main.rs:103-175 | the shape `generate_batch` passes to `new` for each kind |
| Tetronimos.Spawn | src/main.rs:15-28 | each piece starts at (0, 0), normalised, with four cells |
| Tetronimos.SpawnIsNew | src/main.rs:103-175 | the written-out piece of each kind is `Tetronimo::new` of its shape in `generate_batch` |
| Tetronimos.Batch | src/main.rs:103-175 | `generate_batch` gives seven pieces, the k-th being `Tetronimo::new` of the k-th shape pushed (T, J, L, O, S, Z, I), none of which is empty |
| Tetronimos.KindsAreNew | src/main.rs:103-175 | for each of the seven shapes pushed, in push order, the shape is not empty and the written-out spawned piece of its kind is what `Tetronimo::new` makes of it |
| Tetronimos.BatchHolds | src/main.rs:103-175 | the k-th piece of the batch is the spawned piece of the k-th kind (helper for `RotateTest.BatchOrder`) |
| Tetronimos.MovedLeft | src/main.rs:83-87 | `move_left`: one column left unless at column 0 |
| Tetronimos.MovedRight | src/main.rs:89-91 | `move_right`: one column right |
| Tetronimos.MovedDown | src/main.rs:93-95 | `move_down`: one row down |
| Tetronimos.MovedUp | src/main.rs:97-99 | `move_up`: one row up, from a row above 0 |
| Tetronimos.Rotated | src/main.rs:49-59 | `rotate`: the mask rotated, the position kept |
| Tetronimos.MovesKeepShape | src/main.rs:83-99 | each move changes only the position, by one row or column, except that `move_left` at column 0 leaves the piece as it is; left undoes right and up undoes down |
| Tetronimos.RotatedShape | src/main.rs:49-59 | rotating a piece keeps its position and four cells, and four rotations give it back |
| Tetronimos.Tetronimo.constructor | src/main.rs:15-28 | `new` leaves the piece at (0, 0) with the mask normalised and rotated twice |
| Tetronimos.Tetronimo.Of | src/main.rs:357-361 | a piece object holding a given piece value, as the board receives a popped piece |
| Tetronimos.Tetronimo.SetRow | src/main.rs:66-69 | one row assignment changes that row only |
| Tetronimos.Tetronimo.ShiftRowsUp | src/main.rs:66-69 | the body of the row loop moves every row up and clears row 3 |
| Tetronimos.Tetronimo.ShiftCellsLeft | src/main.rs:75-78 | the inner column loop shifts one row left and clears its last cell |
| Tetronimos.Tetronimo.ShiftColumnsLeft | src/main.rs:74-79 | the body of the column loop shifts every row left |
| Tetronimos.Tetronimo.Normalise | src/main.rs:61-81 | the in-place loops compute `Masks.Normalise` of the old mask |
| Tetronimos.Tetronimo.TurnBlocks | src/main.rs:50-56 | filling `new_blocks` and copying it back gives the quarter turn |
| Tetronimos.Tetronimo.Rotate | src/main.rs:49-59 | the in-place rotation computes `Masks.Rotate` and keeps the position |
| Tetronimos.Tetronimo.DrawRow | src/main.rs:33-43 | one row appends its line, trailing space dropped, newline added |
| Tetronimos.Tetronimo.Draw | src/main.rs:30-47 | `draw` appends exactly `Render` of the mask |
| Tetronimos.Tetronimo.MoveLeft | src/main.rs:83-87 | one column left, unless already at column 0 |
| Tetronimos.Tetronimo.MoveRight | src/main.rs:89-91 | one column right |
| Tetronimos.Tetronimo.MoveDown | src/main.rs:93-95 | one row down |
| Tetronimos.Tetronimo.MoveUp | src/main.rs:97-99 | one row up, from a row above 0 |
| Tetronimos.Tetronimo.Assign | src/main.rs:462 | the falling piece becomes the popped piece |
| Grids.EmptyGrid | src/main.rs:359 | the starting field holds no block |
| Grids.Solid | src/main.rs:366-376 | `block`: a cell below or right of the field, or a block of the field |
| Grids.Overlaps | src/main.rs:412-421 | `is_overlapping`: some occupied cell of the mask lies on a solid cell |
| Grids.InGrid | src/main.rs:384-389 | every occupied cell of the piece lies inside the field, so the loops that index the field at those cells stay in range |
| Grids.FitIff | src/main.rs:366-376 | a piece does not overlap exactly when each occupied cell lies inside the field on an empty cell |
| Grids.FitsInGrid | src/main.rs:412-421 | a piece that does not overlap lies inside the field |
| Grids.Commit | src/main.rs:428-434 | the field with the piece's occupied cells set, also the overlay of `draw` (src/main.rs:384-390) |
| Grids.FullRow | src/main.rs:437-444 | row `x` has no empty cell |
| Grids.CopyDown | src/main.rs:448-452 | the copy loop from `x2 == hi` down to 1, each pass copying row `x2` into row `x2 + 1` |
| Grids.ClearRow | src/main.rs:445-453 | clearing full row `k` as written: the row blanked, then the copy loop from `k - 1` |
| Grids.ClearFrom | src/main.rs:436-454 | the line-clear loop from row `x` on, top to bottom, clearing each row found full |
| Grids.ClearLines | src/main.rs:436-454 | the whole line-clear pass |
| Grids.CommitCells | src/main.rs:428-434 | committing keeps every block, sets every cell under the piece, and sets nothing else |
| Grids.CopyDownRow | src/main.rs:448-452 | the copy loop from `hi` moves rows `1..hi` down by one and leaves the others |
| Grids.ClearRowAsWritten | src/main.rs:445-453 | clearing full row `k` as written: rows below stay; for `k >= 2`, rows `2..k` take rows `1..k-1` and rows 0 and 1 stay; for `k < 2`, only row `k` is blanked |
| Grids.ShiftClear | src/main.rs:445-453 | the usual clear for comparison: row 0 empty, rows `1..k` the old rows `0..k-1`, the rows below kept |
| Grids.ClearRowVersusShift | src/main.rs:445-453 | the clear as written equals the usual clear for row 0, and differs for every row `k >= 1` once row 0 holds a block |
| Grids.ClearRowKeepsNoFull | src/main.rs:444-453 | clearing row `k` creates no full row at or above `k` when none above was full |
| Grids.ClearFromLeavesNoFull | src/main.rs:436-454 | the scan from row `x` on leaves no full row when none above `x` is full |
| Grids.ClearLinesLeavesNoFull | src/main.rs:436-454 | after the line clear no row is full |
| Grids.ClearFromNoFull | src/main.rs:436-454 | with no full row from `x` on, the rest of the scan changes nothing |
| Grids.ClearLinesNoFull | src/main.rs:436-454 | a field with no full row is left as it is |
| Grids.ClearLinesSingle | src/main.rs:436-454 | with exactly one full row, the pass is one row clear |
| Grids.ClearFromNoFullUntil | src/main.rs:436-454 | rows that are not full are passed over |
| Games.IsShuffle | src/main.rs:355-356 | `generate_batch` then `shuffle`: an arrangement of the seven kinds |
| Games.Inv | src/main.rs:345-350 | the reachable states of `game_board`: a normalised four-cell piece, inside the field while the game runs, a bag that is part of one batch, no full row |
| Games.ShuffleLength | src/main.rs:355-356 | a shuffled batch has seven pieces |
| Games.Start | src/main.rs:354-363 | `new`: empty field, the last shuffled piece falling at (0, 0), the other six in the bag, a running game satisfying the invariant |
| Games.Next | src/main.rs:456-461 | the pop takes the bag's last kind, or, from an empty bag, the last of a fresh shuffle whose other six become the bag |
| Games.NextTakesOne | src/main.rs:456-461 | the popped kind and the new bag make up the old bag, or one whole batch |
| Games.NextIsPop | src/main.rs:456-461 | popping the bag, or the refill when the bag is empty, is `Next` |
| Games.Landed | src/main.rs:426-466 | the landing branch of `lower`: commit, line clear, pop, and game over when the new piece overlaps |
| Games.Lowered | src/main.rs:423-467 | `lower`: one row down when that is free, otherwise the landing branch |
| Games.Redrawn | src/main.rs:556 | the redraw after a key: the game crashes when the piece is not inside the field (the index at src/main.rs:387) |
| Games.Acted | src/main.rs:529-555 | the key's action: `a` and `d` move and undo on overlap, `w` rotates without a check, `s` lowers, any other key does nothing |
| Games.Keyed | src/main.rs:529-556 | the key's action, then the redraw |
| Games.EmptyGridNoFull | src/main.rs:359 | the starting field has no full row |
| Games.LowerFalls | src/main.rs:423-425 | with the row below free, `lower` only moves the piece down one row |
| Games.LowerLands | src/main.rs:425-466 | otherwise: the commit keeps and adds exactly the piece's cells, the line clear leaves no full row, the next piece is popped, and the game is over exactly when it overlaps |
| Games.LoweredFits | src/main.rs:509-510 | after `lower` a running game's piece does not overlap and lies in the field, so the timer's redraw never fails |
| Games.LoweredInv | src/main.rs:423-467 | `lower` keeps the invariant |
| Games.NudgedRightInGrid | src/main.rs:530-535 | at column 0, the move back right of an overlapping `a` keeps the piece in the field |
| Games.LeftUndone | src/main.rs:532-535 | `a` on a piece off column 0 whose left neighbour overlaps: the undoing `move_right` restores the state exactly |
| Games.RightUndone | src/main.rs:539-542 | `d` on a piece whose right neighbour overlaps: the undoing `move_left` restores the state exactly |
| Games.LeftKey | src/main.rs:530-536 | `a`: one column left if that is free, else the piece stays; nothing else changes and a fitting piece keeps fitting |
| Games.LeftKeyAtEdge | src/main.rs:532-535 | at column 0 a piece that overlaps the field is moved one column right by `a`, and nothing else changes |
| Games.RightKey | src/main.rs:537-543 | `d`: one column right if free, else the piece stays; nothing else changes and a fitting piece keeps fitting |
| Games.RotateKey | src/main.rs:544-547 | `w`: the piece rotates where it stands, the redraw fails exactly when the result leaves the field, and the invariant is kept |
| Games.SlideKeepsPlaying | src/main.rs:530-543 | `a` and `d` keep the game running and the invariant: the field, the bag, the mask and the row stay |
| Games.OnlyRotateCrashes | src/main.rs:529-556 | only `w` can crash the redraw; `s` is `lower`; any other key changes nothing |
| Games.KeyedInv | src/main.rs:529-556 | every key keeps the invariant |
| Games.RotateCanCrash | src/main.rs:544-547 | a horizontal I piece on row 17 of an empty field crashes the redraw after `w` |
| Boards.GridOf | src/main.rs:346 | the field array as a value |
| Boards.Place | src/main.rs:428-434 | writing the piece's cells into a field array succeeds exactly when the piece is inside, and then gives `Commit` |
| Boards.PlaceRow | src/main.rs:428-434 | one pass of the commit loop: the cells of one mask row are written, or the first one outside the field stops it |
| Boards.PlacedIsCommit | src/main.rs:428-434 | a field array holding the old blocks and exactly the cells under the piece is `Commit` |
| Boards.GameBoard.Field | src/main.rs:346 | the board's field `blocks` as a value |
| Boards.GameBoard.constructor | src/main.rs:354-363 | `game_board::new` is `Start` of the shuffle and satisfies the invariant |
| Boards.GameBoard.Block | src/main.rs:366-376 | `block` is true exactly off the bottom or right edge, or on a block |
| Boards.GameBoard.IsOverlapping | src/main.rs:412-421 | `is_overlapping` with its early return is `Overlaps` |
| Boards.GameBoard.IsFullRow | src/main.rs:437-444 | the row scan with `break` is `FullRow` |
| Boards.GameBoard.ClearRowCells | src/main.rs:445-447 | blanking row `x` changes that row only |
| Boards.GameBoard.CopyRow | src/main.rs:449-451 | row `from` is copied into the row below, and nothing else changes |
| Boards.GameBoard.ClearFullLines | src/main.rs:436-454 | the in-place line clear computes `ClearLines` |
| Boards.GameBoard.Pop | src/main.rs:456 | `pop` of the bag: `None` on an empty bag, otherwise its last kind, removed |
| Boards.GameBoard.CommitAndClear | src/main.rs:427-454 | the field becomes `ClearLines(Commit(field, piece))` |
| Boards.GameBoard.PopNext | src/main.rs:456-462 | the falling piece and bag become `Next` of the bag and the refill |
| Boards.GameBoard.Respawn | src/main.rs:456-466 | the next piece is popped, and the status becomes `GameOver` exactly when it overlaps the field |
| Boards.GameBoard.Land | src/main.rs:426-466 | the landing branch is `Landed` |
| Boards.GameBoard.Lower | src/main.rs:423-467 | `lower` is `Lowered` and keeps the invariant |
| Boards.GameBoard.Overlay | src/main.rs:380-390 | the overlay of `draw` is the field with the piece committed, or `None` where the source indexes outside the field |
| Boards.GameBoard.Slide | src/main.rs:530-543 | `a` and `d`: a move, undone by the opposite move when the piece then overlaps; the field, the bag and the status stay |
| Boards.GameBoard.TurnKey | src/main.rs:544-547 | `w` rotates the piece and changes nothing else |
| Boards.GameBoard.Act | src/main.rs:529-555 | the key's action is `Acted` |
| Boards.GameBoard.Redraw | src/main.rs:556 | the redraw after a key is `Redrawn`: the game crashes exactly when the piece is not inside the field |
| Boards.GameBoard.Key | src/main.rs:529-556 | the key and the redraw are `Keyed` and keep the invariant |
| RotateTest.Drawings | src/main.rs:185-188 | what `n` rounds of the inner loop append: the drawing, then those after the rotation |
| RotateTest.Orientations | src/main.rs:184-190 | what the outer loop appends for one piece: four drawings and the separator |
| RotateTest.Expected | src/main.rs:192-340 | the text the test expects, grouped one piece at a time |
| RotateTest.BatchOrder | src/main.rs:103-175 | the pieces of the batch, in push order, have the masks T0, J0, L0, O0, S0, Z0 and I0 |
| RotateTest.OrientationsT | src/main.rs:193-213 | the T piece drawn and rotated four times, then the separator, gives the expected text |
| RotateTest.OrientationsJ | src/main.rs:214-234 | the same for J |
| RotateTest.OrientationsL | src/main.rs:235-255 | the same for L |
| RotateTest.OrientationsO | src/main.rs:256-276 | the same for O |
| RotateTest.OrientationsS | src/main.rs:277-297 | the same for S |
| RotateTest.OrientationsZ | src/main.rs:298-318 | the same for Z |
| RotateTest.OrientationsI | src/main.rs:319-339 | the same for I |
| RotateTest.TestRotate | src/main.rs:179-343 | `test_rotate` passes: the seven masks of `BatchOrder`, drawn and rotated in that order, give exactly the expected string |

## Left out

- Randomness: `shuffle(&mut thread_rng())` is not modelled. The order it
  produces is a parameter: `shuffled` for `game_board::new`, and `refill` for
  the refill in `lower`. Whatever order is given must be an arrangement of the
  seven kinds.
- Batch pieces: the bag holds the kind of each piece, not a `Tetronimo`.
  A piece in the bag is never changed before it is popped, and `SpawnIsNew`
  proves that the piece of each kind is what `new` makes of its shape.
- The browser: `start_app` is not modelled (the Leptos signals, the WASM
  bindings, the 300 ms interval and its scheduling, the event listener, the
  `RefCell` borrowing, and the logging). The timer's step is `lower`
  followed by a redraw. `Games.LoweredFits` shows that this redraw never
  indexes outside the field.
- HTML: the HTML text of `game_board::draw` (src/main.rs:382-409) is not
  modelled. Only the overlay it prints is modelled, as `GameBoard.Overlay`.
- Panics: a panic is a status (`GameOver`, `Crashed`), not an abort. Only
  `Playing` states take further steps.
- `Tetronimo::new` and `normalise` on an empty mask: the source loops forever.
  The model requires a non-empty mask; every shape the program builds has four
  cells.
- `Tetronimo.MoveUp`: the `usize` underflow at row 0 is not modelled. The only
  caller moves up right after a move down.
- `block`: the source's tests `x < 0 || y < 0` cannot hold for `usize` and
  have no counterpart.
- `test_rotate` is modelled on the mask values, not on `Tetronimo` objects. It
  uses `Render`, which `Tetronimo.Draw` is proved to append.
- RotateTest.TestRotate: the statement names the seven masks T0 to I0, not
  the elements of `Batch()`. `RotateTest.BatchOrder` proves that these are
  the masks of the batch in order; the two are not joined into one lemma,
  because each of the seven masks, turned four times, is then unfolded as a
  literal inside a single proof, which is beyond what the solver can do.
- `fn main` only calls `start_app` and is not modelled.
