/** The 4x4 occupancy mask of a falling piece (src/main.rs, `Tetronimo::blocks`),
    and the pure geometry the piece's methods are proved against: the row and
    column shifts of `normalise`, the quarter turn of `rotate`, and the text
    rendering of `draw`. */
module Masks {

  /** One row of a mask: `[bool; 4]`. */
  type Row = r: seq<bool> | |r| == 4 witness [false, false, false, false]

  /** A mask: `[[bool; 4]; 4]`, indexed `m[row][column]`. */
  type Mask = m: seq<Row> | |m| == 4
    witness [[false, false, false, false], [false, false, false, false],
             [false, false, false, false], [false, false, false, false]]

  const EmptyRow: Row := [false, false, false, false]

  /** The condition of the row loop of `normalise`: row `r` has no occupied cell. */
  predicate RowEmpty(r: Row) {
    !r[0] && !r[1] && !r[2] && !r[3]
  }

  /** The condition of the column loop of `normalise`: column 0 has no occupied cell. */
  predicate ColumnZeroEmpty(m: Mask) {
    !m[0][0] && !m[1][0] && !m[2][0] && !m[3][0]
  }

  /** No cell of the mask is occupied. */
  predicate IsEmpty(m: Mask) {
    RowEmpty(m[0]) && RowEmpty(m[1]) && RowEmpty(m[2]) && RowEmpty(m[3])
  }

  /** Row 0 and column 0 each hold an occupied cell: the shape touches the top-left corner. */
  predicate Normalised(m: Mask) {
    !RowEmpty(m[0]) && !ColumnZeroEmpty(m)
  }

  function Bit(b: bool): nat {
    if b then 1 else 0
  }

  function RowCount(r: Row): nat {
    Bit(r[0]) + Bit(r[1]) + Bit(r[2]) + Bit(r[3])
  }

  /** Number of occupied cells. */
  function Count(m: Mask): nat {
    RowCount(m[0]) + RowCount(m[1]) + RowCount(m[2]) + RowCount(m[3])
  }

  lemma CountZeroIffEmpty(m: Mask)
    ensures Count(m) == 0 <==> IsEmpty(m)
  {
  }

  /** One iteration of the row loop of `normalise`: every row moves up by one
      and the bottom row becomes empty. */
  function ShiftUp(m: Mask): (r: Mask)
    ensures RowEmpty(m[0]) ==> Count(r) == Count(m)
    ensures RowEmpty(r[3])
  {
    [m[1], m[2], m[3], EmptyRow]
  }

  function ShiftRowLeft(r: Row): (s: Row)
    ensures !r[0] ==> RowCount(s) == RowCount(r)
    ensures !s[3]
  {
    [r[1], r[2], r[3], false]
  }

  /** One iteration of the column loop of `normalise`: every column moves left
      by one and column 3 becomes empty. */
  function ShiftLeft(m: Mask): (r: Mask)
    ensures ColumnZeroEmpty(m) ==> Count(r) == Count(m)
  {
    [ShiftRowLeft(m[0]), ShiftRowLeft(m[1]), ShiftRowLeft(m[2]), ShiftRowLeft(m[3])]
  }

  /** Index of the first row that holds an occupied cell (4 when there is none). */
  function TopRow(m: Mask): (t: nat)
    ensures t <= 4
    ensures t < 4 ==> !RowEmpty(m[t])
    ensures forall i | 0 <= i < t :: RowEmpty(m[i])
  {
    if !RowEmpty(m[0]) then 0
    else if !RowEmpty(m[1]) then 1
    else if !RowEmpty(m[2]) then 2
    else if !RowEmpty(m[3]) then 3
    else 4
  }

  predicate ColumnEmpty(m: Mask, c: nat)
    requires c < 4
  {
    !m[0][c] && !m[1][c] && !m[2][c] && !m[3][c]
  }

  /** Index of the first column that holds an occupied cell (4 when there is none). */
  function LeftColumn(m: Mask): (l: nat)
    ensures l <= 4
    ensures l < 4 ==> !ColumnEmpty(m, l)
    ensures forall c | 0 <= c < l :: ColumnEmpty(m, c)
  {
    if !ColumnEmpty(m, 0) then 0
    else if !ColumnEmpty(m, 1) then 1
    else if !ColumnEmpty(m, 2) then 2
    else if !ColumnEmpty(m, 3) then 3
    else 4
  }

  lemma EmptyIffNoTopRow(m: Mask)
    ensures IsEmpty(m) <==> TopRow(m) == 4
  {
  }

  /** The row loop of `normalise` (src/main.rs:65-70). On an empty mask the
      source loops forever, so the mask must hold an occupied cell. */
  function NormaliseRows(m: Mask): (r: Mask)
    requires !IsEmpty(m)
    ensures !RowEmpty(r[0]) && Count(r) == Count(m)
    decreases TopRow(m)
  {
    EmptyIffNoTopRow(m);
    if RowEmpty(m[0]) then
      var s := ShiftUp(m);
      assert TopRow(s) == TopRow(m) - 1;
      CountZeroIffEmpty(m);
      CountZeroIffEmpty(s);
      NormaliseRows(s)
    else
      m
  }

  /** The column loop of `normalise` (src/main.rs:73-80). */
  function NormaliseColumns(m: Mask): (r: Mask)
    requires !IsEmpty(m)
    ensures !ColumnZeroEmpty(r) && Count(r) == Count(m)
    ensures !RowEmpty(m[0]) ==> !RowEmpty(r[0])
    decreases LeftColumn(m)
  {
    if ColumnZeroEmpty(m) then
      var s := ShiftLeft(m);
      assert LeftColumn(m) < 4;
      assert LeftColumn(s) == LeftColumn(m) - 1;
      CountZeroIffEmpty(m);
      CountZeroIffEmpty(s);
      NormaliseColumns(s)
    else
      m
  }

  /** `normalise` (src/main.rs:61-81): shift the shape to the top-left corner. */
  function Normalise(m: Mask): (r: Mask)
    requires !IsEmpty(m)
    ensures Normalised(r) && Count(r) == Count(m)
  {
    var rows := NormaliseRows(m);
    CountZeroIffEmpty(m);
    CountZeroIffEmpty(rows);
    NormaliseColumns(rows)
  }

  /** The quarter turn of `rotate` (src/main.rs:50-56): `new[r][c] = old[3 - c][r]`. */
  function Turn(m: Mask): (r: Mask)
    ensures Count(r) == Count(m)
  {
    [[m[3][0], m[2][0], m[1][0], m[0][0]],
     [m[3][1], m[2][1], m[1][1], m[0][1]],
     [m[3][2], m[2][2], m[1][2], m[0][2]],
     [m[3][3], m[2][3], m[1][3], m[0][3]]]
  }

  /** `rotate` (src/main.rs:49-59): a clockwise quarter turn, then `normalise`. */
  function Rotate(m: Mask): (r: Mask)
    requires !IsEmpty(m)
    ensures Normalised(r) && Count(r) == Count(m)
  {
    CountZeroIffEmpty(m);
    CountZeroIffEmpty(Turn(m));
    Normalise(Turn(m))
  }

  /** Cell `(i, j)` of the mask, with every cell outside the 4x4 frame empty. */
  function Cell(m: Mask, i: nat, j: nat): bool {
    i < 4 && j < 4 && m[i][j]
  }

  function ShiftedRow(m: Mask, i: nat, dc: nat): Row {
    [Cell(m, i, dc), Cell(m, i, dc + 1), Cell(m, i, dc + 2), Cell(m, i, dc + 3)]
  }

  /** The mask moved up by `dr` rows and left by `dc` columns; cells pushed past
      the top or left edge are dropped and the vacated cells are empty. */
  function Shifted(m: Mask, dr: nat, dc: nat): Mask {
    [ShiftedRow(m, dr, dc), ShiftedRow(m, dr + 1, dc), ShiftedRow(m, dr + 2, dc), ShiftedRow(m, dr + 3, dc)]
  }

  lemma ShiftedCell(m: Mask, dr: nat, dc: nat, i: nat, j: nat)
    ensures Cell(Shifted(m, dr, dc), i, j) == (i < 4 && j < 4 && Cell(m, i + dr, j + dc))
  {
    if i < 4 && j < 4 {
      var r := ShiftedRow(m, i + dr, dc);
      assert Shifted(m, dr, dc)[i] == r by {
        assert i == 0 || i == 1 || i == 2 || i == 3;
      }
      assert r[j] == Cell(m, i + dr, j + dc) by {
        assert j == 0 || j == 1 || j == 2 || j == 3;
      }
    }
  }

  /** Masks with the same rows are equal. */
  lemma RowsExt(a: Mask, b: Mask)
    requires forall i | 0 <= i < 4 :: a[i] == b[i]
    ensures a == b
  {
  }

  /** Masks with the same cells are equal. */
  lemma MaskExt(a: Mask, b: Mask)
    requires forall i: nat, j: nat :: Cell(a, i, j) == Cell(b, i, j)
    ensures a == b
  {
    forall i | 0 <= i < 4 ensures a[i] == b[i] {
      assert Cell(a, i, 0) == Cell(b, i, 0) && Cell(a, i, 1) == Cell(b, i, 1);
      assert Cell(a, i, 2) == Cell(b, i, 2) && Cell(a, i, 3) == Cell(b, i, 3);
    }
  }

  lemma ShiftedZero(m: Mask)
    ensures Shifted(m, 0, 0) == m
  {
    assert ShiftedRow(m, 0, 0) == m[0];
    assert ShiftedRow(m, 1, 0) == m[1];
    assert ShiftedRow(m, 2, 0) == m[2];
    assert ShiftedRow(m, 3, 0) == m[3];
    assert m == [m[0], m[1], m[2], m[3]];
  }

  lemma ShiftedOfShifted(m: Mask, a: nat, b: nat, c: nat, d: nat)
    ensures Shifted(Shifted(m, a, b), c, d) == Shifted(m, a + c, b + d)
  {
    forall i: nat, j: nat
      ensures Cell(Shifted(Shifted(m, a, b), c, d), i, j) == Cell(Shifted(m, a + c, b + d), i, j)
    {
      ShiftedCell(Shifted(m, a, b), c, d, i, j);
      ShiftedCell(m, a, b, i + c, j + d);
      ShiftedCell(m, a + c, b + d, i, j);
    }
    MaskExt(Shifted(Shifted(m, a, b), c, d), Shifted(m, a + c, b + d));
  }

  lemma {:induction false} NormaliseRowsIsShift(m: Mask)
    requires !IsEmpty(m)
    ensures NormaliseRows(m) == Shifted(m, TopRow(m), 0)
    decreases TopRow(m)
  {
    EmptyIffNoTopRow(m);
    if RowEmpty(m[0]) {
      var s := ShiftUp(m);
      assert TopRow(s) == TopRow(m) - 1;
      CountZeroIffEmpty(m);
      CountZeroIffEmpty(s);
      NormaliseRowsIsShift(s);
      ShiftUpStep(m);
      ShiftedOfShifted(m, 1, 0, TopRow(s), 0);
    } else {
      ShiftedZero(m);
    }
  }

  lemma ShiftUpStep(m: Mask)
    ensures ShiftUp(m) == Shifted(m, 1, 0)
  {
    assert ShiftedRow(m, 1, 0) == m[1] && ShiftedRow(m, 2, 0) == m[2] && ShiftedRow(m, 3, 0) == m[3];
    assert ShiftedRow(m, 4, 0) == EmptyRow;
  }

  lemma ShiftLeftStep(m: Mask)
    requires !IsEmpty(m) && ColumnZeroEmpty(m)
    ensures ShiftLeft(m) == Shifted(m, 0, 1)
    ensures !IsEmpty(ShiftLeft(m)) && LeftColumn(ShiftLeft(m)) == LeftColumn(m) - 1
  {
  }

  lemma {:induction false} NormaliseColumnsIsShift(m: Mask)
    requires !IsEmpty(m)
    ensures NormaliseColumns(m) == Shifted(m, 0, LeftColumn(m))
    decreases LeftColumn(m)
  {
    if ColumnZeroEmpty(m) {
      var s := ShiftLeft(m);
      ShiftLeftStep(m);
      NormaliseColumnsIsShift(s);
      ShiftedOfShifted(m, 0, 1, 0, LeftColumn(s));
    } else {
      assert !ColumnEmpty(m, 0);
      ShiftedZero(m);
    }
  }

  /** Dropping the empty rows above the shape keeps its first occupied column. */
  lemma LeftColumnAfterRows(m: Mask)
    requires !IsEmpty(m)
    ensures LeftColumn(Shifted(m, TopRow(m), 0)) == LeftColumn(m)
  {
    var t := TopRow(m);
    assert t == 0 || t == 1 || t == 2 || t == 3;
  }

  /** `normalise` in closed form: the shape moves up by the index of its first
      occupied row and left by the index of its first occupied column. */
  lemma NormaliseIsShift(m: Mask)
    requires !IsEmpty(m)
    ensures Normalise(m) == Shifted(m, TopRow(m), LeftColumn(m))
  {
    NormaliseRowsIsShift(m);
    var rows := NormaliseRows(m);
    CountZeroIffEmpty(m);
    CountZeroIffEmpty(rows);
    NormaliseColumnsIsShift(rows);
    LeftColumnAfterRows(m);
    ShiftedOfShifted(m, TopRow(m), 0, 0, LeftColumn(m));
  }

  /** Moving a shape up or left without losing any of its cells keeps its first
      occupied row and column in step with the move. */
  lemma ShiftedCorner(a: Mask, dr: nat, dc: nat)
    requires !IsEmpty(a) && dr <= TopRow(a) && dc <= LeftColumn(a)
    ensures !IsEmpty(Shifted(a, dr, dc))
    ensures TopRow(Shifted(a, dr, dc)) == TopRow(a) - dr
    ensures LeftColumn(Shifted(a, dr, dc)) == LeftColumn(a) - dc
  {
    forall i | 0 <= i < 4
      ensures RowEmpty(Shifted(a, dr, dc)[i]) == (i + dr >= 4 || RowEmpty(a[i + dr]))
    {
      ShiftedRowEmpty(a, dr, dc, i);
    }
    forall c | 0 <= c < 4
      ensures ColumnEmpty(Shifted(a, dr, dc), c) == (c + dc >= 4 || ColumnEmpty(a, c + dc))
    {
      ShiftedColumnEmpty(a, dr, dc, c);
    }
  }

  /** Row `i` of a shape moved without losing cells is empty exactly when
      the row it came from is. */
  lemma ShiftedRowEmpty(a: Mask, dr: nat, dc: nat, i: nat)
    requires dc <= LeftColumn(a) && i < 4
    ensures RowEmpty(Shifted(a, dr, dc)[i]) == (i + dr >= 4 || RowEmpty(a[i + dr]))
  {
    var s, k := Shifted(a, dr, dc), i + dr;
    forall j | 0 <= j < 4
      ensures s[i][j] == Cell(a, k, j + dc)
    {
      ShiftedCell(a, dr, dc, i, j);
    }
    if k < 4 {
      forall c | 0 <= c < dc && c < 4
        ensures !a[k][c]
      {
        assert ColumnEmpty(a, c);
        assert k == 0 || k == 1 || k == 2 || k == 3;
      }
      assert dc == 0 || dc == 1 || dc == 2 || dc == 3 || dc == 4;
    }
  }

  /** Column `c` of a shape moved without losing cells is empty exactly when
      the column it came from is. */
  lemma ShiftedColumnEmpty(a: Mask, dr: nat, dc: nat, c: nat)
    requires dr <= TopRow(a) && c < 4
    ensures ColumnEmpty(Shifted(a, dr, dc), c) == (c + dc >= 4 || ColumnEmpty(a, c + dc))
  {
    var s, k := Shifted(a, dr, dc), c + dc;
    forall i | 0 <= i < 4
      ensures s[i][c] == Cell(a, i + dr, k)
    {
      ShiftedCell(a, dr, dc, i, c);
    }
    if k < 4 {
      forall r | 0 <= r < dr && r < 4
        ensures !a[r][k]
      {
        assert RowEmpty(a[r]);
        assert k == 0 || k == 1 || k == 2 || k == 3;
      }
      assert dr == 0 || dr == 1 || dr == 2 || dr == 3 || dr == 4;
    }
  }

  /** A mask equals the display of its sixteen cells. */
  lemma Explode(m: Mask)
    ensures m == [[m[0][0], m[0][1], m[0][2], m[0][3]], [m[1][0], m[1][1], m[1][2], m[1][3]],
                  [m[2][0], m[2][1], m[2][2], m[2][3]], [m[3][0], m[3][1], m[3][2], m[3][3]]]
  {
    assert m[0] == [m[0][0], m[0][1], m[0][2], m[0][3]];
    assert m[1] == [m[1][0], m[1][1], m[1][2], m[1][3]];
    assert m[2] == [m[2][0], m[2][1], m[2][2], m[2][3]];
    assert m[3] == [m[3][0], m[3][1], m[3][2], m[3][3]];
  }

  /** A mask whose cell `(r, c)` is cell `(3 - c, r)` of `m` is the turn of `m`. */
  lemma TurnByCells(m: Mask, t: Mask)
    requires forall r, c | 0 <= r < 4 && 0 <= c < 4 :: t[r][c] == m[3 - c][r]
    ensures t == Turn(m)
  {
    Explode(t);
  }

  /** Four quarter turns are the identity. */
  lemma TurnFourTimes(m: Mask)
    ensures Turn(Turn(Turn(Turn(m)))) == m
  {
    Explode(m);
  }

  /** Moving a shape towards the top-left corner without losing a cell does not
      change where `normalise` puts it. */
  lemma NormaliseIgnoresShift(a: Mask, dr: nat, dc: nat)
    requires !IsEmpty(a) && dr <= TopRow(a) && dc <= LeftColumn(a)
    ensures !IsEmpty(Shifted(a, dr, dc))
    ensures Normalise(Shifted(a, dr, dc)) == Normalise(a)
  {
    var b := Shifted(a, dr, dc);
    ShiftedCorner(a, dr, dc);
    NormaliseIsShift(a);
    NormaliseIsShift(b);
    ShiftedOfShifted(a, dr, dc, TopRow(b), LeftColumn(b));
  }

  /** A normalised mask is left as it is by `normalise`. */
  lemma NormaliseFixesNormalised(m: Mask)
    requires Normalised(m)
    ensures Normalise(m) == m
  {
    NormaliseIsShift(m);
    ShiftedZero(m);
  }

  /** `normalise` is idempotent. */
  lemma NormaliseIdempotent(m: Mask)
    requires !IsEmpty(m)
    ensures !IsEmpty(Normalise(m)) && Normalise(Normalise(m)) == Normalise(m)
  {
    CountZeroIffEmpty(m);
    CountZeroIffEmpty(Normalise(m));
    NormaliseFixesNormalised(Normalise(m));
  }

  lemma TurnCorner(x: Mask)
    requires !IsEmpty(x)
    ensures TopRow(Turn(x)) == LeftColumn(x)
    ensures TopRow(x) <= LeftColumn(Turn(Normalise(x)))
  {
    forall r | 0 <= r < 4
      ensures RowEmpty(Turn(x)[r]) == ColumnEmpty(x, r)
    {
      TurnRowEmpty(x, r);
    }
    NormaliseIsShift(x);
    var t, n := TopRow(x), Normalise(x);
    var lc := LeftColumn(Turn(n));
    if lc < t {
      TurnColumnEmpty(n, lc);
      ShiftedRowEmpty(x, t, LeftColumn(x), 3 - lc);
    }
  }

  /** Row `r` of the turn is column `r` of the mask. */
  lemma TurnRowEmpty(m: Mask, r: nat)
    requires r < 4
    ensures RowEmpty(Turn(m)[r]) == ColumnEmpty(m, r)
  {
    assert r == 0 || r == 1 || r == 2 || r == 3;
  }

  /** Column `c` of the turn is row `3 - c` of the mask. */
  lemma TurnColumnEmpty(m: Mask, c: nat)
    requires c < 4
    ensures ColumnEmpty(Turn(m), c) == RowEmpty(m[3 - c])
  {
    assert c == 0 || c == 1 || c == 2 || c == 3;
  }

  lemma TurnCell(x: Mask, r: nat, c: nat)
    ensures Cell(Turn(x), r, c) == (r < 4 && c < 4 && Cell(x, 3 - c, r))
  {
    if r < 4 && c < 4 {
      assert r == 0 || r == 1 || r == 2 || r == 3;
      assert c == 0 || c == 1 || c == 2 || c == 3;
    }
  }

  lemma EmptyRowCell(m: Mask, i: nat, j: nat)
    requires i < 4 && RowEmpty(m[i])
    ensures !Cell(m, i, j)
  {
    if j < 4 {
      assert j == 0 || j == 1 || j == 2 || j == 3;
    }
  }

  lemma ShiftedTurnCell(x: Mask, l: nat, r: nat, c: nat)
    ensures Cell(Shifted(Turn(x), l, 0), r, c) == (r < 4 && c < 4 && r + l < 4 && Cell(x, 3 - c, r + l))
  {
    ShiftedCell(Turn(x), l, 0, r, c);
    TurnCell(x, r + l, c);
  }

  lemma TurnShiftedCell(x: Mask, t: nat, l: nat, r: nat, c: nat)
    ensures Cell(Shifted(Turn(Shifted(x, t, l)), 0, t), r, c) == (r < 4 && c + t < 4 && Cell(x, 3 - c, r + l))
  {
    var y := Shifted(x, t, l);
    ShiftedCell(Turn(y), 0, t, r, c);
    TurnCell(y, r, c + t);
    if r < 4 && c + t < 4 {
      ShiftedCell(x, t, l, 3 - (c + t), r);
    }
  }

  lemma TurnOfShiftedCell(x: Mask, t: nat, l: nat, r: nat, c: nat)
    requires t <= 4 && forall i | 0 <= i < t :: RowEmpty(x[i])
    ensures Cell(Shifted(Turn(x), l, 0), r, c) == Cell(Shifted(Turn(Shifted(x, t, l)), 0, t), r, c)
  {
    ShiftedTurnCell(x, l, r, c);
    TurnShiftedCell(x, t, l, r, c);
    if r < 4 && c < 4 && 4 <= c + t {
      EmptyRowCell(x, 3 - c, r + l);
    }
  }

  lemma TurnOfNormalised(x: Mask)
    requires !IsEmpty(x)
    ensures Shifted(Turn(x), LeftColumn(x), 0) == Shifted(Turn(Normalise(x)), 0, TopRow(x))
  {
    var t, l := TopRow(x), LeftColumn(x);
    NormaliseIsShift(x);
    forall r: nat, c: nat
      ensures Cell(Shifted(Turn(x), l, 0), r, c) == Cell(Shifted(Turn(Shifted(x, t, l)), 0, t), r, c)
    {
      TurnOfShiftedCell(x, t, l, r, c);
    }
    MaskExt(Shifted(Turn(x), l, 0), Shifted(Turn(Shifted(x, t, l)), 0, t));
  }

  /** Turning a shape and normalising it does not depend on where the shape
      stood in the frame before the turn. */
  lemma TurnThenNormalise(x: Mask)
    requires !IsEmpty(x)
    ensures !IsEmpty(Turn(Normalise(x)))
    ensures Normalise(Turn(Normalise(x))) == Normalise(Turn(x))
  {
    var y := Normalise(x);
    CountZeroIffEmpty(x);
    CountZeroIffEmpty(y);
    CountZeroIffEmpty(Turn(x));
    CountZeroIffEmpty(Turn(y));
    TurnCorner(x);
    TurnOfNormalised(x);
    NormaliseIgnoresShift(Turn(x), LeftColumn(x), 0);
    NormaliseIgnoresShift(Turn(y), 0, TopRow(x));
  }

  /** Four calls of `rotate` give back the normalised mask they started from. */
  lemma RotateFourTimes(m: Mask)
    requires Normalised(m)
    ensures Rotate(Rotate(Rotate(Rotate(m)))) == m
  {
    var t1 := Turn(m);
    var t2 := Turn(t1);
    var t3 := Turn(t2);
    CountZeroIffEmpty(m);
    CountZeroIffEmpty(t1);
    CountZeroIffEmpty(t2);
    CountZeroIffEmpty(t3);
    var r1 := Rotate(m);
    assert r1 == Normalise(t1);
    var r2 := Rotate(r1);
    TurnThenNormalise(t1);
    assert r2 == Normalise(t2);
    var r3 := Rotate(r2);
    TurnThenNormalise(t2);
    assert r3 == Normalise(t3);
    TurnThenNormalise(t3);
    TurnFourTimes(m);
    NormaliseFixesNormalised(m);
  }

  /** The character `Tetronimo::draw` (src/main.rs:34-38) writes for a cell. */
  function Glyph(b: bool): char {
    if b then 'x' else '-'
  }

  /** One line of the drawing: the four cells separated by spaces, then a newline. */
  function RowText(r: Row): string {
    [Glyph(r[0]), ' ', Glyph(r[1]), ' ', Glyph(r[2]), ' ', Glyph(r[3]), '\n']
  }

  /** What `Tetronimo::draw` (src/main.rs:30-47) appends: the four lines, then
      a blank line. */
  function Render(m: Mask): string {
    RowText(m[0]) + RowText(m[1]) + RowText(m[2]) + RowText(m[3]) + "\n"
  }

  /** The text of one cell as the inner loop of `draw` appends it. */
  function CellText(b: bool): string {
    if b then "x " else "- "
  }

  /** What the inner loop of `draw` has appended after `n` cells of row `r`. */
  function CellsText(r: Row, n: nat): (s: string)
    requires n <= 4
    ensures |s| == 2 * n
  {
    if n == 0 then "" else CellsText(r, n - 1) + CellText(r[n - 1])
  }

  /** The lines of the first `k` rows. */
  function RowsText(m: Mask, k: nat): (s: string)
    requires k <= 4
    ensures |s| == 8 * k
  {
    if k == 0 then "" else RowsText(m, k - 1) + RowText(m[k - 1])
  }

  /** Dropping the last space the inner loop appended and adding the newline
      gives the line of the row. */
  lemma CellsThenNewline(r: Row)
    ensures CellsText(r, 4)[..7] + "\n" == RowText(r)
  {
    assert CellsText(r, 2) == CellText(r[0]) + CellText(r[1]);
    assert CellsText(r, 4) == CellText(r[0]) + CellText(r[1]) + CellText(r[2]) + CellText(r[3]);
  }

  /** The four lines and the blank line are the whole drawing. */
  lemma RowsThenBlank(m: Mask)
    ensures RowsText(m, 4) + "\n" == Render(m)
  {
    assert RowsText(m, 2) == RowText(m[0]) + RowText(m[1]);
  }

  lemma RenderLine(m: Mask, i: nat, q: nat)
    requires i < 4 && q < 8
    ensures |Render(m)| == 33 && Render(m)[8 * i + q] == RowText(m[i])[q]
  {
    var a := RowText(m[0]) + RowText(m[1]);
    var b := a + RowText(m[2]);
    var c := b + RowText(m[3]);
    assert Render(m) == c + "\n";
    if i == 3 {
      assert c[24 + q] == RowText(m[3])[q];
    } else {
      assert c[8 * i + q] == b[8 * i + q];
      if i == 2 {
        assert b[16 + q] == RowText(m[2])[q];
      } else {
        assert b[8 * i + q] == a[8 * i + q];
      }
    }
  }

  /** Reading the rendering back: cell `(i, j)` is the `x` or `-` at column `2j`
      of line `i`, each cell is followed by a space except the last of its line,
      which is followed by the newline, and the text ends with a blank line. */
  lemma RenderAt(m: Mask, i: nat, j: nat)
    requires i < 4 && j < 4
    ensures |Render(m)| == 33
    ensures Render(m)[8 * i + 2 * j] == (if m[i][j] then 'x' else '-')
    ensures Render(m)[8 * i + 2 * j + 1] == (if j < 3 then ' ' else '\n')
    ensures Render(m)[32] == '\n'
  {
    RenderLine(m, i, 2 * j);
    RenderLine(m, i, 2 * j + 1);
    assert j == 0 || j == 1 || j == 2 || j == 3;
  }

  /** Distinct masks render differently. */
  lemma RenderInjective(a: Mask, b: Mask)
    requires Render(a) == Render(b)
    ensures a == b
  {
    forall i: nat, j: nat ensures Cell(a, i, j) == Cell(b, i, j) {
      if i < 4 && j < 4 {
        RenderAt(a, i, j);
        RenderAt(b, i, j);
      }
    }
    MaskExt(a, b);
  }
}
