/** Combat areas: boolean matrices around a centre, copied into every direction. */
module AreaMatrix {

  class MatrixArea {
    const rows: nat
    const cols: nat
    const data: array2<bool>
    var centerY: int
    var centerX: int

    ghost predicate Valid()
      reads this
    {
      data.Length0 == rows && data.Length1 == cols
    }

    /** An area without any covered cell. */
    constructor (rows: nat, cols: nat)
      ensures Valid() && this.rows == rows && this.cols == cols && centerY == 0 && centerX == 0 && fresh(data)
      ensures forall y, x :: !Value(y, x)
    {
      this.rows, this.cols := rows, cols;
      centerY, centerX := 0, 0;
      data := new bool[rows, cols]((y, x) => false);
    }

    /** The value of a cell; outside the matrix nothing is covered. */
    ghost predicate Value(y: int, x: int)
      reads this, data
    {
      0 <= y < data.Length0 && 0 <= x < data.Length1 && data[y, x]
    }

    /** Whether the area covers what lies this far down and right from its centre. */
    ghost predicate Covers(dy: int, dx: int)
      reads this, data
    {
      Value(centerY + dy, centerX + dx)
    }

    ghost predicate Centred()
      reads this
    {
      0 <= centerY < rows && 0 <= centerX < cols
    }

    method SetCenter(y: int, x: int)
      modifies this
      ensures centerY == y && centerX == x
    {
      centerX, centerY := x, y;
    }
  }

  datatype Turn = Quarter | Half | ThreeQuarters

  /** Where a turn takes a vector that points down by y and right by x. */
  function TurnedX(t: Turn, y: int, x: int): int {
    match t case Quarter => -y case Half => -x case ThreeQuarters => y
  }

  function TurnedY(t: Turn, y: int, x: int): int {
    match t case Quarter => x case Half => -y case ThreeQuarters => -x
  }

  /** A quarter turn takes north to east, east to south, south to west and west to north; the others follow. */
  lemma TurnsClockwise(y: int, x: int)
    ensures TurnedY(Quarter, -1, 0) == 0 && TurnedX(Quarter, -1, 0) == 1
    ensures TurnedY(Quarter, 0, 1) == 1 && TurnedX(Quarter, 0, 1) == 0
    ensures TurnedY(Quarter, y, x) == y * TurnedY(Quarter, 1, 0) + x * TurnedY(Quarter, 0, 1)
    ensures TurnedX(Quarter, y, x) == y * TurnedX(Quarter, 1, 0) + x * TurnedX(Quarter, 0, 1)
    ensures TurnedY(Half, y, x) == TurnedY(Quarter, TurnedY(Quarter, y, x), TurnedX(Quarter, y, x))
    ensures TurnedX(Half, y, x) == TurnedX(Quarter, TurnedY(Quarter, y, x), TurnedX(Quarter, y, x))
    ensures TurnedY(ThreeQuarters, y, x) == TurnedY(Quarter, TurnedY(Half, y, x), TurnedX(Half, y, x))
    ensures TurnedX(ThreeQuarters, y, x) == TurnedX(Quarter, TurnedY(Half, y, x), TurnedX(Half, y, x))
  {
  }

  /** The turn that undoes a turn. */
  function Undo(t: Turn): Turn {
    match t case Quarter => ThreeQuarters case Half => Half case ThreeQuarters => Quarter
  }

  function Max(a: nat, b: nat): nat { if a < b then b else a }

  /** The rotation loops have reached column x and row y. */
  predicate Done(sy: int, sx: int, y: int, x: int) { sx < x || (sx == x && sy < y) }

  /** The row of the cell that is turned onto cell (i, j) of a matrix with centre (c, c). */
  function SourceY(t: Turn, cy: int, c: int, i: int, j: int): int { cy + TurnedY(Undo(t), i - c, j - c) }

  function SourceX(t: Turn, cx: int, c: int, i: int, j: int): int { cx + TurnedX(Undo(t), i - c, j - c) }

  lemma SourceIs(t: Turn, cy: int, cx: int, c: int, i: int, j: int, y: int, x: int)
    ensures (SourceY(t, cy, c, i, j) == y && SourceX(t, cx, c, i, j) == x)
       <==> (i == TurnedY(t, y - cy, x - cx) + c && j == TurnedX(t, y - cy, x - cx) + c)
  {
  }

  /** A cell of the rotated matrix so far: once written, it has the value of the cell that was turned onto it. */
  ghost predicate CellOk(input: MatrixArea, output: MatrixArea, t: Turn, c: int, y: int, x: int, i: int, j: int)
    reads input, input.data, output, output.data
  {
    var sy, sx := SourceY(t, input.centerY, c, i, j), SourceX(t, input.centerX, c, i, j);
    output.Value(i, j) == (Done(sy, sx, y, x) && input.Value(sy, sx))
  }

  ghost predicate RotatedSoFar(input: MatrixArea, output: MatrixArea, t: Turn, c: int, y: int, x: int)
    reads input, input.data, output, output.data
  {
    forall i, j {:trigger CellOk(input, output, t, c, y, x, i, j)} :: CellOk(input, output, t, c, y, x, i, j)
  }

  lemma NextColumn(input: MatrixArea, output: MatrixArea, t: Turn, c: int, x: int, next: int)
    requires input.Valid() && RotatedSoFar(input, output, t, c, input.rows, x) && next == x + 1
    ensures RotatedSoFar(input, output, t, c, 0, next)
  {
    forall i, j {:trigger CellOk(input, output, t, c, 0, next, i, j)}
      ensures CellOk(input, output, t, c, 0, next, i, j)
    {
      assert CellOk(input, output, t, c, input.rows, x, i, j);
    }
  }

  /** Covered offsets are turned around the centre. */
  ghost predicate IsTurn(input: MatrixArea, output: MatrixArea, t: Turn)
    reads input, input.data, output, output.data
  {
    forall dy, dx {:trigger output.Covers(dy, dx)} ::
      output.Covers(dy, dx) == input.Covers(TurnedY(Undo(t), dy, dx), TurnedX(Undo(t), dy, dx))
  }

  /** One step of the rotation. */
  method RotateCell(input: MatrixArea, output: MatrixArea, t: Turn, y: nat, x: nat, rotateCenterY: int,
                    rotateCenterX: int, ghost c: int)
    requires input.Valid() && output.Valid() && input != output && input.data != output.data && input.Centred()
    requires output.rows == output.cols == 2 * Max(input.rows, input.cols)
    requires c == rotateCenterY == rotateCenterX == output.rows / 2 - 1
    requires y < input.rows && x < input.cols && RotatedSoFar(input, output, t, c, y, x)
    modifies output.data
    ensures RotatedSoFar(input, output, t, c, y + 1, x)
  {
    var newX := x - input.centerX;
    var newY := y - input.centerY;
    var rotatedX := TurnedX(t, newY, newX);
    var rotatedY := TurnedY(t, newY, newX);
    output.data[rotatedY + rotateCenterY, rotatedX + rotateCenterX] := input.data[y, x];
    forall i, j {:trigger CellOk(input, output, t, c, y + 1, x, i, j)}
      ensures CellOk(input, output, t, c, y + 1, x, i, j)
    {
      assert old(CellOk(input, output, t, c, y, x, i, j));
      SourceIs(t, input.centerY, input.centerX, c, i, j, y, x);
    }
  }

  /** The rotation branch of `copyArea`: the copy fits into the square and is the turned area. */
  method Rotate(input: MatrixArea, output: MatrixArea, t: Turn)
    requires input.Valid() && output.Valid() && input != output && input.data != output.data && input.Centred()
    requires output.rows == output.cols == 2 * Max(input.rows, input.cols)
    requires forall i, j :: !output.Value(i, j)
    modifies output, output.data
    ensures IsTurn(input, output, t) && output.Centred()
  {
    var rotateCenterX := output.cols / 2 - 1;
    var rotateCenterY := output.rows / 2 - 1;
    ghost var c := rotateCenterY;
    var x := 0;
    while x < input.cols
      invariant 0 <= x <= input.cols && RotatedSoFar(input, output, t, c, 0, x)
      modifies output.data
    {
      var y := 0;
      while y < input.rows
        invariant 0 <= y <= input.rows && RotatedSoFar(input, output, t, c, y, x)
        modifies output.data
      {
        RotateCell(input, output, t, y, x, rotateCenterY, rotateCenterX, c);
        y := y + 1;
      }
      NextColumn(input, output, t, c, x, x + 1);
      x := x + 1;
    }
    label L:
    output.SetCenter(rotateCenterY, rotateCenterX);
    forall dy, dx {:trigger output.Covers(dy, dx)}
      ensures output.Covers(dy, dx) == input.Covers(TurnedY(Undo(t), dy, dx), TurnedX(Undo(t), dy, dx))
    {
      assert old@L(CellOk(input, output, t, c, 0, x, c + dy, c + dx));
    }
  }

  // ---------- mirroring and flipping ----------

  /** Covered offsets are mirrored in a column, `shift` columns away from the true one. */
  ghost predicate IsMirror(input: MatrixArea, output: MatrixArea, shift: int)
    reads input, input.data, output, output.data
  {
    forall dy, dx {:trigger output.Covers(dy, dx)} :: output.Covers(dy, dx) == input.Covers(dy, shift - dx)
  }

  ghost predicate IsFlip(input: MatrixArea, output: MatrixArea, shift: int)
    reads input, input.data, output, output.data
  {
    forall dy, dx {:trigger output.Covers(dy, dx)} :: output.Covers(dy, dx) == input.Covers(shift - dy, dx)
  }

  ghost predicate MirroredTo(input: MatrixArea, output: MatrixArea, y: int, rx: int, i: int, j: int)
    reads input, input.data, output, output.data
  {
    output.Value(i, j) == ((i < y || (i == y && j < rx)) && input.Value(i, input.cols - 1 - j))
  }

  ghost predicate FlippedTo(input: MatrixArea, output: MatrixArea, x: int, ry: int, i: int, j: int)
    reads input, input.data, output, output.data
  {
    output.Value(i, j) == ((j < x || (j == x && i < ry)) && input.Value(input.rows - 1 - i, j))
  }

  lemma MirroredRow(input: MatrixArea, output: MatrixArea, y: int, rx: int, next: int)
    requires input.Valid() && rx == input.cols && next == y + 1
    requires forall i, j {:trigger MirroredTo(input, output, y, rx, i, j)} :: MirroredTo(input, output, y, rx, i, j)
    ensures forall i, j {:trigger MirroredTo(input, output, next, 0, i, j)} :: MirroredTo(input, output, next, 0, i, j)
  {
    forall i, j {:trigger MirroredTo(input, output, next, 0, i, j)} ensures MirroredTo(input, output, next, 0, i, j) {
      assert MirroredTo(input, output, y, rx, i, j);
    }
  }

  lemma FlippedColumn(input: MatrixArea, output: MatrixArea, x: int, ry: int, next: int)
    requires input.Valid() && ry == input.rows && next == x + 1
    requires forall i, j {:trigger FlippedTo(input, output, x, ry, i, j)} :: FlippedTo(input, output, x, ry, i, j)
    ensures forall i, j {:trigger FlippedTo(input, output, next, 0, i, j)} :: FlippedTo(input, output, next, 0, i, j)
  {
    forall i, j {:trigger FlippedTo(input, output, next, 0, i, j)} ensures FlippedTo(input, output, next, 0, i, j) {
      assert FlippedTo(input, output, x, ry, i, j);
    }
  }

  method MirrorCell(input: MatrixArea, output: MatrixArea, y: nat, x: nat, rx: nat)
    requires input.Valid() && output.Valid() && input != output && input.data != output.data
    requires output.rows >= input.rows && output.cols >= input.cols
    requires y < input.rows && x < input.cols && rx == input.cols - 1 - x
    requires forall i, j {:trigger MirroredTo(input, output, y, rx, i, j)} :: MirroredTo(input, output, y, rx, i, j)
    modifies output.data
    ensures forall i, j {:trigger MirroredTo(input, output, y, rx + 1, i, j)} ::
      MirroredTo(input, output, y, rx + 1, i, j)
  {
    output.data[y, rx] := input.data[y, x];
    forall i, j {:trigger MirroredTo(input, output, y, rx + 1, i, j)}
      ensures MirroredTo(input, output, y, rx + 1, i, j)
    {
      assert old(MirroredTo(input, output, y, rx, i, j));
    }
  }

  /** The mirror branch of `copyArea`: its centre is computed from the number of rows. */
  method Mirror(input: MatrixArea, output: MatrixArea)
    requires input.Valid() && output.Valid() && input != output && input.data != output.data
    requires output.rows >= input.rows && output.cols >= input.cols && forall i, j :: !output.Value(i, j)
    modifies output, output.data
    ensures IsMirror(input, output, input.cols - input.rows)
    ensures output.centerY == input.centerY && output.centerX == input.rows - 1 - input.centerX
  {
    var y := 0;
    while y < input.rows
      invariant 0 <= y <= input.rows
      invariant forall i, j {:trigger MirroredTo(input, output, y, 0, i, j)} :: MirroredTo(input, output, y, 0, i, j)
      modifies output.data
    {
      var rx := 0;
      var x := input.cols;
      while x > 0
        invariant 0 <= x <= input.cols && rx == input.cols - x
        invariant forall i, j {:trigger MirroredTo(input, output, y, rx, i, j)} ::
          MirroredTo(input, output, y, rx, i, j)
        modifies output.data
      {
        x := x - 1;
        MirrorCell(input, output, y, x, rx);
        rx := rx + 1;
      }
      MirroredRow(input, output, y, rx, y + 1);
      y := y + 1;
    }
    label L:
    output.SetCenter(input.centerY, input.rows - 1 - input.centerX);
    forall dy, dx {:trigger output.Covers(dy, dx)}
      ensures output.Covers(dy, dx) == input.Covers(dy, input.cols - input.rows - dx)
    {
      assert old@L(MirroredTo(input, output, y, 0, input.centerY + dy, input.rows - 1 - input.centerX + dx));
    }
  }

  method FlipCell(input: MatrixArea, output: MatrixArea, x: nat, y: nat, ry: nat)
    requires input.Valid() && output.Valid() && input != output && input.data != output.data
    requires output.rows >= input.rows && output.cols >= input.cols
    requires y < input.rows && x < input.cols && ry == input.rows - 1 - y
    requires forall i, j {:trigger FlippedTo(input, output, x, ry, i, j)} :: FlippedTo(input, output, x, ry, i, j)
    modifies output.data
    ensures forall i, j {:trigger FlippedTo(input, output, x, ry + 1, i, j)} ::
      FlippedTo(input, output, x, ry + 1, i, j)
  {
    output.data[ry, x] := input.data[y, x];
    forall i, j {:trigger FlippedTo(input, output, x, ry + 1, i, j)} ensures FlippedTo(input, output, x, ry + 1, i, j) {
      assert old(FlippedTo(input, output, x, ry, i, j));
    }
  }

  /** The flip branch of `copyArea`: its centre is computed from the number of columns. */
  method Flip(input: MatrixArea, output: MatrixArea)
    requires input.Valid() && output.Valid() && input != output && input.data != output.data
    requires output.rows >= input.rows && output.cols >= input.cols && forall i, j :: !output.Value(i, j)
    modifies output, output.data
    ensures IsFlip(input, output, input.rows - input.cols)
    ensures output.centerY == input.cols - 1 - input.centerY && output.centerX == input.centerX
  {
    var x := 0;
    while x < input.cols
      invariant 0 <= x <= input.cols
      invariant forall i, j {:trigger FlippedTo(input, output, x, 0, i, j)} :: FlippedTo(input, output, x, 0, i, j)
      modifies output.data
    {
      var ry := 0;
      var y := input.rows;
      while y > 0
        invariant 0 <= y <= input.rows && ry == input.rows - y
        invariant forall i, j {:trigger FlippedTo(input, output, x, ry, i, j)} :: FlippedTo(input, output, x, ry, i, j)
        modifies output.data
      {
        y := y - 1;
        FlipCell(input, output, x, y, ry);
        ry := ry + 1;
      }
      FlippedColumn(input, output, x, ry, x + 1);
      x := x + 1;
    }
    label L:
    output.SetCenter(input.cols - 1 - input.centerY, input.centerX);
    forall dy, dx {:trigger output.Covers(dy, dx)}
      ensures output.Covers(dy, dx) == input.Covers(input.rows - input.cols - dy, dx)
    {
      assert old@L(FlippedTo(input, output, x, 0, input.cols - 1 - input.centerY + dy, input.centerX + dx));
    }
  }

  // ---------- when a mirror image is one ----------

  type Offsets = iset<(int, int)>

  /** Moving the axis makes no difference at this offset. */
  ghost predicate SameMirror(s: Offsets, shift: int, dy: int, dx: int) { ((dy, shift - dx) in s) == ((dy, -dx) in s) }

  lemma {:induction false} Repeats(s: Offsets, shift: int, dy: int, dx: int, k: nat, v: int)
    requires forall y, x {:trigger SameMirror(s, shift, y, x)} :: SameMirror(s, shift, y, x)
    requires (dy, dx) in s && v == dx + k * shift
    ensures (dy, v) in s
  {
    if k > 0 {
      var u := v - shift;
      assert u == dx + (k - 1) * shift;
      Repeats(s, shift, dy, dx, k - 1, u);
      assert SameMirror(s, shift, dy, -u);
    }
  }

  /** A mirror image with a shifted axis is right only where nothing is covered. */
  lemma {:induction false} ShiftedMirror(s: Offsets, shift: int, width: int)
    requires forall p {:trigger p in s} :: p in s ==> -width < p.1 < width
    ensures (forall dy, dx {:trigger SameMirror(s, shift, dy, dx)} ::
      SameMirror(s, shift, dy, dx)) <==> shift == 0 || s == iset{}
  {
    if shift != 0 && forall dy, dx {:trigger SameMirror(s, shift, dy, dx)} :: SameMirror(s, shift, dy, dx) {
      forall p ensures p !in s {
        if p in s {
          var v := p.1 + 2 * width * shift;
          Repeats(s, shift, p.0, p.1, 2 * width, v);
          FarAway(2 * width, shift);
        }
      }
    }
  }

  lemma FarAway(n: int, shift: int)
    requires n > 0 && shift != 0
    ensures n * shift >= n || n * shift <= -n
  {
    if shift > 0 {
      AtLeast(n, shift);
    } else {
      AtLeast(n, -shift);
      assert n * shift == -(n * -shift);
    }
  }

  lemma AtLeast(n: int, k: int)
    requires n > 0 && k > 0
    ensures n * k >= n
  {
  }

  ghost function OffsetsOf(a: MatrixArea): Offsets
    reads a, a.data
  {
    iset p: (int, int) | a.Covers(p.0, p.1)
  }

  ghost predicate MirrorsAt(input: MatrixArea, output: MatrixArea, dy: int, dx: int)
    reads input, input.data, output, output.data
  {
    output.Covers(dy, dx) == input.Covers(dy, -dx)
  }

  /** The mirrored copy is the mirror image if and only if the matrix is square or covers nothing. */
  lemma MirrorIsExact(input: MatrixArea, output: MatrixArea)
    requires input.Valid() && input.Centred() && IsMirror(input, output, input.cols - input.rows)
    ensures (forall dy, dx {:trigger MirrorsAt(input, output, dy, dx)} :: MirrorsAt(input, output, dy, dx))
       <==> input.rows == input.cols || OffsetsOf(input) == iset{}
  {
    var s, shift := OffsetsOf(input), input.cols - input.rows;
    ShiftedMirror(s, shift, input.cols);
    forall dy, dx ensures MirrorsAt(input, output, dy, dx) == SameMirror(s, shift, dy, dx) {
      assert output.Covers(dy, dx) == input.Covers(dy, shift - dx);
    }
  }

  /** The flipped copy is the flip image if and only if the matrix is square or covers nothing. */
  lemma FlipIsExact(input: MatrixArea, output: MatrixArea)
    requires input.Valid() && input.Centred() && IsFlip(input, output, input.rows - input.cols)
    ensures (forall dy, dx {:trigger FlipsAt(input, output, dy, dx)} :: FlipsAt(input, output, dy, dx))
       <==> input.rows == input.cols || OffsetsOf(input) == iset{}
  {
    var s, shift := TransposedOffsets(input), input.rows - input.cols;
    ShiftedMirror(s, shift, input.rows);
    forall dy, dx ensures FlipsAt(input, output, dy, dx) == SameMirror(s, shift, dx, dy) {
      assert output.Covers(dy, dx) == input.Covers(shift - dy, dx);
    }
    forall p ensures (p in s) == ((p.1, p.0) in OffsetsOf(input)) {
    }
    assert s == iset{} <==> OffsetsOf(input) == iset{} by {
      if s == iset{} {
        forall p ensures p !in OffsetsOf(input) {
          assert (p.1, p.0) !in s;
        }
      }
    }
  }

  ghost function TransposedOffsets(a: MatrixArea): Offsets
    reads a, a.data
  {
    iset p: (int, int) | a.Covers(p.1, p.0)
  }

  ghost predicate FlipsAt(input: MatrixArea, output: MatrixArea, dy: int, dx: int)
    reads input, input.data, output, output.data
  {
    output.Covers(dy, dx) == input.Covers(-dy, dx)
  }

  // ---------- reading an area from a list ----------

  predicate Filled(v: int) { v == 1 || v == 3 }

  predicate Middle(v: int) { v == 2 || v == 3 }

  /** Cells come row by row. */
  function Index(cols: int, y: int, x: int): int { y * cols + x }

  lemma IndexStep(cols: int, y: int)
    ensures Index(cols, y, cols) == Index(cols, y + 1, 0)
  {
  }

  lemma IndexBefore(cols: int, y: int, x: int, i: int, j: int)
    requires 0 <= x < cols && 0 <= j < cols
    ensures Index(cols, i, j) < Index(cols, y, x) <==> i < y || (i == y && j < x)
    ensures Index(cols, i, j) == Index(cols, y, x) <==> i == y && j == x
  {
    if i < y {
      RowsApart(cols, i, y);
    } else if y < i {
      RowsApart(cols, y, i);
    }
  }

  lemma RowsApart(cols: int, i: int, y: int)
    requires i < y && 0 < cols
    ensures i * cols + cols <= y * cols
  {
    AtLeast(cols, y - i);
    assert cols * (y - i) == y * cols - i * cols;
  }

  /** A cell of an area of which the first k values have been read. */
  ghost predicate ReadTo(area: MatrixArea, list: seq<int>, k: int, i: int, j: int)
    reads area, area.data
  {
    area.Value(i, j) == (0 <= i < area.rows && 0 <= j < area.cols && 0 <= Index(area.cols, i, j) < k <= |list|
      && Filled(list[Index(area.cols, i, j)]))
  }

  ghost predicate ReadAllTo(area: MatrixArea, list: seq<int>, k: int)
    reads area, area.data
  {
    forall i, j {:trigger ReadTo(area, list, k, i, j)} :: ReadTo(area, list, k, i, j)
  }

  /** The last middle among the first k values is where the centre lies; without one it lies in the corner. */
  ghost predicate CentredBy(area: MatrixArea, list: seq<int>, k: int)
    requires k <= |list|
    reads area
  {
    if exists n :: 0 <= n < k && Middle(list[n]) then
      var c := Index(area.cols, area.centerY, area.centerX);
      area.Centred() && 0 <= c < k && Middle(list[c]) && forall n :: c < n < k ==> !Middle(list[n])
    else area.centerY == 0 && area.centerX == 0
  }

  /** One value of the list. */
  method ReadCell(area: MatrixArea, list: seq<int>, k: nat, y: nat, x: nat)
    requires area.Valid() && k < |list| && y < area.rows && x < area.cols && k == Index(area.cols, y, x)
    requires ReadAllTo(area, list, k) && CentredBy(area, list, k)
    modifies area, area.data
    ensures ReadAllTo(area, list, k + 1) && CentredBy(area, list, k + 1)
  {
    var value := list[k];
    if value == 1 || value == 3 {
      area.data[y, x] := true;
    }
    label L:
    if value == 2 || value == 3 {
      area.SetCenter(y, x);
    }
    forall i, j {:trigger ReadTo(area, list, k + 1, i, j)} ensures ReadTo(area, list, k + 1, i, j) {
      assert old(ReadTo(area, list, k, i, j));
      if 0 <= j < area.cols {
        IndexBefore(area.cols, y, x, i, j);
      }
    }
    if Middle(value) {
      assert 0 <= k < k + 1 && Middle(list[k]);
    }
  }

  /** The area that a list describes. */
  ghost predicate Describes(list: seq<int>, rows: nat, area: MatrixArea)
    reads area, area.data
  {
    && area.Valid() && area.rows == rows && rows * area.cols == |list|
    && ReadAllTo(area, list, |list|) && CentredBy(area, list, |list|)
  }

  /** `createArea`: 1 and 3 cover a cell, 2 and 3 put the centre there. The list fills its rows. */
  method CreateArea(list: seq<int>, rows: nat) returns (area: MatrixArea)
    requires if rows == 0 then list == [] else |list| % rows == 0
    ensures fresh(area) && fresh(area.data) && Describes(list, rows, area)
    ensures list != [] ==> area.Centred()
  {
    var cols := if rows == 0 then 0 else |list| / rows;
    area := new MatrixArea(rows, cols);
    FillArea(area, list);
  }

  /** The loop of `createArea`. */
  method FillArea(area: MatrixArea, list: seq<int>)
    requires area.Valid() && |list| == Index(area.cols, area.rows, 0)
    requires area.centerY == area.centerX == 0 && forall i, j :: !area.Value(i, j)
    modifies area, area.data
    ensures ReadAllTo(area, list, |list|) && CentredBy(area, list, |list|)
    ensures list != [] ==> area.Centred()
  {
    var x, y, k := 0, 0, 0;
    ghost var cols := area.cols;
    while k < |list|
      invariant 0 <= k <= |list| && k == Index(cols, y, x) && 0 <= y && 0 <= x && (x < cols || k == |list| == 0)
      invariant ReadAllTo(area, list, k) && CentredBy(area, list, k)
      modifies area, area.data
    {
      IndexBefore(cols, area.rows, 0, y, x);
      ReadCell(area, list, k, y, x);
      x, k := x + 1, k + 1;
      if area.cols == x {
        IndexStep(cols, y);
        x, y := 0, y + 1;
      }
    }
  }

  // ---------- setting up the directions ----------

  /** Each direction covers the same cell ahead and to the right, as seen by somebody who looks that way. */
  ghost predicate Ahead(north: MatrixArea, south: MatrixArea, east: MatrixArea, west: MatrixArea, ahead: int,
                        right: int)
    reads north, north.data, south, south.data, east, east.data, west, west.data
  {
    && south.Covers(ahead, -right) == north.Covers(-ahead, right)
    && east.Covers(right, ahead) == north.Covers(-ahead, right)
    && west.Covers(-right, -ahead) == north.Covers(-ahead, right)
  }

  lemma AheadOf(north: MatrixArea, south: MatrixArea, east: MatrixArea, west: MatrixArea, ahead: int, right: int)
    requires IsTurn(north, south, Half) && IsTurn(north, east, Quarter) && IsTurn(north, west, ThreeQuarters)
    ensures Ahead(north, south, east, west, ahead, right)
  {
  }

  /** The straight directions of `setupArea`: north is what the list says, the others are turned copies. */
  method SetupArea(list: seq<int>, rows: nat)
    returns (area: MatrixArea, south: MatrixArea, east: MatrixArea, west: MatrixArea)
    requires rows > 0 && list != [] && |list| % rows == 0
    ensures fresh(area) && fresh(south) && fresh(east) && fresh(west)
    ensures Describes(list, rows, area) && area.Centred() && south.Centred() && east.Centred() && west.Centred()
    ensures IsTurn(area, south, Half) && IsTurn(area, east, Quarter) && IsTurn(area, west, ThreeQuarters)
    ensures forall ahead, right :: Ahead(area, south, east, west, ahead, right)
  {
    area := CreateArea(list, rows);
    var maxOutput := Max(area.cols, area.rows) * 2;
    south := new MatrixArea(maxOutput, maxOutput);
    Rotate(area, south, Half);
    east := new MatrixArea(maxOutput, maxOutput);
    Rotate(area, east, Quarter);
    west := new MatrixArea(maxOutput, maxOutput);
    Rotate(area, west, ThreeQuarters);
    forall ahead, right ensures Ahead(area, south, east, west, ahead, right) {
      AheadOf(area, south, east, west, ahead, right);
    }
  }

  /** Two quarter turns are a half turn. */
  method TwoTurns(area: MatrixArea) returns (half: MatrixArea)
    requires area.Valid() && area.Centred()
    ensures fresh(half) && fresh(half.data) && half.Valid() && half.Centred() && IsTurn(area, half, Half)
  {
    var n := 2 * Max(area.rows, area.cols);
    var one := new MatrixArea(n, n);
    Rotate(area, one, Quarter);
    half := new MatrixArea(2 * n, 2 * n);
    Rotate(one, half, Quarter);
    forall dy, dx {:trigger half.Covers(dy, dx)} ensures half.Covers(dy, dx) == area.Covers(-dy, -dx) {
      assert half.Covers(dy, dx) == one.Covers(-dx, dy);
    }
  }

  /** Four quarter turns give back the area. */
  method FourTurns(area: MatrixArea) returns (back: MatrixArea)
    requires area.Valid() && area.Centred()
    ensures fresh(back) && OffsetsOf(back) == OffsetsOf(area)
  {
    var half := TwoTurns(area);
    back := TwoTurns(half);
    forall dy, dx ensures back.Covers(dy, dx) == area.Covers(dy, dx) {
      assert back.Covers(dy, dx) == half.Covers(-dy, -dx);
    }
  }

  lemma MirrorAfterFlip(area: MatrixArea, flipped: MatrixArea, both: MatrixArea)
    requires IsFlip(area, flipped, 0) && IsMirror(flipped, both, 0)
    ensures IsTurn(area, both, Half)
  {
    forall dy, dx {:trigger both.Covers(dy, dx)} ensures both.Covers(dy, dx) == area.Covers(-dy, -dx) {
      assert both.Covers(dy, dx) == flipped.Covers(dy, -dx);
    }
  }

  /**
   * The diagonal directions of `setupExtArea`: for a square area north-east is its mirror image,
   * south-west its flip image, and south-east, the mirror image of the flip image, its half turn.
   */
  method SetupExtArea(list: seq<int>, rows: nat)
    returns (area: MatrixArea, ne: MatrixArea, sw: MatrixArea, se: MatrixArea)
    requires rows > 0 && list != [] && |list| % rows == 0
    ensures fresh(area) && fresh(ne) && fresh(sw) && fresh(se) && Describes(list, rows, area) && area.Centred()
    ensures IsMirror(area, ne, area.cols - area.rows) && IsFlip(area, sw, area.rows - area.cols) && IsMirror(sw, se, 0)
    ensures area.rows == area.cols ==> IsTurn(area, se, Half)
  {
    area := CreateArea(list, rows);
    ne, sw, se := Diagonals(area);
  }

  method Diagonals(area: MatrixArea) returns (ne: MatrixArea, sw: MatrixArea, se: MatrixArea)
    requires area.Valid() && area.Centred()
    ensures fresh(ne) && fresh(sw) && fresh(se)
    ensures IsMirror(area, ne, area.cols - area.rows) && IsFlip(area, sw, area.rows - area.cols) && IsMirror(sw, se, 0)
    ensures area.rows == area.cols ==> IsTurn(area, se, Half)
  {
    var maxOutput := Max(area.cols, area.rows) * 2;
    ne := new MatrixArea(maxOutput, maxOutput);
    Mirror(area, ne);
    sw := new MatrixArea(maxOutput, maxOutput);
    Flip(area, sw);
    se := new MatrixArea(maxOutput, maxOutput);
    Mirror(sw, se);
    if area.rows == area.cols {
      MirrorAfterFlip(area, sw, se);
    }
  }
}
