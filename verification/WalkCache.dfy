/** The grid of walkable tiles that a creature keeps around itself and shifts as it walks. */
module WalkCache {
  const W := 11 // maxWalkCacheWidth and maxWalkCacheHeight
  const SIZE := 2 * W + 1

  /** Could the creature enter the tile at this position of its floor? */
  type Walkable = (int, int) -> bool

  /** The cache by offset from the creature. */
  type Grid = map<(int, int), bool>

  predicate InRange(d: int, e: int) {
    -W <= d <= W && -W <= e <= W
  }

  ghost predicate Full(g: Grid) {
    forall d, e :: (d, e) in g <==> InRange(d, e)
  }

  /** Does the cell tell the truth about the tile under it? */
  predicate ExactAt(g: Grid, t: Walkable, x: int, y: int, d: int, e: int)
    requires (d, e) in g
  {
    g[(d, e)] == t(x + d, y + e)
  }

  /** Every cell but the creature's own is exact. */
  ghost predicate Exact(g: Grid, t: Walkable, x: int, y: int) {
    Full(g) && forall d, e {:trigger ExactAt(g, t, x, y, d, e)} ::
      InRange(d, e) && (d, e) != (0, 0) ==> ExactAt(g, t, x, y, d, e)
  }

  // ---------- the meaning of one step ----------

  function Vertical(g: Grid, t: Walkable, x: int, y: int, dy: int, d: int, e: int): bool
    requires InRange(d, e) && Full(g)
  {
    if dy < 0 then if e == -W then t(x + d, y - W) else g[(d, e - 1)]
    else if dy > 0 then if e == W then t(x + d, y + W) else g[(d, e + 1)]
    else g[(d, e)]
  }

  /** The rows that the sideways shift covers: from the second on after any vertical step. */
  predicate RowShifts(dy: int, e: int) {
    dy == 0 || e > -W
  }

  function Sideways(g: Grid, t: Walkable, x: int, y: int, dx: int, dy: int, d: int, e: int): bool
    requires InRange(d, e) && Full(g)
  {
    if dx > 0 then
      if d == W then t(x + W, y + e)
      else if RowShifts(dy, e) then Vertical(g, t, x, y, dy, d + 1, e)
      else Vertical(g, t, x, y, dy, d, e)
    else if dx < 0 then
      if d == -W then t(x - W, y + e)
      else if RowShifts(dy, e) then Vertical(g, t, x, y, dy, d - 1, e)
      else Vertical(g, t, x, y, dy, d, e)
    else Vertical(g, t, x, y, dy, d, e)
  }

  /** The cell after a step by (dx, dy) to (x, y): shifted, refreshed at the edges and at the tile left behind. */
  function Stepped(g: Grid, t: Walkable, x: int, y: int, dx: int, dy: int, d: int, e: int): bool
    requires InRange(d, e) && Full(g)
  {
    if (d, e) == (-dx, -dy) then t(x - dx, y - dy) else Sideways(g, t, x, y, dx, dy, d, e)
  }

  /** The cache w that a step by (dx, dy) to (x, y) makes of g. */
  ghost predicate StepTo(g: Grid, t: Walkable, x: int, y: int, dx: int, dy: int, w: Grid) {
    Full(g) && Full(w) && forall d, e {:trigger StepAt(g, t, x, y, dx, dy, w, d, e)} ::
      InRange(d, e) ==> StepAt(g, t, x, y, dx, dy, w, d, e)
  }

  ghost predicate StepAt(g: Grid, t: Walkable, x: int, y: int, dx: int, dy: int, w: Grid, d: int, e: int)
    requires Full(g) && Full(w) && InRange(d, e)
  {
    w[(d, e)] == Stepped(g, t, x, y, dx, dy, d, e)
  }

  predicate IsStep(dx: int, dy: int) {
    -1 <= dx <= 1 && -1 <= dy <= 1
  }

  predicate SameTile(before: Walkable, after: Walkable, a: int, b: int) {
    after(a, b) == before(a, b)
  }

  /** A step only changes what its two tiles let in. */
  ghost predicate OnlyStepTiles(before: Walkable, after: Walkable, x: int, y: int, dx: int, dy: int) {
    forall a, b {:trigger SameTile(before, after, a, b)} ::
      (a, b) != (x, y) && (a, b) != (x - dx, y - dy) ==> SameTile(before, after, a, b)
  }

  /** The cell that a step brings to (d, e) told the truth there. */
  lemma Carried(g: Grid, before: Walkable, after: Walkable, x: int, y: int, dx: int, dy: int, d: int, e: int)
    requires Exact(g, before, x - dx, y - dy) && OnlyStepTiles(before, after, x, y, dx, dy)
    requires InRange(d, e) && (d, e) != (0, 0) && (x - dx + d, y - dy + e) != (x, y)
    ensures g[(d, e)] == after(x - dx + d, y - dy + e)
  {
    assert ExactAt(g, before, x - dx, y - dy, d, e);
    assert SameTile(before, after, x - dx + d, y - dy + e);
  }

  lemma StepExactAt(g: Grid, before: Walkable, after: Walkable, x: int, y: int, dx: int, dy: int, d: int, e: int)
    requires IsStep(dx, dy) && !(dy == 1 && dx != 0) && InRange(d, e) && (d, e) != (0, 0)
    requires Exact(g, before, x - dx, y - dy) && OnlyStepTiles(before, after, x, y, dx, dy)
    ensures Stepped(g, after, x, y, dx, dy, d, e) == after(x + d, y + e)
  {
    if (d, e) != (-dx, -dy) && InRange(d + dx, e + dy) {
      Carried(g, before, after, x, y, dx, dy, d + dx, e + dy);
    }
  }

  /** Every step but one to the south-east or south-west keeps the cache exact. */
  lemma StepExact(g: Grid, before: Walkable, after: Walkable, x: int, y: int, dx: int, dy: int, w: Grid)
    requires IsStep(dx, dy) && !(dy == 1 && dx != 0)
    requires Exact(g, before, x - dx, y - dy) && OnlyStepTiles(before, after, x, y, dx, dy)
    requires StepTo(g, after, x, y, dx, dy, w)
    ensures Exact(w, after, x, y)
  {
    forall d, e | InRange(d, e) && (d, e) != (0, 0) ensures ExactAt(w, after, x, y, d, e) {
      assert StepAt(g, after, x, y, dx, dy, w, d, e);
      StepExactAt(g, before, after, x, y, dx, dy, d, e);
    }
  }

  /** What a cell really shows after a step to the south-east or south-west. */
  function Shown(t: Walkable, x: int, y: int, dx: int, d: int, e: int): bool {
    if d == dx * W then t(x + d, y + e)
    else if e == -W then t(x + d - dx, y + e)
    else if e == W then t(x + d + dx, y + e)
    else t(x + d, y + e)
  }

  /**
   * A step to the south-east or south-west leaves the first row one column behind and moves the last row,
   * already fresh, one column too far. Every other row, and the column refreshed last, is exact.
   */
  lemma SouthernDiagonal(g: Grid, before: Walkable, after: Walkable, x: int, y: int, dx: int, d: int, e: int)
    requires (dx == 1 || dx == -1) && InRange(d, e) && (d, e) != (0, 0)
    requires Exact(g, before, x - dx, y - 1) && OnlyStepTiles(before, after, x, y, dx, 1)
    ensures Stepped(g, after, x, y, dx, 1, d, e) == Shown(after, x, y, dx, d, e)
  {
    if (d, e) != (-dx, -1) && d != dx * W && e < W {
      if e == -W {
        Carried(g, before, after, x, y, dx, 1, d, e + 1);
      } else {
        Carried(g, before, after, x, y, dx, 1, d + dx, e + 1);
      }
    }
  }

  /** The tiles under column d of the first and last row agree with the neighbours that those cells show. */
  predicate EdgeAgrees(t: Walkable, x: int, y: int, dx: int, d: int) {
    Shown(t, x, y, dx, d, -W) == t(x + d, y - W) && Shown(t, x, y, dx, d, W) == t(x + d, y + W)
  }

  ghost predicate EdgesAgree(t: Walkable, x: int, y: int, dx: int) {
    forall d {:trigger EdgeAgrees(t, x, y, dx, d)} :: -W <= d <= W ==> EdgeAgrees(t, x, y, dx, d)
  }

  lemma SouthernDiagonalExact(g: Grid, before: Walkable, after: Walkable, x: int, y: int, dx: int, w: Grid)
    requires dx == 1 || dx == -1
    requires Exact(g, before, x - dx, y - 1) && OnlyStepTiles(before, after, x, y, dx, 1)
    requires StepTo(g, after, x, y, dx, 1, w)
    ensures Exact(w, after, x, y) <==> EdgesAgree(after, x, y, dx)
  {
    forall d, e | InRange(d, e) && (d, e) != (0, 0) ensures w[(d, e)] == Shown(after, x, y, dx, d, e) {
      assert StepAt(g, after, x, y, dx, 1, w, d, e);
      SouthernDiagonal(g, before, after, x, y, dx, d, e);
    }
    if Exact(w, after, x, y) {
      forall d | -W <= d <= W ensures EdgeAgrees(after, x, y, dx, d) {
        assert ExactAt(w, after, x, y, d, -W) && ExactAt(w, after, x, y, d, W);
      }
    }
    if EdgesAgree(after, x, y, dx) {
      forall d, e | InRange(d, e) && (d, e) != (0, 0) ensures ExactAt(w, after, x, y, d, e) {
        assert EdgeAgrees(after, x, y, dx, d);
      }
    }
  }

  /**
   * A step keeps the cache exact when, and only when, it does not lead south-east or south-west, or the tiles
   * along the first and last row happen to agree with their neighbours.
   */
  lemma StepKeepsExact(g: Grid, before: Walkable, after: Walkable, x: int, y: int, dx: int, dy: int, w: Grid)
    requires IsStep(dx, dy) && Exact(g, before, x - dx, y - dy) && OnlyStepTiles(before, after, x, y, dx, dy)
    requires StepTo(g, after, x, y, dx, dy, w)
    ensures Exact(w, after, x, y) <==> !(dy == 1 && dx != 0) || EdgesAgree(after, x, y, dx)
  {
    if dy == 1 && dx != 0 {
      SouthernDiagonalExact(g, before, after, x, y, dx, w);
    } else {
      StepExact(g, before, after, x, y, dx, dy, w);
    }
  }

  /** On a map with a single tile to walk on, such a step makes the cache wrong. */
  lemma SouthernDiagonalFails(g: Grid, t: Walkable, x: int, y: int, dx: int, w: Grid)
    requires (dx == 1 || dx == -1) && Exact(g, t, x - dx, y - 1) && StepTo(g, t, x, y, dx, 1, w)
    requires forall a, b {:trigger t(a, b)} :: t(a, b) <==> (a, b) == (x, y - W)
    ensures !Exact(w, t, x, y)
  {
    SouthernDiagonal(g, t, t, x, y, dx, 0, -W);
    assert StepAt(g, t, x, y, dx, 1, w, 0, -W);
    assert !ExactAt(w, t, x, y, 0, -W);
  }

  // ---------- the parts of a step ----------

  datatype Part =
    | RowsDown
    | RowsUp
    | ColumnsLeft(starty: nat)
    | ColumnsRight(starty: nat)
    | FreshRow(row: int)
    | FreshColumn(column: int)
    | FreshCell(a: int, b: int)

  /** What one part of a step makes of the cell at (d, e); cells that it leaves stale keep their value. */
  function PartCell(p: Part, g: Grid, t: Walkable, x: int, y: int, d: int, e: int): bool
    requires InRange(d, e) && Full(g)
  {
    match p
    case RowsDown => if e > -W then g[(d, e - 1)] else g[(d, e)]
    case RowsUp => if e < W then g[(d, e + 1)] else g[(d, e)]
    case ColumnsLeft(starty) => if W + e >= starty && d < W then g[(d + 1, e)] else g[(d, e)]
    case ColumnsRight(starty) => if W + e >= starty && d > -W then g[(d - 1, e)] else g[(d, e)]
    case FreshRow(row) => if e == row then t(x + d, y + e) else g[(d, e)]
    case FreshColumn(column) => if d == column then t(x + d, y + e) else g[(d, e)]
    case FreshCell(a, b) => if (d, e) == (a, b) then t(x + d, y + e) else g[(d, e)]
  }

  ghost predicate PartAt(p: Part, g: Grid, t: Walkable, x: int, y: int, w: Grid, d: int, e: int)
    requires Full(g) && Full(w) && InRange(d, e)
  {
    w[(d, e)] == PartCell(p, g, t, x, y, d, e)
  }

  ghost predicate PartTo(p: Part, g: Grid, t: Walkable, x: int, y: int, w: Grid) {
    Full(g) && Full(w) && forall d, e {:trigger PartAt(p, g, t, x, y, w, d, e)} ::
      InRange(d, e) ==> PartAt(p, g, t, x, y, w, d, e)
  }

  /** The vertical part of a step: a shift of the rows and a fresh first or last row. */
  ghost predicate VerticalTo(g: Grid, t: Walkable, x: int, y: int, dy: int, s: Grid, v: Grid) {
    if dy < 0 then PartTo(RowsDown, g, t, x, y, s) && PartTo(FreshRow(-W), s, t, x, y, v)
    else if dy > 0 then PartTo(RowsUp, g, t, x, y, s) && PartTo(FreshRow(W), s, t, x, y, v)
    else Full(g) && v == g
  }

  lemma VerticalAt(g: Grid, t: Walkable, x: int, y: int, dy: int, s: Grid, v: Grid, d: int, e: int)
    requires VerticalTo(g, t, x, y, dy, s, v) && InRange(d, e)
    ensures v[(d, e)] == Vertical(g, t, x, y, dy, d, e)
  {
    if dy < 0 {
      assert PartAt(RowsDown, g, t, x, y, s, d, e) && PartAt(FreshRow(-W), s, t, x, y, v, d, e);
    } else if dy > 0 {
      assert PartAt(RowsUp, g, t, x, y, s, d, e) && PartAt(FreshRow(W), s, t, x, y, v, d, e);
    }
  }

  ghost predicate SidewaysTo(v: Grid, t: Walkable, x: int, y: int, dx: int, starty: nat, s: Grid, h: Grid) {
    if dx > 0 then PartTo(ColumnsLeft(starty), v, t, x, y, s) && PartTo(FreshColumn(W), s, t, x, y, h)
    else if dx < 0 then PartTo(ColumnsRight(starty), v, t, x, y, s) && PartTo(FreshColumn(-W), s, t, x, y, h)
    else Full(v) && h == v
  }

  lemma SidewaysAt(v: Grid, t: Walkable, x: int, y: int, dx: int, starty: nat, s: Grid, h: Grid, d: int, e: int)
    requires SidewaysTo(v, t, x, y, dx, starty, s, h) && -1 <= dx <= 1 && InRange(d, e)
    ensures h[(d, e)] ==
      if dx != 0 && d == dx * W then t(x + d, y + e)
      else if W + e >= starty then v[(d + dx, e)]
      else v[(d, e)]
  {
    if dx > 0 {
      assert PartAt(ColumnsLeft(starty), v, t, x, y, s, d, e) && PartAt(FreshColumn(W), s, t, x, y, h, d, e);
    } else if dx < 0 {
      assert PartAt(ColumnsRight(starty), v, t, x, y, s, d, e) && PartAt(FreshColumn(-W), s, t, x, y, h, d, e);
    }
  }

  /** The parts that the code goes through make up the step. */
  lemma Composed(g: Grid, s1: Grid, v: Grid, s2: Grid, h: Grid, w: Grid, t: Walkable, x: int, y: int,
                 dx: int, dy: int, starty: nat)
    requires IsStep(dx, dy) && starty == (if dy == 0 then 0 else 1)
    requires VerticalTo(g, t, x, y, dy, s1, v) && SidewaysTo(v, t, x, y, dx, starty, s2, h)
    requires PartTo(FreshCell(-dx, -dy), h, t, x, y, w)
    ensures StepTo(g, t, x, y, dx, dy, w)
  {
    forall d, e | InRange(d, e) ensures StepAt(g, t, x, y, dx, dy, w, d, e) {
      assert PartAt(FreshCell(-dx, -dy), h, t, x, y, w, d, e);
      SidewaysAt(v, t, x, y, dx, starty, s2, h, d, e);
      VerticalAt(g, t, x, y, dy, s1, v, d, e);
      if InRange(d + dx, e) {
        VerticalAt(g, t, x, y, dy, s1, v, d + dx, e);
      }
    }
  }

  // ---------- the creature ----------

  function Cells(): (s: set<(int, int)>)
    ensures forall d, e :: (d, e) in s <==> InRange(d, e)
  {
    set d, e | -W <= d <= W && -W <= e <= W :: (d, e)
  }

  class Creature {
    var x: int
    var y: int
    const localMapCache: array2<bool>

    ghost predicate Valid() {
      localMapCache.Length0 == SIZE && localMapCache.Length1 == SIZE
    }

    ghost function View(): (g: Grid)
      requires Valid()
      reads localMapCache
      ensures Full(g)
      ensures forall d, e {:trigger g[(d, e)]} :: InRange(d, e) ==> g[(d, e)] == localMapCache[W + e, W + d]
    {
      map p: (int, int) | p in Cells() :: localMapCache[W + p.1, W + p.0]
    }

    constructor (x: int, y: int)
      ensures Valid() && this.x == x && this.y == y && fresh(localMapCache)
    {
      this.x, this.y := x, y;
      localMapCache := new bool[SIZE, SIZE]((i, j) => false);
    }

    method UpdateTileCache(t: Walkable, dx: int, dy: int)
      requires Valid()
      modifies localMapCache
      ensures forall r, c {:trigger localMapCache[r, c]} :: 0 <= r < SIZE && 0 <= c < SIZE ==>
        localMapCache[r, c] == if (c - W, r - W) == (dx, dy) then t(x + dx, y + dy) else old(localMapCache[r, c])
    {
      if InRange(dx, dy) {
        localMapCache[W + dy, W + dx] := t(x + dx, y + dy);
      }
    }

    method RefreshTile(t: Walkable, dx: int, dy: int)
      requires Valid()
      modifies localMapCache
      ensures PartTo(FreshCell(dx, dy), old(View()), t, x, y, View())
    {
      ghost var g := View();
      UpdateTileCache(t, dx, dy);
      ghost var w := View();
      forall d, e | InRange(d, e) ensures PartAt(FreshCell(dx, dy), g, t, x, y, w, d, e) {
        assert w[(d, e)] == localMapCache[W + e, W + d];
        assert g[(d, e)] == old(localMapCache[W + e, W + d]);
      }
    }

    /** The cell (r, c) while row e is refreshed, up to offset d. */
    ghost predicate RowTo(g: Grid, t: Walkable, d: int, e: int, r: int, c: int)
      requires Valid() && Full(g) && 0 <= r < SIZE && 0 <= c < SIZE
      reads this, localMapCache
    {
      localMapCache[r, c] == if r == W + e && c < W + d then t(x + (c - W), y + e) else g[(c - W, r - W)]
    }

    ghost predicate AllRowTo(g: Grid, t: Walkable, d: int, e: int)
      requires Valid() && Full(g)
      reads this, localMapCache
    {
      forall r, c {:trigger RowTo(g, t, d, e, r, c)} :: 0 <= r < SIZE && 0 <= c < SIZE ==> RowTo(g, t, d, e, r, c)
    }

    ghost predicate ColumnTo(g: Grid, t: Walkable, d: int, e: int, r: int, c: int)
      requires Valid() && Full(g) && 0 <= r < SIZE && 0 <= c < SIZE
      reads this, localMapCache
    {
      localMapCache[r, c] == if c == W + d && r < W + e then t(x + d, y + (r - W)) else g[(c - W, r - W)]
    }

    ghost predicate AllColumnTo(g: Grid, t: Walkable, d: int, e: int)
      requires Valid() && Full(g)
      reads this, localMapCache
    {
      forall r, c {:trigger ColumnTo(g, t, d, e, r, c)} :: 0 <= r < SIZE && 0 <= c < SIZE ==> ColumnTo(g, t, d, e, r, c)
    }

    method RefreshInRow(t: Walkable, d: int, e: int, ghost g: Grid)
      requires Valid() && Full(g) && -W <= d <= W && -W <= e <= W
      requires AllRowTo(g, t, d, e)
      modifies localMapCache
      ensures AllRowTo(g, t, d + 1, e)
    {
      UpdateTileCache(t, d, e);
      forall r, c {:trigger RowTo(g, t, d + 1, e, r, c)} | 0 <= r < SIZE && 0 <= c < SIZE
        ensures RowTo(g, t, d + 1, e, r, c)
      {
        assert old(RowTo(g, t, d, e, r, c));
      }
    }

    method UpdateRow(t: Walkable, e: int)
      requires Valid() && -W <= e <= W
      modifies localMapCache
      ensures PartTo(FreshRow(e), old(View()), t, x, y, View())
    {
      ghost var g := View();
      var d := -W;
      forall r, c {:trigger RowTo(g, t, d, e, r, c)} | 0 <= r < SIZE && 0 <= c < SIZE
        ensures RowTo(g, t, d, e, r, c)
      {
        assert g[(c - W, r - W)] == localMapCache[r, c];
      }
      while d <= W
        invariant -W <= d <= W + 1
        invariant AllRowTo(g, t, d, e)
      {
        RefreshInRow(t, d, e, g);
        d := d + 1;
      }
      forall a, b | InRange(a, b) ensures PartAt(FreshRow(e), g, t, x, y, View(), a, b) {
        assert RowTo(g, t, d, e, W + b, W + a) && View()[(a, b)] == localMapCache[W + b, W + a];
      }
    }

    method RefreshInColumn(t: Walkable, d: int, e: int, ghost g: Grid)
      requires Valid() && Full(g) && -W <= d <= W && -W <= e <= W
      requires AllColumnTo(g, t, d, e)
      modifies localMapCache
      ensures AllColumnTo(g, t, d, e + 1)
    {
      UpdateTileCache(t, d, e);
      forall r, c {:trigger ColumnTo(g, t, d, e + 1, r, c)} | 0 <= r < SIZE && 0 <= c < SIZE
        ensures ColumnTo(g, t, d, e + 1, r, c)
      {
        assert old(ColumnTo(g, t, d, e, r, c));
      }
    }

    method UpdateColumn(t: Walkable, d: int)
      requires Valid() && -W <= d <= W
      modifies localMapCache
      ensures PartTo(FreshColumn(d), old(View()), t, x, y, View())
    {
      ghost var g := View();
      var e := -W;
      forall r, c {:trigger ColumnTo(g, t, d, e, r, c)} | 0 <= r < SIZE && 0 <= c < SIZE
        ensures ColumnTo(g, t, d, e, r, c)
      {
        assert g[(c - W, r - W)] == localMapCache[r, c];
      }
      while e <= W
        invariant -W <= e <= W + 1
        invariant AllColumnTo(g, t, d, e)
      {
        RefreshInColumn(t, d, e, g);
        e := e + 1;
      }
      forall a, b | InRange(a, b) ensures PartAt(FreshColumn(d), g, t, x, y, View(), a, b) {
        assert ColumnTo(g, t, d, e, W + b, W + a) && View()[(a, b)] == localMapCache[W + b, W + a];
      }
    }

    /** The full recompute. */
    method UpdateMapCache(t: Walkable)
      requires Valid()
      modifies localMapCache
      ensures Exact(View(), t, x, y)
    {
      var e := -W;
      while e <= W
        invariant -W <= e <= W + 1
        invariant forall d, b {:trigger ExactAt(View(), t, x, y, d, b)} ::
          InRange(d, b) && b < e ==> ExactAt(View(), t, x, y, d, b)
      {
        ghost var g := View();
        UpdateRow(t, e);
        forall d, b | InRange(d, b) && b < e + 1 ensures ExactAt(View(), t, x, y, d, b) {
          assert PartAt(FreshRow(e), g, t, x, y, View(), d, b);
          assert b < e ==> ExactAt(g, t, x, y, d, b);
        }
        e := e + 1;
      }
    }

    /** The cell (r, c) while the rows move south: those behind `row` are done. */
    ghost predicate SouthTo(g: Grid, row: int, r: int, c: int)
      requires Valid() && Full(g) && 0 <= r < SIZE && 0 <= c < SIZE
      reads localMapCache
    {
      localMapCache[r, c] == if r > 0 && r > row then g[(c - W, r - 1 - W)] else g[(c - W, r - W)]
    }

    ghost predicate AllSouthTo(g: Grid, row: int)
      requires Valid() && Full(g)
      reads localMapCache
    {
      forall r, c {:trigger SouthTo(g, row, r, c)} :: 0 <= r < SIZE && 0 <= c < SIZE ==> SouthTo(g, row, r, c)
    }

    ghost predicate NorthTo(g: Grid, row: int, r: int, c: int)
      requires Valid() && Full(g) && 0 <= r < SIZE && 0 <= c < SIZE
      reads localMapCache
    {
      localMapCache[r, c] == if r < SIZE - 1 && r < row then g[(c - W, r + 1 - W)] else g[(c - W, r - W)]
    }

    ghost predicate AllNorthTo(g: Grid, row: int)
      requires Valid() && Full(g)
      reads localMapCache
    {
      forall r, c {:trigger NorthTo(g, row, r, c)} :: 0 <= r < SIZE && 0 <= c < SIZE ==> NorthTo(g, row, r, c)
    }

    method MoveSouth(row: nat, ghost g: Grid)
      requires Valid() && Full(g) && row < SIZE - 1 && AllSouthTo(g, row + 1)
      modifies localMapCache
      ensures AllSouthTo(g, row)
    {
      forall c | 0 <= c < SIZE {
        localMapCache[row + 1, c] := localMapCache[row, c];
      }
      forall r, c {:trigger SouthTo(g, row, r, c)} | 0 <= r < SIZE && 0 <= c < SIZE ensures SouthTo(g, row, r, c) {
        assert old(SouthTo(g, row + 1, r, c)) && old(SouthTo(g, row + 1, row, c));
      }
    }

    method ShiftSouth(ghost t: Walkable)
      requires Valid()
      modifies localMapCache
      ensures PartTo(RowsDown, old(View()), t, x, y, View())
    {
      ghost var g := View();
      var row := SIZE - 1;
      forall r, c {:trigger SouthTo(g, row, r, c)} | 0 <= r < SIZE && 0 <= c < SIZE ensures SouthTo(g, row, r, c) {
        assert g[(c - W, r - W)] == localMapCache[r, c];
      }
      while row > 0
        invariant 0 <= row <= SIZE - 1 && AllSouthTo(g, row)
      {
        row := row - 1;
        MoveSouth(row, g);
      }
      forall d, e | InRange(d, e) ensures PartAt(RowsDown, g, t, x, y, View(), d, e) {
        assert SouthTo(g, row, W + e, W + d) && View()[(d, e)] == localMapCache[W + e, W + d];
      }
    }

    method MoveNorth(row: nat, ghost g: Grid)
      requires Valid() && Full(g) && row < SIZE - 1 && AllNorthTo(g, row)
      modifies localMapCache
      ensures AllNorthTo(g, row + 1)
    {
      forall c | 0 <= c < SIZE {
        localMapCache[row, c] := localMapCache[row + 1, c];
      }
      forall r, c {:trigger NorthTo(g, row + 1, r, c)} | 0 <= r < SIZE && 0 <= c < SIZE
        ensures NorthTo(g, row + 1, r, c)
      {
        assert old(NorthTo(g, row, r, c)) && old(NorthTo(g, row, row + 1, c));
      }
    }

    method ShiftNorth(ghost t: Walkable)
      requires Valid()
      modifies localMapCache
      ensures PartTo(RowsUp, old(View()), t, x, y, View())
    {
      ghost var g := View();
      var row := 0;
      forall r, c {:trigger NorthTo(g, row, r, c)} | 0 <= r < SIZE && 0 <= c < SIZE ensures NorthTo(g, row, r, c) {
        assert g[(c - W, r - W)] == localMapCache[r, c];
      }
      while row <= SIZE - 2
        invariant 0 <= row <= SIZE - 1 && AllNorthTo(g, row)
      {
        MoveNorth(row, g);
        row := row + 1;
      }
      forall d, e | InRange(d, e) ensures PartAt(RowsUp, g, t, x, y, View(), d, e) {
        assert NorthTo(g, row, W + e, W + d) && View()[(d, e)] == localMapCache[W + e, W + d];
      }
    }

    /** The cell (r, c) while the rows move west: the rows before `row` are done, and `row` up to column `col`. */
    ghost predicate WestTo(g: Grid, starty: int, row: int, col: int, r: int, c: int)
      requires Valid() && Full(g) && 0 <= r < SIZE && 0 <= c < SIZE
      reads localMapCache
    {
      localMapCache[r, c] ==
        if c < SIZE - 1 && ((starty <= r < row) || (r == row && c < col)) then g[(c + 1 - W, r - W)]
          else g[(c - W, r - W)]
    }

    ghost predicate AllWestTo(g: Grid, starty: int, row: int, col: int)
      requires Valid() && Full(g)
      reads localMapCache
    {
      forall r, c {:trigger WestTo(g, starty, row, col, r, c)} ::
        0 <= r < SIZE && 0 <= c < SIZE ==> WestTo(g, starty, row, col, r, c)
    }

    ghost predicate EastTo(g: Grid, starty: int, row: int, col: int, r: int, c: int)
      requires Valid() && Full(g) && 0 <= r < SIZE && 0 <= c < SIZE
      reads localMapCache
    {
      localMapCache[r, c] ==
        if c > 0 && ((starty <= r < row) || (r == row && c > col)) then g[(c - 1 - W, r - W)] else g[(c - W, r - W)]
    }

    ghost predicate AllEastTo(g: Grid, starty: int, row: int, col: int)
      requires Valid() && Full(g)
      reads localMapCache
    {
      forall r, c {:trigger EastTo(g, starty, row, col, r, c)} ::
        0 <= r < SIZE && 0 <= c < SIZE ==> EastTo(g, starty, row, col, r, c)
    }

    method MoveWest(row: nat, col: nat, ghost g: Grid, ghost starty: nat)
      requires Valid() && Full(g) && starty <= row < SIZE && col <= SIZE - 2
      requires AllWestTo(g, starty, row, col)
      modifies localMapCache
      ensures AllWestTo(g, starty, row, col + 1)
    {
      localMapCache[row, col] := localMapCache[row, col + 1];
      forall r, c {:trigger WestTo(g, starty, row, col + 1, r, c)} | 0 <= r < SIZE && 0 <= c < SIZE
        ensures WestTo(g, starty, row, col + 1, r, c)
      {
        assert old(WestTo(g, starty, row, col, r, c)) && old(WestTo(g, starty, row, col, row, col + 1));
      }
    }

    /** Rows from starty on move one column to the west. */
    method ShiftWest(starty: nat, ghost t: Walkable)
      requires Valid() && starty <= 1
      modifies localMapCache
      ensures PartTo(ColumnsLeft(starty), old(View()), t, x, y, View())
    {
      ghost var g := View();
      var row := starty;
      forall r, c {:trigger WestTo(g, starty, row, 0, r, c)} | 0 <= r < SIZE && 0 <= c < SIZE
        ensures WestTo(g, starty, row, 0, r, c)
      {
        assert g[(c - W, r - W)] == localMapCache[r, c];
      }
      while row <= SIZE - 1
        invariant starty <= row <= SIZE
        invariant AllWestTo(g, starty, row, 0)
      {
        var col := 0;
        while col <= SIZE - 2
          invariant 0 <= col <= SIZE - 1
          invariant AllWestTo(g, starty, row, col)
        {
          MoveWest(row, col, g, starty);
          col := col + 1;
        }
        forall r, c {:trigger WestTo(g, starty, row + 1, 0, r, c)} | 0 <= r < SIZE && 0 <= c < SIZE
          ensures WestTo(g, starty, row + 1, 0, r, c)
        {
          assert WestTo(g, starty, row, col, r, c);
        }
        assert AllWestTo(g, starty, row + 1, 0);
        row := row + 1;
      }
      forall d, e | InRange(d, e) ensures PartAt(ColumnsLeft(starty), g, t, x, y, View(), d, e) {
        assert WestTo(g, starty, row, 0, W + e, W + d) && View()[(d, e)] == localMapCache[W + e, W + d];
      }
    }

    method MoveEast(row: nat, col: nat, ghost g: Grid, ghost starty: nat)
      requires Valid() && Full(g) && starty <= row < SIZE && 1 <= col < SIZE
      requires AllEastTo(g, starty, row, col)
      modifies localMapCache
      ensures AllEastTo(g, starty, row, col - 1)
    {
      localMapCache[row, col] := localMapCache[row, col - 1];
      forall r, c {:trigger EastTo(g, starty, row, col - 1, r, c)} | 0 <= r < SIZE && 0 <= c < SIZE
        ensures EastTo(g, starty, row, col - 1, r, c)
      {
        assert old(EastTo(g, starty, row, col, r, c)) && old(EastTo(g, starty, row, col, row, col - 1));
      }
    }

    /** Rows from starty on move one column to the east. */
    method ShiftEast(starty: nat, ghost t: Walkable)
      requires Valid() && starty <= 1
      modifies localMapCache
      ensures PartTo(ColumnsRight(starty), old(View()), t, x, y, View())
    {
      ghost var g := View();
      var row := starty;
      forall r, c {:trigger EastTo(g, starty, row, SIZE - 1, r, c)} | 0 <= r < SIZE && 0 <= c < SIZE
        ensures EastTo(g, starty, row, SIZE - 1, r, c)
      {
        assert g[(c - W, r - W)] == localMapCache[r, c];
      }
      while row <= SIZE - 1
        invariant starty <= row <= SIZE
        invariant AllEastTo(g, starty, row, SIZE - 1)
      {
        var col := SIZE - 1;
        while col > 0
          invariant 0 <= col <= SIZE - 1
          invariant AllEastTo(g, starty, row, col)
        {
          MoveEast(row, col, g, starty);
          col := col - 1;
        }
        forall r, c {:trigger EastTo(g, starty, row + 1, SIZE - 1, r, c)} | 0 <= r < SIZE && 0 <= c < SIZE
          ensures EastTo(g, starty, row + 1, SIZE - 1, r, c)
        {
          assert EastTo(g, starty, row, col, r, c);
        }
        assert AllEastTo(g, starty, row + 1, SIZE - 1);
        row := row + 1;
      }
      forall d, e | InRange(d, e) ensures PartAt(ColumnsRight(starty), g, t, x, y, View(), d, e) {
        assert EastTo(g, starty, row, SIZE - 1, W + e, W + d) && View()[(d, e)] == localMapCache[W + e, W + d];
      }
    }

    method StepVertically(t: Walkable, dy: int) returns (ghost s: Grid)
      requires Valid()
      modifies localMapCache
      ensures VerticalTo(old(View()), t, x, y, dy, s, View())
    {
      s := View();
      if dy < 0 { // north
        ShiftSouth(t);
        s := View();
        UpdateRow(t, -W);
      } else if dy > 0 { // south
        ShiftNorth(t);
        s := View();
        UpdateRow(t, W);
      }
    }

    method StepSideways(t: Walkable, dx: int, starty: nat) returns (ghost s: Grid)
      requires Valid() && starty <= 1
      modifies localMapCache
      ensures SidewaysTo(old(View()), t, x, y, dx, starty, s, View())
    {
      s := View();
      if dx > 0 { // east
        ShiftWest(starty, t);
        s := View();
        UpdateColumn(t, W);
      } else if dx < 0 { // west
        ShiftEast(starty, t);
        s := View();
        UpdateColumn(t, -W);
      }
    }

    /** The part of `onCreatureMove` that follows the creature's own step on its floor. */
    method OnStep(newX: int, newY: int, t: Walkable)
      requires Valid() && IsStep(newX - x, newY - y)
      modifies this, localMapCache
      ensures x == newX && y == newY && Valid()
      ensures StepTo(old(View()), t, newX, newY, newX - old(x), newY - old(y), View())
    {
      var dx, dy := newX - x, newY - y;
      ghost var g := View();
      x, y := newX, newY;
      ghost var s1, v, s2;
      var starty;
      s1, v, s2, starty := Shift(t, dx, dy);
      ghost var h := View();
      RefreshTile(t, -dx, -dy);
      Composed(g, s1, v, s2, h, View(), t, newX, newY, dx, dy, starty);
    }

    /** The vertical part and then the sideways part. */
    method Shift(t: Walkable, dx: int, dy: int) returns (ghost s1: Grid, ghost v: Grid, ghost s2: Grid, starty: nat)
      requires Valid() && IsStep(dx, dy)
      modifies localMapCache
      ensures starty == if dy == 0 then 0 else 1
      ensures VerticalTo(old(View()), t, x, y, dy, s1, v) && SidewaysTo(v, t, x, y, dx, starty, s2, View())
    {
      s1 := StepVertically(t, dy);
      v := View();
      // getDistanceY is an absolute value: the rows shifted start at 1 after a step to the north or south alike
      starty := if dy < 0 then -dy else dy;
      s2 := StepSideways(t, dx, starty);
    }

    /** A teleport or a change of floor: everything is recomputed. */
    method OnTeleport(newX: int, newY: int, t: Walkable)
      requires Valid()
      modifies this, localMapCache
      ensures x == newX && y == newY && Valid() && Exact(View(), t, x, y)
    {
      x, y := newX, newY;
      UpdateMapCache(t);
    }

    /**
     * An item was added to the tile at (a, b) of the creature's floor, or one that blocks, blocks paths or is ground
     * was changed or removed. Other changes refresh nothing: they are taken to leave alone whether one can walk there.
     */
    method OnTileChange(a: int, b: int, t: Walkable)
      requires Valid()
      modifies localMapCache
      ensures PartTo(FreshCell(a - x, b - y), old(View()), t, x, y, View())
    {
      RefreshTile(t, a - x, b - y);
    }

    /** `getWalkCache` of a position on the creature's own floor: 1 walkable, 0 not, 2 unknown. */
    method GetWalkCache(a: int, b: int, ghost t: Walkable) returns (r: int)
      requires Valid() && Exact(View(), t, x, y)
      ensures r == if (a, b) == (x, y) then 1 else if !InRange(a - x, b - y) then 2 else if t(a, b) then 1 else 0
    {
      if (a, b) == (x, y) {
        return 1;
      }
      if InRange(a - x, b - y) {
        assert ExactAt(View(), t, x, y, a - x, b - y);
        return if localMapCache[W + (b - y), W + (a - x)] then 1 else 0;
      }
      return 2;
    }
  }

  // ---------- whole walks ----------

  datatype State = State(g: Grid, x: int, y: int, t: Walkable)

  datatype Event = Step(dx: int, dy: int) | Teleport | TileChange(a: int, b: int)

  ghost predicate OnlyTile(before: Walkable, after: Walkable, a: int, b: int) {
    forall p, q {:trigger SameTile(before, after, p, q)} :: (p, q) != (a, b) ==> SameTile(before, after, p, q)
  }

  /** Refreshing the one tile that changed keeps the cache exact. */
  lemma TileChangeExact(g: Grid, before: Walkable, after: Walkable, x: int, y: int, a: int, b: int, w: Grid)
    requires Exact(g, before, x, y) && OnlyTile(before, after, a, b)
    requires PartTo(FreshCell(a - x, b - y), g, after, x, y, w)
    ensures Exact(w, after, x, y)
  {
    forall d, e | InRange(d, e) && (d, e) != (0, 0) ensures ExactAt(w, after, x, y, d, e) {
      assert PartAt(FreshCell(a - x, b - y), g, after, x, y, w, d, e);
      assert ExactAt(g, before, x, y, d, e);
      if (x + d, y + e) != (a, b) {
        assert SameTile(before, after, x + d, y + e);
      }
    }
  }

  ghost predicate Next(s: State, e: Event, s': State) {
    match e
    case Step(dx, dy) =>
      && IsStep(dx, dy) && s'.x == s.x + dx && s'.y == s.y + dy
      && OnlyStepTiles(s.t, s'.t, s'.x, s'.y, dx, dy) && StepTo(s.g, s'.t, s'.x, s'.y, dx, dy, s'.g)
    case Teleport => Exact(s'.g, s'.t, s'.x, s'.y)
    case TileChange(a, b) =>
      && (s'.x, s'.y) == (s.x, s.y) && OnlyTile(s.t, s'.t, a, b)
      && PartTo(FreshCell(a - s.x, b - s.y), s.g, s'.t, s.x, s.y, s'.g)
  }

  ghost predicate Walk(states: seq<State>, events: seq<Event>) {
    |states| == |events| + 1 && forall i :: 0 <= i < |events| ==> Next(states[i], events[i], states[i + 1])
  }

  /**
   * On every walk the cache is exact at the end, when it was exact at the start or there was a full recompute,
   * and from then on every step to the south-east or south-west found its edge rows in agreement.
   */
  lemma {:induction false} WalkExact(states: seq<State>, events: seq<Event>, since: nat)
    requires Walk(states, events) && since <= |events|
    requires Exact(states[since].g, states[since].t, states[since].x, states[since].y)
    requires forall i :: since <= i < |events| && events[i].Step? && events[i].dy == 1 && events[i].dx != 0 ==>
      EdgesAgree(states[i + 1].t, states[i + 1].x, states[i + 1].y, events[i].dx)
    ensures var s := states[|events|]; Exact(s.g, s.t, s.x, s.y)
  {
    if since < |events| {
      var n := |events| - 1;
      WalkExact(states[..n + 1], events[..n], since);
      var s, s' := states[n], states[n + 1];
      assert Next(s, events[n], s');
      match events[n]
      case Step(dx, dy) => StepKeepsExact(s.g, s.t, s'.t, s'.x, s'.y, dx, dy, s'.g);
      case Teleport =>
      case TileChange(a, b) => TileChangeExact(s.g, s.t, s'.t, s.x, s.y, a, b, s'.g);
    }
  }
}
