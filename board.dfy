/**
 * Grid primitives of Settlement Chess (board.js): plain chess boards as
 * values, algebraic squares, the world record with its tile grid and fog
 * grid, revealing fog around a point and claiming territory.
 */
module Board {
  import opened Wrappers
  import opened Decimal

  datatype PieceType = K | Q | R | B | N | P

  datatype NodeType = Factory | Training | Monastery | Castle | Stable

  /**
   * A roster entry `{type, color}`; pieces made by production also carry
   * `armyId`, kept here as `owner`.
   */
  datatype Piece = Piece(kind: PieceType, color: string, owner: Option<string>)

  /** What a world tile holds: `null`, a deployed piece, a production marker or a claim marker. */
  datatype Tile =
    | Empty
    | Deployed(kind: PieceType, color: string, armyId: string)
    | ProductionSite(nodeType: NodeType, nodeId: string)
    | Claimed(player: string)

  datatype ProductionNode = ProductionNode(x: int, y: int, nodeType: NodeType, id: string, active: bool)

  /* ---------------------------------------------------------------------- */
  /* Plain boards                                                           */
  /* ---------------------------------------------------------------------- */

  /** `height` rows of `width` empty (`null`) cells; eight by eight unless told otherwise. */
  function CreateEmptyBoard<T>(width: nat := 8, height: nat := 8): (b: seq<seq<Option<T>>>)
    ensures |b| == height
    ensures forall y :: 0 <= y < height ==> |b[y]| == width
    ensures forall y, x :: 0 <= y < height && 0 <= x < width ==> b[y][x] == None
  {
    seq(height, _ => seq(width, _ => None))
  }

  /** Called with no arguments, the board is eight rows of eight cells. */
  lemma DefaultBoardIsEightByEight<T>()
    ensures |CreateEmptyBoard<T>()| == 8
    ensures forall y :: 0 <= y < 8 ==> |CreateEmptyBoard<T>()[y]| == 8
  {
  }

  /** A row-by-row copy; as values, copy and original cannot affect each other. */
  function CloneBoard<C>(b: seq<seq<C>>): (r: seq<seq<C>>)
    ensures |r| == |b|
    ensures forall y :: 0 <= y < |b| ==> |r[y]| == |b[y]|
    ensures forall y, x :: 0 <= y < |b| && 0 <= x < |b[y]| ==> r[y][x] == b[y][x]
  {
    seq(|b|, y requires 0 <= y < |b| => b[y][..])
  }

  /**
   * A copy of `b` with `piece` at row `y`, column `x`; `b` itself is left as
   * it was. A column past the end of the row lengthens that row, and the
   * cells skipped over are holes, which read as `hole` (`undefined`). A
   * negative column names a property of the row rather than a cell, so no
   * cell changes.
   */
  function SetPiece<C>(b: seq<seq<C>>, x: int, y: int, piece: C, hole: C): (r: seq<seq<C>>)
    requires 0 <= y < |b|
    ensures |r| == |b|
    ensures forall row :: 0 <= row < |b| && row != y ==> r[row] == b[row]
    ensures x < 0 ==> r[y] == b[y]
    ensures 0 <= x ==> |r[y]| == Max(|b[y]|, x + 1) && r[y][x] == piece
    ensures 0 <= x ==> forall col :: 0 <= col < |r[y]| && col != x ==>
      r[y][col] == if col < |b[y]| then b[y][col] else hole
  {
    var c := CloneBoard(b);
    if x < 0 then c
    else if x < |c[y]| then c[y := c[y][x := piece]]
    else c[y := c[y] + seq(x - |c[y]|, _ => hole) + [piece]]
  }

  /** Setting the same cell twice keeps only the second piece. */
  lemma SetPieceTwice<C>(b: seq<seq<C>>, x: int, y: int, p: C, q: C, hole: C)
    requires 0 <= y < |b|
    ensures SetPiece(SetPiece(b, x, y, p, hole), x, y, q, hole) == SetPiece(b, x, y, q, hole)
  {
    var r1, r2 := SetPiece(SetPiece(b, x, y, p, hole), x, y, q, hole), SetPiece(b, x, y, q, hole);
    assert r1[y] == r2[y];
    assert forall row :: 0 <= row < |b| ==> r1[row] == r2[row];
  }

  /* ---------------------------------------------------------------------- */
  /* Algebraic squares                                                      */
  /* ---------------------------------------------------------------------- */

  /** A lower-case file letter followed by the decimal digits of the rank. */
  predicate IsSquare(square: string) {
    |square| >= 2 && 'a' <= square[0] <= 'z' && IsDigits(square[1..])
  }

  /** The file's character code minus 97 and the rank minus one: "a1" is (0, 0). */
  function CoordToIndex(square: string): (r: (int, int))
    requires IsSquare(square)
    ensures 0 <= r.0 < 26 && r.1 >= -1
  {
    (square[0] as int - 97, DigitsValue(square[1..]) - 1)
  }

  function SquareName(x: nat, y: nat): (s: string)
    requires x < 26
    ensures IsSquare(s)
  {
    [(97 + x) as char] + NatToString(y + 1)
  }

  /** Reading a square's name back gives its indices. */
  lemma CoordToIndexRoundTrip(x: nat, y: nat)
    requires x < 26
    ensures CoordToIndex(SquareName(x, y)) == (x, y)
  {
    var s := SquareName(x, y);
    assert s[1..] == NatToString(y + 1);
    NatToStringRoundTrip(y + 1);
  }

  /** The lower-left square of the code's convention is (0, 0), not row 7. */
  lemma CoordToIndexA1()
    ensures CoordToIndex("a1") == (0, 0)
  {
    assert "a1" == SquareName(0, 0);
    CoordToIndexRoundTrip(0, 0);
  }

  /* ---------------------------------------------------------------------- */
  /* Claim keys: the text `${x},${y}` and `key.split(',').map(Number)`      */
  /* ---------------------------------------------------------------------- */

  function KeyOf(x: int, y: int): string {
    IntToString(x) + "," + IntToString(y)
  }

  /** The first two numbers of `key.split(',')`; None when either is NaN. */
  function ParseKey(key: string): Option<(int, int)> {
    var parts := Split(key, ',');
    var x := NumberOf(parts[0]);
    var y := if |parts| > 1 then NumberOf(parts[1]) else None;
    if x.Some? && y.Some? then Some((x.value, y.value)) else None
  }

  /** A key written for a non-negative coordinate reads back as that coordinate. */
  lemma ParseKeyOfKey(x: nat, y: nat)
    ensures ParseKey(KeyOf(x, y)) == Some((x, y))
  {
    var a, b := NatToString(x), NatToString(y);
    assert KeyOf(x, y) == a + [','] + b;
    DigitsHaveNoComma(a);
    DigitsHaveNoComma(b);
    SplitAtFirstSeparator(a, ',', b);
    SplitWithoutSeparator(b, ',');
    NatToStringRoundTrip(x);
    NatToStringRoundTrip(y);
  }

  /** Distinct non-negative coordinates have distinct keys. */
  lemma KeyOfInjective(x1: nat, y1: nat, x2: nat, y2: nat)
    requires KeyOf(x1, y1) == KeyOf(x2, y2)
    ensures x1 == x2 && y1 == y2
  {
    ParseKeyOfKey(x1, y1);
    ParseKeyOfKey(x2, y2);
  }

  /* ---------------------------------------------------------------------- */
  /* The world record                                                       */
  /* ---------------------------------------------------------------------- */

  /** What `createWorldBoard` returns. */
  datatype WorldRecord = WorldRecord(
    worldGrid: array2<Tile>,
    fogOfWar: array2<bool>,
    productionNodes: seq<ProductionNode>,
    claimedTerritory: seq<string>,
    width: int,
    height: int)

  /** An all-empty grid, an all-fogged fog grid, no nodes, no claims, and the dimensions (20 by 20 unless told otherwise). */
  method CreateWorldBoard(width: nat := 20, height: nat := 20) returns (w: WorldRecord)
    ensures fresh(w.worldGrid) && fresh(w.fogOfWar)
    ensures w.worldGrid.Length0 == height && w.worldGrid.Length1 == width
    ensures w.fogOfWar.Length0 == height && w.fogOfWar.Length1 == width
    ensures forall y, x :: 0 <= y < height && 0 <= x < width ==> w.worldGrid[y, x] == Empty && w.fogOfWar[y, x]
    ensures w.productionNodes == [] && w.claimedTerritory == []
    ensures w.width == width && w.height == height
  {
    var grid := new Tile[height, width]((_, _) => Empty);
    var fog := new bool[height, width]((_, _) => true);
    w := WorldRecord(grid, fog, [], [], width, height);
  }

  /* ---------------------------------------------------------------------- */
  /* Extents: `width` and `height` as read off the object given             */
  /* ---------------------------------------------------------------------- */

  /**
   * The `width` or `height` property of the object handed to `revealTiles`
   * or `deployArmy`: a number on a world record, `undefined` on a
   * `WorldBoard` instance (which only has `worldWidth`/`worldHeight`).
   */
  datatype Extent = Defined(n: int) | Undefined

  /** `v >= 0 && v < e`: a comparison with `undefined` is false. */
  predicate Inside(v: int, e: Extent) {
    0 <= v && e.Defined? && v < e.n
  }

  /** `v < 0 || v >= e`: again false when `e` is `undefined`. */
  predicate Outside(v: int, e: Extent) {
    v < 0 || (e.Defined? && v >= e.n)
  }

  /** A defined extent agrees with the array dimension it stands for. */
  predicate Describes(e: Extent, len: int) {
    e.Defined? ==> e.n == len
  }

  /* ---------------------------------------------------------------------- */
  /* Revealing fog                                                          */
  /* ---------------------------------------------------------------------- */

  datatype Revealed = Revealed(x: int, y: int, tile: Tile)

  function Max(a: int, b: int): int { if a >= b then a else b }
  function Min(a: int, b: int): int { if a <= b then a else b }

  /** Chebyshev distance at most `radius` from the centre. */
  predicate Within(x: int, y: int, cx: int, cy: int, radius: int) {
    cx - radius <= x <= cx + radius && cy - radius <= y <= cy + radius
  }

  /** Row-major order of cells. */
  predicate RowMajorBefore(a: Revealed, b: Revealed) {
    a.y < b.y || (a.y == b.y && a.x < b.x)
  }

  predicate SameShape(fog: array2<bool>, grid: array2<Tile>) {
    fog.Length0 == grid.Length0 && fog.Length1 == grid.Length1
  }

  /** The fog flags of row `y`, as a sequence indexed by column. */
  function FogRow(fog: array2<bool>, y: int): (flags: seq<bool>)
    reads fog
    requires 0 <= y < fog.Length0
    ensures |flags| == fog.Length1 && forall c :: 0 <= c < |flags| ==> flags[c] == fog[y, c]
  {
    seq(fog.Length1, c requires 0 <= c < fog.Length1 reads fog => fog[y, c])
  }

  /**
   * The fogged cells of row `y` between columns `xa` (inclusive) and `xb`
   * (exclusive), left to right, where `flags` are the row's fog flags.
   */
  function RowCells(flags: seq<bool>, grid: array2<Tile>, y: int, xa: int, xb: int): (cells: seq<Revealed>)
    reads grid
    requires 0 <= y < grid.Length0 && |flags| == grid.Length1
    requires 0 <= xa && (xa < xb ==> xb <= |flags|)
    ensures forall k :: 0 <= k < |cells| ==>
      cells[k].y == y && xa <= cells[k].x < xb && flags[cells[k].x] && cells[k].tile == grid[y, cells[k].x]
    decreases xb - xa
  {
    if xb <= xa then []
    else RowCells(flags, grid, y, xa, xb - 1) + (if flags[xb - 1] then [Revealed(xb - 1, y, grid[y, xb - 1])] else [])
  }

  /** The fogged cells of rows `ya..yb` and columns `xa..xb` (upper ends exclusive), in row-major order. */
  function RowsCells(fog: array2<bool>, grid: array2<Tile>, ya: int, yb: int, xa: int, xb: int): (cells: seq<Revealed>)
    reads fog, grid
    requires SameShape(fog, grid)
    requires 0 <= ya && (ya < yb ==> yb <= fog.Length0) && 0 <= xa && (xa < xb ==> xb <= fog.Length1)
    ensures forall k :: 0 <= k < |cells| ==>
      ya <= cells[k].y < yb && xa <= cells[k].x < xb && fog[cells[k].y, cells[k].x] &&
      cells[k].tile == grid[cells[k].y, cells[k].x]
    decreases yb - ya
  {
    if yb <= ya then []
    else
      var before, last := RowsCells(fog, grid, ya, yb - 1, xa, xb), RowCells(FogRow(fog, yb - 1), grid, yb - 1, xa, xb);
      before + last
  }

  /** A row is reported left to right. */
  lemma {:induction false} RowCellsOrdered(flags: seq<bool>, grid: array2<Tile>, y: int, xa: int, xb: int)
    requires 0 <= y < grid.Length0 && |flags| == grid.Length1
    requires 0 <= xa && (xa < xb ==> xb <= |flags|)
    ensures forall k, l :: 0 <= k < l < |RowCells(flags, grid, y, xa, xb)| ==>
      RowCells(flags, grid, y, xa, xb)[k].x < RowCells(flags, grid, y, xa, xb)[l].x
    decreases xb - xa
  {
    if xa < xb {
      var prev := RowCells(flags, grid, y, xa, xb - 1);
      RowCellsOrdered(flags, grid, y, xa, xb - 1);
      var cells := RowCells(flags, grid, y, xa, xb);
      forall k, l | 0 <= k < l < |cells|
        ensures cells[k].x < cells[l].x
      {
        assert cells[k] == prev[k];
        if l < |prev| {
          assert cells[l] == prev[l];
          assert prev[k].x < prev[l].x;
        } else {
          assert cells[l].x == xb - 1;
          assert prev[k].x < xb - 1;
        }
      }
    }
  }

  /** A rectangle is reported in row-major order. */
  lemma {:induction false} RowsCellsOrdered(fog: array2<bool>, grid: array2<Tile>, ya: int, yb: int, xa: int, xb: int)
    requires SameShape(fog, grid)
    requires 0 <= ya && (ya < yb ==> yb <= fog.Length0) && 0 <= xa && (xa < xb ==> xb <= fog.Length1)
    ensures forall k, l :: 0 <= k < l < |RowsCells(fog, grid, ya, yb, xa, xb)| ==>
      RowMajorBefore(RowsCells(fog, grid, ya, yb, xa, xb)[k], RowsCells(fog, grid, ya, yb, xa, xb)[l])
    decreases yb - ya
  {
    if ya < yb {
      var flags := FogRow(fog, yb - 1);
      var before, last := RowsCells(fog, grid, ya, yb - 1, xa, xb), RowCells(flags, grid, yb - 1, xa, xb);
      RowsCellsOrdered(fog, grid, ya, yb - 1, xa, xb);
      RowCellsOrdered(flags, grid, yb - 1, xa, xb);
      var cells := before + last;
      forall k, l | 0 <= k < l < |cells|
        ensures RowMajorBefore(cells[k], cells[l])
      {
        if l < |before| {
          assert cells[k] == before[k] && cells[l] == before[l];
        } else if k >= |before| {
          assert cells[k] == last[k - |before|] && cells[l] == last[l - |before|];
        } else {
          assert cells[k] == before[k] && cells[l] == last[l - |before|];
        }
      }
    }
  }

  /** What `revealTiles` reports: the fogged cells of the clipped square, row by row. */
  function RevealedCells(fog: array2<bool>, grid: array2<Tile>, width: Extent, height: Extent,
                         cx: int, cy: int, radius: int): seq<Revealed>
    reads fog, grid
    requires SameShape(fog, grid)
    requires Describes(width, fog.Length1) && Describes(height, fog.Length0)
  {
    if width.Undefined? || height.Undefined? then []
    else
      RowsCells(fog, grid, Max(0, cy - radius), Min(height.n - 1, cy + radius) + 1,
                Max(0, cx - radius), Min(width.n - 1, cx + radius) + 1)
  }

  /**
   * `revealTiles(world, cx, cy, radius)`: clears the fog of every cell inside
   * the grid within Chebyshev distance `radius` of the centre, and returns the
   * cells that were fogged, in row-major order. With an undefined extent the
   * loop bound is NaN and nothing happens.
   */
  method RevealTiles(fog: array2<bool>, grid: array2<Tile>, width: Extent, height: Extent,
                     cx: int, cy: int, radius: int) returns (revealed: seq<Revealed>)
    requires SameShape(fog, grid)
    requires Describes(width, fog.Length1) && Describes(height, fog.Length0)
    modifies fog
    ensures forall r, c :: 0 <= r < fog.Length0 && 0 <= c < fog.Length1 ==>
      fog[r, c] == (old(fog[r, c]) && !(width.Defined? && height.Defined? && Within(c, r, cx, cy, radius)))
    ensures revealed == old(RevealedCells(fog, grid, width, height, cx, cy, radius))
  {
    revealed := [];
    if width.Undefined? || height.Undefined? {
      return;
    }
    var y0, y1 := Max(0, cy - radius), Min(height.n - 1, cy + radius);
    var x0, x1 := Max(0, cx - radius), Min(width.n - 1, cx + radius);
    var y := y0;
    while y <= y1
      invariant y0 <= y <= Max(y0, y1 + 1)
      invariant revealed == old(RowsCells(fog, grid, y0, y, x0, x1 + 1))
      invariant forall r, c :: 0 <= r < fog.Length0 && 0 <= c < fog.Length1 ==>
        fog[r, c] == (old(fog[r, c]) && !(y0 <= r < y && x0 <= c <= x1))
    {
      assert FogRow(fog, y) == old(FogRow(fog, y));
      var row := RevealRow(fog, grid, y, x0, x1);
      revealed := revealed + row;
      y := y + 1;
    }
  }

  /**
   * The inner loop of `revealTiles`: clears the fog of row `y` from column
   * `x0` to `x1` inclusive and reports the cells that were fogged.
   */
  method RevealRow(fog: array2<bool>, grid: array2<Tile>, y: int, x0: int, x1: int) returns (row: seq<Revealed>)
    requires SameShape(fog, grid)
    requires 0 <= y < fog.Length0 && 0 <= x0 && x1 < fog.Length1
    modifies fog
    ensures forall r, c :: 0 <= r < fog.Length0 && 0 <= c < fog.Length1 ==>
      fog[r, c] == (old(fog[r, c]) && !(r == y && x0 <= c <= x1))
    ensures row == RowCells(old(FogRow(fog, y)), grid, y, x0, x1 + 1)
  {
    row := [];
    var x := x0;
    while x <= x1
      invariant x0 <= x <= Max(x0, x1 + 1)
      invariant row == RowCells(old(FogRow(fog, y)), grid, y, x0, x)
      invariant forall r, c :: 0 <= r < fog.Length0 && 0 <= c < fog.Length1 ==>
        fog[r, c] == (old(fog[r, c]) && !(r == y && x0 <= c < x))
    {
      if fog[y, x] {
        fog[y, x] := false;
        row := row + [Revealed(x, y, grid[y, x])];
      }
      x := x + 1;
    }
  }

  /** Every fogged cell of the given rectangle is reported. */
  lemma {:induction false} RowsCellsComplete(fog: array2<bool>, grid: array2<Tile>,
                                             ya: int, yb: int, xa: int, xb: int, r: int, c: int)
    requires SameShape(fog, grid)
    requires 0 <= ya && (ya < yb ==> yb <= fog.Length0) && 0 <= xa && (xa < xb ==> xb <= fog.Length1)
    requires ya <= r < yb && xa <= c < xb && fog[r, c]
    ensures Revealed(c, r, grid[r, c]) in RowsCells(fog, grid, ya, yb, xa, xb)
    decreases yb - ya
  {
    var cell := Revealed(c, r, grid[r, c]);
    var before, last := RowsCells(fog, grid, ya, yb - 1, xa, xb), RowCells(FogRow(fog, yb - 1), grid, yb - 1, xa, xb);
    assert RowsCells(fog, grid, ya, yb, xa, xb) == before + last;
    if r < yb - 1 {
      RowsCellsComplete(fog, grid, ya, yb - 1, xa, xb, r, c);
      assert cell in before;
    } else {
      assert FogRow(fog, r)[c];
      RowCellsComplete(FogRow(fog, r), grid, r, xa, xb, c);
      assert cell in last;
    }
  }

  lemma {:induction false} RowCellsComplete(flags: seq<bool>, grid: array2<Tile>, y: int, xa: int, xb: int, c: int)
    requires 0 <= y < grid.Length0 && |flags| == grid.Length1
    requires 0 <= xa && (xa < xb ==> xb <= |flags|)
    requires xa <= c < xb && flags[c]
    ensures Revealed(c, y, grid[y, c]) in RowCells(flags, grid, y, xa, xb)
    decreases xb - xa
  {
    var before := RowCells(flags, grid, y, xa, xb - 1);
    var last := if flags[xb - 1] then [Revealed(xb - 1, y, grid[y, xb - 1])] else [];
    assert RowCells(flags, grid, y, xa, xb) == before + last;
    if c < xb - 1 {
      RowCellsComplete(flags, grid, y, xa, xb - 1, c);
      assert Revealed(c, y, grid[y, c]) in before;
    } else {
      assert Revealed(c, y, grid[y, c]) in last;
    }
  }

  /**
   * The report of `revealTiles` holds exactly the in-bounds cells within
   * `radius` of the centre that were fogged, each with its tile.
   */
  lemma RevealedCellsExact(fog: array2<bool>, grid: array2<Tile>, w: nat, h: nat,
                           cx: int, cy: int, radius: int, r: int, c: int, t: Tile)
    requires SameShape(fog, grid) && fog.Length0 == h && fog.Length1 == w
    ensures Revealed(c, r, t) in RevealedCells(fog, grid, Defined(w), Defined(h), cx, cy, radius) <==>
      (0 <= r < h && 0 <= c < w && Within(c, r, cx, cy, radius) && fog[r, c] && t == grid[r, c])
  {
    if Revealed(c, r, t) in RevealedCells(fog, grid, Defined(w), Defined(h), cx, cy, radius) {
      RevealedCellsSound(fog, grid, w, h, cx, cy, radius, r, c, t);
    }
    if 0 <= r < h && 0 <= c < w && Within(c, r, cx, cy, radius) && fog[r, c] && t == grid[r, c] {
      RevealedCellsComplete(fog, grid, w, h, cx, cy, radius, r, c);
    }
  }

  /** Every fogged cell of the clipped square is reported, with its tile. */
  lemma RevealedCellsComplete(fog: array2<bool>, grid: array2<Tile>, w: nat, h: nat,
                              cx: int, cy: int, radius: int, r: int, c: int)
    requires SameShape(fog, grid) && fog.Length0 == h && fog.Length1 == w
    requires 0 <= r < h && 0 <= c < w && Within(c, r, cx, cy, radius) && fog[r, c]
    ensures Revealed(c, r, grid[r, c]) in RevealedCells(fog, grid, Defined(w), Defined(h), cx, cy, radius)
  {
    Clipped(r, h, cy, radius);
    Clipped(c, w, cx, radius);
    RevealedCellsDefined(fog, grid, w, h, cx, cy, radius);
    RowsCellsComplete(fog, grid, Max(0, cy - radius), Min(h - 1, cy + radius) + 1,
                      Max(0, cx - radius), Min(w - 1, cx + radius) + 1, r, c);
  }

  /** Only fogged cells of the clipped square are reported, each with its tile. */
  lemma RevealedCellsSound(fog: array2<bool>, grid: array2<Tile>, w: nat, h: nat,
                           cx: int, cy: int, radius: int, r: int, c: int, t: Tile)
    requires SameShape(fog, grid) && fog.Length0 == h && fog.Length1 == w
    requires Revealed(c, r, t) in RevealedCells(fog, grid, Defined(w), Defined(h), cx, cy, radius)
    ensures 0 <= r < h && 0 <= c < w && Within(c, r, cx, cy, radius) && fog[r, c] && t == grid[r, c]
  {
    var ya, yb := Max(0, cy - radius), Min(h - 1, cy + radius) + 1;
    var xa, xb := Max(0, cx - radius), Min(w - 1, cx + radius) + 1;
    RevealedCellsDefined(fog, grid, w, h, cx, cy, radius);
    RowsCellsSound(fog, grid, ya, yb, xa, xb, Revealed(c, r, t));
    Clipped(r, h, cy, radius);
    Clipped(c, w, cx, radius);
  }

  /** With both extents defined, the report is the clipped square's fogged cells. */
  lemma RevealedCellsDefined(fog: array2<bool>, grid: array2<Tile>, w: nat, h: nat, cx: int, cy: int, radius: int)
    requires SameShape(fog, grid) && fog.Length0 == h && fog.Length1 == w
    ensures RevealedCells(fog, grid, Defined(w), Defined(h), cx, cy, radius) ==
      RowsCells(fog, grid, Max(0, cy - radius), Min(h - 1, cy + radius) + 1,
                Max(0, cx - radius), Min(w - 1, cx + radius) + 1)
  {
  }

  /** The loop bounds of `revealTiles` clip the interval around the centre to the grid. */
  lemma Clipped(v: int, n: int, centre: int, radius: int)
    ensures Max(0, centre - radius) <= v < Min(n - 1, centre + radius) + 1 <==>
      (0 <= v < n && centre - radius <= v <= centre + radius)
  {
  }

  /** A reported cell lies in the rectangle, was fogged, and carries its tile. */
  lemma RowsCellsSound(fog: array2<bool>, grid: array2<Tile>, ya: int, yb: int, xa: int, xb: int, cell: Revealed)
    requires SameShape(fog, grid)
    requires 0 <= ya && (ya < yb ==> yb <= fog.Length0) && 0 <= xa && (xa < xb ==> xb <= fog.Length1)
    requires cell in RowsCells(fog, grid, ya, yb, xa, xb)
    ensures ya <= cell.y < yb && xa <= cell.x < xb && fog[cell.y, cell.x] && cell.tile == grid[cell.y, cell.x]
  {
    var cells := RowsCells(fog, grid, ya, yb, xa, xb);
    var k :| 0 <= k < |cells| && cells[k] == cell;
  }

  /** Once no cell of the square is fogged, revealing it again reports nothing. */
  lemma {:induction false} RowsCellsNoneFogged(fog: array2<bool>, grid: array2<Tile>, ya: int, yb: int, xa: int, xb: int)
    requires SameShape(fog, grid)
    requires 0 <= ya && (ya < yb ==> yb <= fog.Length0) && 0 <= xa && (xa < xb ==> xb <= fog.Length1)
    requires forall r, c :: ya <= r < yb && xa <= c < xb ==> !fog[r, c]
    ensures RowsCells(fog, grid, ya, yb, xa, xb) == []
    decreases yb - ya
  {
    if ya < yb {
      RowsCellsNoneFogged(fog, grid, ya, yb - 1, xa, xb);
      RowCellsNoneFogged(FogRow(fog, yb - 1), grid, yb - 1, xa, xb);
    }
  }

  lemma {:induction false} RowCellsNoneFogged(flags: seq<bool>, grid: array2<Tile>, y: int, xa: int, xb: int)
    requires 0 <= y < grid.Length0 && |flags| == grid.Length1
    requires 0 <= xa && (xa < xb ==> xb <= |flags|)
    requires forall c :: xa <= c < xb ==> !flags[c]
    ensures RowCells(flags, grid, y, xa, xb) == []
    decreases xb - xa
  {
    if xa < xb {
      RowCellsNoneFogged(flags, grid, y, xa, xb - 1);
    }
  }

  /** A square with no fogged cell left inside the grid reports nothing. */
  lemma RevealedCellsNoneFogged(fog: array2<bool>, grid: array2<Tile>, cx: int, cy: int, radius: int)
    requires SameShape(fog, grid)
    requires forall r, c :: 0 <= r < fog.Length0 && 0 <= c < fog.Length1 && Within(c, r, cx, cy, radius) ==> !fog[r, c]
    ensures RevealedCells(fog, grid, Defined(fog.Length1), Defined(fog.Length0), cx, cy, radius) == []
  {
    var w, h := fog.Length1, fog.Length0;
    var ya, yb := Max(0, cy - radius), Min(h - 1, cy + radius) + 1;
    var xa, xb := Max(0, cx - radius), Min(w - 1, cx + radius) + 1;
    forall r, c | ya <= r < yb && xa <= c < xb
      ensures !fog[r, c]
    {
      Clipped(r, h, cy, radius);
      Clipped(c, w, cx, radius);
    }
    RowsCellsNoneFogged(fog, grid, ya, yb, xa, xb);
    RevealedCellsDefined(fog, grid, w, h, cx, cy, radius);
  }

  /**
   * Revealing the same square twice: the second call reports nothing, and
   * no fog flag ever turns back on.
   */
  method RevealTwice(fog: array2<bool>, grid: array2<Tile>, cx: int, cy: int, radius: int)
    returns (first: seq<Revealed>, second: seq<Revealed>)
    requires SameShape(fog, grid)
    modifies fog
    ensures second == []
    ensures forall r, c :: 0 <= r < fog.Length0 && 0 <= c < fog.Length1 && fog[r, c] ==> old(fog[r, c])
  {
    var w, h := Defined(fog.Length1), Defined(fog.Length0);
    first := RevealTiles(fog, grid, w, h, cx, cy, radius);
    RevealedCellsNoneFogged(fog, grid, cx, cy, radius);
    second := RevealTiles(fog, grid, w, h, cx, cy, radius);
  }

  /* ---------------------------------------------------------------------- */
  /* Claiming territory                                                     */
  /* ---------------------------------------------------------------------- */

  /**
   * `claimTerritory(world, x, y, playerId)`: succeeds exactly when the key
   * `${x},${y}` is not yet claimed and the tile is `null`; then the key is
   * added to the claim set and a claim marker is written. On failure neither
   * changes. Row `y` must exist (indexing a missing row throws); a column
   * outside the row reads `undefined`, which is not `null`.
   */
  method ClaimTerritory(grid: array2<Tile>, claimed: seq<string>, x: int, y: int, player: string)
    returns (ok: bool, claimedAfter: seq<string>)
    requires 0 <= y < grid.Length0
    modifies grid
    ensures ok == (KeyOf(x, y) !in claimed && 0 <= x < grid.Length1 && old(grid[y, x]) == Empty)
    ensures claimedAfter == if ok then claimed + [KeyOf(x, y)] else claimed
    ensures forall r, c :: 0 <= r < grid.Length0 && 0 <= c < grid.Length1 ==>
      grid[r, c] == if ok && r == y && c == x then Claimed(player) else old(grid[r, c])
  {
    var key := KeyOf(x, y);
    if key !in claimed && 0 <= x < grid.Length1 && grid[y, x] == Empty {
      claimedAfter := claimed + [key];
      grid[y, x] := Claimed(player);
      ok := true;
    } else {
      ok, claimedAfter := false, claimed;
    }
  }

  /** A second claim of the same square fails, whoever makes it, and the first owner stays. */
  method ClaimTwice(grid: array2<Tile>, x: int, y: int, first: string, second: string)
    returns (ok1: bool, ok2: bool)
    requires 0 <= y < grid.Length0 && 0 <= x < grid.Length1 && grid[y, x] == Empty
    modifies grid
    ensures ok1 && !ok2
    ensures grid[y, x] == Claimed(first)
  {
    var claimed;
    ok1, claimed := ClaimTerritory(grid, [], x, y, first);
    ok2, claimed := ClaimTerritory(grid, claimed, x, y, second);
  }
}
