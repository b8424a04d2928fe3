/**
 * An army of Settlement Chess (army.js): an ordered roster of pieces with a
 * strength kept equal to the roster's length, deployment of the roster onto
 * the world grid in a 3x3 pattern, and bonuses derived from its composition.
 */
module Armies {
  import opened Wrappers
  import opened Tally
  import opened Board

  /** One entry of the list `deployArmy` returns: `{piece, x, y}`. */
  datatype Placement = Placement(piece: Piece, x: int, y: int)

  datatype BonusKind = ExtraMove | ConvertPeasants | Fortifications

  /** `{type, value}` of `getArmyBonuses`. */
  datatype Bonus = Bonus(kind: BonusKind, value: nat)

  /** The candidate cells around the target, in row-major order: NW, N, NE, W, C, E, SW, S, SE. */
  const DeployOffsets: seq<(int, int)> :=
    [(-1, -1), (0, -1), (1, -1), (-1, 0), (0, 0), (1, 0), (-1, 1), (0, 1), (1, 1)]

  /**
   * Entry `i` of the offset table, computed from its row-major position;
   * the proofs use this form because indexing the literal table at a
   * symbolic position costs a nine-way case split.
   */
  function Offset(i: nat): (o: (int, int))
    requires i < 9
    ensures -1 <= o.0 <= 1 && -1 <= o.1 <= 1
  {
    (i % 3 - 1, i / 3 - 1)
  }

  /** The computed offsets are exactly the table, entry by entry. */
  lemma OffsetIsTableEntry(i: nat)
    requires i < |DeployOffsets|
    ensures Offset(i) == DeployOffsets[i]
  {
  }

  /** The piece types of a roster, in roster order. */
  function Kinds(pieces: seq<Piece>): (ks: seq<PieceType>)
    ensures |ks| == |pieces|
    ensures forall i :: 0 <= i < |pieces| ==> ks[i] == pieces[i].kind
  {
    seq(|pieces|, i requires 0 <= i < |pieces| => pieces[i].kind)
  }

  /** Which of the nine offsets lands on (x, y) for target (tx, ty), if any. */
  function SlotAt(x: int, y: int, tx: int, ty: int): (slot: Option<nat>)
    ensures slot.Some? ==> slot.value < 9
  {
    if tx - 1 <= x <= tx + 1 && ty - 1 <= y <= ty + 1 then Some(((y - ty + 1) * 3 + (x - tx + 1)) as nat) else None
  }

  lemma SlotAtOffset(i: nat, tx: int, ty: int)
    requires i < 9
    ensures SlotAt(tx + Offset(i).0, ty + Offset(i).1, tx, ty) == Some(i)
  {
  }

  /** The tile a deployed piece leaves: the piece's fields with the army's id. */
  function DeployedTile(p: Piece, armyId: string): Tile {
    Deployed(p.kind, p.color, armyId)
  }

  /**
   * The placements made for the first `n` pieces: piece `i` goes to the i-th
   * offset when that cell lies inside both extents, and otherwise is skipped.
   */
  function PlannedPlacements(pieces: seq<Piece>, tx: int, ty: int, width: Extent, height: Extent, n: nat)
    : (ps: seq<Placement>)
    requires n <= |pieces| && n <= 9
    ensures |ps| <= n
    decreases n
  {
    if n == 0 then []
    else
      var before := PlannedPlacements(pieces, tx, ty, width, height, n - 1);
      var x, y := tx + Offset(n - 1).0, ty + Offset(n - 1).1;
      before + if Inside(x, width) && Inside(y, height) then [Placement(pieces[n - 1], x, y)] else []
  }

  /**
   * Each placement lies inside both extents and within the 3x3 pattern
   * around the target, belongs to a slot below `n` and carries that slot's
   * piece, and placements come in slot order.
   */
  ghost predicate PlacementsSound(ps: seq<Placement>, pieces: seq<Piece>, tx: int, ty: int,
                                  width: Extent, height: Extent, n: nat)
    requires n <= |pieces|
  {
    && (forall k :: 0 <= k < |ps| ==>
         && Inside(ps[k].x, width) && Inside(ps[k].y, height)
         && tx - 1 <= ps[k].x <= tx + 1 && ty - 1 <= ps[k].y <= ty + 1
         && SlotAt(ps[k].x, ps[k].y, tx, ty).Some? && SlotAt(ps[k].x, ps[k].y, tx, ty).value < n
         && ps[k].piece == pieces[SlotAt(ps[k].x, ps[k].y, tx, ty).value])
    && (forall k, l :: 0 <= k < l < |ps| ==>
         SlotAt(ps[k].x, ps[k].y, tx, ty).Some? && SlotAt(ps[l].x, ps[l].y, tx, ty).Some? &&
         SlotAt(ps[k].x, ps[k].y, tx, ty).value < SlotAt(ps[l].x, ps[l].y, tx, ty).value)
  }

  lemma PlannedPlacementsSound(pieces: seq<Piece>, tx: int, ty: int, width: Extent, height: Extent, n: nat)
    requires n <= |pieces| && n <= 9
    ensures PlacementsSound(PlannedPlacements(pieces, tx, ty, width, height, n), pieces, tx, ty, width, height, n)
  {
    var ps := PlannedPlacements(pieces, tx, ty, width, height, n);
    forall k | 0 <= k < |ps|
      ensures Inside(ps[k].x, width) && Inside(ps[k].y, height)
      ensures tx - 1 <= ps[k].x <= tx + 1 && ty - 1 <= ps[k].y <= ty + 1
      ensures SlotAt(ps[k].x, ps[k].y, tx, ty).Some? && SlotAt(ps[k].x, ps[k].y, tx, ty).value < n
      ensures ps[k].piece == pieces[SlotAt(ps[k].x, ps[k].y, tx, ty).value]
    {
      PlannedElement(pieces, tx, ty, width, height, n, k);
    }
    forall k, l | 0 <= k < l < |ps|
      ensures SlotAt(ps[k].x, ps[k].y, tx, ty).Some? && SlotAt(ps[l].x, ps[l].y, tx, ty).Some? &&
        SlotAt(ps[k].x, ps[k].y, tx, ty).value < SlotAt(ps[l].x, ps[l].y, tx, ty).value
    {
      PlannedOrder(pieces, tx, ty, width, height, n, k, l);
    }
  }

  /** Placement `k` of the plan sits inside both extents at the cell of a slot below `n`, with that slot's piece. */
  lemma {:induction false} PlannedElement(pieces: seq<Piece>, tx: int, ty: int, width: Extent, height: Extent, n: nat, k: int)
    requires n <= |pieces| && n <= 9
    requires 0 <= k < |PlannedPlacements(pieces, tx, ty, width, height, n)|
    ensures var p := PlannedPlacements(pieces, tx, ty, width, height, n)[k];
      && Inside(p.x, width) && Inside(p.y, height)
      && SlotAt(p.x, p.y, tx, ty).Some? && SlotAt(p.x, p.y, tx, ty).value < n
      && p.piece == pieces[SlotAt(p.x, p.y, tx, ty).value]
    decreases n
  {
    var before := PlannedPlacements(pieces, tx, ty, width, height, n - 1);
    PlannedStep(pieces, tx, ty, width, height, n - 1);
    if k < |before| {
      PlannedElement(pieces, tx, ty, width, height, n - 1, k);
    } else {
      SlotAtOffset(n - 1, tx, ty);
    }
  }

  /** Earlier placements of the plan come from earlier slots. */
  lemma {:induction false} PlannedOrder(pieces: seq<Piece>, tx: int, ty: int, width: Extent, height: Extent, n: nat, k: int, l: int)
    requires n <= |pieces| && n <= 9
    requires 0 <= k < l < |PlannedPlacements(pieces, tx, ty, width, height, n)|
    ensures var ps := PlannedPlacements(pieces, tx, ty, width, height, n);
      SlotAt(ps[k].x, ps[k].y, tx, ty).Some? && SlotAt(ps[l].x, ps[l].y, tx, ty).Some? &&
      SlotAt(ps[k].x, ps[k].y, tx, ty).value < SlotAt(ps[l].x, ps[l].y, tx, ty).value
    decreases n
  {
    var before := PlannedPlacements(pieces, tx, ty, width, height, n - 1);
    var ps := PlannedPlacements(pieces, tx, ty, width, height, n);
    PlannedStep(pieces, tx, ty, width, height, n - 1);
    assert ps[k] == before[k];
    if l < |before| {
      assert ps[l] == before[l];
      PlannedOrder(pieces, tx, ty, width, height, n - 1, k, l);
    } else {
      PlannedElement(pieces, tx, ty, width, height, n - 1, k);
      SlotAtOffset(n - 1, tx, ty);
    }
  }

  /** Planning one more piece appends its placement when its cell is inside both extents. */
  lemma PlannedStep(pieces: seq<Piece>, tx: int, ty: int, width: Extent, height: Extent, i: nat)
    requires i < |pieces| && i < 9
    ensures PlannedPlacements(pieces, tx, ty, width, height, i + 1) ==
      PlannedPlacements(pieces, tx, ty, width, height, i) +
        var x, y := tx + Offset(i).0, ty + Offset(i).1;
        if Inside(x, width) && Inside(y, height) then [Placement(pieces[i], x, y)] else []
  {
  }

  /**
   * The tile at (x, y) once the first `n` pieces have been deployed around
   * (tx, ty): the piece of the slot that lands there, when there is one and
   * the cell lies inside both extents; otherwise the tile that was there.
   */
  function TileAfterDeploy(before: Tile, pieces: seq<Piece>, n: nat, armyId: string,
                           tx: int, ty: int, width: Extent, height: Extent, x: int, y: int): Tile
    requires n <= |pieces|
  {
    match SlotAt(x, y, tx, ty)
    case Some(i) =>
      if i < n && Inside(x, width) && Inside(y, height) then DeployedTile(pieces[i], armyId) else before
    case None => before
  }

  /** Deploying one more piece changes only the cell of its own slot. */
  lemma DeployStep(before: Tile, pieces: seq<Piece>, i: nat, armyId: string,
                   tx: int, ty: int, width: Extent, height: Extent, x: int, y: int)
    requires i < |pieces| && i < 9
    ensures TileAfterDeploy(before, pieces, i + 1, armyId, tx, ty, width, height, x, y) ==
      if x == tx + Offset(i).0 && y == ty + Offset(i).1 && Inside(x, width) && Inside(y, height)
      then DeployedTile(pieces[i], armyId)
      else TileAfterDeploy(before, pieces, i, armyId, tx, ty, width, height, x, y)
  {
    SlotAtOffset(i, tx, ty);
  }

  /**
   * With both extents undefined no cell counts as inside, so no piece is
   * placed, whatever the target.
   */
  lemma {:induction false} UndefinedExtentsPlaceNothing(pieces: seq<Piece>, tx: int, ty: int, n: nat)
    requires n <= |pieces| && n <= 9
    ensures PlannedPlacements(pieces, tx, ty, Undefined, Undefined, n) == []
    ensures forall before, armyId, x, y ::
      TileAfterDeploy(before, pieces, n, armyId, tx, ty, Undefined, Undefined, x, y) == before
    decreases n
  {
    if n > 0 {
      UndefinedExtentsPlaceNothing(pieces, tx, ty, n - 1);
    }
  }

  /**
   * The placement loop of `deployArmy`: for each `i` below both the roster
   * size and 9, writes piece `i` to the i-th offset cell when that cell lies
   * inside both extents.
   */
  method PlacePieces(pieces: seq<Piece>, armyId: string, targetX: int, targetY: int,
                     grid: array2<Tile>, width: Extent, height: Extent) returns (deployed: seq<Placement>)
    requires Describes(width, grid.Length1) && Describes(height, grid.Length0)
    modifies grid
    ensures deployed == PlannedPlacements(pieces, targetX, targetY, width, height, Min(|pieces|, 9))
    ensures forall r, c :: 0 <= r < grid.Length0 && 0 <= c < grid.Length1 ==>
      grid[r, c] == TileAfterDeploy(old(grid[r, c]), pieces, Min(|pieces|, 9), armyId,
                                    targetX, targetY, width, height, c, r)
  {
    deployed := [];
    var n := Min(|pieces|, |DeployOffsets|);
    for i := 0 to n
      invariant deployed == PlannedPlacements(pieces, targetX, targetY, width, height, i)
      invariant forall r, c :: 0 <= r < grid.Length0 && 0 <= c < grid.Length1 ==>
        grid[r, c] == TileAfterDeploy(old(grid[r, c]), pieces, i, armyId, targetX, targetY, width, height, c, r)
    {
      var x, y := targetX + Offset(i).0, targetY + Offset(i).1;
      PlannedStep(pieces, targetX, targetY, width, height, i);
      if Inside(x, width) && Inside(y, height) {
        grid[y, x] := DeployedTile(pieces[i], armyId);
        deployed := deployed + [Placement(pieces[i], x, y)];
      }
      forall r, c | 0 <= r < grid.Length0 && 0 <= c < grid.Length1
        ensures grid[r, c] == TileAfterDeploy(old(grid[r, c]), pieces, i + 1, armyId, targetX, targetY, width, height, c, r)
      {
        DeployStep(old(grid[r, c]), pieces, i, armyId, targetX, targetY, width, height, c, r);
      }
    }
  }

  class Army {
    const armyId: string
    const playerSide: string
    var pieces: seq<Piece>
    var consolidated: bool
    var worldPosition: (int, int)
    var deploymentTiles: seq<(int, int)>
    var armyStrength: int

    /** The strength is the roster's length after every public operation. */
    ghost predicate Valid()
      reads this
    {
      armyStrength == |pieces|
    }

    constructor (armyId: string, playerSide: string)
      ensures this.armyId == armyId && this.playerSide == playerSide
      ensures pieces == [] && consolidated && worldPosition == (0, 0) && deploymentTiles == []
      ensures armyStrength == 0 && Valid()
    {
      this.armyId := armyId;
      this.playerSide := playerSide;
      pieces := [];
      consolidated := true;
      worldPosition := (0, 0);
      deploymentTiles := [];
      armyStrength := 0;
    }

    method UpdateArmyStrength()
      modifies this`armyStrength
      ensures armyStrength == |pieces| && Valid()
    {
      armyStrength := |pieces|;
    }

    /** Appends `piece` to the roster and recomputes the strength. */
    method AddPiece(piece: Piece)
      modifies this
      ensures pieces == old(pieces) + [piece]
      ensures armyStrength == |pieces| && Valid()
      ensures consolidated == old(consolidated) && worldPosition == old(worldPosition)
      ensures deploymentTiles == old(deploymentTiles)
    {
      pieces := pieces + [piece];
      UpdateArmyStrength();
    }

    /**
     * Removes the piece at `pieceIndex` when the index is in range, keeping
     * the others in order; otherwise changes nothing and answers false.
     */
    method RemovePiece(pieceIndex: int) returns (ok: bool)
      modifies this
      ensures ok == (0 <= pieceIndex < |old(pieces)|)
      ensures ok ==> pieces == old(pieces[..pieceIndex] + pieces[pieceIndex + 1..]) && armyStrength == |pieces|
      ensures !ok ==> pieces == old(pieces) && armyStrength == old(armyStrength)
      ensures ok || old(Valid()) ==> Valid()
      ensures consolidated == old(consolidated) && worldPosition == old(worldPosition)
      ensures deploymentTiles == old(deploymentTiles)
    {
      if 0 <= pieceIndex < |pieces| {
        pieces := pieces[..pieceIndex] + pieces[pieceIndex + 1..];
        UpdateArmyStrength();
        return true;
      }
      return false;
    }

    /**
     * `deployArmy(targetX, targetY, world)`. A target outside the extents
     * gives an empty list and changes nothing. Otherwise piece `i`, for `i`
     * below both the roster size and 9, is written to the i-th offset cell
     * when that cell lies inside the extents; the army is anchored at the
     * target and no longer consolidated. The roster itself is untouched.
     */
    method DeployArmy(targetX: int, targetY: int, grid: array2<Tile>, width: Extent, height: Extent)
      returns (deployed: seq<Placement>)
      requires Describes(width, grid.Length1) && Describes(height, grid.Length0)
      modifies this, grid
      ensures Outside(targetX, width) || Outside(targetY, height) ==>
        deployed == [] && unchanged(this) && unchanged(grid)
      ensures !(Outside(targetX, width) || Outside(targetY, height)) ==>
        && deployed == PlannedPlacements(pieces, targetX, targetY, width, height, Min(|pieces|, 9))
        && worldPosition == (targetX, targetY) && !consolidated
        && (forall r, c :: 0 <= r < grid.Length0 && 0 <= c < grid.Length1 ==>
              grid[r, c] == TileAfterDeploy(old(grid[r, c]), pieces, Min(|pieces|, 9), armyId,
                                            targetX, targetY, width, height, c, r))
      ensures pieces == old(pieces) && armyStrength == old(armyStrength)
      ensures old(Valid()) ==> Valid()
      ensures deploymentTiles == old(deploymentTiles)
    {
      deployed := [];
      if Outside(targetX, width) || Outside(targetY, height) {
        return;
      }
      deployed := PlacePieces(pieces, armyId, targetX, targetY, grid, width, height);
      worldPosition := (targetX, targetY);
      consolidated := false;
    }

    /**
     * `extraMove`, `convertPeasants` and `fortifications`, in that order, each
     * present exactly when the roster holds a knight, bishop or rook
     * respectively, valued at the number held.
     */
    function GetArmyBonuses(): (r: seq<Bonus>)
      reads this
      ensures forall k :: 0 <= k < |r| ==>
        r[k].value == Count(Kinds(pieces), BonusPiece(r[k].kind)) && r[k].value > 0
      ensures forall kind: BonusKind ::
        Bonus(kind, Count(Kinds(pieces), BonusPiece(kind))) in r <==> Count(Kinds(pieces), BonusPiece(kind)) > 0
      ensures forall k, l :: 0 <= k < l < |r| ==> BonusRank(r[k].kind) < BonusRank(r[l].kind)
    {
      BonusesOfExact(Kinds(pieces));
      BonusesOf(TallyOf(Kinds(pieces)))
    }

    /**
     * The piece type the roster holds most of; on a tie, the type that
     * entered the roster first; none for an empty roster.
     */
    method GetMostCommonPiece() returns (r: Option<PieceType>)
      ensures r.None? <==> pieces == []
      ensures r.Some? ==>
        var ks := Kinds(pieces);
        && r.value in ks
        && (forall t :: Count(ks, t) <= Count(ks, r.value))
        && (forall t :: t in ks && Count(ks, t) == Count(ks, r.value) ==> FirstIndex(ks, r.value) <= FirstIndex(ks, t))
    {
      var ks := Kinds(pieces);
      var counts := TallyOf(ks);
      TallyOfTallies(ks);
      ghost var d := Dedup(ks);
      assert forall j :: 0 <= j < |counts| ==> counts[j] == (d[j], Count(ks, d[j]));
      assert forall j :: 0 <= j < |counts| ==> d[j] in ks;
      ghost var m;
      r, m := FirstLargest(counts);
      if r.Some? {
        MostCommonOfDedup(ks, m);
      }
    }
  }

  /**
   * The scan of `getMostCommonPiece` over the counting object: with a
   * strictly-greater test starting from 0, it settles on the first entry of
   * largest count, and on nothing only when there are no entries.
   */
  method FirstLargest(counts: seq<(PieceType, nat)>) returns (r: Option<PieceType>, ghost m: nat)
    requires forall j :: 0 <= j < |counts| ==> counts[j].1 > 0
    ensures r.None? <==> counts == []
    ensures r.Some? ==>
      && m < |counts| && r.value == counts[m].0
      && (forall j :: 0 <= j < |counts| ==> counts[j].1 <= counts[m].1)
      && (forall j :: 0 <= j < m ==> counts[j].1 < counts[m].1)
  {
    var mostCommon: Option<PieceType> := None;
    var maxCount := 0;
    m := 0;
    for i := 0 to |counts|
      invariant m <= i
      invariant i == 0 ==> mostCommon.None? && maxCount == 0
      invariant i > 0 ==> m < i && mostCommon == Some(counts[m].0) && maxCount == counts[m].1
      invariant forall j :: 0 <= j < i ==> counts[j].1 <= maxCount
      invariant forall j :: 0 <= j < m ==> counts[j].1 < maxCount
    {
      var (t, c) := counts[i];
      if c > maxCount {
        maxCount := c;
        mostCommon := Some(t);
        m := i;
      }
    }
    r := mostCommon;
  }

  /**
   * An element of `Dedup(ks)` whose count no other reaches, and which no
   * earlier element ties, is held most and first entered the roster among
   * those held as much.
   */
  lemma MostCommonOfDedup(ks: seq<PieceType>, m: nat)
    requires m < |Dedup(ks)|
    requires forall j :: 0 <= j < |Dedup(ks)| ==> Count(ks, Dedup(ks)[j]) <= Count(ks, Dedup(ks)[m])
    requires forall j :: 0 <= j < m ==> Count(ks, Dedup(ks)[j]) < Count(ks, Dedup(ks)[m])
    ensures forall t :: Count(ks, t) <= Count(ks, Dedup(ks)[m])
    ensures forall t :: t in ks && Count(ks, t) == Count(ks, Dedup(ks)[m]) ==>
      FirstIndex(ks, Dedup(ks)[m]) <= FirstIndex(ks, t)
  {
    forall t
      ensures Count(ks, t) <= Count(ks, Dedup(ks)[m])
      ensures t in ks && Count(ks, t) == Count(ks, Dedup(ks)[m]) ==> FirstIndex(ks, Dedup(ks)[m]) <= FirstIndex(ks, t)
    {
      if t in ks {
        MostCommonAgainst(ks, m, t);
      }
    }
  }

  /** The comparison of `MostCommonOfDedup` against one type held in the roster. */
  lemma MostCommonAgainst(ks: seq<PieceType>, m: nat, t: PieceType)
    requires m < |Dedup(ks)| && t in ks
    requires forall j :: 0 <= j < |Dedup(ks)| ==> Count(ks, Dedup(ks)[j]) <= Count(ks, Dedup(ks)[m])
    requires forall j :: 0 <= j < m ==> Count(ks, Dedup(ks)[j]) < Count(ks, Dedup(ks)[m])
    ensures Count(ks, t) <= Count(ks, Dedup(ks)[m])
    ensures Count(ks, t) == Count(ks, Dedup(ks)[m]) ==> FirstIndex(ks, Dedup(ks)[m]) <= FirstIndex(ks, t)
  {
    var d := Dedup(ks);
    var i :| 0 <= i < |ks| && ks[i] == t;
    assert ks[i] in d;
    var j :| 0 <= j < |d| && d[j] == t;
    var best := d[m];
    assert Count(ks, t) <= Count(ks, best);
    if j < m {
      assert Count(ks, t) < Count(ks, best);
    } else if m < j {
      DedupFirstOccurrenceOrder(ks, m, j);
      assert FirstIndex(ks, best) < FirstIndex(ks, t);
    } else {
      assert best == t;
    }
  }

  /** The piece type each bonus is counted from. */
  function BonusPiece(kind: BonusKind): PieceType {
    match kind
    case ExtraMove => N
    case ConvertPeasants => B
    case Fortifications => R
  }

  function BonusRank(kind: BonusKind): nat {
    match kind
    case ExtraMove => 0
    case ConvertPeasants => 1
    case Fortifications => 2
  }

  /** The three checks of `getArmyBonuses` on the tally of piece types. */
  function BonusesOf(counts: seq<(PieceType, nat)>): seq<Bonus> {
    BonusIf(ExtraMove, Lookup(counts, N))
      + BonusIf(ConvertPeasants, Lookup(counts, B))
      + BonusIf(Fortifications, Lookup(counts, R))
  }

  /** The bonuses drawn from the tally of `ks` are the positive counts of N, B and R, in that order. */
  lemma BonusesOfExact(ks: seq<PieceType>)
    ensures var r := BonusesOf(TallyOf(ks));
      && (forall k :: 0 <= k < |r| ==> r[k].value == Count(ks, BonusPiece(r[k].kind)) && r[k].value > 0)
      && (forall kind: BonusKind :: Bonus(kind, Count(ks, BonusPiece(kind))) in r <==> Count(ks, BonusPiece(kind)) > 0)
      && (forall k, l :: 0 <= k < l < |r| ==> BonusRank(r[k].kind) < BonusRank(r[l].kind))
  {
    BonusesOfTally(ks);
    BonusTriple(ks);
  }

  /** Looking N, B and R up in the tally gives their counts, or undefined when absent. */
  lemma BonusesOfTally(ks: seq<PieceType>)
    ensures BonusesOf(TallyOf(ks)) ==
      BonusFrom(ExtraMove, ks) + BonusFrom(ConvertPeasants, ks) + BonusFrom(Fortifications, ks)
  {
    LookupTally(ks, N);
    LookupTally(ks, B);
    LookupTally(ks, R);
  }

  lemma BonusTriple(ks: seq<PieceType>)
    ensures var r := BonusFrom(ExtraMove, ks) + BonusFrom(ConvertPeasants, ks) + BonusFrom(Fortifications, ks);
      && (forall k :: 0 <= k < |r| ==> r[k].value == Count(ks, BonusPiece(r[k].kind)) && r[k].value > 0)
      && (forall kind: BonusKind :: Bonus(kind, Count(ks, BonusPiece(kind))) in r <==> Count(ks, BonusPiece(kind)) > 0)
      && (forall k, l :: 0 <= k < l < |r| ==> BonusRank(r[k].kind) < BonusRank(r[l].kind))
  {
    var e, c, f := BonusFrom(ExtraMove, ks), BonusFrom(ConvertPeasants, ks), BonusFrom(Fortifications, ks);
    var r := e + c + f;
    forall kind: BonusKind
      ensures Bonus(kind, Count(ks, BonusPiece(kind))) in r <==> Count(ks, BonusPiece(kind)) > 0
    {
      assert Bonus(kind, Count(ks, BonusPiece(kind))) in r <==> Bonus(kind, Count(ks, BonusPiece(kind))) in BonusFrom(kind, ks);
    }
    forall k | 0 <= k < |r|
      ensures r[k].value == Count(ks, BonusPiece(r[k].kind)) && r[k].value > 0
    {
      BonusFromRank(ks, r, k);
    }
    forall k, l | 0 <= k < l < |r|
      ensures BonusRank(r[k].kind) < BonusRank(r[l].kind)
    {
      BonusFromRank(ks, r, k);
      BonusFromRank(ks, r, l);
    }
  }

  /** Where each bonus sits in the concatenation of the three checks: one block per kind, in rank order. */
  lemma BonusFromRank(ks: seq<PieceType>, r: seq<Bonus>, k: int)
    requires r == BonusFrom(ExtraMove, ks) + BonusFrom(ConvertPeasants, ks) + BonusFrom(Fortifications, ks)
    requires 0 <= k < |r|
    ensures r[k].value == Count(ks, BonusPiece(r[k].kind)) && r[k].value > 0
    ensures var e, c := |BonusFrom(ExtraMove, ks)|, |BonusFrom(ConvertPeasants, ks)|;
      e <= 1 && c <= 1 &&
      BonusRank(r[k].kind) == (if k < e then 0 else if k < e + c then 1 else 2)
  {
    var e, c, f := BonusFrom(ExtraMove, ks), BonusFrom(ConvertPeasants, ks), BonusFrom(Fortifications, ks);
    if k < |e| {
      assert r[k] == e[k];
    } else if k < |e| + |c| {
      assert r[k] == c[k - |e|];
    } else {
      assert r[k] == f[k - |e| - |c|];
    }
  }

  /** The bonus of `kind` for a roster of types `ks`, present when its piece type is held. */
  function BonusFrom(kind: BonusKind, ks: seq<PieceType>): seq<Bonus> {
    var n := Count(ks, BonusPiece(kind));
    if n > 0 then [Bonus(kind, n)] else []
  }

  /** `if (counts[t] > 0) bonuses.push({type, value: counts[t]})`; `undefined > 0` is false. */
  function BonusIf(kind: BonusKind, count: Option<nat>): seq<Bonus> {
    if count.Some? && count.value > 0 then [Bonus(kind, count.value)] else []
  }
}
