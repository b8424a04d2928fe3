/**
 * The world of Settlement Chess (worldBoard.js): a 20x20 tile grid with fog,
 * production nodes, claimed territory and a registry of armies kept in
 * insertion order, plus the victory check.
 */
module World {
  import opened Wrappers
  import opened Decimal
  import opened Tally
  import opened Board
  import opened Armies

  const WorldWidth: int := 20
  const WorldHeight: int := 20
  /** How many production nodes a new world receives. */
  const NodeCount: nat := 15
  /** Claims a player needs for a territory win. */
  const TerritoryGoal: nat := 64

  /* ---------------------------------------------------------------------- */
  /* The army registry: a JS Map from army id to army, in insertion order   */
  /* ---------------------------------------------------------------------- */

  predicate DistinctIds(reg: seq<Army>) {
    forall i, j :: 0 <= i < j < |reg| ==> reg[i].armyId != reg[j].armyId
  }

  /** The ids of the registry, in order. */
  function Ids(reg: seq<Army>): (s: seq<string>)
    ensures |s| == |reg| && forall i :: 0 <= i < |reg| ==> s[i] == reg[i].armyId
  {
    seq(|reg|, i requires 0 <= i < |reg| => reg[i].armyId)
  }

  /** The position of the entry with id `id`, or `|reg|` when there is none. */
  function IndexOfId(reg: seq<Army>, id: string): (i: nat)
    ensures i <= |reg|
    ensures forall j :: 0 <= j < i ==> reg[j].armyId != id
    ensures i < |reg| ==> reg[i].armyId == id
  {
    IndexOf(Ids(reg), id)
  }

  /** `armies.get(id)`. */
  function Find(reg: seq<Army>, id: string): Option<Army> {
    var i := IndexOfId(reg, id);
    if i < |reg| then Some(reg[i]) else None
  }

  /** `armies.set(a.armyId, a)`: an existing entry is replaced where it stands, a new one goes last. */
  function Put(reg: seq<Army>, a: Army): seq<Army> {
    var i := IndexOfId(reg, a.armyId);
    if i < |reg| then reg[i := a] else reg + [a]
  }

  /** `armies.delete(id)`. */
  function Delete(reg: seq<Army>, id: string): seq<Army> {
    var i := IndexOfId(reg, id);
    if i < |reg| then reg[..i] + reg[i + 1..] else reg
  }

  /** In a registry with distinct ids, an entry is what its id finds. */
  lemma FindEntry(reg: seq<Army>, k: nat)
    requires DistinctIds(reg) && k < |reg|
    ensures Find(reg, reg[k].armyId) == Some(reg[k])
  {
  }

  /**
   * Setting an army makes its id find it, keeps the ids distinct, leaves
   * every other id finding what it found, and grows the registry only when
   * the id was new.
   */
  lemma PutThenFind(reg: seq<Army>, a: Army)
    requires DistinctIds(reg)
    ensures DistinctIds(Put(reg, a))
    ensures Find(Put(reg, a), a.armyId) == Some(a)
    ensures forall id :: id != a.armyId ==> Find(Put(reg, a), id) == Find(reg, id)
    ensures |Put(reg, a)| == |reg| + (if Find(reg, a.armyId).Some? then 0 else 1)
  {
    var r := Put(reg, a);
    var i := IndexOfId(reg, a.armyId);
    assert DistinctIds(r);
    FindEntry(r, if i < |reg| then i else |reg|);
    forall id | id != a.armyId
      ensures Find(r, id) == Find(reg, id)
    {
      var k := IndexOfId(reg, id);
      if k < |reg| {
        FindEntry(r, k);
      } else {
        assert forall j :: 0 <= j < |r| ==> r[j].armyId != id;
      }
    }
  }

  /**
   * Deleting an id leaves it unregistered and every other id finding what it
   * found; the registry shrinks by one exactly when the id was registered.
   */
  lemma DeleteThenFind(reg: seq<Army>, id: string)
    requires DistinctIds(reg)
    ensures DistinctIds(Delete(reg, id))
    ensures Find(Delete(reg, id), id) == None
    ensures forall other :: other != id ==> Find(Delete(reg, id), other) == Find(reg, other)
    ensures |Delete(reg, id)| == |reg| - (if Find(reg, id).Some? then 1 else 0)
  {
    var i := IndexOfId(reg, id);
    if i < |reg| {
      var r := Delete(reg, id);
      DeleteShape(reg, i);
      assert forall j :: 0 <= j < |r| ==> r[j].armyId != id;
      forall other | other != id
        ensures Find(r, other) == Find(reg, other)
      {
        DeleteKeeps(reg, i, other);
      }
    }
  }

  /** Removing entry `i` shifts the later entries down by one and keeps the ids distinct. */
  lemma DeleteShape(reg: seq<Army>, i: nat)
    requires DistinctIds(reg) && i < |reg|
    ensures var r := reg[..i] + reg[i + 1..];
      && |r| == |reg| - 1 && DistinctIds(r)
      && forall j :: 0 <= j < |r| ==> r[j] == if j < i then reg[j] else reg[j + 1]
  {
  }

  /** Removing entry `i` leaves every other id finding what it found. */
  lemma DeleteKeeps(reg: seq<Army>, i: nat, other: string)
    requires DistinctIds(reg) && i < |reg| && reg[i].armyId != other
    ensures Find(reg[..i] + reg[i + 1..], other) == Find(reg, other)
  {
    var r := reg[..i] + reg[i + 1..];
    DeleteShape(reg, i);
    var k := IndexOfId(reg, other);
    if k < |reg| {
      FindEntry(r, if k < i then k else k - 1);
    } else {
      assert forall j :: 0 <= j < |r| ==> r[j].armyId != other;
    }
  }

  /** The registered armies carrying `id`: the frame of an operation on that army. */
  function WithId(reg: seq<Army>, id: string): set<Army> {
    set a | a in reg && a.armyId == id
  }

  /** With distinct ids, that is the army `Find` returns, or nothing. */
  lemma WithIdFound(reg: seq<Army>, id: string)
    requires DistinctIds(reg)
    ensures WithId(reg, id) == if Find(reg, id).Some? then {Find(reg, id).value} else {}
  {
    forall a | a in WithId(reg, id)
      ensures Find(reg, id) == Some(a)
    {
      var k :| 0 <= k < |reg| && reg[k] == a;
      FindEntry(reg, k);
    }
  }

  /** `getAllArmies().filter(army => army.playerSide === side)`. */
  function OfSide(reg: seq<Army>, side: string): (r: seq<Army>)
    ensures |r| <= |reg|
    ensures forall k :: 0 <= k < |r| ==> r[k] in reg && r[k].playerSide == side
    ensures forall i :: 0 <= i < |reg| && reg[i].playerSide == side ==> reg[i] in r
    decreases |reg|
  {
    if reg == [] then []
    else (if reg[0].playerSide == side then [reg[0]] else []) + OfSide(reg[1..], side)
  }

  /**
   * The filter keeps registration order: the armies of a side registered
   * in `a` all come before those registered after `a`, in `b`.
   */
  lemma {:induction false} OfSideConcat(a: seq<Army>, b: seq<Army>, side: string)
    ensures OfSide(a + b, side) == OfSide(a, side) + OfSide(b, side)
    decreases |a|
  {
    if a != [] {
      assert (a + b)[1..] == a[1..] + b;
      OfSideConcat(a[1..], b, side);
    } else {
      assert a + b == b;
    }
  }

  /** The side of each registered army, in registration order. */
  function Sides(reg: seq<Army>): (s: seq<string>)
    ensures |s| == |reg| && forall i :: 0 <= i < |reg| ==> s[i] == reg[i].playerSide
  {
    seq(|reg|, i requires 0 <= i < |reg| => reg[i].playerSide)
  }

  /* ---------------------------------------------------------------------- */
  /* Production nodes                                                       */
  /* ---------------------------------------------------------------------- */

  /** One draw of `generateProductionNodes`: a cell and a node type. */
  datatype NodeChoice = NodeChoice(x: int, y: int, nodeType: NodeType)

  /** Fifteen draws, each a cell of the 20x20 world, as `Math.floor(Math.random() * 20)` yields. */
  predicate ChoicesFit(choices: seq<NodeChoice>) {
    |choices| == NodeCount &&
    forall i :: 0 <= i < |choices| ==> 0 <= choices[i].x < WorldWidth && 0 <= choices[i].y < WorldHeight
  }

  /** `node_${i}`. */
  function NodeId(i: nat): string {
    "node_" + NatToString(i)
  }

  lemma NodeIdInjective(i: nat, j: nat)
    requires NodeId(i) == NodeId(j)
    ensures i == j
  {
    assert NatToString(i) == NodeId(i)[5..];
    assert NatToString(j) == NodeId(j)[5..];
    NatToStringInjective(i, j);
  }

  /** The nodes made from the first `n` draws: draw `i` becomes the active node `node_i`. */
  function NodesOf(choices: seq<NodeChoice>, n: nat): (nodes: seq<ProductionNode>)
    requires n <= |choices|
    ensures |nodes| == n
    ensures forall i :: 0 <= i < n ==>
      nodes[i] == ProductionNode(choices[i].x, choices[i].y, choices[i].nodeType, NodeId(i), true)
  {
    seq(n, i requires 0 <= i < n => ProductionNode(choices[i].x, choices[i].y, choices[i].nodeType, NodeId(i), true))
  }

  /** Generated nodes have pairwise distinct ids and are all active. */
  lemma NodesOfDistinctActive(choices: seq<NodeChoice>, n: nat)
    requires n <= |choices|
    ensures forall i, j :: 0 <= i < j < n ==> NodesOf(choices, n)[i].id != NodesOf(choices, n)[j].id
    ensures forall i :: 0 <= i < n ==> NodesOf(choices, n)[i].active
  {
    forall i, j | 0 <= i < j < n
      ensures NodesOf(choices, n)[i].id != NodesOf(choices, n)[j].id
    {
      if NodeId(i) == NodeId(j) {
        NodeIdInjective(i, j);
      }
    }
  }

  /** The last of the first `n` draws that fell on (x, y), if any. */
  function LastChoiceAt(choices: seq<NodeChoice>, n: nat, x: int, y: int): (r: Option<nat>)
    requires n <= |choices|
    ensures r.Some? ==> r.value < n && choices[r.value].x == x && choices[r.value].y == y
    ensures r.Some? ==> forall j :: r.value < j < n ==> choices[j].x != x || choices[j].y != y
    ensures r.None? ==> forall j :: 0 <= j < n ==> choices[j].x != x || choices[j].y != y
  {
    if n == 0 then None
    else if choices[n - 1].x == x && choices[n - 1].y == y then Some(n - 1)
    else LastChoiceAt(choices, n - 1, x, y)
  }

  /** The tile at (x, y) after the first `n` draws: the marker of the last node placed there, else `before`. */
  function MarkerAfter(before: Tile, choices: seq<NodeChoice>, n: nat, x: int, y: int): Tile
    requires n <= |choices|
  {
    match LastChoiceAt(choices, n, x, y)
    case Some(i) => ProductionSite(choices[i].nodeType, NodeId(i))
    case None => before
  }

  /**
   * Every generated node's cell carries a production marker, that of the
   * last node drawn on that cell; cells no node was drawn on keep their tile.
   */
  lemma NodeCellsMarked(before: Tile, choices: seq<NodeChoice>, i: nat, x: int, y: int)
    requires i < |choices|
    ensures var t := MarkerAfter(before, choices, |choices|, choices[i].x, choices[i].y);
      exists j :: i <= j < |choices| && t == ProductionSite(choices[j].nodeType, NodeId(j)) &&
                  choices[j].x == choices[i].x && choices[j].y == choices[i].y
    ensures (forall j :: 0 <= j < |choices| ==> choices[j].x != x || choices[j].y != y) ==>
      MarkerAfter(before, choices, |choices|, x, y) == before
  {
    var j := LastChoiceAt(choices, |choices|, choices[i].x, choices[i].y).value;
    assert i <= j;
  }

  /* ---------------------------------------------------------------------- */
  /* Claims and victory                                                     */
  /* ---------------------------------------------------------------------- */

  /** A claim key that parses to a cell of the world. */
  predicate KeyInWorld(key: string) {
    var p := ParseKey(key);
    p.Some? && 0 <= p.value.0 < WorldWidth && 0 <= p.value.1 < WorldHeight
  }

  /**
   * The player the victory check credits for a claim key: the `player` of
   * the tile the key names, when that tile is a claim marker and the player
   * id is a non-empty (truthy) string.
   */
  function OwnerOf(grid: array2<Tile>, key: string): Option<string>
    reads grid
  {
    match ParseKey(key)
    case Some((x, y)) =>
      if 0 <= y < grid.Length0 && 0 <= x < grid.Length1 && grid[y, x].Claimed? && grid[y, x].player != ""
      then Some(grid[y, x].player) else None
    case None => None
  }

  /** The credited players of the claims, in claim order, one entry per credited claim. */
  function ClaimOwners(grid: array2<Tile>, keys: seq<string>): (owners: seq<string>)
    reads grid
    ensures |owners| <= |keys|
    ensures forall p :: p in owners <==> exists i :: 0 <= i < |keys| && OwnerOf(grid, keys[i]) == Some(p)
    decreases |keys|
  {
    if keys == [] then []
    else
      var front := keys[..|keys| - 1];
      var rest := ClaimOwners(grid, front);
      assert forall i :: 0 <= i < |front| ==> front[i] == keys[i];
      match OwnerOf(grid, keys[|keys| - 1])
      case Some(p) => rest + [p]
      case None => rest
  }

  datatype Reason = Territory(count: nat) | Elimination

  /** `{winner, reason, count}` of `checkVictoryConditions`. */
  datatype Outcome = Outcome(winner: string, reason: Reason)

  /** The index of the first entry whose count reaches `bound`, or `|counts|` when none does. */
  function FirstReaching<T>(counts: seq<(T, nat)>, bound: nat): (i: nat)
    ensures i <= |counts|
    ensures forall j :: 0 <= j < i ==> counts[j].1 < bound
    ensures i < |counts| ==> counts[i].1 >= bound
    decreases |counts|
  {
    if counts == [] then 0 else if counts[0].1 >= bound then 0 else 1 + FirstReaching(counts[1..], bound)
  }

  /**
   * What the victory check decides from the credited claim owners and the
   * registered armies' sides: the first player in tally order with at least
   * 64 claims wins by territory; failing that, a single distinct side wins by
   * elimination; otherwise nobody has won.
   */
  function Victory(owners: seq<string>, sides: seq<string>): Option<Outcome> {
    var counts := TallyOf(owners);
    var i := FirstReaching(counts, TerritoryGoal);
    if i < |counts| then Some(Outcome(counts[i].0, Territory(counts[i].1)))
    else
      var players := Dedup(sides);
      if |players| == 1 then Some(Outcome(players[0], Elimination)) else None
  }

  /**
   * A territory win happens exactly when some player holds at least 64
   * credited claims; the winner holds that many, the count reported is
   * theirs, and no other such player made a credited claim before them.
   */
  lemma VictoryByTerritory(owners: seq<string>, sides: seq<string>)
    ensures (exists p :: Count(owners, p) >= TerritoryGoal) <==>
      (Victory(owners, sides).Some? && Victory(owners, sides).value.reason.Territory?)
    ensures Victory(owners, sides).Some? && Victory(owners, sides).value.reason.Territory? ==>
      var w := Victory(owners, sides).value;
      && w.reason.count == Count(owners, w.winner) >= TerritoryGoal
      && forall q :: Count(owners, q) >= TerritoryGoal ==> FirstIndex(owners, w.winner) <= FirstIndex(owners, q)
  {
    TallyReaching(owners);
    TallyReachingFirst(owners);
  }

  /** Some tally entry reaches 64 exactly when some player's count does, and that entry holds the count. */
  lemma TallyReaching(owners: seq<string>)
    ensures var counts := TallyOf(owners);
      var i := FirstReaching(counts, TerritoryGoal);
      && ((exists p :: Count(owners, p) >= TerritoryGoal) <==> i < |counts|)
      && (i < |counts| ==> counts[i].1 == Count(owners, counts[i].0))
  {
    var counts := TallyOf(owners);
    var i := FirstReaching(counts, TerritoryGoal);
    if p :| Count(owners, p) >= TerritoryGoal {
      var j := TallyIndexOf(owners, p);
    }
    if i < |counts| {
      TallyEntry(owners, i);
      assert Count(owners, counts[i].0) >= TerritoryGoal;
    }
  }

  /** The first tally entry reaching 64 belongs to the earliest claimant among those reaching 64. */
  lemma TallyReachingFirst(owners: seq<string>)
    ensures var counts := TallyOf(owners);
      var i := FirstReaching(counts, TerritoryGoal);
      i < |counts| ==>
        (counts[i].0 in owners &&
         forall q :: Count(owners, q) >= TerritoryGoal ==> FirstIndex(owners, counts[i].0) <= FirstIndex(owners, q))
  {
    var counts := TallyOf(owners);
    var i := FirstReaching(counts, TerritoryGoal);
    if i < |counts| {
      TallyEntry(owners, i);
      forall q | Count(owners, q) >= TerritoryGoal
        ensures FirstIndex(owners, counts[i].0) <= FirstIndex(owners, q)
      {
        var j := TallyIndexOf(owners, q);
        if i < j {
          DedupFirstOccurrenceOrder(owners, i, j);
        }
      }
    }
  }

  /** Entry `j` of the tally is the j-th distinct owner with its count. */
  lemma TallyEntry(owners: seq<string>, j: nat)
    requires j < |TallyOf(owners)|
    ensures j < |Dedup(owners)| && TallyOf(owners)[j] == (Dedup(owners)[j], Count(owners, Dedup(owners)[j]))
  {
    TallyOfTallies(owners);
  }

  /** Every owner has its tally entry, at its position in `Dedup`. */
  lemma TallyIndexOf(owners: seq<string>, p: string) returns (j: nat)
    requires p in owners
    ensures j < |TallyOf(owners)| && j < |Dedup(owners)| && Dedup(owners)[j] == p
    ensures TallyOf(owners)[j] == (p, Count(owners, p))
  {
    TallyOfTallies(owners);
    var d := Dedup(owners);
    var k :| 0 <= k < |owners| && owners[k] == p;
    assert owners[k] in d;
    j :| 0 <= j < |d| && d[j] == p;
  }

  /**
   * Without a territory win, the registered armies give an elimination win
   * to `w` exactly when there is at least one and all are on side `w`; no
   * registered armies, or two or more sides, give no winner.
   */
  lemma VictoryByElimination(owners: seq<string>, sides: seq<string>, w: string)
    requires forall p :: Count(owners, p) < TerritoryGoal
    ensures Victory(owners, sides) == Some(Outcome(w, Elimination)) <==>
      (sides != [] && forall k :: 0 <= k < |sides| ==> sides[k] == w)
    ensures Victory(owners, sides).None? <==> |Dedup(sides)| != 1
  {
    TallyReaching(owners);
    SingleSide(sides, w);
  }

  /** The sides have one distinct value, `w`, exactly when there is a side and every side is `w`. */
  lemma SingleSide(sides: seq<string>, w: string)
    ensures (|Dedup(sides)| == 1 && Dedup(sides)[0] == w) <==>
      (sides != [] && forall k :: 0 <= k < |sides| ==> sides[k] == w)
  {
    var players := Dedup(sides);
    if sides != [] && forall k :: 0 <= k < |sides| ==> sides[k] == w {
      assert sides[0] in players;
      assert forall k :: 0 <= k < |players| ==> players[k] == w;
    }
  }

  /* ---------------------------------------------------------------------- */
  /* The world board                                                        */
  /* ---------------------------------------------------------------------- */

  class WorldBoard {
    const worldWidth: int
    const worldHeight: int
    const worldGrid: array2<Tile>
    const fogOfWar: array2<bool>
    /** The army registry, in insertion order. */
    var armies: seq<Army>
    var productionNodes: seq<ProductionNode>
    /** The claimed keys `${x},${y}`, in insertion order (a JS Set). */
    var claimedTerritory: seq<string>

    /**
     * The grids are 20x20, registered ids are distinct, and the claim set
     * holds distinct keys that each name a cell of the world.
     */
    ghost predicate Valid()
      reads this
    {
      && worldWidth == WorldWidth && worldHeight == WorldHeight
      && worldGrid.Length0 == worldHeight && worldGrid.Length1 == worldWidth
      && SameShape(fogOfWar, worldGrid)
      && DistinctIds(armies)
      && Distinct(claimedTerritory)
      && forall i :: 0 <= i < |claimedTerritory| ==> KeyInWorld(claimedTerritory[i])
    }

    /**
     * A fresh 20x20 world: every tile empty and fogged, no armies, no
     * claims, then the fifteen production nodes of `choices`.
     */
    constructor (choices: seq<NodeChoice>)
      requires ChoicesFit(choices)
      ensures Valid() && fresh(worldGrid) && fresh(fogOfWar)
      ensures armies == [] && claimedTerritory == []
      ensures productionNodes == NodesOf(choices, NodeCount)
      ensures forall r, c :: 0 <= r < worldHeight && 0 <= c < worldWidth ==>
        worldGrid[r, c] == MarkerAfter(Empty, choices, NodeCount, c, r) && fogOfWar[r, c]
    {
      worldWidth, worldHeight := WorldWidth, WorldHeight;
      var world := CreateWorldBoard(WorldWidth, WorldHeight);
      worldGrid, fogOfWar := world.worldGrid, world.fogOfWar;
      productionNodes, claimedTerritory := world.productionNodes, world.claimedTerritory;
      armies := [];
      new;
      GenerateProductionNodes(choices);
    }

    /**
     * `generateProductionNodes` with its random draws given as `choices`:
     * appends the fifteen active nodes `node_0` .. `node_14` and writes a
     * production marker at each node's cell, a later node overwriting an
     * earlier one on the same cell.
     */
    method GenerateProductionNodes(choices: seq<NodeChoice>)
      requires Valid() && ChoicesFit(choices)
      modifies this`productionNodes, worldGrid
      ensures Valid()
      ensures productionNodes == old(productionNodes) + NodesOf(choices, NodeCount)
      ensures forall r, c :: 0 <= r < worldHeight && 0 <= c < worldWidth ==>
        worldGrid[r, c] == MarkerAfter(old(worldGrid[r, c]), choices, NodeCount, c, r)
    {
      for i := 0 to NodeCount
        invariant productionNodes == old(productionNodes) + NodesOf(choices, i)
        invariant forall r, c :: 0 <= r < worldHeight && 0 <= c < worldWidth ==>
          worldGrid[r, c] == MarkerAfter(old(worldGrid[r, c]), choices, i, c, r)
      {
        var choice := choices[i];
        var id := "node_" + NatToString(i);
        productionNodes := productionNodes + [ProductionNode(choice.x, choice.y, choice.nodeType, id, true)];
        worldGrid[choice.y, choice.x] := ProductionSite(choice.nodeType, id);
        assert NodesOf(choices, i + 1) == NodesOf(choices, i) + [ProductionNode(choice.x, choice.y, choice.nodeType, id, true)];
      }
    }

    /** `armies.set(army.armyId, army)`. */
    method AddArmy(army: Army)
      requires Valid()
      modifies this`armies
      ensures Valid()
      ensures armies == Put(old(armies), army)
    {
      PutThenFind(armies, army);
      armies := Put(armies, army);
    }

    /** `armies.delete(armyId)`: true exactly when the id was registered. */
    method RemoveArmy(armyId: string) returns (removed: bool)
      requires Valid()
      modifies this`armies
      ensures Valid()
      ensures removed == Find(old(armies), armyId).Some?
      ensures armies == Delete(old(armies), armyId)
    {
      removed := IndexOfId(armies, armyId) < |armies|;
      DeleteThenFind(armies, armyId);
      armies := Delete(armies, armyId);
    }

    /** `armies.get(armyId)`: the registered army with that id, if any. */
    function GetArmy(armyId: string): (r: Option<Army>)
      reads this
      ensures r.Some? ==> r.value in armies && r.value.armyId == armyId
      ensures r.None? <==> forall i :: 0 <= i < |armies| ==> armies[i].armyId != armyId
    {
      Find(armies, armyId)
    }

    /** `Array.from(armies.values())`. */
    function GetAllArmies(): seq<Army>
      reads this
    {
      armies
    }

    /** The registered armies of `side`, in registration order. */
    function GetArmiesByPlayer(side: string): (r: seq<Army>)
      requires Valid()
      reads this
      ensures forall k :: 0 <= k < |r| ==> r[k] in armies && r[k].playerSide == side
      ensures forall i :: 0 <= i < |armies| && armies[i].playerSide == side ==> armies[i] in r
    {
      OfSide(armies, side)
    }

    /**
     * `revealTiles(cx, cy, radius)` as it is meant to work, with the world's
     * own 20x20 extent: clears the fog within `radius` and reports the cells
     * that were fogged.
     */
    method RevealTiles(cx: int, cy: int, radius: int) returns (revealed: seq<Revealed>)
      requires Valid()
      modifies fogOfWar
      ensures forall r, c :: 0 <= r < worldHeight && 0 <= c < worldWidth ==>
        fogOfWar[r, c] == (old(fogOfWar[r, c]) && !Within(c, r, cx, cy, radius))
      ensures revealed == old(RevealedCells(fogOfWar, worldGrid, Defined(worldWidth), Defined(worldHeight), cx, cy, radius))
    {
      revealed := Board.RevealTiles(fogOfWar, worldGrid, Defined(worldWidth), Defined(worldHeight), cx, cy, radius);
    }

    /**
     * `revealTiles(cx, cy, radius)` as written: the board helper reads
     * `width` and `height`, which a world board does not have, so nothing is
     * revealed.
     */
    method RevealTilesAsWritten(cx: int, cy: int, radius: int) returns (revealed: seq<Revealed>)
      requires Valid()
      modifies fogOfWar
      ensures revealed == []
      ensures forall r, c :: 0 <= r < worldHeight && 0 <= c < worldWidth ==> fogOfWar[r, c] == old(fogOfWar[r, c])
    {
      revealed := Board.RevealTiles(fogOfWar, worldGrid, Undefined, Undefined, cx, cy, radius);
    }

    /**
     * `deployArmy(armyId, x, y)` with the world's 20x20 extent: an unknown
     * id gives false (None) and changes nothing. A known army is deployed
     * around the target (nothing is placed for a target off the world), and
     * the fog within distance 2 of the target is cleared in either case.
     */
    method DeployArmy(armyId: string, targetX: int, targetY: int) returns (r: Option<seq<Placement>>)
      requires Valid()
      modifies worldGrid, fogOfWar, WithId(armies, armyId)
      ensures Find(armies, armyId).None? ==> r.None? && unchanged(worldGrid) && unchanged(fogOfWar)
      ensures Find(armies, armyId).Some? ==>
        var army := Find(armies, armyId).value;
        var off := Outside(targetX, Defined(worldWidth)) || Outside(targetY, Defined(worldHeight));
        && r == Some(if off then [] else
                       PlannedPlacements(army.pieces, targetX, targetY, Defined(worldWidth), Defined(worldHeight),
                                         Min(|army.pieces|, 9)))
        && (forall row, col :: 0 <= row < worldHeight && 0 <= col < worldWidth ==>
              worldGrid[row, col] == if off then old(worldGrid[row, col]) else
                TileAfterDeploy(old(worldGrid[row, col]), army.pieces, Min(|army.pieces|, 9), armyId,
                                targetX, targetY, Defined(worldWidth), Defined(worldHeight), col, row))
        && (forall row, col :: 0 <= row < worldHeight && 0 <= col < worldWidth ==>
              fogOfWar[row, col] == (old(fogOfWar[row, col]) && !Within(col, row, targetX, targetY, 2)))
        && army.pieces == old(army.pieces) && army.armyStrength == old(army.armyStrength)
        && army.deploymentTiles == old(army.deploymentTiles)
        && (off ==> unchanged(army))
        && (!off ==> army.worldPosition == (targetX, targetY) && !army.consolidated)
    {
      var found := GetArmy(armyId);
      if found.None? {
        return None;
      }
      var army := found.value;
      var deployed := army.DeployArmy(targetX, targetY, worldGrid, Defined(worldWidth), Defined(worldHeight));
      var _ := RevealTiles(targetX, targetY, 2);
      r := Some(deployed);
    }

    /**
     * `deployArmy(armyId, x, y)` as written: the army's deployment and the
     * reveal read `width` and `height` off the world board, where they are
     * undefined, so a known army places nothing, no fog clears and the list
     * returned is empty; a target with no negative coordinate still moves the
     * army's anchor and unconsolidates it.
     */
    method DeployArmyAsWritten(armyId: string, targetX: int, targetY: int) returns (r: Option<seq<Placement>>)
      requires Valid()
      modifies worldGrid, fogOfWar, WithId(armies, armyId)
      ensures forall row, col :: 0 <= row < worldHeight && 0 <= col < worldWidth ==>
        worldGrid[row, col] == old(worldGrid[row, col]) && fogOfWar[row, col] == old(fogOfWar[row, col])
      ensures Find(armies, armyId).None? ==> r.None?
      ensures Find(armies, armyId).Some? ==>
        var army := Find(armies, armyId).value;
        && r == Some([])
        && army.pieces == old(army.pieces) && army.armyStrength == old(army.armyStrength)
        && army.deploymentTiles == old(army.deploymentTiles)
        && (targetX < 0 || targetY < 0 ==> unchanged(army))
        && (targetX >= 0 && targetY >= 0 ==> army.worldPosition == (targetX, targetY) && !army.consolidated)
    {
      var found := GetArmy(armyId);
      if found.None? {
        return None;
      }
      var army := found.value;
      UndefinedExtentsPlaceNothing(army.pieces, targetX, targetY, Min(|army.pieces|, 9));
      var deployed := army.DeployArmy(targetX, targetY, worldGrid, Undefined, Undefined);
      var _ := RevealTilesAsWritten(targetX, targetY, 2);
      r := Some(deployed);
    }

    /**
     * `claimTerritory(x, y, playerId)`: claims the cell when its key is new
     * and its tile empty. Row `y` must exist; a column off the world reads
     * as `undefined` and the claim fails.
     */
    method ClaimTerritory(x: int, y: int, playerId: string) returns (ok: bool)
      requires Valid() && 0 <= y < worldHeight
      modifies this`claimedTerritory, worldGrid
      ensures Valid()
      ensures ok == (KeyOf(x, y) !in old(claimedTerritory) && 0 <= x < worldWidth && old(worldGrid[y, x]) == Empty)
      ensures claimedTerritory == if ok then old(claimedTerritory) + [KeyOf(x, y)] else old(claimedTerritory)
      ensures forall r, c :: 0 <= r < worldHeight && 0 <= c < worldWidth ==>
        worldGrid[r, c] == if ok && r == y && c == x then Claimed(playerId) else old(worldGrid[r, c])
    {
      ok, claimedTerritory := Board.ClaimTerritory(worldGrid, claimedTerritory, x, y, playerId);
      if ok {
        ParseKeyOfKey(x, y);
      }
    }

    /**
     * `checkVictoryConditions()`: tallies the credited owner of each claim,
     * in claim order, then decides as `Victory` does.
     */
    method CheckVictoryConditions() returns (r: Option<Outcome>)
      requires Valid()
      ensures r == Victory(ClaimOwners(worldGrid, claimedTerritory), Sides(armies))
    {
      var counts := TallyClaims();
      var j := FindFirstReaching(counts, TerritoryGoal);
      if j < |counts| {
        return Some(Outcome(counts[j].0, Territory(counts[j].1)));
      }
      var players := DistinctSides(armies);
      if |players| == 1 {
        return Some(Outcome(players[0], Elimination));
      }
      return None;
    }

    /** The first loop of the victory check: `playerClaims`, built in claim order. */
    method TallyClaims() returns (counts: seq<(string, nat)>)
      requires Valid()
      ensures counts == TallyOf(ClaimOwners(worldGrid, claimedTerritory))
    {
      counts := [];
      for i := 0 to |claimedTerritory|
        invariant counts == TallyOf(ClaimOwners(worldGrid, claimedTerritory[..i]))
      {
        var (x, y) := ParseKey(claimedTerritory[i]).value;
        var tile := worldGrid[y, x];
        TallyClaimsStep(worldGrid, claimedTerritory, i);
        if tile.Claimed? && tile.player != "" {
          counts := Bump(counts, tile.player);
        }
      }
      assert claimedTerritory[..|claimedTerritory|] == claimedTerritory;
    }
  }

  /** Tallying one more claim bumps the count of its credited owner, if it has one. */
  lemma TallyClaimsStep(grid: array2<Tile>, keys: seq<string>, i: nat)
    requires i < |keys|
    ensures var before := TallyOf(ClaimOwners(grid, keys[..i]));
      TallyOf(ClaimOwners(grid, keys[..i + 1])) ==
        match OwnerOf(grid, keys[i]) case Some(p) => Bump(before, p) case None => before
  {
    var owners := ClaimOwners(grid, keys[..i]);
    assert keys[..i + 1][..i] == keys[..i];
    match OwnerOf(grid, keys[i])
    case Some(p) =>
      assert ClaimOwners(grid, keys[..i + 1]) == owners + [p];
      assert (owners + [p])[..|owners|] == owners;
    case None =>
  }

  /** The second loop of the victory check: the first tally entry reaching `bound`. */
  method FindFirstReaching(counts: seq<(string, nat)>, bound: nat) returns (j: nat)
    ensures j == FirstReaching(counts, bound)
  {
    j := 0;
    while j < |counts| && counts[j].1 < bound
      invariant j <= |counts|
      invariant forall k :: 0 <= k < j ==> counts[k].1 < bound
    {
      j := j + 1;
    }
  }

  /** `Object.keys(armiesByPlayer)`: the distinct sides of the registry, in first-registration order. */
  method DistinctSides(reg: seq<Army>) returns (players: seq<string>)
    ensures players == Dedup(Sides(reg))
  {
    players := [];
    for i := 0 to |reg|
      invariant players == Dedup(Sides(reg)[..i])
    {
      assert Sides(reg)[..i + 1][..i] == Sides(reg)[..i];
      if reg[i].playerSide !in players {
        players := players + [reg[i].playerSide];
      }
    }
    assert Sides(reg)[..|reg|] == Sides(reg);
  }
}
