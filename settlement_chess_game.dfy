/**
 * The turn controller of Settlement Chess (settlementChessGame.js): whose
 * turn it is, when the game is over, what a click on the world does, and who
 * is subscribed to which event.
 *
 * `emit` runs arbitrary callbacks. Here each handler returns the events it
 * emits, in order, and the listener registry records only who is subscribed.
 */
module Game {
  import opened Wrappers
  import opened Tally
  import opened Board
  import opened Armies
  import opened World
  import opened Production

  datatype GameState = Playing | Finished

  /** A subscriber, known only by its identity. */
  datatype Callback = Callback(id: nat)

  /** An emitted event with its payload. */
  datatype Event =
    | TurnEnded(turnCount: nat, currentPlayer: string)
    | GameEnded(outcome: Outcome)
    | ArmySelected(army: Army)
    | ProductionCompleted(x: int, y: int, production: Offer)
    | TerritoryClaimed(x: int, y: int, player: string)
    | ArmyDeployed(army: Army, x: int, y: int, deployed: seq<Placement>)

  /* ---------------------------------------------------------------------- */
  /* Turns                                                                  */
  /* ---------------------------------------------------------------------- */

  /** `currentPlayer === 'W' ? 'B' : 'W'`. */
  function Opponent(player: string): (next: string)
    ensures next == "W" || next == "B"
    ensures next == "B" <==> player == "W"
  {
    if player == "W" then "B" else "W"
  }

  /** The side to move after `turn` completed turns: white on even turns. */
  function PlayerAt(turn: nat): string {
    if turn % 2 == 0 then "W" else "B"
  }

  /** Ending a turn hands the move to the side due on the next turn. */
  lemma OpponentAlternates(turn: nat)
    ensures Opponent(PlayerAt(turn)) == PlayerAt(turn + 1)
    ensures PlayerAt(turn) != PlayerAt(turn + 1)
  {
  }

  /* ---------------------------------------------------------------------- */
  /* The listener registry                                                  */
  /* ---------------------------------------------------------------------- */

  /** Event name -> the set of its callbacks (a Map of Sets). */
  type Listeners = map<string, set<Callback>>

  /** The callbacks `emit(event, ...)` would call. */
  function Subscribers(ls: Listeners, event: string): (r: set<Callback>)
    ensures event !in ls ==> r == {}
  {
    if event in ls then ls[event] else {}
  }

  /** `on(event, callback)`: creates the event's set when missing, then adds the callback. */
  function Subscribe(ls: Listeners, event: string, cb: Callback): (r: Listeners)
    ensures event in r && Subscribers(r, event) == Subscribers(ls, event) + {cb}
    ensures forall e :: e != event ==> (e in r <==> e in ls) && Subscribers(r, e) == Subscribers(ls, e)
  {
    ls[event := Subscribers(ls, event) + {cb}]
  }

  /** `off(event, callback)`: deletes the callback from the event's set, when the event has one. */
  function Unsubscribe(ls: Listeners, event: string, cb: Callback): (r: Listeners)
    ensures cb !in Subscribers(r, event)
    ensures Subscribers(r, event) == Subscribers(ls, event) - {cb}
    ensures forall e :: (e in r <==> e in ls) && (e != event ==> Subscribers(r, e) == Subscribers(ls, e))
  {
    if event in ls then ls[event := ls[event] - {cb}] else ls
  }

  /** Subscribing twice is subscribing once. */
  lemma SubscribeIdempotent(ls: Listeners, event: string, cb: Callback)
    ensures Subscribe(Subscribe(ls, event, cb), event, cb) == Subscribe(ls, event, cb)
  {
    var once := Subscribe(ls, event, cb);
    assert once[event] + {cb} == once[event];
  }

  /**
   * `off` undoes `on` for a callback that was not yet subscribed: every
   * event has the subscribers it had before.
   */
  lemma OffUndoesOn(ls: Listeners, event: string, cb: Callback)
    requires cb !in Subscribers(ls, event)
    ensures forall e :: Subscribers(Unsubscribe(Subscribe(ls, event, cb), event, cb), e) == Subscribers(ls, e)
  {
    var r := Unsubscribe(Subscribe(ls, event, cb), event, cb);
    assert Subscribers(r, event) == Subscribers(ls, event);
  }

  /* ---------------------------------------------------------------------- */
  /* Armies of a side                                                       */
  /* ---------------------------------------------------------------------- */

  /** The position of the first registered army of `side`, or `|reg|` when it has none. */
  function FirstSideIndex(reg: seq<Army>, side: string): (i: nat)
    ensures i <= |reg|
    ensures forall j :: 0 <= j < i ==> reg[j].playerSide != side
    ensures i < |reg| ==> reg[i].playerSide == side
  {
    IndexOf(Sides(reg), side)
  }

  /** The armies of `side` start with its first registered army. */
  lemma {:induction false} OfSideHead(reg: seq<Army>, side: string)
    ensures (OfSide(reg, side) == []) <==> FirstSideIndex(reg, side) == |reg|
    ensures FirstSideIndex(reg, side) < |reg| ==> OfSide(reg, side)[0] == reg[FirstSideIndex(reg, side)]
    decreases |reg|
  {
    if reg != [] && reg[0].playerSide != side {
      OfSideHead(reg[1..], side);
      assert Sides(reg)[1..] == Sides(reg[1..]);
      assert FirstSideIndex(reg, side) == 1 + FirstSideIndex(reg[1..], side);
    }
  }

  /** The eight pieces each side starts with: king, queen, rook, bishop, knight and three pawns. */
  function InitialPieces(color: string): (r: seq<Piece>)
    ensures |r| == 8 && forall k :: 0 <= k < |r| ==> r[k].color == color && r[k].owner.None?
    ensures Kinds(r) == [K, Q, R, B, N, P, P, P]
  {
    var kinds := [K, Q, R, B, N, P, P, P];
    var r := seq(8, i requires 0 <= i < 8 => Piece(kinds[i], color, None));
    assert Kinds(r) == kinds;
    r
  }

  /** Which handler a click on an in-bounds tile goes to. */
  datatype ClickHandler = ProductionClick | EmptyClick | OccupiedClick

  /**
   * A production marker goes to the production handler, an empty tile to
   * the claim handler, and anything else (a deployed piece, a claim) to the
   * deployment handler.
   */
  function HandlerFor(tile: Tile): (h: ClickHandler)
    ensures h == ProductionClick <==> tile.ProductionSite?
    ensures h == EmptyClick <==> tile == Empty
    ensures h == OccupiedClick <==> tile.Deployed? || tile.Claimed?
  {
    if tile.ProductionSite? then ProductionClick
    else if tile == Empty then EmptyClick
    else OccupiedClick
  }

  /* ---------------------------------------------------------------------- */
  /* The game                                                               */
  /* ---------------------------------------------------------------------- */

  class SettlementChessGame {
    const worldBoard: WorldBoard
    const productionSystem: ProductionSystem
    var gameState: GameState
    var currentPlayer: string
    var turnCount: nat
    var eventListeners: Listeners

    /**
     * The production system works on this game's world, both are valid, and
     * white moves on even turns, black on odd ones.
     */
    ghost predicate Valid()
      reads this, worldBoard
    {
      && productionSystem.worldBoard == worldBoard
      && worldBoard.Valid() && productionSystem.Valid()
      && currentPlayer == PlayerAt(turnCount)
    }

    /**
     * A new game: a fresh world whose production nodes come from `choices`,
     * a production system over it with the cost table `costs`, white to move
     * on turn 0, and no listeners.
     */
    constructor (choices: seq<NodeChoice>, costs: CostTable)
      requires ChoicesFit(choices) && WellFormed(costs)
      ensures Valid() && fresh(worldBoard) && fresh(productionSystem)
      ensures gameState == Playing && currentPlayer == "W" && turnCount == 0 && eventListeners == map[]
      ensures worldBoard.armies == [] && worldBoard.claimedTerritory == []
      ensures worldBoard.productionNodes == NodesOf(choices, NodeCount)
      ensures productionSystem.productionCosts == costs
    {
      var world := new WorldBoard(choices);
      worldBoard := world;
      productionSystem := new ProductionSystem(world, costs);
      gameState := Playing;
      currentPlayer := "W";
      turnCount := 0;
      eventListeners := map[];
    }

    /**
     * `setupInitialArmies()`: registers `army1` for white and `army2` for
     * black, each holding the eight starting pieces; other registrations
     * stay as they were.
     */
    method SetupInitialArmies()
      requires Valid()
      modifies worldBoard`armies
      ensures Valid()
      ensures var a := Find(worldBoard.armies, "army1");
        a.Some? && fresh(a.value) && a.value.playerSide == "W" && a.value.pieces == InitialPieces("W")
        && a.value.armyStrength == 8
      ensures var a := Find(worldBoard.armies, "army2");
        a.Some? && fresh(a.value) && a.value.playerSide == "B" && a.value.pieces == InitialPieces("B")
        && a.value.armyStrength == 8
      ensures forall id :: id != "army1" && id != "army2" ==> Find(worldBoard.armies, id) == Find(old(worldBoard.armies), id)
    {
      var army1 := new Army("army1", "W");
      var army2 := new Army("army2", "B");
      AddEach(army1, InitialPieces("W"));
      AddEach(army2, InitialPieces("B"));
      PutThenFind(worldBoard.armies, army1);
      worldBoard.AddArmy(army1);
      PutThenFind(worldBoard.armies, army2);
      worldBoard.AddArmy(army2);
    }

    /** Adds the pieces to the army one at a time, in order, keeping its strength in step. */
    static method AddEach(army: Army, ps: seq<Piece>)
      requires army.Valid()
      modifies army
      ensures army.pieces == old(army.pieces) + ps
      ensures army.Valid()
    {
      ghost var start := army.pieces;
      for i := 0 to |ps|
        invariant army.pieces == start + ps[..i] && army.Valid()
      {
        army.AddPiece(ps[i]);
        assert ps[..i + 1] == ps[..i] + [ps[i]];
      }
      assert ps[..|ps|] == ps;
    }

    /**
     * `endTurn()`: one more turn, the other side to move, a `turnEnded`
     * event; then, when the victory check finds a winner, the game is
     * finished and `gameEnded` follows. Nothing returns the game to playing.
     */
    method EndTurn() returns (events: seq<Event>)
      requires Valid()
      modifies this`turnCount, this`currentPlayer, this`gameState
      ensures Valid()
      ensures turnCount == old(turnCount) + 1
      ensures currentPlayer == Opponent(old(currentPlayer))
      ensures var v := Victory(ClaimOwners(worldBoard.worldGrid, worldBoard.claimedTerritory), Sides(worldBoard.armies));
        && gameState == (if v.Some? then Finished else old(gameState))
        && events == [TurnEnded(turnCount, currentPlayer)] + (if v.Some? then [GameEnded(v.value)] else [])
      ensures old(gameState) == Finished ==> gameState == Finished
    {
      OpponentAlternates(turnCount);
      turnCount := turnCount + 1;
      currentPlayer := if currentPlayer == "W" then "B" else "W";
      events := [TurnEnded(turnCount, currentPlayer)];
      var victory := worldBoard.CheckVictoryConditions();
      if victory.Some? {
        gameState := Finished;
        events := events + [GameEnded(victory.value)];
      }
    }

    /** `getCurrentPlayerArmy()`: the first registered army of the side to move, if any. */
    function GetCurrentPlayerArmy(): (r: Option<Army>)
      requires Valid()
      reads this, worldBoard
      ensures r.None? <==> forall i :: 0 <= i < |worldBoard.armies| ==> worldBoard.armies[i].playerSide != currentPlayer
      ensures r.Some? ==>
        && FirstSideIndex(worldBoard.armies, currentPlayer) < |worldBoard.armies|
        && r.value == worldBoard.armies[FirstSideIndex(worldBoard.armies, currentPlayer)]
    {
      var armies := worldBoard.GetArmiesByPlayer(currentPlayer);
      OfSideHead(worldBoard.armies, currentPlayer);
      if |armies| > 0 then Some(armies[0]) else None
    }

    /** `selectArmy(armyId)`: `armySelected` is emitted exactly for a registered army of the side to move. */
    function SelectArmy(armyId: string): (events: seq<Event>)
      requires Valid()
      reads this, worldBoard
      ensures events == [] || exists i :: (0 <= i < |worldBoard.armies| && events == [ArmySelected(worldBoard.armies[i])]
        && worldBoard.armies[i].armyId == armyId && worldBoard.armies[i].playerSide == currentPlayer)
      ensures forall i :: 0 <= i < |worldBoard.armies| && worldBoard.armies[i].armyId == armyId ==>
        events == if worldBoard.armies[i].playerSide == currentPlayer then [ArmySelected(worldBoard.armies[i])] else []
    {
      var army := worldBoard.GetArmy(armyId);
      FindAll(worldBoard.armies, armyId);
      if army.Some? && army.value.playerSide == currentPlayer then [ArmySelected(army.value)] else []
    }

    /** `on(event, callback)`. */
    method On(event: string, callback: Callback)
      modifies this`eventListeners
      ensures eventListeners == Subscribe(old(eventListeners), event, callback)
      ensures callback in Subscribers(eventListeners, event)
    {
      if event !in eventListeners {
        eventListeners := eventListeners[event := {}];
      }
      eventListeners := eventListeners[event := eventListeners[event] + {callback}];
    }

    /** `off(event, callback)`. */
    method Off(event: string, callback: Callback)
      modifies this`eventListeners
      ensures eventListeners == Unsubscribe(old(eventListeners), event, callback)
      ensures callback !in Subscribers(eventListeners, event)
    {
      if event in eventListeners {
        eventListeners := eventListeners[event := eventListeners[event] - {callback}];
      }
    }

    /* -------------------------------------------------------------------- */
    /* Clicks                                                               */
    /* -------------------------------------------------------------------- */

    predicate InWorld(x: int, y: int) {
      0 <= x < WorldWidth && 0 <= y < WorldHeight
    }

    /**
     * The production handler would not throw at (x, y): the first node there
     * is missing, inactive, or of a type the cost table lists.
     */
    predicate ProducibleAt(x: int, y: int)
      reads worldBoard
    {
      var node := FindNode(worldBoard.productionNodes, x, y);
      node.None? || !node.value.active || node.value.nodeType in productionSystem.productionCosts
    }

    /**
     * The army a click may change: the first registered army of the side to
     * move, when there is one.
     */
    function SideArmy(): set<Army>
      requires Valid()
      reads this, worldBoard
    {
      if GetCurrentPlayerArmy().Some? then {GetCurrentPlayerArmy().value} else {}
    }

    /** Neither the world nor `army` has changed. */
    twostate predicate Untouched(army: Option<Army>)
      reads this, worldBoard, worldBoard.worldGrid, worldBoard.fogOfWar
      reads if army.Some? then {army.value} else {}
    {
      && worldBoard.claimedTerritory == old(worldBoard.claimedTerritory)
      && (forall r, c :: 0 <= r < worldBoard.worldGrid.Length0 && 0 <= c < worldBoard.worldGrid.Length1 ==>
            worldBoard.worldGrid[r, c] == old(worldBoard.worldGrid[r, c]))
      && (forall r, c :: 0 <= r < worldBoard.fogOfWar.Length0 && 0 <= c < worldBoard.fogOfWar.Length1 ==>
            worldBoard.fogOfWar[r, c] == old(worldBoard.fogOfWar[r, c]))
      && (army.Some? ==> unchanged(army.value))
    }

    /**
     * The effect of a click on an empty tile for the side's army `army`:
     * when the army holds a pawn and the claim succeeds, the tile is claimed
     * for the side to move, the army's first pawn leaves the roster and
     * `territoryClaimed` is emitted; otherwise nothing changes.
     */
    twostate predicate ClaimEffect(x: int, y: int, army: Option<Army>, new events: seq<Event>)
      requires InWorld(x, y) && worldBoard.Valid()
      reads this, worldBoard, worldBoard.worldGrid, worldBoard.fogOfWar, worldBoard.armies
      reads if army.Some? then {army.value} else {}
    {
      var key := KeyOf(x, y);
      var claimed := && army.Some? && P in Kinds(old(army.value.pieces))
                     && key !in old(worldBoard.claimedTerritory) && old(worldBoard.worldGrid[y, x]) == Empty;
      if !claimed then events == [] && Untouched(army)
      else
        var before := old(army.value.pieces);
        var i := FirstIndex(Kinds(before), P);
        && events == [TerritoryClaimed(x, y, currentPlayer)]
        && worldBoard.claimedTerritory == old(worldBoard.claimedTerritory) + [key]
        && (forall r, c :: 0 <= r < WorldHeight && 0 <= c < WorldWidth ==>
              worldBoard.worldGrid[r, c] == if r == y && c == x then Claimed(currentPlayer) else old(worldBoard.worldGrid[r, c]))
        && (forall r, c :: 0 <= r < WorldHeight && 0 <= c < WorldWidth ==>
              worldBoard.fogOfWar[r, c] == old(worldBoard.fogOfWar[r, c]))
        && army.value.pieces == before[..i] + before[i + 1..]
        && army.value.armyStrength == |army.value.pieces|
        && army.value.consolidated == old(army.value.consolidated)
        && army.value.worldPosition == old(army.value.worldPosition)
        && army.value.deploymentTiles == old(army.value.deploymentTiles)
    }

    /**
     * The effect of a click on a production node for the side's army `army`:
     * when the army exists and the first node at (x, y) offers something,
     * the first offer is produced (the army's last pieces of the required
     * type go, the new piece is appended) and `productionCompleted` is
     * emitted; otherwise nothing changes. The world itself never changes.
     */
    twostate predicate ProductionEffect(x: int, y: int, army: Option<Army>, new events: seq<Event>)
      requires Valid() && (army.Some? ==> old(ProducibleAt(x, y)))
      reads this, worldBoard, worldBoard.worldGrid, worldBoard.fogOfWar, worldBoard.armies
      reads if army.Some? then {army.value} else {}
    {
      var node := old(FindNode(worldBoard.productionNodes, x, y));
      var offers :=
        if army.None? || node.None? || !node.value.active then []
        else old(productionSystem.Offers(productionSystem.productionCosts[node.value.nodeType],
                                         node.value.nodeType, x, y, army.value.armyId));
      if offers == [] then events == [] && Untouched(army)
      else events == [ProductionCompleted(x, y, offers[0])] && Produced(army.value, offers[0])
    }

    /**
     * `army` traded the last pieces the offer requires for one piece of its
     * output; nothing else changed.
     */
    twostate predicate Produced(army: Army, o: Offer)
      reads this, worldBoard, worldBoard.worldGrid, worldBoard.fogOfWar, worldBoard.armies, army
    {
      var before := old(army.pieces);
      && worldBoard.claimedTerritory == old(worldBoard.claimedTerritory)
      && (forall r, c :: 0 <= r < worldBoard.worldGrid.Length0 && 0 <= c < worldBoard.worldGrid.Length1 ==>
            worldBoard.worldGrid[r, c] == old(worldBoard.worldGrid[r, c]))
      && (forall r, c :: 0 <= r < worldBoard.fogOfWar.Length0 && 0 <= c < worldBoard.fogOfWar.Length1 ==>
            worldBoard.fogOfWar[r, c] == old(worldBoard.fogOfWar[r, c]))
      && army.pieces == RemoveLast(before, o.cost.required, o.cost.count) + [Piece(o.outputType, army.playerSide, Some(army.armyId))]
      && army.armyStrength == |army.pieces|
      && army.consolidated == old(army.consolidated)
      && army.worldPosition == old(army.worldPosition)
      && army.deploymentTiles == old(army.deploymentTiles)
    }

    /**
     * The effect of a click on an occupied tile for the side's army `army`:
     * the army is deployed around (x, y), the fog within distance 2 clears,
     * and `armyDeployed` is emitted when at least one piece was placed;
     * without an army nothing changes.
     */
    twostate predicate DeployEffect(x: int, y: int, army: Option<Army>, new events: seq<Event>)
      requires InWorld(x, y) && worldBoard.Valid()
      reads this, worldBoard, worldBoard.worldGrid, worldBoard.fogOfWar, worldBoard.armies
      reads if army.Some? then {army.value} else {}
    {
      if army.None? then events == [] && Untouched(army)
      else
        var a := army.value;
        var n := Min(|old(a.pieces)|, 9);
        var placed := PlannedPlacements(old(a.pieces), x, y, Defined(WorldWidth), Defined(WorldHeight), n);
        && events == (if |placed| > 0 then [ArmyDeployed(a, x, y, placed)] else [])
        && worldBoard.claimedTerritory == old(worldBoard.claimedTerritory)
        && (forall r, c :: 0 <= r < WorldHeight && 0 <= c < WorldWidth ==>
              worldBoard.worldGrid[r, c] ==
                TileAfterDeploy(old(worldBoard.worldGrid[r, c]), old(a.pieces), n, a.armyId,
                                x, y, Defined(WorldWidth), Defined(WorldHeight), c, r))
        && (forall r, c :: 0 <= r < WorldHeight && 0 <= c < WorldWidth ==>
              worldBoard.fogOfWar[r, c] == (old(worldBoard.fogOfWar[r, c]) && !Within(c, r, x, y, 2)))
        && a.pieces == old(a.pieces) && a.armyStrength == old(a.armyStrength)
        && a.deploymentTiles == old(a.deploymentTiles)
        && a.worldPosition == (x, y) && !a.consolidated
    }

    /** `handleEmptyTileClick(x, y)`: claim the tile with a pawn. */
    method HandleEmptyTileClick(x: int, y: int) returns (events: seq<Event>)
      requires Valid() && InWorld(x, y)
      modifies worldBoard`claimedTerritory, worldBoard.worldGrid, SideArmy()
      ensures Valid()
      ensures ClaimEffect(x, y, old(GetCurrentPlayerArmy()), events)
    {
      events := [];
      var found := GetCurrentPlayerArmy();
      if found.None? {
        return;
      }
      var currentArmy := found.value;
      var pawns := Matching(currentArmy.pieces, P);
      MatchingCount(currentArmy.pieces, P);
      if |pawns| > 0 {
        events := ClaimWithPawn(x, y, currentArmy);
      }
    }

    /**
     * The rest of `handleEmptyTileClick` once the side's army is known to
     * hold a pawn: claim the tile and, on success, spend the first pawn.
     */
    method ClaimWithPawn(x: int, y: int, currentArmy: Army) returns (events: seq<Event>)
      requires Valid() && InWorld(x, y)
      requires P in Kinds(currentArmy.pieces)
      modifies worldBoard`claimedTerritory, worldBoard.worldGrid, currentArmy
      ensures Valid()
      ensures ClaimEffect(x, y, Some(currentArmy), events)
    {
      events := [];
      ghost var before := currentArmy.pieces;
      var ok := worldBoard.ClaimTerritory(x, y, currentPlayer);
      if ok {
        var i := FirstIndex(Kinds(currentArmy.pieces), P);
        var _ := currentArmy.RemovePiece(i);
        assert currentArmy.pieces == before[..i] + before[i + 1..];
        events := [TerritoryClaimed(x, y, currentPlayer)];
      }
    }

    /** `handleProductionNodeClick(x, y)`: produce the first available offer. */
    method HandleProductionNodeClick(x: int, y: int) returns (events: seq<Event>)
      requires Valid() && (GetCurrentPlayerArmy().Some? ==> ProducibleAt(x, y))
      modifies SideArmy()
      ensures Valid()
      ensures ProductionEffect(x, y, old(GetCurrentPlayerArmy()), events)
    {
      events := [];
      var node := FindNode(worldBoard.productionNodes, x, y);
      if node.None? {
        return;
      }
      var found := GetCurrentPlayerArmy();
      if found.None? {
        return;
      }
      events := ProduceFirstAvailable(x, y, found.value);
    }

    /**
     * The rest of `handleProductionNodeClick` once a node at (x, y) and the
     * side's army are known: list the offers and produce the first one.
     */
    method ProduceFirstAvailable(x: int, y: int, currentArmy: Army) returns (events: seq<Event>)
      requires Valid() && ProducibleAt(x, y) && FindNode(worldBoard.productionNodes, x, y).Some?
      requires GetCurrentPlayerArmy() == Some(currentArmy)
      modifies currentArmy
      ensures Valid()
      ensures ProductionEffect(x, y, Some(currentArmy), events)
    {
      events := [];
      FindEntry(worldBoard.armies, FirstSideIndex(worldBoard.armies, currentPlayer));
      ghost var node := FindNode(worldBoard.productionNodes, x, y).value;
      ghost var offers := if !node.active then [] else
        productionSystem.Offers(productionSystem.productionCosts[node.nodeType], node.nodeType, x, y, currentArmy.armyId);
      var available := productionSystem.GetAvailableProductions(x, y, currentArmy.armyId);
      assert available == offers;
      if |available| > 0 {
        ProducesFirstOffer(x, y, currentArmy.armyId, available);
        events := ProduceOffer(x, y, currentArmy, available[0]);
      }
    }

    /** `produceAtNode` for an offer known to pass the check, and the event it leads to. */
    method ProduceOffer(x: int, y: int, currentArmy: Army, production: Offer) returns (events: seq<Event>)
      requires Valid() && currentArmy in worldBoard.armies
      requires Find(worldBoard.armies, currentArmy.armyId) == Some(currentArmy)
      requires productionSystem.CanProduceAtNode(x, y, currentArmy.armyId, production.outputType)
      requires productionSystem.GetProductionCost(FindNode(worldBoard.productionNodes, x, y).value.nodeType,
                                                  production.outputType) == Some(production.cost)
      modifies currentArmy
      ensures Valid()
      ensures events == [ProductionCompleted(x, y, production)]
      ensures Produced(currentArmy, production)
    {
      WithIdFound(worldBoard.armies, currentArmy.armyId);
      var success := productionSystem.ProduceAtNode(x, y, currentArmy.armyId, production.outputType);
      events := [];
      if success {
        events := [ProductionCompleted(x, y, production)];
      }
    }

    /** The first offer passes the check and costs what the table declares for its output. */
    lemma ProducesFirstOffer(x: int, y: int, armyId: string, available: seq<Offer>)
      requires Valid() && |available| > 0
      requires var node := FindNode(worldBoard.productionNodes, x, y);
        && node.Some? && node.value.active && node.value.nodeType in productionSystem.productionCosts
        && available == productionSystem.Offers(productionSystem.productionCosts[node.value.nodeType],
                                                 node.value.nodeType, x, y, armyId)
      ensures productionSystem.CanProduceAtNode(x, y, armyId, available[0].outputType)
      ensures productionSystem.GetProductionCost(FindNode(worldBoard.productionNodes, x, y).value.nodeType,
                                                 available[0].outputType) == Some(available[0].cost)
    {
    }

    /** `handleOccupiedTileClick(x, y)`: deploy the side's army around the tile. */
    method HandleOccupiedTileClick(x: int, y: int) returns (events: seq<Event>)
      requires Valid() && InWorld(x, y)
      modifies worldBoard.worldGrid, worldBoard.fogOfWar, SideArmy()
      ensures Valid()
      ensures DeployEffect(x, y, old(GetCurrentPlayerArmy()), events)
    {
      events := [];
      var found := GetCurrentPlayerArmy();
      if found.None? {
        return;
      }
      var currentArmy := found.value;
      FindEntry(worldBoard.armies, FirstSideIndex(worldBoard.armies, currentPlayer));
      WithIdFound(worldBoard.armies, currentArmy.armyId);
      ghost var n := Min(|currentArmy.pieces|, 9);
      ghost var planned := PlannedPlacements(currentArmy.pieces, x, y, Defined(WorldWidth), Defined(WorldHeight), n);
      assert !(Outside(x, Defined(worldBoard.worldWidth)) || Outside(y, Defined(worldBoard.worldHeight)));
      var deployed := worldBoard.DeployArmy(currentArmy.armyId, x, y);
      assert deployed == Some(planned);
      if |deployed.value| > 0 {
        events := [ArmyDeployed(currentArmy, x, y, deployed.value)];
      }
    }

    /**
     * `handleWorldClick(x, y)`: a click off the 20x20 world does nothing;
     * otherwise the tile under it picks the handler. No handler looks at the
     * game state, so clicks still act once the game is finished.
     */
    method HandleWorldClick(x: int, y: int) returns (events: seq<Event>)
      requires Valid()
      requires InWorld(x, y) && worldBoard.worldGrid[y, x].ProductionSite? && GetCurrentPlayerArmy().Some? ==>
        ProducibleAt(x, y)
      modifies worldBoard`claimedTerritory, worldBoard.worldGrid, worldBoard.fogOfWar, SideArmy()
      ensures Valid()
      ensures !InWorld(x, y) ==> events == [] && Untouched(old(GetCurrentPlayerArmy()))
      ensures InWorld(x, y) ==>
        match HandlerFor(old(worldBoard.worldGrid[y, x]))
        case ProductionClick => ProductionEffect(x, y, old(GetCurrentPlayerArmy()), events)
        case EmptyClick => ClaimEffect(x, y, old(GetCurrentPlayerArmy()), events)
        case OccupiedClick => DeployEffect(x, y, old(GetCurrentPlayerArmy()), events)
    {
      if !InWorld(x, y) {
        return [];
      }
      var tile := worldBoard.worldGrid[y, x];
      match HandlerFor(tile)
      case ProductionClick =>
        events := HandleProductionNodeClick(x, y);
      case EmptyClick =>
        events := HandleEmptyTileClick(x, y);
      case OccupiedClick =>
        events := HandleOccupiedTileClick(x, y);
    }
  }

  /** A registry with distinct ids finds each of its armies by id. */
  lemma FindAll(reg: seq<Army>, id: string)
    requires DistinctIds(reg)
    ensures forall i :: 0 <= i < |reg| && reg[i].armyId == id ==> Find(reg, id) == Some(reg[i])
  {
    forall i | 0 <= i < |reg| && reg[i].armyId == id
      ensures Find(reg, id) == Some(reg[i])
    {
      FindEntry(reg, i);
    }
  }
}
