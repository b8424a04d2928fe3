# Settlement Chess — a verified model of the game state

Settlement Chess is a browser strategy game on a 20x20 world. It is played
with chess pieces grouped into armies. The world grid holds empty tiles,
production nodes, claimed tiles and deployed pieces, and a fog-of-war grid
lies over it. Players deploy armies around a clicked tile and claim empty
tiles by spending a pawn. At production nodes they trade pieces of one type
for a new piece. A player wins by holding 64 claimed tiles, or by being the
only side that still has a registered army.

This project models the five files of the game core in Dafny and proves
properties of the model:

- `board.dfy` (`Board`): the grid primitives of `board.js`.
  - Plain boards are values.
  - The world record holds two `array2` grids.
  - `RevealTiles` and `ClaimTerritory` are methods that update those grids in place.
- `army.dfy` (`Armies`): the `Army` class of `army.js`.
  - Fields: roster, strength, anchor, consolidation flag.
  - Deployment writes pieces onto the world grid.
  - Bonuses and the most common piece are read from the roster.
- `world_board.dfy` (`World`): the `WorldBoard` class of `worldBoard.js`.
  - The army registry, a JS `Map`, is a sequence with distinct ids kept in insertion order.
  - Also here: the production nodes, the claim set, deployment and the victory check.
- `production_system.dfy` (`Production`): the `ProductionSystem` class of
  `productionSystem.js`.
  - Cost lookup, the production check, production itself (the backward splice loop).
  - The offers available at a node, and bishops converting peasants to pawns.
- `settlement_chess_game.dfy` (`Game`): the `SettlementChessGame` class of
  `settlementChessGame.js`.
  - Turns, the end-of-turn victory check, army selection, the click handlers and the listener registry.
  - Every handler returns the events it emits, in order.

Support modules:

- `decimal.dfy`: the decimal text of numbers, the way template literals print them and `parseInt`/`Number` read them back, plus `split`.
- `tally.dfy`: the `reduce` into a counting object that the code uses twice. The object's keys are kept in first-insertion order.
- `wrappers.dfy`: `Option`, which stands for `null`/`undefined`.

Randomness is injected. `generateProductionNodes` draws 15 cells and node
types with `Math.random`; here these draws are a parameter (`NodeChoice`).

The cost table of `ProductionSystem` is also a parameter. The literal table
in the code maps each output to a bare number, and this disables production
altogether (see Findings). `canProduceAtNode` is also modelled as written over
costs that are JavaScript values, bare numbers or objects (`CanProduceOver`).
Over the literal table it is always false. Over a table of `{requiredType: count}`
objects it agrees with `CanProduceAtNode`. The game model works with a
well-formed table of such costs, which is the form the production code reads.

Deployment and reveal use the world's own 20x20 extent. As written they read
`width`/`height` off the `WorldBoard` instance, where both are `undefined`.
The model keeps the as-written behaviour as separate members (see Findings).

## Model

| member | source | states |
|---|---|---|
| Decimal.NatToString | settlement-chess/src/game/board.js:62 | the text of a number is non-empty and all decimal digits |
| Decimal.NatToStringRoundTrip | settlement-chess/src/game/worldBoard.js:97 | reading the printed text of `n` back with `Number` gives `n` |
| Decimal.NatToStringInjective | settlement-chess/src/game/board.js:62 | two numbers with the same text are equal |
| Decimal.Split | settlement-chess/src/game/worldBoard.js:97 | `split` always yields at least one part |
| Decimal.SplitWithoutSeparator | settlement-chess/src/game/worldBoard.js:97 | a string without the separator splits into itself alone |
| Decimal.SplitAtFirstSeparator | settlement-chess/src/game/worldBoard.js:97 | `a + sep + b` with no separator in `a` splits into `a` followed by the parts of `b` |
| Tally.Count | settlement-chess/src/game/army.js:74-77 | a count is at most the length and positive exactly when the element occurs |
| Tally.Dedup | settlement-chess/src/game/worldBoard.js:112-120 | the distinct keys have no repeats and are exactly the elements of the input |
| Tally.IndexOf | settlement-chess/src/game/worldBoard.js:80-82 | the position of the first element equal to the one sought, or the length when there is none |
| Tally.FirstIndex | settlement-chess/src/game/army.js:108-113 | the index found holds the element and no earlier index does |
| Tally.BumpEffect | settlement-chess/src/game/army.js:75 | one reduce step adds one to the element's entry, or appends a new entry with count 1, leaving the others as they were |
| Tally.TallyOfTallies | settlement-chess/src/game/army.js:74-77 | the reduce yields each distinct element with its count, in order of first occurrence |
| Tally.LookupTally | settlement-chess/src/game/army.js:82 | `counts[t]` is the number of `t` held, or undefined when none is held |
| Tally.DedupFirstOccurrenceOrder | settlement-chess/src/game/army.js:108-113 | the keys of the counting object come in the order of their first occurrence in the input |
| Board.CreateEmptyBoard | settlement-chess/src/game/board.js:4-7 | `height` rows of `width` cells, every one `null`; eight by eight when called without arguments |
| Board.DefaultBoardIsEightByEight | settlement-chess/src/game/board.js:4-5 | the default arguments give eight rows of eight cells |
| Board.CloneBoard | settlement-chess/src/game/board.js:9-11 | the copy has the shape and every cell of the original |
| Board.SetPiece | settlement-chess/src/game/board.js:21-25 | the board is left as it was; in the copy only row `y` can differ. A column inside the row holds the piece; a column past the end lengthens the row to `x + 1`, with holes between; a negative column changes no cell |
| Board.SetPieceTwice | settlement-chess/src/game/board.js:21-25 | setting the same cell twice leaves only the second piece |
| Board.CoordToIndex | settlement-chess/src/game/board.js:13-18 | the file index lies in 0..25 and the rank index is at least -1 |
| Board.CoordToIndexRoundTrip | settlement-chess/src/game/board.js:13-18 | the name of square (x, y) converts back to (x, y) |
| Board.CoordToIndexA1 | settlement-chess/src/game/board.js:14-17 | "a1" converts to (0, 0), not to the (0, 7) the code comment mentions |
| Board.ParseKeyOfKey | settlement-chess/src/game/worldBoard.js:96-98 | a claim key written for (x, y) splits and parses back to (x, y) |
| Board.KeyOfInjective | settlement-chess/src/game/board.js:62 | different cells have different claim keys |
| Board.CreateWorldBoard | settlement-chess/src/game/board.js:28-42 | fresh grids of the given size (20 by 20 by default), every tile `null` and every cell fogged, with no nodes, no claims and the given dimensions |
| Board.RowCells | settlement-chess/src/game/board.js:49-54 | the cells reported for a row are fogged cells of that row, inside the range, with their tiles, left to right |
| Board.RowCellsOrdered | settlement-chess/src/game/board.js:49-54 | a row's cells are reported with strictly increasing columns |
| Board.RowsCellsOrdered | settlement-chess/src/game/board.js:48-55 | the cells of a rectangle are reported in row-major order |
| Board.RowsCellsSound | settlement-chess/src/game/board.js:48-55 | a reported cell lies in the rectangle, was fogged and carries its own tile |
| Board.RevealRow | settlement-chess/src/game/board.js:49-54 | the inner loop clears the fog of exactly the row segment and reports the cells of it that were fogged, left to right |
| Board.Clipped | settlement-chess/src/game/board.js:48-49 | the clipped loop bounds select exactly the grid coordinates within `radius` of the centre |
| Board.RevealedCellsDefined | settlement-chess/src/game/board.js:46-55 | with both extents defined the report is the fogged cells of the clipped square |
| Board.RevealedCellsComplete | settlement-chess/src/game/board.js:44-58 | every fogged grid cell within `radius` of the centre is reported with its tile |
| Board.RevealedCellsSound | settlement-chess/src/game/board.js:44-58 | only fogged grid cells within `radius` of the centre are reported, each with its tile |
| Board.RowsCells | settlement-chess/src/game/board.js:48-55 | the cells reported for a rectangle are fogged cells inside it, with their tiles, in row-major order |
| Board.RevealTiles | settlement-chess/src/game/board.js:44-58 | fog clears exactly on the grid cells within `radius` (nowhere when an extent is undefined), and the report is the cells that were fogged there |
| Board.RowsCellsComplete | settlement-chess/src/game/board.js:48-55 | every fogged cell of the rectangle is reported |
| Board.RowCellsComplete | settlement-chess/src/game/board.js:49-54 | every fogged cell of the row range is reported |
| Board.RevealedCellsExact | settlement-chess/src/game/board.js:44-58 | a cell with its tile is reported if and only if it is on the grid, within `radius` of the centre and fogged |
| Board.RowsCellsNoneFogged | settlement-chess/src/game/board.js:50-53 | a rectangle without fog reports nothing |
| Board.RowCellsNoneFogged | settlement-chess/src/game/board.js:50-53 | a row range without fog reports nothing |
| Board.RevealTwice | settlement-chess/src/game/board.js:44-58 | a second reveal of the same square reports nothing, and no cell becomes fogged again |
| Board.RevealedCellsNoneFogged | settlement-chess/src/game/board.js:44-58 | a square with no fogged grid cell left reports nothing |
| Board.ClaimTerritory | settlement-chess/src/game/board.js:60-71 | succeeds if and only if the key is unclaimed and the tile is `null`; on success the key is added and a claim marker for the player is written; otherwise nothing changes |
| Board.ClaimTwice | settlement-chess/src/game/board.js:60-71 | a second claim of the same tile fails, whoever makes it, and the first owner keeps it |
| Armies.SlotAt | settlement-chess/src/game/army.js:43-53 | a cell of the 3x3 pattern maps to one of the nine slots |
| Armies.SlotAtOffset | settlement-chess/src/game/army.js:43-53 | the i-th position lies in slot i, so the nine positions are distinct |
| Armies.Offset | settlement-chess/src/game/army.js:43-53 | every position is at most one cell from the target in each direction |
| Armies.OffsetIsTableEntry | settlement-chess/src/game/army.js:43-53 | the computed offset i is the i-th entry of the nine-position table, in row-major order |
| Armies.PlannedPlacements | settlement-chess/src/game/army.js:55-65 | at most one placement for each piece considered |
| Armies.PlannedPlacementsSound | settlement-chess/src/game/army.js:55-65 | every placement is inside both extents and within the 3x3 pattern, carries the piece of its slot, and placements come in slot order |
| Armies.PlannedElement | settlement-chess/src/game/army.js:55-63 | placement k lies inside both extents on the cell of a slot below n and carries that slot's piece |
| Armies.PlannedOrder | settlement-chess/src/game/army.js:55-63 | of two placements, the earlier comes from the earlier slot |
| Armies.PlannedStep | settlement-chess/src/game/army.js:55-63 | considering piece i appends its placement when its cell is inside both extents, and nothing otherwise |
| Armies.DeployStep | settlement-chess/src/game/army.js:57-62 | placing piece i changes only the cell of the i-th position, and only when that cell is inside the extents |
| Armies.UndefinedExtentsPlaceNothing | settlement-chess/src/game/army.js:35-57 | with `width`/`height` undefined, no piece is placed and no tile changes |
| Armies.PlacePieces | settlement-chess/src/game/army.js:55-65 | the list returned and every tile afterwards are those of the first min(roster, 9) placements |
| Armies.Army.constructor | settlement-chess/src/game/army.js:5-13 | empty roster, consolidated, anchored at (0, 0), no deployment tiles, strength 0 |
| Armies.Army.UpdateArmyStrength | settlement-chess/src/game/army.js:29-31 | the strength becomes the roster's length |
| Armies.Army.AddPiece | settlement-chess/src/game/army.js:15-18 | the piece is appended, the strength equals the new length, and nothing else changes |
| Armies.Army.RemovePiece | settlement-chess/src/game/army.js:20-27 | succeeds if and only if the index is in range; it then removes exactly that piece, keeps the others in order and updates the strength; otherwise nothing changes |
| Armies.Army.DeployArmy | settlement-chess/src/game/army.js:33-70 | a target outside the extents returns [] and changes nothing; otherwise the grid gets the planned placements, the army is anchored at the target and unconsolidated, and the roster is unchanged |
| Armies.Army.GetArmyBonuses | settlement-chess/src/game/army.js:72-97 | a bonus is present if and only if its piece type (N, B, R) is held, it is valued at the number held, and bonuses come in the order extraMove, convertPeasants, fortifications |
| Armies.Army.GetMostCommonPiece | settlement-chess/src/game/army.js:99-116 | `null` exactly for an empty roster; otherwise a type held most often and, among ties, the one that entered the roster first |
| Armies.FirstLargest | settlement-chess/src/game/army.js:105-113 | the scan with a strict `>` returns nothing exactly when there are no counts, and otherwise a type whose count is maximal and strictly larger than every earlier count |
| Armies.MostCommonAgainst | settlement-chess/src/game/army.js:105-113 | the chosen type occurs at least as often as any type in the roster, and a type with an equal count entered the roster no earlier |
| Armies.MostCommonOfDedup | settlement-chess/src/game/army.js:105-113 | the strict-greater scan over first-occurrence keys keeps the earliest maximum |
| Armies.BonusesOfExact | settlement-chess/src/game/army.js:72-97 | the bonuses drawn from the tally are exactly the positive counts of N, B and R, in order |
| Armies.BonusesOfTally | settlement-chess/src/game/army.js:79-94 | the three tally lookups give each piece type's count, and a missing entry gives no bonus |
| Armies.BonusTriple | settlement-chess/src/game/army.js:79-94 | the three conditional pushes produce each bonus exactly when its count is positive, in order |
| Armies.BonusFromRank | settlement-chess/src/game/army.js:79-94 | each bonus carries the positive count of its piece type; each kind appears at most once, extraMove before convertPeasants before fortifications |
| World.FindEntry | settlement-chess/src/game/worldBoard.js:80-82 | with distinct ids, `get` on an army's id returns that army |
| World.PutThenFind | settlement-chess/src/game/worldBoard.js:72-74 | after `set`, the id finds the new army, other ids find what they found before, ids stay distinct, and the registry grows only for a new id |
| World.DeleteThenFind | settlement-chess/src/game/worldBoard.js:76-78 | after `delete`, the id finds nothing, other ids are unaffected, and the registry shrinks exactly when the id was present |
| World.DeleteShape | settlement-chess/src/game/worldBoard.js:76-78 | removing an entry shifts the later entries down by one, keeps the earlier ones and keeps ids distinct |
| World.DeleteKeeps | settlement-chess/src/game/worldBoard.js:76-78 | removing one id leaves the lookup of every other id unchanged |
| World.WithIdFound | settlement-chess/src/game/worldBoard.js:80-82 | the registered armies with an id are the one `get` returns, or none |
| World.OfSide | settlement-chess/src/game/worldBoard.js:88-90 | the filter returns registered armies of the side, and all of them |
| World.OfSideConcat | settlement-chess/src/game/worldBoard.js:88-90 | the filter keeps registration order |
| World.Sides | settlement-chess/src/game/worldBoard.js:113-118 | the side of each registered army, in registration order |
| World.NodeIdInjective | settlement-chess/src/game/worldBoard.js:43 | different node indices have different node ids |
| World.NodesOf | settlement-chess/src/game/worldBoard.js:39-45 | draw i becomes the active node `node_i` at the drawn cell with the drawn type |
| World.NodesOfDistinctActive | settlement-chess/src/game/worldBoard.js:34-45 | generated nodes have pairwise distinct ids and are all active |
| World.LastChoiceAt | settlement-chess/src/game/worldBoard.js:48 | the draw found is the last one on the cell, and none is found when no draw hit the cell |
| World.NodeCellsMarked | settlement-chess/src/game/worldBoard.js:34-49 | every node's cell carries the marker of the last node drawn there, and cells no node was drawn on keep their tile |
| World.ClaimOwners | settlement-chess/src/game/worldBoard.js:96-102 | a player is credited if and only if some claim key names a claim tile with that (truthy) player |
| World.FirstReaching | settlement-chess/src/game/worldBoard.js:105-109 | the index found is the first entry whose count reaches the bound |
| World.VictoryByTerritory | settlement-chess/src/game/worldBoard.js:104-109 | a territory win happens if and only if some player has at least 64 credited claims; the reported count is the winner's and no earlier claimant also reached 64 |
| World.TallyReaching | settlement-chess/src/game/worldBoard.js:105-109 | some tally entry reaches 64 exactly when some player's count does, and that entry holds the player's count |
| World.TallyReachingFirst | settlement-chess/src/game/worldBoard.js:105-109 | the first entry reaching 64 belongs to the earliest claimant among those reaching 64 |
| World.TallyEntry | settlement-chess/src/game/worldBoard.js:96-102 | tally entry j is the j-th distinct player with that player's count |
| World.TallyIndexOf | settlement-chess/src/game/worldBoard.js:96-102 | every credited player has a tally entry with that player's count |
| World.TallyClaimsStep | settlement-chess/src/game/worldBoard.js:96-102 | one more claim bumps the count of its owner when the tile has one, and changes nothing otherwise |
| World.VictoryByElimination | settlement-chess/src/game/worldBoard.js:111-125 | without a territory win, side w wins by elimination if and only if there are armies and all are w's; otherwise, with none or with two or more sides, nobody has won |
| World.SingleSide | settlement-chess/src/game/worldBoard.js:120-123 | there is exactly one distinct side, w, if and only if there is a side and every side is w |
| World.WorldBoard.constructor | settlement-chess/src/game/worldBoard.js:8-28 | a 20x20 fogged world with no armies and no claims; the nodes are those of the draws, and each tile holds the marker of the last node drawn on it, or `null` |
| World.WorldBoard.GenerateProductionNodes | settlement-chess/src/game/worldBoard.js:30-50 | appends the fifteen nodes of the draws and marks their cells, a later node overwriting an earlier one on the same cell |
| World.WorldBoard.AddArmy | settlement-chess/src/game/worldBoard.js:72-74 | the registry becomes `set(army.armyId, army)`, and its ids stay distinct |
| World.WorldBoard.RemoveArmy | settlement-chess/src/game/worldBoard.js:76-78 | returns true if and only if the id was registered, and the registry becomes the deletion |
| World.WorldBoard.GetArmy | settlement-chess/src/game/worldBoard.js:80-82 | returns a registered army with the id; returns nothing if and only if no army has it |
| World.WorldBoard.GetArmiesByPlayer | settlement-chess/src/game/worldBoard.js:88-90 | the registered armies of the side, all of them and no others |
| World.WorldBoard.RevealTiles | settlement-chess/src/game/worldBoard.js:52-54 | with the world's extent: fog clears exactly within the radius, and the report is the cells that were fogged |
| World.WorldBoard.RevealTilesAsWritten | settlement-chess/src/game/worldBoard.js:52-54 | as written (extents undefined): reports nothing and clears no fog |
| World.WorldBoard.DeployArmy | settlement-chess/src/game/worldBoard.js:56-66 | an unknown id returns false and changes nothing; a known army is deployed by the planned placements, fog within 2 of the target clears, and its roster is unchanged |
| World.WorldBoard.DeployArmyAsWritten | settlement-chess/src/game/worldBoard.js:56-66 | as written: no tile and no fog changes, a known army gets [], and only a non-negative target moves its anchor |
| World.WorldBoard.ClaimTerritory | settlement-chess/src/game/worldBoard.js:68-70 | the claim succeeds if and only if the key is new and the tile `null`; key and marker are added together, and the claim set stays duplicate-free and within the world |
| World.WorldBoard.CheckVictoryConditions | settlement-chess/src/game/worldBoard.js:92-126 | the outcome is `Victory` of the credited claim owners and the registered sides (see VictoryByTerritory and VictoryByElimination) |
| World.WorldBoard.TallyClaims | settlement-chess/src/game/worldBoard.js:94-102 | `playerClaims` is the tally of the credited owners, in claim order |
| World.FindFirstReaching | settlement-chess/src/game/worldBoard.js:105-109 | the loop stops at the first entry with at least the bound |
| World.DistinctSides | settlement-chess/src/game/worldBoard.js:112-120 | `Object.keys(armiesByPlayer)` is the distinct sides in first-registration order |
| Production.NodeIndex | settlement-chess/src/game/productionSystem.js:21 | `find` returns the first node at (x, y) |
| Production.CostIn | settlement-chess/src/game/productionSystem.js:15-18 | a cost found is declared for the output, and none is found if and only if the output is not declared |
| Production.CostInEntry | settlement-chess/src/game/productionSystem.js:15-18 | with distinct outputs, an entry's output looks up that entry's cost |
| Production.CostLookup | settlement-chess/src/game/productionSystem.js:15-18 | with distinct outputs, every declared cost of an output is the one found |
| Production.Matching | settlement-chess/src/game/productionSystem.js:34 | the filter keeps only pieces of the type |
| Production.MatchingCount | settlement-chess/src/game/productionSystem.js:34-35 | the filter keeps exactly as many pieces as the roster holds of that type |
| Production.MatchingConcat | settlement-chess/src/game/productionSystem.js:51-57 | filtering a roster split in two filters each part |
| Production.Others | settlement-chess/src/game/productionSystem.js:51-57 | the pieces a production leaves untouched are none of the consumed type |
| Production.OthersConcat | settlement-chess/src/game/productionSystem.js:51-57 | keeping the other pieces of a roster split in two keeps those of each part |
| Production.RemoveLastLength | settlement-chess/src/game/productionSystem.js:51-57 | the splice loop removes exactly min(requiredCount, pieces of the type) pieces |
| Production.RemoveLastKeepsOthers | settlement-chess/src/game/productionSystem.js:51-57 | pieces of other types all stay, in order |
| Production.RemoveLastKeepsEarliest | settlement-chess/src/game/productionSystem.js:51-57 | the pieces of the required type that stay are the earliest ones |
| Production.RemoveLastStep | settlement-chess/src/game/productionSystem.js:52-56 | one step of the backward scan moves the cut one place left |
| Production.SpliceStep | settlement-chess/src/game/productionSystem.js:52-56 | splicing at index i removes exactly the piece at i from the part not yet scanned |
| Production.SpliceTarget | settlement-chess/src/game/productionSystem.js:52-56 | the removal still owed moves one index left together with the scan |
| Production.SpliceFromEnd | settlement-chess/src/game/productionSystem.js:51-57 | the backward splice loop removes the last `requiredCount` pieces of the type (`RemoveLast`) |
| Production.Pawns | settlement-chess/src/game/productionSystem.js:103-109 | `count` pawns of the side, carrying the army id |
| Production.ProductionSystem.constructor | settlement-chess/src/game/productionSystem.js:5-13 | keeps the world board and the cost table |
| Production.ProductionSystem.GetProductionCost | settlement-chess/src/game/productionSystem.js:15-18 | nothing for an unknown node type; otherwise the declared cost of the output, or nothing when the output is not declared |
| Production.ProductionSystem.CanProduceAtNode | settlement-chess/src/game/productionSystem.js:20-36 | true if and only if the first node at (x, y) exists and is active, declares a cost for the output, the army is registered and it holds at least the required number of the required type |
| Production.NumberCostNeverMet | settlement-chess/src/game/productionSystem.js:31-35 | a cost that is a bare number is never met: its first key and its value are `undefined`, and a comparison with `undefined` is false |
| Production.ObjectCostMet | settlement-chess/src/game/productionSystem.js:31-35 | the object `{required: count}` is met if and only if the army holds at least `count` pieces of type `required` |
| Production.LiteralCostsAreNumbers | settlement-chess/src/game/productionSystem.js:7-12 | every cost in the declared four-entry table is a bare number |
| Production.AsObjects | settlement-chess/src/game/productionSystem.js:7-12 | each entry keeps its output, with its cost written as the one-key object `{required: count}` |
| Production.AsJsTable | settlement-chess/src/game/productionSystem.js:7-12 | the same node types, each with its entries written as objects |
| Production.CostInObjects | settlement-chess/src/game/productionSystem.js:15-18 | looking an output up among the objects finds the object of the cost found among the entries, or nothing when nothing is found |
| Production.ObjectCostsAgree | settlement-chess/src/game/productionSystem.js:15-35 | with costs written as objects, `getProductionCost` gives a truthy cost exactly when the table declares one, and that cost is met exactly when the army holds at least the declared number of pieces of the declared type |
| Production.ProductionSystem.NumberTableNeverProduces | settlement-chess/src/game/productionSystem.js:20-36 | over a table of bare numbers, `canProduceAtNode` is false for every node, army and output |
| Production.ProductionSystem.LiteralTableNeverProduces | settlement-chess/src/game/productionSystem.js:7-12 | over the declared table, `canProduceAtNode` is false for every node, army and output, so `produceAtNode` always returns false at its first line |
| Production.ProductionSystem.ObjectTableAgrees | settlement-chess/src/game/productionSystem.js:20-36 | with every cost written as an object, the check as written is exactly `CanProduceAtNode` |
| Production.ProductionSystem.ProduceAtNode | settlement-chess/src/game/productionSystem.js:38-70 | succeeds if and only if the check passes; then the army loses the last required pieces and gains the output piece in its colour with its id, and the strength is the new length; on failure nothing changes |
| Production.ProductionSystem.Offers | settlement-chess/src/game/productionSystem.js:79-87 | every offer is a declared output that passes the check, and every declared output that passes is offered |
| Production.ProductionSystem.GetAvailableProductions | settlement-chess/src/game/productionSystem.js:72-90 | [] for a missing or inactive node; otherwise the passing outputs of the node's type, in declaration order |
| Production.ProductionSystem.ConvertPeasantsToPawns | settlement-chess/src/game/productionSystem.js:93-112 | false for an unknown army or one without bishops; otherwise min(peasantCount, bishops) pawns are appended (none if that is not positive) and that number is returned; nothing is removed |
| Game.Opponent | settlement-chess/src/game/settlementChessGame.js:198 | the next player is W or B, and it is B exactly when W just moved |
| Game.OpponentAlternates | settlement-chess/src/game/settlementChessGame.js:196-198 | ending a turn passes the move to the side due on the next turn: W on even turns, B on odd ones |
| Game.Subscribers | settlement-chess/src/game/settlementChessGame.js:230-234 | an event without listeners reaches nobody |
| Game.Subscribe | settlement-chess/src/game/settlementChessGame.js:217-222 | the event's set gains the callback, and every other event keeps its set |
| Game.Unsubscribe | settlement-chess/src/game/settlementChessGame.js:224-228 | the callback leaves the event's set, other events keep theirs, and no event is added or dropped |
| Game.SubscribeIdempotent | settlement-chess/src/game/settlementChessGame.js:217-222 | subscribing twice is subscribing once |
| Game.OffUndoesOn | settlement-chess/src/game/settlementChessGame.js:217-228 | `off` after `on` of a new callback restores every event's subscribers |
| Game.FirstSideIndex | settlement-chess/src/game/settlementChessGame.js:185-188 | the first registered army of the side, or none |
| Game.OfSideHead | settlement-chess/src/game/settlementChessGame.js:185-188 | the side's filtered armies are empty exactly when it has none, and start with its first registered army |
| Game.InitialPieces | settlement-chess/src/game/settlementChessGame.js:33-53 | eight pieces of the colour, K Q R B N P P P |
| Game.HandlerFor | settlement-chess/src/game/settlementChessGame.js:126-134 | production markers go to the production handler, `null` tiles to the claim handler, all other tiles to the deployment handler |
| Game.SettlementChessGame.constructor | settlement-chess/src/game/settlementChessGame.js:10-18 | a fresh world and production system over it; playing, W to move, turn 0, no listeners |
| Game.SettlementChessGame.SetupInitialArmies | settlement-chess/src/game/settlementChessGame.js:27-60 | army1 (W) and army2 (B) are registered with the eight starting pieces and strength 8; other ids are unaffected |
| Game.SettlementChessGame.AddEach | settlement-chess/src/game/settlementChessGame.js:55-56 | the roster grows by the pieces in order, and the strength stays equal to the roster length |
| Game.SettlementChessGame.EndTurn | settlement-chess/src/game/settlementChessGame.js:196-207 | turn + 1 and the other side to move; `turnEnded`, then `gameEnded` when the victory check finds a winner, which finishes the game; a finished game stays finished |
| Game.SettlementChessGame.GetCurrentPlayerArmy | settlement-chess/src/game/settlementChessGame.js:185-188 | the first registered army of the side to move; none exactly when the side has no army |
| Game.SettlementChessGame.SelectArmy | settlement-chess/src/game/settlementChessGame.js:112-117 | `armySelected` is emitted exactly for a registered army of the side to move |
| Game.SettlementChessGame.On | settlement-chess/src/game/settlementChessGame.js:217-222 | the listeners become `Subscribe`, so the callback is subscribed |
| Game.SettlementChessGame.Off | settlement-chess/src/game/settlementChessGame.js:224-228 | the listeners become `Unsubscribe`, so the callback is not subscribed |
| Game.SettlementChessGame.HandleEmptyTileClick | settlement-chess/src/game/settlementChessGame.js:157-171 | if the side's army holds a pawn and the claim succeeds: the tile is claimed for the side, the first pawn leaves and `territoryClaimed` is emitted; otherwise nothing changes |
| Game.SettlementChessGame.ClaimWithPawn | settlement-chess/src/game/settlementChessGame.js:163-170 | the same effect once the army is known to hold a pawn |
| Game.SettlementChessGame.HandleProductionNodeClick | settlement-chess/src/game/settlementChessGame.js:137-155 | if the side's army exists and the node offers something, the first offer is produced and `productionCompleted` is emitted; otherwise nothing changes; the world never changes |
| Game.SettlementChessGame.ProduceFirstAvailable | settlement-chess/src/game/settlementChessGame.js:144-154 | the same effect once the node and the army are known |
| Game.SettlementChessGame.ProduceOffer | settlement-chess/src/game/settlementChessGame.js:148-153 | producing an offer that passes the check always succeeds and emits `productionCompleted` |
| Game.SettlementChessGame.ProducesFirstOffer | settlement-chess/src/game/settlementChessGame.js:144-149 | the first available offer passes the check and costs what the table declares |
| Game.SettlementChessGame.HandleOccupiedTileClick | settlement-chess/src/game/settlementChessGame.js:173-183 | the side's army is deployed around the tile and fog within 2 clears; `armyDeployed` is emitted exactly when a piece was placed; without an army nothing changes |
| Game.SettlementChessGame.HandleWorldClick | settlement-chess/src/game/settlementChessGame.js:119-135 | off the world nothing changes; otherwise the effect of the handler that the tile selects |
| Game.FindAll | settlement-chess/src/game/worldBoard.js:80-82 | with distinct ids, `get` returns every army carrying the id |

## Left out

- The chess engine (`stockfish-wrapper.js`) and `initialize`, which waits for it, are not part of this model. Neither are the React user interface, the camera, keyboard and mouse input (`setupEventListeners`, `handleKeyDown`, `handleClick`, `moveCamera`, `screenToWorld`), `update` and `destroy`. They are I/O or empty.
- `emit`: callbacks are foreign code. The handlers return the events they would emit, and the listener registry records callback identities only.
- `Math.random` in `generateProductionNodes` becomes the `choices` parameter. Each draw is assumed to be a cell of the 20x20 world.
- The default `radius = 1` of `revealTiles` is not modelled. Every call states its radius, and the code always passes 2.
- `parseInt` in `coordToIndex` is modelled for digit strings only (`IsSquare`). Leading signs, spaces and trailing garbage are not modelled.
- `Number` on claim keys is modelled for digit strings and the empty string. Only such keys are ever written, because coordinates are checked to be non-negative first.
- Object key order: JavaScript lists integer-like keys first, in numeric order. Piece types and player ids are never integer-like, so first-insertion order is used throughout.
- World.WorldBoard.GetAllArmies: a plain accessor with no contract of its own. `Array.from(values())` is the registry sequence itself.
- Production.ProductionSystem.GetAvailableProductions: the code throws on a node type missing from the cost table (`Object.entries(undefined)`). The model makes that case a precondition, and `HandleWorldClick` carries it as `ProducibleAt`.
- Board.SetPiece: a row `y` that is not a row of the board makes the code throw, so the model requires `0 <= y < |b|`. Fractional or non-numeric coordinates are not modelled.
- Board.ClaimTerritory: a row `y` outside the grid makes the code throw. The model makes `0 <= y < height` a precondition. A column outside the row reads `undefined` and the claim fails, as in the code.
- World.ClaimOwners: `tile.player` counts only when truthy, so a claim by the empty player id is not credited.
- Production.ProductionSystem.ConvertPeasantsToPawns returns `Converted(min(peasantCount, bishops))` even when that number is zero or negative, as the code does.
- Game.SettlementChessGame.HandleOccupiedTileClick and the rest of the game use the corrected `World.WorldBoard.DeployArmy`, which uses the world's own extent. The as-written behaviour is modelled separately (see Findings).
- Game.SettlementChessGame.constructor takes the cost table as a parameter instead of using the literal table, which would disable production (see Findings).
- Game.SettlementChessGame.SetupInitialArmies is modelled as a synchronous method. The code marks it `async`, but it awaits nothing.
- `army.deploymentTiles` is never written by the code, and the model only states that it stays unchanged.
- Deployed tiles do not record `deployed: true`. Every `Deployed` tile is a deployed piece by construction.
- Integer width: JavaScript numbers are doubles. The model uses unbounded integers, because all counts stay small.

## Findings

| source | as written | input that shows it | evidently intended | confidence | as-written member | corrected member |
|---|---|---|---|---|---|---|
| settlement-chess/src/game/worldBoard.js:56-66 | `deployArmy` passes the `WorldBoard` instance to `army.deployArmy` and `revealTiles`. These read `width`/`height` from it (army.js:35, board.js:45), which are undefined there (it has `worldWidth`/`worldHeight`). Every bound check against them is false, so nothing is placed and no fog clears | `deployArmy("army1", 5, 5)` after `setupInitialArmies()` returns `[]`, leaves the grid and fog unchanged, and still moves the army's anchor | place up to nine pieces around the target inside the 20x20 world and clear the fog within 2 | not executed | World.WorldBoard.DeployArmyAsWritten | World.WorldBoard.DeployArmy |
| settlement-chess/src/game/productionSystem.js:7-12 | the cost table maps each output to a bare number (`'training': { 'P': 2 }`). `canProduceAtNode` (lines 31-35) then reads `Object.keys(2)[0]` and `cost[undefined]`, both undefined, and `n >= undefined` is false | `canProduceAtNode(x, y, "army1", "P")` at an active training node is false whatever the army holds, so no production ever happens | costs of the form `{requiredType: count}`, as lines 31-32 and 48-49 read them | not executed | Production.ProductionSystem.LiteralTableNeverProduces | Production.ProductionSystem.CanProduceAtNode |
