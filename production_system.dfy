/**
 * Production of Settlement Chess (productionSystem.js): armies standing on
 * active production nodes trade pieces of one type for a new piece, and
 * bishops convert peasants into pawns.
 *
 * The cost table is a parameter: for each node type, the outputs it offers
 * in declaration order, each with the piece type and number it consumes.
 */
module Production {
  import opened Wrappers
  import opened Tally
  import opened Board
  import opened Armies
  import opened World

  /** `{requiredType: count}`: what one production consumes. */
  datatype Cost = Cost(required: PieceType, count: nat)

  /** One entry of `getAvailableProductions`: `{outputType, cost, nodeType}`. */
  datatype Offer = Offer(outputType: PieceType, cost: Cost, nodeType: NodeType)

  /** The result of `convertPeasantsToPawns`: `false`, or the number of pawns it meant to add. */
  datatype Conversion = Refused | Converted(pawns: int)

  /** Node type -> (output type, cost) entries, in declaration order. */
  type CostTable = map<NodeType, seq<(PieceType, Cost)>>

  /** The outputs of each node type are distinct, as the keys of a JS object are. */
  predicate WellFormed(table: CostTable) {
    forall t :: t in table ==> forall i, j :: 0 <= i < j < |table[t]| ==> table[t][i].0 != table[t][j].0
  }

  /* ---------------------------------------------------------------------- */
  /* Lookups                                                                */
  /* ---------------------------------------------------------------------- */

  /** The position of the first node at (x, y), or `|nodes|` when there is none. */
  function NodeIndex(nodes: seq<ProductionNode>, x: int, y: int): (i: nat)
    ensures i <= |nodes|
    ensures forall j :: 0 <= j < i ==> nodes[j].x != x || nodes[j].y != y
    ensures i < |nodes| ==> nodes[i].x == x && nodes[i].y == y
  {
    IndexOf(NodeCells(nodes), (x, y))
  }

  /** The cells of the nodes, in order. */
  function NodeCells(nodes: seq<ProductionNode>): (cells: seq<(int, int)>)
    ensures |cells| == |nodes| && forall j :: 0 <= j < |nodes| ==> cells[j] == (nodes[j].x, nodes[j].y)
  {
    seq(|nodes|, j requires 0 <= j < |nodes| => (nodes[j].x, nodes[j].y))
  }

  /** `productionNodes.find(n => n.x === x && n.y === y)`. */
  function FindNode(nodes: seq<ProductionNode>, x: int, y: int): Option<ProductionNode> {
    var i := NodeIndex(nodes, x, y);
    if i < |nodes| then Some(nodes[i]) else None
  }

  /** `costs[outputType]` on one node type's entries. */
  function CostIn<C(==)>(entries: seq<(PieceType, C)>, output: PieceType): (r: Option<C>)
    ensures r.Some? ==> (output, r.value) in entries
    ensures r.None? <==> forall i :: 0 <= i < |entries| ==> entries[i].0 != output
    decreases |entries|
  {
    if entries == [] then None
    else if entries[0].0 == output then Some(entries[0].1)
    else CostIn(entries[1..], output)
  }

  /** With distinct outputs, an entry's cost is what its output looks up. */
  lemma CostInEntry(entries: seq<(PieceType, Cost)>, k: nat)
    requires k < |entries|
    requires forall i, j :: 0 <= i < j < |entries| ==> entries[i].0 != entries[j].0
    ensures CostIn(entries, entries[k].0) == Some(entries[k].1)
    decreases k
  {
    if k > 0 {
      CostInEntry(entries[1..], k - 1);
    }
  }

  /** With distinct outputs, looking an output up finds the cost of its entry. */
  lemma CostLookup(entries: seq<(PieceType, Cost)>, output: PieceType)
    ensures (forall i, j :: 0 <= i < j < |entries| ==> entries[i].0 != entries[j].0) ==>
      forall c :: (output, c) in entries ==> CostIn(entries, output) == Some(c)
  {
    if forall i, j :: 0 <= i < j < |entries| ==> entries[i].0 != entries[j].0 {
      forall c | (output, c) in entries
        ensures CostIn(entries, output) == Some(c)
      {
        var k :| 0 <= k < |entries| && entries[k] == (output, c);
        CostInEntry(entries, k);
      }
    }
  }

  /* ---------------------------------------------------------------------- */
  /* Filtering and removing pieces                                          */
  /* ---------------------------------------------------------------------- */

  /** `pieces.filter(piece => piece.type === t)`. */
  function Matching(s: seq<Piece>, t: PieceType): (r: seq<Piece>)
    ensures forall k :: 0 <= k < |r| ==> r[k].kind == t
    decreases |s|
  {
    if s == [] then []
    else Matching(s[..|s| - 1], t) + (if s[|s| - 1].kind == t then [s[|s| - 1]] else [])
  }

  /** The pieces of `s` of any type but `t`, in order. */
  function Others(s: seq<Piece>, t: PieceType): (r: seq<Piece>)
    ensures forall k :: 0 <= k < |r| ==> r[k].kind != t
    decreases |s|
  {
    if s == [] then []
    else Others(s[..|s| - 1], t) + (if s[|s| - 1].kind != t then [s[|s| - 1]] else [])
  }

  /** The filter keeps exactly as many pieces as the roster holds of that type. */
  lemma {:induction false} MatchingCount(s: seq<Piece>, t: PieceType)
    ensures |Matching(s, t)| == Count(Kinds(s), t)
    decreases |s|
  {
    if s != [] {
      assert Kinds(s[..|s| - 1]) == Kinds(s)[..|s| - 1];
      MatchingCount(s[..|s| - 1], t);
    }
  }

  /** Filtering a roster split in two filters each part. */
  lemma {:induction false} MatchingConcat(a: seq<Piece>, b: seq<Piece>, t: PieceType)
    ensures Matching(a + b, t) == Matching(a, t) + Matching(b, t)
    decreases |b|
  {
    if b == [] {
      assert a + b == a;
    } else {
      var c := a + b;
      assert c[..|c| - 1] == a + b[..|b| - 1];
      assert c[|c| - 1] == b[|b| - 1];
      MatchingConcat(a, b[..|b| - 1], t);
    }
  }

  /** The same for the pieces that are not of type `t`. */
  lemma {:induction false} OthersConcat(a: seq<Piece>, b: seq<Piece>, t: PieceType)
    ensures Others(a + b, t) == Others(a, t) + Others(b, t)
    decreases |b|
  {
    if b == [] {
      assert a + b == a;
    } else {
      var c := a + b;
      assert c[..|c| - 1] == a + b[..|b| - 1];
      assert c[|c| - 1] == b[|b| - 1];
      OthersConcat(a, b[..|b| - 1], t);
    }
  }

  /**
   * The backward splice of `produceAtNode`: scanning from the end, removes
   * the last `k` pieces of type `t` (all of them when there are fewer).
   */
  function RemoveLast(s: seq<Piece>, t: PieceType, k: nat): seq<Piece>
    decreases |s|
  {
    if s == [] || k == 0 then s
    else if s[|s| - 1].kind == t then RemoveLast(s[..|s| - 1], t, k - 1)
    else RemoveLast(s[..|s| - 1], t, k) + [s[|s| - 1]]
  }

  /** Exactly `min(k, n)` pieces go, where `n` is how many of type `t` there were. */
  lemma {:induction false} RemoveLastLength(s: seq<Piece>, t: PieceType, k: nat)
    ensures |RemoveLast(s, t, k)| == |s| - Min(k, |Matching(s, t)|)
    decreases |s|
  {
    if s != [] && k != 0 {
      var p := s[..|s| - 1];
      if s[|s| - 1].kind == t {
        RemoveLastLength(p, t, k - 1);
      } else {
        RemoveLastLength(p, t, k);
      }
    }
  }

  /** Pieces of other types all stay, in their order. */
  lemma {:induction false} RemoveLastKeepsOthers(s: seq<Piece>, t: PieceType, k: nat)
    ensures Others(RemoveLast(s, t, k), t) == Others(s, t)
    decreases |s|
  {
    if s != [] && k != 0 {
      var p, last := s[..|s| - 1], s[|s| - 1];
      if last.kind == t {
        RemoveLastKeepsOthers(p, t, k - 1);
      } else {
        RemoveLastKeepsOthers(p, t, k);
        var r := RemoveLast(p, t, k);
        assert (r + [last])[..|r|] == r;
      }
    }
  }

  /** The pieces of type `t` that stay are the earliest ones: removal takes the highest indices first. */
  lemma {:induction false} RemoveLastKeepsEarliest(s: seq<Piece>, t: PieceType, k: nat)
    ensures Matching(RemoveLast(s, t, k), t) ==
      Matching(s, t)[..|Matching(s, t)| - Min(k, |Matching(s, t)|)]
    decreases |s|
  {
    var m := Matching(s, t);
    if s == [] || k == 0 {
      assert m[..|m|] == m;
    } else if s[|s| - 1].kind == t {
      RemoveLastKeepsEarliest(s[..|s| - 1], t, k - 1);
      EarliestLastMatches(s, t, k);
    } else {
      RemoveLastKeepsEarliest(s[..|s| - 1], t, k);
      EarliestLastOther(s, t, k);
    }
  }

  /** The inductive step of `RemoveLastKeepsEarliest` when the last piece is removed. */
  lemma EarliestLastMatches(s: seq<Piece>, t: PieceType, k: nat)
    requires s != [] && k > 0 && s[|s| - 1].kind == t
    requires var p := s[..|s| - 1];
      Matching(RemoveLast(p, t, k - 1), t) == Matching(p, t)[..|Matching(p, t)| - Min(k - 1, |Matching(p, t)|)]
    ensures Matching(RemoveLast(s, t, k), t) ==
      Matching(s, t)[..|Matching(s, t)| - Min(k, |Matching(s, t)|)]
  {
    var p, last := s[..|s| - 1], s[|s| - 1];
    var m, mp := Matching(s, t), Matching(p, t);
    var j := |mp| - Min(k - 1, |mp|);
    assert RemoveLast(s, t, k) == RemoveLast(p, t, k - 1);
    assert m == mp + [last];
    assert j == |m| - Min(k, |m|);
    assert m[..j] == mp[..j];
  }

  /** The inductive step of `RemoveLastKeepsEarliest` when the last piece is kept. */
  lemma EarliestLastOther(s: seq<Piece>, t: PieceType, k: nat)
    requires s != [] && k > 0 && s[|s| - 1].kind != t
    requires var p := s[..|s| - 1];
      Matching(RemoveLast(p, t, k), t) == Matching(p, t)[..|Matching(p, t)| - Min(k, |Matching(p, t)|)]
    ensures Matching(RemoveLast(s, t, k), t) ==
      Matching(s, t)[..|Matching(s, t)| - Min(k, |Matching(s, t)|)]
  {
    var p, last := s[..|s| - 1], s[|s| - 1];
    var r := RemoveLast(p, t, k);
    assert RemoveLast(s, t, k) == r + [last];
    assert (r + [last])[..|r|] == r;
    assert Matching(r + [last], t) == Matching(r, t);
    assert Matching(s, t) == Matching(p, t);
  }

  /** One step of the backward scan at index `i`: the cut moves one place left. */
  lemma RemoveLastStep(s0: seq<Piece>, t: PieceType, i: nat, m: nat)
    requires i < |s0| && m > 0
    ensures RemoveLast(s0[..i + 1], t, m) ==
      if s0[i].kind == t then RemoveLast(s0[..i], t, m - 1) else RemoveLast(s0[..i], t, m) + [s0[i]]
  {
    var p := s0[..i + 1];
    assert p[..|p| - 1] == s0[..i];
    assert p[|p| - 1] == s0[i];
  }

  /** The kept suffix grows by the piece at `i` unless that piece is of type `t`. */
  lemma OthersStep(s0: seq<Piece>, t: PieceType, i: nat)
    requires i < |s0|
    ensures Others(s0[i..], t) == (if s0[i].kind == t then [] else [s0[i]]) + Others(s0[i + 1..], t)
  {
    assert s0[i..] == [s0[i]] + s0[i + 1..];
    OthersConcat([s0[i]], s0[i + 1..], t);
    assert Others([s0[i]], t) == Others([], t) + (if s0[i].kind != t then [s0[i]] else []);
  }

  /** The roster at the scan point splits around index `i`. */
  lemma SpliceStep(s0: seq<Piece>, t: PieceType, i: nat, pieces: seq<Piece>)
    requires i < |s0|
    requires pieces == s0[..i + 1] + Others(s0[i + 1..], t)
    ensures pieces[i] == s0[i]
    ensures s0[i].kind == t ==> pieces[..i] + pieces[i + 1..] == s0[..i] + Others(s0[i..], t)
    ensures s0[i].kind != t ==> pieces == s0[..i] + Others(s0[i..], t)
  {
    OthersStep(s0, t, i);
    assert s0[..i + 1] == s0[..i] + [s0[i]];
    if s0[i].kind == t {
      assert pieces[..i] == s0[..i];
      assert pieces[i + 1..] == Others(s0[i + 1..], t);
    }
  }

  /** The specification of the scan moves one index left with it. */
  lemma SpliceTarget(s0: seq<Piece>, t: PieceType, m: nat, i: nat)
    requires i < |s0| && m > 0
    ensures RemoveLast(s0[..i + 1], t, m) + Others(s0[i + 1..], t) ==
      RemoveLast(s0[..i], t, if s0[i].kind == t then m - 1 else m) + Others(s0[i..], t)
  {
    RemoveLastStep(s0, t, i, m);
    OthersStep(s0, t, i);
  }

  /**
   * The invariant of the scan of `SpliceFromEnd` with the first `j` pieces
   * still unscanned and `removed` pieces already gone.
   */
  ghost predicate ScanInv(s0: seq<Piece>, t: PieceType, k: nat, removed: nat, j: nat, pieces: seq<Piece>)
  {
    j <= |s0| && removed <= k &&
    pieces == s0[..j] + Others(s0[j..], t) &&
    RemoveLast(s0, t, k) == RemoveLast(s0[..j], t, k - removed) + Others(s0[j..], t)
  }

  /** The scan keeps its invariant across index `i`. */
  lemma ScanStep(s0: seq<Piece>, t: PieceType, k: nat, removed: nat, i: nat, pieces: seq<Piece>)
    requires removed < k && ScanInv(s0, t, k, removed, i + 1, pieces)
    ensures i < |pieces| && pieces[i] == s0[i]
    ensures s0[i].kind == t ==> ScanInv(s0, t, k, removed + 1, i, pieces[..i] + pieces[i + 1..])
    ensures s0[i].kind != t ==> ScanInv(s0, t, k, removed, i, pieces)
  {
    SpliceStep(s0, t, i, pieces);
    SpliceTarget(s0, t, k - removed, i);
  }

  /** The scan starts with nothing scanned. */
  lemma ScanStart(s0: seq<Piece>, t: PieceType, k: nat)
    ensures ScanInv(s0, t, k, 0, |s0|, s0)
  {
    assert s0[..|s0|] == s0 && s0[|s0|..] == [];
  }

  /** When the scan stops, what it kept is exactly the specification. */
  lemma ScanDone(s0: seq<Piece>, t: PieceType, k: nat, removed: nat, j: nat, pieces: seq<Piece>)
    requires ScanInv(s0, t, k, removed, j, pieces)
    requires j > 0 ==> removed == k
    ensures pieces == RemoveLast(s0, t, k)
  {
    var kept := s0[..j];
    assert kept == [] || k - removed == 0;
    assert RemoveLast(kept, t, k - removed) == kept;
  }

  /**
   * The removal loop of `produceAtNode`: walks the roster from the end,
   * splicing out each piece of type `t` until `k` are gone or the start is
   * reached.
   */
  method SpliceFromEnd(s0: seq<Piece>, t: PieceType, k: nat) returns (pieces: seq<Piece>)
    ensures pieces == RemoveLast(s0, t, k)
  {
    pieces := s0;
    var removedCount := 0;
    var i := |pieces| - 1;
    ScanStart(s0, t, k);
    while i >= 0 && removedCount < k
      invariant -1 <= i && ScanInv(s0, t, k, removedCount, i + 1, pieces)
      decreases i
    {
      ScanStep(s0, t, k, removedCount, i, pieces);
      if pieces[i].kind == t {
        pieces := pieces[..i] + pieces[i + 1..];
        removedCount := removedCount + 1;
      }
      i := i - 1;
    }
    ScanDone(s0, t, k, removedCount, i + 1, pieces);
  }

  /** `count` pawns of the army's side, carrying the army's id. */
  function Pawns(color: string, armyId: string, count: nat): (r: seq<Piece>)
    ensures |r| == count && forall k :: 0 <= k < count ==> r[k] == Piece(P, color, Some(armyId))
  {
    seq(count, _ => Piece(P, color, Some(armyId)))
  }

  /* ---------------------------------------------------------------------- */
  /* Costs as JavaScript values                                             */
  /* ---------------------------------------------------------------------- */

  /**
   * A cost as the table holds it: a bare number, or an object whose
   * `type: count` entries are listed in key order.
   */
  datatype JsCost = Num(n: nat) | Obj(entries: seq<(PieceType, nat)>)

  /** Node type -> (output type, cost) entries, in declaration order. */
  type JsCostTable = map<NodeType, seq<(PieceType, JsCost)>>

  /** `!cost` is false for every object and for every number but 0. */
  predicate Truthy(c: JsCost) {
    c.Obj? || c.n != 0
  }

  /** `Object.keys(cost)[0]`: a number has no own keys, so it gives `undefined`. */
  function FirstKey(c: JsCost): Option<PieceType> {
    if c.Obj? && c.entries != [] then Some(c.entries[0].0) else None
  }

  /** `cost[key]`: a number has no piece-type properties, and no cost has the key "undefined". */
  function Index(c: JsCost, key: Option<PieceType>): Option<nat> {
    match c
    case Num(_) => None
    case Obj(entries) => if key.Some? then CostIn(entries, key.value) else None
  }

  /**
   * The end of `canProduceAtNode` once the cost and the army are known: the
   * army's pieces of the cost's first key, counted against that key's value.
   * No piece has type `undefined`, and a comparison with `undefined` is false.
   */
  function HasRequired(cost: JsCost, pieces: seq<Piece>): bool {
    var requiredType := FirstKey(cost);
    var requiredCount := Index(cost, requiredType);
    var available := match requiredType case Some(t) => |Matching(pieces, t)| case None => 0;
    match requiredCount case Some(c) => available >= c case None => false
  }

  /** A bare-number cost is never met, whatever the army holds. */
  lemma NumberCostNeverMet(n: nat, pieces: seq<Piece>)
    ensures !HasRequired(Num(n), pieces)
  {
  }

  /** The object `{required: count}` is met exactly when the army holds `count` pieces of type `required`. */
  lemma ObjectCostMet(c: Cost, pieces: seq<Piece>)
    ensures HasRequired(Obj([(c.required, c.count)]), pieces) <==> Count(Kinds(pieces), c.required) >= c.count
  {
    MatchingCount(pieces, c.required);
  }

  /** A table in which every cost is a bare number. */
  predicate AllNumbers(table: JsCostTable) {
    forall t, i :: t in table && 0 <= i < |table[t]| ==> table[t][i].1.Num?
  }

  /**
   * The table the code declares: each node type maps one output to a bare
   * number (training: P -> 2, monastery: B -> 1, castle: R -> 1,
   * stable: N -> 1).
   */
  const LiteralCosts: JsCostTable :=
    map[Training := [(P, Num(2))], Monastery := [(B, Num(1))], Castle := [(R, Num(1))], Stable := [(N, Num(1))]]

  /** The declared table holds only bare numbers. */
  lemma LiteralCostsAreNumbers()
    ensures AllNumbers(LiteralCosts) && |LiteralCosts| == 4
  {
    assert LiteralCosts.Keys == {Training, Monastery, Castle, Stable};
  }

  /** One node type's entries with every cost written as the object `{required: count}`. */
  function AsObjects(entries: seq<(PieceType, Cost)>): (r: seq<(PieceType, JsCost)>)
    ensures |r| == |entries|
    ensures forall i :: 0 <= i < |entries| ==>
      r[i] == (entries[i].0, Obj([(entries[i].1.required, entries[i].1.count)]))
    decreases |entries|
  {
    if entries == [] then []
    else [(entries[0].0, Obj([(entries[0].1.required, entries[0].1.count)]))] + AsObjects(entries[1..])
  }

  /** A cost table of the model written as JavaScript values. */
  function AsJsTable(table: CostTable): (js: JsCostTable)
    ensures js.Keys == table.Keys
    ensures forall t :: t in table ==> js[t] == AsObjects(table[t])
  {
    map t | t in table :: AsObjects(table[t])
  }

  /** `getProductionCost` over a table of JavaScript values: `costs ? costs[outputType] : null`. */
  function CostOver(table: JsCostTable, nodeType: NodeType, outputType: PieceType): Option<JsCost> {
    if nodeType in table then CostIn(table[nodeType], outputType) else None
  }

  /**
   * With the costs written as objects, a cost is found and truthy exactly
   * when the table declares one, and it is met exactly when the army holds
   * enough pieces of its type.
   */
  lemma ObjectCostsAgree(table: CostTable, nodeType: NodeType, outputType: PieceType, pieces: seq<Piece>)
    ensures var js := CostOver(AsJsTable(table), nodeType, outputType);
      && (js.Some? && Truthy(js.value) <==> nodeType in table && CostIn(table[nodeType], outputType).Some?)
      && (nodeType in table && CostIn(table[nodeType], outputType).Some? ==>
            (HasRequired(js.value, pieces) <==>
             Count(Kinds(pieces), CostIn(table[nodeType], outputType).value.required) >=
               CostIn(table[nodeType], outputType).value.count))
  {
    if nodeType in table {
      CostInObjects(table[nodeType], outputType);
      var cost := CostIn(table[nodeType], outputType);
      if cost.Some? {
        ObjectCostMet(cost.value, pieces);
      }
    }
  }

  /** Looking an output up among the objects finds the object of the cost it finds among the entries. */
  lemma {:induction false} CostInObjects(entries: seq<(PieceType, Cost)>, output: PieceType)
    ensures CostIn(AsObjects(entries), output) ==
      match CostIn(entries, output)
      case Some(c) => Some(Obj([(c.required, c.count)]))
      case None => None
    decreases |entries|
  {
    if entries != [] && entries[0].0 != output {
      CostInObjects(entries[1..], output);
    }
  }

  /* ---------------------------------------------------------------------- */
  /* The production system                                                  */
  /* ---------------------------------------------------------------------- */

  class ProductionSystem {
    const worldBoard: WorldBoard
    const productionCosts: CostTable

    ghost predicate Valid()
      reads worldBoard
    {
      worldBoard.Valid() && WellFormed(productionCosts)
    }

    constructor (worldBoard: WorldBoard, productionCosts: CostTable)
      requires WellFormed(productionCosts)
      ensures this.worldBoard == worldBoard && this.productionCosts == productionCosts
    {
      this.worldBoard := worldBoard;
      this.productionCosts := productionCosts;
    }

    /**
     * `getProductionCost(nodeType, outputType)`: nothing when the node type
     * has no entry or does not offer the output, and otherwise the cost it
     * declares for the output.
     */
    function GetProductionCost(nodeType: NodeType, outputType: PieceType): (r: Option<Cost>)
      ensures nodeType !in productionCosts ==> r.None?
      ensures r.Some? ==> nodeType in productionCosts && (outputType, r.value) in productionCosts[nodeType]
      ensures nodeType in productionCosts && WellFormed(productionCosts) ==>
        forall c :: (outputType, c) in productionCosts[nodeType] ==> r == Some(c)
    {
      if nodeType in productionCosts then
        CostLookup(productionCosts[nodeType], outputType);
        CostIn(productionCosts[nodeType], outputType)
      else None
    }

    /**
     * `canProduceAtNode(x, y, armyId, outputType)`: the first node at (x, y)
     * exists and is active, its type declares a cost for the output, the
     * army is registered, and it holds at least the required number of
     * pieces of the required type.
     */
    function CanProduceAtNode(nodeX: int, nodeY: int, armyId: string, outputType: PieceType): (r: bool)
      reads worldBoard, worldBoard.armies
      ensures r <==>
        && FindNode(worldBoard.productionNodes, nodeX, nodeY).Some?
        && FindNode(worldBoard.productionNodes, nodeX, nodeY).value.active
        && GetProductionCost(FindNode(worldBoard.productionNodes, nodeX, nodeY).value.nodeType, outputType).Some?
        && worldBoard.GetArmy(armyId).Some?
        && var cost := GetProductionCost(FindNode(worldBoard.productionNodes, nodeX, nodeY).value.nodeType, outputType).value;
           Count(Kinds(worldBoard.GetArmy(armyId).value.pieces), cost.required) >= cost.count
    {
      var node := FindNode(worldBoard.productionNodes, nodeX, nodeY);
      if node.None? || !node.value.active then false
      else
        var cost := GetProductionCost(node.value.nodeType, outputType);
        if cost.None? then false
        else
          var army := worldBoard.GetArmy(armyId);
          if army.None? then false
          else
            MatchingCount(army.value.pieces, cost.value.required);
            |Matching(army.value.pieces, cost.value.required)| >= cost.value.count
    }

    /**
     * `canProduceAtNode` over a cost table of JavaScript values, step by
     * step as written: the first node at (x, y) exists and is active,
     * `getProductionCost` gives a truthy cost, the army is registered, and
     * the cost's first key is met.
     */
    function CanProduceOver(table: JsCostTable, nodeX: int, nodeY: int, armyId: string, outputType: PieceType): bool
      reads worldBoard, worldBoard.armies
    {
      var node := FindNode(worldBoard.productionNodes, nodeX, nodeY);
      if node.None? || !node.value.active then false
      else
        var cost := CostOver(table, node.value.nodeType, outputType);
        if cost.None? || !Truthy(cost.value) then false
        else
          var army := worldBoard.GetArmy(armyId);
          if army.None? then false
          else HasRequired(cost.value, army.value.pieces)
    }

    /** Over a table of bare numbers, such as the declared one, nothing can be produced anywhere. */
    lemma NumberTableNeverProduces(table: JsCostTable, nodeX: int, nodeY: int, armyId: string, outputType: PieceType)
      requires AllNumbers(table)
      ensures !CanProduceOver(table, nodeX, nodeY, armyId, outputType)
    {
      var node := FindNode(worldBoard.productionNodes, nodeX, nodeY);
      if node.Some? && node.value.nodeType in table {
        var entries := table[node.value.nodeType];
        var cost := CostIn(entries, outputType);
        if cost.Some? {
          var k :| 0 <= k < |entries| && entries[k] == (outputType, cost.value);
          NumberCostNeverMet(cost.value.n, if worldBoard.GetArmy(armyId).Some? then worldBoard.GetArmy(armyId).value.pieces else []);
        }
      }
    }

    /** The declared table lets no army produce at any node. */
    lemma LiteralTableNeverProduces(nodeX: int, nodeY: int, armyId: string, outputType: PieceType)
      ensures !CanProduceOver(LiteralCosts, nodeX, nodeY, armyId, outputType)
    {
      LiteralCostsAreNumbers();
      NumberTableNeverProduces(LiteralCosts, nodeX, nodeY, armyId, outputType);
    }

    /** With every cost written as the object `{required: count}`, the check is `CanProduceAtNode`. */
    lemma ObjectTableAgrees(nodeX: int, nodeY: int, armyId: string, outputType: PieceType)
      ensures CanProduceOver(AsJsTable(productionCosts), nodeX, nodeY, armyId, outputType) ==
        CanProduceAtNode(nodeX, nodeY, armyId, outputType)
    {
      var node := FindNode(worldBoard.productionNodes, nodeX, nodeY);
      var army := worldBoard.GetArmy(armyId);
      if node.Some? && army.Some? {
        ObjectCostsAgree(productionCosts, node.value.nodeType, outputType, army.value.pieces);
      }
    }

    /**
     * `produceAtNode(x, y, armyId, outputType)`: when the check fails,
     * false and nothing changes. Otherwise the army loses the last
     * `requiredCount` pieces of the required type, gains one piece of the
     * output type in its own colour carrying its id, and its strength is the
     * new roster length.
     */
    method ProduceAtNode(nodeX: int, nodeY: int, armyId: string, outputType: PieceType) returns (ok: bool)
      requires Valid()
      modifies WithId(worldBoard.armies, armyId)
      ensures ok == old(CanProduceAtNode(nodeX, nodeY, armyId, outputType))
      ensures !ok ==> forall a :: a in WithId(worldBoard.armies, armyId) ==> unchanged(a)
      ensures ok ==>
        var army := worldBoard.GetArmy(armyId).value;
        var cost := GetProductionCost(FindNode(worldBoard.productionNodes, nodeX, nodeY).value.nodeType, outputType).value;
        && army.pieces == RemoveLast(old(army.pieces), cost.required, cost.count) + [Piece(outputType, army.playerSide, Some(armyId))]
        && army.armyStrength == |army.pieces|
        && army.consolidated == old(army.consolidated) && army.worldPosition == old(army.worldPosition)
        && army.deploymentTiles == old(army.deploymentTiles)
    {
      if !CanProduceAtNode(nodeX, nodeY, armyId, outputType) {
        return false;
      }
      var node := FindNode(worldBoard.productionNodes, nodeX, nodeY).value;
      var cost := GetProductionCost(node.nodeType, outputType).value;
      var army := worldBoard.GetArmy(armyId).value;
      var requiredType, requiredCount := cost.required, cost.count;
      army.pieces := SpliceFromEnd(army.pieces, requiredType, requiredCount);
      army.AddPiece(Piece(outputType, army.playerSide, Some(armyId)));
      army.UpdateArmyStrength();
      return true;
    }

    /**
     * The offers among `entries` that pass `canProduceAtNode`, in
     * declaration order.
     */
    function Offers(entries: seq<(PieceType, Cost)>, nodeType: NodeType, nodeX: int, nodeY: int, armyId: string)
      : (r: seq<Offer>)
      reads worldBoard, worldBoard.armies
      ensures forall k :: 0 <= k < |r| ==>
        && (r[k].outputType, r[k].cost) in entries && r[k].nodeType == nodeType
        && CanProduceAtNode(nodeX, nodeY, armyId, r[k].outputType)
      ensures forall i :: 0 <= i < |entries| && CanProduceAtNode(nodeX, nodeY, armyId, entries[i].0) ==>
        Offer(entries[i].0, entries[i].1, nodeType) in r
      decreases |entries|
    {
      if entries == [] then []
      else
        var front := entries[..|entries| - 1];
        var (output, cost) := entries[|entries| - 1];
        assert forall i :: 0 <= i < |front| ==> front[i] == entries[i];
        Offers(front, nodeType, nodeX, nodeY, armyId)
          + if CanProduceAtNode(nodeX, nodeY, armyId, output) then [Offer(output, cost, nodeType)] else []
    }

    /**
     * `getAvailableProductions(x, y, armyId)`: nothing for a missing or
     * inactive node; otherwise, in declaration order, the outputs of the
     * node's type that pass `canProduceAtNode`. A node type with no entry
     * makes the code throw, so the caller must not reach that case.
     */
    method GetAvailableProductions(nodeX: int, nodeY: int, armyId: string) returns (available: seq<Offer>)
      requires Valid()
      requires var node := FindNode(worldBoard.productionNodes, nodeX, nodeY);
        node.None? || !node.value.active || node.value.nodeType in productionCosts
      ensures var node := FindNode(worldBoard.productionNodes, nodeX, nodeY);
        available == if node.None? || !node.value.active then []
                     else Offers(productionCosts[node.value.nodeType], node.value.nodeType, nodeX, nodeY, armyId)
      // The same list read in the state of the call: listing changes nothing.
      ensures var node := old(FindNode(worldBoard.productionNodes, nodeX, nodeY));
        available == if node.None? || !node.value.active then []
                     else old(Offers(productionCosts[node.value.nodeType], node.value.nodeType, nodeX, nodeY, armyId))
    {
      var node := FindNode(worldBoard.productionNodes, nodeX, nodeY);
      if node.None? || !node.value.active {
        return [];
      }
      available := [];
      var costs := productionCosts[node.value.nodeType];
      for i := 0 to |costs|
        invariant available == Offers(costs[..i], node.value.nodeType, nodeX, nodeY, armyId)
      {
        var (outputType, cost) := costs[i];
        assert costs[..i + 1][..i] == costs[..i];
        if CanProduceAtNode(nodeX, nodeY, armyId, outputType) {
          available := available + [Offer(outputType, cost, node.value.nodeType)];
        }
      }
      assert costs[..|costs|] == costs;
    }

    /**
     * `convertPeasantsToPawns(armyId, peasantCount)`: false for an unknown
     * army or one without bishops. Otherwise `min(peasantCount, bishops)`
     * pawns are appended (none when that is not positive), nothing is
     * removed, and that number is returned.
     */
    method ConvertPeasantsToPawns(armyId: string, peasantCount: int) returns (r: Conversion)
      requires Valid()
      modifies WithId(worldBoard.armies, armyId)
      ensures worldBoard.GetArmy(armyId).None? ==> r == Refused
      ensures worldBoard.GetArmy(armyId).Some? ==>
        var army := worldBoard.GetArmy(armyId).value;
        var bishops := Count(Kinds(old(army.pieces)), B);
        && (bishops == 0 ==> r == Refused && unchanged(army))
        && (bishops > 0 ==>
              && r == Converted(Min(peasantCount, bishops))
              && army.pieces == old(army.pieces) + Pawns(army.playerSide, armyId, Max(0, Min(peasantCount, bishops)))
              && army.armyStrength == (if peasantCount > 0 then |army.pieces| else old(army.armyStrength)))
        && army.consolidated == old(army.consolidated) && army.worldPosition == old(army.worldPosition)
        && army.deploymentTiles == old(army.deploymentTiles)
    {
      var found := worldBoard.GetArmy(armyId);
      if found.None? {
        return Refused;
      }
      var army := found.value;
      var bishops := Matching(army.pieces, B);
      MatchingCount(army.pieces, B);
      if |bishops| == 0 {
        return Refused;
      }
      var pawnsToAdd := Min(peasantCount, |bishops|);
      ghost var s0 := army.pieces;
      var i := 0;
      while i < pawnsToAdd
        invariant 0 <= i <= Max(0, pawnsToAdd)
        invariant army.pieces == s0 + Pawns(army.playerSide, armyId, i)
        invariant i > 0 ==> army.armyStrength == |army.pieces|
        invariant i == 0 ==> army.armyStrength == old(army.armyStrength)
        invariant army.consolidated == old(army.consolidated) && army.worldPosition == old(army.worldPosition)
        invariant army.deploymentTiles == old(army.deploymentTiles)
      {
        army.AddPiece(Piece(P, army.playerSide, Some(armyId)));
        i := i + 1;
      }
      return Converted(pawnsToAdd);
    }
  }
}
