/**
 * How central an address is: weighted PageRank over the undirected co-addressing relation
 * (`derived/centrality.py`), over exact reals.
 */
module Centrality {
  import opened Sums

  /** Two addresses written to on one message, and on how many. */
  datatype CoAddressedPair = CoAddressedPair(left: nat, right: nat, count: int)

  /** Every pair weighs at least one. */
  function PairWeight(pair: CoAddressedPair): (w: real)
    ensures w >= 1.0
  {
    if pair.count > 1 then pair.count as real else 1.0
  }

  predicate Joins(pair: CoAddressedPair, a: nat, b: nat) {
    pair.left != pair.right && ((pair.left == a && pair.right == b) || (pair.left == b && pair.right == a))
  }

  predicate Touches(pair: CoAddressedPair, a: nat) {
    pair.left != pair.right && (pair.left == a || pair.right == a)
  }

  // ----- The graph the pairs describe

  /** Weight between two addresses: repeated pairs add up, self-pairs are skipped. */
  ghost function Between(pairs: seq<CoAddressedPair>, a: nat, b: nat): (w: real)
    ensures w >= 0.0
  {
    if pairs == [] then 0.0
    else
      var last := pairs[|pairs| - 1];
      Between(pairs[..|pairs| - 1], a, b) + if Joins(last, a, b) then PairWeight(last) else 0.0
  }

  /** All the weight on an address. */
  ghost function Incident(pairs: seq<CoAddressedPair>, a: nat): (w: real)
    ensures w >= 0.0
  {
    if pairs == [] then 0.0
    else
      var last := pairs[|pairs| - 1];
      Incident(pairs[..|pairs| - 1], a) + if Touches(last, a) then PairWeight(last) else 0.0
  }

  ghost function Neighbours(pairs: seq<CoAddressedPair>, a: nat): set<nat> {
    if pairs == [] then {}
    else
      var last := pairs[|pairs| - 1];
      Neighbours(pairs[..|pairs| - 1], a)
      + if Touches(last, a) then {if last.left == a then last.right else last.left} else {}
  }

  ghost function Nodes(pairs: seq<CoAddressedPair>): set<nat> {
    if pairs == [] then {}
    else
      var last := pairs[|pairs| - 1];
      Nodes(pairs[..|pairs| - 1]) + if last.left == last.right then {} else {last.left, last.right}
  }

  /** The arrow is gone: the weight is the same from both ends. */
  lemma {:induction false} BetweenSymmetric(pairs: seq<CoAddressedPair>, a: nat, b: nat)
    ensures Between(pairs, a, b) == Between(pairs, b, a)
  {
    if pairs != [] {
      BetweenSymmetric(pairs[..|pairs| - 1], a, b);
    }
  }

  lemma {:induction false} NeighboursAreNodes(pairs: seq<CoAddressedPair>, a: nat)
    ensures Neighbours(pairs, a) <= Nodes(pairs)
    ensures forall b | b !in Neighbours(pairs, a) :: Between(pairs, a, b) == 0.0
    ensures a in Nodes(pairs) ==> Incident(pairs, a) >= 1.0
    ensures a !in Nodes(pairs) ==> Incident(pairs, a) == 0.0 && Neighbours(pairs, a) == {}
  {
    if pairs != [] {
      NeighboursAreNodes(pairs[..|pairs| - 1], a);
    }
  }

  lemma SumAtOne(s: set<nat>, c: nat, w: real, f: nat -> real)
    requires c in s && f(c) == w && forall x | x in s && x != c :: f(x) == 0.0
    ensures Sum(s, f) == w
  {
    SumRemove(s, c, f);
    SumConstant(s - {c}, 0.0, f);
  }

  /** The weights of a row add up to the node's total. */
  lemma {:induction false} RowSum(pairs: seq<CoAddressedPair>, a: nat, all: set<nat>, row: nat -> real)
    requires Nodes(pairs) <= all && forall b | b in all :: row(b) == Between(pairs, a, b)
    ensures Sum(all, row) == Incident(pairs, a)
    decreases |pairs|
  {
    if pairs == [] {
      SumConstant(all, 0.0, row);
    } else {
      var rest, last := pairs[..|pairs| - 1], pairs[|pairs| - 1];
      var before := (b: nat) => Between(rest, a, b);
      var added := (b: nat) => if Joins(last, a, b) then PairWeight(last) else 0.0;
      RowSum(rest, a, all, before);
      SumAdd(all, before, added, row);
      AddedSum(last, a, all, added);
    }
  }

  /** What one pair adds to a row. */
  lemma AddedSum(pair: CoAddressedPair, a: nat, all: set<nat>, added: nat -> real)
    requires pair.left != pair.right ==> pair.left in all && pair.right in all
    requires forall b | b in all :: added(b) == if Joins(pair, a, b) then PairWeight(pair) else 0.0
    ensures Sum(all, added) == if Touches(pair, a) then PairWeight(pair) else 0.0
  {
    if Touches(pair, a) {
      SumAtOne(all, if pair.left == a then pair.right else pair.left, PairWeight(pair), added);
    } else {
      SumConstant(all, 0.0, added);
    }
  }

  // ----- `_adjacency`

  /** A row of the table: the neighbours and the weight to each. */
  ghost predicate IsRow(row: map<nat, real>, pairs: seq<CoAddressedPair>, a: nat) {
    row.Keys == Neighbours(pairs, a) && forall b | b in row :: row[b] == Between(pairs, a, b)
  }

  /** The two dictionaries describe the graph of the pairs. */
  ghost predicate Adjacency(weights: map<nat, map<nat, real>>, total: map<nat, real>, pairs: seq<CoAddressedPair>) {
    && weights.Keys == total.Keys == Nodes(pairs)
    && forall a {:trigger RowOf(weights, total, pairs, a)} | a in weights :: RowOf(weights, total, pairs, a)
  }

  ghost predicate RowOf(weights: map<nat, map<nat, real>>, total: map<nat, real>, pairs: seq<CoAddressedPair>, a: nat) {
    && a in weights && a in total
    && IsRow(weights[a], pairs, a)
    && total[a] == Incident(pairs, a)
  }

  /** One direction of one pair: `setdefault`, then two additions. */
  function AddEdge(weights: map<nat, map<nat, real>>, one: nat, other: nat, weight: real): map<nat, map<nat, real>> {
    var edges := if one in weights then weights[one] else map[];
    weights[one := edges[other := (if other in edges then edges[other] else 0.0) + weight]]
  }

  function AddTotal(total: map<nat, real>, one: nat, weight: real): map<nat, real> {
    total[one := (if one in total then total[one] else 0.0) + weight]
  }

  lemma AdjacencySkips(weights: map<nat, map<nat, real>>, total: map<nat, real>, pairs: seq<CoAddressedPair>, i: nat)
    requires i < |pairs| && pairs[i].left == pairs[i].right && Adjacency(weights, total, pairs[..i])
    ensures Adjacency(weights, total, pairs[..i + 1])
  {
    assert pairs[..i + 1][..i] == pairs[..i];
    forall a | a in weights ensures RowOf(weights, total, pairs[..i + 1], a) {
      assert RowOf(weights, total, pairs[..i], a);
    }
  }

  /** The two tables with one more pair entered from both ends. */
  function WithPair(weights: map<nat, map<nat, real>>, pair: CoAddressedPair): map<nat, map<nat, real>> {
    AddEdge(AddEdge(weights, pair.left, pair.right, PairWeight(pair)), pair.right, pair.left, PairWeight(pair))
  }

  function WithTotal(total: map<nat, real>, pair: CoAddressedPair): map<nat, real> {
    AddTotal(AddTotal(total, pair.left, PairWeight(pair)), pair.right, PairWeight(pair))
  }

  lemma RowTouched(row: map<nat, real>, pairs: seq<CoAddressedPair>, i: nat, a: nat, other: nat)
    requires i < |pairs| && IsRow(row, pairs[..i], a) && Touches(pairs[i], a)
    requires other == Other(pairs[i], a)
    ensures IsRow(row[other := Known(row, other) + PairWeight(pairs[i])], pairs[..i + 1], a)
    ensures Incident(pairs[..i + 1], a) == Incident(pairs[..i], a) + PairWeight(pairs[i])
  {
    assert pairs[..i + 1][..i] == pairs[..i];
    NeighboursAreNodes(pairs[..i], a);
  }

  lemma RowUntouched(row: map<nat, real>, pairs: seq<CoAddressedPair>, i: nat, a: nat)
    requires i < |pairs| && IsRow(row, pairs[..i], a) && !Touches(pairs[i], a)
    ensures IsRow(row, pairs[..i + 1], a) && Incident(pairs[..i + 1], a) == Incident(pairs[..i], a)
  {
    assert pairs[..i + 1][..i] == pairs[..i];
  }

  function Row(weights: map<nat, map<nat, real>>, a: nat): map<nat, real> {
    if a in weights then weights[a] else map[]
  }

  function Other(pair: CoAddressedPair, a: nat): nat {
    if pair.left == a then pair.right else pair.left
  }

  /** Only the two rows of a pair change, each by its weight to the other end. */
  lemma RowsWithPair(weights: map<nat, map<nat, real>>, total: map<nat, real>, pair: CoAddressedPair, a: nat)
    requires pair.left != pair.right && a in WithPair(weights, pair)
    ensures Touches(pair, a) ==>
              && a in WithTotal(total, pair)
              && WithTotal(total, pair)[a] == Known(total, a) + PairWeight(pair)
              && WithPair(weights, pair)[a]
                 == Row(weights, a)[Other(pair, a) := Known(Row(weights, a), Other(pair, a)) + PairWeight(pair)]
    ensures !Touches(pair, a) ==> a in weights && WithPair(weights, pair)[a] == weights[a]
    ensures !Touches(pair, a) ==>
              && (a in WithTotal(total, pair) <==> a in total)
              && Known(WithTotal(total, pair), a) == Known(total, a)
  {}

  lemma RowGrows(weights: map<nat, map<nat, real>>, total: map<nat, real>, pairs: seq<CoAddressedPair>, i: nat, a: nat)
    requires i < |pairs| && pairs[i].left != pairs[i].right
    requires a in Nodes(pairs[..i]) ==> RowOf(weights, total, pairs[..i], a)
    requires weights.Keys == total.Keys == Nodes(pairs[..i])
    requires a in WithPair(weights, pairs[i])
    ensures RowOf(WithPair(weights, pairs[i]), WithTotal(total, pairs[i]), pairs[..i + 1], a)
  {
    NeighboursAreNodes(pairs[..i], a);
    RowsWithPair(weights, total, pairs[i], a);
    if Touches(pairs[i], a) {
      RowTouched(Row(weights, a), pairs, i, a, Other(pairs[i], a));
    } else {
      RowUntouched(Row(weights, a), pairs, i, a);
    }
  }

  lemma KeysWithPair(weights: map<nat, map<nat, real>>, total: map<nat, real>, pair: CoAddressedPair)
    requires weights.Keys == total.Keys
    ensures WithPair(weights, pair).Keys == WithTotal(total, pair).Keys == weights.Keys + {pair.left, pair.right}
  {}

  lemma AdjacencyGrows(weights: map<nat, map<nat, real>>, total: map<nat, real>, pairs: seq<CoAddressedPair>, i: nat)
    requires i < |pairs| && pairs[i].left != pairs[i].right && Adjacency(weights, total, pairs[..i])
    ensures Adjacency(WithPair(weights, pairs[i]), WithTotal(total, pairs[i]), pairs[..i + 1])
  {
    assert pairs[..i + 1][..i] == pairs[..i];
    KeysWithPair(weights, total, pairs[i]);
    forall a | a in WithPair(weights, pairs[i])
      ensures RowOf(WithPair(weights, pairs[i]), WithTotal(total, pairs[i]), pairs[..i + 1], a)
    {
      if a in weights {
        assert RowOf(weights, total, pairs[..i], a);
      }
      RowGrows(weights, total, pairs, i, a);
    }
  }

  method BuildAdjacency(pairs: seq<CoAddressedPair>)
    returns (weights: map<nat, map<nat, real>>, total: map<nat, real>)
    ensures Adjacency(weights, total, pairs)
  {
    weights, total := map[], map[];
    for i := 0 to |pairs|
      invariant Adjacency(weights, total, pairs[..i])
    {
      var pair := pairs[i];
      if pair.left == pair.right {
        AdjacencySkips(weights, total, pairs, i);
        continue;
      }
      AdjacencyGrows(weights, total, pairs, i);
      var weight := PairWeight(pair);
      weights := AddEdge(weights, pair.left, pair.right, weight);
      weights := AddEdge(weights, pair.right, pair.left, weight);
      total := AddTotal(total, pair.left, weight);
      total := AddTotal(total, pair.right, weight);
    }
    assert pairs[..|pairs|] == pairs;
  }

  // ----- Power iteration

  /** A rank's share along one edge; a node without weight gives nothing. */
  function Portion(rank: real, weight: real, total: real): real {
    if total == 0.0 then 0.0 else rank * weight / total
  }

  function Known(ranks: map<nat, real>, node: nat): real {
    if node in ranks then ranks[node] else 0.0
  }

  /** What a node receives over the edges in its row. */
  function Inflow(ranks: map<nat, real>, total: map<nat, real>, row: map<nat, real>): real {
    Sum(row.Keys, (other: nat) => Portion(Known(ranks, other), Known(row, other), Known(total, other)))
  }

  /** `leak + damping * …`. */
  function Combined(leak: real, damping: real, flow: real): real {
    leak + damping * flow
  }

  type Ranks = map<nat, real>

  /** One pass: a pure comprehension over the nodes. */
  function Pass(weights: map<nat, map<nat, real>>, total: map<nat, real>, ranks: map<nat, real>,
                damping: real, leak: real): map<nat, real>
  {
    map node | node in weights :: Combined(leak, damping, Inflow(ranks, total, weights[node]))
  }

  /** The same share over the graph of the pairs, with no table in between. */
  ghost function DenseShare(pairs: seq<CoAddressedPair>, ranks: map<nat, real>, node: nat, other: nat): real {
    Portion(Known(ranks, other), Between(pairs, node, other), Incident(pairs, other))
  }

  ghost function Received(pairs: seq<CoAddressedPair>, ranks: map<nat, real>, node: nat): real {
    Sum(Nodes(pairs), (other: nat) => DenseShare(pairs, ranks, node, other))
  }

  ghost function Given(pairs: seq<CoAddressedPair>, ranks: map<nat, real>, other: nat): real {
    Sum(Nodes(pairs), (node: nat) => DenseShare(pairs, ranks, node, other))
  }

  ghost function DensePass(pairs: seq<CoAddressedPair>, ranks: map<nat, real>, damping: real,
                           leak: real): map<nat, real>
  {
    map node | node in Nodes(pairs) :: Combined(leak, damping, Received(pairs, ranks, node))
  }

  lemma ZeroPortion(rank: real, total: real)
    ensures Portion(rank, 0.0, total) == 0.0
  {}

  lemma InflowIsDense(weights: map<nat, map<nat, real>>, total: map<nat, real>, pairs: seq<CoAddressedPair>,
                      ranks: map<nat, real>, node: nat)
    requires Adjacency(weights, total, pairs) && node in weights
    ensures Inflow(ranks, total, weights[node]) == Received(pairs, ranks, node)
  {
    assert RowOf(weights, total, pairs, node);
    NeighboursAreNodes(pairs, node);
    var row := weights[node];
    var sparse := (other: nat) => Portion(Known(ranks, other), Known(row, other), Known(total, other));
    var dense := (other: nat) => DenseShare(pairs, ranks, node, other);
    forall other | other in row.Keys ensures sparse(other) == dense(other) {
      assert RowOf(weights, total, pairs, other);
    }
    SumEqual(row.Keys, sparse, dense);
    forall other | other in Nodes(pairs) - row.Keys ensures dense(other) == 0.0 {
      ZeroPortion(Known(ranks, other), Incident(pairs, other));
    }
    SumSparse(row.Keys, Nodes(pairs), dense);
  }

  lemma PassIsDense(weights: map<nat, map<nat, real>>, total: map<nat, real>, pairs: seq<CoAddressedPair>,
                    ranks: map<nat, real>, damping: real, leak: real)
    requires Adjacency(weights, total, pairs)
    ensures Pass(weights, total, ranks, damping, leak) == DensePass(pairs, ranks, damping, leak)
  {
    forall node | node in weights ensures Inflow(ranks, total, weights[node]) == Received(pairs, ranks, node) {
      InflowIsDense(weights, total, pairs, ranks, node);
    }
  }

  /** Every node's share of the whole. */
  function Even(nodes: set<nat>): real
    requires nodes != {}
  {
    1.0 / (|nodes| as real)
  }

  /** What every node keeps whoever writes to it. */
  function Leak(nodes: set<nat>, damping: real): real
    requires nodes != {}
  {
    (1.0 - damping) * Even(nodes)
  }

  /** k passes, each over what the one before left. */
  ghost function Repeated(pass: Ranks -> Ranks, start: Ranks, k: nat): Ranks {
    if k == 0 then start else pass(Repeated(pass, start, k - 1))
  }

  /** What one pass carries over from two tables of ranks, any number of passes carries over. */
  lemma {:induction false} RepeatedRelated(related: (Ranks, Ranks) -> bool, pass: Ranks -> Ranks, other: Ranks -> Ranks,
                                           start: Ranks, start': Ranks, k: nat)
    requires related(start, start')
    requires forall r, r' | related(r, r') :: related(pass(r), other(r'))
    ensures related(Repeated(pass, start, k), Repeated(other, start', k))
  {
    if k > 0 {
      RepeatedRelated(related, pass, other, start, start', k - 1);
    }
  }

  function EvenRanks(nodes: set<nat>, even: real): Ranks {
    map node | node in nodes :: even
  }

  ghost function PassOver(pairs: seq<CoAddressedPair>, damping: real, leak: real): Ranks -> Ranks {
    (ranks: Ranks) => DensePass(pairs, ranks, damping, leak)
  }

  /** The ranks after k passes from an even start. */
  ghost function RanksFrom(pairs: seq<CoAddressedPair>, damping: real, even: real, leak: real, k: nat): Ranks {
    Repeated(PassOver(pairs, damping, leak), EvenRanks(Nodes(pairs), even), k)
  }

  ghost function RanksAfter(pairs: seq<CoAddressedPair>, damping: real, k: nat): Ranks
    requires Nodes(pairs) != {}
  {
    RanksFrom(pairs, damping, Even(Nodes(pairs)), Leak(Nodes(pairs), damping), k)
  }

  /** `_within`: the pairs the pass will walk; zero or less means all of them. */
  function Within(pairs: seq<CoAddressedPair>, maxEdges: int): seq<CoAddressedPair> {
    if maxEdges <= 0 || |pairs| <= maxEdges then pairs else pairs[..maxEdges]
  }

  function Passes(iterations: int): nat {
    if iterations > 0 then iterations else 0
  }

  method Iterate(weights: map<nat, map<nat, real>>, total: map<nat, real>, damping: real, even: real, leak: real,
                 passes: nat, ghost pairs: seq<CoAddressedPair>)
    returns (ranks: map<nat, real>)
    requires Adjacency(weights, total, pairs)
    ensures ranks == RanksFrom(pairs, damping, even, leak, passes)
  {
    ranks := EvenRanks(weights.Keys, even);
    for i := 0 to passes
      invariant ranks == RanksFrom(pairs, damping, even, leak, i)
    {
      PassIsDense(weights, total, pairs, ranks, damping, leak);
      ranks := Pass(weights, total, ranks, damping, leak);
    }
  }

  function Rounded(ranks: Ranks, round: real -> real): Ranks {
    map node | node in ranks :: round(ranks[node])
  }

  /** What the walked pairs, the passes and the rounding decide. */
  ghost function Ranking(pairs: seq<CoAddressedPair>, damping: real, passes: nat, maxEdges: int,
                         round: real -> real): Ranks
  {
    if Nodes(Within(pairs, maxEdges)) == {} then map[]
    else Rounded(RanksAfter(Within(pairs, maxEdges), damping, passes), round)
  }

  /** Rank every address in the pairs. */
  method WeightedPagerank(pairs: seq<CoAddressedPair>, damping: real, iterations: int, maxEdges: int,
                          round: real -> real)
    returns (ranks: map<nat, real>)
    ensures ranks == Ranking(pairs, damping, Passes(iterations), maxEdges, round)
  {
    var walked := Within(pairs, maxEdges);
    var weights, total := BuildAdjacency(walked);
    if weights.Keys == {} {
      return map[];
    }
    var nodes := weights.Keys;
    var exact := Iterate(weights, total, damping, Even(nodes), Leak(nodes, damping), Passes(iterations), walked);
    ranks := Rounded(exact, round);
  }

  // ----- Mass

  ghost function Mass(ranks: map<nat, real>): real {
    Sum(ranks.Keys, (node: nat) => Known(ranks, node))
  }

  lemma PortionScales(rank: real, weight: real, total: real)
    requires total != 0.0
    ensures Portion(rank, weight, total) == (rank / total) * weight
    ensures (rank / total) * total == rank
  {}

  /** Shares that split a total add up to what was shared. */
  lemma PortionsAddUp(nodes: set<nat>, rank: real, total: real, row: nat -> real, column: nat -> real)
    requires total != 0.0 && Sum(nodes, row) == total
    requires forall node | node in nodes :: column(node) == Portion(rank, row(node), total)
    ensures Sum(nodes, column) == rank
  {
    var scale := rank / total;
    forall node | node in nodes ensures column(node) == scale * row(node) {
      PortionScales(rank, row(node), total);
    }
    SumScale(nodes, scale, row, column);
    PortionScales(rank, total, total);
  }

  /** Everything one node gives away adds up to what it has. */
  lemma GivenIsRank(pairs: seq<CoAddressedPair>, ranks: map<nat, real>, other: nat)
    requires other in Nodes(pairs)
    ensures Given(pairs, ranks, other) == Known(ranks, other)
  {
    NeighboursAreNodes(pairs, other);
    var row := (node: nat) => Between(pairs, other, node);
    RowSum(pairs, other, Nodes(pairs), row);
    var column := (node: nat) => DenseShare(pairs, ranks, node, other);
    forall node | node in Nodes(pairs)
      ensures column(node) == Portion(Known(ranks, other), row(node), Incident(pairs, other))
    {
      BetweenSymmetric(pairs, node, other);
    }
    PortionsAddUp(Nodes(pairs), Known(ranks, other), Incident(pairs, other), row, column);
  }

  /** What is received in all is what was there. */
  lemma FlowKeepsMass(pairs: seq<CoAddressedPair>, ranks: map<nat, real>, received: nat -> real)
    requires ranks.Keys == Nodes(pairs)
    requires forall node | node in Nodes(pairs) :: received(node) == Received(pairs, ranks, node)
    ensures Sum(Nodes(pairs), received) == Mass(ranks)
  {
    var nodes := Nodes(pairs);
    var g := (node: nat, other: nat) => DenseShare(pairs, ranks, node, other);
    var given := (other: nat) => Given(pairs, ranks, other);
    forall x | x in nodes ensures received(x) == Sum(nodes, (y: nat) => g(x, y)) {
      SumEqual(nodes, (y: nat) => g(x, y), (other: nat) => DenseShare(pairs, ranks, x, other));
    }
    forall y | y in nodes ensures given(y) == Sum(nodes, (x: nat) => g(x, y)) {
      SumEqual(nodes, (x: nat) => g(x, y), (node: nat) => DenseShare(pairs, ranks, node, y));
    }
    SumSwap(nodes, nodes, g, received, given);
    forall other | other in nodes ensures given(other) == Known(ranks, other) {
      GivenIsRank(pairs, ranks, other);
    }
    SumEqual(nodes, given, (node: nat) => Known(ranks, node));
  }

  lemma LeakTotal(nodes: set<nat>, damping: real)
    requires nodes != {}
    ensures (|nodes| as real) * Leak(nodes, damping) == 1.0 - damping
  {
    var n, rest := |nodes| as real, 1.0 - damping;
    assert n * (rest * (1.0 / n)) == rest * (n * (1.0 / n));
    assert n * (1.0 / n) == 1.0;
  }

  lemma CombinedSum(nodes: set<nat>, leak: real, damping: real, flow: nat -> real, after: nat -> real)
    requires forall node | node in nodes :: after(node) == Combined(leak, damping, flow(node))
    ensures Sum(nodes, after) == (|nodes| as real) * leak + damping * Sum(nodes, flow)
  {
    var constant := (node: nat) => leak;
    var damped := (node: nat) => damping * flow(node);
    SumConstant(nodes, leak, constant);
    SumScale(nodes, damping, flow, damped);
    SumAdd(nodes, constant, damped, after);
  }

  lemma WholeAgain(kept: real, damping: real, flowed: real)
    requires kept == 1.0 - damping && flowed == 1.0
    ensures kept + damping * flowed == 1.0
  {}

  lemma CombinedIsWhole(nodes: set<nat>, damping: real, flow: nat -> real, after: nat -> real)
    requires nodes != {} && Sum(nodes, flow) == 1.0
    requires forall node | node in nodes :: after(node) == Combined(Leak(nodes, damping), damping, flow(node))
    ensures Sum(nodes, after) == 1.0
  {
    var leak := Leak(nodes, damping);
    CombinedSum(nodes, leak, damping, flow, after);
    LeakTotal(nodes, damping);
    WholeAgain((|nodes| as real) * leak, damping, Sum(nodes, flow));
  }

  /** A pass keeps the ranks summing to one. */
  lemma PassKeepsMass(pairs: seq<CoAddressedPair>, ranks: map<nat, real>, damping: real)
    requires Nodes(pairs) != {} && ranks.Keys == Nodes(pairs) && Mass(ranks) == 1.0
    ensures Mass(DensePass(pairs, ranks, damping, Leak(Nodes(pairs), damping))) == 1.0
  {
    var nodes := Nodes(pairs);
    var next := DensePass(pairs, ranks, damping, Leak(nodes, damping));
    var received := (node: nat) => Received(pairs, ranks, node);
    var after := (node: nat) => Known(next, node);
    FlowKeepsMass(pairs, ranks, received);
    assert next.Keys == nodes;
    CombinedIsWhole(nodes, damping, received, after);
    SumEqual(next.Keys, after, (node: nat) => Known(next, node));
  }

  lemma EvenStart(nodes: set<nat>)
    requires nodes != {}
    ensures Mass(EvenRanks(nodes, Even(nodes))) == 1.0
  {
    var ranks := EvenRanks(nodes, Even(nodes));
    assert ranks.Keys == nodes;
    SumConstant(nodes, Even(nodes), (node: nat) => Known(ranks, node));
    LeakTotal(nodes, 0.0);
  }

  ghost predicate Whole(nodes: set<nat>, ranks: Ranks) {
    ranks.Keys == nodes && Mass(ranks) == 1.0
  }

  /** The ranks of exactly the nodes sum to one after every pass. */
  lemma RanksSumToOne(pairs: seq<CoAddressedPair>, damping: real, k: nat)
    requires Nodes(pairs) != {}
    ensures RanksAfter(pairs, damping, k).Keys == Nodes(pairs)
    ensures Mass(RanksAfter(pairs, damping, k)) == 1.0
  {
    var nodes := Nodes(pairs);
    var leak := Leak(nodes, damping);
    var pass := PassOver(pairs, damping, leak);
    var whole := (r: Ranks, r': Ranks) => Whole(nodes, r);
    EvenStart(nodes);
    forall r, r' | whole(r, r') ensures whole(pass(r), pass(r')) {
      PassKeepsMass(pairs, r, damping);
    }
    var start := EvenRanks(nodes, Even(nodes));
    RepeatedRelated(whole, pass, pass, start, start, k);
  }

  ghost predicate AllAtLeast(ranks: map<nat, real>, floor: real) {
    forall node | node in ranks :: ranks[node] >= floor
  }

  lemma CombinedAtLeast(leak: real, damping: real, flow: real)
    requires 0.0 <= damping && flow >= 0.0
    ensures Combined(leak, damping, flow) >= leak
  {
    assert damping * flow >= 0.0;
  }

  lemma PassAtLeast(pairs: seq<CoAddressedPair>, ranks: map<nat, real>, damping: real, leak: real)
    requires 0.0 <= damping && AllAtLeast(ranks, 0.0)
    ensures AllAtLeast(DensePass(pairs, ranks, damping, leak), leak)
  {
    forall node | node in Nodes(pairs) ensures DensePass(pairs, ranks, damping, leak)[node] >= leak {
      var share := (other: nat) => DenseShare(pairs, ranks, node, other);
      forall other | other in Nodes(pairs) ensures share(other) >= 0.0 {
        PortionNonNegative(Known(ranks, other), Between(pairs, node, other), Incident(pairs, other));
      }
      SumNonNegative(Nodes(pairs), share);
      CombinedAtLeast(leak, damping, Received(pairs, ranks, node));
    }
  }

  /** No address falls below what damping leaves everybody. */
  lemma RanksAtLeastLeak(pairs: seq<CoAddressedPair>, damping: real, k: nat)
    requires Nodes(pairs) != {} && 0.0 <= damping <= 1.0
    ensures AllAtLeast(RanksAfter(pairs, damping, k), Leak(Nodes(pairs), damping))
  {
    var leak := Leak(Nodes(pairs), damping);
    var pass := PassOver(pairs, damping, leak);
    var atLeast := (r: Ranks, r': Ranks) => AllAtLeast(r, leak);
    LeakSmall(Nodes(pairs), damping);
    forall r, r' | atLeast(r, r') ensures atLeast(pass(r), pass(r')) {
      assert AllAtLeast(r, 0.0);
      PassAtLeast(pairs, r, damping, leak);
    }
    var start := EvenRanks(Nodes(pairs), Even(Nodes(pairs)));
    RepeatedRelated(atLeast, pass, pass, start, start, k);
  }

  lemma PortionNonNegative(rank: real, weight: real, total: real)
    requires rank >= 0.0 && weight >= 0.0 && total >= 0.0
    ensures Portion(rank, weight, total) >= 0.0
  {
    assert rank * weight >= 0.0;
  }

  lemma LeakSmall(nodes: set<nat>, damping: real)
    requires nodes != {} && 0.0 <= damping <= 1.0
    ensures 0.0 <= Leak(nodes, damping) <= Even(nodes)
  {
    var even := Even(nodes);
    assert even >= 0.0;
    assert (1.0 - damping) * even >= 0.0 && damping * even >= 0.0;
  }

  // ----- Names do not matter

  /** The same pair under other names, whichever end the validator put first. */
  predicate IsRenamed(pair: CoAddressedPair, other: CoAddressedPair, rename: nat -> nat) {
    && pair.count == other.count
    && ((other.left == rename(pair.left) && other.right == rename(pair.right))
        || (other.left == rename(pair.right) && other.right == rename(pair.left)))
  }

  ghost predicate Renaming(pairs: seq<CoAddressedPair>, others: seq<CoAddressedPair>, rename: nat -> nat) {
    && Injective(rename)
    && |pairs| == |others|
    && forall i | 0 <= i < |pairs| :: IsRenamed(pairs[i], others[i], rename)
  }

  lemma {:induction false} BetweenRenamed(pairs: seq<CoAddressedPair>, others: seq<CoAddressedPair>,
                                          rename: nat -> nat, a: nat, b: nat)
    requires Renaming(pairs, others, rename)
    ensures Between(others, rename(a), rename(b)) == Between(pairs, a, b)
    ensures Incident(others, rename(a)) == Incident(pairs, a)
    decreases |pairs|
  {
    if pairs != [] {
      var n := |pairs| - 1;
      BetweenRenamed(pairs[..n], others[..n], rename, a, b);
      assert IsRenamed(pairs[n], others[n], rename);
    }
  }

  lemma {:induction false} NodesRenamed(pairs: seq<CoAddressedPair>, others: seq<CoAddressedPair>, rename: nat -> nat)
    requires Renaming(pairs, others, rename)
    ensures Nodes(others) == Image(Nodes(pairs), rename)
    decreases |pairs|
  {
    if pairs != [] {
      var n := |pairs| - 1;
      NodesRenamed(pairs[..n], others[..n], rename);
      assert IsRenamed(pairs[n], others[n], rename);
    }
  }

  lemma ImageSize(s: set<nat>, rename: nat -> nat)
    requires Injective(rename)
    ensures |Image(s, rename)| == |s|
  {
    var one := (x: nat) => 1.0;
    SumImage(s, rename, one, one);
    SumConstant(s, 1.0, one);
    SumConstant(Image(s, rename), 1.0, one);
  }

  /** The ranks after renaming are the renamed ranks. */
  ghost predicate RanksRenamed(ranks: map<nat, real>, others: map<nat, real>, rename: nat -> nat) {
    forall node | node in ranks :: rename(node) in others && others[rename(node)] == ranks[node]
  }

  lemma ReceivedRenamed(pairs: seq<CoAddressedPair>, others: seq<CoAddressedPair>, rename: nat -> nat,
                        ranks: map<nat, real>, renamed: map<nat, real>, node: nat)
    requires Renaming(pairs, others, rename)
    requires ranks.Keys == Nodes(pairs) && RanksRenamed(ranks, renamed, rename)
    ensures Received(others, renamed, rename(node)) == Received(pairs, ranks, node)
  {
    NodesRenamed(pairs, others, rename);
    var f := (other: nat) => DenseShare(others, renamed, rename(node), other);
    var h := (other: nat) => DenseShare(pairs, ranks, node, other);
    forall other | other in Nodes(pairs) ensures h(other) == f(rename(other)) {
      BetweenRenamed(pairs, others, rename, node, other);
      BetweenRenamed(pairs, others, rename, other, node);
    }
    SumImage(Nodes(pairs), rename, f, h);
  }

  lemma SameLeak(s: set<nat>, t: set<nat>, damping: real)
    requires s != {} && t != {} && |s| == |t|
    ensures Even(s) == Even(t) && Leak(s, damping) == Leak(t, damping)
  {}

  lemma PassRenamed(pairs: seq<CoAddressedPair>, others: seq<CoAddressedPair>, rename: nat -> nat,
                    ranks: map<nat, real>, renamed: map<nat, real>, damping: real, leak: real)
    requires Renaming(pairs, others, rename)
    requires ranks.Keys == Nodes(pairs) && RanksRenamed(ranks, renamed, rename)
    ensures RanksRenamed(DensePass(pairs, ranks, damping, leak), DensePass(others, renamed, damping, leak), rename)
  {
    NodesRenamed(pairs, others, rename);
    forall node | node in Nodes(pairs)
      ensures rename(node) in Nodes(others)
      ensures Received(others, renamed, rename(node)) == Received(pairs, ranks, node)
    {
      ReceivedRenamed(pairs, others, rename, ranks, renamed, node);
    }
  }

  lemma NodesStay(pairs: seq<CoAddressedPair>, others: seq<CoAddressedPair>, rename: nat -> nat)
    requires Renaming(pairs, others, rename) && Nodes(pairs) != {}
    ensures Nodes(others) != {} && |Nodes(others)| == |Nodes(pairs)|
  {
    NodesRenamed(pairs, others, rename);
    var some :| some in Nodes(pairs);
    assert rename(some) in Nodes(others);
    ImageSize(Nodes(pairs), rename);
  }

  ghost predicate RenamedOver(nodes: set<nat>, ranks: Ranks, others: Ranks, rename: nat -> nat) {
    ranks.Keys == nodes && RanksRenamed(ranks, others, rename)
  }

  lemma RanksFromRenamed(pairs: seq<CoAddressedPair>, others: seq<CoAddressedPair>,
                         rename: nat -> nat, damping: real, even: real, leak: real, k: nat)
    requires Renaming(pairs, others, rename)
    ensures RanksRenamed(RanksFrom(pairs, damping, even, leak, k), RanksFrom(others, damping, even, leak, k), rename)
  {
    var nodes := Nodes(pairs);
    var related := (r: Ranks, r': Ranks) => RenamedOver(nodes, r, r', rename);
    var pass, pass' := PassOver(pairs, damping, leak), PassOver(others, damping, leak);
    NodesRenamed(pairs, others, rename);
    forall r, r' | related(r, r') ensures related(pass(r), pass'(r')) {
      PassRenamed(pairs, others, rename, r, r', damping, leak);
    }
    var start, start' := EvenRanks(nodes, even), EvenRanks(Nodes(others), even);
    assert related(start, start');
    RepeatedRelated(related, pass, pass', start, start', k);
  }

  /** Renaming every address, arrows and all, renames the ranks and changes none of them. */
  lemma RanksFollowNames(pairs: seq<CoAddressedPair>, others: seq<CoAddressedPair>, rename: nat -> nat,
                         damping: real, k: nat)
    requires Renaming(pairs, others, rename) && Nodes(pairs) != {}
    ensures Nodes(others) != {}
    ensures RanksRenamed(RanksAfter(pairs, damping, k), RanksAfter(others, damping, k), rename)
  {
    NodesStay(pairs, others, rename);
    SameLeak(Nodes(pairs), Nodes(others), damping);
    RanksFromRenamed(pairs, others, rename, damping, Even(Nodes(pairs)), Leak(Nodes(pairs), damping), k);
  }

  // ----- Nor does the order of the pairs

  lemma {:induction false} BetweenTaken(pairs: seq<CoAddressedPair>, i: nat, a: nat, b: nat)
    requires i < |pairs|
    ensures Between(pairs, a, b)
         == Between(pairs[..i] + pairs[i + 1..], a, b) + if Joins(pairs[i], a, b) then PairWeight(pairs[i]) else 0.0
    ensures Incident(pairs, a)
         == Incident(pairs[..i] + pairs[i + 1..], a) + if Touches(pairs[i], a) then PairWeight(pairs[i]) else 0.0
    ensures Nodes(pairs) == Nodes(pairs[..i] + pairs[i + 1..])
                            + if pairs[i].left == pairs[i].right then {} else {pairs[i].left, pairs[i].right}
    decreases |pairs|
  {
    var n := |pairs| - 1;
    var without := pairs[..i] + pairs[i + 1..];
    if i == n {
      assert without == pairs[..n];
    } else {
      var init := pairs[..n];
      BetweenTaken(init, i, a, b);
      assert without[..n - 1] == init[..i] + init[i + 1..];
      assert without[n - 1] == pairs[n];
    }
  }

  /** The last pair taken off one list and off the other. */
  lemma SameRest(pairs: seq<CoAddressedPair>, others: seq<CoAddressedPair>, i: nat)
    requires multiset(pairs) == multiset(others) && pairs != []
    requires i < |others| && others[i] == pairs[|pairs| - 1]
    ensures multiset(pairs[..|pairs| - 1]) == multiset(others[..i] + others[i + 1..])
  {
    var n := |pairs| - 1;
    assert pairs == pairs[..n] + [pairs[n]];
    assert others == others[..i] + [others[i]] + others[i + 1..];
    assert multiset(pairs) == multiset(pairs[..n]) + multiset{pairs[n]};
    assert multiset(others) == multiset(others[..i]) + multiset{others[i]} + multiset(others[i + 1..]);
    assert multiset(others[..i] + others[i + 1..]) == multiset(others[..i]) + multiset(others[i + 1..]);
    assert multiset(pairs[..n]) == multiset(pairs) - multiset{pairs[n]};
    assert multiset(others[..i] + others[i + 1..]) == multiset(others) - multiset{others[i]};
  }

  lemma Elsewhere(pairs: seq<CoAddressedPair>, others: seq<CoAddressedPair>) returns (i: nat)
    requires multiset(pairs) == multiset(others) && pairs != []
    ensures i < |others| && others[i] == pairs[|pairs| - 1]
  {
    assert pairs[|pairs| - 1] in multiset(pairs);
    assert pairs[|pairs| - 1] in others;
    i :| 0 <= i < |others| && others[i] == pairs[|pairs| - 1];
  }

  lemma {:induction false} GraphIgnoresOrder(pairs: seq<CoAddressedPair>, others: seq<CoAddressedPair>, a: nat, b: nat)
    requires multiset(pairs) == multiset(others)
    ensures Between(pairs, a, b) == Between(others, a, b) && Incident(pairs, a) == Incident(others, a)
    ensures Nodes(pairs) == Nodes(others)
    decreases |pairs|
  {
    if pairs == [] {
      assert |multiset(others)| == |multiset(pairs)| == 0;
    } else {
      var i := Elsewhere(pairs, others);
      SameRest(pairs, others, i);
      GraphIgnoresOrder(pairs[..|pairs| - 1], others[..i] + others[i + 1..], a, b);
      BetweenTaken(others, i, a, b);
    }
  }

  /** Two lists of pairs that describe one weighted graph. */
  ghost predicate SameGraph(pairs: seq<CoAddressedPair>, others: seq<CoAddressedPair>) {
    Nodes(pairs) == Nodes(others) && forall a, b :: SameAt(pairs, others, a, b)
  }

  ghost predicate SameAt(pairs: seq<CoAddressedPair>, others: seq<CoAddressedPair>, a: nat, b: nat) {
    Between(pairs, a, b) == Between(others, a, b) && Incident(pairs, a) == Incident(others, a)
  }

  lemma ReceivedSame(pairs: seq<CoAddressedPair>, others: seq<CoAddressedPair>, ranks: map<nat, real>, node: nat)
    requires SameGraph(pairs, others)
    ensures Received(others, ranks, node) == Received(pairs, ranks, node)
  {
    var theirs := (other: nat) => DenseShare(others, ranks, node, other);
    var ours := (other: nat) => DenseShare(pairs, ranks, node, other);
    forall other ensures theirs(other) == ours(other) {
      assert SameAt(pairs, others, node, other) && SameAt(pairs, others, other, node);
    }
    SumEqual(Nodes(pairs), theirs, ours);
  }

  lemma PassSame(pairs: seq<CoAddressedPair>, others: seq<CoAddressedPair>, ranks: map<nat, real>,
                 damping: real, leak: real)
    requires SameGraph(pairs, others)
    ensures DensePass(others, ranks, damping, leak) == DensePass(pairs, ranks, damping, leak)
  {
    forall node | node in Nodes(pairs) ensures Received(others, ranks, node) == Received(pairs, ranks, node) {
      ReceivedSame(pairs, others, ranks, node);
    }
  }

  lemma RanksFromSame(pairs: seq<CoAddressedPair>, others: seq<CoAddressedPair>,
                      damping: real, even: real, leak: real, k: nat)
    requires SameGraph(pairs, others)
    ensures RanksFrom(others, damping, even, leak, k) == RanksFrom(pairs, damping, even, leak, k)
  {
    var pass, pass' := PassOver(pairs, damping, leak), PassOver(others, damping, leak);
    var same := (r: Ranks, r': Ranks) => r == r';
    forall r, r' | same(r, r') ensures same(pass(r), pass'(r')) {
      PassSame(pairs, others, r, damping, leak);
    }
    var start := EvenRanks(Nodes(pairs), even);
    RepeatedRelated(same, pass, pass', start, start, k);
  }

  lemma RanksOfSameGraph(pairs: seq<CoAddressedPair>, others: seq<CoAddressedPair>, damping: real, k: nat)
    requires SameGraph(pairs, others) && Nodes(pairs) != {}
    ensures RanksAfter(others, damping, k) == RanksAfter(pairs, damping, k)
  {
    RanksFromSame(pairs, others, damping, Even(Nodes(pairs)), Leak(Nodes(pairs), damping), k);
  }

  lemma RanksIgnoreOrder(pairs: seq<CoAddressedPair>, others: seq<CoAddressedPair>, damping: real, k: nat)
    requires multiset(pairs) == multiset(others) && Nodes(pairs) != {}
    ensures Nodes(others) == Nodes(pairs)
    ensures RanksAfter(others, damping, k) == RanksAfter(pairs, damping, k)
  {
    GraphIgnoresOrder(pairs, others, 0, 0);
    forall a, b ensures SameAt(pairs, others, a, b) {
      GraphIgnoresOrder(pairs, others, a, b);
    }
    RanksOfSameGraph(pairs, others, damping, k);
  }

  /**
   * An archive whose addresses carry other names gets the same ranks under those names when
   * all its pairs are walked, although they arrive in another order.
   */
  lemma RankingIgnoresNames(pairs: seq<CoAddressedPair>, renamed: seq<CoAddressedPair>, others: seq<CoAddressedPair>,
                            rename: nat -> nat, damping: real, k: nat)
    requires Renaming(pairs, renamed, rename) && multiset(renamed) == multiset(others) && Nodes(pairs) != {}
    ensures Nodes(others) != {}
    ensures RanksRenamed(RanksAfter(pairs, damping, k), RanksAfter(others, damping, k), rename)
  {
    RanksFollowNames(pairs, renamed, rename, damping, k);
    RanksIgnoreOrder(renamed, others, damping, k);
  }

  // ----- What a count is worth

  lemma {:induction false} GraphConcat(pairs: seq<CoAddressedPair>, more: seq<CoAddressedPair>, a: nat, b: nat)
    ensures Between(pairs + more, a, b) == Between(pairs, a, b) + Between(more, a, b)
    ensures Incident(pairs + more, a) == Incident(pairs, a) + Incident(more, a)
    ensures Nodes(pairs + more) == Nodes(pairs) + Nodes(more)
    decreases |more|
  {
    if more == [] {
      assert pairs + more == pairs;
    } else {
      var n := |more| - 1;
      GraphConcat(pairs, more[..n], a, b);
      assert (pairs + more)[..|pairs| + n] == pairs + more[..n];
    }
  }

  /** Some pairs in the middle of a list exchanged for others that describe the same. */
  lemma SameInside(before: seq<CoAddressedPair>, some: seq<CoAddressedPair>, others: seq<CoAddressedPair>,
                   after: seq<CoAddressedPair>)
    requires SameGraph(some, others)
    ensures SameGraph(before + some + after, before + others + after)
  {
    InsideAt(before, some, others, after, 0, 0);
    forall a, b ensures SameAt(before + some + after, before + others + after, a, b) {
      InsideAt(before, some, others, after, a, b);
    }
  }

  lemma InsideAt(before: seq<CoAddressedPair>, some: seq<CoAddressedPair>, others: seq<CoAddressedPair>,
                 after: seq<CoAddressedPair>, a: nat, b: nat)
    requires SameGraph(some, others)
    ensures SameAt(before + some + after, before + others + after, a, b)
    ensures Nodes(before + some + after) == Nodes(before + others + after)
  {
    assert SameAt(some, others, a, b);
    GraphConcat(before + some, after, a, b);
    GraphConcat(before, some, a, b);
    GraphConcat(before + others, after, a, b);
    GraphConcat(before, others, a, b);
  }

  lemma OnePair(pair: CoAddressedPair, a: nat, b: nat)
    ensures Between([pair], a, b) == if Joins(pair, a, b) then PairWeight(pair) else 0.0
    ensures Incident([pair], a) == if Touches(pair, a) then PairWeight(pair) else 0.0
    ensures Nodes([pair]) == if pair.left == pair.right then {} else {pair.left, pair.right}
  {
    assert [pair][..0] == [];
  }

  lemma SplitIsSame(left: nat, right: nat, m: int, n: int)
    requires m >= 1 && n >= 1
    ensures SameGraph([CoAddressedPair(left, right, m + n)],
                      [CoAddressedPair(left, right, m), CoAddressedPair(left, right, n)])
  {
    var whole, one, other := CoAddressedPair(left, right, m + n), CoAddressedPair(left, right, m),
                             CoAddressedPair(left, right, n);
    assert [one, other] == [one] + [other];
    GraphConcat([one], [other], 0, 0);
    OnePair(whole, 0, 0);
    OnePair(one, 0, 0);
    OnePair(other, 0, 0);
    forall a, b ensures SameAt([whole], [one, other], a, b) {
      GraphConcat([one], [other], a, b);
      OnePair(whole, a, b);
      OnePair(one, a, b);
      OnePair(other, a, b);
    }
  }

  /** A count is worth as much as its parts: one pair of m + n messages ranks like one of m and one of n. */
  lemma CountsAddUp(before: seq<CoAddressedPair>, after: seq<CoAddressedPair>, left: nat, right: nat, m: int, n: int,
                    damping: real, k: nat)
    requires m >= 1 && n >= 1
    requires Nodes(before + [CoAddressedPair(left, right, m + n)] + after) != {}
    ensures var whole := before + [CoAddressedPair(left, right, m + n)] + after;
            var parts := before + [CoAddressedPair(left, right, m), CoAddressedPair(left, right, n)] + after;
            Nodes(parts) == Nodes(whole) && RanksAfter(parts, damping, k) == RanksAfter(whole, damping, k)
  {
    var whole, parts := [CoAddressedPair(left, right, m + n)],
                        [CoAddressedPair(left, right, m), CoAddressedPair(left, right, n)];
    SplitIsSame(left, right, m, n);
    SameInside(before, whole, parts, after);
    RanksOfSameGraph(before + whole + after, before + parts + after, damping, k);
  }

  /** A count below one is one. */
  lemma LeastCountIsOne(before: seq<CoAddressedPair>, after: seq<CoAddressedPair>, left: nat, right: nat, count: int,
                        damping: real, k: nat)
    requires count <= 1 && Nodes(before + [CoAddressedPair(left, right, count)] + after) != {}
    ensures var given := before + [CoAddressedPair(left, right, count)] + after;
            var one := before + [CoAddressedPair(left, right, 1)] + after;
            Nodes(one) == Nodes(given) && RanksAfter(one, damping, k) == RanksAfter(given, damping, k)
  {
    var given, one := CoAddressedPair(left, right, count), CoAddressedPair(left, right, 1);
    OnePair(given, 0, 0);
    OnePair(one, 0, 0);
    forall a, b ensures SameAt([given], [one], a, b) {
      OnePair(given, a, b);
      OnePair(one, a, b);
    }
    SameInside(before, [given], [one], after);
    RanksOfSameGraph(before + [given] + after, before + [one] + after, damping, k);
  }

  /** The pass count and the rounding: no passes leave everybody alike, and each pass is one more. */
  lemma PassesCount(pairs: seq<CoAddressedPair>, damping: real, iterations: int, round: real -> real)
    requires Nodes(pairs) != {}
    ensures iterations <= 0 ==>
              forall node | node in Nodes(pairs) ::
                && node in Ranking(pairs, damping, Passes(iterations), 0, round)
                && Ranking(pairs, damping, Passes(iterations), 0, round)[node] == round(1.0 / (|Nodes(pairs)| as real))
    ensures iterations > 0 ==>
              RanksAfter(pairs, damping, Passes(iterations))
              == DensePass(pairs, RanksAfter(pairs, damping, Passes(iterations - 1)), damping,
                           Leak(Nodes(pairs), damping))
  {}
}
