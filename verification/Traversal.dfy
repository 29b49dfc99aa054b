/** Bookkeeping of a walk along ticks: which ticks a walk has passed, the liquidity they
    account for, and how many are still ahead. */
module Traversal {
  /** A tick position and the liquidity added when it is crossed upwards. */
  datatype Node = Node(tick: int, net: int)

  /** A walk from `start` now standing at `tick` has crossed `t`.  Going down, a crossed tick lies
      above the standing tick; going up, at or below it. */
  predicate Passed(down: bool, start: int, tick: int, t: int) {
    if down then tick < t <= start else start < t <= tick
  }

  predicate IsAhead(down: bool, tick: int, t: int) {
    if down then t <= tick else tick < t
  }

  /** Signed liquidity of all crossed ticks. */
  function SumNet(nodes: seq<Node>, down: bool, start: int, tick: int): int {
    if nodes == [] then 0
    else
      var last := nodes[|nodes| - 1];
      SumNet(nodes[..|nodes| - 1], down, start, tick)
      + if !Passed(down, start, tick, last.tick) then 0 else if down then -last.net else last.net
  }

  lemma {:induction false} SumNetUnmoved(nodes: seq<Node>, down: bool, start: int, tick: int, tick': int)
    requires forall j | 0 <= j < |nodes| ::
      nodes[j].net == 0 || (Passed(down, start, tick, nodes[j].tick) <==> Passed(down, start, tick', nodes[j].tick))
    ensures SumNet(nodes, down, start, tick') == SumNet(nodes, down, start, tick)
  {
    if nodes == [] {
    } else {
      SumNetUnmoved(nodes[..|nodes| - 1], down, start, tick, tick');
    }
  }

  /** Crossing one tick adds exactly its own liquidity. */
  lemma {:induction false} SumNetCross(nodes: seq<Node>, down: bool, start: int, tick: int, tick': int, i: nat)
    requires i < |nodes| && !Passed(down, start, tick, nodes[i].tick) && Passed(down, start, tick', nodes[i].tick)
    requires forall j | 0 <= j < |nodes| && j != i ::
      nodes[j].net == 0 || (Passed(down, start, tick, nodes[j].tick) <==> Passed(down, start, tick', nodes[j].tick))
    ensures SumNet(nodes, down, start, tick')
         == SumNet(nodes, down, start, tick) + if down then -nodes[i].net else nodes[i].net
  {
    var n := |nodes| - 1;
    if i == n {
      SumNetUnmoved(nodes[..n], down, start, tick, tick');
    } else {
      SumNetCross(nodes[..n], down, start, tick, tick', i);
    }
  }

  lemma {:induction false} SumNetStart(nodes: seq<Node>, down: bool, start: int)
    ensures SumNet(nodes, down, start, start) == 0
  {
    if nodes == [] {
    } else {
      SumNetStart(nodes[..|nodes| - 1], down, start);
    }
  }

  /** Number of ticks the walk has not reached yet. */
  function Ahead(nodes: seq<Node>, down: bool, tick: int): (n: nat)
    ensures n <= |nodes|
  {
    if nodes == [] then 0
    else Ahead(nodes[..|nodes| - 1], down, tick) + if IsAhead(down, tick, nodes[|nodes| - 1].tick) then 1 else 0
  }

  lemma {:induction false} AheadShrinks(nodes: seq<Node>, down: bool, tick: int, tick': int)
    requires if down then tick' <= tick else tick <= tick'
    ensures Ahead(nodes, down, tick') <= Ahead(nodes, down, tick)
    ensures (exists i | 0 <= i < |nodes| :: IsAhead(down, tick, nodes[i].tick) && !IsAhead(down, tick', nodes[i].tick))
      ==> Ahead(nodes, down, tick') < Ahead(nodes, down, tick)
  {
    if nodes == [] {
    } else {
      AheadShrinks(nodes[..|nodes| - 1], down, tick, tick');
    }
  }
}
