/** The structurizer's node pool.

    Each field of a `CFGNode` is a column of the pool, indexed by node; the vectors that the
    structurizer itself keeps (visit orders, reachability bits) are fields beside them. */
module NodePool {
  import opened Wrappers
  import opened Graphs

  class Pool {
    var entryBlock: Node
    var exitBlock: Node

    var succ: seq<seq<Node>>
    var pred: seq<seq<Node>>
    var succBackEdge: seq<Option<Node>>
    var predBackEdge: seq<Option<Node>>

    var visited: seq<bool>
    var traversing: seq<bool>
    var backwardVisited: seq<bool>
    var reachableNodes: set<Node>

    var forwardNumber: seq<nat>
    var backwardNumber: seq<nat>
    var forwardOrder: seq<Node>
    var backwardOrder: seq<Node>

    var immediateDominator: seq<Option<Node>>
    var immediatePostDominator: seq<Option<Node>>
    var dominanceFrontier: seq<seq<Node>>
    var postDominanceFrontier: seq<seq<Node>>

    var reachabilityStride: nat
    var reachabilityBitset: seq<bv32>

    /** Every column has one entry per node. */
    ghost predicate Shape()
      reads this
    {
      var n := |succ|;
      && entryBlock < n && exitBlock < n && entryBlock != exitBlock
      && |pred| == |succBackEdge| == |predBackEdge| == n
      && |visited| == |traversing| == |backwardVisited| == n
      && |forwardNumber| == |backwardNumber| == n
      && |immediateDominator| == |immediatePostDominator| == n
      && |dominanceFrontier| == |postDominanceFrontier| == n
    }
  }
}
