/** The forward and backward flow graphs that the pool's columns describe. */
module FlowGraph {
  import opened Graphs
  import opened Lists
  import opened Dominance
  import opened NodePool

  /** The edges out of the blocks of `order`; other blocks of the pool are dead and have none. */
  ghost function Restrict(adj: seq<seq<Node>>, order: seq<Node>): Graph {
    Graph(seq(|adj|, x requires 0 <= x < |adj| => if x in order then adj[x] else []))
  }

  /** Each block's number is its position in the order. */
  ghost predicate Numbers(num: seq<nat>, order: seq<Node>) {
    forall i :: 0 <= i < |order| ==> order[i] < |num| && num[order[i]] == i
  }

  ghost function Forward(c: Pool): Flow
    reads c`succ, c`forwardOrder, c`entryBlock, c`forwardNumber
  {
    Flow(Restrict(c.succ, c.forwardOrder), c.entryBlock, c.forwardNumber)
  }

  /** `pred` lists, for each block of `order`, the blocks with an edge to it, once each. */
  ghost predicate Mirrors(pred: seq<seq<Node>>, g: Graph, order: seq<Node>) {
    && |pred| == |g.succ|
    && forall x: Node :: x in order && x < |pred| ==>
         Distinct(pred[x]) && forall y: Node :: y in pred[x] <==> Edge(g, y, x)
  }

  /** The forward visit has been done: the order lists the live blocks, and `succ` and `pred` are
      the two directions of an acyclic graph that every block is reached in. */
  ghost predicate Numbered(f: Flow, order: seq<Node>) {
    && Ok(f)
    && Distinct(order) && Numbers(f.num, order)
    && forall x: Node :: x in order <==> Live(f, x)
  }

  lemma OrderedByNumber(f: Flow, order: seq<Node>, x: Node)
    requires Numbered(f, order) && x in order
    ensures x < |f.num| && f.num[x] < |order| && order[f.num[x]] == x
  {
    var i := Index(order, x);
    assert order[i] == x;
  }
}
