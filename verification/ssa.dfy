/** Why a block that dominates none of its successors keeps its ids to itself. */
module SSA {
  import opened Graphs
  import opened IR
  import opened TailSplit

  /** Static single assignment: one definition per id, and definitions dominate uses; a PHI uses a value
      at the end of the block that it comes from. */
  ghost predicate Form(p: seq<IRBlock>, live: set<Node>, entry: Node)
    requires LiveSet(p, live)
  {
    && (forall b: Node, d: Node, id: Id :: b in live && d in live && Defines(p[b], id) && Defines(p[d], id) ==> b == d)
    && (forall b: Node, d: Node, i, id: Id ::
          (b in live && d in live && 0 <= i < |p[b].operations| && UsesId(p[b].operations[i], id)
           && Defines(p[d], id)) ==>
          Dominating(FlowOf(p), entry, d, b))
    && (forall b: Node, d: Node :: b in live && d in live && Defines(p[d], TerminatorUse(p[b].terminator)) ==>
          Dominating(FlowOf(p), entry, d, b))
    && (forall b: Node, d: Node, i, f: Node ::
          (b in live && d in live && f in live && b in Targets(p[f].terminator) && 0 <= i < |p[b].phi|
           && Defines(p[d], IncomingFrom(p[b].phi[i].incoming, f))) ==> Dominating(FlowOf(p), entry, d, f))
  }

  /** Definitions come before uses inside each block, too. */
  ghost predicate WellFormed(p: seq<IRBlock>, live: set<Node>, entry: Node) {
    LiveSet(p, live) && Form(p, live, entry) && forall b: Node :: b in live ==> InOrder(p[b])
  }

  lemma AboutWellFormed(p: seq<IRBlock>, live: set<Node>, entry: Node)
    requires WellFormed(p, live, entry)
    ensures LiveSet(p, live) && forall b: Node :: b in live ==> b < |p| && InOrder(p[b])
  {}

  /** A block that strictly dominates anything reachable dominates one of its own successors. */
  lemma DominatesSuccessor(w: Graph, entry: Node, n: Node, b: Node) returns (s: Node)
    requires Dominating(w, entry, n, b) && Reach(w, entry, b) && b != n
    ensures Edge(w, n, s) && Dominating(w, entry, n, s)
  {
    var p :| Path(w, p, entry, b);
    var p1, p2 := PathSplit(w, p, entry, b, n);
    var q := AfterLastVisit(w, p2, n, b);
    PathLast(w, q, n, b);
    s := q[1];
    forall r: seq<Node> | Path(w, r, entry, s) ensures n in r {
      PathJoin(w, r, entry, s, q[1..], b);
    }
  }

  /** In SSA form, what a block dominating none of its successors defines is read by that block alone,
      and by PHIs on its outgoing edges. */
  lemma DominatesNothing(p: seq<IRBlock>, live: set<Node>, entry: Node, n: Node)
    requires LiveSet(p, live) && n in live && Form(p, live, entry)
    requires forall b: Node :: b in live ==> Reach(FlowOf(p), entry, b)
    requires forall s: Node :: s in Targets(p[n].terminator) ==> !Dominating(FlowOf(p), entry, n, s)
    ensures Local(p, live, n)
  {
    hide Dominating, Reach, Defines, UsesId, Targets;
    forall b: Node | b in live && Dominating(FlowOf(p), entry, n, b) ensures b == n {
      if b != n {
        var s := DominatesSuccessor(FlowOf(p), entry, n, b);
      }
    }
  }
}
