/** Directed graphs over pool indices, and paths in them.

    A node pointer of the structurizer is an index into its node pool; a `Graph` is the
    successor column of that pool. Everything the analyses compute (reachability, dominance,
    frontiers, loop bodies) is defined here, or in the modules above, by quantifying over
    these paths. */
module Graphs {
  type Node = nat

  datatype Graph = Graph(succ: seq<seq<Node>>)

  predicate Edge(g: Graph, x: Node, y: Node) {
    x < |g.succ| && y in g.succ[x]
  }

  /** Every branch target is a node of the pool. */
  ghost predicate Closed(g: Graph) {
    forall x: Node :: x < |g.succ| ==> InRange(g.succ[x], |g.succ|)
  }

  ghost predicate InRange(xs: seq<Node>, n: nat) {
    forall i :: 0 <= i < |xs| ==> xs[i] < n
  }

  /** `p` lists the blocks of a walk from `a` to `b`, both included. */
  ghost predicate Path(g: Graph, p: seq<Node>, a: Node, b: Node) {
    && |p| > 0
    && p[0] == a
    && if |p| == 1 then a == b && a < |g.succ| else Edge(g, a, p[1]) && Path(g, p[1..], p[1], b)
  }

  ghost predicate Reach(g: Graph, a: Node, b: Node) {
    exists p: seq<Node> :: Path(g, p, a, b)
  }

  /** Some walk from `a` to `b` never enters `c`. */
  ghost predicate ReachAvoiding(g: Graph, a: Node, b: Node, c: Node) {
    exists p: seq<Node> :: Path(g, p, a, b) && c !in p
  }

  /** A block that control flow cannot leave: a return, a kill, an unreachable. */
  predicate Leaf(g: Graph, x: Node) {
    x < |g.succ| && g.succ[x] == []
  }

  /** Every edge leads to a smaller number, so the graph has no cycle. */
  ghost predicate Descending(g: Graph, num: seq<nat>) {
    && |num| == |g.succ|
    && Closed(g)
    && forall x: Node, y: Node :: Edge(g, x, y) ==> num[x] > num[y]
  }

  // ---------------------------------------------------------------- paths

  lemma PathLast(g: Graph, p: seq<Node>, a: Node, b: Node)
    requires Path(g, p, a, b)
    ensures p[|p| - 1] == b && a < |g.succ| && b < |g.succ|
    ensures a in p && b in p
  {
    if |p| > 1 {
      PathLast(g, p[1..], p[1], b);
    }
  }

  lemma PathCons(g: Graph, a: Node, p: seq<Node>, s: Node, b: Node)
    requires Edge(g, a, s) && Path(g, p, s, b)
    ensures Path(g, [a] + p, a, b)
  {
    assert ([a] + p)[1..] == p;
  }

  lemma {:induction false} PathJoin(g: Graph, p: seq<Node>, a: Node, b: Node, q: seq<Node>, c: Node)
    requires Path(g, p, a, b) && Path(g, q, b, c)
    ensures Path(g, p + q[1..], a, c)
    ensures forall x :: x in p + q[1..] <==> x in p || x in q
    decreases |p|
  {
    PathLast(g, p, a, b);
    assert q == [b] + q[1..];
    if |p| == 1 {
      assert p + q[1..] == q;
    } else {
      PathJoin(g, p[1..], p[1], b, q, c);
      assert p == [a] + p[1..];
      PathCons(g, a, p[1..] + q[1..], p[1], c);
      assert p + q[1..] == [a] + (p[1..] + q[1..]);
    }
  }

  lemma PathSnoc(g: Graph, p: seq<Node>, a: Node, b: Node, c: Node)
    requires Path(g, p, a, b) && Edge(g, b, c) && c < |g.succ|
    ensures Path(g, p + [c], a, c)
  {
    var q := [b, c];
    assert q[1..] == [c];
    assert Path(g, [c], c, c);
    assert Path(g, q, b, c);
    PathJoin(g, p, a, b, q, c);
  }

  /** The part of a walk from its i-th block on. */
  lemma {:induction false} PathSuffix(g: Graph, p: seq<Node>, a: Node, b: Node, i: nat)
    requires Path(g, p, a, b) && i < |p|
    ensures Path(g, p[i..], p[i], b)
    decreases i
  {
    if i > 0 {
      PathSuffix(g, p[1..], p[1], b, i - 1);
      assert p[1..][i - 1..] == p[i..];
    } else {
      assert p[0..] == p;
    }
  }

  /** The part of a walk up to its i-th block. */
  lemma {:induction false} PathPrefix(g: Graph, p: seq<Node>, a: Node, b: Node, i: nat)
    requires Path(g, p, a, b) && i < |p|
    ensures Path(g, p[..i + 1], a, p[i])
    decreases i
  {
    if i == 0 {
      PathLast(g, p, a, b);
      assert p[..1] == [a];
    } else {
      PathPrefix(g, p[1..], p[1], b, i - 1);
      PathCons(g, a, p[1..][..i], p[1], p[i]);
      assert p[..i + 1] == [a] + p[1..][..i];
    }
  }

  /** A walk through `c` is a walk to `c` followed by a walk from `c`. */
  lemma PathSplit(g: Graph, p: seq<Node>, a: Node, b: Node, c: Node) returns (p1: seq<Node>, p2: seq<Node>)
    requires Path(g, p, a, b) && c in p
    ensures Path(g, p1, a, c) && Path(g, p2, c, b)
    ensures forall x :: x in p1 || x in p2 ==> x in p
  {
    var i :| 0 <= i < |p| && p[i] == c;
    PathPrefix(g, p, a, b, i);
    PathSuffix(g, p, a, b, i);
    p1, p2 := p[..i + 1], p[i..];
  }

  lemma PathReach(g: Graph, p: seq<Node>, a: Node, b: Node, x: Node)
    requires Path(g, p, a, b) && x in p
    ensures Reach(g, a, x) && Reach(g, x, b)
  {
    var p1, p2 := PathSplit(g, p, a, b, x);
  }

  /** The last step of a walk between different blocks. */
  lemma PathLastEdge(g: Graph, p: seq<Node>, a: Node, b: Node) returns (q: seq<Node>, x: Node)
    requires Path(g, p, a, b) && |p| > 1
    ensures Path(g, q, a, x) && Edge(g, x, b) && p == q + [b]
  {
    var n := |p|;
    q, x := p[..n - 1], p[n - 2];
    PathPrefix(g, p, a, b, n - 2);
    PathSuffix(g, p, a, b, n - 2);
    assert p[n - 2..][1..] == p[n - 1..];
    PathLast(g, p, a, b);
  }

  // ---------------------------------------------------------------- reachability

  lemma ReachRefl(g: Graph, a: Node)
    requires a < |g.succ|
    ensures Reach(g, a, a)
  {
    assert Path(g, [a], a, a);
  }

  lemma ReachTrans(g: Graph, a: Node, b: Node, c: Node)
    requires Reach(g, a, b) && Reach(g, b, c)
    ensures Reach(g, a, c)
  {
    var p :| Path(g, p, a, b);
    var q :| Path(g, q, b, c);
    PathJoin(g, p, a, b, q, c);
  }

  lemma ReachEdge(g: Graph, a: Node, s: Node, b: Node)
    requires Edge(g, a, s) && Reach(g, s, b)
    ensures Reach(g, a, b)
  {
    var p :| Path(g, p, s, b);
    PathCons(g, a, p, s, b);
  }

  lemma ReachSnoc(g: Graph, a: Node, b: Node, c: Node)
    requires Reach(g, a, b) && Edge(g, b, c) && c < |g.succ|
    ensures Reach(g, a, c)
  {
    var p :| Path(g, p, a, b);
    PathSnoc(g, p, a, b, c);
  }

  lemma ReachFirst(g: Graph, a: Node, b: Node) returns (s: Node)
    requires Reach(g, a, b) && a != b
    ensures Edge(g, a, s) && Reach(g, s, b)
  {
    var p :| Path(g, p, a, b);
    s := p[1];
    assert Path(g, p[1..], s, b);
  }

  /** On a numbered graph a walk goes down: it repeats nothing, and only stays put if it is trivial. */
  lemma {:induction false} PathDescends(g: Graph, num: seq<nat>, p: seq<Node>, a: Node, b: Node)
    requires Descending(g, num) && Path(g, p, a, b)
    ensures a < |num| && b < |num| && num[a] >= num[b]
    ensures |p| > 1 ==> num[a] > num[b]
    ensures forall x :: x in p ==> x < |num| && num[a] >= num[x] >= num[b] && (num[x] == num[a] ==> x == a)
    decreases |p|
  {
    if |p| > 1 {
      PathDescends(g, num, p[1..], p[1], b);
      assert p == [a] + p[1..];
    }
  }

  lemma ReachDescends(g: Graph, num: seq<nat>, a: Node, b: Node)
    requires Descending(g, num) && Reach(g, a, b)
    ensures a < |num| && b < |num|
    ensures num[a] >= num[b]
    ensures a != b ==> num[a] > num[b]
  {
    var p :| Path(g, p, a, b);
    PathDescends(g, num, p, a, b);
  }

  /** On a finite graph without cycles every block can run to a leaf. */
  lemma {:induction false} ReachesLeaf(g: Graph, num: seq<nat>, x: Node) returns (p: seq<Node>, l: Node)
    requires Descending(g, num) && x < |num|
    ensures Path(g, p, x, l) && Leaf(g, l)
    decreases num[x]
  {
    if g.succ[x] == [] {
      p, l := [x], x;
    } else {
      var s := g.succ[x][0];
      assert Edge(g, x, s);
      p, l := ReachesLeaf(g, num, s);
      PathCons(g, x, p, s, l);
      p := [x] + p;
    }
  }

  /** A walk avoiding `c`, one edge at a time. */
  lemma AvoidingEdge(g: Graph, a: Node, s: Node, b: Node, c: Node)
    requires Edge(g, a, s) && ReachAvoiding(g, s, b, c) && a != c
    ensures ReachAvoiding(g, a, b, c)
  {
    var p :| Path(g, p, s, b) && c !in p;
    PathCons(g, a, p, s, b);
    assert c !in [a] + p;
  }

  lemma AvoidingJoin(g: Graph, a: Node, b: Node, c: Node, avoid: Node)
    requires ReachAvoiding(g, a, b, avoid) && ReachAvoiding(g, b, c, avoid)
    ensures ReachAvoiding(g, a, c, avoid)
  {
    var p :| Path(g, p, a, b) && avoid !in p;
    var q :| Path(g, q, b, c) && avoid !in q;
    PathJoin(g, p, a, b, q, c);
    assert avoid !in p + q[1..];
  }

  // ---------------------------------------------------------------- dominance on any graph

  /** `a` lies on every walk from `entry` to `b`. */
  ghost predicate Dominating(w: Graph, entry: Node, a: Node, b: Node) {
    forall p: seq<Node> :: Path(w, p, entry, b) ==> a in p
  }

  lemma DominatesItself(w: Graph, entry: Node, b: Node)
    ensures Dominating(w, entry, b, b)
  {
    forall r: seq<Node> | Path(w, r, entry, b) ensures b in r {
      PathLast(w, r, entry, b);
    }
  }

  /** The part of a walk after its last visit to its first block. */
  lemma {:induction false} AfterLastVisit(w: Graph, p: seq<Node>, n: Node, b: Node) returns (q: seq<Node>)
    requires Path(w, p, n, b)
    ensures Path(w, q, n, b) && n !in q[1..]
    decreases |p|
  {
    if i :| 0 < i < |p| && p[i] == n {
      PathSuffix(w, p, n, b, i);
      q := AfterLastVisit(w, p[i..], n, b);
    } else {
      q := p;
    }
  }
}
