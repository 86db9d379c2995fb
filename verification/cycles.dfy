/** Walks that may go round: what the forward graph tells of the graph with its back edges. */
module Cycles {
  import opened Graphs
  import opened Dominance

  /** Some walk leaves `x` and comes back to it. */
  ghost predicate OnCycle(w: Graph, x: Node) {
    exists y: Node :: Edge(w, x, y) && Reach(w, y, x)
  }

  /** An edge back to a block that is on every way to where it comes from. */
  ghost predicate GoesBack(f: Flow, w: Graph, x: Node, y: Node) {
    && x < |f.num| && y < |f.num| && f.num[x] <= f.num[y]
    && Live(f, y) && y != f.root && Dominating(w, f.root, y, x)
  }

  /** `w` is the reducible graph of which `f` is the forward part. */
  ghost predicate Backed(f: Flow, w: Graph) {
    && Ok(f) && |w.succ| == |f.g.succ|
    && (forall x: Node, y: Node :: Edge(f.g, x, y) ==> Edge(w, x, y))
    && (forall x: Node, y: Node :: Edge(w, x, y) && Live(f, x) && !Edge(f.g, x, y) ==> GoesBack(f, w, x, y))
  }

  lemma BackedEdge(f: Flow, w: Graph, x: Node, y: Node)
    requires Backed(f, w) && Edge(w, x, y) && Live(f, x)
    ensures Live(f, y) && (Edge(f.g, x, y) || GoesBack(f, w, x, y))
  {
    if Edge(f.g, x, y) {
      LiveEdge(f, x, y);
    }
  }

  /** A walk of the forward graph is one of the whole graph. */
  lemma {:induction false} WalkInWhole(f: Flow, w: Graph, p: seq<Node>, a: Node, b: Node)
    requires Backed(f, w) && Path(f.g, p, a, b)
    ensures Path(w, p, a, b)
    decreases |p|
  {
    if |p| > 1 {
      WalkInWhole(f, w, p[1..], p[1], b);
    }
  }

  lemma {:induction false} StaysLive(f: Flow, w: Graph, p: seq<Node>, a: Node, b: Node)
    requires Backed(f, w) && Path(w, p, a, b) && Live(f, a)
    ensures forall x: Node :: x in p ==> Live(f, x)
    decreases |p|
  {
    hide Backed, Live;
    if |p| > 1 {
      BackedEdge(f, w, a, p[1]);
      StaysLive(f, w, p[1..], p[1], b);
      assert p == [a] + p[1..];
    }
  }

  /** Whatever a walk from the root avoids, a forward walk to the same block avoids: no detour through a loop
      is needed. */
  lemma {:induction false} ForwardWalk(f: Flow, w: Graph, p: seq<Node>, b: Node, avoid: Node) returns (q: seq<Node>)
    requires Backed(f, w) && Path(w, p, f.root, b) && avoid !in p
    ensures Path(f.g, q, f.root, b) && avoid !in q && Live(f, b)
    decreases |p|
  {
    hide Backed;
    if |p| == 1 {
      AboutBacked(f, w);
      q := p;
    } else {
      var r, y := PathLastEdge(w, p, f.root, b);
      q := ForwardWalk(f, w, r, y, avoid);
      BackedEdge(f, w, y, b);
      if Edge(f.g, y, b) {
        LiveInRange(f, b);
        PathSnoc(f.g, q, f.root, y, b);
        q := q + [b];
      } else {
        var k :| 0 <= k < |r| && r[k] == b;
        PathPrefix(w, r, f.root, y, k);
        q := ForwardWalk(f, w, r[..k + 1], b, avoid);
      }
    }
  }

  lemma AboutBacked(f: Flow, w: Graph)
    requires Backed(f, w)
    ensures Ok(f) && |w.succ| == |f.g.succ| == |f.num|
  {}

  /** Dominance is the same with and without back edges. */
  lemma DominatesInWhole(f: Flow, w: Graph, a: Node, b: Node)
    requires Backed(f, w)
    ensures Dominating(w, f.root, a, b) <==> Dom(f, a, b)
  {
    hide Backed;
    if Dom(f, a, b) {
      forall p: seq<Node> | Path(w, p, f.root, b) ensures a in p {
        if a !in p {
          var q := ForwardWalk(f, w, p, b, a);
        }
      }
    }
    if Dominating(w, f.root, a, b) {
      forall p: seq<Node> | Path(f.g, p, f.root, b) ensures a in p {
        WalkInWhole(f, w, p, f.root, b);
      }
    }
  }

  /** A later block of a walk is reached by way of the next one. */
  lemma LaterReached(w: Graph, p: seq<Node>, a: Node, b: Node, j: nat, k: nat)
    requires Path(w, p, a, b) && j < k < |p|
    ensures Edge(w, p[j], p[j + 1]) && Reach(w, p[j + 1], p[k])
  {
    PathPrefix(w, p, a, b, k);
    var p' := p[..k + 1];
    PathSuffix(w, p', a, p[k], j);
    assert p'[j..][1] == p[j + 1];
    PathSuffix(w, p', a, p[k], j + 1);
    assert p'[j + 1] == p[j + 1];
  }

  /** A walk meets a block again, or one that leads to it, only if the block is on a cycle. */
  lemma MetAgain(w: Graph, p: seq<Node>, a: Node, b: Node, x: Node, k: nat)
    requires Path(w, p, a, b) && k < |p| && x in p[..k] && Reach(w, p[k], x)
    ensures OnCycle(w, x)
  {
    var j :| 0 <= j < k && p[j] == x;
    LaterReached(w, p, a, b, j, k);
    ReachTrans(w, p[j + 1], p[k], x);
  }

  lemma Highest(f: Flow, p: seq<Node>) returns (h: Node)
    requires p != [] && forall z: Node :: z in p ==> z < |f.num|
    ensures h in p && forall z: Node :: z in p ==> f.num[z] <= f.num[h]
    decreases |p|
  {
    h := p[0];
    if |p| > 1 {
      var rest := p[1..];
      assert p == [p[0]] + rest;
      forall z: Node | z in rest ensures z < |f.num| {
        assert z in p;
      }
      var h' := Highest(f, rest);
      assert h in p && h' in p;
      if f.num[h'] > f.num[h] {
        h := h';
      }
    }
  }

  /** Where a walk first arrives at `h` after its start. */
  lemma FirstArrival(w: Graph, p: seq<Node>, a: Node, b: Node, h: Node) returns (k: nat)
    requires Path(w, p, a, b) && |p| > 1 && h in p[1..]
    ensures 0 < k < |p| && p[k] == h && h !in p[1..k] && Edge(w, p[k - 1], h) && Path(w, p[..k], a, p[k - 1])
  {
    k := 1;
    while p[k] != h
      invariant 0 < k < |p| && h !in p[1..k] && h in p[k..]
      decreases |p| - k
    {
      assert p[k..] == [p[k]] + p[k + 1..] && p[1..k + 1] == p[1..k] + [p[k]];
      k := k + 1;
    }
    LaterReached(w, p, a, b, k - 1, k);
    PathPrefix(w, p, a, b, k - 1);
  }

  /** A block on a cycle is below the header of a loop whose back edge starts at that block or cannot reach it
      any more. */
  lemma {:induction false} HeaderAbove(f: Flow, w: Graph, p: seq<Node>, x: Node, bound: nat) returns (h: Node, y: Node)
    requires Backed(f, w) && Live(f, x) && Path(w, p, x, x) && |p| > 1
    requires forall z: Node :: z in p ==> z < |f.num| && f.num[z] < bound
    ensures Dom(f, h, x) && Edge(w, y, h) && !Edge(f.g, y, h) && Live(f, y) && (y == x || !Reach(f.g, y, x))
    ensures Reach(w, x, h)
    decreases bound
  {
    hide Backed, Dom, Live, Path, Reach, Dominating;
    AboutBacked(f, w);
    StaysLive(f, w, p, x, x);
    PathEnds(w, p, x, x);
    h := Highest(f, p);
    PathReach(w, p, x, x, h);
    var k := FirstArrival(w, p, x, x, h);
    y := p[k - 1];
    if Edge(f.g, y, h) {
      EdgeGoesDown(f, y, h);
      assert false;
    }
    BackedEdge(f, w, y, h);
    if h == x {
      DomRefl(f, x);
      if y != x && Reach(f.g, y, x) {
        ReachDescends(f.g, f.num, y, x);
        assert false;
      }
    } else {
      assert h !in p[..k] by { assert p[..k] == [p[0]] + p[1..k]; }
      HeaderDominates(f, w, p[..k], h, x, y);
      if y != x && Reach(f.g, y, x) {
        InPrefix(p, k);
        var p' := GoRound(f, w, p[..k], x, y, h);
        h, y := HeaderAbove(f, w, p', x, f.num[h]);
      }
    }
  }

  lemma InPrefix(p: seq<Node>, k: nat)
    requires k <= |p|
    ensures forall z: Node :: z in p[..k] ==> z in p
  {}

  lemma PathEnds(w: Graph, p: seq<Node>, a: Node, b: Node)
    requires Path(w, p, a, b)
    ensures p != [] && p[0] == a && p[|p| - 1] == b && (|p| > 1 && a == b ==> forall x: Node :: x in p ==> x in p[1..])
  {
    PathLast(w, p, a, b);
    assert |p| > 1 ==> p == [p[0]] + p[1..] && p[1..][|p| - 2] == b;
  }

  lemma EdgeGoesDown(f: Flow, x: Node, y: Node)
    requires Ok(f) && Edge(f.g, x, y)
    ensures x < |f.num| && y < |f.num| && f.num[x] > f.num[y]
  {}

  lemma HeaderDominates(f: Flow, w: Graph, p: seq<Node>, h: Node, x: Node, y: Node)
    requires Backed(f, w) && Path(w, p, x, y) && h !in p && Dominating(w, f.root, h, y)
    ensures Dom(f, h, x)
  {
    forall r: seq<Node> | Path(w, r, f.root, x) ensures h in r {
      PathJoin(w, r, f.root, x, p, y);
      assert h in r + p[1..];
    }
    DominatesInWhole(f, w, h, x);
  }

  /** Below its header, a loop closes without it. */
  lemma GoRound(f: Flow, w: Graph, p: seq<Node>, x: Node, y: Node, h: Node) returns (p': seq<Node>)
    requires Backed(f, w) && Path(w, p, x, y) && h !in p && x != y && Reach(f.g, y, x)
    requires h < |f.num| && Live(f, h) && Live(f, y)
    requires forall z: Node :: z in p ==> z < |f.num| && Live(f, z) && f.num[z] <= f.num[h]
    ensures Path(w, p', x, x) && |p'| > 1 && forall z: Node :: z in p' ==> z < |f.num| && f.num[z] < f.num[h]
  {
    var q :| Path(f.g, q, y, x);
    PathDescends(f.g, f.num, q, y, x);
    PathLast(w, p, x, y);
    WalkInWhole(f, w, q, y, x);
    PathJoin(w, p, x, y, q, x);
    p' := p + q[1..];
    assert f.num[y] != f.num[h];
    forall z: Node | z in p' ensures z < |f.num| && f.num[z] < f.num[h] {
      if z in p {
        assert z != h;
        NumbersDiffer(f, z, h);
      }
    }
  }

  lemma CycleWalk(w: Graph, x: Node) returns (p: seq<Node>)
    requires OnCycle(w, x)
    ensures Path(w, p, x, x) && |p| > 1
  {
    var y: Node :| Edge(w, x, y) && Reach(w, y, x);
    var q :| Path(w, q, y, x);
    PathCons(w, x, q, y, x);
    p := [x] + q;
  }

  /** The header of a loop that a block on a cycle is in. */
  lemma LoopHeader(f: Flow, w: Graph, x: Node) returns (h: Node, y: Node)
    requires Backed(f, w) && Live(f, x) && OnCycle(w, x)
    ensures Dom(f, h, x) && Edge(w, y, h) && !Edge(f.g, y, h) && Live(f, y) && (y == x || !Reach(f.g, y, x))
    ensures Reach(w, x, h)
  {
    hide Dom, Reach, Backed;
    var p := CycleWalk(w, x);
    StaysLive(f, w, p, x, x);
    AboutBacked(f, w);
    forall z: Node | z in p ensures z < |f.num| {
      LiveInRange(f, z);
    }
    var top := Highest(f, p);
    h, y := HeaderAbove(f, w, p, x, f.num[top] + 1);
  }

  /** If every back edge to a header above `x` starts elsewhere and still reaches `x`, then `x` is on no cycle. */
  lemma NotInLoop(f: Flow, w: Graph, x: Node)
    requires Backed(f, w) && Live(f, x)
    requires forall h: Node, y: Node :: Dom(f, h, x) && Edge(w, y, h) && Live(f, y) && !Edge(f.g, y, h) ==>
               y != x && Reach(f.g, y, x)
    ensures !OnCycle(w, x)
  {
    if OnCycle(w, x) {
      var h, y := LoopHeader(f, w, x);
      assert false;
    }
  }
}
