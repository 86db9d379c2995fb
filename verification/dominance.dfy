/** Dominance in a rooted graph without cycles.

    The same theory serves both directions: the forward flow graph, rooted at the entry block
    and numbered by the forward visit, and its mirror image, rooted at the exit block and
    numbered by the backward visit, where dominance is post-dominance. */
module Dominance {
  import opened Graphs

  /** A graph, its root, and a numbering that every edge descends. */
  datatype Flow = Flow(g: Graph, root: Node, num: seq<nat>)

  ghost predicate Live(f: Flow, x: Node) {
    Reach(f.g, f.root, x)
  }

  ghost predicate Ok(f: Flow) {
    && Descending(f.g, f.num)
    && f.root < |f.num|
    && (forall x: Node, y: Node :: Edge(f.g, x, y) ==> Live(f, x))
    && (forall x: Node, y: Node :: Live(f, x) && Live(f, y) && x < |f.num| && y < |f.num| && f.num[x] == f.num[y] ==>
          x == y)
  }

  /** `a` lies on every walk from the root to `b`. */
  ghost predicate Dom(f: Flow, a: Node, b: Node) {
    forall p: seq<Node> :: Path(f.g, p, f.root, b) ==> a in p
  }

  ghost predicate StrictDom(f: Flow, a: Node, b: Node) {
    a != b && Dom(f, a, b)
  }

  /** `d` is the closest strict dominator of `x`. */
  ghost predicate ImmediateDom(f: Flow, d: Node, x: Node) {
    && StrictDom(f, d, x)
    && forall a: Node :: StrictDom(f, a, x) ==> Dom(f, a, d)
  }

  /** The dominators of `m` are exactly the common dominators of `a` and `b`. */
  ghost predicate CommonDom(f: Flow, m: Node, a: Node, b: Node) {
    forall d: Node :: Dom(f, d, m) <==> Dom(f, d, a) && Dom(f, d, b)
  }

  // ---------------------------------------------------------------- basic facts

  lemma LiveInRange(f: Flow, x: Node)
    requires Live(f, x)
    ensures x < |f.g.succ| && f.root < |f.g.succ|
  {
    var p :| Path(f.g, p, f.root, x);
    PathLast(f.g, p, f.root, x);
  }

  lemma LiveEdge(f: Flow, x: Node, y: Node)
    requires Ok(f) && Edge(f.g, x, y)
    ensures Live(f, x) && Live(f, y)
  {
    ReachSnoc(f.g, f.root, x, y);
  }

  lemma NumbersDiffer(f: Flow, x: Node, y: Node)
    requires Ok(f) && Live(f, x) && Live(f, y) && x != y && x < |f.num| && y < |f.num|
    ensures f.num[x] != f.num[y]
  {}

  lemma LiveRoot(f: Flow)
    requires Ok(f)
    ensures Live(f, f.root)
  {
    ReachRefl(f.g, f.root);
  }

  lemma DomRefl(f: Flow, a: Node)
    ensures Dom(f, a, a)
  {
    forall p: seq<Node> | Path(f.g, p, f.root, a) ensures a in p {
      PathLast(f.g, p, f.root, a);
    }
  }

  lemma DomTrans(f: Flow, a: Node, b: Node, c: Node)
    requires Dom(f, a, b) && Dom(f, b, c)
    ensures Dom(f, a, c)
  {
    forall p: seq<Node> | Path(f.g, p, f.root, c) ensures a in p {
      var p1, p2 := PathSplit(f.g, p, f.root, c, b);
    }
  }

  lemma RootDominates(f: Flow, x: Node)
    ensures Dom(f, f.root, x)
  {
    forall p: seq<Node> | Path(f.g, p, f.root, x) ensures f.root in p {
      PathLast(f.g, p, f.root, x);
    }
  }

  /** A dominator of a live block is live and numbered no lower. */
  lemma DomNumber(f: Flow, a: Node, b: Node)
    requires Ok(f) && Live(f, b) && Dom(f, a, b)
    ensures Live(f, a) && Reach(f.g, a, b)
    ensures a < |f.num| && b < |f.num| && f.num[a] >= f.num[b]
    ensures a != b ==> f.num[a] > f.num[b]
  {
    var p :| Path(f.g, p, f.root, b);
    PathReach(f.g, p, f.root, b, a);
    ReachDescends(f.g, f.num, a, b);
  }

  lemma DomAntisym(f: Flow, a: Node, b: Node)
    requires Ok(f) && Live(f, b) && Dom(f, a, b) && Dom(f, b, a)
    ensures a == b
  {
    DomNumber(f, a, b);
    DomNumber(f, b, a);
  }

  /** A block strictly dominates another one just when it dominates all of its predecessors. */
  lemma StrictDomByPreds(f: Flow, a: Node, x: Node)
    requires Ok(f) && Live(f, x) && x != f.root
    ensures StrictDom(f, a, x) <==> forall y: Node :: Edge(f.g, y, x) ==> Dom(f, a, y)
  {
    if StrictDom(f, a, x) {
      forall y: Node | Edge(f.g, y, x) ensures Dom(f, a, y) {
        forall p: seq<Node> | Path(f.g, p, f.root, y) ensures a in p {
          PathSnoc(f.g, p, f.root, y, x);
          assert a in p + [x];
        }
      }
    }
    if forall y: Node :: Edge(f.g, y, x) ==> Dom(f, a, y) {
      forall p: seq<Node> | Path(f.g, p, f.root, x) ensures a in p {
        var q, y := PathLastEdge(f.g, p, f.root, x);
        assert Edge(f.g, y, x);
      }
      var p :| Path(f.g, p, f.root, x);
      var q, y := PathLastEdge(f.g, p, f.root, x);
      LiveEdge(f, y, x);
      DomNumber(f, a, y);
    }
  }

  lemma ImmediateDomUnique(f: Flow, d: Node, e: Node, x: Node)
    requires Ok(f) && Live(f, x) && ImmediateDom(f, d, x) && ImmediateDom(f, e, x)
    ensures d == e
  {
    DomNumber(f, d, x);
    DomNumber(f, e, x);
    DomAntisym(f, d, e);
  }

  // ---------------------------------------------------------------- immediate dominators

  /** Stepping the lower-numbered block up to its immediate dominator loses no common dominator. */
  lemma CommonDomStep(f: Flow, a: Node, b: Node, d: Node)
    requires Ok(f) && Live(f, a) && Live(f, b) && a != b
    requires a < |f.num| && b < |f.num| && f.num[a] < f.num[b]
    requires ImmediateDom(f, d, a)
    ensures forall e: Node :: Dom(f, e, a) && Dom(f, e, b) <==> Dom(f, e, d) && Dom(f, e, b)
  {
    forall e: Node
      ensures Dom(f, e, a) && Dom(f, e, b) <==> Dom(f, e, d) && Dom(f, e, b)
    {
      if Dom(f, e, a) && Dom(f, e, b) {
        if e == a { DomNumber(f, a, b); }
      }
      if Dom(f, e, d) { DomTrans(f, e, d, a); }
    }
  }

  /** The meet of the predecessors' dominators is the immediate dominator. */
  lemma MeetOfPreds(f: Flow, x: Node, m: Node)
    requires Ok(f) && Live(f, x) && x != f.root
    requires forall d: Node :: Dom(f, d, m) <==> forall y: Node :: Edge(f.g, y, x) ==> Dom(f, d, y)
    ensures ImmediateDom(f, m, x)
  {
    forall d: Node ensures Dom(f, d, m) <==> StrictDom(f, d, x) {
      StrictDomByPreds(f, d, x);
    }
    DomRefl(f, m);
  }

  /** Every live block other than the root has an immediate dominator, given one for each predecessor's chain. */
  lemma ImmediateDomLower(f: Flow, d: Node, x: Node)
    requires Ok(f) && Live(f, x) && ImmediateDom(f, d, x)
    ensures Live(f, d) && d < |f.num| && x < |f.num| && f.num[d] > f.num[x] && x != f.root
  {
    DomNumber(f, d, x);
    if x == f.root {
      RootDominates(f, d);
      DomNumber(f, x, d);
    }
  }
}
