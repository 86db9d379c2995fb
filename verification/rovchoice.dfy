/** One lock for the whole shader: the two places that are chosen, in terms of the function as it comes. */
module RovChoice {
  import opened Wrappers
  import opened Graphs
  import opened Lists
  import opened IR
  import opened Dominance
  import opened FlowGraph
  import opened Backwards
  import opened RovRuns

  // ---------------------------------------------------------------- the accesses

  /** The blocks that take the lock, last first. */
  function RovBlocks(blocks: seq<IRBlock>, order: seq<Node>): seq<Node> {
    if order == [] then [] else (if Locks(blocks, order[0]) then [order[0]] else []) + RovBlocks(blocks, order[1..])
  }

  lemma {:induction false} RovBlocksMembers(blocks: seq<IRBlock>, order: seq<Node>, x: Node)
    ensures x in RovBlocks(blocks, order) <==> x in order && Locks(blocks, x)
  {
    if order != [] {
      RovBlocksMembers(blocks, order[1..], x);
      assert order == [order[0]] + order[1..];
    }
  }

  lemma {:induction false} RovBlocksDistinct(blocks: seq<IRBlock>, order: seq<Node>)
    requires Distinct(order)
    ensures Distinct(RovBlocks(blocks, order))
  {
    if order != [] {
      DistinctSlice(order, 1, |order|);
      assert order[1..|order|] == order[1..] && order[..1] == [order[0]];
      RovBlocksDistinct(blocks, order[1..]);
      RovBlocksMembers(blocks, order[1..], order[0]);
      DistinctByPairs([order[0]]);
      if Locks(blocks, order[0]) {
        DistinctConcat([order[0]], RovBlocks(blocks, order[1..]));
      } else {
        assert [] + RovBlocks(blocks, order[1..]) == RovBlocks(blocks, order[1..]);
      }
    }
  }

  lemma {:induction false} RovBlocksSnoc(blocks: seq<IRBlock>, order: seq<Node>, x: Node)
    ensures RovBlocks(blocks, order + [x]) == RovBlocks(blocks, order) + if Locks(blocks, x) then [x] else []
  {
    if order == [] {
      assert [] + [x] == [x] && [x][1..] == [];
    } else {
      assert (order + [x])[1..] == order[1..] + [x];
      RovBlocksSnoc(blocks, order[1..], x);
    }
  }

  // ---------------------------------------------------------------- before and behind all accesses

  /** `e` is on every complete run, before every access. */
  ghost predicate Enters(f: Flow, xs: seq<Node>, e: Node) {
    PostDom(f.g, e, f.root) && forall i :: 0 <= i < |xs| ==> Dom(f, e, xs[i])
  }

  /** `idom`, stretched until it is on every run; it is the closest such block. */
  ghost predicate ClosestEntry(f: Flow, xs: seq<Node>, m: Node) {
    Enters(f, xs, m) && forall e: Node :: Enters(f, xs, e) ==> Dom(f, e, m)
  }

  /** Every complete run from any of `xs` comes to `e`. */
  ghost predicate BehindAll(f: Flow, xs: seq<Node>, e: Node) {
    forall k :: 0 <= k < |xs| ==> PostDom(f.g, e, xs[k])
  }

  /** The closest such block. */
  ghost predicate ClosestExit(f: Flow, xs: seq<Node>, d: Node) {
    forall e: Node :: PostDom(f.g, e, d) <==> BehindAll(f, xs, e)
  }

  // ---------------------------------------------------------------- loops

  /** The edge from `y` to `h` goes back: `f` is the forward part of `g`. */
  ghost predicate Turns(f: Flow, g: Graph, y: Node, h: Node) {
    Live(f, y) && Edge(g, y, h) && !Edge(f.g, y, h)
  }

  /** A loop header above `x` whose back edge starts elsewhere and still leads to `x` does not hold the walk up. */
  ghost predicate Skipped(f: Flow, g: Graph, x: Node, h: Node) {
    forall y: Node :: Turns(f, g, y, h) ==> y != x && Reach(f.g, y, x)
  }

  /** The closest dominator of `x` that is a header and is not skipped, unless `header` or the entry block
      come first. */
  ghost predicate InnermostHeader(f: Flow, g: Graph, header: Node, x: Node, h: Node) {
    && Dom(f, h, x) && (h == header || h == f.root || !Skipped(f, g, x, h))
    && forall e: Node :: Dom(f, e, x) && !Dom(f, e, h) ==> e != header && Skipped(f, g, x, e)
  }

  /** From header to header upwards: each of `hs`, of which the last is `o`, is the innermost one above the
      one before. */
  ghost predicate HeadersFrom(f: Flow, g: Graph, h: Node, hs: seq<Node>, o: Node)
    decreases |hs|
  {
    if hs == [] then o == h
    else
      && hs[0] != f.root && HeadersFrom(f, g, hs[0], hs[1..], o)
      && exists d: Node :: ImmediateDom(f, d, h) && InnermostHeader(f, g, f.root, d, hs[0])
  }

  /** And there is none above `o`. */
  ghost predicate HeadersUp(f: Flow, g: Graph, h: Node, hs: seq<Node>, o: Node) {
    HeadersFrom(f, g, h, hs, o) && exists d: Node :: ImmediateDom(f, d, o) && InnermostHeader(f, g, f.root, d, f.root)
  }

  /** The outermost loop header above `x`, or the entry block if there is none. */
  ghost predicate OutermostHeader(f: Flow, g: Graph, x: Node, o: Node) {
    if InnermostHeader(f, g, f.root, x, f.root) then o == f.root
    else exists h: Node, hs: seq<Node> :: InnermostHeader(f, g, f.root, x, h) && HeadersUp(f, g, h, hs, o)
  }

  /** `x` is below the header, and control can get from it to the header's back edge. */
  ghost predicate InLoop(f: Flow, g: Graph, h: Node, x: Node) {
    Dom(f, h, x) && exists y: Node :: Turns(f, g, y, h) && Reach(f.g, x, y)
  }

  /** All that `i` leads to, also through loops, is below it. */
  ghost predicate Encloses(f: Flow, g: Graph, i: Node) {
    forall z: Node :: Reach(g, i, z) ==> Dom(f, i, z)
  }

  /** No header lies between the two blocks, these included. */
  ghost predicate NoHeaderBetween(f: Flow, g: Graph, i: Node, d: Node) {
    forall h: Node, y: Node :: Dom(f, i, h) && Dom(f, h, d) ==> !Turns(f, g, y, h)
  }

  /** The way from `e` to where it ends is on no loop. */
  ghost predicate PassedOnce(f: Flow, g: Graph, e: Node, p: Node) {
    && Encloses(f, g, e)
    && exists exit: Node :: ClosestExit(f, [p, e], exit) && Dom(f, e, exit) && NoHeaderBetween(f, g, e, exit)
  }

  ghost predicate OnlyWayIn(f: Flow, h: Node, i: Node) {
    forall y: Node :: Edge(f.g, y, h) <==> y == i
  }

  // ---------------------------------------------------------------- the choice

  /** What is bracketed, if `o` is the outermost header above the closest entry `e`: without a loop, from `e` to the
      closest exit `p`; around the loop, if all accesses are in it, it has one merge block, and a plain branch is the
      only way in; or else from `e` to `p` if that is passed once. */
  ghost predicate ChosenAt(f: Flow, g: Graph, blocks: seq<IRBlock>, merges: Node -> Option<Node>, xs: seq<Node>,
                           o: Node, e: Node, p: Node, i: Node, q: Node) {
    if o == f.root then i == e && q == p
    else if forall k :: 0 <= k < |xs| ==> InLoop(f, g, o, xs[k]) then
      merges(o) == Some(q) && OnlyWayIn(f, o, i) && i < |blocks| && blocks[i].terminator.Branch?
    else i == e && q == p && PassedOnce(f, g, e, p)
  }

  ghost predicate Chosen(f: Flow, g: Graph, blocks: seq<IRBlock>, merges: Node -> Option<Node>, xs: seq<Node>, e: Node,
                         p: Node, i: Node, q: Node) {
    exists o: Node :: OutermostHeader(f, g, e, o) && ChosenAt(f, g, blocks, merges, xs, o, e, p, i, q)
  }

  ghost predicate NoneChosen(f: Flow, g: Graph, blocks: seq<IRBlock>, merges: Node -> Option<Node>, xs: seq<Node>,
                             e: Node, p: Node) {
    forall i: Node, q: Node :: !Chosen(f, g, blocks, merges, xs, e, p, i, q)
  }

  ghost predicate AcceptsFrom(f: Flow, g: Graph, blocks: seq<IRBlock>, merges: Node -> Option<Node>, xs: seq<Node>,
                              e: Node, p: Node, q: Node, i: Node, d: Node) {
    && ClosestEntry(f, xs, e) && ClosestExit(f, xs, p) && Chosen(f, g, blocks, merges, xs, e, p, i, q)
    && Dom(f, i, q) && ClosestExit(f, [i, q], d)
  }

  /** The lock is taken in `i` and released in `d`. */
  ghost predicate Accepts(f: Flow, g: Graph, blocks: seq<IRBlock>, merges: Node -> Option<Node>, xs: seq<Node>, i: Node,
                          d: Node) {
    exists e: Node, p: Node, q: Node :: AcceptsFrom(f, g, blocks, merges, xs, e, p, q, i, d)
  }

  // ---------------------------------------------------------------- there is one choice at most

  lemma InnermostUnique(f: Flow, g: Graph, header: Node, x: Node, h: Node, h': Node)
    requires Ok(f) && Live(f, x) && InnermostHeader(f, g, header, x, h) && InnermostHeader(f, g, header, x, h')
    ensures h == h' && Live(f, h)
  {
    hide Dom, Skipped, Live;
    RootDominates(f, h);
    RootDominates(f, h');
    assert Dom(f, h, h') && Dom(f, h', h);
    DomNumber(f, h, x);
    DomNumber(f, h', x);
    DomAntisym(f, h, h');
  }

  lemma {:induction false} HeadersMore(f: Flow, g: Graph, h: Node, hs: seq<Node>, o: Node, d: Node, n: Node)
    requires HeadersFrom(f, g, h, hs, o) && ImmediateDom(f, d, o) && InnermostHeader(f, g, f.root, d, n) && n != f.root
    ensures HeadersFrom(f, g, h, hs + [n], n)
    decreases |hs|
  {
    hide InnermostHeader, ImmediateDom;
    if hs == [] {
      assert hs + [n] == [n] && [n][1..] == [];
      assert HeadersFrom(f, g, n, [], n);
    } else {
      assert (hs + [n])[1..] == hs[1..] + [n];
      HeadersMore(f, g, hs[0], hs[1..], o, d, n);
    }
  }

  lemma {:induction false} HeadersUpUnique(f: Flow, g: Graph, h: Node, hs: seq<Node>, o: Node, hs': seq<Node>, o': Node)
    requires Ok(f) && Live(f, h) && HeadersUp(f, g, h, hs, o) && HeadersUp(f, g, h, hs', o')
    ensures o == o'
    decreases |hs|
  {
    hide Live, InnermostHeader, ImmediateDom;
    var d, n := FirstHeader(f, g, h, hs, o);
    var d', n' := FirstHeader(f, g, h, hs', o');
    ImmediateDomUnique(f, d, d', h);
    ImmediateDomLower(f, d, h);
    InnermostUnique(f, g, f.root, d, n, n');
    if hs != [] {
      HeadersUpUnique(f, g, hs[0], hs[1..], o, hs'[1..], o');
    }
  }

  lemma FirstHeader(f: Flow, g: Graph, h: Node, hs: seq<Node>, o: Node) returns (d: Node, n: Node)
    requires HeadersUp(f, g, h, hs, o)
    ensures ImmediateDom(f, d, h) && InnermostHeader(f, g, f.root, d, n)
    ensures if hs == [] then n == f.root && o == h else n == hs[0] != f.root && HeadersUp(f, g, n, hs[1..], o)
  {
    hide InnermostHeader, ImmediateDom;
    n := if hs == [] then f.root else hs[0];
    d :| ImmediateDom(f, d, h) && InnermostHeader(f, g, f.root, d, n);
  }

  lemma OutermostUnique(f: Flow, g: Graph, x: Node, o: Node, o': Node)
    requires Ok(f) && Live(f, x) && OutermostHeader(f, g, x, o) && OutermostHeader(f, g, x, o')
    ensures o == o'
  {
    hide Live, InnermostHeader, HeadersUp;
    if !InnermostHeader(f, g, f.root, x, f.root) {
      var h: Node, hs: seq<Node> :| InnermostHeader(f, g, f.root, x, h) && HeadersUp(f, g, h, hs, o);
      var h': Node, hs': seq<Node> :| InnermostHeader(f, g, f.root, x, h') && HeadersUp(f, g, h', hs', o');
      InnermostUnique(f, g, f.root, x, h, h');
      HeadersUpUnique(f, g, h, hs, o, hs', o');
    }
  }

  /** If the walk ends at the entry block, there is no header above. */
  lemma RootOutermost(f: Flow, g: Graph, x: Node)
    requires Ok(f) && Live(f, f.root) && OutermostHeader(f, g, x, f.root)
    ensures InnermostHeader(f, g, f.root, x, f.root)
  {
    hide Live, InnermostHeader, HeadersFrom;
    if !InnermostHeader(f, g, f.root, x, f.root) {
      var h: Node, hs: seq<Node> :| InnermostHeader(f, g, f.root, x, h) && HeadersUp(f, g, h, hs, f.root);
      var d: Node :| ImmediateDom(f, d, f.root) && InnermostHeader(f, g, f.root, d, f.root);
      ImmediateDomLower(f, d, f.root);
    }
  }

  lemma ClosestEntryUnique(f: Flow, xs: seq<Node>, e: Node, e': Node)
    requires Ok(f) && xs != [] && Live(f, xs[0]) && ClosestEntry(f, xs, e) && ClosestEntry(f, xs, e')
    ensures e == e' && Live(f, e)
  {
    hide Live, Dom, PostDom;
    DomNumber(f, e, xs[0]);
    DomNumber(f, e', xs[0]);
    DomAntisym(f, e, e');
  }

  lemma ClosestExitUnique(f: Flow, order: seq<Node>, xs: seq<Node>, d: Node, d': Node)
    requires Numbered(f, order) && xs != [] && xs[0] in order && ClosestExit(f, xs, d) && ClosestExit(f, xs, d')
    ensures d == d' && d in order
  {
    hide Numbered, PostDom;
    PostDomRefl(f.g, d);
    PostDomRefl(f.g, d');
    PostDomReached(f, order, d, xs[0]);
    PostDomReached(f, order, d', xs[0]);
    PostDomReached(f, order, d, d');
    PostDomReached(f, order, d', d);
  }

  lemma NoClosestExit(f: Flow, xs: seq<Node>)
    requires forall e: Node :: !BehindAll(f, xs, e)
    ensures forall d: Node :: !ClosestExit(f, xs, d)
  {
    hide PostDom, BehindAll;
    forall d: Node ensures !ClosestExit(f, xs, d) {
      PostDomRefl(f.g, d);
    }
  }

  lemma PassedOnceIs(f: Flow, g: Graph, order: seq<Node>, e: Node, p: Node, exit: Node)
    requires Numbered(f, order) && p in order && ClosestExit(f, [p, e], exit)
    ensures PassedOnce(f, g, e, p) <==> Encloses(f, g, e) && Dom(f, e, exit) && NoHeaderBetween(f, g, e, exit)
  {
    hide Numbered, ClosestExit, Encloses, Dom, NoHeaderBetween;
    if PassedOnce(f, g, e, p) {
      var x: Node :| ClosestExit(f, [p, e], x) && Dom(f, e, x) && NoHeaderBetween(f, g, e, x);
      ClosestExitUnique(f, order, [p, e], x, exit);
    }
  }

  lemma ChosenIsAt(f: Flow, g: Graph, blocks: seq<IRBlock>, merges: Node -> Option<Node>, xs: seq<Node>, o: Node,
                   e: Node, p: Node, i: Node, q: Node)
    requires Ok(f) && Live(f, e) && OutermostHeader(f, g, e, o)
    ensures Chosen(f, g, blocks, merges, xs, e, p, i, q) <==> ChosenAt(f, g, blocks, merges, xs, o, e, p, i, q)
  {
    hide Live, OutermostHeader, ChosenAt;
    if Chosen(f, g, blocks, merges, xs, e, p, i, q) {
      var o': Node :| OutermostHeader(f, g, e, o') && ChosenAt(f, g, blocks, merges, xs, o', e, p, i, q);
      OutermostUnique(f, g, e, o, o');
    }
  }

  lemma ChosenUnique(f: Flow, g: Graph, blocks: seq<IRBlock>, merges: Node -> Option<Node>, xs: seq<Node>, e: Node,
                     p: Node, i: Node, q: Node, i': Node, q': Node)
    requires Ok(f) && Live(f, e)
    requires Chosen(f, g, blocks, merges, xs, e, p, i, q) && Chosen(f, g, blocks, merges, xs, e, p, i', q')
    ensures i == i' && q == q'
  {
    hide Live, OutermostHeader, InLoop, PassedOnce, Edge;
    var o: Node :| OutermostHeader(f, g, e, o) && ChosenAt(f, g, blocks, merges, xs, o, e, p, i, q);
    ChosenIsAt(f, g, blocks, merges, xs, o, e, p, i', q');
    assert OnlyWayIn(f, o, i) ==> Edge(f.g, i, o);
  }

  /** The function determines the region. */
  lemma OneChoice(f: Flow, g: Graph, order: seq<Node>, blocks: seq<IRBlock>, merges: Node -> Option<Node>,
                  xs: seq<Node>, i: Node, d: Node, i': Node, d': Node)
    requires Numbered(f, order) && Ok(f) && xs != [] && forall k :: 0 <= k < |xs| ==> xs[k] in order
    requires Accepts(f, g, blocks, merges, xs, i, d) && Accepts(f, g, blocks, merges, xs, i', d')
    ensures i == i' && d == d'
  {
    hide Live, Dom, Chosen, ClosestEntry, ClosestExit, Numbered;
    var e: Node, p: Node, q: Node :| AcceptsFrom(f, g, blocks, merges, xs, e, p, q, i, d);
    var e': Node, p': Node, q': Node :| AcceptsFrom(f, g, blocks, merges, xs, e', p', q', i', d');
    AboutNumbered(f, order, xs[0]);
    ClosestEntryUnique(f, xs, e, e');
    ClosestExitUnique(f, order, xs, p, p');
    ChosenUnique(f, g, blocks, merges, xs, e, p, i, q, i', q');
    ChosenIsLive(f, g, blocks, merges, xs, e, p, i, q);
    LiveInOrder(f, order, i);
    ClosestExitUnique(f, order, [i, q], d, d');
  }

  lemma ChosenIsLive(f: Flow, g: Graph, blocks: seq<IRBlock>, merges: Node -> Option<Node>, xs: seq<Node>, e: Node,
                     p: Node, i: Node, q: Node)
    requires Ok(f) && Live(f, e) && Chosen(f, g, blocks, merges, xs, e, p, i, q)
    ensures Live(f, i)
  {
    hide Live, OutermostHeader, InLoop, PassedOnce, Edge;
    var o: Node :| OutermostHeader(f, g, e, o) && ChosenAt(f, g, blocks, merges, xs, o, e, p, i, q);
    assert i != e ==> Edge(f.g, i, o);
  }

  lemma LiveInOrder(f: Flow, order: seq<Node>, x: Node)
    requires Numbered(f, order) && Live(f, x)
    ensures x in order
  {}

  lemma AboutNumbered(f: Flow, order: seq<Node>, x: Node)
    requires Numbered(f, order) && x in order
    ensures Live(f, x)
  {}
}
