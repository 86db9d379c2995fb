/** One lock for the whole shader: what is accepted, without walking from loop to loop. */
module RovAccept {
  import opened Wrappers
  import opened Graphs
  import opened IR
  import opened Dominance
  import opened FlowGraph
  import opened Backwards
  import opened Cycles
  import opened RovRuns
  import opened RovChoice
  import opened RovLoops
  import opened RovRegion

  // ---------------------------------------------------------------- closest blocks

  /** The member of a set that is finished first. */
  lemma {:induction false} FinishedFirst(num: seq<nat>, s: set<Node>) returns (m: Node)
    requires s != {} && forall x: Node :: x in s ==> x < |num|
    ensures m in s && forall x: Node :: x in s ==> num[m] <= num[x]
    decreases s
  {
    m :| m in s;
    if s != {m} {
      var m' := FinishedFirst(num, s - {m});
      if num[m'] < num[m] {
        m := m';
      }
    }
  }

  /** The member that is finished last. */
  lemma {:induction false} FinishedLast(num: seq<nat>, s: set<Node>) returns (m: Node)
    requires s != {} && forall x: Node :: x in s ==> x < |num|
    ensures m in s && forall x: Node :: x in s ==> num[x] <= num[m]
    decreases s
  {
    m :| m in s;
    if s != {m} {
      var m' := FinishedLast(num, s - {m});
      if num[m'] > num[m] {
        m := m';
      }
    }
  }

  /** Two dominators of a block are above each other. */
  lemma DomOrder(f: Flow, a: Node, b: Node, x: Node)
    requires Ok(f) && Live(f, x) && Dom(f, a, x) && Dom(f, b, x)
    requires a < |f.num| && b < |f.num| && f.num[a] >= f.num[b]
    ensures Dom(f, a, b)
  {
    DomNumber(f, b, x);
    var q :| Path(f.g, q, b, x);
    PathDescends(f.g, f.num, q, b, x);
    forall p: seq<Node> | Path(f.g, p, f.root, b) ensures a in p {
      PathJoin(f.g, p, f.root, b, q, x);
      assert a in p + q[1..];
      PathLast(f.g, p, f.root, b);
    }
  }

  lemma PostDomOrder(f: Flow, order: seq<Node>, a: Node, b: Node, x: Node)
    requires Numbered(f, order) && x in order && PostDom(f.g, a, x) && PostDom(f.g, b, x)
    requires a < |f.num| && b < |f.num| && f.num[a] >= f.num[b]
    ensures PostDom(f.g, b, a)
  {
    hide Numbered;
    PostDomReached(f, order, a, x);
    AboutOrder(f, order);
    var q :| Path(f.g, q, x, a);
    PathDescends(f.g, f.num, q, x, a);
    forall p: seq<Node>, l: Node | Path(f.g, p, a, l) && Leaf(f.g, l) ensures b in p {
      PathJoin(f.g, q, x, a, p, l);
      assert b in q + p[1..];
      PathLast(f.g, p, a, l);
      PostDomReached(f, order, b, x);
      if b in q && b != a {
        NumberedApart(f, order, a, b);
      }
    }
  }

  lemma AboutOrder(f: Flow, order: seq<Node>)
    requires Numbered(f, order)
    ensures Ok(f)
  {}

  lemma NumberedApart(f: Flow, order: seq<Node>, a: Node, b: Node)
    requires Numbered(f, order) && a in order && b in order && a != b
    ensures a < |f.num| && b < |f.num| && f.num[a] != f.num[b]
  {
    LiveInRange(f, a);
    LiveInRange(f, b);
    NumbersDiffer(f, a, b);
  }

  lemma {:induction false} IdomExists(f: Flow, x: Node) returns (d: Node)
    requires Ok(f) && Live(f, x) && x != f.root
    ensures ImmediateDom(f, d, x) && Live(f, d)
  {
    hide Ok, Live, Dom;
    RootDominates(f, x);
    LiveRoot(f);
    DomNumber(f, f.root, x);
    var above := set k: Node | k < |f.num| && StrictDom(f, k, x);
    assert f.root in above;
    d := FinishedFirst(f.num, above);
    DomNumber(f, d, x);
    forall a: Node | StrictDom(f, a, x) ensures Dom(f, a, d) {
      DomNumber(f, a, x);
      DomOrder(f, a, d, x);
    }
  }

  lemma ClosestEntryExists(f: Flow, xs: seq<Node>) returns (e: Node)
    requires Ok(f) && xs != [] && Live(f, xs[0])
    ensures ClosestEntry(f, xs, e)
  {
    hide Ok, Live, Dom, PostDom;
    RootEnters(f, xs);
    DomNumber(f, f.root, xs[0]);
    var entries := set k: Node | k < |f.num| && Enters(f, xs, k);
    assert f.root in entries;
    e := FinishedFirst(f.num, entries);
    forall k: Node | Enters(f, xs, k) ensures Dom(f, k, e) {
      DomNumber(f, k, xs[0]);
      DomOrder(f, k, e, xs[0]);
    }
  }

  lemma ClosestExitExists(f: Flow, order: seq<Node>, xs: seq<Node>, p: Node) returns (d: Node)
    requires Numbered(f, order) && xs != [] && (forall k :: 0 <= k < |xs| ==> xs[k] in order) && BehindAll(f, xs, p)
    ensures ClosestExit(f, xs, d)
  {
    hide Numbered, PostDom;
    PostDomReached(f, order, p, xs[0]);
    var exits := set k: Node | k < |f.num| && BehindAll(f, xs, k);
    assert p in exits;
    d := FinishedLast(f.num, exits);
    forall e: Node ensures PostDom(f.g, e, d) <==> BehindAll(f, xs, e) {
      if BehindAll(f, xs, e) {
        PostDomReached(f, order, e, xs[0]);
        PostDomOrder(f, order, d, e, xs[0]);
      }
      if PostDom(f.g, e, d) {
        forall k | 0 <= k < |xs| ensures PostDom(f.g, e, xs[k]) {
          PostDomTrans(f.g, e, d, xs[k]);
        }
      }
    }
  }

  lemma InnermostExists(f: Flow, g: Graph, x: Node) returns (n: Node)
    requires Ok(f) && Live(f, x)
    ensures InnermostHeader(f, g, f.root, x, n)
  {
    hide Ok, Live, Dom, Skipped;
    RootDominates(f, x);
    DomNumber(f, f.root, x);
    var stops := set k: Node | k < |f.num| && Dom(f, k, x) && (k == f.root || !Skipped(f, g, x, k));
    assert f.root in stops;
    n := FinishedFirst(f.num, stops);
    RootDominates(f, n);
    forall e: Node | Dom(f, e, x) && !Dom(f, e, n) ensures e != f.root && Skipped(f, g, x, e) {
      DomNumber(f, e, x);
      if !Skipped(f, g, x, e) {
        DomOrder(f, e, n, x);
      }
    }
  }

  // ---------------------------------------------------------------- the loops around a block

  /** Some back edge to `h` starts at `x`, or control gets from its start to `x` only by way of it. */
  ghost predicate HoldsUp(f: Flow, g: Graph, x: Node, h: Node) {
    exists y: Node :: Turns(f, g, y, h) && (y == x || !Reach(f.g, y, x))
  }

  /** No header above `x` holds it up; the entry block is no obstacle. */
  ghost predicate OutsideLoop(f: Flow, g: Graph, x: Node) {
    forall h: Node :: Dom(f, h, x) && h != f.root ==> !HoldsUp(f, g, x, h)
  }

  /** Headers from inside out: the first holds up `x`, and each other one the block right above the one before. */
  ghost predicate Climbs(f: Flow, g: Graph, x: Node, ns: seq<Node>)
    decreases |ns|
  {
    ns != [] ==>
      && Dom(f, ns[0], x) && ns[0] != f.root && HoldsUp(f, g, x, ns[0])
      && exists d: Node :: ImmediateDom(f, d, ns[0]) && Climbs(f, g, d, ns[1..])
  }

  /** The last of such headers is `h`, and nothing holds up the block `i` right above it. */
  ghost predicate TopLoop(f: Flow, g: Graph, x: Node, ns: seq<Node>, h: Node, i: Node) {
    ns != [] && Climbs(f, g, x, ns) && ns[|ns| - 1] == h && ImmediateDom(f, i, h) && OutsideLoop(f, g, i)
  }

  /** The measure for going up. */
  ghost function StepsUp(f: Flow, x: Node): nat {
    if x < |f.num| && f.root < |f.num| && f.num[x] <= f.num[f.root] then f.num[f.root] - f.num[x] else 0
  }

  lemma HoldsUpIs(f: Flow, g: Graph, x: Node, h: Node)
    ensures HoldsUp(f, g, x, h) <==> !Skipped(f, g, x, h)
  {
    hide Turns, Reach;
  }

  lemma HeldUpAbove(f: Flow, g: Graph, x: Node, h: Node, e: Node)
    requires Ok(f) && Live(f, e) && Dom(f, x, e) && HoldsUp(f, g, e, h)
    ensures HoldsUp(f, g, x, h)
  {
    hide Turns, Live, Dom, Reach;
    DomNumber(f, x, e);
    var y: Node :| Turns(f, g, y, h) && (y == e || !Reach(f.g, y, e));
    if Reach(f.g, y, x) {
      ReachTrans(f.g, y, x, e);
      ReachDescends(f.g, f.num, y, x);
      assert y == x;
    }
  }

  lemma OutsideIsRoot(f: Flow, g: Graph, x: Node)
    requires OutsideLoop(f, g, x)
    ensures InnermostHeader(f, g, f.root, x, f.root)
  {
    hide Dom, HoldsUp, Skipped;
    RootDominates(f, x);
    DomRefl(f, f.root);
    forall h: Node ensures HoldsUp(f, g, x, h) <==> !Skipped(f, g, x, h) {
      HoldsUpIs(f, g, x, h);
    }
  }

  /** What holds up `x` is not below the innermost header above it. */
  lemma InnermostBelow(f: Flow, g: Graph, x: Node, h: Node, n: Node)
    requires Ok(f) && Live(f, x) && Dom(f, h, x) && h != f.root && HoldsUp(f, g, x, h)
    requires InnermostHeader(f, g, f.root, x, n)
    ensures Dom(f, h, n) && n != f.root && Dom(f, n, x) && Live(f, n)
  {
    hide Dom, HoldsUp, Skipped, Live;
    HoldsUpIs(f, g, x, h);
    DomNumber(f, n, x);
    if n == f.root {
      RootDominates(f, h);
      DomAntisym(f, h, f.root);
    }
  }

  /** However the headers are listed, the walk from header to header ends at the last of them. */
  lemma {:induction false} TopReached(f: Flow, g: Graph, x: Node, ns: seq<Node>, h: Node, i: Node)
    returns (n: Node, hs: seq<Node>)
    requires Ok(f) && Live(f, x) && TopLoop(f, g, x, ns, h, i)
    ensures InnermostHeader(f, g, f.root, x, n) && n != f.root && HeadersUp(f, g, n, hs, h)
    decreases StepsUp(f, x)
  {
    hide Ok, Dom, HoldsUp, Live, InnermostHeader, OutsideLoop;
    n := InnermostExists(f, g, x);
    InnermostBelow(f, g, x, ns[0], n);
    var d := IdomExists(f, n);
    DomNumber(f, n, x);
    ImmediateDomLower(f, d, n);
    RootDominates(f, d);
    DomNumber(f, f.root, d);
    if n == ns[0] {
      var d': Node :| ImmediateDom(f, d', n) && Climbs(f, g, d', ns[1..]);
      ImmediateDomUnique(f, d, d', n);
      if ns[1..] == [] {
        ImmediateDomUnique(f, d, i, n);
        OutsideIsRoot(f, g, i);
        hs := [];
        assert HeadersFrom(f, g, n, hs, h);
      } else {
        var n', hs' := TopReached(f, g, d, ns[1..], h, i);
        hs := [n'] + hs';
        FromHeader(f, g, n, d, n', hs', h);
      }
    } else {
      assert StrictDom(f, ns[0], n);
      assert Dom(f, ns[0], d);
      DomTrans(f, d, n, x);
      HeldUpAbove(f, g, d, ns[0], x);
      var n', hs' := TopReached(f, g, d, ns, h, i);
      hs := [n'] + hs';
      FromHeader(f, g, n, d, n', hs', h);
    }
  }

  lemma FromHeader(f: Flow, g: Graph, n: Node, d: Node, n': Node, hs': seq<Node>, h: Node)
    requires ImmediateDom(f, d, n) && InnermostHeader(f, g, f.root, d, n') && n' != f.root
    requires HeadersUp(f, g, n', hs', h)
    ensures HeadersUp(f, g, n, [n'] + hs', h)
  {
    hide ImmediateDom, InnermostHeader;
    assert ([n'] + hs')[1..] == hs';
  }

  lemma TopIsOutermost(f: Flow, g: Graph, x: Node, ns: seq<Node>, h: Node, i: Node)
    requires Ok(f) && Live(f, x) && Live(f, f.root) && TopLoop(f, g, x, ns, h, i)
    ensures OutermostHeader(f, g, x, h) && h != f.root && Dom(f, h, x)
  {
    hide Ok, Dom, HoldsUp, Live, InnermostHeader, OutsideLoop, HeadersUp, TopLoop;
    var n, hs := TopReached(f, g, x, ns, h, i);
    if InnermostHeader(f, g, f.root, x, f.root) {
      InnermostUnique(f, g, f.root, x, n, f.root);
    }
    TopAbove(f, g, x, ns, h, i);
  }

  lemma {:induction false} TopAbove(f: Flow, g: Graph, x: Node, ns: seq<Node>, h: Node, i: Node)
    requires TopLoop(f, g, x, ns, h, i)
    ensures h != f.root && Dom(f, h, x)
    decreases |ns|
  {
    hide Dom, HoldsUp, OutsideLoop;
    if |ns| > 1 {
      var d: Node :| ImmediateDom(f, d, ns[0]) && Climbs(f, g, d, ns[1..]);
      TopAbove(f, g, d, ns[1..], h, i);
      DomTrans(f, h, d, ns[0]);
      DomTrans(f, h, ns[0], x);
    }
  }

  /** A block is outside, or some loop is the outermost one around it. */
  lemma {:induction false} InsideOrOutside(f: Flow, g: Graph, x: Node) returns (ns: seq<Node>, h: Node, i: Node)
    requires Ok(f) && Live(f, x)
    ensures OutsideLoop(f, g, x) || TopLoop(f, g, x, ns, h, i)
    decreases StepsUp(f, x)
  {
    hide Ok, Dom, HoldsUp, Live;
    ns, h, i := [], 0, 0;
    if !OutsideLoop(f, g, x) {
      h :| Dom(f, h, x) && h != f.root && HoldsUp(f, g, x, h);
      DomNumber(f, h, x);
      i := IdomExists(f, h);
      ImmediateDomLower(f, i, h);
      RootDominates(f, i);
      DomNumber(f, f.root, i);
      var ns', h', i' := InsideOrOutside(f, g, i);
      if OutsideLoop(f, g, i) {
        ns := [h];
        assert Climbs(f, g, i, ns[1..]);
      } else {
        ns := [h] + ns';
        assert ns[1..] == ns';
        h, i := h', i';
      }
    }
  }

  // ---------------------------------------------------------------- what is accepted

  /** The closest block that every complete run from `e` and from any access comes to. */
  ghost predicate BehindEntry(f: Flow, xs: seq<Node>, e: Node, d: Node) {
    forall k: Node :: PostDom(f.g, k, d) <==> PostDom(f.g, k, e) && BehindAll(f, xs, k)
  }

  lemma BehindEntryIs(f: Flow, xs: seq<Node>, e: Node, p: Node, d: Node)
    requires ClosestExit(f, xs, p)
    ensures BehindEntry(f, xs, e, d) <==> ClosestExit(f, [e, p], d)
  {
    hide PostDom;
    forall k: Node ensures BehindAll(f, [e, p], k) <==> PostDom(f.g, k, e) && BehindAll(f, xs, k) {
      assert [e, p][0] == e && [e, p][1] == p;
    }
  }

  lemma ExitsSwap(f: Flow, e: Node, p: Node, d: Node)
    ensures ClosestExit(f, [e, p], d) <==> ClosestExit(f, [p, e], d)
  {
    hide PostDom;
    forall k: Node ensures BehindAll(f, [e, p], k) <==> BehindAll(f, [p, e], k) {
      assert [e, p][0] == [p, e][1] && [e, p][1] == [p, e][0];
    }
  }

  /** From the closest entry to the block behind it and all accesses. */
  lemma AcceptsDirect(f: Flow, g: Graph, order: seq<Node>, blocks: seq<IRBlock>, merges: Node -> Option<Node>,
                      xs: seq<Node>, e: Node, i: Node, d: Node)
    requires Numbered(f, order) && xs != [] && (forall k :: 0 <= k < |xs| ==> xs[k] in order)
    requires ClosestEntry(f, xs, e) && e in order && OutsideLoop(f, g, e)
    ensures Accepts(f, g, blocks, merges, xs, i, d) <==> i == e && BehindEntry(f, xs, e, d)
  {
    hide Numbered, ClosestEntry, ClosestExit, Dom, PostDom, OutsideLoop, BehindEntry, OutermostHeader, InLoop,
        PassedOnce, Live, Ok;
    AboutOrder(f, order);
    AboutNumbered(f, order, e);
    OutsideIsRoot(f, g, e);
    assert OutermostHeader(f, g, e, f.root) by { NothingAbove(f, g, e); }
    if Accepts(f, g, blocks, merges, xs, i, d) {
      var e': Node, p: Node, q: Node :| AcceptsFrom(f, g, blocks, merges, xs, e', p, q, i, d);
      ClosestEntryHere(f, order, xs, e, e');
      ChosenIsAt(f, g, blocks, merges, xs, f.root, e, p, i, q);
      BehindEntryIs(f, xs, e, p, d);
    }
    if i == e && BehindEntry(f, xs, e, d) {
      var p := ExitBehind(f, order, xs, e, d);
      ChosenIsAt(f, g, blocks, merges, xs, f.root, e, p, e, p);
      assert AcceptsFrom(f, g, blocks, merges, xs, e, p, p, i, d);
    }
  }

  lemma NothingAbove(f: Flow, g: Graph, e: Node)
    requires InnermostHeader(f, g, f.root, e, f.root)
    ensures OutermostHeader(f, g, e, f.root)
  {}

  lemma ClosestEntryHere(f: Flow, order: seq<Node>, xs: seq<Node>, e: Node, e': Node)
    requires Numbered(f, order) && xs != [] && xs[0] in order && ClosestEntry(f, xs, e) && ClosestEntry(f, xs, e')
    ensures e == e'
  {
    ClosestEntryUnique(f, xs, e, e');
  }

  lemma ExitBehind(f: Flow, order: seq<Node>, xs: seq<Node>, e: Node, d: Node) returns (p: Node)
    requires Numbered(f, order) && xs != [] && (forall k :: 0 <= k < |xs| ==> xs[k] in order)
    requires ClosestEntry(f, xs, e) && e in order && BehindEntry(f, xs, e, d)
    ensures ClosestExit(f, xs, p) && Dom(f, e, p) && ClosestExit(f, [e, p], d)
  {
    hide Numbered, Dom, PostDom;
    PostDomRefl(f.g, d);
    p := ClosestExitExists(f, order, xs, d);
    BehindEntryIs(f, xs, e, p, d);
    PostDomRefl(f.g, p);
    EntryDominatesExit(f, order, e, p, xs[0]);
  }

  /** All accesses are below the header, and control can get from each to a back edge of the loop. */
  ghost predicate Within(f: Flow, g: Graph, h: Node, xs: seq<Node>) {
    forall k :: 0 <= k < |xs| ==>
      Dom(f, h, xs[k]) && exists y: Node :: Turns(f, g, y, h) && Reach(f.g, xs[k], y)
  }

  /** Around the outermost loop, if it holds all accesses. */
  lemma AcceptsAround(f: Flow, g: Graph, order: seq<Node>, blocks: seq<IRBlock>, merges: Node -> Option<Node>,
                      xs: seq<Node>, e: Node, ns: seq<Node>, h: Node, a: Node, i: Node, d: Node)
    requires Numbered(f, order) && xs != [] && (forall k :: 0 <= k < |xs| ==> xs[k] in order)
    requires ClosestEntry(f, xs, e) && e in order && TopLoop(f, g, e, ns, h, a)
    requires Within(f, g, h, xs)
    ensures Accepts(f, g, blocks, merges, xs, i, d) <==>
              && merges(h).Some? && Dom(f, i, merges(h).value) && ClosestExit(f, [i, merges(h).value], d)
              && (forall y: Node :: Edge(f.g, y, h) <==> y == i) && i < |blocks| && blocks[i].terminator.Branch?
              && exists p: Node :: BehindAll(f, xs, p)
  {
    hide Numbered, ClosestEntry, ClosestExit, Dom, PostDom, TopLoop, OutermostHeader, PassedOnce, Live, Ok, Turns,
        Reach, Edge, BehindAll;
    AboutOrder(f, order);
    AboutNumbered(f, order, e);
    LiveRoot(f);
    TopIsOutermost(f, g, e, ns, h, a);
    assert forall k :: 0 <= k < |xs| ==> InLoop(f, g, h, xs[k]);
    if Accepts(f, g, blocks, merges, xs, i, d) {
      var e': Node, p: Node, q: Node :| AcceptsFrom(f, g, blocks, merges, xs, e', p, q, i, d);
      ClosestEntryHere(f, order, xs, e, e');
      ChosenIsAt(f, g, blocks, merges, xs, h, e, p, i, q);
      ExitIsBehind(f, xs, p);
    }
    if p0: Node :| BehindAll(f, xs, p0) {
      var p := ClosestExitExists(f, order, xs, p0);
      if merges(h).Some? {
        var q := merges(h).value;
        ChosenIsAt(f, g, blocks, merges, xs, h, e, p, i, q);
        assert Dom(f, i, q) && ClosestExit(f, [i, q], d) && ChosenAt(f, g, blocks, merges, xs, h, e, p, i, q) ==>
            AcceptsFrom(f, g, blocks, merges, xs, e, p, q, i, d);
      }
    }
  }

  lemma ExitIsBehind(f: Flow, xs: seq<Node>, p: Node)
    requires ClosestExit(f, xs, p)
    ensures BehindAll(f, xs, p)
  {
    hide PostDom;
    PostDomRefl(f.g, p);
  }

  /** Past the outermost loop, if it does not hold all accesses: what is left must be passed once. */
  lemma AcceptsPast(f: Flow, g: Graph, order: seq<Node>, blocks: seq<IRBlock>, merges: Node -> Option<Node>,
                    xs: seq<Node>, e: Node, ns: seq<Node>, h: Node, a: Node, k: nat, i: Node, d: Node)
    requires Numbered(f, order) && xs != [] && (forall k :: 0 <= k < |xs| ==> xs[k] in order)
    requires ClosestEntry(f, xs, e) && e in order && TopLoop(f, g, e, ns, h, a)
    requires k < |xs| && (Dom(f, h, xs[k]) ==> forall y: Node :: Turns(f, g, y, h) ==> !Reach(f.g, xs[k], y))
    ensures Accepts(f, g, blocks, merges, xs, i, d) <==>
              && i == e && BehindEntry(f, xs, e, d)
              && (forall z: Node :: Reach(g, e, z) ==> Dom(f, e, z))
              && forall t: Node, y: Node :: Dom(f, e, t) && Dom(f, t, d) ==> !Turns(f, g, y, t)
  {
    hide Numbered, ClosestEntry, ClosestExit, Dom, PostDom, TopLoop, OutermostHeader, Live, Ok, Turns, Reach,
        BehindEntry, Encloses, NoHeaderBetween, PassedOnce;
    AboutOrder(f, order);
    AboutNumbered(f, order, e);
    LiveRoot(f);
    TopIsOutermost(f, g, e, ns, h, a);
    assert !InLoop(f, g, h, xs[k]);
    EnclosesIs(f, g, e, d);
    if Accepts(f, g, blocks, merges, xs, i, d) {
      var e': Node, p: Node, q: Node :| AcceptsFrom(f, g, blocks, merges, xs, e', p, q, i, d);
      ClosestEntryHere(f, order, xs, e, e');
      ChosenIsAt(f, g, blocks, merges, xs, h, e, p, i, q);
      BehindEntryIs(f, xs, e, p, d);
      ExitsSwap(f, e, p, d);
      ExitInOrder(f, order, xs, p);
      PassedOnceIs(f, g, order, e, p, d);
    }
    if i == e && BehindEntry(f, xs, e, d) && Encloses(f, g, e) && NoHeaderBetween(f, g, e, d) {
      var p := ExitBehind(f, order, xs, e, d);
      ExitsSwap(f, e, p, d);
      ExitInOrder(f, order, xs, p);
      PassedOnceIs(f, g, order, e, p, d);
      BehindTheEntry(f, order, xs, e, d);
      ChosenIsAt(f, g, blocks, merges, xs, h, e, p, e, p);
      assert AcceptsFrom(f, g, blocks, merges, xs, e, p, p, i, d);
    }
  }

  lemma EnclosesIs(f: Flow, g: Graph, e: Node, d: Node)
    ensures Encloses(f, g, e) <==> forall z: Node :: Reach(g, e, z) ==> Dom(f, e, z)
    ensures NoHeaderBetween(f, g, e, d) <==>
              forall t: Node, y: Node :: Dom(f, e, t) && Dom(f, t, d) ==> !Turns(f, g, y, t)
  {
    hide Reach, Dom, Turns;
  }

  lemma ExitInOrder(f: Flow, order: seq<Node>, xs: seq<Node>, p: Node)
    requires Numbered(f, order) && xs != [] && xs[0] in order && ClosestExit(f, xs, p)
    ensures p in order
  {
    hide Numbered, PostDom;
    PostDomRefl(f.g, p);
    PostDomReached(f, order, p, xs[0]);
  }

  lemma BehindTheEntry(f: Flow, order: seq<Node>, xs: seq<Node>, e: Node, d: Node)
    requires Numbered(f, order) && xs != [] && xs[0] in order && e in order
    requires ClosestEntry(f, xs, e) && BehindEntry(f, xs, e, d)
    ensures Dom(f, e, d)
  {
    hide Numbered, PostDom, Dom;
    PostDomRefl(f.g, d);
    EntryDominatesExit(f, order, e, d, xs[0]);
  }

  /** All accesses are in the outermost loop, whose header is on every run; a plain branch of `i` is the only way in;
      and `merges` names a block on no cycle that every run from the header comes to. */
  ghost predicate LoopAround(f: Flow, g: Graph, blocks: seq<IRBlock>, merges: Node -> Option<Node>, xs: seq<Node>,
                             h: Node, i: Node, m: Node) {
    && Within(f, g, h, xs)
    && (forall y: Node :: Edge(f.g, y, h) <==> y == i) && i < |blocks| && blocks[i].terminator.Branch?
    && (forall t: Node, y: Node :: Dom(f, t, i) && t != f.root && Turns(f, g, y, t) ==> y != i && Reach(f.g, y, i))
    && PostDom(f.g, h, f.root) && merges(h) == Some(m) && PostDom(f.g, m, h) && !OnCycle(g, m)
  }

  /** Then the lock is taken in `i` and released in `m`. */
  lemma LoopAroundAccepted(f: Flow, g: Graph, order: seq<Node>, blocks: seq<IRBlock>, merges: Node -> Option<Node>,
                           xs: seq<Node>, h: Node, i: Node, m: Node)
    requires Numbered(f, order) && Backed(f, g) && xs != [] && forall k :: 0 <= k < |xs| ==> xs[k] in order
    requires LoopAround(f, g, blocks, merges, xs, h, i, m)
    ensures Accepts(f, g, blocks, merges, xs, i, m)
  {
    hide Numbered, Backed, Dom, PostDom, Live, Ok, Turns, Reach, OnCycle, Edge, ClosestEntry, ClosestExit, BehindAll;
    AboutOrder(f, order);
    AboutNumbered(f, order, xs[0]);
    OnlyWayIsIdom(f, h, i, xs[0]);
    OutsideHere(f, g, i);
    var e := ClosestEntryExists(f, xs);
    HeaderEnters(f, xs, h, e);
    LiveInOrder(f, order, e);
    HeaderHoldsUp(f, g, xs, h, e);
    assert [h][1..] == [];
    assert Climbs(f, g, i, []);
    assert Climbs(f, g, e, [h]);
    assert TopLoop(f, g, e, [h], h, i);
    LoopExitBehind(f, g, order, xs, h, i, m);
    AcceptsAround(f, g, order, blocks, merges, xs, e, [h], h, i, i, m);
  }

  lemma OnlyWayIsIdom(f: Flow, h: Node, i: Node, x: Node)
    requires Ok(f) && Live(f, x) && Dom(f, h, x) && forall y: Node :: Edge(f.g, y, h) <==> y == i
    ensures ImmediateDom(f, i, h) && Live(f, h) && Live(f, i) && h != f.root && Edge(f.g, i, h)
  {
    hide Dom, Live, Reach;
    assert Edge(f.g, i, h);
    LiveEdge(f, i, h);
    if h == f.root {
      RootDominates(f, i);
      DomNumber(f, h, i);
    }
    MeetOfPreds(f, h, i);
  }

  lemma OutsideHere(f: Flow, g: Graph, i: Node)
    requires forall t: Node, y: Node :: Dom(f, t, i) && t != f.root && Turns(f, g, y, t) ==> y != i && Reach(f.g, y, i)
    ensures OutsideLoop(f, g, i)
  {
    hide Dom, Reach, Turns;
  }

  lemma HeaderEnters(f: Flow, xs: seq<Node>, h: Node, e: Node)
    requires Ok(f) && xs != [] && Live(f, xs[0]) && ClosestEntry(f, xs, e) && PostDom(f.g, h, f.root)
    requires forall k :: 0 <= k < |xs| ==> Dom(f, h, xs[k])
    ensures Dom(f, h, e) && Dom(f, e, xs[0]) && Live(f, e)
  {
    hide Dom, PostDom, Live, Ok;
    assert Enters(f, xs, h);
    DomNumber(f, e, xs[0]);
  }

  lemma HeaderHoldsUp(f: Flow, g: Graph, xs: seq<Node>, h: Node, e: Node)
    requires Ok(f) && xs != [] && Dom(f, e, xs[0]) && Live(f, xs[0])
    requires exists y: Node :: Turns(f, g, y, h) && Reach(f.g, xs[0], y)
    ensures HoldsUp(f, g, e, h)
  {
    hide Dom, Reach, Turns, Live;
    var y: Node :| Turns(f, g, y, h) && Reach(f.g, xs[0], y);
    DomNumber(f, e, xs[0]);
    ReachTrans(f.g, e, xs[0], y);
    if Reach(f.g, y, e) {
      ReachDescends(f.g, f.num, y, e);
      ReachDescends(f.g, f.num, e, y);
      assert y == e;
    }
  }

  lemma LoopExitBehind(f: Flow, g: Graph, order: seq<Node>, xs: seq<Node>, h: Node, i: Node, m: Node)
    requires Numbered(f, order) && Backed(f, g) && xs != [] && (forall k :: 0 <= k < |xs| ==> xs[k] in order)
    requires Within(f, g, h, xs)
    requires ImmediateDom(f, i, h) && Live(f, i) && Live(f, h) && Edge(f.g, i, h)
    requires OutsideLoop(f, g, i) && PostDom(f.g, h, f.root) && PostDom(f.g, m, h) && !OnCycle(g, m)
    ensures BehindAll(f, xs, m) && Dom(f, i, m) && ClosestExit(f, [i, m], m)
  {
    hide Numbered, Backed, Dom, PostDom, Live, Ok, Turns, Reach, OnCycle, Edge, OutsideLoop;
    AboutOrder(f, order);
    LiveInOrder(f, order, h);
    LiveInOrder(f, order, i);
    PostDomBelow(f, h, i);
    PostDomTrans(f.g, m, h, i);
    PostDomRefl(f.g, m);
    PostDomReached(f, order, m, h);
    ReachInWhole(f, g, h, m);
    OffCyclesHere(f, g, i);
    forall k | 0 <= k < |xs| ensures PostDom(f.g, m, xs[k]) && Dom(f, i, xs[k]) {
      assert Dom(f, h, xs[k]);
      var y: Node :| Turns(f, g, y, h) && Reach(f.g, xs[k], y);
      TurnsEdge(f, g, y, h);
      DomTrans(f, i, h, xs[k]);
      AroundLoop(f, g, order, i, h, y, m, m, xs[k]);
    }
    EntryOnRuns(f, i, h);
    EntryDominatesExit(f, order, i, m, xs[0]);
    forall k: Node ensures PostDom(f.g, k, m) <==> BehindAll(f, [i, m], k) {
      assert [i, m][0] == i && [i, m][1] == m;
      if PostDom(f.g, k, m) {
        PostDomTrans(f.g, k, m, i);
      }
    }
  }

  lemma TurnsEdge(f: Flow, g: Graph, y: Node, h: Node)
    requires Turns(f, g, y, h)
    ensures Edge(g, y, h)
  {}

  /** What is on every run and below a block post-dominates the block. */
  lemma PostDomBelow(f: Flow, h: Node, i: Node)
    requires Ok(f) && Live(f, i) && Live(f, h) && ImmediateDom(f, i, h) && PostDom(f.g, h, f.root)
    ensures PostDom(f.g, h, i)
  {
    hide Ok;
    ImmediateDomLower(f, i, h);
    var q :| Path(f.g, q, f.root, i);
    NumbersGoDown(f, q, f.root, i);
    forall p: seq<Node>, l: Node | Path(f.g, p, i, l) && Leaf(f.g, l) ensures h in p {
      PathJoin(f.g, q, f.root, i, p, l);
      assert h in q + p[1..];
      PathLast(f.g, p, i, l);
    }
  }

  lemma NumbersGoDown(f: Flow, q: seq<Node>, a: Node, b: Node)
    requires Ok(f) && Path(f.g, q, a, b)
    ensures b < |f.num| && forall z: Node :: z in q ==> z < |f.num| && f.num[z] >= f.num[b]
  {
    PathDescends(f.g, f.num, q, a, b);
  }

  lemma EntryOnRuns(f: Flow, i: Node, h: Node)
    requires ImmediateDom(f, i, h) && PostDom(f.g, h, f.root)
    ensures PostDom(f.g, i, f.root)
  {
    forall p: seq<Node>, l: Node | Path(f.g, p, f.root, l) && Leaf(f.g, l) ensures i in p {
      var q, _ := PathSplit(f.g, p, f.root, l, h);
    }
  }

  lemma OffCyclesHere(f: Flow, g: Graph, i: Node)
    requires Backed(f, g) && Live(f, i) && OutsideLoop(f, g, i)
    ensures !OnCycle(g, i)
  {
    hide Ok, Dom, Reach, OnCycle, Live;
    forall h: Node, y: Node | Dom(f, h, i) && Edge(g, y, h) && Live(f, y) && !Edge(f.g, y, h)
      ensures y != i && Reach(f.g, y, i)
    {
      assert GoesBack(f, g, y, h);
      assert Turns(f, g, y, h);
      assert !HoldsUp(f, g, i, h);
    }
    NotInLoop(f, g, i);
  }
}
