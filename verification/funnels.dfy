/** Where the ways from some blocks come together, breaks to one block apart. */
module Funnels {
  import opened Graphs
  import opened Dominance

  // ---------------------------------------------------------------- what is looked for

  /** A walk from one of `from` that avoids `ignored`. */
  ghost predicate Walk(g: Graph, ignored: Node, from: seq<Node>, p: seq<Node>, a: Node, b: Node) {
    a in from && Path(g, p, a, b) && ignored !in p
  }

  ghost predicate Reached(g: Graph, ignored: Node, from: seq<Node>, z: Node) {
    exists p: seq<Node>, a: Node :: Walk(g, ignored, from, p, a, z)
  }

  /** Every walk that comes to a leaf, or to a block that is finished before `w`, has come through `w`. */
  ghost predicate Funnel(f: Flow, leaves: set<Node>, ignored: Node, from: seq<Node>, w: Node) {
    && Reached(f.g, ignored, from, w) && w < |f.num|
    && forall p: seq<Node>, a: Node, b: Node ::
         Walk(f.g, ignored, from, p, a, b) && (b in leaves || (b < |f.num| && f.num[b] < f.num[w])) ==> w in p
  }

  /** The first such block: it leads to all others. */
  ghost predicate Closest(f: Flow, leaves: set<Node>, ignored: Node, from: seq<Node>, w: Node) {
    && Funnel(f, leaves, ignored, from, w)
    && forall z: Node :: Funnel(f, leaves, ignored, from, z) ==> Reach(f.g, w, z)
  }

  lemma FunnelsInOrder(f: Flow, leaves: set<Node>, ignored: Node, from: seq<Node>, w: Node, z: Node)
    requires Ok(f) && Funnel(f, leaves, ignored, from, w) && Funnel(f, leaves, ignored, from, z)
    requires f.num[z] < f.num[w] || z == w
    ensures Reach(f.g, w, z)
  {
    var p: seq<Node>, a: Node :| Walk(f.g, ignored, from, p, a, z);
    PathLast(f.g, p, a, z);
    PathReach(f.g, p, a, z, w);
  }

  // ---------------------------------------------------------------- narrowing down

  /** Finished no later than some block of the cut. */
  ghost predicate Low(f: Flow, cut: seq<Node>, b: Node) {
    b < |f.num| && exists c: Node :: c in cut && c < |f.num| && f.num[b] <= f.num[c]
  }

  ghost predicate Meets(p: seq<Node>, cut: seq<Node>) {
    exists z: Node :: z in p && z in cut
  }

  /** All blocks on the walk but its last are finished after the whole cut. */
  ghost predicate Above(f: Flow, cut: seq<Node>, p: seq<Node>) {
    forall y: Node, c: Node :: y in p && y != p[|p| - 1] && c in cut && y < |f.num| && c < |f.num| ==>
      f.num[y] > f.num[c]
  }

  ghost predicate FirstMet(f: Flow, ignored: Node, from: seq<Node>, cut: seq<Node>, z: Node) {
    exists p: seq<Node>, a: Node :: Walk(f.g, ignored, from, p, a, z) && Above(f, cut, p)
  }

  ghost predicate CutsAll(f: Flow, leaves: set<Node>, ignored: Node, from: seq<Node>, cut: seq<Node>) {
    forall p: seq<Node>, a: Node, b: Node ::
      Walk(f.g, ignored, from, p, a, b) && (b in leaves || Low(f, cut, b)) ==> Meets(p, cut)
  }

  /** The candidates while they are narrowed down: all walks that come down to them meet them, and no funnel is
      passed. */
  ghost predicate Narrowing(f: Flow, leaves: set<Node>, ignored: Node, from: seq<Node>, cut: seq<Node>) {
    && cut != [] && CutsAll(f, leaves, ignored, from, cut)
    && (forall z: Node :: z in cut ==> z < |f.num| && Live(f, z) && FirstMet(f, ignored, from, cut, z))
    && (forall z: Node :: Funnel(f, leaves, ignored, from, z) ==> Low(f, cut, z))
  }

  lemma NoCandidates(f: Flow, leaves: set<Node>, ignored: Node)
    ensures forall z: Node :: !Funnel(f, leaves, ignored, [], z)
  {}

  lemma NarrowStart(f: Flow, leaves: set<Node>, ignored: Node, from: seq<Node>)
    requires Ok(f) && from != [] && ignored !in from && forall x: Node :: x in from ==> Live(f, x)
    ensures Narrowing(f, leaves, ignored, from, from)
  {
    hide Live, Path, Reach, Low, Ok, CutsAll, FirstMet, Funnel;
    forall z: Node | z in from ensures z < |f.num| && FirstMet(f, ignored, from, from, z) {
      StartMet(f, ignored, from, z);
    }
    StartCuts(f, leaves, ignored, from);
    forall z: Node | Funnel(f, leaves, ignored, from, z) ensures Low(f, from, z) {
      StartAboveFunnels(f, leaves, ignored, from, z);
    }
  }

  lemma StartMet(f: Flow, ignored: Node, from: seq<Node>, z: Node)
    requires Ok(f) && Live(f, z) && z in from && ignored !in from
    ensures z < |f.num| && FirstMet(f, ignored, from, from, z)
  {
    hide Live, Reach;
    LiveInRange(f, z);
    assert Walk(f.g, ignored, from, [z], z, z) && Above(f, from, [z]);
  }

  lemma StartCuts(f: Flow, leaves: set<Node>, ignored: Node, from: seq<Node>)
    ensures CutsAll(f, leaves, ignored, from, from)
  {
    hide Low;
    forall p: seq<Node>, a: Node, b: Node | Walk(f.g, ignored, from, p, a, b) ensures Meets(p, from) {
      PathLast(f.g, p, a, b);
    }
  }

  lemma StartAboveFunnels(f: Flow, leaves: set<Node>, ignored: Node, from: seq<Node>, z: Node)
    requires Ok(f) && Funnel(f, leaves, ignored, from, z)
    ensures Low(f, from, z)
  {
    hide Low, Reach, Ok;
    var p: seq<Node>, a: Node :| Walk(f.g, ignored, from, p, a, z);
    PathLast(f.g, p, a, z);
    PathReach(f.g, p, a, z, a);
    IsLow(f, from, z, a);
  }

  /** What a block of the cut leads to is finished no later. */
  lemma IsLow(f: Flow, cut: seq<Node>, z: Node, c: Node)
    requires Ok(f) && c in cut && Reach(f.g, c, z)
    ensures Low(f, cut, z)
  {
    hide Live, Path, Reach;
    ReachDescends(f.g, f.num, c, z);
  }

  /** The candidate that is finished last gives way to its successors. */
  lemma NarrowStep(f: Flow, leaves: set<Node>, ignored: Node, from: seq<Node>, cut: seq<Node>, front: Node, other: Node,
                   next: seq<Node>)
    requires Ok(f) && Narrowing(f, leaves, ignored, from, cut) && front in cut && front !in leaves
    requires other in cut && other != front && next != []
    requires forall x: Node :: x in cut && x != front ==> x < |f.num| && front < |f.num| && f.num[x] < f.num[front]
    requires forall z: Node :: z in next <==> (z in cut && z != front) || (Edge(f.g, front, z) && z != ignored)
    ensures Narrowing(f, leaves, ignored, from, next)
  {
    hide Live, Funnel, CutsAll, FirstMet;
    forall z: Node | z in next ensures z < |f.num| && Live(f, z) && f.num[z] < f.num[front] {
      if z !in cut || z == front {
        LiveEdge(f, front, z);
      }
    }
    StepCuts(f, leaves, ignored, from, cut, front, next);
    forall z: Node | z in next ensures FirstMet(f, ignored, from, next, z) {
      StepFirstMet(f, ignored, from, cut, front, next, z);
    }
    forall z: Node | Funnel(f, leaves, ignored, from, z) ensures Low(f, next, z) {
      StepNotPassed(f, leaves, ignored, from, cut, front, other, next, z);
    }
  }

  lemma StepCuts(f: Flow, leaves: set<Node>, ignored: Node, from: seq<Node>, cut: seq<Node>, front: Node,
                 next: seq<Node>)
    requires CutsAll(f, leaves, ignored, from, cut) && front in cut && front !in leaves && front < |f.num|
    requires forall z: Node :: z in next ==> z < |f.num| && f.num[z] < f.num[front]
    requires forall z: Node :: z in cut && z != front ==> z in next
    requires forall z: Node :: Edge(f.g, front, z) && z != ignored ==> z in next
    ensures CutsAll(f, leaves, ignored, from, next)
  {
    forall p: seq<Node>, a: Node, b: Node
      | Walk(f.g, ignored, from, p, a, b) && (b in leaves || Low(f, next, b))
      ensures Meets(p, next)
    {
      assert Low(f, next, b) ==> Low(f, cut, b);
      assert Meets(p, cut);
      var z: Node :| z in p && z in cut;
      if z == front {
        var s := NextOn(f.g, p, a, b, z);
        assert s != ignored;
      }
    }
  }

  /** A walk goes on from a block on it that is not its last. */
  lemma NextOn(g: Graph, p: seq<Node>, a: Node, b: Node, z: Node) returns (s: Node)
    requires Path(g, p, a, b) && z in p && z != b
    ensures Edge(g, z, s) && s in p
  {
    var i :| 0 <= i < |p| && p[i] == z;
    PathSuffix(g, p, a, b, i);
    PathLast(g, p, a, b);
    s := p[i + 1];
    assert p[i..][1] == s;
  }

  lemma StepFirstMet(f: Flow, ignored: Node, from: seq<Node>, cut: seq<Node>, front: Node, next: seq<Node>, z: Node)
    requires Ok(f) && front in cut && front < |f.num|
    requires forall x: Node :: x in cut ==> FirstMet(f, ignored, from, cut, x)
    requires forall x: Node :: x in next ==> x < |f.num| && f.num[x] < f.num[front]
    requires z in next && ((z in cut && z != front) || (Edge(f.g, front, z) && z != ignored))
    ensures FirstMet(f, ignored, from, next, z)
  {
    if z in cut && z != front {
      var p: seq<Node>, a: Node :| Walk(f.g, ignored, from, p, a, z) && Above(f, cut, p);
      PathLast(f.g, p, a, z);
      forall y: Node, c: Node | y in p && y != z && c in next && y < |f.num| && c < |f.num|
        ensures f.num[y] > f.num[c]
      {
        assert f.num[y] > f.num[front];
      }
      assert Above(f, next, p);
    } else {
      var p: seq<Node>, a: Node :| Walk(f.g, ignored, from, p, a, front) && Above(f, cut, p);
      PathLast(f.g, p, a, front);
      PathSnoc(f.g, p, a, front, z);
      var q := p + [z];
      forall y: Node, c: Node | y in q && y != z && c in next && y < |f.num| && c < |f.num|
        ensures f.num[y] > f.num[c]
      {
        assert y in p;
        assert y != front ==> f.num[y] > f.num[front];
      }
      assert Walk(f.g, ignored, from, q, a, z) && Above(f, next, q);
    }
  }

  lemma StepNotPassed(f: Flow, leaves: set<Node>, ignored: Node, from: seq<Node>, cut: seq<Node>, front: Node,
                      other: Node, next: seq<Node>, z: Node)
    requires Ok(f) && Narrowing(f, leaves, ignored, from, cut) && front in cut && other in cut && other != front
    requires forall x: Node :: x in cut && x != front ==> x < |f.num| && front < |f.num| && f.num[x] < f.num[front]
    requires forall x: Node :: x in cut && x != front ==> x in next
    requires forall x: Node :: Edge(f.g, front, x) && x != ignored ==> x in next
    requires forall x: Node :: x in next ==> x < |f.num|
    requires Funnel(f, leaves, ignored, from, z)
    ensures Low(f, next, z)
  {
    hide Live, Path, Reach, Ok, Low, FirstMet;
    FrontIsNoFunnel(f, leaves, ignored, from, cut, front, other);
    assert Low(f, cut, z);
    var p: seq<Node>, a: Node :| Walk(f.g, ignored, from, p, a, z);
    assert Meets(p, cut);
    var x: Node :| x in p && x in cut;
    if x == front {
      var s := NextAfter(f.g, p, a, z, x);
      assert s != ignored;
      IsLow(f, next, z, s);
    } else {
      PathReach(f.g, p, a, z, x);
      IsLow(f, next, z, x);
    }
  }

  lemma NextAfter(g: Graph, p: seq<Node>, a: Node, b: Node, z: Node) returns (s: Node)
    requires Path(g, p, a, b) && z in p && z != b
    ensures Edge(g, z, s) && s in p && Reach(g, s, b)
  {
    var i :| 0 <= i < |p| && p[i] == z;
    PathSuffix(g, p, a, b, i);
    PathLast(g, p, a, b);
    s := p[i + 1];
    assert p[i..][1] == s;
    PathReach(g, p, a, b, s);
  }

  /** A candidate that is finished after another one is no funnel: the other is reached past it. */
  lemma FrontIsNoFunnel(f: Flow, leaves: set<Node>, ignored: Node, from: seq<Node>, cut: seq<Node>, front: Node,
                        other: Node)
    requires Narrowing(f, leaves, ignored, from, cut) && front in cut && other in cut && other != front
    requires other < |f.num| && front < |f.num| && f.num[other] < f.num[front]
    ensures !Funnel(f, leaves, ignored, from, front)
  {
    hide Live;
    assert FirstMet(f, ignored, from, cut, other);
    var p: seq<Node>, a: Node :| Walk(f.g, ignored, from, p, a, other) && Above(f, cut, p);
    PathLast(f.g, p, a, other);
    assert front !in p;
  }

  lemma NarrowDone(f: Flow, leaves: set<Node>, ignored: Node, from: seq<Node>, w: Node)
    requires Ok(f) && Narrowing(f, leaves, ignored, from, [w])
    ensures Closest(f, leaves, ignored, from, w)
  {
    assert w in [w];
    assert FirstMet(f, ignored, from, [w], w);
    forall p: seq<Node>, a: Node, b: Node
      | Walk(f.g, ignored, from, p, a, b) && (b in leaves || (b < |f.num| && f.num[b] < f.num[w]))
      ensures w in p
    {
      assert Meets(p, [w]);
    }
    assert Funnel(f, leaves, ignored, from, w);
    forall z: Node | Funnel(f, leaves, ignored, from, z) ensures Reach(f.g, w, z) {
      assert Low(f, [w], z);
      if z != w {
        FunnelIsLive(f, leaves, ignored, from, [w], z, w);
      }
      FunnelsInOrder(f, leaves, ignored, from, w, z);
    }
  }

  /** A funnel other than `w` has another number. */
  lemma FunnelIsLive(f: Flow, leaves: set<Node>, ignored: Node, from: seq<Node>, cut: seq<Node>, z: Node, w: Node)
    requires Ok(f) && Funnel(f, leaves, ignored, from, z) && Narrowing(f, leaves, ignored, from, cut)
    requires w in cut && z != w
    ensures f.num[z] != f.num[w]
  {
    var p: seq<Node>, a: Node :| Walk(f.g, ignored, from, p, a, z);
    assert Meets(p, cut);
    var x: Node :| x in p && x in cut;
    PathReach(f.g, p, a, z, x);
    ReachTrans(f.g, f.root, x, z);
    NumbersDiffer(f, z, w);
  }

  lemma NarrowNone(f: Flow, leaves: set<Node>, ignored: Node, from: seq<Node>, cut: seq<Node>, front: Node, other: Node)
    requires Ok(f) && Narrowing(f, leaves, ignored, from, cut) && front in cut && front in leaves
    requires other in cut && other != front
    requires forall x: Node :: x in cut && x != front ==> x < |f.num| && front < |f.num| && f.num[x] < f.num[front]
    ensures forall z: Node :: !Funnel(f, leaves, ignored, from, z)
  {
    hide Live;
    FrontIsNoFunnel(f, leaves, ignored, from, cut, front, other);
    assert FirstMet(f, ignored, from, cut, front);
    var p: seq<Node>, a: Node :| Walk(f.g, ignored, from, p, a, front) && Above(f, cut, p);
    PathLast(f.g, p, a, front);
    forall z: Node ensures !Funnel(f, leaves, ignored, from, z) {
      if z != front {
        LeafPastAll(f, leaves, ignored, from, cut, front, p, a, z);
      }
    }
  }

  lemma LeafPastAll(f: Flow, leaves: set<Node>, ignored: Node, from: seq<Node>, cut: seq<Node>, front: Node,
                    p: seq<Node>, a: Node, z: Node)
    requires Walk(f.g, ignored, from, p, a, front) && Above(f, cut, p) && p != [] && p[|p| - 1] == front
    requires front in leaves && front < |f.num| && z != front
    requires forall c: Node :: c in cut ==> c < |f.num| && f.num[c] <= f.num[front]
    requires front in cut && (Funnel(f, leaves, ignored, from, z) ==> Low(f, cut, z))
    ensures !Funnel(f, leaves, ignored, from, z)
  {
    hide Path, Reach;
    assert z in p && z < |f.num| ==> f.num[z] > f.num[front];
    assert Low(f, cut, z) ==> z < |f.num| && f.num[z] <= f.num[front];
  }

  // ---------------------------------------------------------------- walks to their end

  /** A walk that avoids `ignored` cannot go on from here. */
  ghost predicate DeadEnd(g: Graph, ignored: Node, b: Node) {
    b < |g.succ| && forall s: Node :: s in g.succ[b] ==> s == ignored
  }

  /** Every walk that cannot go on has come through `z`. */
  ghost predicate OnAllWays(g: Graph, ignored: Node, from: seq<Node>, z: Node) {
    forall p: seq<Node>, a: Node, b: Node :: Walk(g, ignored, from, p, a, b) && DeadEnd(g, ignored, b) ==> z in p
  }

  lemma {:induction false} ToDeadEnd(f: Flow, ignored: Node, b: Node) returns (q: seq<Node>, l: Node)
    requires Descending(f.g, f.num) && b < |f.num| && b != ignored
    ensures Path(f.g, q, b, l) && ignored !in q && DeadEnd(f.g, ignored, l)
    decreases f.num[b]
  {
    if s: Node :| s in f.g.succ[b] && s != ignored {
      assert Edge(f.g, b, s);
      q, l := ToDeadEnd(f, ignored, s);
      PathCons(f.g, b, q, s, l);
      q := [b] + q;
    } else {
      q, l := [b], b;
    }
  }

  lemma OnAllWaysIsFunnel(f: Flow, leaves: set<Node>, ignored: Node, from: seq<Node>, z: Node)
    requires Ok(f) && from != [] && ignored !in from && (forall x: Node :: x in from ==> x < |f.num|)
    requires forall l: Node :: l in leaves ==> Leaf(f.g, l)
    requires OnAllWays(f.g, ignored, from, z)
    ensures Funnel(f, leaves, ignored, from, z)
  {
    hide Live, Path, Reach, Descending;
    assert from[0] in from;
    var q, e := ToDeadEnd(f, ignored, from[0]);
    assert Walk(f.g, ignored, from, q, from[0], e);
    var q0, q1 := PathSplit(f.g, q, from[0], e, z);
    assert Walk(f.g, ignored, from, q0, from[0], z);
    PathLast(f.g, q0, from[0], z);
    NumbersCover(f);
    forall p: seq<Node>, a: Node, b: Node
      | Walk(f.g, ignored, from, p, a, b) && (b in leaves || (b < |f.num| && f.num[b] < f.num[z]))
      ensures z in p
    {
      if b !in leaves {
        WaysBelow(f, ignored, from, p, a, b, z);
      }
    }
  }

  lemma NumbersCover(f: Flow)
    requires Ok(f)
    ensures |f.num| == |f.g.succ|
  {}

  /** A walk that has come below `z` cannot make up for having missed it. */
  lemma WaysBelow(f: Flow, ignored: Node, from: seq<Node>, p: seq<Node>, a: Node, b: Node, z: Node)
    requires Ok(f) && OnAllWays(f.g, ignored, from, z) && Walk(f.g, ignored, from, p, a, b)
    requires z < |f.num| && b < |f.num| && f.num[b] < f.num[z]
    ensures z in p
  {
    hide Live, Path, Reach, Descending;
    PathLast(f.g, p, a, b);
    var q, l := ToDeadEnd(f, ignored, b);
    PathJoin(f.g, p, a, b, q, l);
    assert Walk(f.g, ignored, from, p + q[1..], a, l);
    PathDescends(f.g, f.num, q, b, l);
  }

  /** The first funnel leads to every block that all walks to their end come through. */
  lemma ClosestLeads(f: Flow, leaves: set<Node>, ignored: Node, from: seq<Node>, w: Node)
    requires Ok(f) && from != [] && ignored !in from && (forall x: Node :: x in from ==> x < |f.num|)
    requires (forall l: Node :: l in leaves ==> Leaf(f.g, l)) && Closest(f, leaves, ignored, from, w)
    ensures forall z: Node :: OnAllWays(f.g, ignored, from, z) ==> Reach(f.g, w, z)
  {
    forall z: Node | OnAllWays(f.g, ignored, from, z) ensures Reach(f.g, w, z) {
      OnAllWaysIsFunnel(f, leaves, ignored, from, z);
    }
  }

  lemma NoneOnAllWays(f: Flow, leaves: set<Node>, ignored: Node, from: seq<Node>)
    requires Ok(f) && from != [] && ignored !in from && (forall x: Node :: x in from ==> x < |f.num|)
    requires (forall l: Node :: l in leaves ==> Leaf(f.g, l)) && forall z: Node :: !Funnel(f, leaves, ignored, from, z)
    ensures forall z: Node :: !OnAllWays(f.g, ignored, from, z)
  {
    forall z: Node | OnAllWays(f.g, ignored, from, z) ensures false {
      OnAllWaysIsFunnel(f, leaves, ignored, from, z);
    }
  }

  // ---------------------------------------------------------------- blocks that only branch back

  /** As above, but a walk that ends in a block that only branches back is not asked. */
  ghost predicate OnLeafWays(g: Graph, leaves: set<Node>, ignored: Node, from: seq<Node>, z: Node) {
    && Reached(g, ignored, from, z)
    && forall p: seq<Node>, a: Node, b: Node ::
         Walk(g, ignored, from, p, a, b) && DeadEnd(g, ignored, b) && (b in leaves || g.succ[b] != []) ==> z in p
  }

  /** Some walk past `z` ends in a block that only branches back, and that is finished before `z`. */
  ghost predicate TurnsBackBelow(f: Flow, leaves: set<Node>, ignored: Node, from: seq<Node>, z: Node) {
    exists p: seq<Node>, a: Node, b: Node ::
      && Walk(f.g, ignored, from, p, a, b) && Leaf(f.g, b) && b !in leaves && z !in p
      && b < |f.num| && z < |f.num| && f.num[b] < f.num[z]
  }

  /** Such a block is a funnel, so behind the first one, exactly when no walk past it turns back below it. */
  lemma FunnelUnlessTurnsBack(f: Flow, leaves: set<Node>, ignored: Node, from: seq<Node>, z: Node)
    requires Ok(f) && OnLeafWays(f.g, leaves, ignored, from, z) && forall l: Node :: l in leaves ==> Leaf(f.g, l)
    ensures Funnel(f, leaves, ignored, from, z) <==> !TurnsBackBelow(f, leaves, ignored, from, z)
  {
    hide Live, Path, Reach, Descending;
    NumbersCover(f);
    var p0: seq<Node>, a0: Node :| Walk(f.g, ignored, from, p0, a0, z);
    PathLast(f.g, p0, a0, z);
    if !TurnsBackBelow(f, leaves, ignored, from, z) {
      forall p: seq<Node>, a: Node, b: Node
        | Walk(f.g, ignored, from, p, a, b) && (b in leaves || (b < |f.num| && f.num[b] < f.num[z]))
        ensures z in p
      {
        if b !in leaves {
          LeafWaysBelow(f, leaves, ignored, from, p, a, b, z);
        }
      }
    }
  }

  lemma LeafWaysBelow(f: Flow, leaves: set<Node>, ignored: Node, from: seq<Node>, p: seq<Node>, a: Node, b: Node,
                      z: Node)
    requires Ok(f) && OnLeafWays(f.g, leaves, ignored, from, z) && Walk(f.g, ignored, from, p, a, b)
    requires z < |f.num| && b < |f.num| && f.num[b] < f.num[z]
    requires !TurnsBackBelow(f, leaves, ignored, from, z)
    ensures z in p
  {
    hide Live, Path, Reach, Descending, Reached;
    PathLast(f.g, p, a, b);
    var q, l := ToDeadEnd(f, ignored, b);
    PathJoin(f.g, p, a, b, q, l);
    var way := p + q[1..];
    assert Walk(f.g, ignored, from, way, a, l);
    PathDescends(f.g, f.num, q, b, l);
    PathLast(f.g, q, b, l);
    assert z in way ==> z in p;
  }

  /** The result may lie behind a block that all walks to a leaf come through: block 2 only branches back, and blocks 1
      and 2 give way to block 3. */
  lemma PastTheClosest()
    ensures exists f: Flow ::
              && Ok(f) && Live(f, 1) && Live(f, 2) && Leaf(f.g, 4)
              && Closest(f, {4}, 0, [1, 2], 3) && OnLeafWays(f.g, {4}, 0, [1, 2], 1) && !Reach(f.g, 3, 1)
  {
    hide Ok, Live, OnLeafWays, Closest, Reach, Leaf;
    var f := Flow(Graph([[3, 2, 1], [3], [], [4], []]), 0, [4, 3, 2, 1, 0]);
    ClosestHere(f);
    LeafWaysHere(f);
    NotUpwards(f);
  }

  lemma NotUpwards(f: Flow)
    requires f.num == [4, 3, 2, 1, 0] && Ok(f)
    ensures !Reach(f.g, 3, 1)
  {
    if Reach(f.g, 3, 1) {
      ReachDescends(f.g, f.num, 3, 1);
    }
  }

  lemma Stands(f: Flow)
    requires f == Flow(Graph([[3, 2, 1], [3], [], [4], []]), 0, [4, 3, 2, 1, 0])
    ensures Ok(f) && Live(f, 1) && Live(f, 2) && Leaf(f.g, 4)
  {
    forall x: Node | x < 5 ensures Live(f, x) {
      ReachRefl(f.g, 0);
      if x == 4 {
        assert Edge(f.g, 0, 3) && Edge(f.g, 3, 4);
        ReachSnoc(f.g, 0, 0, 3);
        ReachSnoc(f.g, 0, 3, 4);
      } else if x > 0 {
        assert Edge(f.g, 0, x);
        ReachSnoc(f.g, 0, 0, x);
      }
    }
  }

  lemma ClosestHere(f: Flow)
    requires f == Flow(Graph([[3, 2, 1], [3], [], [4], []]), 0, [4, 3, 2, 1, 0])
    ensures Ok(f) && Live(f, 1) && Live(f, 2) && Leaf(f.g, 4) && Closest(f, {4}, 0, [1, 2], 3)
  {
    hide Ok, Live, Narrowing, Closest;
    Stands(f);
    NarrowStart(f, {4}, 0, [1, 2]);
    NarrowStep(f, {4}, 0, [1, 2], [1, 2], 1, 2, [3, 2]);
    NarrowStep(f, {4}, 0, [1, 2], [3, 2], 2, 3, [3]);
    NarrowDone(f, {4}, 0, [1, 2], 3);
  }

  lemma LeafWaysHere(f: Flow)
    requires f == Flow(Graph([[3, 2, 1], [3], [], [4], []]), 0, [4, 3, 2, 1, 0])
    ensures OnLeafWays(f.g, {4}, 0, [1, 2], 1)
  {
    assert Walk(f.g, 0, [1, 2], [1], 1, 1);
    forall p: seq<Node>, a: Node, b: Node
      | Walk(f.g, 0, [1, 2], p, a, b) && DeadEnd(f.g, 0, b) && (b in {4} || f.g.succ[b] != [])
      ensures 1 in p
    {
      PathLast(f.g, p, a, b);
      assert a == 2 ==> b == 2;
    }
  }
}
