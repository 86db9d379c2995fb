/** What a traversal towards helper blocks collects, in terms of the function as it was. */
module Collect {
  import opened Graphs
  import opened Lists
  import opened TailSplit
  import opened BlockPool
  import opened Rewiring
  import opened Gates

  /** Each live block still has successors of its own, and otherwise helper blocks. */
  ghost predicate OwnOrHelper(p: Links, v: Links, live: set<Node>) {
    forall b: Node, t: Node :: b in live && b < |p.succ| && b < |v.succ| && t in v.succ[b] ==>
      t in p.succ[b] || t >= |p.blocks|
  }

  /** Helper blocks lead to helper blocks, and back only to the blocks `back`. */
  ghost predicate Cut(p: Links, v: Links, live: set<Node>, back: set<Node>) {
    && Shaped(p) && Shaped(v) && |p.blocks| <= |v.blocks| && (forall b: Node :: b in live ==> b < |p.blocks|)
    && (forall n: Node, t: Node :: |p.blocks| <= n < |v.blocks| && t in v.succ[n] ==> t >= |p.blocks| || t in back)
    && OwnOrHelper(p, v, live)
  }

  /** Only edges to the blocks of `cut` have been taken away. */
  ghost predicate Keeps(p: Links, v: Links, live: set<Node>, cut: set<Node>) {
    forall b: Node, t: Node :: b in live && b < |p.succ| && b < |v.succ| && t in p.succ[b] && t !in cut ==>
      t in v.succ[b]
  }

  /** The block is said to be dominated, however many edges have been collected. */
  ghost predicate AlwaysDominated(p: Links, live: set<Node>, back: set<Node>, ask: Queries, dominator: Node, y: Node) {
    forall v: Links :: Cut(p, v, live, back) ==> ask.dominates(v, dominator, y)
  }

  /** And a branch from it to the helper block never closes a cycle. */
  ghost predicate NeverCycles(p: Links, live: set<Node>, back: set<Node>, ask: Queries, to: Node, b: Node) {
    forall v: Links :: Cut(p, v, live, back) ==> !ask.introducesCycle(v, to, b)
  }

  /** A way down from the dominator in the function as it was, past none of the blocks `avoid`. */
  ghost predicate Way(p: Links, live: set<Node>, back: set<Node>, ask: Queries, dominator: Node, avoid: set<Node>,
                      w: seq<Node>, b: Node)
  {
    && w != [] && w[|w| - 1] == b && b in live
    && if |w| == 1 then b == dominator
       else
         var x := w[|w| - 2];
         && Way(p, live, back, ask, dominator, avoid, w[..|w| - 1], x)
         && x < |p.succ| && b in p.succ[x] && b !in avoid && AlwaysDominated(p, live, back, ask, dominator, b)
  }

  /** `b` is below the dominator, before all blocks of `avoid`. */
  ghost predicate Beneath(p: Links, live: set<Node>, back: set<Node>, ask: Queries, dominator: Node, avoid: set<Node>,
                          b: Node) {
    exists w: seq<Node> :: Way(p, live, back, ask, dominator, avoid, w, b)
  }

  lemma KeepsFronted(p: Links, live: set<Node>, pdom: Node)
    requires Wirable(p, live) && pdom < |p.blocks|
    ensures Keeps(p, Fronted(p, pdom), live, {pdom})
  {
    hide BlocksTo, Retargeted;
    var v := Fronted(p, pdom);
    forall b: Node, t: Node | b in live && b < |p.succ| && b < |v.succ| && t in p.succ[b] && t != pdom
      ensures t in v.succ[b]
    {
      assert WiredAt(p, b);
      if b in p.pred[pdom] {
        ReplaceAllMembers(p.succ[b], pdom, |p.blocks|);
      }
    }
  }

  /** A helper block, or a block that helper blocks lead back to and that those with a branch to `from` had a
      branch to. */
  ghost predicate Aim(p: Links, st: Links, live: set<Node>, back: set<Node>, from: Node, to: Node) {
    to >= |p.blocks|
    || (to in back && forall b: Node :: b in live && b < |p.succ| && b < |st.succ| && from in st.succ[b] ==>
          to in p.succ[b])
  }

  /** Redirecting edges there only cuts them. */
  lemma CutDiverted(p: Links, st: Links, v: Links, live: set<Node>, back: set<Node>, from: Node, to: Node,
                    via: map<Node, Node>)
    requires Cut(p, st, live, back) && Diverted(st, v, from, to, via) && Aim(p, st, live, back, from, to)
    requires forall b: Node :: b in live ==> b < |st.succ| && Distinct(st.succ[b])
    ensures Cut(p, v, live, back)
  {
    hide DivertedAt, IntermediateAt, Gained;
    DivertedSize(st, v, from, to, via);
    forall n: Node, t: Node | |p.blocks| <= n < |v.blocks| && t in v.succ[n] ensures t >= |p.blocks| || t in back {
      HelperAt(st, v, from, to, via, n, t);
    }
    forall b: Node, t: Node | b in live && b < |p.blocks| && t in v.succ[b] ensures t in p.succ[b] || t >= |p.blocks| {
      CutInRange(p, st, live, back, b, t);
      CutAt(st, v, from, to, via, b, t);
    }
  }

  /** Helper blocks lead where they led, or to `to`. */
  lemma HelperAt(st: Links, v: Links, from: Node, to: Node, via: map<Node, Node>, n: Node, t: Node)
    requires Diverted(st, v, from, to, via) && n < |v.blocks| && t in v.succ[n]
    ensures (n < |st.blocks| && t in st.succ[n]) || t == to || t >= |st.blocks|
  {
    hide Gained;
    if n < |st.blocks| {
      assert DivertedAt(st, v, from, to, via, n);
      if n in via {
        ReplacedBy(st.succ[n], from, via[n], t);
      }
    } else {
      assert IntermediateAt(v, to, n);
    }
  }

  lemma {:induction false} ReplacedBy(xs: seq<Node>, from: Node, to: Node, t: Node)
    requires t in ReplaceFirst(xs, from, to)
    ensures t in xs || t == to
  {
    if xs != [] && xs[0] != from && t != xs[0] {
      assert xs == [xs[0]] + xs[1..];
      ReplacedBy(xs[1..], from, to, t);
    }
  }

  lemma CutInRange(p: Links, st: Links, live: set<Node>, back: set<Node>, b: Node, t: Node)
    requires Cut(p, st, live, back) && b in live
    ensures Shaped(st) && |p.blocks| <= |st.blocks| && b < |p.blocks|
    ensures t in st.succ[b] ==> t in p.succ[b] || t >= |p.blocks|
  {}

  lemma CutAt(st: Links, v: Links, from: Node, to: Node, via: map<Node, Node>, b: Node, t: Node)
    requires Diverted(st, v, from, to, via) && b < |st.blocks| && Distinct(st.succ[b])
    ensures t in v.succ[b] ==> t in st.succ[b] || (t == to && from in st.succ[b]) || t >= |st.blocks|
    ensures t in st.succ[b] && t != from ==> t in v.succ[b]
    ensures b in via && from < |st.blocks| && from != to ==> from !in v.succ[b]
  {
    hide IntermediateAt, Gained;
    assert DivertedAt(st, v, from, to, via, b);
    if b in via {
      ReplaceOne(st.succ[b], from, via[b]);
    }
  }

  lemma {:induction false} ReplaceOne(xs: seq<Node>, from: Node, to: Node)
    requires Distinct(xs)
    ensures forall t: Node :: t in ReplaceFirst(xs, from, to) ==> t in xs || t == to
    ensures forall t: Node :: t in xs && t != from ==> t in ReplaceFirst(xs, from, to)
    ensures from in xs && from != to ==> from !in ReplaceFirst(xs, from, to)
  {
    if xs != [] {
      var rest := xs[1..];
      assert xs == [xs[0]] + rest;
      DistinctSlice(xs, 1, |xs|);
      assert xs[1..|xs|] == rest && xs[..1] == [xs[0]];
      ReplaceOne(rest, from, to);
      var r := ReplaceFirst(xs, from, to);
      assert r == if xs[0] == from then [to] + rest else [xs[0]] + ReplaceFirst(rest, from, to);
    }
  }

  lemma KeepsDiverted(p: Links, st: Links, v: Links, live: set<Node>, back: set<Node>, cut: set<Node>, from: Node,
                      to: Node, via: map<Node, Node>)
    requires Cut(p, st, live, back) && Keeps(p, st, live, cut) && Diverted(st, v, from, to, via)
    requires forall b: Node :: b in live ==> b < |st.succ| && Distinct(st.succ[b])
    ensures Keeps(p, v, live, cut + {from})
  {
    hide IntermediateAt, Gained;
    forall b: Node, t: Node | b in live && b < |p.succ| && b < |v.succ| && t in p.succ[b] && t !in cut + {from}
      ensures t in v.succ[b]
    {
      CutAt(st, v, from, to, via, b, t);
    }
  }

  /** No edge to an old block comes back. */
  lemma StaysCut(p: Links, st: Links, v: Links, live: set<Node>, back: set<Node>, from: Node, to: Node,
                 via: map<Node, Node>, b: Node, t: Node)
    requires Cut(p, st, live, back) && Diverted(st, v, from, to, via) && to >= |p.blocks| && b in live && t < |p.blocks|
    requires b < |st.succ| && Distinct(st.succ[b]) && t !in st.succ[b]
    ensures b < |v.succ| && t !in v.succ[b]
  {
    hide IntermediateAt, Gained;
    CutAt(st, v, from, to, via, b, t);
  }

  /** A way in the function as it was is a trail of the traversal. */
  lemma {:induction false} WayIsTrail(p: Links, st: Links, live: set<Node>, back: set<Node>, cut: set<Node>,
                                      ask: Queries, dominator: Node, avoid: set<Node>, from: Node, to: Node,
                                      barrier: seq<Node>, w: seq<Node>, b: Node)
    requires Way(p, live, back, ask, dominator, avoid, w, b) && Cut(p, st, live, back) && Keeps(p, st, live, cut)
    requires cut <= avoid && (forall x: Node :: x in barrier ==> x in avoid) && Aim(p, st, live, back, from, to)
    requires (from in avoid || from >= |p.blocks|) && (to in avoid || to >= |p.blocks|)
    requires forall x: Node :: x in live ==> x < |st.succ| && Distinct(st.succ[x])
    ensures Trail(st, ask, dominator, from, to, barrier, w, b, true)
    decreases |w|
  {
    hide Diverted, Aim;
    if |w| > 1 {
      WayIsTrail(p, st, live, back, cut, ask, dominator, avoid, from, to, barrier, w[..|w| - 1], w[|w| - 2]);
      WayIsLive(p, live, back, ask, dominator, avoid, w[..|w| - 1], w[|w| - 2]);
      CutInRange(p, st, live, back, w[|w| - 2], b);
      CutInRange(p, st, live, back, b, b);
      forall v: Links | During(st, v, from, to) ensures ask.dominates(v, dominator, b) {
        var via :| Diverted(st, v, from, to, via);
        CutDiverted(p, st, v, live, back, from, to, via);
      }
    }
  }

  lemma WayIsLive(p: Links, live: set<Node>, back: set<Node>, ask: Queries, dominator: Node, avoid: set<Node>,
                  w: seq<Node>, b: Node)
    requires Way(p, live, back, ask, dominator, avoid, w, b)
    ensures b in live
  {}

  /** After the traversal, no block below the dominator has a branch to `from` any more. */
  lemma Collected(p: Links, st: Links, v: Links, live: set<Node>, back: set<Node>, s: set<Node>, cut: set<Node>,
                  ask: Queries, dominator: Node, avoid: set<Node>, from: Node, to: Node, barrier: seq<Node>,
                  via: map<Node, Node>, b: Node)
    requires Rewritten(st, v, s, ask, dominator, from, to, barrier, via)
    requires Cut(p, st, live, back) && Keeps(p, st, live, cut) && Beneath(p, live, back, ask, dominator, avoid, b)
    requires cut <= avoid && (forall x: Node :: x in barrier ==> x in avoid) && Aim(p, st, live, back, from, to)
    requires (from in avoid || from >= |p.blocks|) && (to in avoid || to >= |p.blocks|) && from != to
    requires forall x: Node :: x in live ==> x < |st.succ| && Distinct(st.succ[x])
    requires NeverCycles(p, live, back, ask, to, b)
    ensures b in live && b < |v.succ| && from !in v.succ[b]
  {
    hide Diverted, Wired, Apart, Trail, Aim;
    var w :| Way(p, live, back, ask, dominator, avoid, w, b);
    WayIsLive(p, live, back, ask, dominator, avoid, w, b);
    WayIsTrail(p, st, live, back, cut, ask, dominator, avoid, from, to, barrier, w, b);
    assert Found(st, ask, dominator, from, to, barrier, b, true);
    assert CycleFree(st, ask, from, to, b, true) by {
      forall u: Links | During(st, u, from, to) ensures !ask.introducesCycle(u, to, b) {
        var via' :| Diverted(st, u, from, to, via');
        CutDiverted(p, st, u, live, back, from, to, via');
      }
    }
    DivertedSize(st, v, from, to, via);
    CutAt(st, v, from, to, via, b, from);
  }

  // ---------------------------------------------------------------- and nothing else

  /** A way down from the dominator past none of the blocks `avoid`, each said to be dominated in some state. */
  ghost predicate Descent(p: Links, ask: Queries, dominator: Node, avoid: set<Node>, w: seq<Node>, b: Node) {
    && w != [] && w[|w| - 1] == b
    && if |w| == 1 then b == dominator
       else
         var x := w[|w| - 2];
         && Descent(p, ask, dominator, avoid, w[..|w| - 1], x)
         && x < |p.succ| && b in p.succ[x] && b !in avoid && exists v: Links :: ask.dominates(v, dominator, b)
  }

  /** There is such a way, and in some state a branch from `b` to `to` is not said to close a cycle. */
  ghost predicate MaybeBeneath(p: Links, ask: Queries, dominator: Node, avoid: set<Node>, to: Node, b: Node) {
    && (exists w: seq<Node> :: Descent(p, ask, dominator, avoid, w, b))
    && exists v: Links :: !ask.introducesCycle(v, to, b)
  }

  /** Helper blocks other than the two ends of a rewrite lead to helper blocks only, or back to the dominator. */
  ghost predicate HelpersApart(p: Links, st: Links, dominator: Node, from: Node, to: Node) {
    forall n: Node, t: Node :: |p.blocks| <= n < |st.succ| && n != from && n != to && t in st.succ[n] ==>
      t >= |p.blocks| || t == dominator
  }

  /** Live blocks lead to live blocks and helper blocks. */
  ghost predicate Inside(p: Links, st: Links, live: set<Node>) {
    forall x: Node :: x in live ==> x < |p.succ| && x < |st.succ| && forall t: Node :: t in st.succ[x] ==>
      t in live || t >= |p.blocks|
  }

  /** What a traversal finds is below the dominator in the function as it was. */
  lemma {:induction false} TrailIsDescent(p: Links, st: Links, live: set<Node>, ask: Queries, dominator: Node,
                                          avoid: set<Node>, from: Node, to: Node, barrier: seq<Node>, w: seq<Node>,
                                          b: Node) returns (r: seq<Node>)
    requires Trail(st, ask, dominator, from, to, barrier, w, b, false) && OwnOrHelper(p, st, live)
    requires HelpersApart(p, st, dominator, from, to) && dominator in live && b < |p.blocks| == |p.succ|
    requires forall x: Node :: x in avoid ==> x == from || x == to || x in barrier
    requires Inside(p, st, live)
    ensures Descent(p, ask, dominator, avoid, r, b) && b in live
    decreases |w|
  {
    if b == dominator {
      r := [b];
    } else {
      var x := w[|w| - 2];
      assert x < |p.blocks|;
      r := TrailIsDescent(p, st, live, ask, dominator, avoid, from, to, barrier, w[..|w| - 1], x);
      var v: Links :| During(st, v, from, to) && ask.dominates(v, dominator, b);
      assert (r + [b])[..|r|] == r && (r + [b])[|r| - 1] == x;
      r := r + [b];
    }
  }

  /** A redirected block was below the dominator. */
  lemma FoundBeneath(p: Links, st: Links, v: Links, live: set<Node>, s: set<Node>, ask: Queries, dominator: Node,
                     avoid: set<Node>, from: Node, to: Node, barrier: seq<Node>, via: map<Node, Node>, b: Node)
    requires Rewritten(st, v, s, ask, dominator, from, to, barrier, via) && b in via && OwnOrHelper(p, st, live)
    requires HelpersApart(p, st, dominator, from, to) && dominator in live && b < |p.blocks| == |p.succ|
    requires forall x: Node :: x in avoid ==> x == from || x == to || x in barrier
    requires Inside(p, st, live)
    ensures MaybeBeneath(p, ask, dominator, avoid, to, b)
  {
    hide Diverted, Wired, Apart, Trail, HelpersApart, OwnOrHelper, Descent, Inside;
    assert Found(st, ask, dominator, from, to, barrier, b, false) && CycleFree(st, ask, from, to, b, false);
    var w: seq<Node> :| Trail(st, ask, dominator, from, to, barrier, w, b, false);
    var r := TrailIsDescent(p, st, live, ask, dominator, avoid, from, to, barrier, w, b);
  }

  // ---------------------------------------------------------------- what is left

  /** No block below the dominator, from which the helper block closes no cycle, has a branch to `from`. */
  ghost predicate NoneLeft(p: Links, v: Links, live: set<Node>, back: set<Node>, ask: Queries, dominator: Node,
                           avoid: set<Node>, from: Node, to: Node) {
    forall b: Node :: Beneath(p, live, back, ask, dominator, avoid, b) && NeverCycles(p, live, back, ask, to, b) ==>
      b in live && b < |v.succ| && from !in v.succ[b]
  }

  lemma NoneLeftNow(p: Links, st: Links, v: Links, live: set<Node>, back: set<Node>, s: set<Node>, cut: set<Node>,
                    ask: Queries, dominator: Node, avoid: set<Node>, from: Node, to: Node, barrier: seq<Node>,
                    via: map<Node, Node>)
    requires Rewritten(st, v, s, ask, dominator, from, to, barrier, via)
    requires Cut(p, st, live, back) && Keeps(p, st, live, cut)
    requires cut <= avoid && (forall x: Node :: x in barrier ==> x in avoid) && Aim(p, st, live, back, from, to)
    requires (from in avoid || from >= |p.blocks|) && (to in avoid || to >= |p.blocks|) && from != to
    requires forall x: Node :: x in live ==> x < |st.succ| && Distinct(st.succ[x])
    ensures NoneLeft(p, v, live, back, ask, dominator, avoid, from, to)
    ensures Cut(p, v, live, back) && Keeps(p, v, live, cut + {from})
  {
    hide Rewritten, Cut, Keeps, Beneath, NeverCycles, Aim;
    RewrittenDiverts(st, v, s, ask, dominator, from, to, barrier, via);
    CutDiverted(p, st, v, live, back, from, to, via);
    KeepsDiverted(p, st, v, live, back, cut, from, to, via);
    forall b: Node | Beneath(p, live, back, ask, dominator, avoid, b) && NeverCycles(p, live, back, ask, to, b)
      ensures b in live && b < |v.succ| && from !in v.succ[b]
    {
      Collected(p, st, v, live, back, s, cut, ask, dominator, avoid, from, to, barrier, via, b);
    }
  }

  lemma RewrittenDiverts(st: Links, v: Links, s: set<Node>, ask: Queries, dominator: Node, from: Node, to: Node,
                         barrier: seq<Node>, via: map<Node, Node>)
    requires Rewritten(st, v, s, ask, dominator, from, to, barrier, via)
    ensures Diverted(st, v, from, to, via)
  {}

  /** Nor does a later traversal give one back. */
  lemma NoneLeftStays(p: Links, st: Links, v: Links, live: set<Node>, back: set<Node>, ask: Queries, dominator: Node,
                      avoid: set<Node>, from: Node, to: Node, from': Node, to': Node, via: map<Node, Node>)
    requires NoneLeft(p, st, live, back, ask, dominator, avoid, from, to) && Cut(p, st, live, back)
    requires Diverted(st, v, from', to', via) && to' >= |p.blocks| > from
    requires forall x: Node :: x in live ==> x < |st.succ| && Distinct(st.succ[x])
    ensures NoneLeft(p, v, live, back, ask, dominator, avoid, from, to)
  {
    hide Diverted, Cut, Beneath, NeverCycles;
    forall b: Node | Beneath(p, live, back, ask, dominator, avoid, b) && NeverCycles(p, live, back, ask, to, b)
      ensures b in live && b < |v.succ| && from !in v.succ[b]
    {
      StaysCut(p, st, v, live, back, from', to', via, b, from);
    }
  }

  lemma NoneLeftSame(p: Links, st: Links, v: Links, live: set<Node>, back: set<Node>, ask: Queries, dominator: Node,
                     avoid: set<Node>, from: Node, to: Node)
    requires NoneLeft(p, st, live, back, ask, dominator, avoid, from, to)
    requires forall b: Node :: b in live ==> b < |st.succ| && b < |v.succ| && v.succ[b] == st.succ[b]
    ensures NoneLeft(p, v, live, back, ask, dominator, avoid, from, to)
  {
    hide Beneath, NeverCycles;
  }

  /** Once all old predecessors of a block have been collected, no block branches to it. */
  lemma AllGone(p: Links, v: Links, live: set<Node>, back: set<Node>, ask: Queries, dominator: Node, avoid: set<Node>,
                from: Node, to: Node)
    requires NoneLeft(p, v, live, back, ask, dominator, avoid, from, to) && OwnOrHelper(p, v, live) && from < |p.blocks|
    requires forall b: Node :: b in live && b < |p.succ| && from in p.succ[b] ==>
               Beneath(p, live, back, ask, dominator, avoid, b) && NeverCycles(p, live, back, ask, to, b)
    ensures forall b: Node :: b in live && b < |p.succ| && b < |v.succ| ==> from !in v.succ[b]
  {
    hide Beneath, NeverCycles;
  }

  // ---------------------------------------------------------------- queries that tell the truth

  /** Once among the helper blocks, control only gets to blocks that those in `back` lead to. */
  lemma {:induction false} PathStaysOut(p: Links, v: Links, live: set<Node>, back: set<Node>, r: seq<Node>, a: Node,
                                        y: Node)
    requires Cut(p, v, live, back) && Path(GraphOf(v), r, a, y) && y < |p.blocks|
    requires (forall b: Node, t: Node :: b in live && b < |p.succ| && t in p.succ[b] ==> t in live) && back <= live
    requires a in live || a >= |p.blocks|
    requires forall z: Node :: z in back ==> !Reach(GraphOf(p), z, y)
    ensures a in live && Path(GraphOf(p), r, a, y)
    decreases |r|
  {
    if |r| > 1 {
      var s := r[1];
      if a in live {
        CutInRange(p, v, live, back, a, s);
      }
      PathStaysOut(p, v, live, back, r[1..], s, y);
      if a >= |p.blocks| {
        assert s in back && Reach(GraphOf(p), s, y);
      }
    }
  }

  /** The queries answer dominance and reachability as they are. */
  ghost predicate Truthful(ask: Queries, entry: Node) {
    && (forall v: Links, a: Node, b: Node :: ask.dominates(v, a, b) <==> Dominating(GraphOf(v), entry, a, b))
    && (forall v: Links, a: Node, b: Node :: ask.introducesCycle(v, a, b) <==> Reach(GraphOf(v), a, b))
  }

  /** A dominator of a block that no block of `back` leads to stays one. */
  lemma StaysDominated(p: Links, live: set<Node>, back: set<Node>, ask: Queries, entry: Node, a: Node, y: Node)
    requires Truthful(ask, entry) && entry in live && y in live && Dominating(GraphOf(p), entry, a, y)
    requires (forall b: Node, t: Node :: b in live && b < |p.succ| && t in p.succ[b] ==> t in live) && back <= live
    requires forall z: Node :: z in back ==> !Reach(GraphOf(p), z, y)
    ensures AlwaysDominated(p, live, back, ask, a, y)
  {
    hide Cut, Path;
    forall v: Links | Cut(p, v, live, back) ensures ask.dominates(v, a, y) {
      forall r: seq<Node> | Path(GraphOf(v), r, entry, y) ensures a in r {
        CutInRange(p, v, live, back, y, y);
        PathStaysOut(p, v, live, back, r, entry, y);
      }
    }
  }

  /** And a branch from it to a helper block closes no cycle. */
  lemma StaysAcyclic(p: Links, live: set<Node>, back: set<Node>, ask: Queries, entry: Node, to: Node, y: Node)
    requires Truthful(ask, entry) && y in live && (to >= |p.blocks| || to in back)
    requires (forall b: Node, t: Node :: b in live && b < |p.succ| && t in p.succ[b] ==> t in live) && back <= live
    requires forall z: Node :: z in back ==> !Reach(GraphOf(p), z, y)
    ensures NeverCycles(p, live, back, ask, to, y)
  {
    hide Cut, Path;
    forall v: Links | Cut(p, v, live, back) ensures !ask.introducesCycle(v, to, y) {
      if Reach(GraphOf(v), to, y) {
        var r :| Path(GraphOf(v), r, to, y);
        CutInRange(p, v, live, back, y, y);
        PathStaysOut(p, v, live, back, r, to, y);
        CutInRange(p, v, live, back, to, y);
      }
    }
  }

  /** All blocks on a walk down from a dominator are below it. */
  lemma {:induction false} BeneathByWalk(p: Links, live: set<Node>, back: set<Node>, ask: Queries, entry: Node,
                                       dominator: Node, avoid: set<Node>, r: seq<Node>, b: Node)
    requires Truthful(ask, entry) && entry in live && dominator in live && back <= live
    requires forall b: Node, t: Node :: b in live && b < |p.succ| && t in p.succ[b] ==> t in live
    requires Path(GraphOf(p), r, dominator, b) && dominator !in r[1..] && forall x: Node :: x in r[1..] ==> x !in avoid
    requires Dominating(GraphOf(p), entry, dominator, b) && forall z: Node :: z in back ==> !Reach(GraphOf(p), z, b)
    ensures b in live && Beneath(p, live, back, ask, dominator, avoid, b)
    decreases |r|
  {
    hide Cut, Truthful, AlwaysDominated, Path, Reach, Dominating;
    WalkEnds(p, r, dominator, b);
    if |r| == 1 {
      assert Way(p, live, back, ask, dominator, avoid, [dominator], dominator);
    } else {
      var q, x := PathLastEdge(GraphOf(p), r, dominator, b);
      WalkEnds(p, q, dominator, x);
      assert q[1..] <= r[1..] && b in r[1..] && forall y: Node :: y in q[1..] ==> y in r[1..] by {
        assert r[1..] == q[1..] + [b];
      }
      DominatesBefore(GraphOf(p), entry, dominator, x, b);
      forall z: Node | z in back ensures !Reach(GraphOf(p), z, x) {
        if Reach(GraphOf(p), z, x) { ReachSnoc(GraphOf(p), z, x, b); }
      }
      BeneathByWalk(p, live, back, ask, entry, dominator, avoid, q, x);
      StaysDominated(p, live, back, ask, entry, dominator, b);
      BeneathNext(p, live, back, ask, dominator, avoid, x, b);
    }
  }

  lemma BeneathNext(p: Links, live: set<Node>, back: set<Node>, ask: Queries, dominator: Node, avoid: set<Node>,
                    x: Node, b: Node)
    requires Beneath(p, live, back, ask, dominator, avoid, x) && x < |p.succ| && b in p.succ[x] && b in live
    requires b !in avoid && AlwaysDominated(p, live, back, ask, dominator, b)
    ensures Beneath(p, live, back, ask, dominator, avoid, b)
  {
    hide Cut, AlwaysDominated;
    var w :| Way(p, live, back, ask, dominator, avoid, w, x);
    var w' := w + [b];
    assert w'[..|w'| - 1] == w;
    assert Way(p, live, back, ask, dominator, avoid, w', b);
  }

  lemma WalkEnds(p: Links, r: seq<Node>, a: Node, b: Node)
    requires Path(GraphOf(p), r, a, b)
    ensures r != [] && r[0] == a && r[|r| - 1] == b && b < |p.succ|
  {
    PathLast(GraphOf(p), r, a, b);
  }

  /** A strict dominator of a block dominates its predecessors. */
  lemma DominatesBefore(g: Graph, entry: Node, a: Node, x: Node, b: Node)
    requires Dominating(g, entry, a, b) && Edge(g, x, b) && a != b && b < |g.succ|
    ensures Dominating(g, entry, a, x)
  {
    forall r: seq<Node> | Path(g, r, entry, x) ensures a in r {
      PathSnoc(g, r, entry, x, b);
    }
  }

  /** Control gets from `a` down to `b` past none of the blocks `avoid`. */
  ghost predicate Descends(g: Graph, a: Node, avoid: set<Node>, b: Node) {
    exists r: seq<Node> :: Path(g, r, a, b) && r != [] && a !in r[1..] && forall x: Node :: x in r[1..] ==> x !in avoid
  }

  /** The block dominates `b`, control gets from it to `b`, and not to `b` from the blocks that helper blocks
      lead to. */
  ghost predicate Enclosed(p: Links, back: set<Node>, entry: Node, dominator: Node, avoid: set<Node>, b: Node)
  {
    && Dominating(GraphOf(p), entry, dominator, b) && Descends(GraphOf(p), dominator, avoid, b)
    && forall z: Node :: z in back ==> !Reach(GraphOf(p), z, b)
  }

  /** With queries that tell the truth, all branches to a block from inside are collected. */
  lemma EnclosedAllGone(p: Links, v: Links, live: set<Node>, back: set<Node>, ask: Queries, entry: Node,
                        dominator: Node, avoid: set<Node>, from: Node, to: Node)
    requires Truthful(ask, entry) && entry in live && dominator in live && back <= live
    requires forall b: Node, t: Node :: b in live && b < |p.succ| && t in p.succ[b] ==> t in live
    requires NoneLeft(p, v, live, back, ask, dominator, avoid, from, to) && to >= |p.blocks|
    ensures forall b: Node :: Enclosed(p, back, entry, dominator, avoid, b) ==> b < |v.succ| && from !in v.succ[b]
  {
    hide Truthful, Beneath, NeverCycles, Path, Dominating, Reach;
    forall b: Node | Enclosed(p, back, entry, dominator, avoid, b) ensures b < |v.succ| && from !in v.succ[b] {
      var r :| Path(GraphOf(p), r, dominator, b) && r != [] && dominator !in r[1..]
               && forall x: Node :: x in r[1..] ==> x !in avoid;
      BeneathByWalk(p, live, back, ask, entry, dominator, avoid, r, b);
      StaysAcyclic(p, live, back, ask, entry, to, b);
    }
  }
}
