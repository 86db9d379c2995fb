/** Common post-dominators when breaks to one block are ignored. */
module MergeQuery {
  import opened Wrappers
  import opened Graphs
  import opened Lists
  import opened Dominance
  import opened NodePool
  import opened FlowGraph
  import opened Traversal
  import opened Funnels

  ghost predicate Sorted(num: seq<nat>, ys: seq<Node>) {
    InRange(ys, |num|) && forall i, j :: 0 <= i < j < |ys| ==> num[ys[i]] >= num[ys[j]]
  }

  /** Puts `x` where it belongs in a list sorted by descending number. */
  method InsertDescending(num: seq<nat>, ys: seq<Node>, x: Node) returns (zs: seq<Node>)
    requires Sorted(num, ys) && x < |num| && Distinct(ys) && x !in ys
    ensures Sorted(num, zs) && Distinct(zs) && |zs| == |ys| + 1
    ensures forall y: Node :: y in zs <==> y in ys || y == x
  {
    var k: nat := 0;
    while k < |ys| && num[ys[k]] >= num[x]
      invariant k <= |ys| && forall j :: 0 <= j < k ==> num[ys[j]] >= num[x]
    {
      k := k + 1;
    }
    DistinctInsert(ys, k, x);
    SortedInsert(num, ys, k, x);
    zs := ys[..k] + [x] + ys[k..];
    assert ys == ys[..k] + ys[k..];
  }

  lemma SortedInsert(num: seq<nat>, ys: seq<Node>, k: nat, x: Node)
    requires Sorted(num, ys) && x < |num| && k <= |ys|
    requires forall j :: 0 <= j < k ==> num[ys[j]] >= num[x]
    requires k < |ys| ==> num[ys[k]] < num[x]
    ensures Sorted(num, ys[..k] + [x] + ys[k..])
  {
    var zs := ys[..k] + [x] + ys[k..];
    forall i | 0 <= i < |zs| ensures zs[i] < |num| && zs[i] == if i < k then ys[i] else if i == k then x
    else ys[i - 1] {}
  }

  /** `std::sort`, descending by number. */
  method SortDescending(num: seq<nat>, xs: seq<Node>) returns (ys: seq<Node>)
    requires InRange(xs, |num|) && Distinct(xs)
    ensures |ys| == |xs| && Distinct(ys) && (forall x: Node :: x in ys <==> x in xs)
    ensures Sorted(num, ys)
  {
    hide Distinct, Sorted;
    NothingSorted(num);
    ys := [];
    var i := 0;
    while i < |xs|
      invariant i == |ys| <= |xs| && Distinct(ys) && Sorted(num, ys)
      invariant forall x: Node :: x in ys <==> x in xs[..i]
    {
      assert xs[i] !in xs[..i] by {
        DistinctSlice(xs, 0, i);
        assert xs[0..i] == xs[..i] && xs[i] in xs[i..];
      }
      assert xs[..i + 1] == xs[..i] + [xs[i]];
      ys := InsertDescending(num, ys, xs[i]);
      i := i + 1;
    }
    assert xs[..i] == xs;
  }

  lemma NothingSorted(num: seq<nat>)
    ensures Sorted(num, []) && Distinct<Node>([])
  {}

  lemma DistinctInsert(ys: seq<Node>, k: nat, x: Node)
    requires Distinct(ys) && k <= |ys| && x !in ys
    ensures Distinct(ys[..k] + [x] + ys[k..])
  {
    DistinctSlice(ys, 0, k);
    DistinctSlice(ys, k, |ys|);
    assert ys[0..k] == ys[..k] && ys[k..|ys|] == ys[k..];
    DistinctSnoc(ys[..k], x);
    DistinctConcat(ys[..k] + [x], ys[k..]);
  }

  /** Adds the blocks of `more` that are neither `ignored` nor there already. */
  method AddMissing(xs: seq<Node>, more: seq<Node>, ignored: Node) returns (ys: seq<Node>)
    requires Distinct(xs)
    ensures Distinct(ys) && forall x: Node :: x in ys <==> x in xs || (x in more && x != ignored)
  {
    ys := xs;
    var i := 0;
    while i < |more|
      invariant i <= |more| && Distinct(ys)
      invariant forall x: Node :: x in ys <==> x in xs || (x in more[..i] && x != ignored)
    {
      assert more[..i + 1] == more[..i] + [more[i]];
      if more[i] != ignored && more[i] !in ys {
        DistinctSnoc(ys, more[i]);
        ys := ys + [more[i]];
      }
      i := i + 1;
    }
    assert more[..i] == more;
  }

  /** The live blocks that control flow leaves the function from. */
  ghost function Leaves(c: Pool): set<Node>
    requires |c.succ| == |c.succBackEdge|
    reads c`succ, c`succBackEdge, c`forwardOrder
  {
    set x: Node | x in c.forwardOrder && x < |c.succ| && c.succ[x] == [] && c.succBackEdge[x] == None
  }

  /** One round: the earliest candidate gives way to its successors. */
  method Advance(c: Pool, candidates: seq<Node>, ignored: Node) returns (front: Node, other: Node,
          next: Option<seq<Node>>)
    requires Traversed(c) && Distinct(candidates) && |candidates| > 1 && ignored !in candidates
    requires forall x: Node :: x in candidates ==> x in c.forwardOrder
    ensures |c.succ| == |c.succBackEdge| && front in candidates && other in candidates && front != other
    ensures next.None? ==> front in Leaves(c)
    ensures next.Some? ==>
              && front !in Leaves(c) && Distinct(next.value) && next.value != [] && ignored !in next.value
              && (forall z: Node :: z in next.value <==>
                    (z in candidates && z != front) || (Edge(Forward(c).g, front, z) && z != ignored))
    ensures forall x: Node :: x in candidates && x != front ==>
              x < |c.forwardNumber| && front < |c.forwardNumber| && c.forwardNumber[x] < c.forwardNumber[front]
  {
    hide Traversed, Distinct, Edge, Restrict;
    BlocksInRange(c, candidates);
    TraversedNumbered(c);
    var sorted := SortDescending(c.forwardNumber, candidates);
    var others := sorted[1..];
    front, other := sorted[0], sorted[1];
    FirstIsHighest(c, candidates, sorted);
    SuccsOf(c, front);
    if c.succ[front] == [] && c.succBackEdge[front] == None {
      next := None;
    } else {
      NothingSorted(c.forwardNumber);
      var nodes := AddMissing([], c.succ[front], ignored);
      nodes := AddMissing(nodes, others, ignored);
      assert other == others[0] && other in nodes;
      next := Some(nodes);
    }
  }

  lemma FirstIsHighest(c: Pool, candidates: seq<Node>, sorted: seq<Node>)
    requires Traversed(c) && |sorted| > 1 && Distinct(sorted) && Sorted(c.forwardNumber, sorted)
    requires forall x: Node :: x in sorted <==> x in candidates
    requires forall x: Node :: x in candidates ==> x in c.forwardOrder
    ensures sorted[0] in candidates && sorted[1] in candidates && sorted[0] != sorted[1]
    ensures forall x: Node :: x in sorted[1..] <==> x in candidates && x != sorted[0]
    ensures forall x: Node :: x in sorted[1..] ==>
              x < |c.forwardNumber| && sorted[0] < |c.forwardNumber| && c.forwardNumber[x] < c.forwardNumber[sorted[0]]
  {
    hide Traversed, Restrict, Distinct, Sorted, Numbered;
    TraversedNumbered(c);
    HighestFirst(Forward(c), c.forwardOrder, candidates, sorted);
  }

  lemma HighestFirst(f: Flow, order: seq<Node>, candidates: seq<Node>, sorted: seq<Node>)
    requires Numbered(f, order) && |sorted| > 1 && Distinct(sorted) && Sorted(f.num, sorted)
    requires (forall x: Node :: x in sorted <==> x in candidates) && forall x: Node :: x in candidates ==> x in order
    ensures sorted[0] in candidates && sorted[1] in candidates && sorted[0] != sorted[1]
    ensures forall x: Node :: x in sorted[1..] <==> x in candidates && x != sorted[0]
    ensures forall x: Node :: x in sorted[1..] ==> x < |f.num| && sorted[0] < |f.num| && f.num[x] < f.num[sorted[0]]
  {
    hide Live;
    var front := sorted[0];
    DistinctPair(sorted, 0, 1);
    assert sorted == [front] + sorted[1..] && front in sorted && sorted[1] in sorted;
    forall x: Node | x in sorted[1..] ensures x != front && x in sorted && f.num[x] < f.num[front] {
      var i :| 0 <= i < |sorted| - 1 && sorted[1..][i] == x;
      DistinctPair(sorted, 0, i + 1);
      assert sorted[i + 1] == x && x in sorted;
      NumbersDiffer(f, front, x);
    }
  }

  /** `find_common_post_dominator_with_ignored_break`: the closest block that every way from a candidate goes through,
      breaks to `ignored` apart; nothing when there is none before an exit is reached. */
  method FindCommonPostDominatorWithIgnoredBreak(c: Pool, candidates0: seq<Node>,
                                                 ignored: Node) returns (r: Option<Node>)
    requires Traversed(c) && Distinct(candidates0) && ignored !in candidates0
    requires forall x: Node :: x in candidates0 ==> x in c.forwardOrder
    ensures |c.succ| == |c.succBackEdge| && (r.Some? ==> r.value in c.forwardOrder)
    ensures r.Some? ==> Closest(Forward(c), Leaves(c), ignored, candidates0, r.value)
    ensures r.None? ==> forall z: Node :: !Funnel(Forward(c), Leaves(c), ignored, candidates0, z)
    ensures r.Some? ==> forall z: Node :: OnAllWays(Forward(c).g, ignored, candidates0, z) ==>
              Reach(Forward(c).g, r.value, z)
    ensures r.None? && candidates0 != [] ==> forall z: Node :: !OnAllWays(Forward(c).g, ignored, candidates0, z)
  {
    hide Traversed, Distinct, Edge, Restrict, Leaves, Path, Numbered, Ok, Funnel, Closest, Narrowing, Live, OnAllWays;
    hide Reach, Leaf;
    TraversedNumbered(c);
    ghost var f, leaves := Forward(c), Leaves(c);
    TraversedOk(c);
    if candidates0 == [] {
      NoCandidates(f, leaves, ignored);
      return None;
    }
    var candidates := candidates0;
    BlocksInRange(c, candidates);
    CandidatesLive(c, candidates);
    LeavesAreLeaves(c);
    NarrowStart(f, leaves, ignored, candidates0);
    while |candidates| != 1
      invariant candidates != [] && Distinct(candidates) && ignored !in candidates
      invariant forall x: Node :: x in candidates ==> x in c.forwardOrder
      invariant InRange(candidates, |c.succ|) && Narrowing(f, leaves, ignored, candidates0, candidates)
      decreases Highest(c.forwardNumber, candidates)
    {
      var front, other, next := Advance(c, candidates, ignored);
      if next == None {
        NarrowNone(f, leaves, ignored, candidates0, candidates, front, other);
        NoneOnAllWays(f, leaves, ignored, candidates0);
        return None;
      }
      CandidatesLive(c, candidates);
      NarrowStep(f, leaves, ignored, candidates0, candidates, front, other, next.value);
      NextLive(c, candidates, front, next.value);
      BlocksInRange(c, next.value);
      HighestDrops(c, candidates, front, next.value);
      candidates := next.value;
    }
    r := Some(candidates[0]);
    assert candidates == [candidates[0]];
    NarrowDone(f, leaves, ignored, candidates0, candidates[0]);
    ClosestLeads(f, leaves, ignored, candidates0, candidates[0]);
  }

  lemma LeavesAreLeaves(c: Pool)
    requires Traversed(c)
    ensures forall l: Node :: l in Leaves(c) ==> Leaf(Forward(c).g, l)
  {}

  lemma TraversedOk(c: Pool)
    requires Traversed(c)
    ensures Ok(Forward(c))
  {}

  lemma CandidatesLive(c: Pool, xs: seq<Node>)
    requires Traversed(c) && forall x: Node :: x in xs ==> x in c.forwardOrder
    ensures forall x: Node :: x in xs ==> Live(Forward(c), x)
  {}

  lemma NextLive(c: Pool, candidates: seq<Node>, front: Node, next: seq<Node>)
    requires Traversed(c) && forall x: Node :: x in candidates ==> x in c.forwardOrder
    requires forall z: Node :: z in next ==> z in candidates || Edge(Forward(c).g, front, z)
    ensures forall x: Node :: x in next ==> x in c.forwardOrder
  {
    forall x: Node | x in next && Edge(Forward(c).g, front, x) ensures x in c.forwardOrder {
      LiveEdge(Forward(c), front, x);
    }
  }

  lemma BlocksInRange(c: Pool, xs: seq<Node>)
    requires Traversed(c) && forall x: Node :: x in xs ==> x in c.forwardOrder
    ensures InRange(xs, |c.succ|) && |Forward(c).g.succ| == |c.succ| == |c.forwardNumber|
  {
    forall i | 0 <= i < |xs| ensures xs[i] < |c.succ| {
      assert xs[i] in xs;
      LiveInRange(Forward(c), xs[i]);
    }
  }

  /** The highest number among the blocks, the measure that every round lowers. */
  ghost function Highest(num: seq<nat>, xs: seq<Node>): (r: nat)
    requires InRange(xs, |num|)
    ensures forall x: Node :: x in xs ==> num[x] <= r
    ensures xs != [] ==> exists x: Node :: x in xs && num[x] == r
  {
    if xs == [] then 0
    else
      assert forall i :: 0 <= i < |xs[1..]| ==> xs[1..][i] == xs[i + 1];
      var h := Highest(num, xs[1..]);
      if xs[1..] == [] || num[xs[0]] > h then num[xs[0]] else h
  }

  lemma HighestDrops(c: Pool, candidates: seq<Node>, front: Node, next: seq<Node>)
    requires Traversed(c) && next != [] && front in candidates
    requires InRange(candidates, |c.forwardNumber|) && InRange(next, |c.forwardNumber|)
    requires forall x: Node :: x in candidates && x != front ==>
               x < |c.forwardNumber| && front < |c.forwardNumber| && c.forwardNumber[x] < c.forwardNumber[front]
    requires forall x: Node :: x in next ==> (x in candidates && x != front) || Edge(Forward(c).g, front, x)
    ensures Highest(c.forwardNumber, next) < Highest(c.forwardNumber, candidates)
  {
    forall x: Node | x in next ensures x < |c.forwardNumber| && front < |c.forwardNumber|
        && c.forwardNumber[x] < c.forwardNumber[front] {
      if Edge(Forward(c).g, front, x) {
        SuccLess(c, front, x);
      }
    }
  }

  lemma SuccLess(c: Pool, x: Node, y: Node)
    requires Traversed(c) && Edge(Forward(c).g, x, y)
    ensures x < |c.forwardNumber| && y < |c.forwardNumber| && c.forwardNumber[y] < c.forwardNumber[x]
  {}
}
