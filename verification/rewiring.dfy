/** Redirecting branches to new helper blocks, one edge at a time. */
module Rewiring {
  import opened Wrappers
  import opened Graphs
  import opened Lists
  import opened IR
  import opened TailSplit
  import opened BlockPool

  // ---------------------------------------------------------------- consistency while rewiring

  /** The successors of `b` know it, and it branches nowhere but to them and along its back edge. */
  ghost predicate WiredAt(v: Links, b: Node)
    requires Shaped(v) && b < |v.blocks|
  {
    && Distinct(v.succ[b])
    && (forall t: Node :: t in v.succ[b] ==> t < |v.blocks| && b in v.pred[t])
    && (forall t: Node :: t in Targets(v.blocks[b].terminator) ==> t in v.succ[b] || v.succBack[b] == Some(t))
  }

  ghost predicate PredsSound(v: Links, t: Node)
    requires Shaped(v) && t < |v.blocks|
  {
    Distinct(v.pred[t]) && forall f: Node :: f in v.pred[t] ==> f < |v.blocks| && t in v.succ[f]
  }

  /** The edge lists are consistent as far as the blocks of `s` are concerned. */
  ghost predicate Wired(v: Links, s: set<Node>) {
    && Shaped(v)
    && (forall b: Node :: b in s ==> b < |v.blocks| && WiredAt(v, b))
    && (forall t: Node :: t < |v.blocks| ==> PredsSound(v, t))
  }

  /** What `CFGNode::retarget_branch` does to the blocks. */
  function Retarget(v: Links, x: Node, from: Node, to: Node): (r: Links)
    requires Shaped(v) && x < |v.blocks| && from < |v.blocks| && to < |v.blocks|
    ensures Shaped(r) && |r.blocks| == |v.blocks|
  {
    var left := Erase(v.pred[from], x);
    v.(blocks := v.blocks[x := v.blocks[x].(terminator := Retargeted(v.blocks[x].terminator, from, to))],
       succ := v.succ[x := ReplaceFirst(v.succ[x], from, to)],
       pred := v.pred[from := left][to := AdoptPred(v.pred[to], from, left == [] && v.predBack[from].None?, x)])
  }

  /** Adopting a predecessor keeps all others, but for a dead block whose place it may take. */
  lemma AdoptMembers(preds: seq<Node>, old': Node, dead: bool, x: Node)
    requires Distinct(preds) && x !in preds
    ensures var r := AdoptPred(preds, old', dead, x);
            && Distinct(r) && x in r && (forall f: Node :: f in r ==> f == x || f in preds)
            && (forall f: Node :: f in preds && f != old' ==> f in r)
            && (old' !in preds || !dead ==> r == preds + [x])
  {
    if dead && old' in preds {
      ReplaceFirstMembers(preds, old', x);
    } else {
      DistinctSnoc(preds, x);
    }
  }

  lemma RetargetAt(v: Links, s: set<Node>, x: Node, from: Node, to: Node, b: Node)
    requires Wired(v, s) && x in s && from in v.succ[x] && to < |v.blocks| && to !in v.succ[x] && from != to
    requires from in s ==>
               from < |v.blocks| && (from !in v.pred[to] || Erase(v.pred[from], x) != [] || v.predBack[from].Some?)
    requires b in s
    ensures from < |v.blocks| && WiredAt(Retarget(v, x, from, to), b)
  {
    assert WiredAt(v, x) && WiredAt(v, b) && PredsSound(v, from) && PredsSound(v, to);
    var left := Erase(v.pred[from], x);
    EraseMembers(v.pred[from], x);
    AdoptMembers(v.pred[to], from, left == [] && v.predBack[from].None?, x);
    if b == x {
      ReplaceFirstMembers(v.succ[x], from, to);
      RetargetedTargets(v.blocks[x].terminator, from, to);
    }
  }

  lemma RetargetPreds(v: Links, s: set<Node>, x: Node, from: Node, to: Node, t: Node)
    requires Wired(v, s) && x in s && from in v.succ[x] && to < |v.blocks| && to !in v.succ[x] && from != to
    requires t < |v.blocks|
    ensures from < |v.blocks| && PredsSound(Retarget(v, x, from, to), t)
  {
    hide Distinct, Retargeted, AdoptPred, ReplaceFirst, Erase;
    assert WiredAt(v, x) && PredsSound(v, from) && PredsSound(v, to) && PredsSound(v, t);
    var left := Erase(v.pred[from], x);
    var w := Retarget(v, x, from, to);
    EraseMembers(v.pred[from], x);
    AdoptMembers(v.pred[to], from, left == [] && v.predBack[from].None?, x);
    ReplaceFirstMembers(v.succ[x], from, to);
    forall f: Node | f in w.pred[t] ensures f < |w.blocks| && t in w.succ[f] {
      if f != x && t == to {
        assert f in v.pred[to];
      }
    }
  }

  lemma RetargetWired(v: Links, s: set<Node>, x: Node, from: Node, to: Node)
    requires Wired(v, s) && x in s && from in v.succ[x] && to < |v.blocks| && to !in v.succ[x] && from != to
    requires from in s ==>
               from < |v.blocks| && (from !in v.pred[to] || Erase(v.pred[from], x) != [] || v.predBack[from].Some?)
    ensures from < |v.blocks| && Wired(Retarget(v, x, from, to), s)
  {
    hide WiredAt, PredsSound, Retargeted, ReplaceFirst, Erase, AdoptPred;
    RetargetPreds(v, s, x, from, to, x);
    forall b: Node | b in s ensures WiredAt(Retarget(v, x, from, to), b) {
      RetargetAt(v, s, x, from, to, b);
    }
    forall t: Node | t < |v.blocks| ensures PredsSound(Retarget(v, x, from, to), t) {
      RetargetPreds(v, s, x, from, to, t);
    }
  }

  /** A new block, with a branch to `to` if there is one. */
  function Created(v: Links, to: Option<Node>): (r: Links)
    requires Shaped(v) && (to.Some? ==> to.value < |v.blocks|)
    ensures Shaped(r) && |r.blocks| == |v.blocks| + 1
  {
    match to
    case None => Links(v.blocks + [IRBlock([], [], Unreachable)], v.succ + [[]], v.pred + [[]], v.succBack + [None],
                       v.predBack + [None])
    case Some(t) =>
      Links(v.blocks + [IRBlock([], [], Branch(t))], v.succ + [[t]], v.pred[t := v.pred[t] + [|v.blocks|]] + [[]],
            v.succBack + [None], v.predBack + [None])
  }

  lemma CreatedWired(v: Links, s: set<Node>, to: Option<Node>)
    requires Wired(v, s) && (to.Some? ==> to.value < |v.blocks|)
    ensures Wired(Created(v, to), s + {|v.blocks|})
  {
    var r, n := Created(v, to), |v.blocks|;
    forall b: Node | b in s + {n} ensures b < |r.blocks| && WiredAt(r, b) {
      if b in s {
        assert WiredAt(v, b);
      } else {
        assert b == n && r.succ[n] == if to.Some? then [to.value] else [];
      }
    }
    forall t: Node | t < |r.blocks| ensures PredsSound(r, t) {
      if t < n {
        assert PredsSound(v, t);
        if to == Some(t) {
          DistinctSnoc(v.pred[t], n);
        }
      }
    }
  }

  /** One more edge redirected. */
  function Redirect(v: Links, x: Node, from: Node, to: Node): (r: Links)
    requires Shaped(v) && x < |v.blocks| && from < |v.blocks| && to < |v.blocks|
    ensures Shaped(r)
  {
    if to in v.succ[x] then Retarget(Created(v, Some(to)), x, from, |v.blocks|) else Retarget(v, x, from, to)
  }

  function RedirectTarget(v: Links, x: Node, to: Node): Node
    requires Shaped(v) && x < |v.blocks|
  {
    if to in v.succ[x] then |v.blocks| else to
  }

  /** `CFGNode::rewrite_branch_through_intermediate_node`: puts a new block between `x` and `to`, which `x`
      branches to instead of `from`. */
  method RewriteThroughIntermediate(f: Blocks, x: Node, from: Node, to: Node,
                                    ghost s: set<Node>) returns (intermediate: Node)
    requires f.Valid() && Wired(f.View(), s) && x in s && from in f.succ[x] && to in f.succ[x]
    modifies f
    ensures f.Valid() && f.nextId == old(f.nextId) && from < |old(f.blocks)| && to < |old(f.blocks)|
            && intermediate == |old(f.blocks)|
    ensures f.View() == Retarget(Created(old(f.View()), Some(to)), x, from, intermediate)
    ensures Wired(f.View(), s + {intermediate})
  {
    hide WiredAt, PredsSound, Erase, AdoptPred, Retargeted, ReplaceFirst;
    ghost var v := f.View();
    SuccKnows(v, s, x, from);
    SuccKnows(v, s, x, to);
    CreatedWired(v, s, Some(to));
    ghost var r := Created(v, Some(to));
    NotKnownYet(v, s, x, to);
    RetargetWired(r, s + {|v.blocks|}, x, from, |v.blocks|);
    NotKnown(r, s + {|v.blocks|}, x, |v.blocks|);
    CreatedKnows(v, s, x, from, to);
    intermediate := f.CreateNode();
    f.blocks := f.blocks[intermediate := f.blocks[intermediate].(terminator := Branch(to))];
    f.AddBranch(intermediate, to);
    CreatedByAdding(v, to);
    assert f.blocks == r.blocks;
    f.RetargetBranch(x, from, intermediate);
  }

  lemma CreatedKnows(v: Links, s: set<Node>, x: Node, from: Node, to: Node)
    requires Wired(v, s) && x in s && from in v.succ[x] && to < |v.blocks|
    ensures x < |v.blocks| && from < |v.blocks| && x in Created(v, Some(to)).pred[from]
  {
    SuccKnows(v, s, x, from);
  }

  /** `CFGNode::retarget_branch_with_intermediate_node`: a block that already branches to `to` gets a new
      block in between, so that the two edges stay apart. */
  method RetargetWithIntermediate(f: Blocks, x: Node, from: Node, to: Node,
                                  ghost s: set<Node>) returns (ghost target: Node)
    requires f.Valid() && Wired(f.View(), s) && x in s && from in f.succ[x] && to < |f.blocks| && from != to
             && x != from
    modifies f
    ensures f.Valid() && f.nextId == old(f.nextId) && from < |old(f.blocks)|
    ensures f.View() == Redirect(old(f.View()), x, from, to) && target == RedirectTarget(old(f.View()), x, to)
    ensures Wired(f.View(), Still(old(f.View()), f.View(), if target == to then s else s + {target}, from, to))
  {
    hide Wired, Erase, AdoptPred, Retargeted, ReplaceFirst, Still;
    ghost var v := f.View();
    SuccKnows(v, s, x, from);
    if to !in f.succ[x] {
      NotKnown(v, s, x, to);
      RetargetStill(v, s, x, from, to);
      target := to;
      f.RetargetBranch(x, from, to);
    } else {
      target := RewriteThroughIntermediate(f, x, from, to, s);
      StillAll(v, f.View(), s + {target}, from, to);
    }
  }

  /** The old target was a predecessor of the new one, and another block has taken its place. */
  ghost predicate Lost(st: Links, v: Links, from: Node, to: Node)
    requires to < |st.pred| && to < |v.pred|
  {
    from in st.pred[to] && from !in v.pred[to]
  }

  /** The blocks that the edge lists are right about: not the old target, once it has lost its place. */
  ghost function Still(st: Links, v: Links, s: set<Node>, from: Node, to: Node): set<Node>
    requires to < |st.pred| && to < |v.pred|
  {
    if Lost(st, v, from, to) then s - {from} else s
  }

  lemma StillAll(v: Links, w: Links, s: set<Node>, from: Node, to: Node)
    requires Wired(w, s) && to < |v.pred| && to < |w.pred|
    ensures Wired(w, Still(v, w, s, from, to))
  {
    hide WiredAt, PredsSound;
  }

  lemma RetargetStill(v: Links, s: set<Node>, x: Node, from: Node, to: Node)
    requires Wired(v, s) && x in s && from in v.succ[x] && to < |v.blocks| && to !in v.succ[x]
    requires from != to && x != from
    ensures from < |v.blocks|
            && Wired(Retarget(v, x, from, to), Still(v, Retarget(v, x, from, to), s, from, to))
  {
    hide WiredAt, PredsSound, Erase, Retargeted, ReplaceFirst, AdoptPred;
    SuccKnows(v, s, x, from);
    var w := Retarget(v, x, from, to);
    if Erase(v.pred[from], x) == [] && v.predBack[from].None? && from in v.pred[to] {
      ReplacedIsLost(v, s, x, from, to);
      FewerWired(v, s, s - {from});
      RetargetWired(v, s - {from}, x, from, to);
    } else {
      RetargetWired(v, s, x, from, to);
      StillAll(v, w, s, from, to);
    }
  }

  lemma FewerWired(v: Links, s: set<Node>, s': set<Node>)
    requires Wired(v, s) && s' <= s
    ensures Wired(v, s')
  {
    hide WiredAt, PredsSound;
  }

  lemma ReplacedIsLost(v: Links, s: set<Node>, x: Node, from: Node, to: Node)
    requires Wired(v, s) && x in s && from in v.succ[x] && to < |v.blocks| && from != to && x != from
             && to !in v.succ[x]
    requires from < |v.blocks| && Erase(v.pred[from], x) == [] && v.predBack[from].None? && from in v.pred[to]
    ensures Lost(v, Retarget(v, x, from, to), from, to)
  {
    hide Erase, Retargeted;
    assert PredsSound(v, to) && WiredAt(v, x);
    NotKnown(v, s, x, to);
    ReplaceFirstMembers(v.pred[to], from, x);
  }

  lemma CreatedByAdding(v: Links, to: Node)
    requires Shaped(v) && to < |v.blocks| && |v.blocks| !in v.pred[to]
    ensures var n, r := |v.blocks|, Created(v, Some(to));
            && (v.succ + [[]])[n := AddUnique((v.succ + [[]])[n], to)] == r.succ
            && (v.pred + [[]])[to := AddUnique((v.pred + [[]])[to], n)] == r.pred
  {
    var none: seq<Node> := [];
    assert AddUnique(none, to) == [to];
    assert (v.succ + [none])[|v.blocks|] == none;
  }

  lemma SuccKnows(v: Links, s: set<Node>, x: Node, t: Node)
    requires Wired(v, s) && x in s && t in v.succ[x]
    ensures x < |v.blocks| && t < |v.blocks| && x in v.pred[t]
  {
    assert WiredAt(v, x);
  }

  lemma NotKnown(v: Links, s: set<Node>, x: Node, t: Node)
    requires Wired(v, s) && x in s && t < |v.blocks| && t !in v.succ[x]
    ensures x !in v.pred[t]
  {
    assert PredsSound(v, t);
  }

  lemma NotKnownYet(v: Links, s: set<Node>, x: Node, to: Node)
    requires Wired(v, s) && x in s && to < |v.blocks|
    ensures |v.blocks| !in v.succ[x] && |v.blocks| !in v.pred[to] && x < |v.blocks|
    ensures forall t: Node :: t < |v.blocks| ==> |v.blocks| !in v.pred[t]
    ensures Created(v, Some(to)).pred[|v.blocks|] == []
  {
    assert WiredAt(v, x) && PredsSound(v, to);
    forall t: Node | t < |v.blocks| ensures |v.blocks| !in v.pred[t] {
      assert PredsSound(v, t);
    }
  }

  // ---------------------------------------------------------------- what a traversal may change

  /** Block `b` branches to `via[b]` instead of `from`, if it was redirected. */
  ghost predicate DivertedAt(st: Links, v: Links, from: Node, to: Node, via: map<Node, Node>, b: Node)
    requires Shaped(st) && Shaped(v) && b < |st.blocks| <= |v.blocks|
  {
    && v.succBack[b] == st.succBack[b] && v.predBack[b] == st.predBack[b]
    && if b in via then
         && v.blocks[b] == st.blocks[b].(terminator := Retargeted(st.blocks[b].terminator, from, via[b]))
         && v.succ[b] == ReplaceFirst(st.succ[b], from, via[b])
         && from in st.succ[b] && (if via[b] == to then to !in st.succ[b] else |st.blocks| <= via[b] < |v.blocks|)
       else v.blocks[b] == st.blocks[b] && v.succ[b] == st.succ[b]
  }

  /** A block made on the way leads to `to`. */
  ghost predicate IntermediateAt(v: Links, to: Node, n: Node)
    requires Shaped(v) && n < |v.blocks|
  {
    v.blocks[n] == IRBlock([], [], Branch(to)) && v.succ[n] == [to] && v.succBack[n].None?
  }

  /** A redirected block, or one made on the way. */
  ghost predicate Newcomer(st: Links, v: Links, to: Node, via: map<Node, Node>, x: Node) {
    (x in via && via[x] == to) || |st.blocks| <= x < |v.blocks|
  }

  /** The predecessors that `to` gained come after those that it had, unless the old target has lost its place: then it
      has no other way in. */
  ghost predicate Gained(st: Links, v: Links, from: Node, to: Node, via: map<Node, Node>)
    requires Shaped(st) && Shaped(v) && from < |st.blocks| && to < |st.blocks| <= |v.blocks|
  {
    && |st.pred[to]| <= |v.pred[to]|
    && (forall x: Node :: x in v.pred[to] ==> x in st.pred[to] || Newcomer(st, v, to, via, x))
    && if Lost(st, v, from, to) then v.pred[from] == [] && v.predBack[from].None?
       else
         && st.pred[to] <= v.pred[to]
         && forall k :: |st.pred[to]| <= k < |v.pred[to]| ==> Newcomer(st, v, to, via, v.pred[to][k])
  }

  ghost predicate Diverted(st: Links, v: Links, from: Node, to: Node, via: map<Node, Node>) {
    && Shaped(st) && Shaped(v) && |st.blocks| <= |v.blocks| && from < |st.blocks| && to < |st.blocks|
    && (forall b: Node :: b in via ==> b < |st.blocks|)
    && (forall b: Node :: b < |st.blocks| ==> DivertedAt(st, v, from, to, via, b))
    && (forall n: Node :: |st.blocks| <= n < |v.blocks| ==> IntermediateAt(v, to, n))
    && Gained(st, v, from, to, via)
    && (forall t: Node :: t < |st.blocks| && t != from && t != to ==> v.pred[t] == st.pred[t])
    && (forall x: Node :: x in v.pred[from] <==> x in st.pred[from] && x !in via)
    && (from !in st.pred[to] && from !in via ==> from !in v.pred[to])
  }

  lemma DivertedStart(st: Links, from: Node, to: Node)
    requires Shaped(st) && from < |st.blocks| && to < |st.blocks|
    ensures Diverted(st, st, from, to, map[])
  {}

  /** The block takes the place of the old target, which nothing leads to any more. */
  ghost predicate Replaced(v: Links, w: Links, x: Node, from: Node, to: Node)
    requires Shaped(v) && Shaped(w) && from < |v.blocks| <= |w.blocks| && to < |v.blocks|
  {
    && from in v.pred[to] && from !in w.pred[to] && |w.pred[to]| == |v.pred[to]|
    && w.pred[from] == [] && w.predBack[from].None? && forall y: Node :: y in w.pred[to] ==> y in v.pred[to] || y == x
  }

  /** What the lists of predecessors become. */
  ghost predicate PredsMoved(v: Links, w: Links, x: Node, from: Node, to: Node, new': Node)
    requires Shaped(v) && Shaped(w) && from < |v.blocks| <= |w.blocks| && to < |v.blocks|
  {
    && (w.pred[to] == v.pred[to] + [new'] || (new' == x && Replaced(v, w, x, from, to)))
    && (forall t: Node :: t < |v.blocks| && t != from && t != to ==> w.pred[t] == v.pred[t])
    && (forall y: Node :: y in w.pred[from] <==> y in v.pred[from] && y != x)
  }

  lemma MovedDirect(v: Links, s: set<Node>, x: Node, from: Node, to: Node)
    requires Wired(v, s) && x in s && from in v.succ[x] && to < |v.blocks| && to !in v.succ[x]
    requires from != to && x != from
    ensures from < |v.blocks| && PredsMoved(v, Retarget(v, x, from, to), x, from, to, x)
  {
    hide ReplaceFirst, Erase, Retargeted;
    assert WiredAt(v, x) && PredsSound(v, from) && PredsSound(v, to);
    EraseMembers(v.pred[from], x);
    var dead := Erase(v.pred[from], x) == [] && v.predBack[from].None?;
    AdoptMembers(v.pred[to], from, dead, x);
    if dead && from in v.pred[to] {
      ReplaceFirstMembers(v.pred[to], from, x);
    }
  }

  lemma MovedThrough(v: Links, s: set<Node>, x: Node, from: Node, to: Node)
    requires Wired(v, s) && x in s && from in v.succ[x] && from != to && to < |v.blocks|
    ensures from < |v.blocks|
            && PredsMoved(v, Retarget(Created(v, Some(to)), x, from, |v.blocks|), x, from, to, |v.blocks|)
  {
    hide AdoptPred, ReplaceFirst, Retargeted;
    assert WiredAt(v, x) && PredsSound(v, from);
    EraseMembers(v.pred[from], x);
  }

  lemma GainedOne(st: Links, v: Links, w: Links, from: Node, to: Node, via: map<Node, Node>, x: Node, target: Node,
                  new': Node)
    requires Diverted(st, v, from, to, via) && Shaped(w) && |v.blocks| <= |w.blocks| && x < |st.blocks| && x !in via
             && x != from
    requires PredsMoved(v, w, x, from, to, new')
             && (if target == to then new' == x else new' == target == |v.blocks| < |w.blocks|)
    requires !Lost(st, v, from, to) && from !in via
    ensures Gained(st, w, from, to, via[x := target])
    ensures from !in st.pred[to] ==> from !in w.pred[to]
  {
    hide DivertedAt, IntermediateAt;
    assert Gained(st, v, from, to, via);
  }

  lemma DivertOne(st: Links, v: Links, from: Node, to: Node, via: map<Node, Node>, s: set<Node>, x: Node)
    requires Diverted(st, v, from, to, via) && Wired(v, s) && x in s && x < |st.blocks| && x !in via && x != from
             && from != to
    requires from in v.succ[x] && !Lost(st, v, from, to) && from !in via
    ensures Diverted(st, Redirect(v, x, from, to), from, to, via[x := RedirectTarget(v, x, to)])
  {
    hide Wired, Gained, Retargeted, ReplaceFirst, Erase, AdoptPred;
    var w, target := Redirect(v, x, from, to), RedirectTarget(v, x, to);
    var via' := via[x := target];
    if to in v.succ[x] {
      MovedThrough(v, s, x, from, to);
    } else {
      MovedDirect(v, s, x, from, to);
    }
    GainedOne(st, v, w, from, to, via, x, target, if target == to then x else target);
    forall b: Node | b < |st.blocks| ensures DivertedAt(st, w, from, to, via', b) {
      assert DivertedAt(st, v, from, to, via, b);
    }
    forall n: Node | |st.blocks| <= n < |w.blocks| ensures IntermediateAt(w, to, n) {
      if n < |v.blocks| {
        assert IntermediateAt(v, to, n);
      }
    }
  }

  // ---------------------------------------------------------------- the traversal

  /** The answers of the dominance and reachability queries, which may depend on the blocks as they are. */
  datatype Queries = Queries(dominates: (Links, Node, Node) -> bool, introducesCycle: (Links, Node, Node) -> bool)

  /** The blocks that may be visited, and the two ends of the rewrite. */
  ghost predicate Scope(st: Links, s: set<Node>, from: Node, to: Node) {
    && Shaped(st) && from < |st.blocks| && to < |st.blocks| && from != to
    && (forall b: Node :: b in s ==> b < |st.blocks| && Distinct(st.succ[b]))
    && (forall b: Node, t: Node :: b in s && b < |st.blocks| && t in st.succ[b] ==> t in s || t == from || t == to)
  }

  ghost function WithNew(st: Links, v: Links, s: set<Node>): set<Node> {
    s + set n | n in Between(|st.blocks|, |v.blocks|)
  }

  /** The numbers from `lo` up to `hi`. */
  function Between(lo: Node, hi: Node): seq<Node> {
    if lo < hi then Fresh(lo, hi - lo) else []
  }

  lemma BetweenRange(lo: Node, hi: Node, n: Node)
    ensures n in Between(lo, hi) <==> lo <= n < hi
  {
    if lo <= n < hi {
      assert Between(lo, hi)[n - lo] == n;
    }
  }

  /** No block branches to both ends of the rewrite. */
  ghost predicate Apart(st: Links, s: set<Node>, from: Node, to: Node)
    requires Shaped(st)
  {
    forall b: Node :: b in s && b < |st.blocks| && from in st.succ[b] ==> to !in st.succ[b]
  }

  /** The state between two steps of a traversal. */
  ghost predicate Underway(st: Links, v: Links, s: set<Node>, from: Node, to: Node, via: map<Node, Node>,
                           visited: set<Node>) {
    && Diverted(st, v, from, to, via) && Wired(v, Still(st, v, WithNew(st, v, s), from, to)) && via.Keys <= visited
    && from !in via
    && (Apart(st, s, from, to) ==> |v.blocks| == |st.blocks|)
  }

  lemma {:induction false} ReplaceFirstAt(xs: seq<Node>, from: Node, to: Node, j: nat)
    requires j < |xs|
    ensures ReplaceFirst(xs, from, to)[j] == if j == Index(xs, from) then to else xs[j]
  {
    if xs[0] != from && j > 0 {
      ReplaceFirstAt(xs[1..], from, to, j - 1);
    }
  }

  /** The successors still to come are those that the block had at the start. */
  lemma RestUnchanged(st: Links, v: Links, from: Node, to: Node, via: map<Node, Node>, x: Node, k: nat)
    requires Diverted(st, v, from, to, via) && x < |st.blocks| && (x in via ==> Index(st.succ[x], from) < k)
    ensures |v.succ[x]| == |st.succ[x]| && forall j :: k <= j < |st.succ[x]| ==> v.succ[x][j] == st.succ[x][j]
  {
    hide IntermediateAt, Gained;
    assert DivertedAt(st, v, from, to, via, x);
    if x in via {
      forall j | k <= j < |st.succ[x]| ensures v.succ[x][j] == st.succ[x][j] {
        ReplaceFirstAt(st.succ[x], from, via[x], j);
      }
    }
  }

  /** Redirecting one edge keeps the traversal on course. */
  lemma UnderwayStep(st: Links, v: Links, s: set<Node>, from: Node, to: Node, via: map<Node, Node>, visited: set<Node>,
                     x: Node)
    requires Scope(st, s, from, to) && Underway(st, v, s, from, to, via, visited) && x in s && x in visited
             && x !in via && x != from
    requires x < |v.blocks| && from in v.succ[x] && !Lost(st, v, from, to)
    requires Wired(Redirect(v, x, from, to),
                   Still(v, Redirect(v, x, from, to),
                         if to in v.succ[x] then WithNew(st, v, s) + {|v.blocks|} else WithNew(st, v, s), from, to))
    ensures Underway(st, Redirect(v, x, from, to), s, from, to, via[x := RedirectTarget(v, x, to)], visited)
  {
    hide Diverted, Wired, Redirect;
    DivertedSize(st, v, from, to, via);
    DivertOne(st, v, from, to, via, WithNew(st, v, s), x);
    NotDiverted(st, v, from, to, via, x);
    var w := Redirect(v, x, from, to);
    RedirectGrows(v, x, from, to);
    var s' := if to in v.succ[x] then WithNew(st, v, s) + {|v.blocks|} else WithNew(st, v, s);
    forall n: Node ensures n in WithNew(st, w, s) <==> n in s' {
      BetweenRange(|st.blocks|, |v.blocks|, n);
      BetweenRange(|st.blocks|, |w.blocks|, n);
    }
    assert WithNew(st, w, s) == s';
    LostNow(st, v, w, from, to, via);
  }

  lemma LostNow(st: Links, v: Links, w: Links, from: Node, to: Node, via: map<Node, Node>)
    requires Diverted(st, v, from, to, via) && from !in via && !Lost(st, v, from, to) && to < |w.pred|
    ensures Lost(st, w, from, to) <==> Lost(v, w, from, to)
  {
    hide DivertedAt, IntermediateAt, Gained;
  }

  lemma NotDiverted(st: Links, v: Links, from: Node, to: Node, via: map<Node, Node>, x: Node)
    requires Diverted(st, v, from, to, via) && x < |st.blocks| && x !in via
    ensures v.succ[x] == st.succ[x]
  {
    assert DivertedAt(st, v, from, to, via, x);
  }

  lemma RedirectGrows(v: Links, x: Node, from: Node, to: Node)
    requires Shaped(v) && x < |v.blocks| && from < |v.blocks| && to < |v.blocks|
    ensures |Redirect(v, x, from, to).blocks| == |v.blocks| + if to in v.succ[x] then 1 else 0
  {}

  lemma DivertedSize(st: Links, v: Links, from: Node, to: Node, via: map<Node, Node>)
    requires Diverted(st, v, from, to, via)
    ensures |st.blocks| <= |v.blocks| && from < |st.blocks| && to < |st.blocks| && Shaped(v) && Shaped(st)
  {}

  /** Which blocks a traversal redirects. */
  ghost predicate OnlyVisited(via0: map<Node, Node>, via: map<Node, Node>, visited0: set<Node>, candidate: Node,
                              barrier: seq<Node>, s: set<Node>) {
    && (forall x: Node :: x in via0 ==> x in via && via[x] == via0[x])
    && (forall x: Node :: x in via && x !in via0 ==> x !in visited0 && x in s && (x == candidate || x !in barrier))
  }

  lemma OnlyVisitedStep(via0: map<Node, Node>, via: map<Node, Node>, visited0: set<Node>, candidate: Node,
                        barrier: seq<Node>, s: set<Node>, target: Node)
    requires OnlyVisited(via0, via, visited0, candidate, barrier, s) && candidate !in via0 && candidate !in visited0
             && candidate in s
    ensures OnlyVisited(via0, via[candidate := target], visited0, candidate, barrier, s)
  {}

  lemma OnlyVisitedTrans(via0: map<Node, Node>, via1: map<Node, Node>, via2: map<Node, Node>, visited0: set<Node>,
                         visited1: set<Node>, candidate: Node, node: Node, barrier: seq<Node>, s: set<Node>)
    requires OnlyVisited(via0, via1, visited0, candidate, barrier, s)
             && OnlyVisited(via1, via2, visited1, node, barrier, s)
    requires visited0 <= visited1 && node !in barrier
    ensures OnlyVisited(via0, via2, visited0, candidate, barrier, s)
  {}

  // ---------------------------------------------------------------- which blocks a traversal finds

  /** A state that a traversal may go through. */
  ghost predicate During(st: Links, v: Links, from: Node, to: Node) {
    exists via: map<Node, Node> :: Diverted(st, v, from, to, via)
  }

  /** The traversal goes on to `y`: it is no end of the rewrite and no barrier, and is said to be dominated, in all
      states or in some state. */
  ghost predicate Passable(st: Links, ask: Queries, dominator: Node, from: Node, to: Node, barrier: seq<Node>, y: Node,
                           always: bool) {
    && y != from && y != to && y !in barrier
    && if always then forall v: Links :: During(st, v, from, to) ==> ask.dominates(v, dominator, y)
       else exists v: Links :: During(st, v, from, to) && ask.dominates(v, dominator, y)
  }

  /** The query does not say, in all states or in some state, that a branch from `b` to `to` closes a cycle. */
  ghost predicate CycleFree(st: Links, ask: Queries, from: Node, to: Node, b: Node, always: bool) {
    if always then forall v: Links :: During(st, v, from, to) ==> !ask.introducesCycle(v, to, b)
    else exists v: Links :: During(st, v, from, to) && !ask.introducesCycle(v, to, b)
  }

  /** A way down from the dominator to `b`. */
  ghost predicate Trail(st: Links, ask: Queries, dominator: Node, from: Node, to: Node, barrier: seq<Node>,
                        p: seq<Node>, b: Node, always: bool) {
    && p != [] && p[|p| - 1] == b
    && if |p| == 1 then b == dominator
       else
         var x := p[|p| - 2];
         && Trail(st, ask, dominator, from, to, barrier, p[..|p| - 1], x, always)
         && x < |st.succ| && b in st.succ[x] && Passable(st, ask, dominator, from, to, barrier, b, always)
  }

  ghost predicate Found(st: Links, ask: Queries, dominator: Node, from: Node, to: Node, barrier: seq<Node>, b: Node,
                        always: bool) {
    exists p: seq<Node> :: Trail(st, ask, dominator, from, to, barrier, p, b, always)
  }

  lemma FoundStart(st: Links, ask: Queries, dominator: Node, from: Node, to: Node, barrier: seq<Node>, always: bool)
    ensures Found(st, ask, dominator, from, to, barrier, dominator, always)
  {
    assert Trail(st, ask, dominator, from, to, barrier, [dominator], dominator, always);
  }

  lemma FoundNext(st: Links, ask: Queries, dominator: Node, from: Node, to: Node, barrier: seq<Node>, x: Node, y: Node,
                  always: bool)
    requires Found(st, ask, dominator, from, to, barrier, x, always) && x < |st.succ| && y in st.succ[x]
    requires Passable(st, ask, dominator, from, to, barrier, y, always)
    ensures Found(st, ask, dominator, from, to, barrier, y, always)
  {
    hide Passable;
    var p :| Trail(st, ask, dominator, from, to, barrier, p, x, always);
    var q := p + [y];
    assert q[..|q| - 1] == p && q[|q| - 2] == x;
    assert Trail(st, ask, dominator, from, to, barrier, q, y, always);
  }

  /** `x` has been found, what it leads to has been visited, and its branch to `from` has been redirected if that never
      closes a cycle, and only if in some state it does not. */
  ghost predicate Explored(st: Links, ask: Queries, dominator: Node, from: Node, to: Node, barrier: seq<Node>,
                           visited: set<Node>, via: map<Node, Node>, x: Node) {
    && x < |st.succ| && Found(st, ask, dominator, from, to, barrier, x, false)
    && (forall y: Node :: y in st.succ[x] && Passable(st, ask, dominator, from, to, barrier, y, true) ==> y in visited)
    && (from in st.succ[x] && CycleFree(st, ask, from, to, x, true) ==> x in via)
    && (x in via ==> from in st.succ[x] && CycleFree(st, ask, from, to, x, false))
  }

  /** All blocks visited since `visited0`, but for one. */
  ghost predicate AllExplored(st: Links, ask: Queries, dominator: Node, from: Node, to: Node, barrier: seq<Node>,
                              visited0: set<Node>, visited: set<Node>, via: map<Node, Node>, but: set<Node>) {
    forall x: Node :: x in visited && x !in visited0 && x !in but ==>
      Explored(st, ask, dominator, from, to, barrier, visited, via, x)
  }

  /** What has been explored stays so while further blocks are visited. */
  lemma ExploredMore(st: Links, ask: Queries, dominator: Node, from: Node, to: Node, barrier: seq<Node>,
                     visited0: set<Node>, visited1: set<Node>, visited: set<Node>, via1: map<Node, Node>,
                     via: map<Node, Node>, node: Node, candidate: Node, s: set<Node>)
    requires AllExplored(st, ask, dominator, from, to, barrier, visited0, visited1, via1, {candidate})
    requires AllExplored(st, ask, dominator, from, to, barrier, visited1, visited, via, {})
    requires OnlyVisited(via1, via, visited1, node, barrier, s) && visited1 <= visited
    ensures AllExplored(st, ask, dominator, from, to, barrier, visited0, visited, via, {candidate})
  {
    hide Found, Passable, CycleFree;
    forall x: Node | x in visited && x !in visited0 && x != candidate
      ensures Explored(st, ask, dominator, from, to, barrier, visited, via, x)
    {
      if x in visited1 {
        assert Explored(st, ask, dominator, from, to, barrier, visited1, via1, x);
      }
    }
  }

  /** Redirecting the candidate changes nothing for the others. */
  lemma ExploredRedirect(st: Links, ask: Queries, dominator: Node, from: Node, to: Node, barrier: seq<Node>,
                         visited0: set<Node>, visited: set<Node>, via: map<Node, Node>, candidate: Node, target: Node)
    requires AllExplored(st, ask, dominator, from, to, barrier, visited0, visited, via, {candidate})
    ensures AllExplored(st, ask, dominator, from, to, barrier, visited0, visited, via[candidate := target], {candidate})
  {
    hide Found, Passable, CycleFree;
    forall x: Node | x in visited && x !in visited0 && x != candidate
      ensures Explored(st, ask, dominator, from, to, barrier, visited, via[candidate := target], x)
    {
      assert Explored(st, ask, dominator, from, to, barrier, visited, via, x);
    }
  }

  lemma ExploredStart(st: Links, ask: Queries, dominator: Node, from: Node, to: Node, barrier: seq<Node>,
                      visited0: set<Node>, via: map<Node, Node>, candidate: Node)
    ensures AllExplored(st, ask, dominator, from, to, barrier, visited0, visited0 + {candidate}, via, {candidate})
  {}

  /** The answers are given in a state of the traversal. */
  lemma AnsweredNow(st: Links, v: Links, s: set<Node>, ask: Queries, dominator: Node, from: Node, to: Node,
                    barrier: seq<Node>, via: map<Node, Node>, visited: set<Node>, x: Node, y: Node)
    requires Underway(st, v, s, from, to, via, visited)
    ensures !ask.introducesCycle(v, to, x) ==> CycleFree(st, ask, from, to, x, false)
    ensures ask.introducesCycle(v, to, x) ==> !CycleFree(st, ask, from, to, x, true)
    ensures y != from && y != to && y !in barrier ==>
              if ask.dominates(v, dominator, y) then Passable(st, ask, dominator, from, to, barrier, y, false)
              else !Passable(st, ask, dominator, from, to, barrier, y, true)
  {
    hide Diverted, Wired;
    assert During(st, v, from, to);
  }

  /** `traverse_dominated_blocks_and_rewrite_branch`: branches to `from` that are found below `candidate`
      go to `to` instead, unless the query says that this would close a cycle. */
  method Traverse(f: Blocks, ask: Queries, dominator: Node, candidate: Node, from: Node, to: Node, barrier: seq<Node>,
                  visited0: set<Node>, ghost st: Links, ghost s: set<Node>, ghost via0: map<Node, Node>)
    returns (visited: set<Node>, ghost via: map<Node, Node>)
    requires f.Valid() && Scope(st, s, from, to) && Underway(st, f.View(), s, from, to, via0, visited0)
    requires candidate in s && candidate !in visited0 && candidate != from
    requires Found(st, ask, dominator, from, to, barrier, candidate, false)
    modifies f
    ensures f.Valid() && f.nextId == old(f.nextId)
    ensures Underway(st, f.View(), s, from, to, via, visited) && visited0 <= visited && candidate in visited
    ensures OnlyVisited(via0, via, visited0, candidate, barrier, s)
    ensures AllExplored(st, ask, dominator, from, to, barrier, visited0, visited, via, {})
    decreases s - visited0
  {
    hide Underway, Scope, OnlyVisited, Redirect, Found, Passable, CycleFree, AllExplored;
    visited := visited0 + {candidate};
    via := via0;
    UnderwayFacts(st, f.View(), s, from, to, via, visited0, candidate);
    UnderwayVisit(st, f.View(), s, from, to, via, visited0, visited);
    OnlyVisitedStart(via, visited0, candidate, barrier, s);
    ExploredStart(st, ask, dominator, from, to, barrier, visited0, via, candidate);
    var k := 0;
    while k < |f.succ[candidate]|
      invariant f.Valid() && f.nextId == old(f.nextId) && candidate < |st.blocks| <= |f.blocks|
                && |f.succ[candidate]| == |st.succ[candidate]|
      invariant Underway(st, f.View(), s, from, to, via, visited) && visited0 + {candidate} <= visited
      invariant OnlyVisited(via0, via, visited0, candidate, barrier, s)
      invariant candidate in via ==> Index(st.succ[candidate], from) < k
      invariant AllExplored(st, ask, dominator, from, to, barrier, visited0, visited, via, {candidate})
      invariant k <= |st.succ[candidate]|
      invariant forall j ::
                  0 <= j < k && Passable(st, ask, dominator, from, to, barrier, st.succ[candidate][j], true) ==>
                    st.succ[candidate][j] in visited
      invariant Index(st.succ[candidate], from) < k && CycleFree(st, ask, from, to, candidate, true) ==>
                  candidate in via
      invariant candidate in via ==> CycleFree(st, ask, from, to, candidate, false)
      decreases |st.succ[candidate]| - k
    {
      UnderwayNext(st, f.View(), s, from, to, via, visited, candidate, k);
      var node: Node := f.succ[candidate][k];
      AnsweredNow(st, f.View(), s, ask, dominator, from, to, barrier, via, visited, candidate, node);
      NotPassable(st, ask, dominator, from, to, barrier, node);
      if node == from {
        if !ask.introducesCycle(f.View(), to, candidate) {
          ghost var v := f.View();
          ghost var target := RetargetWithIntermediate(f, candidate, from, to, WithNew(st, f.View(), s));
          UnderwayStep(st, v, s, from, to, via, visited, candidate);
          OnlyVisitedStep(via0, via, visited0, candidate, barrier, s, target);
          ExploredRedirect(st, ask, dominator, from, to, barrier, visited0, visited, via, candidate, target);
          via := via[candidate := target];
        }
      } else if ask.dominates(f.View(), dominator, node) && node != to && node !in barrier {
        if node !in visited {
          ghost var via1, visited1 := via, visited;
          FoundNext(st, ask, dominator, from, to, barrier, candidate, node, false);
          visited, via := Traverse(f, ask, dominator, node, from, to, barrier, visited, st, s, via);
          ExploredMore(st, ask, dominator, from, to, barrier, visited0, visited1, visited, via1, via, node, candidate,
                       s);
          OnlyVisitedTrans(via0, via1, via, visited0, visited1, candidate, node, barrier, s);
          StillHandled(via1, via, visited1, node, barrier, s, candidate);
        }
      }
      UnderwayFacts(st, f.View(), s, from, to, via, visited, candidate);
      k := k + 1;
    }
    ExploredEnd(st, ask, dominator, from, to, barrier, visited0, visited, via, candidate);
  }

  lemma NotPassable(st: Links, ask: Queries, dominator: Node, from: Node, to: Node, barrier: seq<Node>, y: Node)
    ensures y == from || y == to || y in barrier ==> !Passable(st, ask, dominator, from, to, barrier, y, true)
  {}

  lemma ExploredEnd(st: Links, ask: Queries, dominator: Node, from: Node, to: Node, barrier: seq<Node>,
                    visited0: set<Node>, visited: set<Node>, via: map<Node, Node>, candidate: Node)
    requires AllExplored(st, ask, dominator, from, to, barrier, visited0, visited, via, {candidate})
    requires candidate < |st.succ| && Found(st, ask, dominator, from, to, barrier, candidate, false)
    requires forall j ::
               (0 <= j < |st.succ[candidate]|
                && Passable(st, ask, dominator, from, to, barrier, st.succ[candidate][j], true)) ==>
                 st.succ[candidate][j] in visited
    requires from in st.succ[candidate] && CycleFree(st, ask, from, to, candidate, true) ==> candidate in via
    requires candidate in via ==> from in st.succ[candidate] && CycleFree(st, ask, from, to, candidate, false)
    ensures AllExplored(st, ask, dominator, from, to, barrier, visited0, visited, via, {})
  {
    hide Found, Passable, CycleFree;
    assert Explored(st, ask, dominator, from, to, barrier, visited, via, candidate);
  }

  /** Whatever is found for certain has been visited. */
  lemma {:induction false} FoundIsVisited(st: Links, ask: Queries, dominator: Node, from: Node, to: Node,
                                          barrier: seq<Node>, visited: set<Node>, via: map<Node, Node>, p: seq<Node>,
                                          b: Node)
    requires AllExplored(st, ask, dominator, from, to, barrier, {}, visited, via, {}) && dominator in visited
    requires Trail(st, ask, dominator, from, to, barrier, p, b, true)
    ensures b in visited
    decreases |p|
  {
    hide Found, Passable, CycleFree;
    if |p| > 1 {
      var q, x := p[..|p| - 1], p[|p| - 2];
      FoundIsVisited(st, ask, dominator, from, to, barrier, visited, via, q, x);
      assert Explored(st, ask, dominator, from, to, barrier, visited, via, x);
    }
  }

  lemma OnlyVisitedStart(via: map<Node, Node>, visited: set<Node>, candidate: Node, barrier: seq<Node>, s: set<Node>)
    ensures OnlyVisited(via, via, visited, candidate, barrier, s)
  {}

  lemma StillHandled(via1: map<Node, Node>, via: map<Node, Node>, visited1: set<Node>, node: Node, barrier: seq<Node>,
                     s: set<Node>, candidate: Node)
    requires OnlyVisited(via1, via, visited1, node, barrier, s) && candidate in visited1
    ensures candidate in via <==> candidate in via1
  {}

  lemma UnderwayVisit(st: Links, v: Links, s: set<Node>, from: Node, to: Node, via: map<Node, Node>,
                      visited0: set<Node>, visited: set<Node>)
    requires Underway(st, v, s, from, to, via, visited0) && visited0 <= visited
    ensures Underway(st, v, s, from, to, via, visited)
  {}

  lemma UnderwayFacts(st: Links, v: Links, s: set<Node>, from: Node, to: Node, via: map<Node, Node>,
                      visited: set<Node>, x: Node)
    requires Scope(st, s, from, to) && Underway(st, v, s, from, to, via, visited) && x in s
    ensures Shaped(st) && Shaped(v) && x < |st.blocks| <= |v.blocks| && |v.succ[x]| == |st.succ[x]|
    ensures x !in visited ==> x !in via
  {
    hide DivertedAt, IntermediateAt, Gained, Wired;
    RestUnchanged(st, v, from, to, via, x, |st.succ[x]| + 1);
  }

  /** What one turn of the loop needs to know. */
  lemma UnderwayNext(st: Links, v: Links, s: set<Node>, from: Node, to: Node, via: map<Node, Node>, visited: set<Node>,
                     x: Node, k: nat)
    requires Scope(st, s, from, to) && Underway(st, v, s, from, to, via, visited) && x in s
    requires x < |st.blocks| && (x in via ==> Index(st.succ[x], from) < k) && k < |st.succ[x]| && x != from
    ensures Shaped(v) && |v.succ[x]| == |st.succ[x]| && from != to && from < |st.blocks| && to < |st.blocks|
    ensures v.succ[x][k] == st.succ[x][k] && st.succ[x][k] in st.succ[x]
    ensures var node := v.succ[x][k];
            && (node == from ==>
                  (x !in via && Index(st.succ[x], from) == k && Wired(v, WithNew(st, v, s)) && x in WithNew(st, v, s)
                   && from in v.succ[x] && !Lost(st, v, from, to)))
            && (node != from ==> Index(st.succ[x], from) != k) && (node != from && node != to ==> node in s)
  {
    hide IntermediateAt, Gained, WiredAt, PredsSound;
    RestUnchanged(st, v, from, to, via, x, k);
    BetweenRange(|st.blocks|, |v.blocks|, from);
    var node := v.succ[x][k];
    assert node in st.succ[x];
    if node == from {
      assert Index(st.succ[x], from) == k;
      NotLostYet(st, v, s, from, to, via, visited, x);
    }
  }

  /** While a block still branches to the old target, that has not lost its place. */
  lemma NotLostYet(st: Links, v: Links, s: set<Node>, from: Node, to: Node, via: map<Node, Node>, visited: set<Node>,
                   x: Node)
    requires Underway(st, v, s, from, to, via, visited) && x in s && x != from && x < |v.succ| && from in v.succ[x]
    ensures to < |st.pred| && to < |v.pred| && !Lost(st, v, from, to)
  {
    hide DivertedAt, IntermediateAt, PredsSound;
    assert Gained(st, v, from, to, via);
    assert x in WithNew(st, v, s);
    assert WiredAt(v, x);
  }

  /** What a whole traversal has done: the redirected blocks are those that it found with a branch to `from` which
      closes no cycle. */
  ghost predicate Rewritten(st: Links, v: Links, s: set<Node>, ask: Queries, dominator: Node, from: Node, to: Node,
                            barrier: seq<Node>, via: map<Node, Node>) {
    && Diverted(st, v, from, to, via) && Wired(v, Still(st, v, WithNew(st, v, s), from, to)) && from !in via
    && (Apart(st, s, from, to) ==> |v.blocks| == |st.blocks|)
    && (forall x: Node :: x in via ==> x in s && (x == dominator || x !in barrier))
    && (forall x: Node :: x in via ==>
          && x < |st.succ| && from in st.succ[x] && Found(st, ask, dominator, from, to, barrier, x, false)
          && CycleFree(st, ask, from, to, x, false))
    && (forall x: Node ::
          (x < |st.succ| && from in st.succ[x] && Found(st, ask, dominator, from, to, barrier, x, true)
           && CycleFree(st, ask, from, to, x, true)) ==> x in via)
  }

  /** A traversal from `dominator` itself. */
  method Rewrite(f: Blocks, ask: Queries, dominator: Node, from: Node, to: Node, barrier: seq<Node>, ghost s: set<Node>)
    returns (ghost via: map<Node, Node>)
    requires f.Valid() && Scope(f.View(), s, from, to) && Wired(f.View(), s) && dominator in s && dominator != from
    modifies f
    ensures f.Valid() && f.nextId == old(f.nextId)
    ensures Rewritten(old(f.View()), f.View(), s, ask, dominator, from, to, barrier, via)
  {
    hide Diverted, Wired, Apart, Found, CycleFree, AllExplored, Explored;
    ghost var st := f.View();
    DivertedStart(st, from, to);
    assert WithNew(st, st, s) == s;
    var visited;
    FoundStart(st, ask, dominator, from, to, barrier, false);
    visited, via := Traverse(f, ask, dominator, dominator, from, to, barrier, {}, st, s, map[]);
    forall x: Node | x in via
      ensures x < |st.succ| && from in st.succ[x] && Found(st, ask, dominator, from, to, barrier, x, false)
      ensures CycleFree(st, ask, from, to, x, false)
    {
      AboutExplored(st, ask, dominator, from, to, barrier, visited, via, x);
    }
    forall x: Node | x < |st.succ| && from in st.succ[x] && Found(st, ask, dominator, from, to, barrier, x, true)
                     && CycleFree(st, ask, from, to, x, true)
      ensures x in via
    {
      FoundIsExplored(st, ask, dominator, from, to, barrier, visited, via, x);
      AboutExplored(st, ask, dominator, from, to, barrier, visited, via, x);
    }
  }

  lemma FoundIsExplored(st: Links, ask: Queries, dominator: Node, from: Node, to: Node, barrier: seq<Node>,
                        visited: set<Node>, via: map<Node, Node>, x: Node)
    requires AllExplored(st, ask, dominator, from, to, barrier, {}, visited, via, {}) && dominator in visited
    requires Found(st, ask, dominator, from, to, barrier, x, true)
    ensures x in visited
  {
    hide AllExplored, Passable;
    var p :| Trail(st, ask, dominator, from, to, barrier, p, x, true);
    FoundIsVisited(st, ask, dominator, from, to, barrier, visited, via, p, x);
  }

  lemma AboutExplored(st: Links, ask: Queries, dominator: Node, from: Node, to: Node, barrier: seq<Node>,
                      visited: set<Node>, via: map<Node, Node>, x: Node)
    requires AllExplored(st, ask, dominator, from, to, barrier, {}, visited, via, {}) && x in visited
    ensures x < |st.succ| && Found(st, ask, dominator, from, to, barrier, x, false)
    ensures from in st.succ[x] && CycleFree(st, ask, from, to, x, true) ==> x in via
    ensures x in via ==> from in st.succ[x] && CycleFree(st, ask, from, to, x, false)
  {
    hide Found, Passable, CycleFree;
    assert Explored(st, ask, dominator, from, to, barrier, visited, via, x);
  }

  // ---------------------------------------------------------------- a helper block in front

  /** Every occurrence of `from` becomes `to`. */
  function ReplaceAll(xs: seq<Node>, from: Node, to: Node): (r: seq<Node>)
    ensures |r| == |xs|
  {
    seq(|xs|, i requires 0 <= i < |xs| => if xs[i] == from then to else xs[i])
  }

  lemma ReplaceAllMembers(xs: seq<Node>, from: Node, to: Node)
    requires Distinct(xs) && to !in xs
    ensures Distinct(ReplaceAll(xs, from, to))
    ensures forall t: Node :: t in ReplaceAll(xs, from, to) <==> (t in xs && t != from) || (t == to && from in xs)
  {
    var r := ReplaceAll(xs, from, to);
    forall i, j | 0 <= i < j < |r| ensures r[i] != r[j] {
      DistinctPair(xs, i, j);
    }
    DistinctByPairs(r);
    forall t: Node | (t in xs && t != from) || (t == to && from in xs) ensures t in r {
      var i := Index(xs, if t == to then from else t);
      assert r[i] == t;
    }
  }

  /** The blocks of `preds` branch to `h` instead of `n`. */
  function BlocksTo(blocks: seq<IRBlock>, preds: seq<Node>, n: Node, h: Node): (r: seq<IRBlock>)
    ensures |r| == |blocks|
  {
    seq(|blocks|, b requires 0 <= b < |blocks| => if b in preds
        then blocks[b].(terminator := Retargeted(blocks[b].terminator, n, h)) else blocks[b])
  }

  function SuccTo(succ: seq<seq<Node>>, preds: seq<Node>, n: Node, h: Node): (r: seq<seq<Node>>)
    ensures |r| == |succ|
  {
    seq(|succ|, b requires 0 <= b < |succ| => if b in preds then ReplaceAll(succ[b], n, h) else succ[b])
  }

  lemma ToNext(blocks: seq<IRBlock>, succ: seq<seq<Node>>, preds: seq<Node>, i: nat, n: Node, h: Node)
    requires Distinct(preds) && i < |preds| && preds[i] < |blocks| == |succ|
    ensures var now, p := BlocksTo(blocks, preds[..i], n, h), preds[i];
            now[p] == blocks[p] && now[p :=
                                       now[p].(terminator := Retargeted(now[p].terminator, n, h))] == BlocksTo(blocks,
                                               preds[..i + 1], n, h)
    ensures var now, p := SuccTo(succ, preds[..i], n, h), preds[i];
            now[p] == succ[p] && now[p := ReplaceAll(now[p], n, h)] == SuccTo(succ, preds[..i + 1], n, h)
  {
    hide Retargeted, ReplaceAll;
    DistinctNext(preds, i);
  }

  lemma ToStart(blocks: seq<IRBlock>, succ: seq<seq<Node>>, n: Node, h: Node)
    ensures BlocksTo(blocks, [], n, h) == blocks && SuccTo(succ, [], n, h) == succ
  {}

  method ReplaceSucc(succ0: seq<Node>, n: Node, h: Node) returns (succ: seq<Node>)
    ensures succ == ReplaceAll(succ0, n, h)
  {
    succ := succ0;
    var k := 0;
    while k < |succ|
      invariant k <= |succ| == |succ0|
      invariant forall j :: 0 <= j < |succ| ==> succ[j] == if j < k && succ0[j] == n then h else succ0[j]
    {
      if succ[k] == n {
        succ := succ[k := h];
      }
      k := k + 1;
    }
    assert succ == ReplaceAll(succ0, n, h);
  }

  /** `CFGStructurizer::retarget_pred_from`. */
  method RetargetPredFrom(f: Blocks, h: Node, n: Node)
    requires f.Valid() && h < |f.blocks| && Distinct(f.pred[h]) && forall k :: 0 <= k < |f.pred[h]| ==>
               f.pred[h][k] < |f.blocks|
    modifies f`blocks, f`succ
    ensures f.Valid()
    ensures f.blocks == BlocksTo(old(f.blocks), f.pred[h], n, h) && f.succ == SuccTo(old(f.succ), f.pred[h], n, h)
  {
    hide BlocksTo, SuccTo, Retargeted, ReplaceAll, Distinct;
    var preds := f.pred[h];
    ToStart(f.blocks, f.succ, n, h);
    var i := 0;
    while i < |preds|
      invariant i <= |preds| && f.Valid()
      invariant f.blocks == BlocksTo(old(f.blocks), preds[..i], n, h) && f.succ == SuccTo(old(f.succ), preds[..i], n, h)
    {
      var p: Node := preds[i];
      ToNext(old(f.blocks), old(f.succ), preds, i, n, h);
      var succ := ReplaceSucc(f.succ[p], n, h);
      f.succ := f.succ[p := succ];
      f.blocks := f.blocks[p := f.blocks[p].(terminator := Retargeted(f.blocks[p].terminator, n, h))];
      i := i + 1;
    }
    assert preds[..|preds|] == preds;
  }

  /** `n`'s predecessors branch to a new block instead, and that block to `n`. */
  function Fronted(v: Links, n: Node): (r: Links)
    requires Shaped(v) && n < |v.blocks|
    ensures Shaped(r) && |r.blocks| == |v.blocks| + 1
  {
    var h, preds := |v.blocks|, v.pred[n];
    Links(BlocksTo(v.blocks, preds, n, h) + [IRBlock([], [], Branch(n))],
          SuccTo(v.succ, preds, n, h) + [[n]],
          v.pred[n := [h]] + [preds],
          v.succBack + [None], v.predBack + [None])
  }

  lemma FrontedColumns(v: Links, n: Node)
    requires Shaped(v) && n < |v.blocks| && forall k :: 0 <= k < |v.pred[n]| ==> v.pred[n][k] < |v.blocks|
    ensures var h, preds, none: seq<Node> := |v.blocks|, v.pred[n], [];
            && BlocksTo(v.blocks + [IRBlock([], [], Unreachable)], preds, n, h)[h] == IRBlock([], [], Unreachable)
            && BlocksTo(v.blocks + [IRBlock([], [], Unreachable)], preds, n,
                        h)[h := IRBlock([], [], Branch(n))] == Fronted(v, n).blocks
            && SuccTo(v.succ + [none], preds, n, h)[h] == none
            && SuccTo(v.succ + [none], preds, n, h)[h := AddUnique(none, n)] == Fronted(v, n).succ
            && (v.pred + [none])[h := preds][n := none][n := AddUnique(none, h)] == Fronted(v, n).pred
  {
    hide Retargeted, ReplaceAll;
    assert forall k :: 0 <= k < |v.pred[n]| ==> v.pred[n][k] != |v.blocks|;
    assert |v.blocks| !in v.pred[n];
    assert AddUnique([], n) == [n] && AddUnique([], |v.blocks|) == [|v.blocks|];
  }

  /** `CFGStructurizer::create_helper_pred_block`. */
  method CreateHelperPredBlock(f: Blocks, n: Node, ghost s: set<Node>) returns (helper: Node)
    requires f.Valid() && n < |f.blocks| && Wired(f.View(), s)
    modifies f
    ensures f.Valid() && f.nextId == old(f.nextId) && helper == old(|f.blocks|)
    ensures f.View() == Fronted(old(f.View()), n)
  {
    hide WiredAt, Wired, BlocksTo, SuccTo, AddUnique, Distinct;
    ghost var v := f.View();
    PredsInRange(v, s, n);
    FrontedColumns(v, n);
    helper := f.CreateNode();
    f.pred := f.pred[helper := f.pred[n]][n := f.pred[helper]];
    RetargetPredFrom(f, helper, n);
    f.AddBranch(helper, n);
    f.blocks := f.blocks[helper := f.blocks[helper].(terminator := Branch(n))];
  }

  lemma PredsInRange(v: Links, s: set<Node>, n: Node)
    requires Wired(v, s) && n < |v.blocks|
    ensures Distinct(v.pred[n]) && forall k :: 0 <= k < |v.pred[n]| ==> v.pred[n][k] < |v.blocks|
  {
    assert PredsSound(v, n);
  }

  lemma FrontedWired(v: Links, s: set<Node>, n: Node)
    requires Wired(v, s) && n < |v.blocks|
    ensures Wired(Fronted(v, n), s + {|v.blocks|})
  {
    hide Retargeted, ReplaceAll;
    var r, h := Fronted(v, n), |v.blocks|;
    assert PredsSound(v, n);
    forall b: Node | b in s + {h} ensures b < |r.blocks| && WiredAt(r, b) {
      if b in s {
        assert WiredAt(v, b);
        if b in v.pred[n] {
          ReplaceAllMembers(v.succ[b], n, h);
          RetargetedTargets(v.blocks[b].terminator, n, h);
        }
      }
    }
    forall t: Node | t < |r.blocks| ensures PredsSound(r, t) {
      FrontedPreds(v, s, n, t);
    }
  }

  lemma FrontedPreds(v: Links, s: set<Node>, n: Node, t: Node)
    requires Wired(v, s) && n < |v.blocks| && t < |v.blocks| + 1
    ensures PredsSound(Fronted(v, n), t)
  {
    hide Retargeted, WiredAt;
    var r, h := Fronted(v, n), |v.blocks|;
    assert PredsSound(v, n);
    if t == h {
      forall f: Node | f in r.pred[h] ensures f < |r.blocks| && h in r.succ[f] {
        var i := Index(v.succ[f], n);
        assert r.succ[f][i] == h;
      }
    } else if t != n {
      assert PredsSound(v, t);
      forall f: Node | f in r.pred[t] ensures f < |r.blocks| && t in r.succ[f] {
        var i := Index(v.succ[f], t);
        assert r.succ[f][i] == t;
      }
    } else {
      assert r.pred[n] == [h] && r.succ[h] == [n];
    }
  }

  // ---------------------------------------------------------------- giving a block its branches

  /** `CFGNode::clear_branches`, once the terminator is gone. */
  function Cleared(v: Links, n: Node): (r: Links)
    requires Shaped(v) && n < |v.blocks|
    ensures Shaped(r) && |r.blocks| == |v.blocks|
  {
    v.(blocks := v.blocks[n := v.blocks[n].(terminator := Unreachable)], succ := v.succ[n := []],
       pred := PredsWithout(v.pred, v.succ[n], n))
  }

  lemma ClearedWired(v: Links, s: set<Node>, n: Node)
    requires Wired(v, s) && n < |v.blocks|
    ensures Wired(Cleared(v, n), s + {n})
  {
    var r := Cleared(v, n);
    forall t: Node | t < |r.blocks| ensures PredsSound(r, t) {
      assert PredsSound(v, t);
      EraseMembers(v.pred[t], n);
    }
    forall b: Node | b in s + {n} ensures b < |r.blocks| && WiredAt(r, b) {
      if b != n {
        assert WiredAt(v, b);
        forall t: Node | t in r.succ[b] ensures t < |r.blocks| && b in r.pred[t] {
          assert PredsSound(v, t);
          EraseMembers(v.pred[t], n);
        }
      }
    }
  }

  function WithBranch(v: Links, a: Node, t: Node): (r: Links)
    requires Shaped(v) && a < |v.blocks| && t < |v.blocks|
    ensures Shaped(r) && |r.blocks| == |v.blocks|
  {
    v.(succ := v.succ[a := AddUnique(v.succ[a], t)], pred := v.pred[t := AddUnique(v.pred[t], a)])
  }

  lemma WithBranchWired(v: Links, s: set<Node>, a: Node, t: Node)
    requires Wired(v, s) && a in s && t < |v.blocks|
    ensures a < |v.blocks| && Wired(WithBranch(v, a, t), s)
    ensures forall x: Node :: x in WithBranch(v, a, t).succ[a] <==> x in v.succ[a] || x == t
  {
    assert WiredAt(v, a) && PredsSound(v, t);
    var r := WithBranch(v, a, t);
    if t !in v.succ[a] { DistinctSnoc(v.succ[a], t); }
    if a !in v.pred[t] { DistinctSnoc(v.pred[t], a); }
    forall b: Node | b in s ensures b < |r.blocks| && WiredAt(r, b) {
      assert WiredAt(v, b);
    }
    forall x: Node | x < |r.blocks| ensures PredsSound(r, x) {
      assert PredsSound(v, x);
    }
  }

  lemma TerminatorWired(v: Links, s: set<Node>, a: Node, block: IRBlock)
    requires Wired(v, s) && a in s && forall t: Node :: t in Targets(block.terminator) ==> t in v.succ[a]
    ensures a < |v.blocks| && Wired(v.(blocks := v.blocks[a := block]), s)
  {
    var r := v.(blocks := v.blocks[a := block]);
    forall b: Node | b in s ensures b < |r.blocks| && WiredAt(r, b) {
      assert WiredAt(v, b);
    }
    forall x: Node | x < |r.blocks| ensures PredsSound(r, x) {
      assert PredsSound(v, x);
    }
  }

  /** Only row `a` is different. */
  ghost predicate OnlyRow(was: seq<seq<Node>>, now: seq<seq<Node>>, a: Node) {
    |now| == |was| && forall b: Node :: b < |now| && b != a ==> now[b] == was[b]
  }

  /** Nothing but `a` becomes a predecessor of other blocks. */
  ghost predicate OnlyAdds(was: seq<seq<Node>>, now: seq<seq<Node>>, a: Node) {
    |now| == |was| && forall t: Node, x: Node :: t < |now| && x in now[t] ==> x == a || x in was[t]
  }

  method ClearBranches(f: Blocks, n: Node, ghost s: set<Node>)
    requires f.Valid() && n < |f.blocks| && Wired(f.View(), s) && Distinct(f.succ[n]) && InRange(f.succ[n], |f.blocks|)
    modifies f`blocks, f`succ, f`pred
    ensures f.Valid() && f.View() == Cleared(old(f.View()), n) && Wired(f.View(), s + {n})
    ensures f.blocks == old(f.blocks)[n := old(f.blocks)[n].(terminator := Unreachable)] && f.succ[n] == []
    ensures n !in old(f.succ)[n] ==> f.pred[n] == old(f.pred)[n]
    ensures OnlyRow(old(f.succ), f.succ, n) && OnlyAdds(old(f.pred), f.pred, n)
  {
    hide Wired, Erase, Distinct, OnlyAdds;
    ghost var v := f.View();
    var targets := f.succ[n];
    var i := 0;
    f.blocks := f.blocks[n := f.blocks[n].(terminator := Unreachable)];
    assert f.pred == PredsWithout(v.pred, targets[..0], n);
    while i < |targets|
      invariant i <= |targets| && f.Valid() && f.pred == PredsWithout(v.pred, targets[..i], n)
      invariant f.blocks == v.blocks[n := v.blocks[n].(terminator := Unreachable)] && f.succ == v.succ
    {
      var t: Node := targets[i];
      DistinctNext(targets, i);
      f.pred := f.pred[t := Erase(f.pred[t], n)];
      assert f.pred == PredsWithout(v.pred, targets[..i + 1], n);
      i := i + 1;
    }
    assert targets[..|targets|] == targets;
    f.succ := f.succ[n := []];
    ClearedWired(v, s, n);
    WithoutAddsNothing(v.pred, targets, n);
  }

  lemma WithoutAddsNothing(pred: seq<seq<Node>>, targets: seq<Node>, n: Node)
    ensures OnlyAdds(pred, PredsWithout(pred, targets, n), n)
  {
    forall t: Node, x: Node | t < |pred| && x in PredsWithout(pred, targets, n)[t] ensures x in pred[t] {
      if t in targets {
        KeptByErase(pred[t], n, x);
      }
    }
  }

  lemma {:induction false} KeptByErase(xs: seq<Node>, n: Node, x: Node)
    requires x in Erase(xs, n)
    ensures x in xs
  {
    if xs != [] && xs[0] != n && x != xs[0] {
      assert Erase(xs, n) == [xs[0]] + Erase(xs[1..], n);
      KeptByErase(xs[1..], n, x);
    }
  }

  method BranchTo(f: Blocks, a: Node, t: Node, ghost s: set<Node>)
    requires f.Valid() && Wired(f.View(), s) && a in s && t < |f.blocks|
    modifies f`succ, f`pred
    ensures f.Valid() && a < |f.blocks| && f.View() == WithBranch(old(f.View()), a, t) && Wired(f.View(), s)
    ensures forall x: Node :: x in f.succ[a] <==> x in old(f.succ)[a] || x == t
    ensures t != a ==> f.pred[a] == old(f.pred)[a]
    ensures OnlyRow(old(f.succ), f.succ, a) && OnlyAdds(old(f.pred), f.pred, a)
  {
    hide PredsSound, WiredAt;
    WithBranchWired(f.View(), s, a, t);
    f.AddBranch(a, t);
  }
}
