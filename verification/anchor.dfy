/** Dispatching to two constructs around an anchor block that both are reached through or past. */
module Anchor {
  import opened Wrappers
  import opened Graphs
  import opened Lists
  import opened IR
  import opened TailSplit
  import opened BlockPool
  import opened Rewiring
  import opened Gates
  import opened Collect

  // ---------------------------------------------------------------- the helper blocks

  /** The helper blocks, numbered after the `base` blocks of the function: in front of the anchor, one
      for each construct, where these meet, and the dispatcher. */
  datatype Helpers = Helpers(front: Node, to0: Node, to1: Node, meet: Node, out: Node)

  function HelpersAt(base: Node): Helpers {
    Helpers(base, base + 1, base + 2, base + 3, base + 4)
  }

  function Sides(base: Node, c0: Node, c1: Node): Side {
    Side(base + 5, map[base + 1 := c0, base + 2 := c1])
  }

  /** The graph with the helper blocks, before any edge is collected. */
  function Prepared(p: Links, anchor: Node): (r: Links)
    requires Shaped(p) && anchor < |p.blocks|
    ensures Shaped(r) && |r.blocks| == |p.blocks| + 5
  {
    var h, v := HelpersAt(|p.blocks|), Fronted(p, anchor);
    Links(v.blocks + [IRBlock([], [], Branch(h.meet)), IRBlock([], [], Branch(h.meet)), IRBlock([], [], Branch(h.out)),
                      IRBlock([], [], Unreachable)],
          v.succ + [[h.meet], [h.meet], [h.out], []],
          v.pred + [[], [], [h.to0, h.to1], [h.meet]],
          v.succBack + [None, None, None, None], v.predBack + [None, None, None, None])
  }

  ghost function WithHelpers(live: set<Node>, v: Links, base: Node): set<Node> {
    live + set n | n in Between(base, |v.blocks|)
  }

  lemma WithHelpersMembers(live: set<Node>, v: Links, base: Node, n: Node)
    ensures n in WithHelpers(live, v, base) <==> n in live || base <= n < |v.blocks|
  {
    BetweenRange(base, |v.blocks|, n);
  }

  lemma AddedColumns(v: Links, n: nat)
    requires Shaped(v) && |v.blocks| == n
    ensures var none: seq<Node> := []; var plain := v.succ + [none] + [none] + [none] + [none];
            plain[n := AddUnique(none, n + 2)][n + 1 := AddUnique(none, n + 2)][n + 2 :=
                    AddUnique(none, n + 3)] == v.succ + [[n + 2], [n + 2], [n + 3], []]
    ensures var none: seq<Node> := []; var plain := v.pred + [none] + [none] + [none] + [none];
            plain[n + 2 := AddUnique(none, n)][n + 2 := AddUnique(AddUnique(none, n), n + 1)][n + 3 :=
                    AddUnique(none, n + 2)] == v.pred + [[], [], [n, n + 1], [n + 2]]
  {
    var none: seq<Node> := [];
    assert AddUnique(none, n) == [n] && AddUnique([n], n + 1) == [n, n + 1] && AddUnique(none, n + 2) == [n + 2]
           && AddUnique(none, n + 3) == [n + 3];
  }

  /** The four blocks and their branches, in the order in which they are made. */
  method Prepare(f: Blocks, anchor: Node, ghost live: set<Node>) returns (h: Helpers)
    requires f.Valid() && Wirable(f.View(), live) && anchor < |f.blocks|
    modifies f
    ensures f.Valid() && f.nextId == old(f.nextId) && h == HelpersAt(old(|f.blocks|))
    ensures f.View() == Prepared(old(f.View()), anchor)
  {
    hide Wired, Fronted, WithFour;
    ghost var p := f.View();
    var front := CreateHelperPredBlock(f, anchor, live);
    ghost var v := f.View();
    var to0, to1, meet, out := PrepareFour(f);
    h := Helpers(front, to0, to1, meet, out);
    FourPrepared(p, anchor);
  }

  function WithFour(v: Links): (r: Links)
    requires Shaped(v)
    ensures Shaped(r) && |r.blocks| == |v.blocks| + 4
  {
    var n := |v.blocks|;
    Links(v.blocks + [IRBlock([], [], Branch(n + 2)), IRBlock([], [], Branch(n + 2)), IRBlock([], [], Branch(n + 3)),
                      IRBlock([], [], Unreachable)],
          v.succ + [[n + 2], [n + 2], [n + 3], []],
          v.pred + [[], [], [n, n + 1], [n + 2]],
          v.succBack + [None, None, None, None], v.predBack + [None, None, None, None])
  }

  lemma FourPrepared(p: Links, anchor: Node)
    requires Shaped(p) && anchor < |p.blocks|
    ensures WithFour(Fronted(p, anchor)) == Prepared(p, anchor)
  {
    hide Fronted;
  }

  function Plain(v: Links): Links {
    var e, none: seq<Node> := IRBlock([], [], Unreachable), [];
    Links(v.blocks + [e] + [e] + [e] + [e], v.succ + [none] + [none] + [none] + [none],
          v.pred + [none] + [none] + [none] + [none],
          v.succBack + [None, None, None, None], v.predBack + [None, None, None, None])
  }

  method CreateFour(f: Blocks) returns (to0: Node, to1: Node, meet: Node, out: Node)
    requires f.Valid()
    modifies f
    ensures f.Valid() && f.nextId == old(f.nextId) && f.View() == Plain(old(f.View()))
    ensures to0 == old(|f.blocks|) && to1 == to0 + 1 && meet == to0 + 2 && out == to0 + 3
  {
    to0 := f.CreateNode();
    to1 := f.CreateNode();
    meet := f.CreateNode();
    out := f.CreateNode();
  }

  /** The four blocks, once the anchor's own helper is there. */
  method PrepareFour(f: Blocks) returns (to0: Node, to1: Node, meet: Node, out: Node)
    requires f.Valid()
    modifies f
    ensures f.Valid() && f.nextId == old(f.nextId) && f.View() == WithFour(old(f.View()))
    ensures to0 == old(|f.blocks|) && to1 == to0 + 1 && meet == to0 + 2 && out == to0 + 3
  {
    hide AddUnique;
    ghost var v := f.View();
    AddedColumns(v, |v.blocks|);
    to0, to1, meet, out := CreateFour(f);
    f.AddBranch(to0, meet);
    f.AddBranch(to1, meet);
    f.blocks := f.blocks[to0 := f.blocks[to0].(terminator := Branch(meet))];
    f.blocks := f.blocks[to1 := f.blocks[to1].(terminator := Branch(meet))];
    f.AddBranch(meet, out);
    AddedBlocks(v);
    f.blocks := f.blocks[meet := f.blocks[meet].(terminator := Branch(out))];
  }

  lemma AddedBlocks(v: Links)
    requires Shaped(v)
    ensures var n, e := |v.blocks|, IRBlock([], [], Unreachable); var plain := v.blocks + [e] + [e] + [e] + [e];
            var one := plain[n := plain[n].(terminator := Branch(n + 2))];
            var two := one[n + 1 := one[n + 1].(terminator := Branch(n + 2))];
            two[n + 2 := two[n + 2].(terminator := Branch(n + 3))] == WithFour(v).blocks
  {}

  lemma AboutWirable(p: Links, live: set<Node>)
    requires Wirable(p, live)
    ensures Shaped(p) && Wired(p, live) && forall b: Node :: b in live ==> b < |p.blocks|
  {}

  lemma PreparedAt(p: Links, live: set<Node>, anchor: Node, b: Node)
    requires Wirable(p, live) && anchor < |p.blocks| && b in WithHelpers(live, Prepared(p, anchor), |p.blocks|)
    ensures b < |p.blocks| + 5 && WiredAt(Prepared(p, anchor), b)
  {
    hide Wirable, Wired, WiredAt, PredsSound, WithHelpers, Prepared, Fronted;
    AboutWirable(p, live);
    FrontedWired(p, live, anchor);
    WithHelpersMembers(live, Prepared(p, anchor), |p.blocks|, b);
    if b in live || b == |p.blocks| {
      PreparedOld(p, live + {|p.blocks|}, anchor, b);
    } else {
      PreparedNew(p, anchor, b);
    }
  }

  lemma PreparedOld(p: Links, s: set<Node>, anchor: Node, b: Node)
    requires Shaped(p) && anchor < |p.blocks| && Wired(Fronted(p, anchor), s) && b in s
    ensures b < |p.blocks| + 5 && WiredAt(Prepared(p, anchor), b)
  {
    hide Fronted, PredsSound;
    assert WiredAt(Fronted(p, anchor), b);
  }

  lemma PreparedNew(p: Links, anchor: Node, b: Node)
    requires Shaped(p) && anchor < |p.blocks| && |p.blocks| < b < |p.blocks| + 5
    ensures WiredAt(Prepared(p, anchor), b)
  {
    hide Fronted;
    var v := Prepared(p, anchor);
    assert |v.succ[b]| <= 1;
  }

  lemma PreparedPreds(p: Links, live: set<Node>, anchor: Node, t: Node)
    requires Wirable(p, live) && anchor < |p.blocks| && t < |p.blocks| + 5
    ensures PredsSound(Prepared(p, anchor), t)
  {
    hide Retargeted, ReplaceAll, WiredAt;
    var v, base := Fronted(p, anchor), |p.blocks|;
    FrontedWired(p, live, anchor);
    if t <= base {
      assert PredsSound(v, t);
    } else {
      DistinctByPairs([base + 1, base + 2]);
      DistinctByPairs([base + 3]);
    }
  }

  lemma PreparedWired(p: Links, live: set<Node>, anchor: Node)
    requires Wirable(p, live) && anchor < |p.blocks|
    ensures Wired(Prepared(p, anchor), WithHelpers(live, Prepared(p, anchor), |p.blocks|))
  {
    hide WiredAt, PredsSound, Prepared, WithHelpers;
    var v := Prepared(p, anchor);
    forall b: Node | b in WithHelpers(live, v, |p.blocks|) ensures b < |v.blocks| && WiredAt(v, b) {
      PreparedAt(p, live, anchor, b);
    }
    forall t: Node | t < |v.blocks| ensures PredsSound(v, t) {
      PreparedPreds(p, live, anchor, t);
    }
  }

  lemma PreparedLedAt(p: Links, live: set<Node>, anchor: Node, c0: Node, c1: Node, b: Node)
    requires Wirable(p, live) && anchor < |p.blocks| && b in live
    ensures b < |p.blocks|
            && LedAt(p, Prepared(p, anchor), |p.blocks|, Sides(|p.blocks|, c0, c1),
                     AllTo(Prepared(p, anchor), |p.blocks|, anchor), b)
  {
    hide Retargeted, ReplaceAll, WiredAt, PredsSound;
    OwnSlots(p, live, b);
    RetargetedSlots(p.blocks[b].terminator, anchor, |p.blocks|);
    RetargetedSkeleton(p.blocks[b].terminator, anchor, |p.blocks|);
    SlotKnown(p, live, anchor, b);
  }

  lemma SlotKnown(p: Links, live: set<Node>, t: Node, b: Node)
    requires Wirable(p, live) && b in live && t < |p.blocks|
    ensures b < |p.blocks| && (t in p.succ[b] ==> b in p.pred[t])
  {
    assert WiredAt(p, b);
  }

  /** At first only the anchor's own edges enter the helper blocks. */
  lemma PreparedLed(p: Links, live: set<Node>, anchor: Node, c0: Node, c1: Node)
    requires Wirable(p, live) && anchor < |p.blocks| && c0 < |p.blocks| && c1 < |p.blocks|
    ensures LedBy(p, Prepared(p, anchor), live, |p.blocks|, Sides(|p.blocks|, c0, c1),
                  AllTo(Prepared(p, anchor), |p.blocks|, anchor))
  {
    hide LedAt, WiredAt, PredsSound, BlocksTo, SuccTo;
    var v := Prepared(p, anchor);
    forall b: Node | b in live ensures b < |p.blocks|
        && LedAt(p, v, |p.blocks|, Sides(|p.blocks|, c0, c1), AllTo(v, |p.blocks|, anchor), b) {
      PreparedLedAt(p, live, anchor, c0, c1, b);
    }
  }

  // ---------------------------------------------------------------- while edges are collected

  /** The helper blocks are as they were made. */
  ghost predicate HelpersIntact(v: Links, base: Node, anchor: Node)
    requires Shaped(v) && base + 5 <= |v.blocks|
  {
    && v.blocks[base] == IRBlock([], [], Branch(anchor)) && v.succ[base] == [anchor]
    && v.blocks[base + 1] == IRBlock([], [], Branch(base + 3)) && v.succ[base + 1] == [base + 3]
    && v.blocks[base + 2] == IRBlock([], [], Branch(base + 3)) && v.succ[base + 2] == [base + 3]
    && v.blocks[base + 3] == IRBlock([], [], Branch(base + 4)) && v.succ[base + 3] == [base + 4]
    && v.blocks[base + 4] == IRBlock([], [], Unreachable) && v.succ[base + 4] == []
    && v.pred[base + 3] == [base + 1, base + 2] && v.pred[base + 4] == [base + 3]
  }

  ghost predicate SuccInside(p: Links, v: Links, live: set<Node>, b: Node)
    requires Shaped(p) && Shaped(v) && b < |p.blocks| <= |v.blocks|
  {
    forall t: Node :: t in v.succ[b] ==> t in WithHelpers(live, v, |p.blocks|) && (t < |p.blocks| ==> t in p.succ[b])
  }

  ghost predicate Anchored(p: Links, v: Links, live: set<Node>, anchor: Node, c0: Node, c1: Node,
                           goal: map<Node, Node>) {
    var base := |p.blocks|;
    && LedBy(p, v, live, base, Sides(base, c0, c1), goal) && Wired(v, WithHelpers(live, v, base))
    && HelpersIntact(v, base, anchor) && anchor in live
    && (forall b: Node :: b in live && b < base ==> SuccInside(p, v, live, b))
  }

  lemma PreparedHelpers(p: Links, anchor: Node)
    requires Shaped(p) && anchor < |p.blocks|
    ensures var v := Prepared(p, anchor);
            HelpersIntact(v, |p.blocks|, anchor) && v.pred[|p.blocks| + 1] == [] && v.pred[|p.blocks| + 2] == []
            && v.pred[|p.blocks|] == p.pred[anchor]
  {
    hide BlocksTo, SuccTo;
  }

  lemma AnchoredStart(p: Links, live: set<Node>, anchor: Node, c0: Node, c1: Node)
    requires Wirable(p, live) && anchor in live && c0 in live && c1 in live
    ensures anchor < |p.blocks|
            && Anchored(p, Prepared(p, anchor), live, anchor, c0, c1, AllTo(Prepared(p, anchor), |p.blocks|, anchor))
    ensures var v := Prepared(p, anchor);
            && v.pred[|p.blocks| + 1] == [] && v.pred[|p.blocks| + 2] == []
            && v.pred[|p.blocks|] == p.pred[anchor]
  {
    hide Wirable, Wired, LedAt, WiredAt, PredsSound, LedBy, HelpersIntact, Prepared, SuccInside;
    AboutWirable(p, live);
    var v, base := Prepared(p, anchor), |p.blocks|;
    PreparedLed(p, live, anchor, c0, c1);
    PreparedWired(p, live, anchor);
    PreparedHelpers(p, anchor);
    forall b: Node | b in live && b < base ensures SuccInside(p, v, live, b) {
      PreparedInside(p, live, anchor, b);
    }
  }

  lemma PreparedInside(p: Links, live: set<Node>, anchor: Node, b: Node)
    requires Wirable(p, live) && anchor < |p.blocks| && b in live
    ensures b < |p.blocks| && SuccInside(p, Prepared(p, anchor), live, b)
  {
    hide Retargeted, PredsSound;
    var v := Prepared(p, anchor);
    assert WiredAt(p, b);
    if b in p.pred[anchor] {
      ReplaceAllMembers(p.succ[b], anchor, |p.blocks|);
    }
    forall t: Node | t in v.succ[b] ensures t in WithHelpers(live, v, |p.blocks|)
        && (t < |p.blocks| ==> t in p.succ[b]) {
      WithHelpersMembers(live, v, |p.blocks|, t);
    }
  }

  lemma AnchoredScope(p: Links, v: Links, live: set<Node>, anchor: Node, c0: Node, c1: Node, goal: map<Node, Node>,
                      c: Node, to: Node)
    requires Anchored(p, v, live, anchor, c0, c1, goal) && c < |p.blocks| <= to < |p.blocks| + 3 && c !in v.pred[to]
    ensures Scope(v, WithHelpers(live, v, |p.blocks|), c, to)
  {
    hide LedAt, PredsSound;
    var s, base := WithHelpers(live, v, |p.blocks|), |p.blocks|;
    forall b: Node | b in s ensures b < |v.blocks| && Distinct(v.succ[b]) && forall t: Node :: t in v.succ[b] ==>
          t in s {
      WithHelpersMembers(live, v, base, b);
      assert WiredAt(v, b);
      if b < base {
        assert SuccInside(p, v, live, b);
      } else {
        HelperSucc(p, v, live, anchor, c0, c1, goal, b);
      }
    }
  }

  lemma HelperSucc(p: Links, v: Links, live: set<Node>, anchor: Node, c0: Node, c1: Node, goal: map<Node, Node>,
                   n: Node)
    requires Anchored(p, v, live, anchor, c0, c1, goal) && |p.blocks| <= n < |v.blocks|
    ensures forall t: Node :: t in v.succ[n] ==>
              t in WithHelpers(live, v, |p.blocks|) && (t < |p.blocks| ==> t == anchor)
  {
    hide LedAt, PredsSound, WiredAt;
    var base := |p.blocks|;
    if n >= base + 5 {
      assert IntermediateAt(v, base, n);
    }
    forall t: Node | t in v.succ[n] ensures t in WithHelpers(live, v, base) && (t < base ==> t == anchor) {
      WithHelpersMembers(live, v, base, t);
    }
  }

  lemma HelpersStay(p: Links, st: Links, v: Links, live: set<Node>, anchor: Node, c0: Node, c1: Node,
                    goal: map<Node, Node>, c: Node, to: Node, via: map<Node, Node>)
    requires Anchored(p, st, live, anchor, c0, c1, goal) && Diverted(st, v, c, to, via) && c < |p.blocks| && c != anchor
    requires to < |p.blocks| + 3
    ensures HelpersIntact(v, |p.blocks|, anchor)
  {
    hide LedAt, PredsSound, WiredAt, DivertedAt, IntermediateAt, Gained, SuccInside;
    var base := |p.blocks|;
    HelperStays(st, v, c, to, via, base);
    HelperStays(st, v, c, to, via, base + 1);
    HelperStays(st, v, c, to, via, base + 2);
    HelperStays(st, v, c, to, via, base + 3);
    HelperStays(st, v, c, to, via, base + 4);
  }

  lemma InsideStays(p: Links, st: Links, v: Links, live: set<Node>, anchor: Node, c0: Node, c1: Node,
                    goal: map<Node, Node>, c: Node, to: Node, via: map<Node, Node>, b: Node)
    requires Anchored(p, st, live, anchor, c0, c1, goal) && Diverted(st, v, c, to, via) && b in live
             && b < |p.blocks| <= to < |st.blocks|
    ensures SuccInside(p, v, live, b)
  {
    hide LedAt, PredsSound, IntermediateAt, Gained;
    var base := |p.blocks|;
    WithHelpersMembers(live, st, base, b);
    assert SuccInside(p, st, live, b) && DivertedAt(st, v, c, to, via, b) && WiredAt(st, b);
    if b in via {
      ReplaceFirstMembers(st.succ[b], c, via[b]);
    }
    forall t: Node | t in v.succ[b] ensures t in WithHelpers(live, v, base) && (t < base ==> t in p.succ[b]) {
      WithHelpersMembers(live, st, base, t);
      WithHelpersMembers(live, v, base, t);
    }
  }

  lemma HelpersGrow(p: Links, st: Links, v: Links, live: set<Node>)
    requires |p.blocks| <= |st.blocks| <= |v.blocks|
    ensures WithNew(st, v, WithHelpers(live, st, |p.blocks|)) == WithHelpers(live, v, |p.blocks|)
  {
    forall n: Node ensures n in WithNew(st, v, WithHelpers(live, st, |p.blocks|)) <==>
          n in WithHelpers(live, v, |p.blocks|) {
      WithHelpersMembers(live, st, |p.blocks|, n);
      WithHelpersMembers(live, v, |p.blocks|, n);
      BetweenRange(|st.blocks|, |v.blocks|, n);
    }
  }

  /** Edges to a construct from below the anchor enter the helper block made for that construct. */
  lemma AsideStep(p: Links, st: Links, v: Links, live: set<Node>, anchor: Node, c0: Node, c1: Node,
                  goal: map<Node, Node>, ask: Queries, dominator: Node, c: Node, to: Node, via: map<Node, Node>)
    requires Anchored(p, st, live, anchor, c0, c1, goal) && c < |p.blocks| && c != anchor && c0 != c1
    requires (c == c0 && to == |p.blocks| + 1) || (c == c1 && to == |p.blocks| + 2)
    requires to < |st.pred| && st.pred[to] == []
             && Rewritten(st, v, WithHelpers(live, st, |p.blocks|), ask, dominator, c, to, [], via)
    ensures Anchored(p, v, live, anchor, c0, c1, goal)
    ensures forall t: Node :: t < |st.blocks| && t != c && t != to ==> v.pred[t] == st.pred[t]
  {
    hide LedAt, WiredAt, DivertedAt, IntermediateAt, Gained, SuccInside, HelpersIntact, Found, CycleFree;
    var base := |p.blocks|;
    AsideApart(p, st, live, anchor, c0, c1, goal, c, to);
    HelpersGrow(p, st, v, live);
    LedAside(p, st, v, WithHelpers(live, st, base), live, base, Sides(base, c0, c1), goal, c, to, via);
    HelpersStay(p, st, v, live, anchor, c0, c1, goal, c, to, via);
    forall b: Node | b in live && b < base ensures SuccInside(p, v, live, b) {
      InsideStays(p, st, v, live, anchor, c0, c1, goal, c, to, via, b);
    }
  }

  lemma AsideApart(p: Links, st: Links, live: set<Node>, anchor: Node, c0: Node, c1: Node, goal: map<Node, Node>,
                   c: Node, to: Node)
    requires Anchored(p, st, live, anchor, c0, c1, goal) && to < |st.pred| && st.pred[to] == []
    ensures Apart(st, WithHelpers(live, st, |p.blocks|), c, to)
  {
    hide LedAt, PredsSound;
    forall b: Node | b in WithHelpers(live, st, |p.blocks|) && b < |st.blocks| ensures to !in st.succ[b] {
      assert WiredAt(st, b);
    }
  }

  /** The other edges to a construct enter in front of the anchor. */
  lemma FrontStep(p: Links, st: Links, v: Links, live: set<Node>, anchor: Node, c0: Node, c1: Node,
                  goal: map<Node, Node>, ask: Queries, dominator: Node, c: Node, via: map<Node, Node>)
    requires Anchored(p, st, live, anchor, c0, c1, goal) && c < |p.blocks| && c != anchor && |p.blocks| < |st.pred|
             && c !in st.pred[|p.blocks|]
    requires Rewritten(st, v, WithHelpers(live, st, |p.blocks|), ask, dominator, c, |p.blocks|, [], via)
    ensures |p.blocks| < |v.pred| && Anchored(p, v, live, anchor, c0, c1, MoreGoals(v, |p.blocks|, goal, c))
    ensures st.pred[|p.blocks|] <= v.pred[|p.blocks|] && Distinct(v.pred[|p.blocks|])
    ensures forall x: Node :: x in live && x < |p.blocks| && x !in st.pred[|p.blocks|] && c !in p.succ[x] ==>
              x !in v.pred[|p.blocks|]
  {
    hide LedAt, WiredAt, DivertedAt, IntermediateAt, SuccInside, HelpersIntact, Apart, Found, CycleFree;
    var base := |p.blocks|;
    HelpersGrow(p, st, v, live);
    LedCollect(p, st, v, WithHelpers(live, st, base), live, base, Sides(base, c0, c1), goal, c, via);
    HelpersStay(p, st, v, live, anchor, c0, c1, goal, c, base, via);
    assert Gained(st, v, c, base, via) && PredsSound(v, base);
    forall b: Node | b in live && b < base ensures SuccInside(p, v, live, b) {
      InsideStays(p, st, v, live, anchor, c0, c1, goal, c, base, via, b);
    }
    forall x: Node | x in live && x < base && x !in st.pred[base] && c !in p.succ[x] ensures x !in v.pred[base] {
      NotGained(p, st, v, live, c, via, x);
    }
  }

  lemma NotGained(p: Links, st: Links, v: Links, live: set<Node>, c: Node, via: map<Node, Node>, x: Node)
    requires Shaped(p) && Shaped(st) && Diverted(st, v, c, |p.blocks|, via) && x < |p.blocks| < |st.blocks|
             && c < |p.blocks| && SuccInside(p, st, live, x)
    requires x !in st.pred[|p.blocks|] && c !in p.succ[x] && c !in st.pred[|p.blocks|]
    ensures x !in v.pred[|p.blocks|]
  {
    hide IntermediateAt;
    assert DivertedAt(st, v, c, |p.blocks|, via, x) && Gained(st, v, c, |p.blocks|, via);
  }

  // ---------------------------------------------------------------- the selectors

  /** The first entries to the block in front of the anchor are the anchor's own, then come those for the
      first construct, then those for the second. */
  ghost predicate Sections(preds: seq<Node>, goal: map<Node, Node>, cut0: nat, cut1: nat, anchor: Node, c0: Node,
                           c1: Node) {
    && cut0 <= cut1 <= |preds|
    && forall j :: 0 <= j < |preds| ==>
      preds[j] in goal && goal[preds[j]] == if j < cut0 then anchor else if j < cut1 then c0 else c1
  }

  lemma SectionsMore(v: Links, was: seq<Node>, goal: map<Node, Node>, base: Node, c: Node)
    requires base < |v.pred| && was <= v.pred[base] && Distinct(v.pred[base]) && forall x: Node :: x in goal <==>
               x in was
    ensures forall j :: 0 <= j < |v.pred[base]| ==>
              (v.pred[base][j] in MoreGoals(v, base, goal, c)
               && MoreGoals(v, base, goal, c)[v.pred[base][j]] == if j < |was| then goal[was[j]] else c)
  {
    var now := v.pred[base];
    forall j | 0 <= j < |now| ensures now[j] in MoreGoals(v, base, goal, c)
        && MoreGoals(v, base, goal, c)[now[j]] == if j < |was| then goal[was[j]] else c {
      assert now[j] in now;
      if j < |was| {
        assert now[j] == was[j];
      } else {
        DistinctSlice(now, 0, |was|);
        assert now[0..|was|] == was && now[|was|..][j - |was|] == now[j];
      }
    }
  }

  /** True for the first `cut` predecessors. */
  function CutEntries(preds: seq<Node>, cut: nat, constants: Constants): (r: seq<IncomingValue>)
    ensures |r| == |preds|
  {
    seq(|preds|, j requires 0 <= j < |preds| => IncomingValue(preds[j], constants.bools(j < cut)))
  }

  method MakeEntries(preds: seq<Node>, cut: nat, constants: Constants) returns (incoming: seq<IncomingValue>)
    requires cut <= |preds|
    ensures incoming == CutEntries(preds, cut, constants)
  {
    incoming := [];
    for i := 0 to cut
      invariant incoming == CutEntries(preds, cut, constants)[..i]
    {
      incoming := incoming + [IncomingValue(preds[i], constants.bools(true))];
    }
    for i := cut to |preds|
      invariant incoming == CutEntries(preds, cut, constants)[..i]
    {
      incoming := incoming + [IncomingValue(preds[i], constants.bools(false))];
    }
  }

  lemma CutEntryFrom(preds: seq<Node>, cut: nat, constants: Constants, j: nat)
    requires Distinct(preds) && j < |preds|
    ensures OnePerBlock(CutEntries(preds, cut, constants))
            && IncomingFrom(CutEntries(preds, cut, constants), preds[j]) == constants.bools(j < cut)
  {
    var incoming := CutEntries(preds, cut, constants);
    forall a, b | 0 <= a < b < |incoming| ensures incoming[a].block != incoming[b].block {
      DistinctPair(preds, a, b);
    }
    IncomingAt(incoming, j);
  }

  /** The ids of the four selector PHIs. */
  datatype Selectors = Selectors(meet: Id, take: Id, outside: Id, out: Id)

  function SelectorsFrom(next: Id): Selectors {
    Selectors(next, next + 1, next + 2, next + 3)
  }

  /** The finished helper blocks; `entry` is the block that the meeting point's value is said to come from. */
  ghost predicate Finished(q: seq<IRBlock>, base: Node, ids: Selectors, preds: seq<Node>, cut0: nat, cut1: nat,
                           constants: Constants, anchor: Node, c0: Node, c1: Node, entry: Node) {
    && base + 5 <= |q|
    && q[base] == IRBlock([PHI(ids.take, CutEntries(preds, cut0, constants)),
                           PHI(ids.outside, CutEntries(preds, cut1, constants))], [],
                          Condition(ids.take, anchor, base + 4))
    && q[base + 1] == IRBlock([], [], Branch(base + 3)) && q[base + 2] == IRBlock([], [], Branch(base + 3))
    && q[base + 3] == IRBlock([PHI(ids.meet,
                                   [IncomingValue(base + 1, constants.bools(true)),
                                    IncomingValue(base + 2, constants.bools(false))])], [], Branch(base + 4))
    && q[base + 4] == IRBlock([PHI(ids.out, [IncomingValue(entry, ids.meet), IncomingValue(base, ids.outside)])], [],
                              Condition(ids.out, c0, c1))
    && forall n: Node :: base + 5 <= n < |q| ==> q[n] == IRBlock([], [], Branch(base))
  }

  // ---------------------------------------------------------------- where control lands

  /** The dispatcher, entered from the meeting point or from in front of the anchor. */
  lemma LandOut(q: seq<IRBlock>, base: Node, ids: Selectors, preds: seq<Node>, cut0: nat, cut1: nat,
                constants: Constants, anchor: Node, c0: Node, c1: Node, env: Env, from: Node, hops: nat)
    requires Finished(q, base, ids, preds, cut0, cut1, constants, anchor, c0, c1, base + 3) && c0 < base && c1 < base
             && hops >= 1
    requires from == base + 3 || from == base
    ensures Land(q, base, env, from, base + 4,
                 hops) == Some(if Get(env, if from == base then ids.outside else ids.meet) != 0 then c0 else c1)
  {
    var phis := q[base + 4].phi;
    EnterPhisAt(phis, from, env, env, 0);
    assert phis[0].incoming[1..] == [IncomingValue(base, ids.outside)];
  }

  lemma LandAside(q: seq<IRBlock>, base: Node, ids: Selectors, preds: seq<Node>, cut0: nat, cut1: nat,
                  constants: Constants, anchor: Node, c0: Node, c1: Node, env: Env, b: Node, aside: Node)
    requires Finished(q, base, ids, preds, cut0, cut1, constants, anchor, c0, c1, base + 3) && c0 < base && c1 < base
    requires HoldsBools(constants, env) && (aside == base + 1 || aside == base + 2)
    ensures Land(q, base, env, b, aside, HOPS) == Some(if aside == base + 1 then c0 else c1)
  {
    var phis := q[base + 3].phi;
    EnterPhisAt(phis, aside, env, env, 0);
    assert phis[0].incoming[1..] == [IncomingValue(base + 2, constants.bools(false))];
    var env' := EnterPhis(phis, aside, env, env);
    LandOut(q, base, ids, preds, cut0, cut1, constants, anchor, c0, c1, env', base + 3, 2);
    assert Land(q, base, env, aside, base + 3, 3) == Land(q, base, env', base + 3, base + 4, 2);
    assert Land(q, base, env, b, aside, HOPS) == Land(q, base, env, aside, base + 3, 3);
  }

  lemma LandFront(q: seq<IRBlock>, base: Node, ids: Selectors, preds: seq<Node>, cut0: nat, cut1: nat,
                  constants: Constants, anchor: Node, c0: Node, c1: Node, goal: map<Node, Node>, env: Env, x: Node,
                  hops: nat)
    requires Finished(q, base, ids, preds, cut0, cut1, constants, anchor, c0, c1, base + 3) && c0 < base && c1 < base
             && anchor < base && hops >= 2
    requires Sections(preds, goal, cut0, cut1, anchor, c0, c1) && Distinct(preds) && HoldsBools(constants, env)
             && x in preds && ids.take != ids.outside
    ensures x in goal && Land(q, base, env, x, base, hops) == Some(goal[x])
  {
    hide OnePerBlock;
    var j := Index(preds, x);
    CutEntryFrom(preds, cut0, constants, j);
    CutEntryFrom(preds, cut1, constants, j);
    var phis := q[base].phi;
    EnterPhisAt(phis, x, env, env, 0);
    EnterPhisAt(phis, x, env, env, 1);
    var env' := EnterPhis(phis, x, env, env);
    LandOut(q, base, ids, preds, cut0, cut1, constants, anchor, c0, c1, env', base, hops - 1);
  }

  lemma AnchorSlot(v: Links, q: seq<IRBlock>, base: Node, ids: Selectors, cut0: nat, cut1: nat, constants: Constants,
                   anchor: Node, c0: Node, c1: Node, goal: map<Node, Node>, env: Env, b: Node, now: Node, was: Node)
    requires Shaped(v) && |q| == |v.blocks| && base < |v.pred|
    requires Finished(q, base, ids, v.pred[base], cut0, cut1, constants, anchor, c0, c1, base + 3) && c0 < base
             && c1 < base && anchor < base
    requires Sections(v.pred[base], goal, cut0, cut1, anchor, c0, c1) && Distinct(v.pred[base])
             && HoldsBools(constants, env) && ids.take != ids.outside
    requires (forall x: Node :: x in goal <==> x in v.pred[base])
             && SlotLed(v, base, base, Sides(base, c0, c1), goal, b, now, was)
    ensures SlotLeads(q, base, env, b, now, was)
  {
    hide HoldsBools, Distinct, Sections;
    if now == base {
      LandFront(q, base, ids, v.pred[base], cut0, cut1, constants, anchor, c0, c1, goal, env, b, HOPS);
    } else if base < now < base + 5 {
      LandAside(q, base, ids, v.pred[base], cut0, cut1, constants, anchor, c0, c1, env, b, now);
    } else if now >= base + 5 {
      LandFront(q, base, ids, v.pred[base], cut0, cut1, constants, anchor, c0, c1, goal, env, now, HOPS - 1);
    }
  }

  /** With the selectors in place every branch of every original block leads where it led. */
  lemma AnchorLeads(p: Links, v: Links, q: seq<IRBlock>, live: set<Node>, ids: Selectors, cut0: nat, cut1: nat,
                    constants: Constants, anchor: Node, c0: Node, c1: Node, goal: map<Node, Node>, env: Env)
    requires Anchored(p, v, live, anchor, c0, c1, goal) && |q| == |v.blocks| && c0 < |p.blocks| && c1 < |p.blocks|
             && anchor < |p.blocks|
    requires |p.blocks| < |v.pred|
    requires Finished(q, |p.blocks|, ids, v.pred[|p.blocks|], cut0, cut1, constants, anchor, c0, c1, |p.blocks| + 3)
    requires Sections(v.pred[|p.blocks|], goal, cut0, cut1, anchor, c0, c1) && HoldsBools(constants, env)
             && ids.take != ids.outside
    requires forall b: Node :: b < |p.blocks| ==> q[b] == v.blocks[b]
    ensures Leads(p.blocks, q, live, env)
  {
    hide Finished, HoldsBools, Distinct, Sections, SlotLed, SlotLeads, WiredAt, SuccInside, HelpersIntact;
    var base := |p.blocks|;
    assert PredsSound(v, base);
    forall b: Node | b in live ensures b < base && LeadsAt(p.blocks, q, env, b) {
      assert LedAt(p, v, base, Sides(base, c0, c1), goal, b);
      var was, now := Targets(p.blocks[b].terminator), Targets(v.blocks[b].terminator);
      forall k | 0 <= k < |was| ensures SlotLeads(q, base, env, b, now[k], was[k]) {
        AnchorSlot(v, q, base, ids, cut0, cut1, constants, anchor, c0, c1, goal, env, b, now[k], was[k]);
      }
    }
  }

  // ---------------------------------------------------------------- the whole operation

  /** One traversal: the edges to `from` below the dominator go to `to`. */
  datatype Leg = Leg(dominator: Node, from: Node, to: Node, avoid: set<Node>)

  /** From below the anchor to each construct, then from below the dominator of each. */
  function Legs(base: Node, anchor: Node, idom0: Node, idom1: Node, c0: Node, c1: Node): seq<Leg> {
    [Leg(anchor, c0, base + 1, {anchor, c0}), Leg(anchor, c1, base + 2, {anchor, c0, c1}),
     Leg(idom0, c0, base, {anchor, c0, c1}), Leg(idom1, c1, base, {anchor, c0, c1})]
  }

  /** The edges that the first `n` traversals are made for have been collected. */
  ghost predicate LegsDone(p: Links, v: Links, live: set<Node>, back: set<Node>, ask: Queries, legs: seq<Leg>, n: nat)
    requires n <= |legs|
  {
    forall i :: 0 <= i < n ==>
      NoneLeft(p, v, live, back, ask, legs[i].dominator, legs[i].avoid, legs[i].from, legs[i].to)
  }

  /** Only the traversals take edges away, each from blocks below its dominator; those to `back` are another matter. */
  ghost predicate OnlyLegs(p: Links, v: Links, live: set<Node>, back: set<Node>, ask: Queries, legs: seq<Leg>) {
    forall b: Node, c: Node ::
      b in live && b < |p.succ| && b < |v.succ| && c in p.succ[b] && c !in v.succ[b] && c !in back ==>
        exists i :: 0 <= i < |legs| && legs[i].from == c && MaybeBeneath(p, ask, legs[i].dominator, {c}, legs[i].to, b)
  }

  lemma NoLegYet(p: Links, v: Links, live: set<Node>, back: set<Node>, ask: Queries, legs: seq<Leg>)
    requires Keeps(p, v, live, back)
    ensures OnlyLegs(p, v, live, back, ask, legs)
  {}

  lemma LegTakes(p: Links, st: Links, v: Links, live: set<Node>, back: set<Node>, ask: Queries, legs: seq<Leg>, n: nat,
                 s: set<Node>, via: map<Node, Node>)
    requires n < |legs| && OnlyLegs(p, st, live, back, ask, legs) && OwnOrHelper(p, st, live)
    requires Rewritten(st, v, s, ask, legs[n].dominator, legs[n].from, legs[n].to, [], via)
    requires HelpersApart(p, st, legs[n].dominator, legs[n].from, legs[n].to) && Inside(p, st, live)
    requires Shaped(p) && Shaped(st) && |p.blocks| <= |st.blocks| && legs[n].dominator in live && |p.succ| == |p.blocks|
    requires forall b: Node :: b in live ==> b < |st.succ| && Distinct(st.succ[b])
    ensures OnlyLegs(p, v, live, back, ask, legs)
  {
    hide Wired, Apart, Gained, IntermediateAt, Found, CycleFree, MaybeBeneath, OwnOrHelper, HelpersApart, Inside;
    var leg := legs[n];
    forall b: Node, c: Node
      | b in live && b < |p.succ| && b < |v.succ| && c in p.succ[b] && c !in v.succ[b] && c !in back
      ensures exists i :: 0 <= i < |legs| && legs[i].from == c
                          && MaybeBeneath(p, ask, legs[i].dominator, {c}, legs[i].to, b)
    {
      if c in st.succ[b] {
        CutAt(st, v, leg.from, leg.to, via, b, c);
        assert DivertedAt(st, v, leg.from, leg.to, via, b);
        FoundBeneath(p, st, v, live, s, ask, leg.dominator, {c}, leg.from, leg.to, [], via, b);
        assert legs[n].from == c && MaybeBeneath(p, ask, legs[n].dominator, {c}, legs[n].to, b);
      }
    }
  }

  /** Between traversals, what the helper blocks lead to. */
  lemma AnchoredApart(p: Links, v: Links, live: set<Node>, anchor: Node, c0: Node, c1: Node, goal: map<Node, Node>,
                      leg: Leg)
    requires Anchored(p, v, live, anchor, c0, c1, goal) && |p.succ| == |p.blocks|
    requires leg.to == |p.blocks| || leg.dominator == anchor
    ensures Inside(p, v, live) && HelpersApart(p, v, leg.dominator, leg.from, leg.to)
  {
    hide LedBy, WiredAt, PredsSound, HelpersIntact;
    AboutAnchored(p, v, live, anchor, c0, c1, goal);
    LiveBelow(p, v, live, anchor, c0, c1, goal);
    forall n: Node, t: Node | |p.blocks| <= n < |v.succ| && n != leg.to && t in v.succ[n]
      ensures t >= |p.blocks| || t == leg.dominator
    {
      HelperToAnchor(p, v, live, anchor, c0, c1, goal, n);
    }
    forall x: Node, t: Node | x in live && t in v.succ[x] ensures t in live || t >= |p.blocks| {
      assert SuccInside(p, v, live, x);
      WithHelpersMembers(live, v, |p.blocks|, t);
    }
  }

  lemma HelperToAnchor(p: Links, v: Links, live: set<Node>, anchor: Node, c0: Node, c1: Node, goal: map<Node, Node>,
                       n: Node)
    requires Anchored(p, v, live, anchor, c0, c1, goal) && |p.blocks| <= n < |v.blocks|
    ensures forall t: Node :: t in v.succ[n] ==> t >= |p.blocks| || (t == anchor && n == |p.blocks|)
  {
    hide LedAt, PredsSound, WiredAt, SuccInside;
    if n >= |p.blocks| + 5 {
      assert IntermediateAt(v, |p.blocks|, n);
    }
  }

  lemma LiveBelow(p: Links, v: Links, live: set<Node>, anchor: Node, c0: Node, c1: Node, goal: map<Node, Node>)
    requires Anchored(p, v, live, anchor, c0, c1, goal)
    ensures forall b: Node :: b in live ==> b < |p.blocks|
  {
    hide LedAt, WiredAt, PredsSound, HelpersIntact, SuccInside;
  }

  lemma LegStep(p: Links, st: Links, v: Links, live: set<Node>, back: set<Node>, ask: Queries, legs: seq<Leg>, n: nat,
                cut: set<Node>, s: set<Node>, via: map<Node, Node>)
    requires n < |legs| && cut <= legs[n].avoid && legs[n].from in legs[n].avoid
    requires forall i :: 0 <= i <= n ==> legs[i].from < |p.blocks| <= legs[i].to
    requires Cut(p, st, live, back) && Keeps(p, st, live, cut) && LegsDone(p, st, live, back, ask, legs, n)
    requires Rewritten(st, v, s, ask, legs[n].dominator, legs[n].from, legs[n].to, [], via)
    requires forall b: Node :: b in live ==> b < |st.succ| && Distinct(st.succ[b])
    ensures Cut(p, v, live, back) && Keeps(p, v, live, cut + {legs[n].from})
    ensures LegsDone(p, v, live, back, ask, legs, n + 1)
  {
    hide Rewritten, Cut, Keeps, NoneLeft, Distinct, Diverted;
    var leg := legs[n];
    NoneLeftNow(p, st, v, live, back, s, cut, ask, leg.dominator, leg.avoid, leg.from, leg.to, [], via);
    RewrittenDiverts(st, v, s, ask, leg.dominator, leg.from, leg.to, [], via);
    forall i | 0 <= i < n
      ensures NoneLeft(p, v, live, back, ask, legs[i].dominator, legs[i].avoid, legs[i].from, legs[i].to)
    {
      NoneLeftStays(p, st, v, live, back, ask, legs[i].dominator, legs[i].avoid, legs[i].from, legs[i].to, leg.from,
                    leg.to, via);
    }
  }

  lemma LegsSame(p: Links, st: Links, v: Links, live: set<Node>, back: set<Node>, ask: Queries, legs: seq<Leg>)
    requires Cut(p, st, live, back) && LegsDone(p, st, live, back, ask, legs, |legs|)
    requires |st.succ| <= |v.succ| && forall b: Node :: b < |p.blocks| && b < |st.succ| ==> v.succ[b] == st.succ[b]
    requires OnlyLegs(p, st, live, back, ask, legs)
    ensures LegsDone(p, v, live, back, ask, legs, |legs|) && OwnOrHelper(p, v, live)
    ensures OnlyLegs(p, v, live, back, ask, legs)
  {
    hide NoneLeft, MaybeBeneath;
    forall i | 0 <= i < |legs|
      ensures NoneLeft(p, v, live, back, ask, legs[i].dominator, legs[i].avoid, legs[i].from, legs[i].to)
    {
      NoneLeftSame(p, st, v, live, back, ask, legs[i].dominator, legs[i].avoid, legs[i].from, legs[i].to);
    }
  }

  /** The block is in reach of traversal `leg`. */
  ghost predicate InReach(p: Links, live: set<Node>, back: set<Node>, ask: Queries, leg: Leg, b: Node) {
    Beneath(p, live, back, ask, leg.dominator, leg.avoid, b) && NeverCycles(p, live, back, ask, leg.to, b)
  }

  /** Once the predecessors of a construct are each in reach of a traversal made for it, no block branches to it. */
  lemma NoPredsLeft(p: Links, v: Links, live: set<Node>, back: set<Node>, ask: Queries, legs: seq<Leg>, c: Node)
    requires LegsDone(p, v, live, back, ask, legs, |legs|) && OwnOrHelper(p, v, live) && c < |p.blocks|
    requires forall b: Node :: b in live && b < |p.succ| && c in p.succ[b] ==>
               exists i :: 0 <= i < |legs| && legs[i].from == c && InReach(p, live, back, ask, legs[i], b)
    ensures forall b: Node :: b in live && b < |p.succ| && b < |v.succ| ==> c !in v.succ[b]
  {
    hide Beneath, NeverCycles;
    forall b: Node | b in live && b < |p.succ| && b < |v.succ| ensures c !in v.succ[b] {
      if c in p.succ[b] {
        var i :| 0 <= i < |legs| && legs[i].from == c && InReach(p, live, back, ask, legs[i], b);
        assert NoneLeft(p, v, live, back, ask, legs[i].dominator, legs[i].avoid, legs[i].from, legs[i].to);
      }
    }
  }

  lemma PreparedCuts(p: Links, live: set<Node>, anchor: Node, c0: Node, c1: Node)
    requires Wirable(p, live) && anchor in live && c0 in live && c1 in live
    ensures anchor < |p.blocks| && Cut(p, Prepared(p, anchor), live, {anchor})
    ensures Keeps(p, Prepared(p, anchor), live, {anchor})
  {
    hide Wirable, Wired, LedBy, Fronted, HelpersIntact, SuccInside, Cut;
    AboutWirable(p, live);
    AnchoredStart(p, live, anchor, c0, c1);
    KeepsFronted(p, live, anchor);
    var goal := AllTo(Prepared(p, anchor), |p.blocks|, anchor);
    AnchoredCuts(p, Prepared(p, anchor), live, anchor, c0, c1, goal);
  }

  lemma AnchoredCuts(p: Links, v: Links, live: set<Node>, anchor: Node, c0: Node, c1: Node, goal: map<Node, Node>)
    requires Anchored(p, v, live, anchor, c0, c1, goal) && Shaped(p) && forall b: Node :: b in live ==> b < |p.blocks|
    ensures Cut(p, v, live, {anchor})
  {
    hide LedBy, WiredAt, PredsSound, HelpersIntact;
    AboutAnchored(p, v, live, anchor, c0, c1, goal);
    forall n: Node, t: Node | |p.blocks| <= n < |v.blocks| && t in v.succ[n] ensures t >= |p.blocks| || t == anchor {
      HelperSucc(p, v, live, anchor, c0, c1, goal, n);
    }
    forall b: Node, t: Node | b in live && b < |p.succ| && b < |v.succ| && t in v.succ[b]
      ensures t in p.succ[b] || t >= |p.blocks|
    {
      assert SuccInside(p, v, live, b);
    }
  }

  lemma AboutAnchored(p: Links, v: Links, live: set<Node>, anchor: Node, c0: Node, c1: Node, goal: map<Node, Node>)
    requires Anchored(p, v, live, anchor, c0, c1, goal)
    ensures Shaped(p) && Shaped(v) && |p.blocks| <= |v.blocks|
    ensures forall b: Node :: b in live ==> b < |v.succ| && Distinct(v.succ[b])
  {
    hide LedAt, PredsSound, HelpersIntact, SuccInside;
    forall b: Node | b in live ensures b < |v.succ| && Distinct(v.succ[b]) {
      WithHelpersMembers(live, v, |p.blocks|, b);
      assert WiredAt(v, b);
    }
  }

  /** The blocks whose edges have been touched before traversal `n`. */
  function Touched(anchor: Node, c0: Node, c1: Node, n: nat): set<Node> {
    {anchor} + (if n >= 1 then {c0} else {}) + if n >= 2 then {c1} else {}
  }

  /** The state before traversal `n`. */
  ghost predicate Going(p: Links, v: Links, live: set<Node>, ask: Queries, anchor: Node, idom0: Node, idom1: Node,
                        c0: Node, c1: Node, n: nat)
    requires n <= 4
  {
    && Cut(p, v, live, {anchor}) && Keeps(p, v, live, Touched(anchor, c0, c1, n))
    && LegsDone(p, v, live, {anchor}, ask, Legs(|p.blocks|, anchor, idom0, idom1, c0, c1), n)
    && OnlyLegs(p, v, live, {anchor}, ask, Legs(|p.blocks|, anchor, idom0, idom1, c0, c1))
  }

  lemma LegsStart(p: Links, live: set<Node>, ask: Queries, anchor: Node, idom0: Node, idom1: Node, c0: Node, c1: Node)
    requires Wirable(p, live) && anchor in live && c0 in live && c1 in live
    ensures anchor < |p.blocks| && Going(p, Prepared(p, anchor), live, ask, anchor, idom0, idom1, c0, c1, 0)
  {
    hide Wirable, Cut, Keeps, NoneLeft, Prepared, OnlyLegs;
    AboutWirable(p, live);
    PreparedCuts(p, live, anchor, c0, c1);
    assert Touched(anchor, c0, c1, 0) == {anchor};
    NoLegYet(p, Prepared(p, anchor), live, {anchor}, ask, Legs(|p.blocks|, anchor, idom0, idom1, c0, c1));
  }

  lemma LegAt(p: Links, st: Links, v: Links, live: set<Node>, anchor: Node, idom0: Node, idom1: Node, c0: Node,
              c1: Node, goal: map<Node, Node>, ask: Queries, n: nat, via: map<Node, Node>)
    requires n < 4 && Going(p, st, live, ask, anchor, idom0, idom1, c0, c1, n) && c0 < |p.blocks| && c1 < |p.blocks|
    requires Anchored(p, st, live, anchor, c0, c1, goal) && anchor in live && idom0 in live && idom1 in live
    requires var leg := Legs(|p.blocks|, anchor, idom0, idom1, c0, c1)[n];
             Rewritten(st, v, WithHelpers(live, st, |p.blocks|), ask, leg.dominator, leg.from, leg.to, [], via)
    ensures Going(p, v, live, ask, anchor, idom0, idom1, c0, c1, n + 1)
  {
    hide Anchored, Cut, Keeps, NoneLeft, Rewritten, Distinct, LegsDone, OnlyLegs, HelpersApart, Inside;
    AboutAnchored(p, st, live, anchor, c0, c1, goal);
    var legs := Legs(|p.blocks|, anchor, idom0, idom1, c0, c1);
    assert |p.succ| == |p.blocks| && OwnOrHelper(p, st, live) by { CutIsInside(p, st, live, {anchor}); }
    AnchoredApart(p, st, live, anchor, c0, c1, goal, legs[n]);
    LegTakes(p, st, v, live, {anchor}, ask, legs, n, WithHelpers(live, st, |p.blocks|), via);
    LegStep(p, st, v, live, {anchor}, ask, legs, n, Touched(anchor, c0, c1, n), WithHelpers(live, st, |p.blocks|), via);
    assert Touched(anchor, c0, c1, n) + {legs[n].from} == Touched(anchor, c0, c1, n + 1);
  }

  lemma CutIsInside(p: Links, v: Links, live: set<Node>, back: set<Node>)
    requires Cut(p, v, live, back)
    ensures OwnOrHelper(p, v, live) && |p.succ| == |p.blocks|
  {}

  lemma AboutGoing(p: Links, v: Links, live: set<Node>, ask: Queries, anchor: Node, idom0: Node, idom1: Node, c0: Node,
                   c1: Node)
    requires Going(p, v, live, ask, anchor, idom0, idom1, c0, c1, 4)
    ensures Cut(p, v, live, {anchor})
    ensures LegsDone(p, v, live, {anchor}, ask, Legs(|p.blocks|, anchor, idom0, idom1, c0, c1), 4)
    ensures OnlyLegs(p, v, live, {anchor}, ask, Legs(|p.blocks|, anchor, idom0, idom1, c0, c1))
  {}

  /** Collects the edges to the two constructs from below the anchor. */
  method CollectAside(f: Blocks, ask: Queries, anchor: Node, c0: Node, c1: Node, h: Helpers, ghost idom0: Node,
                      ghost idom1: Node, ghost goal: map<Node, Node>, ghost p: Links, ghost live: set<Node>)
    requires f.Valid() && Anchored(p, f.View(), live, anchor, c0, c1, goal) && anchor in live && idom0 in live
             && idom1 in live
    requires c0 != c1 && c0 != anchor && c1 != anchor && c0 < |p.blocks| && c1 < |p.blocks|
             && h == HelpersAt(|p.blocks|)
    requires h.to1 < |f.pred| && f.pred[h.to0] == [] && f.pred[h.to1] == []
    requires Going(p, f.View(), live, ask, anchor, idom0, idom1, c0, c1, 0)
    modifies f
    ensures f.Valid() && f.nextId == old(f.nextId) && h.to1 < |f.pred| && f.pred[h.front] == old(f.pred[h.front])
    ensures Anchored(p, f.View(), live, anchor, c0, c1, goal)
    ensures Going(p, f.View(), live, ask, anchor, idom0, idom1, c0, c1, 2)
  {
    hide Wired, Anchored, Rewritten, Scope, LedBy, Distinct, WithHelpers, Going, HelpersIntact;
    ghost var v0 := f.View();
    AnchoredFacts(p, v0, live, anchor, c0, c1, goal);
    AnchoredScope(p, v0, live, anchor, c0, c1, goal, c0, h.to0);
    ghost var via := Rewrite(f, ask, anchor, c0, h.to0, [], WithHelpers(live, v0, |p.blocks|));
    AsideStep(p, v0, f.View(), live, anchor, c0, c1, goal, ask, anchor, c0, h.to0, via);
    LegAt(p, v0, f.View(), live, anchor, idom0, idom1, c0, c1, goal, ask, 0, via);
    ghost var v1 := f.View();
    AnchoredFacts(p, v1, live, anchor, c0, c1, goal);
    AnchoredScope(p, v1, live, anchor, c0, c1, goal, c1, h.to1);
    via := Rewrite(f, ask, anchor, c1, h.to1, [], WithHelpers(live, v1, |p.blocks|));
    AsideStep(p, v1, f.View(), live, anchor, c0, c1, goal, ask, anchor, c1, h.to1, via);
    LegAt(p, v1, f.View(), live, anchor, idom0, idom1, c0, c1, goal, ask, 1, via);
    AnchoredFacts(p, f.View(), live, anchor, c0, c1, goal);
  }

  /** And from elsewhere. */
  method CollectInFront(f: Blocks, ask: Queries, anchor: Node, idom0: Node, idom1: Node, c0: Node, c1: Node,
                        h: Helpers, ghost goal0: map<Node, Node>, ghost p: Links, ghost live: set<Node>)
    returns (cut0: nat, cut1: nat, ghost goal: map<Node, Node>)
    requires f.Valid() && Anchored(p, f.View(), live, anchor, c0, c1, goal0) && c0 in live && c1 in live
             && idom0 in live && idom1 in live && anchor in live
    requires c0 != anchor && c1 != anchor && idom0 != c0 && idom1 != c1
    requires c0 < |p.blocks| && c1 < |p.blocks| && h == HelpersAt(|p.blocks|) && h.front < |f.pred|
    requires Shaped(p) && c0 !in p.succ[c1] && c0 !in f.pred[h.front] && c1 !in f.pred[h.front]
    requires forall j :: 0 <= j < |f.pred[h.front]| ==>
               f.pred[h.front][j] in goal0 && goal0[f.pred[h.front][j]] == anchor
    requires Going(p, f.View(), live, ask, anchor, idom0, idom1, c0, c1, 2)
    modifies f
    ensures f.Valid() && f.nextId == old(f.nextId) && h.front < |f.pred|
    ensures Anchored(p, f.View(), live, anchor, c0, c1, goal)
            && Sections(f.pred[h.front], goal, cut0, cut1, anchor, c0, c1)
    ensures Going(p, f.View(), live, ask, anchor, idom0, idom1, c0, c1, 4)
  {
    hide Wired, Anchored, Rewritten, Scope, LedBy, Sections, Distinct, WithHelpers, Going, HelpersIntact;
    ghost var v2 := f.View();
    AnchoredFacts(p, v2, live, anchor, c0, c1, goal0);
    cut0 := |f.pred[h.front]|;
    AnchoredScope(p, v2, live, anchor, c0, c1, goal0, c0, h.front);
    ghost var via := Rewrite(f, ask, idom0, c0, h.front, [], WithHelpers(live, v2, |p.blocks|));
    FrontStep(p, v2, f.View(), live, anchor, c0, c1, goal0, ask, idom0, c0, via);
    LegAt(p, v2, f.View(), live, anchor, idom0, idom1, c0, c1, goal0, ask, 2, via);
    ghost var v3 := f.View();
    ghost var goal1 := MoreGoals(v3, h.front, goal0, c0);
    SectionsMore(v3, v2.pred[h.front], goal0, h.front, c0);
    AnchoredFacts(p, v3, live, anchor, c0, c1, goal1);
    cut1 := |f.pred[h.front]|;
    AnchoredScope(p, v3, live, anchor, c0, c1, goal1, c1, h.front);
    via := Rewrite(f, ask, idom1, c1, h.front, [], WithHelpers(live, v3, |p.blocks|));
    FrontStep(p, v3, f.View(), live, anchor, c0, c1, goal1, ask, idom1, c1, via);
    LegAt(p, v3, f.View(), live, anchor, idom0, idom1, c0, c1, goal1, ask, 3, via);
    SectionsMore(f.View(), v3.pred[h.front], goal1, h.front, c1);
    goal := MoreGoals(f.View(), h.front, goal1, c1);
    SectionsNow(v2.pred[h.front], v3.pred[h.front], f.pred[h.front], goal0, goal1, goal, anchor, c0, c1);
  }

  /** Collects the edges to the two constructs, from below the anchor and from elsewhere. */
  method CollectAroundAnchor(f: Blocks, ask: Queries, anchor: Node, idom0: Node, idom1: Node, c0: Node, c1: Node,
                             h: Helpers, ghost p: Links, ghost live: set<Node>)
    returns (cut0: nat, cut1: nat, ghost goal: map<Node, Node>)
    requires f.Valid() && Wirable(p, live) && anchor in live && c0 in live && c1 in live && idom0 in live
             && idom1 in live
    requires c0 != c1 && c0 != anchor && c1 != anchor && idom0 != c0 && idom1 != c1
    requires c0 < |p.succ| && c1 < |p.succ| && anchor !in p.succ[c0] && anchor !in p.succ[c1] && c0 !in p.succ[c1]
    requires anchor < |p.blocks| && f.View() == Prepared(p, anchor) && h == HelpersAt(|p.blocks|)
    modifies f
    ensures f.Valid() && f.nextId == old(f.nextId) && h.front < |f.pred|
    ensures Anchored(p, f.View(), live, anchor, c0, c1, goal)
            && Sections(f.pred[h.front], goal, cut0, cut1, anchor, c0, c1)
    ensures Going(p, f.View(), live, ask, anchor, idom0, idom1, c0, c1, 4)
  {
    hide Wirable, Wired, Anchored, LedBy, Prepared, Sections, Distinct, WithHelpers, Going, HelpersIntact;
    LegsStart(p, live, ask, anchor, idom0, idom1, c0, c1);
    AnchoredStart(p, live, anchor, c0, c1);
    goal := AllTo(f.View(), h.front, anchor);
    OwnSlots(p, live, c0);
    OwnSlots(p, live, c1);
    EntersFront(p, live, anchor, c0);
    EntersFront(p, live, anchor, c1);
    AboutWirable(p, live);
    CollectAside(f, ask, anchor, c0, c1, h, idom0, idom1, goal, p, live);
    cut0, cut1, goal := CollectInFront(f, ask, anchor, idom0, idom1, c0, c1, h, goal, p, live);
  }

  lemma SectionsNow(p0: seq<Node>, p1: seq<Node>, p2: seq<Node>, g0: map<Node, Node>, g1: map<Node, Node>,
                    g2: map<Node, Node>, anchor: Node, c0: Node, c1: Node)
    requires p0 <= p1 <= p2
    requires forall j :: 0 <= j < |p0| ==> p0[j] in g0 && g0[p0[j]] == anchor
    requires forall j :: 0 <= j < |p1| ==>
               p1[j] in g1 && (j < |p0| ==> p0[j] in g0) && g1[p1[j]] == if j < |p0| then g0[p0[j]] else c0
    requires forall j :: 0 <= j < |p2| ==>
               p2[j] in g2 && (j < |p1| ==> p1[j] in g1) && g2[p2[j]] == if j < |p1| then g1[p1[j]] else c1
    ensures Sections(p2, g2, |p0|, |p1|, anchor, c0, c1)
  {}

  /** A block that does not branch to the anchor does not enter in front of it. */
  lemma EntersFront(p: Links, live: set<Node>, anchor: Node, c: Node)
    requires Wirable(p, live) && anchor < |p.blocks| && c < |p.blocks| && anchor !in p.succ[c]
    ensures c !in p.pred[anchor]
  {
    assert PredsSound(p, anchor);
  }

  lemma AnchoredFacts(p: Links, v: Links, live: set<Node>, anchor: Node, c0: Node, c1: Node, goal: map<Node, Node>)
    requires Anchored(p, v, live, anchor, c0, c1, goal)
    ensures Shaped(v) && |p.blocks| + 5 <= |v.blocks| && Wired(v, WithHelpers(live, v, |p.blocks|))
            && Distinct(v.pred[|p.blocks|])
    ensures forall x: Node :: x in goal <==> x in v.pred[|p.blocks|]
    ensures forall b: Node :: b in live ==> b in WithHelpers(live, v, |p.blocks|)
    ensures HelpersIntact(v, |p.blocks|, anchor)
    ensures forall n: Node :: |p.blocks| + 5 <= n < |v.blocks| ==> v.blocks[n] == IRBlock([], [], Branch(|p.blocks|))
  {
    hide LedAt, WiredAt, SuccInside;
    assert PredsSound(v, |p.blocks|);
    forall n: Node | |p.blocks| + 5 <= n < |v.blocks| ensures v.blocks[n] == IRBlock([], [], Branch(|p.blocks|)) {
      assert IntermediateAt(v, |p.blocks|, n);
    }
  }

  /** `CFGStructurizer::fixup_phi`, as far as values are hoisted: an entry whose value is not available in
      its block is moved to the block that makes the value. */
  method FixupPhi(incoming0: seq<IncomingValue>, valueBlock: map<Id, Node>,
                  dominates: (Node, Node) -> bool) returns (incoming: seq<IncomingValue>)
    requires forall i, j ::
               (0 <= i < |incoming0| && 0 <= j < |incoming0| && incoming0[i].id in valueBlock
                && !dominates(valueBlock[incoming0[i].id], incoming0[i].block)) ==>
               (incoming0[j].block != valueBlock[incoming0[i].id]
                && (i != j && incoming0[j].id in valueBlock ==>
                      valueBlock[incoming0[j].id] != valueBlock[incoming0[i].id]))
    ensures |incoming| == |incoming0|
    ensures forall i :: 0 <= i < |incoming0| ==>
              incoming[i] == if incoming0[i].id in valueBlock
              && !dominates(valueBlock[incoming0[i].id], incoming0[i].block)
                             then IncomingValue(valueBlock[incoming0[i].id], incoming0[i].id) else incoming0[i]
  {
    incoming := incoming0;
    var i := 0;
    while i < |incoming|
      invariant i <= |incoming| == |incoming0|
      invariant forall k :: i <= k < |incoming| ==> incoming[k] == incoming0[k]
      invariant forall k :: 0 <= k < i ==>
                  incoming[k] == if incoming0[k].id in valueBlock
                  && !dominates(valueBlock[incoming0[k].id], incoming0[k].block)
                                 then IncomingValue(valueBlock[incoming0[k].id], incoming0[k].id) else incoming0[k]
    {
      if incoming[i].id in valueBlock {
        var sourceBlock := valueBlock[incoming[i].id];
        if !dominates(sourceBlock, incoming[i].block) {
          var taken := exists k :: 0 <= k < |incoming| && incoming[k].block == sourceBlock;
          assert !taken;
          if !taken {
            incoming := incoming[i := IncomingValue(sourceBlock, incoming[i].id)];
          }
        }
      }
      i := i + 1;
    }
  }

  /** The dispatcher's entries: the anchor's value is made at the meeting point, and is moved there. */
  method HoistedEntries(h: Helpers, ids: Selectors, anchor: Node,
                        dominates: (Node, Node) -> bool) returns (cond: seq<IncomingValue>)
    requires !dominates(h.meet, anchor) && dominates(h.front, h.front) && ids.meet != ids.outside && anchor != h.meet
             && h.front != h.meet
    ensures cond == [IncomingValue(h.meet, ids.meet), IncomingValue(h.front, ids.outside)]
  {
    var valueBlock: map<Id, Node> := map[ids.meet := h.meet, ids.outside := h.front];
    cond := FixupPhi([IncomingValue(anchor, ids.meet), IncomingValue(h.front, ids.outside)], valueBlock, dominates);
  }

  lemma MeetIntact(v: Links, base: Node, anchor: Node)
    requires Shaped(v) && base + 5 <= |v.blocks| && HelpersIntact(v, base, anchor)
    ensures v.blocks[base + 3] == IRBlock([], [], Branch(base + 4))
    ensures v.succ[base] == [anchor] && v.succ[base + 4] == [] && v.succ[base + 3] == [base + 4]
    ensures v.succ[base + 1] == v.succ[base + 2] == [base + 3]
  {}

  /** Where the helper blocks lead in the end. */
  predicate HelperEdges(succ: seq<seq<Node>>, h: Helpers, anchor: Node, c0: Node, c1: Node) {
    && h.front < |succ| && h.to0 < |succ| && h.to1 < |succ| && h.meet < |succ| && h.out < |succ|
    && succ[h.front] == [anchor, h.out] && succ[h.out] == [c0, c1]
    && succ[h.to0] == [h.meet] && succ[h.to1] == [h.meet] && succ[h.meet] == [h.out]
  }

  /** Two branches, of which the first may be there already. */
  method BranchTwice(f: Blocks, a: Node, t: Node, u: Node, ghost was: seq<Node>, ghost s: set<Node>)
    requires f.Valid() && Wired(f.View(), s) && a in s && a < |f.blocks| && t < |f.blocks| && u < |f.blocks| && t != u
    requires f.succ[a] == was && (was == [] || was == [t]) && t != a && u != a
    modifies f`succ, f`pred
    ensures f.Valid() && Wired(f.View(), s) && f.succ[a] == [t, u] && |f.pred| == |old(f.pred)|
    ensures forall x: Node :: x < |f.pred| && x != t && x != u ==> f.pred[x] == old(f.pred)[x]
    ensures |f.succ| == |old(f.succ)| && forall b: Node :: b < |f.succ| && b != a ==> f.succ[b] == old(f.succ)[b]
  {
    hide Wired;
    BranchTo(f, a, t, s);
    BranchTo(f, a, u, s);
  }

  /** Gives a helper block its PHIs and its terminator. */
  method Fill(f: Blocks, a: Node, phi: seq<PHI>, terminator: Terminator, ghost s: set<Node>)
    requires f.Valid() && Wired(f.View(), s) && a in s && a < |f.blocks|
    requires forall t: Node :: t in Targets(terminator) ==> t in f.succ[a]
    modifies f`blocks
    ensures f.Valid() && Wired(f.View(), s) && f.blocks == old(f.blocks)[a := IRBlock(phi, [], terminator)]
  {
    hide Wired;
    TerminatorWired(f.View(), s, a, IRBlock(phi, [], terminator));
    f.blocks := f.blocks[a := IRBlock(phi, [], terminator)];
  }

  /** The selector PHIs and the branches that go with them. */
  method FinishSelectors(f: Blocks, h: Helpers, ids: Selectors, anchor: Node, c0: Node, c1: Node, cut0: nat, cut1: nat,
                         constants: Constants, dominates: (Node, Node) -> bool, ghost s: set<Node>)
    requires f.Valid() && h == HelpersAt(h.front) && h.out < |f.blocks| && HelpersIntact(f.View(), h.front, anchor)
    requires cut0 <= cut1 <= |f.pred[h.front]| && anchor < h.front && c0 < h.front && c1 < h.front
    requires forall n: Node :: h.out < n < |f.blocks| ==> f.blocks[n] == IRBlock([], [], Branch(h.front))
    requires !dominates(h.meet, anchor) && dominates(h.front, h.front) && ids.take != ids.outside
             && ids.meet != ids.outside && ids.meet != ids.take
    requires Wired(f.View(), s) && h.front in s && h.meet in s && h.out in s && c0 != c1
    modifies f`blocks, f`succ, f`pred
    ensures Wired(f.View(), s) && HelperEdges(f.succ, h, anchor, c0, c1)
    ensures f.Valid() && |f.blocks| == |old(f.blocks)| && f.pred[h.front] == old(f.pred[h.front])
    ensures forall b: Node :: b < h.front ==> f.blocks[b] == old(f.blocks[b])
    ensures |f.succ| == |old(f.succ)| && forall b: Node :: b < h.front ==> f.succ[b] == old(f.succ[b])
    ensures Finished(f.blocks, h.front, ids, f.pred[h.front], cut0, cut1, constants, anchor, c0, c1, h.meet)
  {
    hide CutEntries, Finished, HelpersIntact, Wired;
    ghost var v := f.View();
    MeetIntact(v, h.front, anchor);
    var take := MakeEntries(f.pred[h.front], cut0, constants);
    var outside := MakeEntries(f.pred[h.front], cut1, constants);
    BranchTwice(f, h.front, anchor, h.out, [anchor], s);
    Fill(f, h.front, [PHI(ids.take, take), PHI(ids.outside, outside)], Condition(ids.take, anchor, h.out), s);
    var selector := PHI(ids.meet,
                        [IncomingValue(h.to0, constants.bools(true)), IncomingValue(h.to1, constants.bools(false))]);
    Fill(f, h.meet, [selector], f.blocks[h.meet].terminator, s);
    BranchTwice(f, h.out, c0, c1, [], s);
    var cond := HoistedEntries(h, ids, anchor, dominates);
    Fill(f, h.out, [PHI(ids.out, cond)], Condition(ids.out, c0, c1), s);
    IsFinished(f.blocks, v, h.front, ids, cut0, cut1, constants, anchor, c0, c1);
  }

  /** `CFGStructurizer::collect_and_dispatch_control_flow_from_anchor`, and the fix-up of the one PHI entry
      that names the anchor instead of the meeting point. */
  method CollectAndDispatchControlFlowFromAnchor(f: Blocks, ask: Queries, anchor: Node, idom0: Node, idom1: Node,
                                                 c0: Node, c1: Node, constants: Constants,
                                                 dominates: (Node, Node) -> bool, ghost live: set<Node>)
    returns (h: Helpers)
    requires f.Valid() && Wirable(f.View(), live) && anchor in live && c0 in live && c1 in live && idom0 in live
             && idom1 in live
    requires c0 != c1 && c0 != anchor && c1 != anchor && idom0 != c0 && idom1 != c1
    requires c0 < |f.succ| && c1 < |f.succ| && anchor !in f.succ[c0] && anchor !in f.succ[c1] && c0 !in f.succ[c1]
    requires !dominates(|f.blocks| + 3, anchor) && dominates(|f.blocks|, |f.blocks|)
    modifies f
    ensures f.Valid() && h == HelpersAt(|old(f.blocks)|) && h.out < |f.blocks|
    ensures forall env: Env :: HoldsBools(constants, env) ==> SameVisits(old(f.blocks), f.blocks, live, env)
    ensures |f.blocks[h.front].phi| == 2 && PhiMatches(f.blocks[h.front].phi[0].incoming, f.pred[h.front], None)
    ensures PhiMatches(f.blocks[h.front].phi[1].incoming, f.pred[h.front], None)
    ensures LegsDone(old(f.View()), f.View(), live, {anchor}, ask, Legs(h.front, anchor, idom0, idom1, c0, c1), 4)
    ensures OnlyLegs(old(f.View()), f.View(), live, {anchor}, ask, Legs(h.front, anchor, idom0, idom1, c0, c1))
    ensures OwnOrHelper(old(f.View()), f.View(), live) && SameBodies(old(f.blocks), f.blocks, live)
    ensures Wired(f.View(), WithHelpers(live, f.View(), h.front)) && HelperEdges(f.succ, h, anchor, c0, c1)
  {
    hide Wirable, Wired, Anchored, LedBy, Sections, Distinct, Prepared, HoldsBools, Leads, SameVisits, PhiMatches,
        Finished, WithHelpers, Cut, LegsDone, OwnOrHelper, Going, OnlyLegs, SameBodies, HelperEdges, HelpersIntact;
    ghost var p := f.View();
    OwnSlots(p, live, anchor);
    OwnSlots(p, live, c0);
    OwnSlots(p, live, c1);
    h := Prepare(f, anchor, live);
    var cut0, cut1;
    ghost var goal;
    var ids := SelectorsFrom(f.nextId);
    f.nextId := f.nextId + 4;
    cut0, cut1, goal := CollectAroundAnchor(f, ask, anchor, idom0, idom1, c0, c1, h, p, live);
    ghost var v := f.View();
    AnchoredFacts(p, v, live, anchor, c0, c1, goal);
    SectionsCuts(f.pred[h.front], goal, cut0, cut1, anchor, c0, c1);
    WithHelpersMembers(live, v, h.front, h.front);
    WithHelpersMembers(live, v, h.front, h.meet);
    WithHelpersMembers(live, v, h.front, h.out);
    FinishSelectors(f, h, ids, anchor, c0, c1, cut0, cut1, constants, dominates, WithHelpers(live, v, h.front));
    HelpersSame(live, v, f.View(), h.front);
    WirableIsLive(p, live);
    forall env: Env | HoldsBools(constants, env) ensures SameVisits(p.blocks, f.blocks, live, env) {
      AnchorLeads(p, v, f.blocks, live, ids, cut0, cut1, constants, anchor, c0, c1, goal, env);
      LeadsKeepsVisits(p.blocks, f.blocks, live, env);
    }
    AnchoredBodies(p, v, f.blocks, live, anchor, c0, c1, goal);
    CutMatches(f.pred[h.front], cut0, constants);
    CutMatches(f.pred[h.front], cut1, constants);
    AboutGoing(p, v, live, ask, anchor, idom0, idom1, c0, c1);
    LegsSame(p, v, f.View(), live, {anchor}, ask, Legs(h.front, anchor, idom0, idom1, c0, c1));
    FrontPhis(f.blocks, h.front, ids, f.pred[h.front], cut0, cut1, constants, anchor, c0, c1, h.meet);
  }

  lemma AnchoredBodies(p: Links, v: Links, q: seq<IRBlock>, live: set<Node>, anchor: Node, c0: Node, c1: Node,
                       goal: map<Node, Node>)
    requires Anchored(p, v, live, anchor, c0, c1, goal) && |q| == |v.blocks|
    requires forall b: Node :: b < |p.blocks| && b < |q| ==> q[b] == v.blocks[b]
    ensures SameBodies(p.blocks, q, live)
  {
    hide LedAt, SameBodies, WiredAt, PredsSound, SuccInside, HelpersIntact;
    LedBodies(p, v, q, live, |p.blocks|, Sides(|p.blocks|, c0, c1), goal);
  }

  lemma HelpersSame(live: set<Node>, v: Links, w: Links, base: Node)
    requires |v.blocks| == |w.blocks|
    ensures WithHelpers(live, v, base) == WithHelpers(live, w, base)
  {}

  lemma FrontPhis(q: seq<IRBlock>, base: Node, ids: Selectors, preds: seq<Node>, cut0: nat, cut1: nat,
                  constants: Constants, anchor: Node, c0: Node, c1: Node, entry: Node)
    requires Finished(q, base, ids, preds, cut0, cut1, constants, anchor, c0, c1, entry)
    ensures base < |q| && q[base].phi == [PHI(ids.take, CutEntries(preds, cut0, constants)),
                                          PHI(ids.outside, CutEntries(preds, cut1, constants))]
  {}

  lemma SectionsCuts(preds: seq<Node>, goal: map<Node, Node>, cut0: nat, cut1: nat, anchor: Node, c0: Node, c1: Node)
    requires Sections(preds, goal, cut0, cut1, anchor, c0, c1)
    ensures cut0 <= cut1 <= |preds|
  {}

  lemma CutMatches(preds: seq<Node>, cut: nat, constants: Constants)
    requires Distinct(preds)
    ensures PhiMatches(CutEntries(preds, cut, constants), preds, None)
  {
    var incoming := CutEntries(preds, cut, constants);
    forall a, b | 0 <= a < b < |incoming| ensures incoming[a].block != incoming[b].block {
      DistinctPair(preds, a, b);
    }
    forall f: Node ensures HasBlock(incoming, f) <==> f in preds {
      if f in preds {
        assert incoming[Index(preds, f)].block == f;
      }
    }
  }

  lemma IsFinished(q: seq<IRBlock>, v: Links, base: Node, ids: Selectors, cut0: nat, cut1: nat, constants: Constants,
                   anchor: Node, c0: Node, c1: Node)
    requires Shaped(v) && base + 5 <= |v.blocks| == |q| && HelpersIntact(v, base, anchor)
    requires q == v.blocks[base :=
                           IRBlock([PHI(ids.take, CutEntries(v.pred[base], cut0, constants)),
                                    PHI(ids.outside, CutEntries(v.pred[base], cut1, constants))], [],
                                           Condition(ids.take, anchor, base + 4))]
                          [base + 3 := IRBlock([PHI(ids.meet,
                                                    [IncomingValue(base + 1, constants.bools(true)),
                                                     IncomingValue(base + 2, constants.bools(false))])], [],
                                                     Branch(base + 4))]
                          [base + 4 := IRBlock([PHI(ids.out,
                                                    [IncomingValue(base + 3, ids.meet),
                                                     IncomingValue(base, ids.outside)])], [],
                                                     Condition(ids.out, c0, c1))]
    requires forall n: Node :: base + 5 <= n < |v.blocks| ==> v.blocks[n] == IRBlock([], [], Branch(base))
    ensures Finished(q, base, ids, v.pred[base], cut0, cut1, constants, anchor, c0, c1, base + 3)
  {
    hide CutEntries;
  }
}
