/** The packed reachability matrix: one row of 32-bit words per block, filled in post order. */
module Reachability {
  import opened Graphs
  import opened Lists
  import opened Bits
  import opened Dominance
  import opened NodePool
  import opened FlowGraph

  ghost predicate RowBit(row: seq<bv32>, j: nat) {
    j / 32 < |row| && Bit(row[j / 32], j % 32)
  }

  lemma RowFits(r: nat, rows: nat, stride: nat)
    requires r < rows
    ensures r * stride + stride <= rows * stride
  {
    assert rows * stride == r * stride + (rows - r) * stride;
    assert (rows - r) * stride == stride + (rows - r - 1) * stride;
  }

  /** Row `r` of a matrix with `stride` words to a row. */
  ghost function Row(words: seq<bv32>, stride: nat, rows: nat, r: nat): (row: seq<bv32>)
    requires r < rows && |words| == rows * stride
    ensures |row| == stride
  {
    RowFits(r, rows, stride);
    words[r * stride..r * stride + stride]
  }

  lemma RowsApart(r: nat, s: nat, stride: nat)
    requires r < s
    ensures r * stride + stride <= s * stride
  {
    RowFits(r, s, stride);
  }

  /** Writing one word of row `r` changes that word of that row and nothing else. */
  lemma RowUpdate(words: seq<bv32>, stride: nat, rows: nat, r: nat, k: nat, w: bv32)
    requires r < rows && |words| == rows * stride && k < stride
    ensures r * stride + k < |words|
    ensures Row(words[r * stride + k := w], stride, rows, r) == Row(words, stride, rows, r)[k := w]
    ensures forall s: nat :: s < rows && s != r ==>
              Row(words[r * stride + k := w], stride, rows, s) == Row(words, stride, rows, s)
  {
    RowFits(r, rows, stride);
    forall s: nat | s < rows && s != r
      ensures Row(words[r * stride + k := w], stride, rows, s) == Row(words, stride, rows, s)
    {
      RowFits(s, rows, stride);
      if s < r { RowsApart(s, r, stride); } else { RowsApart(r, s, stride); }
    }
  }

  lemma RowWord(words: seq<bv32>, stride: nat, rows: nat, r: nat, k: nat)
    requires r < rows && |words| == rows * stride && k < stride
    ensures r * stride + k < |words| && words[r * stride + k] == Row(words, stride, rows, r)[k]
  {
    RowFits(r, rows, stride);
  }

  /** `dst` with every word of `src` below `k` or-ed in. */
  ghost function OrWords(dst: seq<bv32>, src: seq<bv32>, k: nat): (r: seq<bv32>)
    requires |dst| == |src| && k <= |dst|
    ensures |r| == |dst|
  {
    seq(|dst|, i requires 0 <= i < |dst| => if i < k then Or(dst[i], src[i]) else dst[i])
  }

  lemma OrWordsBits(dst: seq<bv32>, src: seq<bv32>, j: nat)
    requires |dst| == |src|
    ensures RowBit(OrWords(dst, src, |dst|), j) <==> RowBit(dst, j) || RowBit(src, j)
  {
    hide Bit, Set;
    if j / 32 < |dst| {
      OrBit(dst[j / 32], src[j / 32], j % 32);
    }
  }

  lemma SetBitOfRow(row: seq<bv32>, i: nat, j: nat)
    requires i / 32 < |row|
    ensures RowBit(row[i / 32 := Set(row[i / 32], i % 32)], j) <==> i == j || RowBit(row, j)
  {
    hide Bit, Set;
    if i / 32 == j / 32 {
      SetBit(row[i / 32], i % 32, j % 32);
    }
  }

  /** The row says exactly which blocks `x` reaches, by their numbers. */
  ghost predicate RowOf(f: Flow, row: seq<bv32>, x: Node) {
    forall y: Node :: Live(f, y) && y < |f.num| ==> (RowBit(row, f.num[y]) <==> Reach(f.g, x, y))
  }

  ghost predicate ZeroRow(row: seq<bv32>) {
    forall k :: 0 <= k < |row| ==> row[k] == 0
  }

  /** The matrix is right for the blocks numbered below `i`; the rest of it is still zero. */
  ghost predicate Filled(f: Flow, order: seq<Node>, words: seq<bv32>, stride: nat, i: nat) {
    && |words| == |order| * stride && i <= |order|
    && (forall r: nat :: r < i ==> RowOf(f, Row(words, stride, |order|, r), order[r]))
    && (forall r: nat :: i <= r < |order| ==> ZeroRow(Row(words, stride, |order|, r)))
  }

  /** Which blocks the first of `ss` reach. */
  ghost predicate RowOfSome(f: Flow, row: seq<bv32>, ss: seq<Node>) {
    forall y: Node :: Live(f, y) && y < |f.num| ==>
      (RowBit(row, f.num[y]) <==> exists j :: 0 <= j < |ss| && Reach(f.g, ss[j], y))
  }

  lemma RowOfNone(f: Flow, row: seq<bv32>)
    requires ZeroRow(row)
    ensures RowOfSome(f, row, [])
  {
    forall y: Node | Live(f, y) && y < |f.num| ensures !RowBit(row, f.num[y]) {
      ZeroBit(f.num[y] % 32);
    }
  }

  lemma RowOfSnoc(f: Flow, dst: seq<bv32>, src: seq<bv32>, ss: seq<Node>, s: Node)
    requires |dst| == |src| && RowOfSome(f, dst, ss) && RowOf(f, src, s)
    ensures RowOfSome(f, OrWords(dst, src, |dst|), ss + [s])
  {
    var row := OrWords(dst, src, |dst|);
    var ts := ss + [s];
    forall y: Node | Live(f, y) && y < |f.num|
      ensures RowBit(row, f.num[y]) <==> exists j :: 0 <= j < |ts| && Reach(f.g, ts[j], y)
    {
      OrWordsBits(dst, src, f.num[y]);
      if RowBit(dst, f.num[y]) {
        var j :| 0 <= j < |ss| && Reach(f.g, ss[j], y);
        assert ts[j] == ss[j];
      }
      if RowBit(src, f.num[y]) {
        assert ts[|ss|] == s;
      }
    }
  }

  /** A block reaches itself and what its successors reach. */
  lemma RowComplete(f: Flow, row: seq<bv32>, x: Node, ss: seq<Node>)
    requires Ok(f) && Live(f, x) && x < |f.num| && f.num[x] / 32 < |row|
    requires RowOfSome(f, row, ss) && forall y: Node :: y in ss <==> Edge(f.g, x, y)
    ensures RowOf(f, row[f.num[x] / 32 := Set(row[f.num[x] / 32], f.num[x] % 32)], x)
  {
    hide Bit, Set, RowBit;
    var i := f.num[x];
    var row' := row[i / 32 := Set(row[i / 32], i % 32)];
    forall y: Node | Live(f, y) && y < |f.num| ensures RowBit(row', f.num[y]) <==> Reach(f.g, x, y) {
      SetBitOfRow(row, i, f.num[y]);
      if f.num[y] == i {
        if x != y { NumbersDiffer(f, x, y); }
        ReachRefl(f.g, x);
      } else {
        if RowBit(row, f.num[y]) {
          var j :| 0 <= j < |ss| && Reach(f.g, ss[j], y);
          assert ss[j] in ss;
          ReachEdge(f.g, x, ss[j], y);
        }
        if Reach(f.g, x, y) {
          var s := ReachFirst(f.g, x, y);
          assert ss[Index(ss, s)] == s;
        }
      }
    }
  }

  // ---------------------------------------------------------------- the methods

  lemma OrWordsStep(dst: seq<bv32>, src: seq<bv32>, k: nat)
    requires |dst| == |src| && k < |dst|
    ensures OrWords(dst, src, k + 1) == OrWords(dst, src, k)[k := Or(dst[k], src[k])]
  {}

  lemma OrWordsNone(dst: seq<bv32>, src: seq<bv32>)
    requires |dst| == |src|
    ensures OrWords(dst, src, 0) == dst
  {}

  /** Every row of `words` but `r` is that of `words0`, and row `r` is `row`. */
  ghost predicate OnlyRow(words0: seq<bv32>, words: seq<bv32>, stride: nat, rows: nat, r: nat, row: seq<bv32>) {
    && r < rows && |words| == |words0| == rows * stride
    && Row(words, stride, rows, r) == row
    && forall s: nat :: s < rows && s != r ==> Row(words, stride, rows, s) == Row(words0, stride, rows, s)
  }

  lemma OnlyRowWrite(words0: seq<bv32>, words: seq<bv32>, stride: nat, rows: nat, r: nat, row: seq<bv32>, k: nat,
                     w: bv32)
    requires OnlyRow(words0, words, stride, rows, r, row) && k < stride
    ensures r * stride + k < |words|
    ensures OnlyRow(words0, words[r * stride + k := w], stride, rows, r, row[k := w])
  {
    RowUpdate(words, stride, rows, r, k, w);
  }

  /** Ors the row of block number `s` into the row of block number `r`. */
  method InheritRow(c: Pool, r: nat, s: nat, ghost rows: nat)
    requires |c.reachabilityBitset| == rows * c.reachabilityStride && r < rows && s < rows && r != s
    modifies c`reachabilityBitset
    ensures |c.reachabilityBitset| == rows * c.reachabilityStride
    ensures var stride := c.reachabilityStride;
            OnlyRow(old(c.reachabilityBitset), c.reachabilityBitset, stride, rows, r,
                    OrWords(Row(old(c.reachabilityBitset), stride, rows, r),
                            Row(old(c.reachabilityBitset), stride, rows, s), stride))
  {
    hide Row, OrWords, OnlyRow;
    var stride := c.reachabilityStride;
    ghost var words0 := c.reachabilityBitset;
    ghost var dst, src := Row(words0, stride, rows, r), Row(words0, stride, rows, s);
    OrWordsNone(dst, src);
    OnlyRowRefl(words0, stride, rows, r);
    var k := 0;
    while k < stride
      invariant k <= stride == c.reachabilityStride && |c.reachabilityBitset| == rows * stride
      invariant OnlyRow(words0, c.reachabilityBitset, stride, rows, r, OrWords(dst, src, k))
    {
      OnlyRowRead(words0, c.reachabilityBitset, stride, rows, r, OrWords(dst, src, k), k, s);
      OrWordsAt(dst, src, k);
      OrWordsStep(dst, src, k);
      var w := Or(c.reachabilityBitset[r * stride + k], c.reachabilityBitset[s * stride + k]);
      OnlyRowWrite(words0, c.reachabilityBitset, stride, rows, r, OrWords(dst, src, k), k, w);
      c.reachabilityBitset := c.reachabilityBitset[r * stride + k := w];
      k := k + 1;
    }
  }

  lemma OnlyRowRefl(words: seq<bv32>, stride: nat, rows: nat, r: nat)
    requires r < rows && |words| == rows * stride
    ensures OnlyRow(words, words, stride, rows, r, Row(words, stride, rows, r))
  {}

  lemma OnlyRowRead(words0: seq<bv32>, words: seq<bv32>, stride: nat, rows: nat, r: nat, row: seq<bv32>, k: nat, s: nat)
    requires OnlyRow(words0, words, stride, rows, r, row) && k < stride && s < rows && s != r
    ensures |row| == stride && r * stride + k < |words| && s * stride + k < |words|
    ensures words[r * stride + k] == row[k]
    ensures words[s * stride + k] == Row(words0, stride, rows, s)[k]
  {
    RowWord(words, stride, rows, r, k);
    RowWord(words, stride, rows, s, k);
  }

  lemma OrWordsAt(dst: seq<bv32>, src: seq<bv32>, k: nat)
    requires |dst| == |src| && k < |dst|
    ensures OrWords(dst, src, k)[k] == dst[k]
  {}

  lemma FilledStep(f: Flow, order: seq<Node>, words0: seq<bv32>, words: seq<bv32>, stride: nat, i: nat, row: seq<bv32>)
    requires Filled(f, order, words0, stride, i) && i < |order|
    requires OnlyRow(words0, words, stride, |order|, i, row) && RowOf(f, row, order[i])
    ensures Filled(f, order, words, stride, i + 1)
  {}

  /** `visit_reachability`: a block reaches itself and everything its successors reach. */
  method VisitReachability(c: Pool, i: nat)
    requires c.Shape() && Numbered(Forward(c), c.forwardOrder) && InRange(c.forwardOrder, |c.succ|)
    requires i < |c.forwardOrder| && c.reachabilityStride == (|c.forwardOrder| + 31) / 32
    requires Filled(Forward(c), c.forwardOrder, c.reachabilityBitset, c.reachabilityStride, i)
    modifies c`reachabilityBitset
    ensures Filled(Forward(c), c.forwardOrder, c.reachabilityBitset, c.reachabilityStride, i + 1)
  {
    hide Ok, Row, OrWords, OnlyRow, RowOf, RowOfSome, ZeroRow, Restrict, RowBit, Bit, Set, Live;
    ghost var f := Forward(c);
    ghost var order := c.forwardOrder;
    ghost var words0 := c.reachabilityBitset;
    var stride, rows := c.reachabilityStride, |c.forwardOrder|;
    var node := c.forwardOrder[i];
    ghost var row := Row(words0, stride, rows, i);
    assert node in order;
    FilledRow(f, order, words0, stride, i);
    OnlyRowRefl(words0, stride, rows, i);
    RowOfNone(f, row);
    var j := 0;
    while j < |c.succ[node]|
      invariant j <= |c.succ[node]| && |row| == stride && |c.reachabilityBitset| == rows * stride
      invariant OnlyRow(words0, c.reachabilityBitset, stride, rows, i, row)
      invariant RowOfSome(f, row, c.succ[node][..j])
    {
      var s := c.succ[node][j];
      SuccNumber(f, order, c.succ, node, j);
      var r := c.forwardNumber[s];
      FilledDone(f, order, words0, stride, i, r);
      ghost var words := c.reachabilityBitset;
      OtherRow(words0, words, stride, rows, i, row, r);
      InheritRow(c, i, r, rows);
      ghost var src := Row(words0, stride, rows, r);
      OnlyRowTrans(words0, words, c.reachabilityBitset, stride, rows, i, row, OrWords(row, src, stride));
      RowOfSnoc(f, row, src, c.succ[node][..j], s);
      assert c.succ[node][..j + 1] == c.succ[node][..j] + [s];
      row := OrWords(row, src, stride);
      j := j + 1;
    }
    assert c.succ[node][..j] == c.succ[node];
    SuccEdges(f, order, c.succ, node);
    OwnWord(i, rows);
    RowComplete(f, row, node, c.succ[node]);
    OnlyRowSelf(words0, c.reachabilityBitset, stride, rows, i, row, i / 32);
    ghost var w := Set(row[i / 32], i % 32);
    OnlyRowWrite(words0, c.reachabilityBitset, stride, rows, i, row, i / 32, w);
    c.reachabilityBitset :=
        c.reachabilityBitset[i * stride + i / 32 := Set(c.reachabilityBitset[i * stride + i / 32], i % 32)];
    FilledStep(f, order, words0, c.reachabilityBitset, stride, i, row[i / 32 := w]);
  }

  lemma OwnWord(i: nat, rows: nat)
    requires i < rows
    ensures i / 32 < (rows + 31) / 32
  {}

  lemma FilledRow(f: Flow, order: seq<Node>, words: seq<bv32>, stride: nat, i: nat)
    requires Filled(f, order, words, stride, i) && i < |order|
    ensures |words| == |order| * stride && ZeroRow(Row(words, stride, |order|, i))
  {}

  lemma FilledDone(f: Flow, order: seq<Node>, words: seq<bv32>, stride: nat, i: nat, r: nat)
    requires Filled(f, order, words, stride, i) && r < i
    ensures |words| == |order| * stride && RowOf(f, Row(words, stride, |order|, r), order[r])
  {}

  lemma OtherRow(words0: seq<bv32>, words: seq<bv32>, stride: nat, rows: nat, r: nat, row: seq<bv32>, s: nat)
    requires OnlyRow(words0, words, stride, rows, r, row) && s < rows && s != r
    ensures Row(words, stride, rows, s) == Row(words0, stride, rows, s)
    ensures Row(words, stride, rows, r) == row
  {}

  lemma OnlyRowTrans(words0: seq<bv32>, words1: seq<bv32>, words2: seq<bv32>, stride: nat, rows: nat, r: nat,
                     row1: seq<bv32>, row2: seq<bv32>)
    requires OnlyRow(words0, words1, stride, rows, r, row1) && OnlyRow(words1, words2, stride, rows, r, row2)
    ensures OnlyRow(words0, words2, stride, rows, r, row2)
  {}

  lemma OnlyRowSelf(words0: seq<bv32>, words: seq<bv32>, stride: nat, rows: nat, r: nat, row: seq<bv32>, k: nat)
    requires OnlyRow(words0, words, stride, rows, r, row) && k < stride
    ensures |row| == stride && r * stride + k < |words| && words[r * stride + k] == row[k]
  {
    RowWord(words, stride, rows, r, k);
  }

  lemma SuccNumber(f: Flow, order: seq<Node>, succ: seq<seq<Node>>, x: Node, j: nat)
    requires Numbered(f, order) && f.g == Restrict(succ, order) && x in order && x < |succ| && j < |succ[x]|
    ensures var s := succ[x][j];
            Live(f, s) && s < |f.num| && x < |f.num| && f.num[s] < f.num[x] && f.num[s] < |order|
            && order[f.num[s]] == s
  {
    var s := succ[x][j];
    assert Edge(f.g, x, s);
    LiveEdge(f, x, s);
    OrderedByNumber(f, order, s);
  }

  lemma SuccEdges(f: Flow, order: seq<Node>, succ: seq<seq<Node>>, x: Node)
    requires Numbered(f, order) && f.g == Restrict(succ, order) && x in order && x < |succ|
    ensures Live(f, x) && x < |f.num|
    ensures forall y: Node :: y in succ[x] <==> Edge(f.g, x, y)
  {}

  /** The reachability columns are up to date with the forward flow graph. */
  ghost predicate ReachabilityBuilt(c: Pool)
    reads c`succ, c`forwardOrder, c`entryBlock, c`forwardNumber, c`reachabilityStride, c`reachabilityBitset
  {
    && c.reachabilityStride == (|c.forwardOrder| + 31) / 32
    && Filled(Forward(c), c.forwardOrder, c.reachabilityBitset, c.reachabilityStride, |c.forwardOrder|)
  }

  /** `build_reachability`. */
  method BuildReachability(c: Pool)
    requires c.Shape() && Numbered(Forward(c), c.forwardOrder) && InRange(c.forwardOrder, |c.succ|)
    modifies c`reachabilityStride, c`reachabilityBitset
    ensures c.Shape() && ReachabilityBuilt(c)
  {
    hide Ok, Filled, Restrict;
    var rows := |c.forwardOrder|;
    c.reachabilityStride := (rows + 31) / 32;
    c.reachabilityBitset := Zeros(c.reachabilityStride * rows);
    StartFilled(Forward(c), c.forwardOrder, c.reachabilityBitset, c.reachabilityStride);
    var i := 0;
    while i < rows
      invariant i <= rows && c.reachabilityStride == (rows + 31) / 32
      invariant Filled(Forward(c), c.forwardOrder, c.reachabilityBitset, c.reachabilityStride, i)
      modifies c`reachabilityBitset
    {
      VisitReachability(c, i);
      i := i + 1;
    }
  }

  function Zeros(n: nat): (r: seq<bv32>)
    ensures |r| == n && forall k :: 0 <= k < n ==> r[k] == 0
  {
    seq(n, _ => 0)
  }

  lemma StartFilled(f: Flow, order: seq<Node>, words: seq<bv32>, stride: nat)
    requires |words| == stride * |order| && forall k :: 0 <= k < |words| ==> words[k] == 0
    ensures Filled(f, order, words, stride, 0)
  {
    forall r: nat | r < |order| ensures ZeroRow(Row(words, stride, |order|, r)) {
      RowFits(r, |order|, stride);
    }
  }

  /** `query_reachability`: true exactly when a forward path, possibly empty, leads from one block to the other. */
  method QueryReachability(c: Pool, from: Node, to: Node) returns (r: bool)
    requires c.Shape() && Numbered(Forward(c), c.forwardOrder) && ReachabilityBuilt(c)
    requires from in c.forwardOrder && to in c.forwardOrder
    ensures r <==> Reach(Forward(c).g, from, to)
  {
    hide Ok, Bit, Row, Reach, Restrict, Filled;
    ghost var f := Forward(c);
    ghost var rows := |c.forwardOrder|;
    OrderedByNumber(f, c.forwardOrder, from);
    OrderedByNumber(f, c.forwardOrder, to);
    LiveInRange(f, from);
    if from == to {
      ReachRefl(f.g, from);
      return true;
    }
    var stride := c.reachabilityStride;
    var i, j := c.forwardNumber[from], c.forwardNumber[to];
    FilledDone(f, c.forwardOrder, c.reachabilityBitset, stride, rows, i);
    OwnWord(j, rows);
    RowWord(c.reachabilityBitset, stride, rows, i, j / 32);
    r := Bit(c.reachabilityBitset[i * stride + j / 32], j % 32);
    assert RowOf(f, Row(c.reachabilityBitset, stride, rows, i), from);
  }
}
