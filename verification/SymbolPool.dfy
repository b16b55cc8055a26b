/**
 The symbols of one context, kept as a binary tree inside a shared pool.  Links are offsets to later pool
 entries, and each node adds up the counts of itself and its left subtree.
 */
module SymbolPool {
  import opened Basics
  import opened RangeCoder
  import opened PpmModel

  type Word = x: nat | x < 65536

  datatype Symbol = Symbol(value: Byte, count: Byte, under: Word, left: Word, right: Word,
                           symbols: Word, escapes: Word, total: Word, parent: Word)

  type Pool = seq<Symbol>

  function NewSymbol(value: Byte, count: Byte): Symbol
  {
    Symbol(value, count, count, 0, 0, 0, 0, 0, 0)
  }

  /** Where the node of each byte is, and the interval of bytes its subtree is responsible for. */
  datatype Shape = Shape(place: Places, lo: Places, hi: Places)

  type Places = s: seq<nat> | |s| == 256 witness seq(256, _ => 0)

  ghost predicate NonePresent(counts: Counts, lo: nat, hi: nat)
    requires hi <= 256
  {
    forall u :: lo <= u < hi ==> counts[u] == 0
  }

  ghost predicate Within(sh: Shape, u: nat, w: nat)
    requires u < 256
  {
    sh.lo[u] <= w < sh.hi[u]
  }

  /** Two nodes are nested or have nothing to do with each other. */
  ghost predicate Nested(sh: Shape, u: nat, w: nat)
    requires u < 256 && w < 256
  {
    && (Within(sh, u, w) && w < u ==> sh.lo[u] <= sh.lo[w] && sh.hi[w] <= u)
    && (Within(sh, u, w) && w > u ==> u + 1 <= sh.lo[w] && sh.hi[w] <= sh.hi[u])
    && (!Within(sh, u, w) && !Within(sh, w, u) ==> sh.hi[u] <= sh.lo[w] || sh.hi[w] <= sh.lo[u])
  }

  /** The pool entry i is the node of the subtree for the bytes from lo up to hi. */
  ghost predicate Child(p: Pool, counts: Counts, sh: Shape, i: nat, lo: nat, hi: nat)
  {
    i < |p| &&
    var u := p[i].value;
    lo <= u < hi && counts[u] > 0 && sh.place[u] == i && sh.lo[u] == lo && sh.hi[u] == hi
  }

  ghost predicate NodeShaped(p: Pool, counts: Counts, sh: Shape, w: nat)
    requires w < 256
  {
    sh.lo[w] <= w < sh.hi[w] <= 256 && sh.place[w] < |p| &&
    var node := p[sh.place[w]];
    && node.value == w
    && (if node.left == 0 then NonePresent(counts, sh.lo[w], w)
        else Child(p, counts, sh, sh.place[w] + node.left, sh.lo[w], w))
    && (if node.right == 0 then NonePresent(counts, w + 1, sh.hi[w])
        else Child(p, counts, sh, sh.place[w] + node.right, w + 1, sh.hi[w]))
  }

  /** The links of the context at pool entry ci form a search tree of exactly the bytes counted. */
  ghost predicate Shaped(p: Pool, ci: nat, counts: Counts, sh: Shape)
  {
    && ci < |p|
    && (if p[ci].symbols == 0 then NonePresent(counts, 0, |counts|)
        else Child(p, counts, sh, ci + p[ci].symbols, 0, |counts|))
    && (forall w :: 0 <= w < 256 && counts[w] > 0 ==> NodeShaped(p, counts, sh, w))
    && (forall u, w :: 0 <= u < 256 && 0 <= w < 256 && counts[u] > 0 && counts[w] > 0 && u != w ==> Nested(sh, u, w))
  }

  ghost predicate Numbered(p: Pool, counts: Counts, sh: Shape, w: nat, extra: nat)
    requires w < 256
  {
    sh.place[w] < |p| &&
    p[sh.place[w]].count == counts[w] &&
    p[sh.place[w]].under == Sum(counts, sh.lo[w], w + 1) + extra
  }

  /** The context's tree holds the given counts. */
  ghost predicate Tree(p: Pool, ci: nat, counts: Counts, sh: Shape)
  {
    Shaped(p, ci, counts, sh) && forall w :: 0 <= w < 256 && counts[w] > 0 ==> Numbered(p, counts, sh, w, 0)
  }

  ghost predicate IsPlace(counts: Counts, sh: Shape, i: nat)
  {
    exists w :: 0 <= w < 256 && counts[w] > 0 && sh.place[w] == i
  }

  lemma SumPart(counts: Counts, lo: nat, hi: nat)
    requires lo <= hi <= 256
    ensures Sum(counts, lo, hi) <= Whole(counts)
    ensures forall w :: lo <= w < hi ==> counts[w] <= Sum(counts, lo, hi)
  {
    SumSplit(counts, 0, lo, |counts|);
    SumSplit(counts, lo, hi, |counts|);
    forall w | lo <= w < hi ensures counts[w] <= Sum(counts, lo, hi) {
      SumSplit(counts, lo, w, hi);
      SumSplit(counts, w, w + 1, hi);
    }
  }

  // ----- walking down

  /** How much has been added to the node w on the way down to cur. */
  ghost function Extra(sh: Shape, v: nat, delta: nat, cur: nat, w: nat): nat
    requires cur < 256 && w < 256
  {
    if sh.lo[w] <= v < w && !Within(sh, cur, w) then delta else 0
  }

  /** On the way down to v, with all left turns above cur already counted. */
  ghost predicate Midway(p: Pool, ci: nat, counts: Counts, sh: Shape, v: nat, delta: nat, cur: nat)
    requires cur < 256
  {
    && Shaped(p, ci, counts, sh) && counts[cur] > 0 && Within(sh, cur, v)
    && (forall w :: 0 <= w < 256 && counts[w] > 0 ==> Numbered(p, counts, sh, w, Extra(sh, v, delta, cur, w)))
  }

  ghost predicate SameLinks(a: Symbol, b: Symbol)
  {
    a.value == b.value && a.left == b.left && a.right == b.right
  }

  /** The shape depends on the links of the context's own nodes only. */
  lemma ShapedFrame(p: Pool, p': Pool, ci: nat, counts: Counts, sh: Shape)
    requires Shaped(p, ci, counts, sh) && |p'| == |p| && p'[ci].symbols == p[ci].symbols
    requires forall w :: 0 <= w < 256 && counts[w] > 0 && sh.place[w] < |p| ==>
      SameLinks(p[sh.place[w]], p'[sh.place[w]])
    ensures Shaped(p', ci, counts, sh)
  {
    hide NodeShaped, Nested, Child, SameLinks;
    forall w | 0 <= w < 256 && counts[w] > 0 ensures NodeShaped(p', counts, sh, w) {
      NodeFrame(p, p', counts, sh, w);
    }
    if p[ci].symbols != 0 {
      ChildFrame(p, p', counts, sh, ci + p[ci].symbols, 0, |counts|);
    }
  }

  lemma NodeFrame(p: Pool, p': Pool, counts: Counts, sh: Shape, w: nat)
    requires w < 256 && counts[w] > 0 && NodeShaped(p, counts, sh, w) && |p'| == |p|
    requires forall u :: 0 <= u < 256 && counts[u] > 0 && sh.place[u] < |p| ==>
      SameLinks(p[sh.place[u]], p'[sh.place[u]])
    ensures NodeShaped(p', counts, sh, w)
  {
    hide Child, NonePresent;
    var node := p[sh.place[w]];
    if node.left != 0 {
      ChildFrame(p, p', counts, sh, sh.place[w] + node.left, sh.lo[w], w);
    }
    if node.right != 0 {
      ChildFrame(p, p', counts, sh, sh.place[w] + node.right, w + 1, sh.hi[w]);
    }
  }

  lemma ChildFrame(p: Pool, p': Pool, counts: Counts, sh: Shape, i: nat, lo: nat, hi: nat)
    requires Child(p, counts, sh, i, lo, hi) && |p'| == |p|
    requires forall w :: 0 <= w < 256 && counts[w] > 0 && sh.place[w] < |p| ==>
      SameLinks(p[sh.place[w]], p'[sh.place[w]])
    ensures Child(p', counts, sh, i, lo, hi)
  {
    var u := p[i].value;
    assert counts[u] > 0 && sh.place[u] == i;
  }

  /** Nodes of different bytes are different pool entries. */
  lemma PlacesDiffer(p: Pool, ci: nat, counts: Counts, sh: Shape, u: nat, w: nat)
    requires Shaped(p, ci, counts, sh) && u < 256 && w < 256 && u != w && counts[u] > 0 && counts[w] > 0
    ensures sh.place[u] != sh.place[w]
  {
    assert NodeShaped(p, counts, sh, u) && NodeShaped(p, counts, sh, w);
  }

  lemma StartAtRoot(p: Pool, ci: nat, counts: Counts, sh: Shape, v: Byte, delta: nat)
    requires Tree(p, ci, counts, sh) && p[ci].symbols != 0
    ensures ci + p[ci].symbols < |p|
    ensures var u := p[ci + p[ci].symbols].value;
      Midway(p, ci, counts, sh, v, delta, u) && sh.place[u] == ci + p[ci].symbols && sh.lo[u] == 0 && sh.hi[u] == 256
  {
    hide Sum, NodeShaped, Nested;
    var u := p[ci + p[ci].symbols].value;
    assert Child(p, counts, sh, ci + p[ci].symbols, 0, |counts|);
    forall w | 0 <= w < 256 && counts[w] > 0 ensures Numbered(p, counts, sh, w, Extra(sh, v, delta, u, w)) {
      assert Numbered(p, counts, sh, w, 0);
    }
  }

  lemma RightChild(p: Pool, counts: Counts, sh: Shape, w: Byte)
    requires NodeShaped(p, counts, sh, w) && p[sh.place[w]].right != 0
    ensures var i := sh.place[w] + p[sh.place[w]].right;
      i < |p| && var u := p[i].value;
      w + 1 <= u < sh.hi[w] && counts[u] > 0 && sh.place[u] == i && sh.lo[u] == w + 1 && sh.hi[u] == sh.hi[w]
    ensures sh.lo[w] <= w
  {
  }

  lemma LeftChild(p: Pool, counts: Counts, sh: Shape, w: Byte)
    requires NodeShaped(p, counts, sh, w) && p[sh.place[w]].left != 0
    ensures var i := sh.place[w] + p[sh.place[w]].left;
      i < |p| && var u := p[i].value;
      sh.lo[w] <= u < w && counts[u] > 0 && sh.place[u] == i && sh.lo[u] == sh.lo[w] && sh.hi[u] == w
    ensures w < sh.hi[w]
  {
  }

  lemma StepRight(p: Pool, ci: nat, counts: Counts, sh: Shape, v: Byte, delta: nat, cur: Byte)
    requires Midway(p, ci, counts, sh, v, delta, cur) && v > cur
    requires p[sh.place[cur]].right != 0
    ensures var i := sh.place[cur] + p[sh.place[cur]].right;
      i < |p| && var u := p[i].value;
      && sh.place[u] == i && sh.lo[u] == cur + 1 <= u < sh.hi[u] == sh.hi[cur]
      && Midway(p, ci, counts, sh, v, delta, u)
  {
    hide Sum, Extra, Nested, NodeShaped;
    RightChild(p, counts, sh, cur);
    var i := sh.place[cur] + p[sh.place[cur]].right;
    var u := p[i].value;
    hide Shaped;
    forall w | 0 <= w < 256 && counts[w] > 0 ensures Numbered(p, counts, sh, w, Extra(sh, v, delta, u, w)) {
      ExtraRight(sh, v, delta, cur, u, w);
    }
  }

  lemma ExtraRight(sh: Shape, v: nat, delta: nat, cur: nat, u: nat, w: nat)
    requires cur < 256 && u < 256 && w < 256
    requires v > cur && sh.lo[u] == cur + 1 && sh.hi[u] == sh.hi[cur] && sh.lo[cur] <= cur
    ensures Extra(sh, v, delta, u, w) == Extra(sh, v, delta, cur, w)
  {
  }

  lemma ExtraLeft(sh: Shape, v: nat, delta: nat, cur: nat, u: nat, w: nat)
    requires cur < 256 && u < 256 && w < 256
    requires sh.lo[cur] <= v < cur < sh.hi[cur] && sh.lo[u] == sh.lo[cur] && sh.hi[u] == cur
    ensures w != cur && Nested(sh, cur, w) ==> Extra(sh, v, delta, u, w) == Extra(sh, v, delta, cur, w)
    ensures Extra(sh, v, delta, u, cur) == delta && Extra(sh, v, delta, cur, cur) == 0
  {
  }

  function Lifted(p: Pool, i: nat, delta: nat): Pool
    requires i < |p| && p[i].under + delta < 65536
  {
    p[i := p[i].(under := p[i].under + delta)]
  }

  lemma UnderBound(p: Pool, ci: nat, counts: Counts, sh: Shape, v: Byte, delta: nat, cur: Byte)
    requires Midway(p, ci, counts, sh, v, delta, cur) && Whole(counts) + delta < 65536
    ensures sh.place[cur] < |p| && p[sh.place[cur]].under + delta < 65536
    ensures p[sh.place[cur]].value == cur && p[sh.place[cur]].count == counts[cur]
    ensures p[sh.place[cur]].under == Sum(counts, sh.lo[cur], cur + 1)
    ensures sh.lo[cur] <= cur < sh.hi[cur] <= 256
  {
    assert NodeShaped(p, counts, sh, cur);
    assert Numbered(p, counts, sh, cur, Extra(sh, v, delta, cur, cur));
    SumPart(counts, sh.lo[cur], cur + 1);
  }

  lemma StepLeft(p: Pool, ci: nat, counts: Counts, sh: Shape, v: Byte, delta: nat, cur: Byte)
    requires Midway(p, ci, counts, sh, v, delta, cur) && v < cur && Whole(counts) + delta < 65536
    requires sh.place[cur] < |p| && p[sh.place[cur]].under + delta < 65536
    requires p[sh.place[cur]].left != 0
    ensures var p' := Lifted(p, sh.place[cur], delta);
      var i := sh.place[cur] + p[sh.place[cur]].left;
      i < |p| && var u := p'[i].value;
      && sh.place[u] == i && sh.lo[u] == sh.lo[cur] <= u < sh.hi[u] == cur
      && Midway(p', ci, counts, sh, v, delta, u)
  {
    hide Sum, Extra, NodeShaped, Nested;
    LeftChild(p, counts, sh, cur);
    var p' := Lifted(p, sh.place[cur], delta);
    var i := sh.place[cur] + p[sh.place[cur]].left;
    var u := p[i].value;
    ShapedFrame(p, p', ci, counts, sh);
    forall w | 0 <= w < 256 && counts[w] > 0 ensures Numbered(p', counts, sh, w, Extra(sh, v, delta, u, w)) {
      ExtraLeft(sh, v, delta, cur, u, w);
      if w != cur {
        PlacesDiffer(p, ci, counts, sh, w, cur);
        assert Nested(sh, cur, w);
      }
    }
  }

  // ----- arriving

  function Counted(p: Pool, i: nat, delta: nat): Pool
    requires i < |p| && p[i].under + delta < 65536 && p[i].count + delta < 256
  {
    p[i := p[i].(under := p[i].under + delta, count := p[i].count + delta)]
  }

  /** The byte has a node: its count and sum grow. */
  lemma ArriveAtNode(p: Pool, ci: nat, counts: Counts, sh: Shape, v: Byte, delta: nat)
    requires Midway(p, ci, counts, sh, v, delta, v)
    requires sh.place[v] < |p| && p[sh.place[v]].under + delta < 65536 && counts[v] + delta < 256
    requires p[sh.place[v]].count == counts[v]
    ensures Tree(Counted(p, sh.place[v], delta), ci, With(counts, v, counts[v] + delta), sh)
  {
    hide Sum, NodeShaped, Nested, NonePresent;
    var p' := Counted(p, sh.place[v], delta);
    var counts' := With(counts, v, counts[v] + delta);
    ShapedFrame(p, p', ci, counts, sh);
    SamePresence(p', ci, counts, counts', sh);
    forall w | 0 <= w < 256 && counts'[w] > 0 ensures Numbered(p', counts', sh, w, 0) {
      InOwnInterval(p, counts, sh, w);
      SumWith(counts, v, counts[v] + delta, sh.lo[w], w + 1);
      if w != v {
        PlacesDiffer(p, ci, counts, sh, w, v);
        ExtraArrived(sh, v, delta, w);
      }
    }
  }

  lemma InOwnInterval(p: Pool, counts: Counts, sh: Shape, w: nat)
    requires w < 256 && NodeShaped(p, counts, sh, w)
    ensures sh.lo[w] <= w < sh.hi[w] <= 256 && sh.place[w] < |p| && p[sh.place[w]].value == w
  {
  }

  lemma ExtraArrived(sh: Shape, v: nat, delta: nat, w: nat)
    requires v < 256 && w < 256 && w != v && Nested(sh, v, w)
    ensures Extra(sh, v, delta, v, w) == if sh.lo[w] <= v < w + 1 then delta else 0
  {
  }

  /** The shape only depends on which bytes are counted at all. */
  lemma SamePresence(p: Pool, ci: nat, counts: Counts, counts': Counts, sh: Shape)
    requires Shaped(p, ci, counts, sh)
    requires forall w :: 0 <= w < 256 ==> (counts[w] > 0 <==> counts'[w] > 0)
    ensures Shaped(p, ci, counts', sh)
  {
    forall w | 0 <= w < 256 && counts'[w] > 0 ensures NodeShaped(p, counts', sh, w) {
      assert NodeShaped(p, counts, sh, w);
    }
  }

  function Placed(sh: Shape, v: Byte, i: nat, lo: nat, hi: nat): Shape
  {
    Shape(sh.place[v := i], sh.lo[v := lo], sh.hi[v := hi])
  }

  /** The byte has no node anywhere: it becomes the root. */
  lemma ArriveAtEmpty(p: Pool, ci: nat, counts: Counts, sh: Shape, v: Byte, delta: nat, next: nat)
    requires Tree(p, ci, counts, sh) && p[ci].symbols == 0
    requires 0 < delta < 256 && ci < next < |p| && next - ci < 65536
    ensures var p' := p[next := NewSymbol(v, delta)][ci := p[ci].(symbols := next - ci)];
      Tree(p', ci, With(counts, v, delta), Placed(sh, v, next, 0, 256))
  {
    hide Sum;
    var p' := p[next := NewSymbol(v, delta)][ci := p[ci].(symbols := next - ci)];
    var counts' := With(counts, v, delta);
    var sh' := Placed(sh, v, next, 0, 256);
    SumWith(counts, v, delta, 0, v + 1);
    SumZero(counts, 0, v + 1);
    assert NodeShaped(p', counts', sh', v);
    assert Child(p', counts', sh', next, 0, |counts'|);
  }

  /** The interval of a new node that goes to the left or to the right of cur. */
  ghost predicate IsGap(sh: Shape, cur: nat, v: nat, lo: nat, hi: nat, left: bool)
    requires cur < 256
  {
    && lo <= v < hi && sh.lo[cur] <= cur < sh.hi[cur] <= 256
    && (if left then lo == sh.lo[cur] && hi == cur else lo == cur + 1 && hi == sh.hi[cur])
  }

  ghost predicate Related(sh: Shape, u: nat, w: nat)
    requires u < 256 && w < 256
  {
    Nested(sh, u, w) && Nested(sh, w, u) && sh.lo[u] <= u < sh.hi[u] && sh.lo[w] <= w < sh.hi[w]
  }

  /** The new interval is nested among the old ones, none of whose nodes lies in it. */
  lemma GapNested(sh: Shape, cur: Byte, v: Byte, i: nat, lo: nat, hi: nat, left: bool, w: Byte)
    requires IsGap(sh, cur, v, lo, hi, left) && v != cur && w != v && !(lo <= w < hi)
    requires sh.lo[w] <= w < sh.hi[w]
    requires w != cur ==> Related(sh, cur, w)
    ensures Nested(Placed(sh, v, i, lo, hi), v, w) && Nested(Placed(sh, v, i, lo, hi), w, v)
  {
  }

  /** Old nodes without a child on one side do not miss the new byte there. */
  lemma GapElsewhere(sh: Shape, cur: Byte, v: Byte, lo: nat, hi: nat, left: bool, w: Byte)
    requires IsGap(sh, cur, v, lo, hi, left) && w != cur && w != v && !(lo <= w < hi)
    requires Related(sh, cur, w)
    ensures !(sh.lo[w] <= cur < w) ==> !(sh.lo[w] <= v < w)
    ensures !(w < cur < sh.hi[w]) ==> !(w < v < sh.hi[w])
  {
  }

  lemma ExtraAtGap(sh: Shape, cur: Byte, v: Byte, lo: nat, hi: nat, left: bool, delta: nat, w: Byte)
    requires IsGap(sh, cur, v, lo, hi, left) && w != cur && w != v && !(lo <= w < hi)
    requires Related(sh, cur, w)
    ensures Extra(sh, v, delta, cur, w) == if sh.lo[w] <= v < w + 1 then delta else 0
  {
  }

  /** The pool with a new leaf on one side of the node of cur. */
  ghost predicate LeafAdded(p: Pool, p': Pool, here: nat, next: nat, v: Byte, delta: Byte, left: bool)
    requires here < next < |p| && next - here < 65536 && p[here].under + delta < 65536
  {
    && |p'| == |p|
    && (forall i :: 0 <= i < |p| && i != next && i != here ==> p'[i] == p[i])
    && p'[next] == NewSymbol(v, delta)
    && p'[here] == (if left then p[here].(left := next - here, under := p[here].under + delta)
                    else p[here].(right := next - here))
  }

  ghost predicate Room(p: Pool, ci: nat, counts: Counts, sh: Shape, next: nat)
  {
    && ci < next < |p| <= 65536
    && (forall w :: 0 <= w < 256 && counts[w] > 0 ==> sh.place[w] < next && sh.place[w] != ci)
  }

  lemma LeafChild(p: Pool, p': Pool, counts: Counts, sh: Shape, v: Byte, delta: Byte, next: nat,
                  here: nat, left: bool, lo: nat, hi: nat, i: nat, a: nat, b: nat)
    requires counts[v] == 0 && here < next < |p| <= 65536 && p[here].under + delta < 65536
    requires LeafAdded(p, p', here, next, v, delta, left)
    requires forall u :: 0 <= u < 256 && counts[u] > 0 ==> sh.place[u] < next
    requires Child(p, counts, sh, i, a, b)
    ensures Child(p', With(counts, v, delta), Placed(sh, v, next, lo, hi), i, a, b)
  {
    var u := p[i].value;
    assert counts[u] > 0 && sh.place[u] == i;
  }

  /** An old node is still well shaped after a leaf has been added below cur. */
  lemma LeafNode(p: Pool, p': Pool, counts: Counts, sh: Shape, v: Byte, delta: Byte, next: nat,
                 cur: Byte, lo: nat, hi: nat, left: bool, w: Byte)
    requires 0 < delta && counts[cur] > 0 && counts[w] > 0 && NodeShaped(p, counts, sh, cur)
    requires NodeShaped(p, counts, sh, w)
    requires next < |p| <= 65536 && forall u :: 0 <= u < 256 && counts[u] > 0 ==> sh.place[u] < next
    requires p[sh.place[cur]].under + delta < 65536
    requires IsGap(sh, cur, v, lo, hi, left) && NonePresent(counts, lo, hi) && v != cur
    requires if left then p[sh.place[cur]].left == 0 else p[sh.place[cur]].right == 0
    requires LeafAdded(p, p', sh.place[cur], next, v, delta, left)
    requires w != cur ==> Related(sh, cur, w) && sh.place[w] != sh.place[cur]
    ensures NodeShaped(p', With(counts, v, delta), Placed(sh, v, next, lo, hi), w)
  {
    assert counts[v] == 0 && v != w;
    if w == cur {
      LeafBelow(p, p', counts, sh, v, delta, next, cur, lo, hi, left);
    } else {
      GapElsewhere(sh, cur, v, lo, hi, left, w);
      LeafAway(p, p', counts, sh, v, delta, next, sh.place[cur], lo, hi, left, cur, w);
    }
    hide *;
  }

  lemma LeafBelow(p: Pool, p': Pool, counts: Counts, sh: Shape, v: Byte, delta: Byte, next: nat,
                  cur: Byte, lo: nat, hi: nat, left: bool)
    requires 0 < delta && counts[cur] > 0 && counts[v] == 0 && NodeShaped(p, counts, sh, cur)
    requires next < |p| <= 65536 && forall u :: 0 <= u < 256 && counts[u] > 0 ==> sh.place[u] < next
    requires p[sh.place[cur]].under + delta < 65536
    requires IsGap(sh, cur, v, lo, hi, left) && v != cur
    requires if left then p[sh.place[cur]].left == 0 else p[sh.place[cur]].right == 0
    requires LeafAdded(p, p', sh.place[cur], next, v, delta, left)
    ensures NodeShaped(p', With(counts, v, delta), Placed(sh, v, next, lo, hi), cur)
  {
    var here := sh.place[cur];
    if p[here].left != 0 {
      LeafChild(p, p', counts, sh, v, delta, next, here, left, lo, hi, here + p[here].left, sh.lo[cur], cur);
    }
    if p[here].right != 0 {
      LeafChild(p, p', counts, sh, v, delta, next, here, left, lo, hi, here + p[here].right, cur + 1, sh.hi[cur]);
    }
    assert Child(p', With(counts, v, delta), Placed(sh, v, next, lo, hi), next, lo, hi);
    hide Child;
  }

  lemma LeafAway(p: Pool, p': Pool, counts: Counts, sh: Shape, v: Byte, delta: Byte, next: nat,
                 here: nat, lo: nat, hi: nat, left: bool, cur: Byte, w: Byte)
    requires counts[v] == 0 && counts[cur] > 0 && counts[w] > 0 && NodeShaped(p, counts, sh, w)
    requires here < next < |p| <= 65536 && forall u :: 0 <= u < 256 && counts[u] > 0 ==> sh.place[u] < next
    requires p[here].under + delta < 65536 && sh.place[w] != here
    requires LeafAdded(p, p', here, next, v, delta, left)
    requires !(sh.lo[w] <= cur < w) ==> !(sh.lo[w] <= v < w)
    requires !(w < cur < sh.hi[w]) ==> !(w < v < sh.hi[w])
    ensures NodeShaped(p', With(counts, v, delta), Placed(sh, v, next, lo, hi), w)
  {
    var at := sh.place[w];
    assert p'[at] == p[at];
    if p[at].left != 0 {
      LeafChild(p, p', counts, sh, v, delta, next, here, left, lo, hi, at + p[at].left, sh.lo[w], w);
    }
    if p[at].right != 0 {
      LeafChild(p, p', counts, sh, v, delta, next, here, left, lo, hi, at + p[at].right, w + 1, sh.hi[w]);
    }
    hide Child;
  }

  /** The byte has no node: it becomes a leaf on one side of cur. */
  lemma ArriveAtLeaf(p: Pool, p': Pool, ci: nat, counts: Counts, sh: Shape, v: Byte, delta: Byte, next: nat,
                     cur: Byte, lo: nat, hi: nat, left: bool)
    requires 0 < delta && Midway(p, ci, counts, sh, v, delta, cur) && Room(p, ci, counts, sh, next)
    requires p[sh.place[cur]].under + delta < 65536
    requires IsGap(sh, cur, v, lo, hi, left) && v != cur
    requires if left then p[sh.place[cur]].left == 0 else p[sh.place[cur]].right == 0
    requires LeafAdded(p, p', sh.place[cur], next, v, delta, left)
    ensures counts[v] == 0
    ensures Tree(p', ci, With(counts, v, delta), Placed(sh, v, next, lo, hi))
  {
    hide Sum, LeafAdded, Nested;
    assert NodeShaped(p, counts, sh, cur);
    assert NonePresent(counts, lo, hi);
    LeafShaped(p, p', ci, counts, sh, v, delta, next, cur, lo, hi, left);
    LeafNumbered(p, p', ci, counts, sh, v, delta, next, cur, lo, hi, left);
  }

  lemma Relate(p: Pool, ci: nat, counts: Counts, sh: Shape, u: Byte, w: Byte)
    requires Shaped(p, ci, counts, sh) && counts[u] > 0 && counts[w] > 0 && u != w
    ensures Related(sh, u, w) && sh.place[u] != sh.place[w]
  {
    hide Nested;
    PlacesDiffer(p, ci, counts, sh, u, w);
    InOwnInterval(p, counts, sh, u);
    InOwnInterval(p, counts, sh, w);
  }

  lemma LeafShaped(p: Pool, p': Pool, ci: nat, counts: Counts, sh: Shape, v: Byte, delta: Byte, next: nat,
                   cur: Byte, lo: nat, hi: nat, left: bool)
    requires 0 < delta && Shaped(p, ci, counts, sh) && counts[cur] > 0 && Room(p, ci, counts, sh, next)
    requires sh.place[cur] < |p| && p[sh.place[cur]].under + delta < 65536
    requires IsGap(sh, cur, v, lo, hi, left) && NonePresent(counts, lo, hi) && v != cur
    requires if left then p[sh.place[cur]].left == 0 else p[sh.place[cur]].right == 0
    requires LeafAdded(p, p', sh.place[cur], next, v, delta, left)
    ensures Shaped(p', ci, With(counts, v, delta), Placed(sh, v, next, lo, hi))
  {
    hide NodeShaped, Nested, LeafAdded;
    var counts', sh' := With(counts, v, delta), Placed(sh, v, next, lo, hi);
    assert counts[v] == 0;
    forall w | 0 <= w < 256 && counts'[w] > 0 ensures NodeShaped(p', counts', sh', w) {
      if w == v {
        LeafItself(p, p', counts, sh, v, delta, next, sh.place[cur], lo, hi, left);
      } else {
        if w != cur {
          Relate(p, ci, counts, sh, cur, w);
        }
        LeafNode(p, p', counts, sh, v, delta, next, cur, lo, hi, left, w);
      }
    }
    forall u, w | 0 <= u < 256 && 0 <= w < 256 && counts'[u] > 0 && counts'[w] > 0 && u != w ensures Nested(sh', u, w) {
      LeafNested(p, ci, counts, sh, v, next, cur, lo, hi, left, u, w);
    }
    LeafAbove(p, p', ci, counts, sh, v, delta, next, cur, lo, hi, left);
  }

  lemma LeafItself(p: Pool, p': Pool, counts: Counts, sh: Shape, v: Byte, delta: Byte, next: nat, here: nat, lo: nat,
                   hi: nat, left: bool)
    requires here < next < |p| <= 65536 && p[here].under + delta < 65536
    requires lo <= v < hi <= 256 && LeafAdded(p, p', here, next, v, delta, left) && NonePresent(counts, lo, hi)
    ensures NodeShaped(p', With(counts, v, delta), Placed(sh, v, next, lo, hi), v)
  {
  }

  lemma LeafNested(p: Pool, ci: nat, counts: Counts, sh: Shape, v: Byte, next: nat,
                   cur: Byte, lo: nat, hi: nat, left: bool, u: Byte, w: Byte)
    requires Shaped(p, ci, counts, sh) && counts[cur] > 0
    requires IsGap(sh, cur, v, lo, hi, left) && NonePresent(counts, lo, hi) && v != cur
    requires u != w && (u == v || counts[u] > 0) && (w == v || counts[w] > 0)
    ensures Nested(Placed(sh, v, next, lo, hi), u, w)
  {
    hide Nested;
    if u == v || w == v {
      var x := if u == v then w else u;
      if x != cur {
        Relate(p, ci, counts, sh, cur, x);
      }
      assert counts[x] > 0;
      InOwnInterval(p, counts, sh, x);
      GapNested(sh, cur, v, next, lo, hi, left, x);
    } else {
      assert Nested(sh, u, w);
      NestedPlaced(sh, v, next, lo, hi, u, w);
    }
  }

  lemma NestedPlaced(sh: Shape, v: Byte, i: nat, lo: nat, hi: nat, u: Byte, w: Byte)
    requires Nested(sh, u, w) && u != v && w != v
    ensures Nested(Placed(sh, v, i, lo, hi), u, w)
  {
  }

  lemma LeafAbove(p: Pool, p': Pool, ci: nat, counts: Counts, sh: Shape, v: Byte, delta: Byte, next: nat,
                  cur: Byte, lo: nat, hi: nat, left: bool)
    requires 0 < delta && Shaped(p, ci, counts, sh) && counts[cur] > 0 && counts[v] == 0
    requires Room(p, ci, counts, sh, next)
    requires sh.place[cur] < |p| && p[sh.place[cur]].under + delta < 65536
    requires LeafAdded(p, p', sh.place[cur], next, v, delta, left)
    ensures |p'| == |p| && p'[ci].symbols != 0
    ensures Child(p', With(counts, v, delta), Placed(sh, v, next, lo, hi), ci + p'[ci].symbols, 0, |counts|)
  {
    hide NodeShaped, Nested;
    assert p[ci].symbols != 0;
    LeafChild(p, p', counts, sh, v, delta, next, sh.place[cur], left, lo, hi, ci + p[ci].symbols, 0, |counts|);
  }

  lemma LeafNumbered(p: Pool, p': Pool, ci: nat, counts: Counts, sh: Shape, v: Byte, delta: Byte, next: nat,
                     cur: Byte, lo: nat, hi: nat, left: bool)
    requires 0 < delta && Midway(p, ci, counts, sh, v, delta, cur) && Room(p, ci, counts, sh, next)
    requires sh.place[cur] < |p| && p[sh.place[cur]].under + delta < 65536
    requires IsGap(sh, cur, v, lo, hi, left) && NonePresent(counts, lo, hi) && v != cur
    requires LeafAdded(p, p', sh.place[cur], next, v, delta, left)
    ensures forall w :: 0 <= w < 256 && With(counts, v, delta)[w] > 0 ==>
      Numbered(p', With(counts, v, delta), Placed(sh, v, next, lo, hi), w, 0)
  {
    hide Sum, NodeShaped, Nested, Extra;
    assert counts[v] == 0;
    var counts', sh' := With(counts, v, delta), Placed(sh, v, next, lo, hi);
    forall w | 0 <= w < 256 && counts'[w] > 0 ensures Numbered(p', counts', sh', w, 0) {
      if w == v {
        SumWith(counts, v, delta, lo, v + 1);
        SumZero(counts, lo, v + 1);
      } else {
        InOwnInterval(p, counts, sh, w);
        SumWith(counts, v, delta, sh.lo[w], w + 1);
        assert Numbered(p, counts, sh, w, Extra(sh, v, delta, cur, w));
        if w == cur {
          ExtraHere(sh, v, delta, cur);
        } else {
          Relate(p, ci, counts, sh, cur, w);
          ExtraAtGap(sh, cur, v, lo, hi, left, delta, w);
        }
      }
    }
  }

  lemma ExtraHere(sh: Shape, v: nat, delta: nat, cur: nat)
    requires cur < 256 && Within(sh, cur, cur)
    ensures Extra(sh, v, delta, cur, cur) == 0
  {
  }
}
