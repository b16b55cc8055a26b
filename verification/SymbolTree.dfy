/** The loops over the symbol tree of one context: encoding, decoding and rescaling. */
module SymbolTree {
  import opened Basics
  import opened RangeCoder
  import opened PpmModel
  import opened SymbolPool

  /** A context's own node may change its links and counts, its pool entry the root link; nothing else changes. */
  ghost predicate Kept(a: Symbol, b: Symbol, isContext: bool, isNode: bool)
  {
    && a.value == b.value && a.escapes == b.escapes && a.total == b.total && a.parent == b.parent
    && (!isContext ==> a.symbols == b.symbols)
    && (!isNode ==> a.count == b.count && a.under == b.under && a.left == b.left && a.right == b.right)
  }

  /** Only the context at ci has been touched, apart from the new entry. */
  ghost predicate Touched(p: Pool, p': Pool, ci: nat, counts: Counts, sh: Shape, fresh_: nat)
  {
    |p'| == |p| && forall i :: 0 <= i < |p| && i != fresh_ ==> Kept(p[i], p'[i], i == ci, IsPlace(counts, sh, i))
  }

  lemma TouchedMore(p: Pool, q: Pool, r: Pool, ci: nat, counts: Counts, sh: Shape, f: nat, here: nat)
    requires Touched(p, q, ci, counts, sh, |p|) && |r| == |q|
    requires forall i :: 0 <= i < |q| && i != here && i != f ==> r[i] == q[i]
    requires here < |q| && here != f ==> Kept(q[here], r[here], here == ci, IsPlace(counts, sh, here))
    ensures Touched(p, r, ci, counts, sh, f)
  {
    hide IsPlace;
  }

  /** What a walk to the byte v leaves behind. */
  ghost predicate Arrived(p: Pool, p': Pool, ci: nat, counts: Counts, sh: Shape, v: Byte, delta: Byte,
                          next: nat, next': nat, sym: nat, sh': Shape)
  {
    && Tree(p', ci, With(counts, v, counts[v] + delta), sh')
    && sym == sh'.place[v]
    && (if counts[v] > 0 then next' == next && sh' == sh && Touched(p, p', ci, counts, sh, |p|)
        else
          && next' == next + 1 && sym == next < |p'| && sh'.place == sh.place[v := next]
          && Touched(p, p', ci, counts, sh, next)
          && p'[next].symbols == 0 && p'[next].escapes == 0 && p'[next].total == 0 && p'[next].parent == 0)
  }

  ghost predicate Fits(counts: Counts, v: Byte, delta: Byte)
  {
    0 < delta && counts[v] + delta < 256 && Whole(counts) + delta < 65536
  }

  /** Creates the first symbol of a context. */
  method CreateRoot(pool: array<Symbol>, ci: nat, v: Byte, delta: Byte, next: nat, ghost counts: Counts,
                    ghost sh: Shape)
    returns (ghost sh': Shape)
    requires Tree(pool[..], ci, counts, sh) && Room(pool[..], ci, counts, sh, next) && Fits(counts, v, delta)
    requires pool[ci].symbols == 0
    modifies pool
    ensures counts[v] == 0
    ensures Arrived(old(pool[..]), pool[..], ci, counts, sh, v, delta, next, next + 1, next, sh')
  {
    hide Sum, NodeShaped, Nested, Child, Numbered, IsPlace;
    ghost var p := pool[..];
    ArriveAtEmpty(p, ci, counts, sh, v, delta, next);
    pool[next] := NewSymbol(v, delta);
    ghost var q := pool[..];
    pool[ci] := pool[ci].(symbols := next - ci);
    sh' := Placed(sh, v, next, 0, 256);
    assert pool[..] == p[next := NewSymbol(v, delta)][ci := p[ci].(symbols := next - ci)];
  }

  /** Creates a leaf to the left or right of a node. */
  method CreateLeaf(pool: array<Symbol>, node: nat, v: Byte, delta: Byte, next: nat, left: bool)
    requires node < next < pool.Length <= 65536 && pool[node].under + delta < 65536
    modifies pool
    ensures LeafAdded(old(pool[..]), pool[..], node, next, v, delta, left)
  {
    pool[next] := NewSymbol(v, delta);
    if left {
      pool[node] := pool[node].(under := pool[node].under + delta);
      pool[node] := pool[node].(left := next - node);
    } else {
      pool[node] := pool[node].(right := next - node);
    }
  }

  lemma AtPlace(counts: Counts, sh: Shape, w: nat)
    requires w < 256 && counts[w] > 0
    ensures IsPlace(counts, sh, sh.place[w])
  {
  }

  lemma TouchedSize(p: Pool, p': Pool, ci: nat, counts: Counts, sh: Shape, f: nat)
    requires Touched(p, p', ci, counts, sh, f)
    ensures |p'| == |p|
  {
  }

  lemma LeafArrived(p0: Pool, p: Pool, p': Pool, ci: nat, counts: Counts, sh: Shape, v: Byte, delta: Byte, next: nat,
                    cur: Byte, lo: nat, hi: nat, left: bool)
    requires 0 < delta && Midway(p, ci, counts, sh, v, delta, cur) && Room(p, ci, counts, sh, next)
    requires Touched(p0, p, ci, counts, sh, |p0|)
    requires p[sh.place[cur]].under + delta < 65536
    requires IsGap(sh, cur, v, lo, hi, left) && v != cur
    requires if left then p[sh.place[cur]].left == 0 else p[sh.place[cur]].right == 0
    requires LeafAdded(p, p', sh.place[cur], next, v, delta, left)
    ensures counts[v] == 0
    ensures Arrived(p0, p', ci, counts, sh, v, delta, next, next + 1, next, Placed(sh, v, next, lo, hi))
  {
    hide Tree, Shaped, Nested, NodeShaped, Sum, IsGap, Numbered, Extra, Touched;
    ArriveAtLeaf(p, p', ci, counts, sh, v, delta, next, cur, lo, hi, left);
    AtPlace(counts, sh, cur);
    hide Midway, IsPlace;
    TouchedSize(p0, p, ci, counts, sh, |p0|);
    TouchedMore(p0, p, p', ci, counts, sh, next, sh.place[cur]);
  }

  lemma NodeArrived(p0: Pool, p: Pool, ci: nat, counts: Counts, sh: Shape, v: Byte, delta: Byte, next: nat)
    requires Midway(p, ci, counts, sh, v, delta, v) && Room(p, ci, counts, sh, next)
    requires Touched(p0, p, ci, counts, sh, |p0|)
    requires p[sh.place[v]].under + delta < 65536 && counts[v] + delta < 256 && p[sh.place[v]].count == counts[v]
    ensures counts[v] > 0
    ensures Arrived(p0, Counted(p, sh.place[v], delta), ci, counts, sh, v, delta, next, next, sh.place[v], sh)
  {
    hide Tree, Shaped, Nested, NodeShaped, Sum, Numbered, Extra, Touched;
    ArriveAtNode(p, ci, counts, sh, v, delta);
    AtPlace(counts, sh, v);
    hide Midway, IsPlace;
    TouchedSize(p0, p, ci, counts, sh, |p0|);
    TouchedMore(p0, p, Counted(p, sh.place[v], delta), ci, counts, sh, |p|, sh.place[v]);
  }

  lemma LeftArrived(p0: Pool, p: Pool, ci: nat, counts: Counts, sh: Shape, v: Byte, delta: Byte, cur: Byte)
    requires Midway(p, ci, counts, sh, v, delta, cur) && Touched(p0, p, ci, counts, sh, |p0|)
    requires sh.place[cur] < |p| && p[sh.place[cur]].under + delta < 65536
    ensures Touched(p0, Lifted(p, sh.place[cur], delta), ci, counts, sh, |p0|)
  {
    assert IsPlace(counts, sh, sh.place[cur]);
    hide Shaped, IsPlace;
    TouchedMore(p0, p, Lifted(p, sh.place[cur], delta), ci, counts, sh, |p|, sh.place[cur]);
  }

  /** The counts below cur, and the counts below v seen from a leaf position. */
  lemma SumsOnTheWay(counts: Counts, lo: nat, cur: Byte, hi: nat, v: Byte)
    requires lo <= cur < hi <= 256 && lo <= v < hi
    ensures Sum(counts, 0, lo) + Sum(counts, lo, cur + 1) == Sum(counts, 0, cur + 1)
    ensures Sum(counts, lo, cur + 1) >= counts[cur]
    ensures v == cur ==> Sum(counts, 0, lo) + Sum(counts, lo, cur + 1) - counts[cur] == Sum(counts, 0, v)
    ensures v < cur && NonePresent(counts, lo, cur) ==> Sum(counts, 0, v) == Sum(counts, 0, lo)
    ensures v > cur && NonePresent(counts, cur + 1, hi) ==> Sum(counts, 0, v) == Sum(counts, 0, cur + 1)
  {
    SumSplit(counts, 0, lo, cur + 1);
    SumSplit(counts, lo, cur, cur + 1);
    SumSplit(counts, 0, lo, cur);
    if v < cur && NonePresent(counts, lo, cur) {
      SumSplit(counts, 0, lo, v);
      SumZero(counts, lo, v);
    }
    if v > cur && NonePresent(counts, cur + 1, hi) {
      SumSplit(counts, 0, cur + 1, v);
      SumZero(counts, cur + 1, v);
    }
  }

  lemma GapsAt(p: Pool, ci: nat, counts: Counts, sh: Shape, v: Byte, delta: nat, cur: Byte)
    requires Midway(p, ci, counts, sh, v, delta, cur)
    ensures sh.place[cur] < |p| && p[sh.place[cur]].value == cur && sh.lo[cur] <= cur < sh.hi[cur] <= 256
    ensures sh.lo[cur] <= v < sh.hi[cur] && counts[cur] > 0
    ensures p[sh.place[cur]].left == 0 ==> NonePresent(counts, sh.lo[cur], cur)
    ensures p[sh.place[cur]].right == 0 ==> NonePresent(counts, cur + 1, sh.hi[cur])
  {
    assert NodeShaped(p, counts, sh, cur);
  }

  /**
   Walks to the byte v, adding delta to its count or creating its symbol.  Returns the counts of the smaller
   bytes and of v itself before the change, raised by the minimum.
   */
  method ContextEncode(pool: array<Symbol>, ci: nat, v: Byte, delta: Byte, minimum: nat, next: nat,
                       ghost counts: Counts, ghost sh: Shape)
    returns (sym: nat, under: nat, count: nat, next': nat, ghost sh': Shape)
    requires Tree(pool[..], ci, counts, sh) && Room(pool[..], ci, counts, sh, next) && Fits(counts, v, delta)
    modifies pool
    ensures under == v * minimum + Sum(counts, 0, v) && count == minimum + counts[v]
    ensures Arrived(old(pool[..]), pool[..], ci, counts, sh, v, delta, next, next', sym, sh')
  {
    hide Sum, NodeShaped, Nested, Child, Numbered, IsPlace, Shaped, Midway, Tree, Touched, Arrived, LeafAdded, Kept;
    ghost var p0 := pool[..];
    under := v * minimum;
    count := minimum;
    if pool[ci].symbols == 0 {
      NothingBefore(p0, ci, counts, sh, v);
      sh' := CreateRoot(pool, ci, v, delta, next, counts, sh);
      sym, next' := next, next + 1;
    } else {
      StartAtRoot(p0, ci, counts, sh, v, delta);
      var node := ci + pool[ci].symbols;
      ghost var cur: Byte := pool[node].value;
      assert Sum(counts, 0, 0) == 0 by { SumZero(counts, 0, 0); }
      assert Touched(p0, p0, ci, counts, sh, |p0|) by { TouchedNot(p0, ci, counts, sh); }
      while true
        invariant node < pool.Length && node == sh.place[cur] && count == minimum
        invariant Midway(pool[..], ci, counts, sh, v, delta, cur) && sh.lo[cur] <= cur < sh.hi[cur] <= 256
        invariant Touched(p0, pool[..], ci, counts, sh, |p0|) && Room(pool[..], ci, counts, sh, next)
        invariant under == v * minimum + Sum(counts, 0, sh.lo[cur])
        decreases sh.hi[cur] - sh.lo[cur]
      {
        ghost var p := pool[..];
        UnderBound(p, ci, counts, sh, v, delta, cur);
        GapsAt(p, ci, counts, sh, v, delta, cur);
        SumsOnTheWay(counts, sh.lo[cur], cur, sh.hi[cur], v);
        if v < pool[node].value {
          if pool[node].left != 0 {
            StepLeft(p, ci, counts, sh, v, delta, cur);
            LeftArrived(p0, p, ci, counts, sh, v, delta, cur);
            pool[node] := pool[node].(under := pool[node].under + delta);
            assert pool[..] == Lifted(p, node, delta);
            node := node + pool[node].left;
            cur := pool[node].value;
            continue;
          }
          CreateLeaf(pool, node, v, delta, next, true);
          LeafArrived(p0, p, pool[..], ci, counts, sh, v, delta, next, cur, sh.lo[cur], cur, true);
          sh' := Placed(sh, v, next, sh.lo[cur], cur);
          sym, next' := next, next + 1;
        } else if v > pool[node].value {
          under := under + pool[node].under;
          if pool[node].right != 0 {
            StepRight(p, ci, counts, sh, v, delta, cur);
            node := node + pool[node].right;
            cur := pool[node].value;
            continue;
          }
          CreateLeaf(pool, node, v, delta, next, false);
          LeafArrived(p0, p, pool[..], ci, counts, sh, v, delta, next, cur, cur + 1, sh.hi[cur], false);
          sh' := Placed(sh, v, next, cur + 1, sh.hi[cur]);
          sym, next' := next, next + 1;
        } else {
          count := count + pool[node].count;
          under := under + pool[node].under - pool[node].count;
          NodeArrived(p0, p, ci, counts, sh, v, delta, next);
          pool[node] := pool[node].(under := pool[node].under + delta, count := pool[node].count + delta);
          assert pool[..] == Counted(p, node, delta);
          sym, next', sh' := node, next, sh;
        }
        break;
      }
    }
  }

  lemma TouchedNot(p: Pool, ci: nat, counts: Counts, sh: Shape)
    ensures Touched(p, p, ci, counts, sh, |p|)
  {
    hide IsPlace;
  }

  lemma NothingBefore(p: Pool, ci: nat, counts: Counts, sh: Shape, v: Byte)
    requires Tree(p, ci, counts, sh) && p[ci].symbols == 0
    ensures Sum(counts, 0, v) == 0 && counts[v] == 0
  {
    SumZero(counts, 0, v);
  }

  // ----- decoding

  /** The code value lies in the part of the byte v. */
  ghost predicate Selects(counts: Counts, minimum: nat, code: nat, v: Byte)
  {
    v * minimum + Sum(counts, 0, v) <= code < v * minimum + Sum(counts, 0, v) + counts[v] + minimum
  }

  /** Comparing the code with the boundaries of a node compares the bytes. */
  lemma DecodeCompare(counts: Counts, minimum: nat, code: nat, v: Byte, w: Byte)
    requires minimum <= 1 && Selects(counts, minimum, code, v)
    ensures code >= Sum(counts, 0, w + 1) + (w + 1) * minimum <==> v > w
    ensures code < Sum(counts, 0, w) + w * minimum <==> v < w
  {
    hide Sum;
    assert minimum == 0 || minimum == 1;
    SumStep(counts, v);
    SumStep(counts, w);
    if v > w {
      SumSplit(counts, 0, w + 1, v);
    } else if v < w {
      SumSplit(counts, 0, v + 1, w);
    }
  }

  lemma SumStep(counts: Counts, v: Byte)
    ensures Sum(counts, 0, v + 1) == Sum(counts, 0, v) + counts[v]
  {
  }

  /**
   Walks to the byte selected by the code value, with the same effect as encoding that byte.  A byte without
   a symbol can be selected, and is then created, in the root only.
   */
  method ContextDecode(pool: array<Symbol>, ci: nat, code: nat, delta: Byte, minimum: nat, next: nat,
                       ghost v: Byte, ghost counts: Counts, ghost sh: Shape)
    returns (sym: nat, value: Byte, under: nat, count: nat, next': nat, ghost sh': Shape)
    requires Tree(pool[..], ci, counts, sh) && Room(pool[..], ci, counts, sh, next) && Fits(counts, v, delta)
    requires minimum <= 1 && Selects(counts, minimum, code, v)
    modifies pool
    ensures value == v
    ensures under == v * minimum + Sum(counts, 0, v) && count == minimum + counts[v]
    ensures Arrived(old(pool[..]), pool[..], ci, counts, sh, v, delta, next, next', sym, sh')
  {
    hide Sum, NodeShaped, Nested, Child, Numbered, IsPlace, Shaped, Midway, Tree, Touched, Arrived, LeafAdded, Kept;
    ghost var p0 := pool[..];
    under := 0;
    count := minimum;
    if pool[ci].symbols == 0 {
      NothingBefore(p0, ci, counts, sh, v);
      assert minimum == 1;
      value := code / minimum;
      under := code - code % minimum;
      sh' := CreateRoot(pool, ci, value, delta, next, counts, sh);
      sym, next' := next, next + 1;
    } else {
      StartAtRoot(p0, ci, counts, sh, v, delta);
      var node := ci + pool[ci].symbols;
      ghost var cur: Byte := pool[node].value;
      assert Sum(counts, 0, 0) == 0 by { SumZero(counts, 0, 0); }
      assert Touched(p0, p0, ci, counts, sh, |p0|) by { TouchedNot(p0, ci, counts, sh); }
      while true
        invariant node < pool.Length && node == sh.place[cur] && count == minimum
        invariant Midway(pool[..], ci, counts, sh, v, delta, cur) && sh.lo[cur] <= cur < sh.hi[cur] <= 256
        invariant Touched(p0, pool[..], ci, counts, sh, |p0|) && Room(pool[..], ci, counts, sh, next)
        invariant under == Sum(counts, 0, sh.lo[cur])
        decreases sh.hi[cur] - sh.lo[cur]
      {
        ghost var p := pool[..];
        UnderBound(p, ci, counts, sh, v, delta, cur);
        GapsAt(p, ci, counts, sh, v, delta, cur);
        SumsOnTheWay(counts, sh.lo[cur], cur, sh.hi[cur], v);
        DecodeCompare(counts, minimum, code, v, cur);
        SumStep(counts, cur);
        var after := under + pool[node].under + (pool[node].value + 1) * minimum;
        var before := pool[node].count + minimum;
        assert after - before == Sum(counts, 0, cur) + cur * minimum;
        if code >= after {
          under := under + pool[node].under;
          if pool[node].right != 0 {
            StepRight(p, ci, counts, sh, v, delta, cur);
            node := node + pool[node].right;
            cur := pool[node].value;
            continue;
          }
          SelectsAbsent(counts, minimum, code, v, cur);
          value := pool[node].value + 1 + (code - after) / minimum;
          under := code - (code - after) % minimum;
          CreateLeaf(pool, node, value, delta, next, false);
          LeafArrived(p0, p, pool[..], ci, counts, sh, v, delta, next, cur, cur + 1, sh.hi[cur], false);
          sh' := Placed(sh, v, next, cur + 1, sh.hi[cur]);
          sym, next' := next, next + 1;
        } else if code < after - before {
          if pool[node].left != 0 {
            StepLeft(p, ci, counts, sh, v, delta, cur);
            LeftArrived(p0, p, ci, counts, sh, v, delta, cur);
            pool[node] := pool[node].(under := pool[node].under + delta);
            assert pool[..] == Lifted(p, node, delta);
            node := node + pool[node].left;
            cur := pool[node].value;
            continue;
          }
          SelectsAbsent(counts, minimum, code, v, cur);
          SumsToLeft(counts, sh.lo[cur], cur, v);
          value := pool[node].value - 1 - (after - before - code - 1) / minimum;
          under := code - (after - before - code - 1) % minimum;
          CreateLeaf(pool, node, value, delta, next, true);
          LeafArrived(p0, p, pool[..], ci, counts, sh, v, delta, next, cur, sh.lo[cur], cur, true);
          sh' := Placed(sh, v, next, sh.lo[cur], cur);
          sym, next' := next, next + 1;
        } else {
          value := pool[node].value;
          count := count + pool[node].count;
          under := after - before;
          NodeArrived(p0, p, ci, counts, sh, v, delta, next);
          pool[node] := pool[node].(under := pool[node].under + delta, count := pool[node].count + delta);
          assert pool[..] == Counted(p, node, delta);
          sym, next', sh' := node, next, sh;
        }
        break;
      }
    }
  }

  /** A selected byte that has no node has count zero, so the minimum is one and the code is exact. */
  lemma SelectsAbsent(counts: Counts, minimum: nat, code: nat, v: Byte, cur: Byte)
    requires minimum <= 1 && Selects(counts, minimum, code, v)
    ensures counts[v] == 0 ==> minimum == 1 && code == v + Sum(counts, 0, v)
  {
    hide Sum;
  }

  lemma SumsToLeft(counts: Counts, lo: nat, cur: Byte, v: Byte)
    requires lo <= v < cur && NonePresent(counts, lo, cur)
    ensures Sum(counts, 0, cur) == Sum(counts, 0, v) == Sum(counts, 0, lo) && counts[v] == 0
  {
    SumSplit(counts, 0, lo, v);
    SumSplit(counts, 0, lo, cur);
    SumZero(counts, lo, cur);
    SumZero(counts, lo, v);
  }

  // ----- rescaling

  /** The node of w has its halved count, and the sum that goes with it. */
  ghost predicate HalvedAt(p: Pool, counts: Counts, sh: Shape, w: nat)
    requires w < 256
  {
    sh.place[w] < |p| && sh.lo[w] <= w &&
    p[sh.place[w]].count == HalfUp(counts[w]) &&
    p[sh.place[w]].under == Sum(Halves(counts), sh.lo[w], w + 1)
  }

  ghost predicate SameBut(a: Symbol, b: Symbol)
  {
    b == a.(count := b.count, under := b.under)
  }

  ghost predicate InStretch(counts: Counts, sh: Shape, lo: nat, mid: nat, i: nat)
  {
    exists w :: lo <= w < mid && w < 256 && counts[w] > 0 && sh.place[w] == i
  }

  /** Nodes of bytes from lo up to mid are halved, all other entries are as they were. */
  ghost predicate HalvedTo(p: Pool, p': Pool, counts: Counts, sh: Shape, lo: nat, mid: nat)
  {
    && |p'| == |p|
    && (forall i :: 0 <= i < |p| ==> SameBut(p[i], p'[i]))
    && (forall i :: 0 <= i < |p| && !InStretch(counts, sh, lo, mid, i) ==> p'[i] == p[i])
    && (forall w :: lo <= w < mid && w < 256 && counts[w] > 0 ==> HalvedAt(p', counts, sh, w))
  }

  lemma StretchApart(p: Pool, ci: nat, counts: Counts, sh: Shape, lo: nat, mid: nat, w: Byte)
    requires Shaped(p, ci, counts, sh) && counts[w] > 0 && !(lo <= w < mid)
    ensures !InStretch(counts, sh, lo, mid, sh.place[w])
  {
    hide NodeShaped, Nested, Child;
    forall u | lo <= u < mid && u < 256 && counts[u] > 0 ensures sh.place[u] != sh.place[w] {
      PlacesDiffer(p, ci, counts, sh, u, w);
    }
  }

  lemma StretchGrows(counts: Counts, sh: Shape, lo: nat, mid: nat, lo': nat, mid': nat, i: nat)
    requires lo' <= lo && mid <= mid' && InStretch(counts, sh, lo, mid, i)
    ensures InStretch(counts, sh, lo', mid', i)
  {
  }

  lemma InOwnStretch(counts: Counts, sh: Shape, lo: nat, mid: nat, w: Byte)
    requires lo <= w < mid && counts[w] > 0
    ensures InStretch(counts, sh, lo, mid, sh.place[w])
  {
  }

  /** A node is halved, then its left subtree, and then the node's sum is completed. */
  lemma HalvedJoin(p: Pool, p1: Pool, q: Pool, r: Pool, ci: nat, counts: Counts, sh: Shape, cur: Byte, s: nat)
    requires Shaped(p, ci, counts, sh) && counts[cur] > 0 && sh.lo[cur] <= cur && s == sh.place[cur] < |p|
    requires |p1| == |p| && SameBut(p[s], p1[s]) && p1 == p[s := p1[s]]
    requires HalvedTo(p1, q, counts, sh, sh.lo[cur], cur)
    requires |r| == |q| && SameBut(q[s], r[s]) && r == q[s := r[s]]
    requires HalvedAt(r, counts, sh, cur)
    ensures HalvedTo(p, r, counts, sh, sh.lo[cur], cur + 1)
  {
    hide Sum, NodeShaped, Nested, Child, InStretch, Shaped;
    var lo := sh.lo[cur];
    forall w | lo <= w < cur + 1 && counts[w] > 0 ensures HalvedAt(r, counts, sh, w) {
      if w != cur {
        PlacesDiffer(p, ci, counts, sh, w, cur);
        assert HalvedAt(q, counts, sh, w);
      }
    }
    forall i | 0 <= i < |p| && !InStretch(counts, sh, lo, cur + 1, i) ensures r[i] == p[i] {
      InOwnStretch(counts, sh, lo, cur + 1, cur);
      if InStretch(counts, sh, lo, cur, i) {
        StretchGrows(counts, sh, lo, cur, lo, cur + 1, i);
      }
    }
  }

  /** Two halved stretches next to each other are one. */
  lemma HalvedAppend(p: Pool, q: Pool, r: Pool, ci: nat, counts: Counts, sh: Shape, lo: nat, mid: nat, hi: nat)
    requires Shaped(p, ci, counts, sh) && lo <= mid <= hi <= 256
    requires HalvedTo(p, q, counts, sh, lo, mid) && HalvedTo(q, r, counts, sh, mid, hi)
    ensures HalvedTo(p, r, counts, sh, lo, hi)
  {
    hide Sum, NodeShaped, Nested, Child, InStretch, Shaped;
    forall w | lo <= w < hi && counts[w] > 0 ensures HalvedAt(r, counts, sh, w) {
      if w < mid {
        assert HalvedAt(q, counts, sh, w);
        StretchApart(p, ci, counts, sh, mid, hi, w);
      }
    }
    forall i | 0 <= i < |p| && !InStretch(counts, sh, lo, hi, i) ensures r[i] == p[i] {
      if InStretch(counts, sh, lo, mid, i) {
        StretchGrows(counts, sh, lo, mid, lo, hi, i);
      }
      if InStretch(counts, sh, mid, hi, i) {
        StretchGrows(counts, sh, mid, hi, lo, hi, i);
      }
    }
  }

  lemma HalvedShaped(p: Pool, p': Pool, ci: nat, counts: Counts, sh: Shape, lo: nat, mid: nat)
    requires Shaped(p, ci, counts, sh) && HalvedTo(p, p', counts, sh, lo, mid)
    ensures Shaped(p', ci, counts, sh)
  {
    hide NodeShaped, Nested, Child;
    ShapedFrame(p, p', ci, counts, sh);
  }

  /** Counts in a later stretch are still the old ones. */
  lemma HalvedElsewhere(p: Pool, p': Pool, ci: nat, counts: Counts, sh: Shape, lo: nat, mid: nat, w: Byte)
    requires Shaped(p, ci, counts, sh) && HalvedTo(p, p', counts, sh, lo, mid)
    requires counts[w] > 0 && !(lo <= w < mid)
    ensures sh.place[w] < |p| && p'[sh.place[w]] == p[sh.place[w]]
  {
    hide Nested, Child, InStretch;
    assert NodeShaped(p, counts, sh, w);
    StretchApart(p, ci, counts, sh, lo, mid, w);
  }

  lemma NothingHalved(p: Pool, counts: Counts, sh: Shape, lo: nat, mid: nat)
    requires forall w :: lo <= w < mid && w < 256 ==> counts[w] == 0
    ensures HalvedTo(p, p, counts, sh, lo, mid)
  {
  }

  lemma HalvesSumFits(counts: Counts, lo: nat, hi: nat)
    requires lo <= hi <= 256 && Whole(counts) < 65536
    ensures Sum(Halves(counts), lo, hi) < 65536
  {
    SumHalves(counts, lo, hi);
    SumPart(counts, lo, hi);
  }

  lemma LinksAt(p: Pool, ci: nat, counts: Counts, sh: Shape, cur: Byte)
    requires Shaped(p, ci, counts, sh) && counts[cur] > 0
    ensures NodeLinks(p, counts, sh, cur)
  {
    hide Nested, Child;
    assert NodeShaped(p, counts, sh, cur);
  }

  ghost predicate NodeLinks(p: Pool, counts: Counts, sh: Shape, cur: Byte)
  {
    sh.place[cur] < |p| && sh.lo[cur] <= cur < sh.hi[cur] <= 256 &&
    var node := p[sh.place[cur]];
    && node.value == cur
    && (node.left == 0 ==> NonePresent(counts, sh.lo[cur], cur))
    && (node.right == 0 ==> NonePresent(counts, cur + 1, sh.hi[cur]))
    && (node.left != 0 ==> Child(p, counts, sh, sh.place[cur] + node.left, sh.lo[cur], cur))
    && (node.right != 0 ==> Child(p, counts, sh, sh.place[cur] + node.right, cur + 1, sh.hi[cur]))
  }

  lemma ChildFacts(p: Pool, counts: Counts, sh: Shape, i: nat, lo: nat, hi: nat)
    requires Child(p, counts, sh, i, lo, hi)
    ensures i < |p| &&
      var u := p[i].value;
      lo <= u < hi && counts[u] > 0 && sh.place[u] == i && sh.lo[u] == lo && sh.hi[u] == hi
  {
  }

  /** The nodes of the bytes from lo up to hi have the given counts. */
  ghost predicate CountsIn(p: Pool, counts: Counts, sh: Shape, lo: nat, hi: nat)
  {
    forall w :: lo <= w < hi && w < 256 && counts[w] > 0 ==> sh.place[w] < |p| && p[sh.place[w]].count == counts[w]
  }

  /** Halves all counts of a subtree and returns their new sum. */
  method SymbolRescale(pool: array<Symbol>, start: nat, ghost w0: Byte, ghost ci: nat, ghost counts: Counts,
                       ghost sh: Shape)
    returns (total: nat)
    requires Shaped(pool[..], ci, counts, sh) && counts[w0] > 0 && start == sh.place[w0] && start < pool.Length
    requires sh.lo[w0] <= w0 < sh.hi[w0] <= 256 && Whole(counts) < 65536
    requires CountsIn(pool[..], counts, sh, sh.lo[w0], sh.hi[w0])
    modifies pool
    ensures HalvedTo(old(pool[..]), pool[..], counts, sh, sh.lo[w0], sh.hi[w0])
    ensures total == Sum(Halves(counts), sh.lo[w0], sh.hi[w0])
    decreases sh.hi[w0] - sh.lo[w0]
  {
    hide Sum, Shaped, HalvedTo, CountsIn, Child, NodeShaped, Nested, Halves;
    ghost var p0 := pool[..];
    total := 0;
    var symbol := start;
    ghost var cur: Byte := w0;
    ghost var lo, hi := sh.lo[w0], sh.hi[w0];
    NothingYet(p0, counts, sh, lo);
    while true
      invariant symbol < pool.Length && symbol == sh.place[cur] && counts[cur] > 0
      invariant lo <= sh.lo[cur] <= cur < sh.hi[cur] == hi
      invariant HalvedTo(p0, pool[..], counts, sh, lo, sh.lo[cur])
      invariant total == Sum(Halves(counts), lo, sh.lo[cur])
      decreases hi - sh.lo[cur]
    {
      ghost var p := pool[..];
      HalvedShaped(p0, p, ci, counts, sh, lo, sh.lo[cur]);
      RestCounts(p0, p, ci, counts, sh, lo, sh.lo[cur], hi);
      var sub := RescaleNode(pool, symbol, cur, ci, counts, sh);
      total := total + sub;
      HalvedAppend(p0, p, pool[..], ci, counts, sh, lo, sh.lo[cur], cur + 1);
      SumSplit(Halves(counts), lo, sh.lo[cur], cur + 1);
      HalvedShaped(p, pool[..], ci, counts, sh, sh.lo[cur], cur + 1);
      LinksAt(pool[..], ci, counts, sh, cur);
      if pool[symbol].right == 0 {
        HalvedToEnd(p0, pool[..], ci, counts, sh, lo, cur + 1, hi);
        break;
      }
      ChildFacts(pool[..], counts, sh, symbol + pool[symbol].right, cur + 1, hi);
      symbol := symbol + pool[symbol].right;
      cur := pool[symbol].value;
    }
  }

  lemma NothingYet(p: Pool, counts: Counts, sh: Shape, lo: nat)
    requires lo <= 256
    ensures HalvedTo(p, p, counts, sh, lo, lo) && Sum(Halves(counts), lo, lo) == 0
  {
  }

  lemma RestCounts(p0: Pool, p: Pool, ci: nat, counts: Counts, sh: Shape, lo: nat, mid: nat, hi: nat)
    requires Shaped(p0, ci, counts, sh) && HalvedTo(p0, p, counts, sh, lo, mid) && lo <= mid <= hi
    requires CountsIn(p0, counts, sh, lo, hi)
    ensures CountsIn(p, counts, sh, mid, hi)
  {
    hide Shaped, HalvedTo, Sum;
    HalvedSize(p0, p, counts, sh, lo, mid);
    forall w | mid <= w < hi && w < 256 && counts[w] > 0
      ensures sh.place[w] < |p| && p[sh.place[w]].count == counts[w]
    {
      HalvedElsewhere(p0, p, ci, counts, sh, lo, mid, w);
      CountAt(p0, counts, sh, lo, hi, w);
    }
  }

  lemma HalvedSize(p0: Pool, p: Pool, counts: Counts, sh: Shape, lo: nat, mid: nat)
    requires HalvedTo(p0, p, counts, sh, lo, mid)
    ensures |p| == |p0|
  {
  }

  lemma HalvedToEnd(p0: Pool, p: Pool, ci: nat, counts: Counts, sh: Shape, lo: nat, mid: nat, hi: nat)
    requires Shaped(p0, ci, counts, sh) && lo <= mid <= hi <= 256
    requires HalvedTo(p0, p, counts, sh, lo, mid) && NonePresent(counts, mid, hi)
    ensures HalvedTo(p0, p, counts, sh, lo, hi)
    ensures Sum(Halves(counts), lo, mid) == Sum(Halves(counts), lo, hi)
  {
    hide Shaped, HalvedTo, Sum;
    NothingHalved(p, counts, sh, mid, hi);
    HalvedAppend(p0, p, p, ci, counts, sh, lo, mid, hi);
    SumSplit(Halves(counts), lo, mid, hi);
    SumZero(Halves(counts), mid, hi);
  }

  /** Halves one node and its left subtree. */
  method RescaleNode(pool: array<Symbol>, symbol: nat, ghost cur: Byte, ghost ci: nat, ghost counts: Counts,
                     ghost sh: Shape)
    returns (sum: nat)
    requires Shaped(pool[..], ci, counts, sh) && counts[cur] > 0 && symbol == sh.place[cur] && symbol < pool.Length
    requires sh.lo[cur] <= cur < sh.hi[cur] <= 256 && Whole(counts) < 65536
    requires CountsIn(pool[..], counts, sh, sh.lo[cur], sh.hi[cur])
    modifies pool
    ensures HalvedTo(old(pool[..]), pool[..], counts, sh, sh.lo[cur], cur + 1)
    ensures sum == Sum(Halves(counts), sh.lo[cur], cur + 1)
    ensures pool[symbol].right == old(pool[symbol].right)
    decreases sh.hi[cur] - sh.lo[cur], 0
  {
    hide Sum, Shaped, HalvedTo, Child, NodeShaped, Nested, Halves, CountsIn;
    ghost var p := pool[..];
    ghost var lo := sh.lo[cur];
    LinksAt(p, ci, counts, sh, cur);
    CountAt(p, counts, sh, lo, sh.hi[cur], cur);
    HalvesSums(counts, lo, cur);
    pool[symbol] := pool[symbol].(count := HalfUp(pool[symbol].count));
    pool[symbol] := pool[symbol].(under := pool[symbol].count);
    ghost var p1 := pool[..];
    assert p1 == p[symbol := p1[symbol]];
    NodeChanged(p, p1, ci, counts, sh, cur, symbol, sh.hi[cur]);
    ghost var q := p1;
    if pool[symbol].left != 0 {
      ChildFacts(p1, counts, sh, symbol + p1[symbol].left, lo, cur);
      ghost var left := p1[symbol + p1[symbol].left].value;
      var below := SymbolRescale(pool, symbol + pool[symbol].left, left, ci, counts, sh);
      q := pool[..];
      HalvedElsewhere(p1, q, ci, counts, sh, lo, cur, cur);
      pool[symbol] := pool[symbol].(under := pool[symbol].under + below);
    } else {
      NothingHalved(p1, counts, sh, lo, cur);
      NothingLeft(counts, lo, cur);
    }
    ghost var r := pool[..];
    assert r == q[symbol := r[symbol]];
    HalvedJoin(p, p1, q, r, ci, counts, sh, cur, symbol);
    sum := pool[symbol].under;
  }

  lemma CountAt(p: Pool, counts: Counts, sh: Shape, lo: nat, hi: nat, w: Byte)
    requires CountsIn(p, counts, sh, lo, hi) && lo <= w < hi && counts[w] > 0
    ensures sh.place[w] < |p| && p[sh.place[w]].count == counts[w]
  {
  }

  lemma HalvesSums(counts: Counts, lo: nat, cur: Byte)
    requires lo <= cur && Whole(counts) < 65536
    ensures Sum(Halves(counts), lo, cur + 1) == Sum(Halves(counts), lo, cur) + HalfUp(counts[cur]) < 65536
  {
    HalvesSumFits(counts, lo, cur + 1);
  }

  lemma NothingLeft(counts: Counts, lo: nat, cur: Byte)
    requires lo <= cur && NonePresent(counts, lo, cur)
    ensures Sum(Halves(counts), lo, cur) == 0
  {
    hide Sum;
    SumZero(Halves(counts), lo, cur);
  }

  lemma NodeChanged(p: Pool, p1: Pool, ci: nat, counts: Counts, sh: Shape, cur: Byte, s: nat, hi: nat)
    requires Shaped(p, ci, counts, sh) && counts[cur] > 0 && s == sh.place[cur] < |p|
    requires |p1| == |p| && SameBut(p[s], p1[s]) && p1 == p[s := p1[s]]
    requires sh.lo[cur] <= cur < hi && CountsIn(p, counts, sh, sh.lo[cur], hi)
    ensures Shaped(p1, ci, counts, sh) && CountsIn(p1, counts, sh, sh.lo[cur], cur)
    ensures p1[s].left != 0 ==> Child(p1, counts, sh, s + p1[s].left, sh.lo[cur], cur)
  {
    hide Nested, Child, NodeShaped;
    ShapedFrame(p, p1, ci, counts, sh);
    forall w | sh.lo[cur] <= w < cur && counts[w] > 0 ensures sh.place[w] < |p1| && p1[sh.place[w]].count == counts[w] {
      PlacesDiffer(p, ci, counts, sh, w, cur);
    }
    LinksAt(p1, ci, counts, sh, cur);
  }
}
