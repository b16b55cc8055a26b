/** How the shared symbol pool represents the whole context model. */
module PpmPool {
  import opened Basics
  import opened RangeCoder
  import opened PpmModel
  import opened SymbolPool
  import opened SymbolTree

  // ----- one context with its totals

  ghost predicate ContextAt(p: Pool, ci: nat, x: Context, sh: Shape)
  {
    Tree(p, ci, x.counts, sh) && ci < |p| && p[ci].escapes == x.escapes && p[ci].total == x.total
  }

  /** The context at ci may change its totals and links, its nodes their counts and links; nothing else changes. */
  ghost predicate Moved(a: Symbol, b: Symbol, isContext: bool, isNode: bool)
  {
    && a.value == b.value && a.parent == b.parent
    && (!isContext ==> a.symbols == b.symbols && a.escapes == b.escapes && a.total == b.total)
    && (!isNode ==> a.count == b.count && a.under == b.under && a.left == b.left && a.right == b.right)
  }

  ghost predicate OnlyMoved(p: Pool, p': Pool, ci: nat, counts: Counts, sh: Shape, fresh_: nat)
  {
    |p'| == |p| && forall i :: 0 <= i < |p| && i != fresh_ ==> Moved(p[i], p'[i], i == ci, IsPlace(counts, sh, i))
  }

  /** A tree depends on its nodes and on the root link of its context only. */
  lemma TreeFrame(p: Pool, p': Pool, ci: nat, counts: Counts, sh: Shape)
    requires Tree(p, ci, counts, sh) && |p'| == |p| && p'[ci].symbols == p[ci].symbols
    requires forall w :: 0 <= w < 256 && counts[w] > 0 && sh.place[w] < |p| ==>
      var a, b := p[sh.place[w]], p'[sh.place[w]]; SameLinks(a, b) && a.count == b.count && a.under == b.under
    ensures Tree(p', ci, counts, sh)
  {
    hide Shaped, Sum;
    forall w | 0 <= w < 256 && counts[w] > 0 && sh.place[w] < |p| ensures SameLinks(p[sh.place[w]], p'[sh.place[w]]) {
      var a, b := p[sh.place[w]], p'[sh.place[w]];
    }
    ShapedFrame(p, p', ci, counts, sh);
    forall w | 0 <= w < 256 && counts[w] > 0 ensures Numbered(p', counts, sh, w, 0) {
      assert Numbered(p, counts, sh, w, 0);
    }
  }

  lemma HalvesPresent(counts: Counts)
    ensures forall w :: 0 <= w < 256 ==> (counts[w] > 0 <==> Halves(counts)[w] > 0)
  {
  }

  /** A completely halved shape is the tree of the halved counts. */
  lemma HalvedTree(p: Pool, p': Pool, ci: nat, counts: Counts, sh: Shape)
    requires Shaped(p, ci, counts, sh) && HalvedTo(p, p', counts, sh, 0, |counts|)
    ensures Tree(p', ci, Halves(counts), sh)
  {
    HalvedShaped(p, p', ci, counts, sh, 0, |counts|);
    HalvesPresent(counts);
    hide Sum, Shaped;
    SamePresence(p', ci, counts, Halves(counts), sh);
    forall w | 0 <= w < 256 && Halves(counts)[w] > 0 ensures Numbered(p', Halves(counts), sh, w, 0) {
      assert HalvedAt(p', counts, sh, w);
    }
  }

  /** Halves every count of a context and recomputes its total. */
  method ContextRescale(pool: array<Symbol>, ci: nat, minimum: nat, ghost x: Context, ghost sh: Shape)
    requires ContextAt(pool[..], ci, x, sh) && ci < pool.Length && !IsPlace(x.counts, sh, ci) && minimum <= 1
    requires x.total == x.escapes + 256 * minimum + Whole(x.counts) <= TOTAL_MAX + 7
    requires AllAtMost(x.counts, 255)
    modifies pool
    ensures ContextAt(pool[..], ci, Rescaled(x, minimum), sh)
    ensures OnlyMoved(old(pool[..]), pool[..], ci, x.counts, sh, pool.Length)
  {
    hide Sum, Shaped, IsPlace, HalvedTo, Halves;
    ghost var p := pool[..];
    RescaledOk(x, minimum);
    var sum := 0;
    if pool[ci].symbols != 0 {
      RootChild(p, ci, x.counts, sh);
      ghost var u := p[ci + p[ci].symbols].value;
      sum := SymbolRescale(pool, ci + pool[ci].symbols, u, ci, x.counts, sh);
    } else {
      EmptyHalved(p, ci, x.counts, sh);
    }
    ghost var q := pool[..];
    assert sum == Whole(Halves(x.counts));
    HalvedTree(p, q, ci, x.counts, sh);
    HalvedMoved(p, q, ci, x.counts, sh);
    var e := HalfUp(pool[ci].escapes);
    pool[ci] := pool[ci].(escapes := e, total := sum + e + 256 * minimum);
    ghost var r := pool[..];
    assert r == q[ci := r[ci]];
    TotalsOnly(q, r, ci, Halves(x.counts), sh);
    MovedOn(p, q, r, ci, x.counts, sh, p[0..]);
  }

  lemma RootChild(p: Pool, ci: nat, counts: Counts, sh: Shape)
    requires Tree(p, ci, counts, sh) && p[ci].symbols != 0
    ensures ci + p[ci].symbols < |p|
    ensures var u := p[ci + p[ci].symbols].value;
      counts[u] > 0 && sh.place[u] == ci + p[ci].symbols && sh.lo[u] == 0 && sh.hi[u] == 256 == |counts|
      && CountsIn(p, counts, sh, 0, 256)
  {
    hide Sum, NodeShaped, Nested;
    assert Child(p, counts, sh, ci + p[ci].symbols, 0, |counts|);
  }

  lemma EmptyHalved(p: Pool, ci: nat, counts: Counts, sh: Shape)
    requires Tree(p, ci, counts, sh) && p[ci].symbols == 0
    ensures HalvedTo(p, p, counts, sh, 0, |counts|) && Whole(Halves(counts)) == 0
  {
    hide Sum;
    assert NonePresent(counts, 0, |counts|);
    NothingHalved(p, counts, sh, 0, |counts|);
    SumZero(Halves(counts), 0, |counts|);
  }

  lemma HalvedMoved(p: Pool, q: Pool, ci: nat, counts: Counts, sh: Shape)
    requires HalvedTo(p, q, counts, sh, 0, |counts|)
    ensures OnlyMoved(p, q, ci, counts, sh, |p|)
    ensures ci < |p| ==> q[ci].escapes == p[ci].escapes && q[ci].total == p[ci].total
  {
    hide IsPlace, InStretch;
    forall i | 0 <= i < |p| ensures Moved(p[i], q[i], i == ci, IsPlace(counts, sh, i)) {
      if InStretch(counts, sh, 0, |counts|, i) {
        StretchIsPlace(counts, sh, i);
      }
    }
  }

  lemma StretchIsPlace(counts: Counts, sh: Shape, i: nat)
    requires InStretch(counts, sh, 0, |counts|, i)
    ensures IsPlace(counts, sh, i)
  {
  }

  /** The totals of a context's own entry are not part of its tree. */
  lemma TotalsOnly(p: Pool, p': Pool, ci: nat, counts: Counts, sh: Shape)
    requires Tree(p, ci, counts, sh) && |p'| == |p| && p' == p[ci := p'[ci]]
    requires p'[ci] == p[ci].(escapes := p'[ci].escapes, total := p'[ci].total)
    ensures Tree(p', ci, counts, sh)
  {
    hide Shaped, Sum;
    InPool(p, ci, counts, sh);
    TreeFrame(p, p', ci, counts, sh);
  }

  lemma InPool(p: Pool, ci: nat, counts: Counts, sh: Shape)
    requires Tree(p, ci, counts, sh)
    ensures ci < |p|
  {
  }

  lemma MovedOn(p: Pool, q: Pool, r: Pool, ci: nat, counts: Counts, sh: Shape, same: Pool)
    requires same == p && OnlyMoved(p, q, ci, counts, sh, |p|) && |r| == |q| && ci < |q| && r == q[ci := r[ci]]
    requires r[ci] == q[ci].(escapes := r[ci].escapes, total := r[ci].total)
    ensures OnlyMoved(p, r, ci, counts, sh, |p|)
  {
    hide IsPlace;
  }

  // ----- completing a visit

  /** Brings the totals of a context below the root up to date. */
  method FinishSub(pool: array<Symbol>, ci: nat, v: Byte, count: nat, ghost x: Context, ghost sh: Shape)
    requires ci < pool.Length && SubOk(x) && count == x.counts[v]
    requires Tree(pool[..], ci, SubBumped(x, v).counts, sh) && pool[ci].escapes == x.escapes
    requires pool[ci].total == x.total
    requires !IsPlace(SubBumped(x, v).counts, sh, ci)
    modifies pool
    ensures ContextAt(pool[..], ci, SubUpdated(x, v), sh)
    ensures OnlyMoved(old(pool[..]), pool[..], ci, SubBumped(x, v).counts, sh, pool.Length)
  {
    hide Sum, Shaped, IsPlace, Tree;
    ghost var p := pool[..];
    SubBumpedOk(x, v);
    SubUpdatedOk(x, v);
    if count == 0 {
      pool[ci] := pool[ci].(escapes := pool[ci].escapes + SUBCONTEXT_ESCAPE_DELTA,
        total := pool[ci].total + SUBCONTEXT_ESCAPE_DELTA);
    }
    pool[ci] := pool[ci].(total := pool[ci].total + SUBCONTEXT_SYMBOL_DELTA);
    ghost var q := pool[..];
    assert q == p[ci := q[ci]];
    TotalsOnly(p, q, ci, SubBumped(x, v).counts, sh);
    MovedNot(p, ci, SubBumped(x, v).counts, sh);
    MovedOn(p, p, q, ci, SubBumped(x, v).counts, sh, p);
    if count > 0xFF - 2 * SUBCONTEXT_SYMBOL_DELTA || pool[ci].total > BOTTOM - 0x100 {
      SmallCounts(x, v, SUBCONTEXT_SYMBOL_DELTA);
      ContextRescale(pool, ci, 0, SubBumped(x, v), sh);
      MovedTwice(p, q, pool[..], ci, SubBumped(x, v).counts, sh);
    }
  }

  lemma SmallCounts(x: Context, v: Byte, delta: nat)
    requires delta <= 3 && forall i :: 0 <= i < 256 ==> x.counts[i] <= 255 - delta
    ensures AllAtMost(With(x.counts, v, x.counts[v] + delta), 255)
  {
    var counts := With(x.counts, v, x.counts[v] + delta);
    forall i | 0 <= i < 256 ensures counts[i] <= 255 {
      assert x.counts[i] <= 255 - delta;
    }
  }

  ghost predicate AllAtMost(counts: Counts, bound: nat)
  {
    forall i :: 0 <= i < 256 ==> counts[i] <= bound
  }

  lemma MovedNot(p: Pool, ci: nat, counts: Counts, sh: Shape)
    ensures OnlyMoved(p, p, ci, counts, sh, |p|)
  {
    hide IsPlace;
  }

  lemma MovedTwice(p: Pool, q: Pool, r: Pool, ci: nat, counts: Counts, sh: Shape)
    requires OnlyMoved(p, q, ci, counts, sh, |p|) && OnlyMoved(q, r, ci, counts, sh, |q|)
    ensures OnlyMoved(p, r, ci, counts, sh, |p|)
  {
    hide IsPlace;
  }

  /** Brings the totals of the root up to date. */
  method FinishRoot(pool: array<Symbol>, ci: nat, v: Byte, count: nat, ghost x: Context, ghost sh: Shape)
    requires ci < pool.Length && RootOk(x) && count == x.counts[v] + CONTEXT_SYMBOL_MINIMUM
    requires Tree(pool[..], ci, RootBumped(x, v).counts, sh) && pool[ci].escapes == x.escapes
    requires pool[ci].total == x.total
    requires !IsPlace(RootBumped(x, v).counts, sh, ci)
    modifies pool
    ensures ContextAt(pool[..], ci, RootUpdated(x, v), sh)
    ensures OnlyMoved(old(pool[..]), pool[..], ci, RootBumped(x, v).counts, sh, pool.Length)
  {
    hide Sum, Shaped, IsPlace, Tree;
    ghost var p := pool[..];
    RootUpdatedOk(x, v);
    pool[ci] := pool[ci].(total := pool[ci].total + CONTEXT_SYMBOL_DELTA);
    ghost var q := pool[..];
    assert q == p[ci := q[ci]];
    TotalsOnly(p, q, ci, RootBumped(x, v).counts, sh);
    MovedNot(p, ci, RootBumped(x, v).counts, sh);
    MovedOn(p, p, q, ci, RootBumped(x, v).counts, sh, p);
    if count > 0xFF - 2 * CONTEXT_SYMBOL_DELTA + CONTEXT_SYMBOL_MINIMUM || pool[ci].total > BOTTOM - 0x100 {
      SmallCounts(x, v, CONTEXT_SYMBOL_DELTA);
      ContextRescale(pool, ci, CONTEXT_SYMBOL_MINIMUM, RootBumped(x, v), sh);
      MovedTwice(p, q, pool[..], ci, RootBumped(x, v).counts, sh);
    }
  }
}
