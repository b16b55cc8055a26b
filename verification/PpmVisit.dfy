/** Counting a byte in one context of the pool, and linking its symbol to the next shorter context. */
module PpmVisit {
  import opened Basics
  import opened RangeCoder
  import opened PpmModel
  import opened SymbolPool
  import opened SymbolTree
  import opened PpmPool
  import opened PpmLayout

  lemma BumpedPlace(counts: Counts, sh: Shape, v: Byte, delta: nat, next: nat, sh': Shape, i: nat)
    requires if counts[v] > 0 then sh' == sh else sh'.place == sh.place[v := next]
    requires IsPlace(With(counts, v, counts[v] + delta), sh', i) && i != next
    ensures IsPlace(counts, sh, i)
  {
    var w :| 0 <= w < 256 && With(counts, v, counts[v] + delta)[w] > 0 && sh'.place[w] == i;
    assert counts[w] > 0 && sh.place[w] == i;
  }

  /** The walk and the completion together are a visit. */
  lemma VisitComplete(p0: Pool, p1: Pool, p2: Pool, l: Layout, m: Model, c: Name, v: Byte, delta: Byte,
                      next: nat, next': nat, sym: nat, sh': Shape)
    requires c in l.index && c in l.shape && 0 < delta && l.index[c] < next <= |p0|
    requires m.Get(c).counts[v] > 0 ==> m.Get(c).counts[v] + delta < 256
    requires Arrived(p0, p1, l.index[c], m.Get(c).counts, l.shape[c], v, delta, next, next', sym, sh')
    requires ContextAt(p2, l.index[c], Visited(m, c, v).Get(c), sh')
    requires OnlyMoved(p1, p2, l.index[c], With(m.Get(c).counts, v, m.Get(c).counts[v] + delta), sh', |p1|)
    ensures IsVisit(p0, p2, l, m, c, v, next, next', sym, sh')
  {
    hide Tree, ContextAt, IsPlace, Visited;
    var ci, counts, sh := l.index[c], m.Get(c).counts, l.shape[c];
    var f := if counts[v] > 0 then |p0| else next;
    forall i | 0 <= i < |p0| && i != f ensures Moved(p0[i], p2[i], i == ci, IsPlace(counts, sh, i)) {
      if i != next && IsPlace(With(counts, v, counts[v] + delta), sh', i) {
        BumpedPlace(counts, sh, v, delta, next, sh', i);
      }
      if i == next && counts[v] > 0 && IsPlace(With(counts, v, counts[v] + delta), sh', i) {
        KnownPlace(counts, sh, v, delta, i);
      }
    }
  }

  lemma KnownPlace(counts: Counts, sh: Shape, v: Byte, delta: nat, i: nat)
    requires counts[v] > 0 && IsPlace(With(counts, v, counts[v] + delta), sh, i)
    ensures IsPlace(counts, sh, i)
  {
    var w :| 0 <= w < 256 && With(counts, v, counts[v] + delta)[w] > 0 && sh.place[w] == i;
    assert counts[w] > 0;
  }

  /** What a visit leaves behind, in terms of the model. */
  ghost predicate AfterVisit(p': Pool, l: Layout, l': Layout, m: Model, c: Name, v: Byte, next': nat, sym: nat,
                             pending: set<Name>)
  {
    && Represents(p', l', Visited(m, c, v), next', if m.Get(c).counts[v] == 0 then pending + {c + [v]} else pending)
    && c + [v] in l'.index && sym == l'.index[c + [v]]
    && (forall s :: s in l.index ==> s in l'.index && l'.index[s] == l.index[s])
    && (c + [v] in l.index <==> m.Get(c).counts[v] > 0)
    && next' == if m.Get(c).counts[v] == 0 then Visited(m, c, v).used else m.used
  }

  lemma VisitStarts(p: Pool, l: Layout, m: Model, next: nat, pending: set<Name>, c: Name)
    requires Represents(p, l, m, next, pending) && c in l.index && |c| <= 2 && next < POOL_SIZE
    ensures |p| == POOL_SIZE && Held(p, l, m, c) && ModelOk(m) && c in l.shape
    ensures ContextAt(p, l.index[c], m.Get(c), l.shape[c]) && l.index[c] < next
    ensures Tree(p, l.index[c], m.Get(c).counts, l.shape[c])
    ensures Room(p, l.index[c], m.Get(c).counts, l.shape[c], next)
    ensures !IsPlace(m.Get(c).counts, l.shape[c], l.index[c])
    ensures c != [] ==> SubOk(m.Get(c))
    ensures c == [] ==> RootOk(m.Get(c))
    ensures (l.index[c] == 0) <==> c == []
  {
    EmptyOk();
    hide SubOk, RootOk, Tree, Empty, FreshRoot;
    assert Held(p, l, m, c);
    ContextRoom(p, l, m, next, c);
  }

  /** Room for one more count of a byte. */
  lemma CountsFit(x: Context, v: Byte, minimum: nat)
    requires minimum <= 1 && ContextOk(x, minimum)
    ensures Fits(x.counts, v, if minimum == 0 then SUBCONTEXT_SYMBOL_DELTA else CONTEXT_SYMBOL_DELTA)
    ensures forall i :: 0 <= i < 256 ==> x.counts[i] <= 253 - minimum
  {
    hide Sum;
  }

  lemma StillNoPlace(counts: Counts, sh: Shape, v: Byte, delta: nat, next: nat, sh': Shape, ci: nat)
    requires if counts[v] > 0 then sh' == sh else sh'.place == sh.place[v := next]
    requires !IsPlace(counts, sh, ci) && ci != next
    ensures !IsPlace(With(counts, v, counts[v] + delta), sh', ci)
  {
    if IsPlace(With(counts, v, counts[v] + delta), sh', ci) {
      BumpedPlace(counts, sh, v, delta, next, sh', ci);
    }
  }

  lemma ArrivedFacts(p: Pool, p': Pool, ci: nat, counts: Counts, sh: Shape, v: Byte, delta: Byte,
                     next: nat, next': nat, sym: nat, sh': Shape)
    requires counts[v] + delta < 256 && ci < next < |p|
    requires Arrived(p, p', ci, counts, sh, v, delta, next, next', sym, sh')
    ensures Tree(p', ci, With(counts, v, counts[v] + delta), sh') && |p'| == |p|
    ensures p'[ci].escapes == p[ci].escapes && p'[ci].total == p[ci].total
    ensures if counts[v] > 0 then sh' == sh else sh'.place == sh.place[v := next]
  {
    hide Tree, IsPlace;
  }

  /** Counts v in a context below the root. */
  method VisitSub(pool: array<Symbol>, ci: nat, v: Byte, next: nat,
                  ghost l: Layout, ghost m: Model, ghost c: Name, ghost pending: set<Name>)
    returns (sym: nat, under: nat, count: nat, next': nat, ghost l': Layout)
    requires Represents(pool[..], l, m, next, pending) && c in l.index && c != [] && |c| <= 2 && next < POOL_SIZE
    requires ci == l.index[c]
    modifies pool
    ensures under == Sum(m.Get(c).counts, 0, v) && count == m.Get(c).counts[v]
    ensures AfterVisit(pool[..], l, l', m, c, v, next', sym, pending)
  {
    hide Represents, Held, ContextAt, Tree, Room, IsPlace, ModelOk, SubOk, RootOk, Arrived, OnlyMoved, Sum, IsVisit,
      Extended, SubUpdated, RootUpdated;
    ghost var p0 := pool[..];
    VisitStarts(p0, l, m, next, pending, c);
    ghost var x, sh := m.Get(c), l.shape[c];
    CountsFit(x, v, 0) by { SubIsOk(x); }
    ContextTotals(p0, ci, x, sh);
    ghost var sh';
    sym, under, count, next', sh' := ContextEncode(pool, ci, v, SUBCONTEXT_SYMBOL_DELTA, 0, next, x.counts, sh);
    ghost var p1 := pool[..];
    ArrivedFacts(p0, p1, ci, x.counts, sh, v, SUBCONTEXT_SYMBOL_DELTA, next, next', sym, sh');
    StillNoPlace(x.counts, sh, v, SUBCONTEXT_SYMBOL_DELTA, next, sh', ci);
    FinishSub(pool, ci, v, count, x, sh');
    ghost var p2 := pool[..];
    VisitComplete(p0, p1, p2, l, m, c, v, SUBCONTEXT_SYMBOL_DELTA, next, next', sym, sh');
    VisitRepresents(p0, p2, l, m, c, v, next, next', sym, sh', pending);
    VisitSizes(p0, p2, l, m, c, v, next, next', sym, sh');
    l' := Extended(l, c, v, x.counts[v] == 0, next, sh');
    UsedIsNext(p0, l, m, next, pending);
  }

  lemma UsedIsNext(p: Pool, l: Layout, m: Model, next: nat, pending: set<Name>)
    requires Represents(p, l, m, next, pending)
    ensures m.used == next
  {
    hide Held, Linked, Layered, ModelOk;
  }

  lemma SubIsOk(x: Context)
    requires SubOk(x)
    ensures ContextOk(x, 0)
  {
  }

  lemma ContextTotals(p: Pool, ci: nat, x: Context, sh: Shape)
    requires ContextAt(p, ci, x, sh)
    ensures ci < |p| && p[ci].escapes == x.escapes && p[ci].total == x.total
  {
    hide Tree;
  }

  lemma RootIsOk(x: Context)
    requires RootOk(x)
    ensures ContextOk(x, 1)
  {
  }

  /** Counts v in the root, given the walk to v. */
  method FinishRootVisit(pool: array<Symbol>, v: Byte, count: nat, ghost p0: Pool, ghost next: nat, ghost next': nat,
                         ghost sym: nat, ghost sh': Shape, ghost l: Layout, ghost m: Model, ghost pending: set<Name>)
    returns (ghost l': Layout)
    requires Represents(p0, l, m, next, pending) && [] in l.index && [] in l.shape && next < POOL_SIZE
    requires |p0| == POOL_SIZE && l.index[[]] == 0 < next && [] !in pending
    requires Arrived(p0, pool[..], 0, m.Get([]).counts, l.shape[[]], v, CONTEXT_SYMBOL_DELTA, next, next', sym, sh')
    requires count == m.Get([]).counts[v] + 1
    modifies pool
    ensures AfterVisit(pool[..], l, l', m, [], v, next', sym, pending)
    ensures m.Get([]).counts[v] == 0 ==> sym < pool.Length && pool[sym].parent == 0
  {
    hide Represents, Held, ContextAt, Tree, Room, IsPlace, ModelOk, SubOk, RootOk, Arrived, OnlyMoved, Sum, IsVisit,
      Extended, SubUpdated, RootUpdated;
    VisitStarts(p0, l, m, next, pending, []);
    ghost var x, sh := m.Get([]), l.shape[[]];
    CountsFit(x, v, 1) by { RootIsOk(x); }
    ContextTotals(p0, 0, x, sh);
    ghost var p1 := pool[..];
    ArrivedFacts(p0, p1, 0, x.counts, sh, v, CONTEXT_SYMBOL_DELTA, next, next', sym, sh');
    StillNoPlace(x.counts, sh, v, CONTEXT_SYMBOL_DELTA, next, sh', 0);
    FinishRoot(pool, 0, v, count, x, sh');
    ghost var p2 := pool[..];
    VisitComplete(p0, p1, p2, l, m, [], v, CONTEXT_SYMBOL_DELTA, next, next', sym, sh');
    VisitRepresents(p0, p2, l, m, [], v, next, next', sym, sh', pending);
    VisitSizes(p0, p2, l, m, [], v, next, next', sym, sh');
    l' := Extended(l, [], v, x.counts[v] == 0, next, sh');
    UsedIsNext(p0, l, m, next, pending);
    NewParent(p0, p2, l, m, v, next, next', sym, sh');
  }

  lemma NewParent(p: Pool, p': Pool, l: Layout, m: Model, v: Byte, next: nat, next': nat, sym: nat, sh: Shape)
    requires [] in l.index && [] in l.shape && IsVisit(p, p', l, m, [], v, next, next', sym, sh)
    ensures m.Get([]).counts[v] == 0 ==> sym < |p'| && p'[sym].parent == 0
  {
    hide ContextAt, IsPlace;
  }

  /** Counts v in the root while encoding. */
  method VisitRoot(pool: array<Symbol>, v: Byte, next: nat, ghost l: Layout, ghost m: Model, ghost pending: set<Name>)
    returns (sym: nat, under: nat, count: nat, next': nat, ghost l': Layout)
    requires Represents(pool[..], l, m, next, pending) && [] in l.index && next < POOL_SIZE && [] !in pending
    modifies pool
    ensures under == v + Sum(m.Get([]).counts, 0, v) && count == m.Get([]).counts[v] + 1
    ensures AfterVisit(pool[..], l, l', m, [], v, next', sym, pending)
    ensures m.Get([]).counts[v] == 0 ==> sym < pool.Length && pool[sym].parent == 0
  {
    hide Represents, Held, ContextAt, Tree, Room, IsPlace, ModelOk, SubOk, RootOk, Arrived, Sum;
    ghost var p0 := pool[..];
    VisitStarts(p0, l, m, next, pending, []);
    ghost var x, sh := m.Get([]), l.shape[[]];
    CountsFit(x, v, 1) by { RootIsOk(x); }
    ghost var sh';
    sym, under, count, next',
      sh' := ContextEncode(pool, 0, v, CONTEXT_SYMBOL_DELTA, CONTEXT_SYMBOL_MINIMUM, next, x.counts, sh);
    l' := FinishRootVisit(pool, v, count, p0, next, next', sym, sh', l, m, pending);
  }

  /** Counts the byte selected by the code value in the root while decoding. */
  method DecodeRoot(pool: array<Symbol>, code: nat, next: nat, ghost v: Byte, ghost l: Layout, ghost m: Model)
    returns (sym: nat, value: Byte, under: nat, count: nat, next': nat, ghost l': Layout)
    requires Represents(pool[..], l, m, next, {}) && [] in l.index && next < POOL_SIZE
    requires Selects(m.Get([]).counts, CONTEXT_SYMBOL_MINIMUM, code, v)
    modifies pool
    ensures value == v
    ensures under == v + Sum(m.Get([]).counts, 0, v) && count == m.Get([]).counts[v] + 1
    ensures AfterVisit(pool[..], l, l', m, [], v, next', sym, {})
    ensures m.Get([]).counts[v] == 0 ==> sym < pool.Length && pool[sym].parent == 0
  {
    hide Represents, Held, ContextAt, Tree, Room, IsPlace, ModelOk, SubOk, RootOk, Arrived, Sum, Selects;
    ghost var p0 := pool[..];
    VisitStarts(p0, l, m, next, {}, []);
    ghost var x, sh := m.Get([]), l.shape[[]];
    CountsFit(x, v, 1) by { RootIsOk(x); }
    ghost var sh';
    sym, value, under, count, next', sh' :=
      ContextDecode(pool, 0, code, CONTEXT_SYMBOL_DELTA, CONTEXT_SYMBOL_MINIMUM, next, v, x.counts, sh);
    l' := FinishRootVisit(pool, value, count, p0, next, next', sym, sh', l, m, {});
  }

  /** Counts the byte selected by the code value in a context below the root. */
  method DecodeSub(pool: array<Symbol>, ci: nat, code: nat, next: nat, ghost v: Byte, ghost l: Layout, ghost m: Model,
                   ghost c: Name)
    returns (sym: nat, value: Byte, under: nat, count: nat, next': nat, ghost l': Layout)
    requires Represents(pool[..], l, m, next, {}) && c in l.index && c != [] && |c| <= 2 && next < POOL_SIZE
    requires ci == l.index[c] && Selects(m.Get(c).counts, 0, code, v)
    modifies pool
    ensures value == v
    ensures under == Sum(m.Get(c).counts, 0, v) && count == m.Get(c).counts[v]
    ensures AfterVisit(pool[..], l, l', m, c, v, next', sym, {})
  {
    hide Represents, Held, ContextAt, Tree, Room, IsPlace, ModelOk, SubOk, RootOk, Arrived, OnlyMoved, Sum, IsVisit,
      Extended, SubUpdated, RootUpdated, Selects;
    ghost var p0 := pool[..];
    VisitStarts(p0, l, m, next, {}, c);
    ghost var x, sh := m.Get(c), l.shape[c];
    CountsFit(x, v, 0) by { SubIsOk(x); }
    ContextTotals(p0, ci, x, sh);
    ghost var sh';
    sym, value, under, count, next',
      sh' := ContextDecode(pool, ci, code, SUBCONTEXT_SYMBOL_DELTA, 0, next, v, x.counts, sh);
    ghost var p1 := pool[..];
    ArrivedFacts(p0, p1, ci, x.counts, sh, v, SUBCONTEXT_SYMBOL_DELTA, next, next', sym, sh');
    StillNoPlace(x.counts, sh, v, SUBCONTEXT_SYMBOL_DELTA, next, sh', ci);
    FinishSub(pool, ci, value, count, x, sh');
    ghost var p2 := pool[..];
    VisitComplete(p0, p1, p2, l, m, c, v, SUBCONTEXT_SYMBOL_DELTA, next, next', sym, sh');
    VisitRepresents(p0, p2, l, m, c, v, next, next', sym, sh', {});
    VisitSizes(p0, p2, l, m, c, v, next, next', sym, sh');
    l' := Extended(l, c, v, x.counts[v] == 0, next, sh');
    UsedIsNext(p0, l, m, next, {});
  }

  // ----- links

  /** Stores the link of a pending symbol. */
  method Link(pool: array<Symbol>, at: nat, sym: nat, ghost l: Layout, ghost m: Model, ghost next: nat,
              ghost pending: set<Name>, ghost s: Name)
    requires Represents(pool[..], l, m, next, pending) && s in l.index && s != [] && s[1..] in l.index
    requires at == l.index[s] && sym == l.index[s[1..]]
    modifies pool
    ensures Represents(pool[..], l, m, next, pending - {s})
    ensures forall i :: 0 <= i < pool.Length && i != at ==> pool[i] == old(pool[i])
  {
    hide Represents;
    LinkRepresents(pool[..], l, m, next, pending, s);
    ghost var p := pool[..];
    RepresentsSize(p, l, m, next, pending);
    pool[at] := pool[at].(parent := sym);
    assert pool[..] == p[at := p[at].(parent := sym)];
  }

  lemma RepresentsSize(p: Pool, l: Layout, m: Model, next: nat, pending: set<Name>)
    requires Represents(p, l, m, next, pending)
    ensures |p| == POOL_SIZE && next <= POOL_SIZE && [] in l.index && l.index[[]] == 0
    ensures forall s :: s in l.index ==> |s| <= 3 && l.index[s] < next
    ensures forall s, t :: s in l.index && t in l.index && s != t ==> l.index[s] != l.index[t]
    ensures m.used == next && ModelOk(m)
  {
    hide Held, Linked, ModelOk;
  }

  /** A new symbol of the root has its link from the start. */
  lemma RootSettled(p: Pool, l: Layout, m: Model, next: nat, pending: set<Name>, v: Byte)
    requires Represents(p, l, m, next, pending) && [v] in l.index && l.index[[v]] < |p| && p[l.index[[v]]].parent == 0
    ensures Represents(p, l, m, next, pending - {[v]})
  {
    hide Represents, Held, Linked, Layered, ModelOk;
    RepresentsFacts(p, l, m, next, pending);
    RepresentsSize(p, l, m, next, pending);
    RootLinked(p, l, v);
    RepresentsFrom(p, l, m, next, pending - {[v]});
  }

  lemma RootLinked(p: Pool, l: Layout, v: Byte)
    requires [v] in l.index && l.index[[v]] < |p| && p[l.index[[v]]].parent == 0 && [] in l.index && l.index[[]] == 0
    ensures Linked(p, l, [v])
  {
    var s: Name := [v];
    assert s[1..] == [];
  }

  // ----- the start

  function StartLayout(): Layout
  {
    Layout(map[[] := 0], map[[] := BlankShape()])
  }

  /** An empty pool with only the root. */
  method CreateRootContext(pool: array<Symbol>)
    requires pool.Length == POOL_SIZE
    modifies pool
    ensures Represents(pool[..], StartLayout(), Fresh(), 1, {})
  {
    pool[0] := NewSymbol(0, 0);
    pool[0] := pool[0].(escapes := CONTEXT_ESCAPE_MINIMUM,
      total := CONTEXT_ESCAPE_MINIMUM + 256 * CONTEXT_SYMBOL_MINIMUM);
    StartRepresents(pool[..]);
  }

  lemma StartRepresents(p: Pool)
    requires |p| == POOL_SIZE && p[0].symbols == 0 && p[0].escapes == 1 && p[0].total == 257
    ensures Represents(p, StartLayout(), Fresh(), 1, {})
  {
    FreshOk();
    StartHeld(p);
    StartLayered();
    hide Held, Layered, ModelOk, FreshRoot;
  }

  lemma StartLayered()
    ensures Layered(StartLayout(), 1)
  {
  }

  lemma StartHeld(p: Pool)
    requires |p| == POOL_SIZE && p[0].symbols == 0 && p[0].escapes == 1 && p[0].total == 257
    ensures Held(p, StartLayout(), Fresh(), [])
  {
    hide Sum;
    StartTree(p);
    hide ContextAt;
  }

  lemma StartTree(p: Pool)
    requires |p| == POOL_SIZE && p[0].symbols == 0 && p[0].escapes == 1 && p[0].total == 257
    ensures ContextAt(p, 0, FreshRoot(), BlankShape())
  {
    hide Sum;
  }
}
