/** The chain of contexts of one byte: linking new symbols, and the prediction for the next byte. */
module PpmChain {
  import opened Basics
  import opened RangeCoder
  import opened PpmModel
  import opened SymbolPool
  import opened PpmPool
  import opened PpmLayout
  import opened PpmVisit

  /** The chain of new symbols from the context h down to c: the last one, s, waits for its link. */
  ghost predicate ChainTo(l: Layout, h: Name, c: Name, v: Byte, first: bool, s: Name, predicted: nat)
  {
    && (first ==> c == h)
    && (!first ==> s in l.index && s != [] && s[1..] == c + [v] && |s| == |c| + 2)
    && (!first ==> h + [v] in l.index && predicted == l.index[h + [v]])
  }

  /** The walk is over: the pool represents the model that has seen v. */
  ghost predicate WalkedTo(p: Pool, l: Layout, m: Model, v: Byte, next: nat, predicted: nat)
  {
    && Represents(p, l, Walked(m, m.history, v).0, next, {})
    && m.history + [v] in l.index && predicted == l.index[m.history + [v]]
  }

  lemma PendingLength(s: Name, c: Name, v: Byte)
    requires |s| == |c| + 2
    ensures s != c + [v] && s != c
    ensures {s} + {c + [v]} - {s} == {c + [v]}
  {
  }

  function Waiting(first: bool, s: Name): set<Name>
  {
    if first then {} else {s}
  }

  /** The symbol just reached is not the one waiting for its link. */
  lemma SymbolApart(p: Pool, l0: Layout, l: Layout, mk: Model, c: Name, v: Byte, next: nat, sym: nat, first: bool,
                    s: Name, parentAt: nat)
    requires AfterVisit(p, l0, l, mk, c, v, next, sym, Waiting(first, s))
    requires !first ==> s in l0.index && |s| == |c| + 2 && parentAt == l0.index[s]
    ensures sym < |p| && (!first ==> sym != parentAt)
  {
    hide Represents, Visited;
    RepresentsSize(p, l, Visited(mk, c, v), next, if mk.Get(c).counts[v] == 0 then Waiting(first, s) + {c + [v]}
      else Waiting(first, s));
    if !first {
      PendingLength(s, c, v);
    }
  }

  /** After the visit to c: its symbol becomes the link of the waiting one, or the prediction. */
  method LinkChain(pool: array<Symbol>, first: bool, parentAt: nat, sym: nat, predicted0: nat,
                   ghost l0: Layout, ghost l: Layout, ghost h: Name, ghost mk: Model, ghost c: Name, ghost v: Byte,
                   ghost next: nat, ghost s: Name)
    returns (predicted: nat)
    requires ChainTo(l0, h, c, v, first, s, predicted0)
    requires AfterVisit(pool[..], l0, l, mk, c, v, next, sym, Waiting(first, s))
    requires !first ==> parentAt == l0.index[s]
    modifies pool
    ensures Represents(pool[..], l, Visited(mk, c, v), next, if mk.Get(c).counts[v] == 0 then {c + [v]} else {})
    ensures h + [v] in l.index && predicted == l.index[h + [v]]
    ensures sym < pool.Length && pool[sym].parent == old(pool[..])[sym].parent
  {
    hide Represents, Visited;
    SymbolApart(pool[..], l0, l, mk, c, v, next, sym, first, s, parentAt);
    predicted := predicted0;
    if first {
      predicted := sym;
      assert {} + {c + [v]} == {c + [v]};
    } else {
      PendingLength(s, c, v);
      ghost var pending := if mk.Get(c).counts[v] == 0 then {s} + {c + [v]} else {s};
      Link(pool, parentAt, sym, l, Visited(mk, c, v), next, pending, s);
      assert {s} - {s} == {};
    }
  }

  lemma WalkStep(m: Model, c: Name, v: Byte)
    ensures Stops(m, c, v) ==> Walked(m, c, v) == (Visited(m, c, v), VisitSteps(m, c, v))
    ensures !Stops(m, c, v) ==> c != [] && Walked(m, c, v).0 == Walked(Visited(m, c, v), c[1..], v).0
    ensures !Stops(m, c, v) ==> Walked(m, c, v).1 == VisitSteps(m, c, v) + Walked(Visited(m, c, v), c[1..], v).1
  {
    hide Visited, VisitSteps;
  }

  lemma SubFacts(p: Pool, l: Layout, m: Model, next: nat, pending: set<Name>, c: Name)
    requires Represents(p, l, m, next, pending) && c in l.index && c != [] && |c| <= 2 && next < POOL_SIZE
    ensures l.index[c] < |p| && l.index[c] != 0 && SubOk(m.Get(c))
    ensures p[l.index[c]].escapes == m.Get(c).escapes && p[l.index[c]].total == m.Get(c).total
  {
    hide Represents, SubOk, RootOk;
    VisitStarts(p, l, m, next, pending, c);
    ContextTotals(p, l.index[c], m.Get(c), l.shape[c]);
  }

  lemma RootFacts(p: Pool, l: Layout, m: Model, next: nat, pending: set<Name>)
    requires Represents(p, l, m, next, pending) && next < POOL_SIZE
    ensures [] in l.index && l.index[[]] == 0 && 0 < |p| && RootOk(m.Get([]))
    ensures p[0].escapes == m.Get([]).escapes && p[0].total == m.Get([]).total
  {
    hide Represents, SubOk, RootOk;
    RepresentsSize(p, l, m, next, pending);
    VisitStarts(p, l, m, next, pending, []);
    ContextTotals(p, 0, m.Get([]), l.shape[[]]);
  }

  lemma HistoryKept(m: Model, c: Name, v: Byte)
    ensures Visited(m, c, v).history == m.history
  {
    hide SubUpdated, RootUpdated;
  }

  /** The root visit leaves no symbol pending. */
  lemma RootVisitSettled(p: Pool, l: Layout, mk: Model, v: Byte, next: nat, sym: nat)
    requires Represents(p, l, Visited(mk, [], v), next, if mk.Get([]).counts[v] == 0 then {[] + [v]} else {})
    requires [] + [v] in l.index && sym == l.index[[] + [v]]
    requires mk.Get([]).counts[v] == 0 ==> sym < |p| && p[sym].parent == 0
    ensures Represents(p, l, Visited(mk, [], v), next, {})
  {
    hide Represents, Visited;
    assert [] + [v] == [v];
    if mk.Get([]).counts[v] == 0 {
      RootSettled(p, l, Visited(mk, [], v), next, {[v]}, v);
      assert {[v]} - {[v]} == {};
    }
  }

  lemma SubVisitSteps(m: Model, c: Name, v: Byte)
    requires c != []
    ensures VisitSteps(m, c, v) == SubSteps(m.Get(c), v)
  {
  }

  lemma RootVisitSteps(m: Model, v: Byte)
    ensures VisitSteps(m, [], v) == [RootStep(m.Get([]), v)]
  {
  }

  lemma UsedGrows(m: Model, c: Name, v: Byte, next: nat, next': nat)
    requires m.used == next && next' == if m.Get(c).counts[v] == 0 then Visited(m, c, v).used else m.used
    ensures next <= next' <= next + 1
  {
    hide SubUpdated, RootUpdated;
  }

  lemma AtRoot(p: Pool, l: Layout, m: Model, next: nat, pending: set<Name>, c: Name)
    requires Represents(p, l, m, next, pending) && c in l.index
    ensures l.index[c] == 0 <==> c == []
    ensures |p| == POOL_SIZE && m.used == next && ModelOk(m)
  {
    hide Represents, ModelOk;
    RepresentsSize(p, l, m, next, pending);
  }

  lemma KnownStops(m: Model, c: Name, v: Byte)
    requires m.Get(c).counts[v] > 0
    ensures Stops(m, c, v)
  {
  }

  lemma UnknownGoesOn(m: Model, c: Name, v: Byte)
    requires m.Get(c).counts[v] == 0 && c != []
    ensures !Stops(m, c, v)
  {
  }

  /** The next shorter context is found through the link. */
  lemma NextContext(p: Pool, l: Layout, m: Model, next: nat, c: Name, v: Byte)
    requires Represents(p, l, m, next, {c + [v]}) && c in l.index && c != []
    ensures c[1..] in l.index && l.index[c] < |p| && p[l.index[c]].parent == l.index[c[1..]]
  {
    hide Represents;
    assert c != c + [v];
    LinkedAt(p, l, m, next, {c + [v]}, c);
  }

  lemma RootStops(m: Model, v: Byte)
    ensures Stops(m, [], v)
  {
  }

  /** Between two bytes: the pool represents the model, and the prediction is the context of the last bytes. */
  ghost predicate Between(p: Pool, l: Layout, m: Model, predicted: nat, order: nat, next: nat)
  {
    && Represents(p, l, m, next, {}) && m.history in l.index && predicted == l.index[m.history]
    && order == |m.history| && next < POOL_SIZE - SUBCONTEXT_ORDER
  }

  /** Shortens the prediction to two bytes, and clears the pool when it is full. */
  method NextPrediction(pool: array<Symbol>, predicted0: nat, order0: nat, next0: nat, ghost l0: Layout, ghost m: Model,
                        ghost v: Byte)
    returns (predicted: nat, order: nat, next: nat, ghost l: Layout)
    requires WalkedTo(pool[..], l0, m, v, next0, predicted0) && order0 == |m.history| && ModelOk(m)
    modifies pool
    ensures Between(pool[..], l, Seen(m, v), predicted, order, next)
  {
    hide Represents, Walked;
    ghost var m1 := Walked(m, m.history, v).0;
    WalkedOk(m, m.history, v);
    ghost var s := m.history + [v];
    RepresentsSize(pool[..], l0, m1, next0, {});
    predicted, order, next, l := predicted0, order0, next0, l0;
    if order >= SUBCONTEXT_ORDER {
      LinkedAt(pool[..], l0, m1, next0, {}, s);
      predicted := pool[predicted].parent;
      NameParts(m.history, v);
    } else {
      order := order + 1;
    }
    assert NextHistory(m.history, v) in l.index && predicted == l.index[NextHistory(m.history, v)];
    if next >= POOL_SIZE - SUBCONTEXT_ORDER {
      CreateRootContext(pool);
      predicted, order, next, l := 0, 0, 1, StartLayout();
    } else {
      SameButHistory(pool[..], l, m1, next, NextHistory(m.history, v));
    }
  }

  lemma SameButHistory(p: Pool, l: Layout, m: Model, next: nat, h: Name)
    requires Represents(p, l, m, next, {}) && |h| <= SUBCONTEXT_ORDER
    ensures Represents(p, l, m.(history := h), next, {})
  {
    hide Linked, Layered, RootOk, SubOk, ContextAt;
    var m' := m.(history := h);
    assert ModelOk(m');
    forall c | c in l.index && |c| <= 2 ensures Held(p, l, m', c) {
      assert Held(p, l, m, c);
      assert m'.Get(c) == m.Get(c);
    }
  }

  lemma StartBetween(p: Pool)
    requires Represents(p, StartLayout(), Fresh(), 1, {})
    ensures Between(p, StartLayout(), Fresh(), 0, 0, 1)
  {
    hide Represents;
  }
}
