/** Where every symbol of every context lives in the pool, and what a visit to one context does to that. */
module PpmLayout {
  import opened Basics
  import opened RangeCoder
  import opened PpmModel
  import opened SymbolPool
  import opened SymbolTree
  import opened PpmPool

  /**
   A symbol is named by its context's name and its byte; the symbol of a name of at most two bytes is also the
   context of that name.  index gives the pool entry of each symbol, shape the tree of each context.
   */
  datatype Layout = Layout(index: map<Name, nat>, shape: map<Name, Shape>)

  function Last(s: Name): (v: Byte)
    requires s != []
  {
    s[|s| - 1]
  }

  function Init(s: Name): Name
    requires s != []
  {
    s[..|s| - 1]
  }

  lemma NameParts(c: Name, v: Byte)
    ensures c + [v] != [] && Init(c + [v]) == c && Last(c + [v]) == v
    ensures c != [] ==> (c + [v])[1..] == c[1..] + [v]
  {
  }

  lemma SameParts(c: Name, v: Byte, d: Name, w: Byte)
    requires c + [v] == d + [w]
    ensures c == d && v == w
  {
    NameParts(c, v);
    NameParts(d, w);
  }

  ghost predicate Layered(l: Layout, next: nat)
  {
    && [] in l.index && l.index[[]] == 0
    && (forall s :: s in l.index ==> |s| <= 3 && l.index[s] < next)
    && (forall s, t :: s in l.index && t in l.index && s != t ==> l.index[s] != l.index[t])
    && (forall s :: s in l.index && s != [] ==> Init(s) in l.index)
  }

  /** The context named c is in the pool, with one symbol for each byte it counts. */
  ghost predicate Held(p: Pool, l: Layout, m: Model, c: Name)
  {
    && c in l.index && c in l.shape
    && ContextAt(p, l.index[c], m.Get(c), l.shape[c])
    && (forall v: Byte :: m.Get(c).counts[v] > 0 <==> c + [v] in l.index)
    && (forall v: Byte :: c + [v] in l.index ==> l.shape[c].place[v] == l.index[c + [v]])
  }

  /** The symbol named s points to the symbol of the same byte in the next shorter context. */
  ghost predicate Linked(p: Pool, l: Layout, s: Name)
  {
    s != [] && s in l.index && s[1..] in l.index && l.index[s] < |p| && p[l.index[s]].parent == l.index[s[1..]]
  }

  /** The pool represents the model, except that the pending symbols have no link yet. */
  ghost predicate Represents(p: Pool, l: Layout, m: Model, next: nat, pending: set<Name>)
  {
    && |p| == POOL_SIZE && next <= POOL_SIZE && m.used == next && ModelOk(m)
    && Layered(l, next)
    && (forall c :: c in m.contexts ==> c in l.index && |c| <= 2)
    && (forall c :: c in l.index && |c| <= 2 ==> Held(p, l, m, c))
    && (forall s :: s in l.index && s != [] && s !in pending ==> Linked(p, l, s))
  }

  function BlankShape(): Shape
  {
    Shape(seq(256, _ => 0), seq(256, _ => 0), seq(256, _ => 0))
  }

  /** The layout after a visit to c that may have created the symbol of v. */
  function Extended(l: Layout, c: Name, v: Byte, created: bool, at: nat, sh: Shape): Layout
  {
    if created then Layout(l.index[c + [v] := at], l.shape[c := sh][c + [v] := BlankShape()])
    else Layout(l.index, l.shape[c := sh])
  }

  /** What a completed visit to the context c leaves in the pool. */
  ghost predicate IsVisit(p: Pool, p': Pool, l: Layout, m: Model, c: Name, v: Byte, next: nat, next': nat, sym: nat,
                          sh: Shape)
    requires c in l.index && c in l.shape
  {
    var x := m.Get(c);
    && ContextAt(p', l.index[c], Visited(m, c, v).Get(c), sh)
    && sym == sh.place[v]
    && (if x.counts[v] > 0 then
          next' == next && sh.place == l.shape[c].place && OnlyMoved(p, p', l.index[c], x.counts, l.shape[c], |p|)
        else
          && next' == next + 1 && sym == next < |p| && sh.place == l.shape[c].place[v := next]
          && OnlyMoved(p, p', l.index[c], x.counts, l.shape[c], next)
          && p'[next].symbols == 0 && p'[next].escapes == 0 && p'[next].total == 0 && p'[next].parent == 0)
  }

  // ----- distinct contexts do not share entries

  lemma PlaceIsSymbol(p: Pool, l: Layout, m: Model, c: Name, i: nat)
    requires Held(p, l, m, c) && IsPlace(m.Get(c).counts, l.shape[c], i)
    ensures exists w: Byte :: c + [w] in l.index && l.index[c + [w]] == i
  {
    hide ContextAt;
    var w :| 0 <= w < 256 && m.Get(c).counts[w] > 0 && l.shape[c].place[w] == i;
    var b: Byte := w;
    assert c + [b] in l.index;
  }

  lemma NotAPlace(p: Pool, l: Layout, m: Model, next: nat, c: Name, s: Name)
    requires Layered(l, next) && Held(p, l, m, c) && s in l.index && (s == [] || Init(s) != c)
    ensures !IsPlace(m.Get(c).counts, l.shape[c], l.index[s])
  {
    hide ContextAt, IsPlace;
    forall w: Byte | c + [w] in l.index ensures l.index[c + [w]] != l.index[s] {
      NameParts(c, w);
    }
    if IsPlace(m.Get(c).counts, l.shape[c], l.index[s]) {
      PlaceIsSymbol(p, l, m, c, l.index[s]);
    }
  }

  lemma ContextRoom(p: Pool, l: Layout, m: Model, next: nat, c: Name)
    requires Layered(l, next) && Held(p, l, m, c) && next < |p| <= 65536
    ensures l.index[c] < next && Room(p, l.index[c], m.Get(c).counts, l.shape[c], next)
    ensures !IsPlace(m.Get(c).counts, l.shape[c], l.index[c])
  {
    hide ContextAt;
    var counts, sh := m.Get(c).counts, l.shape[c];
    forall w | 0 <= w < 256 && counts[w] > 0 ensures sh.place[w] < next && sh.place[w] != l.index[c] {
      var b: Byte := w;
      assert c + [b] in l.index;
      NameParts(c, b);
      assert |c + [b]| == |c| + 1;
    }
    NotAPlace2(p, l, m, next, c);
  }

  lemma NotAPlace2(p: Pool, l: Layout, m: Model, next: nat, c: Name)
    requires Layered(l, next) && Held(p, l, m, c)
    ensures !IsPlace(m.Get(c).counts, l.shape[c], l.index[c])
  {
    if c != [] {
      assert |Init(c)| < |c|;
    }
    NotAPlace(p, l, m, next, c, c);
  }

  // ----- the effect of a visit

  lemma ExtendedLayered(l: Layout, c: Name, v: Byte, created: bool, next: nat, sh: Shape)
    requires Layered(l, next) && c in l.index && |c| <= 2
    requires created <==> c + [v] !in l.index
    ensures Layered(Extended(l, c, v, created, next, sh), if created then next + 1 else next)
  {
    NameParts(c, v);
  }

  /** Which symbols the extended layout has, and where. */
  lemma ExtendedAt(l: Layout, c: Name, v: Byte, created: bool, next: nat, sh: Shape, d: Name, u: Byte)
    requires created <==> c + [v] !in l.index
    ensures var l' := Extended(l, c, v, created, next, sh);
      && (d + [u] in l'.index <==> d + [u] in l.index || (d == c && u == v))
      && (d + [u] in l.index ==> l'.index[d + [u]] == l.index[d + [u]])
      && (created && d == c && u == v ==> l'.index[d + [u]] == next)
  {
    if d + [u] == c + [v] {
      SameParts(d, u, c, v);
    }
  }

  lemma ExtendedOther(l: Layout, c: Name, v: Byte, created: bool, next: nat, sh: Shape, d: Name)
    requires (created <==> c + [v] !in l.index) && d in l.index && d in l.shape && c != d
    ensures var l' := Extended(l, c, v, created, next, sh);
      d in l'.index && d in l'.shape && l'.index[d] == l.index[d] && l'.shape[d] == l.shape[d]
  {
  }

  lemma VisitedOther(m: Model, c: Name, d: Name, v: Byte)
    requires c != d
    ensures Visited(m, c, v).Get(d) == m.Get(d)
  {
    hide SubUpdated, RootUpdated;
  }

  /** Contexts other than the visited one are held as before. */
  lemma OthersHeld(p: Pool, p': Pool, l: Layout, m: Model, c: Name, d: Name, v: Byte, next: nat, next': nat, sym: nat,
                   sh: Shape)
    requires Layered(l, next) && Held(p, l, m, c) && Held(p, l, m, d) && c != d && next <= |p|
    requires IsVisit(p, p', l, m, c, v, next, next', sym, sh)
    requires m.Get(c).counts[v] == 0 <==> c + [v] !in l.index
    ensures Held(p', Extended(l, c, v, m.Get(c).counts[v] == 0, next, sh), Visited(m, c, v), d)
  {
    var created := m.Get(c).counts[v] == 0;
    var l' := Extended(l, c, v, created, next, sh);
    var m' := Visited(m, c, v);
    hide ContextAt, IsVisit, Visited, Extended, Layered, OnlyMoved, Held;
    HeldFacts(p, l, m, c);
    VisitMoved(p, p', l, m, c, v, next, next', sym, sh);
    OtherTree(p, p', l, m, c, d, next, if created then next else |p|);
    HeldFacts(p, l, m, d);
    VisitedOther(m, c, d, v);
    ExtendedOther(l, c, v, created, next, sh, d);
    forall u: Byte
      ensures m'.Get(d).counts[u] > 0 <==> d + [u] in l'.index
      ensures d + [u] in l'.index ==> l'.shape[d].place[u] == l'.index[d + [u]]
    {
      ExtendedAt(l, c, v, created, next, sh, d, u);
    }
    HeldFrom(p', l', m', d);
  }

  lemma VisitMoved(p: Pool, p': Pool, l: Layout, m: Model, c: Name, v: Byte, next: nat, next': nat, sym: nat, sh: Shape)
    requires c in l.index && c in l.shape && IsVisit(p, p', l, m, c, v, next, next', sym, sh)
    ensures OnlyMoved(p, p', l.index[c], m.Get(c).counts, l.shape[c], if m.Get(c).counts[v] == 0 then next else |p|)
  {
    hide ContextAt, OnlyMoved, Visited;
  }

  lemma OtherTree(p: Pool, p': Pool, l: Layout, m: Model, c: Name, d: Name, next: nat, f: nat)
    requires Layered(l, next) && Held(p, l, m, c) && Held(p, l, m, d) && c != d && next <= f
    requires OnlyMoved(p, p', l.index[c], m.Get(c).counts, l.shape[c], f)
    ensures ContextAt(p', l.index[d], m.Get(d), l.shape[d])
  {
    hide Tree, IsPlace;
    var counts, sh := m.Get(d).counts, l.shape[d];
    forall w | 0 <= w < 256 && counts[w] > 0 && sh.place[w] < |p|
      ensures var a, b := p[sh.place[w]], p'[sh.place[w]]; SameLinks(a, b) && a.count == b.count && a.under == b.under
    {
      var b: Byte := w;
      assert d + [b] in l.index;
      NameParts(d, b);
      NotAPlace(p, l, m, next, c, d + [b]);
    }
    TreeFrame(p, p', l.index[d], counts, sh);
  }

  /** The context of a new symbol is empty. */
  lemma NewHeld(p: Pool, p': Pool, l: Layout, m: Model, c: Name, v: Byte, next: nat, next': nat, sym: nat, sh: Shape)
    requires Layered(l, next) && c in l.index && c in l.shape
    requires IsVisit(p, p', l, m, c, v, next, next', sym, sh)
    requires m.Get(c).counts[v] == 0 && c + [v] !in l.index && c + [v] !in m.contexts && |p'| == |p|
    ensures Held(p', Extended(l, c, v, true, next, sh), Visited(m, c, v), c + [v])
  {
    NameParts(c, v);
    var d := c + [v];
    VisitsCommute(m, c, d, v);
    var l' := Extended(l, c, v, true, next, sh);
    assert Visited(m, c, v).Get(d) == Empty();
    EmptyTree(p', next);
    hide ContextAt;
    forall u: Byte ensures d + [u] !in l'.index {
      NameParts(d, u);
      assert |d + [u]| == |d| + 1;
    }
  }

  lemma EmptyTree(p: Pool, i: nat)
    requires i < |p| && p[i].symbols == 0 && p[i].escapes == 0 && p[i].total == 0
    ensures ContextAt(p, i, Empty(), BlankShape())
  {
  }

  /** The visited context holds the new counts. */
  lemma SelfHeld(p: Pool, p': Pool, l: Layout, m: Model, c: Name, v: Byte, next: nat, next': nat, sym: nat, sh: Shape)
    requires ModelOk(m) && Layered(l, next) && Held(p, l, m, c)
    requires IsVisit(p, p', l, m, c, v, next, next', sym, sh)
    ensures Held(p', Extended(l, c, v, m.Get(c).counts[v] == 0, next, sh), Visited(m, c, v), c)
    ensures sym == Extended(l, c, v, m.Get(c).counts[v] == 0, next, sh).index[c + [v]]
  {
    hide ContextAt, ModelOk, Visited, Extended, Layered, IsVisit, Held;
    HeldFacts(p, l, m, c);
    VisitedOk(m, c, v);
    VisitFacts(p, p', l, m, c, v, next, next', sym, sh);
    var created := m.Get(c).counts[v] == 0;
    var l', m' := Extended(l, c, v, created, next, sh), Visited(m, c, v);
    ExtendedSelf(l, c, v, created, next, sh);
    ExtendedAt(l, c, v, created, next, sh, c, v);
    forall u: Byte
      ensures m'.Get(c).counts[u] > 0 <==> c + [u] in l'.index
      ensures c + [u] in l'.index ==> sh.place[u] == l'.index[c + [u]]
    {
      ExtendedAt(l, c, v, created, next, sh, c, u);
    }
    HeldFrom(p', l', m', c);
  }

  lemma VisitFacts(p: Pool, p': Pool, l: Layout, m: Model, c: Name, v: Byte, next: nat, next': nat, sym: nat, sh: Shape)
    requires c in l.index && c in l.shape && IsVisit(p, p', l, m, c, v, next, next', sym, sh)
    ensures ContextAt(p', l.index[c], Visited(m, c, v).Get(c), sh) && sym == sh.place[v]
    ensures sh.place == if m.Get(c).counts[v] == 0 then l.shape[c].place[v := next] else l.shape[c].place
  {
    hide ContextAt, OnlyMoved, Visited;
  }

  lemma HeldFacts(p: Pool, l: Layout, m: Model, c: Name)
    requires Held(p, l, m, c)
    ensures c in l.index && c in l.shape
    ensures forall v: Byte :: m.Get(c).counts[v] > 0 <==> c + [v] in l.index
    ensures forall v: Byte :: c + [v] in l.index ==> l.shape[c].place[v] == l.index[c + [v]]
  {
    hide ContextAt;
  }

  lemma HeldFrom(p: Pool, l: Layout, m: Model, c: Name)
    requires c in l.index && c in l.shape && ContextAt(p, l.index[c], m.Get(c), l.shape[c])
    requires forall v: Byte :: m.Get(c).counts[v] > 0 <==> c + [v] in l.index
    requires forall v: Byte :: c + [v] in l.index ==> l.shape[c].place[v] == l.index[c + [v]]
    ensures Held(p, l, m, c)
  {
    hide ContextAt;
  }

  lemma ExtendedSelf(l: Layout, c: Name, v: Byte, created: bool, next: nat, sh: Shape)
    requires (created <==> c + [v] !in l.index) && c in l.index
    ensures var l' := Extended(l, c, v, created, next, sh);
      c in l'.index && c in l'.shape && l'.index[c] == l.index[c] && l'.shape[c] == sh
  {
    assert |c + [v]| != |c|;
  }

  lemma StillLinked(p: Pool, p': Pool, l: Layout, m: Model, c: Name, v: Byte, next: nat, next': nat, sym: nat,
                    sh: Shape, s: Name)
    requires Layered(l, next) && Held(p, l, m, c) && IsVisit(p, p', l, m, c, v, next, next', sym, sh)
    requires m.Get(c).counts[v] == 0 <==> c + [v] !in l.index
    requires next <= |p| && s in l.index && s != [] && Linked(p, l, s)
    ensures Linked(p', Extended(l, c, v, m.Get(c).counts[v] == 0, next, sh), s)
  {
    hide ContextAt, IsPlace;
  }

  /** A visit takes the representation of a model to that of the visited model. */
  lemma VisitRepresents(p: Pool, p': Pool, l: Layout, m: Model, c: Name, v: Byte, next: nat, next': nat, sym: nat,
                        sh: Shape, pending: set<Name>)
    requires Represents(p, l, m, next, pending) && c in l.index && |c| <= 2 && Held(p, l, m, c)
    requires IsVisit(p, p', l, m, c, v, next, next', sym, sh)
    ensures c + [v] in l.index <==> m.Get(c).counts[v] > 0
    ensures var created := m.Get(c).counts[v] == 0;
      var l' := Extended(l, c, v, created, next, sh);
      && Represents(p', l', Visited(m, c, v), next', if created then pending + {c + [v]} else pending)
      && c + [v] in l'.index && sym == l'.index[c + [v]]
      && (forall s :: s in l.index ==> s in l'.index && l'.index[s] == l.index[s])
  {
    var created := m.Get(c).counts[v] == 0;
    var l', m' := Extended(l, c, v, created, next, sh), Visited(m, c, v);
    var pending' := if created then pending + {c + [v]} else pending;
    hide Represents, Held, ContextAt, IsVisit, ModelOk, Layered, Visited, Extended, Linked;
    RepresentsFacts(p, l, m, next, pending);
    HeldFacts(p, l, m, c);
    VisitedOk(m, c, v);
    SelfHeld(p, p', l, m, c, v, next, next', sym, sh);
    VisitSizes(p, p', l, m, c, v, next, next', sym, sh);
    ExtendedLayered(l, c, v, created, next, sh);
    ExtendedNames(l, c, v, created, next, sh);
    VisitedNames(m, c, v);
    VisitHeld(p, p', l, m, c, v, next, next', sym, sh, pending);
    VisitLinked(p, p', l, m, c, v, next, next', sym, sh, pending);
    assert Layered(l', next');
    assert forall d :: d in m'.contexts ==> d in l'.index && |d| <= 2;
    RepresentsFrom(p', l', m', next', pending');
  }

  lemma VisitHeld(p: Pool, p': Pool, l: Layout, m: Model, c: Name, v: Byte, next: nat, next': nat, sym: nat, sh: Shape,
                  pending: set<Name>)
    requires Represents(p, l, m, next, pending) && c in l.index && |c| <= 2 && Held(p, l, m, c)
    requires IsVisit(p, p', l, m, c, v, next, next', sym, sh)
    ensures var l' := Extended(l, c, v, m.Get(c).counts[v] == 0, next, sh);
      forall d :: d in l'.index && |d| <= 2 ==> Held(p', l', Visited(m, c, v), d)
  {
    var created := m.Get(c).counts[v] == 0;
    var l', m' := Extended(l, c, v, created, next, sh), Visited(m, c, v);
    hide Represents, Held, ContextAt, IsVisit, ModelOk, Layered, Visited, Extended;
    RepresentsFacts(p, l, m, next, pending);
    HeldFacts(p, l, m, c);
    SelfHeld(p, p', l, m, c, v, next, next', sym, sh);
    VisitSizes(p, p', l, m, c, v, next, next', sym, sh);
    ExtendedNames(l, c, v, created, next, sh);
    forall d | d in l'.index && |d| <= 2 ensures Held(p', l', m', d) {
      if d != c {
        if d in l.index {
          OthersHeld(p, p', l, m, c, d, v, next, next', sym, sh);
        } else {
          NewHeld(p, p', l, m, c, v, next, next', sym, sh);
        }
      }
    }
  }

  lemma VisitLinked(p: Pool, p': Pool, l: Layout, m: Model, c: Name, v: Byte, next: nat, next': nat, sym: nat,
                    sh: Shape, pending: set<Name>)
    requires Represents(p, l, m, next, pending) && c in l.index && |c| <= 2 && Held(p, l, m, c)
    requires IsVisit(p, p', l, m, c, v, next, next', sym, sh)
    ensures var created := m.Get(c).counts[v] == 0;
      var l' := Extended(l, c, v, created, next, sh);
      forall s :: s in l'.index && s != [] && s !in (if created then pending + {c + [v]} else pending) ==>
        Linked(p', l', s)
  {
    var created := m.Get(c).counts[v] == 0;
    var l' := Extended(l, c, v, created, next, sh);
    hide Represents, Held, IsVisit, Extended, Linked;
    RepresentsFacts(p, l, m, next, pending);
    HeldFacts(p, l, m, c);
    ExtendedNames(l, c, v, created, next, sh);
    forall s | s in l'.index && s != [] && s !in (if created then pending + {c + [v]} else pending)
      ensures Linked(p', l', s)
    {
      assert s in l.index && Linked(p, l, s);
      StillLinked(p, p', l, m, c, v, next, next', sym, sh, s);
    }
  }

  lemma RepresentsFacts(p: Pool, l: Layout, m: Model, next: nat, pending: set<Name>)
    requires Represents(p, l, m, next, pending)
    ensures |p| == POOL_SIZE && next <= POOL_SIZE && m.used == next && ModelOk(m) && Layered(l, next)
    ensures forall c :: c in m.contexts ==> c in l.index && |c| <= 2
    ensures forall c :: c in l.index && |c| <= 2 ==> Held(p, l, m, c)
    ensures forall s :: s in l.index && s != [] && s !in pending ==> Linked(p, l, s)
  {
    hide Held, Linked, Layered, ModelOk;
  }

  lemma RepresentsFrom(p: Pool, l: Layout, m: Model, next: nat, pending: set<Name>)
    requires |p| == POOL_SIZE && next <= POOL_SIZE && m.used == next && ModelOk(m) && Layered(l, next)
    requires forall c :: c in m.contexts ==> c in l.index && |c| <= 2
    requires forall c :: c in l.index && |c| <= 2 ==> Held(p, l, m, c)
    requires forall s :: s in l.index && s != [] && s !in pending ==> Linked(p, l, s)
    ensures Represents(p, l, m, next, pending)
  {
    hide Held, Linked, Layered, ModelOk;
  }

  lemma ExtendedNames(l: Layout, c: Name, v: Byte, created: bool, next: nat, sh: Shape)
    requires created <==> c + [v] !in l.index
    ensures var l' := Extended(l, c, v, created, next, sh);
      && (forall s :: s in l'.index <==> s in l.index || s == c + [v])
      && (forall s :: s in l.index ==> l'.index[s] == l.index[s])
      && (created ==> l'.index[c + [v]] == next)
  {
  }

  lemma VisitedNames(m: Model, c: Name, v: Byte)
    ensures forall d :: d in Visited(m, c, v).contexts <==> d in m.contexts || d == c
    ensures Visited(m, c, v).used == m.used + if m.Get(c).counts[v] == 0 then 1 else 0
  {
    hide SubUpdated, RootUpdated;
  }

  lemma VisitSizes(p: Pool, p': Pool, l: Layout, m: Model, c: Name, v: Byte, next: nat, next': nat, sym: nat, sh: Shape)
    requires c in l.index && c in l.shape && IsVisit(p, p', l, m, c, v, next, next', sym, sh)
    ensures |p'| == |p| && next' == if m.Get(c).counts[v] == 0 then next + 1 else next
    ensures m.Get(c).counts[v] == 0 ==> next < |p|
  {
  }

  // ----- linking a pending symbol

  /** Setting the parent of a pending symbol settles it. */
  lemma LinkRepresents(p: Pool, l: Layout, m: Model, next: nat, pending: set<Name>, s: Name)
    requires Represents(p, l, m, next, pending) && s in l.index && s != [] && s[1..] in l.index
    ensures l.index[s] < |p| && l.index[s[1..]] < 65536
    ensures Represents(p[l.index[s] := p[l.index[s]].(parent := l.index[s[1..]])], l, m, next, pending - {s})
  {
    hide Represents, Held, Linked, ModelOk, Layered;
    RepresentsFacts(p, l, m, next, pending);
    IndexBound(l, next, s);
    IndexBound(l, next, s[1..]);
    var i := l.index[s];
    var p' := p[i := p[i].(parent := l.index[s[1..]])];
    forall d | d in l.index && |d| <= 2 ensures Held(p', l, m, d) {
      StillHeld(p, p', l, m, d, i);
    }
    forall t | t in l.index && t != [] && t !in pending - {s} ensures Linked(p', l, t) {
      if t == s {
        NewLink(p', l, s);
      } else {
        IndexApart(l, next, s, t);
        OldLink(p, p', l, t, i);
      }
    }
    RepresentsFrom(p', l, m, next, pending - {s});
  }

  lemma NewLink(p: Pool, l: Layout, s: Name)
    requires s != [] && s in l.index && s[1..] in l.index && l.index[s] < |p| && p[l.index[s]].parent == l.index[s[1..]]
    ensures Linked(p, l, s)
  {
  }

  lemma OldLink(p: Pool, p': Pool, l: Layout, t: Name, i: nat)
    requires Linked(p, l, t) && i < |p| && |p'| == |p| && p' == p[i := p'[i]] && l.index[t] != i
    ensures Linked(p', l, t)
  {
  }

  lemma StillHeld(p: Pool, p': Pool, l: Layout, m: Model, d: Name, i: nat)
    requires Held(p, l, m, d) && i < |p| && |p'| == |p| && p' == p[i := p'[i]] && p'[i] == p[i].(parent := p'[i].parent)
    ensures Held(p', l, m, d)
  {
    hide ContextAt;
    ParentOutside(p, p', l.index[d], m.Get(d), l.shape[d], i);
  }

  lemma IndexBound(l: Layout, next: nat, s: Name)
    requires Layered(l, next) && s in l.index
    ensures l.index[s] < next && |s| <= 3
  {
  }

  lemma IndexApart(l: Layout, next: nat, s: Name, t: Name)
    requires Layered(l, next) && s in l.index && t in l.index && s != t
    ensures l.index[s] != l.index[t]
  {
  }

  lemma ParentOutside(p: Pool, p': Pool, ci: nat, x: Context, sh: Shape, i: nat)
    requires ContextAt(p, ci, x, sh) && i < |p| && |p'| == |p| && p' == p[i := p'[i]]
    requires p'[i] == p[i].(parent := p'[i].parent)
    ensures ContextAt(p', ci, x, sh)
  {
    hide Shaped, Sum;
    TreeFrame(p, p', ci, x.counts, sh);
  }

  lemma LinkedAt(p: Pool, l: Layout, m: Model, next: nat, pending: set<Name>, s: Name)
    requires Represents(p, l, m, next, pending) && s in l.index && s != [] && s !in pending
    ensures s[1..] in l.index && l.index[s] < |p| && p[l.index[s]].parent == l.index[s[1..]]
  {
    assert Linked(p, l, s);
  }
}
