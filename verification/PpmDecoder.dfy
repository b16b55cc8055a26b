/** The decompressor: finds each byte from the short end of its context chain, then patches the longer contexts. */
module PpmDecoder {
  import opened Basics
  import opened RangeCoder
  import opened PpmModel
  import opened SymbolPool
  import opened SymbolTree
  import opened PpmPool
  import opened PpmLayout
  import opened PpmVisit
  import opened PpmEncoder
  import opened PpmChain
  import opened PpmMessage

  // ----- the reader

  /** The code value and the read position belong to the bytes from position k on. */
  ghost predicate InSync(c: Interval, code: nat, pos: nat, data: seq<Byte>, k: nat)
  {
    Ready(c) && code == Window(data, k) && pos == ReadTo(data, k)
  }

  /** The steps are still to be read from position k on. */
  ghost predicate ToRead(data: seq<Byte>, k: nat, c: Interval, steps: seq<Step>)
  {
    Ready(c) && StepsOk(steps) && k <= |data| && data[k..] == Coded(c, steps)
  }

  /** Nothing is left but the final low end of the interval. */
  ghost predicate AtEnd(data: seq<Byte>, k: nat, c: Interval)
  {
    Window(data, k) == c.low && forall j :: k + 4 <= j ==> At(data, j) == 0
  }

  /** The next step can be recognised from the code value, and then the rest is to be read. */
  lemma ReadStep(data: seq<Byte>, k: nat, c: Interval, st: Step, rest: seq<Step>)
    requires ToRead(data, k, c, [st] + rest)
    ensures StepOk(st) && c.low <= Window(data, k) && c.range / st.total > 0
    ensures st.under <= (Window(data, k) - c.low) / (c.range / st.total) < st.under + st.count
    ensures ToRead(data, k + |Emitted(c, st)|, Next(c, st), rest)
  {
    hide Window, Next, Emitted, Narrowed;
    var steps := [st] + rest;
    assert steps[0] == st && steps[1..] == rest;
    assert StepOk(steps[0]);
    CodedHolds(c, steps, data, k);
    NarrowedHolds(c, st, Window(data, k));
    StepsTail(steps);
    var bytes := Emitted(c, st);
    CodedStep(c, steps);
    assert data[k..] == bytes + Coded(Next(c, st), rest);
    assert data[k + |bytes|..] == data[k..][|bytes|..];
  }

  lemma CodedStep(c: Interval, steps: seq<Step>)
    requires Ready(c) && StepsOk(steps) && steps != []
    ensures StepOk(steps[0]) && StepsOk(steps[1..])
    ensures Coded(c, steps) == Emitted(c, steps[0]) + Coded(Next(c, steps[0]), steps[1..])
  {
    hide Next, Emitted, Ready;
    StepsTail(steps);
  }

  lemma ReadNothing(data: seq<Byte>, k: nat, c: Interval)
    requires ToRead(data, k, c, [])
    ensures AtEnd(data, k, c)
  {
    hide Window, Coded;
    CodedHolds(c, [], data, k);
  }

  /** At the end the code value is the low end of the interval, which lies in the escape part; reading it keeps that. */
  lemma ReadEscape(data: seq<Byte>, k: nat, c: Interval, st: Step)
    requires Ready(c) && StepOk(st) && st.under == 0 && AtEnd(data, k, c)
    ensures c.range / st.total > 0
    ensures AtEnd(data, k + |Emitted(c, st)|, Next(c, st))
  {
    hide Window, Renormalised;
    NarrowedProper(c, st);
    assert Narrowed(c, st).low == c.low;
    RenormalisedEnd(Narrowed(c, st), data, k);
  }

  lemma {:induction false} RenormalisedEnd(c: Interval, data: seq<Byte>, k: nat)
    requires Proper(c) && AtEnd(data, k, c)
    ensures AtEnd(data, k + |Renormalised(c).1|, Renormalised(c).0)
    decreases if c.low + c.range == W then 0 else 1, W - c.range
  {
    hide Window;
    if !Settled(c) {
      ShiftProper(c);
      WindowShift(data, k);
      assert At(data, k + 4) == 0;
      RenormalisedEnd(Shifted(c), data, k + 1);
    }
  }

  /** The quotient read from the code value. */
  method Read(c: Interval, code: nat, total: nat) returns (value: nat, range: nat)
    requires 0 < total <= c.range && c.low <= code
    ensures range == c.range / total > 0 && value == (code - c.low) / range
  {
    QuotientPositive(c.range, total);
    range := c.range / total;
    value := (code - c.low) / range;
  }

  // ----- what is left to be read

  /** Before or after the end of the message: the steps, or none. */
  ghost predicate Left(ended: bool, data: seq<Byte>, k: nat, c: Interval, steps: seq<Step>)
  {
    if ended then AtEnd(data, k, c) else ToRead(data, k, c, steps)
  }

  /** The two cases of a context that has something to say. */
  lemma SubSelects(x: Context, v: Byte, code: nat)
    requires SubOk(x) && x.counts[v] > 0
    requires x.escapes + Sum(x.counts, 0, v) <= code < x.escapes + Sum(x.counts, 0, v) + x.counts[v]
    ensures code >= x.escapes && Selects(x.counts, 0, code - x.escapes, v)
  {
    hide Sum;
  }

  lemma SubSpeaks(x: Context, v: Byte)
    requires SubOk(x)
    ensures x.counts[v] > 0 ==> 0 < x.escapes < x.total
    ensures x.counts[v] > 0 ==> SubSteps(x, v) == [Step(x.escapes + Sum(x.counts, 0, v), x.counts[v], x.total)]
    ensures x.counts[v] == 0 && 0 < x.escapes < x.total ==> SubSteps(x, v) == [Step(0, x.escapes, x.total)]
    ensures !(0 < x.escapes < x.total) ==> SubSteps(x, v) == []
    ensures x.counts[v] > 0 ==> StepOk(Step(x.escapes + Sum(x.counts, 0, v), x.counts[v], x.total))
    ensures x.total <= BOTTOM
  {
    SubStepsOk(x, v);
    assert x.counts[v] > 0 ==> StepOk(SubSteps(x, v)[0]);
    SumZero(x.counts, 0, |x.counts|);
    hide Sum;
  }

  lemma RootSelects(x: Context, v: Byte, code: nat)
    requires RootOk(x)
    requires x.escapes + v + Sum(x.counts, 0, v) <= code < x.escapes + v + Sum(x.counts, 0, v) + x.counts[v] + 1
    ensures code >= x.escapes && Selects(x.counts, CONTEXT_SYMBOL_MINIMUM, code - x.escapes, v)
  {
    hide Sum;
  }

  lemma RootSpeaks(x: Context, v: Byte)
    requires RootOk(x)
    ensures RootStep(x, v) == Step(x.escapes + v + Sum(x.counts, 0, v), x.counts[v] + 1, x.total)
    ensures 0 < x.escapes < x.total <= BOTTOM
  {
    hide Sum;
  }

  lemma EmptyLeft(ended: bool, data: seq<Byte>, k: nat, c: Interval, steps: seq<Step>)
    requires Left(ended, data, k, c, [] + steps)
    ensures Left(ended, data, k, c, steps)
  {
    assert [] + steps == steps;
  }

  /** Tries one context below the root: either the byte is found there, or an escape is read, or nothing at all. */
  method DecodeSubcontext(pool: array<Symbol>, subcontext: nat, next0: nat, c0: Interval, code0: nat, data: seq<Byte>,
                          pos0: nat, ghost k0: nat, ghost v: Byte, ghost ended: bool, ghost steps: seq<Step>,
                          ghost l0: Layout, ghost m: Model, ghost name: Name)
    returns (found: bool, bottom: nat, value: Byte, next: nat, c: Interval, code: nat, pos: nat, ghost k: nat,
             ghost l: Layout)
    requires Represents(pool[..], l0, m, next0, {}) && name in l0.index && name != [] && |name| <= 2
    requires next0 < POOL_SIZE && subcontext == l0.index[name]
    requires InSync(c0, code0, pos0, data, k0) && Left(ended, data, k0, c0, SubSteps(m.Get(name), v) + steps)
    modifies pool
    ensures InSync(c, code, pos, data, k) && Left(ended, data, k, c, steps)
    ensures found <==> !ended && m.Get(name).counts[v] > 0
    ensures !found ==> pool[..] == old(pool[..]) && next == next0 && l == l0
    ensures found ==> value == v && AfterVisit(pool[..], l0, l, m, name, v, next, bottom, {})
  {
    hide Represents, Sum, SubOk, Window, Ready, Coded, Next, Emitted, AfterVisit, Selects, SubSteps, StepsOk, ReadTo;
    ghost var x := m.Get(name);
    SubFacts(pool[..], l0, m, next0, {}, name);
    SubSpeaks(x, v);
    found, bottom, value, next, c, code, pos, k, l := false, 0, 0, next0, c0, code0, pos0, k0, l0;
    var escapes, total := pool[subcontext].escapes, pool[subcontext].total;
    if escapes <= 0 || escapes >= total {
      EmptyLeft(ended, data, k, c, steps);
      return;
    }
    ghost var st :=
      if !ended && x.counts[v] > 0 then Step(escapes + Sum(x.counts, 0, v), x.counts[v], total)
      else Step(0, escapes, total);
    ReadHere(ended, data, k0, c0, st, steps);
    var selected, range := Read(c0, code0, total);
    if selected < escapes {
      assert st == Step(0, escapes, total);
      c, code, pos, k := DecodeInterval(c0, st, range, 0, escapes, code0, data, pos0, k0);
      return;
    }
    found := true;
    SubSelects(x, v, selected);
    var under, count;
    bottom, value, under, count, next, l := DecodeSub(pool, subcontext, selected - escapes, next0, v, l0, m, name);
    c, code, pos, k := DecodeInterval(c0, st, range, escapes + under, count, code0, data, pos0, k0);
  }

  /** What reading a step tells, before and after the end. */
  lemma ReadHere(ended: bool, data: seq<Byte>, k: nat, c: Interval, st: Step, rest: seq<Step>)
    requires Ready(c) && StepOk(st) && Left(ended, data, k, c, [st] + rest)
    requires ended ==> st.under == 0
    ensures c.low <= Window(data, k) && 0 < st.total <= c.range && c.range / st.total > 0
    ensures st.under <= (Window(data, k) - c.low) / (c.range / st.total) < st.under + st.count
    ensures Left(ended, data, k + |Emitted(c, st)|, Next(c, st), rest)
  {
    hide Window, Coded, Next, Emitted, AtEnd, ToRead;
    if ended {
      ReadEscape(data, k, c, st);
      EndIsLow(data, k, c);
    } else {
      ReadStep(data, k, c, st, rest);
    }
  }

  lemma EndIsLow(data: seq<Byte>, k: nat, c: Interval)
    requires AtEnd(data, k, c)
    ensures Window(data, k) == c.low
  {
  }

  /** Narrows the interval to a step and reads on. */
  method DecodeInterval(c0: Interval, ghost st: Step, range: nat, under: nat, count: nat, code0: nat, data: seq<Byte>,
                        pos0: nat, ghost k0: nat)
    returns (c: Interval, code: nat, pos: nat, ghost k: nat)
    requires InSync(c0, code0, pos0, data, k0) && StepOk(st)
    requires range == c0.range / st.total && under == st.under && count == st.count
    ensures InSync(c, code, pos, data, k) && c == Next(c0, st) && k == k0 + |Emitted(c0, st)|
  {
    hide Window, Ready, Emitted, Next;
    var low;
    var rest;
    low, rest, code, pos := DecodeStep(c0, st, c0.low, range, under, count, code0, data, pos0, k0);
    c := Interval(low, rest);
    k := k0 + |Emitted(c0, st)|;
  }

  /** Reads the root: the byte, or the end of the message. */
  method DecodeAtRoot(pool: array<Symbol>, next0: nat, c0: Interval, code0: nat, data: seq<Byte>, pos0: nat,
                      ghost k0: nat, ghost v: Byte, ghost ended: bool, ghost steps: seq<Step>, ghost l0: Layout,
                      ghost m: Model)
    returns (found: bool, bottom: nat, value: Byte, next: nat, c: Interval, code: nat, pos: nat, ghost k: nat,
             ghost l: Layout)
    requires Represents(pool[..], l0, m, next0, {}) && next0 < POOL_SIZE
    requires InSync(c0, code0, pos0, data, k0) && Left(ended, data, k0, c0, [RootStep(m.Get([]), v)] + steps)
    modifies pool
    ensures found <==> !ended
    ensures found ==> InSync(c, code, pos, data, k) && Left(ended, data, k, c, steps) && value == v
    ensures found ==> Represents(pool[..], l, Visited(m, [], v), next, {}) && next <= next0 + 1
    ensures found ==> [v] in l.index && bottom == l.index[[v]] && forall s :: s in l0.index ==>
      s in l.index && l.index[s] == l0.index[s]
  {
    hide Represents, Sum, RootOk, Window, Ready, Coded, Next, Emitted, Selects, StepsOk, ReadTo, Visited, RootStep;
    ghost var x := m.Get([]);
    RootFacts(pool[..], l0, m, next0, {});
    RootSpeaks(x, v);
    RootStepOk(x, v);
    found, bottom, value, next, c, code, pos, k, l := false, 0, 0, next0, c0, code0, pos0, k0, l0;
    var escapes, total := pool[0].escapes, pool[0].total;
    ghost var st := if ended then Step(0, escapes, total) else RootStep(x, v);
    ReadHere(ended, data, k0, c0, st, steps);
    var selected, range := Read(c0, code0, total);
    if selected < escapes {
      return;
    }
    found := true;
    RootSelects(x, v, selected);
    UsedIsNext(pool[..], l0, m, next0, {});
    var under, count;
    bottom, value, under, count, next, l := DecodeRoot(pool, selected - escapes, next0, v, l0, m);
    UsedGrows(m, [], v, next0, next);
    assert [] + [v] == [v];
    NoneWith(v);
    RootVisitSettled(pool[..], l, m, v, next, bottom);
    c, code, pos, k := DecodeInterval(c0, st, range, escapes + under, count, code0, data, pos0, k0);
  }

  lemma NoneWith(v: Byte)
    ensures var none: set<Name>, one: Name := {}, [] + [v]; none + {one} == {one}
  {
  }

  // ----- the walk down

  /** v is unknown in every context from h down to, but not including, c. */
  ghost predicate UnknownAbove(m: Model, h: Name, c: Name, v: Byte)
    decreases |h|
  {
    h == c || (|h| > |c| && m.Get(h).counts[v] == 0 && UnknownAbove(m, h[1..], c, v))
  }

  lemma {:induction false} UnknownOn(m: Model, h: Name, c: Name, v: Byte)
    requires UnknownAbove(m, h, c, v) && c != [] && m.Get(c).counts[v] == 0
    ensures UnknownAbove(m, h, c[1..], v)
    decreases |h|
  {
    if h != c {
      UnknownOn(m, h[1..], c, v);
    } else {
      assert UnknownAbove(m, h[1..], c[1..], v);
    }
  }

  lemma {:induction false} UnknownKept(m: Model, d: Name, h: Name, c: Name, v: Byte)
    requires UnknownAbove(m, h, c, v) && |d| > |h|
    ensures UnknownAbove(Visited(m, d, v), h, c, v)
    decreases |h|
  {
    hide Visited;
    VisitsCommute(m, d, h, v);
    if h != c {
      UnknownKept(m, d, h[1..], c, v);
    }
  }

  /** A walk from a shorter context does not see what happened in a longer one, and can be done before it. */
  lemma {:induction false} WalkAfterVisit(m: Model, d: Name, c: Name, v: Byte)
    requires |d| > |c|
    ensures Walked(Visited(m, d, v), c, v).0 == Visited(Walked(m, c, v).0, d, v)
    ensures Walked(Visited(m, d, v), c, v).1 == Walked(m, c, v).1
    decreases |c|
  {
    hide Visited;
    VisitsCommute(m, d, c, v);
    if !Stops(m, c, v) {
      WalkAfterVisit(Visited(m, c, v), d, c[1..], v);
    }
  }

  lemma WalkedSteps(m: Model, c: Name, v: Byte)
    ensures Stops(m, c, v) ==> Walked(m, c, v).1 == VisitSteps(m, c, v)
    ensures !Stops(m, c, v) ==> c != [] && Walked(m, c, v).1 == VisitSteps(m, c, v) + Walked(m, c[1..], v).1
  {
    hide Visited, VisitSteps, Walked;
    WalkStep(m, c, v);
    if !Stops(m, c, v) {
      WalkAfterVisit(m, c, c[1..], v);
    }
  }

  /** The steps of a walk, as seen by the reader of one context below the root. */
  lemma WalkHere(ended: bool, data: seq<Byte>, k: nat, c: Interval, m: Model, name: Name, v: Byte, steps: seq<Step>)
    requires name != [] && Left(ended, data, k, c, Walked(m, name, v).1 + steps)
    ensures m.Get(name).counts[v] > 0 ==> Left(ended, data, k, c, SubSteps(m.Get(name), v) + steps)
    ensures m.Get(name).counts[v] == 0 ==>
      Left(ended, data, k, c, SubSteps(m.Get(name), v) + (Walked(m, name[1..], v).1 + steps))
  {
    hide Walked, SubSteps, AtEnd, ToRead;
    WalkedSteps(m, name, v);
    var here := SubSteps(m.Get(name), v);
    assert here + Walked(m, name[1..], v).1 + steps == here + (Walked(m, name[1..], v).1 + steps);
  }

  lemma WalkAtRoot(m: Model, v: Byte)
    ensures Walked(m, [], v).1 == [RootStep(m.Get([]), v)]
  {
    WalkedSteps(m, [], v);
  }

  /** What has been found: the byte, known in the context name or new at the root, and counted there. */
  ghost predicate Found(p: Pool, l0: Layout, l: Layout, m: Model, name: Name, v: Byte, subcontext: nat, bottom: nat,
                        next: nat)
  {
    && Represents(p, l, Visited(m, name, v), next, {})
    && UnknownAbove(m, m.history, name, v) && Stops(m, name, v)
    && name in l.index && subcontext == l.index[name]
    && name + [v] in l.index && bottom == l.index[name + [v]]
    && (forall s :: s in l0.index ==> s in l.index && l.index[s] == l0.index[s])
  }

  /** Follows the chain of contexts down until the byte is found.  At the end of the message nothing is found. */
  method FindByte(pool: array<Symbol>, predicted: nat, next0: nat, c0: Interval, code0: nat, data: seq<Byte>, pos0: nat,
                  ghost k0: nat, ghost v: Byte, ghost ended: bool, ghost steps: seq<Step>, ghost l0: Layout,
                  ghost m: Model)
    returns (found: bool, subcontext: nat, bottom: nat, value: Byte, next: nat, c: Interval, code: nat, pos: nat,
             ghost k: nat, ghost l: Layout, ghost name: Name)
    requires Represents(pool[..], l0, m, next0, {}) && m.history in l0.index && predicted == l0.index[m.history]
    requires next0 < POOL_SIZE - SUBCONTEXT_ORDER && |m.history| <= 2
    requires InSync(c0, code0, pos0, data, k0) && Left(ended, data, k0, c0, ByteSteps(m, v) + steps)
    modifies pool
    ensures found <==> !ended
    ensures found ==> InSync(c, code, pos, data, k) && Left(ended, data, k, c, steps) && value == v
    ensures found ==> Found(pool[..], l0, l, m, name, v, subcontext, bottom, next) && next <= next0 + 1
  {
    hide Represents, InSync, Left, Walked, SubSteps, RootStep, Visited, UnknownAbove;
    ghost var p0 := pool[..];
    found, subcontext, bottom, value, next, c, code, pos, k, l, name :=
      false, predicted, 0, 0, next0, c0, code0, pos0, k0, l0, m.history;
    UnknownNone(m, v);
    AtRoot(p0, l0, m, next0, {}, name);
    while subcontext != 0
      invariant !found && pool[..] == p0 && next == next0 && l == l0
      invariant name in l0.index && subcontext == l0.index[name] && |name| <= 2 && (subcontext == 0 <==> name == [])
      invariant InSync(c, code, pos, data, k) && Left(ended, data, k, c, Walked(m, name, v).1 + steps)
      invariant ended || UnknownAbove(m, m.history, name, v)
      decreases |name|
    {
      WalkHere(ended, data, k, c, m, name, v, steps);
      ghost var known := m.Get(name).counts[v] > 0;
      ghost var more := if known then steps else Walked(m, name[1..], v).1 + steps;
      found, bottom, value, next, c, code, pos, k, l :=
        DecodeSubcontext(pool, subcontext, next, c, code, data, pos, k, v, ended, more, l0, m, name);
      if found {
        KnownStops(m, name, v);
        FoundKnown(p0, pool[..], l0, l, m, name, v, next0, next, bottom);
        return;
      }
      LinkedAt(p0, l0, m, next0, {}, name);
      subcontext := pool[subcontext].parent;
      if !ended {
        UnknownOn(m, m.history, name, v);
      } else {
        StillAtEnd(data, k, c, more, Walked(m, name[1..], v).1 + steps);
      }
      name := name[1..];
      AtRoot(p0, l0, m, next0, {}, name);
    }
    WalkAtRoot(m, v);
    found, bottom, value, next, c, code, pos, k, l :=
      DecodeAtRoot(pool, next, c, code, data, pos, k, v, ended, steps, l0, m);
    RootStops(m, v);
    assert name + [v] == [v];
  }

  lemma StillAtEnd(data: seq<Byte>, k: nat, c: Interval, a: seq<Step>, b: seq<Step>)
    requires Left(true, data, k, c, a)
    ensures Left(true, data, k, c, b)
  {
  }

  lemma UnknownNone(m: Model, v: Byte)
    ensures UnknownAbove(m, m.history, m.history, v)
  {
  }

  lemma FoundKnown(p0: Pool, p: Pool, l0: Layout, l: Layout, m: Model, name: Name, v: Byte, next0: nat, next: nat,
                   bottom: nat)
    requires Represents(p0, l0, m, next0, {}) && m.Get(name).counts[v] > 0 && name in l0.index
    requires AfterVisit(p, l0, l, m, name, v, next, bottom, {}) && UnknownAbove(m, m.history, name, v)
    ensures Found(p, l0, l, m, name, v, l0.index[name], bottom, next) && next == next0
  {
    hide Represents, Visited, UnknownAbove;
    UsedIsNext(p0, l0, m, next0, {});
    KnownStops(m, name, v);
  }

  // ----- patching

  /** Where the patching has come to: v has been counted in name and in the contexts above d. */
  ghost predicate Patching(p: Pool, l: Layout, m: Model, mk: Model, d: Name, name: Name, v: Byte, next: nat,
                           first: bool, s: Name, predicted: nat, bottom: nat)
  {
    && Represents(p, l, Visited(mk, name, v), next, Waiting(first, s))
    && ChainTo(l, m.history, d, v, first, s, predicted)
    && d in l.index && name in l.index && name + [v] in l.index && bottom == l.index[name + [v]]
    && UnknownAbove(mk, d, name, v) && Stops(mk, name, v)
    && Walked(mk, d, v).0 == Walked(m, m.history, v).0
  }

  lemma PatchNext(p: Pool, p': Pool, l: Layout, l': Layout, m: Model, mk: Model, d: Name, name: Name, v: Byte,
                  next: nat, next': nat, first: bool, s: Name, predicted: nat, predicted': nat, bottom: nat)
    requires Patching(p, l, m, mk, d, name, v, next, first, s, predicted, bottom) && d != name
    requires Represents(p', l', Visited(Visited(mk, name, v), d, v), next', {d + [v]})
    requires forall t :: t in l.index ==> t in l'.index && l'.index[t] == l.index[t]
    requires d + [v] in l'.index && d != [] && d[1..] in l'.index
    requires m.history + [v] in l'.index && predicted' == l'.index[m.history + [v]]
    ensures Patching(p', l', m, Visited(mk, d, v), d[1..], name, v, next', false, d + [v], predicted', bottom)
  {
    hide Represents, Visited, Walked;
    VisitsCommute(mk, name, d, v);
    VisitsCommute(mk, d, name, v);
    UnknownKept(mk, d, d[1..], name, v);
    WalkStep(mk, d, v);
    NameParts(d, v);
  }

  lemma PatchUnknown(p: Pool, l: Layout, m: Model, mk: Model, d: Name, name: Name, v: Byte, next: nat, first: bool,
                     s: Name, predicted: nat, bottom: nat)
    requires Patching(p, l, m, mk, d, name, v, next, first, s, predicted, bottom) && d != name
    ensures d != [] && |d| > |name| && Visited(mk, name, v).Get(d).counts[v] == 0
    ensures Visited(mk, name, v).used == next
  {
    hide Represents, Visited, Walked;
    VisitsCommute(mk, name, d, v);
    UsedIsNext(p, l, Visited(mk, name, v), next, Waiting(first, s));
  }

  lemma PatchDone(p: Pool, l: Layout, m: Model, mk: Model, name: Name, v: Byte, next: nat, first: bool, s: Name,
                  predicted: nat, bottom: nat)
    requires Patching(p, l, m, mk, name, name, v, next, first, s, predicted, bottom)
    ensures Walked(m, m.history, v).0 == Visited(mk, name, v)
    ensures first ==> m.history == name
  {
    hide Represents, Visited, Walked;
    WalkStep(mk, name, v);
  }

  /** Counts v in the contexts above the one it was found in, and completes the chain of links. */
  method PatchContexts(pool: array<Symbol>, predicted0: nat, subcontext: nat, bottom: nat, v: Byte, next0: nat,
                       ghost l0: Layout, ghost lb: Layout, ghost m: Model, ghost name: Name)
    returns (predicted: nat, next: nat, ghost l: Layout)
    requires Found(pool[..], lb, l0, m, name, v, subcontext, bottom, next0)
    requires m.history in l0.index && predicted0 == l0.index[m.history]
    requires |m.history| <= 2 && next0 + 2 <= POOL_SIZE
    modifies pool
    ensures WalkedTo(pool[..], l, m, v, next, predicted)
  {
    hide Represents, Walked, Visited, UnknownAbove, Patching, ChainTo, WalkedTo;
    predicted, next, l := predicted0, next0, l0;
    var patch, first, parentAt := predicted0, true, 0;
    ghost var d: Name, mk: Model, s: Name := m.history, m, [];
    PatchStarts(pool[..], lb, l, m, name, v, subcontext, bottom, next, predicted);
    while patch != subcontext
      invariant Patching(pool[..], l, m, mk, d, name, v, next, first, s, predicted, bottom)
      invariant d in l.index && patch == l.index[d] && name in l.index && subcontext == l.index[name]
      invariant !first ==> s in l.index && parentAt == l.index[s]
      invariant |d| <= 2 && next + |d| <= POOL_SIZE
      decreases |d|
    {
      ghost var before := pool[..];
      PatchUnknown(before, l, m, mk, d, name, v, next, first, s, predicted, bottom);
      PatchFacts(before, l, m, mk, d, name, v, next, first, s, predicted, bottom);
      ghost var mv := Visited(mk, name, v);
      var sym, under, count, next', predicted';
      ghost var l';
      sym, under, count, next', l' := VisitSub(pool, patch, v, next, l, mv, d, Waiting(first, s));
      UsedGrows(mv, d, v, next, next');
      predicted' := LinkChain(pool, first, parentAt, sym, predicted, l, l', m.history, mv, d, v, next', s);
      NextContext(pool[..], l', Visited(mv, d, v), next', d, v);
      PatchNext(before, pool[..], l, l', m, mk, d, name, v, next, next', first, s, predicted, predicted', bottom);
      patch := pool[patch].parent;
      first, parentAt := false, sym;
      s, mk := d + [v], Visited(mk, d, v);
      d := d[1..];
      predicted, next, l := predicted', next', l';
    }
    PatchFacts(pool[..], l, m, mk, d, name, v, next, first, s, predicted, bottom);
    SameContext(pool[..], l, Visited(mk, name, v), next, Waiting(first, s), d, name);
    PatchDone(pool[..], l, m, mk, name, v, next, first, s, predicted, bottom);
    predicted := CloseChain(pool, first, parentAt, bottom, predicted, l, m.history, Visited(mk, name, v), name, v, next,
      s);
    PatchedTo(pool[..], l, m, v, next, predicted, Visited(mk, name, v));
  }

  lemma PatchStarts(p: Pool, lb: Layout, l: Layout, m: Model, name: Name, v: Byte, subcontext: nat, bottom: nat,
                    next: nat, predicted: nat)
    requires Found(p, lb, l, m, name, v, subcontext, bottom, next) && m.history in l.index
    ensures Patching(p, l, m, m, m.history, name, v, next, true, [], predicted, bottom)
  {
    hide Represents, Walked, Visited, UnknownAbove;
  }

  lemma PatchFacts(p: Pool, l: Layout, m: Model, mk: Model, d: Name, name: Name, v: Byte, next: nat, first: bool,
                   s: Name, predicted: nat, bottom: nat)
    requires Patching(p, l, m, mk, d, name, v, next, first, s, predicted, bottom)
    ensures Represents(p, l, Visited(mk, name, v), next, Waiting(first, s))
    ensures ChainTo(l, m.history, d, v, first, s, predicted)
    ensures d in l.index && name in l.index && name + [v] in l.index && bottom == l.index[name + [v]]
  {
    hide Represents, Walked, Visited, UnknownAbove, ChainTo, Stops;
  }

  lemma SameContext(p: Pool, l: Layout, m: Model, next: nat, pending: set<Name>, c: Name, d: Name)
    requires Represents(p, l, m, next, pending) && c in l.index && d in l.index && l.index[c] == l.index[d]
    ensures c == d
  {
    hide Represents;
    RepresentsSize(p, l, m, next, pending);
  }

  lemma PatchedTo(p: Pool, l: Layout, m: Model, v: Byte, next: nat, predicted: nat, m': Model)
    requires m' == Walked(m, m.history, v).0 && Represents(p, l, m', next, {})
    requires m.history + [v] in l.index && predicted == l.index[m.history + [v]]
    ensures WalkedTo(p, l, m, v, next, predicted)
  {
    hide Represents, Walked;
  }

  /** The symbol that was found first becomes the last link, or the prediction. */
  method CloseChain(pool: array<Symbol>, first: bool, parentAt: nat, bottom: nat, predicted0: nat, ghost l: Layout,
                    ghost h: Name, ghost mk: Model, ghost c: Name, ghost v: Byte, ghost next: nat, ghost s: Name)
    returns (predicted: nat)
    requires Represents(pool[..], l, mk, next, Waiting(first, s)) && ChainTo(l, h, c, v, first, s, predicted0)
    requires c + [v] in l.index && bottom == l.index[c + [v]]
    requires !first ==> parentAt == l.index[s]
    modifies pool
    ensures Represents(pool[..], l, mk, next, {})
    ensures h + [v] in l.index && predicted == l.index[h + [v]]
  {
    hide Represents;
    predicted := predicted0;
    if first {
      predicted := bottom;
    } else {
      Link(pool, parentAt, bottom, l, mk, next, {s}, s);
      assert {s} - {s} == {};
    }
  }

  // ----- whole messages

  /** What has been decoded, and what is still to come. */
  ghost predicate DecodedTo(message: seq<Byte>, a: seq<Byte>, data: seq<Byte>, k: nat, c: Interval)
  {
    && a <= message && ToRead(data, k, c, Steps(SeenAll(Fresh(), a), message[|a|..]))
  }

  lemma DecodedStart(message: seq<Byte>)
    ensures DecodedTo(message, [], Compressed(message), 0, START)
    ensures SeenAll(Fresh(), []) == Fresh()
  {
    hide Fresh, Ready, Coded, Steps;
    StartReady();
    FreshOk();
    SeenAllOk(Fresh(), message);
    assert message[0..] == message;
    assert Compressed(message)[0..] == Compressed(message);
    assert SeenAll(Fresh(), []) == Fresh();
  }

  lemma DecodedByte(message: seq<Byte>, a: seq<Byte>, data: seq<Byte>, k: nat, c: Interval, v: Byte, rest: seq<Byte>)
    requires DecodedTo(message, a, data, k, c) && message[|a|..] == [v] + rest
    ensures ToRead(data, k, c, ByteSteps(SeenAll(Fresh(), a), v) + Steps(Seen(SeenAll(Fresh(), a), v), rest))
    ensures rest == message[|a| + 1..] && a + [v] <= message && v == message[|a|]
    ensures SeenAll(Fresh(), a + [v]) == Seen(SeenAll(Fresh(), a), v)
  {
    hide ToRead, Seen, ByteSteps, Fresh;
    StepsNext(Fresh(), a, v, []);
    assert ([v] + rest)[0] == v && ([v] + rest)[1..] == rest;
    assert message[|a|..][1..] == message[|a| + 1..];
    assert message[|a|] == message[|a|..][0];
    assert message == a + message[|a|..];
  }

  lemma DecodedAll(message: seq<Byte>, a: seq<Byte>, data: seq<Byte>, k: nat, c: Interval)
    requires DecodedTo(message, a, data, k, c) && |a| == |message|
    ensures a == message && Left(true, data, k, c, [])
  {
    hide ToRead, SeenAll, AtEnd;
    assert message[|a|..] == [];
    ReadNothing(data, k, c);
  }

  /** One byte of the message, or its end. */
  method DecodeByte(pool: array<Symbol>, predicted0: nat, order0: nat, next0: nat, c0: Interval, code0: nat,
                    data: seq<Byte>, pos0: nat, ghost k0: nat, ghost l0: Layout, ghost message: seq<Byte>,
                    ghost a: seq<Byte>)
    returns (found: bool, value: Byte, predicted: nat, next: nat, c: Interval, code: nat, pos: nat, ghost k: nat,
             ghost l: Layout)
    requires Between(pool[..], l0, SeenAll(Fresh(), a), predicted0, order0, next0)
    requires InSync(c0, code0, pos0, data, k0) && DecodedTo(message, a, data, k0, c0)
    modifies pool
    ensures found <==> |a| < |message|
    ensures !found ==> a == message
    ensures found ==>
      value == message[|a|] && InSync(c, code, pos, data, k) && DecodedTo(message, a + [value], data, k, c)
    ensures found ==> WalkedTo(pool[..], l, SeenAll(Fresh(), a), value, next, predicted)
  {
    hide Represents, InSync, ToRead, AtEnd, Walked, SeenAll, Seen, Fresh, ByteSteps, Steps, WalkedTo, ModelOk, Found;
    ghost var m := SeenAll(Fresh(), a);
    SeenAllFresh(a);
    HistoryShort(m);
    ghost var ended := |a| >= |message|;
    ghost var v: Byte, steps: seq<Step> := 0, [];
    if ended {
      DecodedAll(message, a, data, k0, c0);
    } else {
      v := message[|a|];
      ghost var rest := message[|a| + 1..];
      assert message[|a|..] == [v] + rest;
      DecodedByte(message, a, data, k0, c0, v, rest);
      steps := Steps(Seen(m, v), rest);
    }
    var subcontext, bottom;
    ghost var lb, name;
    found, subcontext, bottom, value, next, c, code, pos, k, lb, name :=
      FindByte(pool, predicted0, next0, c0, code0, data, pos0, k0, v, ended, steps, l0, m);
    predicted, l := predicted0, l0;
    if found {
      FoundFacts(pool[..], l0, lb, m, name, v, subcontext, bottom, next);
      predicted, next, l := PatchContexts(pool, predicted0, subcontext, bottom, value, next, lb, l0, m, name);
    }
  }

  lemma HistoryShort(m: Model)
    requires ModelOk(m)
    ensures |m.history| <= 2
  {
    hide RootOk, SubOk;
  }

  lemma FoundFacts(p: Pool, l0: Layout, l: Layout, m: Model, name: Name, v: Byte, subcontext: nat, bottom: nat,
                   next: nat)
    requires Found(p, l0, l, m, name, v, subcontext, bottom, next)
    ensures forall s :: s in l0.index ==> s in l.index && l.index[s] == l0.index[s]
  {
    hide Represents, UnknownAbove, Stops, Visited;
  }

  /**
   Decompresses what the compressor has made of a message.  The result is the number of bytes written, or 0 if
   there is not enough room.
   */
  method RangeCoderDecompress(pool: array<Symbol>, inData: seq<Byte>, outData: array<Byte>, ghost message: seq<Byte>)
    returns (n: nat)
    requires pool.Length == POOL_SIZE
    requires inData == Compressed(message)
    modifies pool, outData
    ensures if |message| <= outData.Length then n == |message| && outData[..n] == message else n == 0
  {
    hide Represents, InSync, DecodedTo, SeenAll, Seen, Fresh, Between, WalkedTo, ModelOk, Compressed, Window, ReadTo;
    EmptyMessage(message);
    if inData == [] {
      return 0;
    }
    CreateRootContext(pool);
    var predicted: nat, order: nat, next: nat := 0, 0, 1;
    StartBetween(pool[..]);
    DecodedStart(message);
    var c, pos: nat := START, 0;
    var code, inPos := Seed(inData);
    ghost var k: nat, l, a: seq<Byte> := 0, StartLayout(), [];
    SyncStarts(inData, code, inPos);
    assert outData[..0] == [];
    while true
      invariant a <= message && pos == |a| <= outData.Length && outData[..pos] == a
      invariant InSync(c, code, inPos, inData, k) && DecodedTo(message, a, inData, k, c)
      invariant Between(pool[..], l, SeenAll(Fresh(), a), predicted, order, next)
      decreases |message| - |a|
    {
      BetweenOrder(pool[..], l, SeenAll(Fresh(), a), predicted, order, next);
      var found, value, predicted', next';
      ghost var l';
      found, value, predicted', next', c, code, inPos, k, l' :=
        DecodeByte(pool, predicted, order, next, c, code, inData, inPos, k, l, message, a);
      if !found {
        return pos;
      }
      if pos >= outData.Length {
        return 0;
      }
      outData[pos] := value;
      assert outData[..pos + 1] == a + [value];
      pos := pos + 1;
      SeenAllFresh(a);
      StepsNext(Fresh(), a, value, []);
      predicted, order, next, l := NextPrediction(pool, predicted', order, next', l', SeenAll(Fresh(), a), value);
      a := a + [value];
    }
  }

  lemma BetweenOrder(p: Pool, l: Layout, m: Model, predicted: nat, order: nat, next: nat)
    requires Between(p, l, m, predicted, order, next)
    ensures order == |m.history|
  {
    hide Represents;
  }

  lemma SyncStarts(data: seq<Byte>, code: nat, pos: nat)
    requires code == Window(data, 0) && pos == ReadTo(data, 0)
    ensures InSync(START, code, pos, data, 0)
  {
    StartReady();
    hide Window;
  }

  /** The first byte of a message is coded above the low end, so only the empty message gives no output. */
  lemma EmptyMessage(message: seq<Byte>)
    ensures Compressed(message) == [] <==> message == []
  {
    StartReady();
    FreshOk();
    SeenAllOk(Fresh(), message);
    if message == [] {
      assert Compressed(message) == Flushed(0);
    } else {
      hide Ready, Coded, Window;
      var steps := Steps(Fresh(), message);
      FirstStep(message);
      CodedHolds(START, steps, Compressed(message), 0);
      assert Compressed(message)[0..] == Compressed(message);
      Parts(START.range, steps[0].total, steps[0].under, steps[0].count);
      MulLess(1, steps[0].under, START.range / steps[0].total);
      ZeroWindow();
    }
  }

  lemma ZeroWindow()
    ensures Window([], 0) == 0
  {
  }

  lemma FirstStep(message: seq<Byte>)
    requires message != []
    ensures ModelOk(Fresh()) && StepsOk(Steps(Fresh(), message)) && Steps(Fresh(), message) != []
    ensures Steps(Fresh(), message)[0].under >= 1 && Steps(Fresh(), message)[0].total <= BOTTOM
  {
    FreshOk();
    SeenAllOk(Fresh(), message);
    WalkAtRoot(Fresh(), message[0]);
    assert Fresh().Get([]) == FreshRoot();
    hide Seen, Sum, Walked;
    assert ByteSteps(Fresh(), message[0]) == [RootStep(FreshRoot(), message[0])];
  }

  /** Compressing and then decompressing gives back the concatenated input, if there was room for both. */
  method CompressThenDecompress(pool: array<Symbol>, otherPool: array<Symbol>, inBuffers: seq<seq<Byte>>, inLimit: nat,
                                packed: array<Byte>, outData: array<Byte>)
    returns (n: nat, r: nat)
    requires pool.Length == POOL_SIZE && otherPool.Length == POOL_SIZE && packed != outData
    requires forall i :: 0 < i < |inBuffers| ==> inBuffers[i] != []
    modifies pool, otherPool, packed, outData
    ensures n > 0 <==> inLimit > 0 && Concat(inBuffers) != [] && |Compressed(Concat(inBuffers))| <= packed.Length
    ensures n > 0 && |Concat(inBuffers)| <= outData.Length ==>
      r == |Concat(inBuffers)| && outData[..r] == Concat(inBuffers)
    ensures n > 0 && |Concat(inBuffers)| > outData.Length ==> r == 0
  {
    hide Compressed;
    EmptyMessage(Concat(inBuffers));
    n := RangeCoderCompress(pool, inBuffers, inLimit, packed);
    r := 0;
    if n > 0 {
      r := RangeCoderDecompress(otherPool, packed[..n], outData, Concat(inBuffers));
    }
  }
}
