/** The order-2 context model as a mathematical object: what is counted, and which intervals are coded. */
module PpmModel {
  import opened Basics
  import opened RangeCoder

  const CONTEXT_SYMBOL_DELTA: nat := 3
  const CONTEXT_SYMBOL_MINIMUM: nat := 1
  const CONTEXT_ESCAPE_MINIMUM: nat := 1
  const SUBCONTEXT_ORDER: nat := 2
  const SUBCONTEXT_SYMBOL_DELTA: nat := 2
  const SUBCONTEXT_ESCAPE_DELTA: nat := 5
  const POOL_SIZE: nat := 4096
  const TOTAL_MAX: nat := BOTTOM - 0x100

  type Counts = s: seq<nat> | |s| == 256 witness seq(256, _ => 0)

  /** How often each byte has been seen in one context, with 0 for a byte that has no symbol there. */
  datatype Context = Context(counts: Counts, escapes: nat, total: nat)

  /** The number of occurrences of bytes from lo up to hi. */
  function Sum(counts: Counts, lo: nat, hi: nat): nat
    requires hi <= 256
    decreases hi
  {
    if lo >= hi then 0 else Sum(counts, lo, hi - 1) + counts[hi - 1]
  }

  function Whole(counts: Counts): nat
  {
    Sum(counts, 0, |counts|)
  }

  lemma {:induction false} SumSplit(counts: Counts, lo: nat, mid: nat, hi: nat)
    requires lo <= mid <= hi <= 256
    ensures Sum(counts, lo, hi) == Sum(counts, lo, mid) + Sum(counts, mid, hi)
    decreases hi
  {
    if mid < hi {
      SumSplit(counts, lo, mid, hi - 1);
    }
  }

  lemma {:induction false} SumZero(a: Counts, lo: nat, hi: nat)
    requires hi <= 256
    ensures Sum(a, lo, hi) == 0 <==> forall i :: lo <= i < hi ==> a[i] == 0
    decreases hi
  {
    if lo < hi {
      SumZero(a, lo, hi - 1);
    }
  }

  function With(a: Counts, v: Byte, n: nat): Counts
  {
    a[v := n]
  }

  lemma {:induction false} SumWith(a: Counts, v: Byte, n: nat, lo: nat, hi: nat)
    requires hi <= 256
    ensures Sum(With(a, v, n), lo, hi) + (if lo <= v < hi then a[v] else 0)
         == Sum(a, lo, hi) + (if lo <= v < hi then n else 0)
    decreases hi
  {
    if lo < hi {
      SumWith(a, v, n, lo, hi - 1);
    }
  }

  function HalfUp(n: nat): nat
  {
    n - n / 2
  }

  function Halves(a: Counts): Counts
  {
    seq(256, i requires 0 <= i < 256 => HalfUp(a[i]))
  }

  lemma {:induction false} SumHalves(a: Counts, lo: nat, hi: nat)
    requires lo <= hi <= 256
    ensures Sum(Halves(a), lo, hi) <= Sum(a, lo, hi)
    ensures 2 * Sum(Halves(a), lo, hi) <= Sum(a, lo, hi) + (hi - lo)
    decreases hi
  {
    if lo < hi {
      SumHalves(a, lo, hi - 1);
    }
  }

  function NoCounts(): Counts { seq(256, _ => 0) }

  function Empty(): Context { Context(NoCounts(), 0, 0) }

  function FreshRoot(): Context
  {
    Context(NoCounts(), CONTEXT_ESCAPE_MINIMUM, CONTEXT_ESCAPE_MINIMUM + 256 * CONTEXT_SYMBOL_MINIMUM)
  }

  /** The totals of a context add up and fit their fields. */
  ghost predicate ContextOk(c: Context, minimum: nat)
    requires minimum <= 1
  {
    && (forall i :: 0 <= i < 256 ==> c.counts[i] <= 253 - minimum)
    && c.total == c.escapes + 256 * minimum + Whole(c.counts)
    && c.total <= TOTAL_MAX
  }

  ghost predicate SubOk(c: Context)
  {
    ContextOk(c, 0) && (c.escapes == 0 <==> Whole(c.counts) == 0)
  }

  ghost predicate RootOk(c: Context)
  {
    ContextOk(c, 1) && c.escapes >= 1
  }

  // ----- updates

  /** Halves all counts, rounding up. */
  function Rescaled(c: Context, minimum: nat): Context
  {
    var e := HalfUp(c.escapes);
    Context(Halves(c.counts), e, Whole(Halves(c.counts)) + e + 256 * minimum)
  }

  /** A context below the root after the byte v. */
  function SubBumped(c: Context, v: Byte): Context
  {
    var escape := if c.counts[v] == 0 then SUBCONTEXT_ESCAPE_DELTA else 0;
    Context(With(c.counts, v, c.counts[v] + SUBCONTEXT_SYMBOL_DELTA), c.escapes + escape,
            c.total + escape + SUBCONTEXT_SYMBOL_DELTA)
  }

  function SubUpdated(c: Context, v: Byte): Context
  {
    var d := SubBumped(c, v);
    if c.counts[v] > 0xFF - 2 * SUBCONTEXT_SYMBOL_DELTA || d.total > TOTAL_MAX then Rescaled(d, 0) else d
  }

  function RootBumped(c: Context, v: Byte): Context
  {
    Context(With(c.counts, v, c.counts[v] + CONTEXT_SYMBOL_DELTA), c.escapes, c.total + CONTEXT_SYMBOL_DELTA)
  }

  function RootUpdated(c: Context, v: Byte): Context
  {
    var d := RootBumped(c, v);
    if c.counts[v] + CONTEXT_SYMBOL_MINIMUM > 0xFF - 2 * CONTEXT_SYMBOL_DELTA + CONTEXT_SYMBOL_MINIMUM
       || d.total > TOTAL_MAX
    then Rescaled(d, CONTEXT_SYMBOL_MINIMUM) else d
  }

  lemma RescaledOk(c: Context, minimum: nat)
    requires minimum <= 1 && c.total == c.escapes + 256 * minimum + Whole(c.counts) <= TOTAL_MAX + 7
    requires forall i :: 0 <= i < 256 ==> c.counts[i] <= 255
    ensures ContextOk(Rescaled(c, minimum), minimum)
    ensures c.escapes > 0 ==> Rescaled(c, minimum).escapes > 0
    ensures c.escapes == 0 ==> Rescaled(c, minimum).escapes == 0
    ensures Whole(Rescaled(c, minimum).counts) == 0 <==> Whole(c.counts) == 0
  {
    SumHalves(c.counts, 0, |c.counts|);
    SumZero(c.counts, 0, |c.counts|);
    SumZero(Halves(c.counts), 0, |Halves(c.counts)|);
    if Whole(Halves(c.counts)) == 0 {
      forall i | 0 <= i < 256 ensures c.counts[i] == 0 {
        assert Halves(c.counts)[i] == 0;
      }
    }
  }

  lemma SubBumpedOk(c: Context, v: Byte)
    requires SubOk(c)
    ensures var d := SubBumped(c, v);
      && d.total == d.escapes + Whole(d.counts) <= TOTAL_MAX + 7
      && d.escapes > 0 && Whole(d.counts) > 0
      && d.counts == With(c.counts, v, c.counts[v] + SUBCONTEXT_SYMBOL_DELTA)
  {
    hide Sum;
    var n := c.counts[v] + SUBCONTEXT_SYMBOL_DELTA;
    SumWith(c.counts, v, n, 0, |c.counts|);
    SumZero(With(c.counts, v, n), 0, |c.counts|);
    SumZero(c.counts, 0, |c.counts|);
    assert With(c.counts, v, n)[v] > 0;
  }

  lemma SubUpdatedOk(c: Context, v: Byte)
    requires SubOk(c)
    ensures SubOk(SubUpdated(c, v))
    ensures SubUpdated(c, v).counts[v] > 0
    ensures forall u: Byte :: u != v ==> (SubUpdated(c, v).counts[u] > 0 <==> c.counts[u] > 0)
  {
    hide Whole, Sum, SubBumped;
    var d := SubBumped(c, v);
    SubBumpedOk(c, v);
    RescaledOk(d, 0);
  }

  lemma RootUpdatedOk(c: Context, v: Byte)
    requires RootOk(c)
    ensures RootOk(RootUpdated(c, v))
    ensures RootUpdated(c, v).counts[v] > 0
    ensures forall u: Byte :: u != v ==> (RootUpdated(c, v).counts[u] > 0 <==> c.counts[u] > 0)
    ensures RootBumped(c, v).total <= TOTAL_MAX + 7
    ensures RootBumped(c, v).total == RootBumped(c, v).escapes + 256 + Whole(RootBumped(c, v).counts)
  {
    hide Sum;
    var d := RootBumped(c, v);
    SumWith(c.counts, v, c.counts[v] + CONTEXT_SYMBOL_DELTA, 0, |c.counts|);
    SumZero(d.counts, 0, |d.counts|);
    assert d.counts[v] > 0;
    RescaledOk(d, 1);
  }

  // ----- coded steps

  function SubSteps(c: Context, v: Byte): seq<Step>
  {
    if c.counts[v] > 0 then [Step(c.escapes + Sum(c.counts, 0, v), c.counts[v], c.total)]
    else if 0 < c.escapes < c.total then [Step(0, c.escapes, c.total)]
    else []
  }

  function RootStep(c: Context, v: Byte): Step
  {
    Step(c.escapes + v * CONTEXT_SYMBOL_MINIMUM + Sum(c.counts, 0, v), c.counts[v] + CONTEXT_SYMBOL_MINIMUM, c.total)
  }

  lemma SubStepsOk(c: Context, v: Byte)
    requires SubOk(c)
    ensures StepsOk(SubSteps(c, v))
  {
    SumSplit(c.counts, 0, v, |c.counts|);
    SumSplit(c.counts, v, v + 1, |c.counts|);
  }

  lemma RootStepOk(c: Context, v: Byte)
    requires RootOk(c)
    ensures StepOk(RootStep(c, v))
  {
    SumSplit(c.counts, 0, v, |c.counts|);
    SumSplit(c.counts, v, v + 1, |c.counts|);
  }

  // ----- the whole model

  /** A context is named by the bytes it follows, at most two. */
  type Name = seq<Byte>

  /** All contexts, the bytes just coded, and the number of symbols in use. */
  datatype Model = Model(contexts: map<Name, Context>, history: Name, used: nat) {

    function Get(c: Name): Context
    {
      if c in contexts then contexts[c] else Empty()
    }
  }

  function Fresh(): Model { Model(map[[] := FreshRoot()], [], 1) }

  /** The model after the byte v has been counted in the context c alone. */
  function Visited(m: Model, c: Name, v: Byte): Model
  {
    var x := m.Get(c);
    m.(contexts := m.contexts[c := if c == [] then RootUpdated(x, v) else SubUpdated(x, v)],
       used := m.used + if x.counts[v] == 0 then 1 else 0)
  }

  /** What is coded for v in the context c. */
  function VisitSteps(m: Model, c: Name, v: Byte): seq<Step>
  {
    if c == [] then [RootStep(m.Get(c), v)] else SubSteps(m.Get(c), v)
  }

  /** The walk down from longer to shorter contexts ends where v is known, or at the root. */
  predicate Stops(m: Model, c: Name, v: Byte)
  {
    c == [] || m.Get(c).counts[v] > 0
  }

  /** Sees v in the context c and, as long as v is new, in the shorter contexts below it. */
  function Walked(m: Model, c: Name, v: Byte): (Model, seq<Step>)
    decreases |c|
  {
    if Stops(m, c, v) then (Visited(m, c, v), VisitSteps(m, c, v))
    else
      var (m', steps) := Walked(Visited(m, c, v), c[1..], v);
      (m', VisitSteps(m, c, v) + steps)
  }

  function NextHistory(h: Name, v: Byte): Name
  {
    if |h| >= SUBCONTEXT_ORDER then h[1..] + [v] else h + [v]
  }

  /** The model after one byte.  A full symbol pool is cleared. */
  function Seen(m: Model, v: Byte): Model
  {
    var m1 := Walked(m, m.history, v).0;
    if m1.used >= POOL_SIZE - SUBCONTEXT_ORDER then Fresh() else m1.(history := NextHistory(m.history, v))
  }

  function ByteSteps(m: Model, v: Byte): seq<Step>
  {
    Walked(m, m.history, v).1
  }

  /** All steps coded for a message. */
  function Steps(m: Model, message: seq<Byte>): seq<Step>
    decreases |message|
  {
    if message == [] then [] else ByteSteps(m, message[0]) + Steps(Seen(m, message[0]), message[1..])
  }

  ghost predicate ModelOk(m: Model)
  {
    && [] in m.contexts && RootOk(m.contexts[[]])
    && (forall c :: c in m.contexts && c != [] ==> SubOk(m.contexts[c]))
    && |m.history| <= SUBCONTEXT_ORDER
  }

  lemma ZeroSum(counts: Counts)
    requires forall i :: 0 <= i < 256 ==> counts[i] == 0
    ensures Whole(counts) == 0
  {
    SumZero(counts, 0, |counts|);
  }

  lemma NothingCounted()
    ensures Whole(NoCounts()) == 0
    ensures forall i :: 0 <= i < 256 ==> NoCounts()[i] == 0
  {
    hide Whole, Sum;
    ZeroSum(NoCounts());
  }

  lemma EmptyOk()
    ensures SubOk(Empty())
    ensures RootOk(FreshRoot())
  {
    hide Whole, Sum, NoCounts;
    NothingCounted();
  }

  lemma FreshOk()
    ensures ModelOk(Fresh())
  {
    hide RootOk, SubOk, FreshRoot;
    EmptyOk();
  }

  lemma VisitedOk(m: Model, c: Name, v: Byte)
    requires ModelOk(m)
    ensures ModelOk(Visited(m, c, v)) && StepsOk(VisitSteps(m, c, v))
    ensures Visited(m, c, v).Get(c).counts[v] > 0
    ensures forall u: Byte :: u != v ==> (Visited(m, c, v).Get(c).counts[u] > 0 <==> m.Get(c).counts[u] > 0)
  {
    EmptyOk();
    var x := m.Get(c);
    hide SubUpdated, RootUpdated, SubSteps, RootStep, SubOk, RootOk;
    if c == [] {
      RootUpdatedOk(x, v);
      RootStepOk(x, v);
    } else {
      SubUpdatedOk(x, v);
      SubStepsOk(x, v);
    }
  }

  lemma {:induction false} WalkedOk(m: Model, c: Name, v: Byte)
    requires ModelOk(m)
    ensures ModelOk(Walked(m, c, v).0)
    ensures StepsOk(Walked(m, c, v).1)
    ensures Walked(m, c, v).0.history == m.history
    decreases |c|
  {
    VisitedOk(m, c, v);
    hide ModelOk, VisitSteps, SubUpdated, RootUpdated;
    if !Stops(m, c, v) {
      WalkedOk(Visited(m, c, v), c[1..], v);
    }
  }

  /** Counting a byte in two different contexts can be done in either order. */
  lemma VisitsCommute(m: Model, c: Name, d: Name, v: Byte)
    requires c != d
    ensures Visited(Visited(m, c, v), d, v) == Visited(Visited(m, d, v), c, v)
    ensures Visited(m, c, v).Get(d) == m.Get(d)
  {
    hide SubUpdated, RootUpdated;
    assert Visited(Visited(m, c, v), d, v).contexts == Visited(Visited(m, d, v), c, v).contexts;
  }

  lemma SeenOk(m: Model, v: Byte)
    requires ModelOk(m)
    ensures ModelOk(Seen(m, v)) && StepsOk(ByteSteps(m, v))
  {
    WalkedOk(m, m.history, v);
    FreshOk();
    hide RootOk, SubOk, Walked;
  }

  lemma {:induction false} StepsAreOk(m: Model, message: seq<Byte>)
    requires ModelOk(m)
    ensures StepsOk(Steps(m, message))
    decreases |message|
  {
    if message != [] {
      SeenOk(m, message[0]);
      StepsAreOk(Seen(m, message[0]), message[1..]);
    }
  }
}
