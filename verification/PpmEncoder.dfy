/** The compressor: one byte at a time down the chain of contexts, and the loop over all input buffers. */
module PpmEncoder {
  import opened Basics
  import opened RangeCoder
  import opened PpmModel
  import opened SymbolPool
  import opened PpmPool
  import opened PpmLayout
  import opened PpmVisit
  import opened PpmChain
  import opened PpmMessage

  lemma OneStep(c: Interval, s: Step)
    requires Ready(c) && StepOk(s)
    ensures StepsOk([s]) && Sent(c, [s]) == Emitted(c, s) && After(c, [s]) == Next(c, s)
  {
    hide Next, Emitted;
    assert [s][1..] == [];
    assert Sent(Next(c, s), []) == [];
  }

  /** Codes what a context below the root has to say about v. */
  method EncodeSub(c: Interval, escapes: nat, under: nat, count: nat, total: nat, outData: array<Byte>, outPos: nat,
                   ghost x: Context, ghost v: Byte)
    returns (ok: bool, d: Interval, pos: nat)
    requires Ready(c) && SubOk(x) && outPos <= outData.Length
    requires escapes == x.escapes && total == x.total && under == Sum(x.counts, 0, v) && count == x.counts[v]
    modifies outData
    ensures StepsOk(SubSteps(x, v))
    ensures ok <==> outPos + |Sent(c, SubSteps(x, v))| <= outData.Length
    ensures ok ==> d == After(c, SubSteps(x, v)) && pos == outPos + |Sent(c, SubSteps(x, v))|
    ensures ok ==> outData[..pos] == old(outData[..outPos]) + Sent(c, SubSteps(x, v))
  {
    hide Next, Emitted, Sum, SubOk, Sent, After;
    SubStepsOk(x, v);
    NoStep(c);
    ok, d, pos := true, c, outPos;
    if count > 0 {
      assert StepOk(SubSteps(x, v)[0]);
      OneStep(c, Step(escapes + under, count, total));
      ok, d, pos := EncodeStep(c, Step(escapes + under, count, total), outData, outPos);
    } else if escapes > 0 && escapes < total {
      assert StepOk(SubSteps(x, v)[0]);
      OneStep(c, Step(0, escapes, total));
      ok, d, pos := EncodeStep(c, Step(0, escapes, total), outData, outPos);
    }
  }

  /** The bytes written so far, and the interval reached. */
  ghost predicate Written(outData: seq<Byte>, start: seq<Byte>, from: Interval, steps: seq<Step>, c: Interval)
    requires Ready(from) && StepsOk(steps)
  {
    outData == start + Sent(from, steps) && c == After(from, steps)
  }

  /** One more run of steps has been written. */
  lemma WrittenMore(now: seq<Byte>, next: seq<Byte>, start: seq<Byte>, from: Interval, a: seq<Step>, c: Interval,
                    b: seq<Step>, d: Interval)
    requires Ready(from) && StepsOk(a) && StepsOk(b) && Written(now, start, from, a, c)
    requires next == now + Sent(c, b) && d == After(c, b)
    ensures StepsOk(a + b) && Written(next, start, from, a + b, d)
  {
    hide Sent, After;
    CodedAppend(from, a, b);
  }

  /** If a run does not fit, no longer run fits. */
  lemma NoRoom(start: nat, from: Interval, a: seq<Step>, b: seq<Step>, rest: seq<Step>, c: Interval, room: nat)
    requires Ready(from) && StepsOk(a) && StepsOk(b) && StepsOk(rest) && c == After(from, a)
    requires start + |Sent(from, a)| + |Sent(c, b)| > room
    ensures StepsOk(a + (b + rest)) && start + |Sent(from, a + (b + rest))| > room
  {
    hide Sent, After;
    StepsAppend(b, rest);
    CodedAppend(from, a, b + rest);
    CodedAppend(c, b, rest);
  }

  /**
   Where the walk has come to: v has been counted in the contexts above c, and the last new symbol waits for its link.
   */
  ghost predicate OnTheWay(p: Pool, l: Layout, m: Model, mk: Model, c: Name, v: Byte, next: nat, first: bool, s: Name,
                           predicted: nat)
  {
    && Represents(p, l, mk, next, Waiting(first, s))
    && c in l.index && |c| <= 2 && mk.history == m.history
    && Walked(mk, c, v).0 == Walked(m, m.history, v).0
    && (first ==> mk == m) && ChainTo(l, m.history, c, v, first, s, predicted)
  }

  /** The walk goes on in the next shorter context. */
  lemma WayOn(p: Pool, l0: Layout, l: Layout, m: Model, mk: Model, c: Name, v: Byte, next: nat, first: bool, s0: Name,
              predicted0: nat, predicted: nat, before: Pool, next0: nat)
    requires OnTheWay(before, l0, m, mk, c, v, next0, first, s0, predicted0)
    requires c != [] && mk.Get(c).counts[v] == 0
    requires Represents(p, l, Visited(mk, c, v), next, {c + [v]})
    requires c + [v] in l.index && c[1..] in l.index
    requires m.history + [v] in l.index && predicted == l.index[m.history + [v]]
    ensures OnTheWay(p, l, m, Visited(mk, c, v), c[1..], v, next, false, c + [v], predicted)
  {
    hide Represents, Visited, Walked;
    WalkStep(mk, c, v);
    HistoryKept(mk, c, v);
    NameParts(c, v);
  }

  /** The walk is over if v was known in the context or this is the root. */
  lemma WayEnds(p: Pool, l0: Layout, l: Layout, m: Model, mk: Model, c: Name, v: Byte, next: nat, first: bool, s0: Name,
                predicted0: nat, predicted: nat, before: Pool, next0: nat)
    requires OnTheWay(before, l0, m, mk, c, v, next0, first, s0, predicted0)
    requires Stops(mk, c, v)
    requires Represents(p, l, Visited(mk, c, v), next, {})
    requires m.history + [v] in l.index && predicted == l.index[m.history + [v]]
    ensures WalkedTo(p, l, m, v, next, predicted)
  {
    hide Represents, Visited, Walked;
    WalkStep(mk, c, v);
  }

  /** What is still to be coded from the context c on. */
  ghost predicate ToCode(m: Model, mk: Model, c: Name, v: Byte, done: seq<Step>)
  {
    && StepsOk(done) && StepsOk(Walked(mk, c, v).1)
    && ByteSteps(m, v) == done + Walked(mk, c, v).1
  }

  lemma ToCodeStarts(m: Model, v: Byte)
    requires ModelOk(m)
    ensures ToCode(m, m, m.history, v, [])
  {
    SeenOk(m, v);
    hide Walked;
    assert [] + ByteSteps(m, v) == ByteSteps(m, v);
  }

  lemma ToCodeNext(m: Model, mk: Model, c: Name, v: Byte, done: seq<Step>)
    requires ToCode(m, mk, c, v, done) && !Stops(mk, c, v)
    ensures StepsOk(VisitSteps(mk, c, v))
    ensures ToCode(m, Visited(mk, c, v), c[1..], v, done + VisitSteps(mk, c, v))
    ensures ByteSteps(m, v) == done + (VisitSteps(mk, c, v) + Walked(Visited(mk, c, v), c[1..], v).1)
    ensures StepsOk(Walked(Visited(mk, c, v), c[1..], v).1)
  {
    WalkStep(mk, c, v);
    hide Walked, VisitSteps, Visited, ByteSteps;
    var a, b := VisitSteps(mk, c, v), Walked(Visited(mk, c, v), c[1..], v).1;
    StepsAppend(a, b);
    StepsAppend(done, a);
    assert done + (a + b) == done + a + b;
  }

  lemma ToCodeEnds(m: Model, mk: Model, c: Name, v: Byte, done: seq<Step>)
    requires ToCode(m, mk, c, v, done) && Stops(mk, c, v)
    ensures StepsOk(VisitSteps(mk, c, v)) && ByteSteps(m, v) == done + VisitSteps(mk, c, v)
    ensures ByteSteps(m, v) == done + (VisitSteps(mk, c, v) + [])
  {
    WalkStep(mk, c, v);
    assert VisitSteps(mk, c, v) + [] == VisitSteps(mk, c, v);
  }

  lemma NotEnough(m: Model, mk: Model, c: Name, v: Byte, done: seq<Step>, start: nat, from: Interval, d: Interval,
                  room: nat)
    requires ToCode(m, mk, c, v, done) && Ready(from) && d == After(from, done)
    requires StepsOk(VisitSteps(mk, c, v)) && start + |Sent(from, done)| + |Sent(d, VisitSteps(mk, c, v))| > room
    ensures StepsOk(ByteSteps(m, v)) && start + |Sent(from, ByteSteps(m, v))| > room
  {
    hide Sent, After, ByteSteps, VisitSteps, Walked, Visited;
    if Stops(mk, c, v) {
      ToCodeEnds(m, mk, c, v, done);
      NoRoom(start, from, done, VisitSteps(mk, c, v), [], d, room);
    } else {
      ToCodeNext(m, mk, c, v, done);
      NoRoom(start, from, done, VisitSteps(mk, c, v), Walked(Visited(mk, c, v), c[1..], v).1, d, room);
    }
  }

  lemma WayFacts(p: Pool, l: Layout, m: Model, mk: Model, c: Name, v: Byte, next: nat, first: bool, s: Name,
                 predicted: nat)
    requires OnTheWay(p, l, m, mk, c, v, next, first, s, predicted)
    ensures Represents(p, l, mk, next, Waiting(first, s)) && c in l.index && |c| <= 2
    ensures l.index[c] == 0 <==> c == []
    ensures |p| == POOL_SIZE && mk.used == next && ModelOk(mk)
    ensures !first ==> s in l.index && |s| == |c| + 2
    ensures ChainTo(l, m.history, c, v, first, s, predicted)
  {
    hide Represents, Walked, ModelOk;
    AtRoot(p, l, mk, next, Waiting(first, s), c);
  }

  /** One context below the root: count, code, link. */
  method EncodeSubcontext(pool: array<Symbol>, subcontext: nat, v: Byte, next0: nat, first: bool, parentAt: nat,
                          predicted0: nat, c0: Interval, outData: array<Byte>, outPos: nat, ghost l0: Layout,
                          ghost m: Model, ghost mk: Model, ghost name: Name, ghost s: Name)
    returns (ok: bool, known: bool, sym: nat, predicted: nat, next: nat, c: Interval, pos: nat, ghost l: Layout)
    requires OnTheWay(pool[..], l0, m, mk, name, v, next0, first, s, predicted0) && name in l0.index && name != []
    requires subcontext == l0.index[name] && next0 < POOL_SIZE && Ready(c0) && outPos <= outData.Length
    requires !first ==> s in l0.index && parentAt == l0.index[s]
    modifies pool, outData
    ensures StepsOk(VisitSteps(mk, name, v))
    ensures ok <==> outPos + |Sent(c0, VisitSteps(mk, name, v))| <= outData.Length
    ensures ok ==> c == After(c0, VisitSteps(mk, name, v)) && pos == outPos + |Sent(c0, VisitSteps(mk, name, v))|
    ensures ok ==> outData[..pos] == old(outData[..outPos]) + Sent(c0, VisitSteps(mk, name, v))
    ensures known <==> mk.Get(name).counts[v] > 0
    ensures ok ==> Represents(pool[..], l, Visited(mk, name, v), next, if known then {} else {name + [v]})
    ensures ok ==> m.history + [v] in l.index && predicted == l.index[m.history + [v]]
    ensures ok ==> next <= next0 + 1 && name in l.index && l.index[name] == subcontext
    ensures ok ==> name + [v] in l.index && sym == l.index[name + [v]]
  {
    hide Represents, Walked, Visited, Sum, SubOk, Sent, After, Ready, SubSteps, OnTheWay, ChainTo, VisitSteps;
    ghost var before := pool[..];
    WayFacts(before, l0, m, mk, name, v, next0, first, s, predicted0);
    ghost var pending: set<Name> := Waiting(first, s);
    SubFacts(before, l0, mk, next0, pending, name);
    SubVisitSteps(mk, name, v);
    var escapes, total := pool[subcontext].escapes, pool[subcontext].total;
    var under, count;
    sym, under, count, next, l := VisitSub(pool, subcontext, v, next0, l0, mk, name, pending);
    UsedGrows(mk, name, v, next0, next);
    known := count > 0;
    predicted := predicted0;
    ok, c, pos := EncodeSub(c0, escapes, under, count, total, outData, outPos, mk.Get(name), v);
    if ok {
      predicted := LinkChain(pool, first, parentAt, sym, predicted0, l0, l, m.history, mk, name, v, next, s);
    }
  }

  /** Counts v along the chain of contexts that starts at the predicted one, and codes it on the way. */
  method EncodeByte(pool: array<Symbol>, v: Byte, predicted0: nat, next0: nat, c0: Interval,
                    outData: array<Byte>, outPos: nat, ghost m: Model, ghost l0: Layout)
    returns (ok: bool, predicted: nat, next: nat, c: Interval, pos: nat, ghost l: Layout)
    requires Represents(pool[..], l0, m, next0, {}) && m.history in l0.index && predicted0 == l0.index[m.history]
    requires next0 < POOL_SIZE - SUBCONTEXT_ORDER && Ready(c0) && outPos <= outData.Length && ModelOk(m)
    modifies pool, outData
    ensures StepsOk(ByteSteps(m, v))
    ensures ok <==> outPos + |Sent(c0, ByteSteps(m, v))| <= outData.Length
    ensures ok ==>
      pos == outPos + |Sent(c0, ByteSteps(m, v))| &&
      Written(outData[..pos], old(outData[..outPos]), c0, ByteSteps(m, v), c)
    ensures ok ==> WalkedTo(pool[..], l, m, v, next, predicted)
  {
    hide Represents, Walked, Visited, Sum, SubOk, RootOk, Sent, After, Ready, SubSteps, RootStep, OnTheWay, ChainTo,
      ToCode, Stops, ByteSteps, WalkedTo, Written, VisitSteps;
    SeenOk(m, v);
    ghost var start := outData[..outPos];
    predicted, next, c, pos, l := predicted0, next0, c0, outPos, l0;
    var subcontext := predicted0;
    var first, parentAt := true, 0;
    ghost var name: Name, mk: Model, s: Name, done: seq<Step> := m.history, m, [], [];
    ToCodeStarts(m, v);
    WayStarts(pool[..], l0, m, v, next0, predicted0);
    WrittenNothing(start, c0);
    WayFacts(pool[..], l, m, mk, name, v, next, first, s, predicted);
    while subcontext != 0
      invariant OnTheWay(pool[..], l, m, mk, name, v, next, first, s, predicted)
      invariant name in l.index && subcontext == l.index[name] && (subcontext == 0 <==> name == [])
      invariant !first ==> s in l.index && parentAt == l.index[s]
      invariant |name| <= 2 && next + |name| <= next0 + 2
      invariant StepsOk(done) && ToCode(m, mk, name, v, done)
      invariant Ready(c) && outPos <= pos <= outData.Length && Written(outData[..pos], start, c0, done, c)
      decreases |name|
    {
      WrittenFacts(outData[..pos], start, c0, done, c);
      ghost var was := outData[..pos];
      ghost var before := pool[..];
      var known, sym, predicted', next', c', pos';
      ghost var l', here := l, VisitSteps(mk, name, v);
      ok, known, sym, predicted', next', c', pos', l' :=
        EncodeSubcontext(pool, subcontext, v, next, first, parentAt, predicted, c, outData, pos, l, m, mk, name, s);
      if !ok {
        NotEnough(m, mk, name, v, done, outPos, c0, c, outData.Length);
        return;
      }
      WrittenMore(was, outData[..pos'], start, c0, done, c, here, c');
      if known {
        KnownStops(mk, name, v);
        ToCodeEnds(m, mk, name, v, done);
        WayEnds(pool[..], l, l', m, mk, name, v, next', first, s, predicted, predicted', before, next);
        predicted, next, c, pos, l := predicted', next', c', pos', l';
        WrittenFacts(outData[..pos], start, c0, ByteSteps(m, v), c);
        return;
      }
      UnknownGoesOn(mk, name, v);
      ToCodeNext(m, mk, name, v, done);
      NextContext(pool[..], l', Visited(mk, name, v), next', name, v);
      WayOn(pool[..], l, l', m, mk, name, v, next', first, s, predicted, predicted', before, next);
      first, parentAt := false, sym;
      subcontext := pool[subcontext].parent;
      s, done := name + [v], done + here;
      mk, name := Visited(mk, name, v), name[1..];
      predicted, next, c, pos, l := predicted', next', c', pos', l';
      WayFacts(pool[..], l, m, mk, name, v, next, first, s, predicted);
    }
    ok, predicted, next, c, pos,
      l := EncodeAtRoot(pool, v, next, first, parentAt, predicted, c, outData, pos, l, m, mk, s, done, start, c0,
        outPos);
  }

  lemma WrittenFacts(now: seq<Byte>, start: seq<Byte>, from: Interval, steps: seq<Step>, c: Interval)
    requires Ready(from) && StepsOk(steps) && Written(now, start, from, steps, c)
    ensures |now| == |start| + |Sent(from, steps)| && c == After(from, steps) && Ready(c)
  {
    hide Sent, Ready;
  }

  lemma WayStarts(p: Pool, l: Layout, m: Model, v: Byte, next: nat, predicted: nat)
    requires Represents(p, l, m, next, {}) && m.history in l.index && ModelOk(m)
    ensures OnTheWay(p, l, m, m, m.history, v, next, true, [], predicted)
  {
    hide Represents, Walked;
  }

  lemma WrittenNothing(start: seq<Byte>, c: Interval)
    requires Ready(c)
    ensures StepsOk([]) && Written(start, start, c, [], c)
  {
    NoStep(c);
    assert start + [] == start;
  }

  /** The root: count, code, link; the walk ends here. */
  method EncodeAtRoot(pool: array<Symbol>, v: Byte, next0: nat, first: bool, parentAt: nat, predicted0: nat,
                      c0: Interval, outData: array<Byte>, outPos: nat, ghost l0: Layout, ghost m: Model,
                      ghost mk: Model, ghost s: Name, ghost done: seq<Step>, ghost start: seq<Byte>,
                      ghost from: Interval, ghost outStart: nat)
    returns (ok: bool, predicted: nat, next: nat, c: Interval, pos: nat, ghost l: Layout)
    requires OnTheWay(pool[..], l0, m, mk, [], v, next0, first, s, predicted0) && next0 < POOL_SIZE
    requires !first ==> s in l0.index && parentAt == l0.index[s]
    requires Ready(c0) && outPos <= outData.Length && Ready(from) && StepsOk(done) && ToCode(m, mk, [], v, done)
    requires Written(outData[..outPos], start, from, done, c0) && |start| == outStart
    modifies pool, outData
    ensures StepsOk(ByteSteps(m, v))
    ensures ok <==> outStart + |Sent(from, ByteSteps(m, v))| <= outData.Length
    ensures ok ==> pos == outStart + |Sent(from, ByteSteps(m, v))| && pos <= outData.Length
    ensures ok ==> Written(outData[..pos], start, from, ByteSteps(m, v), c)
    ensures ok ==> WalkedTo(pool[..], l, m, v, next, predicted)
  {
    hide Represents, Walked, Visited, Sum, SubOk, RootOk, Sent, After, Ready, SubSteps, OnTheWay, ChainTo, ToCode,
      Stops, ByteSteps, WalkedTo, Written, VisitSteps, Next, Emitted;
    ghost var before, was := pool[..], outData[..outPos];
    WayFacts(before, l0, m, mk, [], v, next0, first, s, predicted0);
    ghost var pending: set<Name> := Waiting(first, s);
    RootFacts(before, l0, mk, next0, pending);
    RootVisitSteps(mk, v);
    RootStops(mk, v);
    ToCodeEnds(m, mk, [], v, done);
    WrittenFacts(was, start, from, done, c0);
    var escapes, total := pool[0].escapes, pool[0].total;
    var sym, under, count;
    sym, under, count, next, l := VisitRoot(pool, v, next0, l0, mk, pending);
    var st := Step(escapes + under, count, total);
    assert st == RootStep(mk.Get([]), v);
    RootStepOk(mk.Get([]), v);
    OneStep(c0, st);
    predicted := predicted0;
    ok, c, pos := EncodeStep(c0, st, outData, outPos);
    if !ok {
      NotEnough(m, mk, [], v, done, outStart, from, c0, outData.Length);
    } else {
      WrittenMore(was, outData[..pos], start, from, done, c0, [st], c);
      WrittenFacts(outData[..pos], start, from, ByteSteps(m, v), c);
      predicted := LinkChain(pool, first, parentAt, sym, predicted0, l0, l, m.history, mk, [], v, next, s);
      RootVisitSettled(pool[..], l, mk, v, next, sym);
      WayEnds(pool[..], l0, l, m, mk, [], v, next, first, s, predicted0, predicted, before, next0);
    }
  }

  // ----- whole messages

  /** What has been coded after the part a of a message. */
  ghost predicate CodedTo(now: seq<Byte>, a: seq<Byte>, c: Interval)
  {
    && Ready(START) && StepsOk(Steps(Fresh(), a)) && Ready(c)
    && Written(now, [], START, Steps(Fresh(), a), c)
  }

  lemma CodedMore(now: seq<Byte>, next: seq<Byte>, a: seq<Byte>, v: Byte, c: Interval, d: Interval)
    requires CodedTo(now, a, c) && StepsOk(ByteSteps(SeenAll(Fresh(), a), v)) && Ready(c) && Ready(d)
    requires Written(next, now, c, ByteSteps(SeenAll(Fresh(), a), v), d)
    ensures CodedTo(next, a + [v], d)
  {
    hide Sent, After, Ready, Steps, SeenAll, ByteSteps, Seen;
    StepsNext(Fresh(), a, v, []);
    WrittenMore(now, next, [], START, Steps(Fresh(), a), c, ByteSteps(SeenAll(Fresh(), a), v), d);
  }

  /** A byte that does not fit leaves no room for the message. */
  lemma ByteTooLong(now: seq<Byte>, a: seq<Byte>, v: Byte, b: seq<Byte>, c: Interval, room: nat)
    requires CodedTo(now, a, c) && StepsOk(ByteSteps(SeenAll(Fresh(), a), v)) && Ready(c)
    requires |now| + |Sent(c, ByteSteps(SeenAll(Fresh(), a), v))| > room
    ensures |Compressed(a + [v] + b)| > room
  {
    hide Sent, After, Ready, Steps, SeenAll, ByteSteps, Seen, Coded, Flushed, Fresh;
    StepsNext(Fresh(), a, v, b);
    FreshOk();
    SeenAllOk(Fresh(), a + [v]);
    SeenAllOk(SeenAll(Fresh(), a + [v]), b);
    NoRoom(0, START, Steps(Fresh(), a), ByteSteps(SeenAll(Fresh(), a), v), Steps(Seen(SeenAll(Fresh(), a), v), b), c,
      room);
    SentIsStart(START, Steps(Fresh(), a + [v] + b));
  }

  lemma CodedToEnd(now: seq<Byte>, a: seq<Byte>, c: Interval)
    requires CodedTo(now, a, c)
    ensures c.low < W && Compressed(a) == now + Flushed(c.low)
  {
    hide Sent, After, Steps, Flushed, Fresh, Settled;
    SentIsStart(START, Steps(Fresh(), a));
  }

  lemma StartCoded()
    ensures CodedTo([], [], START) && SeenAll(Fresh(), []) == Fresh() && ModelOk(Fresh())
  {
    FreshOk();
    StartReady();
    WrittenNothing([], START);
  }

  /** The message is what has been coded, the rest of the current buffer, and the buffers after it. */
  ghost predicate Remaining(all: seq<Byte>, a: seq<Byte>, inData: seq<Byte>, inPos: nat, buffers: seq<seq<Byte>>,
                            buffer: nat)
  {
    inPos <= |inData| && buffer <= |buffers| && all == a + (inData[inPos..] + Concat(buffers[buffer..]))
  }

  lemma RemainingByte(all: seq<Byte>, a: seq<Byte>, inData: seq<Byte>, inPos: nat, buffers: seq<seq<Byte>>, buffer: nat)
    requires Remaining(all, a, inData, inPos, buffers, buffer) && inPos < |inData|
    ensures Remaining(all, a + [inData[inPos]], inData, inPos + 1, buffers, buffer)
    ensures all == a + [inData[inPos]] + (inData[inPos + 1..] + Concat(buffers[buffer..]))
  {
    assert inData[inPos..] == [inData[inPos]] + inData[inPos + 1..];
  }

  lemma RemainingBuffer(all: seq<Byte>, a: seq<Byte>, inData: seq<Byte>, buffers: seq<seq<Byte>>, buffer: nat)
    requires Remaining(all, a, inData, |inData|, buffers, buffer) && buffer < |buffers|
    ensures Remaining(all, a, buffers[buffer], 0, buffers, buffer + 1)
  {
    ConcatNext(buffers, buffer);
    assert buffers[buffer][0..] == buffers[buffer];
  }

  lemma RemainingStart(buffers: seq<seq<Byte>>)
    requires buffers != []
    ensures Remaining(Concat(buffers), [], buffers[0], 0, buffers, 1)
  {
    ConcatNext(buffers, 0);
    assert buffers[0..] == buffers && buffers[0][0..] == buffers[0];
  }

  lemma RemainingNone(all: seq<Byte>, a: seq<Byte>, inData: seq<Byte>, buffers: seq<seq<Byte>>)
    requires Remaining(all, a, inData, |inData|, buffers, |buffers|)
    ensures all == a
  {
  }

  /** One byte of a message: code it, and move on to the next prediction. */
  method CompressByte(pool: array<Symbol>, v: Byte, predicted0: nat, order0: nat, next0: nat, c0: Interval,
                      outData: array<Byte>, outPos: nat, ghost a: seq<Byte>, ghost l0: Layout)
    returns (ok: bool, predicted: nat, order: nat, next: nat, c: Interval, pos: nat, ghost l: Layout)
    requires Between(pool[..], l0, SeenAll(Fresh(), a), predicted0, order0, next0)
    requires outPos <= outData.Length && CodedTo(outData[..outPos], a, c0)
    modifies pool, outData
    ensures ok ==> pos <= outData.Length && CodedTo(outData[..pos], a + [v], c)
    ensures ok ==> Between(pool[..], l, SeenAll(Fresh(), a + [v]), predicted, order, next)
    ensures !ok ==> forall b :: |Compressed(a + [v] + b)| > outData.Length
  {
    hide Represents, Sent, After, Ready, Steps, SeenAll, ByteSteps, Seen, Fresh, ModelOk, Written, WalkedTo, Compressed;
    ghost var m := SeenAll(Fresh(), a);
    SeenAllFresh(a);
    StepsNext(Fresh(), a, v, []);
    ghost var now := outData[..outPos];
    order := order0;
    ok, predicted, next, c, pos, l := EncodeByte(pool, v, predicted0, next0, c0, outData, outPos, m, l0);
    if ok {
      WrittenFacts(outData[..pos], now, c0, ByteSteps(m, v), c);
      CodedMore(now, outData[..pos], a, v, c0, c);
      predicted, order, next, l := NextPrediction(pool, predicted, order0, next, l, m, v);
    } else {
      forall b ensures |Compressed(a + [v] + b)| > outData.Length {
        ByteTooLong(now, a, v, b, c0, outData.Length);
      }
    }
  }

  /**
   Compresses the input buffers, of which only the first may be empty.  The result is the number of bytes
   written, or 0 if there is no input or not enough room.
   */
  method RangeCoderCompress(pool: array<Symbol>, inBuffers: seq<seq<Byte>>, inLimit: nat, outData: array<Byte>)
    returns (n: nat)
    requires pool.Length == POOL_SIZE
    requires forall i :: 0 < i < |inBuffers| ==> inBuffers[i] != []
    modifies pool, outData
    ensures n <= outData.Length
    ensures inBuffers == [] || inLimit == 0 ==> n == 0
    ensures inBuffers != [] && inLimit > 0 ==>
      var all := Compressed(Concat(inBuffers));
      if |all| <= outData.Length then outData[..n] == all else n == 0
  {
    hide Represents, Sent, After, Ready, Steps, SeenAll, Fresh, CodedTo, Between, Compressed, Flushed, Remaining,
      Concat;
    if inBuffers == [] || inLimit == 0 {
      return 0;
    }
    ghost var all := Concat(inBuffers);
    var inData, inPos: nat, buffer: nat := inBuffers[0], 0, 1;
    var c, pos: nat := START, 0;
    ghost var a: seq<Byte>, l := [], StartLayout();
    CreateRootContext(pool);
    var predicted: nat, order: nat, next: nat := 0, 0, 1;
    StartCoded();
    StartBetween(pool[..]);
    RemainingStart(inBuffers);
    assert outData[..0] == [];
    while true
      invariant inPos <= |inData| && 1 <= buffer <= |inBuffers| && Remaining(all, a, inData, inPos, inBuffers, buffer)
      invariant pos <= outData.Length && CodedTo(outData[..pos], a, c)
      invariant Between(pool[..], l, SeenAll(Fresh(), a), predicted, order, next)
      decreases |inBuffers| - buffer, |inData| - inPos
    {
      if inPos >= |inData| {
        if buffer >= |inBuffers| {
          break;
        }
        RemainingBuffer(all, a, inData, inBuffers, buffer);
        inData, inPos, buffer := inBuffers[buffer], 0, buffer + 1;
      }
      var value := inData[inPos];
      RemainingByte(all, a, inData, inPos, inBuffers, buffer);
      inPos := inPos + 1;
      var ok;
      ok, predicted, order, next, c, pos, l := CompressByte(pool, value, predicted, order, next, c, outData, pos, a, l);
      if !ok {
        assert |Compressed(a + [value] + (inData[inPos..] + Concat(inBuffers[buffer..])))| > outData.Length;
        return 0;
      }
      a := a + [value];
    }
    RemainingNone(all, a, inData, inBuffers);
    CodedToEnd(outData[..pos], a, c);
    var ok;
    ok, n := Flush(c.low, outData, pos);
    if !ok {
      n := 0;
    }
  }
}
