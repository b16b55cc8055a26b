/** The carry-less 32-bit range coder: how an interval is narrowed, renormalised, flushed and read back. */
module RangeCoder {
  import opened Basics
  import opened BitXor

  const W: nat := 0x1_0000_0000
  const TOP: nat := 0x100_0000
  const BOTTOM: nat := 0x1_0000

  datatype Interval = Interval(low: nat, range: nat)

  /** One coded decision: the part [under, under + count) of total. */
  datatype Step = Step(under: nat, count: nat, total: nat)

  const START := Interval(0, 0xFFFF_FFFF)

  predicate StepOk(s: Step)
  {
    0 < s.count && s.under + s.count <= s.total <= BOTTOM
  }

  function TopByte(x: nat): nat
  {
    x / TOP
  }

  /** The top bytes of low and of low + range, in 32-bit arithmetic, are different. */
  predicate Straddles(c: Interval)
  {
    TopByte(c.low) != TopByte((c.low + c.range) % W)
  }

  predicate Settled(c: Interval)
  {
    Straddles(c) && c.range >= BOTTOM
  }

  /** The interval ends inside 32 bits, or exactly at their end when it starts in the last 2^24. */
  predicate Proper(c: Interval)
  {
    c.low < W && 0 < c.range && c.low + c.range <= W && (c.low + c.range == W ==> c.low >= W - TOP)
  }

  /** What remains of a straddling interval that is too short: the part below the next multiple of 2^16. */
  function Trimmed(c: Interval): nat
  {
    if Straddles(c) then (W - c.low % W) % BOTTOM else c.range
  }

  function Shifted(c: Interval): Interval
  {
    Interval((c.low * 256) % W, (Trimmed(c) * 256) % W)
  }

  function Narrowed(c: Interval, s: Step): Interval
    requires s.total > 0
  {
    var r := c.range / s.total;
    Interval(c.low + s.under * r, r * s.count)
  }

  // ----- one shift

  /** An interval that starts and ends under the same top byte loses that byte. */
  lemma ShiftSame(c: Interval)
    requires Proper(c) && !Straddles(c)
    ensures c.low + c.range < W && c.range < TOP
    ensures Shifted(c) == Interval((c.low % TOP) * 256, c.range * 256)
    ensures (c.low % TOP) * 256 + c.range * 256 < W
  {
    var t := TopByte(c.low);
    assert c.low == t * TOP + c.low % TOP;
    if c.low + c.range == W {
      assert false; // the sum wraps to 0, whose top byte is not 255
    } else {
      assert (c.low + c.range) % W == c.low + c.range;
      assert c.low + c.range < (t + 1) * TOP;
    }
    ShiftLow(c.low);
  }

  lemma ShiftLow(low: nat)
    requires low < W
    ensures (low * 256) % W == (low % TOP) * 256
  {
    var t := low / TOP;
    assert low == t * TOP + low % TOP;
    assert low * 256 == t * W + (low % TOP) * 256;
    ModUnique(low * 256, W, t, (low % TOP) * 256);
  }

  lemma ModUnique(a: nat, d: nat, q: nat, r: nat)
    requires d > 0 && a == q * d + r && r < d
    ensures a % d == r && a / d == q
  {
    var q' := a / d;
    assert a == q' * d + a % d;
    if q' < q {
      MulLess(q' + 1, q, d);
    } else if q' > q {
      MulLess(q + 1, q', d);
    }
  }

  lemma TopMonotone(x: nat, t: nat)
    requires x >= t * TOP && TopByte(x) != t
    ensures x >= (t + 1) * TOP
  {
  }

  /** A short straddling interval is cut at the next multiple of 2^24, and then ends exactly at 2^32. */
  lemma ShiftTrimmed(c: Interval)
    requires Proper(c) && Straddles(c) && c.range < BOTTOM
    ensures 0 < Trimmed(c) <= c.range
    ensures c.low % TOP + Trimmed(c) == TOP
    ensures Shifted(c) == Interval((c.low % TOP) * 256, Trimmed(c) * 256)
    ensures c.low + c.range == W ==> Trimmed(c) == c.range
  {
    var t := TopByte(c.low);
    assert c.low == t * TOP + c.low % TOP && t <= 255;
    var m := (t + 1) * TOP;
    assert c.low < m <= c.low + c.range by {
      if c.low + c.range < W {
        assert (c.low + c.range) % W == c.low + c.range;
        TopMonotone(c.low + c.range, t);
      } else {
        assert t == 255;
      }
    }
    assert W - c.low == ((255 - t) * 256) * BOTTOM + (m - c.low);
    ModUnique(W - c.low, BOTTOM, (255 - t) * 256, m - c.low);
    ShiftLow(c.low);
  }

  lemma ShiftProper(c: Interval)
    requires Proper(c) && !Settled(c)
    ensures Proper(Shifted(c))
    ensures c.low + c.range == W ==> Shifted(c).low + Shifted(c).range == W
    ensures !(c.low + c.range == W) && !(Shifted(c).low + Shifted(c).range == W) ==> Shifted(c).range > c.range
    ensures c.low + c.range == W ==> Shifted(c).range > c.range
    ensures Shifted(c).range <= W
  {
    if Straddles(c) {
      ShiftTrimmed(c);
    } else {
      ShiftSame(c);
    }
  }

  /** Renormalisation: the interval reached, and the bytes shifted out on the way. */
  function Renormalised(c: Interval): (Interval, seq<Byte>)
    requires Proper(c)
    decreases if c.low + c.range == W then 0 else 1, W - c.range
  {
    if Settled(c) then (c, [])
    else
      ShiftProper(c);
      TopIsByte(c.low);
      var (d, bytes) := Renormalised(Shifted(c));
      (d, [TopByte(c.low)] + bytes)
  }

  lemma TopIsByte(low: nat)
    requires low < W
    ensures TopByte(low) < 256
  {
  }

  lemma {:induction false} RenormalisedSettled(c: Interval)
    requires Proper(c)
    ensures Proper(Renormalised(c).0) && Settled(Renormalised(c).0)
    decreases if c.low + c.range == W then 0 else 1, W - c.range
  {
    if !Settled(c) {
      ShiftProper(c);
      RenormalisedSettled(Shifted(c));
    }
  }

  lemma NarrowedProper(c: Interval, s: Step)
    requires Proper(c) && c.range >= BOTTOM && StepOk(s)
    ensures Proper(Narrowed(c, s))
    ensures c.range / s.total > 0
  {
    Parts(c.range, s.total, s.under, s.count);
  }

  /** A part of the total takes up at most the range. */
  lemma Parts(range: nat, total: nat, under: nat, count: nat)
    requires 0 < count && under + count <= total <= range
    ensures var r := range / total; r > 0 && under * r + r * count <= range && r * count > 0
  {
    QuotientPositive(range, total);
    var r := range / total;
    MulLess(under + count, total, r);
    MulLess(1, count, r);
    Distribute(under, count, r);
    Remainder(range, total);
  }

  lemma Distribute(a: nat, b: nat, r: nat)
    ensures (a + b) * r == a * r + r * b
  {
  }

  lemma Remainder(a: nat, d: nat)
    requires d > 0
    ensures d * (a / d) <= a
  {
  }

  lemma QuotientPositive(a: nat, d: nat)
    requires 0 < d <= a
    ensures a / d > 0
  {
  }

  lemma MulLess(a: nat, b: nat, c: nat)
    requires a <= b
    ensures a * c <= b * c
  {
  }

  // ----- the bytes of a whole run

  /** The last bytes, without trailing zeros. */
  function Flushed(low: nat): seq<Byte>
    requires low < W
    decreases BytesLeft(low)
  {
    if low == 0 then []
    else
      ShiftLow(low);
      TopIsByte(low);
      BytesShrink(low);
      [TopByte(low)] + Flushed((low * 256) % W)
  }

  function BytesLeft(low: nat): nat
  {
    if low == 0 then 0 else if low % TOP == 0 then 1 else if low % 0x10000 == 0 then 2 else if low % 0x100 == 0 then 3
      else 4
  }

  lemma BytesShrink(low: nat)
    requires 0 < low < W
    ensures BytesLeft((low * 256) % W) < BytesLeft(low)
  {
    var x := low % TOP;
    ShiftLow(low);
    if low % 0x10000 == 0 {
      ShiftedMultiple(x, 0x10000);
    } else if low % 0x100 == 0 {
      ShiftedMultiple(x, 0x100);
    } else {
      ShiftedMultiple(x, 1);
    }
  }

  lemma ShiftedMultiple(x: nat, d: nat)
    requires d > 0 && x % d == 0
    ensures (x * 256) % (d * 256) == 0
  {
    var q := x / d;
    assert x == q * d;
    assert x * 256 == q * (d * 256);
    ModUnique(x * 256, d * 256, q, 0);
  }

  ghost predicate StepsOk(steps: seq<Step>)
  {
    forall i :: 0 <= i < |steps| ==> StepOk(steps[i])
  }

  /** An interval between two coded steps. */
  predicate Ready(c: Interval)
  {
    Proper(c) && Settled(c)
  }

  /** The interval after one coded step. */
  function Next(c: Interval, s: Step): (d: Interval)
    requires Ready(c) && StepOk(s)
    ensures Ready(d)
  {
    NarrowedProper(c, s);
    RenormalisedSettled(Narrowed(c, s));
    Renormalised(Narrowed(c, s)).0
  }

  /** The bytes written by one coded step. */
  function Emitted(c: Interval, s: Step): seq<Byte>
    requires Ready(c) && StepOk(s)
  {
    NarrowedProper(c, s);
    Renormalised(Narrowed(c, s)).1
  }

  lemma StepsTail(steps: seq<Step>)
    requires StepsOk(steps) && steps != []
    ensures StepOk(steps[0]) && StepsOk(steps[1..])
  {
  }

  /** Everything written while coding the steps from c on. */
  function Coded(c: Interval, steps: seq<Step>): seq<Byte>
    requires Ready(c) && StepsOk(steps)
    decreases |steps|
  {
    if steps == [] then Flushed(c.low)
    else
      StepsTail(steps);
      Emitted(c, steps[0]) + Coded(Next(c, steps[0]), steps[1..])
  }

  /** The interval after a run of steps. */
  function After(c: Interval, steps: seq<Step>): (d: Interval)
    requires Ready(c) && StepsOk(steps)
    ensures Ready(d)
    decreases |steps|
  {
    if steps == [] then c
    else
      StepsTail(steps);
      After(Next(c, steps[0]), steps[1..])
  }

  /** The bytes written by a run of steps. */
  function Sent(c: Interval, steps: seq<Step>): seq<Byte>
    requires Ready(c) && StepsOk(steps)
    decreases |steps|
  {
    if steps == [] then []
    else
      StepsTail(steps);
      Emitted(c, steps[0]) + Sent(Next(c, steps[0]), steps[1..])
  }

  lemma StepsAppend(a: seq<Step>, b: seq<Step>)
    ensures StepsOk(a + b) <==> StepsOk(a) && StepsOk(b)
  {
    if StepsOk(a + b) {
      forall i | 0 <= i < |a| ensures StepOk(a[i]) {
        assert (a + b)[i] == a[i];
      }
      forall i | 0 <= i < |b| ensures StepOk(b[i]) {
        assert (a + b)[|a| + i] == b[i];
      }
    }
  }

  /** Coding two runs after each other. */
  lemma {:induction false} CodedAppend(c: Interval, a: seq<Step>, b: seq<Step>)
    requires Ready(c) && StepsOk(a) && StepsOk(b)
    ensures StepsOk(a + b)
    ensures Coded(c, a + b) == Sent(c, a) + Coded(After(c, a), b)
    ensures Sent(c, a + b) == Sent(c, a) + Sent(After(c, a), b)
    ensures After(c, a + b) == After(After(c, a), b)
    decreases |a|
  {
    StepsAppend(a, b);
    if a == [] {
      assert a + b == b;
    } else {
      hide Next, Emitted, Flushed;
      StepsTail(a);
      assert (a + b)[0] == a[0] && (a + b)[1..] == a[1..] + b;
      CodedAppend(Next(c, a[0]), a[1..], b);
    }
  }

  // ----- reading back

  function At(s: seq<Byte>, k: nat): Byte
  {
    if k < |s| then s[k] else 0
  }

  /** The four bytes from position k on, with zeros after the end. */
  function Window(s: seq<Byte>, k: nat): nat
  {
    ((At(s, k) * 256 + At(s, k + 1)) * 256 + At(s, k + 2)) * 256 + At(s, k + 3)
  }

  lemma WindowShift(s: seq<Byte>, k: nat)
    ensures Window(s, k) < W
    ensures Window(s, k) == At(s, k) * TOP + Window(s, k + 1) / 256
    ensures Window(s, k + 1) == (Window(s, k) * 256) % W + At(s, k + 4)
  {
    var x := (At(s, k + 1) * 256 + At(s, k + 2)) * 256 + At(s, k + 3);
    assert Window(s, k) == At(s, k) * TOP + x;
    assert Window(s, k + 1) == x * 256 + At(s, k + 4);
    ModUnique(Window(s, k), TOP, At(s, k), x);
    ShiftLow(Window(s, k));
  }

  /** The code value lies in the interval. */
  predicate Holds(c: Interval, code: nat)
  {
    c.low <= code < c.low + c.range
  }

  /** Shifting out the right byte keeps the code in the interval, read backwards. */
  lemma ShiftHolds(c: Interval, s: seq<Byte>, k: nat)
    requires Proper(c) && !Settled(c)
    requires At(s, k) == TopByte(c.low)
    requires Holds(Shifted(c), Window(s, k + 1))
    ensures Holds(c, Window(s, k))
  {
    WindowShift(s, k);
    if Straddles(c) {
      ShiftTrimmed(c);
    } else {
      ShiftSame(c);
    }
    var t := TopByte(c.low);
    assert c.low == t * TOP + c.low % TOP;
    ByteDown(Window(s, k + 1), c.low % TOP, Trimmed(c));
  }

  lemma ByteDown(x: nat, a: nat, t: nat)
    requires a * 256 <= x < a * 256 + t * 256
    ensures a <= x / 256 < a + t
  {
  }

  lemma {:induction false} RenormalisedHolds(c: Interval, s: seq<Byte>, k: nat)
    requires Proper(c) && k + |Renormalised(c).1| <= |s|
    requires s[k..k + |Renormalised(c).1|] == Renormalised(c).1
    requires Holds(Renormalised(c).0, Window(s, k + |Renormalised(c).1|))
    ensures Holds(c, Window(s, k))
    decreases if c.low + c.range == W then 0 else 1, W - c.range
  {
    if !Settled(c) {
      ShiftProper(c);
      var bytes := Renormalised(c).1;
      var rest := Renormalised(Shifted(c)).1;
      assert s[k] == s[k..k + |bytes|][0] == TopByte(c.low);
      assert s[k + 1..k + 1 + |rest|] == s[k..k + |bytes|][1..];
      RenormalisedHolds(Shifted(c), s, k + 1);
      ShiftHolds(c, s, k);
    }
  }

  /** The code value picks out the coded part of the interval. */
  lemma NarrowedHolds(c: Interval, st: Step, code: nat)
    requires Proper(c) && c.range >= BOTTOM && StepOk(st)
    requires Holds(Narrowed(c, st), code)
    ensures Holds(c, code)
    ensures var r := c.range / st.total; r > 0 && st.under <= (code - c.low) / r < st.under + st.count
  {
    Parts(c.range, st.total, st.under, st.count);
    var r := c.range / st.total;
    Distribute(st.under, st.count, r);
    DivRange(code - c.low, r, st.under, st.under + st.count);
  }

  lemma DivRange(x: nat, r: nat, a: nat, b: nat)
    requires r > 0 && a * r <= x < b * r
    ensures a <= x / r < b
  {
    var q := x / r;
    assert x == q * r + x % r;
    if q < a {
      MulLess(q + 1, a, r);
    }
    if q >= b {
      MulLess(b, q, r);
    }
  }

  lemma {:induction false} FlushedWindow(low: nat, s: seq<Byte>, k: nat)
    requires low < W && k <= |s| && s[k..] == Flushed(low)
    ensures Window(s, k) == low
    ensures forall j :: k + 4 <= j ==> At(s, j) == 0
    decreases BytesLeft(low)
  {
    if low == 0 {
      assert |s| == k;
    } else {
      BytesShrink(low);
      ShiftLow(low);
      var next := (low * 256) % W;
      assert s[k] == s[k..][0] == TopByte(low);
      assert s[k + 1..] == s[k..][1..] == Flushed(next);
      FlushedWindow(next, s, k + 1);
      WindowShift(s, k);
      assert low == TopByte(low) * TOP + low % TOP;
      FlushedShort(low, s, k);
    }
  }

  lemma {:induction false} FlushedShort(low: nat, s: seq<Byte>, k: nat)
    requires low < W && k <= |s| && s[k..] == Flushed(low)
    ensures |s| == k + BytesLeft(low) <= k + 4
    decreases BytesLeft(low)
  {
    if low == 0 {
      assert |s| == k;
    } else {
      BytesShrink(low);
      BytesExact(low);
      assert s[k + 1..] == s[k..][1..] == Flushed((low * 256) % W);
      FlushedShort((low * 256) % W, s, k + 1);
    }
  }

  lemma BytesExact(low: nat)
    requires 0 < low < W
    ensures BytesLeft((low * 256) % W) + 1 == BytesLeft(low)
  {
    var x := low % TOP;
    ShiftLow(low);
    BytesShrink(low);
    if low % 0x10000 != 0 {
      NotMultiple(x, 0x10000);
      if low % 0x100 != 0 {
        NotMultiple(x, 0x100);
      }
    }
  }

  lemma NotMultiple(x: nat, d: nat)
    requires d > 0 && x % d != 0
    ensures (x * 256) % (d * 256) != 0
  {
    var q, r := x / d, x % d;
    assert x == q * d + r;
    assert x * 256 == q * (d * 256) + r * 256;
    ModUnique(x * 256, d * 256, q, r * 256);
  }

  /** While the remaining steps are still to be read, the code value lies in the current interval. */
  lemma {:induction false} CodedHolds(c: Interval, steps: seq<Step>, s: seq<Byte>, k: nat)
    requires Ready(c) && StepsOk(steps)
    requires k <= |s| && s[k..] == Coded(c, steps)
    ensures Holds(c, Window(s, k))
    ensures steps == [] ==> Window(s, k) == c.low && forall j :: k + 4 <= j ==> At(s, j) == 0
    ensures steps != [] ==> NarrowedProperTo(c, steps[0], Window(s, k))
    decreases |steps|
  {
    if steps == [] {
      FlushedWindow(c.low, s, k);
    } else {
      hide Renormalised, Flushed, Window;
      var bytes, d := Emitted(c, steps[0]), Next(c, steps[0]);
      var k' := k + |bytes|;
      assert s[k..k'] == s[k..][..|bytes|] == bytes;
      assert s[k'..] == s[k..][|bytes|..] == Coded(d, steps[1..]);
      CodedHolds(d, steps[1..], s, k');
      NarrowedProper(c, steps[0]);
      RenormalisedHolds(Narrowed(c, steps[0]), s, k);
      NarrowedHolds(c, steps[0], Window(s, k));
    }
  }

  ghost predicate NarrowedProperTo(c: Interval, st: Step, code: nat)
    requires st.total > 0
  {
    Holds(Narrowed(c, st), code)
  }

  // ----- the loops

  function Halved(x: nat, n: nat): nat
  {
    if n == 0 then x else Halved(x, n - 1) / 2
  }

  lemma {:induction false} XorHalved(a: nat, b: nat, n: nat)
    ensures Xor(Halved(a, n), Halved(b, n)) == Halved(Xor(a, b), n)
  {
    hide Xor;
    if n > 0 {
      XorHalved(a, b, n - 1);
      XorStep(Halved(a, n - 1), Halved(b, n - 1));
    }
  }

  lemma {:induction false} HalvedIs(x: nat, n: nat)
    ensures Two(n) > 0 && Halved(x, n) == x / Two(n)
  {
    if n > 0 {
      HalvedIs(x, n - 1);
      DivTwice(x, Two(n - 1));
    }
  }

  lemma DivTwice(a: nat, w: nat)
    requires w > 0
    ensures a / w / 2 == a / (2 * w)
  {
    var q := a / w;
    assert a == q * w + a % w;
    var h := q / 2;
    assert q == 2 * h + q % 2;
    Regroup(h, q % 2, w);
    ModUnique(a, 2 * w, h, (q % 2) * w + a % w);
  }

  lemma Regroup(h: nat, b: nat, w: nat)
    requires b < 2
    ensures (2 * h + b) * w == h * (2 * w) + b * w
    ensures b * w <= w
  {
  }

  lemma TwoTo24()
    ensures Two(24) == TOP
  {
    assert Two(8) == 256;
    assert Two(16) == 65536;
  }

  /** The source compares the exclusive or of both ends with 2^24. */
  lemma XorOfEnds(a: nat, b: nat)
    ensures Xor(a, b) >= TOP <==> TopByte(a) != TopByte(b)
  {
    hide Xor, Two, Halved;
    TwoTo24();
    HalvedIs(a, 24);
    HalvedIs(b, 24);
    HalvedIs(Xor(a, b), 24);
    XorHalved(a, b, 24);
    XorZero(a / TOP, b / TOP);
  }

  /** One test of the renormalisation loop: is it over, and if not, what is left of the range? */
  method Trim(low: nat, range: nat) returns (done: bool, rest: nat)
    requires Proper(Interval(low, range))
    ensures done <==> Settled(Interval(low, range))
    ensures !done ==> rest == Trimmed(Interval(low, range))
  {
    hide Xor;
    rest := range;
    XorOfEnds(low, (low + range) % W);
    if Xor(low, (low + range) % W) >= TOP {
      if range >= BOTTOM {
        return true, range;
      }
      rest := (W - low) % BOTTOM;
    }
    done := false;
  }

  /** Codes one step, unless the output is full. */
  method EncodeStep(c: Interval, s: Step, outData: array<Byte>, outPos: nat)
    returns (ok: bool, d: Interval, pos: nat)
    requires Ready(c) && StepOk(s) && outPos <= outData.Length
    modifies outData
    ensures ok <==> outPos + |Emitted(c, s)| <= outData.Length
    ensures ok ==> d == Next(c, s) && pos == outPos + |Emitted(c, s)|
    ensures ok ==> outData[..pos] == old(outData[..outPos]) + Emitted(c, s)
  {
    hide Renormalised, Trimmed, Settled, Straddles, Emitted, Next;
    EmittedIs(c, s);
    var range: nat := c.range / s.total;
    var low: nat := c.low + s.under * range;
    range := range * s.count;
    pos := outPos;
    ghost var all := old(outData[..outPos]) + Emitted(c, s);
    while true
      invariant Proper(Interval(low, range)) && outPos <= pos <= outData.Length
      invariant outData[..pos] + Renormalised(Interval(low, range)).1 == all
      invariant Renormalised(Interval(low, range)).0 == Next(c, s)
      decreases if low + range == W then 0 else 1, W - range
    {
      ghost var iv := Interval(low, range);
      var done, rest := Trim(low, range);
      if done {
        RenormalisedDone(iv);
        break;
      }
      ShiftProper(iv);
      RenormalisedNext(iv);
      if pos >= outData.Length {
        assert |all| > outData.Length;
        return false, c, outPos;
      }
      ghost var before := outData[..pos];
      TopIsByte(low);
      outData[pos] := low / TOP;
      assert outData[..pos + 1] == before + [low / TOP];
      pos := pos + 1;
      range := (rest * 256) % W;
      low := (low * 256) % W;
    }
    ok, d := true, Interval(low, range);
  }

  lemma EmittedIs(c: Interval, s: Step)
    requires Ready(c) && StepOk(s)
    ensures Proper(Narrowed(c, s)) && Renormalised(Narrowed(c, s)) == (Next(c, s), Emitted(c, s))
  {
    NarrowedProper(c, s);
  }

  lemma RenormalisedNext(c: Interval)
    requires Proper(c) && !Settled(c)
    ensures Proper(Shifted(c)) && c.low < W
    ensures Renormalised(c).1 == [TopByte(c.low)] + Renormalised(Shifted(c)).1
    ensures Renormalised(c).0 == Renormalised(Shifted(c)).0
  {
    ShiftProper(c);
  }

  lemma RenormalisedDone(c: Interval)
    requires Proper(c) && Settled(c)
    ensures Renormalised(c) == (c, [])
  {
  }

  /** Writes the last bytes, unless the output is full. */
  method Flush(start: nat, outData: array<Byte>, outPos: nat) returns (ok: bool, pos: nat)
    requires start < W && outPos <= outData.Length
    modifies outData
    ensures ok <==> outPos + |Flushed(start)| <= outData.Length
    ensures ok ==> pos == outPos + |Flushed(start)| && outData[..pos] == old(outData[..outPos]) + Flushed(start)
  {
    var low: nat := start;
    pos := outPos;
    ghost var all := old(outData[..outPos]) + Flushed(start);
    while low != 0
      invariant low < W && outPos <= pos <= outData.Length
      invariant outData[..pos] + Flushed(low) == all
      decreases BytesLeft(low)
    {
      if pos >= outData.Length {
        return false, outPos;
      }
      ghost var before := outData[..pos];
      TopIsByte(low);
      BytesShrink(low);
      outData[pos] := low / TOP;
      assert outData[..pos + 1] == before + [low / TOP];
      pos := pos + 1;
      low := (low * 256) % W;
    }
    ok := true;
  }

  /** How far the reader has come when k bytes have been shifted out. */
  function ReadTo(data: seq<Byte>, k: nat): nat
  {
    if k + 4 <= |data| then k + 4 else |data|
  }

  /** Reads the first four bytes, as far as there are any. */
  method Seed(data: seq<Byte>) returns (code: nat, pos: nat)
    ensures code == Window(data, 0) && pos == ReadTo(data, 0)
  {
    code, pos := 0, 0;
    if pos < |data| {
      code := code + (data[pos] as int) * 0x100_0000;
      pos := pos + 1;
    }
    if pos < |data| {
      code := code + (data[pos] as int) * 0x1_0000;
      pos := pos + 1;
    }
    if pos < |data| {
      code := code + (data[pos] as int) * 0x100;
      pos := pos + 1;
    }
    if pos < |data| {
      code := code + data[pos];
      pos := pos + 1;
    }
  }

  /** Narrows the decoder's interval, whose range has already been divided by the total, and shifts in new bytes. */
  method DecodeStep(ghost c: Interval, ghost s: Step, low0: nat, range0: nat, under: nat, count: nat,
                    code0: nat, data: seq<Byte>, inPos: nat, ghost k: nat)
    returns (low: nat, range: nat, code: nat, pos: nat)
    requires Ready(c) && StepOk(s)
    requires low0 == c.low && range0 == c.range / s.total && under == s.under && count == s.count
    requires code0 == Window(data, k) && inPos == ReadTo(data, k)
    ensures Interval(low, range) == Next(c, s)
    ensures code == Window(data, k + |Emitted(c, s)|) && pos == ReadTo(data, k + |Emitted(c, s)|)
  {
    hide Window, Renormalised, Trimmed, Settled, Straddles, Emitted, Next;
    EmittedIs(c, s);
    low := low0 + under * range0;
    range := range0 * count;
    code, pos := code0, inPos;
    ghost var j := k;
    while true
      invariant Proper(Interval(low, range)) && k <= j
      invariant j + |Renormalised(Interval(low, range)).1| == k + |Emitted(c, s)|
      invariant Renormalised(Interval(low, range)).0 == Next(c, s)
      invariant code == Window(data, j) && pos == ReadTo(data, j)
      decreases if low + range == W then 0 else 1, W - range
    {
      ghost var iv := Interval(low, range);
      var done, rest := Trim(low, range);
      if done {
        RenormalisedDone(iv);
        break;
      }
      ShiftProper(iv);
      RenormalisedNext(iv);
      WindowShift(data, j);
      code := (code * 256) % W;
      if pos < |data| {
        code := code + data[pos];
        pos := pos + 1;
      }
      range := (rest * 256) % W;
      low := (low * 256) % W;
      j := j + 1;
    }
  }
}
