/** Whole messages: the model after a message, and the bytes that code it. */
module PpmMessage {
  import opened Basics
  import opened RangeCoder
  import opened PpmModel

  lemma NoStep(c: Interval)
    requires Ready(c)
    ensures StepsOk([]) && Sent(c, []) == [] && After(c, []) == c
  {
  }

  function Concat(buffers: seq<seq<Byte>>): seq<Byte>
    decreases |buffers|
  {
    if buffers == [] then [] else buffers[0] + Concat(buffers[1..])
  }

  /** The model after a message. */
  function SeenAll(m: Model, message: seq<Byte>): Model
    decreases |message|
  {
    if message == [] then m else SeenAll(Seen(m, message[0]), message[1..])
  }

  lemma {:induction false} StepsSplit(m: Model, a: seq<Byte>, b: seq<Byte>)
    ensures Steps(m, a + b) == Steps(m, a) + Steps(SeenAll(m, a), b)
    ensures SeenAll(m, a + b) == SeenAll(SeenAll(m, a), b)
    decreases |a|
  {
    hide Seen, ByteSteps;
    if a == [] {
      assert a + b == b;
    } else {
      assert (a + b)[0] == a[0] && (a + b)[1..] == a[1..] + b;
      StepsSplit(Seen(m, a[0]), a[1..], b);
    }
  }

  lemma StepsOfOne(m: Model, v: Byte)
    ensures Steps(m, [v]) == ByteSteps(m, v) && SeenAll(m, [v]) == Seen(m, v)
  {
    hide Seen, ByteSteps;
    assert [v][1..] == [];
    assert Steps(Seen(m, v), []) == [];
    assert SeenAll(Seen(m, v), []) == Seen(m, v);
  }

  lemma {:induction false} SeenAllOk(m: Model, message: seq<Byte>)
    requires ModelOk(m)
    ensures ModelOk(SeenAll(m, message)) && StepsOk(Steps(m, message))
    decreases |message|
  {
    hide Seen, ByteSteps, ModelOk;
    if message != [] {
      SeenOk(m, message[0]);
      SeenAllOk(Seen(m, message[0]), message[1..]);
    }
  }

  /** What the compressor makes of a message. */
  function Compressed(message: seq<Byte>): seq<Byte>
  {
    StartReady();
    FreshOk();
    SeenAllOk(Fresh(), message);
    Coded(START, Steps(Fresh(), message))
  }

  lemma StartReady()
    ensures Ready(START)
  {
  }

  /** One more byte of the message. */
  lemma StepsNext(m: Model, a: seq<Byte>, v: Byte, b: seq<Byte>)
    ensures Steps(m, a + [v]) == Steps(m, a) + ByteSteps(SeenAll(m, a), v)
    ensures SeenAll(m, a + [v]) == Seen(SeenAll(m, a), v)
    ensures Steps(m, a + [v] + b) == Steps(m, a) + (ByteSteps(SeenAll(m, a), v) + Steps(Seen(SeenAll(m, a), v), b))
  {
    hide Seen, ByteSteps, Steps, SeenAll;
    StepsSplit(m, a, [v]);
    StepsOfOne(SeenAll(m, a), v);
    StepsSplit(m, a + [v], b);
  }

  lemma SentIsStart(c: Interval, steps: seq<Step>)
    requires Ready(c) && StepsOk(steps)
    ensures Coded(c, steps) == Sent(c, steps) + Flushed(After(c, steps).low)
  {
    hide Sent, After, Flushed;
    NoStep(After(c, steps));
    CodedAppend(c, steps, []);
    assert steps + [] == steps;
    assert Coded(After(c, steps), []) == Flushed(After(c, steps).low);
  }

  lemma SeenAllFresh(a: seq<Byte>)
    ensures ModelOk(SeenAll(Fresh(), a))
  {
    FreshOk();
    SeenAllOk(Fresh(), a);
  }

  lemma ConcatNext(buffers: seq<seq<Byte>>, i: nat)
    requires i < |buffers|
    ensures Concat(buffers[i..]) == buffers[i] + Concat(buffers[i + 1..])
  {
    assert buffers[i..][0] == buffers[i] && buffers[i..][1..] == buffers[i + 1..];
  }
}
