/**
 What the contexts of a message contain, told from the message itself: how often a byte follows other bytes, and where
 it has been seen before.
 */
module PpmCounts {
  import opened Basics
  import opened RangeCoder
  import opened PpmModel
  import opened PpmMessage

  // ----- places in a message

  /** At place k of the message the byte v follows the bytes c. */
  predicate FollowsAt(a: seq<Byte>, k: nat, c: Name, v: Byte)
  {
    |c| <= k < |a| && a[k - |c|..k] == c && a[k] == v
  }

  /** The bytes at places j and k are the same, and so are the n bytes before them. */
  predicate SameAt(a: seq<Byte>, j: nat, k: nat, n: nat)
  {
    n <= j < |a| && n <= k < |a| && a[j - n..j] == a[k - n..k] && a[j] == a[k]
  }

  /** The byte at place k, with the n bytes before it, has occurred earlier. */
  ghost predicate Repeated(a: seq<Byte>, k: nat, n: nat)
  {
    exists j: nat :: j < k && SameAt(a, j, k, n)
  }

  /**
   The byte v is counted after c at place k: it follows c there, and if there is a longer context, of up to two bytes,
   then v has not followed that before.
   */
  ghost predicate CountedAt(a: seq<Byte>, k: nat, c: Name, v: Byte)
  {
    FollowsAt(a, k, c, v) && (|c| < 2 && |c| < k ==> !Repeated(a, k, |c| + 1))
  }

  /** The number of places at which v is counted after c. */
  ghost function Places(a: seq<Byte>, n: nat, c: Name, v: Byte): nat
    decreases n
  {
    if n == 0 then 0 else Places(a, n - 1, c, v) + if CountedAt(a, n - 1, c, v) then 1 else 0
  }

  lemma {:induction false} PlacesKept(a: seq<Byte>, b: Byte, n: nat, c: Name, v: Byte)
    requires n <= |a|
    ensures Places(a + [b], n, c, v) == Places(a, n, c, v)
    decreases n
  {
    hide CountedAt;
    if n > 0 {
      PlacesKept(a, b, n - 1, c, v);
      CountedKept(a, b, n - 1, c, v);
    }
  }

  lemma FollowsKept(a: seq<Byte>, b: Byte, k: nat, c: Name, v: Byte)
    requires k < |a|
    ensures FollowsAt(a + [b], k, c, v) <==> FollowsAt(a, k, c, v)
  {
    assert |c| <= k ==> (a + [b])[k - |c|..k] == a[k - |c|..k];
  }

  lemma SameKept(a: seq<Byte>, b: Byte, j: nat, k: nat, n: nat)
    requires j < |a| && k < |a|
    ensures SameAt(a + [b], j, k, n) <==> SameAt(a, j, k, n)
  {
    assert n <= j ==> (a + [b])[j - n..j] == a[j - n..j];
    assert n <= k ==> (a + [b])[k - n..k] == a[k - n..k];
  }

  lemma CountedKept(a: seq<Byte>, b: Byte, k: nat, c: Name, v: Byte)
    requires k < |a|
    ensures CountedAt(a + [b], k, c, v) <==> CountedAt(a, k, c, v)
  {
    hide FollowsAt, SameAt;
    FollowsKept(a, b, k, c, v);
    var n := |c| + 1;
    forall j: nat | j < k ensures SameAt(a + [b], j, k, n) <==> SameAt(a, j, k, n) {
      SameKept(a, b, j, k, n);
    }
  }

  /** A byte has been counted after c exactly if it has followed c: the first time, it is. */
  lemma {:induction false} CountedOnce(a: seq<Byte>, n: nat, c: Name, v: Byte)
    requires n <= |a|
    ensures Places(a, n, c, v) > 0 <==> exists k: nat :: k < n && FollowsAt(a, k, c, v)
    decreases n
  {
    hide FollowsAt;
    if n > 0 {
      CountedOnce(a, n - 1, c, v);
      if FollowsAt(a, n - 1, c, v) && !CountedAt(a, n - 1, c, v) {
        ShorterRepeated(a, n - 1, c, v);
      }
    }
  }

  lemma ShorterRepeated(a: seq<Byte>, k: nat, c: Name, v: Byte)
    requires FollowsAt(a, k, c, v) && |c| < k && Repeated(a, k, |c| + 1)
    ensures exists j: nat :: j < k && FollowsAt(a, j, c, v)
  {
    var n := |c| + 1;
    var j: nat :| j < k && SameAt(a, j, k, n);
    assert a[j - n..j][1..] == a[j - |c|..j] && a[k - n..k][1..] == a[k - |c|..k];
    assert FollowsAt(a, j, c, v);
  }

  // ----- the contexts after a message

  /** The last bytes of the message, at most two. */
  function History(a: seq<Byte>): Name
  {
    if |a| <= 2 then a else a[|a| - 2..]
  }

  /** The counts in context c are twice the places, or three times in the root, and an escape counts five. */
  ghost predicate Counts(x: Context, a: seq<Byte>, c: Name)
  {
    && (forall v: Byte :: x.counts[v] == 2 * Places(a, |a|, c, v))
    && x.escapes == 5 * |Known(a, c)|
    && x.total == x.escapes + Whole(x.counts) <= 7 * |a|
  }

  /** The bytes that have followed c. */
  ghost function Known(a: seq<Byte>, c: Name): set<Byte>
  {
    set v: Byte | Places(a, |a|, c, v) > 0
  }

  /** The walk for v from the context c down comes to the context d. */
  predicate Comes(m: Model, c: Name, v: Byte, d: Name)
    decreases |c|
  {
    c == d || (!Stops(m, c, v) && Comes(m, c[1..], v, d))
  }

  lemma {:induction false} ComesKept(m: Model, m': Model, c: Name, v: Byte, d: Name, e: Name)
    requires |c| < |e| && forall x: Name :: x != e ==> m'.Get(x) == m.Get(x)
    ensures Comes(m', c, v, d) <==> Comes(m, c, v, d)
    decreases |c|
  {
    if c != [] {
      ComesKept(m, m', c[1..], v, d, e);
    }
  }

  lemma {:induction false} ComesShorter(m: Model, c: Name, v: Byte, d: Name)
    requires Comes(m, c, v, d)
    ensures |d| <= |c|
    decreases |c|
  {
    if c != d {
      ComesShorter(m, c[1..], v, d);
    }
  }

  /** The walk counts v in the contexts that it comes to, and changes no other. */
  lemma {:induction false} WalkGet(m: Model, c: Name, v: Byte, d: Name)
    ensures Walked(m, c, v).0.Get(d) ==
      if !Comes(m, c, v, d) then m.Get(d)
      else if d == [] then RootUpdated(m.Get(d), v) else SubUpdated(m.Get(d), v)
    ensures Walked(m, c, v).0.history == m.history
    decreases |c|
  {
    hide RootUpdated, SubUpdated;
    if !Stops(m, c, v) {
      var m' := Visited(m, c, v);
      WalkGet(m', c[1..], v, d);
      ComesKept(m, m', c[1..], v, d, c);
      if Comes(m, c[1..], v, d) {
        ComesShorter(m, c[1..], v, d);
      }
    }
  }

  lemma {:induction false} WalkUsed(m: Model, c: Name, v: Byte)
    ensures Walked(m, c, v).0.used <= m.used + |c| + 1
    decreases |c|
  {
    hide RootUpdated, SubUpdated;
    if !Stops(m, c, v) {
      WalkUsed(Visited(m, c, v), c[1..], v);
    }
  }

  /** The model has just seen the message a. */
  ghost predicate Reflects(m: Model, a: seq<Byte>)
  {
    && m.history == History(a) && m.used <= 1 + 3 * |a|
    && forall c: Name :: 1 <= |c| <= 2 ==> Counts(m.Get(c), a, c)
  }

  lemma SameFollows(a: seq<Byte>, v: Byte, j: nat, n: nat)
    requires j < |a| && n <= |a|
    ensures SameAt(a + [v], j, |a|, n) <==> FollowsAt(a, j, a[|a| - n..], v)
  {
    var b := a + [v];
    assert b[|a| - n..|a|] == a[|a| - n..];
    assert n <= j ==> b[j - n..j] == a[j - n..j];
  }

  lemma CountThere(m: Model, a: seq<Byte>, c: Name, v: Byte)
    requires Reflects(m, a) && 1 <= |c| <= 2
    ensures m.Get(c).counts[v] == 2 * Places(a, |a|, c, v)
  {
    hide Places, Known, Whole, History;
    assert Counts(m.Get(c), a, c);
  }

  /** A byte is known in a context that the message ends with exactly if it has followed that before. */
  lemma KnownThere(m: Model, a: seq<Byte>, n: nat, v: Byte)
    requires Reflects(m, a) && 1 <= n <= 2 && n <= |a|
    ensures m.Get(a[|a| - n..]).counts[v] > 0 <==> Repeated(a + [v], |a|, n)
  {
    hide Places, Reflects, SameAt, FollowsAt;
    var c, b := a[|a| - n..], a + [v];
    CountThere(m, a, c, v);
    CountedOnce(a, |a|, c, v);
    forall j: nat | j < |a| ensures SameAt(b, j, |a|, n) <==> FollowsAt(a, j, c, v) {
      SameFollows(a, v, j, n);
    }
  }

  lemma RepeatedShorter(a: seq<Byte>, k: nat, n: nat)
    requires Repeated(a, k, n + 1)
    ensures Repeated(a, k, n)
  {
    var j: nat :| j < k && SameAt(a, j, k, n + 1);
    assert a[j - n - 1..j][1..] == a[j - n..j] && a[k - n - 1..k][1..] == a[k - n..k];
    assert SameAt(a, j, k, n);
  }

  lemma {:induction false} ComesSuffix(m: Model, c: Name, v: Byte, d: Name)
    requires Comes(m, c, v, d)
    ensures |d| <= |c| && d == c[|c| - |d|..]
    decreases |c|
  {
    if c != d {
      ComesSuffix(m, c[1..], v, d);
      assert c[1..][|c| - 1 - |d|..] == c[|c| - |d|..];
    }
  }

  lemma EndsWith(a: seq<Byte>, v: Byte, c: Name)
    ensures FollowsAt(a + [v], |a|, c, v) <==> |c| <= |a| && c == a[|a| - |c|..]
    ensures var h := History(a);
      |c| <= 2 ==> (|c| <= |a| && c == a[|a| - |c|..] <==> |c| <= |h| && c == h[|h| - |c|..])
    ensures |History(a)| <= 2
  {
    var h := History(a);
    assert |c| <= |a| ==> (a + [v])[|a| - |c|..|a|] == a[|a| - |c|..];
    assert |c| <= |h| ==> h[|h| - |c|..] == a[|a| - |c|..];
  }

  /** The walk comes to a context exactly if the byte is to be counted there. */
  lemma ComesToCounted(m: Model, a: seq<Byte>, v: Byte, c: Name)
    requires Reflects(m, a)
    ensures Comes(m, History(a), v, c) <==> |c| <= 2 && CountedAt(a + [v], |a|, c, v)
  {
    hide Reflects, History, FollowsAt, Repeated, Comes;
    var h := History(a);
    EndsWith(a, v, c);
    if |c| <= |h| && c == h[|h| - |c|..] {
      ComesDown(m, a, v, |h| - |c|);
    } else if Comes(m, h, v, c) {
      ComesSuffix(m, h, v, c);
    }
  }

  lemma ComesDown(m: Model, a: seq<Byte>, v: Byte, i: nat)
    requires Reflects(m, a) && i <= |History(a)|
    ensures var n := |History(a)| - i;
      Comes(m, History(a), v, History(a)[i..]) <==> (n < 2 && n < |a| ==> !Repeated(a + [v], |a|, n + 1))
  {
    hide Reflects, Repeated;
    var h, b := History(a), a + [v];
    if i == 0 {
      assert h[0..] == h;
    } else {
      KnownThereIf(m, a, |h|, v);
      assert h == a[|a| - |h|..] && h[1..] == a[|a| - (|h| - 1)..];
      if i == 1 {
        assert Comes(m, h[1..], v, h[1..]);
        assert Comes(m, h, v, h[1..]) <==> !Stops(m, h, v);
      } else {
        assert h[2..] == [] && h[1..][1..] == [];
        KnownThereIf(m, a, 1, v);
        if Repeated(b, |a|, 2) {
          RepeatedShorter(b, |a|, 1);
        }
        assert Comes(m, [], v, []);
        assert Comes(m, h[1..], v, []) <==> !Stops(m, h[1..], v);
        assert Comes(m, h, v, []) <==> !Stops(m, h, v) && !Stops(m, h[1..], v);
      }
    }
  }

  lemma KnownThereIf(m: Model, a: seq<Byte>, n: nat, v: Byte)
    requires Reflects(m, a) && n <= 2 && n <= |a|
    ensures n > 0 ==> (m.Get(a[|a| - n..]).counts[v] > 0 <==> Repeated(a + [v], |a|, n))
  {
    hide Reflects, Repeated;
    if n > 0 {
      KnownThere(m, a, n, v);
    }
  }

  // ----- one more byte

  lemma {:induction false} PlacesFew(a: seq<Byte>, n: nat, c: Name, v: Byte)
    requires n <= |a|
    ensures Places(a, n, c, v) <= if n < |c| then 0 else n - |c|
    decreases n
  {
    if n > 0 {
      PlacesFew(a, n - 1, c, v);
    }
  }

  lemma PlacesNext(a: seq<Byte>, b: Byte, c: Name, v: Byte)
    ensures Places(a + [b], |a| + 1, c, v) == Places(a, |a|, c, v) + if CountedAt(a + [b], |a|, c, v) then 1 else 0
    ensures CountedAt(a + [b], |a|, c, v) ==> v == b
  {
    hide Repeated;
    PlacesKept(a, b, |a|, c, v);
  }

  /** A context below the root in which the byte is counted, as long as there is no need to halve anything. */
  lemma CountsBumped(x: Context, a: seq<Byte>, c: Name, b: Byte)
    requires Counts(x, a, c) && 1 <= |c| <= 2 && |a| < 126 && CountedAt(a + [b], |a|, c, b)
    ensures Counts(SubUpdated(x, b), a + [b], c)
  {
    hide Places, CountedAt, Sum;
    var more := a + [b];
    PlacesFew(a, |a|, c, b);
    forall v: Byte
      ensures Places(more, |more|, c, v) == Places(a, |a|, c, v) + if v == b then 1 else 0
    {
      PlacesNext(a, b, c, v);
    }
    assert Known(more, c) == Known(a, c) + {b};
    assert b in Known(a, c) <==> x.counts[b] > 0;
    SumWith(x.counts, b, x.counts[b] + 2, 0, 256);
  }

  lemma CountsKept(x: Context, a: seq<Byte>, c: Name, b: Byte)
    requires Counts(x, a, c) && !CountedAt(a + [b], |a|, c, b)
    ensures Counts(x, a + [b], c)
  {
    hide Places, CountedAt, Whole;
    var more := a + [b];
    forall v: Byte ensures Places(more, |more|, c, v) == Places(a, |a|, c, v) {
      PlacesNext(a, b, c, v);
    }
    assert Known(more, c) == Known(a, c);
  }

  lemma SeenReflects(m: Model, a: seq<Byte>, b: Byte)
    requires Reflects(m, a) && |a| < 126
    ensures Reflects(Seen(m, b), a + [b])
    ensures Seen(m, b) == Walked(m, m.history, b).0.(history := NextHistory(m.history, b))
  {
    hide Counts, Walked, CountedAt, Comes, SubUpdated, RootUpdated;
    var w := Walked(m, m.history, b).0;
    WalkUsed(m, m.history, b);
    assert w.used < 4094;
    HistoryNext(a, b);
    forall c: Name | 1 <= |c| <= 2 ensures Counts(w.Get(c), a + [b], c) {
      WalkGet(m, m.history, b, c);
      ComesToCounted(m, a, b, c);
      if CountedAt(a + [b], |a|, c, b) {
        CountsBumped(m.Get(c), a, c, b);
      } else {
        CountsKept(m.Get(c), a, c, b);
      }
    }
    assert forall c: Name :: Seen(m, b).Get(c) == w.Get(c);
  }

  lemma HistoryNext(a: seq<Byte>, b: Byte)
    ensures |History(a)| <= 2 && History(a + [b]) == NextHistory(History(a), b)
  {
  }

  lemma NothingSeen()
    ensures Reflects(Fresh(), [])
  {
    hide Whole, NoCounts, History;
    NothingCounted();
    var none: seq<Byte> := [];
    forall c: Name | 1 <= |c| <= 2 ensures Counts(Fresh().Get(c), none, c) {
      assert Fresh().Get(c) == Empty();
      assert Known(none, c) == {};
    }
    NoHistory();
  }

  lemma NoHistory()
    ensures History([]) == []
  {
  }

  lemma {:induction false} SeenAllReflects(a: seq<Byte>)
    requires |a| <= 126
    ensures Reflects(SeenAll(Fresh(), a), a)
    decreases |a|
  {
    hide Reflects, Seen;
    if a == [] {
      NothingSeen();
    } else {
      var n := |a| - 1;
      SeenAllReflects(a[..n]);
      assert a[..n] + [a[n]] == a;
      StepsNext(Fresh(), a[..n], a[n], []);
      SeenReflects(SeenAll(Fresh(), a[..n]), a[..n], a[n]);
    }
  }

  /** The number of places at which v follows c at all. */
  ghost function Occurrences(a: seq<Byte>, n: nat, c: Name, v: Byte): nat
    decreases n
  {
    if n == 0 then 0 else Occurrences(a, n - 1, c, v) + if FollowsAt(a, n - 1, c, v) then 1 else 0
  }

  lemma {:induction false} PlacesOccur(a: seq<Byte>, n: nat, c: Name, v: Byte)
    requires |c| == 2
    ensures Places(a, n, c, v) == Occurrences(a, n, c, v)
    decreases n
  {
    if n > 0 {
      PlacesOccur(a, n - 1, c, v);
    }
  }

  /**
   After a message of up to 126 bytes: in a context of two bytes, the count of a byte is twice the number of places at
   which it follows them; escapes are five times the number of bytes that do; and the total is their sum.
   */
  lemma TwoByteContexts(a: seq<Byte>, c: Name)
    requires |a| <= 126 && |c| == 2
    ensures var x := SeenAll(Fresh(), a).Get(c);
      && (forall v: Byte :: x.counts[v] == 2 * Occurrences(a, |a|, c, v))
      && x.escapes == 5 * |set v: Byte | Occurrences(a, |a|, c, v) > 0|
      && x.total == x.escapes + Whole(x.counts)
  {
    hide Places, Occurrences, SeenAll, Whole;
    SeenAllReflects(a);
    forall v: Byte ensures Places(a, |a|, c, v) == Occurrences(a, |a|, c, v) {
      PlacesOccur(a, |a|, c, v);
    }
    assert Counts(SeenAll(Fresh(), a).Get(c), a, c);
    assert Known(a, c) == set v: Byte | Occurrences(a, |a|, c, v) > 0;
  }

  /**
   In a context of one byte it is twice the number of places at which it follows that byte and has not followed the two
   bytes before.
   */
  lemma OneByteContexts(a: seq<Byte>, c: Name)
    requires |a| <= 126 && |c| == 1
    ensures var x := SeenAll(Fresh(), a).Get(c);
      && (forall v: Byte :: x.counts[v] == 2 * Places(a, |a|, c, v))
      && x.escapes == 5 * |set v: Byte | Places(a, |a|, c, v) > 0|
      && x.total == x.escapes + Whole(x.counts)
  {
    hide Places, SeenAll, Whole;
    SeenAllReflects(a);
    assert Counts(SeenAll(Fresh(), a).Get(c), a, c);
    assert Known(a, c) == set v: Byte | Places(a, |a|, c, v) > 0;
  }

  // ----- the root

  ghost predicate RootCounts(x: Context, a: seq<Byte>)
  {
    && (forall v: Byte :: x.counts[v] == 3 * Places(a, |a|, [], v))
    && x.escapes == 1 && x.total == 257 + Whole(x.counts) <= 257 + 3 * |a|
  }

  lemma RootBumpedCounts(x: Context, a: seq<Byte>, b: Byte)
    requires RootCounts(x, a) && |a| < 84 && CountedAt(a + [b], |a|, [], b)
    ensures RootCounts(RootUpdated(x, b), a + [b])
  {
    hide Places, CountedAt, Sum;
    PlacesFew(a, |a|, [], b);
    forall v: Byte
      ensures Places(a + [b], |a| + 1, [], v) == Places(a, |a|, [], v) + if v == b then 1 else 0
    {
      PlacesNext(a, b, [], v);
    }
    SumWith(x.counts, b, x.counts[b] + 3, 0, 256);
  }

  lemma RootKeptCounts(x: Context, a: seq<Byte>, b: Byte)
    requires RootCounts(x, a) && !CountedAt(a + [b], |a|, [], b)
    ensures RootCounts(x, a + [b])
  {
    hide Places, CountedAt, Whole;
    forall v: Byte ensures Places(a + [b], |a| + 1, [], v) == Places(a, |a|, [], v) {
      PlacesNext(a, b, [], v);
    }
  }

  lemma NothingInRoot()
    ensures RootCounts(Fresh().Get([]), [])
  {
    hide Whole, NoCounts;
    NothingCounted();
  }

  /**
   After a message of up to 84 bytes: in the root it is three times the number of places at which it has not followed
   the byte before, and the total counts every byte and the escape once more.
   */
  lemma {:induction false} RootContext(a: seq<Byte>)
    requires |a| <= 84
    ensures var x := SeenAll(Fresh(), a).Get([]);
      && (forall v: Byte :: x.counts[v] == 3 * Places(a, |a|, [], v))
      && x.escapes == 1 && x.total == 257 + Whole(x.counts)
    ensures RootCounts(SeenAll(Fresh(), a).Get([]), a)
    decreases |a|
  {
    hide Seen, Walked, Whole, Places, CountedAt, Comes, RootUpdated, Reflects;
    if a == [] {
      NothingInRoot();
    } else {
      var n := |a| - 1;
      var p, b := a[..n], a[n];
      var m := SeenAll(Fresh(), p);
      RootContext(p);
      assert p + [b] == a;
      StepsNext(Fresh(), p, b, []);
      SeenAllReflects(p);
      SeenReflects(m, p, b);
      HistoryThere(m, p);
      WalkGet(m, m.history, b, []);
      ComesToCounted(m, p, b, []);
      if CountedAt(a, n, [], b) {
        RootBumpedCounts(m.Get([]), p, b);
      } else {
        RootKeptCounts(m.Get([]), p, b);
      }
    }
  }

  lemma HistoryThere(m: Model, a: seq<Byte>)
    requires Reflects(m, a)
    ensures m.history == History(a)
  {
    hide Counts, History;
  }

  // ----- when counts are halved, and the pool is cleared

  /** Below the root, counts are halved when the byte's was above 251, or the total passes 65280. */
  lemma SubHalved(x: Context, v: Byte)
    ensures var y := SubUpdated(x, v);
      var n, e := x.counts[v] + 2, x.escapes + if x.counts[v] == 0 then 5 else 0;
      if x.counts[v] > 251 || x.total + (if x.counts[v] == 0 then 7 else 2) > 65280 then
        && y.counts[v] == n - n / 2 && y.escapes == e - e / 2 && y.total == y.escapes + Whole(y.counts)
        && (forall u: Byte :: u != v ==> y.counts[u] == x.counts[u] - x.counts[u] / 2)
      else
        && y.counts == x.counts[v := n] && y.escapes == e
        && y.total == x.total + if x.counts[v] == 0 then 7 else 2
  {
    hide Sum;
  }

  /** In the root they are halved when the byte's was above 249, or the total passes 65280. */
  lemma RootHalved(x: Context, v: Byte)
    ensures var y := RootUpdated(x, v);
      var n := x.counts[v] + 3;
      if x.counts[v] > 249 || x.total + 3 > 65280 then
        && y.counts[v] == n - n / 2 && y.escapes == x.escapes - x.escapes / 2
        && y.total == y.escapes + 256 + Whole(y.counts)
        && (forall u: Byte :: u != v ==> y.counts[u] == x.counts[u] - x.counts[u] / 2)
      else y.counts == x.counts[v := n] && y.escapes == x.escapes && y.total == x.total + 3
  {
    hide Sum;
  }

  /** The pool is cleared when 4094 symbols are in use, and then everything starts anew. */
  lemma PoolCleared(m: Model, v: Byte)
    ensures var w := Walked(m, m.history, v).0;
      if w.used >= 4094 then Seen(m, v) == Fresh()
      else Seen(m, v).contexts == w.contexts && Seen(m, v).used == w.used
  {
    hide Walked;
  }

  // ----- a message of three bytes

  lemma NoneBelow(counts: Counts, v: Byte, n: nat)
    requires counts == NoCounts()[v := n]
    ensures Sum(counts, 0, v) == 0
  {
    hide NoCounts;
    NothingCounted();
    SumZero(counts, 0, v);
  }

  /** The steps that code the byte 97 three times: at the root, at the root again, and in the context of 97. */
  lemma ThreeSteps()
    ensures Steps(Fresh(), [97, 97, 97]) == [Step(98, 1, 257), Step(98, 4, 260), Step(5, 2, 7)]
  {
    hide Seen, ByteSteps, Steps, SubUpdated;
    var m1, m2 := Seen(Fresh(), 97), Seen(Seen(Fresh(), 97), 97);
    OnceSeen();
    TwiceSeen(m1);
    ThirdStep(m2);
    StepsOfThree(Fresh(), m1, m2);
  }

  /** The root after the byte 97. */
  function RootOnce(): Context
  {
    Context(NoCounts()[97 := 3], 1, 260)
  }

  lemma OnceSeen()
    ensures ByteSteps(Fresh(), 97) == [Step(98, 1, 257)]
    ensures Seen(Fresh(), 97) == Model(map[[] := RootOnce()], [97], 2)
  {
    var m, w := Fresh(), Visited(Fresh(), [], 97);
    NothingCounted();
    hide Sum, NoCounts, Whole;
    assert NoCounts()[97 := 0] == NoCounts();
    NoneBelow(NoCounts(), 97, 0);
    assert RootUpdated(m.Get([]), 97) == RootOnce();
    assert Walked(m, [], 97) == (w, [Step(98, 1, 257)]);
    assert w.contexts == map[[] := RootOnce()];
  }

  lemma TwiceSeen(m: Model)
    requires m == Model(map[[] := RootOnce()], [97], 2)
    ensures ByteSteps(m, 97) == [Step(98, 4, 260)]
    ensures Seen(m, 97).history == [97, 97] && [97, 97] !in Seen(m, 97).contexts
    ensures Seen(m, 97).Get([97]) == SubUpdated(Empty(), 97)
  {
    NothingCounted();
    hide Sum, NoCounts, Whole, SubUpdated, RootUpdated;
    NoneBelow(RootOnce().counts, 97, 3);
    var v := Visited(m, [97], 97);
    var w := Visited(v, [], 97);
    assert m.Get([97]) == Empty() && !Stops(m, [97], 97);
    assert [97][1..] == [];
    assert VisitSteps(m, [97], 97) == [];
    assert v.Get([]) == RootOnce();
    var one := [Step(98, 4, 260)];
    assert Walked(v, [], 97) == (w, one);
    assert [] + one == one;
    assert Walked(m, [97], 97) == (w, one);
    assert v.used == 3 && w.used == 3;
  }

  lemma ThirdStep(m: Model)
    requires m.history == [97, 97] && [97, 97] !in m.contexts && m.Get([97]) == SubUpdated(Empty(), 97)
    ensures ByteSteps(m, 97) == [Step(5, 2, 7)]
  {
    NothingCounted();
    hide Sum, NoCounts, Whole;
    var x := m.Get([97]);
    assert x.counts == NoCounts()[97 := 2] && x.escapes == 5 && x.total == 7;
    hide SubUpdated;
    NoneBelow(x.counts, 97, 2);
    var v := Visited(m, [97, 97], 97);
    assert [97, 97][1..] == [97];
    assert VisitSteps(m, [97, 97], 97) == [] && v.Get([97]) == x;
    assert Walked(v, [97], 97).1 == [Step(5, 2, 7)];
  }

  lemma StepsOfThree(m0: Model, m1: Model, m2: Model)
    requires m1 == Seen(m0, 97) && m2 == Seen(m1, 97)
    ensures Steps(m0, [97, 97, 97]) == ByteSteps(m0, 97) + (ByteSteps(m1, 97) + ByteSteps(m2, 97))
  {
    hide Seen, ByteSteps;
    var a: seq<Byte> := [97];
    StepsOfOne(m0, 97);
    StepsOfOne(m1, 97);
    StepsOfOne(m2, 97);
    StepsSplit(m0, a, a + a);
    StepsSplit(m1, a, a);
    assert a + (a + a) == [97, 97, 97];
  }

  /** And the bytes that they are coded in. */
  lemma ThreeBytes()
    ensures Compressed([97, 97, 97]) == [0x62, 0x01, 0x4C, 0xA3]
  {
    hide Steps, Coded, Ready, StepsOk, ModelOk;
    ThreeSteps();
    CodedThree();
    FreshOk();
    StartReady();
    SeenAllOk(Fresh(), [97, 97, 97]);
  }

  lemma CodedThree()
    ensures Ready(START) && StepsOk([Step(98, 1, 257), Step(98, 4, 260), Step(5, 2, 7)])
    ensures Coded(START, [Step(98, 1, 257), Step(98, 4, 260), Step(5, 2, 7)]) == [0x62, 0x01, 0x4C, 0xA3]
  {
    hide Ready, StepsOk, StepOk, Next, Emitted, Flushed, Coded;
    var c1, c2, c3 := Interval(1637769630, 16711935), Interval(1644068678, 257104), Interval(21799680, 18805248);
    var s1, s2, s3 := Step(98, 1, 257), Step(98, 4, 260), Step(5, 2, 7);
    FirstStep(c1);
    SecondStep(c1, c2);
    LastStep(c2, c3);
    LastBytes(c3);
    CodedNothing(c3);
    CodedNext(c2, s3, []);
    CodedNext(c1, s2, [s3] + []);
    CodedNext(START, s1, [s2] + ([s3] + []));
    assert [s1] + ([s2] + ([s3] + [])) == [s1, s2, s3];
  }

  lemma CodedNothing(c: Interval)
    requires Ready(c)
    ensures StepsOk([]) && Coded(c, []) == Flushed(c.low)
  {
    hide Flushed;
  }

  lemma CodedNext(c: Interval, s: Step, rest: seq<Step>)
    requires Ready(c) && StepOk(s) && StepsOk(rest)
    ensures StepsOk([s] + rest) && Coded(c, [s] + rest) == Emitted(c, s) + Coded(Next(c, s), rest)
  {
    hide Next, Emitted, Flushed;
    assert ([s] + rest)[0] == s && ([s] + rest)[1..] == rest;
    StepsAppend([s], rest);
    assert StepsOk([s]);
  }

  lemma FirstStep(c: Interval)
    requires c == Interval(1637769630, 16711935)
    ensures Ready(START) && Ready(c) && StepOk(Step(98, 1, 257))
    ensures Next(START, Step(98, 1, 257)) == c && Emitted(START, Step(98, 1, 257)) == []
  {
    StartReady();
    EmittedIs(START, Step(98, 1, 257));
    assert Narrowed(START, Step(98, 1, 257)) == c;
    RenormalisedDone(c);
  }

  lemma SecondStep(c: Interval, d: Interval)
    requires c == Interval(1637769630, 16711935) && d == Interval(1644068678, 257104)
    ensures Ready(c) && Ready(d) && StepOk(Step(98, 4, 260))
    ensures Next(c, Step(98, 4, 260)) == d && Emitted(c, Step(98, 4, 260)) == []
  {
    EmittedIs(c, Step(98, 4, 260));
    assert Narrowed(c, Step(98, 4, 260)) == d;
    RenormalisedDone(d);
  }

  lemma LastStep(c: Interval, d: Interval)
    requires c == Interval(1644068678, 257104) && d == Interval(21799680, 18805248)
    ensures Ready(c) && Ready(d) && StepOk(Step(5, 2, 7))
    ensures Next(c, Step(5, 2, 7)) == d && Emitted(c, Step(5, 2, 7)) == [0x62]
  {
    BothReady();
    var n := Interval(1644252323, 73458);
    ShiftedOnce(n);
    assert Narrowed(c, Step(5, 2, 7)) == n;
    hide Renormalised, Settled, Shifted, Proper, Narrowed;
    EmittedIs(c, Step(5, 2, 7));
    RenormalisedNext(n);
    RenormalisedDone(d);
  }

  lemma BothReady()
    ensures Ready(Interval(1644068678, 257104)) && Ready(Interval(21799680, 18805248))
  {
  }

  lemma ShiftedOnce(n: Interval)
    requires n == Interval(1644252323, 73458)
    ensures Proper(n) && !Settled(n) && Shifted(n) == Interval(21799680, 18805248) && TopByte(n.low) == 0x62
  {
    assert !Straddles(n);
  }

  lemma LastBytes(c: Interval)
    requires c.low == 21799680
    ensures Flushed(c.low) == [0x01, 0x4C, 0xA3]
  {
    assert Flushed(0) == [];
    assert Flushed(2734686208) == [0xA3] + Flushed(0);
    assert Flushed(1285750784) == [0x4C] + Flushed(2734686208);
    assert Flushed(21799680) == [0x01] + Flushed(1285750784);
  }
}
