/**
 The list of lost blocks is put in order by an exchange sort that stops at the first place that needs no exchange.  It
 is not a general sort: this is what it does to a list, and which lists it sorts.
 */
module ErasedOrder {
  import opened Basics
  import opened Cauchy
  import opened ErasureCode

  /** Everything before n is below everything from n on. */
  predicate Cut(s: seq<nat>, n: nat)
    requires n <= |s|
  {
    forall i, j :: 0 <= i < n <= j < |s| ==> s[i] < s[j]
  }

  /** The length of the shortest part at the start, not empty, that is below all the rest. */
  function FirstCut(s: seq<nat>, n: nat): (c: nat)
    requires n <= |s|
    ensures n <= c <= |s| && Cut(s, c) && forall k :: n <= k < c ==> !Cut(s, k)
    decreases |s| - n
  {
    if Cut(s, n) then n else FirstCut(s, n + 1)
  }

  /** The list with its start in order, up to the first cut, and the rest as it was. */
  ghost predicate OrderedToCut(s: seq<nat>, t: seq<nat>)
    requires s != []
  {
    var c := FirstCut(s, 1);
    && |t| == |s| && Ascending(t[..c]) && Cut(t, c) && t[c..] == s[c..]
  }

  /** The list comes out sorted exactly if what follows the first cut was ascending before. */
  lemma SortedExactly(s: seq<nat>, t: seq<nat>)
    requires s != [] && OrderedToCut(s, t)
    ensures Ascending(t) <==> Ascending(s[FirstCut(s, 1)..])
  {
    var c := FirstCut(s, 1);
    hide FirstCut;
    assert forall i :: 0 <= i < |s| - c ==> t[c..][i] == t[c + i];
    if Ascending(s[c..]) {
      forall i, j | 0 <= i < j < |t| ensures t[i] < t[j] {
        if j < c {
          assert t[..c][i] < t[..c][j];
        } else if i >= c {
          assert t[c..][i - c] < t[c..][j - c];
        }
      }
    }
  }

  /** A list that does not come out sorted. */
  lemma NotAGeneralSort(t: seq<nat>)
    requires OrderedToCut([0, 2, 1], t)
    ensures t == [0, 2, 1] && !Ascending(t)
  {
    var s := [0, 2, 1];
    assert Cut(s, 1);
    assert t[1..][0] == s[1..][0] && t[1..][1] == s[1..][1];
    assert s[1..] == [2, 1];
    SortedExactly(s, t);
    assert !Ascending(s[1..]) by {
      assert s[1..][0] > s[1..][1];
    }
    assert t[0] < t[2] == 1;
  }

  /** An ascending list is left alone. */
  lemma AscendingKept(s: seq<nat>, t: seq<nat>)
    requires s != [] && OrderedToCut(s, t) && Ascending(s) && SameEntries(s, t)
    ensures t == s
  {
    assert Cut(s, 1);
    assert s == [s[0]] + s[1..] && t == [t[0]] + t[1..];
    assert multiset(s) == multiset{s[0]} + multiset(s[1..]) && multiset(t) == multiset{t[0]} + multiset(s[1..]);
    SameRest(s[0], t[0], multiset(s[1..]));
  }

  lemma SameRest(x: nat, y: nat, m: multiset<nat>)
    requires multiset{x} + m == multiset{y} + m
    ensures x == y
  {
    assert (multiset{x} + m)[x] == 1 + m[x];
  }

  // ----- counting

  function CountUpTo(s: seq<nat>, v: nat): nat
    decreases |s|
  {
    if s == [] then 0 else CountUpTo(s[..|s| - 1], v) + if s[|s| - 1] <= v then 1 else 0
  }

  lemma {:induction false} CountPut(s: seq<nat>, i: nat, x: nat, v: nat)
    requires i < |s|
    ensures CountUpTo(s[i := x], v) == CountUpTo(s, v) - (if s[i] <= v then 1 else 0) + (if x <= v then 1 else 0)
    decreases |s|
  {
    var n := |s| - 1;
    if i == n {
      assert s[i := x][..n] == s[..n];
    } else {
      assert s[i := x][..n] == s[..n][i := x];
      CountPut(s[..n], i, x, v);
    }
  }

  lemma CountSwap(s: seq<nat>, i: nat, j: nat, v: nat)
    requires i < j < |s|
    ensures CountUpTo(s[i := s[j]][j := s[i]], v) == CountUpTo(s, v)
  {
    CountPut(s, i, s[j], v);
    CountPut(s[i := s[j]], j, s[i], v);
  }

  /** If the first m entries and possibly others are up to v. */
  lemma {:induction false} CountStart(s: seq<nat>, m: nat, v: nat)
    requires m <= |s| && forall i :: 0 <= i < m ==> s[i] <= v
    ensures CountUpTo(s, v) >= m
    ensures (forall i :: m <= i < |s| ==> s[i] > v) <==> CountUpTo(s, v) == m
    decreases |s|
  {
    if s != [] {
      var n := |s| - 1;
      if m <= n {
        CountStart(s[..n], m, v);
        assert forall i :: 0 <= i < n ==> s[..n][i] == s[i];
      } else {
        CountStart(s[..n], n, v);
      }
    }
  }

  function MaxOf(s: seq<nat>, n: nat): nat
    requires 0 < n <= |s|
    decreases n
  {
    if n == 1 then s[0] else var m := MaxOf(s, n - 1); if m < s[n - 1] then s[n - 1] else m
  }

  lemma {:induction false} MaxIs(s: seq<nat>, n: nat)
    requires 0 < n <= |s|
    ensures forall i :: 0 <= i < n ==> s[i] <= MaxOf(s, n)
    ensures exists i :: 0 <= i < n && s[i] == MaxOf(s, n)
    decreases n
  {
    if n > 1 {
      MaxIs(s, n - 1);
    }
  }

  lemma {:induction false} MaxGrows(s: seq<nat>, m: nat, n: nat)
    requires 0 < m <= n <= |s|
    ensures MaxOf(s, m) <= MaxOf(s, n)
    decreases n
  {
    if m < n {
      MaxGrows(s, m, n - 1);
    }
  }

  // ----- the sort

  ghost predicate Permuted(s: seq<nat>, a: seq<nat>)
  {
    multiset(a) == multiset(s) && forall v: nat :: CountUpTo(a, v) == CountUpTo(s, v)
  }

  lemma SwapPermuted(s: seq<nat>, a: seq<nat>, i: nat, j: nat)
    requires i < j < |a| && Permuted(s, a)
    ensures Permuted(s, a[i := a[j]][j := a[i]])
  {
    hide CountUpTo;
    forall v: nat ensures CountUpTo(a[i := a[j]][j := a[i]], v) == CountUpTo(a, v) {
      CountSwap(a, i, j, v);
    }
  }

  /**
   Before the pass for place i: the smallest i entries are in place, and place i holds the largest of the first i + 1.
   */
  ghost predicate Stage(s: seq<nat>, a: seq<nat>, i: nat, c: nat)
    requires i < c <= |s| == |a|
  {
    && Distinct(a)
    && (forall p, q :: 0 <= p < i && p < q < |a| ==> a[p] < a[q])
    && (forall j :: i < j < |a| ==> s[j] <= a[j] <= MaxOf(s, j + 1))
    && (forall j :: c <= j < |a| ==> a[j] == s[j])
    && Permuted(s, a)
  }

  /** During that pass, with the entries before j looked at. */
  ghost predicate Pass(s: seq<nat>, a: seq<nat>, i: nat, j: nat, c: nat)
    requires i < c <= |s| == |a| && i < j <= |s|
  {
    && Stage(s, a, i, c)
    && a[i] <= MaxOf(s, i + 1)
    && (forall q :: i < q < j ==> a[i] < a[q])
    && (j == i + 1 ==> a[i] == MaxOf(s, i + 1))
    && (j > i + 1 ==> a[i + 1] == MaxOf(s, i + 2))
  }

  lemma Exchange(s: seq<nat>, a: seq<nat>, i: nat, j: nat, c: nat)
    requires i < c <= |s| == |a| && i < j < |s| && Pass(s, a, i, j, c) && Cut(s, c) && a[i] > a[j]
    ensures j < c && Pass(s, a[i := a[j]][j := a[i]], i, j + 1, c)
  {
    hide CountUpTo, MaxOf, Permuted;
    MaxIs(s, i + 1);
    MaxGrows(s, i + 1, j + 1);
    MaxStep(s, i + 1);
    SwapPermuted(s, a, i, j);
  }

  lemma MaxStep(s: seq<nat>, n: nat)
    requires 0 < n < |s|
    ensures MaxOf(s, n + 1) == if MaxOf(s, n) < s[n] then s[n] else MaxOf(s, n)
  {
  }

  lemma NoExchange(s: seq<nat>, a: seq<nat>, i: nat, j: nat, c: nat)
    requires i < c <= |s| == |a| && i < j < |s| && Pass(s, a, i, j, c) && a[i] <= a[j]
    ensures Pass(s, a, i, j + 1, c)
  {
    hide CountUpTo, MaxOf;
    MaxStep(s, i + 1);
  }

  lemma PassFacts(s: seq<nat>, a: seq<nat>, i: nat, c: nat)
    requires i < c <= |s| == |a| && Pass(s, a, i, |s|, c)
    ensures forall p :: 0 <= p <= i ==> a[p] <= a[i]
    ensures forall q :: i < q < |a| ==> a[i] < a[q]
    ensures CountUpTo(a, a[i]) == CountUpTo(s, a[i])
  {
    hide CountUpTo, MaxOf;
  }

  /** A pass without exchange happens just before the first cut. */
  lemma StopsAtCut(s: seq<nat>, a: seq<nat>, i: nat, c: nat)
    requires i < c <= |s| == |a| && Pass(s, a, i, |s|, c) && a[i] == MaxOf(s, i + 1)
    ensures Cut(s, i + 1)
  {
    hide CountUpTo, MaxOf, Pass, Stage;
    PassFacts(s, a, i, c);
    MaxIs(s, i + 1);
    CountStart(s, i + 1, a[i]);
    CountStart(a, i + 1, a[i]);
  }

  /** A pass with an exchange leads to the next one. */
  lemma GoesOn(s: seq<nat>, a: seq<nat>, i: nat, c: nat)
    requires i + 1 < c <= |s| == |a| && Pass(s, a, i, |s|, c)
    ensures Stage(s, a, i + 1, c) && a[i + 1] == MaxOf(s, i + 2)
  {
    hide CountUpTo, MaxOf;
    MaxIs(s, i + 1);
  }

  predicate SameEntries(s: seq<nat>, a: seq<nat>)
  {
    multiset(a) == multiset(s)
  }

  lemma Unchanged(s: seq<nat>)
    ensures SameEntries(s, s)
  {
  }

  lemma SwapEntries(s: seq<nat>, a: seq<nat>, i: nat, j: nat)
    requires i < j < |a| && SameEntries(s, a)
    ensures SameEntries(s, a[i := a[j]][j := a[i]])
  {
  }

  /**
   Exchanges every later smaller entry into place, and stops at the first place that needs no exchange.  Of distinct
   entries, as block indices are, it puts those up to the first cut in order.
   */
  method SortErased(erased: array<nat>, n: nat)
    requires n <= erased.Length
    modifies erased
    ensures erased[n..] == old(erased[n..]) && SameEntries(old(erased[..n]), erased[..n])
    ensures n > 0 && Distinct(old(erased[..n])) ==> OrderedToCut(old(erased[..n]), erased[..n])
  {
    hide CountUpTo, MaxOf, Stage, Pass, Cut, FirstCut, OrderedToCut, SameEntries, Distinct;
    Unchanged(erased[..n]);
    if n == 0 {
      return;
    }
    ghost var s, c := erased[..n], FirstCut(erased[..n], 1);
    ghost var distinct := Distinct(s);
    if distinct {
      SortStarts(s, c);
    }
    for i := 0 to n
      invariant erased[n..] == old(erased[n..]) && SameEntries(s, erased[..n])
      invariant distinct ==> i < c && Stage(s, erased[..n], i, c) && erased[i] == MaxOf(s, i + 1)
    {
      var swap := SortPass(erased, n, i, s, c, distinct);
      if !swap {
        if distinct {
          StopsAtCut(s, erased[..n], i, c);
          SortEnds(s, erased[..n], i, c);
        }
        return;
      }
      if distinct {
        GoesOn(s, erased[..n], i, c);
      }
    }
  }

  /** One pass: place i receives the smallest entry from there on. */
  method SortPass(erased: array<nat>, n: nat, i: nat, ghost s: seq<nat>, ghost c: nat, ghost distinct: bool)
    returns (swap: bool)
    requires i < n <= erased.Length && n == |s| && SameEntries(s, erased[..n])
    requires distinct ==> i < c <= n && Stage(s, erased[..n], i, c) && erased[i] == MaxOf(s, i + 1) && Cut(s, c)
    modifies erased
    ensures erased[n..] == old(erased[n..]) && SameEntries(s, erased[..n])
    ensures distinct ==> Pass(s, erased[..n], i, n, c)
    ensures distinct ==> if swap then i + 1 < c else erased[i] == MaxOf(s, i + 1)
  {
    hide CountUpTo, MaxOf, Stage, Pass, Cut, SameEntries, Distinct;
    swap := false;
    if distinct {
      PassStarts(s, erased[..n], i, c);
    }
    for j := i + 1 to n
      invariant erased[n..] == old(erased[n..]) && SameEntries(s, erased[..n])
      invariant distinct ==> Pass(s, erased[..n], i, j, c)
      invariant distinct ==> if swap then i + 1 < c else erased[i] == MaxOf(s, i + 1)
    {
      ghost var a := erased[..n];
      if erased[i] > erased[j] {
        if distinct {
          Exchange(s, a, i, j, c);
        }
        SwapEntries(s, a, i, j);
        erased[i], erased[j] := erased[j], erased[i];
        assert erased[..n] == a[i := a[j]][j := a[i]];
        swap := true;
      } else if distinct {
        NoExchange(s, a, i, j, c);
      }
    }
  }

  lemma SortStarts(s: seq<nat>, c: nat)
    requires s != [] && Distinct(s) && c == FirstCut(s, 1)
    ensures Stage(s, s, 0, c) && s[0] == MaxOf(s, 1) && Cut(s, c)
  {
    forall j | 0 <= j < |s| ensures s[j] <= MaxOf(s, j + 1) {
      MaxIs(s, j + 1);
    }
  }

  lemma PassStarts(s: seq<nat>, a: seq<nat>, i: nat, c: nat)
    requires i < c <= |s| == |a| && Stage(s, a, i, c) && a[i] == MaxOf(s, i + 1)
    ensures Pass(s, a, i, i + 1, c)
  {
    hide MaxOf, Stage;
  }

  lemma SortEnds(s: seq<nat>, a: seq<nat>, i: nat, c: nat)
    requires s != [] && c == FirstCut(s, 1) && i < c <= |s| == |a| && Pass(s, a, i, |s|, c) && Cut(s, i + 1)
    ensures OrderedToCut(s, a) && multiset(a) == multiset(s)
  {
    hide CountUpTo, MaxOf, FirstCut, Permuted, Cut;
    PermutedSame(s, a);
    assert c == i + 1;
    assert a[c..] == s[c..];
    CutHere(a, c);
  }

  lemma PermutedSame(s: seq<nat>, a: seq<nat>)
    requires Permuted(s, a)
    ensures multiset(a) == multiset(s)
  {
  }

  lemma CutHere(a: seq<nat>, c: nat)
    requires 0 < c <= |a| && forall p, q :: 0 <= p < c && p < q < |a| ==> a[p] < a[q]
    ensures Cut(a, c)
  {
  }

  // ----- lists with the same entries

  lemma {:induction false} Occurs(s: seq<nat>, x: nat)
    requires Distinct(s)
    ensures multiset(s)[x] == if x in s then 1 else 0
    decreases |s|
  {
    if s != [] {
      var n := |s| - 1;
      assert s == s[..n] + [s[n]];
      Occurs(s[..n], x);
    }
  }

  lemma SameDistinct(s: seq<nat>, t: seq<nat>)
    requires SameEntries(t, s) && Distinct(t)
    ensures Distinct(s)
  {
    forall i, j | 0 <= i < j < |s| ensures s[i] != s[j] {
      Occurs(t, s[i]);
      assert s == s[..j] + [s[j]] + s[j + 1..];
      assert s[..j][i] in multiset(s[..j]);
    }
  }

  lemma FirstSmallest(s: seq<nat>, x: nat)
    requires Ascending(s) && x in s
    ensures s[0] <= x && Ascending(s[1..])
  {
    var i :| 0 <= i < |s| && s[i] == x;
  }

  lemma SameTail(s: seq<nat>, t: seq<nat>)
    requires s != [] && t != [] && s[0] == t[0] && multiset(s) == multiset(t)
    ensures multiset(s[1..]) == multiset(t[1..])
  {
    assert s == [s[0]] + s[1..] && t == [t[0]] + t[1..];
    assert multiset(s[1..]) == multiset(s) - multiset{s[0]};
    assert multiset(t[1..]) == multiset(t) - multiset{t[0]};
  }

  /** Two ascending lists of the same entries are the same. */
  lemma {:induction false} AscendingUnique(s: seq<nat>, t: seq<nat>)
    requires multiset(s) == multiset(t) && Ascending(s) && Ascending(t)
    ensures s == t
    decreases |s|
  {
    hide Ascending;
    assert |multiset(s)| == |s| && |multiset(t)| == |t|;
    if s != [] {
      assert s[0] in multiset(t) && t[0] in multiset(s);
      FirstSmallest(s, t[0]);
      FirstSmallest(t, s[0]);
      SameTail(s, t);
      AscendingUnique(s[1..], t[1..]);
      assert s == [s[0]] + s[1..] && t == [t[0]] + t[1..];
    }
  }

  /** A list that the sort sorts. */
  ghost predicate Sortable(s: seq<nat>)
  {
    s != [] ==> Ascending(s[FirstCut(s, 1)..])
  }

  /** Sorting such a list of the entries of an ascending one gives that. */
  lemma SortsTo(s: seq<nat>, t: seq<nat>, lost: seq<nat>)
    requires Sortable(s) && SameEntries(lost, s) && SameEntries(s, t) && Ascending(lost)
    requires s != [] ==> OrderedToCut(s, t)
    ensures t == lost
  {
    hide FirstCut, OrderedToCut;
    if s == [] {
      assert |multiset(t)| == 0 && |multiset(lost)| == 0;
    } else {
      SortedExactly(s, t);
      AscendingUnique(t, lost);
    }
  }

  /** Sorts such a list. */
  method SortLost(erased: array<nat>, n: nat, ghost lost: seq<nat>)
    requires n <= erased.Length && SameEntries(lost, erased[..n]) && Sortable(erased[..n]) && Ascending(lost)
    requires Distinct(lost)
    modifies erased
    ensures erased[..n] == lost
  {
    hide OrderedToCut, Sortable, SameEntries, Ascending, Distinct;
    ghost var before := erased[..n];
    SameDistinct(before, lost);
    SortErased(erased, n);
    SortsTo(before, erased[..n], lost);
  }

  lemma AscendingSortable(s: seq<nat>)
    requires Ascending(s)
    ensures Sortable(s) && Distinct(s)
  {
  }
}
