/** Reconstruction of all groups, and the repair of everything that can be repaired. */
module ErasureRecovery {
  import opened GaloisField
  import opened LinearAlgebra
  import opened GfTables
  import opened FlatMatrix
  import opened ErasureCode
  import opened ReedSolomon
  import opened ErasedOrder
  import opened Reconstruction

  /** No more data shards are marked than parity shards are unmarked. */
  predicate Tolerable(dataMarks: seq<Gf>, fecMarks: seq<Gf>)
  {
    |Marked(dataMarks, |dataMarks|, true)| <= |Marked(fecMarks, |fecMarks|, false)|
  }

  /** The unmarked buffers hold the original data and its parity. */
  ghost predicate GroupAgrees(ds: nat, ps: nat, orig: seq<seq<Gf>>, data: seq<seq<Gf>>, fec: seq<seq<Gf>>,
                              dataMarks: seq<Gf>, fecMarks: seq<Gf>, bytes: nat)
    requires IsShape(ds, ps) && |orig| == |data| == |dataMarks| == ds && |fec| == |fecMarks| == ps
    requires Long(orig, bytes) && Long(data, bytes) && Long(fec, bytes)
  {
    && (forall i :: 0 <= i < ds && dataMarks[i] == 0 ==> data[i][..bytes] == orig[i][..bytes])
    && (forall j, b :: 0 <= j < ps && fecMarks[j] == 0 && 0 <= b < bytes ==>
          fec[j][b] == Dot(ParityRow(ds, ps, j), Slice(orig, b), ds))
  }

  ghost predicate SamePrefix(a: seq<seq<Gf>>, b: seq<seq<Gf>>, bytes: nat)
    requires |a| == |b| && Long(a, bytes) && Long(b, bytes)
  {
    forall i :: 0 <= i < |a| ==> a[i][..bytes] == b[i][..bytes]
  }

  lemma AgreesFromGroup(ds: nat, ps: nat, orig: seq<seq<Gf>>, data: seq<seq<Gf>>, fec: seq<seq<Gf>>,
                        dataMarks: seq<Gf>, fecMarks: seq<Gf>, bytes: nat, fecNos: seq<nat>, chosen: seq<seq<Gf>>)
    requires IsShape(ds, ps) && |orig| == |data| == |dataMarks| == ds && |fec| == |fecMarks| == ps
    requires Long(orig, bytes) && Long(data, bytes) && Long(fec, bytes)
    requires GroupAgrees(ds, ps, orig, data, fec, dataMarks, fecMarks, bytes)
    requires |chosen| == |fecNos| && Bounded(fecNos, ps)
    requires forall p :: 0 <= p < |fecNos| ==> fecMarks[fecNos[p]] == 0 && chosen[p] == fec[fecNos[p]]
    ensures Bounded(Marked(dataMarks, ds, false), ds) && Long(chosen, bytes)
    ensures Agrees(ds, ps, orig, data, chosen, Marked(dataMarks, ds, false), fecNos, bytes)
  {
    hide ParityRow, Dot;
    MarkedOrdered(dataMarks, ds, false);
    var kept := Marked(dataMarks, ds, false);
    forall q | 0 <= q < |kept| ensures data[kept[q]][..bytes] == orig[kept[q]][..bytes] {
      assert kept[q] in kept;
    }
  }

  /** Collects the lost data shards and as many parity shards. */
  method Collect(dataMarks: seq<Gf>, fecMarks: seq<Gf>, fec: seq<array<Gf>>)
    returns (erased: array<nat>, dn: nat, fecNos: seq<nat>, decFec: seq<array<Gf>>)
    requires |dataMarks| <= DATA_SHARDS_MAX && |fec| == |fecMarks|
    ensures fresh(erased) && dn <= erased.Length && erased[..dn] == Marked(dataMarks, |dataMarks|, true)
    ensures |decFec| == |fecNos| <= dn && IsChoice(|fecMarks|, fecNos) && Bounded(fecNos, |fecMarks|)
    ensures |fecNos| == dn <==> Tolerable(dataMarks, fecMarks)
    ensures forall p :: 0 <= p < |fecNos| ==> fecMarks[fecNos[p]] == 0 && decFec[p] == fec[fecNos[p]]
  {
    hide Marked;
    erased, dn := CollectLost(dataMarks);
    fecNos, decFec := CollectParity(fecMarks, fec, dn);
  }

  method CollectLost(dataMarks: seq<Gf>) returns (erased: array<nat>, dn: nat)
    requires |dataMarks| <= DATA_SHARDS_MAX
    ensures fresh(erased) && dn <= erased.Length && erased[..dn] == Marked(dataMarks, |dataMarks|, true)
  {
    erased := new nat[DATA_SHARDS_MAX](_ => 0);
    dn := 0;
    for i := 0 to |dataMarks|
      invariant dn <= i && erased[..dn] == Marked(dataMarks, i, true)
    {
      if dataMarks[i] != 0 {
        erased[dn] := i;
        dn := dn + 1;
      }
    }
  }

  /** Collects parity shards that are there, up to the given number. */
  method CollectParity(fecMarks: seq<Gf>, fec: seq<array<Gf>>, dn: nat)
    returns (fecNos: seq<nat>, decFec: seq<array<Gf>>)
    requires |fec| == |fecMarks|
    ensures |decFec| == |fecNos| <= dn && IsChoice(|fecMarks|, fecNos) && Bounded(fecNos, |fecMarks|)
    ensures |fecNos| == dn <==> dn <= |Marked(fecMarks, |fecMarks|, false)|
    ensures forall p :: 0 <= p < |fecNos| ==> fecMarks[fecNos[p]] == 0 && decFec[p] == fec[fecNos[p]]
  {
    fecNos, decFec := [], [];
    var i := 0;
    while i < |fecMarks| && |fecNos| < dn
      invariant i <= |fecMarks| && |decFec| == |fecNos| <= dn
      invariant fecNos == Marked(fecMarks, i, false)
      invariant forall p :: 0 <= p < |fecNos| ==>
        fecNos[p] < i && fecMarks[fecNos[p]] == 0 && decFec[p] == fec[fecNos[p]]
    {
      if fecMarks[i] == 0 {
        fecNos := fecNos + [i];
        decFec := decFec + [fec[i]];
      }
      i := i + 1;
    }
    hide Marked;
    MarkedOrdered(fecMarks, i, false);
    MarkedGrows(fecMarks, i, |fecMarks|, false);
  }

  lemma NothingLost(dataMarks: seq<Gf>, n: nat)
    requires n <= |dataMarks| && Marked(dataMarks, n, true) == []
    ensures forall i :: 0 <= i < n ==> dataMarks[i] == 0
  {
    MarkedOrdered(dataMarks, n, true);
    forall i | 0 <= i < n ensures dataMarks[i] == 0 {
      assert i !in Marked(dataMarks, n, true);
    }
  }

  /** Repairs one group if that is possible, and leaves it alone otherwise. */
  method ReconstructGroup(t: Tables, rs: Coder, data: seq<array<Gf>>, fec: seq<array<Gf>>,
                          dataMarks: seq<Gf>, fecMarks: seq<Gf>, bytes: nat, ghost orig: seq<seq<Gf>>)
    returns (ok: bool)
    requires t.Valid() && rs.Valid() && |data| == |dataMarks| == rs.dataShards && |fec| == |fecMarks| == rs.parityShards
    requires Separate(data) && Disjoint(data, fec) && Roomy(data, bytes) && Roomy(fec, bytes)
    requires |orig| == rs.dataShards && Long(orig, bytes)
    modifies data
    ensures ok <==> Tolerable(dataMarks, fecMarks)
    ensures forall i :: 0 <= i < |data| && (dataMarks[i] == 0 || !ok) ==> data[i][..] == old(data[i][..])
    ensures ok && old(GroupAgrees(rs.dataShards, rs.parityShards, orig, Contents(data), Contents(fec), dataMarks,
      fecMarks, bytes)) ==>
      SamePrefix(Contents(data), orig, bytes)
  {
    hide Coder.Valid, Tables.Valid, Agrees, ParityRow, Dot, GroupAgrees, Marked, Separate, Disjoint, Roomy, Tolerable,
      IsChoice, IsSplit;
    CoderShape(rs);
    var ds, ps := rs.dataShards, rs.parityShards;
    var erased, dn, fecNos, decFec := Collect(dataMarks, fecMarks, fec);
    ghost var values, fecs := Contents(data), Contents(fec);
    ok := true;
    if dn > 0 {
      if dn == |fecNos| {
        ghost var kept := Marked(dataMarks, ds, false);
        MarksSplit(dataMarks, ds);
        MarkedOrdered(dataMarks, ds, false);
        ChosenFacts(data, fec, decFec, fecNos, bytes);
        RoomyLong(data, bytes);
        if GroupAgrees(ds, ps, orig, values, fecs, dataMarks, fecMarks, bytes) {
          AgreesFromGroup(ds, ps, orig, values, fecs, dataMarks, fecMarks, bytes, fecNos, Contents(decFec));
        }
        MarkedSortable(dataMarks, ds);
        var r := ReedSolomonDecode(t, rs, data, bytes, decFec, fecNos, erased, dn, kept, Marked(dataMarks, ds, true),
          orig);
        UnmarkedKept(dataMarks, kept, Contents(data), values);
        assert forall i :: 0 <= i < |data| ==> Contents(data)[i] == data[i][..];
      } else {
        ok := false;
      }
    } else {
      NothingLost(dataMarks, ds);
      assert |fecNos| == 0;
      RoomyLong(data, bytes);
      RoomyLong(fec, bytes);
      if GroupAgrees(ds, ps, orig, values, fecs, dataMarks, fecMarks, bytes) {
        AllAgree(ds, ps, orig, values, fecs, dataMarks, fecMarks, bytes);
      }
    }
  }

  lemma MarkedSortable(marks: seq<Gf>, n: nat)
    requires n <= |marks|
    ensures Sortable(Marked(marks, n, true))
  {
    MarkedOrdered(marks, n, true);
    AscendingSortable(Marked(marks, n, true));
  }

  lemma RoomyLong(blocks: seq<array<Gf>>, bytes: nat)
    requires Roomy(blocks, bytes)
    ensures Long(Contents(blocks), bytes)
  {
  }

  lemma ChosenFacts(data: seq<array<Gf>>, fec: seq<array<Gf>>, decFec: seq<array<Gf>>, fecNos: seq<nat>, bytes: nat)
    requires IsChoice(|fec|, fecNos) && |decFec| == |fecNos| && Bounded(fecNos, |fec|)
    requires forall p :: 0 <= p < |fecNos| ==> decFec[p] == fec[fecNos[p]]
    requires Disjoint(data, fec) && Roomy(fec, bytes)
    ensures Disjoint(data, decFec) && Roomy(decFec, bytes) && Long(Contents(fec), bytes)
    ensures Long(Contents(decFec), bytes)
    ensures forall p :: 0 <= p < |fecNos| ==> Contents(decFec)[p] == Contents(fec)[fecNos[p]]
  {
  }

  lemma UnmarkedKept(marks: seq<Gf>, kept: seq<nat>, now: seq<seq<Gf>>, was: seq<seq<Gf>>)
    requires |now| == |was| == |marks| && kept == Marked(marks, |marks|, false) && Bounded(kept, |marks|)
    requires forall q :: 0 <= q < |kept| ==> now[kept[q]] == was[kept[q]]
    ensures forall i :: 0 <= i < |marks| && marks[i] == 0 ==> now[i] == was[i]
  {
    hide Marked;
    MarkedOrdered(marks, |marks|, false);
    forall i | 0 <= i < |marks| && marks[i] == 0 ensures now[i] == was[i] {
      assert i in kept;
      var q :| 0 <= q < |kept| && kept[q] == i;
    }
  }

  /** Where nothing is marked, everything agrees. */
  lemma AllAgree(ds: nat, ps: nat, orig: seq<seq<Gf>>, data: seq<seq<Gf>>, fec: seq<seq<Gf>>,
                 dataMarks: seq<Gf>, fecMarks: seq<Gf>, bytes: nat)
    requires IsShape(ds, ps) && |orig| == |data| == |dataMarks| == ds && |fec| == |fecMarks| == ps
    requires Long(orig, bytes) && Long(data, bytes) && Long(fec, bytes)
    requires GroupAgrees(ds, ps, orig, data, fec, dataMarks, fecMarks, bytes)
    requires forall i :: 0 <= i < ds ==> dataMarks[i] == 0
    ensures SamePrefix(data, orig, bytes)
  {
    hide ParityRow, Dot;
  }

  // ----- all groups

  /**
   The blocks that must not be written: those that are not marked, and all blocks of a group that has lost too much.
   */
  ghost predicate LeftAlone(was: seq<seq<Gf>>, now: seq<seq<Gf>>, dataMarks: seq<Gf>, tolerable: bool)
    requires |was| == |now| == |dataMarks|
  {
    forall i :: 0 <= i < |was| && (dataMarks[i] == 0 || !tolerable) ==> now[i] == was[i]
  }

  /** Group g has been repaired if that was possible, and nothing else in it has been written. */
  ghost predicate GroupRepaired(ds: nat, ps: nat, orig: seq<seq<Gf>>, was: seq<seq<Gf>>, fec: seq<seq<Gf>>,
                                now: seq<seq<Gf>>, dataMarks: seq<Gf>, fecMarks: seq<Gf>, n: nat, bytes: nat, g: nat)
    requires IsShape(ds, ps) && g < n
    requires |orig| == |was| == |now| == |dataMarks| == n * ds && |fec| == |fecMarks| == n * ps
    requires Long(orig, bytes) && Long(was, bytes) && Long(now, bytes) && Long(fec, bytes)
  {
    GroupLong(orig, n, ds, g, bytes);
    GroupLong(was, n, ds, g, bytes);
    GroupLong(now, n, ds, g, bytes);
    GroupLong(fec, n, ps, g, bytes);
    && ((GroupTolerable(dataMarks, fecMarks, n, ds, ps, g) &&
         GroupAgrees(ds, ps, Group(orig, n, ds, g), Group(was, n, ds, g), Group(fec, n, ps, g),
                     Group(dataMarks, n, ds, g), Group(fecMarks, n, ps, g), bytes))
        ==> SamePrefix(Group(now, n, ds, g), Group(orig, n, ds, g), bytes))
    && LeftAlone(Group(was, n, ds, g), Group(now, n, ds, g), Group(dataMarks, n, ds, g),
                 GroupTolerable(dataMarks, fecMarks, n, ds, ps, g))
  }

  predicate GroupTolerable(dataMarks: seq<Gf>, fecMarks: seq<Gf>, n: nat, ds: nat, ps: nat, g: nat)
    requires g < n && |dataMarks| == n * ds && |fecMarks| == n * ps
  {
    Tolerable(Group(dataMarks, n, ds, g), Group(fecMarks, n, ps, g))
  }

  ghost predicate AllTolerable(dataMarks: seq<Gf>, fecMarks: seq<Gf>, n: nat, ds: nat, ps: nat, m: nat)
    requires m <= n && |dataMarks| == n * ds && |fecMarks| == n * ps
  {
    forall g :: 0 <= g < m ==> GroupTolerable(dataMarks, fecMarks, n, ds, ps, g)
  }

  ghost predicate RepairedUpTo(ds: nat, ps: nat, orig: seq<seq<Gf>>, was: seq<seq<Gf>>, fec: seq<seq<Gf>>,
                               now: seq<seq<Gf>>, dataMarks: seq<Gf>, fecMarks: seq<Gf>, n: nat, bytes: nat, m: nat)
    requires IsShape(ds, ps) && m <= n
    requires |orig| == |was| == |now| == |dataMarks| == n * ds && |fec| == |fecMarks| == n * ps
    requires Long(orig, bytes) && Long(was, bytes) && Long(now, bytes) && Long(fec, bytes)
  {
    forall g :: 0 <= g < m ==> GroupRepaired(ds, ps, orig, was, fec, now, dataMarks, fecMarks, n, bytes, g)
  }

  lemma RepairedStep(ds: nat, ps: nat, orig: seq<seq<Gf>>, was: seq<seq<Gf>>, fec: seq<seq<Gf>>, now: seq<seq<Gf>>,
                     next: seq<seq<Gf>>, dataMarks: seq<Gf>, fecMarks: seq<Gf>, n: nat, bytes: nat, m: nat)
    requires IsShape(ds, ps) && m < n
    requires |orig| == |was| == |now| == |next| == |dataMarks| == n * ds && |fec| == |fecMarks| == n * ps
    requires Long(orig, bytes) && Long(was, bytes) && Long(now, bytes) && Long(next, bytes) && Long(fec, bytes)
    requires RepairedUpTo(ds, ps, orig, was, fec, now, dataMarks, fecMarks, n, bytes, m)
    requires GroupRepaired(ds, ps, orig, was, fec, next, dataMarks, fecMarks, n, bytes, m)
    requires forall i :: 0 <= i < |now| && !(m * ds <= i < m * ds + ds) ==> next[i] == now[i]
    ensures RepairedUpTo(ds, ps, orig, was, fec, next, dataMarks, fecMarks, n, bytes, m + 1)
  {
    hide GroupAgrees, Tolerable, LeftAlone;
    forall g | 0 <= g < m ensures GroupRepaired(ds, ps, orig, was, fec, next, dataMarks, fecMarks, n, bytes, g) {
      assert GroupRepaired(ds, ps, orig, was, fec, now, dataMarks, fecMarks, n, bytes, g);
      forall i | 0 <= i < ds ensures Group(next, n, ds, g)[i] == Group(now, n, ds, g)[i] {
        GroupAt(next, n, ds, g, i);
        GroupAt(now, n, ds, g, i);
        Fits(g, m, ds);
      }
      assert Group(next, n, ds, g) == Group(now, n, ds, g);
    }
  }

  lemma GroupIsRepaired(ds: nat, ps: nat, orig: seq<seq<Gf>>, was: seq<seq<Gf>>, fec: seq<seq<Gf>>, now: seq<seq<Gf>>,
                        dataMarks: seq<Gf>, fecMarks: seq<Gf>, n: nat, bytes: nat, g: nat)
    requires IsShape(ds, ps) && g < n
    requires |orig| == |was| == |now| == |dataMarks| == n * ds && |fec| == |fecMarks| == n * ps
    requires Long(orig, bytes) && Long(was, bytes) && Long(now, bytes) && Long(fec, bytes)
    requires Long(Group(orig, n, ds, g), bytes) && Long(Group(was, n, ds, g), bytes)
    requires Long(Group(now, n, ds, g), bytes) && Long(Group(fec, n, ps, g), bytes)
    requires
      (Tolerable(Group(dataMarks, n, ds, g), Group(fecMarks, n, ps, g)) &&
       GroupAgrees(ds, ps, Group(orig, n, ds, g), Group(was, n, ds, g), Group(fec, n, ps, g),
                   Group(dataMarks, n, ds, g), Group(fecMarks, n, ps, g), bytes))
      ==> SamePrefix(Group(now, n, ds, g), Group(orig, n, ds, g), bytes)
    requires LeftAlone(Group(was, n, ds, g), Group(now, n, ds, g), Group(dataMarks, n, ds, g),
                       Tolerable(Group(dataMarks, n, ds, g), Group(fecMarks, n, ps, g)))
    ensures GroupRepaired(ds, ps, orig, was, fec, now, dataMarks, fecMarks, n, bytes, g)
  {
  }

  method ReconstructGroupAt(t: Tables, rs: Coder, data: seq<array<Gf>>, fec: seq<array<Gf>>, dataMarks: seq<Gf>,
                            fecMarks: seq<Gf>, n: nat, bytes: nat, g: nat, ghost orig: seq<seq<Gf>>,
                            ghost was: seq<seq<Gf>>)
    returns (ok: bool)
    requires t.Valid() && rs.Valid() && g < n
    requires |data| == |dataMarks| == n * rs.dataShards && |fec| == |fecMarks| == n * rs.parityShards
    requires Separate(data) && Disjoint(data, fec) && Roomy(data, bytes) && Roomy(fec, bytes)
    requires |orig| == |was| == n * rs.dataShards && Long(orig, bytes) && Long(was, bytes)
    requires Group(Contents(data), n, rs.dataShards, g) == Group(was, n, rs.dataShards, g)
    modifies data
    ensures ok <==> GroupTolerable(dataMarks, fecMarks, n, rs.dataShards, rs.parityShards, g)
    ensures Contents(fec) == old(Contents(fec))
    ensures forall i :: 0 <= i < |data| && !(g * rs.dataShards <= i < g * rs.dataShards + rs.dataShards) ==>
      data[i][..] == old(data[i][..])
    ensures GroupRepaired(rs.dataShards, rs.parityShards, orig, was, Contents(fec), Contents(data), dataMarks, fecMarks,
      n, bytes, g)
  {
    hide Coder.Valid, Tables.Valid, GroupAgrees, SamePrefix, Tolerable, GroupRepaired;
    CoderShape(rs);
    var ds, ps := rs.dataShards, rs.parityShards;
    var groupData, groupFec := Group(data, n, ds, g), Group(fec, n, ps, g);
    var dm, fm := Group(dataMarks, n, ds, g), Group(fecMarks, n, ps, g);
    ghost var fecs := Contents(fec);
    GroupSeparate(data, n, ds, g, bytes);
    DisjointGroups(fec, data, n, ps, ds, g, bytes);
    GroupLong(orig, n, ds, g, bytes);
    GroupContents(data, n, ds, g);
    GroupContents(fec, n, ps, g);
    assert forall i :: 0 <= i < |groupData| ==> groupData[i] in data;
    hide Disjoint, Separate, Group;
    ok := ReconstructGroup(t, rs, groupData, groupFec, dm, fm, bytes, Group(orig, n, ds, g));
    assert Contents(fec) == fecs;
    GroupContents(data, n, ds, g);
    assert LeftAlone(Group(was, n, ds, g), Group(Contents(data), n, ds, g), dm, ok);
    GroupLong(was, n, ds, g, bytes);
    GroupIsRepaired(ds, ps, orig, was, fecs, Contents(data), dataMarks, fecMarks, n, bytes, g);
  }

  method ReconstructGroups(t: Tables, rs: Coder, data: seq<array<Gf>>, fec: seq<array<Gf>>, dataMarks: seq<Gf>,
                           fecMarks: seq<Gf>, n: nat, bytes: nat, ghost orig: seq<seq<Gf>>)
    returns (err: int)
    requires t.Valid() && rs.Valid()
    requires |data| == |dataMarks| == n * rs.dataShards && |fec| == |fecMarks| == n * rs.parityShards
    requires Separate(data) && Disjoint(data, fec) && Roomy(data, bytes) && Roomy(fec, bytes)
    requires |orig| == n * rs.dataShards && Long(orig, bytes)
    modifies data
    ensures err == if AllTolerable(dataMarks, fecMarks, n, rs.dataShards, rs.parityShards, n) then 0 else -1
    ensures RepairedUpTo(rs.dataShards, rs.parityShards, orig, old(Contents(data)), Contents(fec), Contents(data),
                         dataMarks, fecMarks, n, bytes, n)
  {
    hide Coder.Valid, Tables.Valid, GroupRepaired, GroupTolerable, RepairedUpTo, AllTolerable, Separate, Disjoint,
      Roomy, Group;
    CoderShape(rs);
    var ds, ps := rs.dataShards, rs.parityShards;
    ghost var was, fecs := Contents(data), Contents(fec);
    RoomyLong(data, bytes);
    RoomyLong(fec, bytes);
    err := 0;
    NothingRepaired(ds, ps, orig, was, fecs, dataMarks, fecMarks, n, bytes);
    for g := 0 to n
      invariant Contents(fec) == fecs
      invariant err == if AllTolerable(dataMarks, fecMarks, n, ds, ps, g) then 0 else -1
      invariant Rest(Contents(data), was, g * ds)
      invariant RepairedUpTo(ds, ps, orig, was, fecs, Contents(data), dataMarks, fecMarks, n, bytes, g)
    {
      ghost var now := Contents(data);
      SameGroup(now, was, n, ds, g);
      var ok := ReconstructGroupAt(t, rs, data, fec, dataMarks, fecMarks, n, bytes, g, orig, was);
      if !ok {
        err := -1;
      }
      SameElsewhere(data, now, g * ds, g * ds + ds);
      RepairedStep(ds, ps, orig, was, fecs, now, Contents(data), dataMarks, fecMarks, n, bytes, g);
      TolerableStep(dataMarks, fecMarks, n, ds, ps, g);
      RestStep(Contents(data), now, was, g, ds);
    }
  }

  /** Everything from position k on is as it was. */
  ghost predicate Rest(now: seq<seq<Gf>>, was: seq<seq<Gf>>, k: nat)
  {
    |now| == |was| && forall i :: k <= i < |now| ==> now[i] == was[i]
  }

  lemma RestStep(next: seq<seq<Gf>>, now: seq<seq<Gf>>, was: seq<seq<Gf>>, g: nat, k: nat)
    requires Rest(now, was, g * k) && |next| == |now|
    requires forall i :: 0 <= i < |now| && !(g * k <= i < g * k + k) ==> next[i] == now[i]
    ensures Rest(next, was, (g + 1) * k)
  {
    NextGroup(g, k);
  }

  lemma SameElsewhere(blocks: seq<array<Gf>>, now: seq<seq<Gf>>, from: nat, to: nat)
    requires |now| == |blocks| && forall i :: 0 <= i < |blocks| && !(from <= i < to) ==> blocks[i][..] == now[i]
    ensures forall i :: 0 <= i < |now| && !(from <= i < to) ==> Contents(blocks)[i] == now[i]
  {
  }

  lemma TolerableStep(dataMarks: seq<Gf>, fecMarks: seq<Gf>, n: nat, ds: nat, ps: nat, m: nat)
    requires m < n && |dataMarks| == n * ds && |fecMarks| == n * ps
    ensures AllTolerable(dataMarks, fecMarks, n, ds, ps, m + 1)
       <==> AllTolerable(dataMarks, fecMarks, n, ds, ps, m) && GroupTolerable(dataMarks, fecMarks, n, ds, ps, m)
  {
    hide GroupTolerable;
  }

  lemma NothingRepaired(ds: nat, ps: nat, orig: seq<seq<Gf>>, was: seq<seq<Gf>>, fec: seq<seq<Gf>>,
                        dataMarks: seq<Gf>, fecMarks: seq<Gf>, n: nat, bytes: nat)
    requires IsShape(ds, ps)
    requires |orig| == |was| == |dataMarks| == n * ds && |fec| == |fecMarks| == n * ps
    requires Long(orig, bytes) && Long(was, bytes) && Long(fec, bytes)
    ensures RepairedUpTo(ds, ps, orig, was, fec, was, dataMarks, fecMarks, n, bytes, 0)
    ensures AllTolerable(dataMarks, fecMarks, n, ds, ps, 0)
  {
  }

  lemma NextGroup(g: nat, k: nat)
    ensures (g + 1) * k == g * k + k
  {
  }

  lemma SameGroup(a: seq<seq<Gf>>, b: seq<seq<Gf>>, n: nat, k: nat, g: nat)
    requires g < n && |a| == n * k && Rest(a, b, g * k)
    ensures Group(a, n, k, g) == Group(b, n, k, g)
  {
    forall i | 0 <= i < k ensures Group(a, n, k, g)[i] == Group(b, n, k, g)[i] {
      GroupAt(a, n, k, g, i);
      GroupAt(b, n, k, g, i);
    }
  }

  /**
   Returns -1 if some group has lost too much, and repairs every other group.  Blocks that are not marked and blocks
   of groups that have lost too much are left alone, and so is the parity.
   */
  method ReedSolomonReconstruct(t: Tables, rs: Coder, shards: seq<array<Gf>>, marks: seq<Gf>, nr_shards: nat,
                                block_size: nat, ghost orig: seq<seq<Gf>>)
    returns (err: int)
    requires t.Valid() && rs.Valid()
    requires |shards| == |marks| == nr_shards && nr_shards % rs.shards == 0
    requires Separate(shards) && Roomy(shards, block_size)
    requires |orig| == nr_shards / rs.shards * rs.dataShards && Long(orig, block_size)
    modifies shards
    ensures var n := nr_shards / rs.shards; var d := n * rs.dataShards;
      && d <= |shards| && |shards| - d == n * rs.parityShards
      && err == (if AllTolerable(marks[..d], marks[d..], n, rs.dataShards, rs.parityShards, n) then 0 else -1)
      && RepairedUpTo(rs.dataShards, rs.parityShards, orig, old(Contents(shards[..d])), old(Contents(shards[d..])),
                      Contents(shards[..d]), marks[..d], marks[d..], n, block_size, n)
      && Contents(shards[d..]) == old(Contents(shards[d..]))
  {
    hide Coder.Valid, Tables.Valid, RepairedUpTo, AllTolerable;
    CoderShape(rs);
    var n := nr_shards / rs.shards;
    GroupCount(nr_shards, n, rs.dataShards, rs.parityShards);
    var d := n * rs.dataShards;
    ghost var fecs := Contents(shards[d..]);
    err := ReconstructGroups(t, rs, shards[..d], shards[d..], marks[..d], marks[d..], n, block_size, orig);
    assert Contents(shards[d..]) == fecs;
  }

  // ----- encode, lose, repair

  /** Blocks that differ from others only where they are marked. */
  ghost predicate Damaged(now: seq<seq<Gf>>, was: seq<seq<Gf>>, marks: seq<Gf>, n: nat)
    requires |now| == |was| == |marks| && n <= |marks|
  {
    forall i :: 0 <= i < |now| ==> |now[i]| == |was[i]| && ((marks[i] == 0 || i >= n) ==> now[i] == was[i])
  }

  /** Overwrites every marked block. */
  method Lose(shards: seq<array<Gf>>, marks: seq<Gf>, damage: seq<seq<Gf>>)
    requires |shards| == |marks| == |damage| && Separate(shards)
    modifies shards
    ensures Damaged(Contents(shards), old(Contents(shards)), marks, |marks|)
  {
    hide Separate;
    ghost var was := Contents(shards);
    for i := 0 to |shards|
      invariant Damaged(Contents(shards), was, marks, i)
    {
      if marks[i] != 0 {
        ghost var now := Contents(shards);
        Overwrite(shards[i], damage[i]);
        OthersKept(shards, i, now);
      }
    }
  }

  lemma OthersKept(shards: seq<array<Gf>>, i: nat, now: seq<seq<Gf>>)
    requires i < |shards| == |now| && Separate(shards) && |now[i]| == shards[i].Length
    requires forall o :: 0 <= o < |shards| && shards[o] != shards[i] ==> shards[o][..] == now[o]
    ensures forall o :: 0 <= o < |shards| && o != i ==> Contents(shards)[o] == now[o]
    ensures |Contents(shards)[i]| == |now[i]|
  {
  }

  method Overwrite(block: array<Gf>, bytes: seq<Gf>)
    modifies block
  {
    for b := 0 to block.Length {
      block[b] := if b < |bytes| then bytes[b] else 0;
    }
  }

  /** Blocks encoded before the damage agree, wherever they are unmarked, with the encoded data. */
  lemma DamageAgrees(ds: nat, ps: nat, orig: seq<seq<Gf>>, fec: seq<seq<Gf>>, data': seq<seq<Gf>>, fec': seq<seq<Gf>>,
                     dataMarks: seq<Gf>, fecMarks: seq<Gf>, n: nat, bytes: nat, g: nat)
    requires IsShape(ds, ps) && g < n
    requires |orig| == |data'| == |dataMarks| == n * ds && |fec| == |fec'| == |fecMarks| == n * ps
    requires Long(orig, bytes) && Long(data', bytes) && Long(fec, bytes) && Long(fec', bytes)
    requires GroupEncoded(ds, ps, orig, fec, n, bytes, g)
    requires Damaged(data', orig, dataMarks, |dataMarks|) && Damaged(fec', fec, fecMarks, |fecMarks|)
    ensures Long(Group(orig, n, ds, g), bytes) && Long(Group(data', n, ds, g), bytes)
    ensures Long(Group(fec', n, ps, g), bytes)
    ensures GroupAgrees(ds, ps, Group(orig, n, ds, g), Group(data', n, ds, g), Group(fec', n, ps, g),
                        Group(dataMarks, n, ds, g), Group(fecMarks, n, ps, g), bytes)
  {
    hide ParityRow, Dot;
    GroupLong(orig, n, ds, g, bytes);
    GroupLong(data', n, ds, g, bytes);
    GroupLong(fec', n, ps, g, bytes);
    GroupLong(fec, n, ps, g, bytes);
    forall i | 0 <= i < ds && Group(dataMarks, n, ds, g)[i] == 0
      ensures Group(data', n, ds, g)[i][..bytes] == Group(orig, n, ds, g)[i][..bytes]
    {
      GroupAt(dataMarks, n, ds, g, i);
      GroupAt(data', n, ds, g, i);
      GroupAt(orig, n, ds, g, i);
    }
    forall j, b | 0 <= j < ps && Group(fecMarks, n, ps, g)[j] == 0 && 0 <= b < bytes
      ensures Group(fec', n, ps, g)[j][b] == Dot(ParityRow(ds, ps, j), Slice(Group(orig, n, ds, g), b), ds)
    {
      GroupAt(fecMarks, n, ps, g, j);
      GroupAt(fec', n, ps, g, j);
      GroupAt(fec, n, ps, g, j);
    }
  }

  /** If every group has been encoded and is tolerably damaged, then all data is repaired. */
  lemma BlockRepaired(ds: nat, ps: nat, orig: seq<seq<Gf>>, fec: seq<seq<Gf>>, data': seq<seq<Gf>>, fec': seq<seq<Gf>>,
                    now: seq<seq<Gf>>, dataMarks: seq<Gf>, fecMarks: seq<Gf>, n: nat, bytes: nat, i: nat)
    requires IsShape(ds, ps)
    requires |orig| == |data'| == |now| == |dataMarks| == n * ds && |fec| == |fec'| == |fecMarks| == n * ps
    requires Long(orig, bytes) && Long(data', bytes) && Long(now, bytes) && Long(fec, bytes) && Long(fec', bytes)
    requires EncodedUpTo(ds, ps, orig, fec, n, bytes, n)
    requires Damaged(data', orig, dataMarks, |dataMarks|) && Damaged(fec', fec, fecMarks, |fecMarks|)
    requires AllTolerable(dataMarks, fecMarks, n, ds, ps, n)
    requires RepairedUpTo(ds, ps, orig, data', fec', now, dataMarks, fecMarks, n, bytes, n)
    requires i < |now|
    ensures now[i][..bytes] == orig[i][..bytes]
  {
    hide GroupAgrees, GroupTolerable, GroupEncoded, Damaged, Long, LeftAlone, Group, GroupRepaired;
    var g, k := i / ds, i % ds;
    InGroup(i, n, ds);
    assert GroupEncoded(ds, ps, orig, fec, n, bytes, g);
    DamageAgrees(ds, ps, orig, fec, data', fec', dataMarks, fecMarks, n, bytes, g);
    assert GroupTolerable(dataMarks, fecMarks, n, ds, ps, g);
    assert GroupRepaired(ds, ps, orig, data', fec', now, dataMarks, fecMarks, n, bytes, g);
    GroupLong(now, n, ds, g, bytes);
    GroupLong(orig, n, ds, g, bytes);
    GroupComesBack(ds, ps, orig, data', fec', now, dataMarks, fecMarks, n, bytes, g);
    GroupAt(now, n, ds, g, k);
    GroupAt(orig, n, ds, g, k);
  }

  lemma GroupComesBack(ds: nat, ps: nat, orig: seq<seq<Gf>>, was: seq<seq<Gf>>, fec: seq<seq<Gf>>, now: seq<seq<Gf>>,
                       dataMarks: seq<Gf>, fecMarks: seq<Gf>, n: nat, bytes: nat, g: nat)
    requires IsShape(ds, ps) && g < n
    requires |orig| == |was| == |now| == |dataMarks| == n * ds && |fec| == |fecMarks| == n * ps
    requires Long(orig, bytes) && Long(was, bytes) && Long(now, bytes) && Long(fec, bytes)
    requires Long(Group(orig, n, ds, g), bytes) && Long(Group(was, n, ds, g), bytes)
    requires Long(Group(now, n, ds, g), bytes) && Long(Group(fec, n, ps, g), bytes)
    requires GroupRepaired(ds, ps, orig, was, fec, now, dataMarks, fecMarks, n, bytes, g)
    requires GroupTolerable(dataMarks, fecMarks, n, ds, ps, g)
    requires GroupAgrees(ds, ps, Group(orig, n, ds, g), Group(was, n, ds, g), Group(fec, n, ps, g),
                         Group(dataMarks, n, ds, g), Group(fecMarks, n, ps, g), bytes)
    ensures SamePrefix(Group(now, n, ds, g), Group(orig, n, ds, g), bytes)
  {
    hide GroupAgrees, GroupTolerable, LeftAlone, SamePrefix, Group;
  }

  lemma AllRepaired(ds: nat, ps: nat, orig: seq<seq<Gf>>, fec: seq<seq<Gf>>, data': seq<seq<Gf>>, fec': seq<seq<Gf>>,
                    now: seq<seq<Gf>>, dataMarks: seq<Gf>, fecMarks: seq<Gf>, n: nat, bytes: nat)
    requires IsShape(ds, ps)
    requires |orig| == |data'| == |now| == |dataMarks| == n * ds && |fec| == |fec'| == |fecMarks| == n * ps
    requires Long(orig, bytes) && Long(data', bytes) && Long(now, bytes) && Long(fec, bytes) && Long(fec', bytes)
    requires EncodedUpTo(ds, ps, orig, fec, n, bytes, n)
    requires Damaged(data', orig, dataMarks, |dataMarks|) && Damaged(fec', fec, fecMarks, |fecMarks|)
    requires AllTolerable(dataMarks, fecMarks, n, ds, ps, n)
    requires RepairedUpTo(ds, ps, orig, data', fec', now, dataMarks, fecMarks, n, bytes, n)
    ensures SamePrefix(now, orig, bytes)
  {
    hide EncodedUpTo, RepairedUpTo, AllTolerable, Damaged;
    forall i | 0 <= i < |now| ensures now[i][..bytes] == orig[i][..bytes] {
      BlockRepaired(ds, ps, orig, fec, data', fec', now, dataMarks, fecMarks, n, bytes, i);
    }
  }

  lemma InGroup(i: nat, n: nat, k: nat)
    requires k > 0 && i < n * k
    ensures i / k < n && i == (i / k) * k + i % k
  {
    var g := i / k;
    assert i == g * k + i % k;
    if g >= n {
      MulMonotone(n, g, k);
    }
  }

  /** Every group of these blocks, data before parity, keeps as many parity blocks as it loses data blocks. */
  ghost predicate Recoverable(marks: seq<Gf>, ds: nat, ps: nat)
  {
    ds + ps > 0 &&
    var n := |marks| / (ds + ps);
    var d := n * ds;
    d <= |marks| && |marks| - d == n * ps && AllTolerable(marks[..d], marks[d..], n, ds, ps, n)
  }

  lemma RecoverableIs(marks: seq<Gf>, n: nat, d: nat, ds: nat, ps: nat)
    requires ds + ps > 0 && n == |marks| / (ds + ps) && d == n * ds <= |marks| && |marks| - d == n * ps
    ensures Recoverable(marks, ds, ps) <==> AllTolerable(marks[..d], marks[d..], n, ds, ps, n)
  {
  }

  /**
   Erasure recovery: whatever the marked blocks are overwritten with, if no group has lost more data blocks
   than it has kept parity blocks, then reconstruction succeeds and every data block is what it was.
   */
  method EncodeLoseReconstruct(t: Tables, rs: Coder, shards: seq<array<Gf>>, marks: seq<Gf>, damage: seq<seq<Gf>>,
                               nr_shards: nat, block_size: nat)
    returns (err: int)
    requires t.Valid() && rs.Valid()
    requires |shards| == |marks| == |damage| == nr_shards && nr_shards % rs.shards == 0
    requires Separate(shards) && Roomy(shards, block_size)
    modifies shards
    ensures err == if Recoverable(marks, rs.dataShards, rs.parityShards) then 0 else -1
    ensures err == 0 ==>
      forall i :: 0 <= i < nr_shards / rs.shards * rs.dataShards && i < nr_shards ==>
        shards[i][..block_size] == old(shards[i][..block_size])
  {
    hide Coder.Valid, Tables.Valid, EncodedUpTo, RepairedUpTo, AllTolerable, Damaged, Separate, Contents,
      Recoverable, Roomy, Long;
    CoderShape(rs);
    var ds, ps := rs.dataShards, rs.parityShards;
    var n := nr_shards / rs.shards;
    GroupCount(nr_shards, n, ds, ps);
    var d := n * ds;
    RecoverableIs(marks, n, d, ds, ps);
    ghost var orig := Contents(shards[..d]);
    LongParts(shards, d, block_size);
    var r := ReedSolomonEncode(t, rs, shards, nr_shards, block_size);
    ghost var all, fec := Contents(shards), Contents(shards[d..]);
    ContentsParts(shards, d);
    LongParts(shards, d, block_size);
    Lose(shards, marks, damage);
    ghost var data', fec' := Contents(shards[..d]), Contents(shards[d..]);
    ContentsParts(shards, d);
    LongParts(shards, d, block_size);
    DamagedParts(Contents(shards), all, marks, d, data', orig, fec', fec);
    err := ReedSolomonReconstruct(t, rs, shards, marks, nr_shards, block_size, orig);
    ghost var now := Contents(shards[..d]);
    ContentsParts(shards, d);
    LongParts(shards, d, block_size);
    if err == 0 {
      AllRepaired(ds, ps, orig, fec, data', fec', now, marks[..d], marks[d..], n, block_size);
    }
  }

  lemma LongParts(shards: seq<array<Gf>>, d: nat, bytes: nat)
    requires d <= |shards| && Roomy(shards, bytes)
    ensures Long(Contents(shards[..d]), bytes) && Long(Contents(shards[d..]), bytes)
  {
  }

  lemma ContentsParts(shards: seq<array<Gf>>, d: nat)
    requires d <= |shards|
    ensures Contents(shards[..d]) == Contents(shards)[..d]
    ensures Contents(shards[d..]) == Contents(shards)[d..]
    ensures forall i :: 0 <= i < d ==> Contents(shards[..d])[i] == shards[i][..]
  {
  }

  lemma DamagedParts(now: seq<seq<Gf>>, was: seq<seq<Gf>>, marks: seq<Gf>, d: nat,
                     data': seq<seq<Gf>>, data: seq<seq<Gf>>, fec': seq<seq<Gf>>, fec: seq<seq<Gf>>)
    requires |now| == |was| == |marks| && d <= |marks| && Damaged(now, was, marks, |marks|)
    requires data' == now[..d] && data == was[..d] && fec' == now[d..] && fec == was[d..]
    ensures Damaged(data', data, marks[..d], d) && Damaged(fec', fec, marks[d..], |marks| - d)
  {
  }
}
