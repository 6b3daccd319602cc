/** Among addresses of equal rank, those of a family that was given earlier come first. */
module InterleaveOrder {
  import opened Common
  import opened Interleave

  /** The place of a family, or the length. */
  function Index(fs: seq<int>, f: int): (i: nat)
    ensures i <= |fs| && (i < |fs| ==> fs[i] == f)
  {
    if fs == [] || fs[0] == f then 0 else 1 + Index(fs[1..], f)
  }

  lemma {:induction false} IndexFacts(fs: seq<int>, h: int, f: int)
    ensures Index(fs, f) == |fs| <==> f !in fs
    ensures Index(fs + [h], f) == if f in fs then Index(fs, f) else if f == h then |fs| else |fs| + 1
  {
    if fs != [] {
      assert (fs + [h])[1..] == fs[1..] + [h];
      assert f in fs <==> f == fs[0] || f in fs[1..];
      IndexFacts(fs[1..], h, f);
    }
  }

  /** One family was met before the other. */
  ghost predicate Earlier(xs: seq<AddrInfo>, f: int, g: int)
  {
    exists i :: 0 <= i < |xs| && xs[i].family == f && forall j :: 0 <= j <= i ==> xs[j].family != g
  }

  lemma {:induction false} IndexIsEarlier(xs: seq<AddrInfo>, f: int, g: int)
    requires f in Families(xs) && Index(Families(xs), f) < Index(Families(xs), g)
    ensures Earlier(xs, f, g)
  {
    var k := |xs| - 1;
    var before, h := xs[..k], xs[k].family;
    var fs := Families(before);
    IndexFacts(fs, h, f);
    IndexFacts(fs, h, g);
    if f in fs {
      IndexIsEarlier(before, f, g);
      var i :| 0 <= i < |before| && before[i].family == f && forall j :: 0 <= j <= i ==> before[j].family != g;
      assert xs[i].family == f && forall j :: 0 <= j <= i ==> xs[j].family != g by {
        assert forall j :: 0 <= j <= i ==> xs[j] == before[j];
      }
    } else {
      NeverMet(xs, g);
      assert xs[k].family == f && forall j :: 0 <= j <= k ==> xs[j].family != g;
    }
  }

  lemma NeverMet(xs: seq<AddrInfo>, g: int)
    requires Index(Families(xs), g) == |Families(xs)|
    ensures forall j :: 0 <= j < |xs| ==> xs[j].family != g
  {
    FamiliesFacts(xs);
    IndexFacts(Families(xs), 0, g);
    forall j | 0 <= j < |xs|
      ensures xs[j].family != g
    {
      assert xs[j] in xs;
    }
  }

  /** Addresses of the same rank stand in the order of their families. */
  ghost predicate InOrder(ys: seq<AddrInfo>, fs: seq<int>)
  {
    forall p, q :: 0 <= p < q < |ys| && Rank(ys, p) == Rank(ys, q) ==>
      Index(fs, ys[p].family) < Index(fs, ys[q].family)
  }

  /** One address of each of some families, in their order. */
  ghost predicate Climbing(hs: seq<AddrInfo>, fs: seq<int>)
  {
    && (forall p :: 0 <= p < |hs| ==> hs[p].family in fs)
    && (forall p, q :: 0 <= p < q < |hs| ==> Index(fs, hs[p].family) < Index(fs, hs[q].family))
  }

  lemma ClimbingBehind(hs: seq<AddrInfo>, fs: seq<int>)
    requires fs != [] && NoDuplicates(fs) && Climbing(hs, fs[1..])
    ensures Climbing(hs, fs) && forall p :: 0 <= p < |hs| ==> Index(fs, hs[p].family) > 0
  {
    forall p | 0 <= p < |hs|
      ensures hs[p].family in fs && Index(fs, hs[p].family) == 1 + Index(fs[1..], hs[p].family)
    {
      assert hs[p].family in fs[1..];
    }
  }

  lemma ClimbingCons(a: AddrInfo, hs: seq<AddrInfo>, fs: seq<int>)
    requires fs != [] && a.family == fs[0] && Climbing(hs, fs)
    requires forall p :: 0 <= p < |hs| ==> Index(fs, hs[p].family) > 0
    ensures Climbing([a] + hs, fs)
  {
  }

  lemma {:induction false} HeadsClimb(lists: seq<seq<AddrInfo>>, fs: seq<int>)
    requires Sorted(lists, fs) && NoDuplicates(fs)
    ensures Climbing(Heads(lists), fs)
  {
    if lists != [] {
      var hs := Heads(lists[1..]);
      HeadsClimb(lists[1..], fs[1..]);
      ClimbingBehind(hs, fs);
      if lists[0] == [] {
        assert Heads(lists) == hs;
      } else {
        assert lists[0][..1] == [lists[0][0]];
        ClimbingCons(lists[0][0], hs, fs);
      }
    }
  }

  lemma RoundInOrder(hs: seq<AddrInfo>, rest: seq<AddrInfo>, fs: seq<int>)
    requires OneOfEach(hs, rest) && InOrder(rest, fs) && Climbing(hs, fs)
    ensures InOrder(hs + rest, fs)
  {
    var ys := hs + rest;
    forall q | |hs| <= q < |ys|
      ensures Rank(ys, q) == 1 + Rank(rest, q - |hs|)
    {
      assert rest[q - |hs|] in rest;
      RankBehind(hs, rest, q - |hs|);
    }
    forall p, q | 0 <= p < q < |ys| && Rank(ys, p) == Rank(ys, q)
      ensures Index(fs, ys[p].family) < Index(fs, ys[q].family)
    {
      if p >= |hs| {
        assert Rank(rest, p - |hs|) == Rank(rest, q - |hs|);
      }
    }
  }

  lemma {:induction false} RoundRobinInOrder(lists: seq<seq<AddrInfo>>, fs: seq<int>)
    requires Sorted(lists, fs) && NoDuplicates(fs)
    ensures InOrder(RoundRobin(lists), fs)
    decreases Longest(lists)
  {
    if Longest(lists) > 0 {
      TailsShorter(lists);
      TailsSorted(lists, fs);
      RoundRobinInOrder(Tails(lists), fs);
      RoundIsOneOfEach(lists, fs);
      HeadsClimb(lists, fs);
      RoundInOrder(Heads(lists), RoundRobin(Tails(lists)), fs);
    }
  }

  /** The rank of an address behind n leading ones of one family. */
  lemma LedRank(lead: seq<AddrInfo>, ys: seq<AddrInfo>, f: int, q: nat)
    requires (forall k :: 0 <= k < |lead| ==> lead[k].family == f) && q < |ys|
    ensures Rank(lead + ys, |lead| + q) == Rank(ys, q) + if ys[q].family == f then |lead| else 0
  {
    RankBehind(lead, ys, q);
    SelectAll(lead, ys[q].family, f);
  }

  lemma LeadRank(lead: seq<AddrInfo>, ys: seq<AddrInfo>, f: int, p: nat)
    requires (forall k :: 0 <= k < |lead| ==> lead[k].family == f) && p < |lead|
    ensures Rank(lead + ys, p) == p
  {
    assert (lead + ys)[..p] == lead[..p];
    SelectAll(lead[..p], f, f);
  }

  /** The lead goes to the first family, so it leaves all others where they are. */
  lemma LeadInOrder(lead: seq<AddrInfo>, ys: seq<AddrInfo>, fs: seq<int>, p: nat, q: nat)
    requires fs != [] && forall k :: 0 <= k < |lead| ==> lead[k].family == fs[0]
    requires Fair(ys) && InOrder(ys, fs)
    requires p < q < |lead + ys| && Rank(lead + ys, p) == Rank(lead + ys, q)
    ensures Index(fs, (lead + ys)[p].family) < Index(fs, (lead + ys)[q].family)
  {
    if p < |lead| {
      LeadRank(lead, ys, fs[0], p);
      if q < |lead| {
        LeadRank(lead, ys, fs[0], q);
      } else {
        LedRank(lead, ys, fs[0], q - |lead|);
      }
    } else {
      LedRank(lead, ys, fs[0], p - |lead|);
      LedRank(lead, ys, fs[0], q - |lead|);
      assert Rank(ys, p - |lead|) <= Rank(ys, q - |lead|);
    }
  }

  /**
   * Of two addresses that are both the k-th one of their families, the one whose family was met
   * first in the input comes first, whatever the lead is.
   */
  lemma EqualRanksInOrder(xs: seq<AddrInfo>, count: int, p: nat, q: nat)
    requires xs != [] && p < q < |Interleaved(xs, count)|
    requires var ys := Interleaved(xs, count); Rank(ys, p) == Rank(ys, q)
    ensures var ys := Interleaved(xs, count); Earlier(xs, ys[p].family, ys[q].family)
  {
    FamiliesFacts(xs);
    var fs := Families(xs);
    var groups := Groups(xs, fs);
    var n := Lead(groups[0], count);
    var lists := groups[0 := groups[0][n..]];
    GroupsSorted(xs, fs);
    LeadSorted(groups, fs, n);
    RoundRobinIsFair(lists, fs);
    RoundRobinInOrder(lists, fs);
    LeadInOrder(groups[0][..n], RoundRobin(lists), fs, p, q);
    var ys := Interleaved(xs, count);
    assert ys[p] in xs by {
      InterleavedIsPermutation(xs, count);
      assert ys[p] in multiset(ys);
    }
    IndexIsEarlier(xs, ys[p].family, ys[q].family);
  }
}
