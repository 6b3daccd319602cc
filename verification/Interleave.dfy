/** Ordering addresses for connection attempts, and dropping those that failed. */
module Interleave {
  import opened Common

  datatype AddrInfo = AddrInfo(family: int, address: string)

  /** The addresses of one family, in order. */
  function Select(xs: seq<AddrInfo>, f: int): seq<AddrInfo>
  {
    if xs == [] then []
    else if xs[0].family == f then [xs[0]] + Select(xs[1..], f)
    else Select(xs[1..], f)
  }

  lemma {:induction false} SelectAppend(a: seq<AddrInfo>, b: seq<AddrInfo>, f: int)
    ensures Select(a + b, f) == Select(a, f) + Select(b, f)
  {
    if a == [] {
      assert a + b == b;
    } else {
      assert (a + b)[0] == a[0] && (a + b)[1..] == a[1..] + b;
      SelectAppend(a[1..], b, f);
      Assoc([a[0]], Select(a[1..], f), Select(b, f));
    }
  }

  /** The families in the order of their first addresses. */
  function Families(xs: seq<AddrInfo>): (fs: seq<int>)
  {
    if xs == [] then []
    else
      var fs := Families(xs[..|xs| - 1]);
      var f := xs[|xs| - 1].family;
      if f in fs then fs else fs + [f]
  }

  lemma {:induction false} FamiliesFacts(xs: seq<AddrInfo>)
    ensures NoDuplicates(Families(xs))
    ensures forall a :: a in xs ==> a.family in Families(xs)
    ensures xs != [] ==> Families(xs) != [] && Families(xs)[0] == xs[0].family
  {
    if xs != [] {
      FamiliesFacts(xs[..|xs| - 1]);
      assert xs == xs[..|xs| - 1] + [xs[|xs| - 1]];
      if |xs| == 1 {
        assert Families(xs[..0]) == [];
      }
    }
  }

  /** The first members of the lists that have any. */
  function Heads(lists: seq<seq<AddrInfo>>): seq<AddrInfo>
  {
    if lists == [] then []
    else (if lists[0] == [] then [] else lists[0][..1]) + Heads(lists[1..])
  }

  function Tails(lists: seq<seq<AddrInfo>>): (r: seq<seq<AddrInfo>>)
    ensures |r| == |lists|
  {
    seq(|lists|, i requires 0 <= i < |lists| => if lists[i] == [] then [] else lists[i][1..])
  }

  function Longest(lists: seq<seq<AddrInfo>>): (n: nat)
    ensures forall i :: 0 <= i < |lists| ==> |lists[i]| <= n
  {
    if lists == [] then 0 else Max(|lists[0]|, Longest(lists[1..]))
  }

  lemma {:induction false} TailsShorter(lists: seq<seq<AddrInfo>>)
    ensures Longest(Tails(lists)) == Max(0, Longest(lists) - 1)
  {
    if lists != [] {
      TailsShorter(lists[1..]);
      assert Tails(lists)[1..] == Tails(lists[1..]);
    }
  }

  /** `chain.from_iterable(zip_longest(*lists))` without the fillers. */
  function RoundRobin(lists: seq<seq<AddrInfo>>): seq<AddrInfo>
    decreases Longest(lists)
  {
    if Longest(lists) == 0 then []
    else
      TailsShorter(lists);
      Heads(lists) + RoundRobin(Tails(lists))
  }

  function Groups(xs: seq<AddrInfo>, fs: seq<int>): (r: seq<seq<AddrInfo>>)
    ensures |r| == |fs|
  {
    seq(|fs|, i requires 0 <= i < |fs| => Select(xs, fs[i]))
  }

  /** `_interleave_addrinfos`. */
  function Interleaved(xs: seq<AddrInfo>, count: int): seq<AddrInfo>
    requires xs != []
  {
    FamiliesFacts(xs);
    var groups := Groups(xs, Families(xs));
    var n := Lead(groups[0], count);
    groups[0][..n] + RoundRobin(groups[0 := groups[0][n..]])
  }

  /** How many addresses of the first family come before the rounds begin. */
  function Lead(first: seq<AddrInfo>, count: int): nat
  {
    if count > 1 then Min(count - 1, |first|) else 0
  }

  /** List i holds addresses of family fs[i] only. */
  predicate Sorted(lists: seq<seq<AddrInfo>>, fs: seq<int>)
  {
    && |lists| == |fs|
    && forall i, k :: 0 <= i < |lists| && 0 <= k < |lists[i]| ==> lists[i][k].family == fs[i]
  }

  lemma {:induction false} SelectAll(xs: seq<AddrInfo>, f: int, g: int)
    requires forall k :: 0 <= k < |xs| ==> xs[k].family == g
    ensures Select(xs, f) == if f == g then xs else []
  {
    if xs != [] {
      SelectAll(xs[1..], f, g);
    }
  }

  lemma {:induction false} SelectFamily(xs: seq<AddrInfo>, f: int)
    ensures forall k :: 0 <= k < |Select(xs, f)| ==> Select(xs, f)[k].family == f
  {
    if xs != [] {
      SelectFamily(xs[1..], f);
    }
  }

  /** The list of a family. */
  function ListOf(lists: seq<seq<AddrInfo>>, fs: seq<int>, f: int): seq<AddrInfo>
    requires |lists| == |fs|
  {
    if fs == [] then [] else if fs[0] == f then lists[0] else ListOf(lists[1..], fs[1..], f)
  }

  lemma {:induction false} ListOfAt(lists: seq<seq<AddrInfo>>, fs: seq<int>, i: nat)
    requires |lists| == |fs| && i < |fs| && NoDuplicates(fs)
    ensures ListOf(lists, fs, fs[i]) == lists[i]
  {
    if i > 0 {
      assert fs[0] != fs[i];
      ListOfAt(lists[1..], fs[1..], i - 1);
    }
  }

  lemma {:induction false} SelectHeads(lists: seq<seq<AddrInfo>>, fs: seq<int>, f: int)
    requires Sorted(lists, fs) && NoDuplicates(fs)
    ensures var l := ListOf(lists, fs, f); Select(Heads(lists), f) == if l == [] then [] else l[..1]
    ensures f !in fs ==> ListOf(lists, fs, f) == []
  {
    if lists != [] {
      var head := if lists[0] == [] then [] else lists[0][..1];
      SelectAppend(head, Heads(lists[1..]), f);
      SelectAll(head, f, fs[0]);
      SelectHeads(lists[1..], fs[1..], f);
      assert fs[0] == f ==> f !in fs[1..];
    }
  }

  lemma {:induction false} ListOfTails(lists: seq<seq<AddrInfo>>, fs: seq<int>, f: int)
    requires |lists| == |fs|
    ensures var l := ListOf(lists, fs, f); ListOf(Tails(lists), fs, f) == if l == [] then [] else l[1..]
  {
    if fs != [] {
      assert Tails(lists)[1..] == Tails(lists[1..]);
      ListOfTails(lists[1..], fs[1..], f);
    }
  }

  lemma {:induction false} ListOfShort(lists: seq<seq<AddrInfo>>, fs: seq<int>, f: int)
    requires |lists| == |fs|
    ensures |ListOf(lists, fs, f)| <= Longest(lists)
  {
    if fs != [] {
      ListOfShort(lists[1..], fs[1..], f);
    }
  }

  /** The rounds keep every family's addresses, in order. */
  lemma {:induction false} SelectRoundRobin(lists: seq<seq<AddrInfo>>, fs: seq<int>, f: int)
    requires Sorted(lists, fs) && NoDuplicates(fs)
    ensures Select(RoundRobin(lists), f) == ListOf(lists, fs, f)
    decreases Longest(lists)
  {
    if Longest(lists) == 0 {
      ListOfShort(lists, fs, f);
    } else {
      TailsShorter(lists);
      SelectAppend(Heads(lists), RoundRobin(Tails(lists)), f);
      SelectHeads(lists, fs, f);
      ListOfTails(lists, fs, f);
      TailsSorted(lists, fs);
      SelectRoundRobin(Tails(lists), fs, f);
      var l := ListOf(lists, fs, f);
      if l != [] {
        assert l[..1] + l[1..] == l;
      }
    }
  }

  lemma TailsSorted(lists: seq<seq<AddrInfo>>, fs: seq<int>)
    requires Sorted(lists, fs)
    ensures Sorted(Tails(lists), fs)
  {
  }

  lemma GroupsSorted(xs: seq<AddrInfo>, fs: seq<int>)
    ensures Sorted(Groups(xs, fs), fs)
  {
    forall i | 0 <= i < |fs|
      ensures forall k :: 0 <= k < |Groups(xs, fs)[i]| ==> Groups(xs, fs)[i][k].family == fs[i]
    {
      SelectFamily(xs, fs[i]);
    }
  }

  lemma {:induction false} SelectAbsent(xs: seq<AddrInfo>, f: int)
    requires forall a :: a in xs ==> a.family != f
    ensures Select(xs, f) == []
  {
    if xs != [] {
      SelectAbsent(xs[1..], f);
    }
  }

  /** Cutting a lead off the first group moves only addresses of its family. */
  lemma LedListOf(groups: seq<seq<AddrInfo>>, fs: seq<int>, n: nat, f: int)
    requires |groups| == |fs| && fs != [] && NoDuplicates(fs) && n <= |groups[0]|
    ensures var lists := groups[0 := groups[0][n..]];
            f == fs[0] ==> groups[0][..n] + ListOf(lists, fs, f) == ListOf(groups, fs, f)
    ensures f != fs[0] ==> ListOf(groups[0 := groups[0][n..]], fs, f) == ListOf(groups, fs, f)
  {
    var lists := groups[0 := groups[0][n..]];
    assert lists[1..] == groups[1..];
    assert groups[0] == groups[0][..n] + groups[0][n..];
  }

  lemma GroupOf(xs: seq<AddrInfo>, fs: seq<int>, f: int)
    requires NoDuplicates(fs) && forall a :: a in xs ==> a.family in fs
    ensures ListOf(Groups(xs, fs), fs, f) == Select(xs, f)
  {
    GroupsSorted(xs, fs);
    if f in fs {
      var i :| 0 <= i < |fs| && fs[i] == f;
      ListOfAt(Groups(xs, fs), fs, i);
    } else {
      SelectHeads(Groups(xs, fs), fs, f);
      SelectAbsent(xs, f);
    }
  }

  lemma LeadSorted(groups: seq<seq<AddrInfo>>, fs: seq<int>, n: nat)
    requires Sorted(groups, fs) && fs != [] && n <= |groups[0]|
    ensures Sorted(groups[0 := groups[0][n..]], fs)
    ensures forall k :: 0 <= k < n ==> groups[0][..n][k].family == fs[0]
  {
  }

  /** Interleaving is stable: every family keeps its addresses, in order, and no other ones appear. */
  lemma InterleavedIsStable(xs: seq<AddrInfo>, count: int, f: int)
    requires xs != []
    ensures Select(Interleaved(xs, count), f) == Select(xs, f)
  {
    FamiliesFacts(xs);
    var fs := Families(xs);
    var groups := Groups(xs, fs);
    var n := Lead(groups[0], count);
    var lead, lists := groups[0][..n], groups[0 := groups[0][n..]];
    GroupsSorted(xs, fs);
    LeadSorted(groups, fs, n);
    SelectAppend(lead, RoundRobin(lists), f);
    SelectAll(lead, f, fs[0]);
    SelectRoundRobin(lists, fs, f);
    LedListOf(groups, fs, n, f);
    GroupOf(xs, fs, f);
  }

  lemma {:induction false} SelectCounts(xs: seq<AddrInfo>, a: AddrInfo)
    ensures multiset(Select(xs, a.family))[a] == multiset(xs)[a]
  {
    if xs != [] {
      SelectCounts(xs[1..], a);
      assert xs == [xs[0]] + xs[1..];
    }
  }

  /** So it is a permutation. */
  lemma InterleavedIsPermutation(xs: seq<AddrInfo>, count: int)
    requires xs != []
    ensures multiset(Interleaved(xs, count)) == multiset(xs)
  {
    var ys := Interleaved(xs, count);
    forall a
      ensures multiset(ys)[a] == multiset(xs)[a]
    {
      InterleavedIsStable(xs, count, a.family);
      SelectCounts(xs, a);
      SelectCounts(ys, a);
    }
  }

  /**
   * It opens with `count` addresses of the family of the first address, or with all it has, and
   * at least with the first one.
   */
  lemma InterleavedOpening(xs: seq<AddrInfo>, count: int)
    requires xs != []
    ensures var first := Select(xs, xs[0].family);
            first[..Min(Max(count, 1), |first|)] <= Interleaved(xs, count)
  {
    FamiliesFacts(xs);
    var fs := Families(xs);
    var groups := Groups(xs, fs);
    var first := groups[0];
    var n := Lead(first, count);
    var lists := groups[0 := first[n..]];
    assert first != [];
    var k := Min(Max(count, 1), |first|);
    if first[n..] != [] {
      assert k == n + 1;
      assert Longest(lists) > 0;
      assert lists[0][..1] <= Heads(lists) <= RoundRobin(lists);
      assert first[..k] == first[..n] + first[n..][..1];
    } else {
      assert k == n;
    }
  }

  // ----- the rounds are fair -----

  /** How many addresses of the same family stand before position p. */
  function Rank(ys: seq<AddrInfo>, p: nat): nat
    requires p < |ys|
  {
    |Select(ys[..p], ys[p].family)|
  }

  /** Nobody's (k+1)-th address comes before anybody's k-th one. */
  predicate Fair(ys: seq<AddrInfo>)
  {
    forall p, q :: 0 <= p < q < |ys| ==> Rank(ys, p) <= Rank(ys, q)
  }

  lemma HeadsAreFirst(lists: seq<seq<AddrInfo>>, fs: seq<int>, rest: seq<AddrInfo>, p: nat)
    requires Sorted(lists, fs) && NoDuplicates(fs) && p < |Heads(lists)|
    ensures Rank(Heads(lists) + rest, p) == 0
  {
    var hs := Heads(lists);
    var f := hs[p].family;
    assert (hs + rest)[..p] == hs[..p];
    SelectHeads(lists, fs, f);
    assert hs == hs[..p] + [hs[p]] + hs[p + 1..];
    SelectAppend(hs[..p] + [hs[p]], hs[p + 1..], f);
    SelectAppend(hs[..p], [hs[p]], f);
  }

  lemma {:induction false} RoundRobinFamilies(lists: seq<seq<AddrInfo>>, fs: seq<int>, a: AddrInfo)
    requires Sorted(lists, fs) && NoDuplicates(fs) && a in RoundRobin(lists)
    ensures ListOf(lists, fs, a.family) != []
  {
    SelectRoundRobin(lists, fs, a.family);
    SelectCounts(RoundRobin(lists), a);
    assert multiset(RoundRobin(lists))[a] > 0;
    assert multiset(Select(RoundRobin(lists), a.family))[a] > 0;
    if Select(RoundRobin(lists), a.family) == [] {
      assert false;
    }
  }

  /** A family that comes again in a later round has one address in this one. */
  lemma OnePerRound(lists: seq<seq<AddrInfo>>, fs: seq<int>, a: AddrInfo)
    requires Sorted(lists, fs) && NoDuplicates(fs) && a in RoundRobin(Tails(lists))
    ensures |Select(Heads(lists), a.family)| == 1
  {
    TailsSorted(lists, fs);
    RoundRobinFamilies(Tails(lists), fs, a);
    ListOfTails(lists, fs, a.family);
    SelectHeads(lists, fs, a.family);
  }

  lemma RankBehind(hs: seq<AddrInfo>, rest: seq<AddrInfo>, q: nat)
    requires q < |rest|
    ensures Rank(hs + rest, |hs| + q) == |Select(hs, rest[q].family)| + Rank(rest, q)
  {
    TakeBehind(hs, rest, q);
    SelectAppend(hs, rest[..q], rest[q].family);
  }

  lemma TakeBehind<T>(a: seq<T>, b: seq<T>, q: nat)
    requires q < |b|
    ensures (a + b)[..|a| + q] == a + b[..q] && (a + b)[|a| + q] == b[q]
  {
  }

  /** A round in front that has one address of every family that comes again. */
  ghost predicate OneOfEach(hs: seq<AddrInfo>, rest: seq<AddrInfo>)
  {
    && (forall a :: a in rest ==> |Select(hs, a.family)| == 1)
    && (forall p :: 0 <= p < |hs| ==> Rank(hs + rest, p) == 0)
  }

  lemma RoundIsOneOfEach(lists: seq<seq<AddrInfo>>, fs: seq<int>)
    requires Sorted(lists, fs) && NoDuplicates(fs)
    ensures OneOfEach(Heads(lists), RoundRobin(Tails(lists)))
  {
    forall a | a in RoundRobin(Tails(lists))
      ensures |Select(Heads(lists), a.family)| == 1
    {
      OnePerRound(lists, fs, a);
    }
    forall p | 0 <= p < |Heads(lists)|
      ensures Rank(Heads(lists) + RoundRobin(Tails(lists)), p) == 0
    {
      HeadsAreFirst(lists, fs, RoundRobin(Tails(lists)), p);
    }
  }

  /** Such a round in front raises every rank behind it by one, so it keeps the rest fair. */
  lemma RoundKeepsFair(hs: seq<AddrInfo>, rest: seq<AddrInfo>)
    requires OneOfEach(hs, rest) && Fair(rest)
    ensures Fair(hs + rest)
  {
    forall q | 0 <= q < |rest|
      ensures Rank(hs + rest, |hs| + q) == 1 + Rank(rest, q)
    {
      assert rest[q] in rest;
      RankBehind(hs, rest, q);
    }
    forall p, q | 0 <= p < q < |hs + rest|
      ensures Rank(hs + rest, p) <= Rank(hs + rest, q)
    {
      if p >= |hs| {
        assert Rank(rest, p - |hs|) <= Rank(rest, q - |hs|);
        assert Rank(hs + rest, |hs| + (p - |hs|)) == 1 + Rank(rest, p - |hs|);
        assert Rank(hs + rest, |hs| + (q - |hs|)) == 1 + Rank(rest, q - |hs|);
      }
    }
  }

  lemma {:induction false} RoundRobinIsFair(lists: seq<seq<AddrInfo>>, fs: seq<int>)
    requires Sorted(lists, fs) && NoDuplicates(fs)
    ensures Fair(RoundRobin(lists))
    decreases Longest(lists)
  {
    if Longest(lists) > 0 {
      TailsShorter(lists);
      TailsSorted(lists, fs);
      RoundRobinIsFair(Tails(lists), fs);
      RoundIsOneOfEach(lists, fs);
      RoundKeepsFair(Heads(lists), RoundRobin(Tails(lists)));
    }
  }

  /** Behind the leading addresses of the first family, the families take turns. */
  lemma InterleavedIsFair(xs: seq<AddrInfo>, count: int)
    requires xs != []
    ensures var n := Lead(Select(xs, xs[0].family), count);
            n <= |Interleaved(xs, count)| && Fair(Interleaved(xs, count)[n..])
  {
    FamiliesFacts(xs);
    var fs := Families(xs);
    var groups := Groups(xs, fs);
    var n := Lead(groups[0], count);
    var lists := groups[0 := groups[0][n..]];
    GroupsSorted(xs, fs);
    assert Sorted(lists, fs);
    RoundRobinIsFair(lists, fs);
    assert Interleaved(xs, count)[n..] == RoundRobin(lists);
  }

  /**
   * `_interleave_addrinfos`: a grouping loop, a cut, and rounds over the groups. None stands for
   * the IndexError of an empty list with a count above one.
   */
  method InterleaveAddrInfos(xs: seq<AddrInfo>, count: int) returns (r: Option<seq<AddrInfo>>)
    ensures r.None? <==> xs == [] && count > 1
    ensures r.Some? && xs != [] ==> r.value == Interleaved(xs, count)
    ensures r.Some? ==> multiset(r.value) == multiset(xs) && forall f :: Select(r.value, f) == Select(xs, f)
  {
    var lists := GroupByFamily(xs);
    if xs == [] && count > 1 {
      return None;
    }
    InterleavedFacts(xs, count);
    var reordered: seq<AddrInfo> := [];
    if count > 1 {
      var n := Min(count - 1, |lists[0]|);
      reordered := lists[0][..n];
      lists := lists[0 := lists[0][n..]];
    }
    reordered := AppendRounds(reordered, lists);
    return Some(reordered);
  }

  /** The rounds of `zip_longest`, without its fill values. */
  method AppendRounds(start: seq<AddrInfo>, groups: seq<seq<AddrInfo>>) returns (reordered: seq<AddrInfo>)
    ensures reordered == start + RoundRobin(groups)
  {
    var lists := groups;
    reordered := start;
    while exists i :: 0 <= i < |lists| && lists[i] != []
      invariant reordered + RoundRobin(lists) == start + RoundRobin(groups)
      decreases Longest(lists)
    {
      LongestPositive(lists);
      TailsShorter(lists);
      var column := TakeHeads(lists);
      Assoc(reordered, column, RoundRobin(Tails(lists)));
      reordered := reordered + column;
      lists := Tails(lists);
    }
    AllEmpty(lists);
    assert reordered + [] == reordered;
  }

  /** Cutting the lead off the groups and serving the rest in rounds gives the stable permutation. */
  lemma InterleavedFacts(xs: seq<AddrInfo>, count: int)
    requires xs != [] || count <= 1
    ensures var groups := Groups(xs, Families(xs));
            && (count > 1 ==> groups != [])
            && (xs != [] ==> Arranged(groups, count) == Interleaved(xs, count))
            && multiset(Arranged(groups, count)) == multiset(xs)
            && (forall f :: Select(Arranged(groups, count), f) == Select(xs, f))
  {
    FamiliesFacts(xs);
    var groups := Groups(xs, Families(xs));
    if xs != [] {
      assert groups[0][0..] == groups[0] && groups[0 := groups[0]] == groups && groups[0][..0] == [];
      InterleavedIsPermutation(xs, count);
      forall f
        ensures Select(Interleaved(xs, count), f) == Select(xs, f)
      {
        InterleavedIsStable(xs, count, f);
      }
    } else {
      assert groups == [] && Longest(groups) == 0;
    }
  }

  function Arranged(groups: seq<seq<AddrInfo>>, count: int): seq<AddrInfo>
    requires count > 1 ==> groups != []
  {
    if count > 1 then
      var n := Min(count - 1, |groups[0]|);
      groups[0][..n] + RoundRobin(groups[0 := groups[0][n..]])
    else [] + RoundRobin(groups)
  }

  lemma LongestPositive(lists: seq<seq<AddrInfo>>)
    requires exists i :: 0 <= i < |lists| && lists[i] != []
    ensures Longest(lists) > 0
  {
    var i :| 0 <= i < |lists| && lists[i] != [];
    assert |lists[i]| <= Longest(lists);
  }

  lemma {:induction false} AllEmpty(lists: seq<seq<AddrInfo>>)
    requires forall i :: 0 <= i < |lists| ==> lists[i] == []
    ensures Longest(lists) == 0
  {
    if lists != [] {
      AllEmpty(lists[1..]);
    }
  }

  lemma SelectNext(xs: seq<AddrInfo>, i: nat, g: int)
    requires i < |xs|
    ensures Select(xs[..i + 1], g) == Select(xs[..i], g) + if xs[i].family == g then [xs[i]] else []
  {
    assert xs[..i + 1] == xs[..i] + [xs[i]];
    SelectAppend(xs[..i], [xs[i]], g);
  }

  lemma FamiliesNext(xs: seq<AddrInfo>, i: nat)
    requires i < |xs|
    ensures var fs, f := Families(xs[..i]), xs[i].family;
            Families(xs[..i + 1]) == if f in fs then fs else fs + [f]
  {
    assert xs[..i + 1][..i] == xs[..i];
  }

  /** The entry of a dictionary whose missing entries are empty lists. */
  function Entry(byFamily: map<int, seq<AddrInfo>>, f: int): seq<AddrInfo>
  {
    if f in byFamily then byFamily[f] else []
  }

  /** The dictionary holds the groups of what was seen, and its keys the families in order. */
  ghost predicate Grouped(keys: seq<int>, byFamily: map<int, seq<AddrInfo>>, seen: seq<AddrInfo>)
  {
    && keys == Families(seen)
    && (forall f :: f in byFamily <==> f in keys)
    && (forall f :: Entry(byFamily, f) == Select(seen, f))
  }

  lemma GroupedNext(keys: seq<int>, byFamily: map<int, seq<AddrInfo>>, xs: seq<AddrInfo>, i: nat)
    requires i < |xs| && Grouped(keys, byFamily, xs[..i])
    ensures var f := xs[i].family;
            Grouped(if f in byFamily then keys else keys + [f],
                    byFamily[f := Entry(byFamily, f) + [xs[i]]], xs[..i + 1])
  {
    var f := xs[i].family;
    var after := byFamily[f := Entry(byFamily, f) + [xs[i]]];
    FamiliesNext(xs, i);
    forall g
      ensures Entry(after, g) == Select(xs[..i + 1], g)
    {
      SelectNext(xs, i, g);
      assert Entry(byFamily, g) == Select(xs[..i], g);
      assert Entry(byFamily, g) + [] == Entry(byFamily, g);
    }
  }

  lemma GroupedStart(seen: seq<AddrInfo>)
    requires seen == []
    ensures Grouped([], map[], seen)
  {
  }

  /** The grouping loop over a dictionary that remembers the order of its keys. */
  method CollectGroups(xs: seq<AddrInfo>) returns (keys: seq<int>, byFamily: map<int, seq<AddrInfo>>)
    ensures Grouped(keys, byFamily, xs)
  {
    keys, byFamily := [], map[];
    var i := 0;
    GroupedStart(xs[..0]);
    while i < |xs|
      invariant 0 <= i <= |xs| && Grouped(keys, byFamily, xs[..i])
    {
      var f := xs[i].family;
      GroupedNext(keys, byFamily, xs, i);
      if f !in byFamily {
        keys := keys + [f];
      }
      byFamily := byFamily[f := Entry(byFamily, f) + [xs[i]]];
      i := i + 1;
    }
    assert xs[..i] == xs;
  }

  method GroupByFamily(xs: seq<AddrInfo>) returns (lists: seq<seq<AddrInfo>>)
    ensures lists == Groups(xs, Families(xs))
  {
    var keys, byFamily := CollectGroups(xs);
    lists := seq(|keys|, k requires 0 <= k < |keys| => Entry(byFamily, keys[k]));
  }

  /** One column: the first members of the lists that have any. */
  method TakeHeads(lists: seq<seq<AddrInfo>>) returns (column: seq<AddrInfo>)
    ensures column == Heads(lists)
  {
    column := [];
    var i := 0;
    assert lists[0..] == lists;
    while i < |lists|
      invariant 0 <= i <= |lists|
      invariant column + Heads(lists[i..]) == Heads(lists)
    {
      assert lists[i..][1..] == lists[i + 1..];
      var head := if lists[i] == [] then [] else lists[i][..1];
      Assoc(column, head, Heads(lists[i + 1..]));
      column := column + head;
      i := i + 1;
    }
    assert column + [] == column;
  }
}
