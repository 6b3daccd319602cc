/** Stock datatypes shared by the other modules. */
module Common {

  datatype Option<+T> = None | Some(value: T)

  datatype Result<+T, +E> = Success(value: T) | Failure(error: E)

  /** Concatenation of a list of blocks, in order. */
  function Flatten<T>(xs: seq<seq<T>>): (r: seq<T>)
  {
    if xs == [] then [] else xs[0] + Flatten(xs[1..])
  }

  lemma {:induction false} FlattenAppend<T>(xs: seq<seq<T>>, ys: seq<seq<T>>)
    ensures Flatten(xs + ys) == Flatten(xs) + Flatten(ys)
  {
    if xs == [] {
      assert xs + ys == ys;
    } else {
      assert (xs + ys)[1..] == xs[1..] + ys;
      FlattenAppend(xs[1..], ys);
    }
  }

  lemma FlattenSnoc<T>(xs: seq<seq<T>>, y: seq<T>)
    ensures Flatten(xs + [y]) == Flatten(xs) + y
  {
    FlattenAppend(xs, [y]);
    assert Flatten([y]) == y;
  }

  lemma FlattenUpTo<T>(xs: seq<seq<T>>, g: nat)
    requires g < |xs|
    ensures Flatten(xs[..g + 1]) == Flatten(xs[..g]) + xs[g]
  {
    assert xs[..g + 1] == xs[..g] + [xs[g]];
    FlattenSnoc(xs[..g], xs[g]);
  }

  lemma FlattenCut<T>(xs: seq<seq<T>>, g: nat)
    requires g <= |xs|
    ensures Flatten(xs) == Flatten(xs[..g]) + Flatten(xs[g..])
  {
    assert xs == xs[..g] + xs[g..];
    FlattenAppend(xs[..g], xs[g..]);
  }

  lemma FlattenSplit<T>(xs: seq<seq<T>>, g: nat)
    requires g < |xs|
    ensures Flatten(xs) == Flatten(xs[..g]) + xs[g] + Flatten(xs[g + 1..])
  {
    FlattenUpTo(xs, g);
    FlattenCut(xs, g + 1);
  }

  lemma Assoc<T>(a: seq<T>, b: seq<T>, c: seq<T>)
    ensures a + b + c == a + (b + c)
  {
  }

  /** Two ways to cut the same sequence at the same place. */
  lemma EqualHeads<T>(a: seq<T>, b: seq<T>, c: seq<T>, d: seq<T>)
    requires a + b == c + d && |a| == |c|
    ensures a == c && b == d
  {
    assert a == (a + b)[..|a|] && c == (c + d)[..|c|];
    assert b == (a + b)[|a|..] && d == (c + d)[|c|..];
  }

  /** The first list is the second with some members left out. */
  predicate Subsequence<T(==)>(r: seq<T>, s: seq<T>)
  {
    r == [] || (s != [] && ((r[0] == s[0] && Subsequence(r[1..], s[1..])) || Subsequence(r, s[1..])))
  }

  lemma SubsequenceCons<T>(x: T, r: seq<T>, s: seq<T>)
    requires Subsequence(r, s)
    ensures Subsequence([x] + r, [x] + s) && Subsequence(r, [x] + s)
  {
    assert ([x] + r)[1..] == r && ([x] + s)[1..] == s;
  }

  predicate NoDuplicates<T(==)>(s: seq<T>)
  {
    forall i, j :: 0 <= i < j < |s| ==> s[i] != s[j]
  }

  function Min(a: int, b: int): int { if a <= b then a else b }

  function Max(a: int, b: int): int { if a >= b then a else b }
}
