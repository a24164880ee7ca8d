/** Sequence helpers used to state the order-preserving lists the scorer builds. */
module Seqs {

  /** `s` with `f` applied to every element. */
  function Map<A, B>(s: seq<A>, f: A -> B): (r: seq<B>)
    ensures |r| == |s|
    ensures forall i :: 0 <= i < |s| ==> r[i] == f(s[i])
  {
    if s == [] then [] else [f(s[0])] + Map(s[1..], f)
  }

  /** The sum of the elements of `s`. */
  function Sum(s: seq<int>): int
  {
    if s == [] then 0 else s[0] + Sum(s[1..])
  }

  /** The one-element sequence [x] when `b` holds, the empty one otherwise. */
  function When<T>(b: bool, x: T): seq<T>
  {
    if b then [x] else []
  }

  /** `rank` strictly increases along `s`: every element comes before every later one. */
  predicate StrictlyRanked<T>(s: seq<T>, rank: T -> int)
  {
    forall i, j :: 0 <= i < j < |s| ==> rank(s[i]) < rank(s[j])
  }

  lemma {:induction false} SumConcat(a: seq<int>, b: seq<int>)
    ensures Sum(a + b) == Sum(a) + Sum(b)
  {
    if a == [] {
      assert a + b == b;
    } else {
      assert (a + b)[1..] == a[1..] + b;
      SumConcat(a[1..], b);
    }
  }

  lemma {:induction false} MapConcat<A, B>(a: seq<A>, b: seq<A>, f: A -> B)
    ensures Map(a + b, f) == Map(a, f) + Map(b, f)
  {
    if a == [] {
      assert a + b == b;
    } else {
      assert (a + b)[1..] == a[1..] + b;
      MapConcat(a[1..], b, f);
    }
  }

  /** Appending an element ranked above everything already present keeps the ranking. */
  lemma RankedAppend<T>(s: seq<T>, x: T, rank: T -> int)
    requires StrictlyRanked(s, rank)
    requires forall i :: 0 <= i < |s| ==> rank(s[i]) < rank(x)
    ensures StrictlyRanked(s + [x], rank)
  {
    var t := s + [x];
    forall i, j | 0 <= i < j < |t| ensures rank(t[i]) < rank(t[j]) {
      if j < |s| {
        assert t[i] == s[i] && t[j] == s[j];
      } else {
        assert t[i] == s[i] && t[j] == x;
      }
    }
  }

  /** In a strictly ranked sequence no element occurs twice. */
  lemma StrictlyRankedDistinct<T>(s: seq<T>, rank: T -> int)
    requires StrictlyRanked(s, rank)
    ensures forall i, j :: 0 <= i < j < |s| ==> s[i] != s[j]
  {
  }

  /** The sum over a sequence that is empty or holds one element. */
  lemma SumMapWhen<A>(b: bool, x: A, f: A -> int)
    ensures Sum(Map(When(b, x), f)) == if b then f(x) else 0
  {
    if b {
      assert Map(When(b, x), f) == [f(x)];
      assert Sum([f(x)]) == f(x) + Sum([]);
    }
  }

  /** Mapping over an empty or one-element sequence. */
  lemma MapWhen<A, B>(b: bool, x: A, f: A -> B)
    ensures Map(When(b, x), f) == When(b, f(x))
  {
    if b {
      assert Map([x], f) == [f(x)] + Map([], f);
    }
  }

  /** Under an injective `f`, `f(x)` is in the mapped sequence exactly when `x` is in `s`. */
  lemma MapMemberInjective<A, B>(s: seq<A>, f: A -> B, x: A)
    requires forall y, z :: f(y) == f(z) ==> y == z
    ensures f(x) in Map(s, f) <==> x in s
  {
    var r := Map(s, f);
    if f(x) in r {
      var i :| 0 <= i < |r| && r[i] == f(x);
      assert s[i] == x;
    }
    if x in s {
      var i :| 0 <= i < |s| && s[i] == x;
      assert r[i] == f(x);
    }
  }
}
