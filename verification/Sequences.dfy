/** Order-preserving filtering and suffixes, shared by the models below. */
module Sequences {

  datatype Option<+T> = None | Some(value: T)

  /** The elements of s that satisfy p, in their order in s. */
  function Filter<T>(p: T -> bool, s: seq<T>): (r: seq<T>)
    ensures forall x :: x in r ==> x in s && p(x)
  {
    if s == [] then []
    else
      var rest := Filter(p, s[..|s| - 1]);
      if p(s[|s| - 1]) then rest + [s[|s| - 1]] else rest
  }

  lemma FilterSnoc<T>(p: T -> bool, s: seq<T>, x: T)
    ensures Filter(p, s + [x]) == Filter(p, s) + if p(x) then [x] else []
  {
    assert (s + [x])[..|s|] == s;
  }

  lemma {:induction false} FilterAppend<T>(p: T -> bool, a: seq<T>, b: seq<T>)
    ensures Filter(p, a + b) == Filter(p, a) + Filter(p, b)
  {
    if b == [] {
      assert a + b == a;
    } else {
      var n := |a + b| - 1;
      assert (a + b)[..n] == a + b[..|b| - 1];
      FilterAppend(p, a, b[..|b| - 1]);
    }
  }

  lemma {:induction false} FilterShrinks<T>(p: T -> bool, s: seq<T>)
    ensures |Filter(p, s)| <= |s|
  {
    if s != [] {
      FilterShrinks(p, s[..|s| - 1]);
    }
  }

  /** Filtering keeps every element that satisfies the predicate. */
  lemma {:induction false} FilterKeeps<T>(p: T -> bool, s: seq<T>, x: T)
    requires x in s && p(x)
    ensures x in Filter(p, s)
  {
    if x != s[|s| - 1] {
      assert x in s[..|s| - 1];
      FilterKeeps(p, s[..|s| - 1], x);
    }
  }

  lemma {:induction false} FilterNone<T>(p: T -> bool, s: seq<T>)
    requires forall x :: x in s ==> !p(x)
    ensures Filter(p, s) == []
  {
    if s != [] {
      FilterNone(p, s[..|s| - 1]);
    }
  }

  lemma {:induction false} FilterAll<T>(p: T -> bool, s: seq<T>)
    requires forall x :: x in s ==> p(x)
    ensures Filter(p, s) == s
  {
    if s != [] {
      FilterAll(p, s[..|s| - 1]);
    }
  }

  /** a is what is left of b after dropping some of its first elements. */
  ghost predicate Suffix<T>(a: seq<T>, b: seq<T>) {
    |a| <= |b| && b[|b| - |a|..] == a
  }

  lemma FilterSuffix<T>(p: T -> bool, a: seq<T>, b: seq<T>)
    requires Suffix(a, b)
    ensures Suffix(Filter(p, a), Filter(p, b))
  {
    var x := b[..|b| - |a|];
    assert b == x + a;
    FilterAppend(p, x, a);
  }
}
