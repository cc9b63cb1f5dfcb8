/** Small sequence utilities shared by several modules. */
module Seqs {

  /** No element occurs twice. */
  ghost predicate NoDup<T>(s: seq<T>) {
    forall i, j :: 0 <= i < j < |s| ==> s[i] != s[j]
  }

  /** `s.filter(m => m !== x)`: every occurrence of `x` removed, order kept. */
  function RemoveAll<T(==, !new)>(s: seq<T>, x: T): (r: seq<T>)
    ensures x !in r
    ensures forall y :: y in r <==> y in s && y != x
    ensures |r| <= |s|
    ensures x !in s ==> r == s
  {
    if s == [] then []
    else if s[0] == x then RemoveAll(s[1..], x)
    else [s[0]] + RemoveAll(s[1..], x)
  }

  lemma {:induction false} RemoveAllKeepsNoDup<T(!new)>(s: seq<T>, x: T)
    requires NoDup(s)
    ensures NoDup(RemoveAll(s, x))
  {
    if s != [] {
      RemoveAllKeepsNoDup(s[1..], x);
      assert s[0] !in s[1..];
    }
  }

  /** Sum of `f` over the elements of `s`, folded from the left. */
  function Sum<T>(s: seq<T>, f: T -> real): real {
    if s == [] then 0.0 else Sum(s[..|s| - 1], f) + f(s[|s| - 1])
  }

  lemma {:induction false} SumAppend<T>(s: seq<T>, t: seq<T>, f: T -> real)
    ensures Sum(s + t, f) == Sum(s, f) + Sum(t, f)
  {
    if t == [] {
      assert s + t == s;
    } else {
      assert (s + t)[..|s + t| - 1] == s + t[..|t| - 1];
      SumAppend(s, t[..|t| - 1], f);
    }
  }

  /** Sums are linear: summing `f + g` is summing `f` plus summing `g`. */
  lemma {:induction false} SumAdd<T>(s: seq<T>, f: T -> real, g: T -> real, h: T -> real)
    requires forall x :: x in s ==> h(x) == f(x) + g(x)
    ensures Sum(s, h) == Sum(s, f) + Sum(s, g)
  {
    if s != [] {
      SumAdd(s[..|s| - 1], f, g, h);
    }
  }

  /** Sums are linear: summing `f - g` is summing `f` minus summing `g`. */
  lemma {:induction false} SumSub<T>(s: seq<T>, f: T -> real, g: T -> real, h: T -> real)
    requires forall x :: x in s ==> h(x) == f(x) - g(x)
    ensures Sum(s, h) == Sum(s, f) - Sum(s, g)
  {
    if s != [] {
      SumSub(s[..|s| - 1], f, g, h);
    }
  }

  /** Sums of pointwise-equal functions agree. */
  lemma {:induction false} SumCongruent<T>(s: seq<T>, f: T -> real, g: T -> real)
    requires forall x :: x in s ==> f(x) == g(x)
    ensures Sum(s, f) == Sum(s, g)
  {
    if s != [] {
      SumCongruent(s[..|s| - 1], f, g);
    }
  }

  /** A function that vanishes everywhere on `s` sums to zero. */
  lemma {:induction false} SumZero<T>(s: seq<T>, f: T -> real)
    requires forall x :: x in s ==> f(x) == 0.0
    ensures Sum(s, f) == 0.0
  {
    if s != [] {
      SumZero(s[..|s| - 1], f);
    }
  }

  /** Over a duplicate-free sequence, a function that is zero except at one
      element `x` of the sequence sums to its value at `x`. */
  lemma {:induction false} SumSingle<T>(s: seq<T>, x: T, f: T -> real)
    requires NoDup(s) && x in s
    requires forall y :: y in s && y != x ==> f(y) == 0.0
    ensures Sum(s, f) == f(x)
  {
    var init := s[..|s| - 1];
    if s[|s| - 1] == x {
      assert x !in init;
      SumZero(init, f);
    } else {
      assert x in init;
      SumSingle(init, x, f);
    }
  }

  /** `set.add(x)` on a JavaScript `Set`, seen as the list of its
      elements in insertion order: a new element goes last. */
  function Add<T(==, !new)>(names: seq<T>, x: T): seq<T> {
    if x in names then names else names + [x]
  }

  /** Adding every element of `t`, first to last. */
  function AddAll<T(==, !new)>(d: seq<T>, t: seq<T>): seq<T> {
    if t == [] then d else Add(AddAll(d, t[..|t| - 1]), t[|t| - 1])
  }

  lemma {:induction false} AddAllHas<T(!new)>(d: seq<T>, t: seq<T>, x: T)
    ensures x in AddAll(d, t) <==> x in d || x in t
  {
    if t != [] {
      AddAllHas(d, t[..|t| - 1], x);
      assert t == t[..|t| - 1] + [t[|t| - 1]];
    }
  }

  /** Adding the same element twice to an empty set holds it once. */
  lemma AddTwice<T(!new)>(x: T)
    ensures AddAll([], [x, x]) == [x]
  {
    assert AddAll([], [x]) == [x] by {
      assert [x][..0] == [];
    }
    assert [x, x][..1] == [x];
    assert x in [x];
  }

  /** A set never holds an element twice. */
  lemma {:induction false} AddAllNoDup<T(!new)>(d: seq<T>, t: seq<T>)
    requires NoDup(d)
    ensures NoDup(AddAll(d, t))
  {
    if t != [] {
      AddAllNoDup(d, t[..|t| - 1]);
    }
  }

  lemma {:induction false} AddAllAppend<T(!new)>(d: seq<T>, a: seq<T>, b: seq<T>)
    ensures AddAll(d, a + b) == AddAll(AddAll(d, a), b)
  {
    if b == [] {
      assert a + b == a;
    } else {
      assert (a + b)[..|a + b| - 1] == a + b[..|b| - 1];
      AddAllAppend(d, a, b[..|b| - 1]);
    }
  }

  /** A non-empty sequence is its front followed by its last element. */
  lemma FrontLast<T>(s: seq<T>)
    requires s != []
    ensures s[..|s| - 1] + [s[|s| - 1]] == s
  {
  }

  /** The lists `f` gives for the elements of `s`, joined in order. */
  function FlatMap<T, U>(s: seq<T>, f: T -> seq<U>): seq<U> {
    if s == [] then [] else FlatMap(s[..|s| - 1], f) + f(s[|s| - 1])
  }

  lemma FlatMapOne<T, U>(s: seq<T>, f: T -> seq<U>)
    requires |s| == 1
    ensures FlatMap(s, f) == f(s[0])
  {
    assert s[..0] == [];
  }

  /** An element of the joined lists comes from the list of some element. */
  lemma {:induction false} FlatMapHas<T, U>(s: seq<T>, f: T -> seq<U>, x: U)
    ensures x in FlatMap(s, f) <==> exists i :: 0 <= i < |s| && x in f(s[i])
  {
    if s != [] {
      var init, k := s[..|s| - 1], |s| - 1;
      FlatMapHas(init, f, x);
      if x in FlatMap(init, f) {
        var i :| 0 <= i < |init| && x in f(init[i]);
        assert s[i] == init[i];
      }
      if exists i :: 0 <= i < |s| && x in f(s[i]) {
        var i :| 0 <= i < |s| && x in f(s[i]);
        if i < k { assert init[i] == s[i]; }
      }
    }
  }
}
