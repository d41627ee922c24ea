/** Python's stable `sorted(xs, key=...)` for string keys, and why its result is unique. */
module Sorting {
  import opened Text

  function InsertBy<T>(key: T -> string, x: T, xs: seq<T>): seq<T>
  {
    if xs == [] then [x]
    else if Below(key(x), key(xs[0])) then [x] + xs
    else [xs[0]] + InsertBy(key, x, xs[1..])
  }

  function SortBy<T>(key: T -> string, xs: seq<T>): seq<T>
    decreases |xs|
  {
    if xs == [] then [] else InsertBy(key, xs[|xs| - 1], SortBy(key, xs[..|xs| - 1]))
  }

  ghost predicate DistinctBy<T>(key: T -> string, xs: seq<T>)
  {
    forall i, j | 0 <= i < j < |xs| :: key(xs[i]) != key(xs[j])
  }

  ghost predicate AscendingBy<T>(key: T -> string, xs: seq<T>)
  {
    forall i, j | 0 <= i < j < |xs| :: Below(key(xs[i]), key(xs[j]))
  }

  lemma {:induction false} InsertElements<T>(key: T -> string, x: T, xs: seq<T>)
    ensures multiset(InsertBy(key, x, xs)) == multiset{x} + multiset(xs)
  {
    if xs != [] && !Below(key(x), key(xs[0])) {
      InsertElements(key, x, xs[1..]);
      assert xs == [xs[0]] + xs[1..];
    }
  }

  lemma {:induction false} SortElements<T>(key: T -> string, xs: seq<T>)
    ensures multiset(SortBy(key, xs)) == multiset(xs)
    decreases |xs|
  {
    if xs != [] {
      var n := |xs| - 1;
      SortElements(key, xs[..n]);
      InsertElements(key, xs[n], SortBy(key, xs[..n]));
      assert xs == xs[..n] + [xs[n]];
    }
  }

  lemma SortMembers<T(!new)>(key: T -> string, xs: seq<T>)
    ensures forall x :: x in SortBy(key, xs) <==> x in xs
    ensures |SortBy(key, xs)| == |xs|
  {
    SortElements(key, xs);
    forall x ensures x in SortBy(key, xs) <==> x in xs {
      assert x in SortBy(key, xs) <==> x in multiset(SortBy(key, xs));
      assert x in xs <==> x in multiset(xs);
    }
    assert |SortBy(key, xs)| == |multiset(SortBy(key, xs))|;
    assert |xs| == |multiset(xs)|;
  }

  lemma {:induction false} InsertAscending<T>(key: T -> string, x: T, xs: seq<T>)
    requires AscendingBy(key, xs) && forall i | 0 <= i < |xs| :: key(xs[i]) != key(x)
    ensures AscendingBy(key, InsertBy(key, x, xs))
  {
    if xs == [] {
    } else if Below(key(x), key(xs[0])) {
      forall j | 0 <= j < |xs| ensures Below(key(x), key(xs[j])) {
        if j > 0 { BelowTransitive(key(x), key(xs[0]), key(xs[j])); }
      }
    } else {
      var rest := xs[1..];
      InsertAscending(key, x, rest);
      InsertElements(key, x, rest);
      BelowTotal(key(x), key(xs[0]));
      var r := InsertBy(key, x, rest);
      forall j | 0 <= j < |r| ensures Below(key(xs[0]), key(r[j])) {
        assert r[j] in multiset(r);
        assert r[j] == x || r[j] in rest;
      }
    }
  }

  lemma {:induction false} SortAscending<T>(key: T -> string, xs: seq<T>)
    requires DistinctBy(key, xs)
    ensures AscendingBy(key, SortBy(key, xs))
    decreases |xs|
  {
    if xs != [] {
      var n := |xs| - 1;
      var rest := SortBy(key, xs[..n]);
      SortAscending(key, xs[..n]);
      SortElements(key, xs[..n]);
      forall i | 0 <= i < |rest| ensures key(rest[i]) != key(xs[n]) {
        assert rest[i] in multiset(rest);
        assert rest[i] in xs[..n];
      }
      InsertAscending(key, xs[n], rest);
    }
  }

  lemma AscendingDistinct<T>(key: T -> string, xs: seq<T>)
    requires AscendingBy(key, xs)
    ensures DistinctBy(key, xs)
  {
    forall i, j | 0 <= i < j < |xs| ensures key(xs[i]) != key(xs[j]) {
      BelowIrreflexive(key(xs[i]));
    }
  }

  lemma TailMember<T>(key: T -> string, xs: seq<T>, x: T)
    requires xs != [] && DistinctBy(key, xs)
    ensures x in xs[1..] <==> x in xs && x != xs[0]
  {
    if x in xs && x != xs[0] {
      var i :| 0 <= i < |xs| && xs[i] == x;
      assert xs[1..][i - 1] == x;
    }
    if x in xs[1..] {
      var i :| 0 <= i < |xs[1..]| && xs[1..][i] == x;
      assert xs[i + 1] == x;
    }
  }

  /** A set of elements has one ascending listing. */
  lemma {:induction false} AscendingUnique<T(!new)>(key: T -> string, xs: seq<T>, ys: seq<T>)
    requires AscendingBy(key, xs) && AscendingBy(key, ys)
    requires forall x :: x in xs <==> x in ys
    ensures xs == ys
  {
    assert ys != [] ==> ys[0] in xs;
    if xs != [] {
      assert xs[0] in ys && ys != [];
      assert ys[0] in xs;
      if xs[0] != ys[0] {
        var i :| 0 <= i < |ys| && ys[i] == xs[0];
        var j :| 0 <= j < |xs| && xs[j] == ys[0];
        BelowTransitive(key(xs[0]), key(xs[j]), key(ys[i]));
        BelowIrreflexive(key(xs[0]));
      }
      AscendingDistinct(key, xs);
      AscendingDistinct(key, ys);
      forall x ensures x in xs[1..] <==> x in ys[1..] {
        TailMember(key, xs, x);
        TailMember(key, ys, x);
      }
      AscendingUnique(key, xs[1..], ys[1..]);
      assert xs == [xs[0]] + xs[1..];
      assert ys == [ys[0]] + ys[1..];
    }
  }

  /** Listings of one set of elements with distinct keys are sorted alike. */
  lemma SortedAlike<T(!new)>(key: T -> string, xs: seq<T>, ys: seq<T>)
    requires DistinctBy(key, xs) && DistinctBy(key, ys) && forall x :: x in xs <==> x in ys
    ensures SortBy(key, xs) == SortBy(key, ys)
  {
    SortMembers(key, xs);
    SortMembers(key, ys);
    SortAscending(key, xs);
    SortAscending(key, ys);
    AscendingUnique(key, SortBy(key, xs), SortBy(key, ys));
  }
}
