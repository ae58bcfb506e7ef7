/** Sorting as the language's `sort` does it: elements that tie keep their order. */
module StableSort {

  // `before` is a comparison whose ties are an equivalence.
  ghost predicate WeakOrder<T(!new)>(before: (T, T) -> bool) {
    && (forall a, b :: before(a, b) ==> !before(b, a))
    && (forall a, b, c :: before(a, c) ==> before(a, b) || before(b, c))
  }

  ghost predicate Sorted<T>(s: seq<T>, before: (T, T) -> bool) {
    forall i, j :: 0 <= i < j < |s| ==> !before(s[j], s[i])
  }

  lemma TailSorted<T>(s: seq<T>, before: (T, T) -> bool)
    requires s != [] && Sorted(s, before)
    ensures Sorted(s[1..], before)
  {
  }

  function Insert<T>(x: T, s: seq<T>, before: (T, T) -> bool): seq<T> {
    if s != [] && before(x, s[|s| - 1]) then Insert(x, s[..|s| - 1], before) + [s[|s| - 1]] else s + [x]
  }

  function Sort<T>(s: seq<T>, before: (T, T) -> bool): (r: seq<T>)
    ensures |r| == |s|
  {
    if s == [] then []
    else
      InsertKeeps(s[|s| - 1], Sort(s[..|s| - 1], before), before);
      Insert(s[|s| - 1], Sort(s[..|s| - 1], before), before)
  }

  lemma {:induction false} InsertKeeps<T>(x: T, s: seq<T>, before: (T, T) -> bool)
    ensures |Insert(x, s, before)| == |s| + 1
    ensures multiset(Insert(x, s, before)) == multiset(s) + multiset{x}
  {
    if s != [] && before(x, s[|s| - 1]) {
      InsertKeeps(x, s[..|s| - 1], before);
      assert s == s[..|s| - 1] + [s[|s| - 1]];
    }
  }

  lemma {:induction false} InsertSorts<T(!new)>(x: T, s: seq<T>, before: (T, T) -> bool)
    requires WeakOrder(before) && Sorted(s, before)
    ensures Sorted(Insert(x, s, before), before)
  {
    var r := Insert(x, s, before);
    if s != [] && before(x, s[|s| - 1]) {
      var init, last := s[..|s| - 1], s[|s| - 1];
      InsertSorts(x, init, before);
      InsertKeeps(x, init, before);
      forall i | 0 <= i < |init| + 1 ensures !before(last, r[i]) {
        assert r[i] in multiset(Insert(x, init, before));
        assert r[i] == x || r[i] in init;
      }
    } else if s != [] {
      var last := s[|s| - 1];
      forall i | 0 <= i < |s| ensures !before(x, s[i]) {
        assert !before(x, last) && !before(last, s[i]);
      }
    }
  }

  lemma {:induction false} SortSorts<T(!new)>(s: seq<T>, before: (T, T) -> bool)
    requires WeakOrder(before)
    ensures Sorted(Sort(s, before), before) && multiset(Sort(s, before)) == multiset(s)
  {
    if s != [] {
      var init, last := s[..|s| - 1], s[|s| - 1];
      SortSorts(init, before);
      InsertSorts(last, Sort(init, before), before);
      InsertKeeps(last, Sort(init, before), before);
      assert s == init + [last];
    }
  }

  // The elements of s that tie with x, in their order.
  function Ties<T>(s: seq<T>, x: T, before: (T, T) -> bool): seq<T> {
    if s == [] then []
    else
      var last := s[|s| - 1];
      Ties(s[..|s| - 1], x, before) + if !before(x, last) && !before(last, x) then [last] else []
  }

  lemma {:induction false} InsertKeepsTies<T(!new)>(y: T, s: seq<T>, x: T, before: (T, T) -> bool)
    requires WeakOrder(before)
    ensures Ties(Insert(y, s, before), x, before) == Ties(s + [y], x, before)
  {
    assert (s + [y])[..|s|] == s;
    if s != [] && before(y, s[|s| - 1]) {
      var init, last := s[..|s| - 1], s[|s| - 1];
      InsertKeepsTies(y, init, x, before);
      assert (Insert(y, init, before) + [last])[..|Insert(y, init, before)|] == Insert(y, init, before);
      assert (init + [y])[..|init|] == init;
      assert before(y, last) ==> before(y, x) || before(x, last);
    }
  }

  lemma {:induction false} SortKeepsTies<T(!new)>(s: seq<T>, x: T, before: (T, T) -> bool)
    requires WeakOrder(before)
    ensures Ties(Sort(s, before), x, before) == Ties(s, x, before)
  {
    if s != [] {
      var init, last := s[..|s| - 1], s[|s| - 1];
      SortKeepsTies(init, x, before);
      InsertKeepsTies(last, Sort(init, before), x, before);
      assert (Sort(init, before) + [last])[..|init|] == Sort(init, before);
    }
  }

  lemma Removed<T>(s: seq<T>, i: nat)
    requires i < |s|
    ensures multiset(s[..i] + s[i + 1..]) == multiset(s) - multiset{s[i]}
  {
    assert s == s[..i] + [s[i]] + s[i + 1..];
  }

  // Where no two elements tie, a sorted sequence is determined by its elements.
  ghost predicate TotalOrder<T(!new)>(before: (T, T) -> bool) {
    && (forall a, b :: before(a, b) ==> !before(b, a))
    && (forall a, b :: a == b || before(a, b) || before(b, a))
  }

  lemma SameFirst<T(!new)>(one: seq<T>, other: seq<T>, before: (T, T) -> bool)
    requires TotalOrder(before) && Sorted(one, before) && Sorted(other, before)
    requires multiset(one) == multiset(other) && one != [] && other != []
    ensures one[0] == other[0]
  {
    var a, b := one[0], other[0];
    assert a in multiset(one) && b in multiset(other);
    var i :| 0 <= i < |other| && other[i] == a;
    var j :| 0 <= j < |one| && one[j] == b;
    assert i > 0 ==> !before(other[i], other[0]);
    assert j > 0 ==> !before(one[j], one[0]);
  }

  lemma TailHolds<T>(s: seq<T>)
    requires s != []
    ensures multiset(s[1..]) == multiset(s) - multiset{s[0]}
  {
    Removed(s, 0);
    assert s[..0] + s[1..] == s[1..];
  }

  lemma {:induction false} SortedIsUnique<T(!new)>(one: seq<T>, other: seq<T>, before: (T, T) -> bool)
    requires TotalOrder(before) && Sorted(one, before) && Sorted(other, before) && multiset(one) == multiset(other)
    ensures one == other
    decreases |one|
  {
    hide *;
    assert |one| == |multiset(one)| == |multiset(other)| == |other|;
    if one != [] {
      SameFirst(one, other, before);
      TailSorted(one, before);
      TailSorted(other, before);
      TailHolds(one);
      TailHolds(other);
      SortedIsUnique(one[1..], other[1..], before);
      assert one == [one[0]] + one[1..] && other == [other[0]] + other[1..];
    }
  }
}
