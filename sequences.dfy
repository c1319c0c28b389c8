/** `Array.prototype.filter` and a stable comparison sort, the two list
    operations both applications build their views from. */
module Sequences {

  // ---------------------------------------------------------------------------
  // filter
  // ---------------------------------------------------------------------------

  /** `s.filter(p)`: keeps, in order, the elements satisfying `p`; each kept
      element occurs as often as in `s`, each dropped one not at all. */
  function Filter<T(!new)>(s: seq<T>, p: T -> bool): (r: seq<T>)
    ensures |r| <= |s|
    ensures forall x :: multiset(r)[x] == if p(x) then multiset(s)[x] else 0
    ensures forall x :: x in r ==> x in s && p(x)
  {
    if s == [] then []
    else
      var rest := Filter(s[1..], p);
      assert s == [s[0]] + s[1..];
      if p(s[0]) then [s[0]] + rest else rest
  }

  /** Filtering by a predicate every element satisfies changes nothing. */
  lemma {:induction false} FilterKeepsAll<T(!new)>(s: seq<T>, p: T -> bool)
    requires forall x :: x in s ==> p(x)
    ensures Filter(s, p) == s
  {
    if s != [] {
      FilterKeepsAll(s[1..], p);
    }
  }

  /** Filtering a sequence with a given first element. */
  lemma FilterCons<T(!new)>(x: T, s: seq<T>, p: T -> bool)
    ensures Filter([x] + s, p) == (if p(x) then [x] else []) + Filter(s, p)
  {
    assert ([x] + s)[0] == x && ([x] + s)[1..] == s;
  }

  /** Filtering a non-empty sequence: its head, if kept, then the rest. */
  lemma FilterHead<T(!new)>(s: seq<T>, p: T -> bool)
    requires s != []
    ensures Filter(s, p) == (if p(s[0]) then [s[0]] else []) + Filter(s[1..], p)
  {
  }

  /** Filtering distributes over concatenation. */
  lemma {:induction false} FilterAppend<T(!new)>(a: seq<T>, b: seq<T>, p: T -> bool)
    ensures Filter(a + b, p) == Filter(a, p) + Filter(b, p)
  {
    if a == [] {
      assert a + b == b;
    } else {
      var x, rest := a[0], a[1..];
      assert a == [x] + rest && a + b == [x] + (rest + b);
      FilterCons(x, rest + b, p);
      FilterCons(x, rest, p);
      FilterAppend(rest, b, p);
      ConcatAssoc(if p(x) then [x] else [], Filter(rest, p), Filter(b, p));
    }
  }

  /** Filtering by two predicates that agree everywhere gives the same list. */
  lemma {:induction false} FilterSameTest<T(!new)>(s: seq<T>, p: T -> bool, q: T -> bool)
    requires forall x :: p(x) == q(x)
    ensures Filter(s, p) == Filter(s, q)
  {
    if s != [] {
      FilterSameTest(s[1..], p, q);
    }
  }

  lemma ConcatAssoc<T>(a: seq<T>, b: seq<T>, c: seq<T>)
    ensures a + (b + c) == (a + b) + c
  {
  }

  /** Every element lands on exactly one side of a predicate. */
  lemma {:induction false} FilterSplitsCount<T(!new)>(s: seq<T>, p: T -> bool, q: T -> bool)
    requires forall x :: q(x) == !p(x)
    ensures |Filter(s, p)| + |Filter(s, q)| == |s|
  {
    if s != [] {
      FilterSplitsCount(s[1..], p, q);
    }
  }

  // ---------------------------------------------------------------------------
  // sort
  // ---------------------------------------------------------------------------

  /** `le(a, b)`: `a` may be placed before `b` (the comparator returns <= 0). */
  ghost predicate TotalPreorder<T(!new)>(le: (T, T) -> bool) {
    && (forall a, b :: le(a, b) || le(b, a))
    && (forall a, b, c :: le(a, b) && le(b, c) ==> le(a, c))
  }

  ghost predicate SortedBy<T>(s: seq<T>, le: (T, T) -> bool) {
    forall i, j :: 0 <= i < j < |s| ==> le(s[i], s[j])
  }

  /** Inserts `x` after the leading elements that may be placed before it. */
  function Insert<T>(x: T, s: seq<T>, le: (T, T) -> bool): (r: seq<T>)
    ensures multiset(r) == multiset(s) + multiset{x}
  {
    if s == [] then [x]
    else if le(s[0], x) then
      assert s == [s[0]] + s[1..];
      [s[0]] + Insert(x, s[1..], le)
    else
      [x] + s
  }

  lemma {:induction false} InsertSorted<T(!new)>(x: T, s: seq<T>, le: (T, T) -> bool)
    requires TotalPreorder(le) && SortedBy(s, le)
    ensures SortedBy(Insert(x, s, le), le)
  {
    if s == [] {
    } else if le(s[0], x) {
      var tail := s[1..];
      var rest := Insert(x, tail, le);
      InsertSorted(x, tail, le);
      forall k | 0 <= k < |rest| ensures le(s[0], rest[k]) {
        assert rest[k] in multiset(rest);
        if rest[k] != x {
          assert rest[k] in multiset(tail);
          var m :| 0 <= m < |tail| && tail[m] == rest[k];
          assert s[m + 1] == rest[k];
        }
      }
      var r := [s[0]] + rest;
      forall i, j | 0 <= i < j < |r| ensures le(r[i], r[j]) {
        if i == 0 {
          assert r[j] == rest[j - 1];
        } else {
          assert r[i] == rest[i - 1] && r[j] == rest[j - 1];
        }
      }
    } else {
      assert le(x, s[0]);
      var r := [x] + s;
      forall i, j | 0 <= i < j < |r| ensures le(r[i], r[j]) {
        if i == 0 {
          assert r[j] == s[j - 1];
          if j > 1 {
            assert le(s[0], s[j - 1]);
          }
        } else {
          assert r[i] == s[i - 1] && r[j] == s[j - 1];
        }
      }
    }
  }

  /** `list.sort(cmp)` for a consistent comparator: a sorted permutation of the
      input (stable, see SortStable). */
  function Sort<T(!new)>(s: seq<T>, le: (T, T) -> bool): (r: seq<T>)
    requires TotalPreorder(le)
    ensures multiset(r) == multiset(s)
    ensures |r| == |s|
    ensures SortedBy(r, le)
  {
    if s == [] then []
    else
      var init := s[..|s| - 1];
      assert s == init + [s[|s| - 1]];
      var sortedInit := Sort(init, le);
      var r := Insert(s[|s| - 1], sortedInit, le);
      InsertSorted(s[|s| - 1], sortedInit, le);
      assert multiset(r) == multiset(init) + multiset{s[|s| - 1]} == multiset(s);
      assert |r| == |multiset(r)| == |multiset(s)| == |s|;
      r
  }

  /** `y` ties with `x` under `le`: each may be placed before the other
      (the comparator returns 0). */
  function Tied<T>(le: (T, T) -> bool, x: T): T -> bool {
    y => le(x, y) && le(y, x)
  }

  /** `r` lists the elements of every tie class in the order `s` does. */
  ghost predicate KeepsTies<T(!new)>(r: seq<T>, s: seq<T>, le: (T, T) -> bool) {
    forall z :: Filter(r, Tied(le, z)) == Filter(s, Tied(le, z))
  }

  lemma SortedTail<T>(s: seq<T>, le: (T, T) -> bool)
    requires s != [] && SortedBy(s, le)
    ensures SortedBy(s[1..], le)
  {
    var tail := s[1..];
    forall i, j | 0 <= i < j < |tail| ensures le(tail[i], tail[j]) {
      assert tail[i] == s[i + 1] && tail[j] == s[j + 1];
    }
  }

  /** When `x` may not follow the head of a sorted list, no element of the
      list ties with `x`, nor with anything `x` ties with. */
  lemma NoTiesAfter<T(!new)>(x: T, s: seq<T>, le: (T, T) -> bool, z: T)
    requires TotalPreorder(le) && SortedBy(s, le)
    requires s != [] && !le(s[0], x) && Tied(le, z)(x)
    ensures Filter(s, Tied(le, z)) == []
  {
  }

  /** Passing over a head that may precede `x` keeps it in front. */
  lemma InsertPastHead<T(!new)>(x: T, s: seq<T>, le: (T, T) -> bool, p: T -> bool)
    requires s != [] && le(s[0], x)
    requires Filter(Insert(x, s[1..], le), p) == Filter(s[1..], p) + (if p(x) then [x] else [])
    ensures Filter(Insert(x, s, le), p) == Filter(s, p) + (if p(x) then [x] else [])
  {
    var tail := s[1..];
    var hs := if p(s[0]) then [s[0]] else [];
    var xs := if p(x) then [x] else [];
    calc {
      Filter(Insert(x, s, le), p);
    == { assert Insert(x, s, le) == [s[0]] + Insert(x, tail, le);
         FilterCons(s[0], Insert(x, tail, le), p); }
      hs + Filter(Insert(x, tail, le), p);
    == { ConcatAssoc(hs, Filter(tail, p), xs); }
      (hs + Filter(tail, p)) + xs;
    == { FilterHead(s, p); }
      Filter(s, p) + xs;
    }
  }

  /** Placing `x` in front of a sorted list whose head may not precede it:
      nothing after `x` ties with it. */
  lemma InsertInFront<T(!new)>(x: T, s: seq<T>, le: (T, T) -> bool, z: T)
    requires TotalPreorder(le) && SortedBy(s, le)
    requires s != [] && !le(s[0], x)
    ensures Filter(Insert(x, s, le), Tied(le, z)) ==
      Filter(s, Tied(le, z)) + (if Tied(le, z)(x) then [x] else [])
  {
    var p := Tied(le, z);
    assert Insert(x, s, le) == [x] + s;
    FilterCons(x, s, p);
    if p(x) {
      NoTiesAfter(x, s, le, z);
    } else {
      assert Filter(s, p) + [] == Filter(s, p);
    }
  }

  /** Insertion places `x` after every element it ties with. */
  lemma {:induction false} InsertAfterTies<T(!new)>(x: T, s: seq<T>, le: (T, T) -> bool, z: T)
    requires TotalPreorder(le) && SortedBy(s, le)
    ensures Filter(Insert(x, s, le), Tied(le, z)) ==
      Filter(s, Tied(le, z)) + (if Tied(le, z)(x) then [x] else [])
  {
    if s == [] {
      FilterCons(x, [], Tied(le, z));
    } else if le(s[0], x) {
      SortedTail(s, le);
      InsertAfterTies(x, s[1..], le, z);
      InsertPastHead(x, s, le, Tied(le, z));
    } else {
      InsertInFront(x, s, le, z);
    }
  }

  /** One step of the sort keeps every tie class in input order. */
  lemma SortStep<T(!new)>(init: seq<T>, last: T, le: (T, T) -> bool, z: T)
    requires TotalPreorder(le)
    requires Filter(Sort(init, le), Tied(le, z)) == Filter(init, Tied(le, z))
    ensures Filter(Insert(last, Sort(init, le), le), Tied(le, z)) == Filter(init + [last], Tied(le, z))
  {
    var p := Tied(le, z);
    var xs := if p(last) then [last] else [];
    calc {
      Filter(Insert(last, Sort(init, le), le), p);
    == { InsertAfterTies(last, Sort(init, le), le, z); }
      Filter(Sort(init, le), p) + xs;
      Filter(init, p) + xs;
    == { FilterCons(last, [], p); assert [last] + [] == [last]; }
      Filter(init, p) + Filter([last], p);
    == { FilterAppend(init, [last], p); }
      Filter(init + [last], p);
    }
  }

  /** The sort is stable: elements that tie keep their input order. */
  lemma {:induction false} SortStable<T(!new)>(s: seq<T>, le: (T, T) -> bool)
    requires TotalPreorder(le)
    ensures KeepsTies(Sort(s, le), s, le)
  {
    if s != [] {
      var init, last := s[..|s| - 1], s[|s| - 1];
      assert s == init + [last];
      assert Sort(s, le) == Insert(last, Sort(init, le), le);
      SortStable(init, le);
      forall z ensures Filter(Sort(s, le), Tied(le, z)) == Filter(s, Tied(le, z)) {
        SortStep(init, last, le, z);
      }
    }
  }

  // ---------------------------------------------------------------------------
  // distinct elements
  // ---------------------------------------------------------------------------

  /** No element occurs twice. */
  ghost predicate NoDuplicates<T(!new)>(s: seq<T>) {
    forall x :: multiset(s)[x] <= 1
  }

  lemma DistinctAt<T(!new)>(s: seq<T>, i: int, j: int)
    requires NoDuplicates(s) && 0 <= i < j < |s|
    ensures s[i] != s[j]
  {
    assert s == s[..j] + s[j..];
    assert multiset(s) == multiset(s[..j]) + multiset(s[j..]);
    assert s[j..][0] == s[j];
    assert multiset(s[j..])[s[j]] >= 1;
    assert multiset(s)[s[j]] <= 1;
    assert multiset(s[..j])[s[j]] == 0;
    assert s[..j][i] == s[i];
    assert s[i] in multiset(s[..j]);
  }

  /** `Array.from(new Set(s))`: every element of `s` exactly once. */
  function Distinct<T(==, !new)>(s: seq<T>): (r: seq<T>)
    ensures forall x :: multiset(r)[x] == if x in s then 1 else 0
  {
    if s == [] then []
    else
      var init := s[..|s| - 1];
      assert s == init + [s[|s| - 1]];
      var d := Distinct(init);
      if s[|s| - 1] in d then d else d + [s[|s| - 1]]
  }
}
