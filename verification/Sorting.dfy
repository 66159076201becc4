/** Array.prototype.sort with a comparison function, as the pricing code uses it. */
module Sorting {
  ghost predicate TotalOrder<T(!new)>(le: (T, T) -> bool) {
    && (forall x, y :: le(x, y) || le(y, x))
    && forall x, y, z :: le(x, y) && le(y, z) ==> le(x, z)
  }

  predicate Sorted<T>(s: seq<T>, le: (T, T) -> bool) {
    forall i, j :: 0 <= i < j < |s| ==> le(s[i], s[j])
  }

  function Insert<T>(x: T, s: seq<T>, le: (T, T) -> bool): seq<T> {
    if s == [] || le(x, s[0]) then [x] + s else [s[0]] + Insert(x, s[1..], le)
  }

  /** Stable: equal elements keep their order. */
  function Sort<T>(s: seq<T>, le: (T, T) -> bool): seq<T> {
    if s == [] then [] else Insert(s[0], Sort(s[1..], le), le)
  }

  lemma {:induction false} InsertKeepsElements<T>(x: T, s: seq<T>, le: (T, T) -> bool)
    ensures multiset(Insert(x, s, le)) == multiset([x]) + multiset(s)
  {
    if s == [] {
    } else {
      assert s == [s[0]] + s[1..];
      InsertKeepsElements(x, s[1..], le);
    }
  }

  lemma {:induction false} InsertSorted<T(!new)>(x: T, s: seq<T>, le: (T, T) -> bool)
    requires TotalOrder(le) && Sorted(s, le)
    ensures Sorted(Insert(x, s, le), le)
  {
    if s == [] || le(x, s[0]) {
    } else {
      InsertSorted(x, s[1..], le);
      InsertKeepsElements(x, s[1..], le);
      var rest := Insert(x, s[1..], le);
      forall j | 0 <= j < |rest| ensures le(s[0], rest[j]) {
        assert rest[j] in multiset(rest);
      }
    }
  }

  lemma {:induction false} SortKeepsElements<T>(s: seq<T>, le: (T, T) -> bool)
    ensures multiset(Sort(s, le)) == multiset(s) && |Sort(s, le)| == |s|
  {
    if s == [] {
    } else {
      assert s == [s[0]] + s[1..];
      SortKeepsElements(s[1..], le);
      InsertKeepsElements(s[0], Sort(s[1..], le), le);
    }
    assert |Sort(s, le)| == |multiset(Sort(s, le))| && |s| == |multiset(s)|;
  }

  lemma {:induction false} SortSorted<T(!new)>(s: seq<T>, le: (T, T) -> bool)
    requires TotalOrder(le)
    ensures Sorted(Sort(s, le), le)
  {
    if s == [] {
    } else {
      SortSorted(s[1..], le);
      InsertSorted(s[0], Sort(s[1..], le), le);
    }
  }

  /** The elements that tie with one, in the order they have. */
  function Ties<T>(s: seq<T>, x: T, le: (T, T) -> bool): seq<T> {
    if s == [] then [] else (if le(s[0], x) && le(x, s[0]) then [s[0]] else []) + Ties(s[1..], x, le)
  }

  lemma {:induction false} InsertTies<T(!new)>(y: T, s: seq<T>, x: T, le: (T, T) -> bool)
    requires TotalOrder(le)
    ensures Ties(Insert(y, s, le), x, le) == Ties([y] + s, x, le)
  {
    assert ([y] + s)[1..] == s;
    if s == [] || le(y, s[0]) {
    } else {
      var rest := Insert(y, s[1..], le);
      assert Insert(y, s, le) == [s[0]] + rest && ([s[0]] + rest)[1..] == rest;
      assert ([y] + s[1..])[1..] == s[1..];
      InsertTies(y, s[1..], x, le);
    }
  }

  /** Elements that tie keep their order. */
  lemma {:induction false} SortStable<T(!new)>(s: seq<T>, x: T, le: (T, T) -> bool)
    requires TotalOrder(le)
    ensures Ties(Sort(s, le), x, le) == Ties(s, x, le)
  {
    if s == [] {
    } else {
      SortStable(s[1..], x, le);
      InsertTies(s[0], Sort(s[1..], le), x, le);
      assert ([s[0]] + Sort(s[1..], le))[1..] == Sort(s[1..], le);
    }
  }

  // ---- sorting part of a sequence ----

  /** r is s with some elements left out. */
  predicate Within<T(==)>(r: seq<T>, s: seq<T>) {
    if r == [] then true
    else s != [] && if r[0] == s[0] && Within(r[1..], s[1..]) then true else Within(r, s[1..])
  }

  lemma {:induction false} WithinHas<T>(r: seq<T>, s: seq<T>, x: T)
    requires Within(r, s) && x in r
    ensures x in s
  {
    if r[0] == s[0] && Within(r[1..], s[1..]) {
      if x != r[0] { WithinHas(r[1..], s[1..], x); }
    } else {
      WithinHas(r, s[1..], x);
    }
  }

  /** What is inserted on one side only is one more element to leave out. */
  lemma {:induction false} InsertLeaves<T>(r: seq<T>, s: seq<T>, x: T, le: (T, T) -> bool)
    requires Within(r, s)
    ensures Within(r, Insert(x, s, le))
  {
    if s == [] || le(x, s[0]) {
      assert ([x] + s)[1..] == s;
    } else if r != [] {
      var t := Insert(x, s, le);
      assert t[0] == s[0] && t[1..] == Insert(x, s[1..], le);
      if r[0] == s[0] && Within(r[1..], s[1..]) {
        InsertLeaves(r[1..], s[1..], x, le);
      } else {
        InsertLeaves(r, s[1..], x, le);
      }
    }
  }

  lemma {:induction false} InsertWithin<T(!new)>(r: seq<T>, s: seq<T>, x: T, le: (T, T) -> bool)
    requires TotalOrder(le) && Sorted(s, le) && Within(r, s)
    ensures Within(Insert(x, r, le), Insert(x, s, le))
  {
    if s == [] || le(x, s[0]) {
      assert ([x] + s)[1..] == s;
      if r != [] {
        WithinHas(r, s, r[0]);
        var i :| 0 <= i < |s| && s[i] == r[0];
        assert le(x, s[0]) && (i > 0 ==> le(s[0], s[i]));
      }
      assert Insert(x, r, le) == [x] + r && ([x] + r)[1..] == r;
    } else {
      var t := Insert(x, s, le);
      assert t[0] == s[0] && t[1..] == Insert(x, s[1..], le);
      if r != [] && r[0] == s[0] && Within(r[1..], s[1..]) {
        InsertWithin(r[1..], s[1..], x, le);
        assert Insert(x, r, le) == [r[0]] + Insert(x, r[1..], le);
        assert Insert(x, r, le)[1..] == Insert(x, r[1..], le);
      } else {
        InsertWithin(r, s[1..], x, le);
      }
    }
  }

  /** Leaving elements out before sorting leaves the same ones out of the sorted sequence. */
  lemma {:induction false} SortWithin<T(!new)>(r: seq<T>, s: seq<T>, le: (T, T) -> bool)
    requires TotalOrder(le) && Within(r, s)
    ensures Within(Sort(r, le), Sort(s, le))
  {
    if r == [] {
    } else {
      SortSorted(s[1..], le);
      if r[0] == s[0] && Within(r[1..], s[1..]) {
        SortWithin(r[1..], s[1..], le);
        InsertWithin(Sort(r[1..], le), Sort(s[1..], le), r[0], le);
      } else {
        SortWithin(r, s[1..], le);
        InsertLeaves(Sort(r, le), Sort(s[1..], le), s[0], le);
      }
    }
  }

  /** Two sorted arrangements of the same elements are one sequence, when no two different elements tie. */
  lemma {:induction false} SortedUnique<T(!new)>(a: seq<T>, b: seq<T>, le: (T, T) -> bool)
    requires TotalOrder(le) && Sorted(a, le) && Sorted(b, le) && multiset(a) == multiset(b)
    requires forall x, y :: x in a && y in a && le(x, y) && le(y, x) ==> x == y
    ensures a == b
  {
    assert |a| == |multiset(a)| == |multiset(b)| == |b|;
    if a == [] {
    } else {
      assert a[0] == b[0] by {
        assert a[0] in multiset(b) && b[0] in multiset(a);
        assert le(a[0], b[0]) && le(b[0], a[0]);
      }
      assert a == [a[0]] + a[1..] && b == [b[0]] + b[1..];
      assert multiset(a[1..]) == multiset(a) - multiset{a[0]};
      assert multiset(b[1..]) == multiset(b) - multiset{b[0]};
      SortedUnique(a[1..], b[1..], le);
    }
  }

  predicate NoRepeats<T(==)>(s: seq<T>) {
    forall i, j :: 0 <= i < j < |s| ==> s[i] != s[j]
  }

  lemma {:induction false} NoRepeatsCounts<T>(s: seq<T>, x: T)
    requires NoRepeats(s)
    ensures multiset(s)[x] <= 1
  {
    if s == [] {
    } else {
      assert s == [s[0]] + s[1..];
      NoRepeatsCounts(s[1..], x);
      assert s[0] !in s[1..];
    }
  }

  lemma RepeatCounts<T>(s: seq<T>, i: nat, j: nat)
    requires i < j < |s| && s[i] == s[j]
    ensures multiset(s)[s[i]] >= 2
  {
    assert s == s[..i] + [s[i]] + s[i + 1..j] + [s[j]] + s[j + 1..];
  }

  lemma {:induction false} SortNoRepeats<T>(s: seq<T>, le: (T, T) -> bool)
    requires NoRepeats(s)
    ensures NoRepeats(Sort(s, le))
  {
    SortKeepsElements(s, le);
    var t := Sort(s, le);
    forall i, j | 0 <= i < j < |t| ensures t[i] != t[j] {
      NoRepeatsCounts(s, t[i]);
      if t[i] == t[j] { RepeatCounts(t, i, j); }
    }
  }
}
