/** Go's sort.SliceStable, as far as its callers can tell: ordered, and ties stay put. */
module StableOrder {
  /** An item and the two integers it is compared by, the group first. */
  datatype Ranked<T> = Ranked(item: T, group: int, rank: int)

  predicate Before<T>(a: Ranked<T>, b: Ranked<T>) {
    a.group < b.group || (a.group == b.group && a.rank < b.rank)
  }

  predicate Ties<T>(a: Ranked<T>, b: Ranked<T>) { a.group == b.group && a.rank == b.rank }

  /** Behind everything that does not come after it. */
  function Insert<T>(s: seq<Ranked<T>>, x: Ranked<T>): seq<Ranked<T>> {
    if s == [] || !Before(x, s[|s| - 1]) then s + [x]
    else Insert(s[..|s| - 1], x) + [s[|s| - 1]]
  }

  function StableSort<T>(s: seq<Ranked<T>>): seq<Ranked<T>> {
    if s == [] then [] else Insert(StableSort(s[..|s| - 1]), s[|s| - 1])
  }

  predicate Ordered<T>(s: seq<Ranked<T>>) {
    forall i, j :: 0 <= i < j < |s| ==> !Before(s[j], s[i])
  }

  /** The members of one tie, in order. */
  function Class<T>(s: seq<Ranked<T>>, like: Ranked<T>): seq<Ranked<T>> {
    if s == [] then []
    else
      var rest := Class(s[..|s| - 1], like);
      if Ties(s[|s| - 1], like) then rest + [s[|s| - 1]] else rest
  }

  lemma {:induction false} InsertKeepsItems<T>(s: seq<Ranked<T>>, x: Ranked<T>)
    ensures multiset(Insert(s, x)) == multiset(s) + multiset{x}
  {
    if s != [] && Before(x, s[|s| - 1]) {
      InsertKeepsItems(s[..|s| - 1], x);
      assert s == s[..|s| - 1] + [s[|s| - 1]];
    }
  }

  lemma {:induction false} InsertKeepsOrder<T>(s: seq<Ranked<T>>, x: Ranked<T>)
    requires Ordered(s)
    ensures Ordered(Insert(s, x))
  {
    if s != [] && Before(x, s[|s| - 1]) {
      var front, last := s[..|s| - 1], s[|s| - 1];
      InsertKeepsOrder(front, x);
      InsertKeepsItems(front, x);
      var t := Insert(front, x);
      forall i | 0 <= i < |t| ensures !Before(last, t[i]) {
        assert t[i] in multiset(front) + multiset{x};
        if t[i] in multiset(front) {
          var j :| 0 <= j < |front| && front[j] == t[i];
          assert !Before(s[|s| - 1], s[j]);
        }
      }
    }
  }

  lemma {:induction false} InsertKeepsTies<T>(s: seq<Ranked<T>>, x: Ranked<T>, like: Ranked<T>)
    requires Ordered(s)
    ensures Class(Insert(s, x), like) == Class(s, like) + if Ties(x, like) then [x] else []
  {
    if s == [] || !Before(x, s[|s| - 1]) {
      assert (s + [x])[..|s + [x]| - 1] == s;
    } else {
      var front, last := s[..|s| - 1], s[|s| - 1];
      InsertKeepsTies(front, x, like);
      var t := Insert(front, x);
      assert (t + [last])[..|t + [last]| - 1] == t;
    }
  }

  lemma NothingIsOrdered<T>()
    ensures Ordered<T>([])
  {
  }

  /** The whole contract of a stable sort. */
  lemma {:induction false} SortIsStable<T>(s: seq<Ranked<T>>)
    ensures Ordered(StableSort(s))
    ensures multiset(StableSort(s)) == multiset(s)
    ensures forall like :: Class(StableSort(s), like) == Class(s, like)
  {
    hide Insert, Ordered, Before, Ties;
    if s == [] {
      NothingIsOrdered<T>();
    } else {
      var front, last := s[..|s| - 1], s[|s| - 1];
      SortIsStable(front);
      InsertKeepsOrder(StableSort(front), last);
      InsertKeepsItems(StableSort(front), last);
      assert s == front + [last];
      forall like ensures Class(StableSort(s), like) == Class(s, like) {
        InsertKeepsTies(StableSort(front), last, like);
      }
    }
  }

  lemma SameMembers<T>(a: seq<T>, b: seq<T>)
    requires multiset(a) == multiset(b)
    ensures |a| == |b|
    ensures forall i :: 0 <= i < |a| ==> a[i] in b
  {
    assert |a| == |multiset(a)| == |multiset(b)| == |b|;
    forall i | 0 <= i < |a| ensures a[i] in b {
      assert a[i] in multiset(a);
    }
  }

  lemma SortKeepsMembers<T>(s: seq<Ranked<T>>)
    ensures |StableSort(s)| == |s|
    ensures forall i :: 0 <= i < |s| ==> StableSort(s)[i] in s
    ensures forall i :: 0 <= i < |s| ==> s[i] in StableSort(s)
  {
    hide StableSort;
    SortIsStable(s);
    SameMembers(StableSort(s), s);
    SameMembers(s, StableSort(s));
  }

  /** In a sorted sequence the leading tie is the whole class of its first member. */
  lemma {:induction false} LeadingTie<T>(s: seq<Ranked<T>>, end: nat, like: Ranked<T>)
    requires Ordered(s) && 0 < end <= |s|
    requires forall i :: 0 <= i < end ==> Ties(s[i], like)
    requires end < |s| ==> !Ties(s[end], like)
    ensures Class(s, like) == s[..end]
  {
    if end == |s| {
      AllTie(s, like);
      assert s[..end] == s;
    } else {
      var front := s[..|s| - 1];
      if end < |front| {
        LeadingTie(front, end, like);
        assert front[..end] == s[..end];
        assert !Before(s[|s| - 1], s[end]) && !Before(s[end], s[0]);
      } else {
        AllTie(front, like);
        assert front == s[..end];
      }
    }
  }

  lemma {:induction false} AllTie<T>(s: seq<Ranked<T>>, like: Ranked<T>)
    requires forall i :: 0 <= i < |s| ==> Ties(s[i], like)
    ensures Class(s, like) == s
  {
    if s != [] {
      AllTie(s[..|s| - 1], like);
      assert s == s[..|s| - 1] + [s[|s| - 1]];
    }
  }
}
