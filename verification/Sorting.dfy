/** A sort in the place of the `sort.Slice` library call, with what its callers rely on. */
module Sorting {

  ghost predicate TotalOn<T(!new)>(less: (T, T) -> bool, s: seq<T>) {
    && (forall x :: x in s ==> !less(x, x))
    && (forall x, y :: x in s && y in s ==> less(x, y) || x == y || less(y, x))
    && (forall x, y, z :: x in s && y in s && z in s && less(x, y) && less(y, z) ==> less(x, z))
  }

  ghost predicate Distinct<T>(s: seq<T>) {
    forall i, j :: 0 <= i < j < |s| ==> s[i] != s[j]
  }

  ghost predicate Ascending<T>(less: (T, T) -> bool, s: seq<T>) {
    forall i, j :: 0 <= i < j < |s| ==> less(s[i], s[j])
  }

  function Insert<T>(less: (T, T) -> bool, x: T, s: seq<T>): seq<T> {
    if s == [] || less(x, s[0]) then [x] + s else [s[0]] + Insert(less, x, s[1..])
  }

  function Sort<T>(less: (T, T) -> bool, s: seq<T>): seq<T> {
    if s == [] then [] else Insert(less, s[0], Sort(less, s[1..]))
  }

  lemma {:induction false} InsertMembers<T>(less: (T, T) -> bool, x: T, s: seq<T>)
    ensures multiset(Insert(less, x, s)) == multiset(s) + multiset{x}
  {
    if s == [] || less(x, s[0]) {
    } else {
      InsertMembers(less, x, s[1..]);
      assert s == [s[0]] + s[1..];
    }
  }

  lemma {:induction false} SortMembers<T>(less: (T, T) -> bool, s: seq<T>)
    ensures multiset(Sort(less, s)) == multiset(s)
    ensures |Sort(less, s)| == |s|
    ensures forall x :: x in Sort(less, s) <==> x in s
  {
    if s != [] {
      SortMembers(less, s[1..]);
      InsertMembers(less, s[0], Sort(less, s[1..]));
      assert s == [s[0]] + s[1..];
    }
    assert |multiset(Sort(less, s))| == |multiset(s)|;
    forall x ensures x in Sort(less, s) <==> x in s {
      assert x in s <==> x in multiset(s);
      assert x in Sort(less, s) <==> x in multiset(Sort(less, s));
    }
  }

  lemma {:induction false} InsertAscending<T(!new)>(less: (T, T) -> bool, x: T, s: seq<T>)
    requires TotalOn(less, [x] + s) && Ascending(less, s) && x !in s
    ensures Ascending(less, Insert(less, x, s))
    ensures forall y :: y in Insert(less, x, s) <==> y == x || y in s
  {
    assert forall y :: y in [x] + s <==> y == x || y in s;
    if s == [] {
    } else if less(x, s[0]) {
      forall j | 0 <= j < |s| ensures less(x, s[j]) {
        if j > 0 { assert less(s[0], s[j]); }
      }
    } else {
      assert less(s[0], x);
      assert forall y :: y in [x] + s[1..] ==> y in [x] + s;
      InsertAscending(less, x, s[1..]);
      var rest := Insert(less, x, s[1..]);
      forall j | 0 <= j < |rest| ensures less(s[0], rest[j]) {
        assert rest[j] in rest;
        if rest[j] != x {
          var k :| 0 <= k < |s[1..]| && s[1..][k] == rest[j];
          assert less(s[0], s[k + 1]);
        }
      }
    }
  }

  /** Sorting distinct elements under a strict total order puts every pair in order. */
  lemma {:induction false} SortAscending<T(!new)>(less: (T, T) -> bool, s: seq<T>)
    requires TotalOn(less, s) && Distinct(s)
    ensures Ascending(less, Sort(less, s))
  {
    if s != [] {
      assert s == [s[0]] + s[1..];
      SortAscending(less, s[1..]);
      var rest := Sort(less, s[1..]);
      SortMembers(less, s[1..]);
      assert forall y :: y in [s[0]] + rest <==> y in s;
      assert forall k :: 0 <= k < |s[1..]| ==> s[1..][k] == s[k + 1] != s[0];
      InsertAscending(less, s[0], rest);
    }
  }

  /** The elements that come before `r` in the order. */
  ghost function Before<T(!new)>(less: (T, T) -> bool, s: seq<T>, r: T): set<T> {
    set x | x in s && less(x, r)
  }

  /** In an ordered sequence the elements before position `i` are those less than the i-th. */
  lemma RankIsPosition<T(!new)>(less: (T, T) -> bool, s: seq<T>, i: nat)
    requires TotalOn(less, s) && Ascending(less, s) && i < |s|
    ensures |Before(less, s, s[i])| == i
  {
    var before := Before(less, s, s[i]);
    forall k | i <= k < |s| ensures !less(s[k], s[i]) {
      assert s[i] in s && s[k] in s;
      if k > i { assert less(s[i], s[k]); }
    }
    assert before == set x | x in s[..i] by {
      forall x ensures x in before <==> x in s[..i] {
        if x in before {
          var k :| 0 <= k < |s| && s[k] == x;
          assert s[..i][k] == x;
        }
        if x in s[..i] {
          var k :| 0 <= k < i && s[k] == x;
          assert less(s[k], s[i]);
        }
      }
    }
    forall j, k | 0 <= j < k < i ensures s[..i][j] != s[..i][k] {
      assert less(s[j], s[k]);
    }
    DistinctCount(s[..i]);
  }

  /** What is left of `s` after its first `limit` elements. */
  function Drop<T>(s: seq<T>, limit: nat): seq<T> {
    if limit < |s| then s[limit..] else []
  }

  /** That tail holds exactly the elements with `limit` or more elements before them. */
  lemma DropByRank<T(!new)>(less: (T, T) -> bool, s: seq<T>, limit: nat, r: T)
    requires TotalOn(less, s) && Ascending(less, s)
    ensures r in Drop(s, limit) <==> r in s && |Before(less, s, r)| >= limit
  {
    if r in s {
      var i :| 0 <= i < |s| && s[i] == r;
      RankIsPosition(less, s, i);
      if limit <= i {
        assert s[limit..][i - limit] == r;
      } else if limit < |s| {
        forall k | 0 <= k < |s[limit..]| ensures s[limit..][k] != r {
          assert less(s[i], s[limit + k]);
          assert s[limit + k] in s;
        }
      }
    }
  }

  lemma {:induction false} DistinctCount<T>(s: seq<T>)
    requires forall i, j :: 0 <= i < j < |s| ==> s[i] != s[j]
    ensures |set x | x in s| == |s|
  {
    if s == [] {
      assert (set x | x in s) == {};
    } else {
      var last := |s| - 1;
      DistinctCount(s[..last]);
      assert (set x | x in s) == (set x | x in s[..last]) + {s[last]};
      assert s[last] !in s[..last];
    }
  }
}
