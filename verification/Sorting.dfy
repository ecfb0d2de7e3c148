/**
 * Sorting of integer sequences, as `sort` and `sort_unstable` promise it: the result is ascending
 * and holds the same elements with the same multiplicities. Such a result is unique, so every
 * member that sorts can be specified by the multiset of its input alone.
 */
module Sorting {

  ghost predicate Ascending(s: seq<int>) {
    forall i, j :: 0 <= i < j < |s| ==> s[i] <= s[j]
  }

  /** Inserts `x` into a sequence, before its first element that is not smaller. */
  function Insert(s: seq<int>, x: int): seq<int> {
    if s == [] || x <= s[0] then [x] + s else [s[0]] + Insert(s[1..], x)
  }

  lemma {:induction false} InsertContents(s: seq<int>, x: int)
    ensures multiset(Insert(s, x)) == multiset(s) + multiset{x}
  {
    if s != [] && x > s[0] {
      InsertContents(s[1..], x);
      assert s == [s[0]] + s[1..];
    }
  }

  lemma {:induction false} InsertMembers(s: seq<int>, x: int, y: int)
    requires y in Insert(s, x)
    ensures y == x || y in s
  {
    if s != [] && x > s[0] && y != s[0] {
      InsertMembers(s[1..], x, y);
    }
  }

  lemma {:induction false} InsertAscending(s: seq<int>, x: int)
    requires Ascending(s)
    ensures Ascending(Insert(s, x))
  {
    if s != [] && x > s[0] {
      var rest := Insert(s[1..], x);
      InsertAscending(s[1..], x);
      forall k | 0 <= k < |rest| ensures s[0] <= rest[k] {
        InsertMembers(s[1..], x, rest[k]);
      }
    }
  }

  /** The loop of an insertion sort; the result is pinned down by `SortedIsUnique`. */
  method Sort(s: seq<int>) returns (r: seq<int>)
    ensures Ascending(r)
    ensures multiset(r) == multiset(s)
  {
    r := [];
    for i := 0 to |s|
      invariant Ascending(r)
      invariant multiset(r) == multiset(s[..i])
    {
      InsertAscending(r, s[i]);
      InsertContents(r, s[i]);
      r := Insert(r, s[i]);
      assert s[..i + 1] == s[..i] + [s[i]];
    }
    assert s[..|s|] == s;
  }

  lemma {:induction false} FirstIsLeast(a: seq<int>, y: int)
    requires Ascending(a) && y in multiset(a)
    ensures a != [] && a[0] <= y
  {
    assert y in a;
  }

  lemma {:induction false} TailContents(a: seq<int>)
    requires a != []
    ensures multiset(a[1..]) == multiset(a) - multiset{a[0]}
  {
    assert a == [a[0]] + a[1..];
  }

  lemma {:induction false} SameHead(a: seq<int>, b: seq<int>)
    requires Ascending(a) && Ascending(b)
    requires multiset(a) == multiset(b) && a != []
    ensures b != [] && a[0] == b[0]
  {
    assert a[0] in multiset(a);
    FirstIsLeast(b, a[0]);
    assert b[0] in multiset(b);
    FirstIsLeast(a, b[0]);
  }

  lemma {:induction false} SameTails(a: seq<int>, b: seq<int>)
    requires multiset(a) == multiset(b) && a != [] && b != [] && a[0] == b[0]
    ensures multiset(a[1..]) == multiset(b[1..])
  {
    TailContents(a);
    TailContents(b);
  }

  /** Two ascending sequences over the same multiset are equal. */
  lemma {:induction false} SortedIsUnique(a: seq<int>, b: seq<int>)
    requires Ascending(a) && Ascending(b)
    requires multiset(a) == multiset(b)
    ensures a == b
    decreases |a|
  {
    if a == [] {
      assert |b| == |multiset(b)| == 0;
    } else {
      SameHead(a, b);
      SameTails(a, b);
      SortedIsUnique(a[1..], b[1..]);
      assert a == [a[0]] + a[1..];
      assert b == [b[0]] + b[1..];
    }
  }
}
