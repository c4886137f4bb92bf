/** `$sort` and `$limit`: any stable or unstable order of ties, then a prefix. */
module Sorting {

  ghost predicate SortedBy<T>(s: seq<T>, key: T -> int) {
    forall i, j | 0 <= i < j < |s| :: key(s[i]) <= key(s[j])
  }

  /** `out` is the input sorted by ascending key, ties in any order. */
  ghost predicate Sorts<T>(input: seq<T>, key: T -> int, out: seq<T>) {
    multiset(out) == multiset(input) && SortedBy(out, key)
  }

  function Limited<T>(s: seq<T>, limit: nat): seq<T> {
    if |s| <= limit then s else s[..limit]
  }

  /** `out` is what sorting by `key` and keeping `limit` may return. */
  ghost predicate Top<T(!new)>(input: seq<T>, key: T -> int, limit: nat, out: seq<T>) {
    exists all :: Sorts(input, key, all) && out == Limited(all, limit)
  }

  /** The first `limit` by key: exactly that many, from the input, sorted, and none beaten by the rest. */
  lemma TopSelects<T(!new)>(input: seq<T>, key: T -> int, limit: nat, out: seq<T>)
    requires Top(input, key, limit, out)
    ensures |out| == if |input| <= limit then |input| else limit
    ensures multiset(out) <= multiset(input)
    ensures SortedBy(out, key)
    ensures forall x, y | x in out && y in multiset(input) - multiset(out) :: key(x) <= key(y)
  {
    var all :| Sorts(input, key, all) && out == Limited(all, limit);
    var rest := all[|out|..];
    assert all == out + rest;
    SplitBag(input, all, out, rest);
    assert SortedBy(out, key);
    forall x, y | x in out && y in multiset(rest) ensures key(x) <= key(y) {
      OutBeforeRest(all, key, out, rest, x, y);
    }
  }

  lemma SplitBag<T(!new)>(input: seq<T>, all: seq<T>, out: seq<T>, rest: seq<T>)
    requires multiset(all) == multiset(input) && all == out + rest
    ensures |all| == |input|
    ensures multiset(input) - multiset(out) == multiset(rest)
    ensures multiset(out) <= multiset(input)
  {
    assert |multiset(all)| == |multiset(input)|;
    assert multiset(all) == multiset(out) + multiset(rest);
  }

  lemma OutBeforeRest<T>(all: seq<T>, key: T -> int, out: seq<T>, rest: seq<T>, x: T, y: T)
    requires SortedBy(all, key) && all == out + rest && x in out && y in rest
    ensures key(x) <= key(y)
  {
    var i :| 0 <= i < |out| && out[i] == x;
    var j :| 0 <= j < |rest| && rest[j] == y;
    assert all[i] == x && all[|out| + j] == y;
  }

  // ---------- Some result always exists ----------

  function Insert<T>(s: seq<T>, key: T -> int, x: T): seq<T> {
    if s == [] || key(x) <= key(s[0]) then [x] + s
    else [s[0]] + Insert(s[1..], key, x)
  }

  function InsertionSort<T>(s: seq<T>, key: T -> int): seq<T> {
    if s == [] then [] else Insert(InsertionSort(s[1..], key), key, s[0])
  }

  lemma {:induction false} InsertAdds<T>(s: seq<T>, key: T -> int, x: T)
    ensures multiset(Insert(s, key, x)) == multiset(s) + multiset{x}
  {
    if s == [] || key(x) <= key(s[0]) {
    } else {
      InsertAdds(s[1..], key, x);
      assert s == [s[0]] + s[1..];
    }
  }

  lemma {:induction false} InsertSorts<T>(s: seq<T>, key: T -> int, x: T)
    requires SortedBy(s, key)
    ensures SortedBy(Insert(s, key, x), key)
  {
    if s == [] || key(x) <= key(s[0]) {
    } else {
      InsertSorts(s[1..], key, x);
      InsertAdds(s[1..], key, x);
      var tail := Insert(s[1..], key, x);
      forall i | 0 <= i < |tail| ensures key(s[0]) <= key(tail[i]) {
        assert tail[i] in multiset(tail);
        if tail[i] != x {
          assert tail[i] in multiset(s[1..]);
          var j :| 0 <= j < |s[1..]| && s[1..][j] == tail[i];
          assert s[j + 1] == tail[i];
        }
      }
    }
  }

  /** Every input can be sorted, so `Top` describes at least one result. */
  lemma {:induction false} InsertionSortSorts<T>(s: seq<T>, key: T -> int)
    ensures Sorts(s, key, InsertionSort(s, key))
  {
    if s != [] {
      InsertionSortSorts(s[1..], key);
      InsertSorts(InsertionSort(s[1..], key), key, s[0]);
      InsertAdds(InsertionSort(s[1..], key), key, s[0]);
      assert s == [s[0]] + s[1..];
    }
  }
}
