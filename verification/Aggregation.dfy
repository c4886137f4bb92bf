/** The aggregation stages `$match`, `$group` with `$sum`, and what groups add up to. */
module Aggregation {
  import opened Models

  const MINUTE: Time := 60 * SECOND

  function LevelOf(e: Event): string {
    e.level
  }

  function ServiceOf(e: Event): string {
    e.serviceName
  }

  /** `$dateTrunc` to the minute; minutes of year 1 and of the Unix epoch begin together. */
  function MinuteOf(e: Event): Time {
    e.timestamp - e.timestamp % MINUTE
  }

  /** The group of a minute holds exactly the events in the sixty seconds from it. */
  lemma MinuteIsInterval(e: Event, minute: Time)
    requires minute % 60_000_000_000 == 0
    ensures MinuteOf(e) == minute <==> minute <= e.timestamp < minute + 60_000_000_000
    ensures MinuteOf(e) % 60_000_000_000 == 0
  {
    var q := e.timestamp / MINUTE;
    assert e.timestamp == q * MINUTE + e.timestamp % MINUTE;
  }

  /** The accumulators `{$sum: 1}` and `{$sum: {$cond: [{$in: ["$level", [...]]}, 1, 0]}}`. */
  function One(e: Event): nat {
    1
  }

  function ErrorFlag(e: Event): nat {
    if IsErrorLevel(e.level) then 1 else 0
  }

  /** `$match` on `timestamp >= since`. */
  function Matched(docs: seq<Event>, since: Time): seq<Event> {
    if docs == [] then []
    else
      Matched(docs[..|docs| - 1], since) +
      if docs[|docs| - 1].timestamp >= since then [docs[|docs| - 1]] else []
  }

  /** The match keeps every event from `since` on, as often as it occurs, and no other. */
  lemma {:induction false} MatchedExact(docs: seq<Event>, since: Time, e: Event)
    ensures multiset(Matched(docs, since))[e] == if e.timestamp >= since then multiset(docs)[e] else 0
  {
    if docs != [] {
      MatchedExact(docs[..|docs| - 1], since, e);
      assert docs == docs[..|docs| - 1] + [docs[|docs| - 1]];
    }
  }

  /** The sum of a weight over the documents whose key is among these. */
  function Tally<K(==)>(docs: seq<Event>, key: Event -> K, keys: set<K>, weight: Event -> nat): nat {
    if docs == [] then 0
    else
      var d := docs[|docs| - 1];
      Tally(docs[..|docs| - 1], key, keys, weight) + if key(d) in keys then weight(d) else 0
  }

  function Keys<K(==)>(docs: seq<Event>, key: Event -> K): set<K> {
    set d | d in docs :: key(d)
  }

  lemma {:induction false} TallyUnion<K>(docs: seq<Event>, key: Event -> K, a: set<K>, b: set<K>, weight: Event -> nat)
    requires a !! b
    ensures Tally(docs, key, a + b, weight) == Tally(docs, key, a, weight) + Tally(docs, key, b, weight)
  {
    if docs != [] {
      TallyUnion(docs[..|docs| - 1], key, a, b, weight);
    }
  }

  /** Groups that cover all documents add up to the whole; the key is of no account then. */
  lemma {:induction false} TallyAll<K>(docs: seq<Event>, key: Event -> K, keys: set<K>, weight: Event -> nat)
    requires forall d | d in docs :: key(d) in keys
    ensures Tally(docs, key, keys, weight) == Total(docs, weight)
  {
    if docs != [] {
      assert docs[|docs| - 1] in docs;
      assert forall d | d in docs[..|docs| - 1] :: d in docs;
      TallyAll(docs[..|docs| - 1], key, keys, weight);
    }
  }

  function Total(docs: seq<Event>, weight: Event -> nat): nat {
    if docs == [] then 0 else Total(docs[..|docs| - 1], weight) + weight(docs[|docs| - 1])
  }

  lemma {:induction false} TotalOne(docs: seq<Event>)
    ensures Total(docs, One) == |docs|
  {
    if docs != [] {
      TotalOne(docs[..|docs| - 1]);
    }
  }

  lemma {:induction false} TallyAtMost<K>(docs: seq<Event>, key: Event -> K, keys: set<K>, weight: Event -> nat)
    ensures Tally(docs, key, keys, weight) <= Total(docs, weight)
  {
    if docs != [] {
      TallyAtMost(docs[..|docs| - 1], key, keys, weight);
    }
  }

  /** A group is not empty, so leaving one out loses documents. */
  lemma {:induction false} TallyMisses<K>(docs: seq<Event>, key: Event -> K, keys: set<K>)
    requires exists d | d in docs :: key(d) !in keys
    ensures Tally(docs, key, keys, One) < |docs|
  {
    var n := |docs| - 1;
    TallyAtMost(docs[..n], key, keys, One);
    TotalOne(docs[..n]);
    if key(docs[n]) in keys {
      var d :| d in docs && key(d) !in keys;
      assert d in docs[..n];
      TallyMisses(docs[..n], key, keys);
    }
  }

  lemma {:induction false} GroupIsNotEmpty<K>(docs: seq<Event>, key: Event -> K, k: K)
    ensures Tally(docs, key, {k}, One) > 0 <==> k in Keys(docs, key)
  {
    if docs != [] {
      var n := |docs| - 1;
      GroupIsNotEmpty(docs[..n], key, k);
      assert docs == docs[..n] + [docs[n]];
      assert Keys(docs, key) == Keys(docs[..n], key) + {key(docs[n])};
    }
  }

  /** The error flag picks out two levels. */
  lemma {:induction false} ErrorsAreTwoLevels(docs: seq<Event>)
    ensures Total(docs, ErrorFlag) == Tally(docs, LevelOf, {"ERROR", "FATAL"}, One)
    ensures Total(docs, ErrorFlag) == Tally(docs, LevelOf, {"ERROR"}, One) + Tally(docs, LevelOf, {"FATAL"}, One)
  {
    if docs != [] {
      ErrorsAreTwoLevels(docs[..|docs| - 1]);
    }
  }

  // ---------- Sums as counts of documents ----------

  ghost function Where(docs: seq<Event>, p: Event -> bool): set<nat> {
    set i: nat | i < |docs| && p(docs[i])
  }

  /** How many documents of the collection meet a condition. */
  ghost function CountWhere(docs: seq<Event>, p: Event -> bool): nat {
    |Where(docs, p)|
  }

  lemma CountStep(docs: seq<Event>, d: Event, p: Event -> bool)
    ensures CountWhere(docs + [d], p) == CountWhere(docs, p) + if p(d) then 1 else 0
  {
    var n := |docs|;
    if p(d) {
      assert Where(docs + [d], p) == Where(docs, p) + {n};
    } else {
      assert Where(docs + [d], p) == Where(docs, p);
    }
  }

  /** A group's sum over the matched documents counts the documents it stands for. */
  lemma {:induction false} TallyCounts<K>(docs: seq<Event>, since: Time, key: Event -> K, keys: set<K>,
                                          weight: Event -> nat, p: Event -> bool)
    requires forall e: Event ::
               (if e.timestamp >= since && key(e) in keys then weight(e) else 0) == if p(e) then 1 else 0
    ensures Tally(Matched(docs, since), key, keys, weight) == CountWhere(docs, p)
  {
    if docs == [] {
      assert Where(docs, p) == {};
    } else {
      var n := |docs| - 1;
      TallyCounts(docs[..n], since, key, keys, weight, p);
      CountStep(docs[..n], docs[n], p);
      assert docs == docs[..n] + [docs[n]];
      TallyStep(Matched(docs[..n], since), docs[n], key, keys, weight);
      assert Matched(docs, since) ==
             Matched(docs[..n], since) + if docs[n].timestamp >= since then [docs[n]] else [];
      assert docs[n].timestamp < since ==> Matched(docs, since) == Matched(docs[..n], since);
      assert (if docs[n].timestamp >= since && key(docs[n]) in keys then weight(docs[n]) else 0) ==
             if p(docs[n]) then 1 else 0;
    }
  }

  lemma TallyStep<K>(docs: seq<Event>, d: Event, key: Event -> K, keys: set<K>, weight: Event -> nat)
    ensures Tally(docs + [d], key, keys, weight) ==
            Tally(docs, key, keys, weight) + if key(d) in keys then weight(d) else 0
  {
    assert (docs + [d])[..|docs|] == docs;
  }

  // ---------- Groups as rows ----------

  /** One output document of a `$group`; `errors` is only used by the minute buckets. */
  datatype Row<K> = Row(id: K, count: nat, errors: nat)

  function IdOf<K>(r: Row<K>): K {
    r.id
  }

  function Ids<K(==)>(rows: seq<Row<K>>): set<K> {
    set r | r in rows :: r.id
  }

  ghost predicate DistinctIds<K>(rows: seq<Row<K>>) {
    forall i, j | 0 <= i < j < |rows| :: rows[i].id != rows[j].id
  }

  /** A row that carries the sums of its group. */
  predicate Counts<K(==)>(docs: seq<Event>, key: Event -> K, r: Row<K>) {
    && r.count == Tally(docs, key, {r.id}, One)
    && r.errors == Tally(docs, key, {r.id}, ErrorFlag)
  }

  /** The rows of a `$group`, in any order: one for each key that occurs, and no other. */
  ghost predicate Groups<K(!new)>(docs: seq<Event>, key: Event -> K, rows: seq<Row<K>>) {
    && DistinctIds(rows)
    && (forall k :: k in Ids(rows) <==> k in Keys(docs, key))
    && (forall i | 0 <= i < |rows| :: Counts(docs, key, rows[i]))
  }

  function SumCounts<K>(rows: seq<Row<K>>): nat {
    if rows == [] then 0 else SumCounts(rows[..|rows| - 1]) + rows[|rows| - 1].count
  }

  function SumErrors<K>(rows: seq<Row<K>>): nat {
    if rows == [] then 0 else SumErrors(rows[..|rows| - 1]) + rows[|rows| - 1].errors
  }

  /** Distinct rows add up to the documents of their groups. */
  lemma {:induction false} RowsAddUp<K>(docs: seq<Event>, key: Event -> K, rows: seq<Row<K>>)
    requires DistinctIds(rows)
    requires forall i | 0 <= i < |rows| :: Counts(docs, key, rows[i])
    ensures SumCounts(rows) == Tally(docs, key, Ids(rows), One)
    ensures SumErrors(rows) == Tally(docs, key, Ids(rows), ErrorFlag)
    ensures |Ids(rows)| == |rows|
  {
    if rows == [] {
      TallyNone(docs, key, Ids(rows), One);
      TallyNone(docs, key, Ids(rows), ErrorFlag);
    } else {
      var n := |rows| - 1;
      var init, last := rows[..n], rows[n];
      RowsAddUp(docs, key, init);
      assert rows == init + [last];
      assert Ids(rows) == Ids(init) + {last.id};
      assert last.id !in Ids(init);
      TallyUnion(docs, key, Ids(init), {last.id}, One);
      TallyUnion(docs, key, Ids(init), {last.id}, ErrorFlag);
    }
  }

  lemma {:induction false} TallyNone<K>(docs: seq<Event>, key: Event -> K, keys: set<K>, weight: Event -> nat)
    requires keys == {}
    ensures Tally(docs, key, keys, weight) == 0
  {
    if docs != [] {
      TallyNone(docs[..|docs| - 1], key, keys, weight);
    }
  }

  /** Keeping all groups of distinct rows preserves the sums, and only that keeps all documents. */
  lemma KeptRows<K(!new)>(docs: seq<Event>, key: Event -> K, kept: seq<Row<K>>)
    requires DistinctIds(kept) && (forall i | 0 <= i < |kept| :: Counts(docs, key, kept[i]))
    requires forall i | 0 <= i < |kept| :: kept[i].id in Keys(docs, key)
    ensures SumCounts(kept) <= |docs| && SumErrors(kept) <= Total(docs, ErrorFlag)
    ensures SumCounts(kept) == |docs| <==> Ids(kept) == Keys(docs, key)
    ensures Ids(kept) == Keys(docs, key) ==> SumErrors(kept) == Total(docs, ErrorFlag)
    ensures Ids(kept) == Keys(docs, key) <==> |kept| == |Keys(docs, key)|
  {
    RowsAddUp(docs, key, kept);
    var ids := Ids(kept);
    TallyAtMost(docs, key, ids, One);
    TallyAtMost(docs, key, ids, ErrorFlag);
    TotalOne(docs);
    assert ids <= Keys(docs, key);
    if ids == Keys(docs, key) {
      TallyAll(docs, key, ids, One);
      TallyAll(docs, key, ids, ErrorFlag);
    } else {
      ProperSubset(ids, Keys(docs, key));
      var k :| k in Keys(docs, key) && k !in ids;
      var d :| d in docs && key(d) == k;
      TallyMisses(docs, key, ids);
    }
  }

  lemma ProperSubset<K>(a: set<K>, b: set<K>)
    requires a < b
    ensures |a| < |b|
  {
    assert b == a + (b - a);
    assert |b| == |a| + |b - a|;
    assert b - a != {};
  }

  /** Reordering the output of a `$group` leaves it a grouping. */
  lemma ReorderedGroups<K(!new)>(docs: seq<Event>, key: Event -> K, rows: seq<Row<K>>, rows': seq<Row<K>>)
    requires Groups(docs, key, rows) && multiset(rows') == multiset(rows)
    ensures Groups(docs, key, rows')
  {
    SameElements(rows, rows');
    assert Ids(rows') == Ids(rows);
    forall i | 0 <= i < |rows'| ensures Counts(docs, key, rows'[i]) {
      assert rows'[i] in rows;
    }
    StayDistinct(rows, rows');
  }

  lemma SameElements<T>(a: seq<T>, b: seq<T>)
    requires multiset(a) == multiset(b)
    ensures forall x :: x in a <==> x in b
  {
    forall x ensures x in a <==> x in b {
      assert x in a <==> x in multiset(a);
      assert x in b <==> x in multiset(b);
    }
  }

  lemma StayDistinct<K>(rows: seq<Row<K>>, rows': seq<Row<K>>)
    requires DistinctIds(rows) && multiset(rows') == multiset(rows)
    ensures DistinctIds(rows')
  {
    SameElements(rows, rows');
    forall i, j | 0 <= i < j < |rows'| ensures rows'[i].id != rows'[j].id {
      if rows'[i].id == rows'[j].id {
        assert rows'[i] in rows && rows'[j] in rows;
        assert rows'[i] == rows'[j];
        Twice(rows', i, j);
        OnceOnly(rows, rows'[i]);
      }
    }
  }

  lemma Twice<T>(s: seq<T>, i: nat, j: nat)
    requires i < j < |s| && s[i] == s[j]
    ensures multiset(s)[s[i]] >= 2
  {
    assert s == s[..i] + [s[i]] + s[i + 1..j] + [s[j]] + s[j + 1..];
  }

  lemma {:induction false} OnceOnly<K>(rows: seq<Row<K>>, r: Row<K>)
    requires DistinctIds(rows)
    ensures multiset(rows)[r] <= 1
  {
    if rows != [] {
      var n := |rows| - 1;
      OnceOnly(rows[..n], r);
      assert rows == rows[..n] + [rows[n]];
      assert rows[n] !in rows[..n] by {
        assert forall i | 0 <= i < n :: rows[..n][i].id != rows[n].id;
      }
    }
  }

  // ---------- Some grouping always exists ----------

  lemma {:induction false} SomeGroups<K(!new)>(docs: seq<Event>, key: Event -> K, keys: set<K>) returns (rows: seq<Row<K>>)
    ensures DistinctIds(rows) && Ids(rows) == keys
    ensures forall i | 0 <= i < |rows| :: Counts(docs, key, rows[i])
    decreases keys
  {
    rows := [];
    if keys != {} {
      var k :| k in keys;
      var before := SomeGroups(docs, key, keys - {k});
      rows := before + [Row(k, Tally(docs, key, {k}, One), Tally(docs, key, {k}, ErrorFlag))];
      assert forall i | 0 <= i < |before| :: rows[i].id in Ids(before);
      assert Ids(rows) == Ids(before) + {k};
    }
  }
}
