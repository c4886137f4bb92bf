/** `AggregateStats` and `BucketByMinute` of internal/storage/mongo.go: pipelines plus decoding loops. */
module Dashboard {
  import opened Models
  import opened Sorting
  import opened Aggregation

  // ---------- Decoded BSON ----------

  datatype Value =
    | Int32(n: int)
    | Int64(n: int)
    | Double(r: real)
    | Text(s: string)
    | Date(t: Time)
    | Array(items: seq<Value>)
    | Document(fields: map<string, Value>)
    | Null

  type Doc = map<string, Value>

  function Get(doc: Doc, field: string): Value {
    if field in doc then doc[field] else Null
  }

  /** A float is truncated towards zero; anything but a number counts as 0. */
  function ToInt64(v: Value): int {
    match v
    case Int32(n) => n
    case Int64(n) => n
    case Double(r) => if r >= 0.0 then r.Floor else -((-r).Floor)
    case _ => 0
  }

  /** Integers are kept, a float loses its fraction, and anything else is no number. */
  lemma NumbersTruncate(v: Value)
    ensures v.Int32? || v.Int64? ==> ToInt64(v) == v.n
    ensures v.Double? && v.r >= 0.0 ==> ToInt64(v) as real <= v.r < ToInt64(v) as real + 1.0
    ensures v.Double? && v.r < 0.0 ==> ToInt64(v) as real - 1.0 < v.r <= ToInt64(v) as real
    ensures !v.Int32? && !v.Int64? && !v.Double? ==> ToInt64(v) == 0
  {
  }

  /** The server may send a count in any of its number types. */
  predicate IsCount(v: Value, n: nat) {
    v == Int32(n) || v == Int64(n) || v == Double(n as real)
  }

  lemma CountDecodes(v: Value, n: nat)
    requires IsCount(v, n)
    ensures ToInt64(v) == n
  {
  }

  predicate EncodesRow(v: Value, r: Row<string>) {
    v.Document? && Get(v.fields, "_id") == Text(r.id) && IsCount(Get(v.fields, "n"), r.count)
  }

  ghost predicate EncodesRows(vs: seq<Value>, rows: seq<Row<string>>) {
    |vs| == |rows| && forall i | 0 <= i < |vs| :: EncodesRow(vs[i], rows[i])
  }

  // ---------- The $facet pipeline ----------

  const SERVICE_LIMIT := 20

  function ByCount(r: Row<string>): int {
    0 - r.count
  }

  ghost predicate IsTotal(v: Value, m: seq<Event>) {
    && v.Array?
    && if m == [] then v.items == []
       else |v.items| == 1 && v.items[0].Document? && IsCount(Get(v.items[0].fields, "n"), |m|)
  }

  ghost predicate IsByLevel(v: Value, m: seq<Event>) {
    v.Array? && exists rows :: Groups(m, LevelOf, rows) && EncodesRows(v.items, rows)
  }

  ghost predicate IsByService(v: Value, m: seq<Event>) {
    v.Array? && exists rows, kept ::
      Groups(m, ServiceOf, rows) && Top(rows, ByCount, SERVICE_LIMIT, kept) && EncodesRows(v.items, kept)
  }

  /** What the pipeline of `AggregateStats` may return: groups in any order, ties sorted any way. */
  ghost predicate IsFacet(raw: seq<Doc>, docs: seq<Event>, since: Time) {
    && |raw| == 1
    && IsTotal(Get(raw[0], "total"), Matched(docs, since))
    && IsByLevel(Get(raw[0], "by_level"), Matched(docs, since))
    && IsByService(Get(raw[0], "by_service"), Matched(docs, since))
  }

  datatype Stats = Stats(
    totalEvents: int, byLevel: map<string, int>, byService: map<string, int>,
    errorRate: real, windowStart: Time, windowEnd: Time)

  // ---------- The decoding loops ----------

  function Name(v: Value): string {
    if v.Text? then v.s else ""
  }

  /** The map that a loop over these items fills; later items win. */
  function Decoded(items: seq<Value>): map<string, int> {
    if items == [] then map[]
    else
      var item := items[|items| - 1];
      var before := Decoded(items[..|items| - 1]);
      if item.Document?
      then before[Name(Get(item.fields, "_id")) := ToInt64(Get(item.fields, "n"))]
      else before
  }

  function DecodedErrors(items: seq<Value>): int {
    if items == [] then 0
    else
      var item := items[|items| - 1];
      DecodedErrors(items[..|items| - 1]) +
      if item.Document? && IsErrorLevel(Name(Get(item.fields, "_id")))
      then ToInt64(Get(item.fields, "n")) else 0
  }

  /** Item by item: a document sets the entry of its name, an absent or odd name being empty; those named
      ERROR or FATAL count as errors; anything but a document is skipped. */
  lemma DecodedExactly(items: seq<Value>, item: Value)
    ensures Decoded([]) == map[] && DecodedErrors([]) == 0
    ensures item.Document? ==>
              var id, n := Get(item.fields, "_id"), ToInt64(Get(item.fields, "n"));
              && Decoded(items + [item]) == Decoded(items)[if id.Text? then id.s else "" := n]
              && DecodedErrors(items + [item]) ==
                 DecodedErrors(items) + if id == Text("ERROR") || id == Text("FATAL") then n else 0
    ensures !item.Document? ==>
              && Decoded(items + [item]) == Decoded(items)
              && DecodedErrors(items + [item]) == DecodedErrors(items)
  {
    assert (items + [item])[..|items|] == items;
  }

  /** The specified statistics of the matched events m. */
  ghost predicate StatsCorrect(s: Stats, m: seq<Event>) {
    && s.totalEvents == |m|
    && s.byLevel.Keys == Keys(m, LevelOf)
    && (forall l | l in s.byLevel :: s.byLevel[l] == Tally(m, LevelOf, {l}, One))
    && s.errorRate == (if m == [] then 0.0 else Total(m, ErrorFlag) as real / |m| as real)
    && ServicesCorrect(s.byService, m)
  }

  /** At most 20 services, the busiest ones, each with its exact count. */
  ghost predicate ServicesCorrect(byService: map<string, int>, m: seq<Event>) {
    && byService.Keys <= Keys(m, ServiceOf)
    && |byService| == (if |Keys(m, ServiceOf)| <= SERVICE_LIMIT then |Keys(m, ServiceOf)| else SERVICE_LIMIT)
    && (forall k | k in byService :: byService[k] == Tally(m, ServiceOf, {k}, One))
    && (forall k, o | k in byService && o in Keys(m, ServiceOf) && o !in byService ::
          byService[k] >= Tally(m, ServiceOf, {o}, One))
  }

  // ---------- What the statistics count in the collection ----------

  ghost function EventCount(docs: seq<Event>, since: Time): nat {
    CountWhere(docs, (e: Event) => e.timestamp >= since)
  }

  ghost function LevelCount(docs: seq<Event>, since: Time, level: string): nat {
    CountWhere(docs, (e: Event) => e.timestamp >= since && e.level == level)
  }

  ghost function ServiceCount(docs: seq<Event>, since: Time, service: string): nat {
    CountWhere(docs, (e: Event) => e.timestamp >= since && e.serviceName == service)
  }

  /** The statistics as counts of stored documents. */
  ghost predicate StatsExact(s: Stats, docs: seq<Event>, since: Time) {
    && s.totalEvents == EventCount(docs, since)
    && LevelsExact(s.byLevel, docs, since)
    && RateExact(s.errorRate, docs, since)
    && ServicesExact(s.byService, docs, since)
  }

  /** Every level that occurs, with its count. */
  ghost predicate LevelsExact(byLevel: map<string, int>, docs: seq<Event>, since: Time) {
    && (forall l :: l in byLevel <==> LevelCount(docs, since, l) > 0)
    && (forall l | l in byLevel :: byLevel[l] == LevelCount(docs, since, l))
  }

  /** The ERROR and FATAL events as a fraction of all, or 0 without any event. */
  ghost predicate RateExact(rate: real, docs: seq<Event>, since: Time) {
    var errors := LevelCount(docs, since, "ERROR") + LevelCount(docs, since, "FATAL");
    var total := EventCount(docs, since);
    rate == if total == 0 then 0.0 else errors as real / total as real
  }

  /** At most 20 services with their counts; only 20 leave one out, and none with more events. */
  ghost predicate ServicesExact(byService: map<string, int>, docs: seq<Event>, since: Time) {
    && |byService| <= 20
    && (forall k | k in byService :: byService[k] == ServiceCount(docs, since, k) > 0)
    && (forall o | o !in byService && ServiceCount(docs, since, o) > 0 ::
          |byService| == 20 && forall k | k in byService :: byService[k] >= ServiceCount(docs, since, o))
  }

  lemma LevelTally(docs: seq<Event>, since: Time, l: string)
    ensures Tally(Matched(docs, since), LevelOf, {l}, One) == LevelCount(docs, since, l)
    ensures l in Keys(Matched(docs, since), LevelOf) <==> LevelCount(docs, since, l) > 0
  {
    TallyCounts(docs, since, LevelOf, {l}, One, (e: Event) => e.timestamp >= since && e.level == l);
    GroupIsNotEmpty(Matched(docs, since), LevelOf, l);
  }

  lemma ServiceTally(docs: seq<Event>, since: Time, k: string)
    ensures Tally(Matched(docs, since), ServiceOf, {k}, One) == ServiceCount(docs, since, k)
    ensures k in Keys(Matched(docs, since), ServiceOf) <==> ServiceCount(docs, since, k) > 0
  {
    TallyCounts(docs, since, ServiceOf, {k}, One, (e: Event) => e.timestamp >= since && e.serviceName == k);
    GroupIsNotEmpty(Matched(docs, since), ServiceOf, k);
  }

  lemma {:induction false} MatchedCount(docs: seq<Event>, since: Time)
    ensures |Matched(docs, since)| == EventCount(docs, since)
  {
    var p := (e: Event) => e.timestamp >= since;
    if docs == [] {
      assert Where(docs, p) == {};
    } else {
      var n := |docs| - 1;
      MatchedCount(docs[..n], since);
      CountStep(docs[..n], docs[n], p);
      assert docs == docs[..n] + [docs[n]];
    }
  }

  lemma StatsExactly(s: Stats, docs: seq<Event>, since: Time)
    requires StatsCorrect(s, Matched(docs, since))
    ensures StatsExact(s, docs, since)
  {
    MatchedCount(docs, since);
    LevelsExactly(s.byLevel, docs, since);
    RateExactly(s.errorRate, docs, since);
    ServicesExactly(s.byService, docs, since);
  }

  lemma RateExactly(rate: real, docs: seq<Event>, since: Time)
    requires var m := Matched(docs, since);
             rate == if m == [] then 0.0 else Total(m, ErrorFlag) as real / |m| as real
    ensures RateExact(rate, docs, since)
  {
    MatchedCount(docs, since);
    ErrorCount(docs, since);
  }

  lemma LevelsExactly(byLevel: map<string, int>, docs: seq<Event>, since: Time)
    requires byLevel.Keys == Keys(Matched(docs, since), LevelOf)
    requires forall l | l in byLevel :: byLevel[l] == Tally(Matched(docs, since), LevelOf, {l}, One)
    ensures LevelsExact(byLevel, docs, since)
  {
    forall l ensures l in byLevel <==> LevelCount(docs, since, l) > 0 {
      LevelTally(docs, since, l);
      assert l in byLevel <==> l in byLevel.Keys;
    }
    forall l | l in byLevel ensures byLevel[l] == LevelCount(docs, since, l) {
      LevelTally(docs, since, l);
    }
  }

  lemma ErrorCount(docs: seq<Event>, since: Time)
    ensures Total(Matched(docs, since), ErrorFlag) ==
            LevelCount(docs, since, "ERROR") + LevelCount(docs, since, "FATAL")
  {
    ErrorsAreTwoLevels(Matched(docs, since));
    LevelTally(docs, since, "ERROR");
    LevelTally(docs, since, "FATAL");
  }

  lemma ServicesExactly(byService: map<string, int>, docs: seq<Event>, since: Time)
    requires ServicesCorrect(byService, Matched(docs, since))
    ensures ServicesExact(byService, docs, since)
  {
    var m := Matched(docs, since);
    forall k | k in byService ensures byService[k] == ServiceCount(docs, since, k) > 0 {
      ServiceTally(docs, since, k);
      assert k in byService.Keys;
    }
    forall o | o !in byService && ServiceCount(docs, since, o) > 0
      ensures |byService| == 20 && forall k | k in byService :: byService[k] >= ServiceCount(docs, since, o)
    {
      ServiceTally(docs, since, o);
      assert byService.Keys <= Keys(m, ServiceOf) && o in Keys(m, ServiceOf) && o !in byService.Keys;
      ProperSubset(byService.Keys, Keys(m, ServiceOf));
      assert |byService| == |byService.Keys|;
    }
  }

  method DecodeGroups(items: seq<Value>) returns (counts: map<string, int>, errors: int)
    ensures counts == Decoded(items) && errors == DecodedErrors(items)
  {
    counts, errors := map[], 0;
    for i := 0 to |items|
      invariant counts == Decoded(items[..i]) && errors == DecodedErrors(items[..i])
    {
      assert items[..i + 1][..i] == items[..i];
      if items[i].Document? {
        var name := Name(Get(items[i].fields, "_id"));
        var n := ToInt64(Get(items[i].fields, "n"));
        counts := counts[name := n];
        if name == ERROR || name == FATAL {
          errors := errors + n;
        }
      }
    }
    assert items[..|items|] == items;
  }

  /** Decodes whatever the cursor returned; on what the pipeline returns it computes the statistics. */
  method AggregateStats(raw: seq<Doc>, since: Time, now: Time, ghost docs: seq<Event>) returns (stats: Stats)
    ensures stats.windowStart == since && stats.windowEnd == now
    ensures raw == [] ==> stats == Stats(0, map[], map[], 0.0, since, now)
    ensures IsFacet(raw, docs, since) ==> StatsCorrect(stats, Matched(docs, since))
    ensures IsFacet(raw, docs, since) ==> StatsExact(stats, docs, since)
  {
    stats := Stats(0, map[], map[], 0.0, since, now);
    if |raw| == 0 {
      return;
    }
    var totals := Get(raw[0], "total");
    if totals.Array? && |totals.items| > 0 && totals.items[0].Document? {
      stats := stats.(totalEvents := ToInt64(Get(totals.items[0].fields, "n")));
    }
    var levels := Get(raw[0], "by_level");
    if levels.Array? {
      var counts, errCount := DecodeGroups(levels.items);
      stats := stats.(byLevel := counts);
      if stats.totalEvents > 0 {
        stats := stats.(errorRate := errCount as real / stats.totalEvents as real);
      }
    }
    var services := Get(raw[0], "by_service");
    if services.Array? {
      var counts, _ := DecodeGroups(services.items);
      stats := stats.(byService := counts);
    }
    if IsFacet(raw, docs, since) {
      LevelsDecode(levels, Matched(docs, since));
      ServicesDecode(services, Matched(docs, since));
      StatsExactly(stats, docs, since);
    }
  }

  predicate Holds(counts: map<string, int>, r: Row<string>) {
    r.id in counts && counts[r.id] == r.count
  }

  lemma {:induction false} RowsDecode(items: seq<Value>, rows: seq<Row<string>>)
    requires EncodesRows(items, rows) && DistinctIds(rows)
    ensures Decoded(items).Keys == Ids(rows)
    ensures forall i | 0 <= i < |rows| :: Holds(Decoded(items), rows[i])
  {
    if items != [] {
      var n := |items| - 1;
      RowsDecode(items[..n], rows[..n]);
      LastDecodes(items, rows[n]);
      assert rows == rows[..n] + [rows[n]];
      AddedRow(Decoded(items[..n]), rows[..n], rows[n]);
    }
  }

  lemma LastDecodes(items: seq<Value>, r: Row<string>)
    requires items != [] && EncodesRow(items[|items| - 1], r)
    ensures Decoded(items) == Decoded(items[..|items| - 1])[r.id := r.count]
  {
    CountDecodes(Get(items[|items| - 1].fields, "n"), r.count);
  }

  lemma AddedRow(before: map<string, int>, init: seq<Row<string>>, last: Row<string>)
    requires before.Keys == Ids(init) && DistinctIds(init + [last])
    requires forall i | 0 <= i < |init| :: Holds(before, init[i])
    ensures var (after, rows) := (before[last.id := last.count], init + [last]);
            after.Keys == Ids(rows) && forall i | 0 <= i < |rows| :: Holds(after, rows[i])
  {
    IdsStep(init, last);
    var rows := init + [last];
    forall i | 0 <= i < |rows| ensures Holds(before[last.id := last.count], rows[i]) {
      if i < |init| {
        assert Holds(before, init[i]);
        assert rows[i].id != rows[|init|].id;
      }
    }
  }

  lemma IdsStep<K>(init: seq<Row<K>>, last: Row<K>)
    ensures Ids(init + [last]) == Ids(init) + {last.id}
  {
    var rows := init + [last];
    assert rows[|init|] == last;
    assert forall r :: r in rows <==> r in init || r == last;
  }

  /** Within one level all events are errors or none is. */
  lemma {:induction false} LevelErrors(m: seq<Event>, l: string)
    ensures Tally(m, LevelOf, {l}, ErrorFlag) == if IsErrorLevel(l) then Tally(m, LevelOf, {l}, One) else 0
  {
    if m != [] {
      LevelErrors(m[..|m| - 1], l);
    }
  }

  lemma {:induction false} ErrorsDecode(items: seq<Value>, rows: seq<Row<string>>, m: seq<Event>)
    requires EncodesRows(items, rows) && forall i | 0 <= i < |rows| :: Counts(m, LevelOf, rows[i])
    ensures DecodedErrors(items) == SumErrors(rows)
  {
    if items != [] {
      var n := |items| - 1;
      ErrorsDecode(items[..n], rows[..n], m);
      assert EncodesRow(items[n], rows[n]) && Counts(m, LevelOf, rows[n]);
      CountDecodes(Get(items[n].fields, "n"), rows[n].count);
      LevelErrors(m, rows[n].id);
    }
  }

  lemma LevelsDecode(v: Value, m: seq<Event>)
    requires IsByLevel(v, m)
    ensures Decoded(v.items).Keys == Keys(m, LevelOf)
    ensures forall l | l in Decoded(v.items) :: Decoded(v.items)[l] == Tally(m, LevelOf, {l}, One)
    ensures DecodedErrors(v.items) == Total(m, ErrorFlag)
  {
    var rows: seq<Row<string>> :| Groups(m, LevelOf, rows) && EncodesRows(v.items, rows);
    RowsDecode(v.items, rows);
    ErrorsDecode(v.items, rows, m);
    KeptRows(m, LevelOf, rows);
    assert Ids(rows) == Keys(m, LevelOf);
    var d := Decoded(v.items);
    forall l | l in d ensures d[l] == Tally(m, LevelOf, {l}, One) {
      KeptCount(m, LevelOf, rows, d, l);
    }
  }

  lemma ServicesDecode(v: Value, m: seq<Event>)
    requires IsByService(v, m)
    ensures ServicesCorrect(Decoded(v.items), m)
  {
    var rows: seq<Row<string>>, kept: seq<Row<string>> :|
      Groups(m, ServiceOf, rows) && Top(rows, ByCount, SERVICE_LIMIT, kept) && EncodesRows(v.items, kept);
    KeptOfTop(m, ServiceOf, rows, ByCount, SERVICE_LIMIT, kept);
    RowsDecode(v.items, kept);
    RowsAddUp(m, ServiceOf, kept);
    var d := Decoded(v.items);
    assert |d| == |d.Keys|;
    forall k | k in d ensures d[k] == Tally(m, ServiceOf, {k}, One) {
      KeptCount(m, ServiceOf, kept, d, k);
    }
    forall k, o | k in d && o in Keys(m, ServiceOf) && o !in d ensures d[k] >= Tally(m, ServiceOf, {o}, One) {
      KeptCount(m, ServiceOf, kept, d, k);
      KeptBeatsOmitted(m, rows, kept, k, o);
    }
  }

  lemma KeptCount(m: seq<Event>, key: Event -> string, kept: seq<Row<string>>, d: map<string, int>, k: string)
    requires forall i | 0 <= i < |kept| :: Counts(m, key, kept[i])
    requires forall i | 0 <= i < |kept| :: Holds(d, kept[i])
    requires d.Keys == Ids(kept) && k in d
    ensures d[k] == Tally(m, key, {k}, One)
  {
    var i :| 0 <= i < |kept| && kept[i].id == k;
    assert Counts(m, key, kept[i]) && Holds(d, kept[i]);
  }

  lemma KeptBeatsOmitted(m: seq<Event>, rows: seq<Row<string>>, kept: seq<Row<string>>, k: string, o: string)
    requires Groups(m, ServiceOf, rows) && Top(rows, ByCount, SERVICE_LIMIT, kept)
    requires forall i | 0 <= i < |kept| :: Counts(m, ServiceOf, kept[i])
    requires k in Ids(kept) && o in Keys(m, ServiceOf) && o !in Ids(kept)
    ensures Tally(m, ServiceOf, {k}, One) >= Tally(m, ServiceOf, {o}, One)
  {
    var i :| 0 <= i < |kept| && kept[i].id == k;
    assert Counts(m, ServiceOf, kept[i]);
    var r := OmittedRow(m, ServiceOf, rows, ByCount, SERVICE_LIMIT, kept, o);
    assert ByCount(kept[i]) <= ByCount(r);
  }

  /** What `$sort` and `$limit` keep of a grouping: distinct groups with their sums, and how many. */
  lemma KeptOfTop<K(!new)>(m: seq<Event>, key: Event -> K, rows: seq<Row<K>>, rank: Row<K> -> int, limit: nat, kept: seq<Row<K>>)
    requires Groups(m, key, rows) && Top(rows, rank, limit, kept)
    ensures DistinctIds(kept) && Ids(kept) <= Keys(m, key)
    ensures forall i | 0 <= i < |kept| :: Counts(m, key, kept[i]) && kept[i].id in Keys(m, key)
    ensures |kept| == if |Keys(m, key)| <= limit then |Keys(m, key)| else limit
  {
    var all: seq<Row<K>> :| Sorts(rows, rank, all) && kept == Limited(all, limit);
    ReorderedGroups(m, key, rows, all);
    KeptRows(m, key, all);
    assert Ids(all) == Keys(m, key);
    forall i | 0 <= i < |kept| ensures Counts(m, key, kept[i]) && kept[i].id in Keys(m, key) {
      assert kept[i] == all[i];
      assert all[i].id in Ids(all);
    }
  }

  /** A group that was not kept has a row, and no kept row comes after it. */
  lemma OmittedRow<K(!new)>(m: seq<Event>, key: Event -> K, rows: seq<Row<K>>, rank: Row<K> -> int, limit: nat,
                            kept: seq<Row<K>>, o: K) returns (r: Row<K>)
    requires Groups(m, key, rows) && Top(rows, rank, limit, kept)
    requires o in Keys(m, key) && o !in Ids(kept)
    ensures r.id == o && Counts(m, key, r)
    ensures forall x | x in kept :: rank(x) <= rank(r)
  {
    TopSelects(rows, rank, limit, kept);
    assert o in Ids(rows);
    var i :| 0 <= i < |rows| && rows[i].id == o;
    r := rows[i];
    assert r !in kept;
    assert r in multiset(rows) - multiset(kept);
  }

  // ---------- Facts about the statistics ----------

  ghost function Pick(keys: set<string>): string
    requires keys != {}
  {
    var k :| k in keys; k
  }

  ghost function SumOf(counts: map<string, int>, keys: set<string>): int
    requires keys <= counts.Keys
    decreases keys
  {
    if keys == {} then 0
    else counts[Pick(keys)] + SumOf(counts, keys - {Pick(keys)})
  }

  lemma {:induction false} SumOfIsTally(m: seq<Event>, key: Event -> string, counts: map<string, int>, keys: set<string>)
    requires keys <= counts.Keys && forall k | k in counts :: counts[k] == Tally(m, key, {k}, One)
    ensures SumOf(counts, keys) == Tally(m, key, keys, One)
    decreases keys
  {
    if keys == {} {
      TallyNone(m, key, keys, One);
    } else {
      var k := Pick(keys);
      SumOfIsTally(m, key, counts, keys - {k});
      TallyUnion(m, key, {k}, keys - {k}, One);
      assert {k} + (keys - {k}) == keys;
    }
  }

  /** The level counts add up to the total, the error rate is a fraction, and the service counts fall
      short of the total exactly when more than 20 services occur. */
  lemma StatsAddUp(s: Stats, m: seq<Event>)
    requires StatsCorrect(s, m)
    ensures SumOf(s.byLevel, s.byLevel.Keys) == s.totalEvents
    ensures 0.0 <= s.errorRate <= 1.0
    ensures SumOf(s.byService, s.byService.Keys) <= s.totalEvents
    ensures SumOf(s.byService, s.byService.Keys) == s.totalEvents <==> |Keys(m, ServiceOf)| <= 20
  {
    TotalOne(m);
    SumOfIsTally(m, LevelOf, s.byLevel, s.byLevel.Keys);
    TallyAll(m, LevelOf, s.byLevel.Keys, One);
    ServicesAddUp(s.byService, m);
    ErrorsAreEvents(m);
    if m != [] {
      FractionOfWhole(Total(m, ErrorFlag), |m|);
    }
  }

  lemma ServicesAddUp(byService: map<string, int>, m: seq<Event>)
    requires ServicesCorrect(byService, m)
    ensures SumOf(byService, byService.Keys) <= |m|
    ensures SumOf(byService, byService.Keys) == |m| <==> |Keys(m, ServiceOf)| <= SERVICE_LIMIT
  {
    TotalOne(m);
    SumOfIsTally(m, ServiceOf, byService, byService.Keys);
    var keys, all := byService.Keys, Keys(m, ServiceOf);
    assert |keys| == |byService|;
    if keys == all {
      TallyAll(m, ServiceOf, keys, One);
    } else {
      ProperSubset(keys, all);
      var k :| k in all && k !in keys;
      var d :| d in m && ServiceOf(d) == k;
      TallyMisses(m, ServiceOf, keys);
    }
  }

  lemma FractionOfWhole(part: nat, whole: nat)
    requires part <= whole && whole > 0
    ensures 0.0 <= part as real / whole as real <= 1.0
  {
  }

  lemma {:induction false} ErrorsAreEvents(m: seq<Event>)
    ensures Total(m, ErrorFlag) <= |m|
  {
    if m != [] {
      ErrorsAreEvents(m[..|m| - 1]);
    }
  }

  // ---------- The minute buckets ----------

  const BUCKET_LIMIT := 120

  /** A row of the dashboard; the formatting of the minute is not part of this model. */
  datatype Bucket = Bucket(ts: Value, count: int, errors: int)

  predicate EncodesBucket(doc: Doc, r: Row<Time>) {
    && Get(doc, "_id") == Date(r.id)
    && IsCount(Get(doc, "count"), r.count)
    && IsCount(Get(doc, "errors"), r.errors)
  }

  /** What the pipeline of `BucketByMinute` may return. */
  ghost predicate IsBuckets(raw: seq<Doc>, docs: seq<Event>, since: Time) {
    exists rows, kept ::
      && Groups(Matched(docs, since), MinuteOf, rows)
      && Top(rows, IdOf<Time>, BUCKET_LIMIT, kept)
      && |raw| == |kept| && forall i | 0 <= i < |raw| :: EncodesBucket(raw[i], kept[i])
  }

  predicate BucketCorrect(b: Bucket, m: seq<Event>) {
    && b.ts.Date? && b.ts.t in Keys(m, MinuteOf)
    && b.count == Tally(m, MinuteOf, {b.ts.t}, One)
    && b.errors == Tally(m, MinuteOf, {b.ts.t}, ErrorFlag)
  }

  function Minutes(out: seq<Bucket>): set<Time> {
    set b | b in out && b.ts.Date? :: b.ts.t
  }

  /** Exactly the oldest 120 occupied minutes, or all of them, ascending, with their sums. */
  ghost predicate BucketsCorrect(out: seq<Bucket>, m: seq<Event>) {
    && |out| == (if |Keys(m, MinuteOf)| <= BUCKET_LIMIT then |Keys(m, MinuteOf)| else BUCKET_LIMIT)
    && (forall i | 0 <= i < |out| :: BucketCorrect(out[i], m))
    && (forall i, j | 0 <= i < j < |out| :: out[i].ts.t < out[j].ts.t)
    && (forall i, o | 0 <= i < |out| && o in Keys(m, MinuteOf) && o !in Minutes(out) :: out[i].ts.t < o)
  }

  // ---------- What the buckets count in the collection ----------

  predicate InMinute(e: Event, minute: Time) {
    minute <= e.timestamp < minute + 60_000_000_000
  }

  ghost function MinuteCount(docs: seq<Event>, since: Time, minute: Time): nat {
    CountWhere(docs, (e: Event) => e.timestamp >= since && InMinute(e, minute))
  }

  ghost function MinuteErrors(docs: seq<Event>, since: Time, minute: Time): nat {
    CountWhere(docs, (e: Event) => e.timestamp >= since && InMinute(e, minute) && (e.level == "ERROR" || e.level == "FATAL"))
  }

  ghost predicate BucketExact(b: Bucket, docs: seq<Event>, since: Time) {
    && b.ts.Date? && b.ts.t % 60_000_000_000 == 0
    && b.count == MinuteCount(docs, since, b.ts.t) > 0
    && b.errors == MinuteErrors(docs, since, b.ts.t)
  }

  ghost predicate Shown(out: seq<Bucket>, e: Event) {
    exists i | 0 <= i < |out| :: out[i].ts.Date? && InMinute(e, out[i].ts.t)
  }

  /** The buckets as counts of stored documents: whole minutes in ascending order, at most 120, and only
      events of a later minute than all of them are left out, and that only of 120. */
  ghost predicate BucketsExact(out: seq<Bucket>, docs: seq<Event>, since: Time) {
    && |out| <= 120
    && (forall i | 0 <= i < |out| :: BucketExact(out[i], docs, since))
    && (forall i, j | 0 <= i < j < |out| :: out[i].ts.t < out[j].ts.t)
    && (forall e | e in docs && e.timestamp >= since && !Shown(out, e) ::
          |out| == 120 && forall i | 0 <= i < |out| :: out[i].ts.t + 60_000_000_000 <= e.timestamp)
  }

  lemma MinuteTally(docs: seq<Event>, since: Time, minute: Time)
    requires minute % 60_000_000_000 == 0
    ensures Tally(Matched(docs, since), MinuteOf, {minute}, One) == MinuteCount(docs, since, minute)
    ensures Tally(Matched(docs, since), MinuteOf, {minute}, ErrorFlag) == MinuteErrors(docs, since, minute)
    ensures minute in Keys(Matched(docs, since), MinuteOf) <==> MinuteCount(docs, since, minute) > 0
  {
    forall e: Event ensures MinuteOf(e) == minute <==> InMinute(e, minute) {
      MinuteIsInterval(e, minute);
    }
    TallyCounts(docs, since, MinuteOf, {minute}, One, (e: Event) => e.timestamp >= since && InMinute(e, minute));
    TallyCounts(docs, since, MinuteOf, {minute}, ErrorFlag,
                (e: Event) => e.timestamp >= since && InMinute(e, minute) && (e.level == "ERROR" || e.level == "FATAL"));
    GroupIsNotEmpty(Matched(docs, since), MinuteOf, minute);
  }

  lemma BucketsExactly(out: seq<Bucket>, docs: seq<Event>, since: Time)
    requires BucketsCorrect(out, Matched(docs, since))
    ensures BucketsExact(out, docs, since)
  {
    var m := Matched(docs, since);
    forall i | 0 <= i < |out| ensures BucketExact(out[i], docs, since) {
      assert BucketCorrect(out[i], m);
      var d :| d in m && MinuteOf(d) == out[i].ts.t;
      MinuteIsInterval(d, 0);
      MinuteTally(docs, since, out[i].ts.t);
    }
    forall e | e in docs && e.timestamp >= since && !Shown(out, e)
      ensures |out| == 120 && forall i | 0 <= i < |out| :: out[i].ts.t + 60_000_000_000 <= e.timestamp
    {
      MatchedExact(docs, since, e);
      OmittedEventIsLater(out, m, e);
    }
  }

  lemma OmittedEventIsLater(out: seq<Bucket>, m: seq<Event>, e: Event)
    requires BucketsCorrect(out, m) && e in m && !Shown(out, e)
    ensures |out| == 120 && forall i | 0 <= i < |out| :: out[i].ts.t + 60_000_000_000 <= e.timestamp
  {
    var minute := MinuteOf(e);
    MinuteIsInterval(e, 0);
    MinuteIsInterval(e, minute);
    assert minute in Keys(m, MinuteOf);
    if minute in Minutes(out) {
      var i := MinuteIndex(out, minute);
    }
    forall i | 0 <= i < |out| ensures out[i].ts.t + 60_000_000_000 <= e.timestamp {
      assert BucketCorrect(out[i], m);
      var d :| d in m && MinuteOf(d) == out[i].ts.t;
      MinuteIsInterval(d, 0);
      assert out[i].ts.t < minute;
    }
    MinutesAreFewer(out, m, minute);
  }

  lemma MinutesAreFewer(out: seq<Bucket>, m: seq<Event>, minute: Time)
    requires BucketsCorrect(out, m) && minute in Keys(m, MinuteOf) && minute !in Minutes(out)
    ensures |out| == 120
  {
    forall i | 0 <= i < |out| ensures out[i].ts.Date? {
      assert BucketCorrect(out[i], m);
    }
    DistinctMinutes(out);
    forall t | t in Minutes(out) ensures t in Keys(m, MinuteOf) {
      var i := MinuteIndex(out, t);
      assert BucketCorrect(out[i], m);
    }
    ProperSubset(Minutes(out), Keys(m, MinuteOf));
  }

  lemma MinuteIndex(out: seq<Bucket>, t: Time) returns (i: nat)
    requires t in Minutes(out)
    ensures i < |out| && out[i].ts.Date? && out[i].ts.t == t
  {
    var b :| b in out && b.ts.Date? && b.ts.t == t;
    i :| i < |out| && out[i] == b;
  }

  lemma {:induction false} DistinctMinutes(out: seq<Bucket>)
    requires forall i | 0 <= i < |out| :: out[i].ts.Date?
    requires forall i, j | 0 <= i < j < |out| :: out[i].ts.t < out[j].ts.t
    ensures |Minutes(out)| == |out|
  {
    if out == [] {
      assert Minutes(out) == {};
    } else {
      var n := |out| - 1;
      DistinctMinutes(out[..n]);
      assert out == out[..n] + [out[n]];
      assert Minutes(out) == Minutes(out[..n]) + {out[n].ts.t};
      forall t | t in Minutes(out[..n]) ensures t < out[n].ts.t {
        var i := MinuteIndex(out[..n], t);
      }
    }
  }

  method BucketByMinute(raw: seq<Doc>, ghost docs: seq<Event>, ghost since: Time) returns (out: seq<Bucket>)
    ensures |out| == |raw|
    ensures IsBuckets(raw, docs, since) ==> BucketsCorrect(out, Matched(docs, since))
    ensures IsBuckets(raw, docs, since) ==> BucketsExact(out, docs, since)
  {
    out := [];
    for i := 0 to |raw|
      invariant |out| == i
      invariant forall j | 0 <= j < i ::
                  out[j] == Bucket(Get(raw[j], "_id"), ToInt64(Get(raw[j], "count")), ToInt64(Get(raw[j], "errors")))
    {
      out := out + [Bucket(Get(raw[i], "_id"), ToInt64(Get(raw[i], "count")), ToInt64(Get(raw[i], "errors")))];
    }
    if IsBuckets(raw, docs, since) {
      var m := Matched(docs, since);
      var rows: seq<Row<Time>>, kept: seq<Row<Time>> :|
        && Groups(m, MinuteOf, rows) && Top(rows, IdOf<Time>, BUCKET_LIMIT, kept)
        && |raw| == |kept| && forall i | 0 <= i < |raw| :: EncodesBucket(raw[i], kept[i]);
      BucketsDecode(out, rows, kept, m);
      BucketsExactly(out, docs, since);
    }
  }

  predicate Shows(b: Bucket, r: Row<Time>) {
    b == Bucket(Date(r.id), r.count, r.errors)
  }

  lemma BucketsDecode(out: seq<Bucket>, rows: seq<Row<Time>>, kept: seq<Row<Time>>, m: seq<Event>)
    requires Groups(m, MinuteOf, rows) && Top(rows, IdOf<Time>, BUCKET_LIMIT, kept)
    requires |out| == |kept| && forall i | 0 <= i < |out| :: Shows(out[i], kept[i])
    ensures BucketsCorrect(out, m)
  {
    KeptOfTop(m, MinuteOf, rows, IdOf<Time>, BUCKET_LIMIT, kept);
    forall i | 0 <= i < |out| ensures BucketCorrect(out[i], m) {
      assert Shows(out[i], kept[i]) && Counts(m, MinuteOf, kept[i]);
    }
    MinutesShown(out, kept);
    MinutesAscend(rows, kept);
    forall i, j | 0 <= i < j < |out| ensures out[i].ts.t < out[j].ts.t {
      assert Shows(out[i], kept[i]) && Shows(out[j], kept[j]);
    }
    forall i, o | 0 <= i < |out| && o in Keys(m, MinuteOf) && o !in Minutes(out) ensures out[i].ts.t < o {
      assert Shows(out[i], kept[i]);
      OmittedIsLater(m, rows, kept, i, o);
    }
  }

  lemma MinutesShown(out: seq<Bucket>, kept: seq<Row<Time>>)
    requires |out| == |kept| && forall i | 0 <= i < |out| :: Shows(out[i], kept[i])
    ensures Minutes(out) == Ids(kept)
  {
    forall o | o in Ids(kept) ensures o in Minutes(out) {
      var i :| 0 <= i < |kept| && kept[i].id == o;
      assert Shows(out[i], kept[i]) && out[i] in out;
    }
  }

  lemma MinutesAscend(rows: seq<Row<Time>>, kept: seq<Row<Time>>)
    requires Top(rows, IdOf<Time>, BUCKET_LIMIT, kept) && DistinctIds(kept)
    ensures forall i, j | 0 <= i < j < |kept| :: kept[i].id < kept[j].id
  {
    TopSelects(rows, IdOf<Time>, BUCKET_LIMIT, kept);
    forall i, j | 0 <= i < j < |kept| ensures kept[i].id < kept[j].id {
      assert IdOf(kept[i]) <= IdOf(kept[j]);
    }
  }

  lemma OmittedIsLater(m: seq<Event>, rows: seq<Row<Time>>, kept: seq<Row<Time>>, i: nat, o: Time)
    requires Groups(m, MinuteOf, rows) && Top(rows, IdOf<Time>, BUCKET_LIMIT, kept)
    requires i < |kept| && o in Keys(m, MinuteOf) && o !in Ids(kept)
    ensures kept[i].id < o
  {
    var r := OmittedRow(m, MinuteOf, rows, IdOf<Time>, BUCKET_LIMIT, kept, o);
    assert IdOf(kept[i]) <= IdOf(r);
    assert kept[i].id in Ids(kept);
  }

  // ---------- The two pipelines agree ----------

  function BucketEvents(out: seq<Bucket>): int {
    if out == [] then 0 else BucketEvents(out[..|out| - 1]) + out[|out| - 1].count
  }

  function BucketErrors(out: seq<Bucket>): int {
    if out == [] then 0 else BucketErrors(out[..|out| - 1]) + out[|out| - 1].errors
  }

  function RowOf(b: Bucket): Row<Time> {
    if b.ts.Date? && b.count >= 0 && b.errors >= 0 then Row(b.ts.t, b.count, b.errors) else Row(0, 0, 0)
  }

  function RowsOf(out: seq<Bucket>): seq<Row<Time>> {
    seq(|out|, i requires 0 <= i < |out| => RowOf(out[i]))
  }

  lemma {:induction false} BucketSums(out: seq<Bucket>, m: seq<Event>)
    requires forall i | 0 <= i < |out| :: BucketCorrect(out[i], m)
    ensures BucketEvents(out) == SumCounts(RowsOf(out)) && BucketErrors(out) == SumErrors(RowsOf(out))
  {
    if out != [] {
      BucketSums(out[..|out| - 1], m);
      assert RowsOf(out)[..|out| - 1] == RowsOf(out[..|out| - 1]);
      assert BucketCorrect(out[|out| - 1], m);
    }
  }

  /**
   * On the same events, the buckets add up to the total of the facet exactly when at most 120
   * minutes are occupied; then their errors are the errors behind the error rate.
   */
  lemma PipelinesAgree(s: Stats, out: seq<Bucket>, m: seq<Event>)
    requires StatsCorrect(s, m) && BucketsCorrect(out, m)
    ensures BucketEvents(out) <= s.totalEvents
    ensures BucketEvents(out) == s.totalEvents <==> |Keys(m, MinuteOf)| <= 120
    ensures |Keys(m, MinuteOf)| <= 120 ==>
              && BucketErrors(out) == Tally(m, LevelOf, {"ERROR", "FATAL"}, One)
              && (m != [] ==> s.errorRate == BucketErrors(out) as real / s.totalEvents as real)
  {
    var rows := RowsOf(out);
    BucketSums(out, m);
    forall i | 0 <= i < |rows| ensures Counts(m, MinuteOf, rows[i]) && rows[i].id in Keys(m, MinuteOf) {
      assert BucketCorrect(out[i], m);
    }
    assert DistinctIds(rows) by {
      forall i, j | 0 <= i < j < |rows| ensures rows[i].id != rows[j].id {
        assert out[i].ts.t < out[j].ts.t;
        assert BucketCorrect(out[i], m) && BucketCorrect(out[j], m);
      }
    }
    KeptRows(m, MinuteOf, rows);
    ErrorsAreTwoLevels(m);
  }

  // ---------- Both pipelines have results on every collection ----------

  function Document1(r: Row<string>): Value {
    Document(map["_id" := Text(r.id), "n" := Int64(r.count)])
  }

  function Documents(rows: seq<Row<string>>): Value {
    Array(seq(|rows|, i requires 0 <= i < |rows| => Document1(rows[i])))
  }

  lemma SomeTop<K(!new)>(rows: seq<Row<K>>, rank: Row<K> -> int, limit: nat) returns (kept: seq<Row<K>>)
    ensures Top(rows, rank, limit, kept)
  {
    InsertionSortSorts(rows, rank);
    kept := Limited(InsertionSort(rows, rank), limit);
  }

  lemma SomeFacet(docs: seq<Event>, since: Time) returns (raw: seq<Doc>)
    ensures IsFacet(raw, docs, since)
  {
    var m := Matched(docs, since);
    var levels := SomeGroups(m, LevelOf, Keys(m, LevelOf));
    var services := SomeGroups(m, ServiceOf, Keys(m, ServiceOf));
    var kept := SomeTop(services, ByCount, SERVICE_LIMIT);
    var total := Array(if m == [] then [] else [Document(map["n" := Int32(|m|)])]);
    raw := [map["total" := total, "by_level" := Documents(levels), "by_service" := Documents(kept)]];
    assert EncodesRows(Documents(levels).items, levels);
    assert EncodesRows(Documents(kept).items, kept);
  }

  function BucketDoc(r: Row<Time>): Doc {
    map["_id" := Date(r.id), "count" := Int32(r.count), "errors" := Int32(r.errors)]
  }

  lemma SomeBuckets(docs: seq<Event>, since: Time) returns (raw: seq<Doc>)
    ensures IsBuckets(raw, docs, since)
  {
    var m := Matched(docs, since);
    var rows := SomeGroups(m, MinuteOf, Keys(m, MinuteOf));
    var kept := SomeTop(rows, IdOf<Time>, BUCKET_LIMIT);
    raw := seq(|kept|, i requires 0 <= i < |kept| => BucketDoc(kept[i]));
    assert forall i | 0 <= i < |raw| :: EncodesBucket(raw[i], kept[i]);
  }
}
