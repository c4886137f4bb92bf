/** `Store.Query` of internal/storage/mongo.go: the filter it builds and the documents it returns. */
module Queries {
  import opened Models
  import opened Wrappers
  import opened Sorting

  /** The request; a zero value leaves a field out. */
  datatype QueryFilter = QueryFilter(
    serviceName: string, level: LogLevel, startTime: Time, endTime: Time, search: string, limit: int)

  /** A condition on one field; a time bound of None is absent. */
  datatype Condition =
    | Equals(text: string)
    | Between(gte: Option<Time>, lte: Option<Time>)
    | Matches(pattern: string)

  /** The documents that satisfy a condition; `matches` is the server's case-insensitive regex match. */
  predicate Meets(c: Condition, e: Event, field: string, matches: (string, string) -> bool) {
    match c
    case Equals(text) =>
      || (field == "service_name" && e.serviceName == text)
      || (field == "level" && e.level == text)
    case Between(gte, lte) =>
      && field == "timestamp"
      && (gte.Some? ==> gte.value <= e.timestamp)
      && (lte.Some? ==> e.timestamp <= lte.value)
    case Matches(pattern) => field == "message" && matches(pattern, e.message)
  }

  predicate Satisfies(filter: map<string, Condition>, e: Event, matches: (string, string) -> bool) {
    forall field | field in filter :: Meets(filter[field], e, field, matches)
  }

  /** What the caller asked for. */
  predicate Wanted(f: QueryFilter, e: Event, matches: (string, string) -> bool) {
    && (f.serviceName != "" ==> e.serviceName == f.serviceName)
    && (f.level != "" ==> e.level == f.level)
    && (f.startTime != ZERO_TIME ==> f.startTime <= e.timestamp)
    && (f.endTime != ZERO_TIME ==> e.timestamp <= f.endTime)
    && (f.search != "" ==> matches(f.search, e.message))
  }

  const MAX_LIMIT := 5000
  const DEFAULT_LIMIT := 200

  /** Builds the filter document and the limit handed to the driver. */
  method BuildQuery(f: QueryFilter) returns (filter: map<string, Condition>, limit: nat)
    ensures forall e, matches :: Satisfies(filter, e, matches) <==> Wanted(f, e, matches)
    ensures forall e, matches :: Satisfies(filter, e, matches) <==>
              && (f.serviceName == "" || e.serviceName == f.serviceName)
              && (f.level == "" || e.level == f.level)
              && (f.startTime == 0 || f.startTime <= e.timestamp)
              && (f.endTime == 0 || e.timestamp <= f.endTime)
              && (f.search == "" || matches(f.search, e.message))
    ensures limit == if 1 <= f.limit <= 5000 then f.limit else 200
  {
    filter := map[];
    if f.serviceName != "" {
      filter := filter["service_name" := Equals(f.serviceName)];
    }
    if f.level != "" {
      filter := filter["level" := Equals(f.level)];
    }
    if f.startTime != ZERO_TIME || f.endTime != ZERO_TIME {
      var ts := Between(None, None);
      if f.startTime != ZERO_TIME {
        ts := ts.(gte := Some(f.startTime));
      }
      if f.endTime != ZERO_TIME {
        ts := ts.(lte := Some(f.endTime));
      }
      filter := filter["timestamp" := ts];
    }
    if f.search != "" {
      filter := filter["message" := Matches(f.search)];
    }
    FilterMeansWanted(f, filter);
    if f.limit <= 0 || f.limit > MAX_LIMIT {
      limit := DEFAULT_LIMIT;
    } else {
      limit := f.limit;
    }
  }

  /** Each requested field has its one condition, and no other field has any. */
  predicate Mirrors(f: QueryFilter, filter: map<string, Condition>) {
    && (forall field | field in filter :: field in {"service_name", "level", "timestamp", "message"})
    && (if f.serviceName != "" then "service_name" in filter && filter["service_name"] == Equals(f.serviceName)
        else "service_name" !in filter)
    && (if f.level != "" then "level" in filter && filter["level"] == Equals(f.level) else "level" !in filter)
    && (if f.startTime != ZERO_TIME || f.endTime != ZERO_TIME
        then "timestamp" in filter
             && filter["timestamp"] ==
                Between(if f.startTime != ZERO_TIME then Some(f.startTime) else None,
                        if f.endTime != ZERO_TIME then Some(f.endTime) else None)
        else "timestamp" !in filter)
    && (if f.search != "" then "message" in filter && filter["message"] == Matches(f.search)
        else "message" !in filter)
  }

  lemma FilterMeansWanted(f: QueryFilter, filter: map<string, Condition>)
    requires Mirrors(f, filter)
    ensures forall e, matches :: Satisfies(filter, e, matches) <==> Wanted(f, e, matches)
  {
    forall e, matches ensures Satisfies(filter, e, matches) <==> Wanted(f, e, matches) {
      OneEvent(f, filter, e, matches);
    }
  }

  lemma OneEvent(f: QueryFilter, filter: map<string, Condition>, e: Event, matches: (string, string) -> bool)
    requires Mirrors(f, filter)
    ensures Satisfies(filter, e, matches) <==> Wanted(f, e, matches)
  {
    if Satisfies(filter, e, matches) {
      assert f.serviceName != "" ==> Meets(filter["service_name"], e, "service_name", matches);
      assert f.level != "" ==> Meets(filter["level"], e, "level", matches);
      assert "timestamp" in filter ==> Meets(filter["timestamp"], e, "timestamp", matches);
      assert f.search != "" ==> Meets(filter["message"], e, "message", matches);
    }
  }

  function Select(docs: seq<Event>, filter: map<string, Condition>, matches: (string, string) -> bool): seq<Event> {
    if docs == [] then []
    else
      Select(docs[..|docs| - 1], filter, matches) +
      if Satisfies(filter, docs[|docs| - 1], matches) then [docs[|docs| - 1]] else []
  }

  function Age(e: Event): int {
    -e.timestamp
  }

  /** What `Find` with this filter, a descending sort on timestamp and this limit may return. */
  ghost predicate Finds(docs: seq<Event>, filter: map<string, Condition>, matches: (string, string) -> bool,
                        limit: nat, out: seq<Event>) {
    Top(Select(docs, filter, matches), Age, limit, out)
  }

  function CountWanted(docs: seq<Event>, f: QueryFilter, matches: (string, string) -> bool): nat {
    if docs == [] then 0
    else
      CountWanted(docs[..|docs| - 1], f, matches) + if Wanted(f, docs[|docs| - 1], matches) then 1 else 0
  }

  lemma {:induction false} SelectIsWanted(docs: seq<Event>, f: QueryFilter, filter: map<string, Condition>,
                                          matches: (string, string) -> bool, e: Event)
    requires forall e :: Satisfies(filter, e, matches) <==> Wanted(f, e, matches)
    ensures multiset(Select(docs, filter, matches))[e] == if Wanted(f, e, matches) then multiset(docs)[e] else 0
    ensures |Select(docs, filter, matches)| == CountWanted(docs, f, matches)
  {
    if docs != [] {
      var n := |docs| - 1;
      SelectIsWanted(docs[..n], f, filter, matches, e);
      assert docs == docs[..n] + [docs[n]];
      assert Satisfies(filter, docs[n], matches) <==> Wanted(f, docs[n], matches);
    }
  }

  /**
   * For every request and every tie-breaking: min(k, matching) stored events are returned, each
   * wanted, newest first, and no wanted event left out is strictly newer than a returned one.
   */
  lemma TopK(docs: seq<Event>, f: QueryFilter, filter: map<string, Condition>,
             matches: (string, string) -> bool, limit: nat, out: seq<Event>)
    requires forall e :: Satisfies(filter, e, matches) <==> Wanted(f, e, matches)
    requires Finds(docs, filter, matches, limit, out)
    ensures |out| == if CountWanted(docs, f, matches) <= limit then CountWanted(docs, f, matches) else limit
    ensures multiset(out) <= multiset(docs)
    ensures forall e | e in out :: Wanted(f, e, matches)
    ensures forall i, j | 0 <= i < j < |out| :: out[i].timestamp >= out[j].timestamp
    ensures forall x, y | x in out && y in multiset(docs) - multiset(out) && Wanted(f, y, matches) ::
              x.timestamp >= y.timestamp
  {
    var selected := Select(docs, filter, matches);
    TopSelects(selected, Age, limit, out);
    SelectedBag(docs, f, filter, matches, selected);
    forall e | e in out ensures Wanted(f, e, matches) {
      assert e in multiset(out) && e in multiset(selected);
    }
    forall i, j | 0 <= i < j < |out| ensures out[i].timestamp >= out[j].timestamp {
      assert Age(out[i]) <= Age(out[j]);
    }
    forall x, y | x in out && y in multiset(docs) - multiset(out) && Wanted(f, y, matches)
      ensures x.timestamp >= y.timestamp
    {
      assert y in multiset(selected) - multiset(out);
      assert Age(x) <= Age(y);
    }
  }

  lemma SelectedBag(docs: seq<Event>, f: QueryFilter, filter: map<string, Condition>,
                    matches: (string, string) -> bool, selected: seq<Event>)
    requires forall e :: Satisfies(filter, e, matches) <==> Wanted(f, e, matches)
    requires selected == Select(docs, filter, matches)
    ensures forall e :: multiset(selected)[e] == if Wanted(f, e, matches) then multiset(docs)[e] else 0
    ensures multiset(selected) <= multiset(docs)
    ensures |selected| == CountWanted(docs, f, matches)
  {
    forall e ensures multiset(selected)[e] == if Wanted(f, e, matches) then multiset(docs)[e] else 0 {
      SelectIsWanted(docs, f, filter, matches, e);
    }
    SelectIsWanted(docs, f, filter, matches, Event(0, "", "", "", "", "", ""));
  }

  /** Such a result exists for every collection and request. */
  lemma SomethingIsFound(docs: seq<Event>, filter: map<string, Condition>,
                         matches: (string, string) -> bool, limit: nat)
    ensures exists out :: Finds(docs, filter, matches, limit, out)
  {
    var selected := Select(docs, filter, matches);
    InsertionSortSorts(selected, Age);
    assert Finds(docs, filter, matches, limit, Limited(InsertionSort(selected, Age), limit));
  }
}
