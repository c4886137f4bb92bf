/** The accepting side of internal/ingestion/pipeline.go: Submit, SubmitBatch and the dedupe cache. */
module Ingestion {
  import opened Models
  import opened Dedupe

  /** The two clock readings of one Submit: in Validate, and before the mutex is taken. */
  datatype Reading = Reading(stamp: Time, unix: int)

  /** Everything a Submit reads and writes: the channel's contents, the cache and two counters. */
  datatype Front = Front(queue: seq<Event>, cache: Cache, rejected: nat, dropped: nat)

  /** One Submit without interference: the new state and the value returned. */
  function SubmitOne(f: Front, capacity: nat, ev: Event, r: Reading): (Front, bool) {
    match Validate(ev, r.stamp)
    case Invalid(_) => (f.(rejected := f.rejected + 1), false)
    case Ok(e) =>
      var (cache, pass) := Check(f.cache, Call(e.idempotencyKey, r.unix));
      if !pass then (f.(cache := cache), true)
      else if |f.queue| < capacity then (f.(cache := cache, queue := f.queue + [e]), true)
      else (f.(cache := cache, dropped := f.dropped + 1), false)
  }

  // ---------- What a batch amounts to ----------

  /** The cache after the first n events; neither the channel nor its capacity has a say in it. */
  function CacheAfter(c: Cache, events: seq<Event>, readings: seq<Reading>, n: nat): Cache
    requires n <= |events| == |readings|
  {
    if n == 0 then c
    else
      var before := CacheAfter(c, events, readings, n - 1);
      if Acceptable(events[n - 1])
      then Check(before, Call(events[n - 1].idempotencyKey, readings[n - 1].unix)).0
      else before
  }

  /** Event i is valid and not suppressed as a duplicate. */
  predicate Fresh(c: Cache, events: seq<Event>, readings: seq<Reading>, i: nat)
    requires i < |events| == |readings|
  {
    && Acceptable(events[i])
    && Check(CacheAfter(c, events, readings, i), Call(events[i].idempotencyKey, readings[i].unix)).1
  }

  /** The fresh ones among the first n events, in order, with their timestamps filled in. */
  function FreshEvents(c: Cache, events: seq<Event>, readings: seq<Reading>, n: nat): seq<Event>
    requires n <= |events| == |readings|
  {
    if n == 0 then []
    else
      FreshEvents(c, events, readings, n - 1) +
      if Fresh(c, events, readings, n - 1) then [Validate(events[n - 1], readings[n - 1].stamp).event] else []
  }

  function InvalidCount(events: seq<Event>, n: nat): nat
    requires n <= |events|
  {
    if n == 0 then 0 else InvalidCount(events, n - 1) + if Acceptable(events[n - 1]) then 0 else 1
  }

  function Min(a: int, b: int): int {
    if a < b then a else b
  }

  /**
   * The state and the two results after n events of a batch, in closed form: of the fresh events
   * the first that fit are enqueued and the others are dropped.
   */
  ghost predicate BatchResult(f0: Front, capacity: nat, events: seq<Event>, readings: seq<Reading>, n: nat,
                              f: Front, ok: int, bad: int)
    requires n <= |events| == |readings| && |f0.queue| <= capacity
  {
    var passing := FreshEvents(f0.cache, events, readings, n);
    var fit := Min(capacity - |f0.queue|, |passing|);
    var invalid := InvalidCount(events, n);
    && f.queue == f0.queue + passing[..fit]
    && f.cache == CacheAfter(f0.cache, events, readings, n)
    && f.rejected == f0.rejected + invalid
    && f.dropped == f0.dropped + |passing| - fit
    && ok == (n - invalid - |passing|) + fit
    && bad == invalid + |passing| - fit
  }

  lemma BatchStep(f0: Front, capacity: nat, events: seq<Event>, readings: seq<Reading>, n: nat,
                  f: Front, ok: int, bad: int)
    requires n < |events| == |readings| && |f0.queue| <= capacity
    requires BatchResult(f0, capacity, events, readings, n, f, ok, bad)
    ensures var (f', accepted) := SubmitOne(f, capacity, events[n], readings[n]);
            BatchResult(f0, capacity, events, readings, n + 1, f',
                        if accepted then ok + 1 else ok, if accepted then bad else bad + 1)
  {
    var passing := FreshEvents(f0.cache, events, readings, n);
    var passing' := FreshEvents(f0.cache, events, readings, n + 1);
    var free := capacity - |f0.queue|;
    if Fresh(f0.cache, events, readings, n) && |passing| < free {
      assert passing'[..|passing'|] == passing[..|passing|] + [passing'[|passing|]];
    } else {
      assert passing'[..Min(free, |passing'|)] == passing[..Min(free, |passing|)];
    }
  }

  // ---------- The class ----------

  class Pipeline {
    const capacity: nat
    var queue: seq<Event>
    var seen: map<string, int>
    var sweptAt: int
    var rejected: nat
    var dropped: nat

    ghost function State(): Front
      reads this
    {
      Front(queue, Cache(seen, sweptAt), rejected, dropped)
    }

    constructor (bufferSize: nat)
      ensures capacity == bufferSize && State() == Front([], EMPTY, 0, 0)
    {
      capacity := bufferSize;
      queue, seen, sweptAt, rejected, dropped := [], map[], 0, 0, 0;
    }

    /** The sweeping loop: deletes every entry older than the cutoff, in any order. */
    method Sweep(cutoff: int)
      modifies this`seen
      ensures seen == map k | k in old(seen) && old(seen)[k] >= cutoff :: old(seen)[k]
    {
      var pending := seen.Keys;
      while pending != {}
        invariant pending <= old(seen).Keys
        invariant seen == map k | k in old(seen) && (k in pending || old(seen)[k] >= cutoff) :: old(seen)[k]
        decreases pending
      {
        var k :| k in pending;
        if seen[k] < cutoff {
          seen := seen - {k};
        }
        pending := pending - {k};
      }
    }

    method CheckAndStoreDedup(key: string, now: int) returns (isNew: bool)
      modifies this`seen, this`sweptAt
      ensures (Cache(seen, sweptAt), isNew) == Check(old(Cache(seen, sweptAt)), Call(key, now))
      ensures var due := key != "" && now - old(sweptAt) > 60;
              && (isNew <==> key == "" || key !in old(seen) || (due && old(seen)[key] < now - 300))
              && sweptAt == (if due then now else old(sweptAt))
              && forall k :: k in seen <==>
                   || (k == key && k != "")
                   || (k in old(seen) && !(due && old(seen)[k] < now - 300))
    {
      if key == "" {
        return true;
      }
      if now - sweptAt > SWEEP_PERIOD {
        Sweep(now - WINDOW);
        sweptAt := now;
      }
      if key in seen {
        return false;
      }
      seen := seen[key := now];
      return true;
    }

    method Submit(ev: Event, r: Reading) returns (accepted: bool)
      modifies this`queue, this`seen, this`sweptAt, this`rejected, this`dropped
      ensures (State(), accepted) == SubmitOne(old(State()), capacity, ev, r)
    {
      var v := Validate(ev, r.stamp);
      if v.Invalid? {
        rejected := rejected + 1;
        return false;
      }
      var isNew := CheckAndStoreDedup(v.event.idempotencyKey, r.unix);
      if !isNew {
        return true;
      }
      if |queue| < capacity {
        queue := queue + [v.event];
        return true;
      } else {
        dropped := dropped + 1;
        return false;
      }
    }

    /** With no worker running meanwhile, a batch ends as its closed form says. */
    method SubmitBatch(events: seq<Event>, readings: seq<Reading>) returns (ok: nat, bad: nat)
      requires |readings| == |events| && |queue| <= capacity
      modifies this`queue, this`seen, this`sweptAt, this`rejected, this`dropped
      ensures BatchResult(old(State()), capacity, events, readings, |events|, State(), ok, bad)
      ensures ok + bad == |events| && |queue| <= capacity
    {
      ok, bad := 0, 0;
      for n := 0 to |events|
        invariant |queue| <= capacity && ok + bad == n
        invariant BatchResult(old(State()), capacity, events, readings, n, State(), ok, bad)
      {
        BatchStep(old(State()), capacity, events, readings, n, State(), ok, bad);
        var accepted := Submit(events[n], readings[n]);
        if accepted {
          ok := ok + 1;
        } else {
          bad := bad + 1;
        }
      }
    }
  }

  // ---------- Freshness under a clock that stands still during the call ----------

  /** A valid event is first when it has no key, or a key that is neither remembered after a sweep
      at this time nor used by an earlier valid event of the batch. */
  ghost predicate First(c: Cache, events: seq<Event>, now: int, i: nat)
    requires i < |events|
  {
    && Acceptable(events[i])
    && (|| events[i].idempotencyKey == ""
        || (&& events[i].idempotencyKey !in Swept(c, now).seen
            && forall j | 0 <= j < i :: !(Acceptable(events[j])
                                          && events[j].idempotencyKey == events[i].idempotencyKey)))
  }

  lemma CheckSweeps(c: Cache, call: Call)
    requires call.key != ""
    ensures var c' := Check(c, call).0;
            && Swept(c', call.at) == c'
            && c'.seen.Keys == Swept(c, call.at).seen.Keys + {call.key}
  {
    var c' := Check(c, call).0;
    assert c'.sweptAt == Swept(c, call.at).sweptAt;
    assert call.at - c'.sweptAt <= SWEEP_PERIOD;
  }

  lemma {:induction false} KeysAfter(c: Cache, events: seq<Event>, readings: seq<Reading>, now: int, n: nat, key: string)
    requires n <= |events| == |readings| && key != ""
    requires forall i | 0 <= i < |readings| :: readings[i].unix == now
    ensures key in Swept(CacheAfter(c, events, readings, n), now).seen <==>
            || key in Swept(c, now).seen
            || exists j | 0 <= j < n :: Acceptable(events[j]) && events[j].idempotencyKey == key
  {
    if n > 0 {
      KeysAfter(c, events, readings, now, n - 1, key);
      var before := CacheAfter(c, events, readings, n - 1);
      var ev := events[n - 1];
      if Acceptable(ev) && ev.idempotencyKey != "" {
        CheckSweeps(before, Call(ev.idempotencyKey, now));
      }
    }
  }

  /** So a batch enqueues the first min(free, fresh) of its valid events with a new or empty key. */
  lemma FixedClockFreshness(c: Cache, events: seq<Event>, readings: seq<Reading>, now: int, i: nat)
    requires i < |events| == |readings|
    requires forall k | 0 <= k < |readings| :: readings[k].unix == now
    ensures Fresh(c, events, readings, i) <==> First(c, events, now, i)
  {
    if Acceptable(events[i]) && events[i].idempotencyKey != "" {
      KeysAfter(c, events, readings, now, i, events[i].idempotencyKey);
    }
  }

  /** The first events among the first n, in order, with their timestamps filled in. */
  ghost function FirstEvents(c: Cache, events: seq<Event>, readings: seq<Reading>, now: int, n: nat): seq<Event>
    requires n <= |events| == |readings|
  {
    if n == 0 then []
    else
      FirstEvents(c, events, readings, now, n - 1) +
      if First(c, events, now, n - 1) then [Validate(events[n - 1], readings[n - 1].stamp).event] else []
  }

  lemma {:induction false} FixedClockBatch(c: Cache, events: seq<Event>, readings: seq<Reading>, now: int, n: nat)
    requires n <= |events| == |readings|
    requires forall k | 0 <= k < |readings| :: readings[k].unix == now
    ensures FreshEvents(c, events, readings, n) == FirstEvents(c, events, readings, now, n)
  {
    if n > 0 {
      FixedClockBatch(c, events, readings, now, n - 1);
      FixedClockFreshness(c, events, readings, now, n - 1);
    }
  }

  // ---------- Retrying an event ----------

  /** The cache after further calls. */
  function Later(c: Cache, calls: seq<Call>): Cache {
    if calls == [] then c else Check(Later(c, calls[..|calls| - 1]), calls[|calls| - 1]).0
  }

  /** An entry outlives calls for other keys until a sweep comes more than 300 s after its time. */
  lemma {:induction false} EntryLives(c: Cache, calls: seq<Call>, key: string)
    requires key in c.seen && forall i | 0 <= i < |calls| :: calls[i].key != key
    ensures var d := Later(c, calls);
            && d.sweptAt >= c.sweptAt
            && (key in d.seen <==> d.sweptAt == c.sweptAt || d.sweptAt <= c.seen[key] + WINDOW)
            && (key in d.seen ==> d.seen[key] == c.seen[key])
  {
    if calls != [] {
      EntryLives(c, calls[..|calls| - 1], key);
    }
  }

  /**
   * The key is recorded before the send is tried. A keyed event that is not remembered enters the
   * channel exactly when there is room. Either way, after any submissions of other keys, a retry is
   * reported as accepted and enqueues nothing, however much room there is by then, exactly if no
   * sweep since, the retry's own included, came more than 300 s after the first call. So for a
   * dropped event that is exactly when "accepted" is not "at least once".
   */
  lemma WhenRetryIsSwallowed(f: Front, capacity: nat, ev: Event, r: Reading,
                             others: seq<Call>, queue: seq<Event>, r': Reading)
    requires ev.idempotencyKey != "" && Acceptable(ev)
    requires ev.idempotencyKey !in Swept(f.cache, r.unix).seen
    requires forall i | 0 <= i < |others| :: others[i].key != ev.idempotencyKey
    ensures var (f1, accepted) := SubmitOne(f, capacity, ev, r);
            && (accepted <==> |f.queue| < capacity)
            && f1.queue == (if accepted then f.queue + [Validate(ev, r.stamp).event] else f.queue)
            && f1.dropped == (if accepted then f.dropped else f.dropped + 1)
    ensures var f1 := SubmitOne(f, capacity, ev, r).0;
            var cache := Later(f1.cache, others);
            var sweep := if r'.unix - cache.sweptAt > 60 then r'.unix else cache.sweptAt;
            var (f2, accepted) := SubmitOne(f1.(cache := cache, queue := queue), capacity, ev, r');
            accepted && f2.queue == queue <==> sweep == f1.cache.sweptAt || sweep <= r.unix + 300
  {
    NewKeySubmit(f, capacity, ev, r);
    var f1 := SubmitOne(f, capacity, ev, r).0;
    var cache := Later(f1.cache, others);
    EntryLives(f1.cache, others, ev.idempotencyKey);
    SeenMeansSwallowed(f1.(cache := cache, queue := queue), capacity, ev, r');
  }

  lemma NewKeySubmit(f: Front, capacity: nat, ev: Event, r: Reading)
    requires ev.idempotencyKey != "" && Acceptable(ev)
    requires ev.idempotencyKey !in Swept(f.cache, r.unix).seen
    ensures var (f1, accepted) := SubmitOne(f, capacity, ev, r);
            && (accepted <==> |f.queue| < capacity)
            && f1.queue == (if accepted then f.queue + [Validate(ev, r.stamp).event] else f.queue)
            && f1.dropped == (if accepted then f.dropped else f.dropped + 1)
            && ev.idempotencyKey in f1.cache.seen && f1.cache.seen[ev.idempotencyKey] == r.unix
  {
  }

  lemma SeenMeansSwallowed(f: Front, capacity: nat, ev: Event, r: Reading)
    requires ev.idempotencyKey != "" && Acceptable(ev)
    ensures var (f', accepted) := SubmitOne(f, capacity, ev, r);
            accepted && f'.queue == f.queue <==> ev.idempotencyKey in Swept(f.cache, r.unix).seen
  {
  }

  /** In particular, for a retry that comes next. */
  lemma WhenNextRetryIsSwallowed(f: Front, capacity: nat, ev: Event, r: Reading, queue: seq<Event>, r': Reading)
    requires ev.idempotencyKey != "" && Acceptable(ev)
    requires ev.idempotencyKey !in Swept(f.cache, r.unix).seen
    ensures var f1 := SubmitOne(f, capacity, ev, r).0;
            var (f2, accepted) := SubmitOne(f1.(queue := queue), capacity, ev, r');
            accepted && f2.queue == queue <==>
            r'.unix <= r.unix + 300 || r'.unix - f1.cache.sweptAt <= 60
  {
    WhenRetryIsSwallowed(f, capacity, ev, r, [], queue, r');
  }
}
