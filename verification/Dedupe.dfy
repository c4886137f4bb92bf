/**
 * The idempotency-key cache of internal/ingestion/pipeline.go: a map swept lazily, at most once
 * a minute, and its exact relation to the unbounded history of calls.
 *
 * The source reads the clock before it takes the mutex, so the readings that reach the critical
 * section may be out of order. `lag` bounds by how much; lag 0 is a non-decreasing clock.
 */
module Dedupe {
  import opened Wrappers

  const WINDOW: int := 300
  const SWEEP_PERIOD: int := 60

  /** The fields `dedupe` and `dedupeAt`. */
  datatype Cache = Cache(seen: map<string, int>, sweptAt: int)

  const EMPTY: Cache := Cache(map[], 0)

  /** One pass through the critical section: the key and the clock reading it arrived with. */
  datatype Call = Call(key: string, at: int)

  function Swept(c: Cache, now: int): Cache {
    if now - c.sweptAt > SWEEP_PERIOD then
      Cache(map k | k in c.seen && c.seen[k] >= now - WINDOW :: c.seen[k], now)
    else c
  }

  /** The cache after `checkAndStoreDedup`, and its verdict: true for a key that is to be processed. */
  function Check(c: Cache, call: Call): (Cache, bool) {
    if call.key == "" then (c, true)
    else
      var c' := Swept(c, call.at);
      if call.key in c'.seen then (c', false)
      else (c'.(seen := c'.seen[call.key := call.at]), true)
  }

  /** One call, entry by entry: a key passes unless it is in the map and outlives the sweep, which is due
      after more than 60 s and removes what is older than 300 s. */
  lemma CheckExactly(c: Cache, call: Call, k: string)
    ensures var (c', pass) := Check(c, call);
            var due := call.key != "" && call.at - c.sweptAt > 60;
            && (pass <==> call.key == "" || call.key !in c.seen || (due && c.seen[call.key] < call.at - 300))
            && c'.sweptAt == (if due then call.at else c.sweptAt)
            && (k in c'.seen <==>
                  || (k == call.key && k != "")
                  || (k in c.seen && !(due && c.seen[k] < call.at - 300)))
            && (k in c'.seen ==>
                  c'.seen[k] == if k == call.key && k != "" && pass then call.at else c.seen[k])
  {
  }

  /** The cache after a whole history of calls. */
  function Replay(calls: seq<Call>): Cache {
    if calls == [] then EMPTY
    else Check(Replay(calls[..|calls| - 1]), calls[|calls| - 1]).0
  }

  /** Whether the code lets call j of the history through. */
  predicate Passes(calls: seq<Call>, j: nat)
    requires j < |calls|
  {
    Check(Replay(calls[..j]), calls[j]).1
  }

  // ---------- Specification over the unbounded history ----------

  /** The time of the latest sweep; it depends on clock readings alone. */
  function SweepTime(calls: seq<Call>): int {
    if calls == [] then 0
    else
      var before := SweepTime(calls[..|calls| - 1]);
      var now := calls[|calls| - 1].at;
      if now - before > SWEEP_PERIOD then now else before
  }

  /** A key is let through unless its latest admission is no older than 300 s at the latest sweep. */
  predicate Admits(history: seq<Call>, call: Call)
    decreases |history|, 1
  {
    match LastAdmitted(history, call.key)
    case None => true
    case Some(i) => history[i].at < SweepTime(history + [call]) - WINDOW
  }

  /** The index of the latest admitted call with this key; no call is ever forgotten. */
  function LastAdmitted(calls: seq<Call>, key: string): (r: Option<nat>)
    ensures r.Some? ==> r.value < |calls| && calls[r.value].key == key
    decreases |calls|, 0
  {
    if calls == [] then None
    else
      var n := |calls| - 1;
      if calls[n].key == key && Admits(calls[..n], calls[n]) then Some(n)
      else LastAdmitted(calls[..n], key)
  }

  predicate Admitted(calls: seq<Call>, j: nat)
    requires j < |calls|
  {
    Admits(calls[..j], calls[j])
  }

  /** Keyed calls whose readings are non-negative and never more than `lag` behind an earlier one. */
  ghost predicate Lagging(calls: seq<Call>, lag: nat) {
    && (forall i | 0 <= i < |calls| :: calls[i].key != "" && calls[i].at >= 0)
    && (forall i, j | 0 <= i < j < |calls| :: calls[j].at >= calls[i].at - lag)
  }

  /** The admissions that the latest sweep has not aged out. */
  predicate Remembered(calls: seq<Call>, key: string) {
    var last := LastAdmitted(calls, key);
    last.Some? && calls[last.value].at >= SweepTime(calls) - WINDOW
  }

  // ---------- The swept map refines the history exactly ----------

  lemma {:induction false} SweepTimeBound(calls: seq<Call>, lag: nat)
    requires Lagging(calls, lag)
    ensures SweepTime(calls) >= 0
    ensures calls != [] ==> SweepTime(calls) <= calls[|calls| - 1].at + lag
    ensures calls != [] ==> calls[|calls| - 1].at - SweepTime(calls) <= SWEEP_PERIOD
  {
    if |calls| > 0 {
      SweepTimeBound(calls[..|calls| - 1], lag);
      SweepTimeIsOld(calls[..|calls| - 1], calls[|calls| - 1].at + lag);
    }
  }

  lemma {:induction false} SweepTimeIsOld(calls: seq<Call>, bound: int)
    requires 0 <= bound && forall i | 0 <= i < |calls| :: calls[i].at <= bound
    ensures SweepTime(calls) <= bound
  {
    if |calls| > 0 {
      SweepTimeIsOld(calls[..|calls| - 1], bound);
    }
  }

  /** The cache's entry for one key is its latest admission, present exactly while remembered. */
  predicate Tracks(c: Cache, calls: seq<Call>, key: string) {
    && (key in c.seen <==> Remembered(calls, key))
    && (Remembered(calls, key) ==>
          key in c.seen && c.seen[key] == calls[LastAdmitted(calls, key).value].at)
  }

  /** In every state reached by any history, the map holds exactly the remembered admissions. */
  lemma {:induction false} CacheIsRememberedHistory(calls: seq<Call>, lag: nat)
    requires Lagging(calls, lag) && lag <= WINDOW
    ensures Replay(calls).sweptAt == SweepTime(calls)
    ensures forall key :: Tracks(Replay(calls), calls, key)
  {
    if |calls| > 0 {
      var before, last := calls[..|calls| - 1], calls[|calls| - 1];
      CacheIsRememberedHistory(before, lag);
      assert calls == before + [last];
      forall key ensures Tracks(Replay(calls), calls, key) {
        assert Tracks(Replay(before), before, key);
        assert Tracks(Replay(before), before, last.key);
        TracksStep(Replay(before), before, last, lag, key);
      }
    }
  }

  lemma HistoryStep(before: seq<Call>, call: Call, key: string)
    ensures var calls := before + [call];
            && LastAdmitted(calls, key) ==
               (if call.key == key && Admits(before, call) then Some(|before|)
                else LastAdmitted(before, key))
            && SweepTime(calls) ==
               (if call.at - SweepTime(before) > SWEEP_PERIOD then call.at else SweepTime(before))
  {
    assert (before + [call])[..|before|] == before;
  }

  lemma TracksStep(c: Cache, before: seq<Call>, call: Call, lag: nat, key: string)
    requires Lagging(before + [call], lag) && lag <= WINDOW
    requires c.sweptAt == SweepTime(before)
    requires Tracks(c, before, key) && Tracks(c, before, call.key)
    ensures Tracks(Check(c, call).0, before + [call], key)
  {
    var calls := before + [call];
    HistoryStep(before, call, key);
    SweepTimeBound(calls, lag);
    VerdictStep(c, before, call);
    var c', pass := Check(c, call).0, Check(c, call).1;
    if key == call.key && pass {
      assert calls[LastAdmitted(calls, key).value] == call;
    } else {
      assert LastAdmitted(calls, key) == LastAdmitted(before, key);
      assert key in c'.seen <==> key in Swept(c, call.at).seen;
      if key in c.seen {
        var i := LastAdmitted(before, key).value;
        assert calls[i] == before[i];
      }
    }
  }

  lemma VerdictStep(c: Cache, before: seq<Call>, call: Call)
    requires call.key != ""
    requires c.sweptAt == SweepTime(before) && Tracks(c, before, call.key)
    ensures Swept(c, call.at).sweptAt == SweepTime(before + [call])
    ensures Check(c, call).1 == Admits(before, call)
  {
    assert (before + [call])[..|before|] == before;
  }

  /** The code's verdict on every call of every history is the specified one. */
  lemma VerdictsMatch(calls: seq<Call>, lag: nat, j: nat)
    requires Lagging(calls, lag) && lag <= WINDOW && j < |calls|
    ensures Passes(calls, j) == Admitted(calls, j)
  {
    CacheIsRememberedHistory(calls[..j], lag);
    assert calls[..j] + [calls[j]] == calls[..j + 1];
    assert Tracks(Replay(calls[..j]), calls[..j], calls[j].key);
    VerdictStep(Replay(calls[..j]), calls[..j], calls[j]);
  }

  // ---------- The two-sided window ----------

  lemma {:induction false} LastAdmittedIsLatest(calls: seq<Call>, i: nat)
    requires i < |calls| && Admitted(calls, i)
    ensures LastAdmitted(calls, calls[i].key).Some?
    ensures LastAdmitted(calls, calls[i].key).value >= i
  {
    var n := |calls| - 1;
    if i < n {
      assert calls[..n][..i] == calls[..i];
      LastAdmittedIsLatest(calls[..n], i);
    }
  }

  lemma {:induction false} LastAdmittedWasAdmitted(calls: seq<Call>, key: string)
    requires LastAdmitted(calls, key).Some?
    ensures Admitted(calls, LastAdmitted(calls, key).value)
  {
    var n := |calls| - 1;
    if !(calls[n].key == key && Admits(calls[..n], calls[n])) {
      LastAdmittedWasAdmitted(calls[..n], key);
      var i := LastAdmitted(calls[..n], key).value;
      assert calls[..n][..i] == calls[..i];
    }
  }

  /** Two admissions of one key are more than 300 - lag seconds apart, in call order. */
  lemma {:induction false} AdmissionsAreSpaced(calls: seq<Call>, lag: nat, i: nat, j: nat)
    requires Lagging(calls, lag) && lag <= WINDOW
    requires i < j < |calls| && calls[i].key == calls[j].key
    requires Passes(calls, i) && Passes(calls, j)
    ensures calls[j].at - calls[i].at > 300 - lag
    decreases j
  {
    VerdictsMatch(calls, lag, i);
    var h := calls[..j];
    assert h[..i] == calls[..i];
    LastAdmittedIsLatest(h, i);
    var m := LastAdmitted(h, calls[j].key).value;
    AdmissionIsSpaced(calls, lag, j);
    if i < m {
      LastAdmittedWasAdmitted(h, calls[j].key);
      assert h[..m] == calls[..m];
      VerdictsMatch(calls, lag, m);
      AdmissionsAreSpaced(calls, lag, i, m);
    }
  }

  /** The latest earlier admission of an admitted call's key, if there is one, is far enough back. */
  lemma AdmissionIsSpaced(calls: seq<Call>, lag: nat, j: nat)
    requires Lagging(calls, lag) && lag <= WINDOW
    requires j < |calls| && Passes(calls, j) && LastAdmitted(calls[..j], calls[j].key).Some?
    ensures calls[j].at - calls[LastAdmitted(calls[..j], calls[j].key).value].at > WINDOW - lag
  {
    VerdictsMatch(calls, lag, j);
    assert calls[..j] + [calls[j]] == calls[..j + 1];
    SweepTimeBound(calls[..j + 1], lag);
  }

  /** A suppressed call always has an admission of its key at most 360 seconds before it. */
  lemma SuppressionIsRecent(calls: seq<Call>, lag: nat, j: nat) returns (i: nat)
    requires Lagging(calls, lag) && lag <= WINDOW
    requires j < |calls| && !Passes(calls, j)
    ensures i < j && calls[i].key == calls[j].key && Passes(calls, i)
    ensures calls[j].at - calls[i].at <= 360
  {
    VerdictsMatch(calls, lag, j);
    var h := calls[..j];
    i := LastAdmitted(h, calls[j].key).value;
    LastAdmittedWasAdmitted(h, calls[j].key);
    assert h[..i] == calls[..i];
    VerdictsMatch(calls, lag, i);
    assert h + [calls[j]] == calls[..j + 1];
    SweepTimeBound(calls[..j + 1], lag);
  }

  /**
   * Both bounds are attained: suppression at 360 s, and re-admission at 301 - lag for every lag. And a
   * sweep is due after 61 s: then a key of more than 300 s passes that would have been suppressed.
   */
  lemma WindowBoundsAreTight(lag: nat)
    requires lag <= WINDOW
    ensures var late := [Call("k", 1000), Call("j", 1300), Call("k", 1360)];
            Lagging(late, lag) && Passes(late, 0) && !Passes(late, 2)
    ensures var early := [Call("k", 1000), Call("j", 1301), Call("k", 1301 - lag)];
            Lagging(early, lag) && Passes(early, 0) && Passes(early, 2)
    ensures var due := [Call("k", 1000), Call("j", 1299), Call("k", 1360)];
            Lagging(due, lag) && Passes(due, 0) && Passes(due, 2)
  {
    KeyThenOther(1300, 1360, lag);
    KeyThenOther(1301, 1301 - lag, lag);
    KeyThenOther(1299, 1360, lag);
  }

  /** A key at 1000, another after a minute, and the first again: what the two sweeps leave of it. */
  lemma KeyThenOther(other: int, again: int, lag: nat)
    requires 1061 <= other && 0 <= again && other - lag <= again && 1000 <= again + lag
    ensures var calls := [Call("k", 1000), Call("j", other), Call("k", again)];
            && Lagging(calls, lag) && Passes(calls, 0)
            && (Passes(calls, 2) <==> other > 1300 || (again - other > 60 && again > 1300))
  {
    var a, b, c := Call("k", 1000), Call("j", other), Call("k", again);
    ThreeCalls(a, b, c);
    var first := Check(EMPTY, a).0;
    assert first == Cache(map["k" := 1000], 1000);
    assert Swept(first, other).sweptAt == other && ("k" in Swept(first, other).seen <==> other <= 1300);
  }

  lemma ThreeCalls(a: Call, b: Call, c: Call)
    ensures Passes([a, b, c], 0) == Check(EMPTY, a).1
    ensures Passes([a, b, c], 2) == Check(Check(Check(EMPTY, a).0, b).0, c).1
  {
    assert [a, b, c][..0] == [] && [a, b, c][..2] == [a, b];
    assert [a, b][..1] == [a] && [a][..0] == [];
    assert Replay([a]) == Check(Replay([]), a).0;
    assert Replay([a, b]) == Check(Replay([a]), b).0;
  }

  lemma PassesInPrefix(calls: seq<Call>, n: nat, i: nat)
    requires i < n <= |calls|
    ensures calls[..n][i] == calls[i] && Passes(calls[..n], i) == Passes(calls, i)
  {
    assert calls[..n][..i] == calls[..i];
  }

  // ---------- The admission rate of one key ----------

  /** How many calls with this key, made in the closed interval [lo, hi], the code lets through. */
  function AdmissionCount(calls: seq<Call>, key: string, lo: int, hi: int): nat {
    if calls == [] then 0
    else
      var n := |calls| - 1;
      AdmissionCount(calls[..n], key, lo, hi) +
      if calls[n].key == key && lo <= calls[n].at <= hi && Passes(calls, n) then 1 else 0
  }

  lemma {:induction false} LatestAdmissionIn(calls: seq<Call>, lag: nat, key: string, lo: int, hi: int)
    returns (i: nat)
    requires Lagging(calls, lag) && lag <= WINDOW
    requires AdmissionCount(calls, key, lo, hi) > 0
    ensures i < |calls| && calls[i].key == key && Passes(calls, i) && lo <= calls[i].at <= hi
    ensures Times(AdmissionCount(calls, key, lo, hi) - 1, 301 - lag) <= calls[i].at - lo
  {
    var n := |calls| - 1;
    var before := AdmissionCount(calls[..n], key, lo, hi);
    if before > 0 {
      i := LatestAdmissionIn(calls[..n], lag, key, lo, hi);
      PassesInPrefix(calls, n, i);
      if AdmissionCount(calls, key, lo, hi) > before {
        AdmissionsAreSpaced(calls, lag, i, n);
        TimesStep(before - 1, 301 - lag);
        i := n;
      }
    } else {
      i := n;
    }
  }

  function Times(n: nat, gap: nat): nat {
    if n == 0 then 0 else Times(n - 1, gap) + gap
  }

  lemma TimesStep(n: nat, gap: nat)
    ensures Times(n + 1, gap) == Times(n, gap) + gap
  {
  }

  lemma {:induction false} TimesIsProduct(n: nat, gap: nat)
    ensures Times(n, gap) == n * gap
  {
    if n > 0 {
      TimesIsProduct(n - 1, gap);
    }
  }

  /** One key passes at most floor(length / (301 - lag)) + 1 times in a closed interval. */
  lemma AdmissionRate(calls: seq<Call>, lag: nat, key: string, lo: int, length: nat)
    requires Lagging(calls, lag) && lag <= WINDOW
    ensures var count := AdmissionCount(calls, key, lo, lo + length);
            && (count == 0 || (count - 1) * (301 - lag) <= length)
            && (lag == 0 ==> count <= length / 301 + 1)
  {
    if AdmissionCount(calls, key, lo, lo + length) > 0 {
      var i := LatestAdmissionIn(calls, lag, key, lo, lo + length);
      TimesIsProduct(AdmissionCount(calls, key, lo, lo + length) - 1, 301 - lag);
    }
  }
}
