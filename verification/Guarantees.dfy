/** What the invariants mean for every run: order, conservation, the store, and the value of Submit. */
module Guarantees {
  import opened Models
  import opened Wrappers
  import opened Dedupe
  import opened BulkInserts
  import opened Batching
  import opened Protocol
  import opened ProtocolInvariants
  import Ingestion

  // ---------- Order and conservation ----------

  /** For every number of workers and every interleaving: the channel is first in, first out, the
      enqueue order is a shuffle of the workers' receipts followed by the queue, and each worker's
      receipts are its flushed batches, in order, followed by the batch it holds. */
  lemma NothingLostOrReordered(cfg: Config, steps: seq<Step>)
    ensures var s := Run(cfg, steps);
            && |s.log.taken| == |s.log.takenBy| && |s.log.flushed| == |s.log.flushedBy|
            && s.log.enqueued == s.log.taken + s.queue
            && |s.queue| <= cfg.capacity
            && (forall k | 0 <= k < |s.log.takenBy| :: s.log.takenBy[k] < cfg.workers)
            && (forall w | 0 <= w < |s.workers| ::
                  By(s.log.taken, s.log.takenBy, w) ==
                  Batches(By(s.log.flushed, s.log.flushedBy, w)) + Held(s.workers[w]))
  {
    RunInv(cfg, steps);
    TakersAreWorkers(cfg, steps);
    var s := Run(cfg, steps);
    forall w | 0 <= w < |s.workers|
      ensures By(s.log.taken, s.log.takenBy, w) ==
              Batches(By(s.log.flushed, s.log.flushedBy, w)) + Held(s.workers[w])
    {
      assert WorkerInOrder(s, w);
    }
  }

  lemma {:induction false} TakersAreWorkers(cfg: Config, steps: seq<Step>)
    ensures var s := Run(cfg, steps);
            forall k | 0 <= k < |s.log.takenBy| :: s.log.takenBy[k] < cfg.workers
  {
    if steps != [] {
      var before := steps[..|steps| - 1];
      TakersAreWorkers(cfg, before);
      RunInv(cfg, before);
      TakerIsWorker(cfg, Run(cfg, before), steps[|steps| - 1]);
    }
  }

  lemma TakerIsWorker(cfg: Config, s: State, st: Step)
    requires |s.workers| == cfg.workers
    requires forall k | 0 <= k < |s.log.takenBy| :: s.log.takenBy[k] < cfg.workers
    ensures var s' := Next(cfg, s, st);
            forall k | 0 <= k < |s'.log.takenBy| :: s'.log.takenBy[k] < cfg.workers
  {
    if Enabled(cfg, s, st) && !OfWorker(st) {
      WorkerFrame(cfg, s, st);
    }
  }

  /** Every batch in a bulk insert, past or present, has between one event and a full batch; a batch
      in the select is never full. */
  lemma BatchSizes(cfg: Config, steps: seq<Step>)
    ensures var s := Run(cfg, steps);
            && (forall k | 0 <= k < |s.log.flushed| :: 1 <= |s.log.flushed[k].batch| <= Limit(cfg.batchSize))
            && (forall w | 0 <= w < |s.workers| :: WorkerSized(cfg, s.workers[w]))
  {
    RunInv(cfg, steps);
  }

  function Uncredited(flushed: seq<Flush>): int {
    if flushed == [] then 0
    else
      var last := flushed[|flushed| - 1];
      Uncredited(flushed[..|flushed| - 1]) + |last.batch| - Credited(last.outcome, |last.batch|)
  }

  lemma {:induction false} CreditSplitsBatches(flushed: seq<Flush>)
    ensures |Batches(flushed)| == TotalCredit(flushed) + Uncredited(flushed)
  {
    if flushed != [] {
      CreditSplitsBatches(flushed[..|flushed| - 1]);
    }
  }

  /** Every Submit and every enqueued event is in exactly one place at every moment. */
  lemma Conservation(cfg: Config, steps: seq<Step>)
    ensures var s := Run(cfg, steps);
            && s.log.submits == s.rejected + s.log.duplicates + s.dropped + |s.log.enqueued| + Busy(s.submitters)
            && multiset(s.log.enqueued) == multiset(s.queue) + Waiters(s.workers) + InFlight(s.workers)
                                           + multiset(Batches(s.log.flushed))
            && |s.log.enqueued| == |s.queue| + |Waiters(s.workers)| + |InFlight(s.workers)|
                                   + |Batches(s.log.flushed)|
            && |Batches(s.log.flushed)| == s.accepted + Uncredited(s.log.flushed)
  {
    RunInv(cfg, steps);
    var s := Run(cfg, steps);
    CreditSplitsBatches(s.log.flushed);
    TakenBag(s);
    assert |multiset(s.log.enqueued)| == |multiset(s.queue)| + |Waiters(s.workers)| + |InFlight(s.workers)|
                                         + |multiset(Batches(s.log.flushed))|;
  }

  lemma TakenBag(s: State)
    requires Conserved(s)
    ensures multiset(s.log.taken) == Waiters(s.workers) + InFlight(s.workers) + multiset(Batches(s.log.flushed))
  {
    var parts := Waiters(s.workers) + InFlight(s.workers) + multiset(Batches(s.log.flushed));
    forall e ensures multiset(s.log.taken)[e] == parts[e] {
      assert EventConserved(s, e);
    }
  }

  // ---------- End to end to the store ----------

  ghost predicate AllExact(flushed: seq<Flush>) {
    forall k | 0 <= k < |flushed| :: Exact(flushed[k].outcome, |flushed[k].batch|)
  }

  lemma {:induction false} StoreIsSubBag(flushed: seq<Flush>)
    ensures multiset(AllStored(flushed)) <= multiset(Batches(flushed))
  {
    if flushed != [] {
      var n := |flushed| - 1;
      StoreIsSubBag(flushed[..n]);
      StoredIsSubBag(flushed[n].batch, flushed[n].outcome);
    }
  }

  lemma AllExactStep(flushed: seq<Flush>, f: Flush)
    ensures AllExact(flushed + [f]) <==> AllExact(flushed) && Exact(f.outcome, |f.batch|)
  {
    var longer := flushed + [f];
    assert longer[|flushed|] == f;
    assert forall k | 0 <= k < |flushed| :: longer[k] == flushed[k];
  }

  lemma {:induction false} CreditVersusStore(flushed: seq<Flush>)
    ensures TotalCredit(flushed) <= |AllStored(flushed)|
    ensures TotalCredit(flushed) == |AllStored(flushed)| <==> AllExact(flushed)
  {
    if flushed != [] {
      var n := |flushed| - 1;
      CreditVersusStore(flushed[..n]);
      CreditVersusStored(flushed[n].batch, flushed[n].outcome);
      assert flushed == flushed[..n] + [flushed[n]];
      AllExactStep(flushed[..n], flushed[n]);
    }
  }

  /** The collection holds only enqueued events, valid and stamped, none more often than it was
      enqueued; `accepted` never exceeds it, and equals it exactly when every flush was exact. */
  lemma EndToEnd(cfg: Config, steps: seq<Step>)
    ensures var s := Run(cfg, steps);
            && multiset(s.store) <= multiset(s.log.enqueued)
            && (forall e | e in s.store :: Admissible(e))
            && s.accepted <= |s.store|
            && (s.accepted == |s.store| <==> AllExact(s.log.flushed))
  {
    RunInv(cfg, steps);
    Conservation(cfg, steps);
    var s := Run(cfg, steps);
    StoreIsSubBag(s.log.flushed);
    CreditVersusStore(s.log.flushed);
    forall e | e in s.store ensures Admissible(e) {
      assert e in multiset(s.store);
      assert e in multiset(s.log.enqueued);
      assert e in s.log.enqueued;
    }
  }

  // ---------- The dedupe cache over runs ----------

  /** In every state the map holds exactly the admissions the latest sweep has not aged out. */
  lemma CacheOverRuns(cfg: Config, steps: seq<Step>)
    requires cfg.lag <= WINDOW
    ensures var s := Run(cfg, steps);
            && s.cache.sweptAt == SweepTime(s.log.calls)
            && forall key :: Tracks(s.cache, s.log.calls, key)
  {
    RunInv(cfg, steps);
    CacheIsRememberedHistory(Run(cfg, steps).log.calls, cfg.lag);
  }

  /** Two admissions of one key, by any submitters, are more than 300 - lag seconds apart. */
  lemma SpacingOverRuns(cfg: Config, steps: seq<Step>, i: nat, j: nat)
    requires cfg.lag <= WINDOW && i < j < |Run(cfg, steps).log.admissions|
    requires var a := Run(cfg, steps).log.admissions;
             a[i].event.idempotencyKey == a[j].event.idempotencyKey
    ensures var a := Run(cfg, steps).log.admissions;
            a[j].at - a[i].at > 300 - cfg.lag
  {
    RunInv(cfg, steps);
    var s := Run(cfg, steps);
    var calls, passed := s.log.calls, PassedCalls(s.log.calls);
    assert passed == CallsOf(s.log.admissions);
    assert passed[i] == CallOf(s.log.admissions[i]) && passed[j] == CallOf(s.log.admissions[j]);
    var p, q := PlacesOf(calls, i, j);
    AdmissionsAreSpaced(calls, cfg.lag, p, q);
  }

  /** Where two entries of the list of passed calls stand in the history. */
  lemma {:induction false} PlacesOf(calls: seq<Call>, i: nat, j: nat) returns (p: nat, q: nat)
    requires i < j < |PassedCalls(calls)|
    ensures p < q < |calls| && Passes(calls, p) && Passes(calls, q)
    ensures calls[p] == PassedCalls(calls)[i] && calls[q] == PassedCalls(calls)[j]
  {
    var n := |calls| - 1;
    if j < |PassedCalls(calls[..n])| {
      p, q := PlacesOf(calls[..n], i, j);
      assert calls[..n][..p] == calls[..p] && calls[..n][..q] == calls[..q];
    } else {
      p := PlaceOf(calls[..n], i);
      q := n;
      assert calls[..n][..p] == calls[..p];
    }
  }

  lemma {:induction false} PlaceOf(calls: seq<Call>, i: nat) returns (p: nat)
    requires i < |PassedCalls(calls)|
    ensures p < |calls| && Passes(calls, p) && calls[p] == PassedCalls(calls)[i]
  {
    var n := |calls| - 1;
    if i < |PassedCalls(calls[..n])| {
      p := PlaceOf(calls[..n], i);
      assert calls[..n][..p] == calls[..p];
    } else {
      p := n;
    }
  }

  /** How often the pipeline admits one key within a closed interval of clock readings. */
  lemma RateOverRuns(cfg: Config, steps: seq<Step>, key: string, lo: int, length: nat)
    requires cfg.lag <= WINDOW
    ensures var count := AdmissionCount(Run(cfg, steps).log.calls, key, lo, lo + length);
            && (count == 0 || (count - 1) * (301 - cfg.lag) <= length)
            && (cfg.lag == 0 ==> count <= length / 301 + 1)
  {
    RunInv(cfg, steps);
    AdmissionRate(Run(cfg, steps).log.calls, cfg.lag, key, lo, length);
  }

  // ---------- What a returned true means ----------

  /** The value Submit returns in this step, if it returns, and the event it was called with. */
  function Returns(cfg: Config, s: State, st: Step): Option<(Event, bool)> {
    if !Enabled(cfg, s, st) then None
    else match st
      case Begin(i, ev) => if Validate(ev, s.now).Invalid? then Some((ev, false)) else None
      case Lock(i) =>
        var Waiting(e, at) := s.submitters[i];
        if Check(s.cache, Call(e.idempotencyKey, at)).1 then None else Some((e, true))
      case Send(i) => Some((s.submitters[i].event, |s.queue| < cfg.capacity))
      case HandOff(i, w) => Some((s.submitters[i].event, true))
      case _ => None
  }

  /** How many Submits were kept, as enqueued or duplicate, and how many were lost between two states. */
  function Kept(s: State, s': State): int {
    (|s'.log.enqueued| + s'.log.duplicates) - (|s.log.enqueued| + s.log.duplicates)
  }

  function Lost(s: State, s': State): int {
    (s'.rejected + s'.dropped) - (s.rejected + s.dropped)
  }

  /** The value tells what became of the call: true, its event was enqueued or is a duplicate; false, it
      was rejected or dropped. Exactly the steps that end a Submit in one of these ways return. */
  lemma ReturnTells(cfg: Config, s: State, st: Step)
    ensures var s' := Next(cfg, s, st);
            match Returns(cfg, s, st)
            case None => Kept(s, s') == 0 && Lost(s, s') == 0
            case Some((_, accepted)) =>
              if accepted then Kept(s, s') == 1 && Lost(s, s') == 0 else Kept(s, s') == 0 && Lost(s, s') == 1
  {
    if Enabled(cfg, s, st) {
      match st {
        case Begin(i, ev) =>
        case ReadClock(i) =>
        case Lock(i) => LockTells(s, i);
        case Send(i) => SendTells(cfg, s, i);
        case HandOff(i, w) => SendTells(cfg, s, i);
        case _ => SubmitterFrame(cfg, s, st);
      }
    }
  }

  lemma LockTells(s: State, i: nat)
    requires i < |s.submitters| && s.submitters[i].Waiting?
    ensures var Waiting(e, at) := s.submitters[i];
            var s' := AfterLock(s, i);
            Lost(s, s') == 0 && Kept(s, s') == if Check(s.cache, Call(e.idempotencyKey, at)).1 then 0 else 1
  {
  }

  lemma SendTells(cfg: Config, s: State, i: nat)
    requires i < |s.submitters| && s.submitters[i].Sending?
    ensures Kept(s, AfterEnqueue(s, i)) == 1 && Lost(s, AfterEnqueue(s, i)) == 0
    ensures var s' := AfterSend(cfg, s, i);
            if |s.queue| < cfg.capacity then Kept(s, s') == 1 && Lost(s, s') == 0
            else Kept(s, s') == 0 && Lost(s, s') == 1
  {
  }

  /** Admission k: its event was enqueued, counted as dropped, or is about to be sent by a submitter. */
  ghost predicate Accounts(s: State, k: nat)
    requires k < |s.log.admissions|
  {
    var a := s.log.admissions[k];
    match a.fate
    case Enqueued(p) => a.event in s.log.enqueued
    case Dropped(p) => a.event in s.log.drops && s.dropped > 0
    case Pending => exists i | 0 <= i < |s.submitters| :: s.submitters[i] == Sending(a.event, Some(k))
  }

  lemma {:induction false} PassedCallIsLogged(calls: seq<Call>, j: nat) returns (k: nat)
    requires j < |calls| && Passes(calls, j)
    ensures k < |PassedCalls(calls)| && PassedCalls(calls)[k] == calls[j]
  {
    var n := |calls| - 1;
    if j < n {
      assert calls[..n][..j] == calls[..j];
      k := PassedCallIsLogged(calls[..n], j);
    } else {
      k := |PassedCalls(calls)| - 1;
    }
  }

  lemma FateIsAccounted(s: State, k: nat)
    requires Settled(s) && Conserved(s) && k < |s.log.admissions|
    ensures Accounts(s, k)
  {
    assert FateHolds(s, k);
  }

  /** The admission that makes a duplicate of the call submitter i is about to make. */
  lemma DuplicateHasAdmission(cfg: Config, s: State, i: nat) returns (k: nat)
    requires Inv(cfg, s) && cfg.lag <= WINDOW && Enabled(cfg, s, Lock(i))
    requires !Check(s.cache, Call(s.submitters[i].event.idempotencyKey, s.submitters[i].at)).1
    ensures k < |s.log.admissions|
    ensures s.log.admissions[k].event.idempotencyKey == s.submitters[i].event.idempotencyKey
    ensures s.submitters[i].at - s.log.admissions[k].at <= 360
  {
    var Waiting(e, at) := s.submitters[i];
    assert Clocked(s, s.submitters[i]);
    var call := Call(e.idempotencyKey, at);
    var calls := s.log.calls + [call];
    LaggingStep(s.log.calls, call, cfg.lag, UnixSeconds(s.now));
    assert calls[..|s.log.calls|] == s.log.calls;
    var j := SuppressionIsRecent(calls, cfg.lag, |s.log.calls|);
    assert calls[..j] == s.log.calls[..j];
    k := PassedCallIsLogged(s.log.calls, j);
    assert CallsOf(s.log.admissions)[k] == CallOf(s.log.admissions[k]);
  }

  /** A submitter whose send succeeds has its own admission, now settled as enqueued. */
  lemma SenderHasAdmission(cfg: Config, s: State, st: Step) returns (k: nat)
    requires Inv(cfg, s) && Inv(cfg, Next(cfg, s, st)) && !st.Lock?
    requires Returns(cfg, s, st).Some? && Returns(cfg, s, st).value.1
    requires Returns(cfg, s, st).value.0.idempotencyKey != ""
    ensures k < |Next(cfg, s, st).log.admissions|
    ensures s.submitters[st.i].slot == Some(k)
    ensures var a := Next(cfg, s, st).log.admissions[k];
            a.fate.Enqueued? && a.event == s.submitters[st.i].event
  {
    assert Clocked(s, s.submitters[st.i]);
    assert SlotHolds(s, st.i);
    k := s.submitters[st.i].slot.value;
  }

  /** Whenever Submit returns true for a keyed event, its key was admitted at most 360 s ago,
      possibly now, and the admitted event is accounted for. */
  lemma TrueMeansAdmitted(cfg: Config, steps: seq<Step>, st: Step) returns (k: nat)
    requires cfg.lag <= WINDOW
    requires Returns(cfg, Run(cfg, steps), st).Some?
    requires Returns(cfg, Run(cfg, steps), st).value.1
    requires Returns(cfg, Run(cfg, steps), st).value.0.idempotencyKey != ""
    ensures var s := Run(cfg, steps);
            var s' := Next(cfg, s, st);
            && k < |s'.log.admissions|
            && s'.log.admissions[k].event.idempotencyKey == Returns(cfg, s, st).value.0.idempotencyKey
            && Accounts(s', k)
            && (st.Lock? ==> s.submitters[st.i].at - s'.log.admissions[k].at <= 360)
            && (!st.Lock? ==> s.submitters[st.i].slot == Some(k) && s'.log.admissions[k].fate.Enqueued?)
  {
    RunInv(cfg, steps);
    var s := Run(cfg, steps);
    KeepsInv(cfg, s, st);
    if st.Lock? {
      k := DuplicateHasAdmission(cfg, s, st.i);
      DuplicateKeepsLog(cfg, s, st.i);
    } else {
      k := SenderHasAdmission(cfg, s, st);
    }
    FateIsAccounted(Next(cfg, s, st), k);
  }

  lemma DuplicateKeepsLog(cfg: Config, s: State, i: nat)
    requires Enabled(cfg, s, Lock(i)) && Returns(cfg, s, Lock(i)).Some?
    ensures Next(cfg, s, Lock(i)).log.admissions == s.log.admissions
  {
    LockShape(s, i);
  }

  // ---------- When a returned true is at least once ----------

  predicate EverEnqueued(s: State, key: string) {
    exists p | 0 <= p < |s.log.enqueued| :: s.log.enqueued[p].idempotencyKey == key
  }

  predicate HasKey(a: Admission, key: string) {
    a.event.idempotencyKey == key
  }

  /** An event with this key ever entered the channel exactly if some admission of the key did: never,
      exactly if every admission of it was dropped or is still to be sent. */
  lemma EnqueuedKeys(cfg: Config, steps: seq<Step>, key: string)
    requires key != ""
    ensures var s := Run(cfg, steps);
            EverEnqueued(s, key) <==>
            exists k | 0 <= k < |s.log.admissions| ::
              HasKey(s.log.admissions[k], key) && s.log.admissions[k].fate.Enqueued?
  {
    RunInv(cfg, steps);
    var s := Run(cfg, steps);
    if EverEnqueued(s, key) {
      var p :| 0 <= p < |s.log.enqueued| && s.log.enqueued[p].idempotencyKey == key;
      assert HasSource(s, p);
      var k :| 0 <= k < |s.log.admissions| && SourceOf(s.log.admissions[k], p, s.log.enqueued[p]);
      assert HasKey(s.log.admissions[k], key);
    }
    forall k | 0 <= k < |s.log.admissions| && HasKey(s.log.admissions[k], key) && s.log.admissions[k].fate.Enqueued?
      ensures EverEnqueued(s, key)
    {
      AdmissionIsEnqueued(s, k);
    }
  }

  lemma AdmissionIsEnqueued(s: State, k: nat)
    requires Settled(s) && k < |s.log.admissions| && s.log.admissions[k].fate.Enqueued?
    ensures EverEnqueued(s, s.log.admissions[k].event.idempotencyKey)
  {
    assert FateHolds(s, k);
    assert s.log.enqueued[s.log.admissions[k].fate.position].idempotencyKey ==
           s.log.admissions[k].event.idempotencyKey;
  }

  /** True for a keyed event means at least once, unless the event is a duplicate and an admission of
      its key in the 360 s before the call was dropped or is still to be sent. */
  lemma TrueMeansEnqueued(cfg: Config, steps: seq<Step>, st: Step)
    requires cfg.lag <= WINDOW
    requires Returns(cfg, Run(cfg, steps), st).Some?
    requires Returns(cfg, Run(cfg, steps), st).value.1
    requires Returns(cfg, Run(cfg, steps), st).value.0.idempotencyKey != ""
    requires var s, key := Run(cfg, steps), Returns(cfg, Run(cfg, steps), st).value.0.idempotencyKey;
             st.Lock? ==>
               forall k | 0 <= k < |s.log.admissions| && HasKey(s.log.admissions[k], key)
                          && s.submitters[st.i].at - s.log.admissions[k].at <= 360 ::
                 s.log.admissions[k].fate.Enqueued?
    ensures EverEnqueued(Next(cfg, Run(cfg, steps), st), Returns(cfg, Run(cfg, steps), st).value.0.idempotencyKey)
  {
    RunInv(cfg, steps);
    var s := Run(cfg, steps);
    KeepsInv(cfg, s, st);
    var k := TrueMeansAdmitted(cfg, steps, st);
    if st.Lock? {
      DuplicateKeepsLog(cfg, s, st.i);
      assert HasKey(s.log.admissions[k], Returns(cfg, s, st).value.0.idempotencyKey);
    }
    AdmissionIsEnqueued(Next(cfg, s, st), k);
  }

  // ---------- An uninterrupted Submit ----------

  function FrontOf(s: State): Ingestion.Front {
    Ingestion.Front(s.queue, s.cache, s.rejected, s.dropped)
  }

  function Sequential(cfg: Config, s: State, ev: Event): (Ingestion.Front, bool) {
    Ingestion.SubmitOne(FrontOf(s), cfg.capacity, ev, Ingestion.Reading(s.now, UnixSeconds(s.now)))
  }

  function Answer(cfg: Config, s: State, st: Step): seq<bool> {
    match Returns(cfg, s, st)
    case None => []
    case Some((_, accepted)) => [accepted]
  }

  /** The values that Submit returns in the course of these steps. */
  function Answers(cfg: Config, s: State, steps: seq<Step>): seq<bool>
    decreases |steps|
  {
    if steps == [] then [] else Answer(cfg, s, steps[0]) + Answers(cfg, Next(cfg, s, steps[0]), steps[1..])
  }

  /** Run without interference, the steps of one Submit do what the sequential Submit does, and return
      what it returns, once. */
  lemma UninterruptedSubmit(cfg: Config, s: State, i: nat, ev: Event)
    requires i < |s.submitters| && s.submitters[i].Idle? && !s.closed
    ensures var steps := [Begin(i, ev), ReadClock(i), Lock(i), Send(i)];
            var s' := RunFrom(cfg, s, steps);
            var (front, accepted) := Sequential(cfg, s, ev);
            && FrontOf(s') == front && s'.submitters == s.submitters
            && Answers(cfg, s, steps) == [accepted]
  {
    FourSteps(cfg, s, Begin(i, ev), ReadClock(i), Lock(i), Send(i));
    FourAnswers(cfg, s, Begin(i, ev), ReadClock(i), Lock(i), Send(i));
    BeginOnly(cfg, s, i, ev);
    var s1 := Next(cfg, s, Begin(i, ev));
    match s1.submitters[i] {
      case Idle => IdleStutters(cfg, s1, i);
      case Validated(e) => KeyedSubmit(cfg, s1, i);
      case Sending(e, _) => UnkeyedSubmit(cfg, s1, i);
    }
  }

  lemma BeginOnly(cfg: Config, s: State, i: nat, ev: Event)
    requires Enabled(cfg, s, Begin(i, ev))
    ensures var s1 := Next(cfg, s, Begin(i, ev));
            && s1.now == s.now && s1.submitters == s.submitters[i := s1.submitters[i]]
            && match Validate(ev, s.now)
               case Invalid(_) =>
                 && s1.submitters[i] == Idle && Answer(cfg, s, Begin(i, ev)) == [false]
                 && FrontOf(s1) == FrontOf(s).(rejected := s.rejected + 1)
               case Ok(e) =>
                 && s1.submitters[i] == (if e.idempotencyKey == "" then Sending(e, None) else Validated(e))
                 && Answer(cfg, s, Begin(i, ev)) == [] && FrontOf(s1) == FrontOf(s)
  {
  }

  function Rest(cfg: Config, s: State, i: nat): State {
    Next(cfg, Next(cfg, Next(cfg, s, ReadClock(i)), Lock(i)), Send(i))
  }

  function RestAnswers(cfg: Config, s: State, i: nat): seq<bool> {
    var s2 := Next(cfg, s, ReadClock(i));
    var s3 := Next(cfg, s2, Lock(i));
    Answer(cfg, s, ReadClock(i)) + (Answer(cfg, s2, Lock(i)) + Answer(cfg, s3, Send(i)))
  }

  lemma IdleStutters(cfg: Config, s: State, i: nat)
    requires i < |s.submitters| && s.submitters[i].Idle?
    ensures Rest(cfg, s, i) == s && RestAnswers(cfg, s, i) == []
  {
  }

  /** What a non-blocking send leaves and returns. */
  function Sent(cfg: Config, f: Ingestion.Front, e: Event): (Ingestion.Front, bool) {
    if |f.queue| < cfg.capacity then (f.(queue := f.queue + [e]), true)
    else (f.(dropped := f.dropped + 1), false)
  }

  lemma UnkeyedSubmit(cfg: Config, s: State, i: nat)
    requires i < |s.submitters| && s.submitters[i].Sending?
    ensures var (f, accepted) := Sent(cfg, FrontOf(s), s.submitters[i].event);
            && Rest(cfg, s, i).submitters == s.submitters[i := Idle]
            && FrontOf(Rest(cfg, s, i)) == f && RestAnswers(cfg, s, i) == [accepted]
  {
    SendOnly(cfg, s, i);
    assert Next(cfg, s, ReadClock(i)) == s && Next(cfg, s, Lock(i)) == s;
    assert Answer(cfg, s, ReadClock(i)) == [] && Answer(cfg, s, Lock(i)) == [];
  }

  lemma KeyedSubmit(cfg: Config, s: State, i: nat)
    requires i < |s.submitters| && s.submitters[i].Validated?
    ensures var e := s.submitters[i].event;
            var (cache, pass) := Check(s.cache, Call(e.idempotencyKey, UnixSeconds(s.now)));
            var checked := FrontOf(s).(cache := cache);
            var (f, accepted) := if pass then Sent(cfg, checked, e) else (checked, true);
            && Rest(cfg, s, i).submitters == s.submitters[i := Idle]
            && FrontOf(Rest(cfg, s, i)) == f && RestAnswers(cfg, s, i) == [accepted]
  {
    var s2 := s.(submitters := s.submitters[i := Waiting(s.submitters[i].event, UnixSeconds(s.now))]);
    assert Next(cfg, s, ReadClock(i)) == s2 && Answer(cfg, s, ReadClock(i)) == [];
    assert Next(cfg, s2, Lock(i)) == AfterLock(s2, i);
    LockAndSend(cfg, s2, i);
  }

  lemma SendOnly(cfg: Config, s: State, i: nat)
    requires i < |s.submitters| && s.submitters[i].Sending?
    ensures var s' := Next(cfg, s, Send(i));
            var (f, accepted) := Sent(cfg, FrontOf(s), s.submitters[i].event);
            && s'.submitters == s.submitters[i := Idle]
            && FrontOf(s') == f && Answer(cfg, s, Send(i)) == [accepted]
  {
  }

  lemma LockAndSend(cfg: Config, s: State, i: nat)
    requires Enabled(cfg, s, Lock(i))
    ensures var Waiting(e, at) := s.submitters[i];
            var (cache, pass) := Check(s.cache, Call(e.idempotencyKey, at));
            var checked := FrontOf(s).(cache := cache);
            var (f, accepted) := if pass then Sent(cfg, checked, e) else (checked, true);
            var s1 := AfterLock(s, i);
            var s' := Next(cfg, s1, Send(i));
            && s'.submitters == s.submitters[i := Idle] && FrontOf(s') == f
            && Answer(cfg, s, Lock(i)) + Answer(cfg, s1, Send(i)) == [accepted]
  {
    var s1 := AfterLock(s, i);
    LockOnly(cfg, s, i);
    if s1.submitters[i].Sending? {
      SendOnly(cfg, s1, i);
    }
  }

  lemma LockOnly(cfg: Config, s: State, i: nat)
    requires Enabled(cfg, s, Lock(i))
    ensures var Waiting(e, at) := s.submitters[i];
            var (cache, pass) := Check(s.cache, Call(e.idempotencyKey, at));
            var s1 := AfterLock(s, i);
            && s1.submitters == s.submitters[i := s1.submitters[i]]
            && s1.submitters[i] == (if pass then Sending(e, Some(|s.log.admissions|)) else Idle)
            && FrontOf(s1) == FrontOf(s).(cache := cache)
            && Answer(cfg, s, Lock(i)) == if pass then [] else [true]
  {
  }

  lemma FourAnswers(cfg: Config, s: State, a: Step, b: Step, c: Step, d: Step)
    ensures var s1 := Next(cfg, s, a);
            var s2 := Next(cfg, s1, b);
            var s3 := Next(cfg, s2, c);
            Answers(cfg, s, [a, b, c, d]) ==
            Answer(cfg, s, a) + (Answer(cfg, s1, b) + (Answer(cfg, s2, c) + Answer(cfg, s3, d)))
  {
    var s1 := Next(cfg, s, a);
    var s2 := Next(cfg, s1, b);
    FirstAnswer(cfg, s, a, [b, c, d]);
    FirstAnswer(cfg, s1, b, [c, d]);
    LastAnswers(cfg, s2, c, d);
    assert [a] + [b, c, d] == [a, b, c, d] && [b] + [c, d] == [b, c, d];
  }

  lemma LastAnswers(cfg: Config, s: State, c: Step, d: Step)
    ensures Answers(cfg, s, [c, d]) == Answer(cfg, s, c) + Answer(cfg, Next(cfg, s, c), d)
  {
    FirstAnswer(cfg, s, c, [d]);
    FirstAnswer(cfg, Next(cfg, s, c), d, []);
    assert [c] + [d] == [c, d] && [d] + [] == [d];
  }

  lemma FirstAnswer(cfg: Config, s: State, st: Step, rest: seq<Step>)
    ensures Answers(cfg, s, [st] + rest) == Answer(cfg, s, st) + Answers(cfg, Next(cfg, s, st), rest)
  {
    assert ([st] + rest)[1..] == rest;
  }

  lemma FourSteps(cfg: Config, s: State, a: Step, b: Step, c: Step, d: Step)
    ensures RunFrom(cfg, s, [a, b, c, d]) == Next(cfg, Next(cfg, Next(cfg, Next(cfg, s, a), b), c), d)
  {
    assert [a, b, c, d][..3] == [a, b, c] && [a, b, c][..2] == [a, b] && [a, b][..1] == [a];
    assert RunFrom(cfg, s, []) == s;
    assert [a][..0] == [];
    assert RunFrom(cfg, s, [a]) == Next(cfg, s, a);
    assert RunFrom(cfg, s, [a, b]) == Next(cfg, Next(cfg, s, a), b);
    assert RunFrom(cfg, s, [a, b, c]) == Next(cfg, Next(cfg, Next(cfg, s, a), b), c);
  }
}
