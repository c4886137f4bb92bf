/** Draining and stopping the pipeline, in both orders of cancel and close. */
module Shutdown {
  import opened Models
  import opened Wrappers
  import opened Dedupe
  import opened BulkInserts
  import opened Batching
  import opened Protocol
  import opened ProtocolInvariants
  import opened Guarantees

  // ---------- Termination ----------

  /** What a worker still has to do: flush its batch and leave. */
  function Load(ws: WorkerState): nat {
    match ws
    case Selecting(batch) => 2 * |batch| + 2
    case Inserting(batch, _) => 2 * |batch| + 1
    case Exited => 0
  }

  function TotalLoad(workers: seq<WorkerState>): nat {
    if workers == [] then 0
    else TotalLoad(workers[..|workers| - 1]) + Load(workers[|workers| - 1])
  }

  function Measure(s: State): nat {
    3 * |s.queue| + TotalLoad(s.workers)
  }

  /** A step in which a worker does something; a tick with an empty batch does nothing. */
  predicate Works(cfg: Config, s: State, st: Step) {
    && Enabled(cfg, s, st)
    && match st
       case Take(_) => true
       case SeeClosed(_) => true
       case SeeDone(_) => true
       case Finish(_, _) => true
       case Interval(w) => s.workers[w].batch != []
       case _ => false
  }

  lemma {:induction false} LoadUpdate(workers: seq<WorkerState>, w: nat, ws: WorkerState)
    requires w < |workers|
    ensures TotalLoad(workers[w := ws]) + Load(workers[w]) == TotalLoad(workers) + Load(ws)
  {
    var n := |workers| - 1;
    if w < n {
      assert workers[w := ws][..n] == workers[..n][w := ws];
      LoadUpdate(workers[..n], w, ws);
    } else {
      assert workers[w := ws][..n] == workers[..n];
    }
  }

  /** Once the channel is closed, no step adds work and every working step removes some. */
  lemma ClosedStep(cfg: Config, s: State, st: Step)
    requires Inv(cfg, s) && s.closed
    ensures var s' := Next(cfg, s, st);
            && s'.closed
            && Measure(s') + (if Works(cfg, s, st) then 1 else 0) <= Measure(s)
            && s'.log.enqueued == s.log.enqueued && |s'.queue| <= |s.queue|
  {
    if !Enabled(cfg, s, st) || OfSubmitter(st) {
    } else if OfWorker(st) {
      assert WorkerSized(cfg, s.workers[st.w]);
      LoadUpdate(s.workers, st.w, Apply(cfg, s, st).workers[st.w]);
      WorkerMoves(cfg, s, st);
    } else {
      ControlStep(cfg, s, st);
    }
  }

  lemma ControlStep(cfg: Config, s: State, st: Step)
    requires Enabled(cfg, s, st) && !OfWorker(st) && !OfSubmitter(st) && s.closed
    ensures var s' := Apply(cfg, s, st);
            && s'.queue == s.queue && s'.workers == s.workers && s'.closed
            && s'.log.enqueued == s.log.enqueued
  {
  }

  lemma WorkerMoves(cfg: Config, s: State, st: Step)
    requires Enabled(cfg, s, st) && OfWorker(st) && !st.HandOff?
    requires WorkerSized(cfg, s.workers[st.w])
    ensures var s' := Apply(cfg, s, st);
            && s'.workers == s.workers[st.w := s'.workers[st.w]]
            && s'.closed == s.closed && s'.log.enqueued == s.log.enqueued && |s'.queue| <= |s.queue|
            && 3 * |s'.queue| + Load(s'.workers[st.w]) + (if Works(cfg, s, st) then 1 else 0)
               <= 3 * |s.queue| + Load(s.workers[st.w])
  {
  }

  function WorkingSteps(cfg: Config, s: State, steps: seq<Step>): nat {
    if steps == [] then 0
    else
      var n := |steps| - 1;
      WorkingSteps(cfg, s, steps[..n]) + if Works(cfg, RunFrom(cfg, s, steps[..n]), steps[n]) then 1 else 0
  }

  /** A closed pipeline can take only so many working steps, whatever else happens meanwhile. */
  lemma {:induction false} DrainIsBounded(cfg: Config, s: State, steps: seq<Step>)
    requires Inv(cfg, s) && s.closed
    ensures var s' := RunFrom(cfg, s, steps);
            && Inv(cfg, s') && s'.closed
            && WorkingSteps(cfg, s, steps) + Measure(s') <= Measure(s)
            && s'.log.enqueued == s.log.enqueued && |s'.queue| <= |s.queue|
  {
    if steps != [] {
      var n := |steps| - 1;
      DrainIsBounded(cfg, s, steps[..n]);
      KeepsInv(cfg, RunFrom(cfg, s, steps[..n]), steps[n]);
      ClosedStep(cfg, RunFrom(cfg, s, steps[..n]), steps[n]);
    }
  }

  /** While a worker of a closed pipeline lives, one of its working steps is enabled, without cancelling. */
  lemma DrainNeverBlocks(cfg: Config, s: State) returns (st: Step)
    requires s.closed && !AllExited(s.workers)
    ensures Works(cfg, s, st) && !st.SeeDone?
  {
    var w: nat :| w < |s.workers| && !s.workers[w].Exited?;
    if s.workers[w].Inserting? {
      st := Finish(w, AllInserted);
    } else if s.queue != [] {
      st := Take(w);
    } else {
      st := SeeClosed(w);
    }
  }

  lemma OneMore(cfg: Config, s: State, st: Step, rest: seq<Step>)
    ensures RunFrom(cfg, s, [st] + rest) == RunFrom(cfg, Next(cfg, s, st), rest)
  {
    RunsCompose(cfg, s, [st], rest);
    assert [st][..0] == [] && RunFrom(cfg, s, []) == s;
  }

  /** So a closed pipeline can always finish, without cancelling, in at most Measure working steps. */
  lemma DrainCompletes(cfg: Config, s: State) returns (steps: seq<Step>)
    requires Inv(cfg, s) && s.closed
    ensures AllExited(RunFrom(cfg, s, steps).workers)
    ensures RunFrom(cfg, s, steps).cancelled == s.cancelled
    ensures |steps| <= Measure(s)
    decreases Measure(s)
  {
    if AllExited(s.workers) {
      steps := [];
    } else {
      var st := DrainNeverBlocks(cfg, s);
      ClosedStep(cfg, s, st);
      KeepsInv(cfg, s, st);
      WorkKeepsContext(cfg, s, st);
      var rest := DrainCompletes(cfg, Next(cfg, s, st));
      OneMore(cfg, s, st, rest);
      steps := [st] + rest;
    }
  }

  lemma WorkKeepsContext(cfg: Config, s: State, st: Step)
    requires Works(cfg, s, st)
    ensures Next(cfg, s, st).cancelled == s.cancelled
  {
  }

  // ---------- What is left when every worker has returned ----------

  /** In either order of shutdown: no batch is left behind, so what was taken from the channel was
      handed to BulkInsert exactly once and what was not is the tail of the enqueue order. */
  lemma ResidueIsQueue(cfg: Config, steps: seq<Step>)
    requires AllExited(Run(cfg, steps).workers)
    ensures var s := Run(cfg, steps);
            && s.log.enqueued == s.log.taken + s.queue && |s.queue| <= cfg.capacity
            && multiset(Batches(s.log.flushed)) == multiset(s.log.taken)
            && multiset(s.log.enqueued) == multiset(Batches(s.log.flushed)) + multiset(s.queue)
            && |s.log.taken| == |s.log.takenBy| && |s.log.flushed| == |s.log.flushedBy|
            && forall w | 0 <= w < cfg.workers ::
                 By(s.log.taken, s.log.takenBy, w) == Batches(By(s.log.flushed, s.log.flushedBy, w))
  {
    RunInv(cfg, steps);
    NothingLostOrReordered(cfg, steps);
    var s := Run(cfg, steps);
    TakenBag(s);
    NoneWaiting(s.workers);
    forall w | 0 <= w < cfg.workers
      ensures By(s.log.taken, s.log.takenBy, w) == Batches(By(s.log.flushed, s.log.flushedBy, w))
    {
      assert Held(s.workers[w]) == [];
    }
  }

  /** In a state whose workers have all returned without a cancellation nothing is left. */
  lemma DrainedState(cfg: Config, s: State)
    requires Inv(cfg, s) && cfg.workers > 0 && AllExited(s.workers) && !s.cancelled
    ensures s.closed && s.queue == [] && multiset(Batches(s.log.flushed)) == multiset(s.log.enqueued)
  {
    assert MayHaveLeft(s, s.workers[0]);
    TakenBag(s);
    NoneWaiting(s.workers);
    assert s.log.enqueued == s.log.taken;
  }

  /** With a live context, the last of at least one worker leaves only a drained pipeline. */
  lemma LiveDrainIsComplete(cfg: Config, steps: seq<Step>)
    requires cfg.workers > 0
    requires AllExited(Run(cfg, steps).workers) && !Run(cfg, steps).cancelled
    ensures var s := Run(cfg, steps);
            s.closed && s.queue == [] && multiset(Batches(s.log.flushed)) == multiset(s.log.enqueued)
  {
    RunInv(cfg, steps);
    DrainedState(cfg, Run(cfg, steps));
  }

  /** Every document of every flush was stored. */
  ghost predicate AllKept(flushed: seq<Flush>) {
    forall k | 0 <= k < |flushed| :: Kept(flushed[k])
  }

  predicate Kept(f: Flush) {
    |Stored(f.batch, f.outcome)| == |f.batch|
  }

  lemma AllKeptStep(flushed: seq<Flush>, f: Flush)
    ensures AllKept(flushed + [f]) <==> AllKept(flushed) && Kept(f)
  {
    var longer := flushed + [f];
    assert longer[|flushed|] == f;
    assert forall k | 0 <= k < |flushed| :: longer[k] == flushed[k];
  }

  lemma {:induction false} StoredIsShorter(docs: seq<Event>, o: Outcome)
    ensures |Stored(docs, o)| <= |docs|
  {
    if docs != [] {
      StoredIsShorter(docs[..|docs| - 1], o);
    }
  }

  lemma {:induction false} KeptVersusFlushed(flushed: seq<Flush>)
    ensures |AllStored(flushed)| <= |Batches(flushed)|
    ensures |AllStored(flushed)| == |Batches(flushed)| <==> AllKept(flushed)
  {
    if flushed != [] {
      var n := |flushed| - 1;
      KeptVersusFlushed(flushed[..n]);
      StoredIsShorter(flushed[n].batch, flushed[n].outcome);
      assert flushed == flushed[..n] + [flushed[n]];
      AllKeptStep(flushed[..n], flushed[n]);
    }
  }

  lemma SubBagIsShorter(a: seq<Event>, b: seq<Event>)
    requires multiset(a) <= multiset(b)
    ensures |a| <= |b|
    ensures |a| == |b| ==> multiset(a) == multiset(b)
  {
    var rest := multiset(b) - multiset(a);
    assert multiset(b) == multiset(a) + rest;
    assert |multiset(b)| == |multiset(a)| + |rest|;
  }

  /** End to end: after a live drain the collection holds each enqueued event exactly as often as it
      was enqueued, if and only if no bulk insert left a document out. */
  lemma ExactlyOnceDelivery(cfg: Config, steps: seq<Step>)
    requires cfg.workers > 0
    requires AllExited(Run(cfg, steps).workers) && !Run(cfg, steps).cancelled
    ensures var s := Run(cfg, steps);
            multiset(s.store) == multiset(s.log.enqueued) <==> AllKept(s.log.flushed)
  {
    RunInv(cfg, steps);
    LiveDrainIsComplete(cfg, steps);
    var s := Run(cfg, steps);
    KeptVersusFlushed(s.log.flushed);
    StoreIsSubBag(s.log.flushed);
    assert |multiset(s.store)| == |s.store| && |multiset(Batches(s.log.flushed))| == |Batches(s.log.flushed)|;
    if |s.store| == |Batches(s.log.flushed)| {
      SubBagIsShorter(s.store, Batches(s.log.flushed));
    }
  }

  /** Without workers Stop can return at once and strands the channel's contents. */
  lemma NoWorkersNoDrain(cfg: Config, e: Event)
    requires cfg.workers == 0 && cfg.submitters > 0 && cfg.capacity > 0 && !cfg.scraper
    requires Admissible(e) && e.idempotencyKey == ""
    ensures var s := Run(cfg, [Begin(0, e), Send(0), Close, StopReturns]);
            s.stopped && !s.cancelled && s.queue == [e] && s.log.flushed == []
  {
    var s0 := Init(cfg);
    var s1 := Next(cfg, s0, Begin(0, e));
    var s2 := Next(cfg, s1, Send(0));
    assert s1.submitters == s0.submitters[0 := Sending(e, None)];
    assert s2.submitters == s0.submitters;
    assert s2.queue == [e];
    assert Next(cfg, s2, Close).closed;
    FourSteps(cfg, s0, Begin(0, e), Send(0), Close, StopReturns);
  }

  /** With the depth scraper running, Stop returns only once the context is cancelled. */
  lemma StopWaitsForCancel(cfg: Config, steps: seq<Step>)
    requires cfg.scraper && Run(cfg, steps).stopped
    ensures Run(cfg, steps).cancelled
  {
    RunInv(cfg, steps);
  }

  /** Stop returns only when every worker has; without scraper and cancellation it has drained everything. */
  lemma StopWithoutScraperDrains(cfg: Config, steps: seq<Step>)
    requires Run(cfg, steps).stopped
    ensures AllExited(Run(cfg, steps).workers)
    ensures cfg.workers > 0 && !Run(cfg, steps).cancelled ==>
              var s := Run(cfg, steps);
              !cfg.scraper && s.queue == [] && multiset(Batches(s.log.flushed)) == multiset(s.log.enqueued)
  {
    RunInv(cfg, steps);
    if cfg.workers > 0 && !Run(cfg, steps).cancelled {
      LiveDrainIsComplete(cfg, steps);
    }
  }

  // ---------- Keeping up, and stopping gracefully ----------

  /** A step of a live worker changes nothing but the channel, that worker and what it hands over. */
  predicate Onwards(s: State, s': State) {
    && s'.submitters == s.submitters && s'.log.enqueued == s.log.enqueued && s'.dropped == s.dropped
    && s'.closed == s.closed && s'.cancelled == s.cancelled && s'.scraperLive == s.scraperLive
    && s.log.flushed <= s'.log.flushed
    && forall k | |s.log.flushed| <= k < |s'.log.flushed| :: s'.log.flushed[k].outcome == AllInserted
  }

  lemma OnwardsCompose(a: State, b: State, c: State)
    requires Onwards(a, b) && Onwards(b, c)
    ensures Onwards(a, c)
  {
    forall k | |a.log.flushed| <= k < |c.log.flushed| ensures c.log.flushed[k].outcome == AllInserted {
      if k < |b.log.flushed| {
        assert c.log.flushed[k] == b.log.flushed[k];
      }
    }
  }

  /** Nothing waits in the channel or in a batch. */
  predicate CaughtUp(s: State) {
    s.queue == [] && forall w | 0 <= w < |s.workers| :: s.workers[w] == Selecting([])
  }

  lemma LiveWork(cfg: Config, s: State) returns (st: Step)
    requires Inv(cfg, s) && cfg.workers > 0 && !s.closed && !s.cancelled && !CaughtUp(s)
    ensures Onwards(s, Next(cfg, s, st)) && Measure(Next(cfg, s, st)) < Measure(s)
  {
    forall w | 0 <= w < |s.workers| ensures !s.workers[w].Exited? {
      assert MayHaveLeft(s, s.workers[w]);
    }
    if w: nat :| w < |s.workers| && s.workers[w].Inserting? {
      st := Finish(w, AllInserted);
      InsertEndsOnwards(cfg, s, w);
    } else if w: nat :| w < |s.workers| && s.workers[w].batch != [] {
      st := Interval(w);
      TickOnwards(cfg, s, w);
    } else {
      st := Take(0);
      TakeOnwards(cfg, s, 0);
    }
    assert WorkerSized(cfg, s.workers[st.w]);
    LoadUpdate(s.workers, st.w, Apply(cfg, s, st).workers[st.w]);
    WorkerMoves(cfg, s, st);
  }

  lemma InsertEndsOnwards(cfg: Config, s: State, w: nat)
    requires w < |s.workers| && s.workers[w].Inserting?
    ensures Onwards(s, Next(cfg, s, Finish(w, AllInserted)))
  {
  }

  lemma TickOnwards(cfg: Config, s: State, w: nat)
    requires InSelect(s, w)
    ensures Onwards(s, Next(cfg, s, Interval(w)))
  {
  }

  lemma TakeOnwards(cfg: Config, s: State, w: nat)
    requires InSelect(s, w) && s.queue != []
    ensures Onwards(s, Next(cfg, s, Take(w)))
  {
  }

  /** While the pipeline is open, its workers can at any time catch up with all that was enqueued:
      without closing or cancelling, nothing then waits, and everything has been handed over once. */
  lemma CatchUpIsPossible(cfg: Config, s: State) returns (steps: seq<Step>)
    requires Inv(cfg, s) && cfg.workers > 0 && !s.closed && !s.cancelled
    ensures var s' := RunFrom(cfg, s, steps);
            && Inv(cfg, s') && Onwards(s, s') && CaughtUp(s')
            && multiset(Batches(s'.log.flushed)) == multiset(s'.log.enqueued)
    decreases Measure(s)
  {
    if CaughtUp(s) {
      steps := [];
      TakenBag(s);
      NoneWaiting(s.workers);
      assert s.log.enqueued == s.log.taken;
    } else {
      var st := LiveWork(cfg, s);
      KeepsInv(cfg, s, st);
      var rest := CatchUpIsPossible(cfg, Next(cfg, s, st));
      OneMore(cfg, s, st, rest);
      OnwardsCompose(s, Next(cfg, s, st), RunFrom(cfg, Next(cfg, s, st), rest));
      steps := [st] + rest;
    }
  }

  /** Stop can do what it promises: from every open state with idle submitters, at least one worker and
      no scraper, it can return with the channel drained and everything enqueued handed over once. */
  lemma GracefulStop(cfg: Config, s: State) returns (steps: seq<Step>)
    requires Inv(cfg, s) && cfg.workers > 0 && !s.scraperLive
    requires !s.closed && !s.cancelled && AllIdle(s.submitters)
    ensures var s' := RunFrom(cfg, s, steps);
            && s'.stopped && !s'.cancelled && s'.queue == []
            && s'.log.enqueued == s.log.enqueued
            && multiset(Batches(s'.log.flushed)) == multiset(s'.log.enqueued)
  {
    var closed := s.(closed := true);
    var drain := DrainAfterClose(cfg, s, closed);
    var drained := RunFrom(cfg, closed, drain);
    RunsCompose(cfg, closed, drain, [StopReturns]);
    StopLast(cfg, drained);
    CloseFirst(cfg, s, drain + [StopReturns]);
    steps := [Close] + (drain + [StopReturns]);
  }

  lemma CloseFirst(cfg: Config, s: State, tail: seq<Step>)
    requires !s.closed && AllIdle(s.submitters)
    ensures RunFrom(cfg, s, [Close] + tail) == RunFrom(cfg, s.(closed := true), tail)
  {
    OneMore(cfg, s, Close, tail);
  }

  lemma StopLast(cfg: Config, s: State)
    requires s.closed && AllExited(s.workers) && !s.scraperLive
    ensures RunFrom(cfg, s, [StopReturns]) == s.(stopped := true)
  {
    OneMore(cfg, s, StopReturns, []);
    assert [StopReturns] + [] == [StopReturns];
  }

  /** The drain after closing state s, and what it leaves. */
  lemma DrainAfterClose(cfg: Config, s: State, closed: State) returns (drain: seq<Step>)
    requires Inv(cfg, s) && cfg.workers > 0 && !s.scraperLive
    requires !s.closed && !s.cancelled && AllIdle(s.submitters) && closed == s.(closed := true)
    ensures var d := RunFrom(cfg, closed, drain);
            && AllExited(d.workers) && d.closed && !d.cancelled && !d.scraperLive && d.queue == []
            && d.log.enqueued == s.log.enqueued
            && multiset(Batches(d.log.flushed)) == multiset(d.log.enqueued)
  {
    KeepsInv(cfg, s, Close);
    drain := DrainCompletes(cfg, closed);
    DrainIsBounded(cfg, closed, drain);
    DrainedState(cfg, RunFrom(cfg, closed, drain));
    ScraperStaysAway(cfg, closed, drain);
  }

  lemma {:induction false} ScraperStaysAway(cfg: Config, s: State, steps: seq<Step>)
    requires !s.scraperLive
    ensures !RunFrom(cfg, s, steps).scraperLive
  {
    if steps != [] {
      ScraperStaysAway(cfg, s, steps[..|steps| - 1]);
      NoScraperStarts(cfg, RunFrom(cfg, s, steps[..|steps| - 1]), steps[|steps| - 1]);
    }
  }

  lemma NoScraperStarts(cfg: Config, s: State, st: Step)
    requires !s.scraperLive
    ensures !Next(cfg, s, st).scraperLive
  {
  }

  // ---------- Cancelling first ----------

  /** From any cancelled state all workers may leave at once, with the channel as it is. */
  lemma {:induction false} WorkersMayLeave(cfg: Config, s: State, n: nat) returns (steps: seq<Step>)
    requires s.cancelled && n <= |s.workers|
    ensures var s' := RunFrom(cfg, s, steps);
            && Untouched(s, s')
            && forall w | 0 <= w < n :: s'.workers[w].Exited?
  {
    if n == 0 {
      steps := [];
    } else {
      var before := WorkersMayLeave(cfg, s, n - 1);
      var mid := RunFrom(cfg, s, before);
      var last := WorkerMayLeave(cfg, mid, n - 1);
      RunsCompose(cfg, s, before, last);
      steps := before + last;
    }
  }

  /** All that shutdown may still look at, besides the workers, is unchanged. */
  predicate Untouched(s: State, s': State) {
    && |s'.workers| == |s.workers| && s'.queue == s.queue && s'.submitters == s.submitters
    && s'.cancelled == s.cancelled && s'.closed == s.closed && s'.scraperLive == s.scraperLive
    && s'.log.enqueued == s.log.enqueued
  }

  lemma WorkerMayLeave(cfg: Config, s: State, w: nat) returns (steps: seq<Step>)
    requires s.cancelled && w < |s.workers|
    ensures var s' := RunFrom(cfg, s, steps);
            && Untouched(s, s')
            && s'.workers == s.workers[w := Exited]
  {
    var finish, leave := Finish(w, AllInserted), SeeDone(w);
    ThreeSteps(cfg, s, finish, leave, finish);
    steps := [finish, leave, finish];
    var s1 := Next(cfg, s, finish);
    FinishOnce(cfg, s, w);
    LeaveOnce(cfg, s1, w);
    FinishOnce(cfg, Next(cfg, s1, leave), w);
  }

  lemma FinishOnce(cfg: Config, s: State, w: nat)
    requires w < |s.workers|
    ensures var s' := Next(cfg, s, Finish(w, AllInserted));
            var ws := s.workers[w];
            && Untouched(s, s')
            && s'.workers == s.workers[w := if !ws.Inserting? then ws
                                            else if Leaves(ws.arm) then Exited else Selecting([])]
  {
  }

  lemma LeaveOnce(cfg: Config, s: State, w: nat)
    requires s.cancelled && w < |s.workers| && !s.workers[w].Inserting?
    ensures var s' := Next(cfg, s, SeeDone(w));
            && Untouched(s, s')
            && s'.workers == s.workers[w := s'.workers[w]]
            && (s'.workers[w].Exited? || (s'.workers[w].Inserting? && s'.workers[w].arm == ContextDone))
  {
  }

  lemma ThreeSteps(cfg: Config, s: State, a: Step, b: Step, c: Step)
    ensures RunFrom(cfg, s, [a, b, c]) == Next(cfg, Next(cfg, Next(cfg, s, a), b), c)
  {
    OneMore(cfg, s, a, [b, c]);
    OneMore(cfg, Next(cfg, s, a), b, [c]);
    OneMore(cfg, Next(cfg, Next(cfg, s, a), b), c, []);
    assert [a] + [b, c] == [a, b, c] && [b] + [c] == [b, c] && [c] + [] == [c];
  }

  /**
   * Once cancelled and closed, the pipeline is sure to hand over everything exactly when the channel
   * is empty at that moment.
   */
  lemma DrainGuarantee(cfg: Config, s: State)
    requires Inv(cfg, s) && s.cancelled && s.closed
    ensures s.queue == [] <==>
            forall more :: AllExited(RunFrom(cfg, s, more).workers) ==> RunFrom(cfg, s, more).queue == []
  {
    var more := WorkersMayLeave(cfg, s, |s.workers|);
    assert AllExited(RunFrom(cfg, s, more).workers);
    if s.queue == [] {
      forall more ensures RunFrom(cfg, s, more).queue == [] {
        DrainIsBounded(cfg, s, more);
      }
    }
  }

  /**
   * The order of the ingestor's main function, from any state after the servers are shut down:
   * cancel, then Stop. Stop can return with the whole channel lost.
   */
  lemma CancelFirstMayLoseTheQueue(cfg: Config, s: State) returns (steps: seq<Step>)
    requires Inv(cfg, s) && !s.closed && AllIdle(s.submitters)
    ensures var s' := RunFrom(cfg, s, steps);
            && s'.stopped && s'.cancelled
            && s'.queue == s.queue && s'.log.enqueued == s.log.enqueued
  {
    var s2 := s.(cancelled := true, closed := true);
    var leave := WorkersMayLeave(cfg, s2, |s2.workers|);
    StopAfterLeaving(cfg, RunFrom(cfg, s2, leave));
    RunsCompose(cfg, s2, leave, [ScraperLeaves, StopReturns]);
    var tail := leave + [ScraperLeaves, StopReturns];
    CancelThenClose(cfg, s, tail);
    steps := [Cancel] + ([Close] + tail);
  }

  lemma CancelThenClose(cfg: Config, s: State, tail: seq<Step>)
    requires !s.closed && AllIdle(s.submitters)
    ensures RunFrom(cfg, s, [Cancel] + ([Close] + tail)) ==
            RunFrom(cfg, s.(cancelled := true, closed := true), tail)
  {
    OneMore(cfg, s, Cancel, [Close] + tail);
    OneMore(cfg, s.(cancelled := true), Close, tail);
  }

  lemma StopAfterLeaving(cfg: Config, s: State)
    requires s.cancelled && s.closed && AllExited(s.workers)
    ensures RunFrom(cfg, s, [ScraperLeaves, StopReturns]) == s.(scraperLive := false, stopped := true)
  {
    OneMore(cfg, s, ScraperLeaves, [StopReturns]);
    OneMore(cfg, s.(scraperLive := false), StopReturns, []);
    assert [ScraperLeaves] + [StopReturns] == [ScraperLeaves, StopReturns] && [StopReturns] + [] == [StopReturns];
  }
}
