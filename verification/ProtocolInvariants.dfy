/** Every step of the pipeline keeps every invariant, so every state of every run satisfies them. */
module ProtocolInvariants {
  import opened Models
  import opened Wrappers
  import opened Dedupe
  import opened BulkInserts
  import opened Batching
  import opened Protocol

  // ---------- How the summaries change when one entry changes ----------

  lemma ByStep<T>(items: seq<T>, owners: seq<nat>, x: T, owner: nat, w: nat)
    requires |items| == |owners|
    ensures By(items + [x], owners + [owner], w) ==
            By(items, owners, w) + if owner == w then [x] else []
  {
    assert (items + [x])[..|items|] == items && (owners + [owner])[..|owners|] == owners;
  }

  lemma UpdatedInit<T>(s: seq<T>, k: nat, x: T)
    requires k < |s|
    ensures var n := |s| - 1;
            && s[k := x][n] == (if k < n then s[n] else x)
            && s[k := x][..n] == if k < n then s[..n][k := x] else s[..n]
  {
  }

  lemma WaitersLast(workers: seq<WorkerState>, e: Event)
    requires workers != []
    ensures var n := |workers| - 1; Waiters(workers)[e] == Waiters(workers[..n])[e] + WaitingBag(workers[n])[e]
  {
  }

  lemma InFlightLast(workers: seq<WorkerState>, e: Event)
    requires workers != []
    ensures var n := |workers| - 1; InFlight(workers)[e] == InFlight(workers[..n])[e] + InsertingBag(workers[n])[e]
  {
  }

  lemma {:induction false} WaitersUpdate(workers: seq<WorkerState>, w: nat, ws: WorkerState, e: Event)
    requires w < |workers|
    ensures Waiters(workers[w := ws])[e] + WaitingBag(workers[w])[e] == Waiters(workers)[e] + WaitingBag(ws)[e]
  {
    var n := |workers| - 1;
    UpdatedInit(workers, w, ws);
    WaitersLast(workers, e);
    WaitersLast(workers[w := ws], e);
    if w < n {
      WaitersUpdate(workers[..n], w, ws, e);
    }
  }

  lemma {:induction false} InFlightUpdate(workers: seq<WorkerState>, w: nat, ws: WorkerState, e: Event)
    requires w < |workers|
    ensures InFlight(workers[w := ws])[e] + InsertingBag(workers[w])[e] == InFlight(workers)[e] + InsertingBag(ws)[e]
  {
    var n := |workers| - 1;
    UpdatedInit(workers, w, ws);
    InFlightLast(workers, e);
    InFlightLast(workers[w := ws], e);
    if w < n {
      InFlightUpdate(workers[..n], w, ws, e);
    }
  }

  function Weight(sub: Submitter): nat {
    if sub.Idle? then 0 else 1
  }

  lemma {:induction false} BusyUpdate(submitters: seq<Submitter>, i: nat, sub: Submitter)
    requires i < |submitters|
    ensures Busy(submitters[i := sub]) + Weight(submitters[i]) == Busy(submitters) + Weight(sub)
  {
    UpdatedInit(submitters, i, sub);
    if i < |submitters| - 1 {
      BusyUpdate(submitters[..|submitters| - 1], i, sub);
    }
  }

  // ---------- What a step leaves alone ----------

  predicate OfWorker(st: Step) {
    st.HandOff? || st.Take? || st.Interval? || st.SeeClosed? || st.SeeDone? || st.Finish?
  }

  predicate OfSubmitter(st: Step) {
    st.Begin? || st.ReadClock? || st.Lock? || st.Send? || st.HandOff?
  }

  predicate SameWorkerSide(s: State, s': State) {
    && s'.workers == s.workers && s'.accepted == s.accepted && s'.store == s.store
    && s'.log.taken == s.log.taken && s'.log.takenBy == s.log.takenBy
    && s'.log.flushed == s.log.flushed && s'.log.flushedBy == s.log.flushedBy
  }

  predicate SameSubmitterSide(s: State, s': State) {
    && s'.submitters == s.submitters && s'.rejected == s.rejected && s'.dropped == s.dropped
    && s'.cache == s.cache
    && s'.log.submits == s.log.submits && s'.log.duplicates == s.log.duplicates
    && s'.log.calls == s.log.calls && s'.log.admissions == s.log.admissions
    && s'.log.enqueued == s.log.enqueued && s'.log.drops == s.log.drops
  }

  lemma WorkerFrame(cfg: Config, s: State, st: Step)
    requires Enabled(cfg, s, st) && !OfWorker(st)
    ensures SameWorkerSide(s, Apply(cfg, s, st))
  {
    if OfSubmitter(st) {
      SubmittersLeaveWorkers(cfg, s, st);
    }
  }

  lemma SubmittersLeaveWorkers(cfg: Config, s: State, st: Step)
    requires Enabled(cfg, s, st) && OfSubmitter(st) && !OfWorker(st)
    ensures SameWorkerSide(s, Apply(cfg, s, st))
  {
    match st {
      case Begin(i, ev) => assert SameWorkerSide(s, AfterBegin(s, i, ev));
      case ReadClock(i) =>
      case Lock(i) => LockLeavesWorkers(s, i);
      case Send(i) => SendLeavesWorkers(cfg, s, i);
    }
  }

  lemma LockLeavesWorkers(s: State, i: nat)
    requires i < |s.submitters| && s.submitters[i].Waiting?
    ensures SameWorkerSide(s, AfterLock(s, i))
  {
  }

  lemma SendLeavesWorkers(cfg: Config, s: State, i: nat)
    requires i < |s.submitters| && s.submitters[i].Sending?
    ensures SameWorkerSide(s, AfterSend(cfg, s, i))
  {
  }

  lemma SubmitterFrame(cfg: Config, s: State, st: Step)
    requires Enabled(cfg, s, st) && !OfSubmitter(st)
    ensures SameSubmitterSide(s, Apply(cfg, s, st))
  {
  }

  // ---------- Channel order ----------

  lemma ReceiptOrdered(cfg: Config, s: State, w: nat, e: Event)
    requires InSelect(s, w)
    requires WorkersInOrder(s)
    ensures WorkersInOrder(AfterReceipt(cfg, s, w, e))
  {
    var s' := AfterReceipt(cfg, s, w, e);
    forall v | 0 <= v < |s'.workers| ensures WorkerInOrder(s', v) {
      assert WorkerInOrder(s, v);
      ByStep(s.log.taken, s.log.takenBy, e, w, v);
      var flushed := Batches(By(s.log.flushed, s.log.flushedBy, v));
      if v == w {
        assert Held(s'.workers[v]) == Held(s.workers[v]) + [e];
        assert flushed + (Held(s.workers[v]) + [e]) == (flushed + Held(s.workers[v])) + [e];
      } else {
        assert By(s'.log.taken, s'.log.takenBy, v) == By(s.log.taken, s.log.takenBy, v);
      }
    }
  }

  lemma FinishOrdered(s: State, w: nat, o: Outcome)
    requires w < |s.workers| && s.workers[w].Inserting?
    requires WorkersInOrder(s)
    ensures WorkersInOrder(AfterFinish(s, w, o))
  {
    var s' := AfterFinish(s, w, o);
    var f := Flush(s.workers[w].batch, o);
    forall v | 0 <= v < |s'.workers| ensures WorkerInOrder(s', v) {
      assert WorkerInOrder(s, v);
      ByStep(s.log.flushed, s.log.flushedBy, f, w, v);
      BatchesStep(By(s.log.flushed, s.log.flushedBy, v), f);
      if v == w {
        assert Held(s'.workers[v]) == [];
      } else {
        assert By(s'.log.flushed, s'.log.flushedBy, v) == By(s.log.flushed, s.log.flushedBy, v);
      }
    }
  }

  lemma WorkersUntouched(s: State, s': State)
    requires SameWorkerSide(s, s') && WorkersInOrder(s)
    ensures WorkersInOrder(s')
  {
    forall v | 0 <= v < |s'.workers| ensures WorkerInOrder(s', v) {
      assert WorkerInOrder(s, v);
    }
  }

  lemma KeepsChannel(cfg: Config, s: State, st: Step)
    requires Channel(cfg, s) && Enabled(cfg, s, st)
    ensures Channel(cfg, Apply(cfg, s, st))
  {
    if OfWorker(st) {
      WorkerChannel(cfg, s, st);
    } else if OfSubmitter(st) {
      SubmitterChannel(cfg, s, st);
    } else {
      ControlChannel(cfg, s, st);
    }
  }

  lemma ControlChannel(cfg: Config, s: State, st: Step)
    requires Channel(cfg, s) && Enabled(cfg, s, st) && !OfWorker(st) && !OfSubmitter(st)
    ensures Channel(cfg, Apply(cfg, s, st))
  {
  }

  lemma SubmitterChannel(cfg: Config, s: State, st: Step)
    requires Channel(cfg, s) && Enabled(cfg, s, st) && OfSubmitter(st) && !OfWorker(st)
    ensures Channel(cfg, Apply(cfg, s, st))
  {
    match st {
      case Begin(i, ev) => BeginChannel(cfg, s, i, ev);
      case ReadClock(i) =>
      case Lock(i) => LockChannel(cfg, s, i);
      case Send(i) => SendChannel(cfg, s, i);
    }
  }

  lemma WorkerChannel(cfg: Config, s: State, st: Step)
    requires Channel(cfg, s) && Enabled(cfg, s, st) && OfWorker(st)
    ensures Channel(cfg, Apply(cfg, s, st))
  {
    match st {
      case HandOff(i, w) => HandOffChannel(cfg, s, i, w);
      case Take(w) => TakeChannel(cfg, s, w);
      case Interval(w) => FlushChannel(cfg, s, w, Tick);
      case SeeClosed(w) => FlushChannel(cfg, s, w, ChannelClosed);
      case SeeDone(w) => FlushChannel(cfg, s, w, ContextDone);
      case Finish(w, o) => FinishChannel(cfg, s, w, o);
    }
  }

  lemma BeginChannel(cfg: Config, s: State, i: nat, ev: Event)
    requires Channel(cfg, s) && i < |s.submitters|
    ensures Channel(cfg, AfterBegin(s, i, ev))
  {
  }

  lemma LockChannel(cfg: Config, s: State, i: nat)
    requires Channel(cfg, s) && i < |s.submitters| && s.submitters[i].Waiting?
    ensures Channel(cfg, AfterLock(s, i))
  {
  }

  lemma FlushChannel(cfg: Config, s: State, w: nat, arm: Arm)
    requires Channel(cfg, s) && InSelect(s, w)
    ensures Channel(cfg, AfterFlush(s, w, arm))
  {
  }

  lemma FinishChannel(cfg: Config, s: State, w: nat, o: Outcome)
    requires Channel(cfg, s) && w < |s.workers| && s.workers[w].Inserting?
    ensures Channel(cfg, AfterFinish(s, w, o))
  {
  }

  lemma SendChannel(cfg: Config, s: State, i: nat)
    requires Channel(cfg, s) && i < |s.submitters| && s.submitters[i].Sending?
    ensures Channel(cfg, AfterSend(cfg, s, i))
  {
    var e := s.submitters[i].event;
    assert (s.log.taken + s.queue) + [e] == s.log.taken + (s.queue + [e]);
  }

  lemma HandOffChannel(cfg: Config, s: State, i: nat, w: nat)
    requires Channel(cfg, s) && Enabled(cfg, s, HandOff(i, w))
    ensures Channel(cfg, AfterReceipt(cfg, AfterEnqueue(s, i), w, s.submitters[i].event))
  {
    assert s.queue == [] && s.log.enqueued == s.log.taken;
  }

  lemma TakeChannel(cfg: Config, s: State, w: nat)
    requires Channel(cfg, s) && Enabled(cfg, s, Take(w))
    ensures Channel(cfg, AfterReceipt(cfg, s.(queue := s.queue[1..]), w, s.queue[0]))
  {
    assert (s.log.taken + [s.queue[0]]) + s.queue[1..] == s.log.taken + s.queue;
  }

  lemma KeepsOrder(cfg: Config, s: State, st: Step)
    requires Ordered(cfg, s) && Enabled(cfg, s, st)
    ensures Ordered(cfg, Apply(cfg, s, st))
  {
    KeepsChannel(cfg, s, st);
    if OfWorker(st) {
      WorkerStepOrdered(cfg, s, st);
    } else {
      WorkerFrame(cfg, s, st);
      WorkersUntouched(s, Apply(cfg, s, st));
    }
  }

  lemma WorkerStepOrdered(cfg: Config, s: State, st: Step)
    requires WorkersInOrder(s) && Enabled(cfg, s, st) && OfWorker(st)
    ensures WorkersInOrder(Apply(cfg, s, st))
  {
    match st {
      case HandOff(i, w) =>
        WorkersUntouched(s, AfterEnqueue(s, i));
        ReceiptOrdered(cfg, AfterEnqueue(s, i), w, s.submitters[i].event);
      case Take(w) =>
        WorkersUntouched(s, s.(queue := s.queue[1..]));
        ReceiptOrdered(cfg, s.(queue := s.queue[1..]), w, s.queue[0]);
      case Finish(w, o) => FinishOrdered(s, w, o);
      case Interval(w) => FlushOrdered(s, w, Tick);
      case SeeClosed(w) => FlushOrdered(s, w, ChannelClosed);
      case SeeDone(w) => FlushOrdered(s, w, ContextDone);
    }
  }

  lemma FlushOrdered(s: State, w: nat, arm: Arm)
    requires InSelect(s, w)
    requires WorkersInOrder(s)
    ensures WorkersInOrder(AfterFlush(s, w, arm))
  {
    var s' := AfterFlush(s, w, arm);
    forall v | 0 <= v < |s'.workers| ensures WorkerInOrder(s', v) {
      assert WorkerInOrder(s, v);
    }
  }

  // ---------- Batch sizes ----------

  lemma KeepsSizes(cfg: Config, s: State, st: Step)
    requires Sized(cfg, s) && Enabled(cfg, s, st)
    ensures Sized(cfg, Apply(cfg, s, st))
  {
    if OfWorker(st) {
      WorkerStepSized(cfg, s, st);
    } else {
      WorkerFrame(cfg, s, st);
    }
  }

  lemma WorkerStepSized(cfg: Config, s: State, st: Step)
    requires Sized(cfg, s) && Enabled(cfg, s, st) && OfWorker(st)
    ensures Sized(cfg, Apply(cfg, s, st))
  {
    match st {
      case HandOff(i, w) => ReceiptSized(cfg, AfterEnqueue(s, i), w, s.submitters[i].event);
      case Take(w) => ReceiptSized(cfg, s.(queue := s.queue[1..]), w, s.queue[0]);
      case Interval(w) => FlushSized(cfg, s, w, Tick);
      case SeeClosed(w) => FlushSized(cfg, s, w, ChannelClosed);
      case SeeDone(w) => FlushSized(cfg, s, w, ContextDone);
      case Finish(w, o) => FinishSized(cfg, s, w, o);
    }
  }

  lemma ReceiptSized(cfg: Config, s: State, w: nat, e: Event)
    requires InSelect(s, w) && Sized(cfg, s)
    ensures Sized(cfg, AfterReceipt(cfg, s, w, e))
  {
    assert WorkerSized(cfg, s.workers[w]);
  }

  lemma FlushSized(cfg: Config, s: State, w: nat, arm: Arm)
    requires InSelect(s, w) && Sized(cfg, s) && !arm.Receive?
    ensures Sized(cfg, AfterFlush(s, w, arm))
  {
    assert WorkerSized(cfg, s.workers[w]);
  }

  lemma FinishSized(cfg: Config, s: State, w: nat, o: Outcome)
    requires w < |s.workers| && s.workers[w].Inserting? && Sized(cfg, s)
    ensures Sized(cfg, AfterFinish(s, w, o))
  {
    assert WorkerSized(cfg, s.workers[w]);
  }

  // ---------- Shutdown ----------

  lemma KeepsLifecycle(cfg: Config, s: State, st: Step)
    requires Lifecycle(cfg, s) && Enabled(cfg, s, st)
    ensures Lifecycle(cfg, Apply(cfg, s, st))
  {
    if OfWorker(st) {
      WorkerStepLifecycle(cfg, s, st);
    } else if OfSubmitter(st) {
      SubmittersLeaveFlags(cfg, s, st);
      SubmittersLeaveWorkers(cfg, s, st);
      SubmitterLifecycle(cfg, s, Apply(cfg, s, st));
    } else {
      ControlLifecycle(cfg, s, st);
    }
  }

  predicate SameFlags(s: State, s': State) {
    && s'.closed == s.closed && s'.cancelled == s.cancelled
    && s'.scraperLive == s.scraperLive && s'.stopped == s.stopped
  }

  /** Submitters move only before the close, and leave the flags alone. */
  lemma SubmittersLeaveFlags(cfg: Config, s: State, st: Step)
    requires Enabled(cfg, s, st) && OfSubmitter(st) && !OfWorker(st) && Closing(cfg, s)
    ensures !s.closed && SameFlags(s, Apply(cfg, s, st))
  {
    match st {
      case Begin(i, ev) => assert SameFlags(s, AfterBegin(s, i, ev));
      case ReadClock(i) =>
      case Lock(i) => assert SameFlags(s, AfterLock(s, i));
      case Send(i) => assert SameFlags(s, AfterSend(cfg, s, i));
    }
  }

  lemma WorkerStepLifecycle(cfg: Config, s: State, st: Step)
    requires Lifecycle(cfg, s) && Enabled(cfg, s, st) && OfWorker(st)
    ensures Lifecycle(cfg, Apply(cfg, s, st))
  {
    match st {
      case HandOff(i, w) =>
        SubmitterLifecycle(cfg, s, AfterEnqueue(s, i));
        ReceiptLifecycle(cfg, AfterEnqueue(s, i), w, s.submitters[i].event);
      case Take(w) =>
        SubmitterLifecycle(cfg, s, s.(queue := s.queue[1..]));
        ReceiptLifecycle(cfg, s.(queue := s.queue[1..]), w, s.queue[0]);
      case Interval(w) => FlushLifecycle(cfg, s, w, Tick);
      case SeeClosed(w) => FlushLifecycle(cfg, s, w, ChannelClosed);
      case SeeDone(w) => FlushLifecycle(cfg, s, w, ContextDone);
      case Finish(w, o) => FinishLifecycle(cfg, s, w, o);
    }
  }

  lemma ReceiptLifecycle(cfg: Config, s: State, w: nat, e: Event)
    requires Lifecycle(cfg, s) && InSelect(s, w)
    ensures Lifecycle(cfg, AfterReceipt(cfg, s, w, e))
  {
    WorkerLifecycle(cfg, s, w, AfterReceipt(cfg, s, w, e));
  }

  lemma FlushLifecycle(cfg: Config, s: State, w: nat, arm: Arm)
    requires Lifecycle(cfg, s) && InSelect(s, w)
    requires arm.Tick? || (arm.ChannelClosed? && s.closed && s.queue == []) || (arm.ContextDone? && s.cancelled)
    ensures Lifecycle(cfg, AfterFlush(s, w, arm))
  {
    WorkerLifecycle(cfg, s, w, AfterFlush(s, w, arm));
  }

  lemma FinishLifecycle(cfg: Config, s: State, w: nat, o: Outcome)
    requires Lifecycle(cfg, s) && w < |s.workers| && s.workers[w].Inserting?
    ensures Lifecycle(cfg, AfterFinish(s, w, o))
  {
    assert MayHaveLeft(s, s.workers[w]);
    WorkerLifecycle(cfg, s, w, AfterFinish(s, w, o));
  }

  lemma StillMayHaveLeft(s: State, s': State, ws: WorkerState)
    requires MayHaveLeft(s, ws)
    requires (s.cancelled ==> s'.cancelled) && (s.closed ==> s'.closed)
    requires s.closed && s.queue == [] ==> s'.queue == []
    ensures MayHaveLeft(s', ws)
  {
  }

  lemma SubmitterLifecycle(cfg: Config, s: State, s': State)
    requires Lifecycle(cfg, s) && SameFlags(s, s') && s'.workers == s.workers
    requires s.closed ==> s'.submitters == s.submitters && (s.queue == [] ==> s'.queue == [])
    ensures Lifecycle(cfg, s')
  {
    forall v | 0 <= v < |s'.workers| ensures MayHaveLeft(s', s'.workers[v]) {
      StillMayHaveLeft(s, s', s.workers[v]);
    }
  }

  lemma WorkerLifecycle(cfg: Config, s: State, w: nat, s': State)
    requires Lifecycle(cfg, s) && w < |s.workers| && !s.workers[w].Exited?
    requires SameFlags(s, s') && s'.submitters == s.submitters && s'.queue == s.queue
    requires |s'.workers| == |s.workers|
    requires s'.workers == s.workers[w := s'.workers[w]] && MayHaveLeft(s', s'.workers[w])
    ensures Lifecycle(cfg, s')
  {
    forall v | 0 <= v < |s'.workers| ensures MayHaveLeft(s', s'.workers[v]) {
      StillMayHaveLeft(s, s', s.workers[v]);
    }
  }

  lemma ControlLifecycle(cfg: Config, s: State, st: Step)
    requires Lifecycle(cfg, s) && Enabled(cfg, s, st) && !OfWorker(st) && !OfSubmitter(st)
    ensures Lifecycle(cfg, Apply(cfg, s, st))
  {
    var s' := Apply(cfg, s, st);
    forall v | 0 <= v < |s'.workers| ensures MayHaveLeft(s', s'.workers[v]) {
      StillMayHaveLeft(s, s', s.workers[v]);
    }
  }

  // ---------- Conservation ----------

  lemma ReceiptConserves(cfg: Config, s: State, w: nat, x: Event, e: Event)
    requires InSelect(s, w) && EventConserved(s, e)
    ensures EventConserved(AfterReceipt(cfg, s, w, x), e)
  {
    var s' := AfterReceipt(cfg, s, w, x);
    WaitersUpdate(s.workers, w, s'.workers[w], e);
    InFlightUpdate(s.workers, w, s'.workers[w], e);
  }

  lemma FlushConserves(s: State, w: nat, arm: Arm, e: Event)
    requires InSelect(s, w) && EventConserved(s, e)
    ensures EventConserved(AfterFlush(s, w, arm), e)
  {
    var s' := AfterFlush(s, w, arm);
    WaitersUpdate(s.workers, w, s'.workers[w], e);
    InFlightUpdate(s.workers, w, s'.workers[w], e);
  }

  lemma FinishConserves(s: State, w: nat, o: Outcome, e: Event)
    requires w < |s.workers| && s.workers[w].Inserting? && EventConserved(s, e)
    ensures EventConserved(AfterFinish(s, w, o), e)
  {
    var s' := AfterFinish(s, w, o);
    WaitersUpdate(s.workers, w, s'.workers[w], e);
    InFlightUpdate(s.workers, w, s'.workers[w], e);
    BatchesStep(s.log.flushed, Flush(s.workers[w].batch, o));
  }

  lemma EventUntouched(s: State, s': State, e: Event)
    requires SameWorkerSide(s, s') && EventConserved(s, e)
    ensures EventConserved(s', e)
  {
  }

  lemma WorkerStepConserves(cfg: Config, s: State, st: Step, e: Event)
    requires EventConserved(s, e) && Enabled(cfg, s, st) && OfWorker(st)
    ensures EventConserved(Apply(cfg, s, st), e)
  {
    match st {
      case HandOff(i, w) =>
        EventUntouched(s, AfterEnqueue(s, i), e);
        ReceiptConserves(cfg, AfterEnqueue(s, i), w, s.submitters[i].event, e);
      case Take(w) =>
        EventUntouched(s, s.(queue := s.queue[1..]), e);
        ReceiptConserves(cfg, s.(queue := s.queue[1..]), w, s.queue[0], e);
      case Interval(w) => FlushConserves(s, w, Tick, e);
      case SeeClosed(w) => FlushConserves(s, w, ChannelClosed, e);
      case SeeDone(w) => FlushConserves(s, w, ContextDone, e);
      case Finish(w, o) => FinishConserves(s, w, o, e);
    }
  }

  lemma KeepsEvent(cfg: Config, s: State, st: Step, e: Event)
    requires EventConserved(s, e) && Enabled(cfg, s, st)
    ensures EventConserved(Apply(cfg, s, st), e)
  {
    if OfWorker(st) {
      WorkerStepConserves(cfg, s, st, e);
    } else {
      WorkerFrame(cfg, s, st);
      EventUntouched(s, Apply(cfg, s, st), e);
    }
  }

  lemma BeginTallied(s: State, i: nat, ev: Event)
    requires Tallied(s) && i < |s.submitters| && s.submitters[i].Idle?
    ensures Tallied(AfterBegin(s, i, ev))
  {
    BusyUpdate(s.submitters, i, AfterBegin(s, i, ev).submitters[i]);
  }

  lemma LockTallied(s: State, i: nat)
    requires Tallied(s) && i < |s.submitters| && s.submitters[i].Waiting?
    ensures Tallied(AfterLock(s, i))
  {
    BusyUpdate(s.submitters, i, AfterLock(s, i).submitters[i]);
  }

  lemma SendTallied(cfg: Config, s: State, i: nat)
    requires Tallied(s) && i < |s.submitters| && s.submitters[i].Sending?
    ensures Tallied(AfterSend(cfg, s, i))
  {
    if |s.queue| < cfg.capacity {
      EnqueueTallied(s, i);
      TallyUntouched(AfterEnqueue(s, i), AfterSend(cfg, s, i));
    } else {
      BusyUpdate(s.submitters, i, Idle);
    }
  }

  lemma EnqueueTallied(s: State, i: nat)
    requires Tallied(s) && i < |s.submitters| && s.submitters[i].Sending?
    ensures Tallied(AfterEnqueue(s, i))
  {
    BusyUpdate(s.submitters, i, Idle);
  }

  lemma TallyUntouched(s: State, s': State)
    requires Tallied(s) && SameSubmitterSide(s, s')
    ensures Tallied(s')
  {
  }

  lemma KeepsTally(cfg: Config, s: State, st: Step)
    requires Tallied(s) && Enabled(cfg, s, st)
    ensures Tallied(Apply(cfg, s, st))
  {
    match st {
      case Begin(i, ev) => BeginTallied(s, i, ev);
      case ReadClock(i) => BusyUpdate(s.submitters, i, Waiting(s.submitters[i].event, UnixSeconds(s.now)));
      case Lock(i) => LockTallied(s, i);
      case Send(i) => SendTallied(cfg, s, i);
      case HandOff(i, w) =>
        EnqueueTallied(s, i);
        TallyUntouched(AfterEnqueue(s, i), Apply(cfg, s, st));
      case _ =>
        SubmitterFrame(cfg, s, st);
        TallyUntouched(s, Apply(cfg, s, st));
    }
  }

  lemma KeepsConservation(cfg: Config, s: State, st: Step)
    requires Conserved(s) && Enabled(cfg, s, st)
    ensures Conserved(Apply(cfg, s, st))
  {
    KeepsTally(cfg, s, st);
    forall e ensures EventConserved(Apply(cfg, s, st), e) {
      assert EventConserved(s, e);
      KeepsEvent(cfg, s, st, e);
    }
  }

  // ---------- The counter and the collection ----------

  lemma KeepsAccounts(cfg: Config, s: State, st: Step)
    requires Accounted(s) && Enabled(cfg, s, st)
    ensures Accounted(Apply(cfg, s, st))
  {
    if OfWorker(st) {
      WorkerStepAccounted(cfg, s, st);
    } else {
      WorkerFrame(cfg, s, st);
    }
  }

  lemma WorkerStepAccounted(cfg: Config, s: State, st: Step)
    requires Accounted(s) && Enabled(cfg, s, st) && OfWorker(st)
    ensures Accounted(Apply(cfg, s, st))
  {
    match st {
      case HandOff(i, w) => ReceiptAccounted(cfg, AfterEnqueue(s, i), w, s.submitters[i].event);
      case Take(w) => ReceiptAccounted(cfg, s.(queue := s.queue[1..]), w, s.queue[0]);
      case Interval(w) => FlushAccounted(s, w, Tick);
      case SeeClosed(w) => FlushAccounted(s, w, ChannelClosed);
      case SeeDone(w) => FlushAccounted(s, w, ContextDone);
      case Finish(w, o) => FinishAccounted(s, w, o);
    }
  }

  lemma ReceiptAccounted(cfg: Config, s: State, w: nat, e: Event)
    requires Accounted(s) && InSelect(s, w)
    ensures Accounted(AfterReceipt(cfg, s, w, e))
  {
  }

  lemma FlushAccounted(s: State, w: nat, arm: Arm)
    requires Accounted(s) && InSelect(s, w)
    ensures Accounted(AfterFlush(s, w, arm))
  {
  }

  lemma FinishAccounted(s: State, w: nat, o: Outcome)
    requires Accounted(s) && w < |s.workers| && s.workers[w].Inserting?
    ensures Accounted(AfterFinish(s, w, o))
  {
    var f := Flush(s.workers[w].batch, o);
    TotalCreditStep(s.log.flushed, f);
    assert (s.log.flushed + [f])[..|s.log.flushed|] == s.log.flushed;
  }

  // ---------- Validity of what travels ----------

  lemma KeepsScreening(cfg: Config, s: State, st: Step)
    requires Screened(s) && Enabled(cfg, s, st)
    ensures Screened(Apply(cfg, s, st))
  {
    if OfSubmitter(st) {
      SubmitterScreened(cfg, s, st);
    } else {
      SubmitterFrame(cfg, s, st);
    }
  }

  lemma SubmitterScreened(cfg: Config, s: State, st: Step)
    requires Screened(s) && Enabled(cfg, s, st) && OfSubmitter(st)
    ensures Screened(Apply(cfg, s, st))
  {
    match st {
      case Begin(i, ev) => BeginScreened(s, i, ev);
      case ReadClock(i) =>
      case Lock(i) => LockScreened(s, i);
      case Send(i) => SendScreened(cfg, s, i);
      case HandOff(i, w) => SendScreened(cfg, s, i);
    }
  }

  lemma BeginScreened(s: State, i: nat, ev: Event)
    requires Screened(s) && i < |s.submitters|
    ensures Screened(AfterBegin(s, i, ev))
  {
  }

  lemma LockScreened(s: State, i: nat)
    requires Screened(s) && i < |s.submitters| && s.submitters[i].Waiting?
    ensures Screened(AfterLock(s, i))
  {
    LockShape(s, i);
  }

  lemma SendScreened(cfg: Config, s: State, i: nat)
    requires Screened(s) && i < |s.submitters| && s.submitters[i].Sending?
    ensures Screened(AfterSend(cfg, s, i)) && Screened(AfterEnqueue(s, i))
  {
  }

  // ---------- The dedupe cache ----------

  lemma KeepsReplay(cfg: Config, s: State, st: Step)
    requires Replayed(cfg, s) && Screened(s) && Enabled(cfg, s, st)
    ensures Replayed(cfg, Apply(cfg, s, st))
  {
    KeepsClocks(cfg, s, st);
    match st {
      case Lock(i) => LockReplays(cfg, s, i);
      case _ => CallsUntouched(cfg, s, st);
    }
  }

  lemma KeepsClocks(cfg: Config, s: State, st: Step)
    requires s.now >= UNIX_EPOCH && Enabled(cfg, s, st)
    requires forall i | 0 <= i < |s.submitters| :: Clocked(s, s.submitters[i])
    ensures var s' := Apply(cfg, s, st);
            forall i | 0 <= i < |s'.submitters| :: Clocked(s', s'.submitters[i])
  {
    if OfSubmitter(st) {
      MoverClocked(cfg, s, st);
    } else {
      SubmitterFrame(cfg, s, st);
    }
    var s' := Apply(cfg, s, st);
    forall i | 0 <= i < |s'.submitters| ensures Clocked(s', s'.submitters[i]) {
      assert Clocked(s, s.submitters[i]);
      if s'.submitters[i] == s.submitters[i] {
        LaterClocked(s, s', s.submitters[i]);
      }
    }
  }

  lemma MoverClocked(cfg: Config, s: State, st: Step)
    requires s.now >= UNIX_EPOCH && Enabled(cfg, s, st) && OfSubmitter(st)
    requires Clocked(s, s.submitters[st.i])
    ensures var s' := Apply(cfg, s, st);
            && |s'.submitters| == |s.submitters|
            && s'.submitters == s.submitters[st.i := s'.submitters[st.i]]
            && Clocked(s', s'.submitters[st.i])
  {
    match st {
      case Begin(i, ev) => BeginClocked(s, i, ev);
      case ReadClock(i) =>
      case Lock(i) => LockClocked(s, i);
      case Send(i) =>
      case HandOff(i, w) =>
    }
  }

  lemma BeginClocked(s: State, i: nat, ev: Event)
    requires i < |s.submitters|
    requires Clocked(s, s.submitters[i])
    ensures var s' := AfterBegin(s, i, ev);
            s'.submitters == s.submitters[i := s'.submitters[i]] && Clocked(s', s'.submitters[i])
  {
  }

  lemma LockClocked(s: State, i: nat)
    requires i < |s.submitters| && s.submitters[i].Waiting?
    ensures var s' := AfterLock(s, i);
            s'.submitters == s.submitters[i := s'.submitters[i]] && Clocked(s', s'.submitters[i])
  {
  }

  lemma LaterClocked(s: State, s': State, sub: Submitter)
    requires Clocked(s, sub) && s'.now >= s.now
    ensures Clocked(s', sub)
  {
  }

  lemma CallsUntouched(cfg: Config, s: State, st: Step)
    requires Enabled(cfg, s, st) && !st.Lock?
    ensures SameCalls(s, Apply(cfg, s, st))
  {
    if OfSubmitter(st) {
      SubmitterKeepsCalls(cfg, s, st);
    } else {
      SubmitterFrame(cfg, s, st);
    }
  }

  lemma SubmitterKeepsCalls(cfg: Config, s: State, st: Step)
    requires Enabled(cfg, s, st) && OfSubmitter(st) && !st.Lock?
    ensures SameCalls(s, Apply(cfg, s, st))
  {
    match st {
      case Begin(i, ev) => assert SameCalls(s, AfterBegin(s, i, ev));
      case ReadClock(i) =>
      case Send(i) => SendKeepsCalls(cfg, s, i);
      case HandOff(i, w) => SendKeepsCalls(cfg, s, i);
    }
  }

  predicate SameCalls(s: State, s': State) {
    && s'.cache == s.cache && s'.log.calls == s.log.calls && s'.now >= s.now
    && CallsOf(s'.log.admissions) == CallsOf(s.log.admissions)
  }

  lemma SendKeepsCalls(cfg: Config, s: State, i: nat)
    requires i < |s.submitters| && s.submitters[i].Sending?
    ensures SameCalls(s, AfterSend(cfg, s, i)) && SameCalls(s, AfterEnqueue(s, i))
  {
    var slot := s.submitters[i].slot;
    SettleKeepsCalls(s.log.admissions, slot, Enqueued(|s.log.enqueued|));
    SettleKeepsCalls(s.log.admissions, slot, Dropped(|s.log.drops|));
  }

  lemma SettleKeepsCalls(admissions: seq<Admission>, slot: Option<nat>, fate: Fate)
    ensures CallsOf(Settle(admissions, slot, fate)) == CallsOf(admissions)
  {
    var settled := Settle(admissions, slot, fate);
    assert forall k | 0 <= k < |admissions| :: CallOf(settled[k]) == CallOf(admissions[k]);
  }

  lemma LockReplays(cfg: Config, s: State, i: nat)
    requires Replayed(cfg, s) && Enabled(cfg, s, Lock(i))
    ensures var s' := AfterLock(s, i);
            && s'.cache == Replay(s'.log.calls)
            && Lagging(s'.log.calls, cfg.lag)
            && (forall k | 0 <= k < |s'.log.calls| :: s'.log.calls[k].at <= UnixSeconds(s'.now))
            && CallsOf(s'.log.admissions) == PassedCalls(s'.log.calls)
  {
    var Waiting(e, at) := s.submitters[i];
    assert Clocked(s, s.submitters[i]);
    var call := Call(e.idempotencyKey, at);
    LockCalls(s, i);
    LaggingStep(s.log.calls, call, cfg.lag, UnixSeconds(s.now));
    ReplayStep(s.log.calls, call);
  }

  lemma LockCalls(s: State, i: nat)
    requires i < |s.submitters| && s.submitters[i].Waiting?
    ensures var s' := AfterLock(s, i);
            var Waiting(e, at) := s.submitters[i];
            var call := Call(e.idempotencyKey, at);
            var (cache, pass) := Check(s.cache, call);
            && s'.now == s.now && s'.cache == cache && s'.log.calls == s.log.calls + [call]
            && CallsOf(s'.log.admissions) == CallsOf(s.log.admissions) + if pass then [call] else []
  {
    var Waiting(e, at) := s.submitters[i];
    AdmissionsStep(s.log.admissions, Admission(e, at, Pending));
  }

  lemma LaggingStep(calls: seq<Call>, call: Call, lag: nat, now: int)
    requires Lagging(calls, lag) && forall k | 0 <= k < |calls| :: calls[k].at <= now
    requires call.key != "" && 0 <= call.at <= now && now - call.at <= lag
    ensures Lagging(calls + [call], lag)
    ensures forall k | 0 <= k < |calls + [call]| :: (calls + [call])[k].at <= now
  {
  }

  lemma ReplayStep(calls: seq<Call>, call: Call)
    ensures var (cache, pass) := Check(Replay(calls), call);
            && Replay(calls + [call]) == cache
            && PassedCalls(calls + [call]) == PassedCalls(calls) + if pass then [call] else []
  {
    assert (calls + [call])[..|calls|] == calls;
  }

  lemma AdmissionsStep(admissions: seq<Admission>, a: Admission)
    ensures CallsOf(admissions + [a]) == CallsOf(admissions) + [CallOf(a)]
  {
  }

  // ---------- The fate of admitted events ----------

  lemma KeepsFates(cfg: Config, s: State, st: Step)
    requires Settled(s) && Enabled(cfg, s, st)
    ensures Settled(Apply(cfg, s, st))
  {
    if OfSubmitter(st) {
      SubmitterFates(cfg, s, st);
    } else {
      SubmitterFrame(cfg, s, st);
      FatesUntouched(s, Apply(cfg, s, st));
    }
  }

  lemma SubmitterFates(cfg: Config, s: State, st: Step)
    requires Settled(s) && Enabled(cfg, s, st) && OfSubmitter(st)
    ensures Settled(Apply(cfg, s, st))
  {
    match st {
      case Begin(i, ev) => SubmitterMoves(s, i, AfterBegin(s, i, ev));
      case ReadClock(i) => SubmitterMoves(s, i, Apply(cfg, s, st));
      case Lock(i) => LockSettles(s, i);
      case Send(i) => SendSettles(cfg, s, i);
      case HandOff(i, w) =>
        EnqueueSettles(s, i);
        FatesUntouched(AfterEnqueue(s, i), Apply(cfg, s, st));
    }
  }

  lemma FatesUntouched(s: State, s': State)
    requires Settled(s)
    requires s'.submitters == s.submitters && s'.log.admissions == s.log.admissions
    requires s'.log.enqueued == s.log.enqueued && s'.log.drops == s.log.drops
    ensures Settled(s')
  {
    forall k | 0 <= k < |s'.log.admissions| ensures FateHolds(s', k) {
      assert FateHolds(s, k);
    }
    forall i | 0 <= i < |s'.submitters| ensures SlotHolds(s', i) {
      assert SlotHolds(s, i);
    }
  }

  /** A submitter without a slot before and after does not matter to any fate. */
  lemma SubmitterMoves(s: State, i: nat, s': State)
    requires Settled(s) && i < |s.submitters| == |s'.submitters|
    requires s'.submitters == s.submitters[i := s'.submitters[i]]
    requires !SameSlot(s.submitters[i], s.submitters[i]) && !SameSlot(s'.submitters[i], s'.submitters[i])
    requires s'.log.admissions == s.log.admissions
    requires s'.log.enqueued == s.log.enqueued && s'.log.drops == s.log.drops
    ensures Settled(s')
  {
    forall k | 0 <= k < |s'.log.admissions| ensures FateHolds(s', k) {
      assert FateHolds(s, k);
      if s.log.admissions[k].fate == Pending {
        var j :| 0 <= j < |s.submitters| && s.submitters[j] == Sending(s.log.admissions[k].event, Some(k));
        assert s'.submitters[j] == s.submitters[j];
      }
    }
    forall j | 0 <= j < |s'.submitters| ensures SlotHolds(s', j) {
      assert SlotHolds(s, j);
    }
    forall a, b | 0 <= a < b < |s'.submitters| ensures !SameSlot(s'.submitters[a], s'.submitters[b]) {
      assert !SameSlot(s.submitters[a], s.submitters[b]);
    }
  }

  /** What the critical section does: the submitter is done with a duplicate, or its event is admitted. */
  lemma LockShape(s: State, i: nat)
    requires i < |s.submitters| && s.submitters[i].Waiting?
    ensures var s' := AfterLock(s, i);
            var Waiting(e, at) := s.submitters[i];
            && s'.log.enqueued == s.log.enqueued && s'.log.drops == s.log.drops
            && (|| (s'.submitters == s.submitters[i := Idle] && s'.log.admissions == s.log.admissions)
                || (&& s'.submitters == s.submitters[i := Sending(e, Some(|s.log.admissions|))]
                    && s'.log.admissions == s.log.admissions + [Admission(e, at, Pending)]))
  {
  }

  lemma LockSettles(s: State, i: nat)
    requires Settled(s) && i < |s.submitters| && s.submitters[i].Waiting?
    ensures Settled(AfterLock(s, i))
  {
    var s' := AfterLock(s, i);
    LockShape(s, i);
    if s'.submitters[i].Idle? {
      SubmitterMoves(s, i, s');
    } else {
      AdmissionSettles(s, i, s');
    }
  }

  lemma AdmissionSettles(s: State, i: nat, s': State)
    requires Settled(s) && i < |s.submitters| && s.submitters[i].Waiting?
    requires var Waiting(e, at) := s.submitters[i];
             && s'.submitters == s.submitters[i := Sending(e, Some(|s.log.admissions|))]
             && s'.log.admissions == s.log.admissions + [Admission(e, at, Pending)]
    requires s'.log.enqueued == s.log.enqueued && s'.log.drops == s.log.drops
    ensures Settled(s')
  {
    forall k | 0 <= k < |s'.log.admissions| ensures FateHolds(s', k) {
      if k < |s.log.admissions| {
        assert FateHolds(s, k);
        if s.log.admissions[k].fate == Pending {
          var j :| 0 <= j < |s.submitters| && s.submitters[j] == Sending(s.log.admissions[k].event, Some(k));
          assert s'.submitters[j] == s.submitters[j];
        }
      } else {
        assert s'.submitters[i] == Sending(s'.log.admissions[k].event, Some(k));
      }
    }
    forall j | 0 <= j < |s'.submitters| ensures SlotHolds(s', j) {
      assert SlotHolds(s, j);
    }
    forall a, b | 0 <= a < b < |s'.submitters| ensures !SameSlot(s'.submitters[a], s'.submitters[b]) {
      assert SlotHolds(s, a) && SlotHolds(s, b);
      assert !SameSlot(s.submitters[a], s.submitters[b]);
    }
  }

  /** Submitter i's send resolves: its own admission, and no other, gets this fate. */
  lemma SettlesOne(s: State, i: nat, fate: Fate, s': State)
    requires Settled(s) && i < |s.submitters| && s.submitters[i].Sending?
    requires s'.submitters == s.submitters[i := Idle]
    requires s'.log.admissions == Settle(s.log.admissions, s.submitters[i].slot, fate)
    requires s.log.enqueued <= s'.log.enqueued && s.log.drops <= s'.log.drops
    requires match fate
             case Enqueued(p) => p < |s'.log.enqueued| && s'.log.enqueued[p] == s.submitters[i].event
             case Dropped(p) => p < |s'.log.drops| && s'.log.drops[p] == s.submitters[i].event
             case Pending => false
    ensures Settled(s')
  {
    var Sending(e, slot) := s.submitters[i];
    assert SlotHolds(s, i);
    forall k | 0 <= k < |s'.log.admissions| ensures FateHolds(s', k) {
      assert FateHolds(s, k);
      if Some(k) != slot && s.log.admissions[k].fate == Pending {
        var j :| 0 <= j < |s.submitters| && s.submitters[j] == Sending(s.log.admissions[k].event, Some(k));
        assert s'.submitters[j] == s.submitters[j];
      }
    }
    forall j | 0 <= j < |s'.submitters| ensures SlotHolds(s', j) {
      assert SlotHolds(s, j);
      if j < i {
        assert !SameSlot(s.submitters[j], s.submitters[i]);
      } else if i < j {
        assert !SameSlot(s.submitters[i], s.submitters[j]);
      }
    }
    forall a, b | 0 <= a < b < |s'.submitters| ensures !SameSlot(s'.submitters[a], s'.submitters[b]) {
      assert !SameSlot(s.submitters[a], s.submitters[b]);
    }
  }

  lemma EnqueueSettles(s: State, i: nat)
    requires Settled(s) && i < |s.submitters| && s.submitters[i].Sending?
    ensures Settled(AfterEnqueue(s, i))
  {
    SettlesOne(s, i, Enqueued(|s.log.enqueued|), AfterEnqueue(s, i));
  }

  lemma SendSettles(cfg: Config, s: State, i: nat)
    requires Settled(s) && i < |s.submitters| && s.submitters[i].Sending?
    ensures Settled(AfterSend(cfg, s, i))
  {
    if |s.queue| < cfg.capacity {
      EnqueueSettles(s, i);
      FatesUntouched(AfterEnqueue(s, i), AfterSend(cfg, s, i));
    } else {
      SettlesOne(s, i, Dropped(|s.log.drops|), AfterSend(cfg, s, i));
    }
  }

  // ---------- The source of enqueued events ----------

  lemma KeepsSources(cfg: Config, s: State, st: Step)
    requires Sourced(s) && Settled(s) && Enabled(cfg, s, st)
    requires forall i | 0 <= i < |s.submitters| :: Clocked(s, s.submitters[i])
    ensures Sourced(Apply(cfg, s, st))
  {
    if OfSubmitter(st) {
      SubmitterSources(cfg, s, st);
    } else {
      SubmitterFrame(cfg, s, st);
      SourcesUntouched(s, Apply(cfg, s, st));
    }
  }

  lemma SubmitterSources(cfg: Config, s: State, st: Step)
    requires Sourced(s) && Settled(s) && Enabled(cfg, s, st) && OfSubmitter(st)
    requires Clocked(s, s.submitters[st.i])
    ensures Sourced(Apply(cfg, s, st))
  {
    match st {
      case Begin(i, ev) => SourcesUntouched(s, AfterBegin(s, i, ev));
      case ReadClock(i) => SourcesUntouched(s, Apply(cfg, s, st));
      case Lock(i) => LockSources(s, i);
      case Send(i) => SendSources(cfg, s, i);
      case HandOff(i, w) =>
        EnqueueSources(s, i);
        SourcesUntouched(AfterEnqueue(s, i), Apply(cfg, s, st));
    }
  }

  lemma SourcesUntouched(s: State, s': State)
    requires Sourced(s)
    requires s'.log.enqueued == s.log.enqueued && s'.log.admissions == s.log.admissions
    ensures Sourced(s')
  {
    forall p | 0 <= p < |s'.log.enqueued| ensures HasSource(s', p) {
      assert HasSource(s, p);
    }
  }

  lemma LockSources(s: State, i: nat)
    requires Sourced(s) && i < |s.submitters| && s.submitters[i].Waiting?
    ensures Sourced(AfterLock(s, i))
  {
    var s' := AfterLock(s, i);
    LockShape(s, i);
    forall p | 0 <= p < |s'.log.enqueued| ensures HasSource(s', p) {
      assert HasSource(s, p);
      if s.log.enqueued[p].idempotencyKey != "" {
        var k :| 0 <= k < |s.log.admissions| && SourceOf(s.log.admissions[k], p, s.log.enqueued[p]);
        assert s'.log.admissions[k] == s.log.admissions[k];
      }
    }
  }

  /** Settling a pending admission takes no other event's source away. */
  lemma SettleKeepsSource(s: State, i: nat, fate: Fate, p: nat)
    requires Settled(s) && i < |s.submitters| && s.submitters[i].Sending?
    requires p < |s.log.enqueued| && s.log.enqueued[p].idempotencyKey != "" && HasSource(s, p)
    ensures var settled := Settle(s.log.admissions, s.submitters[i].slot, fate);
            exists k | 0 <= k < |settled| :: SourceOf(settled[k], p, s.log.enqueued[p])
  {
    assert SlotHolds(s, i);
    var k :| 0 <= k < |s.log.admissions| && SourceOf(s.log.admissions[k], p, s.log.enqueued[p]);
    assert Settle(s.log.admissions, s.submitters[i].slot, fate)[k] == s.log.admissions[k];
  }

  lemma EnqueueSources(s: State, i: nat)
    requires Sourced(s) && Settled(s) && i < |s.submitters| && s.submitters[i].Sending?
    requires Clocked(s, s.submitters[i])
    ensures Sourced(AfterEnqueue(s, i))
  {
    var s' := AfterEnqueue(s, i);
    var n := |s.log.enqueued|;
    var Sending(e, slot) := s.submitters[i];
    forall p | 0 <= p < |s'.log.enqueued| ensures HasSource(s', p) {
      if p < n {
        assert HasSource(s, p);
        if s.log.enqueued[p].idempotencyKey != "" {
          SettleKeepsSource(s, i, Enqueued(n), p);
        }
      } else if e.idempotencyKey != "" {
        assert SlotHolds(s, i);
        assert SourceOf(s'.log.admissions[slot.value], n, e);
      }
    }
  }

  lemma SendSources(cfg: Config, s: State, i: nat)
    requires Sourced(s) && Settled(s) && i < |s.submitters| && s.submitters[i].Sending?
    requires Clocked(s, s.submitters[i])
    ensures Sourced(AfterSend(cfg, s, i))
  {
    if |s.queue| < cfg.capacity {
      EnqueueSources(s, i);
      SourcesUntouched(AfterEnqueue(s, i), AfterSend(cfg, s, i));
    } else {
      DropSources(cfg, s, i);
    }
  }

  lemma DropSources(cfg: Config, s: State, i: nat)
    requires Sourced(s) && Settled(s) && i < |s.submitters| && s.submitters[i].Sending?
    requires |s.queue| >= cfg.capacity
    ensures Sourced(AfterSend(cfg, s, i))
  {
    var s' := AfterSend(cfg, s, i);
    forall p | 0 <= p < |s'.log.enqueued| ensures HasSource(s', p) {
      assert HasSource(s, p);
      if s.log.enqueued[p].idempotencyKey != "" {
        SettleKeepsSource(s, i, Dropped(|s.log.drops|), p);
      }
    }
  }

  // ---------- All of them, over all runs ----------

  lemma KeepsInv(cfg: Config, s: State, st: Step)
    requires Inv(cfg, s)
    ensures Inv(cfg, Next(cfg, s, st))
  {
    if Enabled(cfg, s, st) {
      KeepsOrder(cfg, s, st);
      KeepsSizes(cfg, s, st);
      KeepsLifecycle(cfg, s, st);
      KeepsConservation(cfg, s, st);
      KeepsAccounts(cfg, s, st);
      KeepsScreening(cfg, s, st);
      KeepsReplay(cfg, s, st);
      KeepsFates(cfg, s, st);
      KeepsSources(cfg, s, st);
    }
  }

  lemma {:induction false} NoneWaiting(workers: seq<WorkerState>)
    requires forall w | 0 <= w < |workers| :: Held(workers[w]) == []
    ensures Waiters(workers) == multiset{} && InFlight(workers) == multiset{}
  {
    if workers != [] {
      assert Held(workers[|workers| - 1]) == [];
      NoneWaiting(workers[..|workers| - 1]);
    }
  }

  lemma {:induction false} IdleIsNotBusy(submitters: seq<Submitter>)
    requires AllIdle(submitters)
    ensures Busy(submitters) == 0
  {
    if submitters != [] {
      IdleIsNotBusy(submitters[..|submitters| - 1]);
    }
  }

  lemma InitInv(cfg: Config)
    ensures Inv(cfg, Init(cfg))
  {
    InitOrdered(cfg);
    InitConserved(cfg);
    InitReplayed(cfg);
  }

  lemma InitOrdered(cfg: Config)
    ensures Ordered(cfg, Init(cfg)) && Sized(cfg, Init(cfg))
  {
  }

  lemma InitConserved(cfg: Config)
    ensures Conserved(Init(cfg)) && Accounted(Init(cfg))
  {
    var s := Init(cfg);
    NoneWaiting(s.workers);
    IdleIsNotBusy(s.submitters);
    forall e ensures EventConserved(s, e) {
      assert Batches(s.log.flushed) == [];
    }
  }

  lemma InitReplayed(cfg: Config)
    ensures Screened(Init(cfg)) && Replayed(cfg, Init(cfg)) && Settled(Init(cfg)) && Sourced(Init(cfg))
    ensures Lifecycle(cfg, Init(cfg))
  {
    assert CallsOf(Init(cfg).log.admissions) == [];
  }

  lemma {:induction false} RunFromInv(cfg: Config, s: State, steps: seq<Step>)
    requires Inv(cfg, s)
    ensures Inv(cfg, RunFrom(cfg, s, steps))
  {
    if steps != [] {
      RunFromInv(cfg, s, steps[..|steps| - 1]);
      KeepsInv(cfg, RunFrom(cfg, s, steps[..|steps| - 1]), steps[|steps| - 1]);
    }
  }

  /** Every state of every run, for every configuration and interleaving, satisfies the invariants. */
  lemma RunInv(cfg: Config, steps: seq<Step>)
    ensures Inv(cfg, Run(cfg, steps))
  {
    InitInv(cfg);
    RunFromInv(cfg, Init(cfg), steps);
  }
}
