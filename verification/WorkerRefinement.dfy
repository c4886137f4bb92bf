/** Each worker of the pipeline, however interleaved, runs the sequential loop of Batching. */
module WorkerRefinement {
  import opened Models
  import opened BulkInserts
  import opened Batching
  import opened Protocol
  import opened ProtocolInvariants

  predicate Involves(st: Step, w: nat) {
    OfWorker(st) && st.w == w
  }

  /** The iteration of its loop that worker w completes in this step, if it completes one. */
  function TurnOf(cfg: Config, s: State, st: Step, w: nat): seq<Turn> {
    if !(Enabled(cfg, s, st) && Involves(st, w)) then []
    else match st
      case Take(_) => ReceiptTurn(cfg, s, w, s.queue[0])
      case HandOff(i, _) => ReceiptTurn(cfg, s, w, s.submitters[i].event)
      case Interval(_) => EmptyTurn(s, w, Tick)
      case SeeClosed(_) => EmptyTurn(s, w, ChannelClosed)
      case SeeDone(_) => EmptyTurn(s, w, ContextDone)
      case Finish(_, o) => [Turn(s.workers[w].arm, o)]
      case _ => []
  }

  function ReceiptTurn(cfg: Config, s: State, w: nat, e: Event): seq<Turn>
    requires InSelect(s, w)
  {
    if |s.workers[w].batch| + 1 >= cfg.batchSize then [] else [Turn(Receive(e), AllInserted)]
  }

  function EmptyTurn(s: State, w: nat, arm: Arm): seq<Turn>
    requires InSelect(s, w)
  {
    if s.workers[w].batch == [] then [Turn(arm, AllInserted)] else []
  }

  /** All iterations worker w has completed in a run. */
  function TurnsOf(cfg: Config, steps: seq<Step>, w: nat): seq<Turn> {
    if steps == [] then []
    else
      var n := |steps| - 1;
      TurnsOf(cfg, steps[..n], w) + TurnOf(cfg, Run(cfg, steps[..n]), steps[n], w)
  }

  /** Worker w of the pipeline is where the sequential loop is, or inside that loop's next flush. */
  predicate InStep(cfg: Config, s: State, w: nat, p: Progress)
    requires |s.log.flushed| == |s.log.flushedBy| && w < |s.workers|
  {
    && p.flushed == By(s.log.flushed, s.log.flushedBy, w)
    && match s.workers[w]
       case Selecting(batch) => !p.exited && p.batch == batch
       case Inserting(batch, Receive(e)) => !p.exited && batch == p.batch + [e] && |batch| >= cfg.batchSize
       case Inserting(batch, _) => !p.exited && p.batch == batch && batch != []
       case Exited => p.exited
  }

  function Advanced(cfg: Config, p: Progress, turns: seq<Turn>): Progress {
    if turns == [] || p.exited then p else TakeTurn(p, turns[0], cfg.batchSize)
  }

  lemma OthersFrame(cfg: Config, s: State, st: Step, w: nat)
    requires w < |s.workers| && Enabled(cfg, s, st) && !Involves(st, w)
    ensures var s' := Apply(cfg, s, st);
            && |s'.workers| == |s.workers| && s'.workers[w] == s.workers[w]
            && (!st.Finish? ==> s'.log.flushed == s.log.flushed && s'.log.flushedBy == s.log.flushedBy)
  {
    if !OfWorker(st) {
      WorkerFrame(cfg, s, st);
    }
  }

  lemma OthersInStep(cfg: Config, s: State, st: Step, w: nat, p: Progress)
    requires WorkersInOrder(s) && w < |s.workers| && Enabled(cfg, s, st) && !Involves(st, w)
    requires WorkersInOrder(Apply(cfg, s, st)) && InStep(cfg, s, w, p)
    ensures w < |Apply(cfg, s, st).workers| && InStep(cfg, Apply(cfg, s, st), w, p)
  {
    OthersFrame(cfg, s, st, w);
    if st.Finish? {
      ByStep(s.log.flushed, s.log.flushedBy, Flush(s.workers[st.w].batch, st.outcome), st.w, w);
      OtherFinish(cfg, s, st.w, st.outcome, w, p);
    }
  }

  lemma OtherFinish(cfg: Config, s: State, v: nat, o: Outcome, w: nat, p: Progress)
    requires WorkersInOrder(s) && w < |s.workers| && v < |s.workers| && v != w && s.workers[v].Inserting?
    requires InStep(cfg, s, w, p)
    ensures InStep(cfg, AfterFinish(s, v, o), w, p)
  {
    ByStep(s.log.flushed, s.log.flushedBy, Flush(s.workers[v].batch, o), v, w);
  }

  lemma FinishInStep(cfg: Config, s: State, w: nat, o: Outcome, p: Progress)
    requires WorkersInOrder(s) && w < |s.workers| && s.workers[w].Inserting?
    requires InStep(cfg, s, w, p)
    ensures InStep(cfg, AfterFinish(s, w, o), w, TakeTurn(p, Turn(s.workers[w].arm, o), cfg.batchSize))
  {
    ByStep(s.log.flushed, s.log.flushedBy, Flush(s.workers[w].batch, o), w, w);
  }

  lemma ReceiptInStep(cfg: Config, s: State, w: nat, e: Event, p: Progress)
    requires WorkersInOrder(s) && InSelect(s, w) && InStep(cfg, s, w, p)
    ensures InStep(cfg, AfterReceipt(cfg, s, w, e), w, Advanced(cfg, p, ReceiptTurn(cfg, s, w, e)))
  {
  }

  lemma FlushInStep(cfg: Config, s: State, w: nat, arm: Arm, p: Progress)
    requires WorkersInOrder(s) && InSelect(s, w) && InStep(cfg, s, w, p) && !arm.Receive?
    ensures InStep(cfg, AfterFlush(s, w, arm), w, Advanced(cfg, p, EmptyTurn(s, w, arm)))
  {
  }

  lemma OwnInStep(cfg: Config, s: State, st: Step, w: nat, p: Progress)
    requires Ordered(cfg, s) && w < |s.workers| && Enabled(cfg, s, st) && Involves(st, w)
    requires Ordered(cfg, Apply(cfg, s, st)) && InStep(cfg, s, w, p)
    ensures InStep(cfg, Apply(cfg, s, st), w, Advanced(cfg, p, TurnOf(cfg, s, st, w)))
  {
    match st {
      case Take(_) =>
        WorkersUntouched(s, s.(queue := s.queue[1..]));
        ReceiptInStep(cfg, s.(queue := s.queue[1..]), w, s.queue[0], p);
      case HandOff(i, _) =>
        WorkersUntouched(s, AfterEnqueue(s, i));
        ReceiptInStep(cfg, AfterEnqueue(s, i), w, s.submitters[i].event, p);
      case Interval(_) => FlushInStep(cfg, s, w, Tick, p);
      case SeeClosed(_) => FlushInStep(cfg, s, w, ChannelClosed, p);
      case SeeDone(_) => FlushInStep(cfg, s, w, ContextDone, p);
      case Finish(_, o) => FinishInStep(cfg, s, w, o, p);
    }
  }

  /** In every state of every run, worker w is in step with the sequential loop on its own turns. */
  lemma {:induction false} WorkersRunTheLoop(cfg: Config, steps: seq<Step>, w: nat)
    requires w < cfg.workers
    ensures var s := Run(cfg, steps);
            && |s.workers| == cfg.workers && |s.log.flushed| == |s.log.flushedBy|
            && InStep(cfg, s, w, Work(TurnsOf(cfg, steps, w), cfg.batchSize))
  {
    RunInv(cfg, steps);
    if steps != [] {
      var n := |steps| - 1;
      WorkersRunTheLoop(cfg, steps[..n], w);
      RunInv(cfg, steps[..n]);
      var s := Run(cfg, steps[..n]);
      var turns, more := TurnsOf(cfg, steps[..n], w), TurnOf(cfg, s, steps[n], w);
      OneStep(cfg, s, steps[n], w, Work(turns, cfg.batchSize));
      MoreWork(cfg, turns, more);
    }
  }

  lemma MoreWork(cfg: Config, turns: seq<Turn>, more: seq<Turn>)
    requires |more| <= 1
    ensures Work(turns + more, cfg.batchSize) == Advanced(cfg, Work(turns, cfg.batchSize), more)
  {
    if more == [] {
      assert turns + more == turns;
    } else {
      assert more == [more[0]];
      WorkStep(turns, more[0], cfg.batchSize);
    }
  }

  lemma OneStep(cfg: Config, s: State, st: Step, w: nat, p: Progress)
    requires Ordered(cfg, s) && Ordered(cfg, Next(cfg, s, st)) && w < |s.workers| && InStep(cfg, s, w, p)
    ensures |TurnOf(cfg, s, st, w)| <= 1
    ensures InStep(cfg, Next(cfg, s, st), w, Advanced(cfg, p, TurnOf(cfg, s, st, w)))
  {
    if Enabled(cfg, s, st) {
      if Involves(st, w) {
        OwnInStep(cfg, s, st, w, p);
      } else {
        OthersInStep(cfg, s, st, w, p);
      }
    }
  }
}
