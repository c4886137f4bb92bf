/**
 * What the pipeline can do next, at every point of every goroutine and whatever the others do: the
 * invariants bound the runs from above, these lemmas bound them from below.
 */
module Enablement {
  import opened Models
  import opened Wrappers
  import opened Dedupe
  import opened BulkInserts
  import opened Batching
  import opened Protocol

  /** A run begins at the configured time with nothing submitted, held or stored, everyone idle, the
      workers in their select, and the context live. */
  lemma StartIsEmpty(cfg: Config)
    ensures var s := Run(cfg, []);
            && s.now == 62_135_596_800_000_000_000 + cfg.start
            && |s.submitters| == cfg.submitters && AllIdle(s.submitters)
            && |s.workers| == cfg.workers && (forall w | 0 <= w < |s.workers| :: s.workers[w] == Selecting([]))
            && s.queue == [] && s.store == [] && s.cache == Cache(map[], 0)
            && !s.cancelled && !s.closed && !s.stopped && s.scraperLive == cfg.scraper
            && s.accepted == s.rejected == s.dropped == 0
            && s.log == Log(0, 0, [], [], [], [], [], [], [], [])
  {
  }

  // ---------- Submitters ----------

  /** An idle submitter may submit any event until the close. */
  lemma SubmitIsPossible(cfg: Config, s: State, i: nat, ev: Event) returns (st: Step)
    requires i < |s.submitters| && s.submitters[i].Idle? && !s.closed
    ensures var log := s.log.(submits := s.log.submits + 1);
            Next(cfg, s, st) ==
            match Validate(ev, s.now)
            case Invalid(_) => s.(rejected := s.rejected + 1, log := log)
            case Ok(e) =>
              var phase := if e.idempotencyKey == "" then Sending(e, None) else Validated(e);
              s.(submitters := s.submitters[i := phase], log := log)
  {
    st := Begin(i, ev);
  }

  /** A Submit under way may go on: read the clock now, enter the critical section within the allowed
      lag, and then enqueue if there is room or drop if there is none. */
  lemma SubmitterMayMove(cfg: Config, s: State, i: nat) returns (st: Step)
    requires i < |s.submitters| && !s.submitters[i].Idle?
    requires s.submitters[i].Waiting? ==> UnixSeconds(s.now) <= s.submitters[i].at + cfg.lag
    ensures match s.submitters[i]
            case Validated(e) =>
              Next(cfg, s, st) == s.(submitters := s.submitters[i := Waiting(e, UnixSeconds(s.now))])
            case Waiting(e, at) => Passed(s, Next(cfg, s, st), i, e, at)
            case Sending(e, _) => Resolved(cfg, s, Next(cfg, s, st), i, e)
  {
    match s.submitters[i] {
      case Validated(e) => st := ReadClock(i);
      case Waiting(e, at) =>
        st := Lock(i);
        LockPasses(cfg, s, i);
      case Sending(e, _) =>
        st := Send(i);
        SendResolves(cfg, s, i);
    }
  }

  lemma LockPasses(cfg: Config, s: State, i: nat)
    requires i < |s.submitters| && s.submitters[i].Waiting?
    requires UnixSeconds(s.now) <= s.submitters[i].at + cfg.lag
    ensures Passed(s, Next(cfg, s, Lock(i)), i, s.submitters[i].event, s.submitters[i].at)
  {
  }

  lemma SendResolves(cfg: Config, s: State, i: nat)
    requires i < |s.submitters| && s.submitters[i].Sending?
    ensures Resolved(cfg, s, Next(cfg, s, Send(i)), i, s.submitters[i].event)
  {
  }

  /** Submitter i's send is over: its event is at the end of the channel, or dropped for want of room. */
  predicate Resolved(cfg: Config, s: State, s': State, i: nat, e: Event)
    requires i < |s.submitters|
  {
    && SameWorkers(s, s') && s'.cache == s.cache && s'.submitters == s.submitters[i := Idle]
    && s'.rejected == s.rejected
    && if |s.queue| < cfg.capacity
       then && s'.queue == s.queue + [e] && s'.log.enqueued == s.log.enqueued + [e]
            && s'.dropped == s.dropped && s'.log.drops == s.log.drops
       else && s'.queue == s.queue && s'.log.enqueued == s.log.enqueued
            && s'.dropped == s.dropped + 1 && s'.log.drops == s.log.drops + [e]
  }

  predicate SameWorkers(s: State, s': State) {
    && s'.workers == s.workers && s'.accepted == s.accepted && s'.store == s.store
    && s'.log.taken == s.log.taken && s'.log.flushed == s.log.flushed
  }

  /** The critical section has run for the reading `at`: submitter i is done if the key was seen, and
      otherwise goes on to send. */
  predicate Passed(s: State, s': State, i: nat, e: Event, at: int)
    requires i < |s.submitters|
  {
    var call := Call(e.idempotencyKey, at);
    var (cache, pass) := Check(s.cache, call);
    && SameWorkers(s, s') && s'.queue == s.queue && s'.cache == cache
    && s'.rejected == s.rejected && s'.dropped == s.dropped
    && s'.log.calls == s.log.calls + [call]
    && s'.submitters == s.submitters[i := if pass then Sending(e, Some(|s.log.admissions|)) else Idle]
    && s'.log.admissions == s.log.admissions + if pass then [Admission(e, at, Pending)] else []
  }

  // ---------- Workers ----------

  /** The phase of a worker whose batch has just grown. */
  function Grown(cfg: Config, batch: seq<Event>, e: Event): WorkerState {
    if |batch| + 1 >= cfg.batchSize then Inserting(batch + [e], Receive(e)) else Selecting(batch + [e])
  }

  /** A worker in the select may always receive the front of the channel. */
  lemma ReceiveIsPossible(cfg: Config, s: State, w: nat) returns (st: Step)
    requires w < |s.workers| && s.workers[w].Selecting? && s.queue != []
    ensures var x := s.queue[0];
            Next(cfg, s, st) ==
            s.(queue := s.queue[1..],
               workers := s.workers[w := Grown(cfg, s.workers[w].batch, x)],
               log := s.log.(taken := s.log.taken + [x], takenBy := s.log.takenBy + [w]))
  {
    st := Take(w);
  }

  /** Without a buffer, a send and a worker in the select may meet. */
  lemma HandOffIsPossible(cfg: Config, s: State, i: nat, w: nat) returns (st: Step)
    requires cfg.capacity == 0 && i < |s.submitters| && s.submitters[i].Sending?
    requires w < |s.workers| && s.workers[w].Selecting?
    ensures var s' := Next(cfg, s, st);
            var e := s.submitters[i].event;
            && s'.submitters == s.submitters[i := Idle] && s'.queue == s.queue && s'.dropped == s.dropped
            && s'.workers == s.workers[w := Grown(cfg, s.workers[w].batch, e)]
            && s'.log.enqueued == s.log.enqueued + [e]
            && s'.log.taken == s.log.taken + [e] && s'.log.takenBy == s.log.takenBy + [w]
  {
    st := HandOff(i, w);
  }

  /** The state after worker w's bulk insert of this batch has ended in this way. */
  function Flushed(s: State, w: nat, batch: seq<Event>, o: Outcome, after: WorkerState): State
    requires w < |s.workers|
  {
    s.(workers := s.workers[w := after],
       accepted := s.accepted + Credited(o, |batch|),
       store := s.store + Stored(batch, o),
       log := s.log.(flushed := s.log.flushed + [Flush(batch, o)], flushedBy := s.log.flushedBy + [w]))
  }

  /** A bulk insert may end in any of its ways, at any time. */
  lemma InsertMayEnd(cfg: Config, s: State, w: nat, o: Outcome) returns (st: Step)
    requires w < |s.workers| && s.workers[w].Inserting?
    ensures var Inserting(batch, arm) := s.workers[w];
            var after := if arm.ChannelClosed? || arm.ContextDone? then Exited else Selecting([]);
            Next(cfg, s, st) == Flushed(s, w, batch, o, after)
  {
    st := Finish(w, o);
  }

  /** The arms of the select that are ready in a state. */
  predicate Ready(s: State, arm: Arm) {
    match arm
    case Receive(e) => s.queue != [] && e == s.queue[0]
    case ChannelClosed => s.closed && s.queue == []
    case ContextDone => s.cancelled
    case Tick => true
  }

  /** The state after worker w has completed an iteration that ends as in the sequential loop. */
  function AfterTurn(s: State, w: nat, arm: Arm, q: Progress): State
    requires w < |s.workers| && Ready(s, arm)
  {
    var got := if arm.Receive? then [s.queue[0]] else [];
    s.(queue := if arm.Receive? then s.queue[1..] else s.queue,
       workers := s.workers[w := if q.exited then Exited else Selecting(q.batch)],
       accepted := s.accepted + q.credited,
       store := s.store + AllStored(q.flushed),
       log := s.log.(taken := s.log.taken + got,
                     takenBy := s.log.takenBy + if arm.Receive? then [w] else [],
                     flushed := s.log.flushed + q.flushed,
                     flushedBy := s.log.flushedBy + if q.flushed == [] then [] else [w]))
  }

  /**
   * The converse of the refinement: whichever arm is ready and however its bulk insert ends, a worker
   * in the select may complete that iteration of the sequential loop, in any state of the others.
   */
  lemma TurnIsPossible(cfg: Config, s: State, w: nat, t: Turn) returns (steps: seq<Step>)
    requires w < |s.workers| && s.workers[w].Selecting? && Ready(s, t.arm)
    ensures var q := TakeTurn(Progress([], s.workers[w].batch, false, 0), t, cfg.batchSize);
            RunFrom(cfg, s, steps) == AfterTurn(s, w, t.arm, q)
  {
    if t.arm.Receive? {
      steps := ReceivingTurn(cfg, s, w, t);
    } else {
      steps := FlushingTurn(cfg, s, w, t);
    }
  }

  lemma OneStep(cfg: Config, s: State, st: Step)
    ensures RunFrom(cfg, s, [st]) == Next(cfg, s, st)
  {
    assert [st][..0] == [] && RunFrom(cfg, s, []) == s;
  }

  lemma TwoSteps(cfg: Config, s: State, a: Step, b: Step)
    ensures RunFrom(cfg, s, [a, b]) == Next(cfg, Next(cfg, s, a), b)
  {
    assert [a, b][..1] == [a];
    OneStep(cfg, s, a);
  }

  lemma StoredOnce(batch: seq<Event>, o: Outcome)
    ensures AllStored([Flush(batch, o)]) == Stored(batch, o)
  {
    assert [Flush(batch, o)][..0] == [] && AllStored([]) == [];
  }

  /** The state in which the arm's flush, if it makes one, takes place. */
  function AfterArm(s: State, w: nat, arm: Arm): State
    requires Ready(s, arm)
  {
    if !arm.Receive? then s
    else s.(queue := s.queue[1..],
            log := s.log.(taken := s.log.taken + [s.queue[0]], takenBy := s.log.takenBy + [w]))
  }

  lemma QuietTurn(s: State, w: nat, arm: Arm, q: Progress)
    requires w < |s.workers| && Ready(s, arm) && q.flushed == [] && q.credited == 0
    ensures AfterTurn(s, w, arm, q) ==
            AfterArm(s, w, arm).(workers := s.workers[w := if q.exited then Exited else Selecting(q.batch)])
  {
    assert s.store + AllStored([]) == s.store;
  }

  lemma FlushTurn(s: State, w: nat, arm: Arm, q: Progress, batch: seq<Event>, o: Outcome)
    requires w < |s.workers| && Ready(s, arm)
    requires q.flushed == [Flush(batch, o)] && q.credited == Credited(o, |batch|)
    ensures AfterTurn(s, w, arm, q) ==
            Flushed(AfterArm(s, w, arm), w, batch, o, if q.exited then Exited else Selecting(q.batch))
  {
    StoredOnce(batch, o);
  }

  /** A second look at the same worker overwrites the first. */
  lemma FlushedAfter(s: State, w: nat, ws: WorkerState, batch: seq<Event>, o: Outcome, after: WorkerState)
    requires w < |s.workers|
    ensures Flushed(s.(workers := s.workers[w := ws]), w, batch, o, after) == Flushed(s, w, batch, o, after)
  {
    assert s.workers[w := ws][w := after] == s.workers[w := after];
  }

  lemma ReceivingTurn(cfg: Config, s: State, w: nat, t: Turn) returns (steps: seq<Step>)
    requires w < |s.workers| && s.workers[w].Selecting? && Ready(s, t.arm) && t.arm.Receive?
    ensures var q := TakeTurn(Progress([], s.workers[w].batch, false, 0), t, cfg.batchSize);
            RunFrom(cfg, s, steps) == AfterTurn(s, w, t.arm, q)
  {
    var q := TakeTurn(Progress([], s.workers[w].batch, false, 0), t, cfg.batchSize);
    var take := ReceiveIsPossible(cfg, s, w);
    var mid := Next(cfg, s, take);
    assert mid == AfterArm(s, w, t.arm).(workers := mid.workers);
    if mid.workers[w].Selecting? {
      OneStep(cfg, s, take);
      QuietTurn(s, w, t.arm, q);
      steps := [take];
    } else {
      var finish := FillingTurn(cfg, s, mid, w, t);
      TwoSteps(cfg, s, take, finish);
      steps := [take, finish];
    }
  }

  /** The receipt filled the batch, and its bulk insert ends. */
  lemma FillingTurn(cfg: Config, s: State, mid: State, w: nat, t: Turn) returns (finish: Step)
    requires w < |s.workers| && s.workers[w].Selecting? && Ready(s, t.arm) && t.arm.Receive?
    requires var batch := s.workers[w].batch + [t.arm.event];
             && |batch| >= cfg.batchSize
             && mid == AfterArm(s, w, t.arm).(workers := s.workers[w := Inserting(batch, t.arm)])
    ensures var q := TakeTurn(Progress([], s.workers[w].batch, false, 0), t, cfg.batchSize);
            Next(cfg, mid, finish) == AfterTurn(s, w, t.arm, q)
  {
    var q := TakeTurn(Progress([], s.workers[w].batch, false, 0), t, cfg.batchSize);
    var batch := s.workers[w].batch + [t.arm.event];
    finish := InsertMayEnd(cfg, mid, w, t.outcome);
    FlushTurn(s, w, t.arm, q, batch, t.outcome);
    FlushedAfter(AfterArm(s, w, t.arm), w, mid.workers[w], batch, t.outcome, Selecting([]));
  }

  lemma FlushingTurn(cfg: Config, s: State, w: nat, t: Turn) returns (steps: seq<Step>)
    requires w < |s.workers| && s.workers[w].Selecting? && Ready(s, t.arm) && !t.arm.Receive?
    ensures var q := TakeTurn(Progress([], s.workers[w].batch, false, 0), t, cfg.batchSize);
            RunFrom(cfg, s, steps) == AfterTurn(s, w, t.arm, q)
  {
    var batch := s.workers[w].batch;
    var q := TakeTurn(Progress([], batch, false, 0), t, cfg.batchSize);
    var st := FlushMayBegin(cfg, s, w, t.arm);
    if batch == [] {
      OneStep(cfg, s, st);
      QuietTurn(s, w, t.arm, q);
      steps := [st];
    } else {
      var mid := Next(cfg, s, st);
      var finish := InsertMayEnd(cfg, mid, w, t.outcome);
      TwoSteps(cfg, s, st, finish);
      FlushTurn(s, w, t.arm, q, batch, t.outcome);
      FlushedAfter(s, w, mid.workers[w], batch, t.outcome, if q.exited then Exited else Selecting([]));
      steps := [st, finish];
    }
  }

  /** A ready arm other than the receiving one begins a flush of whatever there is. */
  lemma FlushMayBegin(cfg: Config, s: State, w: nat, arm: Arm) returns (st: Step)
    requires w < |s.workers| && s.workers[w].Selecting? && Ready(s, arm) && !arm.Receive?
    ensures var batch := s.workers[w].batch;
            Next(cfg, s, st) ==
            s.(workers := s.workers[w := if batch != [] then Inserting(batch, arm)
                                         else if arm.Tick? then s.workers[w] else Exited])
  {
    match arm {
      case Tick => st := Interval(w);
      case ChannelClosed => st := SeeClosed(w);
      case ContextDone => st := SeeDone(w);
    }
  }

  /** In particular the ticker may flush a batch that is not full, with any outcome. */
  lemma TickMayFlush(cfg: Config, s: State, w: nat, o: Outcome) returns (steps: seq<Step>)
    requires w < |s.workers| && s.workers[w].Selecting? && s.workers[w].batch != []
    ensures RunFrom(cfg, s, steps) == Flushed(s, w, s.workers[w].batch, o, Selecting([]))
  {
    steps := TurnIsPossible(cfg, s, w, Turn(Tick, o));
    StoredOnce(s.workers[w].batch, o);
  }

  // ---------- The surroundings ----------

  /** Time passes and the context is cancelled at any moment; the channel is closed when no Submit is
      under way; the scraper sees the cancellation; Stop returns once everyone has left. */
  lemma SurroundingsMayMove(cfg: Config, s: State, nanos: nat)
    ensures exists st :: Next(cfg, s, st) == s.(now := s.now + nanos)
    ensures exists st :: Next(cfg, s, st) == s.(cancelled := true)
    ensures !s.closed && AllIdle(s.submitters) ==> exists st :: Next(cfg, s, st) == s.(closed := true)
    ensures s.scraperLive && s.cancelled ==> exists st :: Next(cfg, s, st) == s.(scraperLive := false)
    ensures s.closed && AllExited(s.workers) && !s.scraperLive ==>
              exists st :: Next(cfg, s, st) == s.(stopped := true)
  {
    assert Next(cfg, s, Advance(nanos)) == s.(now := s.now + nanos);
    assert Next(cfg, s, Cancel) == s.(cancelled := true);
    if !s.closed && AllIdle(s.submitters) {
      assert Next(cfg, s, Close) == s.(closed := true);
    }
    if s.scraperLive && s.cancelled {
      assert Next(cfg, s, ScraperLeaves) == s.(scraperLive := false);
    }
    if s.closed && AllExited(s.workers) && !s.scraperLive {
      assert Next(cfg, s, StopReturns) == s.(stopped := true);
    }
  }
}
