/**
 * The ingestion pipeline of internal/ingestion/pipeline.go as a transition system: any number of
 * submitters, a bounded FIFO channel, W workers, the depth scraper, cancellation and Stop,
 * interleaved in any order. A run is any sequence of steps; a step that is not enabled does nothing.
 */
module Protocol {
  import opened Models
  import opened Wrappers
  import opened Dedupe
  import opened BulkInserts
  import opened Batching

  /** The configuration, the initial wall-clock time (in nanoseconds after the Unix epoch), and the
      longest time in seconds a submitter waits between reading the clock and getting the mutex. */
  datatype Config = Config(
    capacity: nat, batchSize: nat, workers: nat, submitters: nat, scraper: bool, start: nat, lag: nat)

  /** Where a Submit stands. `slot` is the place of its event in the admission log, if it has a key. */
  datatype Submitter =
    | Idle
    | Validated(event: Event)
    | Waiting(event: Event, at: int)
    | Sending(event: Event, slot: Option<nat>)

  /** Where a worker stands: in the select, in BulkInsert because of that arm, or returned. */
  datatype WorkerState =
    | Selecting(batch: seq<Event>)
    | Inserting(batch: seq<Event>, arm: Arm)
    | Exited

  datatype Fate = Pending | Enqueued(position: nat) | Dropped(position: nat)

  datatype Admission = Admission(event: Event, at: int, fate: Fate)

  /** History of a run; the code keeps none of it. `takenBy` and `flushedBy` name the workers. */
  datatype Log = Log(
    submits: nat, duplicates: nat,
    calls: seq<Call>, admissions: seq<Admission>,
    enqueued: seq<Event>, drops: seq<Event>,
    taken: seq<Event>, takenBy: seq<nat>,
    flushed: seq<Flush>, flushedBy: seq<nat>)

  datatype State = State(
    now: Time,
    queue: seq<Event>,
    submitters: seq<Submitter>,
    workers: seq<WorkerState>,
    cache: Cache,
    cancelled: bool, closed: bool, scraperLive: bool, stopped: bool,
    accepted: int, rejected: nat, dropped: nat,
    store: seq<Event>,
    log: Log)

  datatype Step =
    | Advance(nanos: nat)
    | Begin(i: nat, event: Event)
    | ReadClock(i: nat)
    | Lock(i: nat)
    | Send(i: nat)
    | HandOff(i: nat, w: nat)
    | Take(w: nat)
    | Interval(w: nat)
    | SeeClosed(w: nat)
    | SeeDone(w: nat)
    | Finish(w: nat, outcome: Outcome)
    | Cancel
    | Close
    | ScraperLeaves
    | StopReturns

  function Init(cfg: Config): State {
    State(
      UNIX_EPOCH + cfg.start, [],
      seq(cfg.submitters, _ => Idle), seq(cfg.workers, _ => Selecting([])),
      EMPTY, false, false, cfg.scraper, false, 0, 0, 0, [],
      Log(0, 0, [], [], [], [], [], [], [], []))
  }

  predicate AllIdle(submitters: seq<Submitter>) {
    forall i | 0 <= i < |submitters| :: submitters[i].Idle?
  }

  predicate AllExited(workers: seq<WorkerState>) {
    forall w | 0 <= w < |workers| :: workers[w].Exited?
  }

  predicate InSelect(s: State, w: nat) {
    w < |s.workers| && s.workers[w].Selecting?
  }

  /** Submitting and closing respect Stop's contract: no Submit is in flight at, or begun after, the close. */
  predicate Enabled(cfg: Config, s: State, st: Step) {
    match st
    case Advance(_) => true
    case Begin(i, _) => i < |s.submitters| && s.submitters[i].Idle? && !s.closed
    case ReadClock(i) => i < |s.submitters| && s.submitters[i].Validated?
    case Lock(i) =>
      && i < |s.submitters| && s.submitters[i].Waiting?
      && UnixSeconds(s.now) - s.submitters[i].at <= cfg.lag
    case Send(i) => i < |s.submitters| && s.submitters[i].Sending?
    case HandOff(i, w) => cfg.capacity == 0 && i < |s.submitters| && s.submitters[i].Sending? && InSelect(s, w)
    case Take(w) => InSelect(s, w) && s.queue != []
    case Interval(w) => InSelect(s, w)
    case SeeClosed(w) => InSelect(s, w) && s.closed && s.queue == []
    case SeeDone(w) => InSelect(s, w) && s.cancelled
    case Finish(w, _) => w < |s.workers| && s.workers[w].Inserting?
    case Cancel => true
    case Close => !s.closed && AllIdle(s.submitters)
    case ScraperLeaves => s.scraperLive && s.cancelled
    case StopReturns => s.closed && AllExited(s.workers) && !s.scraperLive
  }

  function AfterBegin(s: State, i: nat, ev: Event): State
    requires i < |s.submitters|
  {
    var log := s.log.(submits := s.log.submits + 1);
    match Validate(ev, s.now)
    case Invalid(_) => s.(rejected := s.rejected + 1, log := log)
    case Ok(e) =>
      var phase := if e.idempotencyKey == "" then Sending(e, None) else Validated(e);
      s.(submitters := s.submitters[i := phase], log := log)
  }

  /** The critical section of `checkAndStoreDedup`. */
  function AfterLock(s: State, i: nat): State
    requires i < |s.submitters| && s.submitters[i].Waiting?
  {
    var Waiting(e, at) := s.submitters[i];
    var call := Call(e.idempotencyKey, at);
    var (cache, pass) := Check(s.cache, call);
    var log := s.log.(calls := s.log.calls + [call]);
    if pass then
      s.(cache := cache,
         submitters := s.submitters[i := Sending(e, Some(|s.log.admissions|))],
         log := log.(admissions := s.log.admissions + [Admission(e, at, Pending)]))
    else
      s.(cache := cache, submitters := s.submitters[i := Idle],
         log := log.(duplicates := s.log.duplicates + 1))
  }

  function Settle(admissions: seq<Admission>, slot: Option<nat>, fate: Fate): seq<Admission> {
    if slot.Some? && slot.value < |admissions|
    then admissions[slot.value := admissions[slot.value].(fate := fate)]
    else admissions
  }

  /** The channel has taken submitter i's event; the queue is the caller's to update. */
  function AfterEnqueue(s: State, i: nat): State
    requires i < |s.submitters| && s.submitters[i].Sending?
  {
    var Sending(e, slot) := s.submitters[i];
    s.(submitters := s.submitters[i := Idle],
       log := s.log.(
         enqueued := s.log.enqueued + [e],
         admissions := Settle(s.log.admissions, slot, Enqueued(|s.log.enqueued|))))
  }

  /** The non-blocking send; without room, and without a buffer, the default arm drops the event. */
  function AfterSend(cfg: Config, s: State, i: nat): State
    requires i < |s.submitters| && s.submitters[i].Sending?
  {
    var Sending(e, slot) := s.submitters[i];
    if |s.queue| < cfg.capacity then
      AfterEnqueue(s, i).(queue := s.queue + [e])
    else
      s.(submitters := s.submitters[i := Idle],
         dropped := s.dropped + 1,
         log := s.log.(
           drops := s.log.drops + [e],
           admissions := Settle(s.log.admissions, slot, Dropped(|s.log.drops|))))
  }

  /** Worker w gets an event from the channel; a batch that reaches the size goes to BulkInsert. */
  function AfterReceipt(cfg: Config, s: State, w: nat, e: Event): State
    requires InSelect(s, w)
  {
    var batch := s.workers[w].batch + [e];
    var phase := if |batch| >= cfg.batchSize then Inserting(batch, Receive(e)) else Selecting(batch);
    s.(workers := s.workers[w := phase],
       log := s.log.(taken := s.log.taken + [e], takenBy := s.log.takenBy + [w]))
  }

  /** An arm that flushes what there is, and perhaps returns. */
  function AfterFlush(s: State, w: nat, arm: Arm): State
    requires InSelect(s, w)
  {
    var batch := s.workers[w].batch;
    var phase :=
      if batch != [] then Inserting(batch, arm)
      else if Leaves(arm) then Exited
      else s.workers[w];
    s.(workers := s.workers[w := phase])
  }

  function AfterFinish(s: State, w: nat, o: Outcome): State
    requires w < |s.workers| && s.workers[w].Inserting?
  {
    var Inserting(batch, arm) := s.workers[w];
    s.(workers := s.workers[w := if Leaves(arm) then Exited else Selecting([])],
       accepted := s.accepted + Credited(o, |batch|),
       store := s.store + Stored(batch, o),
       log := s.log.(flushed := s.log.flushed + [Flush(batch, o)], flushedBy := s.log.flushedBy + [w]))
  }

  function Apply(cfg: Config, s: State, st: Step): State
    requires Enabled(cfg, s, st)
  {
    match st
    case Advance(nanos) => s.(now := s.now + nanos)
    case Begin(i, ev) => AfterBegin(s, i, ev)
    case ReadClock(i) =>
      s.(submitters := s.submitters[i := Waiting(s.submitters[i].event, UnixSeconds(s.now))])
    case Lock(i) => AfterLock(s, i)
    case Send(i) => AfterSend(cfg, s, i)
    case HandOff(i, w) => AfterReceipt(cfg, AfterEnqueue(s, i), w, s.submitters[i].event)
    case Take(w) => AfterReceipt(cfg, s.(queue := s.queue[1..]), w, s.queue[0])
    case Interval(w) => AfterFlush(s, w, Tick)
    case SeeClosed(w) => AfterFlush(s, w, ChannelClosed)
    case SeeDone(w) => AfterFlush(s, w, ContextDone)
    case Finish(w, o) => AfterFinish(s, w, o)
    case Cancel => s.(cancelled := true)
    case Close => s.(closed := true)
    case ScraperLeaves => s.(scraperLive := false)
    case StopReturns => s.(stopped := true)
  }

  function Next(cfg: Config, s: State, st: Step): State {
    if Enabled(cfg, s, st) then Apply(cfg, s, st) else s
  }

  function RunFrom(cfg: Config, s: State, steps: seq<Step>): State {
    if steps == [] then s
    else Next(cfg, RunFrom(cfg, s, steps[..|steps| - 1]), steps[|steps| - 1])
  }

  /** The state a run of the pipeline reaches. */
  function Run(cfg: Config, steps: seq<Step>): State {
    RunFrom(cfg, Init(cfg), steps)
  }

  lemma {:induction false} RunsCompose(cfg: Config, s: State, a: seq<Step>, b: seq<Step>)
    ensures RunFrom(cfg, s, a + b) == RunFrom(cfg, RunFrom(cfg, s, a), b)
  {
    if b == [] {
      assert a + b == a;
    } else {
      var n := |b| - 1;
      assert (a + b)[..|a + b| - 1] == a + b[..n];
      RunsCompose(cfg, s, a, b[..n]);
    }
  }

  // ---------- Vocabulary of the invariants ----------

  /** The items that belong to worker w, in order. */
  function By<T>(items: seq<T>, owners: seq<nat>, w: nat): seq<T>
    requires |items| == |owners|
  {
    if items == [] then []
    else
      var n := |items| - 1;
      By(items[..n], owners[..n], w) + if owners[n] == w then [items[n]] else []
  }

  /** The batch a worker holds, whether it waits in the select or inside BulkInsert. */
  function Held(ws: WorkerState): seq<Event> {
    if ws.Exited? then [] else ws.batch
  }

  function WaitingBag(ws: WorkerState): multiset<Event> {
    if ws.Selecting? then multiset(ws.batch) else multiset{}
  }

  function InsertingBag(ws: WorkerState): multiset<Event> {
    if ws.Inserting? then multiset(ws.batch) else multiset{}
  }

  /** The events in batches that wait for a flush. */
  function Waiters(workers: seq<WorkerState>): multiset<Event> {
    if workers == [] then multiset{}
    else Waiters(workers[..|workers| - 1]) + WaitingBag(workers[|workers| - 1])
  }

  /** The events inside a BulkInsert. */
  function InFlight(workers: seq<WorkerState>): multiset<Event> {
    if workers == [] then multiset{}
    else InFlight(workers[..|workers| - 1]) + InsertingBag(workers[|workers| - 1])
  }

  function Busy(submitters: seq<Submitter>): nat {
    if submitters == [] then 0
    else
      var n := |submitters| - 1;
      Busy(submitters[..n]) + if submitters[n].Idle? then 0 else 1
  }

  function AllStored(flushed: seq<Flush>): seq<Event> {
    if flushed == [] then []
    else
      var n := |flushed| - 1;
      AllStored(flushed[..n]) + Stored(flushed[n].batch, flushed[n].outcome)
  }

  /** The keyed calls that the dedupe cache let through, in order. */
  function PassedCalls(calls: seq<Call>): seq<Call> {
    if calls == [] then []
    else
      var n := |calls| - 1;
      PassedCalls(calls[..n]) + if Passes(calls, n) then [calls[n]] else []
  }

  function CallOf(a: Admission): Call {
    Call(a.event.idempotencyKey, a.at)
  }

  function CallsOf(admissions: seq<Admission>): seq<Call> {
    seq(|admissions|, k requires 0 <= k < |admissions| => CallOf(admissions[k]))
  }

  // ---------- The invariants ----------

  /** Channel order, and each worker has flushed or holds exactly what it took, in order. */
  ghost predicate Ordered(cfg: Config, s: State) {
    Channel(cfg, s) && WorkersInOrder(s)
  }

  /** What went into the bounded channel is what came out followed by what is still there. */
  predicate Channel(cfg: Config, s: State) {
    && |s.workers| == cfg.workers && |s.submitters| == cfg.submitters
    && |s.queue| <= cfg.capacity
    && s.log.enqueued == s.log.taken + s.queue
  }

  ghost predicate WorkersInOrder(s: State) {
    && |s.log.taken| == |s.log.takenBy| && |s.log.flushed| == |s.log.flushedBy|
    && forall w | 0 <= w < |s.workers| :: WorkerInOrder(s, w)
  }

  ghost predicate WorkerInOrder(s: State, w: nat)
    requires w < |s.workers|
    requires |s.log.taken| == |s.log.takenBy| && |s.log.flushed| == |s.log.flushedBy|
  {
    By(s.log.taken, s.log.takenBy, w) == Batches(By(s.log.flushed, s.log.flushedBy, w)) + Held(s.workers[w])
  }

  /** Batch sizes, in the select, in BulkInsert and in every flush made. */
  ghost predicate Sized(cfg: Config, s: State) {
    && (forall w | 0 <= w < |s.workers| :: WorkerSized(cfg, s.workers[w]))
    && (forall k | 0 <= k < |s.log.flushed| :: 1 <= |s.log.flushed[k].batch| <= Limit(cfg.batchSize))
  }

  predicate WorkerSized(cfg: Config, ws: WorkerState) {
    match ws
    case Selecting(batch) => |batch| < Limit(cfg.batchSize)
    case Inserting(batch, Receive(_)) => |batch| == Limit(cfg.batchSize)
    case Inserting(batch, _) => 1 <= |batch| < Limit(cfg.batchSize)
    case Exited => true
  }

  /** Shutdown: who may have left, and why. */
  ghost predicate Lifecycle(cfg: Config, s: State) {
    && (forall w | 0 <= w < |s.workers| :: MayHaveLeft(s, s.workers[w]))
    && Closing(cfg, s)
  }

  predicate Closing(cfg: Config, s: State) {
    && (s.closed ==> AllIdle(s.submitters))
    && (s.scraperLive ==> cfg.scraper)
    && (cfg.scraper && !s.scraperLive ==> s.cancelled)
    && (s.stopped ==> s.closed && AllExited(s.workers) && !s.scraperLive)
  }

  predicate MayHaveLeft(s: State, ws: WorkerState) {
    match ws
    case Selecting(_) => true
    case Inserting(_, ChannelClosed) => s.closed && s.queue == []
    case Inserting(_, ContextDone) => s.cancelled
    case Inserting(_, _) => true
    case Exited => s.cancelled || (s.closed && s.queue == [])
  }

  /** Every Submit and every event is in exactly one place. */
  ghost predicate Conserved(s: State) {
    Tallied(s) && forall e :: EventConserved(s, e)
  }

  /** Each Submit is counted once: as rejected, duplicate, dropped or enqueued, or it is still running. */
  predicate Tallied(s: State) {
    && s.log.submits == s.rejected + s.log.duplicates + s.dropped + |s.log.enqueued| + Busy(s.submitters)
    && |s.log.drops| == s.dropped
  }

  ghost predicate EventConserved(s: State, e: Event) {
    multiset(s.log.taken)[e] ==
    Waiters(s.workers)[e] + InFlight(s.workers)[e] + multiset(Batches(s.log.flushed))[e]
  }

  /** The counter and the collection follow from the flushes. */
  ghost predicate Accounted(s: State) {
    && s.accepted == TotalCredit(s.log.flushed)
    && s.store == AllStored(s.log.flushed)
  }

  /** Only valid, stamped events travel. */
  ghost predicate Screened(s: State) {
    && s.now >= UNIX_EPOCH
    && (forall i | 0 <= i < |s.submitters| :: s.submitters[i].Idle? || Admissible(s.submitters[i].event))
    && (forall k | 0 <= k < |s.log.enqueued| :: Admissible(s.log.enqueued[k]))
  }

  /** The cache is the replay of the calls, whose readings are at most `lag` out of order. */
  ghost predicate Replayed(cfg: Config, s: State) {
    && s.cache == Replay(s.log.calls)
    && Lagging(s.log.calls, cfg.lag)
    && (forall k | 0 <= k < |s.log.calls| :: s.log.calls[k].at <= UnixSeconds(s.now))
    && (forall i | 0 <= i < |s.submitters| :: Clocked(s, s.submitters[i]))
    && CallsOf(s.log.admissions) == PassedCalls(s.log.calls)
  }

  predicate Clocked(s: State, sub: Submitter) {
    match sub
    case Waiting(e, at) => e.idempotencyKey != "" && 0 <= at <= UnixSeconds(s.now)
    case Validated(e) => e.idempotencyKey != ""
    case Sending(e, None) => e.idempotencyKey == ""
    case _ => true
  }

  /** What became of each admitted event. */
  ghost predicate Settled(s: State) {
    && (forall k | 0 <= k < |s.log.admissions| :: FateHolds(s, k))
    && (forall i | 0 <= i < |s.submitters| :: SlotHolds(s, i))
    && (forall i, j | 0 <= i < j < |s.submitters| :: !SameSlot(s.submitters[i], s.submitters[j]))
  }

  predicate SameSlot(a: Submitter, b: Submitter) {
    a.Sending? && b.Sending? && a.slot.Some? && a.slot == b.slot
  }

  ghost predicate FateHolds(s: State, k: nat)
    requires k < |s.log.admissions|
  {
    var a := s.log.admissions[k];
    match a.fate
    case Enqueued(p) => p < |s.log.enqueued| && s.log.enqueued[p] == a.event
    case Dropped(p) => p < |s.log.drops| && s.log.drops[p] == a.event
    case Pending => Sending(a.event, Some(k)) in s.submitters
  }

  predicate SlotHolds(s: State, i: nat)
    requires i < |s.submitters|
  {
    var sub := s.submitters[i];
    sub.Sending? && sub.slot.Some? ==>
      && sub.slot.value < |s.log.admissions|
      && s.log.admissions[sub.slot.value].event == sub.event
      && s.log.admissions[sub.slot.value].fate == Pending
  }

  /** Every keyed event in the enqueue order is that of an admission which records its place there. */
  ghost predicate Sourced(s: State) {
    forall p | 0 <= p < |s.log.enqueued| :: HasSource(s, p)
  }

  ghost predicate HasSource(s: State, p: nat)
    requires p < |s.log.enqueued|
  {
    s.log.enqueued[p].idempotencyKey != "" ==>
      exists k | 0 <= k < |s.log.admissions| :: SourceOf(s.log.admissions[k], p, s.log.enqueued[p])
  }

  predicate SourceOf(a: Admission, p: nat, e: Event) {
    a.fate == Enqueued(p) && a.event == e
  }

  ghost predicate Inv(cfg: Config, s: State) {
    && Ordered(cfg, s)
    && Sized(cfg, s)
    && Lifecycle(cfg, s)
    && Conserved(s)
    && Accounted(s)
    && Screened(s)
    && Replayed(cfg, s)
    && Settled(s)
    && Sourced(s)
  }
}
