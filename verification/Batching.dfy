/**
 * The worker loop of internal/ingestion/pipeline.go: a batch that grows in a reused buffer and is
 * flushed by size, by the interval ticker, when the channel is closed or when the context is done.
 */
module Batching {
  import opened Models
  import opened BulkInserts

  /** The ways one `select` of the loop can resolve. */
  datatype Arm = Receive(event: Event) | ChannelClosed | ContextDone | Tick

  /** One iteration: the arm taken and the outcome of a bulk insert, should the arm flush. */
  datatype Turn = Turn(arm: Arm, outcome: Outcome)

  datatype Flush = Flush(batch: seq<Event>, outcome: Outcome)

  /** All a worker has flushed so far, the batch it holds, whether it has returned, and what it has
      added to the counter of accepted events. */
  datatype Progress = Progress(flushed: seq<Flush>, batch: seq<Event>, exited: bool, credited: int)

  const START: Progress := Progress([], [], false, 0)

  /** The inner function `flush`: a failed insert empties the batch like a successful one. */
  function FlushBatch(p: Progress, o: Outcome): Progress {
    if p.batch == [] then p
    else Progress(p.flushed + [Flush(p.batch, o)], [], p.exited, p.credited + Credited(o, |p.batch|))
  }

  function TakeTurn(p: Progress, t: Turn, size: nat): Progress
    requires !p.exited
  {
    match t.arm
    case Receive(e) =>
      var q := p.(batch := p.batch + [e]);
      if |q.batch| >= size then FlushBatch(q, t.outcome) else q
    case Tick => FlushBatch(p, t.outcome)
    case ChannelClosed => FlushBatch(p, t.outcome).(exited := true)
    case ContextDone => FlushBatch(p, t.outcome).(exited := true)
  }

  /** The worker after these turns; turns past its return are ignored. */
  function Work(turns: seq<Turn>, size: nat): Progress {
    if turns == [] then START
    else
      var p := Work(turns[..|turns| - 1], size);
      if p.exited then p else TakeTurn(p, turns[|turns| - 1], size)
  }

  predicate Leaves(arm: Arm) {
    arm.ChannelClosed? || arm.ContextDone?
  }

  /** The events taken from the channel: those of the receiving turns before the worker leaves. */
  function Taken(turns: seq<Turn>): seq<Event> {
    if turns == [] || Leaves(turns[0].arm) then []
    else (if turns[0].arm.Receive? then [turns[0].arm.event] else []) + Taken(turns[1..])
  }

  function Batches(flushed: seq<Flush>): seq<Event> {
    if flushed == [] then [] else Batches(flushed[..|flushed| - 1]) + flushed[|flushed| - 1].batch
  }

  /** A batch size of zero makes every receipt flush, exactly as a batch size of one. */
  function Limit(size: nat): nat {
    if size == 0 then 1 else size
  }

  ghost predicate WellBatched(p: Progress, size: nat) {
    && |p.batch| < Limit(size)
    && (p.exited ==> p.batch == [])
    && forall i | 0 <= i < |p.flushed| :: 1 <= |p.flushed[i].batch| <= Limit(size)
  }

  lemma {:induction false} TakenStep(turns: seq<Turn>, t: Turn)
    ensures Taken(turns + [t]) ==
            Taken(turns) + if t.arm.Receive? && !SomeLeaves(turns) then [t.arm.event] else []
  {
    if turns == [] {
      assert turns + [t] == [t];
      assert [t][1..] == [];
    } else {
      assert (turns + [t])[1..] == turns[1..] + [t];
      TakenStep(turns[1..], t);
      SomeLeavesTail(turns);
    }
  }

  lemma SomeLeavesTail(turns: seq<Turn>)
    requires turns != []
    ensures SomeLeaves(turns) <==> Leaves(turns[0].arm) || SomeLeaves(turns[1..])
  {
    assert forall i | 1 <= i < |turns| :: turns[i] == turns[1..][i - 1];
    assert forall i | 0 <= i < |turns| - 1 :: turns[1..][i] == turns[i + 1];
  }

  lemma BatchesStep(flushed: seq<Flush>, f: Flush)
    ensures Batches(flushed + [f]) == Batches(flushed) + f.batch
  {
    assert (flushed + [f])[..|flushed|] == flushed;
  }

  /** One iteration: a receipt flushes exactly when it fills the batch, any other arm flushes all. */
  lemma TurnConserves(p: Progress, t: Turn, size: nat)
    requires !p.exited && WellBatched(p, size)
    ensures var q := TakeTurn(p, t, size);
            && Batches(q.flushed) + q.batch ==
               Batches(p.flushed) + p.batch + (if t.arm.Receive? then [t.arm.event] else [])
            && WellBatched(q, size)
            && q.exited == (t.arm.ChannelClosed? || t.arm.ContextDone?)
            && (t.arm.Receive? ==> (q.flushed != p.flushed <==> |p.batch| + 1 >= size))
            && (!t.arm.Receive? ==> q.batch == [])
            && (q.flushed != p.flushed ==> |q.flushed| == |p.flushed| + 1 && q.flushed[|p.flushed|].outcome == t.outcome)
  {
    var held := if t.arm.Receive? then p.batch + [t.arm.event] else p.batch;
    BatchesStep(p.flushed, Flush(held, t.outcome));
    var q := TakeTurn(p, t, size);
    assert q.batch == held || q.flushed == p.flushed + [Flush(held, t.outcome)];
    assert Batches(p.flushed) + held ==
           Batches(p.flushed) + p.batch + (if t.arm.Receive? then [t.arm.event] else []);
  }

  /** Whether some turn makes the worker leave. */
  ghost predicate SomeLeaves(turns: seq<Turn>) {
    exists i | 0 <= i < |turns| :: Leaves(turns[i].arm)
  }

  lemma SomeLeavesStep(turns: seq<Turn>, t: Turn)
    ensures SomeLeaves(turns + [t]) <==> SomeLeaves(turns) || Leaves(t.arm)
  {
    var longer := turns + [t];
    assert forall i | 0 <= i < |turns| :: longer[i] == turns[i];
    assert longer[|turns|] == t;
  }

  lemma WorkStep(turns: seq<Turn>, t: Turn, size: nat)
    ensures Work(turns + [t], size) ==
            var p := Work(turns, size); if p.exited then p else TakeTurn(p, t, size)
  {
    assert (turns + [t])[..|turns|] == turns;
  }

  /** Between the channel and `BulkInsert` nothing is lost, repeated or reordered; every flush hands
      over between one event and a full batch; the batch is never full when a turn begins. */
  lemma {:induction false} WorkConserves(turns: seq<Turn>, size: nat)
    ensures var p := Work(turns, size);
            && Batches(p.flushed) + p.batch == Taken(turns)
            && WellBatched(p, size)
            && (forall k | 0 <= k < |p.flushed| :: 1 <= |p.flushed[k].batch| <= if size == 0 then 1 else size)
            && (p.exited <==> SomeLeaves(turns))
  {
    if turns != [] {
      var n := |turns| - 1;
      var before, t := turns[..n], turns[n];
      WorkConserves(before, size);
      assert turns == before + [t];
      WorkStep(before, t, size);
      TakenStep(before, t);
      SomeLeavesStep(before, t);
      if !Work(before, size).exited {
        TurnConserves(Work(before, size), t, size);
      }
    }
  }

  // ---------- The same loop over arrays ----------

  /** The part of `Store` a worker sees: the slices handed to the driver, which the driver keeps. */
  class Store {
    var writes: seq<array<Event>>
    var outcomes: seq<Outcome>

    ghost var flushes: seq<Flush> // the batches and outcomes, in order

    /** Every slice handed over still holds the batch it was handed over with. */
    ghost predicate Valid()
      reads this, writes
    {
      && |writes| == |outcomes| == |flushes|
      && forall i | 0 <= i < |writes| :: flushes[i] == Flush(writes[i][..], outcomes[i])
    }

    constructor ()
      ensures Valid() && flushes == [] && writes == []
    {
      writes, outcomes, flushes := [], [], [];
    }

    /** Copies the first n events into a slice of its own before it calls the driver. */
    method BulkInsert(events: array<Event>, n: nat, outcome: Outcome) returns (inserted: int, failed: bool)
      requires Valid() && n <= events.Length && events !in writes
      modifies this
      ensures Valid() && events !in writes
      ensures n == 0 ==> flushes == old(flushes) && inserted == 0 && !failed
      ensures n > 0 ==> flushes == old(flushes) + [Flush(events[..n], outcome)]
      ensures n > 0 ==> inserted == Credited(outcome, n) && failed == outcome.CallFailed?
      ensures forall a | a in writes :: a in old(writes) || fresh(a)
    {
      if n == 0 {
        return 0, false;
      }
      var docs := new Event[n];
      for i := 0 to n
        invariant docs[..i] == events[..i]
        modifies docs
      {
        docs[i] := events[i];
      }
      assert docs[..] == events[..n];
      writes, outcomes := writes + [docs], outcomes + [outcome];
      flushes := flushes + [Flush(docs[..], outcome)];
      match outcome {
        case AllInserted => return n, false;
        case WriteErrors(failing) => return n - |failing|, false;
        case CallFailed(_) => return 0, true;
      }
    }
  }

  /** Sum of the counts returned by a sequence of bulk inserts. */
  function TotalCredit(flushed: seq<Flush>): int {
    if flushed == [] then 0
    else
      var last := flushed[|flushed| - 1];
      TotalCredit(flushed[..|flushed| - 1]) + Credited(last.outcome, |last.batch|)
  }

  lemma TotalCreditStep(flushed: seq<Flush>, f: Flush)
    ensures TotalCredit(flushed + [f]) == TotalCredit(flushed) + Credited(f.outcome, |f.batch|)
  {
    assert (flushed + [f])[..|flushed|] == flushed;
  }

  /** What one run of `flush` hands over: the batch, if there is one. */
  function HandedOver(p: Progress, o: Outcome): seq<Flush> {
    if p.batch == [] then [] else [Flush(p.batch, o)]
  }

  lemma FlushAccounts(p: Progress, o: Outcome, earlier: seq<Flush>)
    ensures earlier + FlushBatch(p, o).flushed == (earlier + p.flushed) + HandedOver(p, o)
  {
  }

  /** What a worker adds to the counter is the sum of the counts its bulk inserts return. */
  lemma {:induction false} WorkCredits(turns: seq<Turn>, size: nat)
    ensures Work(turns, size).credited == TotalCredit(Work(turns, size).flushed)
  {
    if turns != [] {
      var n := |turns| - 1;
      WorkCredits(turns[..n], size);
      var p := Work(turns[..n], size);
      if !p.exited {
        TurnCredits(p, turns[n], size);
      }
    }
  }

  lemma TurnCredits(p: Progress, t: Turn, size: nat)
    requires !p.exited && p.credited == TotalCredit(p.flushed)
    ensures TakeTurn(p, t, size).credited == TotalCredit(TakeTurn(p, t, size).flushed)
  {
    var held := if t.arm.Receive? then p.batch + [t.arm.event] else p.batch;
    TotalCreditStep(p.flushed, Flush(held, t.outcome));
  }

  lemma WorkNext(turns: seq<Turn>, i: nat, size: nat)
    requires i < |turns| && !Work(turns[..i], size).exited
    ensures Work(turns[..i + 1], size) == TakeTurn(Work(turns[..i], size), turns[i], size)
  {
    assert turns[..i + 1] == turns[..i] + [turns[i]];
    WorkStep(turns[..i], turns[i], size);
  }

  lemma {:induction false} WorkAfterLeaving(turns: seq<Turn>, size: nat, i: nat)
    requires i <= |turns| && Work(turns[..i], size).exited
    ensures Work(turns, size) == Work(turns[..i], size)
  {
    if i < |turns| {
      var n := |turns| - 1;
      assert turns[..n][..i] == turns[..i];
      WorkAfterLeaving(turns[..n], size, i);
    } else {
      assert turns[..i] == turns;
    }
  }

  class Worker {
    const size: nat
    const store: Store
    var buffer: array<Event>
    var length: nat
    var accepted: int
    ghost var progress: Progress
    ghost const earlier: seq<Flush> // what the store held before this worker started

    ghost predicate Valid()
      reads this, store, buffer, store.writes
    {
      && Consistent()
      && length < Limit(size)
      && (size > 0 ==> buffer.Length == size)
    }

    /** The array, the counter and the store agree with the progress; inside an iteration the batch
        may be full. */
    ghost predicate Consistent()
      reads this, store, buffer, store.writes
    {
      && store.Valid()
      && length <= buffer.Length
      && buffer !in store.writes
      && buffer[..length] == progress.batch
      && accepted == progress.credited
      && store.flushes == earlier + progress.flushed
    }

    constructor (size: nat, store: Store)
      requires store.Valid()
      ensures Valid() && this.size == size && this.store == store && progress == START
      ensures earlier == store.flushes && fresh(buffer)
    {
      this.size := size;
      this.store := store;
      buffer, length := new Event[size], 0;
      accepted, progress := 0, START;
      earlier := store.flushes;
    }

    /** Go's append: in place while there is room, into a larger array otherwise. */
    method Append(e: Event)
      requires store.Valid() && length <= buffer.Length && buffer !in store.writes
      modifies this`buffer, this`length, this`progress, buffer
      ensures length == old(length) + 1 && length <= buffer.Length
      ensures progress == old(progress).(batch := old(progress).batch + [e])
      ensures old(Consistent()) ==> Consistent()
      ensures buffer[..length] == old(buffer[..length]) + [e]
      ensures buffer !in store.writes
      ensures old(length) < old(buffer.Length) ==> buffer == old(buffer)
      ensures buffer == old(buffer) || fresh(buffer)
      ensures store.flushes == old(store.flushes)
    {
      if length == buffer.Length {
        var grown := new Event[2 * length + 1];
        for i := 0 to length
          invariant grown[..i] == buffer[..i]
          modifies grown
        {
          grown[i] := buffer[i];
        }
        buffer := grown;
      }
      buffer[length] := e;
      length := length + 1;
      progress := progress.(batch := progress.batch + [e]);
    }

    /** The inner function `flush`; it truncates the batch and keeps the buffer. */
    method FlushNow(outcome: Outcome)
      requires store.Valid() && length <= buffer.Length && buffer !in store.writes
      requires buffer[..length] == progress.batch
      modifies this`length, this`accepted, this`progress, store
      ensures store.Valid() && length == 0 && buffer !in store.writes
      ensures progress == FlushBatch(old(progress), outcome)
      ensures progress.batch == []
      ensures accepted == old(accepted) +
                          if old(length) == 0 then 0 else Credited(outcome, old(length))
      ensures store.flushes == old(store.flushes) + HandedOver(old(progress), outcome)
      ensures forall a | a in store.writes :: a in old(store.writes) || fresh(a)
      ensures old(Consistent()) ==> Consistent()
    {
      FlushAccounts(progress, outcome, earlier);
      if length == 0 {
        return;
      }
      var inserted, failed := store.BulkInsert(buffer, length, outcome);
      accepted := accepted + inserted;
      length := 0;
      progress := FlushBatch(progress, outcome);
    }

    /** The receiving arm: append, and flush a batch that has reached the size. */
    method Accept(e: Event, outcome: Outcome)
      requires Valid() && !progress.exited
      modifies this`buffer, this`length, this`accepted, this`progress, buffer, store
      ensures Valid() && progress == TakeTurn(old(progress), Turn(Receive(e), outcome), size)
      ensures size > 0 ==> buffer == old(buffer)
      ensures buffer == old(buffer) || fresh(buffer)
    {
      Append(e);
      if length >= size {
        FlushNow(outcome);
      }
    }

    /** The other arms: flush whatever the batch holds, and perhaps leave. */
    method FlushPartial(arm: Arm, outcome: Outcome)
      requires Valid() && !progress.exited && !arm.Receive?
      modifies this`length, this`accepted, this`progress, store
      ensures Valid() && progress == TakeTurn(old(progress), Turn(arm, outcome), size)
    {
      FlushNow(outcome);
      progress := progress.(exited := Leaves(arm));
    }

    /** One iteration of the loop; returns whether the worker leaves it. */
    method Iterate(t: Turn) returns (leaves: bool)
      requires Valid() && !progress.exited
      modifies this`buffer, this`length, this`accepted, this`progress, buffer, store
      ensures Valid() && progress == TakeTurn(old(progress), t, size)
      ensures leaves == progress.exited
      ensures size > 0 ==> buffer == old(buffer)
      ensures buffer == old(buffer) || fresh(buffer)
    {
      match t.arm {
        case ContextDone =>
          FlushPartial(ContextDone, t.outcome);
          return true;
        case ChannelClosed =>
          FlushPartial(ChannelClosed, t.outcome);
          return true;
        case Receive(e) =>
          Accept(e, t.outcome);
          return false;
        case Tick =>
          FlushPartial(Tick, t.outcome);
          return false;
      }
    }

    /**
     * The loop itself, driven by how each `select` resolves and how each bulk insert ends. It hands
     * the driver exactly the batches of `Work`; for a positive batch size the buffer is never
     * replaced, and reusing it never disturbs a slice handed over earlier.
     */
    method Run(turns: seq<Turn>)
      requires Valid() && progress == START
      modifies this`buffer, this`length, this`accepted, this`progress, buffer, store
      ensures Valid() && progress == Work(turns, size)
      ensures old(store.flushes) == earlier
      ensures store.flushes == earlier + Work(turns, size).flushed
      ensures buffer[..length] == Work(turns, size).batch
      ensures accepted == TotalCredit(Work(turns, size).flushed)
      ensures size > 0 ==> buffer == old(buffer)
    {
      WorkCredits(turns, size);
      assert store.flushes == earlier;
      for i := 0 to |turns|
        invariant Valid() && progress == Work(turns[..i], size) && !progress.exited
        invariant size > 0 ==> buffer == old(buffer)
        invariant buffer == old(buffer) || fresh(buffer)
      {
        WorkNext(turns, i, size);
        var leaves := Iterate(turns[i]);
        if leaves {
          WorkAfterLeaving(turns, size, i + 1);
          return;
        }
      }
      assert turns[..|turns|] == turns;
    }
  }
}
