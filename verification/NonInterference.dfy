/**
 * What passes dedupe depends on the keyed valid submissions, their clock readings and the order of
 * the critical sections alone: capacity, workers, drops, ticks, bulk inserts, cancellation, invalid
 * and unkeyed submissions, and the sends themselves cannot influence it.
 */
module NonInterference {
  import opened Models
  import opened Dedupe
  import opened Protocol
  import opened ProtocolInvariants

  /** A submitter as the dedupe cache sees it: only between validation and the critical section. */
  datatype Phase = Outside | Entered(key: string) | Timed(key: string, at: int)

  /** The dedupe cache on its own: who is about to use it, its contents, the calls and those passed. */
  datatype Gate = Gate(phases: seq<Phase>, cache: Cache, calls: seq<Call>, passed: seq<Call>)

  /** All that reaches it: a keyed valid submission, a clock reading, a turn in the critical section. */
  datatype Sign = Enter(i: nat, key: string) | Read(i: nat, at: int) | Section(i: nat)

  function Follow(g: Gate, sign: Sign): Gate {
    if sign.i >= |g.phases| then g
    else match sign
      case Enter(i, key) => g.(phases := g.phases[i := Entered(key)])
      case Read(i, at) =>
        if g.phases[i].Entered? then g.(phases := g.phases[i := Timed(g.phases[i].key, at)]) else g
      case Section(i) =>
        if g.phases[i].Timed? then
          var call := Call(g.phases[i].key, g.phases[i].at);
          var (cache, pass) := Check(g.cache, call);
          Gate(g.phases[i := Outside], cache, g.calls + [call], g.passed + if pass then [call] else [])
        else g
  }

  function FollowAll(g: Gate, signs: seq<Sign>): Gate {
    if signs == [] then g
    else Follow(FollowAll(g, signs[..|signs| - 1]), signs[|signs| - 1])
  }

  function NewGate(submitters: nat): Gate {
    Gate(seq(submitters, _ => Outside), EMPTY, [], [])
  }

  // ---------- The gate inside the pipeline ----------

  function PhaseOf(sub: Submitter): Phase {
    match sub
    case Validated(e) => Entered(e.idempotencyKey)
    case Waiting(e, at) => Timed(e.idempotencyKey, at)
    case _ => Outside
  }

  function PhasesOf(submitters: seq<Submitter>): seq<Phase> {
    seq(|submitters|, i requires 0 <= i < |submitters| => PhaseOf(submitters[i]))
  }

  function GateOf(s: State): Gate {
    Gate(PhasesOf(s.submitters), s.cache, s.log.calls, CallsOf(s.log.admissions))
  }

  function SignOf(cfg: Config, s: State, st: Step): seq<Sign> {
    if !Enabled(cfg, s, st) then []
    else match st
      case Begin(i, ev) => if Acceptable(ev) && ev.idempotencyKey != "" then [Enter(i, ev.idempotencyKey)] else []
      case ReadClock(i) => [Read(i, UnixSeconds(s.now))]
      case Lock(i) => [Section(i)]
      case _ => []
  }

  /** What a run shows to the dedupe cache. */
  function Schedule(cfg: Config, steps: seq<Step>): seq<Sign> {
    if steps == [] then []
    else
      var n := |steps| - 1;
      Schedule(cfg, steps[..n]) + SignOf(cfg, Run(cfg, steps[..n]), steps[n])
  }

  lemma PhasesUpdate(submitters: seq<Submitter>, i: nat, sub: Submitter)
    requires i < |submitters|
    ensures PhasesOf(submitters[i := sub]) == PhasesOf(submitters)[i := PhaseOf(sub)]
    ensures PhaseOf(sub) == PhaseOf(submitters[i]) ==> PhasesOf(submitters[i := sub]) == PhasesOf(submitters)
  {
  }

  function Shown(g: Gate, signs: seq<Sign>): Gate
    requires |signs| <= 1
  {
    if signs == [] then g else Follow(g, signs[0])
  }

  lemma GateStep(cfg: Config, s: State, st: Step)
    ensures |SignOf(cfg, s, st)| <= 1
    ensures GateOf(Next(cfg, s, st)) == Shown(GateOf(s), SignOf(cfg, s, st))
  {
    if Enabled(cfg, s, st) {
      if OfSubmitter(st) {
        SubmitterGate(cfg, s, st);
      } else {
        SubmitterFrame(cfg, s, st);
      }
    }
  }

  lemma SubmitterGate(cfg: Config, s: State, st: Step)
    requires Enabled(cfg, s, st) && OfSubmitter(st)
    ensures |SignOf(cfg, s, st)| <= 1
    ensures GateOf(Apply(cfg, s, st)) == Shown(GateOf(s), SignOf(cfg, s, st))
  {
    match st {
      case Begin(i, ev) => BeginGate(s, i, ev);
      case ReadClock(i) => PhasesUpdate(s.submitters, i, Waiting(s.submitters[i].event, UnixSeconds(s.now)));
      case Lock(i) => LockGate(s, i);
      case Send(i) => SendGate(cfg, s, i);
      case HandOff(i, w) =>
        SendGate(cfg, s, i);
        assert GateOf(Apply(cfg, s, st)) == GateOf(AfterEnqueue(s, i));
    }
  }

  lemma BeginGate(s: State, i: nat, ev: Event)
    requires i < |s.submitters| && s.submitters[i].Idle?
    ensures GateOf(AfterBegin(s, i, ev)) ==
            if Acceptable(ev) && ev.idempotencyKey != "" then Follow(GateOf(s), Enter(i, ev.idempotencyKey))
            else GateOf(s)
  {
    PhasesUpdate(s.submitters, i, AfterBegin(s, i, ev).submitters[i]);
  }

  lemma LockGate(s: State, i: nat)
    requires i < |s.submitters| && s.submitters[i].Waiting?
    ensures GateOf(AfterLock(s, i)) == Follow(GateOf(s), Section(i))
  {
    LockShape(s, i);
    LockCalls(s, i);
    PhasesUpdate(s.submitters, i, AfterLock(s, i).submitters[i]);
  }

  lemma SendGate(cfg: Config, s: State, i: nat)
    requires i < |s.submitters| && s.submitters[i].Sending?
    ensures GateOf(AfterSend(cfg, s, i)) == GateOf(s) && GateOf(AfterEnqueue(s, i)) == GateOf(s)
  {
    SendKeepsCalls(cfg, s, i);
    PhasesUpdate(s.submitters, i, Idle);
  }

  /** The dedupe side of a run is the gate on its own, shown the run's schedule. */
  lemma {:induction false} RunLooksLikeSchedule(cfg: Config, steps: seq<Step>)
    ensures GateOf(Run(cfg, steps)) == FollowAll(NewGate(cfg.submitters), Schedule(cfg, steps))
  {
    if steps == [] {
      assert PhasesOf(Init(cfg).submitters) == NewGate(cfg.submitters).phases;
    } else {
      var n := |steps| - 1;
      var s := Run(cfg, steps[..n]);
      RunLooksLikeSchedule(cfg, steps[..n]);
      GateStep(cfg, s, steps[n]);
      FollowMore(NewGate(cfg.submitters), Schedule(cfg, steps[..n]), SignOf(cfg, s, steps[n]));
    }
  }

  lemma FollowMore(g: Gate, signs: seq<Sign>, more: seq<Sign>)
    requires |more| <= 1
    ensures FollowAll(g, signs + more) == Shown(FollowAll(g, signs), more)
  {
    if more == [] {
      assert signs + more == signs;
    } else {
      assert (signs + more)[..|signs|] == signs;
    }
  }

  /**
   * Two runs with the same keyed valid submissions, readings and order of critical sections have
   * equal dedupe maps, calls and verdicts, whatever their capacity, workers, clocks and lag, and
   * whatever else happens in them: other submissions, sends, drops, flushes, cancellation, close.
   */
  lemma DedupeIgnoresTheRest(cfg1: Config, steps1: seq<Step>, cfg2: Config, steps2: seq<Step>)
    requires cfg1.submitters == cfg2.submitters
    requires Schedule(cfg1, steps1) == Schedule(cfg2, steps2)
    ensures var s1, s2 := Run(cfg1, steps1), Run(cfg2, steps2);
            && s1.cache == s2.cache
            && s1.log.calls == s2.log.calls
            && CallsOf(s1.log.admissions) == CallsOf(s2.log.admissions)
            && PhasesOf(s1.submitters) == PhasesOf(s2.submitters)
  {
    RunLooksLikeSchedule(cfg1, steps1);
    RunLooksLikeSchedule(cfg2, steps2);
  }
}
