/**
 * The alerter as a transition system: the producer goroutine of `WatchErrors`
 * (internal/storage/mongo.go), its buffered channel, the loop of `Run` with `evaluate`, and the rule
 * refresher (internal/alert/dispatcher.go), interleaved in any order.
 */
module AlertStream {
  import opened Models
  import opened Wrappers
  import opened Alerts

  const BUFFER := 256

  /** One change of the collection; a document may fail to decode. */
  datatype Change = Change(isInsert: bool, event: Event, decodable: bool)

  /** What the change stream is opened for: inserts of errors, as far as they decode. */
  predicate Relevant(c: Change) {
    c.isInsert && IsErrorLevel(c.event.level) && c.decodable
  }

  function RelevantEvents(feed: seq<Change>): seq<Event> {
    if feed == [] then []
    else
      RelevantEvents(feed[..|feed| - 1]) +
      if Relevant(feed[|feed| - 1]) then [feed[|feed| - 1].event] else []
  }

  /** The producer: between two changes, holding a decoded event it tries to send, or returned. */
  datatype Producer = Reading | Holding(event: Event) | Ended(lost: Option<Event>)

  /** The consumer: in the select, about to read the rules, inside the loop of evaluate, or returned. */
  datatype Consumer =
    | Idle
    | Received(event: Event)
    | Evaluating(event: Event, snapshot: seq<CompiledRule>, next: nat)
    | Returned

  /** `evaluated` and `uses` list the events whose rules were read, and which installation each used. */
  datatype State = State(
    read: nat,
    producer: Producer, channel: seq<Event>, consumer: Consumer,
    rules: seq<CompiledRule>, cancelled: bool,
    received: seq<Event>, evaluated: seq<Event>, uses: seq<nat>,
    installed: seq<seq<CompiledRule>>, loads: seq<seq<Rule>>,
    fired: seq<Alert>)

  datatype Step =
    | ReadChange
    | Push
    | Abort
    | StreamEnds
    | Receive
    | ReadRules
    | Evaluate
    | Leave
    | Refresh(stored: seq<Rule>)
    | Cancel

  function Init(): State {
    State(0, Reading, [], Idle, [], false, [], [], [], [[]], [], [])
  }

  predicate Enabled(feed: seq<Change>, s: State, st: Step) {
    match st
    case ReadChange => s.producer.Reading? && s.read < |feed|
    case Push => s.producer.Holding? && |s.channel| < BUFFER
    case Abort => s.producer.Holding? && s.cancelled
    case StreamEnds => s.producer.Reading?
    case Receive => s.consumer.Idle? && s.channel != []
    case ReadRules => s.consumer.Received?
    case Evaluate => s.consumer.Evaluating?
    case Leave => s.consumer.Idle? && (s.cancelled || (s.producer.Ended? && s.channel == []))
    case Refresh(_) => true
    case Cancel => true
  }

  function Latest(installed: seq<seq<CompiledRule>>): nat {
    if installed == [] then 0 else |installed| - 1
  }

  /** One iteration of evaluate's loop, or its early exit for an empty snapshot. */
  function AfterEvaluate(s: State, rx: Regex): State
    requires s.consumer.Evaluating?
  {
    var Evaluating(ev, snapshot, next) := s.consumer;
    if snapshot == [] then
      s.(consumer := Idle, fired := s.fired + AlertsFor(Expected([], ev, rx), ev))
    else if next < |snapshot| then
      s.(consumer := Evaluating(ev, snapshot, next + 1),
         fired := s.fired + if Fires(snapshot[next], ev, rx) then [Alert(snapshot[next].rule, ev)] else [])
    else
      s.(consumer := Idle)
  }

  function Apply(feed: seq<Change>, rx: Regex, s: State, st: Step): State
    requires Enabled(feed, s, st)
  {
    match st
    case ReadChange =>
      var c := feed[s.read];
      s.(read := s.read + 1, producer := if Relevant(c) then Holding(c.event) else Reading)
    case Push => s.(producer := Reading, channel := s.channel + [s.producer.event])
    case Abort => s.(producer := Ended(Some(s.producer.event)))
    case StreamEnds => s.(producer := Ended(None))
    case Receive =>
      s.(channel := s.channel[1..], consumer := Received(s.channel[0]), received := s.received + [s.channel[0]])
    case ReadRules =>
      s.(consumer := Evaluating(s.consumer.event, s.rules, 0),
         evaluated := s.evaluated + [s.consumer.event], uses := s.uses + [Latest(s.installed)])
    case Evaluate => AfterEvaluate(s, rx)
    case Leave => s.(consumer := Returned)
    case Refresh(stored) =>
      var compiled := Compile(Loaded(stored), rx);
      s.(rules := compiled, installed := s.installed + [compiled], loads := s.loads + [stored])
    case Cancel => s.(cancelled := true)
  }

  function Next(feed: seq<Change>, rx: Regex, s: State, st: Step): State {
    if Enabled(feed, s, st) then Apply(feed, rx, s, st) else s
  }

  function Run(feed: seq<Change>, rx: Regex, steps: seq<Step>): State {
    if steps == [] then Init()
    else Next(feed, rx, Run(feed, rx, steps[..|steps| - 1]), steps[|steps| - 1])
  }

  // ---------- Invariants ----------

  function InHand(p: Producer): seq<Event> {
    match p
    case Reading => []
    case Holding(e) => [e]
    case Ended(None) => []
    case Ended(Some(e)) => [e]
  }

  /** Everything relevant that was read is received, in the channel, or in the producer's hand. */
  ghost predicate Flowing(feed: seq<Change>, s: State) {
    && s.read <= |feed| && |s.channel| <= BUFFER
    && s.received + s.channel + InHand(s.producer) == RelevantEvents(feed[..s.read])
    && (s.producer.Ended? && s.producer.lost.Some? ==> s.cancelled)
    && (s.consumer.Returned? ==> s.cancelled || (s.producer.Ended? && s.channel == []))
    && s.received == s.evaluated + (if s.consumer.Received? then [s.consumer.event] else [])
  }

  /** Installation 0 is the empty slice before the first load; the others are compiled loads. */
  ghost predicate Installed(rx: Regex, s: State) {
    && |s.installed| == |s.loads| + 1 && s.installed[0] == []
    && s.rules == s.installed[|s.installed| - 1]
    && (forall i | 0 <= i < |s.loads| :: s.installed[i + 1] == Compile(Loaded(s.loads[i]), rx))
    && InRange(s.evaluated, s.uses, s.installed)
    && (forall i, j | 0 <= i < j < |s.uses| :: s.uses[i] <= s.uses[j])
  }

  predicate InRange(evaluated: seq<Event>, uses: seq<nat>, installed: seq<seq<CompiledRule>>) {
    |uses| == |evaluated| && forall i | 0 <= i < |uses| :: uses[i] < |installed|
  }

  /** The alerts of completed evaluations, one installation each. */
  function FireLog(evaluated: seq<Event>, uses: seq<nat>, installed: seq<seq<CompiledRule>>, rx: Regex): seq<Alert>
    requires InRange(evaluated, uses, installed)
  {
    if evaluated == [] then []
    else
      var n := |evaluated| - 1;
      FireLog(evaluated[..n], uses[..n], installed, rx) +
      AlertsFor(Expected(installed[uses[n]], evaluated[n], rx), evaluated[n])
  }

  /** The fire log is that of the completed evaluations and the part done of the current one. */
  ghost predicate Logged(rx: Regex, s: State) {
    Installed(rx, s) && LogMatches(rx, s)
  }

  ghost predicate LogMatches(rx: Regex, s: State)
    requires InRange(s.evaluated, s.uses, s.installed)
  {
    match s.consumer
    case Evaluating(ev, snapshot, next) =>
      var n := |s.evaluated| - 1;
      && n >= 0 && s.evaluated[n] == ev && s.installed[s.uses[n]] == snapshot && next <= |snapshot|
      && s.fired == FireLog(s.evaluated[..n], s.uses[..n], s.installed, rx) +
                    AlertsFor(Firing(snapshot[..next], ev, rx), ev)
    case _ => s.fired == FireLog(s.evaluated, s.uses, s.installed, rx)
  }

  lemma RelevantStep(feed: seq<Change>, n: nat)
    requires n < |feed|
    ensures RelevantEvents(feed[..n + 1]) ==
            RelevantEvents(feed[..n]) + if Relevant(feed[n]) then [feed[n].event] else []
  {
    assert feed[..n + 1][..n] == feed[..n];
  }

  lemma KeepsFlowing(feed: seq<Change>, rx: Regex, s: State, st: Step)
    requires Flowing(feed, s) && Enabled(feed, s, st)
    ensures Flowing(feed, Apply(feed, rx, s, st))
  {
    match st {
      case ReadChange => ReadFlows(feed, rx, s);
      case Push => PushFlows(feed, rx, s);
      case Receive => ReceiveFlows(feed, rx, s);
      case _ =>
    }
  }

  lemma ReadFlows(feed: seq<Change>, rx: Regex, s: State)
    requires Flowing(feed, s) && Enabled(feed, s, ReadChange)
    ensures Flowing(feed, Apply(feed, rx, s, ReadChange))
  {
    RelevantStep(feed, s.read);
  }

  lemma PushFlows(feed: seq<Change>, rx: Regex, s: State)
    requires Flowing(feed, s) && Enabled(feed, s, Push)
    ensures Flowing(feed, Apply(feed, rx, s, Push))
  {
    var e := s.producer.event;
    assert s.received + (s.channel + [e]) + [] == s.received + s.channel + [e];
  }

  lemma ReceiveFlows(feed: seq<Change>, rx: Regex, s: State)
    requires Flowing(feed, s) && Enabled(feed, s, Receive)
    ensures Flowing(feed, Apply(feed, rx, s, Receive))
  {
    assert (s.received + [s.channel[0]]) + s.channel[1..] == s.received + s.channel;
  }

  lemma KeepsInstalled(feed: seq<Change>, rx: Regex, s: State, st: Step)
    requires Installed(rx, s) && Enabled(feed, s, st)
    ensures Installed(rx, Apply(feed, rx, s, st))
  {
    match st {
      case ReadRules => ReadRulesInstalled(feed, rx, s);
      case Refresh(stored) => RefreshInstalled(feed, rx, s, stored);
      case _ =>
    }
  }

  lemma ReadRulesInstalled(feed: seq<Change>, rx: Regex, s: State)
    requires Installed(rx, s) && Enabled(feed, s, ReadRules)
    ensures Installed(rx, Apply(feed, rx, s, ReadRules))
  {
  }

  lemma RefreshInstalled(feed: seq<Change>, rx: Regex, s: State, stored: seq<Rule>)
    requires Installed(rx, s)
    ensures Installed(rx, Apply(feed, rx, s, Refresh(stored)))
  {
  }

  lemma {:induction false} FireLogGrows(evaluated: seq<Event>, uses: seq<nat>,
                                         installed: seq<seq<CompiledRule>>, more: seq<CompiledRule>, rx: Regex)
    requires InRange(evaluated, uses, installed)
    ensures FireLog(evaluated, uses, installed + [more], rx) == FireLog(evaluated, uses, installed, rx)
  {
    if evaluated != [] {
      var n := |evaluated| - 1;
      FireLogGrows(evaluated[..n], uses[..n], installed, more, rx);
      assert (installed + [more])[uses[n]] == installed[uses[n]];
    }
  }

  lemma RefreshLogged(feed: seq<Change>, rx: Regex, s: State, stored: seq<Rule>)
    requires Logged(rx, s)
    ensures Logged(rx, Apply(feed, rx, s, Refresh(stored)))
  {
    KeepsInstalled(feed, rx, s, Refresh(stored));
    if s.consumer.Evaluating? {
      RefreshWhileEvaluating(rx, s, Compile(Loaded(stored), rx));
    } else {
      FireLogGrows(s.evaluated, s.uses, s.installed, Compile(Loaded(stored), rx), rx);
    }
  }

  lemma RefreshWhileEvaluating(rx: Regex, s: State, more: seq<CompiledRule>)
    requires Logged(rx, s) && s.consumer.Evaluating?
    ensures var n := |s.evaluated| - 1;
            && (s.installed + [more])[s.uses[n]] == s.consumer.snapshot
            && s.fired == FireLog(s.evaluated[..n], s.uses[..n], s.installed + [more], rx) +
                          AlertsFor(Firing(s.consumer.snapshot[..s.consumer.next], s.consumer.event, rx), s.consumer.event)
  {
    var n := |s.evaluated| - 1;
    FireLogGrows(s.evaluated[..n], s.uses[..n], s.installed, more, rx);
  }

  lemma ReadRulesLogged(feed: seq<Change>, rx: Regex, s: State)
    requires Logged(rx, s) && Enabled(feed, s, ReadRules)
    ensures Logged(rx, Apply(feed, rx, s, ReadRules))
  {
    var s' := Apply(feed, rx, s, ReadRules);
    KeepsInstalled(feed, rx, s, ReadRules);
    StartsEvaluating(rx, s, s.consumer.event, s');
  }

  lemma StartsEvaluating(rx: Regex, s: State, ev: Event, s': State)
    requires InRange(s.evaluated, s.uses, s.installed)
    requires s.installed != [] && s.rules == s.installed[Latest(s.installed)]
    requires s.fired == FireLog(s.evaluated, s.uses, s.installed, rx)
    requires s'.evaluated == s.evaluated + [ev] && s'.uses == s.uses + [Latest(s.installed)]
    requires s'.installed == s.installed && s'.fired == s.fired && s'.consumer == Evaluating(ev, s.rules, 0)
    requires InRange(s'.evaluated, s'.uses, s'.installed)
    ensures LogMatches(rx, s')
  {
    var n := |s.evaluated|;
    assert s'.evaluated[..n] == s.evaluated && s'.uses[..n] == s.uses;
    NothingEvaluatedYet(s.rules, ev, rx);
    assert s.fired + [] == s.fired;
  }

  lemma NothingEvaluatedYet(snapshot: seq<CompiledRule>, ev: Event, rx: Regex)
    ensures AlertsFor(Firing(snapshot[..0], ev, rx), ev) == []
  {
    assert snapshot[..0] == [];
  }

  lemma EvaluateLogged(feed: seq<Change>, rx: Regex, s: State)
    requires Logged(rx, s) && Enabled(feed, s, Evaluate)
    ensures Logged(rx, Apply(feed, rx, s, Evaluate))
  {
    KeepsInstalled(feed, rx, s, Evaluate);
    if s.consumer.snapshot != [] && s.consumer.next < |s.consumer.snapshot| {
      RuleLogged(rx, s);
    } else {
      LastRuleLogged(rx, s);
    }
  }

  lemma RuleLogged(rx: Regex, s: State)
    requires s.consumer.Evaluating? && s.consumer.next < |s.consumer.snapshot|
    requires InRange(s.evaluated, s.uses, s.installed) && LogMatches(rx, s)
    ensures LogMatches(rx, AfterEvaluate(s, rx))
  {
    var Evaluating(ev, snapshot, next) := s.consumer;
    AlertsStep(snapshot, next, ev, rx);
    var n := |s.evaluated| - 1;
    var before := FireLog(s.evaluated[..n], s.uses[..n], s.installed, rx);
    var done := AlertsFor(Firing(snapshot[..next], ev, rx), ev);
    var one := if Fires(snapshot[next], ev, rx) then [Alert(snapshot[next].rule, ev)] else [];
    assert before + done + one == before + (done + one);
  }

  lemma LastRuleLogged(rx: Regex, s: State)
    requires s.consumer.Evaluating?
    requires s.consumer.snapshot == [] || s.consumer.next >= |s.consumer.snapshot|
    requires InRange(s.evaluated, s.uses, s.installed) && LogMatches(rx, s)
    ensures LogMatches(rx, AfterEvaluate(s, rx))
  {
    var Evaluating(ev, snapshot, next) := s.consumer;
    WholeSnapshot(snapshot, next, ev, rx);
    LogGrows(s.evaluated, s.uses, s.installed, rx);
    var before := FireLog(s.evaluated[..|s.evaluated| - 1], s.uses[..|s.evaluated| - 1], s.installed, rx);
    assert before + [] == before;
  }

  /** Once all rules have been looked at, what an empty snapshot still fires completes the evaluation. */
  lemma WholeSnapshot(snapshot: seq<CompiledRule>, next: nat, ev: Event, rx: Regex)
    requires next <= |snapshot| && (snapshot == [] || next == |snapshot|)
    ensures var done := AlertsFor(Firing(snapshot[..next], ev, rx), ev);
            if snapshot == [] then done == [] else done == AlertsFor(Expected(snapshot, ev, rx), ev)
  {
    assert snapshot[..next] == snapshot;
  }

  lemma LogGrows(evaluated: seq<Event>, uses: seq<nat>, installed: seq<seq<CompiledRule>>, rx: Regex)
    requires evaluated != [] && InRange(evaluated, uses, installed)
    ensures var n := |evaluated| - 1;
            FireLog(evaluated, uses, installed, rx) ==
            FireLog(evaluated[..n], uses[..n], installed, rx) +
            AlertsFor(Expected(installed[uses[n]], evaluated[n], rx), evaluated[n])
  {
  }

  lemma KeepsLogged(feed: seq<Change>, rx: Regex, s: State, st: Step)
    requires Logged(rx, s) && Enabled(feed, s, st)
    ensures Logged(rx, Apply(feed, rx, s, st))
  {
    match st {
      case Refresh(stored) => RefreshLogged(feed, rx, s, stored);
      case ReadRules => ReadRulesLogged(feed, rx, s);
      case Evaluate => EvaluateLogged(feed, rx, s);
      case _ => KeepsInstalled(feed, rx, s, st);
    }
  }

  lemma NextInv(feed: seq<Change>, rx: Regex, s: State, st: Step)
    requires Flowing(feed, s) && Logged(rx, s)
    ensures Flowing(feed, Next(feed, rx, s, st)) && Logged(rx, Next(feed, rx, s, st))
  {
    if Enabled(feed, s, st) {
      KeepsFlowing(feed, rx, s, st);
      KeepsLogged(feed, rx, s, st);
    }
  }

  lemma {:induction false} RunInv(feed: seq<Change>, rx: Regex, steps: seq<Step>)
    ensures Flowing(feed, Run(feed, rx, steps)) && Logged(rx, Run(feed, rx, steps))
  {
    if steps == [] {
      assert RelevantEvents(feed[..0]) == [];
    } else {
      var n := |steps| - 1;
      RunInv(feed, rx, steps[..n]);
      NextInv(feed, rx, Run(feed, rx, steps[..n]), steps[n]);
    }
  }

  // ---------- The guarantees ----------

  /**
   * At every moment the relevant inserts read so far are, in order, the received events, the
   * channel's contents (at most 256) and the event in the producer's hand. Until the context is
   * cancelled nothing is lost; afterwards at most the one event in hand is, and what was received is
   * still a prefix.
   */
  lemma StreamIsOrderedAndBounded(feed: seq<Change>, rx: Regex, steps: seq<Step>)
    ensures var s := Run(feed, rx, steps);
            && |s.channel| <= 256 && s.read <= |feed|
            && s.received + s.channel + InHand(s.producer) == RelevantEvents(feed[..s.read])
            && s.received <= RelevantEvents(feed[..s.read])
            && (!s.cancelled && s.producer.Ended? ==> s.received + s.channel == RelevantEvents(feed[..s.read]))
            && (!s.cancelled && s.consumer.Returned? ==> s.evaluated == RelevantEvents(feed[..s.read]))
  {
    RunInv(feed, rx, steps);
  }

  /**
   * However refreshes interleave: each evaluation fires exactly what one installed rule set
   * prescribes, in load order, later evaluations never use earlier installations, and between
   * evaluations the fire log is the concatenation over the events.
   */
  lemma SnapshotFiring(feed: seq<Change>, rx: Regex, steps: seq<Step>)
    ensures var s := Run(feed, rx, steps);
            && Installed(rx, s)
            && (!s.consumer.Evaluating? ==> s.fired == FireLog(s.evaluated, s.uses, s.installed, rx))
            && (s.consumer.Evaluating? ==>
                  var n := |s.evaluated| - 1;
                  && n >= 0
                  && FireLog(s.evaluated[..n], s.uses[..n], s.installed, rx) <= s.fired
                  && s.fired <= FireLog(s.evaluated, s.uses, s.installed, rx))
  {
    RunInv(feed, rx, steps);
    var s := Run(feed, rx, steps);
    if s.consumer.Evaluating? {
      var Evaluating(ev, snapshot, next) := s.consumer;
      FiringPrefix(snapshot, next, ev, rx);
    }
  }

  lemma {:induction false} FiringPrefix(snapshot: seq<CompiledRule>, next: nat, ev: Event, rx: Regex)
    requires next <= |snapshot|
    ensures AlertsFor(Firing(snapshot[..next], ev, rx), ev) <= AlertsFor(Expected(snapshot, ev, rx), ev)
    decreases |snapshot| - next
  {
    if snapshot == [] {
    } else if next < |snapshot| {
      FiringPrefix(snapshot, next + 1, ev, rx);
      AlertsStep(snapshot, next, ev, rx);
    } else {
      assert snapshot[..next] == snapshot;
    }
  }

  // ---------- What is streamed ----------

  /** Exactly the inserts of errors that decode are streamed, in the order of the feed. */
  lemma StreamedExactly(feed: seq<Change>, c: Change)
    ensures RelevantEvents([]) == []
    ensures RelevantEvents(feed + [c]) ==
            RelevantEvents(feed) +
            if c.isInsert && c.decodable && (c.event.level == "ERROR" || c.event.level == "FATAL")
            then [c.event] else []
  {
    assert (feed + [c])[..|feed|] == feed;
  }

  lemma {:induction false} RelevantMembers(feed: seq<Change>, e: Event)
    ensures e in RelevantEvents(feed) <==>
            exists i | 0 <= i < |feed| ::
              feed[i].isInsert && feed[i].decodable && feed[i].event.level in {"ERROR", "FATAL"} && feed[i].event == e
  {
    if feed != [] {
      var n := |feed| - 1;
      RelevantMembers(feed[..n], e);
      StreamedExactly(feed[..n], feed[n]);
      assert feed == feed[..n] + [feed[n]];
      if i :| 0 <= i < n && feed[i].isInsert && feed[i].decodable && feed[i].event.level in {"ERROR", "FATAL"}
              && feed[i].event == e {
        assert feed[..n][i] == feed[i];
      }
    }
  }

  /** In every run: every event received came from an insert of an ERROR or FATAL event, and every such
      insert that was read and decodes is received, in the channel, or in the producer's hand. */
  lemma ReceivedExactly(feed: seq<Change>, rx: Regex, steps: seq<Step>)
    ensures var s := Run(feed, rx, steps);
            && s.read <= |feed|
            && (forall e | e in s.received ::
                  exists i | 0 <= i < s.read ::
                    feed[i].isInsert && feed[i].decodable && feed[i].event.level in {"ERROR", "FATAL"}
                    && feed[i].event == e)
            && (forall i | 0 <= i < s.read && feed[i].isInsert && feed[i].decodable
                           && feed[i].event.level in {"ERROR", "FATAL"} ::
                  feed[i].event in s.received || feed[i].event in s.channel || feed[i].event in InHand(s.producer))
  {
    RunInv(feed, rx, steps);
    var s := Run(feed, rx, steps);
    var read := feed[..s.read];
    var all := s.received + s.channel + InHand(s.producer);
    forall e | e in s.received
      ensures exists i | 0 <= i < s.read ::
                feed[i].isInsert && feed[i].decodable && feed[i].event.level in {"ERROR", "FATAL"}
                && feed[i].event == e
    {
      assert e in all;
      RelevantMembers(read, e);
      var i :| 0 <= i < |read| && read[i].isInsert && read[i].decodable
               && read[i].event.level in {"ERROR", "FATAL"} && read[i].event == e;
      assert feed[i] == read[i];
    }
    forall i | 0 <= i < s.read && feed[i].isInsert && feed[i].decodable && feed[i].event.level in {"ERROR", "FATAL"}
      ensures feed[i].event in s.received || feed[i].event in s.channel || feed[i].event in InHand(s.producer)
    {
      assert read[i] == feed[i];
      RelevantMembers(read, feed[i].event);
      assert feed[i].event in all;
    }
  }

  // ---------- Which rules an evaluation uses ----------

  /** The rules of the last refresh among these steps; before the first there are none. */
  function RulesAt(rx: Regex, steps: seq<Step>): seq<CompiledRule> {
    if steps == [] then []
    else match steps[|steps| - 1]
      case Refresh(stored) => Compile(Loaded(stored), rx)
      case _ => RulesAt(rx, steps[..|steps| - 1])
  }

  /** For each evaluation begun, the rules of the last refresh before it. */
  function Snapshots(feed: seq<Change>, rx: Regex, steps: seq<Step>): seq<seq<CompiledRule>> {
    if steps == [] then []
    else
      var before := steps[..|steps| - 1];
      Snapshots(feed, rx, before) +
      if steps[|steps| - 1].ReadRules? && Run(feed, rx, before).consumer.Received? then [RulesAt(rx, before)] else []
  }

  /** The alerts of these evaluations, in order, each against its own rules. */
  function AlertLog(evaluated: seq<Event>, snapshots: seq<seq<CompiledRule>>, rx: Regex): seq<Alert>
    requires |evaluated| == |snapshots|
  {
    if evaluated == [] then []
    else
      var n := |evaluated| - 1;
      AlertLog(evaluated[..n], snapshots[..n], rx) + AlertsFor(Expected(snapshots[n], evaluated[n], rx), evaluated[n])
  }

  /** The recorded installations are the rules of the last refresh before each evaluation. */
  ghost predicate Current(s: State, rules: seq<CompiledRule>, snapshots: seq<seq<CompiledRule>>) {
    && InRange(s.evaluated, s.uses, s.installed) && s.installed != []
    && s.rules == rules && s.installed[Latest(s.installed)] == rules
    && |snapshots| == |s.evaluated|
    && forall k | 0 <= k < |s.uses| :: s.installed[s.uses[k]] == snapshots[k]
  }

  lemma RefreshIsCurrent(feed: seq<Change>, rx: Regex, s: State, stored: seq<Rule>,
                         rules: seq<CompiledRule>, snapshots: seq<seq<CompiledRule>>)
    requires Current(s, rules, snapshots)
    ensures Current(Next(feed, rx, s, Refresh(stored)), Compile(Loaded(stored), rx), snapshots)
  {
  }

  lemma ReadIsCurrent(feed: seq<Change>, rx: Regex, s: State,
                      rules: seq<CompiledRule>, snapshots: seq<seq<CompiledRule>>)
    requires Current(s, rules, snapshots) && s.consumer.Received?
    ensures Current(Next(feed, rx, s, ReadRules), rules, snapshots + [rules])
  {
  }

  lemma StaysCurrent(feed: seq<Change>, rx: Regex, s: State, st: Step,
                     rules: seq<CompiledRule>, snapshots: seq<seq<CompiledRule>>)
    requires Current(s, rules, snapshots) && !st.Refresh? && !(st.ReadRules? && s.consumer.Received?)
    ensures Current(Next(feed, rx, s, st), rules, snapshots)
  {
  }

  lemma {:induction false} RunIsCurrent(feed: seq<Change>, rx: Regex, steps: seq<Step>)
    ensures Current(Run(feed, rx, steps), RulesAt(rx, steps), Snapshots(feed, rx, steps))
  {
    if steps != [] {
      var before, st := steps[..|steps| - 1], steps[|steps| - 1];
      RunIsCurrent(feed, rx, before);
      var s, rules, snapshots := Run(feed, rx, before), RulesAt(rx, before), Snapshots(feed, rx, before);
      if st.Refresh? {
        RefreshIsCurrent(feed, rx, s, st.stored, rules, snapshots);
      } else if st.ReadRules? && s.consumer.Received? {
        ReadIsCurrent(feed, rx, s, rules, snapshots);
      } else {
        StaysCurrent(feed, rx, s, st, rules, snapshots);
      }
    }
  }

  lemma {:induction false} FireLogIsAlertLog(evaluated: seq<Event>, uses: seq<nat>, installed: seq<seq<CompiledRule>>,
                                              snapshots: seq<seq<CompiledRule>>, rx: Regex)
    requires InRange(evaluated, uses, installed) && |snapshots| == |evaluated|
    requires forall k | 0 <= k < |uses| :: installed[uses[k]] == snapshots[k]
    ensures FireLog(evaluated, uses, installed, rx) == AlertLog(evaluated, snapshots, rx)
  {
    if evaluated != [] {
      var n := |evaluated| - 1;
      FireLogIsAlertLog(evaluated[..n], uses[..n], installed, snapshots[..n], rx);
    }
  }

  /**
   * However refreshes interleave: what has been fired is the concatenation, over the evaluations in
   * order, of what the rules of the last refresh before that evaluation prescribe; a running
   * evaluation has fired a prefix of its part.
   */
  lemma LatestRulesFire(feed: seq<Change>, rx: Regex, steps: seq<Step>)
    ensures var s, snapshots := Run(feed, rx, steps), Snapshots(feed, rx, steps);
            && |snapshots| == |s.evaluated|
            && (!s.consumer.Evaluating? ==> s.fired == AlertLog(s.evaluated, snapshots, rx))
            && (s.consumer.Evaluating? ==>
                  var n := |s.evaluated| - 1;
                  && n >= 0 && s.consumer.snapshot == snapshots[n] && s.consumer.event == s.evaluated[n]
                  && AlertLog(s.evaluated[..n], snapshots[..n], rx) <= s.fired
                  && s.fired <= AlertLog(s.evaluated, snapshots, rx))
  {
    RunInv(feed, rx, steps);
    RunIsCurrent(feed, rx, steps);
    SnapshotFiring(feed, rx, steps);
    var s, snapshots := Run(feed, rx, steps), Snapshots(feed, rx, steps);
    FireLogIsAlertLog(s.evaluated, s.uses, s.installed, snapshots, rx);
    if s.consumer.Evaluating? {
      EvaluatingIsCurrent(rx, s, RulesAt(rx, steps), snapshots);
      PrefixIsAlertLog(s.evaluated, s.uses, s.installed, snapshots, rx, |s.evaluated| - 1);
    }
  }

  lemma EvaluatingIsCurrent(rx: Regex, s: State, rules: seq<CompiledRule>, snapshots: seq<seq<CompiledRule>>)
    requires Logged(rx, s) && s.consumer.Evaluating? && Current(s, rules, snapshots)
    ensures var n := |s.evaluated| - 1;
            n >= 0 && s.consumer.snapshot == snapshots[n] && s.consumer.event == s.evaluated[n]
  {
    assert s.installed[s.uses[|s.evaluated| - 1]] == snapshots[|s.evaluated| - 1];
  }

  lemma PrefixIsAlertLog(evaluated: seq<Event>, uses: seq<nat>, installed: seq<seq<CompiledRule>>,
                         snapshots: seq<seq<CompiledRule>>, rx: Regex, n: nat)
    requires InRange(evaluated, uses, installed) && |snapshots| == |evaluated| && n <= |evaluated|
    requires forall k | 0 <= k < |uses| :: installed[uses[k]] == snapshots[k]
    ensures FireLog(evaluated[..n], uses[..n], installed, rx) == AlertLog(evaluated[..n], snapshots[..n], rx)
  {
    FireLogIsAlertLog(evaluated[..n], uses[..n], installed, snapshots[..n], rx);
  }

  // ---------- What can happen next ----------

  /** The producer may read the next change, send while fewer than 256 events are buffered, give up on a
      cancelled context, and return when the stream ends. */
  lemma ProducerMayMove(feed: seq<Change>, rx: Regex, s: State)
    ensures s.producer.Reading? && s.read < |feed| ==>
              var c := feed[s.read];
              var relevant := c.isInsert && c.decodable && c.event.level in {"ERROR", "FATAL"};
              exists st :: Next(feed, rx, s, st) ==
                           s.(read := s.read + 1, producer := if relevant then Holding(c.event) else Reading)
    ensures s.producer.Reading? ==> exists st :: Next(feed, rx, s, st) == s.(producer := Ended(None))
    ensures s.producer.Holding? && |s.channel| < 256 ==>
              exists st :: Next(feed, rx, s, st) ==
                           s.(producer := Reading, channel := s.channel + [s.producer.event])
    ensures s.producer.Holding? && s.cancelled ==>
              exists st :: Next(feed, rx, s, st) == s.(producer := Ended(Some(s.producer.event)))
  {
    match s.producer {
      case Reading =>
        var end := Next(feed, rx, s, StreamEnds);
        var read := Next(feed, rx, s, ReadChange);
      case Holding(e) =>
        var push := Next(feed, rx, s, Push);
        var abort := Next(feed, rx, s, Abort);
      case Ended(_) =>
    }
  }

  /** The consumer may receive what is buffered, read the rules as they are, and return when the context
      is cancelled or the channel is closed and empty. */
  lemma ConsumerMayMove(feed: seq<Change>, rx: Regex, s: State)
    ensures s.consumer.Idle? && s.channel != [] ==>
              var e := s.channel[0];
              exists st :: Next(feed, rx, s, st) ==
                           s.(channel := s.channel[1..], consumer := Received(e), received := s.received + [e])
    ensures s.consumer.Received? ==>
              var e := s.consumer.event;
              exists st :: && Next(feed, rx, s, st).consumer == Evaluating(e, s.rules, 0)
                           && Next(feed, rx, s, st).evaluated == s.evaluated + [e]
    ensures s.consumer.Idle? && (s.cancelled || (s.producer.Ended? && s.channel == [])) ==>
              exists st :: Next(feed, rx, s, st) == s.(consumer := Returned)
  {
    match s.consumer {
      case Idle =>
        var receive := Next(feed, rx, s, Receive);
        var leave := Next(feed, rx, s, Leave);
      case Received(e) => var read := Next(feed, rx, s, ReadRules);
      case _ =>
    }
  }

  /** Rules may be refreshed and the context cancelled at any moment. */
  lemma RefresherMayMove(feed: seq<Change>, rx: Regex, s: State, stored: seq<Rule>)
    ensures exists st :: Next(feed, rx, s, st).rules == Compile(Loaded(stored), rx)
                         && Next(feed, rx, s, st).consumer == s.consumer
    ensures exists st :: Next(feed, rx, s, st) == s.(cancelled := true)
  {
    var refresh := Next(feed, rx, s, Refresh(stored));
    var cancel := Next(feed, rx, s, Cancel);
  }

  /** What delivery still has to do: changes to read, an event in hand, events in the channel, and the
      consumer's phase. */
  function Phase(c: Consumer): nat {
    match c
    case Idle => 0
    case Evaluating(_, _, _) => 1
    case Received(_) => 2
    case Returned => 0
  }

  function RulesLeft(c: Consumer): int {
    if c.Evaluating? then |c.snapshot| - c.next else 0
  }

  predicate Delivered(feed: seq<Change>, s: State) {
    s.read == |feed| && s.producer.Reading? && s.channel == [] && s.consumer.Idle?
  }

  lemma DeliveryStep(feed: seq<Change>, rx: Regex, s: State) returns (st: Step)
    requires Flowing(feed, s) && Logged(rx, s)
    requires !s.producer.Ended? && !s.consumer.Returned? && !Delivered(feed, s)
    ensures var s' := Next(feed, rx, s, st);
            && !s'.producer.Ended? && !s'.consumer.Returned?
            && s'.cancelled == s.cancelled && s'.rules == s.rules
            && (|| s'.read > s.read
                || (&& s'.read == s.read
                    && (|| (s.producer.Holding? && s'.producer.Reading?)
                        || (&& s'.producer == s.producer
                            && (|| |s'.channel| < |s.channel|
                                || (&& s'.channel == s.channel
                                    && (|| Phase(s'.consumer) < Phase(s.consumer)
                                        || (&& Phase(s'.consumer) == Phase(s.consumer)
                                            && 0 <= RulesLeft(s'.consumer) < RulesLeft(s.consumer)))))))))
  {
    match s.consumer {
      case Evaluating(_, _, _) => st := Evaluate;
      case Received(_) => st := ReadRules;
      case Idle =>
        if s.channel != [] {
          st := Receive;
        } else if s.producer.Holding? {
          st := Push;
        } else {
          st := ReadChange;
        }
    }
  }

  function RunFrom(feed: seq<Change>, rx: Regex, s: State, steps: seq<Step>): State
    decreases |steps|
  {
    if steps == [] then s else RunFrom(feed, rx, Next(feed, rx, s, steps[0]), steps[1..])
  }

  lemma DeliverFrom(feed: seq<Change>, rx: Regex, s: State) returns (more: seq<Step>)
    requires Flowing(feed, s) && Logged(rx, s) && !s.producer.Ended? && !s.consumer.Returned?
    ensures var s' := RunFrom(feed, rx, s, more);
            Delivered(feed, s') && s'.cancelled == s.cancelled && s'.rules == s.rules
    decreases |feed| - s.read, s.producer.Holding?, |s.channel|, Phase(s.consumer), RulesLeft(s.consumer)
  {
    if Delivered(feed, s) {
      more := [];
    } else {
      var st := DeliveryStep(feed, rx, s);
      NextInv(feed, rx, s, st);
      var rest := DeliverFrom(feed, rx, Next(feed, rx, s, st));
      more := [st] + rest;
      assert more[1..] == rest;
    }
  }

  lemma {:induction false} RunContinues(feed: seq<Change>, rx: Regex, steps: seq<Step>, more: seq<Step>)
    ensures Run(feed, rx, steps + more) == RunFrom(feed, rx, Run(feed, rx, steps), more)
    decreases |more|
  {
    if more == [] {
      assert steps + more == steps;
    } else {
      RunContinues(feed, rx, steps + [more[0]], more[1..]);
      assert (steps + [more[0]]) + more[1..] == steps + more;
      assert (steps + [more[0]])[..|steps|] == steps;
    }
  }

  /** Nothing is stuck: while producer and consumer live, every relevant change of the feed can still be
      evaluated, without cancelling and against the rules installed now. */
  lemma DeliveryIsPossible(feed: seq<Change>, rx: Regex, steps: seq<Step>) returns (more: seq<Step>)
    requires !Run(feed, rx, steps).producer.Ended? && !Run(feed, rx, steps).consumer.Returned?
    ensures var s, s' := Run(feed, rx, steps), Run(feed, rx, steps + more);
            && Delivered(feed, s') && s'.evaluated == RelevantEvents(feed)
            && s'.cancelled == s.cancelled && s'.rules == s.rules
  {
    RunInv(feed, rx, steps);
    more := DeliverFrom(feed, rx, Run(feed, rx, steps));
    RunContinues(feed, rx, steps, more);
    RunInv(feed, rx, steps + more);
    assert feed[..|feed|] == feed;
  }
}
