/** Rule loading, evaluation and firing of internal/alert/dispatcher.go. */
module Alerts {
  import opened Models
  import opened Wrappers

  /** The fields of an alert rule that the dispatcher reads; an empty string leaves a test out. */
  datatype Rule = Rule(
    name: string, serviceName: string, level: LogLevel, pattern: string, webhook: string, enabled: bool)

  datatype CompiledRule = CompiledRule(rule: Rule, pattern: Option<string>)

  /** The regular-expression library: which patterns compile, and what they match. */
  datatype Regex = Regex(compiles: string -> bool, matches: (string, string) -> bool)

  const FATAL_DEFAULT: Rule := Rule("fatal-default", "", "", "", "", false)

  /** `LoadRules`: the enabled rules of the collection, in the order the server returns them. */
  function Loaded(stored: seq<Rule>): seq<Rule> {
    if stored == [] then []
    else
      Loaded(stored[..|stored| - 1]) +
      if stored[|stored| - 1].enabled then [stored[|stored| - 1]] else []
  }

  predicate Usable(r: Rule, rx: Regex) {
    r.pattern == "" || rx.compiles(r.pattern)
  }

  function CompileRule(r: Rule): CompiledRule {
    CompiledRule(r, if r.pattern == "" then None else Some(r.pattern))
  }

  /** The slice `refreshRules` installs: rules whose pattern does not compile are left out. */
  function Compile(rules: seq<Rule>, rx: Regex): seq<CompiledRule> {
    if rules == [] then []
    else
      Compile(rules[..|rules| - 1], rx) +
      if Usable(rules[|rules| - 1], rx) then [CompileRule(rules[|rules| - 1])] else []
  }

  predicate Fires(cr: CompiledRule, ev: Event, rx: Regex) {
    && (cr.rule.serviceName == "" || cr.rule.serviceName == ev.serviceName)
    && (cr.rule.level == "" || cr.rule.level == ev.level)
    && (cr.pattern.Some? ==> rx.matches(cr.pattern.value, ev.message))
  }

  /** The rules of the snapshot that fire for an event, in order. */
  function Firing(snapshot: seq<CompiledRule>, ev: Event, rx: Regex): seq<Rule> {
    if snapshot == [] then []
    else
      var last := snapshot[|snapshot| - 1];
      Firing(snapshot[..|snapshot| - 1], ev, rx) + if Fires(last, ev, rx) then [last.rule] else []
  }

  /** What an evaluation against one snapshot fires. */
  function Expected(snapshot: seq<CompiledRule>, ev: Event, rx: Regex): seq<Rule> {
    if ev.level == FATAL && snapshot == [] then [FATAL_DEFAULT] else Firing(snapshot, ev, rx)
  }

  /** An installed rule is an enabled stored rule whose pattern compiles, and every such rule is installed. */
  lemma {:induction false} CompileExact(stored: seq<Rule>, rx: Regex, cr: CompiledRule)
    ensures cr in Compile(Loaded(stored), rx) <==>
            cr == CompileRule(cr.rule) && cr.rule in stored && cr.rule.enabled && Usable(cr.rule, rx)
  {
    LoadedExact(stored, cr.rule);
    CompiledExact(Loaded(stored), rx, cr);
  }

  lemma {:induction false} LoadedExact(stored: seq<Rule>, r: Rule)
    ensures r in Loaded(stored) <==> r in stored && r.enabled
  {
    if stored != [] {
      LoadedExact(stored[..|stored| - 1], r);
      assert stored == stored[..|stored| - 1] + [stored[|stored| - 1]];
    }
  }

  lemma {:induction false} CompiledExact(rules: seq<Rule>, rx: Regex, cr: CompiledRule)
    ensures cr in Compile(rules, rx) <==> cr == CompileRule(cr.rule) && cr.rule in rules && Usable(cr.rule, rx)
  {
    if rules != [] {
      CompiledExact(rules[..|rules| - 1], rx, cr);
      assert rules == rules[..|rules| - 1] + [rules[|rules| - 1]];
    }
  }

  /** What is installed, rule by rule in stored order: the enabled ones, without those whose pattern does
      not compile. */
  lemma InstalledExactly(stored: seq<Rule>, r: Rule, rx: Regex)
    ensures Compile(Loaded([]), rx) == []
    ensures Compile(Loaded(stored + [r]), rx) ==
            Compile(Loaded(stored), rx) +
            if r.enabled && r.pattern == "" then [CompiledRule(r, None)]
            else if r.enabled && rx.compiles(r.pattern) then [CompiledRule(r, Some(r.pattern))]
            else []
  {
    assert (stored + [r])[..|stored|] == stored;
    var loaded := Loaded(stored);
    assert (loaded + [r])[..|loaded|] == loaded;
    assert !r.enabled ==> loaded + [] == loaded;
  }

  /** So the installed rules are a subsequence of the stored ones: `at` lists, in ascending order, the
      places of exactly the enabled rules that compile. */
  lemma {:induction false} InstalledInOrder(stored: seq<Rule>, rx: Regex) returns (at: seq<nat>)
    ensures |at| == |Compile(Loaded(stored), rx)|
    ensures forall j, k | 0 <= j < k < |at| :: at[j] < at[k]
    ensures forall k | 0 <= k < |at| :: at[k] < |stored| && Compile(Loaded(stored), rx)[k].rule == stored[at[k]]
    ensures forall i: nat | i < |stored| ::
              i in at <==> stored[i].enabled && (stored[i].pattern == "" || rx.compiles(stored[i].pattern))
  {
    if stored == [] {
      at := [];
    } else {
      var n := |stored| - 1;
      var r := stored[n];
      at := InstalledInOrder(stored[..n], rx);
      InstalledExactly(stored[..n], r, rx);
      assert stored == stored[..n] + [r];
      if r.enabled && (r.pattern == "" || rx.compiles(r.pattern)) {
        at := at + [n];
      }
    }
  }

  /** What an evaluation fires, rule by rule in installed order: a rule fires exactly if each of its
      tests is absent or holds; on no rules, only a fatal event fires, and that the default. */
  lemma FiredExactly(snapshot: seq<CompiledRule>, cr: CompiledRule, ev: Event, rx: Regex)
    ensures Expected([], ev, rx) ==
            if ev.level == "FATAL" then [Rule("fatal-default", "", "", "", "", false)] else []
    ensures Expected(snapshot + [cr], ev, rx) ==
            (if snapshot == [] then [] else Expected(snapshot, ev, rx)) +
            if && (cr.rule.serviceName == "" || cr.rule.serviceName == ev.serviceName)
               && (cr.rule.level == "" || cr.rule.level == ev.level)
               && (cr.pattern == None || rx.matches(cr.pattern.value, ev.message))
            then [cr.rule] else []
  {
    var longer := snapshot + [cr];
    assert longer[..|snapshot|] == snapshot && longer[|longer| - 1] == cr;
    assert Expected(longer, ev, rx) == Firing(snapshot, ev, rx) + if Fires(cr, ev, rx) then [cr.rule] else [];
  }

  /** From the stored rules to the alert: a rule fires for an event exactly if it is stored, enabled, and
      its service, level and pattern are each absent or match, a pattern that does not compile never;
      or if it is the default, the event is fatal and no stored rule can be installed. */
  lemma AlertsExactly(stored: seq<Rule>, ev: Event, rx: Regex, r: Rule)
    ensures r in Expected(Compile(Loaded(stored), rx), ev, rx) <==>
            || (&& r in stored && r.enabled
                && (r.serviceName == "" || r.serviceName == ev.serviceName)
                && (r.level == "" || r.level == ev.level)
                && (r.pattern == "" || (rx.compiles(r.pattern) && rx.matches(r.pattern, ev.message))))
            || (&& ev.level == "FATAL" && r == Rule("fatal-default", "", "", "", "", false)
                && forall q | q in stored :: !(q.enabled && (q.pattern == "" || rx.compiles(q.pattern))))
  {
    var installed := Compile(Loaded(stored), rx);
    forall q | q in stored && q.enabled && (q.pattern == "" || rx.compiles(q.pattern)) ensures installed != [] {
      CompileExact(stored, rx, CompileRule(q));
    }
    if installed != [] {
      CompileExact(stored, rx, installed[0]);
    }
    FiringMembers(installed, ev, rx, r);
    CompileExact(stored, rx, CompileRule(r));
    if CompileRule(r) in installed {
      var i :| 0 <= i < |installed| && installed[i] == CompileRule(r);
    }
    forall i | 0 <= i < |installed| && installed[i].rule == r ensures installed[i] == CompileRule(r) {
      CompileExact(stored, rx, installed[i]);
    }
  }

  lemma {:induction false} FiringExact(snapshot: seq<CompiledRule>, ev: Event, rx: Regex)
    ensures Firing(snapshot, ev, rx) != [] <==> exists i | 0 <= i < |snapshot| :: Fires(snapshot[i], ev, rx)
  {
    if snapshot != [] {
      var n := |snapshot| - 1;
      FiringExact(snapshot[..n], ev, rx);
      if Fires(snapshot[n], ev, rx) {
      } else if i :| 0 <= i < n && Fires(snapshot[i], ev, rx) {
        assert Fires(snapshot[..n][i], ev, rx);
      }
    }
  }

  /** `fire` is called for a fatal event exactly when no rules are installed or one of them matches it. */
  lemma WhenFatalFires(snapshot: seq<CompiledRule>, ev: Event, rx: Regex)
    requires ev.level == FATAL
    ensures Expected(snapshot, ev, rx) != [] <==>
            snapshot == [] || exists i | 0 <= i < |snapshot| :: Fires(snapshot[i], ev, rx)
  {
    FiringExact(snapshot, ev, rx);
  }

  /** So a fatal event can go by unnoticed: one rule for another service suffices. */
  lemma FatalMayBeSilent(ev: Event, rx: Regex, other: string)
    requires ev.level == FATAL && other != "" && other != ev.serviceName
    ensures var rules := Compile(Loaded([Rule("r", other, "", "", "", true)]), rx);
            |rules| == 1 && Expected(rules, ev, rx) == []
  {
    var r := Rule("r", other, "", "", "", true);
    assert [r][..0] == [];
    assert Loaded([r]) == Loaded([]) + [r];
    assert Compile([r], rx) == Compile([], rx) + [CompileRule(r)];
    assert !Fires(CompileRule(r), ev, rx);
    FiringExact([CompileRule(r)], ev, rx);
  }

  // ---------- What is posted ----------

  datatype Alert = Alert(rule: Rule, event: Event)

  /** A post handed to the circuit breaker. */
  datatype Request = Request(target: string, alert: Alert)

  function AlertsFor(rules: seq<Rule>, ev: Event): seq<Alert> {
    seq(|rules|, i requires 0 <= i < |rules| => Alert(rules[i], ev))
  }

  /** The webhook an alert goes to: the rule's own, or else the configured one. */
  function Target(slackWebhook: string, rule: Rule): string {
    if rule.webhook != "" then rule.webhook else slackWebhook
  }

  /** What calls of `fire` for these alerts hand to the breaker: with dispatch enabled, one post for
      each alert that has a target. */
  function Requests(enabled: bool, slackWebhook: string, alerts: seq<Alert>): seq<Request> {
    if !enabled || alerts == [] then []
    else
      var last := alerts[|alerts| - 1];
      var target := Target(slackWebhook, last.rule);
      Requests(enabled, slackWebhook, alerts[..|alerts| - 1]) + if target != "" then [Request(target, last)] else []
  }

  /** How many alerts are counted: every one when dispatch is disabled, otherwise every successful post. */
  function Counted(enabled: bool, alerts: nat, outcomes: seq<bool>): nat {
    if enabled then Successes(outcomes) else alerts
  }

  function Successes(outcomes: seq<bool>): nat {
    if outcomes == [] then 0
    else Successes(outcomes[..|outcomes| - 1]) + if outcomes[|outcomes| - 1] then 1 else 0
  }

  lemma {:induction false} RequestsConcat(enabled: bool, slackWebhook: string, a: seq<Alert>, b: seq<Alert>)
    ensures Requests(enabled, slackWebhook, a + b) ==
            Requests(enabled, slackWebhook, a) + Requests(enabled, slackWebhook, b)
  {
    if b == [] {
      assert a + b == a;
    } else {
      var n := |b| - 1;
      assert (a + b)[..|a + b| - 1] == a + b[..n];
      RequestsConcat(enabled, slackWebhook, a, b[..n]);
    }
  }

  /** What is posted, alert by alert in order: to the rule's own webhook, without one to the configured
      one, and without either nowhere. */
  lemma PostedExactly(enabled: bool, slackWebhook: string, alerts: seq<Alert>, rule: Rule, ev: Event)
    ensures Requests(enabled, slackWebhook, []) == []
    ensures Requests(enabled, slackWebhook, alerts + [Alert(rule, ev)]) ==
            Requests(enabled, slackWebhook, alerts) +
            if enabled && rule.webhook != "" then [Request(rule.webhook, Alert(rule, ev))]
            else if enabled && slackWebhook != "" then [Request(slackWebhook, Alert(rule, ev))]
            else []
  {
    assert (alerts + [Alert(rule, ev)])[..|alerts|] == alerts;
  }

  lemma {:induction false} SuccessesConcat(a: seq<bool>, b: seq<bool>)
    ensures Successes(a + b) == Successes(a) + Successes(b)
  {
    if b == [] {
      assert a + b == a;
    } else {
      var n := |b| - 1;
      assert (a + b)[..|a + b| - 1] == a + b[..n];
      SuccessesConcat(a, b[..n]);
    }
  }

  lemma {:induction false} FiringMembers(snapshot: seq<CompiledRule>, ev: Event, rx: Regex, r: Rule)
    ensures r in Firing(snapshot, ev, rx) <==>
            exists i | 0 <= i < |snapshot| :: Fires(snapshot[i], ev, rx) && snapshot[i].rule == r
  {
    if snapshot != [] {
      var n := |snapshot| - 1;
      FiringMembers(snapshot[..n], ev, rx, r);
      if i :| 0 <= i < n && Fires(snapshot[i], ev, rx) && snapshot[i].rule == r {
        assert snapshot[..n][i] == snapshot[i];
      }
    }
  }

  lemma {:induction false} RequestMembers(enabled: bool, slackWebhook: string, rules: seq<Rule>, ev: Event, q: Request)
    ensures q in Requests(enabled, slackWebhook, AlertsFor(rules, ev)) <==>
            && enabled && q.alert.event == ev && q.alert.rule in rules
            && q.target == (if q.alert.rule.webhook != "" then q.alert.rule.webhook else slackWebhook)
            && q.target != ""
  {
    if rules != [] {
      var n := |rules| - 1;
      RequestMembers(enabled, slackWebhook, rules[..n], ev, q);
      assert AlertsFor(rules, ev)[..n] == AlertsFor(rules[..n], ev);
      assert rules == rules[..n] + [rules[n]];
    }
  }

  lemma {:induction false} SomeRequest(enabled: bool, slackWebhook: string, rules: seq<Rule>, ev: Event)
    ensures Requests(enabled, slackWebhook, AlertsFor(rules, ev)) != [] <==>
            enabled && exists r | r in rules :: Target(slackWebhook, r) != ""
  {
    var requests := Requests(enabled, slackWebhook, AlertsFor(rules, ev));
    if requests != [] {
      RequestMembers(enabled, slackWebhook, rules, ev, requests[0]);
    }
    forall r | r in rules && enabled && Target(slackWebhook, r) != "" ensures requests != [] {
      RequestMembers(enabled, slackWebhook, rules, ev, Request(Target(slackWebhook, r), Alert(r, ev)));
    }
  }

  /** A post is attempted for a fatal event exactly when dispatch is enabled and either no rules are
      installed and a webhook is configured, or a matching rule has a webhook, its own or that one. */
  lemma WhenFatalAlerts(enabled: bool, slackWebhook: string, snapshot: seq<CompiledRule>, ev: Event, rx: Regex)
    requires ev.level == FATAL
    ensures Requests(enabled, slackWebhook, AlertsFor(Expected(snapshot, ev, rx), ev)) != [] <==>
            && enabled
            && (|| (snapshot == [] && slackWebhook != "")
                || exists i | 0 <= i < |snapshot| ::
                     Fires(snapshot[i], ev, rx) && (snapshot[i].rule.webhook != "" || slackWebhook != ""))
  {
    var rules := Expected(snapshot, ev, rx);
    SomeRequest(enabled, slackWebhook, rules, ev);
    if snapshot != [] {
      if r :| r in rules && Target(slackWebhook, r) != "" {
        FiringMembers(snapshot, ev, rx, r);
      }
      forall i | 0 <= i < |snapshot| && Fires(snapshot[i], ev, rx) ensures snapshot[i].rule in rules {
        FiringMembers(snapshot, ev, rx, snapshot[i].rule);
      }
    }
  }

  /** Without rules and without a webhook `fire` is called for a fatal event, yet nothing is posted and,
      with dispatch enabled, nothing is counted, whatever else would have succeeded. */
  lemma FatalWithoutWebhook(enabled: bool, ev: Event, rx: Regex)
    requires ev.level == FATAL
    ensures var alerts := AlertsFor(Expected([], ev, rx), ev);
            && alerts == [Alert(FATAL_DEFAULT, ev)]
            && Requests(enabled, "", alerts) == []
            && Counted(enabled, |alerts|, []) == if enabled then 0 else 1
  {
    WhenFatalAlerts(enabled, "", [], ev, rx);
  }

  lemma CountsAddUp(enabled: bool, slackWebhook: string, before: seq<Alert>, alerts: seq<Alert>,
                    earlier: seq<bool>, outcomes: seq<bool>)
    requires earlier <= outcomes
    ensures Requests(enabled, slackWebhook, before + alerts) ==
            Requests(enabled, slackWebhook, before) + Requests(enabled, slackWebhook, alerts)
    ensures Counted(enabled, |before + alerts|, outcomes) ==
            Counted(enabled, |before|, earlier) + Counted(enabled, |alerts|, outcomes[|earlier|..])
  {
    RequestsConcat(enabled, slackWebhook, before, alerts);
    SuccessesConcat(earlier, outcomes[|earlier|..]);
    assert outcomes == earlier + outcomes[|earlier|..];
  }

  // ---------- The dispatcher ----------

  lemma CompileStep(rules: seq<Rule>, i: nat, rx: Regex)
    requires i < |rules|
    ensures Compile(rules[..i + 1], rx) ==
            Compile(rules[..i], rx) + if Usable(rules[i], rx) then [CompileRule(rules[i])] else []
  {
    assert rules[..i + 1][..i] == rules[..i];
  }

  lemma AlertsStep(installed: seq<CompiledRule>, k: nat, ev: Event, rx: Regex)
    requires k < |installed|
    ensures AlertsFor(Firing(installed[..k + 1], ev, rx), ev) ==
            AlertsFor(Firing(installed[..k], ev, rx), ev) +
            if Fires(installed[k], ev, rx) then [Alert(installed[k].rule, ev)] else []
  {
    assert installed[..k + 1][..k] == installed[..k];
  }

  lemma FiredStep(before: seq<Alert>, installed: seq<CompiledRule>, k: nat, ev: Event, rx: Regex)
    requires k < |installed|
    ensures before + AlertsFor(Firing(installed[..k + 1], ev, rx), ev) ==
            (before + AlertsFor(Firing(installed[..k], ev, rx), ev)) +
            var cr := installed[k];
            if && (cr.rule.serviceName == "" || cr.rule.serviceName == ev.serviceName)
               && (cr.rule.level == "" || cr.rule.level == ev.level)
               && (cr.pattern == None || rx.matches(cr.pattern.value, ev.message))
            then [Alert(cr.rule, ev)] else []
  {
    AlertsStep(installed, k, ev, rx);
  }

  class Dispatcher {
    const enabled: bool
    const slackWebhook: string
    const rx: Regex
    var rules: array<CompiledRule> // the slice `rules` is the first `count` elements
    var count: nat
    var alertsFired: nat
    ghost var fired: seq<Alert>      // every call of fire
    ghost var requests: seq<Request> // every post handed to the circuit breaker
    ghost var outcomes: seq<bool>    // whether the breaker ran that post and it succeeded

    /** The posts are those the calls of `fire` ask for, and the counter follows from how they ended. */
    ghost predicate Valid()
      reads this
    {
      && count <= rules.Length && |outcomes| == |requests|
      && requests == Requests(enabled, slackWebhook, fired)
      && alertsFired == Counted(enabled, |fired|, outcomes)
    }

    ghost function Snapshot(): seq<CompiledRule>
      requires Valid()
      reads this, rules
    {
      rules[..count]
    }

    constructor (enabled: bool, slackWebhook: string, rx: Regex)
      ensures Valid() && Snapshot() == [] && fired == [] && alertsFired == 0
      ensures this.enabled == enabled && this.slackWebhook == slackWebhook && this.rx == rx
    {
      this.enabled, this.slackWebhook, this.rx := enabled, slackWebhook, rx;
      rules, count := new CompiledRule[0], 0;
      alertsFired, fired, requests, outcomes := 0, [], [], [];
    }

    /** Installs a fresh slice compiled from the loaded rules; a load error leaves the rules alone. */
    method RefreshRules(stored: Option<seq<Rule>>)
      requires Valid()
      modifies this`rules, this`count
      ensures Valid()
      ensures stored.None? ==> rules == old(rules) && Snapshot() == old(Snapshot())
      ensures stored.Some? ==> fresh(rules) && Snapshot() == Compile(Loaded(stored.value), rx)
    {
      if stored.None? {
        return;
      }
      var loaded := Loaded(stored.value);
      var compiled := new CompiledRule[|loaded|](_ => CompileRule(FATAL_DEFAULT));
      var n := 0;
      for i := 0 to |loaded|
        invariant n <= i && compiled[..n] == Compile(loaded[..i], rx)
        modifies compiled
      {
        CompileStep(loaded, i, rx);
        if loaded[i].pattern != "" {
          if rx.compiles(loaded[i].pattern) {
            compiled[n] := CompiledRule(loaded[i], Some(loaded[i].pattern));
            n := n + 1;
          }
        } else {
          compiled[n] := CompiledRule(loaded[i], None);
          n := n + 1;
        }
      }
      assert loaded[..|loaded|] == loaded;
      rules, count := compiled, n;
    }

    /** Posts one alert to its target, if dispatch is enabled and there is one. */
    method Fire(rule: Rule, ev: Event)
      requires Valid()
      modifies this`alertsFired, this`fired, this`requests, this`outcomes
      ensures Valid() && fired == old(fired) + [Alert(rule, ev)] && old(outcomes) <= outcomes
      ensures !enabled ==>
                requests == old(requests) && outcomes == old(outcomes) && alertsFired == old(alertsFired) + 1
      ensures enabled && rule.webhook == "" && slackWebhook == "" ==>
                requests == old(requests) && outcomes == old(outcomes) && alertsFired == old(alertsFired)
      ensures enabled && (rule.webhook != "" || slackWebhook != "") ==>
                var target := if rule.webhook != "" then rule.webhook else slackWebhook;
                && requests == old(requests) + [Request(target, Alert(rule, ev))]
                && |outcomes| == |old(outcomes)| + 1
                && alertsFired == old(alertsFired) + if outcomes[|old(outcomes)|] then 1 else 0
    {
      ghost var n := |fired|;
      fired := fired + [Alert(rule, ev)];
      assert fired[..n] == old(fired);
      if !enabled {
        alertsFired := alertsFired + 1;
        return;
      }
      var target := slackWebhook;
      if rule.webhook != "" {
        target := rule.webhook;
      }
      if target == "" {
        return;
      }
      var ok: bool := *; // what the circuit breaker and the webhook make of the post
      requests, outcomes := requests + [Request(target, Alert(rule, ev))], outcomes + [ok];
      assert outcomes[..|outcomes| - 1] == old(outcomes);
      if !ok {
        return;
      }
      alertsFired := alertsFired + 1;
    }

    /** The body of evaluate's loop: fires the rule unless one of its three tests fails. */
    method Consider(cr: CompiledRule, ev: Event)
      requires Valid()
      modifies this`alertsFired, this`fired, this`requests, this`outcomes
      ensures Valid() && old(outcomes) <= outcomes
      ensures fired == old(fired) +
                       if && (cr.rule.serviceName == "" || cr.rule.serviceName == ev.serviceName)
                          && (cr.rule.level == "" || cr.rule.level == ev.level)
                          && (cr.pattern == None || rx.matches(cr.pattern.value, ev.message))
                       then [Alert(cr.rule, ev)] else []
    {
      if cr.rule.serviceName != "" && cr.rule.serviceName != ev.serviceName {
        return;
      }
      if cr.rule.level != "" && cr.rule.level != ev.level {
        return;
      }
      if cr.pattern.Some? && !rx.matches(cr.pattern.value, ev.message) {
        return;
      }
      Fire(cr.rule, ev);
    }

    /**
     * Evaluates one event. The refresher may run at any point; `refreshes[k]` is what it does before
     * rule k is looked at. What fires is decided by the snapshot taken at the start all the same.
     */
    method Evaluate(ev: Event, refreshes: seq<Option<seq<Rule>>>)
      requires Valid()
      modifies this`rules, this`count, this`alertsFired, this`fired, this`requests, this`outcomes
      ensures Valid()
      ensures var alerts := AlertsFor(Expected(old(Snapshot()), ev, rx), ev);
              && fired == old(fired) + alerts
              && requests == old(requests) + Requests(enabled, slackWebhook, alerts)
              && old(outcomes) <= outcomes
              && alertsFired == old(alertsFired) + Counted(enabled, |alerts|, outcomes[|old(outcomes)|..])
    {
      var snapshot, n := rules, count;
      ghost var installed := Snapshot();
      ghost var alerts := AlertsFor(Expected(installed, ev, rx), ev);
      if ev.level == FATAL && n == 0 {
        Fire(FATAL_DEFAULT, ev);
        CountsAddUp(enabled, slackWebhook, old(fired), alerts, old(outcomes), outcomes);
        return;
      }
      for k := 0 to n
        invariant Valid() && old(outcomes) <= outcomes
        invariant fired == old(fired) + AlertsFor(Firing(installed[..k], ev, rx), ev)
      {
        if k < |refreshes| {
          RefreshRules(refreshes[k]);
        }
        var cr := snapshot[k];
        assert cr == installed[k];
        FiredStep(old(fired), installed, k, ev, rx);
        Consider(cr, ev);
      }
      assert installed[..n] == installed && fired == old(fired) + alerts;
      CountsAddUp(enabled, slackWebhook, old(fired), alerts, old(outcomes), outcomes);
    }
  }
}
