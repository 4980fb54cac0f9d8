/**
 Tool permissions: the broker that stands between an employee and its tools
 (employee_runtime/core/tool_broker.py), and the first-match rules of the autonomy manager
 (component_library/quality/autonomy_manager.py).
 */
module ToolBroker {
  import opened Common

  // ----- autonomy decisions -----

  datatype ActionType = Reversible | SemiReversible | Irreversible

  /** A tier outside the four known ones does not pass validation. */
  datatype Tier = Low | Medium | High | Critical | Unknown

  /** A mode outside the three known ones does not pass validation. */
  datatype Mode = Autonomous | ApprovalRequired | Escalate | Invalid

  /** The keys a rule may match on; a missing key always matches. */
  datatype Rule = Rule(tier: Option<Tier>, action: Option<ActionType>, confidenceMin: Option<real>,
                       confidenceMax: Option<real>, recipientsMin: Option<int>, recipientsMax: Option<int>, mode: Mode)

  /** The policy keys that are set, and whether they are truthy. */
  type Policy = map<string, bool>

  datatype Manager = Manager(overrides: Policy, matrix: seq<Rule>, logs: bool)

  datatype Proposal = Proposal(action: ActionType, confidence: real, recipients: nat)

  const FORCE_APPROVAL := "force_approval_all"
  const FORCE_ESCALATION := "force_escalation"

  predicate IsSet(policy: Policy, key: string) {
    key in policy && policy[key]
  }

  predicate Matches(rule: Rule, p: Proposal, tier: Tier) {
    && (rule.tier.Some? ==> tier == rule.tier.value)
    && (rule.action.Some? ==> p.action == rule.action.value)
    && (rule.confidenceMin.Some? ==> p.confidence >= rule.confidenceMin.value)
    && (rule.confidenceMax.Some? ==> p.confidence <= rule.confidenceMax.value)
    && (rule.recipientsMin.Some? ==> p.recipients >= rule.recipientsMin.value)
    && (rule.recipientsMax.Some? ==> p.recipients <= rule.recipientsMax.value)
  }

  /** The mode of the first rule that matches; autonomous when none does. */
  function FirstMatch(matrix: seq<Rule>, p: Proposal, tier: Tier): Mode {
    if matrix == [] then Autonomous
    else if Matches(matrix[0], p, tier) then matrix[0].mode
    else FirstMatch(matrix[1..], p, tier)
  }

  /** `{**overrides, **policy}`: what the broker sets wins. */
  function Effective(m: Manager, policy: Policy): Policy {
    m.overrides + policy
  }

  predicate Forced(m: Manager, policy: Policy) {
    IsSet(Effective(m, policy), FORCE_APPROVAL) || IsSet(Effective(m, policy), FORCE_ESCALATION)
  }

  function DecisionOf(m: Manager, policy: Policy, p: Proposal, tier: Tier): Mode {
    if IsSet(Effective(m, policy), FORCE_APPROVAL) then ApprovalRequired
    else if IsSet(Effective(m, policy), FORCE_ESCALATION) then Escalate
    else FirstMatch(m.matrix, p, tier)
  }

  method Decide(m: Manager, policy: Policy, p: Proposal, tier: Tier) returns (mode: Mode)
    ensures mode == DecisionOf(m, policy, p, tier)
  {
    var merged := m.overrides + policy;
    if IsSet(merged, FORCE_APPROVAL) {
      return ApprovalRequired;
    }
    if IsSet(merged, FORCE_ESCALATION) {
      return Escalate;
    }
    for i := 0 to |m.matrix|
      invariant FirstMatch(m.matrix, p, tier) == FirstMatch(m.matrix[i..], p, tier)
    {
      assert m.matrix[i..][1..] == m.matrix[i + 1..];
      if Matches(m.matrix[i], p, tier) {
        return m.matrix[i].mode;
      }
    }
    return Autonomous;
  }

  /** Rules behind the first match never count. */
  lemma {:induction false} FirstMatchDecides(matrix: seq<Rule>, p: Proposal, tier: Tier, i: nat)
    requires i <= |matrix|
    requires forall j :: 0 <= j < i ==> !Matches(matrix[j], p, tier)
    requires i < |matrix| ==> Matches(matrix[i], p, tier)
    ensures FirstMatch(matrix, p, tier) == if i < |matrix| then matrix[i].mode else Autonomous
  {
    if i > 0 {
      FirstMatchDecides(matrix[1..], p, tier, i - 1);
    }
  }

  // ----- the shipped matrix -----

  function Ask(tier: Option<Tier>, action: Option<ActionType>, confidenceMax: Option<real>, recipientsMin: Option<int>,
               mode: Mode): Rule {
    Rule(tier, action, None, confidenceMax, recipientsMin, None, mode)
  }

  const SHIPPED: seq<Rule> := [
    Ask(Some(Critical), None, None, None, Escalate),
    Ask(Some(High), Some(Irreversible), None, None, ApprovalRequired),
    Ask(Some(Medium), Some(Irreversible), Some(0.85), None, ApprovalRequired),
    Ask(Some(Low), Some(Irreversible), Some(0.7), None, ApprovalRequired),
    Ask(Some(High), Some(SemiReversible), Some(0.8), None, ApprovalRequired),
    Ask(Some(Medium), Some(SemiReversible), Some(0.55), None, ApprovalRequired),
    Ask(Some(High), Some(Reversible), Some(0.75), None, ApprovalRequired),
    Ask(Some(Medium), Some(Reversible), Some(0.5), None, ApprovalRequired),
    Ask(None, None, Some(0.9), Some(50), ApprovalRequired),
    Ask(None, None, None, None, Autonomous)
  ]

  /** Some rule before the last one, all of which ask a human, matches. */
  ghost predicate AskedFor(p: Proposal, tier: Tier) {
    exists i :: 0 <= i < 9 && Matches(SHIPPED[i], p, tier)
  }

  lemma LeastMatch(p: Proposal, tier: Tier, n: nat) returns (i: nat)
    requires n <= |SHIPPED|
    ensures i <= n && (forall j :: 0 <= j < i ==> !Matches(SHIPPED[j], p, tier))
    ensures i < n ==> Matches(SHIPPED[i], p, tier)
  {
    i := 0;
    while i < n && !Matches(SHIPPED[i], p, tier)
      invariant i <= n && forall j :: 0 <= j < i ==> !Matches(SHIPPED[j], p, tier)
    {
      i := i + 1;
    }
  }

  lemma ShippedIsAutonomousIff(p: Proposal, tier: Tier)
    ensures FirstMatch(SHIPPED, p, tier).Autonomous? <==> !AskedFor(p, tier)
  {
    var i := LeastMatch(p, tier, 9);
    if i == 9 {
      assert Matches(SHIPPED[9], p, tier);
    }
    FirstMatchDecides(SHIPPED, p, tier, i);
    assert forall j :: 0 <= j < 9 ==> SHIPPED[j].mode != Autonomous;
  }

  /** The confidence is above the floor for the tier and the kind of action. */
  predicate AboveFloor(tier: Tier, action: ActionType, confidence: real) {
    match tier
    case Critical => false
    case High => (action.Reversible? && confidence > 0.75) || (action.SemiReversible? && confidence > 0.8)
    case Medium =>
      (match action
       case Reversible => confidence > 0.5
       case SemiReversible => confidence > 0.55
       case Irreversible => confidence > 0.85)
    case Low => action.Irreversible? ==> confidence > 0.7
    case Unknown => true
  }

  lemma AskedForIff(p: Proposal, tier: Tier)
    ensures AskedFor(p, tier) <==> !AboveFloor(tier, p.action, p.confidence) || (p.recipients >= 50 && p.confidence <= 0.9)
  {
    if !AboveFloor(tier, p.action, p.confidence) {
      assert || Matches(SHIPPED[0], p, tier) || Matches(SHIPPED[1], p, tier) || Matches(SHIPPED[2], p, tier)
             || Matches(SHIPPED[3], p, tier) || Matches(SHIPPED[4], p, tier) || Matches(SHIPPED[5], p, tier)
             || Matches(SHIPPED[6], p, tier) || Matches(SHIPPED[7], p, tier);
    }
    if p.recipients >= 50 && p.confidence <= 0.9 {
      assert Matches(SHIPPED[8], p, tier);
    }
  }

  function TierLevel(tier: Tier): nat {
    match tier
    case Low => 1
    case Medium => 2
    case High => 3
    case Critical => 4
    case Unknown => 0
  }

  function ActionLevel(action: ActionType): nat {
    match action
    case Reversible => 1
    case SemiReversible => 2
    case Irreversible => 3
  }

  /** No more risk: a tier, an action and a number of recipients no higher, a confidence no lower. */
  predicate NoRiskier(p: Proposal, tier: Tier, p': Proposal, tier': Tier) {
    && TierLevel(tier) <= TierLevel(tier') && ActionLevel(p.action) <= ActionLevel(p'.action)
    && p.recipients <= p'.recipients && p.confidence >= p'.confidence
  }

  /** The shipped rules are monotone: what is allowed without asking stays so with less risk. */
  lemma ShippedMatrixIsMonotone(p: Proposal, tier: Tier, p': Proposal, tier': Tier)
    requires NoRiskier(p, tier, p', tier') && FirstMatch(SHIPPED, p', tier').Autonomous?
    ensures FirstMatch(SHIPPED, p, tier).Autonomous?
  {
    ShippedIsAutonomousIff(p, tier);
    ShippedIsAutonomousIff(p', tier');
    AskedForIff(p, tier);
    AskedForIff(p', tier');
  }

  // ----- the broker -----

  /** A call; `to` says whether a recipient is named, `attendees` how many are listed, if any list is given. */
  datatype Call = Call(tool: string, action: string, confidence: real, to: bool, attendees: Option<nat>)

  /** `Decided` is the manager's answer, `DecisionLogged` its own record of it, if it keeps one. */
  datatype Event =
    | Decided(call: Call, mode: Mode)
    | DecisionLogged(call: Call, mode: Mode)
    | Blocked(call: Call, mode: Mode)
    | Audited(call: Call)
    | Invoked(call: Call)

  datatype Outcome = Answered | NotAllowed | NotRegistered | NotAutonomous | BadContext | LoggerFailed

  datatype Config = Config(allowed: set<string>, registered: set<string>, audited: bool, manager: Option<Manager>,
                           tier: Tier, policy: Policy)

  /** Which loggers accept their event; a logger that fails ends the call. */
  datatype Loggers = Loggers(manager: bool, broker: bool)

  function Classify(tool: string, action: string): ActionType {
    if (tool == "email_tool" || tool == "messaging_tool") && action == "send" then Irreversible
    else if (tool == "calendar_tool" && action == "create_event") || (tool == "crm_tool" && action == "upsert_contact")
    then SemiReversible
    else Reversible
  }

  function Recipients(call: Call): nat {
    var named := if call.to then 1 else 0;
    if call.attendees.Some? && call.attendees.value > named then call.attendees.value else named
  }

  function ProposalOf(call: Call): Proposal {
    Proposal(Classify(call.tool, call.action), call.confidence, Recipients(call))
  }

  function ModeFor(cfg: Config, m: Manager, call: Call): Mode {
    if cfg.tier.Unknown? then Invalid else DecisionOf(m, cfg.policy, ProposalOf(call), cfg.tier)
  }

  /** What the autonomy check records, and how it ends; `Answered` means that the call may go on. */
  function Checked(cfg: Config, call: Call, loggers: Loggers): (seq<Event>, Outcome) {
    match cfg.manager
    case None => ([], Answered)
    case Some(m) =>
      var mode := ModeFor(cfg, m, call);
      if mode.Invalid? then ([], BadContext)
      else if m.logs && !loggers.manager then ([Decided(call, mode)], LoggerFailed)
      else
        var seen := [Decided(call, mode)] + if m.logs then [DecisionLogged(call, mode)] else [];
        if mode.Autonomous? then (seen, Answered)
        else if !cfg.audited then (seen, NotAutonomous)
        else if !loggers.broker then (seen, LoggerFailed)
        else (seen + [Blocked(call, mode)], NotAutonomous)
  }

  /** Everything one call records, and how it ends. */
  function Handled(cfg: Config, call: Call, loggers: Loggers): (seq<Event>, Outcome) {
    if call.tool !in cfg.allowed then ([], NotAllowed)
    else if call.tool !in cfg.registered then ([], NotRegistered)
    else
      var check := Checked(cfg, call, loggers);
      if !check.1.Answered? then check
      else if !cfg.audited then (check.0 + [Invoked(call)], Answered)
      else if !loggers.broker then (check.0, LoggerFailed)
      else (check.0 + [Audited(call), Invoked(call)], Answered)
  }

  class Broker {
    const cfg: Config
    var events: seq<Event>

    constructor (cfg: Config)
      ensures this.cfg == cfg && events == []
    {
      this.cfg := cfg;
      events := [];
    }

    method EnforceAutonomy(call: Call, loggers: Loggers) returns (outcome: Outcome)
      modifies this
      ensures events == old(events) + Checked(cfg, call, loggers).0 && outcome == Checked(cfg, call, loggers).1
    {
      if cfg.manager.None? {
        return Answered;
      }
      var m := cfg.manager.value;
      if cfg.tier.Unknown? {
        return BadContext;
      }
      var mode := Decide(m, cfg.policy, ProposalOf(call), cfg.tier);
      if mode.Invalid? {
        return BadContext;
      }
      events := events + [Decided(call, mode)];
      if m.logs {
        if !loggers.manager {
          return LoggerFailed;
        }
        events := events + [DecisionLogged(call, mode)];
      }
      if mode.Autonomous? {
        return Answered;
      }
      if cfg.audited {
        if !loggers.broker {
          return LoggerFailed;
        }
        events := events + [Blocked(call, mode)];
      }
      return NotAutonomous;
    }

    method Execute(call: Call, loggers: Loggers) returns (outcome: Outcome)
      modifies this
      ensures events == old(events) + Handled(cfg, call, loggers).0 && outcome == Handled(cfg, call, loggers).1
    {
      if call.tool !in cfg.allowed {
        return NotAllowed;
      }
      if call.tool !in cfg.registered {
        return NotRegistered;
      }
      outcome := EnforceAutonomy(call, loggers);
      if !outcome.Answered? {
        return;
      }
      if cfg.audited {
        if !loggers.broker {
          return LoggerFailed;
        }
        events := events + [Audited(call)];
      }
      events := events + [Invoked(call)];
    }
  }

  // ----- whole runs -----

  function Trace(cfg: Config, calls: seq<(Call, Loggers)>): seq<Event> {
    if calls == [] then []
    else Trace(cfg, calls[..|calls| - 1]) + Handled(cfg, calls[|calls| - 1].0, calls[|calls| - 1].1).0
  }

  method Serve(cfg: Config, calls: seq<(Call, Loggers)>) returns (broker: Broker)
    ensures fresh(broker) && broker.cfg == cfg && broker.events == Trace(cfg, calls)
  {
    broker := new Broker(cfg);
    for i := 0 to |calls|
      invariant fresh(broker) && broker.cfg == cfg && broker.events == Trace(cfg, calls[..i])
    {
      assert calls[..i + 1][..i] == calls[..i];
      var _ := broker.Execute(calls[i].0, calls[i].1);
    }
    assert calls[..|calls|] == calls;
  }

  /** How many events directly before an invocation belong to it. */
  function Lead(cfg: Config): nat {
    (if cfg.audited then 1 else 0)
    + match cfg.manager
      case None => 0
      case Some(m) => if m.logs then 2 else 1
  }

  /** The events at `k - Lead(cfg)` to `k` are an autonomous decision, its record, and the audit of the call at `k`. */
  ghost predicate Justified(cfg: Config, trace: seq<Event>, k: nat) {
    && Lead(cfg) <= k < |trace| && trace[k].Invoked?
    && trace[k].call.tool in cfg.allowed && trace[k].call.tool in cfg.registered
    && (cfg.audited ==> trace[k - 1] == Audited(trace[k].call))
    && (cfg.manager.Some? ==> trace[k - Lead(cfg)] == Decided(trace[k].call, Autonomous))
    && (cfg.manager.Some? && cfg.manager.value.logs ==>
          trace[k - Lead(cfg) + 1] == DecisionLogged(trace[k].call, Autonomous))
  }

  lemma OneCallIsJustified(cfg: Config, call: Call, loggers: Loggers, k: nat)
    requires k < |Handled(cfg, call, loggers).0| && Handled(cfg, call, loggers).0[k].Invoked?
    ensures Justified(cfg, Handled(cfg, call, loggers).0, k)
  {
  }

  lemma JustifiedLater(cfg: Config, before: seq<Event>, events: seq<Event>, k: nat)
    requires Justified(cfg, events, k)
    ensures Justified(cfg, before + events, |before| + k)
  {
  }

  /**
   In every run each invocation is of an allowed, registered tool, directly preceded by its own
   audit event when there is an audit logger, and by an autonomous decision on the same call when
   there is an autonomy manager.
   */
  lemma {:induction false} InvocationsAreJustified(cfg: Config, calls: seq<(Call, Loggers)>, k: nat)
    requires k < |Trace(cfg, calls)| && Trace(cfg, calls)[k].Invoked?
    ensures Justified(cfg, Trace(cfg, calls), k)
  {
    var before, last := Trace(cfg, calls[..|calls| - 1]), calls[|calls| - 1];
    if k < |before| {
      InvocationsAreJustified(cfg, calls[..|calls| - 1], k);
    } else {
      OneCallIsJustified(cfg, last.0, last.1, k - |before|);
      JustifiedLater(cfg, before, Handled(cfg, last.0, last.1).0, k - |before|);
    }
  }

  /** An audited call is invoked at once: nothing is recorded as invoked that was not. */
  lemma {:induction false} AuditedCallsAreInvoked(cfg: Config, calls: seq<(Call, Loggers)>, k: nat)
    requires k < |Trace(cfg, calls)| && Trace(cfg, calls)[k].Audited?
    ensures k + 1 < |Trace(cfg, calls)| && Trace(cfg, calls)[k + 1] == Invoked(Trace(cfg, calls)[k].call)
  {
    var before := Trace(cfg, calls[..|calls| - 1]);
    if k < |before| {
      AuditedCallsAreInvoked(cfg, calls[..|calls| - 1], k);
    }
  }

  /** With everything else in order, a call is invoked exactly when its decision is autonomous. */
  lemma InvokedIff(cfg: Config, call: Call, loggers: Loggers)
    ensures Invoked(call) in Handled(cfg, call, loggers).0
            <==> && call.tool in cfg.allowed && call.tool in cfg.registered
                 && (cfg.manager.Some? ==>
                       && ModeFor(cfg, cfg.manager.value, call).Autonomous?
                       && (cfg.manager.value.logs ==> loggers.manager))
                 && (cfg.audited ==> loggers.broker)
    ensures Invoked(call) in Handled(cfg, call, loggers).0 <==> Handled(cfg, call, loggers).1.Answered?
  {
    var r := Handled(cfg, call, loggers);
    assert r.1.Answered? ==> r.0[|r.0| - 1] == Invoked(call);
  }

  /** A forced policy wins over every rule matrix: in no run is any tool invoked. */
  lemma {:induction false} ForcedPolicyInvokesNothing(cfg: Config, calls: seq<(Call, Loggers)>)
    requires cfg.manager.Some? && Forced(cfg.manager.value, cfg.policy)
    ensures forall e :: e in Trace(cfg, calls) ==> !e.Invoked?
  {
    if calls != [] {
      ForcedPolicyInvokesNothing(cfg, calls[..|calls| - 1]);
    }
  }

  function WithMatrix(cfg: Config, matrix: seq<Rule>): Config {
    match cfg.manager
    case None => cfg
    case Some(m) => cfg.(manager := Some(m.(matrix := matrix)))
  }

  /** A call that is otherwise in order is refused under every matrix if and only if the policy is forced. */
  lemma RefusedUnderEveryMatrixIffForced(cfg: Config, call: Call)
    requires cfg.manager.Some? && !cfg.tier.Unknown? && call.tool in cfg.allowed && call.tool in cfg.registered
    ensures (forall matrix :: !Handled(WithMatrix(cfg, matrix), call, Loggers(true, true)).1.Answered?)
            <==> Forced(cfg.manager.value, cfg.policy)
  {
    var m, working := cfg.manager.value, Loggers(true, true);
    if Forced(m, cfg.policy) {
      forall matrix ensures !Handled(WithMatrix(cfg, matrix), call, working).1.Answered? {
        InvokedIff(WithMatrix(cfg, matrix), call, working);
      }
    } else {
      assert Handled(WithMatrix(cfg, []), call, working).1.Answered?;
    }
  }

  /** The broker's own policy decides the keys it sets: it can also lift a manager's override. */
  lemma BrokerPolicyWins(m: Manager, policy: Policy)
    requires FORCE_APPROVAL in policy && FORCE_ESCALATION in policy
    ensures Forced(m, policy) <==> policy[FORCE_APPROVAL] || policy[FORCE_ESCALATION]
  {
  }

  predicate IsSend(call: Call) {
    (call.tool == "email_tool" || call.tool == "messaging_tool") && call.action == "send"
  }

  predicate IsBooking(call: Call) {
    (call.tool == "calendar_tool" && call.action == "create_event") || (call.tool == "crm_tool" && call.action == "upsert_contact")
  }

  /** What the shipped rules let an employee of this tier do without asking. */
  predicate MayGoAlone(tier: Tier, call: Call) {
    && (call.attendees.Some? && call.attendees.value >= 50 ==> call.confidence > 0.9)
    && match tier
       case Low => IsSend(call) ==> call.confidence > 0.7
       case Medium => call.confidence > if IsSend(call) then 0.85 else if IsBooking(call) then 0.55 else 0.5
       case High => !IsSend(call) && call.confidence > if IsBooking(call) then 0.8 else 0.75
       case Critical => false
       case Unknown => false
  }

  /** A call falls under a rule: the bounds are inclusive, and a call to someone has at least one recipient. */
  predicate FallsUnder(rule: Rule, tier: Tier, call: Call) {
    && (rule.tier == None || rule.tier == Some(tier))
    && (rule.action == None
        || rule.action == Some(if IsSend(call) then Irreversible else if IsBooking(call) then SemiReversible else Reversible))
    && (rule.confidenceMin.Some? ==> rule.confidenceMin.value <= call.confidence)
    && (rule.confidenceMax.Some? ==> call.confidence <= rule.confidenceMax.value)
    && (rule.recipientsMin.Some? ==>
          || rule.recipientsMin.value <= 0
          || (call.to && rule.recipientsMin.value <= 1)
          || (call.attendees.Some? && rule.recipientsMin.value <= call.attendees.value))
    && (rule.recipientsMax.Some? ==>
          && 0 <= rule.recipientsMax.value
          && (call.to ==> 1 <= rule.recipientsMax.value)
          && (call.attendees.Some? ==> call.attendees.value <= rule.recipientsMax.value))
  }

  /** Under any rules the mode is that of the first rule the call falls under. */
  lemma {:induction false} ModeByPlace(cfg: Config, m: Manager, call: Call, i: nat)
    requires !Forced(m, cfg.policy) && !cfg.tier.Unknown? && i <= |m.matrix|
    requires forall j :: 0 <= j < i ==> !FallsUnder(m.matrix[j], cfg.tier, call)
    requires i < |m.matrix| ==> FallsUnder(m.matrix[i], cfg.tier, call)
    ensures ModeFor(cfg, m, call) == if i < |m.matrix| then m.matrix[i].mode else Autonomous
  {
    forall j | 0 <= j < |m.matrix|
      ensures FallsUnder(m.matrix[j], cfg.tier, call) <==> Matches(m.matrix[j], ProposalOf(call), cfg.tier)
    {
      FallingIsMatching(m.matrix[j], cfg.tier, call);
    }
    FirstMatchDecides(m.matrix, ProposalOf(call), cfg.tier, i);
  }

  lemma FallingIsMatching(rule: Rule, tier: Tier, call: Call)
    ensures FallsUnder(rule, tier, call) <==> Matches(rule, ProposalOf(call), tier)
  {
    assert Classify(call.tool, call.action)
           == if IsSend(call) then Irreversible else if IsBooking(call) then SemiReversible else Reversible;
  }

  lemma ShippedModeIff(cfg: Config, m: Manager, call: Call)
    requires m.matrix == SHIPPED && !Forced(m, cfg.policy)
    ensures ModeFor(cfg, m, call).Autonomous? <==> MayGoAlone(cfg.tier, call)
  {
    if !cfg.tier.Unknown? {
      ShippedIsAutonomousIff(ProposalOf(call), cfg.tier);
      AskedForIff(ProposalOf(call), cfg.tier);
    }
  }

  /** With the shipped rules and no forced policy a call in order is invoked exactly when it may go alone. */
  lemma ShippedInvokedIff(cfg: Config, call: Call)
    requires cfg.manager.Some? && cfg.manager.value.matrix == SHIPPED && !Forced(cfg.manager.value, cfg.policy)
    requires call.tool in cfg.allowed && call.tool in cfg.registered
    ensures Invoked(call) in Handled(cfg, call, Loggers(true, true)).0 <==> MayGoAlone(cfg.tier, call)
  {
    InvokedIff(cfg, call, Loggers(true, true));
    ShippedModeIff(cfg, cfg.manager.value, call);
  }

  /** A call is refused with its decision on record, last of all as blocked when there is an audit logger that takes it. */
  lemma RefusalIsRecorded(cfg: Config, call: Call, loggers: Loggers)
    ensures var (events, outcome) := Handled(cfg, call, loggers);
            outcome.NotAutonomous? ==>
              && cfg.manager.Some?
              && var mode := ModeFor(cfg, cfg.manager.value, call);
                 && mode in {ApprovalRequired, Escalate}
                 && events == [Decided(call, mode)]
                              + (if cfg.manager.value.logs then [DecisionLogged(call, mode)] else [])
                              + (if cfg.audited then [Blocked(call, mode)] else [])
  {
  }

  lemma HandledInvokesItsCall(cfg: Config, call: Call, loggers: Loggers)
    ensures forall e :: e in Handled(cfg, call, loggers).0 && e.Invoked? ==> e.call == call
  {
  }

  /** In every run with the shipped rules, whatever the policy, only calls that may go alone are invoked. */
  lemma {:induction false} ShippedInvocationsMayGoAlone(cfg: Config, calls: seq<(Call, Loggers)>)
    requires cfg.manager.Some? && cfg.manager.value.matrix == SHIPPED
    ensures forall e :: e in Trace(cfg, calls) && e.Invoked? ==> MayGoAlone(cfg.tier, e.call)
  {
    if Forced(cfg.manager.value, cfg.policy) {
      ForcedPolicyInvokesNothing(cfg, calls);
    } else if calls != [] {
      ShippedInvocationsMayGoAlone(cfg, calls[..|calls| - 1]);
      var call, loggers := calls[|calls| - 1].0, calls[|calls| - 1].1;
      HandledInvokesItsCall(cfg, call, loggers);
      InvokedIff(cfg, call, loggers);
      ShippedModeIff(cfg, cfg.manager.value, call);
    }
  }

  /** With the shipped rules no broker ever invokes a tool for a critical employee, nor sends a message for a high-risk one. */
  lemma ShippedRulesStopTheRiskiest(cfg: Config, calls: seq<(Call, Loggers)>)
    requires cfg.manager.Some? && cfg.manager.value.matrix == SHIPPED
    requires cfg.tier.High? || cfg.tier.Critical?
    ensures forall e :: e in Trace(cfg, calls) && e.Invoked? ==>
              cfg.tier.High? && !(e.call.tool in {"email_tool", "messaging_tool"} && e.call.action == "send")
  {
    ShippedInvocationsMayGoAlone(cfg, calls);
  }
}
