/**
 The rule-based architect: `_select_components_with_fallback` and its validator
 (factory/pipeline/architect/component_selector.py), and the fallback gap list
 (factory/pipeline/architect/gap_analyzer.py).  `ready` says which components are production
 ready (component_library/status.py), `lower` is the lower-casing of tool names.
 */
module ComponentSelection {
  import opened Common
  import opened Text

  datatype ComponentId =
    | LitellmRouter | TextProcessor | WorkflowExecutor | CommunicationManager | SchedulerManager | DocumentAnalyzer
    | DraftGenerator | DataAnalyzer | EmailTool | CalendarTool | MessagingTool | CrmTool | SearchTool | FileStorageTool
    | OperationalMemory | WorkingMemory | ContextAssembler | OrgContext | ConfidenceScorer | AuditSystem
    | InputProtection | VerificationLayer | AutonomyManager | ApprovalManager | Explainability | AdversarialReview
    | ComplianceRules

  datatype Category = Models | Work | Tools | Data | Quality

  datatype Component = Component(category: Category, id: ComponentId)

  datatype Archetype = LegalIntake | ExecutiveAssistant | Accountant

  datatype RiskTier = Low | Medium | High | Critical

  type Ready = ComponentId -> bool

  type Lower = string -> string

  function Baseline(role: Archetype): seq<ComponentId> {
    match role
    case LegalIntake => [
      LitellmRouter, TextProcessor, DocumentAnalyzer, DraftGenerator, EmailTool, OperationalMemory, WorkingMemory,
      ContextAssembler, OrgContext, ConfidenceScorer, AuditSystem, InputProtection, VerificationLayer]
    case ExecutiveAssistant => [
      LitellmRouter, WorkflowExecutor, CommunicationManager, SchedulerManager, DraftGenerator, EmailTool, CalendarTool,
      MessagingTool, CrmTool, OperationalMemory, WorkingMemory, ContextAssembler, OrgContext, ConfidenceScorer,
      AuditSystem, InputProtection, VerificationLayer, AutonomyManager]
    case Accountant => [
      LitellmRouter, WorkflowExecutor, CommunicationManager, DocumentAnalyzer, DraftGenerator, DataAnalyzer, EmailTool,
      CalendarTool, FileStorageTool, OperationalMemory, WorkingMemory, ContextAssembler, OrgContext, ConfidenceScorer,
      AuditSystem, InputProtection, VerificationLayer, AutonomyManager, ApprovalManager]
  }

  /** The category a baseline lists a component under. */
  function CategoryOf(id: ComponentId): Category {
    match id
    case LitellmRouter => Models
    case TextProcessor | WorkflowExecutor | CommunicationManager | SchedulerManager | DocumentAnalyzer => Work
    case DraftGenerator | DataAnalyzer => Work
    case EmailTool | CalendarTool | MessagingTool | CrmTool | SearchTool | FileStorageTool => Tools
    case OperationalMemory | WorkingMemory | ContextAssembler | OrgContext => Data
    case _ => Quality
  }

  const TOOL_MAP: seq<(string, ComponentId)> := [
    ("email", EmailTool), ("calendar", CalendarTool), ("messaging", MessagingTool), ("slack", MessagingTool),
    ("teams", MessagingTool), ("crm", CrmTool), ("search", SearchTool)
  ]

  function QualityBase(tier: RiskTier): set<ComponentId> {
    {AutonomyManager, Explainability}
    + if tier.High? || tier.Critical? then {AdversarialReview, Explainability, ApprovalManager, ComplianceRules} else {}
  }

  function Required(role: Archetype): set<ComponentId> {
    match role
    case LegalIntake => {TextProcessor, DocumentAnalyzer, DraftGenerator}
    case ExecutiveAssistant => {WorkflowExecutor, CommunicationManager, SchedulerManager}
    case Accountant => {WorkflowExecutor, CommunicationManager, DataAnalyzer, ApprovalManager}
  }

  /** The tables one role and risk tier select by. */
  datatype Rules = Rules(baseline: seq<ComponentId>, toolMap: seq<(string, ComponentId)>, quality: set<ComponentId>,
                         required: set<ComponentId>)

  function RulesFor(role: Archetype, tier: RiskTier): Rules {
    Rules(Baseline(role), TOOL_MAP, QualityBase(tier), Required(role))
  }

  function Ids(components: seq<Component>): set<ComponentId> {
    set c | c in components :: c.id
  }

  // ----- keywords -----

  /** Entry `i` of the tool map applies to the lower-cased name. */
  predicate Hits(rules: Rules, lowered: string, i: nat) {
    i < |rules.toolMap| && Contains(lowered, rules.toolMap[i].0)
  }

  /** Some keyword in the name leads to the component. */
  predicate Names(rules: Rules, lowered: string, id: ComponentId) {
    exists i: nat :: i < |rules.toolMap| && Hits(rules, lowered, i) && rules.toolMap[i].1 == id
  }

  predicate HasKeyword(rules: Rules, lowered: string) {
    exists i: nat :: i < |rules.toolMap| && Hits(rules, lowered, i)
  }

  predicate NamedBySome(rules: Rules, tools: seq<string>, lower: Lower, id: ComponentId) {
    exists k :: 0 <= k < |tools| && Names(rules, lower(tools[k]), id)
  }

  // ----- the tables -----

  /** The place of a component in the declaration above; every baseline lists its components in that order. */
  function Rank(id: ComponentId): nat {
    match id
    case LitellmRouter => 0
    case TextProcessor => 1
    case WorkflowExecutor => 2
    case CommunicationManager => 3
    case SchedulerManager => 4
    case DocumentAnalyzer => 5
    case DraftGenerator => 6
    case DataAnalyzer => 7
    case EmailTool => 8
    case CalendarTool => 9
    case MessagingTool => 10
    case CrmTool => 11
    case SearchTool => 12
    case FileStorageTool => 13
    case OperationalMemory => 14
    case WorkingMemory => 15
    case ContextAssembler => 16
    case OrgContext => 17
    case ConfidenceScorer => 18
    case AuditSystem => 19
    case InputProtection => 20
    case VerificationLayer => 21
    case AutonomyManager => 22
    case ApprovalManager => 23
    case Explainability => 24
    case AdversarialReview => 25
    case ComplianceRules => 26
  }

  ghost predicate Ascending(ids: seq<ComponentId>) {
    forall i :: 0 < i < |ids| ==> Rank(ids[i - 1]) < Rank(ids[i])
  }

  lemma {:induction false} AscendingRanks(ids: seq<ComponentId>, i: nat, j: nat)
    requires Ascending(ids) && i < j < |ids|
    ensures Rank(ids[i]) < Rank(ids[j])
  {
    if i < j - 1 {
      AscendingRanks(ids, i, j - 1);
    }
  }

  lemma LegalAscends()
    ensures Ascending(Baseline(LegalIntake))
  {
    var ids := Baseline(LegalIntake);
    forall i | 0 < i < |ids| ensures Rank(ids[i - 1]) < Rank(ids[i]) {
      if i < 5 {} else if i < 9 {} else {}
    }
  }

  lemma AssistantAscends()
    ensures Ascending(Baseline(ExecutiveAssistant))
  {
    var ids := Baseline(ExecutiveAssistant);
    forall i | 0 < i < |ids| ensures Rank(ids[i - 1]) < Rank(ids[i]) {
      if i < 4 {} else if i < 8 {} else if i < 12 {} else if i < 16 {} else {}
    }
  }

  lemma AccountantAscends()
    ensures Ascending(Baseline(Accountant))
  {
    var ids := Baseline(Accountant);
    forall i | 0 < i < |ids| ensures Rank(ids[i - 1]) < Rank(ids[i]) {
      if i < 4 {} else if i < 8 {} else if i < 12 {} else if i < 16 {} else {}
    }
  }

  lemma BaselineIsDistinct(role: Archetype)
    ensures Distinct(Baseline(role))
  {
    match role {
      case LegalIntake => LegalAscends();
      case ExecutiveAssistant => AssistantAscends();
      case Accountant => AccountantAscends();
    }
    var ids := Baseline(role);
    forall i, j | 0 <= i < j < |ids| ensures ids[i] != ids[j] {
      AscendingRanks(ids, i, j);
    }
  }

  lemma RequiredIsBaseline(role: Archetype)
    ensures forall id :: id in Required(role) ==> id in Baseline(role)
  {
    var ids := Baseline(role);
    match role
    case LegalIntake => assert ids[1] == TextProcessor && ids[2] == DocumentAnalyzer && ids[3] == DraftGenerator;
    case ExecutiveAssistant =>
      assert ids[1] == WorkflowExecutor && ids[2] == CommunicationManager && ids[3] == SchedulerManager;
    case Accountant =>
      assert ids[1] == WorkflowExecutor && ids[2] == CommunicationManager && ids[5] == DataAnalyzer
             && ids[18] == ApprovalManager;
  }

  /** What the tables have in common, whatever the role and the tier. */
  ghost predicate Sound(rules: Rules) {
    && Distinct(rules.baseline)
    && (forall id :: id in rules.required ==> id in rules.baseline)
    && (forall i :: 0 <= i < |rules.toolMap| ==> CategoryOf(rules.toolMap[i].1).Tools?)
    && (forall id :: id in rules.quality ==> CategoryOf(id).Quality?)
  }

  lemma ToolMapHoldsTools()
    ensures forall i :: 0 <= i < |TOOL_MAP| ==> CategoryOf(TOOL_MAP[i].1).Tools?
  {
  }

  lemma QualityBaseHoldsQuality(tier: RiskTier)
    ensures forall id :: id in QualityBase(tier) ==> CategoryOf(id).Quality?
  {
  }

  lemma RulesAreSound(role: Archetype, tier: RiskTier)
    ensures Sound(RulesFor(role, tier))
  {
    BaselineIsDistinct(role);
    RequiredIsBaseline(role);
    ToolMapHoldsTools();
    QualityBaseHoldsQuality(tier);
  }

  // ----- selection -----

  /** The first `n` entries of the tool map already lead to the component. */
  predicate NamesWithin(rules: Rules, lowered: string, id: ComponentId, n: nat) {
    exists i: nat :: i < n && i < |rules.toolMap| && Hits(rules, lowered, i) && rules.toolMap[i].1 == id
  }

  /** Exactly the components that are selected. */
  predicate Chosen(id: ComponentId, rules: Rules, tools: seq<string>, ready: Ready, lower: Lower) {
    ready(id) && (id in rules.baseline || NamedBySome(rules, tools, lower, id) || id in rules.quality)
  }

  ghost predicate AreChosen(ids: set<ComponentId>, rules: Rules, tools: seq<string>, ready: Ready, lower: Lower) {
    forall id :: id in ids <==> Chosen(id, rules, tools, ready, lower)
  }

  /** No component is listed twice, and each is in its category. */
  ghost predicate Tidy(components: seq<Component>) {
    && (forall i, j :: 0 <= i < j < |components| ==> components[i].id != components[j].id)
    && (forall i :: 0 <= i < |components| ==> components[i].category == CategoryOf(components[i].id))
  }

  lemma TidyAdd(components: seq<Component>, c: Component)
    requires Tidy(components) && c.id !in Ids(components) && c.category == CategoryOf(c.id)
    ensures Tidy(components + [c]) && Ids(components + [c]) == Ids(components) + {c.id}
  {
    var after := components + [c];
    forall i | 0 <= i < |components| ensures components[i].id in Ids(components) && components[i].id in Ids(after) {
      assert components[i] in components && after[i] in after;
    }
    assert after[|components|] == c && c in after;
  }

  method ReadyBaseline(rules: Rules, ready: Ready) returns (components: seq<Component>)
    requires Sound(rules)
    ensures Tidy(components)
    ensures forall id :: id in Ids(components) <==> ready(id) && id in rules.baseline
  {
    components := [];
    for i := 0 to |rules.baseline|
      invariant Tidy(components)
      invariant forall id :: id in Ids(components) <==> ready(id) && id in rules.baseline[..i]
    {
      var id := rules.baseline[i];
      if ready(id) {
        TidyAdd(components, Component(CategoryOf(id), id));
        components := components + [Component(CategoryOf(id), id)];
      }
    }
    assert rules.baseline[..|rules.baseline|] == rules.baseline;
  }

  /** The inner loop: the components that one tool name leads to. */
  method AddForTool(rules: Rules, lowered: string, ready: Ready, components0: seq<Component>, known0: set<ComponentId>)
      returns (components: seq<Component>, known: set<ComponentId>)
    requires Sound(rules) && Tidy(components0) && Ids(components0) <= known0
    requires forall id :: id in known0 && ready(id) ==> id in Ids(components0)
    ensures Tidy(components) && Ids(components) <= known
    ensures forall id :: id in known && ready(id) ==> id in Ids(components)
    ensures forall id :: id in Ids(components) <==> id in Ids(components0) || (ready(id) && Names(rules, lowered, id))
  {
    components, known := components0, known0;
    for i := 0 to |rules.toolMap|
      invariant Tidy(components) && Ids(components) <= known
      invariant forall id :: id in known && ready(id) ==> id in Ids(components)
      invariant forall id :: id in Ids(components) <==> id in Ids(components0) || (ready(id) && NamesWithin(rules, lowered, id, i))
    {
      var id := rules.toolMap[i].1;
      if Contains(lowered, rules.toolMap[i].0) && id !in known {
        if ready(id) {
          TidyAdd(components, Component(Tools, id));
          components := components + [Component(Tools, id)];
        }
        known := known + {id};
      }
      NamesWithinNext(rules, lowered, i);
    }
    NamesWithinAll(rules, lowered);
  }

  lemma NamesWithinNext(rules: Rules, lowered: string, i: nat)
    requires i < |rules.toolMap|
    ensures forall id :: NamesWithin(rules, lowered, id, i + 1)
                         <==> NamesWithin(rules, lowered, id, i) || (Hits(rules, lowered, i) && rules.toolMap[i].1 == id)
  {
    forall id
      ensures NamesWithin(rules, lowered, id, i + 1)
              <==> NamesWithin(rules, lowered, id, i) || (Hits(rules, lowered, i) && rules.toolMap[i].1 == id)
    {
      if NamesWithin(rules, lowered, id, i + 1) {
        var j: nat :| j < i + 1 && j < |rules.toolMap| && Hits(rules, lowered, j) && rules.toolMap[j].1 == id;
        assert j < i ==> NamesWithin(rules, lowered, id, i);
      }
    }
  }

  lemma NamesWithinAll(rules: Rules, lowered: string)
    ensures forall id :: NamesWithin(rules, lowered, id, |rules.toolMap|) <==> Names(rules, lowered, id)
  {
  }

  lemma NamedByNext(rules: Rules, tools: seq<string>, lower: Lower, k: nat)
    requires k < |tools|
    ensures forall id :: NamedBySome(rules, tools[..k + 1], lower, id)
                         <==> NamedBySome(rules, tools[..k], lower, id) || Names(rules, lower(tools[k]), id)
  {
    forall id
      ensures NamedBySome(rules, tools[..k + 1], lower, id)
              <==> NamedBySome(rules, tools[..k], lower, id) || Names(rules, lower(tools[k]), id)
    {
      if NamedBySome(rules, tools[..k], lower, id) {
        var i :| 0 <= i < k && Names(rules, lower(tools[..k][i]), id);
        assert tools[..k + 1][i] == tools[..k][i];
      }
      if Names(rules, lower(tools[k]), id) {
        assert tools[..k + 1][k] == tools[k];
      }
      if NamedBySome(rules, tools[..k + 1], lower, id) {
        var i :| 0 <= i < k + 1 && Names(rules, lower(tools[..k + 1][i]), id);
        assert i < k ==> tools[..k][i] == tools[..k + 1][i];
      }
    }
  }

  method Choose(rules: Rules, tools: seq<string>, ready: Ready, lower: Lower) returns (components: seq<Component>)
    requires Sound(rules)
    ensures Tidy(components)
    ensures AreChosen(Ids(components), rules, tools, ready, lower)
  {
    components := ReadyBaseline(rules, ready);
    var known := Ids(components);
    for k := 0 to |tools|
      invariant Tidy(components) && Ids(components) <= known
      invariant forall id :: id in known && ready(id) ==> id in Ids(components)
      invariant forall id :: id in Ids(components)
                             <==> ready(id) && (id in rules.baseline || NamedBySome(rules, tools[..k], lower, id))
    {
      components, known := AddForTool(rules, lower(tools[k]), ready, components, known);
      NamedByNext(rules, tools, lower, k);
    }
    assert tools[..|tools|] == tools;
    var pending := rules.quality;
    while pending != {}
      invariant Tidy(components) && Ids(components) <= known && pending <= rules.quality
      invariant forall id :: id in known && ready(id) ==> id in Ids(components)
      invariant forall id :: id in Ids(components)
                             <==> ready(id) && (|| id in rules.baseline || NamedBySome(rules, tools, lower, id)
                                                || id in rules.quality - pending)
      decreases pending
    {
      var q :| q in pending;
      pending := pending - {q};
      if q !in known && ready(q) {
        TidyAdd(components, Component(Quality, q));
        components := components + [Component(Quality, q)];
        known := known + {q};
      }
    }
  }

  lemma ToolMapIs()
    ensures |TOOL_MAP| == 7
    ensures TOOL_MAP[0] == ("email", EmailTool) && TOOL_MAP[1] == ("calendar", CalendarTool)
    ensures TOOL_MAP[2] == ("messaging", MessagingTool) && TOOL_MAP[3] == ("slack", MessagingTool)
    ensures TOOL_MAP[4] == ("teams", MessagingTool) && TOOL_MAP[5] == ("crm", CrmTool) && TOOL_MAP[6] == ("search", SearchTool)
  {
  }

  lemma NamesBy(rules: Rules, lowered: string, id: ComponentId, i: nat)
    requires i < |rules.toolMap|
    ensures Contains(lowered, rules.toolMap[i].0) && id == rules.toolMap[i].1 ==> Names(rules, lowered, id)
  {
    if Contains(lowered, rules.toolMap[i].0) && id == rules.toolMap[i].1 {
      assert Hits(rules, lowered, i);
    }
  }

  /** The keywords by their words: a tool is led to by the part of its name that stands for it. */
  lemma KeywordsLead(rules: Rules, lowered: string, id: ComponentId)
    requires rules.toolMap == TOOL_MAP
    ensures Names(rules, lowered, id)
            <==> || (Contains(lowered, "email") && id == EmailTool)
                 || (Contains(lowered, "calendar") && id == CalendarTool)
                 || ((Contains(lowered, "messaging") || Contains(lowered, "slack") || Contains(lowered, "teams")) && id == MessagingTool)
                 || (Contains(lowered, "crm") && id == CrmTool)
                 || (Contains(lowered, "search") && id == SearchTool)
  {
    ToolMapIs();
    if Names(rules, lowered, id) {
      var i: nat :| i < |rules.toolMap| && Hits(rules, lowered, i) && rules.toolMap[i].1 == id;
      assert i < 7;
    } else {
      forall i: nat | i < 7 ensures !(Contains(lowered, rules.toolMap[i].0) && id == rules.toolMap[i].1) {
        NamesBy(rules, lowered, id, i);
      }
    }
  }

  lemma QualityIs(tier: RiskTier, id: ComponentId)
    ensures id in QualityBase(tier)
            <==> || id == AutonomyManager || id == Explainability
                 || ((tier.High? || tier.Critical?) && (id == AdversarialReview || id == ApprovalManager || id == ComplianceRules))
  {
  }

  /** The risk tier adds the autonomy manager and the explanations, and from high on the reviews and approvals as well. */
  lemma RiskAddsReviews(rules: Rules, tier: RiskTier, tools: seq<string>, ready: Ready, lower: Lower, id: ComponentId)
    requires rules.quality == QualityBase(tier)
    ensures Chosen(id, rules, tools, ready, lower)
            <==> && ready(id)
                 && (|| id in rules.baseline || NamedBySome(rules, tools, lower, id)
                     || id == AutonomyManager || id == Explainability
                     || ((tier.High? || tier.Critical?) && (id == AdversarialReview || id == ApprovalManager || id == ComplianceRules)))
  {
    QualityIs(tier, id);
  }

  // ----- the validator -----

  datatype Failure = UnsatisfiedTool(name: string) | MissingComponents(missing: set<ComponentId>)

  /** A tool with keywords needs one of the components they lead to; one without may be unknown. */
  predicate Satisfied(rules: Rules, lowered: string, ids: set<ComponentId>, allowUnknown: bool) {
    || (exists i: nat :: i < |rules.toolMap| && Hits(rules, lowered, i) && rules.toolMap[i].1 in ids)
    || (!HasKeyword(rules, lowered) && (allowUnknown || lowered == ""))
  }

  /** The first complaint, or none. */
  function Complaint(rules: Rules, tools: seq<string>, lower: Lower, ids: set<ComponentId>, allowUnknown: bool): Option<Failure> {
    if tools == [] then if rules.required <= ids then None else Some(MissingComponents(rules.required - ids))
    else if !Satisfied(rules, lower(tools[0]), ids, allowUnknown) then Some(UnsatisfiedTool(tools[0]))
    else Complaint(rules, tools[1..], lower, ids, allowUnknown)
  }

  method SatisfiedBy(rules: Rules, lowered: string, ids: set<ComponentId>, allowUnknown: bool) returns (ok: bool)
    ensures ok == Satisfied(rules, lowered, ids, allowUnknown)
  {
    var keywordFound := false;
    for i := 0 to |rules.toolMap|
      invariant keywordFound <==> exists j: nat :: j < i && j < |rules.toolMap| && Hits(rules, lowered, j)
      invariant forall j: nat :: j < i && Hits(rules, lowered, j) ==> rules.toolMap[j].1 !in ids
    {
      if Contains(lowered, rules.toolMap[i].0) {
        assert Hits(rules, lowered, i);
        keywordFound := true;
        if rules.toolMap[i].1 in ids {
          return true;
        }
      }
    }
    return !keywordFound && (allowUnknown || lowered == "");
  }

  method Validate(rules: Rules, tools: seq<string>, lower: Lower, components: seq<Component>, allowUnknown: bool)
      returns (r: Option<Failure>)
    ensures r == Complaint(rules, tools, lower, Ids(components), allowUnknown)
  {
    var ids := Ids(components);
    for k := 0 to |tools|
      invariant Complaint(rules, tools, lower, ids, allowUnknown) == Complaint(rules, tools[k..], lower, ids, allowUnknown)
    {
      var ok := SatisfiedBy(rules, lower(tools[k]), ids, allowUnknown);
      assert tools[k..][1..] == tools[k + 1..];
      if !ok {
        return Some(UnsatisfiedTool(tools[k]));
      }
    }
    return if rules.required <= ids then None else Some(MissingComponents(rules.required - ids));
  }

  lemma {:induction false} NoComplaintIff(rules: Rules, tools: seq<string>, lower: Lower, ids: set<ComponentId>, allowUnknown: bool)
    ensures Complaint(rules, tools, lower, ids, allowUnknown).None?
            <==> rules.required <= ids && forall k :: 0 <= k < |tools| ==> Satisfied(rules, lower(tools[k]), ids, allowUnknown)
  {
    if tools != [] {
      var rest := tools[1..];
      NoComplaintIff(rules, rest, lower, ids, allowUnknown);
      assert forall k :: 0 < k < |tools| ==> tools[k] == rest[k - 1];
      assert forall k :: 0 <= k < |rest| ==> rest[k] == tools[k + 1];
    }
  }

  /**
   The selection is accepted by its own validator if and only if every required component is
   ready and every tool with a keyword has a ready component among those its keywords lead to.
   */
  lemma SelectionIsAcceptedIff(rules: Rules, tools: seq<string>, ready: Ready, lower: Lower, ids: set<ComponentId>)
    requires Sound(rules)
    requires AreChosen(ids, rules, tools, ready, lower)
    ensures Complaint(rules, tools, lower, ids, true).None?
            <==> && (forall id :: id in rules.required ==> ready(id))
                 && (forall k :: 0 <= k < |tools| && HasKeyword(rules, lower(tools[k])) ==>
                       exists id :: Names(rules, lower(tools[k]), id) && ready(id))
  {
    NoComplaintIff(rules, tools, lower, ids, true);
    forall k | 0 <= k < |tools|
      ensures Satisfied(rules, lower(tools[k]), ids, true)
              <==> (HasKeyword(rules, lower(tools[k])) ==> exists id :: Names(rules, lower(tools[k]), id) && ready(id))
    {
      SatisfiedWhenReady(rules, tools, ready, lower, ids, k);
    }
  }

  lemma SatisfiedWhenReady(rules: Rules, tools: seq<string>, ready: Ready, lower: Lower, ids: set<ComponentId>, k: nat)
    requires k < |tools|
    requires AreChosen(ids, rules, tools, ready, lower)
    ensures Satisfied(rules, lower(tools[k]), ids, true)
            <==> (HasKeyword(rules, lower(tools[k])) ==> exists id :: Names(rules, lower(tools[k]), id) && ready(id))
  {
    var lowered := lower(tools[k]);
    if id :| Names(rules, lowered, id) && ready(id) {
      var i: nat :| i < |rules.toolMap| && Hits(rules, lowered, i) && rules.toolMap[i].1 == id;
      assert NamedBySome(rules, tools, lower, id);
      assert rules.toolMap[i].1 in ids;
    }
    if i: nat :| i < |rules.toolMap| && Hits(rules, lowered, i) && rules.toolMap[i].1 in ids {
      assert Names(rules, lowered, rules.toolMap[i].1);
    }
  }

  /**
   `_select_components_with_fallback`: choose, then validate.  It returns exactly the chosen
   components, if and only if everything required is ready and every tool with a keyword has a
   ready match; otherwise it raises the first complaint about what was chosen.
   */
  method Select(role: Archetype, tier: RiskTier, tools: seq<string>, ready: Ready, lower: Lower)
      returns (r: Result<seq<Component>, Failure>)
    ensures var rules := RulesFor(role, tier);
            r.Ok? <==> && (forall id :: id in rules.required ==> ready(id))
                       && (forall k :: 0 <= k < |tools| && HasKeyword(rules, lower(tools[k])) ==>
                             exists id :: Names(rules, lower(tools[k]), id) && ready(id))
    ensures r.Ok? ==>
              Tidy(r.value) && AreChosen(Ids(r.value), RulesFor(role, tier), tools, ready, lower)
    ensures r.Err? ==>
              forall ids :: AreChosen(ids, RulesFor(role, tier), tools, ready, lower) ==>
                Complaint(RulesFor(role, tier), tools, lower, ids, true) == Some(r.error)
  {
    RulesAreSound(role, tier);
    r := SelectBy(RulesFor(role, tier), tools, ready, lower);
  }

  method SelectBy(rules: Rules, tools: seq<string>, ready: Ready, lower: Lower) returns (r: Result<seq<Component>, Failure>)
    requires Sound(rules)
    ensures r.Ok? <==> && (forall id :: id in rules.required ==> ready(id))
                       && (forall k :: 0 <= k < |tools| && HasKeyword(rules, lower(tools[k])) ==>
                             exists id :: Names(rules, lower(tools[k]), id) && ready(id))
    ensures r.Ok? ==> Tidy(r.value) && AreChosen(Ids(r.value), rules, tools, ready, lower)
    ensures r.Err? ==>
              forall ids :: AreChosen(ids, rules, tools, ready, lower) ==>
                Complaint(rules, tools, lower, ids, true) == Some(r.error)
  {
    var chosen := Choose(rules, tools, ready, lower);
    SelectionIsAcceptedIff(rules, tools, ready, lower, Ids(chosen));
    var complaint := Validate(rules, tools, lower, chosen, true);
    forall ids | AreChosen(ids, rules, tools, ready, lower)
      ensures ids == Ids(chosen)
    {
    }
    match complaint
    case None => r := Ok(chosen);
    case Some(f) => r := Err(f);
  }

  /** Every component of the library is production ready, so every selection is accepted. */
  lemma ShippedSelectionIsAccepted(role: Archetype, tier: RiskTier, tools: seq<string>, lower: Lower, ids: set<ComponentId>)
    requires AreChosen(ids, RulesFor(role, tier), tools, _ => true, lower)
    ensures Complaint(RulesFor(role, tier), tools, lower, ids, true).None?
  {
    var rules := RulesFor(role, tier);
    RulesAreSound(role, tier);
    SelectionIsAcceptedIff(rules, tools, _ => true, lower, ids);
    forall k | 0 <= k < |tools| && HasKeyword(rules, lower(tools[k])) ensures exists id :: Names(rules, lower(tools[k]), id) {
      var i: nat :| i < |rules.toolMap| && Hits(rules, lower(tools[k]), i);
      assert Names(rules, lower(tools[k]), rules.toolMap[i].1);
    }
  }

  // ----- the gap list -----

  /** The component of the first keyword in the name. */
  function FirstMatch(toolMap: seq<(string, ComponentId)>, lowered: string): Option<ComponentId> {
    if toolMap == [] then None
    else if Contains(lowered, toolMap[0].0) then Some(toolMap[0].1)
    else FirstMatch(toolMap[1..], lowered)
  }

  predicate IsGap(rules: Rules, lowered: string, covered: set<ComponentId>) {
    match FirstMatch(rules.toolMap, lowered)
    case None => true
    case Some(id) => id !in covered
  }

  function Gaps(rules: Rules, tools: seq<string>, lower: Lower, covered: set<ComponentId>): seq<string> {
    if tools == [] then []
    else Gaps(rules, tools[..|tools| - 1], lower, covered)
         + if IsGap(rules, lower(tools[|tools| - 1]), covered) then [tools[|tools| - 1]] else []
  }

  function Covered(components: seq<Component>): set<ComponentId> {
    set c | c in components && c.category.Tools? :: c.id
  }

  method IdentifyGaps(rules: Rules, tools: seq<string>, lower: Lower, components: seq<Component>) returns (gaps: seq<string>)
    ensures gaps == Gaps(rules, tools, lower, Covered(components))
  {
    var covered := Covered(components);
    gaps := [];
    for k := 0 to |tools|
      invariant gaps == Gaps(rules, tools[..k], lower, covered)
    {
      assert tools[..k + 1][..k] == tools[..k];
      var matched: Option<ComponentId> := None;
      var i := 0;
      while i < |rules.toolMap| && matched.None?
        invariant i <= |rules.toolMap|
        invariant FirstMatch(rules.toolMap, lower(tools[k]))
                  == if matched.Some? then matched else FirstMatch(rules.toolMap[i..], lower(tools[k]))
        decreases |rules.toolMap| - i
      {
        assert rules.toolMap[i..][1..] == rules.toolMap[i + 1..];
        if Contains(lower(tools[k]), rules.toolMap[i].0) {
          matched := Some(rules.toolMap[i].1);
        }
        i := i + 1;
      }
      if matched.None? || matched.value !in covered {
        gaps := gaps + [tools[k]];
      }
    }
    assert tools[..|tools|] == tools;
  }

  lemma {:induction false} FirstMatchIsHit(toolMap: seq<(string, ComponentId)>, lowered: string) returns (i: nat)
    ensures i <= |toolMap|
    ensures i < |toolMap| ==> Contains(lowered, toolMap[i].0) && FirstMatch(toolMap, lowered) == Some(toolMap[i].1)
    ensures i == |toolMap| ==> FirstMatch(toolMap, lowered).None?
    ensures forall j :: 0 <= j < i ==> !Contains(lowered, toolMap[j].0)
  {
    if toolMap == [] || Contains(lowered, toolMap[0].0) {
      i := 0;
    } else {
      i := FirstMatchIsHit(toolMap[1..], lowered);
      i := i + 1;
    }
  }

  /**
   After a selection, a tool is listed as a gap if and only if it has no keyword, or the component
   of its first keyword is not ready.
   */
  lemma GapIff(rules: Rules, tools: seq<string>, ready: Ready, lower: Lower, components: seq<Component>, k: nat)
    requires Sound(rules) && k < |tools| && Tidy(components)
    requires AreChosen(Ids(components), rules, tools, ready, lower)
    ensures var first := FirstMatch(rules.toolMap, lower(tools[k]));
            && (first.None? <==> !HasKeyword(rules, lower(tools[k])))
            && (IsGap(rules, lower(tools[k]), Covered(components)) <==> first.None? || !ready(first.value))
  {
    var lowered := lower(tools[k]);
    var i := FirstMatchIsHit(rules.toolMap, lowered);
    if i < |rules.toolMap| {
      var id := rules.toolMap[i].1;
      assert Hits(rules, lowered, i);
      assert Names(rules, lowered, id) && NamedBySome(rules, tools, lower, id);
      if ready(id) {
        assert id in Ids(components);
        var c :| c in components && c.id == id;
        assert c.category.Tools?;
        assert id in Covered(components);
      } else {
        assert id !in Ids(components);
      }
    }
  }

  /** With every component ready, the gap list is exactly the tools without a known keyword, in order. */
  function WithoutKeyword(rules: Rules, tools: seq<string>, lower: Lower): seq<string> {
    if tools == [] then []
    else WithoutKeyword(rules, tools[..|tools| - 1], lower)
         + if HasKeyword(rules, lower(tools[|tools| - 1])) then [] else [tools[|tools| - 1]]
  }

  lemma {:induction false} ShippedGapsAreUnknownTools(rules: Rules, tools: seq<string>, lower: Lower, components: seq<Component>, n: nat)
    requires Sound(rules) && n <= |tools| && Tidy(components)
    requires AreChosen(Ids(components), rules, tools, _ => true, lower)
    ensures Gaps(rules, tools[..n], lower, Covered(components)) == WithoutKeyword(rules, tools[..n], lower)
  {
    if n > 0 {
      ShippedGapsAreUnknownTools(rules, tools, lower, components, n - 1);
      assert tools[..n][..n - 1] == tools[..n - 1];
      GapIff(rules, tools, _ => true, lower, components, n - 1);
    }
  }
}
