/** The rule table of the harness, and what the theorems about visibility say for it. */
module VisibilityRules {
  import opened Text
  import opened Visibility
  import opened VisibilityMeaning
  import opened VisibilityRounds
  import opened VisibilityShown

  /** A rule for a target role and phase; `*` stands for every phase. */
  datatype Targeted = For(role: string, phase: string, rule: Rule)

  const CONTRACT_DRAFT: set<string> := {"environment_contract_draft.json", "validation_contract_draft.json"}
  const CONTRACT_FINAL: set<string> := {"environment_contract.json", "validation_contract.json"}
  const PLANNING: set<string> := {"plan.md", "assumptions.md", "risk.md", "todo_breakdown.json"} + CONTRACT_DRAFT
  const PROJECT_CONTEXT: set<string> := {"project_context.md"}
  const PATCH_FIX_GATE: set<string> := {"objective_gate.md", "patch_gate_result.json"}
  const RUNTIME_READINESS: set<string> := {"runtime_readiness.md"}
  const RUNTIME_CONTEXT: set<string> := {"resolved_runtime.json"}
  const EXTERNAL_EVALUATOR: set<string> := {"external_evaluator_result.json"}
  const EXECUTOR_REVIEW: set<string> :=
    {"changed_files.md", "merged_patch.diff", "merged_patch_metadata.json", "self_check.md"}
  const DELIVERY_EXECUTOR: set<string> := {"changed_files.md", "merged_patch_metadata.json", "self_check.md"}
  const PLAN_RECHECK: set<string> :=
    {"changed_files.md", "fix_notes.md", "fix_schedule.md", "merged_patch.diff", "merged_patch_metadata.json",
     "self_check.md"}

  function SharedRules(): seq<Targeted> {
    [
      For("planner", "*", Rule("orchestrator", RUNTIME_CONTEXT, None, Any, false, Always)),
      For("executor", "*", Rule("orchestrator", RUNTIME_CONTEXT, None, Any, false, Always)),
      For("tester", "*", Rule("orchestrator", RUNTIME_CONTEXT, None, Any, false, Always)),
      For("reviewer", "*", Rule("orchestrator", RUNTIME_CONTEXT, None, Any, false, Always)),
      For("communicator", "*", Rule("orchestrator", RUNTIME_CONTEXT, None, Any, false, Always)),
      For("executor", "FIXING", Rule("orchestrator", EXTERNAL_EVALUATOR, None, LatestPerType, false, Always)),
      For("executor", "REVIEW_FIXING", Rule("orchestrator", EXTERNAL_EVALUATOR, None, LatestPerType, false, Always)),
      For("tester", "TESTING", Rule("orchestrator", EXTERNAL_EVALUATOR, None, LatestPerType, false, Always)),
      For("tester", "REGRESSION_TESTING", Rule("orchestrator", EXTERNAL_EVALUATOR, None, LatestPerType,
          false, Always)),
      For("reviewer", "REVIEWING", Rule("orchestrator", EXTERNAL_EVALUATOR, None, LatestPerType, false, Always)),
      For("communicator", "DELIVERY", Rule("orchestrator", EXTERNAL_EVALUATOR, None, LatestPerType, false, Always)),
      For("planner", "PLANNING_DRAFT", Rule("context", PROJECT_CONTEXT, None, Any, false, Always)),
      For("planner", "PLANNING_REVISION", Rule("context", PROJECT_CONTEXT, None, Any, false, Always)),
      For("reviewer", "PLAN_REVIEW", Rule("context", PROJECT_CONTEXT, None, Any, false, Always)),
      For("executor", "EXECUTION", Rule("context", PROJECT_CONTEXT, None, Any, false, Always)),
      For("executor", "FIXING", Rule("context", PROJECT_CONTEXT, None, Any, false, Always)),
      For("executor", "REVIEW_FIXING", Rule("context", PROJECT_CONTEXT, None, Any, false, Always)),
      For("executor", "MISC_RESPONSE", Rule("context", PROJECT_CONTEXT, None, Any, false, Always))
    ]
  }

  function PlanningRules(): seq<Targeted> {
    [
      For("planner", "PLANNING_DRAFT", Rule("planner", PLANNING, None, BeforeCurrent, false, Always)),
      For("planner", "PLANNING_PEER_REVIEW", Rule("planner", PLANNING,
          Some({"PLANNING_DRAFT", "PLANNING_REVISION"}), Current, true, Always)),
      For("planner", "PLANNING_REVISION", Rule("planner", PLANNING + {"peer_review_result.json"}, None,
          Previous, false, NoRejectedReview)),
      For("planner", "PLANNING_REVISION", Rule("reviewer", {"review_result.json"},
          Some({"PLAN_REVIEW"}), RejectedPlanReview, false, HasRejectedReview)),
      For("planner", "PLANNING_REVISION", Rule("reviewer", {"selected_plan.json"} + CONTRACT_FINAL,
          Some({"PLAN_REVIEW"}), LatestPerType, false, Always)),
      For("planner", "PLANNING_REVISION", Rule("executor", PLAN_RECHECK,
          Some({"EXECUTION", "FIXING", "REVIEW_FIXING", "PATCH_MERGE"}), BeforeCurrent, false, Always)),
      For("planner", "PLANNING_REVISION", Rule("tester", TEST_REPORTS,
          Some({"TESTING", "REGRESSION_TESTING"}), BeforeCurrent, false, Always))
    ]
  }

  function ExecutionRules(): seq<Targeted> {
    [
      For("reviewer", "PLAN_REVIEW", Rule("planner", PLANNING + {"peer_review_result.json"},
          Some({"PLANNING_DRAFT", "PLANNING_REVISION", "PLANNING_PEER_REVIEW"}), Current, false, Always)),
      For("executor", "EXECUTION", Rule("reviewer", {"selected_plan.json"} + CONTRACT_FINAL,
          Some({"PLAN_REVIEW"}), LatestPlanning, false, Always)),
      For("executor", "FIXING", Rule("reviewer", {"selected_plan.json"} + CONTRACT_FINAL,
          Some({"PLAN_REVIEW"}), LatestPerType, false, Always)),
      For("executor", "REVIEW_FIXING", Rule("reviewer", {"selected_plan.json"} + CONTRACT_FINAL,
          Some({"PLAN_REVIEW"}), LatestPerType, false, Always)),
      For("executor", "PATCH_MERGE", Rule("executor", {"patch.diff", "fix_patch.diff"},
          Some({"EXECUTION", "FIXING", "REVIEW_FIXING"}), Current, false, Always)),
      For("executor", "PATCH_MERGE", Rule("executor", {"merged_patch.diff", "merged_patch_metadata.json"},
          Some({"PATCH_MERGE"}), LatestBeforeCurrentPerType, false, Always)),
      For("executor", "FIXING", Rule("orchestrator", PATCH_FIX_GATE, None, Previous, false, Always)),
      For("executor", "FIXING", Rule("executor", {"merged_patch_metadata.json"},
          Some({"PATCH_MERGE"}), Previous, false, Always)),
      For("executor", "FIXING", Rule("tester", TEST_REPORTS,
          Some({"TESTING", "REGRESSION_TESTING"}), LatestCompleteTestBeforeCurrent, false, Always)),
      For("executor", "REVIEW_FIXING", Rule("orchestrator", PATCH_FIX_GATE, None, Previous, false, Always)),
      For("executor", "REVIEW_FIXING", Rule("executor", {"merged_patch_metadata.json"},
          Some({"PATCH_MERGE"}), Previous, false, Always)),
      For("executor", "REVIEW_FIXING", Rule("tester", TEST_REPORTS,
          Some({"TESTING", "REGRESSION_TESTING"}), LatestCompleteTestBeforeCurrent, false, Always))
    ]
  }

  function CheckingRules(): seq<Targeted> {
    [
      For("tester", "TESTING", Rule("reviewer", {"selected_plan.json"} + CONTRACT_FINAL,
          Some({"PLAN_REVIEW"}), LatestPerType, false, Always)),
      For("tester", "REGRESSION_TESTING", Rule("reviewer", {"selected_plan.json"} + CONTRACT_FINAL,
          Some({"PLAN_REVIEW"}), LatestPerType, false, Always)),
      For("tester", "TESTING", Rule("tester", TEST_REPORTS, Some({"TESTING"}), Current, false, Always)),
      For("tester", "REGRESSION_TESTING", Rule("tester", TEST_REPORTS,
          Some({"REGRESSION_TESTING"}), Current, false, Always)),
      For("reviewer", "REVIEWING", Rule("reviewer", {"selected_plan.json"} + CONTRACT_FINAL,
          Some({"PLAN_REVIEW"}), LatestPerType, false, Always)),
      For("reviewer", "REVIEWING", Rule("executor", EXECUTOR_REVIEW, None, LatestPerType, false, Always)),
      For("reviewer", "REVIEWING", Rule("tester", TEST_REPORTS,
          Some({"TESTING", "REGRESSION_TESTING"}), LatestCompleteTest, false, Always)),
      For("reviewer", "REVIEWING", Rule("orchestrator", RUNTIME_READINESS, None, LatestPerType, false, Always)),
      For("communicator", "DELIVERY", Rule("reviewer", {"selected_plan.json"} + CONTRACT_FINAL,
          Some({"PLAN_REVIEW"}), LatestPerType, false, Always)),
      For("communicator", "DELIVERY", Rule("executor", DELIVERY_EXECUTOR, None, LatestPerType, false, Always)),
      For("communicator", "DELIVERY", Rule("tester", TEST_REPORTS,
          Some({"TESTING", "REGRESSION_TESTING"}), LatestPerType, false, Always))
    ]
  }

  function Table(): seq<Targeted> {
    SharedRules() + PlanningRules() + ExecutionRules() + CheckingRules()
  }

  predicate Targets(t: Targeted, role: string, phase: string) {
    t.role == role && (t.phase == phase || t.phase == "*")
  }

  function Selected(table: seq<Targeted>, role: string, phase: string): seq<Rule>
    decreases |table|
  {
    if table == [] then [] else
    var before, t := Selected(table[..|table| - 1], role, phase), table[|table| - 1];
    if Targets(t, role, phase) then before + [t.rule] else before
  }

  /** `rules_for`. */
  function RulesFor(role: string, phase: string): seq<Rule> {
    Selected(Table(), role, phase)
  }

  lemma {:induction false} SelectedAre(table: seq<Targeted>, role: string, phase: string, rule: Rule)
    requires rule in Selected(table, role, phase)
    ensures exists i :: 0 <= i < |table| && table[i].rule == rule && Targets(table[i], role, phase)
    decreases |table|
  {
    hide Targets;
    var before, t := table[..|table| - 1], table[|table| - 1];
    if rule in Selected(before, role, phase) {
      SelectedAre(before, role, phase, rule);
      var i :| 0 <= i < |before| && before[i].rule == rule && Targets(before[i], role, phase);
      assert table[i] == before[i];
    }
  }

  // ---------------------------------------------------------------- facts about the entries

  /** Executors that fix are shown test reports by this rule, the final review by the next, planners the plans
      of their peers, and executors that begin the plan that was selected. */
  const FIXERS := Rule("tester", TEST_REPORTS, Some({"TESTING", "REGRESSION_TESTING"}),
                       LatestCompleteTestBeforeCurrent, false, Always)
  const REVIEWERS := Rule("tester", TEST_REPORTS, Some({"TESTING", "REGRESSION_TESTING"}),
                          LatestCompleteTest, false, Always)
  const PEERS := Rule("planner", PLANNING, Some({"PLANNING_DRAFT", "PLANNING_REVISION"}), Current, true, Always)
  const BEGINNERS := Rule("reviewer", {"selected_plan.json"} + CONTRACT_FINAL, Some({"PLAN_REVIEW"}),
                          LatestPlanning, false, Always)

  /** The only entries that depend on later rounds, and the only entries for those four. */
  predicate Charted(t: Targeted) {
    && (!Steady(t.rule.policy) ==>
      (t.role == "executor" && t.phase == "EXECUTION") || (t.role == "reviewer" && t.phase == "REVIEWING"))
    && (t.role == "executor" && t.phase in {"FIXING", "REVIEW_FIXING", "*"} && t.rule.sourceRole == "tester" ==>
          t.rule == FIXERS)
    && (t.role == "reviewer" && t.phase in {"REVIEWING", "*"} && t.rule.sourceRole == "tester" ==>
          t.rule == REVIEWERS)
    && (t.role == "planner" && t.phase in {"PLANNING_PEER_REVIEW", "*"} && t.rule.sourceRole == "planner" ==>
          t.rule == PEERS)
    && (t.role == "executor" && t.phase in {"EXECUTION", "*"} && t.rule.sourceRole == "reviewer" ==>
          t.rule == BEGINNERS)
  }

  lemma SharedSources()
    ensures forall i :: 0 <= i < |SharedRules()| ==>
      SharedRules()[i].rule.sourceRole in {"orchestrator", "context"} && Steady(SharedRules()[i].rule.policy)
  {
  }

  lemma SharedCharted()
    ensures forall i :: 0 <= i < |SharedRules()| ==> Charted(SharedRules()[i])
  {
    hide SharedRules, Steady;
    SharedSources();
  }

  lemma PlanningCharted()
    ensures forall i :: 0 <= i < |PlanningRules()| ==> Charted(PlanningRules()[i])
  {
  }

  lemma ExecutionCharted()
    ensures forall i :: 0 <= i < |ExecutionRules()| ==> Charted(ExecutionRules()[i])
  {
  }

  lemma CheckingCharted()
    ensures forall i :: 0 <= i < |CheckingRules()| ==> Charted(CheckingRules()[i])
  {
  }

  lemma TableCharted(i: nat)
    requires i < |Table()|
    ensures Charted(Table()[i])
  {
    hide Charted, SharedRules, PlanningRules, ExecutionRules, CheckingRules;
    SharedCharted();
    PlanningCharted();
    ExecutionCharted();
    CheckingCharted();
  }

  lemma RuleIsCharted(role: string, phase: string, rule: Rule) returns (t: Targeted)
    requires rule in RulesFor(role, phase)
    ensures t.rule == rule && Targets(t, role, phase) && Charted(t)
  {
    hide Charted, Table, Targets;
    SelectedAre(Table(), role, phase, rule);
    var i :| 0 <= i < |Table()| && Table()[i].rule == rule && Targets(Table()[i], role, phase);
    TableCharted(i);
    t := Table()[i];
  }

  // ---------------------------------------------------------------- what the table promises

  function ScopeOf(role: string, phase: string, phases: Phases, target: Option<int>, agent: Option<string>): Scope {
    Scope(RulesFor(role, phase), phases, target, agent)
  }

  predicate SteadyPhase(role: string, phase: string) {
    !(role == "executor" && phase == "EXECUTION") && !(role == "reviewer" && phase == "REVIEWING")
  }

  lemma SteadyRules(role: string, phase: string, rule: Rule)
    requires SteadyPhase(role, phase) && rule in RulesFor(role, phase)
    ensures Steady(rule.policy)
  {
    hide RulesFor, Steady;
    var t := RuleIsCharted(role, phase, rule);
  }

  /** In every phase but execution and the final review, adding artifacts of rounds at or after the
      target changes nothing of what is shown by rules that look back. */
  lemma PhasesAreIsolated(role: string, phase: string, phases: Phases, target: int, agent: Option<string>,
                          arts: seq<Artifact>, more: seq<Artifact>, a: Artifact)
    requires SteadyPhase(role, phase) && target >= 1
    requires Distinct(more) && LaterOnly(phases, target, arts, more)
    requires var scope := ScopeOf(role, phase, phases, Some(target), agent);
      AdmittedBackward(scope, ContextOf(phases, Some(target), more), a)
    ensures var scope := ScopeOf(role, phase, phases, Some(target), agent);
      a in Visible(scope, arts) <==> a in Visible(scope, more)
  {
    hide RulesFor, Steady, SteadyPhase, Distinct, LaterOnly, AdmittedBackward, Visible, ContextOf;
    forall rule | rule in RulesFor(role, phase) ensures Steady(rule.policy) { SteadyRules(role, phase, rule); }
    RoundIsolation(ScopeOf(role, phase, phases, Some(target), agent), arts, more, a);
  }

  /** Shown to a role in a phase: by a rule of the table that names the artifact's own role. */
  lemma ShownByOwnRole(role: string, phase: string, phases: Phases, target: Option<int>, agent: Option<string>,
                       arts: seq<Artifact>, a: Artifact) returns (t: Targeted)
    requires a in Visible(ScopeOf(role, phase, phases, target, agent), arts)
    requires a.typ != "project_context.md"
    ensures Targets(t, role, phase) && Charted(t) && t.rule.sourceRole == Or(a.role, "")
    ensures Matches(ScopeOf(role, phase, phases, target, agent), ContextOf(phases, target, arts), t.rule, a)
  {
    hide RulesFor, Visible, ContextOf, Charted, Targets, RuleFor, Slotted, Immediate, Best, Name, OrderName,
         RoundMatches, RowOf;
    var scope := ScopeOf(role, phase, phases, target, agent);
    ExplanationAgrees(scope, arts, a);
    var r := RuleFor(scope, ContextOf(phases, target, arts), a);
    t := RuleIsCharted(role, phase, scope.rules[r.value]);
  }

  /** Executors that fix see tester reports of one phase only: a testing phase before the current round
      that holds every report type, and the latest such phase. */
  lemma FixersSeeOneTestPhase(phase: string, phases: Phases, target: Option<int>, agent: Option<string>,
                              arts: seq<Artifact>, a: Artifact) returns (top: Artifact)
    requires phase == "FIXING" || phase == "REVIEW_FIXING"
    requires a in Visible(ScopeOf("executor", phase, phases, target, agent), arts)
    requires a.role == Some("tester") && a.typ != "project_context.md"
    ensures target.Some? && a.phaseId == CompleteTestPhase(phases, target, arts)
    ensures a.phaseId.Some? && TopReport(phases, target, arts, a.phaseId.value, top)
  {
    hide RulesFor, Visible, Steady, TopReport, CompleteTestPhase, RowOf, RoleMatches;
    var t := ShownByOwnRole("executor", phase, phases, target, agent, arts, a);
    assert t.rule.policy == LatestCompleteTestBeforeCurrent;
    hide Charted, Targets;
    top := OneCompletePhase(ScopeOf("executor", phase, phases, target, agent), arts, t.rule, a);
  }

  /** The final review sees tester reports of the latest complete testing phase only. */
  lemma ReviewersSeeOneTestPhase(phases: Phases, target: Option<int>, agent: Option<string>,
                                 arts: seq<Artifact>, a: Artifact) returns (top: Artifact)
    requires a in Visible(ScopeOf("reviewer", "REVIEWING", phases, target, agent), arts)
    requires a.role == Some("tester") && a.typ != "project_context.md"
    ensures a.phaseId == CompleteTestPhase(phases, None, arts)
    ensures a.phaseId.Some? && TopReport(phases, None, arts, a.phaseId.value, top)
  {
    hide RulesFor, Visible, Steady, TopReport, CompleteTestPhase, RowOf, RoleMatches;
    var t := ShownByOwnRole("reviewer", "REVIEWING", phases, target, agent, arts, a);
    assert t.rule.policy == LatestCompleteTest;
    hide Charted, Targets;
    top := OneCompletePhase(ScopeOf("reviewer", "REVIEWING", phases, target, agent), arts, t.rule, a);
  }

  /** No planner reviews its own plan. */
  lemma NobodyReviewsTheirOwnPlan(phases: Phases, target: Option<int>, agent: string, arts: seq<Artifact>, a: Artifact)
    requires agent != "" && a.role == Some("planner") && a.typ != "project_context.md"
    requires a in Visible(ScopeOf("planner", "PLANNING_PEER_REVIEW", phases, target, Some(agent)), arts)
    ensures a.agentId != Some(agent)
  {
    hide RulesFor, Visible, Steady, RowOf, RoleMatches, RoundMatches, ContextOf;
    var t := ShownByOwnRole("planner", "PLANNING_PEER_REVIEW", phases, target, Some(agent), arts, a);
    assert t.rule.excludeSelf;
  }

  // ---------------------------------------------------------------- what exactly they are shown

  /** The table has an entry with this rule for the role and phase, and no other for its source. */
  ghost predicate OnlyRule(role: string, phase: string, rule: Rule) {
    && rule in RulesFor(role, phase)
    && forall r :: r in RulesFor(role, phase) && r.sourceRole == rule.sourceRole ==> r == rule
  }

  lemma {:induction false} RowIsSelected(table: seq<Targeted>, i: nat, role: string, phase: string)
    requires i < |table| && Targets(table[i], role, phase)
    ensures table[i].rule in Selected(table, role, phase)
    decreases |table|
  {
    hide Targets;
    if i < |table| - 1 { RowIsSelected(table[..|table| - 1], i, role, phase); }
  }

  /** Where the four rules stand in the table. */
  lemma Rows()
    ensures |Table()| == 48
    ensures Table()[33] == For("executor", "FIXING", FIXERS) && Table()[36] == For("executor", "REVIEW_FIXING", FIXERS)
    ensures Table()[43] == For("reviewer", "REVIEWING", REVIEWERS)
    ensures Table()[19] == For("planner", "PLANNING_PEER_REVIEW", PEERS)
    ensures Table()[26] == For("executor", "EXECUTION", BEGINNERS)
  {
  }

  lemma OnlyRules()
    ensures OnlyRule("executor", "FIXING", FIXERS) && OnlyRule("executor", "REVIEW_FIXING", FIXERS)
    ensures OnlyRule("reviewer", "REVIEWING", REVIEWERS)
    ensures OnlyRule("planner", "PLANNING_PEER_REVIEW", PEERS)
    ensures OnlyRule("executor", "EXECUTION", BEGINNERS)
  {
    Rows();
    hide Table, RulesFor;
    RowIsThere(33, "executor", "FIXING");
    RowIsThere(36, "executor", "REVIEW_FIXING");
    RowIsThere(43, "reviewer", "REVIEWING");
    RowIsThere(19, "planner", "PLANNING_PEER_REVIEW");
    RowIsThere(26, "executor", "EXECUTION");
    forall role, phase, r | r in RulesFor(role, phase)
      ensures role == "executor" && phase in {"FIXING", "REVIEW_FIXING"} && r.sourceRole == "tester" ==> r == FIXERS
      ensures role == "reviewer" && phase == "REVIEWING" && r.sourceRole == "tester" ==> r == REVIEWERS
      ensures role == "planner" && phase == "PLANNING_PEER_REVIEW" && r.sourceRole == "planner" ==> r == PEERS
      ensures role == "executor" && phase == "EXECUTION" && r.sourceRole == "reviewer" ==> r == BEGINNERS
    {
      var t := RuleIsCharted(role, phase, r);
    }
  }

  lemma RowIsThere(i: nat, role: string, phase: string)
    requires i < |Table()| && Targets(Table()[i], role, phase)
    ensures Table()[i].rule in RulesFor(role, phase)
  {
    hide Table, Targets;
    RowIsSelected(Table(), i, role, phase);
  }

  /** Of a source with only one rule, which does not ask for the latest per type, exactly what the rule admits
      is shown. */
  lemma SeesExactly(role: string, phase: string, rule: Rule, phases: Phases, target: Option<int>,
                    agent: Option<string>, arts: seq<Artifact>, a: Artifact)
    requires Distinct(arts) && OnlyRule(role, phase, rule) && !IsLatest(rule)
    requires rule.sourceRole !in {"", "context"} && a.role == Some(rule.sourceRole)
    ensures var scope := ScopeOf(role, phase, phases, target, agent);
      a in Visible(scope, arts) <==> a in arts && Admits(scope, arts, rule, a)
  {
    hide Distinct, RulesFor, Visible, FromPhase, InTurn, LastRejected;
    var scope := ScopeOf(role, phase, phases, target, agent);
    VisibleIsShown(scope, arts, a);
    forall r | r in scope.rules && Admits(scope, arts, r, a) ensures r == rule {
      assert r.sourceRole == rule.sourceRole;
    }
    hide Admits;
    if a in arts && Admits(scope, arts, rule, a) {
      FirstIsThere(scope, arts, rule, a);
    }
  }

  lemma FirstIsThere(scope: Scope, arts: seq<Artifact>, rule: Rule, a: Artifact)
    requires rule in scope.rules && Admits(scope, arts, rule, a)
    ensures exists i: nat :: FirstAdmitting(scope, arts, a, i)
  {
    hide Admits;
    var n :| 0 <= n < |scope.rules| && scope.rules[n] == rule;
    var i := FirstUpTo(scope, arts, a, n);
  }

  lemma {:induction false} FirstUpTo(scope: Scope, arts: seq<Artifact>, a: Artifact, n: nat) returns (i: nat)
    requires n < |scope.rules| && Admits(scope, arts, scope.rules[n], a)
    ensures FirstAdmitting(scope, arts, a, i)
    decreases n
  {
    hide Admits;
    if j: nat :| j < n && Admits(scope, arts, scope.rules[j], a) {
      i := FirstUpTo(scope, arts, a, j);
    } else {
      i := n;
    }
  }

  /** The artifact's phase row is of one of these kinds. */
  ghost predicate OfKind(phases: Phases, a: Artifact, kinds: set<string>) {
    exists id :: PhaseIdIs(a, id) && id in phases && phases[id].phaseType in kinds
  }

  /** Fixing executors are shown exactly the test reports of the last test phase before the current round that
      has both; */
  lemma FixersSeeExactly(phase: string, phases: Phases, target: Option<int>, agent: Option<string>,
                         arts: seq<Artifact>, a: Artifact)
    requires Distinct(arts) && phase in {"FIXING", "REVIEW_FIXING"} && a.role == Some("tester")
    ensures a in Visible(ScopeOf("executor", phase, phases, target, agent), arts) <==>
      && a in arts && a.typ in {"bug_report.md", "tester_result.json"}
      && OfKind(phases, a, {"TESTING", "REGRESSION_TESTING"})
      && target.Some? && a.phaseId.Some? && a.phaseId.value != "" && LastTested(phases, target, arts, a.phaseId.value)
  {
    OnlyRules();
    hide Distinct, RulesFor, Visible, LastTested, LastRejected, PhaseIdIs, OnlyRule;
    SeesExactly("executor", phase, FIXERS, phases, target, agent, arts, a);
  }

  /** the final review those of the last such phase at all; */
  lemma ReviewersSeeExactly(phases: Phases, target: Option<int>, agent: Option<string>, arts: seq<Artifact>,
                            a: Artifact)
    requires Distinct(arts) && a.role == Some("tester")
    ensures a in Visible(ScopeOf("reviewer", "REVIEWING", phases, target, agent), arts) <==>
      && a in arts && a.typ in {"bug_report.md", "tester_result.json"}
      && OfKind(phases, a, {"TESTING", "REGRESSION_TESTING"})
      && a.phaseId.Some? && a.phaseId.value != "" && LastTested(phases, None, arts, a.phaseId.value)
  {
    OnlyRules();
    hide Distinct, RulesFor, Visible, LastTested, LastRejected, PhaseIdIs, OnlyRule;
    SeesExactly("reviewer", "REVIEWING", REVIEWERS, phases, target, agent, arts, a);
  }

  /** a planner in the peer review the plans drafted or revised in the round, except its own; */
  lemma PeersSeeExactly(phases: Phases, target: Option<int>, agent: Option<string>, arts: seq<Artifact>, a: Artifact)
    requires Distinct(arts) && a.role == Some("planner")
    ensures a in Visible(ScopeOf("planner", "PLANNING_PEER_REVIEW", phases, target, agent), arts) <==>
      && a in arts
      && a.typ in {"plan.md", "assumptions.md", "risk.md", "todo_breakdown.json",
                   "environment_contract_draft.json", "validation_contract_draft.json"}
      && OfKind(phases, a, {"PLANNING_DRAFT", "PLANNING_REVISION"})
      && target.Some? && HasRound(phases, a, target.value)
      && (agent in {None, Some("")} || a.agentId != agent)
  {
    OnlyRules();
    hide Distinct, RulesFor, Visible, LastRejected, PhaseIdIs, HasRound, OnlyRule;
    SeesExactly("planner", "PLANNING_PEER_REVIEW", PEERS, phases, target, agent, arts, a);
  }

  /** and an executor that begins the plan and the contracts that were selected in the last planning round. */
  lemma BeginnersSeeExactly(phases: Phases, target: Option<int>, agent: Option<string>, arts: seq<Artifact>,
                            a: Artifact)
    requires Distinct(arts) && a.role == Some("reviewer")
    ensures a in Visible(ScopeOf("executor", "EXECUTION", phases, target, agent), arts) <==>
      && a in arts && a.typ in {"selected_plan.json", "environment_contract.json", "validation_contract.json"}
      && OfKind(phases, a, {"PLAN_REVIEW"})
      && exists r :: LastPlanning(phases, arts, r) && HasRound(phases, a, r)
  {
    OnlyRules();
    hide Distinct, RulesFor, Visible, LastRejected, LastPlanning, PhaseIdIs, HasRound, OnlyRule;
    SeesExactly("executor", "EXECUTION", BEGINNERS, phases, target, agent, arts, a);
  }
}
