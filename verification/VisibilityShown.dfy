/** The whole visibility query in one statement: which artifacts an agent is shown, in terms of the
    artifacts, the phase table and the rules alone. */
module VisibilityShown {
  import opened Text
  import opened Visibility
  import opened VisibilityMeaning
  import opened VisibilityRounds

  // ---------------------------------------------------------------- what artifacts are

  predicate PhaseIdIs(a: Artifact, id: string) {
    a.phaseId == Some(id) || (a.phaseId == None && id == "")
  }

  /** The phase table has a row of kind `kind` and round `round` under the artifact's phase id. */
  predicate InPhase(phases: Phases, a: Artifact, id: string, kind: string, round: int) {
    PhaseIdIs(a, id) && id in phases && phases[id] == PhaseRow(kind, Some(round))
  }

  /** `a` is a plan made in planning round `round`. */
  ghost predicate PlanOf(phases: Phases, a: Artifact, round: int) {
    && a.role == Some("planner") && a.phaseId.Some?
    && exists kind :: kind in {"PLANNING_DRAFT", "PLANNING_REVISION", "PLANNING_PEER_REVIEW"}
                      && InPhase(phases, a, a.phaseId.value, kind, round)
  }

  /** `a` is a plan review of round `round` that asks for changes. */
  ghost predicate RejectionOf(phases: Phases, a: Artifact, round: int) {
    && a.role == Some("reviewer") && a.typ == "review_result.json" && a.requestsChanges
    && exists id :: InPhase(phases, a, id, "PLAN_REVIEW", round)
  }

  /** `a` is a report of test phase `id`, of round `round`. */
  ghost predicate TestReportOf(phases: Phases, a: Artifact, id: string, round: int) {
    && a.role == Some("tester") && a.typ in {"bug_report.md", "tester_result.json"}
    && exists kind :: kind in {"TESTING", "REGRESSION_TESTING"} && InPhase(phases, a, id, kind, round)
  }

  predicate Before(target: Option<int>, round: int) {
    target.None? || round < target.value
  }

  ghost predicate LastPlanning(phases: Phases, arts: seq<Artifact>, round: int) {
    && (exists a :: a in arts && PlanOf(phases, a, round))
    && forall a, r :: a in arts && PlanOf(phases, a, r) ==> r <= round
  }

  /** The last round before the target whose plan review asked for changes. */
  ghost predicate LastRejected(phases: Phases, target: Option<int>, arts: seq<Artifact>, round: int) {
    && Before(target, round) && (exists a :: a in arts && RejectionOf(phases, a, round))
    && forall a, r :: a in arts && RejectionOf(phases, a, r) && Before(target, r) ==> r <= round
  }

  ghost predicate ReportedIn(phases: Phases, target: Option<int>, arts: seq<Artifact>, id: string, a: Artifact) {
    a in arts && exists r :: TestReportOf(phases, a, id, r) && Before(target, r)
  }

  /** Test phase `id`, before the target, has a bug report and a tester result. */
  ghost predicate BothReports(phases: Phases, target: Option<int>, arts: seq<Artifact>, id: string) {
    && (exists a :: ReportedIn(phases, target, arts, id, a) && a.typ == "bug_report.md")
    && (exists a :: ReportedIn(phases, target, arts, id, a) && a.typ == "tester_result.json")
  }

  ghost predicate OlderThanNone(phases: Phases, target: Option<int>, arts: seq<Artifact>, top: Artifact) {
    forall q, b :: BothReports(phases, target, arts, q) && ReportedIn(phases, target, arts, q, b) ==>
      !Older(phases, top, b)
  }

  /** Of all such phases it has the latest report. */
  ghost predicate LastTested(phases: Phases, target: Option<int>, arts: seq<Artifact>, id: string) {
    && BothReports(phases, target, arts, id)
    && exists top :: ReportedIn(phases, target, arts, id, top) && OlderThanNone(phases, target, arts, top)
  }

  // ---------------------------------------------------------------- what a rule admits

  ghost predicate InTurn(scope: Scope, arts: seq<Artifact>, policy: Policy, a: Artifact) {
    var phases, target := scope.phases, scope.target;
    match policy
    case Any => true
    case LatestPerType => true
    case Current => target.Some? && HasRound(phases, a, target.value)
    case Previous => target.Some? && HasRound(phases, a, if target.value <= 1 then 0 else target.value - 1)
    case BeforeCurrent => target.None? || exists r :: HasRound(phases, a, r) && r < target.value
    case LatestBeforeCurrentPerType => target.Some? && exists r :: HasRound(phases, a, r) && r < target.value
    case LatestPlanning => exists r :: LastPlanning(phases, arts, r) && HasRound(phases, a, r)
    case RejectedPlanReview => exists r :: LastRejected(phases, target, arts, r) && HasRound(phases, a, r)
    case LatestCompleteTest =>
      a.phaseId.Some? && a.phaseId.value != "" && LastTested(phases, None, arts, a.phaseId.value)
    case LatestCompleteTestBeforeCurrent =>
      target.Some? && a.phaseId.Some? && a.phaseId.value != "" && LastTested(phases, target, arts, a.phaseId.value)
  }

  ghost predicate FromRole(rule: Rule, a: Artifact) {
    if a.typ == "project_context.md" && rule.sourceRole == "context" then a.role in {None, Some(""), Some("context")}
    else a.role == Some(rule.sourceRole) || (a.role == None && rule.sourceRole == "")
  }

  ghost predicate FromPhase(phases: Phases, rule: Rule, a: Artifact) {
    rule.sourcePhases.Some? ==>
      exists id :: PhaseIdIs(a, id) && id in phases && phases[id].phaseType in rule.sourcePhases.value
  }

  /** The artifact comes from the rule's role and phases, is of its types, is not the asking agent's own if
      those are excluded, and is of the rule's round; and some plan review was rejected, or none was, if the
      rule asks for it. */
  ghost predicate Admits(scope: Scope, arts: seq<Artifact>, rule: Rule, a: Artifact) {
    && FromRole(rule, a) && a.typ in rule.types && FromPhase(scope.phases, rule, a)
    && (rule.excludeSelf ==> scope.agent in {None, Some("")} || a.agentId != scope.agent)
    && (rule.condition == HasRejectedReview ==> exists r :: LastRejected(scope.phases, scope.target, arts, r))
    && (rule.condition == NoRejectedReview ==> forall r :: !LastRejected(scope.phases, scope.target, arts, r))
    && InTurn(scope, arts, rule.policy, a)
  }

  ghost predicate FirstAdmitting(scope: Scope, arts: seq<Artifact>, a: Artifact, i: nat) {
    && i < |scope.rules| && Admits(scope, arts, scope.rules[i], a)
    && forall j :: 0 <= j < i ==> !Admits(scope, arts, scope.rules[j], a)
  }

  /** No artifact of its type with the same first rule `i` is later, if that rule asks for the latest. */
  ghost predicate LatestIfAsked(scope: Scope, arts: seq<Artifact>, a: Artifact, i: nat)
    requires i < |scope.rules|
  {
    scope.rules[i].policy in {LatestPerType, LatestBeforeCurrentPerType} ==>
      forall b :: b in arts && b.typ == a.typ && FirstAdmitting(scope, arts, b, i) ==> !Older(scope.phases, a, b)
  }

  /** Shown are the artifacts that some rule admits; if the first such rule asks for the latest per type,
      only those not older than another artifact of their type with the same first rule. */
  ghost predicate Shown(scope: Scope, arts: seq<Artifact>, a: Artifact) {
    a in arts && exists i: nat :: FirstAdmitting(scope, arts, a, i) && LatestIfAsked(scope, arts, a, i)
  }

  // ---------------------------------------------------------------- the context means that

  lemma PlanningMeans(phases: Phases, a: Artifact, round: int)
    ensures PlanOf(phases, a, round) <==> IsPlanning(phases, a) && phases[a.phaseId.value].round.value == round
  {
    if IsPlanning(phases, a) && phases[a.phaseId.value].round.value == round {
      assert InPhase(phases, a, a.phaseId.value, phases[a.phaseId.value].phaseType, round);
    }
  }

  lemma RejectionMeans(phases: Phases, target: Option<int>, a: Artifact, round: int)
    ensures RejectionOf(phases, a, round) && Before(target, round) <==>
            IsRejection(phases, target, a) && RowOf(phases, a).value.round.value == round
  {
    var id := Or(a.phaseId, "");
    assert InPhase(phases, a, id, "PLAN_REVIEW", round) <==>
      RowOf(phases, a) == Some(PhaseRow("PLAN_REVIEW", Some(round)));
    hide RowOf;
    assert forall i :: InPhase(phases, a, i, "PLAN_REVIEW", round) ==> i == id;
  }

  lemma ReportMeans(phases: Phases, target: Option<int>, arts: seq<Artifact>, id: string, a: Artifact)
    ensures ReportedIn(phases, target, arts, id, a) <==> ReportOf(phases, target, arts, id, a)
  {
    if ReportOf(phases, target, arts, id, a) {
      var row := phases[id];
      assert InPhase(phases, a, id, row.phaseType, row.round.value);
      assert TestReportOf(phases, a, id, row.round.value);
    }
  }

  lemma PlanningContext(phases: Phases, arts: seq<Artifact>, round: int)
    ensures LastPlanning(phases, arts, round) <==> MaxOf(PlanningRounds(phases, arts)) == Some(round)
  {
    hide MaxOf, PlanningRounds, PlanOf;
    var rounds := PlanningRounds(phases, arts);
    MaxOfIs(rounds);
    forall r ensures r in rounds <==> exists a :: a in arts && PlanOf(phases, a, r) {
      PlanningRoundsAre(phases, arts, r);
      forall a ensures PlanOf(phases, a, r) <==> IsPlanning(phases, a) && phases[a.phaseId.value].round.value == r {
        PlanningMeans(phases, a, r);
      }
    }
    forall a, r | a in arts && PlanOf(phases, a, r) ensures r in rounds {}
    GreatestIs(rounds, round);
  }

  lemma GreatestIs(rounds: seq<int>, round: int)
    ensures MaxOf(rounds) == Some(round) <==> round in rounds && forall r :: r in rounds ==> r <= round
  {
    MaxOfIs(rounds);
    hide MaxOf;
  }

  lemma RejectedContext(phases: Phases, target: Option<int>, arts: seq<Artifact>, round: int)
    ensures LastRejected(phases, target, arts, round) <==> MaxOf(RejectedRounds(phases, target, arts)) == Some(round)
  {
    hide MaxOf, RejectedRounds, RejectionOf, RowOf, Before;
    var rounds := RejectedRounds(phases, target, arts);
    forall r ensures r in rounds <==> Before(target, r) && exists a :: a in arts && RejectionOf(phases, a, r) {
      RejectedRoundsAre(phases, target, arts, r);
      forall a ensures RejectionOf(phases, a, r) && Before(target, r) <==>
                       IsRejection(phases, target, a) && RowOf(phases, a).value.round.value == r
      {
        RejectionMeans(phases, target, a, r);
      }
    }
    GreatestIs(rounds, round);
  }

  lemma BothMean(phases: Phases, target: Option<int>, arts: seq<Artifact>, id: string)
    ensures BothReports(phases, target, arts, id) <==> Complete(phases, target, arts, id)
  {
    hide ReportedIn, ReportOf;
    forall a ensures ReportedIn(phases, target, arts, id, a) <==> ReportOf(phases, target, arts, id, a) {
      ReportMeans(phases, target, arts, id, a);
    }
  }

  lemma TestedContext(phases: Phases, target: Option<int>, arts: seq<Artifact>, id: string)
    requires Distinct(arts)
    ensures LastTested(phases, target, arts, id) <==> CompleteTestPhase(phases, target, arts) == Some(id)
  {
    hide ReportedIn, ReportOf, BothReports, Complete, CompleteTestPhase, Older, Distinct;
    var top := CompleteTestPhaseIs(phases, target, arts);
    forall q ensures BothReports(phases, target, arts, q) <==> Complete(phases, target, arts, q) {
      BothMean(phases, target, arts, q);
    }
    forall q, b ensures ReportedIn(phases, target, arts, q, b) <==> ReportOf(phases, target, arts, q, b) {
      ReportMeans(phases, target, arts, q, b);
    }
    if LastTested(phases, target, arts, id) {
      var mine :| ReportedIn(phases, target, arts, id, mine) && OlderThanNone(phases, target, arts, mine);
      SameTop(phases, target, arts, id, mine, CompleteTestPhase(phases, target, arts).value, top.value);
    }
  }

  lemma SameTop(phases: Phases, target: Option<int>, arts: seq<Artifact>, p: string, a: Artifact, q: string,
                b: Artifact)
    requires Distinct(arts) && ReportOf(phases, target, arts, p, a) && ReportOf(phases, target, arts, q, b)
    requires !Older(phases, a, b) && !Older(phases, b, a)
    ensures p == q
  {
    hide Older, Distinct, IsReport;
    LessMeans(phases, a, b);
    LessMeans(phases, b, a);
    SameKeySameArtifact(phases, arts, a, b);
  }

  // ---------------------------------------------------------------- the rules mean that

  lemma RoundMeans(scope: Scope, arts: seq<Artifact>, policy: Policy, a: Artifact)
    requires Distinct(arts)
    ensures var id := if Or(a.phaseId, "") == "" then None else a.phaseId;
      InTurn(scope, arts, policy, a) <==>
      RoundMatches(policy, id, EffectiveRound(scope.phases, a), scope.target,
                   ContextOf(scope.phases, scope.target, arts))
  {
    hide MaxOf, PlanningRounds, RejectedRounds, CompleteTestPhase, LastPlanning, LastRejected, LastTested, Distinct,
         HasRound, EffectiveRound;
    CountsOne(scope.phases, a);
    var round, ctx := EffectiveRound(scope.phases, a), ContextOf(scope.phases, scope.target, arts);
    assert round.Some? ==> HasRound(scope.phases, a, round.value);
    forall r ensures LastPlanning(scope.phases, arts, r) <==> MaxOf(PlanningRounds(scope.phases, arts)) == Some(r) {
      PlanningContext(scope.phases, arts, r);
    }
    forall r ensures LastRejected(scope.phases, scope.target, arts, r) <==>
                     MaxOf(RejectedRounds(scope.phases, scope.target, arts)) == Some(r)
    {
      RejectedContext(scope.phases, scope.target, arts, r);
    }
    assert ctx.rejectedReview.Some? ==> LastRejected(scope.phases, scope.target, arts, ctx.rejectedReview.value);
    assert ctx.latestPlanning.Some? ==> LastPlanning(scope.phases, arts, ctx.latestPlanning.value);
    if a.phaseId.Some? {
      TestedContext(scope.phases, None, arts, a.phaseId.value);
      TestedContext(scope.phases, scope.target, arts, a.phaseId.value);
    }
  }

  lemma OriginMeans(phases: Phases, rule: Rule, a: Artifact)
    ensures FromRole(rule, a) <==> RoleMatches(rule, a)
    ensures var row := RowOf(phases, a);
      FromPhase(phases, rule, a) <==>
      (rule.sourcePhases.Some? ==> row.Some? && row.value.phaseType in rule.sourcePhases.value)
  {
    assert PhaseIdIs(a, Or(a.phaseId, ""));
  }

  /** A rule matches exactly the artifacts it should admit. */
  lemma MatchesMeans(scope: Scope, arts: seq<Artifact>, rule: Rule, a: Artifact)
    requires Distinct(arts)
    ensures Admits(scope, arts, rule, a) <==> Matches(scope, ContextOf(scope.phases, scope.target, arts), rule, a)
  {
    hide MaxOf, PlanningRounds, RejectedRounds, CompleteTestPhase, LastRejected, Distinct, InTurn, RoundMatches,
         FromRole, FromPhase, RoleMatches, RowOf, EffectiveRound;
    OriginMeans(scope.phases, rule, a);
    RoundMeans(scope, arts, rule.policy, a);
    forall r ensures LastRejected(scope.phases, scope.target, arts, r) <==>
                     MaxOf(RejectedRounds(scope.phases, scope.target, arts)) == Some(r)
    {
      RejectedContext(scope.phases, scope.target, arts, r);
    }
    var ctx := ContextOf(scope.phases, scope.target, arts);
    assert ctx.rejectedReview.Some? ==> LastRejected(scope.phases, scope.target, arts, ctx.rejectedReview.value);
  }

  lemma FirstMeans(scope: Scope, arts: seq<Artifact>, a: Artifact, i: nat)
    requires Distinct(arts)
    ensures FirstAdmitting(scope, arts, a, i) <==>
            RuleFor(scope, ContextOf(scope.phases, scope.target, arts), a) == Some(i)
  {
    hide Matches, ContextOf, FirstRule, Admits, Distinct;
    forall rule ensures Admits(scope, arts, rule, a) <==>
                        Matches(scope, ContextOf(scope.phases, scope.target, arts), rule, a)
    {
      MatchesMeans(scope, arts, rule, a);
    }
  }

  /** The filter shows exactly the artifacts it should. */
  lemma VisibleIsShown(scope: Scope, arts: seq<Artifact>, a: Artifact)
    requires Distinct(arts)
    ensures a in Visible(scope, arts) <==> Shown(scope, arts, a)
  {
    hide Visible, ContextOf, FirstAdmitting, RuleFor, Older, Distinct;
    FilterMeaning(scope, arts, a);
    forall b, i: nat ensures FirstAdmitting(scope, arts, b, i) <==>
                             RuleFor(scope, ContextOf(scope.phases, scope.target, arts), b) == Some(i)
    {
      FirstMeans(scope, arts, b, i);
    }
  }
}
