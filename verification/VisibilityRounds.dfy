/** The context of a visibility query, said without loops, and the two things it buys: the order of
    the artifacts does not matter, and rounds at or after the target round cannot leak back. */
module VisibilityRounds {
  import opened Text
  import opened Visibility
  import opened VisibilityMeaning

  // ---------------------------------------------------------------- members of the folds

  lemma {:induction false} PlanningRoundsAre(phases: Phases, arts: seq<Artifact>, r: int)
    ensures r in PlanningRounds(phases, arts) <==>
            exists a :: a in arts && IsPlanning(phases, a) && phases[a.phaseId.value].round.value == r
    decreases |arts|
  {
    hide IsPlanning;
    if arts != [] {
      var before, last := arts[..|arts| - 1], arts[|arts| - 1];
      PlanningRoundsAre(phases, before, r);
      assert arts == before + [last];
      assert last in arts;
    }
  }

  lemma {:induction false} RejectedRoundsAre(phases: Phases, target: Option<int>, arts: seq<Artifact>, r: int)
    ensures r in RejectedRounds(phases, target, arts) <==>
            exists a :: a in arts && IsRejection(phases, target, a) && RowOf(phases, a).value.round.value == r
    decreases |arts|
  {
    hide RowOf;
    if arts != [] {
      var before, last := arts[..|arts| - 1], arts[|arts| - 1];
      RejectedRoundsAre(phases, target, before, r);
      assert arts == before + [last];
      assert last in arts;
    }
  }

  lemma {:induction false} ReportsAre(phases: Phases, before: Option<int>, arts: seq<Artifact>, p: string, a: Artifact)
    ensures (p, a) in Reports(phases, before, arts) <==>
      a in arts && IsReport(phases, before, a) && Or(a.phaseId, "") == p
    decreases |arts|
  {
    hide IsReport, Or;
    if arts != [] {
      var earlier, last := arts[..|arts| - 1], arts[|arts| - 1];
      ReportsAre(phases, before, earlier, p, a);
      assert arts == earlier + [last];
    }
  }

  lemma {:induction false} TypesInAre(reports: seq<(string, Artifact)>, p: string, t: string)
    ensures t in TypesIn(reports, p) <==> exists a :: (p, a) in reports && a.typ == t
    decreases |reports|
  {
    if reports != [] {
      var before, last := reports[..|reports| - 1], reports[|reports| - 1];
      TypesInAre(before, p, t);
      assert reports == before + [last];
      assert last in reports;
      if last.0 == p && last.1.typ == t { assert (p, last.1) in reports; }
    }
  }

  // ---------------------------------------------------------------- the latest complete test phase

  predicate ReportOf(phases: Phases, before: Option<int>, arts: seq<Artifact>, p: string, a: Artifact) {
    a in arts && IsReport(phases, before, a) && Or(a.phaseId, "") == p
  }

  /** Phase `p` holds a report of every type. */
  ghost predicate Complete(phases: Phases, before: Option<int>, arts: seq<Artifact>, p: string) {
    forall t :: t in TEST_REPORTS ==> exists a :: ReportOf(phases, before, arts, p, a) && a.typ == t
  }

  /** Report `a` of the complete phase `p` is not older than any report of any complete phase. */
  ghost predicate TopReport(phases: Phases, before: Option<int>, arts: seq<Artifact>, p: string, a: Artifact) {
    && Complete(phases, before, arts, p) && ReportOf(phases, before, arts, p, a)
    && forall q, b :: Complete(phases, before, arts, q) && ReportOf(phases, before, arts, q, b) ==>
         !Older(phases, a, b)
  }

  lemma CompleteIs(phases: Phases, before: Option<int>, arts: seq<Artifact>, p: string)
    ensures Complete(phases, before, arts, p) <==> TEST_REPORTS <= TypesIn(Reports(phases, before, arts), p)
  {
    hide IsReport, Reports, TypesIn, TEST_REPORTS;
    var reports := Reports(phases, before, arts);
    forall a ensures (p, a) in reports <==> ReportOf(phases, before, arts, p, a) {
      ReportsAre(phases, before, arts, p, a);
    }
    forall t ensures t in TypesIn(reports, p) <==> exists a :: ReportOf(phases, before, arts, p, a) && a.typ == t {
      TypesInAre(reports, p, t);
    }
  }

  /** `max` over the complete phases of `ids`. */
  lemma {:induction false} BestCompleteIs(phases: Phases, reports: seq<(string, Artifact)>, ids: seq<string>)
    requires forall id :: id in ids ==> Best(phases, reports, id).Some?
    ensures var r := BestComplete(phases, reports, ids);
      && (r.None? ==> forall id :: id in ids ==> !(TEST_REPORTS <= TypesIn(reports, id)))
      && (r.Some? ==> r.value in ids && TEST_REPORTS <= TypesIn(reports, r.value) && forall id ::
           id in ids && TEST_REPORTS <= TypesIn(reports, id) ==> !PhaseLess(phases, reports, r.value, id))
    decreases |ids|
  {
    hide Best, TypesIn, Less, OrderKey, TEST_REPORTS;
    if ids != [] {
      var before, last := ids[..|ids| - 1], ids[|ids| - 1];
      assert ids == before + [last];
      BestCompleteIs(phases, reports, before);
      var lead := BestComplete(phases, reports, before);
      forall id | id in before && lead.Some? && !PhaseLess(phases, reports, lead.value, id)
        ensures PhaseLess(phases, reports, lead.value, last) ==> !PhaseLess(phases, reports, last, id)
      {
        BeatsEarlier(phases, Best(phases, reports, lead.value).value, Best(phases, reports, last).value,
                     Best(phases, reports, id).value);
      }
      KeyTotal(
        OrderKey(phases, Best(phases, reports, last).value), OrderKey(phases, Best(phases, reports, last).value));
    }
  }

  /** The latest complete test phase is the one that holds the greatest report of all phases with
      every report type; there is none iff no phase has every report type. */
  lemma CompleteTestPhaseIs(phases: Phases, before: Option<int>, arts: seq<Artifact>) returns (top: Option<Artifact>)
    ensures var r := CompleteTestPhase(phases, before, arts);
      && (r.None? ==> forall p :: !Complete(phases, before, arts, p))
      && (r.Some? ==> top.Some? && TopReport(phases, before, arts, r.value, top.value))
  {
    hide Best, TypesIn, Less, OrderKey, TEST_REPORTS, Reports, IsReport, BestComplete, Groups, Complete, Older;
    var reports, r := Reports(phases, before, arts), CompleteTestPhase(phases, before, arts);
    var ids := Groups(reports);
    forall p ensures p in ids <==> Best(phases, reports, p).Some? { GroupsAre(phases, reports, p); }
    BestCompleteIs(phases, reports, ids);
    forall p ensures Complete(phases, before, arts, p) <==> TEST_REPORTS <= TypesIn(reports, p) {
      CompleteIs(phases, before, arts, p);
    }
    forall p | Complete(phases, before, arts, p) ensures p in ids { CompleteIsThere(phases, before, arts, p); }
    top := if r.Some? then Best(phases, reports, r.value) else None;
    if r.Some? {
      BestIsGreatest(phases, reports, r.value);
      ReportsAre(phases, before, arts, r.value, top.value);
      forall q, b | Complete(phases, before, arts, q) && ReportOf(phases, before, arts, q, b)
        ensures !Older(phases, top.value, b)
      {
        LessMeans(phases, top.value, b);
        ReportsAre(phases, before, arts, q, b);
        BestIsGreatest(phases, reports, q);
        KeyTransitive(OrderKey(phases, b),
          OrderKey(phases, Best(phases, reports, q).value), OrderKey(phases, top.value));
      }
    }
  }

  lemma CompleteIsThere(phases: Phases, before: Option<int>, arts: seq<Artifact>, p: string)
    requires Complete(phases, before, arts, p)
    ensures p in Groups(Reports(phases, before, arts))
  {
    hide Best, Less, OrderKey, IsReport, Reports, Groups;
    var reports := Reports(phases, before, arts);
    assert "bug_report.md" in TEST_REPORTS;
    var a :| ReportOf(phases, before, arts, p, a);
    ReportsAre(phases, before, arts, p, a);
    BestIsGreatest(phases, reports, p);
    GroupsAre(phases, reports, p);
  }

  // ---------------------------------------------------------------- the context depends on little

  lemma MaxSame(xs: seq<int>, ys: seq<int>)
    requires forall x :: x in xs <==> x in ys
    ensures MaxOf(xs) == MaxOf(ys)
  {
    hide MaxOf;
    MaxOfIs(xs);
    MaxOfIs(ys);
    if xs != [] {
      var x := xs[0];
      assert x in xs;
    }
    if ys != [] {
      var y := ys[0];
      assert y in ys;
    }
  }

  lemma PlanningSame(phases: Phases, arts: seq<Artifact>, others: seq<Artifact>)
    requires forall a :: IsPlanning(phases, a) ==> (a in arts <==> a in others)
    ensures MaxOf(PlanningRounds(phases, arts)) == MaxOf(PlanningRounds(phases, others))
  {
    hide IsPlanning, PlanningRounds, MaxOf;
    forall r ensures r in PlanningRounds(phases, arts) <==> r in PlanningRounds(phases, others) {
      PlanningRoundsAre(phases, arts, r);
      PlanningRoundsAre(phases, others, r);
    }
    MaxSame(PlanningRounds(phases, arts), PlanningRounds(phases, others));
  }

  lemma RejectedSame(phases: Phases, target: Option<int>, arts: seq<Artifact>, others: seq<Artifact>)
    requires forall a :: IsRejection(phases, target, a) ==> (a in arts <==> a in others)
    ensures MaxOf(RejectedRounds(phases, target, arts)) == MaxOf(RejectedRounds(phases, target, others))
  {
    hide RowOf, RejectedRounds, MaxOf;
    forall r ensures r in RejectedRounds(phases, target, arts) <==> r in RejectedRounds(phases, target, others) {
      RejectedRoundsAre(phases, target, arts, r);
      RejectedRoundsAre(phases, target, others, r);
    }
    MaxSame(RejectedRounds(phases, target, arts), RejectedRounds(phases, target, others));
  }

  lemma CompleteSame(phases: Phases, before: Option<int>, arts: seq<Artifact>, others: seq<Artifact>)
    requires Distinct(arts)
    requires forall a :: IsReport(phases, before, a) ==> (a in arts <==> a in others)
    ensures CompleteTestPhase(phases, before, arts) == CompleteTestPhase(phases, before, others)
  {
    hide Less, OrderKey, TEST_REPORTS, IsReport, CompleteTestPhase, Distinct, Older;
    forall p, a ensures ReportOf(phases, before, arts, p, a) <==> ReportOf(phases, before, others, p, a) {}
    forall p ensures Complete(phases, before, arts, p) <==> Complete(phases, before, others, p) {}
    var top := CompleteTestPhaseIs(phases, before, arts);
    var other := CompleteTestPhaseIs(phases, before, others);
    var phase, otherPhase := CompleteTestPhase(phases, before, arts), CompleteTestPhase(phases, before, others);
    if top.Some? && other.Some? && phase.Some? && otherPhase.Some? {
      hide Complete;
      LessMeans(phases, top.value, other.value);
      LessMeans(phases, other.value, top.value);
      SameKeySameArtifact(phases, arts, top.value, other.value);
    }
  }

  // ---------------------------------------------------------------- the order does not matter

  /** The context and the shown set depend only on which artifacts there are. */
  lemma OrderDoesNotMatter(scope: Scope, arts: seq<Artifact>, others: seq<Artifact>, a: Artifact)
    requires Distinct(arts) && forall x :: x in arts <==> x in others
    ensures ContextOf(scope.phases, scope.target, arts) == ContextOf(scope.phases, scope.target, others)
    ensures a in Visible(scope, arts) <==> a in Visible(scope, others)
  {
    hide Less, OrderKey, Visible, RuleFor, IsRejection, IsPlanning, IsReport, MaxOf, CompleteTestPhase, Name, OrderName;
    PlanningSame(scope.phases, arts, others);
    RejectedSame(scope.phases, scope.target, arts, others);
    CompleteSame(scope.phases, scope.target, arts, others);
    CompleteSame(scope.phases, None, arts, others);
    hide ContextOf;
    FilterMeaning(scope, arts, a);
    FilterMeaning(scope, others, a);
  }

  // ---------------------------------------------------------------- round isolation

  /** Policies that look only at rounds before the target. */
  predicate LooksBack(policy: Policy) {
    || policy == BeforeCurrent || policy == Previous || policy == RejectedPlanReview
    || policy == LatestCompleteTestBeforeCurrent || policy == LatestBeforeCurrentPerType
  }

  /** `more` adds to `arts` only artifacts of rounds at or after `target`. */
  ghost predicate LaterOnly(phases: Phases, target: int, arts: seq<Artifact>, more: seq<Artifact>) {
    && (forall a :: a in arts ==> a in more)
    && (forall a :: a in more && a !in arts ==>
          EffectiveRound(phases, a).Some? && EffectiveRound(phases, a).value >= target)
  }

  lemma BackwardContextSame(phases: Phases, target: int, arts: seq<Artifact>, more: seq<Artifact>)
    requires Distinct(more) && LaterOnly(phases, target, arts, more)
    ensures MaxOf(RejectedRounds(phases, Some(target), arts)) == MaxOf(RejectedRounds(phases, Some(target), more))
    ensures CompleteTestPhase(phases, Some(target), arts) == CompleteTestPhase(phases, Some(target), more)
  {
    hide Distinct, MaxOf, RejectedRounds, CompleteTestPhase;
    forall a | IsRejection(phases, Some(target), a) ensures a in arts <==> a in more {}
    forall a | IsReport(phases, Some(target), a) ensures a in more <==> a in arts {}
    hide IsReport, IsRejection, LaterOnly, RowOf;
    RejectedSame(phases, Some(target), arts, more);
    CompleteSame(phases, Some(target), more, arts);
  }

  /** A rule that looks back matches the same artifacts whatever happened at or after the target. */
  lemma BackwardRuleSame(scope: Scope, arts: seq<Artifact>, more: seq<Artifact>, rule: Rule, a: Artifact)
    requires scope.target.Some? && scope.target.value >= 1
    requires Distinct(more) && LaterOnly(scope.phases, scope.target.value, arts, more)
    requires LooksBack(rule.policy)
    ensures a in more && Matches(scope, ContextOf(scope.phases, scope.target, more), rule, a) <==>
            a in arts && Matches(scope, ContextOf(scope.phases, scope.target, arts), rule, a)
  {
    hide Distinct, MaxOf, RejectedRounds, CompleteTestPhase, RoleMatches;
    BackwardContextSame(scope.phases, scope.target.value, arts, more);
    var ctx := ContextOf(scope.phases, scope.target, more);
    if a in more && a !in arts && Matches(scope, ctx, rule, a) {
      BackwardMatchIsEarlier(scope, more, rule, a);
    }
  }

  /** Whatever a rule that looks back matches stems from a round before the target. */
  lemma BackwardMatchIsEarlier(scope: Scope, arts: seq<Artifact>, rule: Rule, a: Artifact)
    requires scope.target.Some? && scope.target.value >= 1 && LooksBack(rule.policy)
    requires Matches(scope, ContextOf(scope.phases, scope.target, arts), rule, a)
    ensures EffectiveRound(scope.phases, a).Some? && EffectiveRound(scope.phases, a).value < scope.target.value
  {
    hide MaxOf, RejectedRounds, CompleteTestPhase, RoleMatches, TopReport;
    var rejected := RejectedRounds(scope.phases, scope.target, arts);
    if rule.policy == RejectedPlanReview {
      MaxOfIs(rejected);
      RejectedRoundsAre(scope.phases, scope.target, arts, MaxOf(rejected).value);
    } else if rule.policy == LatestCompleteTestBeforeCurrent {
      var top := CompleteTestPhaseIs(scope.phases, scope.target, arts);
      TopIsReport(scope.phases, scope.target, arts,
        CompleteTestPhase(scope.phases, scope.target, arts).value, top.value);
    }
  }

  lemma TopIsReport(phases: Phases, before: Option<int>, arts: seq<Artifact>, p: string, a: Artifact)
    requires TopReport(phases, before, arts, p, a)
    ensures ReportOf(phases, before, arts, p, a)
  {
    hide Older, IsReport;
  }

  /** Policies that do not depend on which artifacts of later rounds there are. */
  predicate Steady(policy: Policy) {
    policy != LatestPlanning && policy != LatestCompleteTest
  }

  /** A steady rule matches a given artifact or not whatever happened at or after the target. */
  lemma SteadyRuleSame(scope: Scope, arts: seq<Artifact>, more: seq<Artifact>, rule: Rule, a: Artifact)
    requires scope.target.Some?
    requires Distinct(more) && LaterOnly(scope.phases, scope.target.value, arts, more)
    requires Steady(rule.policy)
    ensures Matches(scope, ContextOf(scope.phases, scope.target, more), rule, a) <==>
            Matches(scope, ContextOf(scope.phases, scope.target, arts), rule, a)
  {
    hide Distinct, MaxOf, RejectedRounds, PlanningRounds, CompleteTestPhase, RoleMatches, RowOf;
    BackwardContextSame(scope.phases, scope.target.value, arts, more);
  }

  /** The first rule that artifact `a` matches looks back. */
  predicate AdmittedBackward(scope: Scope, ctx: Context, a: Artifact) {
    var r := RuleFor(scope, ctx, a);
    r.Some? && LooksBack(scope.rules[r.value].policy)
  }

  lemma FirstRuleSame(scope: Scope, arts: seq<Artifact>, more: seq<Artifact>, a: Artifact)
    requires scope.target.Some?
    requires Distinct(more) && LaterOnly(scope.phases, scope.target.value, arts, more)
    requires forall rule :: rule in scope.rules ==> Steady(rule.policy)
    ensures RuleFor(scope, ContextOf(scope.phases, scope.target, more), a) ==
      RuleFor(scope, ContextOf(scope.phases, scope.target, arts), a)
  {
    hide Matches, ContextOf, FirstRule, Distinct, LaterOnly, Steady;
    forall rule | rule in scope.rules
      ensures Matches(scope, ContextOf(scope.phases, scope.target, more), rule, a) <==>
              Matches(scope, ContextOf(scope.phases, scope.target, arts), rule, a)
    {
      SteadyRuleSame(scope, arts, more, rule, a);
    }
  }

  lemma AdmittedBackwardIsOld(scope: Scope, arts: seq<Artifact>, more: seq<Artifact>, a: Artifact)
    requires scope.target.Some? && scope.target.value >= 1 && a in more
    requires Distinct(more) && LaterOnly(scope.phases, scope.target.value, arts, more)
    requires AdmittedBackward(scope, ContextOf(scope.phases, scope.target, more), a)
    ensures a in arts
  {
    hide Matches, ContextOf, FirstRule, Distinct, LaterOnly, LooksBack;
    var r := RuleFor(scope, ContextOf(scope.phases, scope.target, more), a);
    BackwardRuleSame(scope, arts, more, scope.rules[r.value], a);
  }

  /** Round isolation: with steady rules, adding artifacts of rounds at or after the target changes
      nothing of what is shown by rules that look back. */
  lemma RoundIsolation(scope: Scope, arts: seq<Artifact>, more: seq<Artifact>, a: Artifact)
    requires scope.target.Some? && scope.target.value >= 1
    requires Distinct(more) && LaterOnly(scope.phases, scope.target.value, arts, more)
    requires forall rule :: rule in scope.rules ==> Steady(rule.policy)
    requires AdmittedBackward(scope, ContextOf(scope.phases, scope.target, more), a)
    ensures AdmittedBackward(scope, ContextOf(scope.phases, scope.target, arts), a)
    ensures a in Visible(scope, arts) <==> a in Visible(scope, more)
  {
    hide Less, OrderKey, Visible, ContextOf, EffectiveRound, Name, OrderName, FirstRule, Matches, LooksBack, Steady,
         RuleFor;
    var ctx, ctx' := ContextOf(scope.phases, scope.target, arts), ContextOf(scope.phases, scope.target, more);
    forall b ensures RuleFor(scope, ctx', b) == RuleFor(scope, ctx, b) { FirstRuleSame(scope, arts, more, b); }
    forall b | b in more && AdmittedBackward(scope, ctx', b) ensures b in arts {
      AdmittedBackwardIsOld(scope, arts, more, b);
    }
    FilterMeaning(scope, arts, a);
    FilterMeaning(scope, more, a);
    hide Distinct;
    BackwardSame(scope, arts, more, ctx, ctx', a);
  }

  lemma BackwardSame(scope: Scope, arts: seq<Artifact>, more: seq<Artifact>, ctx: Context, ctx': Context, a: Artifact)
    requires forall b :: b in arts ==> b in more
    requires forall b :: RuleFor(scope, ctx', b) == RuleFor(scope, ctx, b)
    requires forall b :: b in more && AdmittedBackward(scope, ctx', b) ==> b in arts
    requires AdmittedBackward(scope, ctx', a)
    ensures ShouldShow(scope, ctx, arts, a) <==> ShouldShow(scope, ctx', more, a)
  {
    hide Older, FirstRule, Matches, LooksBack, IsLatest;
    var r := RuleFor(scope, ctx', a);
    forall b | b in more && RuleFor(scope, ctx', b) == r ensures b in arts {
      assert AdmittedBackward(scope, ctx', b);
    }
  }

  /** Why the target must be at least 1: the previous round of round 0 is round 0 itself, so there,
      and only there, a round at or after the target passes for the previous one. */
  lemma PreviousOfRoundZero(phaseId: Option<string>, round: int, target: int, ctx: Context)
    requires round >= target
    ensures RoundMatches(Previous, phaseId, Some(round), Some(target), ctx) <==> target <= 0 && round == 0
  {
  }

  /** Whatever the latest-complete-test policies match stems from one phase that holds a report of
      every type, and it is the phase of the greatest such report. */
  lemma OneCompletePhase(scope: Scope, arts: seq<Artifact>, rule: Rule, a: Artifact) returns (top: Artifact)
    requires rule.policy == LatestCompleteTest || rule.policy == LatestCompleteTestBeforeCurrent
    requires Matches(scope, ContextOf(scope.phases, scope.target, arts), rule, a)
    ensures var before := if rule.policy == LatestCompleteTest then None else scope.target;
      && a.phaseId == CompleteTestPhase(scope.phases, before, arts)
      && TopReport(scope.phases, before, arts, a.phaseId.value, top)
  {
    hide MaxOf, RejectedRounds, CompleteTestPhase, RoleMatches, TopReport;
    var before := if rule.policy == LatestCompleteTest then None else scope.target;
    var best := CompleteTestPhaseIs(scope.phases, before, arts);
    top := best.value;
  }
}
