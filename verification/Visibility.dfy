/** Which artifacts of earlier phases an agent gets to see: first-match rules, the latest artifact
    per rule and type, and a context computed from the same artifact list. */
module Visibility {
  import opened Text

  datatype Artifact = Artifact(
    id: string, path: string, memory: string, // the row's id, its path, the identity of the row object
    typ: string, role: Option<string>, phaseId: Option<string>, agentId: Option<string>,
    version: int, createdAt: string,
    declaredRound: Option<int>, // the round named inside the file
    requestsChanges: bool)      // the file exists and holds a review that asks for changes

  datatype PhaseRow = PhaseRow(phaseType: string, round: Option<int>)

  type Phases = map<string, PhaseRow>

  datatype Policy = Any | Current | Previous | BeforeCurrent | LatestPerType | LatestBeforeCurrentPerType
    | LatestCompleteTest | LatestCompleteTestBeforeCurrent | LatestPlanning | RejectedPlanReview

  datatype Condition = Always | NoRejectedReview | HasRejectedReview

  datatype Rule = Rule(sourceRole: string, types: set<string>, sourcePhases: Option<set<string>>,
                       policy: Policy, excludeSelf: bool, condition: Condition)

  /** The arguments of a query besides the artifacts: the rules of the role and phase, the phase
      table, the target round and the asking agent. */
  datatype Scope = Scope(rules: seq<Rule>, phases: Phases, target: Option<int>, agent: Option<string>)

  datatype Context = Context(latestPlanning: Option<int>, rejectedReview: Option<int>,
                             testBefore: Option<string>, testAny: Option<string>)

  const TEST_REPORTS: set<string> := {"bug_report.md", "tester_result.json"}
  const TEST_PHASES: set<string> := {"TESTING", "REGRESSION_TESTING"}
  const PLANNING_PHASES: set<string> := {"PLANNING_DRAFT", "PLANNING_REVISION", "PLANNING_PEER_REVIEW"}

  function Or(value: Option<string>, default: string): string {
    if value.Some? then value.value else default
  }

  function RowOf(phases: Phases, a: Artifact): Option<PhaseRow> {
    var id := Or(a.phaseId, "");
    if id in phases then Some(phases[id]) else None
  }

  function EffectiveRound(phases: Phases, a: Artifact): Option<int> {
    var row := RowOf(phases, a);
    if row.Some? && row.value.round.Some? then row.value.round else a.declaredRound
  }

  // ---------------------------------------------------------------- the order of artifacts

  datatype Key = Key(round: int, version: int, createdAt: string, name: string)

  function OrderName(a: Artifact): string {
    if a.id != "" then a.id else a.path
  }

  function OrderKey(phases: Phases, a: Artifact): Key {
    var round := EffectiveRound(phases, a);
    Key(if round.Some? then round.value else -1, a.version, a.createdAt, OrderName(a))
  }

  /** Strings compare by code points. */
  predicate StrLess(a: string, b: string)
    decreases |a|
  {
    b != [] && (a == [] || a[0] < b[0] || (a[0] == b[0] && StrLess(a[1..], b[1..])))
  }

  predicate Less(a: Key, b: Key) {
    a.round < b.round || (a.round == b.round &&
    (a.version < b.version || (a.version == b.version &&
    (StrLess(a.createdAt, b.createdAt) || (a.createdAt == b.createdAt && StrLess(a.name, b.name))))))
  }

  // ---------------------------------------------------------------- grouping

  /** The groups of a tagged list, in the order in which they first appear. */
  function Groups<K(==)>(ps: seq<(K, Artifact)>): seq<K>
    decreases |ps|
  {
    if ps == [] then [] else
    var before, k := Groups(ps[..|ps| - 1]), ps[|ps| - 1].0;
    if k in before then before else before + [k]
  }

  /** The member of group `k` with the greatest order key, the earliest of several. */
  function Best<K(==)>(phases: Phases, ps: seq<(K, Artifact)>, k: K): Option<Artifact>
    decreases |ps|
  {
    if ps == [] then None else
    var before, last := Best(phases, ps[..|ps| - 1], k), ps[|ps| - 1];
    if last.0 == k && (before.None? || Less(OrderKey(phases, before.value), OrderKey(phases, last.1)))
    then Some(last.1) else before
  }

  // ---------------------------------------------------------------- the context

  /** The planning rounds the artifacts stem from. */
  function PlanningRounds(phases: Phases, arts: seq<Artifact>): seq<int>
    decreases |arts|
  {
    if arts == [] then [] else
    var before, a := PlanningRounds(phases, arts[..|arts| - 1]), arts[|arts| - 1];
    if IsPlanning(phases, a) then before + [phases[a.phaseId.value].round.value] else before
  }

  predicate IsPlanning(phases: Phases, a: Artifact) {
    && a.phaseId.Some? && a.phaseId.value in phases && Or(a.role, "") == "planner"
    && phases[a.phaseId.value].phaseType in PLANNING_PHASES
    && phases[a.phaseId.value].round.Some?
  }

  /** `max(..., default=None)`. */
  function MaxOf(xs: seq<int>): Option<int>
    decreases |xs|
  {
    if xs == [] then None else
    var before, x := MaxOf(xs[..|xs| - 1]), xs[|xs| - 1];
    if before.None? || x > before.value then Some(x) else before
  }

  /** The rounds, before `target` if there is one, whose plan review asked for changes. */
  function RejectedRounds(phases: Phases, target: Option<int>, arts: seq<Artifact>): seq<int>
    decreases |arts|
  {
    if arts == [] then [] else
    var before, a := RejectedRounds(phases, target, arts[..|arts| - 1]), arts[|arts| - 1];
    if IsRejection(phases, target, a) then before + [RowOf(phases, a).value.round.value] else before
  }

  predicate IsRejection(phases: Phases, target: Option<int>, a: Artifact) {
    var row := RowOf(phases, a);
    && Or(a.role, "") == "reviewer" && a.typ == "review_result.json"
    && row.Some? && row.value.phaseType == "PLAN_REVIEW" && row.value.round.Some?
    && (target.Some? ==> row.value.round.value < target.value)
    && a.requestsChanges
  }

  predicate IsReport(phases: Phases, before: Option<int>, a: Artifact) {
    var row := RowOf(phases, a);
    && Or(a.role, "") == "tester" && a.typ in TEST_REPORTS
    && row.Some? && row.value.phaseType in TEST_PHASES && row.value.round.Some?
    && (before.Some? ==> row.value.round.value < before.value)
  }

  /** Test reports, before round `before` if there is one, tagged with their phase. */
  function Reports(phases: Phases, before: Option<int>, arts: seq<Artifact>): seq<(string, Artifact)>
    decreases |arts|
  {
    if arts == [] then [] else
    var earlier, a := Reports(phases, before, arts[..|arts| - 1]), arts[|arts| - 1];
    if IsReport(phases, before, a) then earlier + [(Or(a.phaseId, ""), a)] else earlier
  }

  function TypesIn(reports: seq<(string, Artifact)>, phase: string): set<string>
    decreases |reports|
  {
    if reports == [] then {} else
    var before, last := TypesIn(reports[..|reports| - 1], phase), reports[|reports| - 1];
    if last.0 == phase then before + {last.1.typ} else before
  }

  /** Among the phases of `ids` that hold every report type, the one whose best report has the
      greatest order key, the earliest of several. */
  function BestComplete(phases: Phases, reports: seq<(string, Artifact)>, ids: seq<string>): Option<string>
    decreases |ids|
  {
    if ids == [] then None else
    var before, id := BestComplete(phases, reports, ids[..|ids| - 1]), ids[|ids| - 1];
    if TEST_REPORTS <= TypesIn(reports, id) && (before.None? || PhaseLess(phases, reports, before.value, id))
    then Some(id) else before
  }

  predicate PhaseLess(phases: Phases, reports: seq<(string, Artifact)>, p: string, q: string) {
    var best, other := Best(phases, reports, p), Best(phases, reports, q);
    best.Some? && other.Some? && Less(OrderKey(phases, best.value), OrderKey(phases, other.value))
  }

  function CompleteTestPhase(phases: Phases, before: Option<int>, arts: seq<Artifact>): Option<string> {
    var reports := Reports(phases, before, arts);
    BestComplete(phases, reports, Groups(reports))
  }

  function ContextOf(phases: Phases, target: Option<int>, arts: seq<Artifact>): Context {
    Context(
      MaxOf(PlanningRounds(phases, arts)),
      MaxOf(RejectedRounds(phases, target, arts)),
      if target.None? then None else CompleteTestPhase(phases, target, arts),
      CompleteTestPhase(phases, None, arts))
  }

  // ---------------------------------------------------------------- rules

  predicate RoundMatches(policy: Policy, phaseId: Option<string>, round: Option<int>, target: Option<int>,
                         ctx: Context) {
    match policy
    case Any => true
    case LatestPerType => true
    case LatestPlanning => ctx.latestPlanning.Some? && round == ctx.latestPlanning
    case RejectedPlanReview => ctx.rejectedReview.Some? && round == ctx.rejectedReview
    case LatestCompleteTest => ctx.testAny.Some? && phaseId == ctx.testAny
    case LatestCompleteTestBeforeCurrent => ctx.testBefore.Some? && phaseId == ctx.testBefore
    case BeforeCurrent => target.None? || (round.Some? && round.value < target.value)
    case Current => target.Some? && round.Some? && round.value == target.value
    case Previous =>
      target.Some? && round.Some? && round.value == (if target.value - 1 > 0 then target.value - 1 else 0)
    case LatestBeforeCurrentPerType => target.Some? && round.Some? && round.value < target.value
  }

  predicate RoleMatches(rule: Rule, a: Artifact) {
    if rule.sourceRole == "context" && a.typ == "project_context.md"
    then a.role == None || a.role.value in {"", "context"}
    else Or(a.role, "") == rule.sourceRole
  }

  predicate Matches(scope: Scope, ctx: Context, rule: Rule, a: Artifact) {
    var row := RowOf(scope.phases, a);
    && RoleMatches(rule, a)
    && a.typ in rule.types
    && (rule.sourcePhases.Some? ==> row.Some? && row.value.phaseType in rule.sourcePhases.value)
    && !(rule.excludeSelf && Or(scope.agent, "") != "" && a.agentId == scope.agent)
    && !(rule.condition == HasRejectedReview && ctx.rejectedReview.None?)
    && !(rule.condition == NoRejectedReview && ctx.rejectedReview.Some?)
    && RoundMatches(rule.policy, if Or(a.phaseId, "") == "" then None else a.phaseId,
                    EffectiveRound(scope.phases, a), scope.target, ctx)
  }

  /** The first rule from `i` on that an artifact matches. */
  function FirstRule(scope: Scope, ctx: Context, a: Artifact, i: nat): Option<nat>
    decreases |scope.rules| - i
  {
    if i >= |scope.rules| then None
    else if Matches(scope, ctx, scope.rules[i], a) then Some(i)
    else FirstRule(scope, ctx, a, i + 1)
  }

  function RuleFor(scope: Scope, ctx: Context, a: Artifact): (r: Option<nat>)
    ensures r.Some? ==> r.value < |scope.rules| && Matches(scope, ctx, scope.rules[r.value], a)
    ensures r.Some? ==> forall j :: 0 <= j < r.value ==> !Matches(scope, ctx, scope.rules[j], a)
    ensures r.None? ==> forall j :: 0 <= j < |scope.rules| ==> !Matches(scope, ctx, scope.rules[j], a)
  {
    FirstRuleIsFirst(scope, ctx, a, 0);
    FirstRule(scope, ctx, a, 0)
  }

  lemma {:induction false} FirstRuleIsFirst(scope: Scope, ctx: Context, a: Artifact, i: nat)
    ensures var r := FirstRule(scope, ctx, a, i);
      && (r.Some? ==> i <= r.value < |scope.rules| && Matches(scope, ctx, scope.rules[r.value], a)
                      && forall j :: i <= j < r.value ==> !Matches(scope, ctx, scope.rules[j], a))
      && (r.None? ==> forall j :: i <= j < |scope.rules| ==> !Matches(scope, ctx, scope.rules[j], a))
    decreases |scope.rules| - i
  {
    hide Matches;
    if i < |scope.rules| && !Matches(scope, ctx, scope.rules[i], a) {
      FirstRuleIsFirst(scope, ctx, a, i + 1);
    }
  }

  predicate IsLatest(rule: Rule) {
    rule.policy == LatestPerType || rule.policy == LatestBeforeCurrentPerType
  }

  // ---------------------------------------------------------------- the filter

  /** A rule and an artifact type: at most one artifact is kept for each. */
  type Slot = (nat, string)

  predicate IsImmediate(scope: Scope, ctx: Context, a: Artifact) {
    var r := RuleFor(scope, ctx, a); r.Some? && !IsLatest(scope.rules[r.value])
  }

  function Immediate(scope: Scope, ctx: Context, arts: seq<Artifact>): seq<Artifact>
    decreases |arts|
  {
    if arts == [] then [] else
    var before, a := Immediate(scope, ctx, arts[..|arts| - 1]), arts[|arts| - 1];
    if IsImmediate(scope, ctx, a) then before + [a] else before
  }

  function SlotOf(scope: Scope, ctx: Context, a: Artifact): Option<Slot> {
    var r := RuleFor(scope, ctx, a);
    if r.Some? && IsLatest(scope.rules[r.value]) then Some((r.value, a.typ)) else None
  }

  function Slotted(scope: Scope, ctx: Context, arts: seq<Artifact>): seq<(Slot, Artifact)>
    decreases |arts|
  {
    if arts == [] then [] else
    var before, a := Slotted(scope, ctx, arts[..|arts| - 1]), arts[|arts| - 1];
    var slot := SlotOf(scope, ctx, a);
    if slot.Some? then before + [(slot.value, a)] else before
  }

  function Winners(phases: Phases, ps: seq<(Slot, Artifact)>, slots: seq<Slot>): seq<Artifact>
    decreases |slots|
  {
    if slots == [] then [] else
    var before, best := Winners(phases, ps, slots[..|slots| - 1]), Best(phases, ps, slots[|slots| - 1]);
    if best.Some? then before + [best.value] else before
  }

  /** What an artifact counts as when duplicates are dropped. */
  function Name(a: Artifact): string {
    if a.id != "" then a.id else if a.path != "" then a.path else a.memory
  }

  /** The first artifact of each name. */
  function OnceEach(xs: seq<Artifact>): seq<Artifact>
    decreases |xs|
  {
    if xs == [] then [] else
    var before, a := OnceEach(xs[..|xs| - 1]), xs[|xs| - 1];
    if exists b :: b in before && Name(b) == Name(a) then before else before + [a]
  }

  function Visible(scope: Scope, arts: seq<Artifact>): seq<Artifact> {
    var ctx := ContextOf(scope.phases, scope.target, arts);
    var slotted := Slotted(scope, ctx, arts);
    OnceEach(Immediate(scope, ctx, arts) + Winners(scope.phases, slotted, Groups(slotted)))
  }
}
