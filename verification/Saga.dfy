/** Saga definitions, routing, and the runs of the bug-fix saga. */
module Saga {
  import opened Text

  datatype Action = Continue | FixSource | RetestCurrentRepoSnapshot | BlockTask

  datatype Route = Route(onEvent: string, target: string, action: Action)

  datatype Step = Step(name: string, routes: seq<Route>)

  datatype Definition = Definition(name: string, steps: seq<Step>, initial: string)

  const TERMINALS: set<string> := {"complete", "fail", "block"}

  predicate IsStep(d: Definition, name: string) {
    exists i :: 0 <= i < |d.steps| && d.steps[i].name == name
  }

  /** What the constructors of a definition, its steps and its routes insist on. */
  predicate WellFormed(d: Definition) {
    && d.name != ""
    && (forall i :: 0 <= i < |d.steps| ==> d.steps[i].name != "")
    && (forall i, j :: 0 <= i < j < |d.steps| ==> d.steps[i].name != d.steps[j].name)
    && IsStep(d, d.initial)
    && (forall i, j :: 0 <= i < |d.steps| && 0 <= j < |d.steps[i].routes| ==>
          var r := d.steps[i].routes[j];
          r.onEvent != "" && r.target != "" && (IsStep(d, r.target) || r.target in TERMINALS))
  }

  /** A definition is rejected iff it or a step has no name, two steps have the same one, the initial step is none
      of them, or a route lacks its event or its target, or leads nowhere. */
  lemma RejectedIff(d: Definition)
    ensures !WellFormed(d) <==>
      || d.name == "" || (exists step :: step in d.steps && step.name == "")
      || (exists i, j :: 0 <= i < j < |d.steps| && d.steps[i].name == d.steps[j].name)
      || (forall step :: step in d.steps ==> step.name != d.initial)
      || (exists step, r :: step in d.steps && r in step.routes &&
            (r.onEvent == "" || r.target == "" || (r.target !in {"complete", "fail", "block"}
               && forall other :: other in d.steps ==> other.name != r.target)))
  {
  }

  datatype RoutingError = UnknownStep(step: string) | NoRoute(step: string, event: string)

  datatype Decision = Decision(step: string, event: string, target: string, action: Action)

  /** `SagaDefinition.step`: the index of the first step of that name. */
  function StepIndex(steps: seq<Step>, name: string, i: nat): Option<nat>
    decreases |steps| - i
  {
    if i >= |steps| then None else if steps[i].name == name then Some(i) else StepIndex(steps, name, i + 1)
  }

  function FirstRoute(routes: seq<Route>, event: string, i: nat): Option<nat>
    decreases |routes| - i
  {
    if i >= |routes| then None else if routes[i].onEvent == event then Some(i) else FirstRoute(routes, event, i + 1)
  }

  /** `route_event`. */
  function RouteEvent(d: Definition, step: string, event: string): Result<Decision, RoutingError> {
    var s := StepIndex(d.steps, step, 0);
    if s.None? || s.value >= |d.steps| then Err(UnknownStep(step)) else
    var routes := d.steps[s.value].routes;
    var r := FirstRoute(routes, event, 0);
    if r.None? || r.value >= |routes| then Err(NoRoute(step, event))
    else Ok(Decision(step, event, routes[r.value].target, routes[r.value].action))
  }

  lemma {:induction false} StepIndexIs(steps: seq<Step>, name: string, i: nat)
    ensures var s := StepIndex(steps, name, i);
      && (s.Some? ==> i <= s.value < |steps| && steps[s.value].name == name
                      && forall j :: i <= j < s.value ==> steps[j].name != name)
      && (s.None? ==> forall j :: i <= j < |steps| ==> steps[j].name != name)
    decreases |steps| - i
  {
    if i < |steps| && steps[i].name != name { StepIndexIs(steps, name, i + 1); }
  }

  lemma {:induction false} FirstRouteIs(routes: seq<Route>, event: string, i: nat)
    ensures var r := FirstRoute(routes, event, i);
      && (r.Some? ==> i <= r.value < |routes| && routes[r.value].onEvent == event
                      && forall j :: i <= j < r.value ==> routes[j].onEvent != event)
      && (r.None? ==> forall j :: i <= j < |routes| ==> routes[j].onEvent != event)
    decreases |routes| - i
  {
    if i < |routes| && routes[i].onEvent != event { FirstRouteIs(routes, event, i + 1); }
  }

  // ---------------------------------------------------------------- runs

  /** The steps visited when routing `events` from the initial step on; `None` when one cannot be
      routed. */
  function Trace(d: Definition, events: seq<string>): Option<seq<string>>
    decreases |events|
  {
    if events == [] then Some([d.initial]) else
    var before := Trace(d, events[..|events| - 1]);
    if before.None? || before.value == [] then None else
    var decision := RouteEvent(d, before.value[|before.value| - 1], events[|events| - 1]);
    if decision.Err? then None else Some(before.value + [decision.value.target])
  }

  lemma RoutedIsDeclared(d: Definition, step: string, event: string)
    requires WellFormed(d)
    ensures var r := RouteEvent(d, step, event);
      && (r.Ok? ==> IsStep(d, step) && (IsStep(d, r.value.target) || r.value.target in TERMINALS))
      && (r.Err? && r.error.UnknownStep? <==> !IsStep(d, step))
  {
    hide TERMINALS;
    StepIndexIs(d.steps, step, 0);
    var s := StepIndex(d.steps, step, 0);
    if s.Some? { FirstRouteIs(d.steps[s.value].routes, event, 0); }
  }

  /** Routing in a well-formed saga never leaves its steps and the terminals; and if no step is named
      like a terminal, a terminal ends the run. */
  lemma {:induction false} RunsStayDeclared(d: Definition, events: seq<string>)
    requires WellFormed(d) && Trace(d, events).Some?
    ensures var trace := Trace(d, events).value;
      && |trace| == |events| + 1 && trace[0] == d.initial
      && (forall k :: 0 <= k < |events| ==> IsStep(d, trace[k]))
      && (IsStep(d, trace[|events|]) || trace[|events|] in TERMINALS)
      && ((forall i :: 0 <= i < |d.steps| ==> d.steps[i].name !in TERMINALS) ==>
            forall k :: 0 <= k < |events| ==> trace[k] !in TERMINALS)
    decreases |events|
  {
    hide RouteEvent, TERMINALS, WellFormed;
    if events == [] {
      InitialIsStep(d);
    } else {
      var n := |events| - 1;
      RunsStayDeclared(d, events[..n]);
      RoutedIsDeclared(d, Trace(d, events[..n]).value[n], events[n]);
    }
  }

  lemma InitialIsStep(d: Definition)
    requires WellFormed(d)
    ensures IsStep(d, d.initial)
  {
    hide TERMINALS;
  }

  // ---------------------------------------------------------------- the bug-fix saga

  function Bugfix(): Definition {
    Definition("bugfix-v2", [
      Step("plan", [Route("DecisionAccepted", "execute_patch", Continue)]),
      Step("execute_patch", [Route("ArtifactCanonicalized", "materialize", Continue)]),
      Step("materialize", [
        Route("SnapshotChanged", "tester_verify", Continue),
        Route("SnapshotUnchangedButRetestable", "tester_verify", RetestCurrentRepoSnapshot),
        Route("SnapshotInvalid", "execute_patch", FixSource)]),
      Step("tester_verify", [
        Route("GatePassed", "review", Continue),
        Route("ContractChanged", "tester_verify", RetestCurrentRepoSnapshot),
        Route("SourceBugDetected", "execute_patch", FixSource),
        Route("EnvironmentBlocked", "block", BlockTask)]),
      Step("review", [
        Route("DecisionAccepted", "final_validation", Continue),
        Route("DecisionRejected", "execute_patch", FixSource)]),
      Step("final_validation", [
        Route("GatePassed", "delivery", Continue),
        Route("GateFailed", "execute_patch", FixSource)]),
      Step("delivery", [Route("TaskCompleted", "complete", Continue)])
    ], "plan")
  }

  lemma BugfixNames()
    ensures var steps := Bugfix().steps;
      && |steps| == 7
      && steps[0].name == "plan" && steps[1].name == "execute_patch" && steps[2].name == "materialize"
      && steps[3].name == "tester_verify" && steps[4].name == "review" && steps[5].name == "final_validation"
      && steps[6].name == "delivery"
  {
  }

  lemma BugfixNamesDiffer()
    ensures forall i, j :: 0 <= i < j < |Bugfix().steps| ==> Bugfix().steps[i].name != Bugfix().steps[j].name
    ensures forall i :: 0 <= i < |Bugfix().steps| ==>
      Bugfix().steps[i].name != "" && Bugfix().steps[i].name !in TERMINALS
  {
    BugfixNames();
    hide Bugfix;
    assert "execute_patch"[0] != "tester_verify"[0] && "complete"[0] != "delivery"[0];
  }

  lemma BugfixTargets(i: nat, j: nat)
    requires i < |Bugfix().steps| && j < |Bugfix().steps[i].routes|
    ensures var r := Bugfix().steps[i].routes[j];
      r.onEvent != "" && r.target != "" && (IsStep(Bugfix(), r.target) || r.target in TERMINALS)
  {
    BugfixNames();
    var r := Bugfix().steps[i].routes[j];
    assert r.target in
      {"execute_patch", "materialize", "tester_verify", "review", "final_validation", "delivery"} + TERMINALS;
    assert r.onEvent != "";
    hide Bugfix;
  }

  /** The bug-fix saga passes the construction checks, and none of its steps is named as a terminal. */
  lemma BugfixIsWellFormed()
    ensures WellFormed(Bugfix())
    ensures forall i :: 0 <= i < |Bugfix().steps| ==> Bugfix().steps[i].name !in TERMINALS
  {
    hide TERMINALS;
    BugfixNames();
    BugfixNamesDiffer();
    forall i, j | 0 <= i < |Bugfix().steps| && 0 <= j < |Bugfix().steps[i].routes|
      ensures var r := Bugfix().steps[i].routes[j];
        r.onEvent != "" && r.target != "" && (IsStep(Bugfix(), r.target) || r.target in TERMINALS)
    {
      BugfixTargets(i, j);
    }
    assert Bugfix().initial == Bugfix().steps[0].name && Bugfix().name != "";
    hide Bugfix;
  }

  /** Which steps can follow which. */
  predicate Edge(from: string, to: string) {
    || (from == "plan" && to == "execute_patch")
    || (from == "execute_patch" && to == "materialize")
    || (from == "materialize" && to in {"tester_verify", "execute_patch"})
    || (from == "tester_verify" && to in {"review", "tester_verify", "execute_patch", "block"})
    || (from == "review" && to in {"final_validation", "execute_patch"})
    || (from == "final_validation" && to in {"delivery", "execute_patch"})
    || (from == "delivery" && to == "complete")
  }

  lemma BugfixRoutes(i: nat, j: nat)
    requires i < |Bugfix().steps| && j < |Bugfix().steps[i].routes|
    ensures Edge(Bugfix().steps[i].name, Bugfix().steps[i].routes[j].target)
  {
  }

  lemma BugfixEdges(step: string, event: string)
    ensures var r := RouteEvent(Bugfix(), step, event); r.Ok? ==> Edge(step, r.value.target)
  {
    hide Bugfix, Edge, StepIndex, FirstRoute;
    var d := Bugfix();
    StepIndexIs(d.steps, step, 0);
    var s := StepIndex(d.steps, step, 0);
    if s.Some? {
      FirstRouteIs(d.steps[s.value].routes, event, 0);
      var r := FirstRoute(d.steps[s.value].routes, event, 0);
      if r.Some? { BugfixRoutes(s.value, r.value); }
    }
  }

  function TesterRounds(n: nat): seq<string> {
    if n == 0 then [] else TesterRounds(n - 1) + ["tester_verify"]
  }

  /** What follows the rounds of testing on the way to `step`. */
  function AfterTesting(step: string): seq<string> {
    if step == "tester_verify" then []
    else if step == "block" then ["block"]
    else if step == "review" then ["review"]
    else if step == "final_validation" then ["review", "final_validation"]
    else if step == "delivery" then ["review", "final_validation", "delivery"]
    else ["review", "final_validation", "delivery", "complete"]
  }

  /** The steps from the last `execute_patch` up to `step`, with `n` rounds of testing. */
  function SincePatch(step: string, n: nat): seq<string> {
    if step == "execute_patch" then ["execute_patch"]
    else if step == "materialize" then ["execute_patch", "materialize"]
    else ["execute_patch", "materialize"] + TesterRounds(n) + AfterTesting(step)
  }

  predicate AfterPatch(step: string) {
    step in
      {"execute_patch", "materialize", "tester_verify", "block", "review", "final_validation", "delivery", "complete"}
  }

  /** How many rounds of testing there are after an edge. */
  function RoundsAfter(to: string, n: nat): nat {
    if to == "tester_verify" then n + 1 else if to == "execute_patch" || to == "materialize" then 0 else n
  }

  lemma EdgeExtends(from: string, to: string, n: nat)
    requires Edge(from, to) && from != "plan" && to != "execute_patch"
    requires from == "execute_patch" || from == "materialize" ==> n == 0
    ensures AfterPatch(to) && SincePatch(to, RoundsAfter(to, n)) == SincePatch(from, n) + [to]
  {
    hide TesterRounds;
    var rounds := TesterRounds(n);
    MoreRounds(n);
    assert ["execute_patch"] + ["materialize"] == ["execute_patch", "materialize"];
    var head := ["execute_patch", "materialize"] + rounds;
    assert head + [] == head;
    assert head + ["review"] + ["final_validation"] == head + ["review", "final_validation"];
    assert head + ["review", "final_validation"] + ["delivery"] == head + ["review", "final_validation", "delivery"];
    assert head + ["review", "final_validation", "delivery"] + ["complete"] ==
      head + ["review", "final_validation", "delivery", "complete"];
  }

  lemma MoreRounds(n: nat)
    ensures TesterRounds(0) == []
    ensures var head := ["execute_patch", "materialize"];
      && head + TesterRounds(n + 1) + [] == head + TesterRounds(n) + ["tester_verify"]
      && head + TesterRounds(n) + [] == head + TesterRounds(n)
  {
    assert ["execute_patch", "materialize"] + (TesterRounds(n) + ["tester_verify"]) ==
      ["execute_patch", "materialize"] + TesterRounds(n) + ["tester_verify"];
  }

  predicate Tested(step: string) {
    step != "execute_patch" && step != "materialize"
  }

  /** Every run of the bug-fix saga that has left `plan` ends with the steps since its last patch:
      patch, materialize, rounds of testing and the rest of the way, in this order. */
  lemma {:induction false} SinceLastPatch(events: seq<string>) returns (i: nat, n: nat)
    requires events != [] && Trace(Bugfix(), events).Some?
    ensures var trace := Trace(Bugfix(), events).value;
      && |trace| == |events| + 1 && i <= |events|
      && var last := trace[|events|];
         trace[i..] == SincePatch(last, n) && AfterPatch(last) && (Tested(last) <==> n >= 1)
    decreases |events|
  {
    hide RouteEvent, Bugfix, SincePatch, AfterPatch, Edge;
    var before := events[..|events| - 1];
    var trace, earlier := Trace(Bugfix(), events).value, Trace(Bugfix(), before).value;
    var from, to := earlier[|earlier| - 1], trace[|trace| - 1];
    BugfixEdges(from, events[|events| - 1]);
    assert trace == earlier + [to];
    if before == [] {
      StartsWithPlan();
      i, n := 1, 0;
      PatchAgain(from, to);
      assert trace[1..] == ["execute_patch"];
    } else {
      i, n := SinceLastPatch(before);
      if to == "execute_patch" {
        i, n := |trace| - 1, 0;
        PatchAgain(from, to);
        assert trace[i..] == ["execute_patch"];
      } else {
        NeverPlanAgain(from, to);
        EdgeExtends(from, to, n);
        assert trace[i..] == earlier[i..] + [to];
        n := RoundsAfter(to, n);
      }
    }
  }

  lemma StartsWithPlan()
    ensures Bugfix().initial == "plan"
  {
  }

  lemma PatchAgain(from: string, to: string)
    requires Edge(from, to)
    ensures from == "plan" ==> to == "execute_patch"
    ensures SincePatch("execute_patch", 0) == ["execute_patch"] && AfterPatch("execute_patch")
  {
  }

  lemma NeverPlanAgain(from: string, to: string)
    requires Edge(from, to) && AfterPatch(from)
    ensures from != "plan"
    ensures to != "execute_patch" ==> (Tested(from) || to == "tester_verify" <==> Tested(to))
    ensures to == "materialize" ==> !Tested(from)
  {
  }

  lemma {:induction false} RoundsAreTests(n: nat, k: nat)
    requires k < |TesterRounds(n)|
    ensures TesterRounds(n)[k] == "tester_verify"
    decreases n
  {
    if k < |TesterRounds(n - 1)| { RoundsAreTests(n - 1, k); }
  }

  /** A run that reaches `complete` has, since its last patch, exactly materialized, tested one or more
      times, reviewed, validated and delivered. */
  lemma CompleteRuns(events: seq<string>) returns (i: nat, n: nat)
    requires Trace(Bugfix(), events).Some?
    requires var trace := Trace(Bugfix(), events).value; trace != [] && trace[|trace| - 1] == "complete"
    ensures var trace := Trace(Bugfix(), events).value;
      && i < |trace| && n >= 1
      && trace[i..] ==
        ["execute_patch", "materialize"] + TesterRounds(n) + ["review", "final_validation", "delivery", "complete"]
      && forall k :: i < k < |trace| ==> trace[k] != "execute_patch"
  {
    hide Trace, Bugfix, TesterRounds;
    var trace := Trace(Bugfix(), events).value;
    StartsElsewhere(events);
    i, n := SinceLastPatch(events);
    var head, rounds, tail :=
      ["execute_patch", "materialize"], TesterRounds(n), ["review", "final_validation", "delivery", "complete"];
    forall k | i < k < |trace| ensures trace[k] != "execute_patch" {
      assert trace[k] == trace[i..][k - i];
      if 2 <= k - i < 2 + |rounds| {
        assert trace[k] == rounds[k - i - 2];
        RoundsAreTests(n, k - i - 2);
      }
    }
  }

  lemma StartsElsewhere(events: seq<string>)
    requires Trace(Bugfix(), events).Some?
    requires var trace := Trace(Bugfix(), events).value; trace != [] && trace[|trace| - 1] == "complete"
    ensures events != []
  {
    StartsWithPlan();
    hide RouteEvent, Bugfix;
  }

  // ---------------------------------------------------------------- the events of a run

  /** What sends the saga from one step to another. */
  predicate Sends(from: string, event: string, to: string) {
    || (from == "plan" && event == "DecisionAccepted" && to == "execute_patch")
    || (from == "execute_patch" && event == "ArtifactCanonicalized" && to == "materialize")
    || (from == "materialize" && event == "SnapshotChanged" && to == "tester_verify")
    || (from == "materialize" && event == "SnapshotUnchangedButRetestable" && to == "tester_verify")
    || (from == "materialize" && event == "SnapshotInvalid" && to == "execute_patch")
    || (from == "tester_verify" && event == "ContractChanged" && to == "tester_verify")
    || (from == "tester_verify" && event == "SourceBugDetected" && to == "execute_patch")
    || (from == "tester_verify" && event == "EnvironmentBlocked" && to == "block")
    || (from == "tester_verify" && event == "GatePassed" && to == "review")
    || (from == "review" && event == "DecisionRejected" && to == "execute_patch")
    || (from == "review" && event == "DecisionAccepted" && to == "final_validation")
    || (from == "final_validation" && event == "GateFailed" && to == "execute_patch")
    || (from == "final_validation" && event == "GatePassed" && to == "delivery")
    || (from == "delivery" && event == "TaskCompleted" && to == "complete")
  }

  /** Every way back to the patch asks for a fix of the source, an environment in the way blocks, and a snapshot or
      contract to be looked at again asks for a retest. */
  function Asked(from: string, event: string, to: string): Action {
    if to == "execute_patch" && from != "plan" then FixSource
    else if to == "block" then BlockTask
    else if event in {"SnapshotUnchangedButRetestable", "ContractChanged"} then RetestCurrentRepoSnapshot
    else Continue
  }

  lemma RouteMeans(i: nat, j: nat)
    requires i < |Bugfix().steps| && j < |Bugfix().steps[i].routes|
    ensures var step, r := Bugfix().steps[i], Bugfix().steps[i].routes[j];
      Sends(step.name, r.onEvent, r.target) && r.action == Asked(step.name, r.onEvent, r.target)
  {
    BugfixNames();
    assert i == 0 || i == 1 || i == 2 || i == 3 || i == 4 || i == 5 || i == 6;
    assert j == 0 || j == 1 || j == 2 || j == 3;
  }

  lemma SentIsRouted(from: string, event: string, to: string) returns (i: nat, j: nat)
    requires Sends(from, event, to)
    ensures i < |Bugfix().steps| && j < |Bugfix().steps[i].routes|
    ensures Bugfix().steps[i].name == from && Bugfix().steps[i].routes[j].onEvent == event
  {
    i := if from == "plan" then 0 else if from == "execute_patch" then 1 else if from == "materialize" then 2
         else if from == "tester_verify" then 3 else if from == "review" then 4
         else if from == "final_validation" then 5 else 6;
    j := if event in {"SnapshotUnchangedButRetestable", "ContractChanged", "DecisionRejected", "GateFailed"} then 1
         else if event in {"SnapshotInvalid", "SourceBugDetected"} then 2
         else if event == "EnvironmentBlocked" then 3 else 0;
  }

  lemma SentOnce(from: string, event: string, to: string, other: string)
    requires Sends(from, event, to) && Sends(from, event, other)
    ensures to == other
  {
  }

  /** The bug-fix saga routes exactly these events, each to its one target and with the action it asks for. */
  lemma BugfixSends(from: string, event: string, to: string)
    ensures var r := RouteEvent(Bugfix(), from, event);
      && (r.Ok? && r.value.target == to <==> Sends(from, event, to))
      && (r.Ok? ==> r.value.action == Asked(from, event, r.value.target))
  {
    hide Bugfix, StepIndex, FirstRoute, Sends, Asked;
    var d := Bugfix();
    StepIndexIs(d.steps, from, 0);
    var s := StepIndex(d.steps, from, 0);
    if s.Some? {
      FirstRouteIs(d.steps[s.value].routes, event, 0);
      var r := FirstRoute(d.steps[s.value].routes, event, 0);
      if r.Some? {
        RouteMeans(s.value, r.value);
        if Sends(from, event, to) { SentOnce(from, event, to, d.steps[s.value].routes[r.value].target); }
      }
    }
    if Sends(from, event, to) {
      var i, j := SentIsRouted(from, event, to);
      NamesDiffer(i, s.value);
    }
  }

  lemma NamesDiffer(i: nat, j: nat)
    requires i < |Bugfix().steps| && j < |Bugfix().steps| && Bugfix().steps[i].name == Bugfix().steps[j].name
    ensures i == j
  {
    BugfixNamesDiffer();
    hide Bugfix;
  }

  lemma {:induction false} EventsDrive(events: seq<string>, k: nat)
    requires Trace(Bugfix(), events).Some? && k < |events|
    ensures var trace := Trace(Bugfix(), events).value;
      |trace| == |events| + 1 && Sends(trace[k], events[k], trace[k + 1])
    decreases |events|
  {
    hide RouteEvent, Bugfix, Sends;
    var n := |events| - 1;
    var before := events[..n];
    var earlier := Trace(Bugfix(), before).value;
    TraceLength(before);
    if k < n {
      EventsDrive(before, k);
    } else {
      BugfixSends(earlier[n], events[n], Trace(Bugfix(), events).value[n + 1]);
    }
  }

  lemma {:induction false} TraceLength(events: seq<string>)
    requires Trace(Bugfix(), events).Some?
    ensures |Trace(Bugfix(), events).value| == |events| + 1
    decreases |events|
  {
    hide RouteEvent, Bugfix;
    if events != [] { TraceLength(events[..|events| - 1]); }
  }

  /** The runs of the saga are exactly the walks from `plan` along what is sent. */
  lemma {:induction false} RunsAreWalks(events: seq<string>, steps: seq<string>)
    ensures Trace(Bugfix(), events) == Some(steps) <==>
            && |steps| == |events| + 1 && steps[0] == "plan"
            && forall k :: 0 <= k < |events| ==> Sends(steps[k], events[k], steps[k + 1])
    decreases |events|
  {
    hide RouteEvent, Bugfix, Sends;
    StartsWithPlan();
    if events == [] {
      assert |steps| == 1 && steps[0] == "plan" ==> steps == ["plan"];
    } else if steps != [] {
      var n := |events| - 1;
      var before, earlier := events[..n], steps[..|steps| - 1];
      RunsAreWalks(before, earlier);
      if |steps| == n + 2 {
        BugfixSends(steps[n], events[n], steps[n + 1]);
        assert steps == earlier + [steps[n + 1]];
      }
      if Trace(Bugfix(), events) == Some(steps) {
        LastOfTrace(events, steps);
      }
    }
  }

  lemma LastOfTrace(events: seq<string>, steps: seq<string>)
    requires events != [] && Trace(Bugfix(), events) == Some(steps)
    ensures |steps| == |events| + 1 && Trace(Bugfix(), events[..|events| - 1]) == Some(steps[..|steps| - 1])
  {
    hide RouteEvent, Bugfix;
    TraceLength(events);
    TraceLength(events[..|events| - 1]);
  }

  /** What happened since the last patch of a completed run: its artifact was canonicalized, a snapshot taken or
      found good to test again, the contract changed between rounds of testing and at no other time, and then the
      test gate passed, the review accepted, the final gate passed and completion was reported. */
  lemma CompletedBy(events: seq<string>) returns (i: nat, n: nat)
    requires Trace(Bugfix(), events).Some?
    requires var trace := Trace(Bugfix(), events).value; trace != [] && trace[|trace| - 1] == "complete"
    ensures n >= 1 && |events| == i + n + 5
    ensures events[i] == "ArtifactCanonicalized"
    ensures events[i + 1] in {"SnapshotChanged", "SnapshotUnchangedButRetestable"}
    ensures forall k :: i + 2 <= k < i + 1 + n ==> events[k] == "ContractChanged"
    ensures events[i + n + 1..] == ["GatePassed", "DecisionAccepted", "GatePassed", "TaskCompleted"]
  {
    hide Trace, Bugfix, TesterRounds, Sends;
    var trace := Trace(Bugfix(), events).value;
    i, n := CompleteRuns(events);
    TraceLength(events);
    StepsSince(trace, i, n);
    forall k | i <= k < |events| ensures Sends(trace[k], events[k], trace[k + 1]) { EventsDrive(events, k); }
    forall k | i <= k < |events| ensures Between(trace[k], trace[k + 1], events[k]) {
      OnlyEvent(trace[k], events[k], trace[k + 1]);
    }
    assert trace[i + 2] == "tester_verify";
    assert Between(trace[i], trace[i + 1], events[i]) && Between(trace[i + 1], trace[i + 2], events[i + 1]);
    var last := i + n + 1;
    forall k | i + 2 <= k < last ensures events[k] == "ContractChanged" {
      assert Between(trace[k], trace[k + 1], events[k]);
    }
    assert Between(trace[last], trace[last + 1], events[last]);
    assert Between(trace[last + 1], trace[last + 2], events[last + 1]);
    assert Between(trace[last + 2], trace[last + 3], events[last + 2]);
    assert Between(trace[last + 3], trace[last + 4], events[last + 3]);
    assert events[last..] == [events[last], events[last + 1], events[last + 2], events[last + 3]];
  }

  /** What the events are that lead along a completed run. */
  predicate Between(from: string, to: string, event: string) {
    && (from == "execute_patch" && to == "materialize" ==> event == "ArtifactCanonicalized")
    && (from == "materialize" && to == "tester_verify"
        ==> event in {"SnapshotChanged", "SnapshotUnchangedButRetestable"})
    && (from == "tester_verify" && to == "tester_verify" ==> event == "ContractChanged")
    && (from == "tester_verify" && to == "review" ==> event == "GatePassed")
    && (from == "review" && to == "final_validation" ==> event == "DecisionAccepted")
    && (from == "final_validation" && to == "delivery" ==> event == "GatePassed")
    && (from == "delivery" && to == "complete" ==> event == "TaskCompleted")
  }

  lemma OnlyEvent(from: string, event: string, to: string)
    requires Sends(from, event, to)
    ensures Between(from, to, event)
  {
  }

  lemma StepsSince(trace: seq<string>, i: nat, n: nat)
    requires i < |trace| && n >= 1
    requires trace[i..] ==
      ["execute_patch", "materialize"] + TesterRounds(n) + ["review", "final_validation", "delivery", "complete"]
    ensures |trace| == i + n + 6 && trace[i] == "execute_patch" && trace[i + 1] == "materialize"
    ensures forall k :: i + 2 <= k < i + 2 + n ==> trace[k] == "tester_verify"
    ensures trace[i + n + 2] == "review" && trace[i + n + 3] == "final_validation"
    ensures trace[i + n + 4] == "delivery" && trace[i + n + 5] == "complete"
  {
    hide TesterRounds;
    var since, rounds := trace[i..], TesterRounds(n);
    RoundsCount(n);
    forall k | i + 2 <= k < i + 2 + n ensures trace[k] == "tester_verify" {
      RoundsAreTests(n, k - i - 2);
      assert since[k - i] == rounds[k - i - 2];
    }
    assert since[0] == "execute_patch" && since[1] == "materialize" && since[n + 2] == "review";
    assert since[n + 3] == "final_validation" && since[n + 4] == "delivery" && since[n + 5] == "complete";
  }

  lemma {:induction false} RoundsCount(n: nat)
    ensures |TesterRounds(n)| == n
    decreases n
  {
    if n > 0 { RoundsCount(n - 1); }
  }
}
