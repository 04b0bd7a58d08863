/** Validating, repairing and reporting the required outputs of an agent run. */
module ArtifactPlane {
  import opened Text

  datatype Entry = File(content: string) | Directory

  /** An output directory by relative name. */
  type Tree = map<string, Entry>

  datatype Code = Missing | NotFile | Empty | TemplatePending | Content | NoReturnCode | BadReturnCode
    | NoResultCode | BadResultCode | NotIntegrated

  datatype Issue = Issue(artifact: string, code: Code)

  datatype Repair = Repair(artifact: string, field: string)

  /** The readers of file contents: a pending template marker, the messages of the content check of an
      artifact, the return code of `delivery.md`, the result code of a markdown artifact, and the
      number of findings a plan review failed to hand over. */
  datatype Readers = Readers(
    pending: string -> bool,
    messages: (string, string) -> nat,
    returnCode: Tree -> Option<int>,
    resultCode: (Tree, string) -> Option<int>,
    notHandedOver: Tree -> nat)

  const PLAN_REVIEW: set<string> :=
    {"review_result.json", "selected_plan.json", "environment_contract.json", "validation_contract.json"}

  predicate IsFile(tree: Tree, name: string) { name in tree && tree[name].File? }

  predicate EndsWithMd(name: string) { |name| >= 3 && name[|name| - 3..] == ".md" }

  function Times(i: Issue, n: nat): seq<Issue> { seq(n, _ => i) }

  /** The checks of one required output. */
  function OutputIssues(rd: Readers, tree: Tree, name: string): seq<Issue> {
    if name !in tree then [Issue(name, Missing)]
    else if tree[name].Directory? then [Issue(name, NotFile)]
    else if tree[name].content == "" && name != "fix_patch.diff" then [Issue(name, Empty)]
    else if rd.pending(tree[name].content) then [Issue(name, TemplatePending)]
    else Times(Issue(name, Content), rd.messages(name, tree[name].content))
  }

  function DeliveryIssues(rd: Readers, tree: Tree): seq<Issue> {
    if !IsFile(tree, "delivery.md") then []
    else if rd.returnCode(tree).None? then [Issue("delivery.md", NoReturnCode)]
    else if rd.returnCode(tree).value != 0 then [Issue("delivery.md", BadReturnCode)]
    else []
  }

  function MarkdownIssues(rd: Readers, tree: Tree, name: string): seq<Issue> {
    if name == "delivery.md" || !EndsWithMd(name) || !IsFile(tree, name) || tree[name].content == "" then []
    else if rd.resultCode(tree, name).None? then [Issue(name, NoResultCode)]
    else if rd.resultCode(tree, name).value != 0 then [Issue(name, BadResultCode)]
    else []
  }

  function AllOutputIssues(rd: Readers, tree: Tree, names: seq<string>): seq<Issue>
    decreases |names|
  {
    if names == [] then []
    else AllOutputIssues(rd, tree, names[..|names| - 1]) + OutputIssues(rd, tree, names[|names| - 1])
  }

  function AllMarkdownIssues(rd: Readers, tree: Tree, names: seq<string>): seq<Issue>
    decreases |names|
  {
    if names == [] then []
    else AllMarkdownIssues(rd, tree, names[..|names| - 1]) + MarkdownIssues(rd, tree, names[|names| - 1])
  }

  function HandoffIssues(rd: Readers, tree: Tree, required: seq<string>): seq<Issue> {
    if forall name :: name in PLAN_REVIEW ==> name in required
    then Times(Issue("selected_plan.json", NotIntegrated), rd.notHandedOver(tree)) else []
  }

  /** The issues of a directory; all of them are errors. */
  function Validate(rd: Readers, tree: Tree, required: seq<string>): seq<Issue> {
    AllOutputIssues(rd, tree, required) + DeliveryIssues(rd, tree)
    + (AllMarkdownIssues(rd, tree, required) + HandoffIssues(rd, tree, required))
  }

  /** `validate_required_outputs_result`. */
  method ValidateRequiredOutputs(rd: Readers, tree: Tree, required: seq<string>) returns (issues: seq<Issue>)
    ensures issues == Validate(rd, tree, required)
  {
    hide OutputIssues, MarkdownIssues, DeliveryIssues, HandoffIssues;
    issues := [];
    assert required[..0] == [];
    for i := 0 to |required|
      invariant issues == AllOutputIssues(rd, tree, required[..i])
    {
      assert required[..i + 1][..i] == required[..i];
      issues := issues + OutputIssues(rd, tree, required[i]);
    }
    assert required[..|required|] == required;
    issues := issues + DeliveryIssues(rd, tree);
    var markdown: seq<Issue> := [];
    for i := 0 to |required|
      invariant markdown == AllMarkdownIssues(rd, tree, required[..i])
    {
      assert required[..i + 1][..i] == required[..i];
      markdown := markdown + MarkdownIssues(rd, tree, required[i]);
    }
    issues := issues + (markdown + HandoffIssues(rd, tree, required));
  }

  // ---------------------------------------------------------------- canonicalization

  /** A report on a required output: the raw content as the agent left it, whether the canonical file
      is accepted, the repairs made to it and the reasons against it. */
  datatype Report = Report(
    artifact: string, raw: Option<string>, accepted: bool, changes: seq<Repair>, reasons: seq<Issue>)

  function RawOf(tree: Tree, name: string): Option<string> {
    if IsFile(tree, name) then Some(tree[name].content) else None
  }

  function IssuesOf(issues: seq<Issue>, name: string): seq<Issue>
    decreases |issues|
  {
    if issues == [] then [] else
    var before, last := IssuesOf(issues[..|issues| - 1], name), issues[|issues| - 1];
    if last.artifact == name then before + [last] else before
  }

  function RepairsOf(repairs: seq<Repair>, name: string): seq<Repair>
    decreases |repairs|
  {
    if repairs == [] then [] else
    var before, last := RepairsOf(repairs[..|repairs| - 1], name), repairs[|repairs| - 1];
    if last.artifact == name then before + [last] else before
  }

  function ReportOn(raw: Tree, canonical: Tree, repairs: seq<Repair>, issues: seq<Issue>, name: string): Report {
    var reasons := IssuesOf(issues, name);
    Report(name, RawOf(raw, name), IsFile(canonical, name) && reasons == [], RepairsOf(repairs, name), reasons)
  }

  /** A repair pass: the rewritten directory and what was changed. */
  type Repairer = (Tree, seq<Issue>) -> (Tree, seq<Repair>)

  /** A pass that reports no repair has changed nothing. */
  ghost predicate Truthful(repair: Repairer) {
    forall t, i :: repair(t, i).1 == [] ==> repair(t, i).0 == t
  }

  /** At most `passes` repair passes, until nothing is repaired or everything validates. */
  function AfterRepairs(rd: Readers, repair: Repairer, tree: Tree, required: seq<string>, passes: nat): (Tree,
                        seq<Repair>)
    decreases passes
  {
    if passes == 0 then (tree, []) else
    var (next, made) := repair(tree, Validate(rd, tree, required));
    if made == [] then (next, [])
    else if Validate(rd, next, required) == [] then (next, made)
    else
      var (last, more) := AfterRepairs(rd, repair, next, required, passes - 1);
      (last, made + more)
  }

  /** `canonicalize_output_dir`. */
  method CanonicalizeOutputDir(rd: Readers, repair: Repairer, output: Tree, required: seq<string>, maxPasses: nat)
    returns (canonical: Tree, validation: seq<Issue>, reports: seq<Report>)
    requires Truthful(repair)
    ensures canonical == AfterRepairs(rd, repair, output, required, maxPasses).0
    ensures validation == Validate(rd, canonical, required)
    ensures |reports| == |required| && forall i :: 0 <= i < |required| ==>
      reports[i] ==
        ReportOn(output, canonical, AfterRepairs(rd, repair, output, required, maxPasses).1, validation, required[i])
  {
    hide Validate, ReportOn;
    canonical := output;
    validation := ValidateRequiredOutputs(rd, canonical, required);
    var repairs: seq<Repair> := [];
    ghost var all := AfterRepairs(rd, repair, output, required, maxPasses);
    var left := maxPasses;
    assert [] + all.1 == all.1;
    while left > 0
      invariant validation == Validate(rd, canonical, required)
      invariant all == (AfterRepairs(rd, repair, canonical, required, left).0,
                        repairs + AfterRepairs(rd, repair, canonical, required, left).1)
    {
      ghost var rest := AfterRepairs(rd, repair, canonical, required, left).1;
      var (next, made) := repair(canonical, validation);
      if made == [] {
        assert repairs + [] == repairs;
        break;
      }
      canonical := next;
      validation := ValidateRequiredOutputs(rd, canonical, required);
      left := left - 1;
      if validation == [] {
        repairs := repairs + made;
        assert repairs + [] == repairs;
        left := 0;
      } else {
        assert repairs + (made + AfterRepairs(rd, repair, canonical, required, left).1)
               == (repairs + made) + AfterRepairs(rd, repair, canonical, required, left).1;
        repairs := repairs + made;
      }
    }
    assert repairs + [] == repairs;
    reports := [];
    for i := 0 to |required|
      invariant |reports| == i
      invariant forall j :: 0 <= j < i ==> reports[j] == ReportOn(output, canonical, repairs, validation, required[j])
    {
      reports := reports + [ReportOn(output, canonical, repairs, validation, required[i])];
    }
  }

  // ---------------------------------------------------------------- the verdict and the reports

  lemma {:induction false} IssuesOfAre(issues: seq<Issue>, name: string)
    ensures IssuesOf(issues, name) == [] <==> forall i :: 0 <= i < |issues| ==> issues[i].artifact != name
    decreases |issues|
  {
    if issues != [] { IssuesOfAre(issues[..|issues| - 1], name); }
  }

  /** Every issue of an output is about that output, and an output without issue is a file. */
  lemma OutputIssuesAreOwn(rd: Readers, tree: Tree, name: string)
    ensures forall i :: 0 <= i < |OutputIssues(rd, tree, name)| ==> OutputIssues(rd, tree, name)[i].artifact == name
    ensures forall i :: 0 <= i < |MarkdownIssues(rd, tree, name)| ==> MarkdownIssues(rd, tree, name)[i].artifact == name
    ensures OutputIssues(rd, tree, name) == [] ==> IsFile(tree, name)
  {
  }

  lemma {:induction false} OutputIssuesAreRequired(rd: Readers, tree: Tree, names: seq<string>)
    ensures forall i :: 0 <= i < |AllOutputIssues(rd, tree, names)| ==>
      AllOutputIssues(rd, tree, names)[i].artifact in names
    ensures AllOutputIssues(rd, tree, names) == [] ==> forall name :: name in names ==> IsFile(tree, name)
    decreases |names|
  {
    hide OutputIssues;
    if names != [] {
      OutputIssuesAreRequired(rd, tree, names[..|names| - 1]);
      OutputIssuesAreOwn(rd, tree, names[|names| - 1]);
      assert names == names[..|names| - 1] + [names[|names| - 1]];
    }
  }

  lemma {:induction false} MarkdownIssuesAreRequired(rd: Readers, tree: Tree, names: seq<string>)
    ensures forall i :: 0 <= i < |AllMarkdownIssues(rd, tree, names)| ==>
      AllMarkdownIssues(rd, tree, names)[i].artifact in names
    decreases |names|
  {
    hide MarkdownIssues;
    if names != [] {
      MarkdownIssuesAreRequired(rd, tree, names[..|names| - 1]);
      OutputIssuesAreOwn(rd, tree, names[|names| - 1]);
      assert names == names[..|names| - 1] + [names[|names| - 1]];
    }
  }

  lemma OtherIssues(rd: Readers, tree: Tree, required: seq<string>)
    ensures forall i :: 0 <= i < |DeliveryIssues(rd, tree)| ==> DeliveryIssues(rd, tree)[i].artifact == "delivery.md"
    ensures forall i :: 0 <= i < |HandoffIssues(rd, tree, required)| ==>
      HandoffIssues(rd, tree, required)[i].artifact in required
  {
    assert "selected_plan.json" in PLAN_REVIEW;
  }

  /** Only `delivery.md` can have an issue without being required. */
  lemma IssuesAreRequired(rd: Readers, tree: Tree, required: seq<string>, i: nat)
    requires i < |Validate(rd, tree, required)|
    ensures Validate(rd, tree, required)[i].artifact in required
            || (Validate(rd, tree, required)[i].artifact == "delivery.md" && DeliveryIssues(rd, tree) != [])
  {
    hide AllOutputIssues, AllMarkdownIssues, DeliveryIssues, HandoffIssues;
    OutputIssuesAreRequired(rd, tree, required);
    MarkdownIssuesAreRequired(rd, tree, required);
    OtherIssues(rd, tree, required);
  }

  predicate Accepted(rd: Readers, tree: Tree, required: seq<string>, name: string) {
    IsFile(tree, name) && IssuesOf(Validate(rd, tree, required), name) == []
  }

  /** A `delivery.md` that nobody required but that reports failure. */
  predicate StrayDelivery(rd: Readers, tree: Tree, required: seq<string>) {
    "delivery.md" !in required && DeliveryIssues(rd, tree) != []
  }

  /** The validation is ok iff every required output is accepted and no `delivery.md` beside them
      reports a failure; so it agrees with the reports whenever `delivery.md` is required. */
  lemma OkIffAllAccepted(rd: Readers, tree: Tree, required: seq<string>)
    ensures Validate(rd, tree, required) == [] <==>
            (forall name :: name in required ==> Accepted(rd, tree, required, name))
            && !StrayDelivery(rd, tree, required)
  {
    hide AllOutputIssues, AllMarkdownIssues, HandoffIssues, IssuesOf, DeliveryIssues;
    var issues := Validate(rd, tree, required);
    forall name ensures IssuesOf(issues, name) == [] <==> forall i :: 0 <= i < |issues| ==> issues[i].artifact != name {
      IssuesOfAre(issues, name);
    }
    if issues == [] {
      OutputIssuesAreRequired(rd, tree, required);
    } else {
      IssuesAreRequired(rd, tree, required, 0);
      assert issues[0].artifact == issues[0].artifact;
    }
  }

  ghost predicate IsMarkdown(name: string) {
    exists stem :: name == stem + ".md"
  }

  lemma MarkdownMeans(name: string)
    ensures EndsWithMd(name) <==> IsMarkdown(name)
  {
    if EndsWithMd(name) { assert name == name[..|name| - 3] + ".md"; }
  }

  /** A required output is fine: a file, not empty unless it is the fix patch, with no template left to fill in, no
      message about its content and, if it is markdown, a result code of 0. */
  ghost predicate Fine(rd: Readers, tree: Tree, name: string) {
    && name in tree && tree[name].File?
    && var content := tree[name].content;
    && (content != "" || name == "fix_patch.diff")
    && !rd.pending(content) && rd.messages(name, content) == 0
    && (IsMarkdown(name) && name != "delivery.md" && content != "" ==> rd.resultCode(tree, name) == Some(0))
  }

  /** A directory validates iff every required output is fine, a `delivery.md` returns 0, and a plan review with all
      its outputs has handed over its findings. */
  lemma ValidIff(rd: Readers, tree: Tree, required: seq<string>)
    ensures Validate(rd, tree, required) == [] <==>
      && (forall name :: name in required ==> Fine(rd, tree, name))
      && (IsFile(tree, "delivery.md") ==> rd.returnCode(tree) == Some(0))
      && ((forall name :: name in PLAN_REVIEW ==> name in required) ==> rd.notHandedOver(tree) == 0)
  {
    hide OutputIssues, MarkdownIssues, Fine, AllOutputIssues, AllMarkdownIssues;
    AllFine(rd, tree, required);
  }

  lemma {:induction false} AllFine(rd: Readers, tree: Tree, names: seq<string>)
    ensures AllOutputIssues(rd, tree, names) == [] && AllMarkdownIssues(rd, tree, names) == [] <==>
            forall name :: name in names ==> Fine(rd, tree, name)
    decreases |names|
  {
    hide OutputIssues, MarkdownIssues, Fine;
    if names != [] {
      var before, last := names[..|names| - 1], names[|names| - 1];
      AllFine(rd, tree, before);
      OneFine(rd, tree, last);
      assert names == before + [last];
    }
  }

  lemma OneFine(rd: Readers, tree: Tree, name: string)
    ensures OutputIssues(rd, tree, name) == [] && MarkdownIssues(rd, tree, name) == [] <==> Fine(rd, tree, name)
  {
    hide EndsWithMd, IsMarkdown, Times;
    MarkdownMeans(name);
    TimesMean(Issue(name, Content), if IsFile(tree, name) then rd.messages(name, tree[name].content) else 0);
  }

  lemma TimesMean(i: Issue, n: nat)
    ensures Times(i, n) == [] <==> n == 0
  {
    assert |Times(i, n)| == n;
  }

  /** A report says what the agent left, the repairs of the output and the issues about it, in order; it accepts the
      output iff it is a file at last and there is no issue about it. */
  lemma ReportSays(raw: Tree, canonical: Tree, repairs: seq<Repair>, issues: seq<Issue>, name: string)
    ensures var report := ReportOn(raw, canonical, repairs, issues, name);
      && report.artifact == name
      && (forall content :: report.raw == Some(content) <==> name in raw && raw[name] == File(content))
      && (report.accepted <==>
            name in canonical && canonical[name].File? && forall i :: i in issues ==> i.artifact != name)
      && (forall i :: i in report.reasons <==> i in issues && i.artifact == name)
      && (forall r :: r in report.changes <==> r in repairs && r.artifact == name)
  {
    hide IssuesOf, RepairsOf;
    IssuesOfAre(issues, name);
    IssuesOfHave(issues, name);
    RepairsOfHave(repairs, name);
  }

  lemma {:induction false} IssuesOfHave(issues: seq<Issue>, name: string)
    ensures forall i :: i in IssuesOf(issues, name) <==> i in issues && i.artifact == name
    decreases |issues|
  {
    if issues != [] {
      IssuesOfHave(issues[..|issues| - 1], name);
      assert issues == issues[..|issues| - 1] + [issues[|issues| - 1]];
    }
  }

  lemma {:induction false} RepairsOfHave(repairs: seq<Repair>, name: string)
    ensures forall r :: r in RepairsOf(repairs, name) <==> r in repairs && r.artifact == name
    decreases |repairs|
  {
    if repairs != [] {
      RepairsOfHave(repairs[..|repairs| - 1], name);
      assert repairs == repairs[..|repairs| - 1] + [repairs[|repairs| - 1]];
    }
  }

  /** A stray `delivery.md` is the only way the two disagree. */
  lemma StrayDeliveryDisagrees()
    ensures var rd := Readers(_ => false, (_, _) => 0, _ => Some(1), (_, _) => Some(0), _ => 0);
      var tree: Tree := map["delivery.md" := File("return_code: 1"), "plan.md" := File("x")];
      Accepted(rd, tree, ["plan.md"], "plan.md") && Validate(rd, tree, ["plan.md"]) != []
  {
  }
}
