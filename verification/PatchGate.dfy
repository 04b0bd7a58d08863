/** The patch gate: from the analysed patch and the outcomes of the git commands to a verdict. */
module PatchGate {
  import opened Text
  import opened PatchAnalysis
  import opened PatchLines
  import opened PatchSections

  // ---------------------------------------------------------------- which paths are in scope

  predicate InScope(policy: Policy, path: Path) {
    && path.root == "" && ".." !in path.parts
    && (path.parts != [] ==> path.parts[0] !in policy.topLevel)
    && (forall part :: part in path.parts ==> part !in policy.parts)
    && NameOf(path) !in policy.names && !StartsWith(NameOf(path), ".env.")
    && Suffix(path) !in policy.suffixes
    && NameOf(path) !in policy.sensitive
  }

  lemma ScopeErrorsMean(policy: Policy, path: Path)
    ensures ScopeErrors(policy, path) == [] <==> InScope(policy, path)
  {
    hide NameOf, StartsWith, Suffix;
    var bad := set part | part in path.parts && part in policy.parts;
    if bad == {} {
      assert forall part :: part in path.parts && part in policy.parts ==> part in bad;
    } else {
      var part :| part in bad;
    }
  }

  /** No scope errors iff every changed file is in scope. */
  lemma {:induction false} AllInScope(policy: Policy, paths: seq<Path>)
    ensures AllScopeErrors(policy, paths) == [] <==> forall p :: p in paths ==> InScope(policy, p)
    decreases |paths|
  {
    hide InScope, ScopeErrors;
    if paths != [] {
      var before, last := paths[..|paths| - 1], paths[|paths| - 1];
      assert paths == before + [last];
      AllInScope(policy, before);
      ScopeErrorsMean(policy, last);
    }
  }

  // ---------------------------------------------------------------- the pipeline

  datatype CheckStatus = Pass | Fail | Skipped

  datatype MaterializeStatus = Success | Failed | NotRun

  /** What the outside world answers, in the order in which it is asked. */
  datatype World = World(gitForCheck: bool, checkExit: int, gitForApply: bool, applyExit: int, diffExit: int,
                         exportRequested: bool, exportWorks: bool)

  datatype GateResult = GateResult(stats: Stats, applyCheck: CheckStatus, materialize: MaterializeStatus,
                                   diffCheck: CheckStatus, cumulative: CheckStatus, hasRepo: bool)

  predicate PrecheckOk(stats: Stats) {
    stats.legal == [] && stats.scope == [] && stats.size == []
  }

  function ApplyCheck(w: World): CheckStatus {
    if !w.gitForCheck then Skipped else if w.checkExit == 0 then Pass else Fail
  }

  /** `_materialize_and_diff_check`: a failing whitespace check also fails the materialization. */
  function Materialize(w: World): (bool, MaterializeStatus, CheckStatus) {
    if !w.gitForApply then (false, NotRun, Skipped)
    else if w.applyExit != 0 then (false, Failed, Skipped)
    else if w.diffExit != 0 then (false, Failed, Fail)
    else (true, Success, Pass)
  }

  function RunPatchGate(stats: Stats, w: World): GateResult {
    var check := ApplyCheck(w);
    if PrecheckOk(stats) && check == Pass then
      var (repo, materialize, diff) := Materialize(w);
      var cumulative := if repo && w.exportRequested then (if w.exportWorks then Pass else Fail) else Skipped;
      GateResult(stats, check, materialize, diff, cumulative, repo)
    else
      GateResult(stats, check, NotRun, Skipped, Skipped, false)
  }

  predicate Passes(r: GateResult) {
    && PrecheckOk(r.stats) && r.applyCheck == Pass && r.materialize == Success && r.diffCheck == Pass
    && r.cumulative != Fail
  }

  datatype FailureType = NoFailure | InvalidUnifiedDiff | PatchScope | PatchSize | PatchApply | PatchApplyUnavailable
    | PatchMaterialize | DiffCheck | CumulativePatch | PatchGateFailure

  function FailureOf(r: GateResult): FailureType {
    if Passes(r) then NoFailure
    else if r.stats.legal != [] then InvalidUnifiedDiff
    else if r.stats.scope != [] then PatchScope
    else if r.stats.size != [] then PatchSize
    else if r.applyCheck == Fail then PatchApply
    else if r.applyCheck == Skipped then PatchApplyUnavailable
    else if r.materialize == Failed then PatchMaterialize
    else if r.diffCheck == Fail then DiffCheck
    else if r.cumulative == Fail then CumulativePatch
    else PatchGateFailure
  }

  predicate GitWorks(w: World) {
    && w.gitForCheck && w.checkExit == 0 && w.gitForApply && w.applyExit == 0 && w.diffExit == 0
    && (w.exportRequested ==> w.exportWorks)
  }

  /** The gate passes iff the patch is legal, in scope and small enough, every git command asked
      succeeds, and the export works if one is wanted; then a repository is there. */
  lemma PassMeans(stats: Stats, w: World)
    ensures var r := RunPatchGate(stats, w);
      && (Passes(r) <==> PrecheckOk(stats) && GitWorks(w))
      && (Passes(r) ==> r.hasRepo)
      && (r.hasRepo ==> Passes(r) || r.cumulative == Fail)
  {
  }

  /** Which label a failed gate gets. A failing whitespace check is labelled as a failed
      materialization, so `DiffCheck` is the label of no run. */
  lemma FailureMeans(stats: Stats, w: World)
    ensures var r := RunPatchGate(stats, w); var f := FailureOf(r);
      var checked := PrecheckOk(stats) && w.gitForCheck && w.checkExit == 0;
      && (f == NoFailure <==> Passes(r))
      && f != DiffCheck
      && (f == InvalidUnifiedDiff <==> stats.legal != [])
      && (f == PatchScope <==> stats.legal == [] && stats.scope != [])
      && (f == PatchSize <==> stats.legal == [] && stats.scope == [] && stats.size != [])
      && (f == PatchMaterialize <==> checked && w.gitForApply && (w.applyExit != 0 || w.diffExit != 0))
      && (f == PatchGateFailure <==> checked && !w.gitForApply)
      && (f == CumulativePatch <==> checked && w.gitForApply && w.applyExit == 0 && w.diffExit == 0
                                    && w.exportRequested && !w.exportWorks)
      && (f == PatchApplyUnavailable <==> PrecheckOk(stats) && !w.gitForCheck)
      && (f == PatchApply <==> PrecheckOk(stats) && w.gitForCheck && w.checkExit != 0)
  {
  }

  /** From the text of a patch to the verdict: what it takes to pass. */
  lemma PassingPatch(policy: Policy, text: string, w: World)
    requires Analyze(policy, text).Ok?
    ensures Collect(SplitLines(text)).Ok?
    ensures var lines := SplitLines(text); var t := Collect(lines).value;
      Passes(RunPatchGate(Analyze(policy, text).value, w)) <==>
        && GitWorks(w)
        && Strip(text) != "" && Headers(lines) != {} && t.changed != []
        && (forall s :: s in Sections(lines) ==> SectionTotals(s).errors == [])
        && (forall p :: p in t.changed ==> InScope(policy, p))
        && |Additions(lines)| + |Removals(lines)| <= policy.maxChangedLines
        && |t.deleted| <= policy.maxDeletedFiles
  {
    hide InScope, AllScopeErrors, Collect, SplitLines, Strip, Sections, SectionTotals, LinesWith;
    AllInScope(policy, Collect(SplitLines(text)).value.changed);
    LegalIffEverySectionIs(SplitLines(text));
    CountsMean(SplitLines(text));
    PassMeans(Analyze(policy, text).value, w);
  }

  // ---------------------------------------------------------------- headers read back

  predicate Word(s: string) {
    s != "" && forall i :: 0 <= i < |s| ==> !IsSpace(s[i])
  }

  lemma {:induction false} WordEndsAtSpace(w: string, rest: string)
    requires forall i :: 0 <= i < |w| ==> !IsSpace(w[i])
    requires rest == "" || IsSpace(rest[0])
    ensures WordEnd(w + rest) == |w|
    decreases |w|
  {
    if w == "" {
      assert w + rest == rest;
    } else {
      assert (w + rest)[1..] == w[1..] + rest && (w + rest)[0] == w[0];
      hide IsSpace;
      WordEndsAtSpace(w[1..], rest);
    }
  }

  lemma FirstWord(w: string, rest: string)
    requires Word(w) && (rest == "" || IsSpace(rest[0]))
    ensures Words(w + rest) == [w] + Words(rest)
  {
    hide IsSpace, WordEnd;
    WordEndsAtSpace(w, rest);
    assert (w + rest)[0] == w[0];
    assert LStrip(w + rest) == w + rest;
    assert (w + rest)[..|w|] == w && (w + rest)[|w|..] == rest;
  }

  lemma BlankBefore(rest: string)
    ensures Words(" " + rest) == Words(rest)
  {
    assert (" " + rest)[1..] == rest;
    assert LStrip(" " + rest) == LStrip(rest);
  }

  lemma StripQuotesKeeps(s: string)
    requires s != "" && s[0] != '"' && s[|s| - 1] != '"'
    ensures StripQuotes(s) == s
  {
  }

  lemma LiteralWords()
    ensures Word("diff") && Word("--git") && Word("a/") && Word("b/") && IsSpace(' ')
  {
    hide Word;
    assert Word("diff") by { LettersOnly("diff"); }
    assert Word("--git") by { LettersOnly("--git"); }
    assert Word("a/") by { LettersOnly("a/"); }
    assert Word("b/") by { LettersOnly("b/"); }
  }

  lemma LettersOnly(s: string)
    requires s != "" && forall i :: 0 <= i < |s| ==> '!' <= s[i] <= '~'
    ensures Word(s)
  {
  }

  lemma WordCat(a: string, b: string)
    requires Word(a) && Word(b)
    ensures Word(a + b)
  {
    hide IsSpace;
  }

  /** A text behind `a/` or `b/` that does not end in a blank or a quote is read as the path it spells. */
  lemma PrefixedPath(prefix: string, p: string)
    requires prefix == "a/" || prefix == "b/"
    requires p != "" && !IsSpace(p[|p| - 1]) && p[|p| - 1] != '"'
    ensures StripDiffPath(prefix + p) == ParsePath(p)
  {
    hide ParsePath, IsSpace, Strip, StripQuotes;
    var s := prefix + p;
    LiteralWords();
    assert prefix[0] != '"' && !IsSpace(prefix[0]);
    assert s[0] == prefix[0] && s[|s| - 1] == p[|p| - 1];
    StripKeeps(s);
    StripQuotesKeeps(s);
    assert s[..2] == prefix && s[2..] == p;
    assert s[1] == '/';
  }

  function HeaderLine(source: string, target: string): string {
    "diff" + (" " + ("--git" + (" " + ("a/" + source + (" " + ("b/" + target))))))
  }

  lemma SpacedWord(w: string, rest: string)
    requires Word(w)
    ensures Words(w + (" " + rest)) == [w] + Words(rest)
  {
    hide Words, Word, IsSpace;
    LiteralWords();
    FirstWord(w, " " + rest);
    BlankBefore(rest);
  }

  lemma OneWord(w: string)
    requires Word(w)
    ensures Words(w) == [w]
  {
    hide Word, IsSpace, WordEnd, LStrip;
    FirstWord(w, "");
    assert w + "" == w && Words("") == [] && [w] + [] == [w];
  }

  lemma WordsOfHeader(source: string, target: string)
    requires Word(source) && Word(target)
    ensures Words(HeaderLine(source, target)) == ["diff"] + (["--git"] + (["a/" + source] + ["b/" + target]))
  {
    hide Words, Word;
    LiteralWords();
    WordCat("a/", source);
    WordCat("b/", target);
    OneWord("b/" + target);
    var third := "a/" + source + (" " + ("b/" + target));
    SpacedWord("a/" + source, "b/" + target);
    SpacedWord("--git", third);
    SpacedWord("diff", "--git" + (" " + third));
  }

  /** Reading back the header git writes for names without blanks gives the two paths. */
  lemma HeaderReadsBack(source: string, target: string)
    requires Word(source) && Word(target)
    requires source[|source| - 1] != '"' && target[|target| - 1] != '"'
    requires ParsePath(source) != DEV_NULL && ParsePath(target) != DEV_NULL
    ensures Classify(HeaderLine(source, target)) ==
            Header(HeaderLine(source, target), Some((ParsePath(source), ParsePath(target))))
  {
    hide Words, StripDiffPath, ParsePath, Word;
    WordsOfHeader(source, target);
    WordEnds(source);
    WordEnds(target);
    PrefixedPath("a/", source);
    PrefixedPath("b/", target);
    var line := HeaderLine(source, target);
    assert line[..11] == "diff --git ";
  }

  lemma WordEnds(w: string)
    requires Word(w)
    ensures w != "" && !IsSpace(w[0]) && !IsSpace(w[|w| - 1])
  {
    hide IsSpace;
  }

  lemma BehindMarker(marker: string, text: string)
    requires |marker| == 4
    ensures text != "" && !IsSpace(text[0]) ==> FileLinePath(marker + text) == Some(StripDiffPath(text))
    ensures (forall i :: 0 <= i < |text| ==> IsSpace(text[i])) ==> FileLinePath(marker + text) == None
  {
    hide StripDiffPath, IsSpace;
    assert (marker + text)[4..] == text;
    if forall i :: 0 <= i < |text| ==> IsSpace(text[i]) { AllBlank(text); }
  }

  /** A `---` or `+++` line gives the path behind `a/` or `b/`, blanks inside included; `/dev/null` is no
      file; and with only blanks behind the marker the line raises. */
  lemma FileLineReadsBack(marker: string, prefix: string, p: string, blank: string)
    requires marker in {"--- ", "+++ "} && prefix in {"a/", "b/"}
    requires p != "" && !IsSpace(p[|p| - 1]) && p[|p| - 1] != '"'
    requires forall i :: 0 <= i < |blank| ==> IsSpace(blank[i])
    ensures FileLinePath(marker + (prefix + p)) == Some(ParsePath(p))
    ensures FileLinePath(marker + "/dev/null") == Some(DEV_NULL)
    ensures FileLinePath(marker + blank) == None
  {
    hide StripDiffPath, ParsePath, Word, IsSpace, FileLinePath;
    LiteralWords();
    WordEnds(prefix);
    PrefixedPath(prefix, p);
    DevNull();
    assert (prefix + p)[0] == prefix[0];
    BehindMarker(marker, prefix + p);
    BehindMarker(marker, "/dev/null");
    BehindMarker(marker, blank);
  }

  lemma AllBlank(blank: string)
    requires forall i :: 0 <= i < |blank| ==> IsSpace(blank[i])
    ensures LStrip(blank) == ""
  {
    hide IsSpace;
  }

  lemma DevNull()
    ensures !IsSpace('/') && StripDiffPath("/dev/null") == DEV_NULL
  {
    assert !IsSpace('/') && !IsSpace('l');
    StripKeeps("/dev/null");
    StripQuotesKeeps("/dev/null");
  }
}
