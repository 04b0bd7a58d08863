/** What the line machine computes: the sum over the sections of the patch of what each section says,
    where a section is a `diff --git` line and everything up to the next one. */
module PatchSections {
  import opened Text
  import opened PatchAnalysis
  import opened PatchLines

  // ---------------------------------------------------------------- unions of files

  lemma {:induction false} UnionMembers(a: seq<Path>, b: seq<Path>, p: Path)
    ensures p in Union(a, b) <==> p in a || p in b
    decreases |b|
  {
    if b != [] {
      UnionMembers(a, b[..|b| - 1], p);
      assert b == b[..|b| - 1] + [b[|b| - 1]];
    }
  }

  predicate NoDuplicates(paths: seq<Path>) {
    forall i, j :: 0 <= i < j < |paths| ==> paths[i] != paths[j]
  }

  /** A union keeps what was there first, in place, and has no duplicates if that had none. */
  lemma {:induction false} UnionIsOrdered(a: seq<Path>, b: seq<Path>)
    requires NoDuplicates(a)
    ensures NoDuplicates(Union(a, b)) && a <= Union(a, b)
    decreases |b|
  {
    if b != [] {
      UnionIsOrdered(a, b[..|b| - 1]);
    }
  }

  lemma UnionOfAddOnce(a: seq<Path>, b: seq<Path>, p: Path)
    ensures Union(a, AddOnce(b, p)) == AddOnce(Union(a, b), p)
  {
    UnionMembers(a, b, p);
    assert (b + [p])[..|b|] == b;
  }

  // ---------------------------------------------------------------- composition

  function Above(a: Totals, m: Machine): Machine {
    Machine(Plus(a, m.totals), m.section)
  }

  lemma ErrorsAssociate(a: seq<LegalError>, b: seq<LegalError>, c: seq<LegalError>)
    ensures a + (b + c) == (a + b) + c
  {
  }

  lemma ReportAbove(a: Totals, t: Totals, errors: seq<LegalError>)
    ensures Plus(a, Report(t, errors)) == Report(Plus(a, t), errors)
  {
    hide Union;
    ErrorsAssociate(a.errors, t.errors, errors);
  }

  /** A step does not look at what earlier sections have collected. */
  lemma StepAbove(a: Totals, m: Machine, line: string)
    ensures var r := Step(m, line);
      Step(Above(a, m), line) == if r.Ok? then Ok(Above(a, r.value)) else r
  {
    hide Classify, FinishErrors, Errors, Union, AddOnce;
    var t, s := m.totals, m.section;
    match Classify(line)
    case Header(_, paths) =>
      ReportAbove(a, t, FinishErrors(s));
      if paths.None? {
        ErrorsAssociate(a.errors, t.errors + FinishErrors(s), [InvalidHeader(line)]);
      } else {
        UnionOfAddOnce(a.changed, t.changed, paths.value.0);
        UnionOfAddOnce(a.changed, AddOnce(t.changed, paths.value.0), paths.value.1);
      }
    case NewFile(path) => if s.oldPath.Some? { UnionOfAddOnce(a.deleted, t.deleted, s.oldPath.value); }
    case Deletion(e) =>
      ReportAbove(a, t, Errors(e));
      if s.oldPath.Some? { UnionOfAddOnce(a.deleted, t.deleted, s.oldPath.value); }
    case Metadata(e) => ReportAbove(a, t, Errors(e));
    case _ =>
  }

  /** A header line ends the section before it and starts afresh. */
  lemma HeaderStartsOver(m: Machine, line: string)
    requires Classify(line).Header?
    ensures var r := Step(START, line);
      r.Ok? && Step(m, line) == Ok(Above(Report(m.totals, FinishErrors(m.section)), r.value))
  {
    hide Classify, FinishErrors;
    var done := Report(m.totals, FinishErrors(m.section));
    assert FinishErrors(FRESH) == [] by { FreshEndsQuietly(); }
    assert done.errors + [] == done.errors && Union(done.changed, []) == done.changed;
    assert Union(done.deleted, []) == done.deleted;
    var paths := Classify(line).paths;
    if paths.None? {
      NoErrorsFirst(done.errors, [InvalidHeader(line)]);
    } else {
      UnionOfAddOnce(done.changed, [], paths.value.0);
      UnionOfAddOnce(done.changed, AddOnce([], paths.value.0), paths.value.1);
    }
  }

  lemma NoErrorsFirst(a: seq<LegalError>, b: seq<LegalError>)
    ensures a + ([] + [] + b) == a + b && a + ([] + b) == a + b && b + [] + [] == b && b + ([] + []) == b
  {
    assert [] + b == b;
    assert [] + [] + b == b;
  }

  lemma FreshEndsQuietly()
    ensures FinishErrors(FRESH) == []
  {
  }

  lemma {:induction false} RunComposes(p: seq<string>, q: seq<string>)
    requires q != [] && IsHeader(q[0]) && Run(p).Ok?
    ensures var r, done := Run(q), Report(Run(p).value.totals, FinishErrors(Run(p).value.section));
      Run(p + q) == if r.Ok? then Ok(Above(done, r.value)) else r
    decreases |q|
  {
    hide Step, Classify, FinishErrors, Above, Report;
    var q', line := q[..|q| - 1], q[|q| - 1];
    assert (p + q)[..|p + q| - 1] == p + q';
    var m, done := Run(p).value, Report(Run(p).value.totals, FinishErrors(Run(p).value.section));
    if q' == [] {
      assert p + q' == p;
      LineMeans(line);
      HeaderStartsOver(m, line);
    } else {
      RunComposes(p, q');
      if Run(q').Ok? { StepAbove(done, Run(q').value, line); }
    }
  }

  function Sum(a: Result<Totals, string>, b: Result<Totals, string>): Result<Totals, string> {
    if a.Err? then a else if b.Err? then b else Ok(Plus(a.value, b.value))
  }

  /** Analysing `p + q`, where `q` starts with a `diff --git` line, adds the counts, strings the
      errors together and unites the files; it raises iff one of the two does. */
  lemma AnalysisComposes(p: seq<string>, q: seq<string>)
    requires q == [] || IsHeader(q[0])
    ensures Collect(p + q) == Sum(Collect(p), Collect(q))
  {
    hide Step, Classify, FinishErrors, Plus, Report;
    if q == [] {
      assert p + q == p;
      NothingAdds(p);
    } else if Run(p).Err? {
      assert (p + q)[..|p|] == p;
      RaisesForGood(p + q, |p|);
    } else {
      RunComposes(p, q);
      if Run(q).Ok? {
        var first, second := Run(p).value, Run(q).value;
        ReportAbove(Report(first.totals, FinishErrors(first.section)), second.totals, FinishErrors(second.section));
      }
    }
  }

  lemma NothingAdds(p: seq<string>)
    ensures Collect([]) == Ok(NOTHING)
    ensures Collect(p).Ok? ==> Plus(Collect(p).value, NOTHING) == Collect(p).value
  {
    hide Run;
    var none: seq<string> := [];
    assert none[..0] == none;
    RunOfNothing(none);
    FreshEndsQuietly();
    NoErrorsFirst([], []);
    if Collect(p).Ok? {
      var t := Collect(p).value;
      assert t.errors + [] == t.errors && Union(t.changed, []) == t.changed && Union(t.deleted, []) == t.deleted;
    }
  }

  // ---------------------------------------------------------------- what one section says

  /** Only the first line may be a header. */
  predicate IsSection(s: seq<string>) {
    forall i :: 0 < i < |s| ==> !IsHeader(s[i])
  }

  predicate HasHeader(s: seq<string>) { s != [] && IsHeader(s[0]) }

  function HeaderPaths(s: seq<string>): Option<(Path, Path)> {
    if HasHeader(s) then GitDiffPaths(s[0]) else None
  }

  predicate NamesFiles(line: string) { IsOldFile(line) || IsNewFile(line) }

  predicate ChangesMetadata(line: string) { IsDeletion(line) || IsMetadata(line) }

  predicate Raises(line: string) { NamesFiles(line) && FileLinePath(line).None? }

  ghost predicate HasFileLines(s: seq<string>) { exists i :: 0 <= i < |s| && NamesFiles(s[i]) }
  ghost predicate HasNewFileLine(s: seq<string>) { exists i :: 0 <= i < |s| && IsNewFile(s[i]) }
  ghost predicate HasHunkLine(s: seq<string>) { exists i :: 0 <= i < |s| && IsHunk(s[i]) }
  ghost predicate HasMetadata(s: seq<string>) { exists i :: 0 <= i < |s| && ChangesMetadata(s[i]) }

  /** The old path in force after the lines of `s`: that of the last `---` line, else the header's. */
  function OldPathOf(s: seq<string>): Option<Path>
    decreases |s|
  {
    if s == [] then None
    else if IsOldFile(s[|s| - 1]) then FileLinePath(s[|s| - 1])
    else if |s| == 1 then (if HeaderPaths(s).Some? then Some(HeaderPaths(s).value.0) else None)
    else OldPathOf(s[..|s| - 1])
  }

  /** The line deletes a file: a deletion mode, or a new path of `/dev/null`. */
  predicate Deletes(line: string) {
    IsDeletion(line) || (IsNewFile(line) && FileLinePath(line) == Some(DEV_NULL))
  }

  function DeletedIn(s: seq<string>): seq<Path>
    decreases |s|
  {
    if s == [] then [] else
    var before, oldPath := DeletedIn(s[..|s| - 1]), OldPathOf(s[..|s| - 1]);
    if Deletes(s[|s| - 1]) && oldPath.Some? then AddOnce(before, oldPath.value) else before
  }

  function ModeErrorsIn(s: seq<string>): seq<LegalError>
    decreases |s|
  {
    if s == [] then [] else
    var last := s[|s| - 1];
    ModeErrorsIn(s[..|s| - 1]) + if ChangesMetadata(last) && ModeError(last).Some? then [ModeError(last).value] else []
  }

  function HeaderErrors(s: seq<string>): seq<LegalError> {
    if HasHeader(s) && HeaderPaths(s).None? then [InvalidHeader(s[0])] else []
  }

  /** A section that names a file needs file lines and a hunk, unless it only changes metadata. */
  ghost function EndErrors(s: seq<string>): seq<LegalError> {
    if HeaderPaths(s).None? && !HasFileLines(s) then []
    else if HasMetadata(s) && !HasFileLines(s) && !HasHunkLine(s) then []
    else (if HasFileLines(s) then [] else [MissingFileHeaders]) + (if HasHunkLine(s) then [] else [MissingHunk])
  }

  ghost function SectionTotals(s: seq<string>): Totals {
    Totals(
      if HeaderPaths(s).Some? then AddOnce([HeaderPaths(s).value.0], HeaderPaths(s).value.1) else [],
      DeletedIn(s),
      HeaderErrors(s) + ModeErrorsIn(s) + EndErrors(s),
      |Additions(s)|, |Removals(s)|,
      if HasHeader(s) then 1 else 0)
  }

  /** What the flags and paths of the machine say about the section read so far. */
  ghost predicate Describes(m: Machine, s: seq<string>) {
    && m.totals.changed == SectionTotals(s).changed
    && m.totals.deleted == DeletedIn(s)
    && m.totals.errors == HeaderErrors(s) + ModeErrorsIn(s)
    && m.totals.added == |Additions(s)| && m.totals.removed == |Removals(s)|
    && m.totals.headers == SectionTotals(s).headers
    && m.section.hasOldNew == HasFileLines(s) && m.section.hasHunk == HasHunkLine(s)
    && m.section.metadataOnly == HasMetadata(s)
    && m.section.oldPath == OldPathOf(s)
    && (m.section.newPath.Some? <==> HeaderPaths(s).Some? || HasNewFileLine(s))
  }

  /** The lines of `s` are those of `before` and then `line`. */
  predicate OneMore(s: seq<string>, before: seq<string>, line: string) {
    s == before + [line]
  }

  lemma LinesNext(s: seq<string>, before: seq<string>, line: string)
    requires OneMore(s, before, line)
    ensures s[..|s| - 1] == before && s[|s| - 1] == line
    ensures forall i :: 0 <= i < |before| ==> s[i] == before[i]
    ensures before != [] ==> s[0] == before[0]
  {
  }

  lemma FlagsNext(s: seq<string>, before: seq<string>, line: string)
    requires OneMore(s, before, line)
    ensures HasFileLines(s) <==> HasFileLines(before) || NamesFiles(line)
    ensures HasNewFileLine(s) <==> HasNewFileLine(before) || IsNewFile(line)
    ensures HasHunkLine(s) <==> HasHunkLine(before) || IsHunk(line)
    ensures HasMetadata(s) <==> HasMetadata(before) || ChangesMetadata(line)
  {
    hide Classify, NamesFiles, ChangesMetadata;
    LinesNext(s, before, line);
    assert s[|before|] == line;
  }

  lemma CountsNext(s: seq<string>, before: seq<string>, line: string)
    requires OneMore(s, before, line)
    ensures |Additions(s)| == |Additions(before)| + if IsAddition(line) then 1 else 0
    ensures |Removals(s)| == |Removals(before)| + if IsRemoval(line) then 1 else 0
  {
    hide LinesWith, IsAddition, IsRemoval;
    LinesNext(s, before, line);
    OneMoreLine(s, IsAddition);
    OneMoreLine(s, IsRemoval);
  }

  lemma HeaderNext(s: seq<string>, before: seq<string>, line: string)
    requires OneMore(s, before, line) && !IsHeader(line)
    ensures HasHeader(s) == HasHeader(before) && HeaderPaths(s) == HeaderPaths(before)
    ensures HeaderErrors(s) == HeaderErrors(before)
    ensures OldPathOf(s) == if IsOldFile(line) then FileLinePath(line) else OldPathOf(before)
  {
    hide Classify;
    LinesNext(s, before, line);
    assert s[|before|] == line;
  }

  lemma CollectedNext(s: seq<string>, before: seq<string>, line: string)
    requires OneMore(s, before, line)
    ensures DeletedIn(s) ==
            if Deletes(line) && OldPathOf(before).Some?
            then AddOnce(DeletedIn(before), OldPathOf(before).value) else DeletedIn(before)
    ensures ModeErrorsIn(s) ==
            ModeErrorsIn(before) + if ChangesMetadata(line) then Errors(ModeError(line)) else []
  {
    hide Classify, AddOnce, OldPathOf;
    LinesNext(s, before, line);
  }

  lemma DescribesHeader(s: seq<string>, line: string)
    requires OneMore(s, [], line) && IsHeader(line)
    ensures Step(START, line).Ok? && Describes(Step(START, line).value, s)
  {
    LineMeans(line);
    LineCarries(line);
    hide Classify, AddOnce, FinishErrors, Errors, LinesWith, GitDiffPaths, FileLinePath, ModeError, IsHeader, IsOldFile,
         IsNewFile, IsDeletion, IsMetadata, IsHunk, IsAddition, IsRemoval;
    assert s == [line];
    CountsNext(s, [], line);
    FlagsNext(s, [], line);
    CollectedNext(s, [], line);
    FreshEndsQuietly();
    NoErrorsFirst([], HeaderErrors(s));
    if HeaderPaths(s).Some? { FirstPath(HeaderPaths(s).value.0); }
    NoLines(IsAddition);
    NoLines(IsRemoval);
  }

  lemma DescribesNext(m: Machine, s: seq<string>, before: seq<string>, line: string)
    requires OneMore(s, before, line) && IsSection(s) && Describes(m, before) && !Raises(line)
    requires !IsHeader(line)
    ensures Step(m, line).Ok? && Describes(Step(m, line).value, s)
  {
    hide Classify, AddOnce, OldPathOf, HasHeader, HeaderErrors, DeletedIn, ModeErrorsIn, HasFileLines, HasNewFileLine,
         HasHunkLine, HasMetadata, Additions, Removals, Errors, FinishErrors, EndErrors, OneMore, IsSection,
         GitDiffPaths, FileLinePath, ModeError, IsHeader, IsOldFile, IsNewFile, IsDeletion, IsMetadata, IsHunk,
         IsAddition, IsRemoval;
    LineMeans(line);
    LineCarries(line);
    FlagsNext(s, before, line);
    CountsNext(s, before, line);
    HeaderNext(s, before, line);
    CollectedNext(s, before, line);
    var h, e := HeaderErrors(before), ModeErrorsIn(before);
    assert e + [] == e;
    match Classify(line)
    case Deletion(error) => ErrorsAssociate(h, e, Errors(error));
    case Metadata(error) => ErrorsAssociate(h, e, Errors(error));
    case _ =>
  }

  lemma FirstPath(p: Path)
    ensures AddOnce([], p) == [p]
  {
    assert [] + [p] == [p];
  }

  /** The first line of `s` at which reading a path raises. */
  function FirstRaising(s: seq<string>): Option<string>
    decreases |s|
  {
    if s == [] then None else
    var before := FirstRaising(s[..|s| - 1]);
    if before.Some? then before else if Raises(s[|s| - 1]) then Some(s[|s| - 1]) else None
  }

  ghost function SectionOutcome(s: seq<string>): Result<Totals, string> {
    if FirstRaising(s).Some? then Err(FirstRaising(s).value) else Ok(SectionTotals(s))
  }

  lemma StepRaises(m: Machine, line: string)
    requires Raises(line)
    ensures Step(m, line) == Err(line)
  {
    LineCarries(line);
    hide Classify, FinishErrors, FileLinePath, IsOldFile, IsNewFile;
  }

  lemma StartDescribes()
    ensures Describes(START, [])
  {
    NoLines(IsAddition);
    NoLines(IsRemoval);
  }

  lemma {:induction false} SectionRun(s: seq<string>)
    requires IsSection(s)
    ensures if FirstRaising(s).Some? then Run(s) == Err(FirstRaising(s).value)
            else Run(s).Ok? && Describes(Run(s).value, s)
    decreases |s|
  {
    hide Classify, Step, Describes, Raises, START;
    if s == [] {
      StartDescribes();
    } else {
      var before, line := s[..|s| - 1], s[|s| - 1];
      SectionRun(before);
      assert OneMore(s, before, line);
      if FirstRaising(before).None? {
        if Raises(line) {
          StepRaises(Run(before).value, line);
        } else if IsHeader(line) {
          assert before == [];
          DescribesHeader(s, line);
        } else {
          DescribesNext(Run(before).value, s, before, line);
        }
      }
    }
  }

  lemma DescribedEnd(m: Machine, s: seq<string>)
    requires Describes(m, s) && FirstRaising(s).None?
    ensures Report(m.totals, FinishErrors(m.section)) == SectionTotals(s)
  {
    hide Classify, HeaderErrors, DeletedIn, ModeErrorsIn, HasHunkLine, HasMetadata, Additions, Removals, AddOnce;
    NamedByLines(s);
    hide HasFileLines, HasNewFileLine, OldPathOf;
  }

  /** A path is in force iff the header names one or some line does. */
  lemma {:induction false} NamedByLines(s: seq<string>)
    ensures HasNewFileLine(s) ==> HasFileLines(s)
    ensures OldPathOf(s).Some? ==> HeaderPaths(s).Some? || HasFileLines(s)
    ensures HasFileLines(s) && !HasNewFileLine(s) && FirstRaising(s).None? ==> OldPathOf(s).Some?
    decreases |s|
  {
    hide Classify, FileLinePath, GitDiffPaths, IsHeader, IsOldFile, IsNewFile;
    if s != [] {
      var before, line := s[..|s| - 1], s[|s| - 1];
      assert OneMore(s, before, line);
      NamedByLines(before);
      FlagsNext(s, before, line);
    }
  }

  /** One section on its own collects exactly what it says. */
  lemma OneSection(s: seq<string>)
    requires IsSection(s)
    ensures Collect(s) == SectionOutcome(s)
  {
    hide Run, Describes, SectionTotals, FinishErrors, IsSection, FirstRaising;
    SectionRun(s);
    if Run(s).Ok? && FirstRaising(s).None? { DescribedEnd(Run(s).value, s); }
  }

  // ---------------------------------------------------------------- the whole patch

  /** Where the last `diff --git` line is, or 0. */
  function LastStart(lines: seq<string>): (k: nat)
    ensures k == 0 || k < |lines|
    decreases |lines|
  {
    if |lines| <= 1 then 0
    else if IsHeader(lines[|lines| - 1]) then |lines| - 1
    else LastStart(lines[..|lines| - 1])
  }

  lemma {:induction false} LastStartIsLast(lines: seq<string>)
    ensures LastStart(lines) > 0 ==> IsHeader(lines[LastStart(lines)])
    ensures forall i :: LastStart(lines) < i < |lines| ==> !IsHeader(lines[i])
    decreases |lines|
  {
    hide Classify;
    if |lines| > 1 && !IsHeader(lines[|lines| - 1]) {
      LastStartIsLast(lines[..|lines| - 1]);
    }
  }

  /** The lines before the first header, if any, and then one piece for every header. */
  function Sections(lines: seq<string>): seq<seq<string>>
    decreases |lines|
  {
    var k := LastStart(lines);
    if k == 0 then [lines] else Sections(lines[..k]) + [lines[k..]]
  }

  ghost function SumOf(sections: seq<seq<string>>): Result<Totals, string>
    decreases |sections|
  {
    if sections == [] then Ok(NOTHING)
    else if |sections| == 1 then SectionOutcome(sections[0])
    else Sum(SumOf(sections[..|sections| - 1]), SectionOutcome(sections[|sections| - 1]))
  }

  function Concat(pieces: seq<seq<string>>): seq<string>
    decreases |pieces|
  {
    if pieces == [] then [] else Concat(pieces[..|pieces| - 1]) + pieces[|pieces| - 1]
  }

  lemma {:induction false} SectionsCover(lines: seq<string>)
    ensures Sections(lines) != [] && Concat(Sections(lines)) == lines
    ensures forall s :: s in Sections(lines) ==> IsSection(s)
    decreases |lines|
  {
    hide Classify, LastStart;
    var k := LastStart(lines);
    LastStartIsLast(lines);
    if k == 0 {
      assert Concat([lines]) == [] + lines by { assert [lines][..0] == []; }
    } else {
      SectionsCover(lines[..k]);
      var pieces := Sections(lines[..k]);
      assert (pieces + [lines[k..]])[..|pieces|] == pieces;
    }
  }

  /** The line machine equals the sum of its sections, for every patch. */
  lemma {:induction false} MachineIsPerSection(lines: seq<string>)
    ensures Collect(lines) == SumOf(Sections(lines))
    decreases |lines|
  {
    hide Classify, Collect, SectionOutcome, Sum, LastStart;
    var k := LastStart(lines);
    LastStartIsLast(lines);
    if k == 0 {
      OneSection(lines);
    } else {
      var p, q := lines[..k], lines[k..];
      assert lines == p + q && q[0] == lines[k];
      MachineIsPerSection(p);
      OneSection(q);
      AnalysisComposes(p, q);
      SectionsCover(p);
      assert (Sections(p) + [q])[..|Sections(p)|] == Sections(p);
    }
  }

  /** A patch has no legality error from its lines iff none of its sections has one. */
  lemma {:induction false} LegalIffEverySectionIs(lines: seq<string>)
    requires Collect(lines).Ok?
    ensures Collect(lines).value.errors == [] <==> forall s :: s in Sections(lines) ==> SectionTotals(s).errors == []
  {
    hide Collect, Sections, SectionTotals;
    MachineIsPerSection(lines);
    SectionsCover(lines);
    NoErrorsInSum(Sections(lines));
  }

  lemma {:induction false} NoErrorsInSum(sections: seq<seq<string>>)
    requires SumOf(sections).Ok?
    ensures SumOf(sections).value.errors == [] <==> forall s :: s in sections ==> SectionTotals(s).errors == []
    decreases |sections|
  {
    hide SectionTotals, FirstRaising, Union;
    if |sections| == 1 {
      assert sections == [sections[0]];
    } else if sections != [] {
      var before, last := sections[..|sections| - 1], sections[|sections| - 1];
      assert sections == before + [last];
      NoErrorsInSum(before);
    }
  }
}
