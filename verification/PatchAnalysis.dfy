/** The unified-diff line machine of the patch gate and the checks on what it collects. */
module PatchAnalysis {
  import opened Text

  // ---------------------------------------------------------------- paths

  /** A POSIX path: its root (`""`, `"/"` or `"//"`) and its components. */
  datatype Path = Path(root: string, parts: seq<string>)

  const DEV_NULL := Path("/", ["dev", "null"])

  /** The text up to the first slash. */
  function SlashAt(s: string): (k: nat)
    ensures k <= |s| && (k < |s| ==> s[k] == '/')
    ensures forall i :: 0 <= i < k ==> s[i] != '/'
  {
    if s == "" || s[0] == '/' then 0 else 1 + SlashAt(s[1..])
  }

  /** The components between slashes; empty ones and `.` are dropped. */
  function Components(s: string): (parts: seq<string>)
    ensures forall i :: 0 <= i < |parts| ==> parts[i] != "" && parts[i] != "."
    decreases |s|
  {
    var k := SlashAt(s);
    var first := if s[..k] == "" || s[..k] == "." then [] else [s[..k]];
    if k == |s| then first else first + Components(s[k + 1..])
  }

  /** `Path(text)`. */
  function ParsePath(text: string): Path {
    var root :=
      if !StartsWith(text, "/") then "" else if StartsWith(text, "//") && !StartsWith(text, "///") then "//" else "/";
    Path(root, Components(text))
  }

  // ---------------------------------------------------------------- lines

  function WordEnd(s: string): (k: nat)
    ensures k <= |s| && (k < |s| ==> IsSpace(s[k]))
    ensures forall i :: 0 <= i < k ==> !IsSpace(s[i])
    ensures k == 0 ==> s == "" || IsSpace(s[0])
  {
    if s == "" || IsSpace(s[0]) then 0 else 1 + WordEnd(s[1..])
  }

  /** `str.split()`. */
  function Words(s: string): seq<string>
    decreases |s|
  {
    var rest := LStrip(s);
    if rest == "" then [] else
    var k := WordEnd(rest);
    [rest[..k]] + Words(rest[k..])
  }

  /** `str.strip('"')`. */
  function StripQuotes(s: string): string
    decreases |s|
  {
    if s != "" && s[0] == '"' then StripQuotes(s[1..])
    else if s != "" && s[|s| - 1] == '"' then StripQuotes(s[..|s| - 1])
    else s
  }

  function StripDiffPath(raw: string): Path {
    var path := StripQuotes(Strip(raw));
    if path == "/dev/null" || path == "dev/null" then DEV_NULL
    else ParsePath(if StartsWith(path, "a/") || StartsWith(path, "b/") then path[2..] else path)
  }

  /** The old and new path of a `diff --git` line, if it names any file. */
  function GitDiffPaths(line: string): Option<(Path, Path)> {
    var words := Words(line);
    if |words| < 4 then None else
    var left, right := StripDiffPath(words[2]), StripDiffPath(words[3]);
    if left != DEV_NULL then Some((left, if right != DEV_NULL then right else left))
    else if right != DEV_NULL then Some((right, right))
    else None
  }

  datatype LegalError =
    | InvalidHeader(line: string)
    | UnsupportedMode(mode: string)
    | MissingFileHeaders
    | MissingHunk
    | EmptyPatch
    | NoFileHeaders
    | NoChangedFiles

  predicate IsOctal(s: string) {
    |s| == 6 && forall i :: 0 <= i < 6 ==> '0' <= s[i] <= '7'
  }

  /** What follows the prefix of a mode line, if that is a whole file mode. */
  function FileMode(line: string): Option<string> {
    var n := if StartsWith(line, "new file mode ") then 14 else if StartsWith(line, "deleted file mode ") then 18
             else if StartsWith(line, "old mode ") || StartsWith(line, "new mode ") then 9 else |line| + 1;
    if n <= |line| && IsOctal(line[n..]) then Some(line[n..]) else None
  }

  function ModeError(line: string): Option<LegalError> {
    var mode := FileMode(line);
    if mode.None? || mode.value in {"100644", "100755"} then None else Some(UnsupportedMode(mode.value))
  }

  /** What a line is to the machine. The path of a `---` or `+++` line is missing when nothing
      follows the marker; reading it then raises an `IndexError`. */
  datatype Item =
    | Header(line: string, paths: Option<(Path, Path)>)
    | OldFile(path: Option<Path>)
    | NewFile(path: Option<Path>)
    | Deletion(modeError: Option<LegalError>)
    | Metadata(modeError: Option<LegalError>)
    | Hunk
    | Added
    | Removed
    | Other

  function FileLinePath(line: string): Option<Path> {
    if |line| < 4 || LStrip(line[4..]) == "" then None else Some(StripDiffPath(LStrip(line[4..])))
  }

  function Classify(line: string): Item {
    if StartsWith(line, "diff --git ") then Header(line, GitDiffPaths(line))
    else if StartsWith(line, "--- ") && !StartsWith(line, "----") then OldFile(FileLinePath(line))
    else if StartsWith(line, "+++ ") && !StartsWith(line, "++++") then NewFile(FileLinePath(line))
    else if StartsWith(line, "deleted file mode ") then Deletion(ModeError(line))
    else if StartsWith(line, "new file mode ") || StartsWith(line, "old mode ") || StartsWith(line, "new mode ")
         || StartsWith(line, "rename from ") || StartsWith(line, "rename to ") then Metadata(ModeError(line))
    else if StartsWith(line, "@@ ") then Hunk
    else if StartsWith(line, "+") && !StartsWith(line, "+++") then Added
    else if StartsWith(line, "-") && !StartsWith(line, "---") then Removed
    else Other
  }

  // ---------------------------------------------------------------- what is collected

  function AddOnce(paths: seq<Path>, path: Path): seq<Path> {
    if path in paths then paths else paths + [path]
  }

  /** The paths of both lists in order, each once. */
  function Union(paths: seq<Path>, more: seq<Path>): seq<Path>
    decreases |more|
  {
    if more == [] then paths else AddOnce(Union(paths, more[..|more| - 1]), more[|more| - 1])
  }

  datatype Totals = Totals(changed: seq<Path>, deleted: seq<Path>, errors: seq<LegalError>,
                           added: nat, removed: nat, headers: nat)

  const NOTHING := Totals([], [], [], 0, 0, 0)

  /** Counts add up, errors follow one another, files are united. */
  function Plus(a: Totals, b: Totals): Totals {
    Totals(Union(a.changed, b.changed), Union(a.deleted, b.deleted), a.errors + b.errors,
           a.added + b.added, a.removed + b.removed, a.headers + b.headers)
  }

  datatype Section =
    Section(hasOldNew: bool, hasHunk: bool, metadataOnly: bool, oldPath: Option<Path>, newPath: Option<Path>)

  const FRESH := Section(false, false, false, None, None)

  /** What `finish_file` reports about a section that ends here. */
  function FinishErrors(s: Section): seq<LegalError> {
    if s.oldPath.None? && s.newPath.None? then []
    else if s.metadataOnly && !s.hasOldNew && !s.hasHunk then []
    else (if s.hasOldNew then [] else [MissingFileHeaders]) + (if s.hasHunk then [] else [MissingHunk])
  }

  datatype Machine = Machine(totals: Totals, section: Section)

  const START := Machine(NOTHING, FRESH)

  function Report(t: Totals, errors: seq<LegalError>): Totals {
    t.(errors := t.errors + errors)
  }

  function Errors(e: Option<LegalError>): seq<LegalError> {
    if e.Some? then [e.value] else []
  }

  /** One turn of the loop; the error is the line that raises. */
  function Step(m: Machine, line: string): Result<Machine, string> {
    var t, s := m.totals, m.section;
    match Classify(line)
    case Header(_, paths) =>
      var u := Report(t, FinishErrors(s)).(headers := t.headers + 1);
      if paths.None? then Ok(Machine(Report(u, [InvalidHeader(line)]), FRESH))
      else Ok(Machine(u.(changed := AddOnce(AddOnce(u.changed, paths.value.0), paths.value.1)),
                      FRESH.(oldPath := Some(paths.value.0), newPath := Some(paths.value.1))))
    case OldFile(path) =>
      if path.None? then Err(line) else Ok(Machine(t, s.(hasOldNew := true, oldPath := path)))
    case NewFile(path) =>
      if path.None? then Err(line) else
      Ok(Machine(
        if path.value == DEV_NULL && s.oldPath.Some? then t.(deleted := AddOnce(t.deleted, s.oldPath.value)) else t,
                 s.(hasOldNew := true, newPath := path)))
    case Deletion(e) =>
      var u := Report(t, Errors(e));
      Ok(Machine(
        if s.oldPath.Some? then u.(deleted := AddOnce(u.deleted, s.oldPath.value)) else u, s.(metadataOnly := true)))
    case Metadata(e) => Ok(Machine(Report(t, Errors(e)), s.(metadataOnly := true)))
    case Hunk => Ok(m.(section := s.(hasHunk := true)))
    case Added => Ok(m.(totals := t.(added := t.added + 1)))
    case Removed => Ok(m.(totals := t.(removed := t.removed + 1)))
    case Other => Ok(m)
  }

  function Run(lines: seq<string>): Result<Machine, string>
    decreases |lines|
  {
    if lines == [] then Ok(START) else
    var m :- Run(lines[..|lines| - 1]);
    Step(m, lines[|lines| - 1])
  }

  /** Everything collected from the lines, the last section finished too. */
  function Collect(lines: seq<string>): Result<Totals, string> {
    var m :- Run(lines);
    Ok(Report(m.totals, FinishErrors(m.section)))
  }

  // ---------------------------------------------------------------- verdicts

  /** `sensitive` says whether a file name matches the pattern for secrets. */
  datatype Policy = Policy(maxChangedLines: int, maxDeletedFiles: int, topLevel: set<string>, parts: set<string>,
                           names: set<string>, suffixes: set<string>, sensitive: set<string>)

  datatype ScopeError = Unsafe(path: Path) | TopLevel(path: Path) | ForbiddenParts(path: Path, parts: set<string>)
    | SensitiveFile(path: Path) | SensitiveSuffix(path: Path) | SensitiveName(path: Path)

  datatype SizeError = TooManyLines(n: nat) | TooManyDeletions(n: nat)

  function NameOf(path: Path): string {
    if path.parts == [] then "" else path.parts[|path.parts| - 1]
  }

  function LastDot(s: string): (k: int)
    ensures -1 <= k < |s| && (k >= 0 ==> s[k] == '.')
    ensures forall i :: k < i < |s| ==> s[i] != '.'
  {
    if s == "" then -1 else if s[|s| - 1] == '.' then |s| - 1 else LastDot(s[..|s| - 1])
  }

  /** `PurePath.suffix`: from the last dot on, unless that is the first or the last character. */
  function Suffix(path: Path): string {
    var name := NameOf(path); var k := LastDot(name);
    if 0 < k < |name| - 1 then name[k..] else ""
  }

  function ScopeErrors(policy: Policy, path: Path): seq<ScopeError> {
    if path.root != "" || ".." in path.parts then [Unsafe(path)] else
    var bad := set part | part in path.parts && part in policy.parts;
    (if path.parts != [] && path.parts[0] in policy.topLevel then [TopLevel(path)] else [])
    + (if bad != {} then [ForbiddenParts(path, bad)] else [])
    + (if NameOf(path) in policy.names || StartsWith(NameOf(path), ".env.") then [SensitiveFile(path)] else [])
    + (if Suffix(path) in policy.suffixes then [SensitiveSuffix(path)] else [])
    + (if NameOf(path) in policy.sensitive then [SensitiveName(path)] else [])
  }

  function AllScopeErrors(policy: Policy, paths: seq<Path>): seq<ScopeError>
    decreases |paths|
  {
    if paths == [] then [] else AllScopeErrors(policy, paths[..|paths| - 1]) + ScopeErrors(policy, paths[|paths| - 1])
  }

  datatype Stats = Stats(totals: Totals, legal: seq<LegalError>, scope: seq<ScopeError>, size: seq<SizeError>)

  /** The checks after the loop. */
  function Judge(policy: Policy, blank: bool, t: Totals): Stats {
    Stats(t,
      t.errors + (if blank then [EmptyPatch] else []) + (if t.headers == 0 then [NoFileHeaders] else [])
      + (if t.changed == [] then [NoChangedFiles] else []),
      AllScopeErrors(policy, t.changed),
      (if t.added + t.removed > policy.maxChangedLines then [TooManyLines(t.added + t.removed)] else [])
      + (if |t.deleted| > policy.maxDeletedFiles then [TooManyDeletions(|t.deleted|)] else []))
  }

  function Analyze(policy: Policy, text: string): Result<Stats, string> {
    var t :- Collect(SplitLines(text));
    Ok(Judge(policy, Strip(text) == "", t))
  }

  lemma RunOfNothing(lines: seq<string>)
    ensures Run(lines[..0]) == Ok(START)
  {
  }

  lemma RunOfOneMore(lines: seq<string>, n: nat)
    requires n < |lines| && Run(lines[..n]).Ok?
    ensures Run(lines[..n + 1]) == Step(Run(lines[..n]).value, lines[n])
  {
    hide Step;
    assert lines[..n + 1][..n] == lines[..n];
  }

  /** `analyze_unified_diff` with its local variables. */
  method AnalyzeUnifiedDiff(policy: Policy, text: string) returns (r: Result<Stats, string>)
    ensures r == Analyze(policy, text)
  {
    hide Run, FinishErrors, AddOnce, Errors, SplitLines, Classify, Judge, Strip;
    var changed: seq<Path>, deleted: seq<Path>, errors: seq<LegalError> := [], [], [];
    var added, removed, headers := 0, 0, 0;
    var hasOldNew, hasHunk, metadataOnly := false, false, false;
    var oldPath: Option<Path>, newPath: Option<Path> := None, None;
    var lines := SplitLines(text);
    RunOfNothing(lines);
    for n := 0 to |lines|
      invariant Run(lines[..n]) == Ok(Machine(Totals(changed, deleted, errors, added, removed, headers),
                                              Section(hasOldNew, hasHunk, metadataOnly, oldPath, newPath)))
    {
      RunOfOneMore(lines, n);
      var line := lines[n];
      match Classify(line) {
        case Header(_, paths) =>
          errors := errors + FinishErrors(Section(hasOldNew, hasHunk, metadataOnly, oldPath, newPath));
          headers := headers + 1;
          hasOldNew, hasHunk, metadataOnly, oldPath, newPath := false, false, false, None, None;
          if paths.None? {
            errors := errors + [InvalidHeader(line)];
          } else {
            changed := AddOnce(AddOnce(changed, paths.value.0), paths.value.1);
            oldPath, newPath := Some(paths.value.0), Some(paths.value.1);
          }
        case OldFile(path) =>
          hasOldNew := true;
          if path.None? {
            RaisesForGood(lines, n + 1);
            return Err(line);
          }
          oldPath := path;
        case NewFile(path) =>
          hasOldNew := true;
          if path.None? {
            RaisesForGood(lines, n + 1);
            return Err(line);
          }
          newPath := path;
          if newPath == Some(DEV_NULL) && oldPath.Some? {
            deleted := AddOnce(deleted, oldPath.value);
          }
        case Deletion(e) =>
          metadataOnly := true;
          errors := errors + Errors(e);
          if oldPath.Some? {
            deleted := AddOnce(deleted, oldPath.value);
          }
        case Metadata(e) =>
          metadataOnly := true;
          errors := errors + Errors(e);
        case Hunk => hasHunk := true;
        case Added => added := added + 1;
        case Removed => removed := removed + 1;
        case Other =>
      }
    }
    assert lines[..|lines|] == lines;
    errors := errors + FinishErrors(Section(hasOldNew, hasHunk, metadataOnly, oldPath, newPath));
    r := Ok(Judge(policy, Strip(text) == "", Totals(changed, deleted, errors, added, removed, headers)));
  }

  lemma {:induction false} RaisesForGood(lines: seq<string>, n: nat)
    requires n <= |lines| && Run(lines[..n]).Err?
    ensures Run(lines) == Run(lines[..n])
    decreases |lines|
  {
    hide Step;
    if n < |lines| {
      assert lines[..|lines| - 1][..n] == lines[..n];
      RaisesForGood(lines[..|lines| - 1], n);
    } else {
      assert lines[..n] == lines;
    }
  }
}
