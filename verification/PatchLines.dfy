/** What the lines of a patch are and what they count for, read off their text. */
module PatchLines {
  import opened Text
  import opened PatchAnalysis

  // ---------------------------------------------------------------- kinds of lines

  lemma StartsWithIs(s: string, prefix: string)
    ensures StartsWith(s, prefix) <==> prefix <= s
  {
  }

  predicate IsHeader(line: string) { "diff --git " <= line }

  predicate IsOldFile(line: string) { "--- " <= line }

  predicate IsNewFile(line: string) { "+++ " <= line }

  predicate IsDeletion(line: string) { "deleted file mode " <= line }

  predicate IsMetadata(line: string) {
    || "new file mode " <= line || "old mode " <= line || "new mode " <= line
    || "rename from " <= line || "rename to " <= line
  }

  predicate IsHunk(line: string) { "@@ " <= line }

  predicate IsAddition(line: string) { "+" <= line && !("+++" <= line) }

  predicate IsRemoval(line: string) { "-" <= line && !("---" <= line) }

  /** The kind of a line is told by how it begins. */
  lemma LineMeans(line: string)
    ensures Classify(line).Header? <==> IsHeader(line)
    ensures Classify(line).OldFile? <==> IsOldFile(line)
    ensures Classify(line).NewFile? <==> IsNewFile(line)
    ensures Classify(line).Deletion? <==> IsDeletion(line)
    ensures Classify(line).Metadata? <==> IsMetadata(line)
    ensures Classify(line).Hunk? <==> IsHunk(line)
    ensures Classify(line).Added? <==> IsAddition(line)
    ensures Classify(line).Removed? <==> IsRemoval(line)
  {
    FirstLetters(line);
    StartsWithIs(line, "diff --git ");
    StartsWithIs(line, "--- ");
    StartsWithIs(line, "----");
    StartsWithIs(line, "+++ ");
    StartsWithIs(line, "++++");
    StartsWithIs(line, "deleted file mode ");
    StartsWithIs(line, "new file mode ");
    StartsWithIs(line, "old mode ");
    StartsWithIs(line, "new mode ");
    StartsWithIs(line, "rename from ");
    StartsWithIs(line, "rename to ");
    StartsWithIs(line, "@@ ");
    StartsWithIs(line, "+");
    StartsWithIs(line, "+++");
    StartsWithIs(line, "-");
    StartsWithIs(line, "---");
    hide StartsWith, GitDiffPaths, FileLinePath, ModeError;
  }

  /** What a line of each kind carries. */
  lemma LineCarries(line: string)
    ensures IsHeader(line) ==> Classify(line) == Header(line, GitDiffPaths(line))
    ensures IsOldFile(line) ==> Classify(line) == OldFile(FileLinePath(line))
    ensures IsNewFile(line) ==> Classify(line) == NewFile(FileLinePath(line))
    ensures IsDeletion(line) ==> Classify(line) == Deletion(ModeError(line))
    ensures IsMetadata(line) ==> Classify(line) == Metadata(ModeError(line))
  {
    LineMeans(line);
    hide StartsWith, GitDiffPaths, FileLinePath, ModeError, IsHeader, IsOldFile, IsNewFile, IsDeletion, IsMetadata;
  }

  /** No line begins in two of these ways. */
  lemma FirstLetters(line: string)
    ensures IsHeader(line) || IsDeletion(line) ==> |line| > 1 && line[0] == 'd'
    ensures IsHeader(line) ==> line[1] == 'i'
    ensures IsDeletion(line) ==> line[1] == 'e'
    ensures IsOldFile(line) ==> |line| > 3 && line[0] == '-' && line[3] == ' ' && "---" <= line
    ensures IsNewFile(line) ==> |line| > 3 && line[0] == '+' && line[3] == ' ' && "+++" <= line
    ensures "----" <= line ==> |line| > 3 && line[3] == '-'
    ensures "++++" <= line ==> |line| > 3 && line[3] == '+'
    ensures IsMetadata(line) ==> line != "" && line[0] in {'n', 'o', 'r'}
    ensures IsHunk(line) ==> line != "" && line[0] == '@'
    ensures "+" <= line ==> line != "" && line[0] == '+'
    ensures "-" <= line ==> line != "" && line[0] == '-'
  {
  }

  // ---------------------------------------------------------------- counts

  /** Where the lines of kind `p` are. */
  ghost function LinesWith(lines: seq<string>, p: string -> bool): set<nat> {
    set k: nat | k < |lines| && p(lines[k])
  }

  ghost function Additions(lines: seq<string>): set<nat> { LinesWith(lines, IsAddition) }

  ghost function Removals(lines: seq<string>): set<nat> { LinesWith(lines, IsRemoval) }

  ghost function Headers(lines: seq<string>): set<nat> { LinesWith(lines, IsHeader) }

  lemma OneMoreLine(lines: seq<string>, p: string -> bool)
    requires lines != []
    ensures var before, last := lines[..|lines| - 1], lines[|lines| - 1];
      |LinesWith(lines, p)| == |LinesWith(before, p)| + if p(last) then 1 else 0
  {
    var n := |lines| - 1;
    var before, last := LinesWith(lines[..n], p), lines[n];
    if p(last) {
      assert LinesWith(lines, p) == before + {n};
    } else {
      assert LinesWith(lines, p) == before;
    }
  }

  lemma NoLines(p: string -> bool)
    ensures LinesWith([], p) == {}
  {
  }

  lemma StepCounts(m: Machine, line: string)
    requires Step(m, line).Ok?
    ensures var t := Step(m, line).value.totals;
      && t.added == m.totals.added + (if IsAddition(line) then 1 else 0)
      && t.removed == m.totals.removed + (if IsRemoval(line) then 1 else 0)
      && t.headers == m.totals.headers + (if IsHeader(line) then 1 else 0)
  {
    hide Classify, FinishErrors, Errors, AddOnce, IsAddition, IsRemoval, IsHeader;
    LineMeans(line);
  }

  lemma {:induction false} RunCounts(lines: seq<string>)
    requires Run(lines).Ok?
    ensures var t := Run(lines).value.totals;
      t.added == |Additions(lines)| && t.removed == |Removals(lines)| && t.headers == |Headers(lines)|
    decreases |lines|
  {
    hide Step, LinesWith, IsAddition, IsRemoval, IsHeader;
    if lines == [] {
      NoLines(IsAddition);
      NoLines(IsRemoval);
      NoLines(IsHeader);
    } else {
      RunCounts(lines[..|lines| - 1]);
      OneMoreLine(lines, IsAddition);
      OneMoreLine(lines, IsRemoval);
      OneMoreLine(lines, IsHeader);
      StepCounts(Run(lines[..|lines| - 1]).value, lines[|lines| - 1]);
    }
  }

  /** Added lines are those that begin with one or two `+`, removed lines those that begin with one or
      two `-`, files those that begin with `diff --git`: each is counted, and nothing else. */
  lemma CountsMean(lines: seq<string>)
    requires Collect(lines).Ok?
    ensures var t := Collect(lines).value;
      t.added == |Additions(lines)| && t.removed == |Removals(lines)| && t.headers == |Headers(lines)|
  {
    hide Run, Additions, Removals, Headers, FinishErrors;
    RunCounts(lines);
  }

  // ---------------------------------------------------------------- modes

  /** A mode line is in error iff what follows is six octal digits other than 100644 and 100755. */
  lemma ModeMeans(prefix: string, mode: string)
    requires prefix in {"new file mode ", "deleted file mode ", "old mode ", "new mode "}
    ensures ModeError(prefix + mode) ==
            if |mode| == 6 && (forall c :: c in mode ==> c in "01234567") && mode !in {"100644", "100755"}
            then Some(UnsupportedMode(mode)) else None
  {
    OctalMeans(mode);
    var line := prefix + mode;
    StartsWithIs(line, "new file mode ");
    StartsWithIs(line, "deleted file mode ");
    StartsWithIs(line, "old mode ");
    StartsWithIs(line, "new mode ");
    hide StartsWith, IsOctal;
    assert line[|prefix|..] == mode && prefix <= line;
    assert line[0] == prefix[0] && line[4] == prefix[4];
  }

  lemma OctalMeans(mode: string)
    ensures IsOctal(mode) <==> |mode| == 6 && forall c :: c in mode ==> c in "01234567"
  {
    assert forall c :: c in "01234567" <==> '0' <= c <= '7';
    if IsOctal(mode) {
      forall c | c in mode ensures '0' <= c <= '7' {}
    } else if |mode| == 6 {
      var i :| 0 <= i < 6 && !('0' <= mode[i] <= '7');
      assert mode[i] in mode;
    }
  }

  lemma RenameHasNoMode(line: string)
    requires "rename from " <= line || "rename to " <= line
    ensures ModeError(line) == None
  {
    assert line[0] == 'r';
  }

  // ---------------------------------------------------------------- paths

  predicate Quotes(s: string) {
    forall i :: 0 <= i < |s| ==> s[i] == '"'
  }

  /** All quotes around a text are taken off. */
  lemma {:induction false} StripQuotesIs(before: string, s: string, after: string)
    requires Quotes(before) && Quotes(after) && s != "" && s[0] != '"' && s[|s| - 1] != '"'
    ensures StripQuotes(before + s + after) == s
    decreases |before| + |after|
  {
    var whole := before + s + after;
    if before != "" {
      assert whole[0] == '"' && whole[1..] == before[1..] + s + after;
      StripQuotesIs(before[1..], s, after);
    } else if after != "" {
      var n := |after| - 1;
      assert whole[0] == s[0] && whole[|whole| - 1] == after[n] && whole[..|whole| - 1] == before + s + after[..n];
      StripQuotesIs(before, s, after[..n]);
    } else {
      assert whole == s;
    }
  }

  /** The two names of a `diff --git` line, its third and fourth word; the name of no file gives way to the
      other. */
  lemma HeaderPathsMean(line: string)
    ensures var words, paths := Words(line), GitDiffPaths(line);
      if |words| < 4 then paths == None
      else
        var left, right := StripDiffPath(words[2]), StripDiffPath(words[3]);
        && (left == DEV_NULL && right == DEV_NULL ==> paths == None)
        && (left == DEV_NULL && right != DEV_NULL ==> paths == Some((right, right)))
        && (left != DEV_NULL && right == DEV_NULL ==> paths == Some((left, left)))
        && (left != DEV_NULL && right != DEV_NULL ==> paths == Some((left, right)))
  {
    hide Words, StripDiffPath;
  }

  /** Both ways to write it name no file, quoted or not; what has no `a/` or `b/` in front is the path. */
  lemma BarePath(before: string, s: string, after: string)
    requires Quotes(before) && Quotes(after) && s != "" && s[0] != '"' && s[|s| - 1] != '"'
    requires Trimmed(s) && !(|s| >= 2 && s[0] in {'a', 'b'} && s[1] == '/')
    ensures StripDiffPath(before + s + after) == if s in {"/dev/null", "dev/null"} then DEV_NULL else ParsePath(s)
  {
    hide StripQuotes, ParsePath, Trimmed, Strip;
    QuotedIsTrimmed(before, s, after);
    StripQuotesIs(before, s, after);
    NoPrefix(s);
  }

  lemma QuotedIsTrimmed(before: string, s: string, after: string)
    requires Quotes(before) && Quotes(after) && s != "" && Trimmed(s)
    ensures Strip(before + s + after) == before + s + after
  {
    var whole := before + s + after;
    assert !IsSpace('"');
    hide IsSpace;
    assert whole[0] == if before != "" then before[0] else s[0];
    assert whole[|whole| - 1] == if after != "" then after[|after| - 1] else s[|s| - 1];
    StripKeeps(whole);
  }

  lemma NoPrefix(s: string)
    requires !(|s| >= 2 && s[0] in {'a', 'b'} && s[1] == '/')
    ensures !StartsWith(s, "a/") && !StartsWith(s, "b/")
  {
    StartsWithIs(s, "a/");
    StartsWithIs(s, "b/");
  }

  /** A component as it stands between slashes. */
  predicate Component(part: string) {
    part !in {"", "."} && '/' !in part
  }

  function Joined(parts: seq<string>): string {
    if parts == [] then "" else if |parts| == 1 then parts[0] else parts[0] + ("/" + Joined(parts[1..]))
  }

  lemma {:induction false} SlashAfter(part: string, rest: string)
    requires '/' !in part
    ensures SlashAt(part + ("/" + rest)) == |part| && SlashAt(part) == |part|
  {
    if part == "" {
      assert ("" + ("/" + rest))[0] == '/';
    } else {
      assert (part + ("/" + rest))[0] == part[0] && (part + ("/" + rest))[1..] == part[1..] + ("/" + rest);
      SlashAfter(part[1..], rest);
    }
  }

  lemma FirstComponent(part: string, rest: string)
    requires Component(part)
    ensures Components(part + ("/" + rest)) == [part] + Components(rest)
  {
    SlashAfter(part, rest);
    var s, k := part + ("/" + rest), |part|;
    hide SlashAt;
    assert s[..k] == part && s[k + 1..] == rest;
  }

  lemma OneComponent(part: string)
    requires Component(part)
    ensures Components(part) == [part]
  {
    SlashAfter(part, "");
    hide SlashAt;
    assert part[..|part|] == part;
  }

  lemma {:induction false} ComponentsReadBack(parts: seq<string>)
    requires parts != [] && forall i :: 0 <= i < |parts| ==> Component(parts[i])
    ensures Components(Joined(parts)) == parts
    decreases |parts|
  {
    hide Components, Component;
    if |parts| == 1 {
      OneComponent(parts[0]);
    } else {
      FirstComponent(parts[0], Joined(parts[1..]));
      ComponentsReadBack(parts[1..]);
    }
  }

  /** A relative path is its components, an absolute one its components below the root; two slashes, but not
      three, are a root of their own. */
  lemma PathReadsBack(parts: seq<string>)
    requires parts != [] && forall i :: 0 <= i < |parts| ==> Component(parts[i])
    ensures ParsePath(Joined(parts)) == Path("", parts)
    ensures ParsePath("/" + Joined(parts)) == Path("/", parts)
    ensures ParsePath("//" + Joined(parts)) == Path("//", parts)
    ensures ParsePath("///" + Joined(parts)) == Path("/", parts)
  {
    hide Joined, ParsePath, Component;
    ComponentsReadBack(parts);
    JoinedStarts(parts);
    RootedPaths(Joined(parts));
  }

  lemma JoinedStarts(parts: seq<string>)
    requires parts != [] && Component(parts[0])
    ensures Joined(parts) != "" && Joined(parts)[0] != '/'
  {
    assert Joined(parts)[0] == parts[0][0];
  }

  lemma RootedPaths(s: string)
    requires s != "" && s[0] != '/'
    ensures ParsePath(s) == Path("", Components(s)) && ParsePath("/" + s) == Path("/", Components(s))
    ensures ParsePath("//" + s) == Path("//", Components(s)) && ParsePath("///" + s) == Path("/", Components(s))
  {
    RootOf(s);
    hide Components, StartsWith;
    assert "//" + s == "/" + ("/" + s) && "///" + s == "/" + ("//" + s);
    EmptyComponent(s);
    EmptyComponent("/" + s);
    EmptyComponent("//" + s);
  }

  lemma RootOf(s: string)
    requires s != "" && s[0] != '/'
    ensures !StartsWith(s, "/")
    ensures StartsWith("/" + s, "/") && !StartsWith("/" + s, "//")
    ensures StartsWith("//" + s, "/") && StartsWith("//" + s, "//") && !StartsWith("//" + s, "///")
    ensures StartsWith("///" + s, "/") && StartsWith("///" + s, "//") && StartsWith("///" + s, "///")
  {
    assert ("/" + s)[1] == s[0] && ("//" + s)[2] == s[0];
  }

  lemma EmptyComponent(s: string)
    ensures Components("/" + s) == Components(s)
  {
    var r := "/" + s;
    assert SlashAt(r) == 0 && r[..0] == "" && r[1..] == s;
    hide SlashAt;
  }

  /** The name is the last component, and the suffix what follows its last dot, dot included, unless that
      dot begins or ends the name. */
  lemma SuffixMeans(root: string, parts: seq<string>, stem: string, ext: string)
    requires '.' !in ext
    ensures var path := Path(root, parts + [stem + ("." + ext)]);
      && NameOf(path) == stem + ("." + ext)
      && Suffix(path) == if stem == "" || ext == "" then "" else "." + ext
    ensures Suffix(Path(root, parts + [ext])) == "" && NameOf(Path(root, [])) == ""
  {
    var name := stem + ("." + ext);
    assert name[|stem|] == '.' && name[|stem|..] == "." + ext;
    forall i | |stem| < i < |name| ensures name[i] != '.' { assert name[i] == ext[i - |stem| - 1]; }
    assert LastDot(name) == |stem|;
    assert LastDot(ext) == -1;
  }
}
