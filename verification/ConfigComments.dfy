/** Lines that pass the line splitter and the comment scanner unchanged, also with comments added. */
module ConfigComments {
  import opened Text
  import opened Config
  import opened ConfigRoundTrip

  // ---------------------------------------------------------------- lines through the comment scanner

  /** Nothing the comment scanner or the line splitter reacts to. */
  predicate Quiet(s: string) {
    forall i :: 0 <= i < |s| ==> s[i] !in {'#', '\'', '"'} && !IsLineBreak(s[i])
  }

  /** Scanning `line` cuts nothing and ends outside any quotes, whatever comes after it. */
  ghost predicate Closed(line: string) {
    forall tail: string :: CommentAt(line + tail, 0, OUTSIDE) == CommentAt(line + tail, |line|, OUTSIDE)
  }

  /** A line that splitting, comment stripping and the blank-line filter keep as it is, even with
      a comment after it. */
  ghost predicate Survives(line: string) {
    SingleLine(line) && line != "" && !IsSpace(line[|line| - 1]) && Closed(line)
  }

  lemma {:induction false} ScanQuiet(line: string, i: nat, j: nat)
    requires i <= j <= |line| && Quiet(line[i..j])
    ensures CommentAt(line, i, OUTSIDE) == CommentAt(line, j, OUTSIDE)
    decreases j - i
  {
    if i < j {
      assert line[i..j][0] == line[i];
      assert line[i + 1..j] == line[i..j][1..];
      ScanQuiet(line, i + 1, j);
    }
  }

  /** Inside double quotes an escaped text leaves the scanner inside, whatever it holds. */
  lemma {:induction false} ScanEscaped(line: string, i: nat, s: string)
    requires i + |Escape(s)| <= |line| && line[i..i + |Escape(s)|] == Escape(s)
    ensures CommentAt(line, i, INSIDE) == CommentAt(line, i + |Escape(s)|, INSIDE)
    decreases |s|
  {
    if s != "" {
      var w := if s[0] == '\\' || s[0] == '"' then 2 else 1;
      var e := line[i..i + |Escape(s)|];
      assert e[0] == line[i] && Escape(s)[w..] == Escape(s[1..]);
      assert w == 2 ==> e[1] == line[i + 1];
      assert line[i + w..i + |Escape(s)|] == e[w..];
      ScanEscaped(line, i + w, s[1..]);
    }
  }

  lemma EndsSolid(line: string)
    requires line != "" && !IsSpace(line[|line| - 1])
    ensures RStrip(line) == line && Strip(line) != ""
  {
    hide IsSpace;
    var r := LStrip(line);
    assert r == line[|line| - |r|..];
  }

  lemma CommentAtEnd(line: string)
    ensures CommentAt(line, |line|, OUTSIDE) == |line|
  {
  }

  lemma SurvivorBare(line: string)
    requires Survives(line)
    ensures StripComment(line) == line && Strip(line) != ""
  {
    hide IsSpace, CommentAt, RStrip, Strip, SingleLine;
    EndsSolid(line);
    CommentAtEnd(line);
    assert line + "" == line && line[..|line|] == line;
  }

  lemma SurvivorCommented(line: string, comment: string)
    requires Survives(line)
    ensures StripComment(line + (" #" + comment)) == line
  {
    hide IsSpace, CommentAt, RStrip, SingleLine;
    var whole := line + (" #" + comment);
    EndsSolidThenBlank(line);
    CommentAfter(whole, |line|);
    assert whole[..|line| + 1] == line + " ";
  }

  /** A surviving line is all that is left of it, bare or with a comment appended. */
  lemma SurvivorStrips(line: string, comment: string)
    requires Survives(line)
    ensures StripComment(line) == line && StripComment(line + " #" + comment) == line && Strip(line) != ""
  {
    hide StripComment, Strip, Survives;
    SurvivorBare(line);
    SurvivorCommented(line, comment);
    Assoc(line, " #", comment);
  }

  lemma EndsSolidThenBlank(line: string)
    requires line != "" && !IsSpace(line[|line| - 1])
    ensures RStrip(line + " ") == line
  {
    EndsSolid(line);
    assert IsSpace(' ');
    hide IsSpace;
    assert (line + " ")[..|line|] == line;
  }

  lemma CommentAfter(line: string, k: nat)
    requires k + 1 < |line| && line[k] == ' ' && line[k + 1] == '#'
    ensures CommentAt(line, k, OUTSIDE) == k + 1
  {
    assert IsSpace(' ');
    hide IsSpace;
    assert !StartsComment(line, k, OUTSIDE) && StartsComment(line, k + 1, OUTSIDE);
  }

  lemma QuietSurvives(a: string)
    requires Quiet(a) && a != "" && !IsSpace(a[|a| - 1])
    ensures Survives(a)
  {
    QuietIsSingleLine(a);
    hide IsSpace, IsLineBreak, SingleLine, Quiet;
    forall tail: string ensures CommentAt(a + tail, 0, OUTSIDE) == CommentAt(a + tail, |a|, OUTSIDE) {
      assert (a + tail)[0..|a|] == a;
      ScanQuiet(a + tail, 0, |a|);
    }
  }

  lemma QuietIsSingleLine(a: string)
    requires Quiet(a)
    ensures SingleLine(a)
  {
    hide IsLineBreak;
  }

  lemma {:induction false} EscapeSingleLine(s: string)
    requires SingleLine(s)
    ensures SingleLine(Escape(s))
  {
    if s != "" { EscapeSingleLine(s[1..]); }
  }

  lemma ScanQuoted(line: string, i: nat, body: string)
    requires i + |Escape(body)| + 2 <= |line| && line[i] == '"'
    requires line[i + 1..i + 1 + |Escape(body)|] == Escape(body) && line[i + 1 + |Escape(body)|] == '"'
    ensures CommentAt(line, i, OUTSIDE) == CommentAt(line, i + |Escape(body)| + 2, OUTSIDE)
  {
    ScanEscaped(line, i + 1, body);
    hide Escape;
    assert ScanChar(OUTSIDE, '"') == INSIDE && ScanChar(INSIDE, '"') == OUTSIDE;
  }

  function Quoted(body: string): string {
    "\"" + Escape(body) + "\""
  }

  lemma QuotedCloses(a: string, body: string)
    requires Quiet(a)
    ensures Closed(a + Quoted(body))
  {
    hide IsLineBreak, Escape, Quiet, CommentAt;
    var line, e := a + Quoted(body), |Escape(body)|;
    forall tail: string ensures CommentAt(line + tail, 0, OUTSIDE) == CommentAt(line + tail, |line|, OUTSIDE) {
      var whole := line + tail;
      assert whole[0..|a|] == a && whole[|a|] == '"';
      assert whole[|a| + 1..|a| + 1 + e] == Escape(body) && whole[|a| + 1 + e] == '"';
      ScanQuiet(whole, 0, |a|);
      ScanQuoted(whole, |a|, body);
    }
  }

  lemma QuotedIsSingleLine(a: string, body: string)
    requires Quiet(a) && SingleLine(Escape(body))
    ensures SingleLine(a + Quoted(body))
  {
    assert !IsLineBreak('"');
    hide IsLineBreak, Escape;
  }

  lemma QuotedSurvives(a: string, body: string)
    requires Quiet(a) && SingleLine(body)
    ensures Survives(a + Quoted(body))
  {
    SpaceFacts();
    EscapeSingleLine(body);
    QuotedIsSingleLine(a, body);
    QuotedCloses(a, body);
    hide SingleLine, IsSpace, Closed, Escape, Quiet;
    var line := a + Quoted(body);
    assert line[|line| - 1] == '"';
  }

  predicate Word(t: string) {
    t != "" && forall i ::
      0 <= i < |t| ==> t[i] in {'-', ':', ' ', '[', ']', '{', '}'} || IsDigit(t[i]) || 'a' <= t[i] <= 'z'
  }

  lemma WordIsQuiet(t: string)
    requires Word(t)
    ensures Quiet(t) && (t[|t| - 1] != ' ' ==> !IsSpace(t[|t| - 1]))
  {
  }

  lemma QuietConcat(a: string, b: string)
    requires Quiet(a) && Quiet(b)
    ensures Quiet(a + b)
  {
    hide IsLineBreak;
  }

  lemma WordSurvives(a: string, t: string)
    requires Quiet(a) && Word(t) && t[|t| - 1] != ' '
    ensures Survives(a + t)
  {
    WordIsQuiet(t);
    QuietConcat(a, t);
    hide IsSpace, Quiet, Survives;
    assert (a + t)[|a + t| - 1] == t[|t| - 1];
    QuietSurvives(a + t);
  }

  lemma IntTextIsWord(n: int)
    ensures Word(IntText(n)) && IntText(n)[|IntText(n)| - 1] != ' '
  {
    assert forall i :: 0 <= i < |IntText(n)| ==> IntText(n)[i] == '-' || IsDigit(IntText(n)[i]);
  }

  lemma QuietKeyLine(key: string, rest: string)
    requires PlainKey(key) && Quiet(rest)
    ensures Quiet(KeyLine(key, rest))
  {
    assert forall c | IsLineBreak(c) :: IsSpace(c);
    assert !IsLineBreak(':');
    hide IsSpace, IsLineBreak;
  }

  lemma QuietIndent(d: nat)
    ensures Quiet(Spaces(d)) && Quiet(Spaced("")) && Quiet("") && Quiet(Indented(d, DashLine("")))
  {
    assert !IsLineBreak(' ') && !IsLineBreak('-');
    hide IsLineBreak;
  }

  ghost predicate AllSurvive(lines: seq<string>) {
    forall k :: 0 <= k < |lines| ==> Survives(lines[k])
  }

  lemma Concat(a: seq<string>, b: seq<string>)
    requires AllSurvive(a) && AllSurvive(b)
    ensures AllSurvive(a + b)
  {
    hide Survives;
  }

  lemma One(line: string)
    requires Survives(line)
    ensures AllSurvive([line])
  {
    hide Survives;
  }

  lemma Assoc(a: string, b: string, c: string)
    ensures a + b + c == a + (b + c)
  {
  }

  /** `text` is `lines` with comments: whole comment lines and blank lines anywhere, and comments
      after a blank at the end of any line. */
  predicate Commented(lines: seq<string>, text: seq<string>) {
    if text == [] then lines == []
    else if Strip(StripComment(text[0])) == "" then Commented(lines, text[1..])
    else
      && lines != [] && Commented(lines[1..], text[1..])
      && (text[0] == lines[0] || StartsWith(text[0], lines[0] + " #"))
  }

  lemma {:induction false} EntriesOfCommented(lines: seq<string>, text: seq<string>)
    requires AllSurvive(lines) && Commented(lines, text)
    ensures Entries(text) == lines
    decreases |text|
  {
    hide StripComment, Strip, Survives;
    if text != [] {
      if Strip(StripComment(text[0])) == "" {
        EntriesOfCommented(lines, text[1..]);
      } else {
        var k := |lines[0] + " #"|;
        var comment := if text[0] == lines[0] then "" else text[0][k..];
        SurvivorStrips(lines[0], comment);
        assert text[0] != lines[0] ==> text[0] == lines[0] + " #" + comment;
        EntriesOfCommented(lines[1..], text[1..]);
      }
    }
  }

  lemma {:induction false} UncommentedIsCommented(lines: seq<string>)
    requires AllSurvive(lines)
    ensures Commented(lines, lines)
  {
    hide StripComment, Strip, Survives;
    if lines != [] {
      SurvivorStrips(lines[0], "");
      UncommentedIsCommented(lines[1..]);
    }
  }

  /** A text of surviving lines, with any comments, has those lines as its entries. */
  lemma EntriesOfText(lines: seq<string>, text: seq<string>)
    requires AllSurvive(lines) && Commented(lines, text) && forall k :: 0 <= k < |text| ==> SingleLine(text[k])
    ensures Entries(SplitLines(JoinLines(text))) == lines
  {
    hide SplitLines, JoinLines, AllSurvive, Entries, SingleLine, Commented;
    EntriesOfCommented(lines, text);
    SplitOfJoin(text);
    BlankEntry();
    NoLines();
  }

  lemma SurvivorsAreSingleLines(lines: seq<string>)
    requires AllSurvive(lines)
    ensures forall k :: 0 <= k < |lines| ==> SingleLine(lines[k])
  {
  }

  lemma BlankEntry()
    ensures Entries([""]) == []
  {
    assert StripComment("") == "" && Strip("") == "";
    assert [""][1..] == [];
  }

  lemma NoLines()
    ensures Entries([]) == []
  {
  }
}
