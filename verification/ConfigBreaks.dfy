/** Strings with line breaks: the printer writes them over several lines, and no text it writes loads
    back to a string with a line break, which completes the round-trip condition. */
module ConfigBreaks {
  import opened Text
  import opened Config
  import opened ConfigRoundTrip
  import opened ConfigComments
  import opened ConfigScalars
  import opened ConfigDocs
  import opened ConfigText
  import opened ConfigLines

  // ---------------------------------------------------------------- quotes in parts of a line

  /** Every quote has a backslash before it or is at an end. */
  predicate QuotesInside(s: string) {
    forall i :: 0 < i < |s| - 1 && s[i] == '"' ==> s[i - 1] == '\\'
  }

  predicate Part(v: string, s: string) {
    exists i, j :: 0 <= i <= j <= |s| && v == s[i..j]
  }

  lemma PartAt(s: string, i: nat, j: nat)
    requires i <= j <= |s|
    ensures Part(s[i..j], s)
  {
  }

  lemma SliceOfSlice(s: string, i: nat, j: nat, k: nat, l: nat)
    requires i <= j <= |s| && k <= l <= j - i
    ensures s[i..j][k..l] == s[i + k..i + l]
  {
    var a, b := s[i..j][k..l], s[i + k..i + l];
    assert |a| == |b| && forall n :: 0 <= n < |a| ==> a[n] == b[n];
  }

  lemma PartOfPart(u: string, v: string, s: string)
    requires Part(u, v) && Part(v, s)
    ensures Part(u, s)
  {
    var i, j :| 0 <= i <= j <= |s| && v == s[i..j];
    var k, l :| 0 <= k <= l <= |v| && u == v[k..l];
    SliceOfSlice(s, i, j, k, l);
  }

  lemma StripIsPart(s: string)
    ensures Part(Strip(s), s)
  {
    hide LStrip, RStrip, IsSpace, Part;
    var r := RStrip(s);
    PartAt(s, 0, |r|);
    assert s[0..|r|] == r;
    var l := LStrip(r);
    PartAt(r, |r| - |l|, |r|);
    assert r[|r| - |l|..|r|] == l;
    PartOfPart(l, r, s);
  }

  lemma QuotesInPart(v: string, s: string)
    requires QuotesInside(s) && Part(v, s)
    ensures QuotesInside(v)
  {
    var i, j :| 0 <= i <= j <= |s| && v == s[i..j];
    forall k | 0 < k < |v| - 1 && v[k] == '"' ensures v[k - 1] == '\\' {
      assert s[i + k] == '"';
    }
  }

  lemma PartIsTame(x: string, s: string)
    requires QuotesInside(s) && Part(x, s)
    ensures TameValue(x)
  {
    hide Strip;
    StripIsPart(x);
    PartOfPart(Strip(x), x, s);
    QuotesInPart(Strip(x), s);
  }

  lemma QuotesInsideIsTame(raw: string)
    requires QuotesInside(raw)
    ensures Tame(raw)
  {
    hide Strip, StartsWith, ColonAt, QuotesInside, Part, TameValue;
    var line := Strip(raw);
    StripIsPart(raw);
    if StartsWith(line, "- ") {
      LongEnough(line);
      var item := Strip(line[2..]);
      PartAt(line, 2, |line|);
      assert line[2..|line|] == line[2..];
      PartOfPart(line[2..], line, raw);
      StripIsPart(line[2..]);
      PartOfPart(item, line[2..], raw);
      PartIsTame(item, raw);
      if ColonAt(item) < |item| { TailIsTame(item, ColonAt(item) + 1, raw); }
    } else if ColonAt(line) < |line| {
      TailIsTame(line, ColonAt(line) + 1, raw);
    }
  }

  lemma LongEnough(line: string)
    requires StartsWith(line, "- ")
    ensures |line| >= 2
  {
  }

  lemma TailIsTame(x: string, k: nat, s: string)
    requires QuotesInside(s) && Part(x, s) && k <= |x|
    ensures TameValue(x[k..])
  {
    hide QuotesInside, TameValue, Part;
    PartAt(x, k, |x|);
    assert x[k..|x|] == x[k..];
    PartOfPart(x[k..], x, s);
    PartIsTame(x[k..], s);
  }

  // ---------------------------------------------------------------- printed heads

  /** What the printer writes before a quoted scalar. */
  datatype Head = KeyHead(d: nat, key: string) | DashHead(d: nat) | DashKeyHead(d: nat, key: string)

  function HeadText(h: Head): string {
    match h
    case KeyHead(d, key) => Indented(d, KeyLine(key, Spaced("")))
    case DashHead(d) => Indented(d, DashLine(""))
    case DashKeyHead(d, key) => Indented(d, DashLine(KeyLine(key, Spaced(""))))
  }

  predicate PlainHeadOk(h: Head) {
    h.DashHead? || PlainKey(h.key)
  }

  /** The line behind the indentation, with `t` after the head. */
  function Body(h: Head, t: string): string {
    match h
    case KeyHead(_, key) => KeyLine(key, Spaced(t))
    case DashHead(_) => DashLine(t)
    case DashKeyHead(_, key) => DashLine(KeyLine(key, Spaced(t)))
  }

  lemma HeadAppend(h: Head, t: string)
    ensures HeadText(h) + t == Indented(h.d, Body(h, t))
  {
    hide Indented, KeyLine, DashLine, Spaced;
    match h
    case KeyHead(d, key) => KeyHeadAppend(d, key, t);
    case DashHead(d) => DashAppend(d, t);
    case DashKeyHead(d, key) => DashKeyHeadAppend(d, key, t);
  }

  lemma KeyHeadAppend(d: nat, key: string, t: string)
    ensures Indented(d, KeyLine(key, Spaced(""))) + t == Indented(d, KeyLine(key, Spaced(t)))
  {
    KeyLineTail(key, t);
    hide KeyLine, Spaced;
    Assoc(Spaces(d), KeyLine(key, Spaced("")), t);
  }

  lemma DashAppendTo(x: string, t: string)
    ensures DashLine(x) + t == DashLine(x + t)
  {
    Assoc("- ", x, t);
  }

  lemma DashKeyHeadAppend(d: nat, key: string, t: string)
    ensures Indented(d, DashLine(KeyLine(key, Spaced("")))) + t == Indented(d, DashLine(KeyLine(key, Spaced(t))))
  {
    hide KeyLine, Spaced, DashLine;
    KeyLineTail(key, t);
    DashAppendTo(KeyLine(key, Spaced("")), t);
    Assoc(Spaces(d), DashLine(KeyLine(key, Spaced(""))), t);
  }

  lemma QuoteFirstIsTame(v: string)
    requires v != "" && v[0] == '"' && !IsSpace(v[|v| - 1])
    ensures TameValue(v) && TameValue(Spaced(v)) && Strip(v) == v && Trimmed(v)
  {
    SpaceFacts();
    hide IsSpace, Strip, HasBareQuote;
    StripOne(v);
  }

  /** A line that has a quote right behind a printed head. */
  lemma HeadThenQuoteIsTame(h: Head, v: string)
    requires PlainHeadOk(h) && v != "" && v[0] == '"' && !IsSpace(v[|v| - 1])
    ensures Tame(HeadText(h) + v)
  {
    hide IsSpace, Strip, LStrip, LeadingSpaces, StartsWith, ColonAt, HeadText, TameValue, Indented, KeyLine,
         DashLine, Spaced, PlainKey, Trimmed;
    QuoteFirstIsTame(v);
    HeadAppend(h, v);
    match h
    case KeyHead(d, key) =>
      SpacedEnd(v);
      KeyLineShape(key, Spaced(v));
      IndentedLine(d, KeyLine(key, Spaced(v)));
      KeyLineSplits(key, Spaced(v));
    case DashHead(d) =>
      DashLineShape(v);
      IndentedLine(d, DashLine(v));
    case DashKeyHead(d, key) =>
      SpacedEnd(v);
      KeyLineShape(key, Spaced(v));
      KeyLineSplits(key, Spaced(v));
      DashLineShape(KeyLine(key, Spaced(v)));
      IndentedLine(d, DashLine(KeyLine(key, Spaced(v))));
  }

  // ---------------------------------------------------------------- physical lines

  /** A line of a printed text: all its quotes escaped or at an end, or one behind a printed head. */
  ghost predicate Lawful(p: string) {
    QuotesInside(p) || exists h: Head, r: string :: PlainHeadOk(h) && p == HeadText(h) + ("\"" + r)
  }

  predicate QuoteFree(s: string) {
    forall i :: 0 <= i < |s| ==> s[i] != '"'
  }

  lemma HeadIsQuoteFree(h: Head)
    requires PlainHeadOk(h)
    ensures QuoteFree(HeadText(h)) && SingleLine(HeadText(h))
  {
    PlainHeadIsSingleLine(h);
    hide IsSpace, IsLineBreak;
  }

  lemma PlainHeadIsSingleLine(h: Head)
    requires PlainHeadOk(h)
    ensures SingleLine(HeadText(h))
  {
    hide IsLineBreak, IsSpace;
    BreaksAreSpaces();
    assert !IsLineBreak(' ') && !IsLineBreak(':') && !IsLineBreak('-') by { NoBreakLetters(); }
  }

  lemma BreaksAreSpaces()
    ensures forall c :: IsLineBreak(c) ==> IsSpace(c)
  {
  }

  lemma NoBreakLetters()
    ensures !IsLineBreak(' ') && !IsLineBreak(':') && !IsLineBreak('-') && !IsLineBreak('"') && !IsSpace('"')
  {
  }

  /** What stripping a comment and the blanks before it leaves of a line with a quote in the middle:
      either nothing from the quote on, or the quote and something solid. */
  lemma StrippedAtQuote(a: string, r: string)
    ensures var q := StripComment(a + ("\"" + r));
      || Part(q, a)
      || exists v :: v != "" && v[0] == '"' && !IsSpace(v[|v| - 1]) && q == a + v
  {
    hide IsSpace, CommentAt, Part;
    var p := a + ("\"" + r);
    var c := CommentAt(p, 0, OUTSIDE);
    var cut := p[..c];
    var q := RStrip(cut);
    assert q == cut[..|q|] == p[..|q|];
    if |q| <= |a| {
      assert p[..|q|] == a[0..|q|];
      PartAt(a, 0, |q|);
    } else {
      var v := p[|a|..|q|];
      assert q == a + v;
      assert v[0] == '"' && v[|v| - 1] == q[|q| - 1];
    }
  }

  lemma LawfulIsTame(p: string)
    requires Lawful(p)
    ensures Tame(StripComment(p))
  {
    hide StripComment, QuotesInside, Tame, HeadText, IsSpace, Part, QuoteFree, PlainHeadOk;
    if QuotesInside(p) {
      StripCommentIsPart(p);
      QuotesInPart(StripComment(p), p);
      QuotesInsideIsTame(StripComment(p));
    } else {
      var h: Head, r: string :| PlainHeadOk(h) && p == HeadText(h) + ("\"" + r);
      StrippedAtQuote(HeadText(h), r);
      var q := StripComment(p);
      if Part(q, HeadText(h)) {
        HeadIsQuoteFree(h);
        QuoteFreeIsInside(HeadText(h));
        QuotesInPart(q, HeadText(h));
        QuotesInsideIsTame(q);
      } else {
        var v :| v != "" && v[0] == '"' && !IsSpace(v[|v| - 1]) && q == HeadText(h) + v;
        HeadThenQuoteIsTame(h, v);
      }
    }
  }

  lemma QuoteFreeIsInside(s: string)
    requires QuoteFree(s)
    ensures QuotesInside(s)
  {
  }

  lemma StripCommentIsPart(p: string)
    ensures Part(StripComment(p), p)
  {
    hide CommentAt, Part, IsSpace;
    var cut := p[..CommentAt(p, 0, OUTSIDE)];
    var q := RStrip(cut);
    assert q == cut[..|q|] == p[0..|q|];
    PartAt(p, 0, |q|);
  }

  // ---------------------------------------------------------------- splitting printed lines

  lemma {:induction false} SplitIntoParts(s: string)
    ensures forall k :: 0 <= k < |SplitLines(s)| ==> Part(SplitLines(s)[k], s)
    decreases |s|
  {
    hide Part, SingleLine, IsLineBreak;
    if s != "" {
      var k := LineEnd(s);
      PartAt(s, 0, k);
      assert s[0..k] == s[..k];
      if k < |s| {
        var next := if s[k] == '\r' && k + 1 < |s| && s[k + 1] == '\n' then k + 2 else k + 1;
        SplitIntoParts(s[next..]);
        PartAt(s, next, |s|);
        assert s[next..|s|] == s[next..];
        forall j | 0 <= j < |SplitLines(s[next..])| ensures Part(SplitLines(s[next..])[j], s) {
          PartOfPart(SplitLines(s[next..])[j], s[next..], s);
        }
      } else {
        assert s[..k] == s;
      }
    }
  }

  /** Where the line after the first one starts. */
  function NextLine(s: string): (n: nat)
    requires LineEnd(s) < |s|
    ensures LineEnd(s) < n <= |s|
  {
    var k := LineEnd(s);
    if s[k] == '\r' && k + 1 < |s| && s[k + 1] == '\n' then k + 2 else k + 1
  }

  lemma SplitStep(s: string)
    requires LineEnd(s) < |s|
    ensures SplitLines(s) == [s[..LineEnd(s)]] + SplitLines(s[NextLine(s)..])
  {
    hide LineEnd, IsLineBreak, SingleLine;
  }

  lemma OneLine(s: string)
    requires s != "" && LineEnd(s) == |s|
    ensures SplitLines(s) == [s]
  {
    hide LineEnd, IsLineBreak, SingleLine;
  }

  lemma CutBefore(a: string, t: string, n: nat)
    requires n <= |a|
    ensures (a + t)[n..] == a[n..] + t && (a + t)[..n] == a[..n]
  {
  }

  lemma SameNextLine(a: string, t: string)
    requires LineEnd(a) < |a| - 1 && LineEnd(a + t) == LineEnd(a) && a[|a| - 1] != '\n'
    ensures NextLine(a + t) == NextLine(a) < |a|
  {
    hide LineEnd, IsLineBreak, SingleLine;
    var k := LineEnd(a);
    assert (a + t)[k] == a[k] && (a + t)[k + 1] == a[k + 1];
  }

  /** A break inside `a` is found at the same place when more lines follow. */
  lemma SameBreak(a: string, b: string)
    requires a != "" && !IsLineBreak(a[|a| - 1]) && LineEnd(a) < |a|
    ensures var s := a + "\n" + b;
      && LineEnd(s) == LineEnd(a) < |s| && NextLine(s) == NextLine(a) < |a|
      && s[..LineEnd(a)] == a[..LineEnd(a)] && s[NextLine(a)..] == a[NextLine(a)..] + "\n" + b
  {
    hide LineEnd, SingleLine, IsLineBreak, NextLine;
    BreakNewline();
    Assoc(a, "\n", b);
    LineEndBefore(a, "\n" + b);
    SameNextLine(a, "\n" + b);
    CutBefore(a, "\n" + b, NextLine(a));
    CutBefore(a, "\n" + b, LineEnd(a));
    Assoc(a[NextLine(a)..], "\n", b);
  }

  /** A line that does not end in a break splits by itself, whatever lines follow it. */
  lemma {:induction false} SplitAppended(a: string, b: string)
    requires a != "" && !IsLineBreak(a[|a| - 1])
    ensures SplitLines(a + "\n" + b) == SplitLines(a) + SplitLines(b)
    decreases |a|
  {
    hide IsLineBreak, SingleLine, SplitLines, LineEnd, NextLine;
    if LineEnd(a) == |a| {
      assert a[..|a|] == a;
      SplitFirstLine(a, b);
      OneLine(a);
    } else {
      SameBreak(a, b);
      var k, rest := LineEnd(a), a[NextLine(a)..];
      SplitStep(a + "\n" + b);
      SplitStep(a);
      assert rest[|rest| - 1] == a[|a| - 1];
      SplitAppended(rest, b);
      assert [a[..k]] + (SplitLines(rest) + SplitLines(b)) == ([a[..k]] + SplitLines(rest)) + SplitLines(b);
    }
  }

  lemma BreakNewline()
    ensures IsLineBreak('\n')
  {
  }

  lemma {:induction false} LineEndBefore(a: string, t: string)
    ensures LineEnd(a) < |a| ==> LineEnd(a + t) == LineEnd(a)
    decreases |a|
  {
    hide IsLineBreak, SingleLine;
    if a != "" && !IsLineBreak(a[0]) {
      assert (a + t)[0] == a[0] && (a + t)[1..] == a[1..] + t;
      LineEndBefore(a[1..], t);
    } else if a != "" {
      assert (a + t)[0] == a[0];
    }
  }

  lemma {:induction false} LineEndBehind(a: string, t: string)
    requires SingleLine(a)
    ensures LineEnd(a + t) == |a| + LineEnd(t)
    decreases |a|
  {
    if a == "" {
      assert a + t == t;
    } else {
      assert (a + t)[0] == a[0] && (a + t)[1..] == a[1..] + t;
      hide IsLineBreak;
      LineEndBehind(a[1..], t);
    }
  }

  // ---------------------------------------------------------------- everything printed is lawful

  /** A printed line that splits, by itself, into lawful lines. */
  ghost predicate LawfulLine(line: string) {
    line != "" && !IsLineBreak(line[|line| - 1]) &&
    forall k :: 0 <= k < |SplitLines(line)| ==> Lawful(SplitLines(line)[k])
  }

  ghost predicate AllLawful(lines: seq<string>) {
    forall k :: 0 <= k < |lines| ==> LawfulLine(lines[k])
  }

  lemma QuietLineIsLawful(line: string)
    requires Quiet(line) && line != ""
    ensures LawfulLine(line)
  {
    QuietIsSingleLine(line);
    SingleLineSplits(line);
    hide IsLineBreak, SplitLines, HeadText;
    QuietIsInside(line);
  }

  lemma QuietIsInside(line: string)
    requires Quiet(line)
    ensures QuotesInside(line)
  {
    hide IsLineBreak;
  }

  lemma SingleLineSplits(line: string)
    requires SingleLine(line) && line != ""
    ensures SplitLines(line) == [line]
  {
    hide SplitLines;
    LineEndBehind(line, "");
    assert line + "" == line;
    OneLine(line);
  }

  lemma {:induction false} EscapeQuotes(x: string)
    ensures QuotesInside(Escape(x) + "\"")
    ensures forall i :: 0 <= i < |Escape(x)| && Escape(x)[i] == '"' ==> i > 0 && Escape(x)[i - 1] == '\\'
    decreases |x|
  {
    if x != "" {
      EscapeQuotes(x[1..]);
    }
  }

  /** A quoted scalar behind a head: the first line has the head and the opening quote, the others are
      parts of the escaped text and the closing quote. */
  lemma QuotedIsLawful(h: Head, x: string)
    requires PlainHeadOk(h)
    ensures LawfulLine(HeadText(h) + Quoted(x))
  {
    hide HeadText, SplitLines, LineEnd, Escape, QuotesInside, IsLineBreak, QuoteFree, PlainHeadOk, NextLine;
    var a, tail := HeadText(h), Escape(x) + "\"";
    HeadIsQuoteFree(h);
    EscapeQuotes(x);
    NoBreakLetters();
    var line := a + Quoted(x);
    Assoc("\"", Escape(x), "\"");
    assert Quoted(x) == "\"" + tail;
    assert line[|line| - 1] == '"';
    QuoteIsSingleLine(a);
    LineEndBehind(a + "\"", tail);
    Assoc(a, "\"", tail);
    var e := LineEnd(tail);
    assert line == a + "\"" + tail;
    assert line[..|a| + 1 + e] == a + ("\"" + tail[..e]);
    assert Lawful(a + ("\"" + tail[..e]));
    if e == |tail| {
      OneLine(line);
      assert line[..|line|] == line;
    } else {
      SplitStep(line);
      var rest := line[NextLine(line)..];
      var n := NextLine(line) - |a| - 1;
      assert rest == tail[n..|tail|];
      PartAt(tail, n, |tail|);
      PartsAreLawful(rest, tail);
    }
  }

  lemma QuoteIsSingleLine(a: string)
    requires SingleLine(a)
    ensures SingleLine(a + "\"")
  {
    NoBreakLetters();
    hide IsLineBreak;
  }

  lemma PartsAreLawful(rest: string, tail: string)
    requires QuotesInside(tail) && Part(rest, tail)
    ensures forall k :: 0 <= k < |SplitLines(rest)| ==> Lawful(SplitLines(rest)[k])
  {
    hide SplitLines, QuotesInside, Part, HeadText;
    SplitIntoParts(rest);
    forall k | 0 <= k < |SplitLines(rest)| ensures Lawful(SplitLines(rest)[k]) {
      PartOfPart(SplitLines(rest)[k], rest, tail);
      QuotesInPart(SplitLines(rest)[k], tail);
    }
  }

  lemma QuietHead(h: Head)
    requires PlainHeadOk(h)
    ensures Quiet(HeadText(h))
  {
    hide Quiet, PlainKey, KeyLine, Spaced, DashLine;
    QuietIndent(h.d);
    match h
    case KeyHead(d, key) => PlainHead(d, key);
    case DashHead(d) =>
    case DashKeyHead(d, key) =>
      PlainHead(d, key);
      QuietConcat(Indented(d, DashLine("")), KeyLine(key, Spaced("")));
      DashAppend(d, KeyLine(key, Spaced("")));
  }

  lemma WordIsLawful(a: string, t: string)
    requires Quiet(a) && Word(t)
    ensures LawfulLine(a + t)
  {
    hide Quiet, LawfulLine;
    WordIsQuiet(t);
    QuietConcat(a, t);
    QuietLineIsLawful(a + t);
  }

  lemma ScalarIsLawful(h: Head, v: Value, env: Env)
    requires PlainHeadOk(h)
    ensures LawfulLine(HeadText(h) + DumpScalar(v, env))
  {
    hide HeadText, LawfulLine, Quiet, IntText, Word, Escape, PlainHeadOk;
    QuietHead(h);
    match v
    case Int(n) =>
      IntTextIsWord(n);
      WordIsLawful(HeadText(h), IntText(n));
    case Bool(b) =>
      BoolWord(b);
      WordIsLawful(HeadText(h), if b then "true" else "false");
    case Null =>
      EscapeNothing();
      QuotedIsLawful(h, "");
      assert Quoted("") == "\"\"";
    case _ =>
      QuotedIsLawful(h, TextOf(v, env));
  }

  lemma BoolWord(b: bool)
    ensures Word(if b then "true" else "false") && Word("{}")
  {
  }

  lemma LawfulConcat(a: seq<string>, b: seq<string>)
    requires AllLawful(a) && AllLawful(b)
    ensures AllLawful(a + b)
  {
    hide LawfulLine;
  }

  /** `key:` alone and `key: []`. */
  lemma HeadIsLawful(d: nat, key: string)
    requires PlainKey(key)
    ensures LawfulLine(Indented(d, KeyLine(key, ""))) && LawfulLine(Indented(d, KeyLine(key, Spaced("[]"))))
  {
    hide LawfulLine, Quiet, PlainKey, KeyLine, Indented, Spaced, Word, IsSpace;
    PlainHead(d, key);
    KeyLineLast(d, key);
    QuietLineIsLawful(Indented(d, KeyLine(key, "")));
    EmptyListWord();
    WordIsLawful(Indented(d, KeyLine(key, "")), Spaced("[]"));
    KeyLineAppend(d, key, "", Spaced("[]"));
    assert "" + Spaced("[]") == Spaced("[]");
  }

  lemma BracesAreLawful(d: nat)
    ensures LawfulLine(Indented(d, DashLine("{}")))
  {
    hide LawfulLine, Quiet, Indented, DashLine, Word;
    QuietIndent(d);
    BoolWord(true);
    DashAppend(d, "{}");
    WordIsLawful(Indented(d, DashLine("")), "{}");
  }

  lemma {:induction false} EntriesAreLawful(es: seq<Pair>, d: nat, inItem: bool, env: Env)
    requires PlainKeyEntries(es)
    ensures AllLawful(DumpEntries(es, d, inItem, env))
    decreases es
  {
    hide LawfulLine, PlainKey, DumpEntry;
    if es != [] {
      EntryIsLawful(es[0], d, inItem, env);
      EntriesAreLawful(es[1..], d, inItem, env);
      LawfulConcat(DumpEntry(es[0], d, inItem, env), DumpEntries(es[1..], d, inItem, env));
    }
  }

  lemma {:induction false} EntryIsLawful(e: Pair, d: nat, inItem: bool, env: Env)
    requires PlainKey(e.key) && PlainKeys(e.value)
    ensures AllLawful(DumpEntry(e, d, inItem, env))
    decreases e
  {
    hide LawfulLine, PlainKey, DumpScalar, DumpEntries, DumpItems, KeyLine, Indented, Spaced, HeadText;
    var head := Indented(d, KeyLine(e.key, ""));
    HeadIsLawful(d, e.key);
    if e.value.Map? {
      EntriesAreLawful(e.value.entries, d + 2, false, env);
      LawfulConcat([head], DumpEntries(e.value.entries, d + 2, false, env));
    } else if e.value.List? {
      ItemsAreLawful(e.value.items, d + 2, env);
      LawfulConcat([head], DumpItems(e.value.items, d + 2, env));
    } else {
      ScalarIsLawful(KeyHead(d, e.key), e.value, env);
      HeadAppend(KeyHead(d, e.key), DumpScalar(e.value, env));
    }
  }

  lemma {:induction false} ItemsAreLawful(items: seq<Value>, d: nat, env: Env)
    requires PlainKeys(List(items))
    ensures AllLawful(DumpItems(items, d, env))
    decreases items
  {
    hide LawfulLine, DumpItem;
    if items != [] {
      assert PlainKeys(items[0]) && PlainKeys(List(items[1..]));
      ItemIsLawful(items[0], d, env);
      ItemsAreLawful(items[1..], d, env);
      LawfulConcat(DumpItem(items[0], d, env), DumpItems(items[1..], d, env));
    }
  }

  lemma {:induction false} ItemIsLawful(v: Value, d: nat, env: Env)
    requires PlainKeys(v)
    ensures AllLawful(DumpItem(v, d, env))
    decreases v
  {
    hide LawfulLine, PlainKey, DumpScalar, DumpEntries, DashLine, KeyLine, Indented, Spaced, HeadText;
    if !v.Map? {
      ScalarIsLawful(DashHead(d), v, env);
      HeadAppend(DashHead(d), DumpScalar(v, env));
    } else if v.entries == [] {
      BracesAreLawful(d);
    } else {
      var es := v.entries;
      ScalarIsLawful(DashKeyHead(d, es[0].key), es[0].value, env);
      HeadAppend(DashKeyHead(d, es[0].key), DumpScalar(es[0].value, env));
      EntriesAreLawful(es[1..], d + 2, true, env);
      LawfulConcat([Indented(d, DashLine(KeyLine(es[0].key, Spaced(DumpScalar(es[0].value, env)))))],
                   DumpEntries(es[1..], d + 2, true, env));
    }
  }

  // ---------------------------------------------------------------- the round trip, for every string

  lemma {:induction false} JoinedIsLawful(lines: seq<string>)
    requires AllLawful(lines)
    ensures forall k :: 0 <= k < |SplitLines(JoinLines(lines))| ==> Lawful(SplitLines(JoinLines(lines))[k])
    decreases |lines|
  {
    hide SplitLines, Lawful;
    if lines == [] {
      BlankIsLawful();
    } else {
      var rest := if |lines| == 1 then "" else JoinLines(lines[1..]);
      SplitAppended(lines[0], rest);
      if |lines| == 1 {
        NothingSplits();
        assert lines[0] + "\n" + "" == JoinLines(lines);
      } else {
        JoinedIsLawful(lines[1..]);
        assert lines[0] + "\n" + rest == JoinLines(lines);
      }
    }
  }

  lemma NothingSplits()
    ensures SplitLines("") == []
  {
  }

  lemma BlankIsLawful()
    ensures forall k :: 0 <= k < |SplitLines("\n")| ==> Lawful(SplitLines("\n")[k])
  {
    SplitFirstLine("", "");
    NothingSplits();
    hide SplitLines, HeadText;
    assert "" + "\n" + "" == "\n";
    assert [""] + [] == [""];
  }

  lemma {:induction false} EntriesAreTame(lines: seq<string>)
    requires forall k :: 0 <= k < |lines| ==> Lawful(lines[k])
    ensures forall k :: 0 <= k < |Entries(lines)| ==> Tame(Entries(lines)[k])
    decreases |lines|
  {
    hide Lawful, Tame, StripComment, Strip;
    if lines != [] {
      LawfulIsTame(lines[0]);
      EntriesAreTame(lines[1..]);
    }
  }

  /** Whatever strings a configuration with plain keys holds, what its printed text loads to has no
      line break in any string. */
  lemma PrintedLoadsWithoutBreaks(es: seq<Pair>, env: Env)
    requires PlainKeyEntries(es) && BreaksNeedQuotes(env)
    ensures Load(Dump(es, env), env).Ok? ==> NoBreaks(Load(Dump(es, env), env).value)
  {
    hide Load, SplitLines, JoinLines, Lawful, Tame, BreaksNeedQuotes, DumpEntries, Entries, LawfulLine, PlainKeyEntries;
    var lines := DumpEntries(es, 0, false, env);
    EntriesAreLawful(es, 0, false, env);
    JoinedIsLawful(lines);
    EntriesAreTame(SplitLines(JoinLines(lines)));
    LoadedHasNoBreaks(Dump(es, env), env);
  }

  /** For every configuration with plain keys, whatever its strings: the round trip holds exactly
      when the printer can express the shape and no string has a quote, a backslash or a line break. */
  lemma RoundTripExactly(es: seq<Pair>, env: Env)
    requires PlainKeys(Map(es)) && ReprOnOneLine(env) && BreaksNeedQuotes(env)
    ensures Load(Dump(es, env), env) == Ok(Map(es)) <==> DumpableEntries(es, false) && NoBreaks(Map(es))
  {
    hide NoBreaks, OneLiners, Load, Dump, DumpableEntries, ReprOnOneLine, BreaksNeedQuotes, PlainKeyEntries;
    OneLinersSplit(Map(es));
    if NoBreaks(Map(es)) {
      RoundTripIffDumpable(es, env);
    } else {
      PrintedLoadsWithoutBreaks(es, env);
    }
  }
}
