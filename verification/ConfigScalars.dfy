/** What a scalar of a configuration text stands for, read off its characters. */
module ConfigScalars {
  import opened Text
  import opened Config
  import opened ConfigRoundTrip
  import opened ConfigComments

  // ---------------------------------------------------------------- integer literals

  predicate Signed(t: string) { t != "" && t[0] in {'-', '+'} }

  function Unsigned(t: string): string { if Signed(t) then t[1..] else t }

  /** Digits, with single underscores between them. */
  predicate Digits(t: string) {
    && t != "" && t[0] != '_' && t[|t| - 1] != '_'
    && (forall i :: 0 <= i < |t| ==> IsDigit(t[i]) || t[i] == '_')
    && (forall i :: 0 < i < |t| ==> t[i] != '_' || t[i - 1] != '_')
  }

  predicate IntLiteral(t: string) { Digits(Unsigned(t)) }

  /** The number spelled by the digits of `t`, continuing one that began with `so`. */
  function Number(t: string, so: nat): nat {
    if t == "" then so
    else Number(t[1..], if IsDigit(t[0]) then 10 * so + (t[0] as int - '0' as int) else so)
  }

  function IntValue(t: string): int {
    var n: int := Number(Unsigned(t), 0);
    if t != "" && t[0] == '-' then -n else n
  }

  lemma {:induction false} NumberOfOneMore(t: string, c: char, so: nat)
    ensures Number(t + [c], so) == Number([c], Number(t, so))
    decreases |t|
  {
    if t == "" {
      assert t + [c] == [c];
    } else {
      assert (t + [c])[0] == t[0] && (t + [c])[1..] == t[1..] + [c];
      NumberOfOneMore(t[1..], c, if IsDigit(t[0]) then 10 * so + (t[0] as int - '0' as int) else so);
    }
  }

  lemma OneDigit(c: char, so: nat)
    ensures Number([c], so) == if IsDigit(c) then 10 * so + (c as int - '0' as int) else so
  {
    assert [c][1..] == "";
  }

  lemma DigitsInFront(t: string)
    requires |t| > 1 && IsDigit(t[|t| - 1])
    ensures var front := t[..|t| - if t[|t| - 2] == '_' then 2 else 1]; Digits(t) <==> Digits(front)
  {
    var n := |t|;
    var front := t[..n - if t[n - 2] == '_' then 2 else 1];
    if Digits(front) {
      forall i | 0 < i < n ensures t[i] != '_' || t[i - 1] != '_' {
        if i < |front| { assert front[i] != '_' || front[i - 1] != '_'; }
      }
      forall i | 0 <= i < n ensures IsDigit(t[i]) || t[i] == '_' {
        if i < |front| { assert IsDigit(front[i]) || front[i] == '_'; }
      }
    }
  }

  lemma {:induction false} ParseNatMeans(t: string)
    ensures ParseNat(t) == if Digits(t) then Some(Number(t, 0)) else None
    decreases |t|
  {
    if t != "" && IsDigit(t[|t| - 1]) {
      var n := |t|;
      OneDigit(t[n - 1], 0);
      if n > 1 {
        var front := t[..n - if t[n - 2] == '_' then 2 else 1];
        DigitsInFront(t);
        ParseNatMeans(front);
        assert t == t[..n - 1] + [t[n - 1]];
        NumberOfOneMore(t[..n - 1], t[n - 1], 0);
        OneDigit(t[n - 1], Number(t[..n - 1], 0));
        if t[n - 2] == '_' {
          assert t[..n - 1] == front + ['_'];
          NumberOfOneMore(front, '_', 0);
          OneDigit('_', Number(front, 0));
        }
      } else {
        assert t == [t[0]];
      }
    }
  }

  /** `int(text)` takes the integer literals and nothing else, and gives the number they spell. */
  lemma ParseIntMeans(t: string)
    ensures ParseInt(t) == if IntLiteral(t) then Some(IntValue(t)) else None
  {
    hide ParseNat, Digits, Number;
    ParseNatMeans(t);
    ParseNatMeans(Unsigned(t));
    if Signed(t) { ParseNatMeans(t[1..]); }
  }

  // ---------------------------------------------------------------- every text

  predicate SpellsTrue(t: string) {
    |t| == 4 && t[0] in {'t', 'T'} && t[1] in {'r', 'R'} && t[2] in {'u', 'U'} && t[3] in {'e', 'E'}
  }

  predicate SpellsFalse(t: string) {
    && |t| == 5 && t[0] in {'f', 'F'} && t[1] in {'a', 'A'} && t[2] in {'l', 'L'} && t[3] in {'s', 'S'}
    && t[4] in {'e', 'E'}
  }

  predicate InQuotes(t: string) {
    t != "" && t[0] in {'"', '\''} && t[|t| - 1] == t[0]
  }

  predicate InBrackets(t: string) {
    t != "" && t[0] == '[' && t[|t| - 1] == ']'
  }

  predicate Blank(t: string) {
    forall i :: 0 <= i < |t| ==> IsSpace(t[i])
  }

  /** What a text that is neither quoted, nor a list, nor a block marker stands for. */
  function WordValue(t: string): Value {
    if SpellsTrue(t) then Bool(true)
    else if SpellsFalse(t) then Bool(false)
    else if IntLiteral(t) then Int(IntValue(t))
    else Str(t)
  }

  lemma LowerMeans(t: string)
    ensures Lower(t) == "true" <==> SpellsTrue(t)
    ensures Lower(t) == "false" <==> SpellsFalse(t)
  {
    var l := Lower(t);
    forall i | 0 <= i < |t| ensures l[i] == LowerChar(t[i]) {}
    assert SpellsTrue(t) ==> l == "true";
    assert SpellsFalse(t) ==> l == "false";
    assert l == "true" ==> l[0] == 't' && l[1] == 'r' && l[2] == 'u' && l[3] == 'e';
    assert l == "false" ==> l[0] == 'f' && l[1] == 'a' && l[2] == 'l' && l[3] == 's' && l[4] == 'e';
  }

  lemma {:induction false} RStripIs(t: string, after: string)
    requires Blank(after) && (t != "" ==> !IsSpace(t[|t| - 1]))
    ensures RStrip(t + after) == t
    decreases |after|
  {
    hide IsSpace;
    if after == "" {
      assert t + after == t;
    } else {
      var s, n := t + after, |after| - 1;
      assert s[|s| - 1] == after[n] && s[..|s| - 1] == t + after[..n];
      RStripIs(t, after[..n]);
    }
  }

  lemma {:induction false} LStripIs(before: string, t: string)
    requires Blank(before) && (t != "" ==> !IsSpace(t[0]))
    ensures LStrip(before + t) == t
    decreases |before|
  {
    hide IsSpace;
    if before == "" {
      assert before + t == t;
    } else {
      assert (before + t)[0] == before[0] && (before + t)[1..] == before[1..] + t;
      LStripIs(before[1..], t);
    }
  }

  /** `str.strip` takes the blanks around a trimmed text off, and nothing else. */
  lemma StripIs(before: string, t: string, after: string)
    requires Blank(before) && Trimmed(t) && Blank(after)
    ensures Strip(before + t + after) == t
  {
    hide IsSpace, RStrip, LStrip;
    if t == "" {
      assert before + t + after == "" + (before + after);
      RStripIs("", before + after);
      LStripIs("", "");
      assert "" + "" == "";
    } else {
      assert (before + t)[|before + t| - 1] == t[|t| - 1];
      RStripIs(before + t, after);
      LStripIs(before, t);
    }
  }

  /** A word: neither quoted, nor a list, nor a block marker. */
  predicate IsWord(t: string, env: Env) {
    t !in {"", "|", ">", "[]"} && !InQuotes(t) && (InBrackets(t) ==> env.inlineList(t).None?)
  }

  lemma WordReads(x: string, env: Env)
    requires IsWord(Strip(x), env)
    ensures ParseScalar(x, env) == Ok(WordValue(Strip(x)))
  {
    var t := Strip(x);
    LowerMeans(t);
    ParseIntMeans(t);
    hide Strip, Lower, ParseInt, SpellsTrue, SpellsFalse, IntLiteral, IntValue;
    assert !Wrapped(t, '"', '"') && !Wrapped(t, '\'', '\'');
  }

  lemma QuotedReads(x: string, env: Env)
    requires InQuotes(Strip(x))
    ensures ParseScalar(x, env) == Ok(Str(if |Strip(x)| == 1 then "" else Strip(x)[1..|Strip(x)| - 1]))
  {
    hide Strip, Lower, ParseInt;
    var t := Strip(x);
    assert Wrapped(t, t[0], t[0]);
  }

  lemma ListReads(x: string, env: Env)
    requires Strip(x) == "[]" || (InBrackets(Strip(x)) && env.inlineList(Strip(x)).Some?)
    ensures ParseScalar(x, env) == Ok(List(if Strip(x) == "[]" then [] else env.inlineList(Strip(x)).value))
  {
    hide Strip, Lower, ParseInt;
  }

  lemma MarkerReads(x: string, env: Env)
    requires Strip(x) in {"", "|", ">"}
    ensures ParseScalar(x, env) == if Strip(x) == "" then Ok(Map([])) else Err(MultilineScalar)
  {
    hide Strip, Lower, ParseInt;
  }

  /** What a scalar text reads as, by its shape alone: every text falls under exactly one clause. */
  lemma ScalarReads(before: string, t: string, after: string, env: Env)
    requires Blank(before) && Trimmed(t) && Blank(after)
    ensures var r := ParseScalar(before + t + after, env);
      && (t == "" ==> r == Ok(Map([])))
      && (t in {"|", ">"} ==> r == Err(MultilineScalar))
      && (t == "[]" ==> r == Ok(List([])))
      && (forall items :: t != "[]" && InBrackets(t) && env.inlineList(t) == Some(items) ==> r == Ok(List(items)))
      && (forall q, s :: q in {'"', '\''} && t == [q] + s + [q] ==> r == Ok(Str(s)))
      && (t in {"\"", "'"} ==> r == Ok(Str("")))
      && (IsWord(t, env) ==> r == Ok(WordValue(t)))
  {
    hide Strip, ParseScalar, WordValue, Trimmed, Blank;
    var x := before + t + after;
    StripIs(before, t, after);
    if IsWord(t, env) {
      WordReads(x, env);
    } else if InQuotes(t) {
      QuotedReads(x, env);
      forall q, s | q in {'"', '\''} && t == [q] + s + [q] ensures ParseScalar(x, env) == Ok(Str(s)) {
        assert t[1..|t| - 1] == s;
      }
    } else if t in {"", "|", ">"} {
      MarkerReads(x, env);
    } else {
      ListReads(x, env);
    }
  }

  // ---------------------------------------------------------------- texts in a file

  /** A word as people write it: trimmed, without quotes, `#` and line breaks, and no list. */
  predicate Bare(t: string) {
    t !in {"", "|", ">"} && Trimmed(t) && Quiet(t) && t[0] != '['
  }

  /** The one-line texts `t` that stand for `v` whatever the rest of the file is: a word, an empty list,
      or a string in quotes, in double quotes with quotes and backslashes escaped. */
  ghost predicate Means(t: string, v: Value) {
    || (Bare(t) && v == WordValue(t))
    || (t == "[]" && v == List([]))
    || (v.Str? && t == "\"" + v.s + "\"" && exists body :: SingleLine(body) && Escape(body) == v.s)
    || (v.Str? && t == "'" + v.s + "'" && '\'' !in v.s && SingleLine(v.s))
  }

  lemma QuotedShape(q: char, s: string)
    requires q in {'"', '\''}
    ensures var t := [q] + s + [q]; t != "" && Trimmed(t) && t[0] == q && InQuotes(t)
  {
  }

  lemma MeansTrimmed(t: string, v: Value)
    requires Means(t, v)
    ensures t != "" && Trimmed(t)
  {
    hide IsSpace, WordValue, Quiet, SingleLine, Escape, Trimmed;
    assert Trimmed("[]") by { WordShape(); }
    if v.Str? {
      QuotedShape('"', v.s);
      QuotedShape('\'', v.s);
    }
  }

  /** A text reads as what it means, bare or behind a blank. */
  lemma MeansReads(t: string, v: Value, env: Env)
    requires Means(t, v)
    ensures ParseScalar(t, env) == Ok(v) && ParseScalar(Spaced(t), env) == Ok(v)
  {
    MeansTrimmed(t, v);
    StripOne(t);
    hide Strip, Means, ParseScalar, Trimmed;
    MeansReadsAt(t, t, v, env);
    MeansReadsAt(Spaced(t), t, v, env);
  }

  lemma MeansReadsAt(x: string, t: string, v: Value, env: Env)
    requires Means(t, v) && Strip(x) == t
    ensures ParseScalar(x, env) == Ok(v)
  {
    hide Strip, IsSpace, ParseScalar, WordValue, Quiet, SingleLine, Escape, Trimmed;
    if Bare(t) && v == WordValue(t) {
      BareIsWord(t, env);
      WordReads(x, env);
    } else if t == "[]" && v == List([]) {
      ListReads(x, env);
    } else {
      QuotedReads(x, env);
      assert t[1..|t| - 1] == v.s;
    }
  }

  lemma BareIsWord(t: string, env: Env)
    requires Bare(t)
    ensures IsWord(t, env)
  {
    hide IsSpace;
    assert t[0] !in {'#', '\'', '"'};
  }

  const INSINGLE := Quotes(true, false, false)

  lemma {:induction false} ScanSingle(line: string, i: nat, j: nat)
    requires i <= j <= |line| && forall k :: i <= k < j ==> line[k] != '\''
    ensures CommentAt(line, i, INSINGLE) == CommentAt(line, j, INSINGLE)
    decreases j - i
  {
    if i < j {
      assert ScanChar(INSINGLE, line[i]) == INSINGLE;
      ScanSingle(line, i + 1, j);
    }
  }

  lemma SingleQuotedCloses(a: string, s: string)
    requires Quiet(a) && '\'' !in s
    ensures Closed(a + ("'" + s + "'"))
  {
    hide IsLineBreak, IsSpace, CommentAt, Quiet;
    var line := a + ("'" + s + "'");
    var n := |a|;
    forall tail: string ensures CommentAt(line + tail, 0, OUTSIDE) == CommentAt(line + tail, |line|, OUTSIDE) {
      var whole := line + tail;
      assert whole[0..n] == a && whole[n] == '\'' && whole[n + 1 + |s|] == '\'';
      forall k | n + 1 <= k < n + 1 + |s| ensures whole[k] != '\'' { assert whole[k] == s[k - n - 1]; }
      ScanQuiet(whole, 0, n);
      OneQuote(whole, n, OUTSIDE);
      ScanSingle(whole, n + 1, n + 1 + |s|);
      OneQuote(whole, n + 1 + |s|, INSINGLE);
    }
  }

  lemma OneQuote(line: string, i: nat, q: Quotes)
    requires i < |line| && line[i] == '\'' && (q == OUTSIDE || q == INSINGLE)
    ensures CommentAt(line, i, q) == CommentAt(line, i + 1, if q == OUTSIDE then INSINGLE else OUTSIDE)
  {
  }

  lemma SingleQuotedSurvives(a: string, s: string)
    requires Quiet(a) && '\'' !in s && SingleLine(s)
    ensures Survives(a + ("'" + s + "'"))
  {
    SingleQuotedCloses(a, s);
    var line := a + ("'" + s + "'");
    assert line[|line| - 1] == '\'';
    assert !IsLineBreak('\'') && !IsSpace('\'');
    hide IsLineBreak, IsSpace, Closed;
  }

  /** Behind anything quiet, a text that means something passes the scanner and the splitter. */
  lemma MeansSurvives(a: string, t: string, v: Value)
    requires Quiet(a) && Means(t, v)
    ensures Survives(a + t)
  {
    hide Survives, Quiet, Escape, SingleLine, WordValue;
    if Bare(t) {
      QuietConcat(a, t);
      assert (a + t)[|a + t| - 1] == t[|t| - 1];
      QuietSurvives(a + t);
    } else if t == "[]" && v == List([]) {
      EmptyListWord();
      WordSurvives(a, t);
    } else if t == "\"" + v.s + "\"" && exists body :: SingleLine(body) && Escape(body) == v.s {
      var body :| SingleLine(body) && Escape(body) == v.s;
      QuotedSurvives(a, body);
    } else {
      SingleQuotedSurvives(a, v.s);
    }
  }

  lemma EmptyListWord()
    ensures Word("[]") && "[]"[1] == ']'
    ensures Word(Spaced("[]")) && Spaced("[]")[|Spaced("[]")| - 1] != ' '
  {
  }
}
