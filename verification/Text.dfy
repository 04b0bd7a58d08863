/** The parts of Python's `str` the modelled code relies on: whitespace stripping,
    line splitting, prefixes, splitting at the first colon, and `int` literals. */
module Text {

  datatype Option<+T> = None | Some(value: T)

  datatype Result<+T, +E> = Ok(value: T) | Err(error: E) {
    predicate IsFailure() { Err? }
    function PropagateFailure<U>(): Result<U, E>
      requires Err?
    {
      Err(error)
    }
    function Extract(): T
      requires Ok?
    {
      value
    }
  }

  /** `str.isspace` on one character, which is also the set `str.strip` removes. */
  predicate IsSpace(c: char) {
    var n := c as int;
    || 0x09 <= n <= 0x0d || 0x1c <= n <= 0x20 || n == 0x85 || n == 0xa0 || n == 0x1680
    || 0x2000 <= n <= 0x200a || n == 0x2028 || n == 0x2029 || n == 0x202f || n == 0x205f || n == 0x3000
  }

  /** The characters at which `str.splitlines` ends a line. */
  predicate IsLineBreak(c: char) {
    var n := c as int;
    0x0a <= n <= 0x0d || 0x1c <= n <= 0x1e || n == 0x85 || n == 0x2028 || n == 0x2029
  }

  predicate SingleLine(s: string) {
    forall i :: 0 <= i < |s| ==> !IsLineBreak(s[i])
  }

  /** A string `strip` leaves alone. */
  predicate Trimmed(s: string) {
    s != "" ==> !IsSpace(s[0]) && !IsSpace(s[|s| - 1])
  }

  function LStrip(s: string): (r: string)
    ensures |r| <= |s| && r == s[|s| - |r|..]
    ensures forall i :: 0 <= i < |s| - |r| ==> IsSpace(s[i])
    ensures r != "" ==> !IsSpace(r[0])
  {
    if s != "" && IsSpace(s[0]) then LStrip(s[1..]) else s
  }

  function RStrip(s: string): (r: string)
    ensures |r| <= |s| && r == s[..|r|]
    ensures forall i :: |r| <= i < |s| ==> IsSpace(s[i])
    ensures r != "" ==> !IsSpace(r[|r| - 1])
  {
    if s != "" && IsSpace(s[|s| - 1]) then RStrip(s[..|s| - 1]) else s
  }

  function Strip(s: string): (r: string)
    ensures Trimmed(r)
  {
    LStrip(RStrip(s))
  }

  /** `str.lower`, exact as far as the result is an ASCII letter: besides the capital letters only
      the Kelvin sign becomes one. */
  function LowerChar(c: char): char {
    if 'A' <= c <= 'Z' then (c as int + 32) as char else if c as int == 0x212A then 'k' else c
  }

  function Lower(s: string): (r: string)
    ensures |r| == |s|
  {
    seq(|s|, i requires 0 <= i < |s| => LowerChar(s[i]))
  }

  predicate StartsWith(s: string, prefix: string) {
    |prefix| <= |s| && s[..|prefix|] == prefix
  }

  /** `len(s) - len(s.lstrip(" "))`. */
  function LeadingSpaces(s: string): (n: nat)
    ensures n <= |s|
    ensures forall i :: 0 <= i < n ==> s[i] == ' '
    ensures n < |s| ==> s[n] != ' '
  {
    if s != "" && s[0] == ' ' then 1 + LeadingSpaces(s[1..]) else 0
  }

  function Spaces(n: nat): (s: string)
    ensures |s| == n && forall i :: 0 <= i < n ==> s[i] == ' '
  {
    seq(n, _ => ' ')
  }

  /** `str.find(":")`, with the length of the string standing for "not found". */
  function ColonAt(s: string): (k: nat)
    ensures k <= |s| && (k < |s| ==> s[k] == ':')
    ensures forall i :: 0 <= i < k ==> s[i] != ':'
  {
    if s == "" || s[0] == ':' then 0 else 1 + ColonAt(s[1..])
  }

  /** `str.splitlines()`. */
  function SplitLines(s: string): (lines: seq<string>)
    ensures forall k :: 0 <= k < |lines| ==> SingleLine(lines[k])
    decreases |s|
  {
    if s == "" then []
    else
      var k := LineEnd(s);
      if k == |s| then [s]
      else
        var next := if s[k] == '\r' && k + 1 < |s| && s[k + 1] == '\n' then k + 2 else k + 1;
        [s[..k]] + SplitLines(s[next..])
  }

  function LineEnd(s: string): (k: nat)
    ensures k <= |s| && SingleLine(s[..k]) && (k < |s| ==> IsLineBreak(s[k]))
  {
    if s == "" || IsLineBreak(s[0]) then 0 else 1 + LineEnd(s[1..])
  }

  /** `"\n".join(lines) + "\n"`: every line followed by a newline (one newline for no lines). */
  function JoinLines(lines: seq<string>): string {
    if |lines| == 0 then "\n"
    else if |lines| == 1 then lines[0] + "\n"
    else lines[0] + "\n" + JoinLines(lines[1..])
  }

  lemma LineEndOfPrefix(a: string, b: string)
    requires SingleLine(a)
    ensures LineEnd(a + "\n" + b) == |a|
  {
    if a == "" {
      assert (a + "\n" + b)[0] == '\n';
    } else {
      assert (a + "\n" + b)[0] == a[0];
      assert (a + "\n" + b)[1..] == a[1..] + "\n" + b;
      LineEndOfPrefix(a[1..], b);
    }
  }

  lemma {:induction false} SplitFirstLine(a: string, b: string)
    requires SingleLine(a)
    ensures SplitLines(a + "\n" + b) == [a] + SplitLines(b)
  {
    var s := a + "\n" + b;
    LineEndOfPrefix(a, b);
    assert s[|a|] == '\n';
    assert s[..|a|] == a && s[|a| + 1..] == b;
  }

  /** Splitting undoes joining, except that no lines at all read back as one blank line. */
  lemma {:induction false} SplitOfJoin(lines: seq<string>)
    requires forall k :: 0 <= k < |lines| ==> SingleLine(lines[k])
    ensures SplitLines(JoinLines(lines)) == if lines == [] then [""] else lines
  {
    if |lines| == 0 {
      SplitFirstLine("", "");
      assert "" + "\n" + "" == "\n";
    } else if |lines| == 1 {
      SplitFirstLine(lines[0], "");
      assert lines[0] + "\n" + "" == JoinLines(lines);
    } else {
      SplitFirstLine(lines[0], JoinLines(lines[1..]));
      SplitOfJoin(lines[1..]);
    }
  }

  lemma StripKeeps(s: string)
    requires s != "" && !IsSpace(s[0]) && !IsSpace(s[|s| - 1])
    ensures Strip(s) == s && LStrip(s) == s
  {
    hide IsSpace;
  }

  /** Stripping a trimmed text that sits behind `n` blanks gives the text back. */
  lemma StripIndented(n: nat, t: string)
    requires t != "" && Trimmed(t)
    ensures LeadingSpaces(Spaces(n) + t) == n
    ensures LStrip(Spaces(n) + t) == t
    ensures RStrip(Spaces(n) + t) == Spaces(n) + t
    ensures Strip(Spaces(n) + t) == t
  {
    var s := Spaces(n) + t;
    assert s[|s| - 1] == t[|t| - 1];
    assert s[n] == t[0];
    assert forall i :: 0 <= i < n ==> s[i] == ' ';
    var r := LStrip(s);
    assert r != "" ==> r[0] == s[|s| - |r|];
    assert |s| - |r| == n;
    assert r == t;
  }

  // ---------------------------------------------------------------- integers

  predicate IsDigit(c: char) { '0' <= c <= '9' }

  function Digit(n: nat): char
    requires n < 10
  {
    ('0' as int + n) as char
  }

  /** `str(n)` of a natural number. */
  function NatText(n: nat): (s: string)
    ensures s != "" && forall i :: 0 <= i < |s| ==> IsDigit(s[i])
  {
    if n < 10 then [Digit(n)] else NatText(n / 10) + [Digit(n % 10)]
  }

  /** `str(n)` of an integer. */
  function IntText(n: int): string {
    if n < 0 then "-" + NatText(-n) else NatText(n)
  }

  /** Decimal digits with single underscores between them. */
  function ParseNat(s: string): Option<nat>
    decreases |s|
  {
    if s == "" || !IsDigit(s[|s| - 1]) then None
    else
      var d := s[|s| - 1] as int - '0' as int;
      if |s| == 1 then Some(d)
      else
        var front := if s[|s| - 2] == '_' then s[..|s| - 2] else s[..|s| - 1];
        match ParseNat(front)
        case None => None
        case Some(n) => Some(10 * n + d)
  }

  /** `int(text)` on a stripped text, `None` where Python raises `ValueError`. */
  function ParseInt(s: string): Option<int> {
    if s != "" && (s[0] == '-' || s[0] == '+') then
      match ParseNat(s[1..])
      case None => None
      case Some(n) => var m: int := if s[0] == '-' then -(n as int) else n; Some(m)
    else
      match ParseNat(s)
      case None => None
      case Some(n) => Some(n)
  }

  lemma {:induction false} ParseNatOfText(n: nat)
    ensures ParseNat(NatText(n)) == Some(n)
  {
    if n >= 10 {
      var s := NatText(n);
      ParseNatOfText(n / 10);
      assert s[..|s| - 1] == NatText(n / 10);
      assert IsDigit(s[|s| - 2]);
    }
  }

  lemma ParseIntOfText(n: int)
    ensures ParseInt(IntText(n)) == Some(n)
  {
    hide ParseNat, NatText;
    if n < 0 {
      ParseNatOfText(-n);
      assert ("-" + NatText(-n))[1..] == NatText(-n);
    } else {
      ParseNatOfText(n);
      assert IsDigit(NatText(n)[0]);
    }
  }
}
