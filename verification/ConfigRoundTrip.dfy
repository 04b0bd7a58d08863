/** What a printed configuration reads back as: the printer's lines through the indentation stack. */
module ConfigRoundTrip {
  import opened Text
  import opened Config

  // ---------------------------------------------------------------- what comes back

  /** What the loader makes of a printed value: the printer's quoted strings come back
      still escaped, and the shapes it cannot express come back as something else. */
  function Reload(v: Value, inItem: bool, env: Env): Value
    decreases v
  {
    match v
    case Map(es) => Map(ReloadEntries(es, false, env))
    case List(items) => if items == [] && inItem then Map([]) else List(ReloadItems(items, env))
    case _ => ReloadScalar(v, env)
  }

  function ReloadScalar(v: Value, env: Env): Value {
    match v
    case Bool(_) => v
    case Int(_) => v
    case Null => Str("")
    case _ => Str(Escape(TextOf(v, env)))
  }

  function ReloadEntries(es: seq<Pair>, inItem: bool, env: Env): (r: seq<Pair>)
    ensures |r| == |es| && forall i :: 0 <= i < |es| ==> r[i].key == es[i].key
    decreases es
  {
    if es == [] then []
    else [Pair(es[0].key, Reload(es[0].value, inItem, env))] + ReloadEntries(es[1..], inItem, env)
  }

  function ReloadItems(items: seq<Value>, env: Env): (r: seq<Value>)
    ensures |r| == |items|
    decreases items
  {
    if items == [] then [] else [ReloadItem(items[0], env)] + ReloadItems(items[1..], env)
  }

  function ReloadItem(v: Value, env: Env): Value
    decreases v
  {
    match v
    case Map(es) =>
      if es == [] then Str("{}")
      else Map([Pair(es[0].key, ReloadScalar(es[0].value, env))] + ReloadEntries(es[1..], true, env))
    case _ => ReloadScalar(v, env)
  }

  // ---------------------------------------------------------------- when it is the same

  predicate PlainText(s: string) { '"' !in s && '\\' !in s }

  predicate PlainScalar(v: Value) {
    v.Bool? || v.Int? || (v.Str? && PlainText(v.s))
  }

  /** The configurations the printer can express. */
  predicate Dumpable(v: Value, inItem: bool)
    decreases v
  {
    match v
    case Map(es) => DumpableEntries(es, false)
    case List(items) => (items != [] || !inItem) && DumpableItems(items)
    case _ => PlainScalar(v)
  }

  predicate DumpableEntries(es: seq<Pair>, inItem: bool)
    decreases es
  {
    es == [] || (Dumpable(es[0].value, inItem) && DumpableEntries(es[1..], inItem))
  }

  predicate DumpableItems(items: seq<Value>)
    decreases items
  {
    items == [] || (DumpableItem(items[0]) && DumpableItems(items[1..]))
  }

  predicate DumpableItem(v: Value)
    decreases v
  {
    match v
    case Map(es) => es != [] && PlainScalar(es[0].value) && DumpableEntries(es[1..], true)
    case _ => PlainScalar(v)
  }

  lemma {:induction false} EscapeFixes(s: string)
    ensures |Escape(s)| >= |s|
    ensures Escape(s) == s <==> PlainText(s)
  {
    if s != "" {
      EscapeFixes(s[1..]);
      if s[0] == '\\' || s[0] == '"' {
        assert |Escape(s)| > |s|;
      } else {
        assert Escape(s)[1..] == Escape(s[1..]);
        assert Escape(s) == s <==> Escape(s[1..]) == s[1..];
      }
    }
  }

  lemma ReloadScalarFixes(v: Value, env: Env)
    ensures ReloadScalar(v, env) == v <==> PlainScalar(v)
  {
    if v.Str? { EscapeFixes(v.s); }
  }

  lemma {:induction false} ReloadFixes(v: Value, inItem: bool, env: Env)
    ensures Reload(v, inItem, env) == v <==> Dumpable(v, inItem)
    decreases v
  {
    match v
    case Map(es) => ReloadEntriesFixes(es, false, env);
    case List(items) => ReloadItemsFixes(items, env);
    case _ => ReloadScalarFixes(v, env);
  }

  lemma {:induction false} ReloadEntriesFixes(es: seq<Pair>, inItem: bool, env: Env)
    ensures ReloadEntries(es, inItem, env) == es <==> DumpableEntries(es, inItem)
    decreases es
  {
    if es != [] {
      var r := ReloadEntries(es, inItem, env);
      ReloadFixes(es[0].value, inItem, env);
      ReloadEntriesFixes(es[1..], inItem, env);
      assert r[1..] == ReloadEntries(es[1..], inItem, env);
      assert es == [es[0]] + es[1..] && r == [r[0]] + r[1..];
    }
  }

  lemma {:induction false} ReloadItemsFixes(items: seq<Value>, env: Env)
    ensures ReloadItems(items, env) == items <==> DumpableItems(items)
    decreases items
  {
    if items != [] {
      var r := ReloadItems(items, env);
      ReloadItemFixes(items[0], env);
      ReloadItemsFixes(items[1..], env);
      assert r[1..] == ReloadItems(items[1..], env);
      assert items == [items[0]] + items[1..] && r == [r[0]] + r[1..];
    }
  }

  lemma {:induction false} ReloadItemFixes(v: Value, env: Env)
    ensures ReloadItem(v, env) == v <==> DumpableItem(v)
    decreases v
  {
    if v.Map? && v.entries != [] {
      var es := v.entries;
      ReloadScalarFixes(es[0].value, env);
      ReloadEntriesFixes(es[1..], true, env);
      var r := ReloadItem(v, env).entries;
      assert r[1..] == ReloadEntries(es[1..], true, env);
      assert es == [es[0]] + es[1..] && r == [r[0]] + r[1..];
    } else if !v.Map? {
      ReloadScalarFixes(v, env);
    }
  }

  // ---------------------------------------------------------------- printable configurations

  /** A key with no character the parser treats specially. */
  predicate PlainKey(key: string) {
    forall i :: 0 <= i < |key| ==> key[i] !in {':', '#', '\'', '"'} && !IsSpace(key[i])
  }

  /** Plain distinct keys throughout, and no line break inside a string. */
  predicate OneLiners(v: Value)
    decreases v
  {
    match v
    case Map(es) => DistinctKeys(es) && OneLinerEntries(es)
    case List(items) => forall i :: 0 <= i < |items| ==> OneLiners(items[i])
    case Str(s) => SingleLine(s)
    case _ => true
  }

  predicate OneLinerEntries(es: seq<Pair>)
    decreases es
  {
    forall i :: 0 <= i < |es| ==> PlainKey(es[i].key) && OneLiners(es[i].value)
  }

  /** `repr` escapes line breaks. */
  ghost predicate ReprOnOneLine(env: Env) {
    forall v :: SingleLine(env.repr(v))
  }

  // ---------------------------------------------------------------- scalars read back

  lemma IntTextShape(n: int)
    ensures var t := IntText(n);
      && t != "" && (t[0] == '-' || IsDigit(t[0])) && Trimmed(t) && ColonAt(t) == |t|
  {
    var t := IntText(n);
    assert forall i :: 0 <= i < |t| ==> t[i] == '-' || IsDigit(t[i]);
    assert forall i :: 0 <= i < |t| ==> t[i] != ':' && !IsSpace(t[i]);
  }

  lemma EscapeNothing()
    ensures Escape("") == ""
  {
  }

  lemma WordShape()
    ensures Trimmed("true") && Trimmed("false") && ColonAt("true") == 4 && ColonAt("false") == 5
    ensures Trimmed("{}") && Trimmed("[]") && ColonAt("{}") == 2
  {
    NoColon("true");
    NoColon("false");
    NoColon("{}");
    hide ColonAt;
  }

  lemma NoColon(t: string)
    requires forall i :: 0 <= i < |t| ==> t[i] != ':'
    ensures ColonAt(t) == |t|
  {
    hide ColonAt;
  }

  // ---------------------------------------------------------------- printed lines, character by character

  lemma SpaceFacts()
    ensures IsSpace(' ') && !IsSpace(':') && !IsSpace(']') && !IsSpace('"') && !IsSpace('}') && !IsSpace('-')
  {
  }

  lemma StripEmpty()
    ensures Strip("") == ""
  {
  }

  lemma StripOne(t: string)
    requires t != "" && Trimmed(t)
    ensures Strip(t) == t && Strip(Spaced(t)) == t
  {
    hide Strip, Trimmed;
    StripIndented(0, t);
    StripIndented(1, t);
    assert Spaces(0) == "" && "" + t == t;
    assert Spaces(1) == " ";
  }

  lemma {:induction false} ColonAfterKey(key: string, rest: string)
    requires forall i :: 0 <= i < |key| ==> key[i] != ':'
    ensures ColonAt(KeyLine(key, rest)) == |key|
  {
    if key == "" {
      assert KeyLine("", rest)[0] == ':';
    } else {
      assert KeyLine(key, rest)[0] == key[0];
      assert KeyLine(key, rest)[1..] == KeyLine(key[1..], rest);
      ColonAfterKey(key[1..], rest);
    }
  }

  lemma NotAListItem(t: string)
    requires |t| > 1 ==> t[0] != '-' || t[1] != ' '
    ensures !StartsWith(t, "- ")
  {
    assert |t| > 1 ==> t[..2][0] == t[0] && t[..2][1] == t[1];
  }

  lemma PlainKeyIsTrimmed(key: string)
    requires PlainKey(key)
    ensures Strip(key) == key
  {
    StripEmpty();
    hide Strip, IsSpace;
    if key != "" { StripOne(key); }
  }

  predicate SolidEnd(rest: string) {
    rest == "" || !IsSpace(rest[|rest| - 1])
  }

  lemma KeyLineEnds(key: string, rest: string)
    requires PlainKey(key) && SolidEnd(rest)
    ensures var t := KeyLine(key, rest);
      t != "" && Trimmed(t) && t[0] != '\'' && t[0] != '"' && (|t| > 1 ==> t[0] != '-' || t[1] != ' ')
  {
    SpaceFacts();
    hide IsSpace;
    var t := KeyLine(key, rest);
    assert t[0] == if key == "" then ':' else key[0];
    assert t[|t| - 1] == if rest == "" then ':' else rest[|rest| - 1];
    assert |t| > 1 && key != "" ==> t[1] == if |key| == 1 then ':' else key[1];
  }

  lemma KeyLineSplits(key: string, rest: string)
    requires PlainKey(key)
    ensures var t := KeyLine(key, rest);
      ColonAt(t) == |key| < |t| && Strip(t[..|key|]) == key && t[|key| + 1..] == rest
  {
    PlainKeyIsTrimmed(key);
    assert forall i :: 0 <= i < |key| ==> key[i] != ':';
    hide Strip, ColonAt, PlainKey;
    var t := KeyLine(key, rest);
    ColonAfterKey(key, rest);
    assert t[..|key|] == key;
    assert t[|key| + 1..] == rest;
  }

  /** A `key:` or `key: value` text: trimmed, and not a list item. */
  lemma KeyLineShape(key: string, rest: string)
    requires PlainKey(key) && SolidEnd(rest)
    ensures var t := KeyLine(key, rest);
      && t != "" && Trimmed(t) && t[0] != '\'' && t[0] != '"' && !StartsWith(t, "- ")
  {
    KeyLineEnds(key, rest);
    hide Trimmed, PlainKey, KeyLine, StartsWith;
    NotAListItem(KeyLine(key, rest));
  }

  lemma IndentedLine(d: nat, t: string)
    requires t != "" && Trimmed(t)
    ensures var raw := Indented(d, t);
      && LeadingSpaces(raw) == d && Strip(raw) == t && '\t' !in raw[..|raw| - |LStrip(raw)|]
  {
    hide Strip, LStrip, LeadingSpaces, Trimmed;
    StripIndented(d, t);
    var raw := Indented(d, t);
    assert raw[..|raw| - |LStrip(raw)|] == Spaces(d);
  }

  lemma DashLineShape(body: string)
    requires body != "" && Trimmed(body)
    ensures var t := DashLine(body); t != "" && Trimmed(t) && StartsWith(t, "- ") && Strip(t[2..]) == body
  {
    SpaceFacts();
    StripOne(body);
    hide Strip, IsSpace;
    var t := DashLine(body);
    assert t[2..] == body;
    assert t[..2] == "- ";
    assert t[0] == '-' && t[|t| - 1] == body[|body| - 1];
  }

  lemma SpacedEnd(t: string)
    requires t != "" && Trimmed(t)
    ensures SolidEnd(Spaced(t))
  {
    hide IsSpace;
    assert Spaced(t)[|t|] == t[|t| - 1];
  }

  // ---------------------------------------------------------------- one printed line through the parser

  /** A stack whose top takes lines at indentation `d`. */
  predicate Open(frames: seq<Frame>, d: nat) {
    frames != [] && Top(frames).indent < d
  }

  /** A line at `d` that no open block ends: no popping, straight to the item or key case. */
  lemma StepAt(frames: seq<Frame>, d: nat, t: string, listNext: bool, env: Env)
    requires Open(frames, d) && t != "" && Trimmed(t)
    ensures var raw := Indented(d, t);
      Step(frames, raw, listNext, env)
      == if StartsWith(t, "- ") then ItemStep(frames, raw, d, Strip(t[2..]), env)
         else KeyStep(frames, raw, d, t, listNext, env)
  {
    hide Strip, LStrip, LeadingSpaces, StartsWith, Indented, ItemStep, KeyStep, Trimmed;
    IndentedLine(d, t);
  }

  lemma {:induction false} FreshSlot(es: seq<Pair>, key: string)
    requires forall i :: 0 <= i < |es| ==> es[i].key != key
    ensures SlotOf(es, key) == |es|
  {
  }

  predicate NewKey(node: Value, key: string) {
    node.Map? && forall i :: 0 <= i < |node.entries| ==> node.entries[i].key != key
  }

  /** A `key: scalar` line (or `key: []`) adds one entry to the dict on top. */
  lemma ValueLine(frames: seq<Frame>, d: nat, key: string, txt: string, v: Value, listNext: bool, env: Env)
    requires Open(frames, d) && PlainKey(key) && NewKey(Top(frames).node, key)
    requires txt != "" && Trimmed(txt) && ParseScalar(Spaced(txt), env) == Ok(v)
    ensures var es := Top(frames).node.entries;
      var fs := WithTop(frames, Map(es + [Pair(key, v)]));
      Step(frames, Indented(d, KeyLine(key, Spaced(txt))), listNext, env)
        == Ok(if Container(v) then fs + [Frame(d, v, |es|)] else fs)
  {
    hide Strip, ColonAt, ParseScalar, SlotOf, Step, Trimmed, PlainKey, KeyLine, Indented, StartsWith, SolidEnd, Spaced;
    SpacedEnd(txt);
    KeyLineShape(key, Spaced(txt));
    KeyLineSplits(key, Spaced(txt));
    StepAt(frames, d, KeyLine(key, Spaced(txt)), listNext, env);
    FreshSlot(Top(frames).node.entries, key);
    StripOne(txt);
  }

  /** A bare `key:` line opens an empty container, a list when list items follow. */
  lemma OpeningLine(frames: seq<Frame>, d: nat, key: string, listNext: bool, env: Env)
    requires Open(frames, d) && PlainKey(key) && NewKey(Top(frames).node, key)
    ensures var es := Top(frames).node.entries;
      var v := if listNext then List([]) else Map([]);
      Step(frames, Indented(d, KeyLine(key, "")), listNext, env)
        == Ok(WithTop(frames, Map(es + [Pair(key, v)])) + [Frame(d, v, |es|)])
  {
    hide Strip, ColonAt, ParseScalar, SlotOf, Step, Trimmed, PlainKey, KeyLine, Indented, StartsWith;
    StripEmpty();
    KeyLineShape(key, "");
    KeyLineSplits(key, "");
    StepAt(frames, d, KeyLine(key, ""), listNext, env);
    FreshSlot(Top(frames).node.entries, key);
  }

  lemma ScalarItemLine(frames: seq<Frame>, d: nat, txt: string, v: Value, listNext: bool, env: Env)
    requires Open(frames, d) && Top(frames).node.List?
    requires txt != "" && Trimmed(txt) && ParseScalar(txt, env) == Ok(v)
    requires txt[0] in {'"', '\''} || ColonAt(txt) == |txt|
    ensures Step(frames, Indented(d, DashLine(txt)), listNext, env)
      == Ok(WithTop(frames, List(Top(frames).node.items + [v])))
  {
    hide Strip, ColonAt, ParseScalar, Step, Trimmed, DashLine, Indented, StartsWith, KeyStep;
    DashLineShape(txt);
    StepAt(frames, d, DashLine(txt), listNext, env);
  }

  lemma MappingItemLine(frames: seq<Frame>, d: nat, key: string, txt: string, v: Value, listNext: bool, env: Env)
    requires Open(frames, d) && Top(frames).node.List? && PlainKey(key)
    requires txt != "" && Trimmed(txt) && ParseScalar(Spaced(txt), env) == Ok(v)
    ensures var items := Top(frames).node.items;
      var node := Map([Pair(key, v)]);
      Step(frames, Indented(d, DashLine(KeyLine(key, Spaced(txt)))), listNext, env)
        == Ok(WithTop(frames, List(items + [node])) + [Frame(d, node, |items|)])
  {
    hide Strip, ColonAt, ParseScalar, Step, Trimmed, PlainKey, KeyLine, DashLine, Indented, StartsWith, KeyStep,
         SolidEnd, Spaced;
    var body := KeyLine(key, Spaced(txt));
    SpacedEnd(txt);
    KeyLineShape(key, Spaced(txt));
    KeyLineSplits(key, Spaced(txt));
    DashLineShape(body);
    StepAt(frames, d, DashLine(body), listNext, env);
  }

  // ---------------------------------------------------------------- the printer's lines through the parser

  /** What follows a block printed at `d`: nothing, or a line no deeper than `d`. */
  predicate Follows(rest: seq<string>, d: nat) {
    rest != [] ==> LeadingSpaces(rest[0]) <= d
  }

  lemma EmptyEnd()
    ensures SolidEnd("")
  {
  }

  lemma RunStep(frames: seq<Frame>, line: string, rest: seq<string>, frames': seq<Frame>, env: Env)
    requires frames != [] && frames' != []
    requires Step(frames, line, NextIsList(rest, LeadingSpaces(line)), env) == Ok(frames')
    ensures Run(frames, [line] + rest, env) == Run(frames', rest, env)
  {
    hide Step, NextIsList, LeadingSpaces;
    assert ([line] + rest)[1..] == rest;
  }

  /** Once the input has left a container's block, popping it now or later is the same. */
  lemma RunAttach(frames: seq<Frame>, rest: seq<string>, env: Env)
    requires |frames| >= 2 && Top(frames).indent >= 0 && Follows(rest, Top(frames).indent)
    ensures Run(frames, rest, env) == Run(Attach(frames), rest, env)
  {
    hide Strip, LStrip, LeadingSpaces, ItemStep, KeyStep, Attach;
    if rest != [] {
      assert Settle(frames, LeadingSpaces(rest[0])) == Settle(Attach(frames), LeadingSpaces(rest[0]));
    }
  }

  /** The keys of `more` are new to `es`. */
  predicate NewKeys(es: seq<Pair>, more: seq<Pair>) {
    forall i, j :: 0 <= i < |es| && 0 <= j < |more| ==> es[i].key != more[j].key
  }

  function OnTop(below: seq<Frame>, top: Frame): (r: seq<Frame>)
    ensures |r| == |below| + 1
  {
    below + [top]
  }

  /** A child container finished on top of its parent is what the parent's slot then holds. */
  lemma RunFinish(below: seq<Frame>, parent: Frame, child: Frame, rest: seq<string>, env: Env)
    requires child.indent >= 0 && Follows(rest, child.indent)
    ensures Run(OnTop(OnTop(below, parent), child), rest, env)
      == Run(OnTop(below, parent.(node := ReplaceSlot(parent.node, child.slot, child.node))), rest, env)
  {
    hide Run;
    var frames := OnTop(OnTop(below, parent), child);
    RunAttach(frames, rest, env);
    assert frames[..|frames| - 2] == below;
  }

  /** A one-line entry: a scalar, or the `[]` of an empty list. */
  lemma LoadScalarEntry(below: seq<Frame>, top: Frame, key: string, txt: string, v: Value, d: nat,
                        rest: seq<string>, env: Env)
    requires top.indent < d && NewKey(top.node, key) && PlainKey(key) && Follows(rest, d)
    requires txt != "" && Trimmed(txt) && ParseScalar(Spaced(txt), env) == Ok(v)
    ensures Run(OnTop(below, top), [Indented(d, KeyLine(key, Spaced(txt)))] + rest, env)
      == Run(OnTop(below, top.(node := Map(top.node.entries + [Pair(key, v)]))), rest, env)
  {
    hide Run, Step, ParseScalar, NextIsList, LeadingSpaces, Trimmed, PlainKey, Follows, NewKey, KeyLine, Indented,
         Spaced;
    assert top.node.Map? by { NewKeyInMap(top.node, key); }
    var frames, es := OnTop(below, top), top.node.entries;
    var top' := top.(node := Map(es + [Pair(key, v)]));
    var line := Indented(d, KeyLine(key, Spaced(txt)));
    ValueLine(frames, d, key, txt, v, NextIsList(rest, LeadingSpaces(line)), env);
    assert WithTop(frames, top'.node) == OnTop(below, top');
    if Container(v) {
      var child := Frame(d, v, |es|);
      RunStep(frames, line, rest, OnTop(OnTop(below, top'), child), env);
      RunFinish(below, top', child, rest, env);
      assert ReplaceSlot(top'.node, |es|, v) == top'.node;
    } else {
      RunStep(frames, line, rest, OnTop(below, top'), env);
    }
  }

  lemma NewKeyInMap(node: Value, key: string)
    requires NewKey(node, key)
    ensures node.Map?
  {
  }

  /** The `key:` line that opens a nested container. */
  lemma LoadOpening(below: seq<Frame>, top: Frame, key: string, d: nat, rest: seq<string>, env: Env)
    requires top.indent < d && top.node.Map? && NewKey(top.node, key) && PlainKey(key)
    ensures var v := if NextIsList(rest, d) then List([]) else Map([]);
      Run(OnTop(below, top), [Indented(d, KeyLine(key, ""))] + rest, env)
      == Run(OnTop(OnTop(below, top.(node := Map(top.node.entries + [Pair(key, v)]))),
                   Frame(d, v, |top.node.entries|)), rest, env)
  {
    hide Run, Step, NextIsList, LeadingSpaces, PlainKey, NewKey, KeyLine, Indented, Trimmed, StartsWith;
    var frames, line := OnTop(below, top), Indented(d, KeyLine(key, ""));
    var v := if NextIsList(rest, d) then List([]) else Map([]);
    var top' := top.(node := Map(top.node.entries + [Pair(key, v)]));
    EmptyEnd();
    KeyLineShape(key, "");
    IndentedLine(d, KeyLine(key, ""));
    OpeningLine(frames, d, key, NextIsList(rest, d), env);
    assert WithTop(frames, top'.node) == OnTop(below, top');
    RunStep(frames, line, rest, OnTop(OnTop(below, top'), Frame(d, v, |top.node.entries|)), env);
  }
}
