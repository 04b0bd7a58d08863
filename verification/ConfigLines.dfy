/** When a loaded configuration cannot have a line break in any string. */
module ConfigLines {
  import opened Text
  import opened Config
  import opened ConfigRoundTrip
  import opened ConfigComments
  import opened ConfigScalars
  import opened ConfigDocs
  import opened ConfigText

  /** No line break in any string of `v`. */
  predicate NoBreaks(v: Value)
    decreases v
  {
    match v
    case Map(es) => NoBreakEntries(es)
    case List(items) => forall i :: 0 <= i < |items| ==> NoBreaks(items[i])
    case Str(s) => SingleLine(s)
    case _ => true
  }

  predicate NoBreakEntries(es: seq<Pair>)
    decreases es
  {
    forall i :: 0 <= i < |es| ==> NoBreaks(es[i].value)
  }

  /** A quote that no backslash precedes. */
  predicate HasBareQuote(v: string) {
    exists i :: 0 <= i < |v| && v[i] == '"' && (i == 0 || v[i - 1] != '\\')
  }

  /** The one way a line break could enter is an escape in a string of an inline JSON list, and every
      JSON string begins with a quote that no backslash precedes. */
  ghost predicate BreaksNeedQuotes(env: Env) {
    forall v :: env.inlineList(v).Some? && !HasBareQuote(v) ==> NoBreaks(List(env.inlineList(v).value))
  }

  /** Read as a scalar, `x` is no inline list with a string in it. */
  predicate TameValue(x: string) {
    Wrapped(Strip(x), '[', ']') ==> !HasBareQuote(Strip(x))
  }

  predicate TameItem(item: string) {
    if IsMappingItem(item) then TameValue(item[ColonAt(item) + 1..]) else TameValue(item)
  }

  predicate TameKeyLine(line: string) {
    ColonAt(line) < |line| ==> TameValue(line[ColonAt(line) + 1..])
  }

  /** An entry of whose values none is an inline list with a string in it. */
  predicate Tame(raw: string) {
    var line := Strip(raw);
    if StartsWith(line, "- ") then TameItem(Strip(line[2..])) else TameKeyLine(line)
  }

  predicate FramesHaveNoBreaks(frames: seq<Frame>) {
    forall i :: 0 <= i < |frames| ==> NoBreaks(frames[i].node)
  }

  lemma StripHasNoBreaks(s: string)
    requires SingleLine(s)
    ensures SingleLine(Strip(s))
  {
    hide IsLineBreak, LStrip, RStrip, IsSpace;
    var r := RStrip(s);
    assert SingleLine(r);
  }

  lemma ScalarHasNoBreaks(value: string, env: Env)
    requires SingleLine(value) && TameValue(value) && BreaksNeedQuotes(env)
    ensures var r := ParseScalar(value, env); r.Ok? ==> NoBreaks(r.value)
  {
    hide IsLineBreak, Strip, Lower, ParseInt, HasBareQuote;
    StripHasNoBreaks(value);
    var v := Strip(value);
    assert NoBreaks(Map([])) && NoBreaks(List([]));
    assert |v| >= 2 ==> SingleLine(v[1..|v| - 1]);
    assert SingleLine("");
  }

  lemma ReplaceHasNoBreaks(node: Value, slot: nat, child: Value)
    requires NoBreaks(node) && NoBreaks(child)
    ensures NoBreaks(ReplaceSlot(node, slot, child))
  {
    hide SingleLine;
  }

  lemma PutHasNoBreaks(es: seq<Pair>, key: string, v: Value)
    requires NoBreaks(Map(es)) && NoBreaks(v)
    ensures NoBreaks(Map(Put(es, key, v)))
  {
    hide SingleLine, SlotOf;
  }

  lemma AttachHasNoBreaks(frames: seq<Frame>)
    requires |frames| >= 2 && FramesHaveNoBreaks(frames)
    ensures FramesHaveNoBreaks(Attach(frames))
  {
    hide NoBreaks;
    var n := |frames|;
    ReplaceHasNoBreaks(frames[n - 2].node, frames[n - 1].slot, frames[n - 1].node);
  }

  lemma {:induction false} SettleHasNoBreaks(frames: seq<Frame>, indent: nat)
    requires frames != [] && FramesHaveNoBreaks(frames)
    ensures FramesHaveNoBreaks(Settle(frames, indent))
    decreases |frames|
  {
    hide FramesHaveNoBreaks, Attach;
    if |frames| >= 2 && indent <= Top(frames).indent {
      AttachHasNoBreaks(frames);
      SettleHasNoBreaks(Attach(frames), indent);
    }
  }

  lemma {:induction false} CloseHasNoBreaks(frames: seq<Frame>)
    requires frames != [] && FramesHaveNoBreaks(frames)
    ensures NoBreaks(Close(frames))
    decreases |frames|
  {
    hide NoBreaks, Attach;
    if |frames| >= 2 {
      AttachHasNoBreaks(frames);
      CloseHasNoBreaks(Attach(frames));
    }
  }

  lemma OneMore(items: seq<Value>, v: Value)
    requires NoBreaks(List(items)) && NoBreaks(v)
    ensures NoBreaks(List(items + [v]))
  {
  }

  lemma OnePair(key: string, v: Value)
    requires NoBreaks(v)
    ensures NoBreaks(Map([Pair(key, v)]))
  {
  }

  lemma ItemHasNoBreaks(frames: seq<Frame>, raw: string, indent: nat, item: string, env: Env)
    requires frames != [] && FramesHaveNoBreaks(frames) && SingleLine(item) && TameItem(item) && BreaksNeedQuotes(env)
    ensures var r := ItemStep(frames, raw, indent, item, env); r.Ok? ==> FramesHaveNoBreaks(r.value)
  {
    hide NoBreaks, ParseScalar, Strip, ColonAt, BreaksNeedQuotes, IsLineBreak, TameValue;
    if Top(frames).node.List? {
      var items, k := Top(frames).node.items, ColonAt(item);
      if !IsMappingItem(item) {
        ScalarHasNoBreaks(item, env);
        if ParseScalar(item, env).Ok? { OneMore(items, ParseScalar(item, env).value); }
      } else {
        ScalarHasNoBreaks(item[k + 1..], env);
        var v := ParseScalar(item[k + 1..], env);
        if v.Ok? {
          OnePair(Strip(item[..k]), v.value);
          OneMore(items, Map([Pair(Strip(item[..k]), v.value)]));
        }
      }
    }
  }

  lemma EmptyContainers()
    ensures NoBreaks(List([])) && NoBreaks(Map([]))
  {
  }

  lemma KeyHasNoBreaks(frames: seq<Frame>, raw: string, indent: nat, line: string, listNext: bool, env: Env)
    requires frames != [] && FramesHaveNoBreaks(frames)
    requires SingleLine(line) && TameKeyLine(line) && BreaksNeedQuotes(env)
    ensures var r := KeyStep(frames, raw, indent, line, listNext, env); r.Ok? ==> FramesHaveNoBreaks(r.value)
  {
    hide NoBreaks, ParseScalar, Strip, ColonAt, BreaksNeedQuotes, IsLineBreak, Put, SlotOf, TameValue;
    EmptyContainers();
    var k := ColonAt(line);
    if k < |line| && Top(frames).node.Map? {
      ScalarHasNoBreaks(line[k + 1..], env);
      var es, key := Top(frames).node.entries, Strip(line[..k]);
      var v := if Strip(line[k + 1..]) != "" then ParseScalar(line[k + 1..], env)
               else Ok(if listNext then List([]) else Map([]));
      if v.Ok? { PutHasNoBreaks(es, key, v.value); }
    }
  }

  lemma TailHasNoBreaks(line: string)
    requires SingleLine(line) && |line| >= 2
    ensures SingleLine(line[2..])
  {
    hide IsLineBreak;
  }

  lemma StepHasNoBreaks(frames: seq<Frame>, raw: string, listNext: bool, env: Env)
    requires frames != [] && FramesHaveNoBreaks(frames) && SingleLine(raw) && Tame(raw) && BreaksNeedQuotes(env)
    ensures var r := Step(frames, raw, listNext, env); r.Ok? ==> FramesHaveNoBreaks(r.value)
  {
    hide FramesHaveNoBreaks, SingleLine, Strip, LStrip, LeadingSpaces, Settle, ItemStep, KeyStep, BreaksNeedQuotes,
         TameItem, TameKeyLine;
    var indent, line := LeadingSpaces(raw), Strip(raw);
    StripHasNoBreaks(raw);
    if |line| >= 2 {
      TailHasNoBreaks(line);
      StripHasNoBreaks(line[2..]);
    }
    SettleHasNoBreaks(frames, indent);
    if StartsWith(line, "- ") {
      ItemHasNoBreaks(Settle(frames, indent), raw, indent, Strip(line[2..]), env);
    } else {
      KeyHasNoBreaks(Settle(frames, indent), raw, indent, line, listNext, env);
    }
  }

  lemma {:induction false} RunHasNoBreaks(frames: seq<Frame>, entries: seq<string>, env: Env)
    requires frames != [] && FramesHaveNoBreaks(frames) && BreaksNeedQuotes(env)
    requires forall k :: 0 <= k < |entries| ==> SingleLine(entries[k]) && Tame(entries[k])
    ensures var r := Run(frames, entries, env); r.Ok? ==> NoBreaks(r.value)
    decreases |entries|
  {
    hide FramesHaveNoBreaks, NoBreaks, SingleLine, Step, NextIsList, LeadingSpaces, BreaksNeedQuotes, Tame;
    if entries == [] {
      CloseHasNoBreaks(frames);
    } else {
      var listNext := NextIsList(entries[1..], LeadingSpaces(entries[0]));
      StepHasNoBreaks(frames, entries[0], listNext, env);
      var fs := Step(frames, entries[0], listNext, env);
      if fs.Ok? { RunHasNoBreaks(fs.value, entries[1..], env); }
    }
  }

  lemma {:induction false} EntriesHaveNoBreaks(lines: seq<string>)
    requires forall k :: 0 <= k < |lines| ==> SingleLine(lines[k])
    ensures forall k :: 0 <= k < |Entries(lines)| ==> SingleLine(Entries(lines)[k])
  {
    hide IsLineBreak, CommentAt, Strip;
    if lines != [] {
      EntriesHaveNoBreaks(lines[1..]);
      assert SingleLine(StripComment(lines[0]));
      hide StripComment, SingleLine;
    }
  }

  /** A text whose entries are tame loads to a configuration without line breaks. */
  lemma LoadedHasNoBreaks(text: string, env: Env)
    requires BreaksNeedQuotes(env) && forall k :: 0 <= k < |Entries(SplitLines(text))| ==>
      Tame(Entries(SplitLines(text))[k])
    ensures Load(text, env).Ok? ==> NoBreaks(Load(text, env).value)
  {
    hide Run, BreaksNeedQuotes, Tame;
    EntriesHaveNoBreaks(SplitLines(text));
    RunHasNoBreaks([ROOT], Entries(SplitLines(text)), env);
  }

  /** Plain distinct keys throughout. */
  predicate PlainKeys(v: Value)
    decreases v
  {
    match v
    case Map(es) => DistinctKeys(es) && PlainKeyEntries(es)
    case List(items) => forall i :: 0 <= i < |items| ==> PlainKeys(items[i])
    case _ => true
  }

  predicate PlainKeyEntries(es: seq<Pair>)
    decreases es
  {
    forall i :: 0 <= i < |es| ==> PlainKey(es[i].key) && PlainKeys(es[i].value)
  }

  lemma {:induction false} OneLinersSplit(v: Value)
    ensures OneLiners(v) <==> PlainKeys(v) && NoBreaks(v)
    decreases v
  {
    hide PlainKey, SingleLine, DistinctKeys;
    match v
    case Map(es) =>
      forall i | 0 <= i < |es|
        ensures OneLiners(es[i].value) <==> PlainKeys(es[i].value) && NoBreaks(es[i].value)
      {
        OneLinersSplit(es[i].value);
      }
    case List(items) =>
      forall i | 0 <= i < |items| ensures OneLiners(items[i]) <==> PlainKeys(items[i]) && NoBreaks(items[i]) {
        OneLinersSplit(items[i]);
      }
    case _ =>
  }
}
