/** Configuration values, the recursive printer, and the indentation-stack parser of
    `harness/config/loader.py`, on values. `ConfigLoader` holds the loops themselves. */
module Config {
  import opened Text

  /** A Python dict is its entries in insertion order. */
  datatype Value =
    | Null
    | Bool(b: bool)
    | Int(i: int)
    | Str(s: string)
    | List(items: seq<Value>)
    | Map(entries: seq<Pair>)

  datatype Pair = Pair(key: string, value: Value)

  datatype ConfigError =
    | MultilineScalar
    | TabIndent(line: string)
    | BadListItem(line: string)
    | BadLine(line: string)
    | MappingInsideList(line: string)

  /** The two pieces of Python's library the loader calls: `str(container)`, and
      `json.loads` on a bracketed scalar (`None` where it is not a JSON list). */
  datatype Env = Env(repr: Value -> string, inlineList: string -> Option<seq<Value>>)

  predicate Container(v: Value) { v.List? || v.Map? }

  predicate DistinctKeys(es: seq<Pair>) {
    forall i, j :: 0 <= i < j < |es| ==> es[i].key != es[j].key
  }

  // ---------------------------------------------------------------- comment scanner

  /** The three flags of the comment scanner. */
  datatype Quotes = Quotes(single: bool, double: bool, escaped: bool)

  const OUTSIDE := Quotes(false, false, false)
  const INSIDE := Quotes(false, true, false)

  function ScanChar(q: Quotes, c: char): Quotes {
    if c == '\\' && q.double && !q.escaped then q.(escaped := true)
    else if c == '\'' && !q.double && !q.escaped then q.(single := !q.single)
    else if c == '"' && !q.single && !q.escaped then q.(double := !q.double, escaped := false)
    else q.(escaped := false)
  }

  predicate StartsComment(line: string, i: nat, q: Quotes)
    requires i < |line|
  {
    line[i] == '#' && !q.single && !q.double && (i == 0 || IsSpace(line[i - 1]))
  }

  /** Where the comment of `line` starts when scanning from `i` with flags `q`. */
  function CommentAt(line: string, i: nat, q: Quotes): (k: nat)
    requires i <= |line|
    ensures i <= k <= |line|
    decreases |line| - i
  {
    if i == |line| || StartsComment(line, i, q) then i
    else CommentAt(line, i + 1, ScanChar(q, line[i]))
  }

  function StripComment(line: string): string {
    RStrip(line[..CommentAt(line, 0, OUTSIDE)])
  }

  // ---------------------------------------------------------------- parser

  predicate Wrapped(v: string, open: char, close: char) {
    v != "" && v[0] == open && v[|v| - 1] == close
  }

  function ParseScalar(value: string, env: Env): Result<Value, ConfigError> {
    var v := Strip(value);
    if v == "" then Ok(Map([]))
    else if v == "|" || v == ">" then Err(MultilineScalar)
    else if v == "[]" then Ok(List([]))
    else if Wrapped(v, '[', ']') && env.inlineList(v).Some? then Ok(List(env.inlineList(v).value))
    else if Wrapped(v, '"', '"') || Wrapped(v, '\'', '\'') then
      Ok(Str(if |v| == 1 then "" else v[1..|v| - 1]))
    else if Lower(v) == "true" then Ok(Bool(true))
    else if Lower(v) == "false" then Ok(Bool(false))
    else
      match ParseInt(v)
      case Some(n) => Ok(Int(n))
      case None => Ok(Str(v))
  }

  /** One stack entry: its indentation, its container as built so far, and the position it
      occupies in the container below it. */
  datatype Frame = Frame(indent: int, node: Value, slot: nat)

  function ReplaceSlot(node: Value, slot: nat, child: Value): Value {
    match node
    case Map(es) => if slot < |es| then Map(es[slot := es[slot].(value := child)]) else node
    case List(items) => if slot < |items| then List(items[slot := child]) else node
    case _ => node
  }

  /** Popping the top: what was built there is what the container below now holds. */
  function Attach(frames: seq<Frame>): (r: seq<Frame>)
    requires |frames| >= 2
    ensures |r| == |frames| - 1
  {
    var n := |frames|;
    var child, parent := frames[n - 1], frames[n - 2];
    frames[..n - 2] + [parent.(node := ReplaceSlot(parent.node, child.slot, child.node))]
  }

  /** `while indent <= stack[-1][0]: stack.pop()`; the root, at -1, always stays. */
  function Settle(frames: seq<Frame>, indent: nat): (r: seq<Frame>)
    requires frames != []
    ensures r != []
    decreases |frames|
  {
    if |frames| >= 2 && indent <= frames[|frames| - 1].indent then Settle(Attach(frames), indent) else frames
  }

  function Close(frames: seq<Frame>): Value
    requires frames != []
    decreases |frames|
  {
    if |frames| == 1 then frames[0].node else Close(Attach(frames))
  }

  function SlotOf(es: seq<Pair>, key: string): (k: nat)
    ensures k <= |es| && (k < |es| ==> es[k].key == key)
    ensures forall i :: 0 <= i < k ==> es[i].key != key
  {
    if es == [] || es[0].key == key then 0 else 1 + SlotOf(es[1..], key)
  }

  /** `mapping[key] = value`: an existing key keeps its position. */
  function Put(es: seq<Pair>, key: string, value: Value): seq<Pair> {
    var k := SlotOf(es, key);
    if k < |es| then es[k := Pair(key, value)] else es + [Pair(key, value)]
  }

  function Top(frames: seq<Frame>): Frame
    requires frames != []
  {
    frames[|frames| - 1]
  }

  function WithTop(frames: seq<Frame>, node: Value): (r: seq<Frame>)
    requires frames != []
    ensures |r| == |frames|
  {
    frames[|frames| - 1 := Top(frames).(node := node)]
  }

  predicate IsMappingItem(item: string) {
    ColonAt(item) < |item| && item[0] != '\'' && item[0] != '"'
  }

  /** One `- ` line, the stack already popped to the line's container. */
  function ItemStep(frames: seq<Frame>, raw: string, indent: nat, item: string, env: Env):
    (r: Result<seq<Frame>, ConfigError>)
    requires frames != []
    ensures r.Ok? ==> r.value != []
  {
    var parent := Top(frames).node;
    if !parent.List? then Err(BadListItem(raw))
    else if IsMappingItem(item) then
      var k := ColonAt(item);
      var v :- ParseScalar(item[k + 1..], env);
      var node := Map([Pair(Strip(item[..k]), v)]);
      Ok(WithTop(frames, List(parent.items + [node])) + [Frame(indent, node, |parent.items|)])
    else
      var v :- ParseScalar(item, env);
      Ok(WithTop(frames, List(parent.items + [v])))
  }

  /** One `key:` or `key: value` line, the stack already popped to the line's container. */
  function KeyStep(frames: seq<Frame>, raw: string, indent: nat, line: string, listNext: bool, env: Env):
    (r: Result<seq<Frame>, ConfigError>)
    requires frames != []
    ensures r.Ok? ==> r.value != []
  {
    var k := ColonAt(line);
    if k == |line| then Err(BadLine(raw))
    else if !Top(frames).node.Map? then Err(MappingInsideList(raw))
    else
      var key, value := Strip(line[..k]), line[k + 1..];
      var es := Top(frames).node.entries;
      var v :- if Strip(value) != "" then ParseScalar(value, env)
               else Ok(if listNext then List([]) else Map([]));
      var fs := WithTop(frames, Map(Put(es, key, v)));
      Ok(if Container(v) then fs + [Frame(indent, v, SlotOf(es, key))] else fs)
  }

  function Step(frames: seq<Frame>, raw: string, listNext: bool, env: Env): (r: Result<seq<Frame>, ConfigError>)
    requires frames != []
    ensures r.Ok? ==> r.value != []
  {
    if '\t' in raw[..|raw| - |LStrip(raw)|] then Err(TabIndent(raw))
    else
      var indent, line := LeadingSpaces(raw), Strip(raw);
      var fs := Settle(frames, indent);
      if StartsWith(line, "- ") then ItemStep(fs, raw, indent, Strip(line[2..]), env)
      else KeyStep(fs, raw, indent, line, listNext, env)
  }

  /** Whether the entries after a line at `indent` open a list under it. */
  predicate NextIsList(rest: seq<string>, indent: nat) {
    rest != [] && LeadingSpaces(rest[0]) > indent && StartsWith(Strip(rest[0]), "- ")
  }

  /** The parser from a given stack on: the finished root, or the first error. */
  function Run(frames: seq<Frame>, entries: seq<string>, env: Env): Result<Value, ConfigError>
    requires frames != []
    decreases |entries|
  {
    if entries == [] then Ok(Close(frames))
    else
      var fs :- Step(frames, entries[0], NextIsList(entries[1..], LeadingSpaces(entries[0])), env);
      Run(fs, entries[1..], env)
  }

  /** The comment-free, non-blank lines. */
  function Entries(lines: seq<string>): seq<string> {
    if lines == [] then []
    else
      var cleaned := StripComment(lines[0]);
      (if Strip(cleaned) != "" then [cleaned] else []) + Entries(lines[1..])
  }

  const ROOT := Frame(-1, Map([]), 0)

  function Load(text: string, env: Env): Result<Value, ConfigError> {
    Run([ROOT], Entries(SplitLines(text)), env)
  }

  // ---------------------------------------------------------------- printer

  function Escape(s: string): string {
    if s == "" then ""
    else (if s[0] == '\\' || s[0] == '"' then ['\\', s[0]] else [s[0]]) + Escape(s[1..])
  }

  /** `str(value)` of anything that is not a bool, an int or None. */
  function TextOf(v: Value, env: Env): string {
    if v.Str? then v.s else env.repr(v)
  }

  function DumpScalar(v: Value, env: Env): string {
    match v
    case Bool(b) => if b then "true" else "false"
    case Int(i) => IntText(i)
    case Null => "\"\""
    case _ => "\"" + Escape(TextOf(v, env)) + "\""
  }

  function Indented(indent: nat, t: string): string { Spaces(indent) + t }

  function KeyLine(key: string, rest: string): string { key + ":" + rest }

  function DashLine(body: string): string { "- " + body }

  function Spaced(t: string): string { " " + t }

  /** The lines of a dict at `indent`. The dict behind a `- ` line (`inItem`) prints its
      second and later entries the same way, except that it has no `[]` for an empty list. */
  function DumpEntries(es: seq<Pair>, indent: nat, inItem: bool, env: Env): seq<string>
    decreases es
  {
    if es == [] then [] else DumpEntry(es[0], indent, inItem, env) + DumpEntries(es[1..], indent, inItem, env)
  }

  function DumpEntry(e: Pair, indent: nat, inItem: bool, env: Env): seq<string>
    decreases e
  {
    match e.value
    case Map(es) => [Indented(indent, KeyLine(e.key, ""))] + DumpEntries(es, indent + 2, false, env)
    case List(items) =>
      if items == [] && !inItem then [Indented(indent, KeyLine(e.key, Spaced("[]")))]
      else [Indented(indent, KeyLine(e.key, ""))] + DumpItems(items, indent + 2, env)
    case v => [Indented(indent, KeyLine(e.key, Spaced(DumpScalar(v, env))))]
  }

  function DumpItems(items: seq<Value>, indent: nat, env: Env): seq<string>
    decreases items
  {
    if items == [] then [] else DumpItem(items[0], indent, env) + DumpItems(items[1..], indent, env)
  }

  function DumpItem(v: Value, indent: nat, env: Env): seq<string>
    decreases v
  {
    if !v.Map? then [Indented(indent, DashLine(DumpScalar(v, env)))]
    else if v.entries == [] then [Indented(indent, DashLine("{}"))]
    else
      [Indented(indent, DashLine(KeyLine(v.entries[0].key, Spaced(DumpScalar(v.entries[0].value, env)))))]
      + DumpEntries(v.entries[1..], indent + 2, true, env)
  }

  function Dump(es: seq<Pair>, env: Env): string {
    JoinLines(DumpEntries(es, 0, false, env))
  }
}
