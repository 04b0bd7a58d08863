/** The loops of `harness/config/loader.py`: the comment scanner, the parser that mutates nested
    containers through its stack, and the printer that extends a list of lines. */
module ConfigLoader {
  import opened Text
  import opened Config
  import Frames = ConfigStack

  // ---------------------------------------------------------------- comment scanner

  method StripInlineComment(line: string) returns (r: string)
    ensures r == StripComment(line)
  {
    var single, double, escaped := false, false, false;
    var index := 0;
    while index < |line|
      invariant index <= |line|
      invariant CommentAt(line, 0, OUTSIDE) == CommentAt(line, index, Quotes(single, double, escaped))
    {
      var c := line[index];
      if c == '\\' && double && !escaped {
        escaped := true;
      } else {
        if c == '\'' && !double && !escaped {
          single := !single;
        } else if c == '"' && !single && !escaped {
          double := !double;
        } else if c == '#' && !single && !double && (index == 0 || IsSpace(line[index - 1])) {
          return RStrip(line[..index]);
        }
        escaped := false;
      }
      index := index + 1;
    }
    assert line[..|line|] == line;
    return RStrip(line);
  }

  method CleanLines(text: string) returns (entries: seq<string>)
    ensures entries == Entries(SplitLines(text))
  {
    hide StripComment, Strip, SplitLines;
    var lines := SplitLines(text);
    entries := [];
    for i := 0 to |lines|
      invariant entries + Entries(lines[i..]) == Entries(lines)
    {
      var cleaned := StripInlineComment(lines[i]);
      assert lines[i..][1..] == lines[i + 1..];
      if Strip(cleaned) != "" {
        entries := entries + [cleaned];
      }
    }
  }

  // ---------------------------------------------------------------- nested containers on the heap

  /** What a dict or list holds at one position: a value, or another container by reference. */
  datatype Slot = Leaf(v: Value) | Ref(node: Node)

  /** A Python dict (`keys` beside `slots`) or list (`slots` only), updated in place. */
  class Node {
    const isList: bool
    var keys: seq<string>
    var slots: seq<Slot>

    constructor (isList: bool, keys: seq<string>, slots: seq<Slot>)
      ensures this.isList == isList && this.keys == keys && this.slots == slots
    {
      this.isList, this.keys, this.slots := isList, keys, slots;
    }

    /** `mapping[key] = slot`. */
    method Set(key: string, slot: Slot)
      requires |keys| == |slots|
      modifies this
      ensures var k := KeyAt(old(keys), key);
        if k < |old(keys)| then keys == old(keys) && slots == old(slots)[k := slot]
        else keys == old(keys) + [key] && slots == old(slots) + [slot]
    {
      var k := KeyAt(keys, key);
      if k < |keys| {
        slots := slots[k := slot];
      } else {
        keys, slots := keys + [key], slots + [slot];
      }
    }

    method Append(slot: Slot)
      modifies this
      ensures keys == old(keys) && slots == old(slots) + [slot]
    {
      slots := slots + [slot];
    }
  }

  function KeyAt(keys: seq<string>, key: string): (k: nat)
    ensures k <= |keys| && (k < |keys| ==> keys[k] == key)
    ensures forall i :: 0 <= i < k ==> keys[i] != key
  {
    if keys == [] || keys[0] == key then 0 else 1 + KeyAt(keys[1..], key)
  }

  datatype StackEntry = StackEntry(indent: int, node: Node)

  /** The values of the containers that no stack entry points to any more. */
  type Cells = map<Node, Value>

  ghost predicate SlotHolds(slot: Slot, v: Value, cells: Cells) {
    match slot
    case Leaf(w) => w == v
    case Ref(n) => n in cells && cells[n] == v
  }

  ghost function Width(v: Value): nat {
    match v
    case Map(es) => |es|
    case List(items) => |items|
    case _ => 0
  }

  ghost function At(v: Value, i: nat): Value
    requires i < Width(v)
  {
    match v
    case Map(es) => es[i].value
    case List(items) => items[i]
  }

  /** `n` has the kind, the keys and the width of `v`. */
  ghost predicate ShapeOf(n: Node, v: Value)
    reads n
  {
    && Container(v) && n.isList == v.List? && |n.slots| == Width(v)
    && (v.Map? ==> |n.keys| == |v.entries| && forall i :: 0 <= i < |n.keys| ==> n.keys[i] == v.entries[i].key)
  }

  /** `n` holds `v`, apart from what sits at position `open`. */
  ghost predicate HoldsBut(n: Node, v: Value, cells: Cells, open: int)
    reads n
  {
    ShapeOf(n, v) && forall i :: 0 <= i < |n.slots| && i != open ==> SlotHolds(n.slots[i], At(v, i), cells)
  }

  ghost predicate Settled(cells: Cells)
    reads cells.Keys
  {
    forall n :: n in cells ==> HoldsBut(n, cells[n], cells, -1)
  }

  ghost function Nodes(stack: seq<StackEntry>): set<Node> {
    set e | e in stack :: e.node
  }

  /** `n` holds `v`, with a reference to `child` at position `slot`. */
  ghost predicate HoldsAbove(n: Node, v: Value, cells: Cells, slot: nat, child: Node)
    reads n
  {
    HoldsBut(n, v, cells, slot) && slot < |n.slots| && n.slots[slot] == Ref(child)
  }

  /** Everything `Path` asks of the entries below the top. */
  ghost predicate BelowTop(stack: seq<StackEntry>, frames: seq<Frame>, cells: Cells)
    reads cells.Keys, Nodes(stack)
  {
    && |stack| == |frames| > 0
    && Settled(cells)
    && (forall i :: 0 <= i < |stack| ==> stack[i].indent == frames[i].indent && stack[i].node !in cells)
    && (forall i, j :: 0 <= i < j < |stack| ==> stack[i].node != stack[j].node)
    && (forall i :: 0 <= i < |stack| - 1 ==>
      HoldsAbove(stack[i].node, frames[i].node, cells, frames[i + 1].slot, stack[i + 1].node))
  }

  /** The stack is a root-to-cursor path of live references: each entry's container is what
      the container below it holds at the frame's position, and everything else it reaches is
      settled. So the stack of references stands for the frames. */
  ghost predicate Path(stack: seq<StackEntry>, frames: seq<Frame>, cells: Cells)
    reads cells.Keys, Nodes(stack)
  {
    && BelowTop(stack, frames, cells)
    && HoldsBut(stack[|stack| - 1].node, frames[|stack| - 1].node, cells, -1)
  }

  /** More settled containers do not unsettle what a container holds. */
  lemma MoreCells(m: Node, v: Value, cells: Cells, n: Node, w: Value, open: int)
    requires n !in cells && HoldsBut(m, v, cells, open)
    ensures HoldsBut(m, v, cells[n := w], open)
  {
  }

  lemma SettleTop(n: Node, v: Value, cells: Cells)
    requires Settled(cells) && n !in cells && HoldsBut(n, v, cells, -1)
    ensures Settled(cells[n := v])
  {
    var cells' := cells[n := v];
    forall m | m in cells' ensures HoldsBut(m, cells'[m], cells', -1) {
      if m != n { assert HoldsBut(m, cells[m], cells, -1); }
      MoreCells(m, cells'[m], cells, n, v, -1);
    }
  }

  lemma CloseSlot(parent: Node, v: Value, cells: Cells, slot: nat, child: Node, w: Value)
    requires HoldsAbove(parent, v, cells, slot, child) && child !in cells
    ensures HoldsBut(parent, ReplaceSlot(v, slot, w), cells[child := w], -1)
  {
  }

  /** Popping: the top container, which nothing will change any more, joins the settled ones. */
  lemma PopKeepsPath(stack: seq<StackEntry>, frames: seq<Frame>, cells: Cells)
    requires Path(stack, frames, cells) && |stack| >= 2
    ensures var n := |stack|;
      Path(stack[..n - 1], Attach(frames), cells[stack[n - 1].node := frames[n - 1].node])
  {
    hide HoldsBut, Settled, ReplaceSlot;
    var n := |stack|;
    var top, v := stack[n - 1].node, frames[n - 1].node;
    var cells' := cells[top := v];
    SettleTop(top, v, cells);
    CloseSlot(stack[n - 2].node, frames[n - 2].node, cells, frames[n - 1].slot, top, v);
    forall i | 0 <= i < n - 2
      ensures HoldsAbove(stack[i].node, frames[i].node, cells', frames[i + 1].slot, stack[i + 1].node)
    {
      MoreCells(stack[i].node, frames[i].node, cells, top, v, frames[i + 1].slot);
    }
  }

  lemma SameKeys(keys: seq<string>, es: seq<Pair>, key: string)
    requires |keys| == |es| && forall i :: 0 <= i < |keys| ==> keys[i] == es[i].key
    ensures KeyAt(keys, key) == SlotOf(es, key)
  {
  }

  lemma PathSizes(stack: seq<StackEntry>, frames: seq<Frame>, cells: Cells)
    requires Path(stack, frames, cells)
    ensures |stack| == |frames| > 0 && forall i :: 0 <= i < |stack| ==> stack[i].indent == frames[i].indent
  {
  }

  /** `while indent <= stack[-1][0]: stack.pop()`. */
  method PopTo(stack: seq<StackEntry>, indent: nat, ghost frames: seq<Frame>, ghost cells: Cells)
    returns (r: seq<StackEntry>, ghost frames': seq<Frame>, ghost cells': Cells)
    requires Path(stack, frames, cells) && stack[0].indent < 0
    ensures Path(r, frames', cells') && frames' == Settle(frames, indent) && r <= stack && r != []
  {
    hide Path, Attach;
    PathSizes(stack, frames, cells);
    r, frames', cells' := stack, frames, cells;
    while indent <= r[|r| - 1].indent
      invariant Path(r, frames', cells') && r <= stack && |r| == |frames'| > 0
      invariant r[|r| - 1].indent == frames'[|r| - 1].indent
      invariant Settle(frames', indent) == Settle(frames, indent)
      decreases |r|
    {
      PopKeepsPath(r, frames', cells');
      cells' := cells'[r[|r| - 1].node := frames'[|r| - 1].node];
      frames' := Attach(frames');
      r := r[..|r| - 1];
      PathSizes(r, frames', cells');
    }
  }

  /** The top container now holds `node`. */
  lemma NewTop(stack: seq<StackEntry>, frames: seq<Frame>, cells: Cells, node: Value)
    requires BelowTop(stack, frames, cells) && HoldsBut(stack[|stack| - 1].node, node, cells, -1)
    ensures Path(stack, WithTop(frames, node), cells)
  {
    hide HoldsBut, Settled, HoldsAbove;
  }

  /** The top container now holds `node`, with a reference to the new `child` at `slot`. */
  lemma PushPath(stack: seq<StackEntry>, frames: seq<Frame>, cells: Cells, node: Value, slot: nat,
                 indent: int, child: Node, v: Value)
    requires BelowTop(stack, frames, cells) && child !in cells && child !in Nodes(stack)
    requires HoldsAbove(stack[|stack| - 1].node, node, cells, slot, child) && HoldsBut(child, v, cells, -1)
    ensures Path(stack + [StackEntry(indent, child)], WithTop(frames, node) + [Frame(indent, v, slot)], cells)
  {
    var n := |stack|;
    var r, fs := stack + [StackEntry(indent, child)], WithTop(frames, node) + [Frame(indent, v, slot)];
    hide HoldsBut, Settled, HoldsAbove;
    forall i | 0 <= i < n
      ensures HoldsAbove(r[i].node, fs[i].node, cells, fs[i + 1].slot, r[i + 1].node)
    {
      if i < n - 1 {
        assert fs[i] == frames[i] && fs[i + 1].slot == frames[i + 1].slot;
      }
    }
    assert forall i :: 0 <= i < n ==> r[i].node in Nodes(stack);
  }

  /** `parent.append(value)` with a value nothing refers to. */
  method AppendLeaf(stack: seq<StackEntry>, v: Value, ghost frames: seq<Frame>, ghost cells: Cells)
    requires Path(stack, frames, cells) && Top(frames).node.List?
    modifies stack[|stack| - 1].node
    ensures Path(stack, WithTop(frames, List(Top(frames).node.items + [v])), cells)
  {
    hide Settled, HoldsAbove;
    var top := stack[|stack| - 1].node;
    top.Append(Leaf(v));
    assert HoldsBut(top, List(Top(frames).node.items + [v]), cells, -1);
    hide HoldsBut;
    assert BelowTop(stack, frames, cells);
    NewTop(stack, frames, cells, List(Top(frames).node.items + [v]));
  }

  /** `parent.append(child); stack.append((indent, child))`. */
  method AppendChild(stack: seq<StackEntry>, indent: int, child: Node, ghost v: Value,
                     ghost frames: seq<Frame>, ghost cells: Cells) returns (r: seq<StackEntry>)
    requires Path(stack, frames, cells) && Top(frames).node.List?
    requires child !in Nodes(stack) && child !in cells && HoldsBut(child, v, cells, -1)
    modifies stack[|stack| - 1].node
    ensures r == stack + [StackEntry(indent, child)]
    ensures var items := Top(frames).node.items;
      Path(r, WithTop(frames, List(items + [v])) + [Frame(indent, v, |items|)], cells)
  {
    hide Settled;
    var top := stack[|stack| - 1].node;
    assert top in Nodes(stack) && child != top;
    ghost var items := Top(frames).node.items;
    top.Append(Ref(child));
    assert HoldsAbove(top, List(items + [v]), cells, |items|, child);
    assert HoldsBut(child, v, cells, -1);
    hide HoldsBut, HoldsAbove;
    assert BelowTop(stack, frames, cells);
    PushPath(stack, frames, cells, List(items + [v]), |items|, indent, child, v);
    r := stack + [StackEntry(indent, child)];
  }

  /** `parent[key] = value` with a value nothing refers to. */
  method SetLeaf(stack: seq<StackEntry>, key: string, v: Value, ghost frames: seq<Frame>, ghost cells: Cells)
    requires Path(stack, frames, cells) && Top(frames).node.Map?
    modifies stack[|stack| - 1].node
    ensures Path(stack, WithTop(frames, Map(Put(Top(frames).node.entries, key, v))), cells)
  {
    hide Settled, HoldsAbove, KeyAt, SlotOf;
    var top := stack[|stack| - 1].node;
    ghost var es := Top(frames).node.entries;
    SameKeys(top.keys, es, key);
    top.Set(key, Leaf(v));
    assert HoldsBut(top, Map(Put(es, key, v)), cells, -1);
    hide HoldsBut, Put;
    assert BelowTop(stack, frames, cells);
    NewTop(stack, frames, cells, Map(Put(es, key, v)));
  }

  /** `parent[key] = child; stack.append((indent, child))`. */
  method SetChild(stack: seq<StackEntry>, key: string, indent: int, child: Node, ghost v: Value,
                  ghost frames: seq<Frame>, ghost cells: Cells) returns (r: seq<StackEntry>)
    requires Path(stack, frames, cells) && Top(frames).node.Map?
    requires child !in Nodes(stack) && child !in cells && HoldsBut(child, v, cells, -1)
    modifies stack[|stack| - 1].node
    ensures r == stack + [StackEntry(indent, child)]
    ensures var es := Top(frames).node.entries;
      Path(r, WithTop(frames, Map(Put(es, key, v))) + [Frame(indent, v, SlotOf(es, key))], cells)
  {
    hide Settled, KeyAt, SlotOf;
    var top := stack[|stack| - 1].node;
    assert top in Nodes(stack);
    ghost var es := Top(frames).node.entries;
    SameKeys(top.keys, es, key);
    top.Set(key, Ref(child));
    assert HoldsAbove(top, Map(Put(es, key, v)), cells, SlotOf(es, key), child);
    assert HoldsBut(child, v, cells, -1);
    hide HoldsBut, HoldsAbove, Put;
    assert BelowTop(stack, frames, cells);
    PushPath(stack, frames, cells, Map(Put(es, key, v)), SlotOf(es, key), indent, child, v);
    r := stack + [StackEntry(indent, child)];
  }

  lemma TopKind(stack: seq<StackEntry>, frames: seq<Frame>, cells: Cells)
    requires Path(stack, frames, cells)
    ensures frames != [] && |stack| == |frames| && Container(Top(frames).node)
    ensures stack[|stack| - 1].node.isList == Top(frames).node.List?
    ensures stack[|stack| - 1].node in Nodes(stack)
  {
    hide Settled, HoldsAbove;
  }

  /** A `- ` line. */
  method FeedItem(stack: seq<StackEntry>, raw: string, indent: nat, item: string, env: Env,
                  ghost frames: seq<Frame>, ghost cells: Cells)
    returns (r: Result<seq<StackEntry>, ConfigError>, ghost frames': seq<Frame>)
    requires Path(stack, frames, cells) && frames != []
    modifies Nodes(stack)
    ensures match ItemStep(frames, raw, indent, item, env)
      case Err(e) => r == Err(e)
      case Ok(fs) => r.Ok? && fs == frames' && Path(r.value, frames', cells)
    ensures r.Ok? ==> stack <= r.value && forall n :: n in Nodes(r.value) ==> n in Nodes(stack) || fresh(n)
  {
    hide Path, ParseScalar, Strip, ColonAt, KeyStep;
    frames', r := frames, Ok(stack);
    TopKind(stack, frames, cells);
    if !stack[|stack| - 1].node.isList {
      r := Err(BadListItem(raw));
    } else if IsMappingItem(item) {
      var k := ColonAt(item);
      var parsed := ParseScalar(item[k + 1..], env);
      if parsed.Err? {
        r := Err(parsed.error);
      } else {
        ghost var v, items := Map([Pair(Strip(item[..k]), parsed.value)]), Top(frames).node.items;
        var child := new Node(false, [Strip(item[..k])], [Leaf(parsed.value)]);
        var st := AppendChild(stack, indent, child, v, frames, cells);
        frames', r := WithTop(frames, List(items + [v])) + [Frame(indent, v, |items|)], Ok(st);
      }
    } else {
      var parsed := ParseScalar(item, env);
      if parsed.Err? {
        r := Err(parsed.error);
      } else {
        AppendLeaf(stack, parsed.value, frames, cells);
        frames' := WithTop(frames, List(Top(frames).node.items + [parsed.value]));
      }
    }
  }

  /** A `key:` or `key: value` line. */
  method FeedKey(stack: seq<StackEntry>, raw: string, indent: nat, line: string, listNext: bool, env: Env,
                 ghost frames: seq<Frame>, ghost cells: Cells)
    returns (r: Result<seq<StackEntry>, ConfigError>, ghost frames': seq<Frame>)
    requires Path(stack, frames, cells) && frames != []
    modifies Nodes(stack)
    ensures match KeyStep(frames, raw, indent, line, listNext, env)
      case Err(e) => r == Err(e)
      case Ok(fs) => r.Ok? && fs == frames' && Path(r.value, frames', cells)
    ensures r.Ok? ==> stack <= r.value && forall n :: n in Nodes(r.value) ==> n in Nodes(stack) || fresh(n)
  {
    hide Path, ParseScalar, Strip, ColonAt, SlotOf, Put;
    frames', r := frames, Ok(stack);
    TopKind(stack, frames, cells);
    var k := ColonAt(line);
    if k == |line| {
      return Err(BadLine(raw)), frames;
    }
    var key, value := Strip(line[..k]), line[k + 1..];
    if stack[|stack| - 1].node.isList {
      return Err(MappingInsideList(raw)), frames;
    }
    var parsed := Ok(if listNext then List([]) else Map([]));
    if Strip(value) != "" {
      parsed := ParseScalar(value, env);
    }
    if parsed.Err? {
      return Err(parsed.error), frames;
    }
    ghost var es := Top(frames).node.entries;
    if Container(parsed.value) {
      var child := NewContainer(parsed.value, cells);
      var st := SetChild(stack, key, indent, child, parsed.value, frames, cells);
      frames' := WithTop(frames, Map(Put(es, key, parsed.value))) + [Frame(indent, parsed.value, SlotOf(es, key))];
      r := Ok(st);
    } else {
      SetLeaf(stack, key, parsed.value, frames, cells);
      frames' := WithTop(frames, Map(Put(es, key, parsed.value)));
    }
  }

  /** One entry of the text: the body of the parser's loop. */
  method Feed(stack: seq<StackEntry>, raw: string, listNext: bool, env: Env,
              ghost frames: seq<Frame>, ghost cells: Cells)
    returns (r: Result<seq<StackEntry>, ConfigError>, ghost frames': seq<Frame>, ghost cells': Cells)
    requires Path(stack, frames, cells) && stack[0].indent < 0
    modifies Nodes(stack)
    ensures match Step(frames, raw, listNext, env)
      case Err(e) => r == Err(e)
      case Ok(fs) => r.Ok? && fs == frames' && Path(r.value, frames', cells')
    ensures r.Ok? ==> r.value != [] && r.value[0] == stack[0]
    ensures r.Ok? ==> forall n :: n in Nodes(r.value) ==> n in Nodes(stack) || fresh(n)
  {
    hide Path, Strip, LStrip, LeadingSpaces, ItemStep, KeyStep, Settle;
    PathSizes(stack, frames, cells);
    frames', cells' := frames, cells;
    if '\t' in raw[..|raw| - |LStrip(raw)|] {
      return Err(TabIndent(raw)), frames, cells;
    }
    var indent, line := LeadingSpaces(raw), Strip(raw);
    var st;
    st, frames', cells' := PopTo(stack, indent, frames, cells);
    if StartsWith(line, "- ") {
      r, frames' := FeedItem(st, raw, indent, Strip(line[2..]), env, frames', cells');
    } else {
      r, frames' := FeedKey(st, raw, indent, line, listNext, env, frames', cells');
    }
  }

  method NewContainer(v: Value, ghost cells: Cells) returns (n: Node)
    requires Container(v)
    ensures fresh(n) && HoldsBut(n, v, cells, -1)
  {
    if v.List? {
      n := new Node(true, [], seq(|v.items|, i requires 0 <= i < |v.items| => Leaf(v.items[i])));
    } else {
      var es := v.entries;
      n := new Node(false, seq(|es|, i requires 0 <= i < |es| => es[i].key),
                    seq(|es|, i requires 0 <= i < |es| => Leaf(es[i].value)));
    }
  }

  /** Read off the references alone: from the root dict down, no container is on the stack twice,
      each is held by the one below it, and each is indented deeper. */
  ghost predicate ReferencePath(stack: seq<StackEntry>, root: Node)
    reads Nodes(stack)
  {
    && stack != [] && stack[0] == StackEntry(-1, root) && !root.isList
    && (forall i, j :: 0 <= i < j < |stack| ==> stack[i].node != stack[j].node)
    && forall i :: 0 <= i < |stack| - 1 ==>
      stack[i].indent < stack[i + 1].indent && Ref(stack[i + 1].node) in stack[i].node.slots
  }

  lemma PathIsReferencePath(stack: seq<StackEntry>, frames: seq<Frame>, cells: Cells)
    requires Path(stack, frames, cells) && Frames.RootToCursor(frames)
    ensures ReferencePath(stack, stack[0].node)
  {
    hide Settled;
    forall i | 0 <= i < |stack| - 1
      ensures stack[i].indent < stack[i + 1].indent && Ref(stack[i + 1].node) in stack[i].node.slots
    {
      assert Frames.LiveChild(frames[i], frames[i + 1]);
      assert HoldsAbove(stack[i].node, frames[i].node, cells, frames[i + 1].slot, stack[i + 1].node);
    }
    if |stack| > 1 {
      assert HoldsAbove(stack[0].node, frames[0].node, cells, frames[1].slot, stack[1].node);
    }
    assert ShapeOf(stack[0].node, frames[0].node);
  }

  /** The parser's loop, for its first `n` entries. */
  method FeedFirst(root: Node, entries: seq<string>, n: nat, env: Env)
    returns (r: Result<seq<StackEntry>, ConfigError>, ghost frames: seq<Frame>, ghost cells: Cells)
    requires n <= |entries| && !root.isList && root.keys == [] && root.slots == []
    modifies root
    ensures match Frames.StackAfter(entries, n, env)
      case Err(e) => r == Err(e)
      case Ok(fs) => r.Ok? && fs == frames && Path(r.value, frames, cells) && ReferencePath(r.value, root)
  {
    hide Path, Step, Strip, LeadingSpaces, NextIsList, ReferencePath, Frames.RootToCursor;
    var stack := [StackEntry(-1, root)];
    frames, cells := [ROOT], map[];
    RootPath(root);
    for index := 0 to n
      invariant stack != [] && stack[0] == StackEntry(-1, root)
      invariant Path(stack, frames, cells) && Frames.StackAfter(entries, index, env) == Ok(frames)
      invariant forall m :: m in Nodes(stack) ==> m == root || fresh(m)
    {
      var raw := entries[index];
      var listNext := NextIsList(entries[index + 1..], LeadingSpaces(raw));
      var fed;
      fed, frames, cells := Feed(stack, raw, listNext, env, frames, cells);
      if fed.Err? {
        Frames.StackStaysRejected(entries, index + 1, n, env);
        return Err(fed.error), frames, cells;
      }
      stack := fed.value;
    }
    Frames.StackIsAlwaysAPath(entries, n, env);
    PathIsReferencePath(stack, frames, cells);
    r := Ok(stack);
  }

  /** The parser: the pure result, built in place. On success `cells` gives every container's
      value, the root's being the parsed configuration. */
  method MinimalYamlLoad(text: string, env: Env) returns (r: Result<Node, ConfigError>, ghost cells: Cells)
    ensures Load(text, env).Err? ==> r == Err(Load(text, env).error)
    ensures Load(text, env).Ok? ==> r.Ok?
    ensures Load(text, env).Ok? ==> Settled(cells) && r.value in cells && cells[r.value] == Load(text, env).value
  {
    hide Path, Step, Strip, LeadingSpaces, NextIsList, Entries, SplitLines;
    var root := new Node(false, [], []);
    var entries := CleanLines(text);
    var fed;
    ghost var frames;
    fed, frames, cells := FeedFirst(root, entries, |entries|, env);
    Frames.StackAfterIsTheRun(entries, |entries|, env);
    if fed.Err? {
      return Err(fed.error), cells;
    }
    ghost var st := fed.value;
    PathSizes(st, frames, cells);
    while |st| > 1
      invariant Path(st, frames, cells) && |st| == |frames| > 0 && st[0].node == root
      invariant Ok(Close(frames)) == Load(text, env)
    {
      PopKeepsPath(st, frames, cells);
      cells := cells[st[|st| - 1].node := frames[|st| - 1].node];
      frames := Attach(frames);
      st := st[..|st| - 1];
    }
    SettleRoot(st, frames, cells);
    cells := cells[root := frames[0].node];
    r := Ok(root);
  }

  lemma RootPath(root: Node)
    requires !root.isList && root.keys == [] && root.slots == []
    ensures Path([StackEntry(-1, root)], [ROOT], map[])
  {
  }

  lemma SettleRoot(stack: seq<StackEntry>, frames: seq<Frame>, cells: Cells)
    requires Path(stack, frames, cells) && |stack| == 1
    ensures frames != [] && Settled(cells[stack[0].node := frames[0].node])
  {
    hide HoldsBut, HoldsAbove, Settled;
    SettleTop(stack[0].node, frames[0].node, cells);
  }

  // ---------------------------------------------------------------- printer

  method DumpMapping(mapping: seq<Pair>, indent: nat, env: Env) returns (lines: seq<string>)
    ensures lines == DumpEntries(mapping, indent, false, env)
    decreases mapping, 0
  {
    lines := DumpFrom(mapping, 0, indent, false, env);
    assert mapping[0..] == mapping;
  }

  method DumpListItem(item: Value, indent: nat, env: Env) returns (lines: seq<string>)
    ensures lines == DumpItem(item, indent, env)
    decreases item, 0
  {
    hide DumpEntries, Indented, DashLine, KeyLine, Spaced, DumpScalar;
    if !item.Map? {
      return [Indented(indent, DashLine(DumpScalar(item, env)))];
    }
    var es := item.entries;
    if es == [] {
      return [Indented(indent, DashLine("{}"))];
    }
    var rest := DumpFrom(es, 1, indent + 2, true, env);
    lines := [Indented(indent, DashLine(KeyLine(es[0].key, Spaced(DumpScalar(es[0].value, env)))))] + rest;
  }

  /** `for key, value in mapping.items()`, from the `first` item on. */
  method DumpFrom(es: seq<Pair>, first: nat, indent: nat, inItem: bool, env: Env) returns (lines: seq<string>)
    requires first <= |es|
    ensures lines == DumpEntries(es[first..], indent, inItem, env)
    decreases es, -1
  {
    hide DumpEntries, DumpEntry;
    lines := [];
    NoEntries(indent, inItem, env);
    assert es[|es|..] == [];
    for k := first to |es|
      invariant lines + DumpEntries(es[k..], indent, inItem, env) == DumpEntries(es[first..], indent, inItem, env)
    {
      SuffixSplit(es, k, indent, inItem, env);
      var entry := DumpPair(es[k], indent, inItem, env);
      lines := lines + entry;
    }
  }

  method DumpPair(e: Pair, indent: nat, inItem: bool, env: Env) returns (lines: seq<string>)
    ensures lines == DumpEntry(e, indent, inItem, env)
    decreases e, 0
  {
    hide DumpEntries, DumpItems, Indented, KeyLine, Spaced, DumpScalar;
    match e.value
    case Map(es) =>
      var nested := DumpMapping(es, indent + 2, env);
      lines := [Indented(indent, KeyLine(e.key, ""))] + nested;
    case List(items) =>
      if items == [] && !inItem {
        lines := [Indented(indent, KeyLine(e.key, Spaced("[]")))];
      } else {
        var nested := DumpList(items, indent + 2, env);
        lines := [Indented(indent, KeyLine(e.key, ""))] + nested;
      }
    case v =>
      lines := [Indented(indent, KeyLine(e.key, Spaced(DumpScalar(v, env))))];
  }

  method DumpList(items: seq<Value>, indent: nat, env: Env) returns (lines: seq<string>)
    ensures lines == DumpItems(items, indent, env)
    decreases items, 0
  {
    hide DumpItems, DumpItem;
    lines := [];
    NoItems(indent, env);
    assert items[|items|..] == [] && items[0..] == items;
    for k := 0 to |items|
      invariant lines + DumpItems(items[k..], indent, env) == DumpItems(items, indent, env)
    {
      ItemsSuffixSplit(items, k, indent, env);
      var item := DumpListItem(items[k], indent, env);
      lines := lines + item;
    }
  }

  method DumpConfig(config: seq<Pair>, env: Env) returns (text: string)
    ensures text == Dump(config, env)
  {
    var lines := DumpMapping(config, 0, env);
    text := JoinLines(lines);
  }

  lemma NoEntries(indent: nat, inItem: bool, env: Env)
    ensures DumpEntries([], indent, inItem, env) == []
  {
  }

  lemma NoItems(indent: nat, env: Env)
    ensures DumpItems([], indent, env) == []
  {
  }

  lemma SuffixSplit(es: seq<Pair>, k: nat, indent: nat, inItem: bool, env: Env)
    requires k < |es|
    ensures DumpEntries(es[k..], indent, inItem, env)
      == DumpEntry(es[k], indent, inItem, env) + DumpEntries(es[k + 1..], indent, inItem, env)
  {
    assert es[k..][1..] == es[k + 1..];
  }

  lemma ItemsSuffixSplit(items: seq<Value>, k: nat, indent: nat, env: Env)
    requires k < |items|
    ensures DumpItems(items[k..], indent, env)
      == DumpItem(items[k], indent, env) + DumpItems(items[k + 1..], indent, env)
  {
    assert items[k..][1..] == items[k + 1..];
  }
}
