/** What the parser's stack and result keep for every input text, accepted or not. */
module ConfigStack {
  import opened Text
  import opened Config
  import opened ConfigRoundTrip

  function ChildAt(v: Value, slot: nat): Value {
    match v
    case Map(es) => if slot < |es| then es[slot].value else Null
    case List(items) => if slot < |items| then items[slot] else Null
    case _ => Null
  }

  predicate SameKind(v: Value, w: Value) {
    (v.Map? && w.Map?) || (v.List? && w.List?)
  }

  /** `above` is a live child of `below`, one or more columns deeper. */
  predicate LiveChild(below: Frame, above: Frame) {
    below.indent < above.indent && SameKind(ChildAt(below.node, above.slot), above.node)
  }

  /** The stack is a path from the root dict to the cursor. */
  predicate RootToCursor(frames: seq<Frame>) {
    && frames != [] && frames[0].indent == -1 && frames[0].node.Map?
    && forall i :: 0 <= i < |frames| - 1 ==> LiveChild(frames[i], frames[i + 1])
  }

  lemma AttachKeepsPath(frames: seq<Frame>)
    requires RootToCursor(frames) && |frames| >= 2
    ensures RootToCursor(Attach(frames))
  {
    var n := |frames|;
    var r := Attach(frames);
    assert LiveChild(frames[n - 2], frames[n - 1]);
    assert forall i :: 0 <= i < n - 2 ==> r[i] == frames[i];
    assert SameKind(frames[n - 2].node, r[n - 2].node);
    if n > 2 { assert LiveChild(frames[n - 3], frames[n - 2]); }
    forall i | 0 <= i < |r| - 1 ensures LiveChild(r[i], r[i + 1]) {
      assert LiveChild(frames[i], frames[i + 1]);
    }
  }

  lemma {:induction false} SettleKeepsPath(frames: seq<Frame>, indent: nat)
    requires RootToCursor(frames)
    ensures RootToCursor(Settle(frames, indent)) && Top(Settle(frames, indent)).indent < indent
    decreases |frames|
  {
    hide Attach, LiveChild;
    if |frames| >= 2 && indent <= Top(frames).indent {
      AttachKeepsPath(frames);
      SettleKeepsPath(Attach(frames), indent);
    }
  }

  /** Adding to the container on top, and pushing what was added, extends the path. */
  lemma GrowKeepsPath(frames: seq<Frame>, node: Value)
    requires RootToCursor(frames) && SameKind(Top(frames).node, node)
    ensures RootToCursor(WithTop(frames, node))
  {
    var n, r := |frames|, WithTop(frames, node);
    forall i | 0 <= i < n - 1 ensures LiveChild(r[i], r[i + 1]) {
      assert LiveChild(frames[i], frames[i + 1]);
    }
  }

  lemma PushKeepsPath(frames: seq<Frame>, child: Frame)
    requires RootToCursor(frames) && LiveChild(Top(frames), child)
    ensures RootToCursor(frames + [child])
  {
    var r := frames + [child];
    forall i | 0 <= i < |r| - 1 ensures LiveChild(r[i], r[i + 1]) {
      if i < |frames| - 1 { assert LiveChild(frames[i], frames[i + 1]); }
    }
  }

  lemma ItemKeepsPath(frames: seq<Frame>, raw: string, indent: nat, item: string, env: Env)
    requires frames != [] && RootToCursor(frames) && Top(frames).indent < indent
    ensures var r := ItemStep(frames, raw, indent, item, env); r.Ok? ==> RootToCursor(r.value)
  {
    hide ParseScalar, Strip, ColonAt, RootToCursor;
    if Top(frames).node.List? {
      var items := Top(frames).node.items;
      forall v: Value
        ensures RootToCursor(WithTop(frames, List(items + [v])))
        ensures v.Map? ==> RootToCursor(WithTop(frames, List(items + [v])) + [Frame(indent, v, |items|)])
      {
        GrowKeepsPath(frames, List(items + [v]));
        if v.Map? { PushKeepsPath(WithTop(frames, List(items + [v])), Frame(indent, v, |items|)); }
      }
    }
  }

  lemma KeyKeepsPath(frames: seq<Frame>, raw: string, indent: nat, line: string, listNext: bool, env: Env)
    requires frames != [] && RootToCursor(frames) && Top(frames).indent < indent
    ensures var r := KeyStep(frames, raw, indent, line, listNext, env); r.Ok? ==> RootToCursor(r.value)
  {
    hide ParseScalar, Strip, ColonAt, RootToCursor, SlotOf;
    if Top(frames).node.Map? {
      var es := Top(frames).node.entries;
      forall key: string, v: Value
        ensures RootToCursor(WithTop(frames, Map(Put(es, key, v))))
        ensures Container(v) ==>
          RootToCursor(WithTop(frames, Map(Put(es, key, v))) + [Frame(indent, v, SlotOf(es, key))])
      {
        GrowKeepsPath(frames, Map(Put(es, key, v)));
        if Container(v) {
          PushKeepsPath(WithTop(frames, Map(Put(es, key, v))), Frame(indent, v, SlotOf(es, key)));
        }
      }
    }
  }

  lemma StepKeepsPath(frames: seq<Frame>, raw: string, listNext: bool, env: Env)
    requires frames != [] && RootToCursor(frames)
    ensures var r := Step(frames, raw, listNext, env); r.Ok? ==> RootToCursor(r.value)
  {
    hide ParseScalar, Strip, LStrip, ColonAt, RootToCursor, ItemStep, KeyStep, LeadingSpaces;
    var indent, line := LeadingSpaces(raw), Strip(raw);
    SettleKeepsPath(frames, indent);
    KeyKeepsPath(Settle(frames, indent), raw, indent, line, listNext, env);
    if |line| >= 2 { ItemKeepsPath(Settle(frames, indent), raw, indent, Strip(line[2..]), env); }
  }

  /** The stack after the first `n` entries, as long as none of them was rejected. */
  function StackAfter(entries: seq<string>, n: nat, env: Env): (r: Result<seq<Frame>, ConfigError>)
    requires n <= |entries|
    ensures r.Ok? ==> r.value != []
  {
    if n == 0 then Ok([ROOT])
    else
      var frames :- StackAfter(entries, n - 1, env);
      Step(frames, entries[n - 1], NextIsList(entries[n..], LeadingSpaces(entries[n - 1])), env)
  }

  lemma {:induction false} StackStaysRejected(entries: seq<string>, m: nat, n: nat, env: Env)
    requires m <= n <= |entries|
    ensures StackAfter(entries, m, env).Err? ==> StackAfter(entries, n, env) == StackAfter(entries, m, env)
    decreases n
  {
    hide Step, NextIsList, LeadingSpaces;
    if m < n { StackStaysRejected(entries, m, n - 1, env); }
  }

  lemma RootIsAPath()
    ensures RootToCursor([ROOT])
  {
  }

  /** For every text, at every point the parser reaches. */
  lemma {:induction false} StackIsAlwaysAPath(entries: seq<string>, n: nat, env: Env)
    requires n <= |entries|
    ensures StackAfter(entries, n, env).Ok? ==> RootToCursor(StackAfter(entries, n, env).value)
  {
    hide Step, NextIsList, LeadingSpaces, RootToCursor;
    RootIsAPath();
    if n > 0 {
      StackIsAlwaysAPath(entries, n - 1, env);
      var frames := StackAfter(entries, n - 1, env);
      if frames.Ok? {
        StepKeepsPath(frames.value, entries[n - 1], NextIsList(entries[n..], LeadingSpaces(entries[n - 1])), env);
      }
    }
  }

  /** `StackAfter` is the run `Load` makes: from it the remaining entries give the same outcome. */
  lemma {:induction false} StackAfterIsTheRun(entries: seq<string>, n: nat, env: Env)
    requires n <= |entries|
    ensures match StackAfter(entries, n, env)
      case Ok(frames) => Run(frames, entries[n..], env) == Run([ROOT], entries, env)
      case Err(e) => Run([ROOT], entries, env) == Err(e)
  {
    hide Step, NextIsList, LeadingSpaces;
    if n == 0 {
      assert entries[0..] == entries;
    } else {
      StackAfterIsTheRun(entries, n - 1, env);
      assert entries[n - 1..][1..] == entries[n..];
    }
  }
}
