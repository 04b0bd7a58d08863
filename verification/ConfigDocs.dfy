/** Configuration files as people write them: nested blocks at any indentation steps, lists of words
    and of records, words and quoted strings; and what the parser makes of them. */
module ConfigDocs {
  import opened Text
  import opened Config
  import opened ConfigRoundTrip
  import opened ConfigComments
  import opened ConfigScalars

  // ---------------------------------------------------------------- documents

  /** What stands behind a key: a text on the same line and what it means, a block `step` columns
      further in, or a list. */
  datatype Doc =
    | Line(text: string, v: Value)
    | Block(step: nat, entries: seq<Entry>)
    | Bullets(step: nat, items: seq<Item>)

  datatype Entry = Entry(key: string, doc: Doc)

  /** A `- text` line, or a `- key: text` line with further entries of the same record below it. */
  datatype Item =
    | Plain(text: string, v: Value)
    | Record(key: string, text: string, v: Value, step: nat, more: seq<Entry>)

  function EntryLines(e: Entry, d: nat): (lines: seq<string>)
    ensures lines != []
    decreases e
  {
    match e.doc
    case Line(text, _) => [Indented(d, KeyLine(e.key, Spaced(text)))]
    case Block(step, es) => [Indented(d, KeyLine(e.key, ""))] + DocLines(es, d + step)
    case Bullets(step, items) => [Indented(d, KeyLine(e.key, ""))] + BulletLines(items, d + step)
  }

  function DocLines(es: seq<Entry>, d: nat): seq<string>
    decreases es
  {
    if es == [] then [] else EntryLines(es[0], d) + DocLines(es[1..], d)
  }

  function ItemLines(item: Item, d: nat): (lines: seq<string>)
    ensures lines != []
    decreases item
  {
    match item
    case Plain(text, _) => [Indented(d, DashLine(text))]
    case Record(key, text, _, step, more) =>
      [Indented(d, DashLine(KeyLine(key, Spaced(text))))] + DocLines(more, d + step)
  }

  function BulletLines(items: seq<Item>, d: nat): seq<string>
    decreases items
  {
    if items == [] then [] else ItemLines(items[0], d) + BulletLines(items[1..], d)
  }

  /** A key with nothing below it is an empty dict. */
  function DocValue(doc: Doc): Value
    decreases doc
  {
    match doc
    case Line(_, v) => v
    case Block(_, es) => Map(Values(es))
    case Bullets(_, items) => if items == [] then Map([]) else List(ItemValues(items))
  }

  function Values(es: seq<Entry>): (r: seq<Pair>)
    ensures |r| == |es| && forall i :: 0 <= i < |es| ==> r[i].key == es[i].key
    decreases es
  {
    if es == [] then [] else [Pair(es[0].key, DocValue(es[0].doc))] + Values(es[1..])
  }

  function ItemValue(item: Item): Value
    decreases item
  {
    match item
    case Plain(_, v) => v
    case Record(key, _, v, _, more) => Map([Pair(key, v)] + Values(more))
  }

  function ItemValues(items: seq<Item>): (r: seq<Value>)
    ensures |r| == |items|
    decreases items
  {
    if items == [] then [] else [ItemValue(items[0])] + ItemValues(items[1..])
  }

  // ---------------------------------------------------------------- well written documents

  predicate OtherKeys(es: seq<Entry>, key: string) {
    forall i :: 0 <= i < |es| ==> es[i].key != key
  }

  /** Every text means what it stands for, nested lines are indented, keys are plain and distinct, and
      a bare list item holds no colon. */
  ghost predicate WrittenDoc(doc: Doc)
    decreases doc
  {
    match doc
    case Line(text, v) => Means(text, v)
    case Block(step, es) => step > 0 && Written(es)
    case Bullets(step, items) => step > 0 && WrittenItems(items)
  }

  ghost predicate Written(es: seq<Entry>)
    decreases es
  {
    es == [] ||
    (PlainKey(es[0].key) && WrittenDoc(es[0].doc) && OtherKeys(es[1..], es[0].key) && Written(es[1..]))
  }

  ghost predicate WrittenItem(item: Item)
    decreases item
  {
    match item
    case Plain(text, v) => Means(text, v) && (InQuotes(text) || ':' !in text)
    case Record(key, text, v, step, more) =>
      step > 0 && PlainKey(key) && Means(text, v) && OtherKeys(more, key) && Written(more)
  }

  ghost predicate WrittenItems(items: seq<Item>)
    decreases items
  {
    items == [] || (WrittenItem(items[0]) && WrittenItems(items[1..]))
  }

  // ---------------------------------------------------------------- first lines

  lemma EntryOpens(e: Entry, d: nat)
    requires PlainKey(e.key) && WrittenDoc(e.doc)
    ensures LeadingSpaces(EntryLines(e, d)[0]) == d && !StartsWith(Strip(EntryLines(e, d)[0]), "- ")
  {
    hide Strip, LStrip, LeadingSpaces, StartsWith, Trimmed, SolidEnd, PlainKey, KeyLine, Indented, Spaced, Means,
         Written, WrittenItems, DocLines, BulletLines;
    var rest := if e.doc.Line? then Spaced(e.doc.text) else "";
    EmptyEnd();
    if e.doc.Line? {
      MeansTrimmed(e.doc.text, e.doc.v);
      SpacedEnd(e.doc.text);
    }
    KeyLineShape(e.key, rest);
    IndentedLine(d, KeyLine(e.key, rest));
    assert EntryLines(e, d)[0] == Indented(d, KeyLine(e.key, rest));
  }

  lemma ItemOpens(item: Item, d: nat)
    requires WrittenItem(item)
    ensures LeadingSpaces(ItemLines(item, d)[0]) == d && StartsWith(Strip(ItemLines(item, d)[0]), "- ")
  {
    hide Strip, LStrip, LeadingSpaces, StartsWith, Trimmed, SolidEnd, PlainKey, KeyLine, DashLine, Indented, Spaced,
         Means, Written, DocLines;
    MeansTrimmed(item.text, item.v);
    var body := item.text;
    if item.Record? {
      SpacedEnd(item.text);
      body := KeyLine(item.key, Spaced(item.text));
      KeyLineShape(item.key, Spaced(item.text));
    }
    DashLineShape(body);
    IndentedLine(d, DashLine(body));
    assert ItemLines(item, d)[0] == Indented(d, DashLine(body));
  }

  lemma FollowEntries(es: seq<Entry>, d: nat, rest: seq<string>)
    requires Written(es) && Follows(rest, d)
    ensures Follows(DocLines(es, d) + rest, d)
    ensures es != [] ==> !StartsWith(Strip((DocLines(es, d) + rest)[0]), "- ")
  {
    hide Strip, LeadingSpaces, StartsWith, EntryLines, WrittenDoc, PlainKey;
    if es == [] {
      assert DocLines(es, d) + rest == rest;
    } else {
      EntryOpens(es[0], d);
      assert (DocLines(es, d) + rest)[0] == EntryLines(es[0], d)[0];
    }
  }

  lemma FollowItems(items: seq<Item>, d: nat, rest: seq<string>)
    requires WrittenItems(items) && Follows(rest, d)
    ensures Follows(BulletLines(items, d) + rest, d)
    ensures items != [] ==>
      var line := (BulletLines(items, d) + rest)[0];
      LeadingSpaces(line) == d && StartsWith(Strip(line), "- ")
  {
    hide Strip, LeadingSpaces, StartsWith, ItemLines, WrittenItem;
    if items == [] {
      assert BulletLines(items, d) + rest == rest;
    } else {
      ItemOpens(items[0], d);
      assert (BulletLines(items, d) + rest)[0] == ItemLines(items[0], d)[0];
    }
  }

  // ---------------------------------------------------------------- documents through the parser

  lemma NewKeysAfter(node: Value, es: seq<Entry>, r: Pair)
    requires node.Map? && es != [] && Written(es) && r.key == es[0].key
    requires NewKeys(node.entries, Values(es))
    ensures PlainKey(es[0].key) && WrittenDoc(es[0].doc) && Written(es[1..]) && NewKey(node, es[0].key)
    ensures NewKeys(node.entries + [r], Values(es[1..]))
  {
    hide PlainKey, WrittenDoc, Written, Values;
    assert Written(es) ==> OtherKeys(es[1..], es[0].key) by { OtherKeysAfter(es); }
    var vs := Values(es);
    assert vs[0].key == es[0].key;
    forall j | 0 <= j < |es[1..]| ensures Values(es[1..])[j].key == vs[j + 1].key == es[j + 1].key {}
    assert PlainKey(es[0].key) && WrittenDoc(es[0].doc) && Written(es[1..]) by { OtherKeysAfter(es); }
  }

  lemma OtherKeysAfter(es: seq<Entry>)
    requires es != [] && Written(es)
    ensures PlainKey(es[0].key) && WrittenDoc(es[0].doc) && OtherKeys(es[1..], es[0].key) && Written(es[1..])
  {
    hide PlainKey, WrittenDoc;
  }

  lemma EntriesSplit(before: seq<Pair>, es: seq<Entry>, d: nat, rest: seq<string>)
    ensures es == [] ==> DocLines(es, d) + rest == rest && before + Values(es) == before
    ensures es != [] ==>
      && DocLines(es, d) + rest == EntryLines(es[0], d) + (DocLines(es[1..], d) + rest)
      && before + Values(es) == before + [Pair(es[0].key, DocValue(es[0].doc))] + Values(es[1..])
  {
    hide EntryLines, DocValue;
  }

  /** The lines of a block, parsed into the dict on top of the stack, add to it what the block stands
      for, whatever follows. */
  lemma {:induction false} LoadEntries(below: seq<Frame>, top: Frame, es: seq<Entry>, d: nat, rest: seq<string>,
                                       env: Env)
    requires top.indent < d && top.node.Map? && Follows(rest, d)
    requires Written(es) && NewKeys(top.node.entries, Values(es))
    ensures Run(OnTop(below, top), DocLines(es, d) + rest, env)
      == Run(OnTop(below, top.(node := Map(top.node.entries + Values(es)))), rest, env)
    decreases es, 0
  {
    hide Run, Follows, EntryLines, DocLines, DocValue, Values, NewKeys, NewKey, Written, WrittenDoc, PlainKey;
    var before := top.node.entries;
    EntriesSplit(before, es, d, rest);
    if es != [] {
      var r := Pair(es[0].key, DocValue(es[0].doc));
      NewKeysAfter(top.node, es, r);
      FollowEntries(es[1..], d, rest);
      LoadEntry(below, top, es[0], d, DocLines(es[1..], d) + rest, env);
      LoadEntries(below, top.(node := Map(before + [r])), es[1..], d, rest, env);
    }
  }

  lemma {:induction false} LoadEntry(below: seq<Frame>, top: Frame, e: Entry, d: nat, rest: seq<string>, env: Env)
    requires top.indent < d && NewKey(top.node, e.key) && Follows(rest, d)
    requires PlainKey(e.key) && WrittenDoc(e.doc)
    ensures Run(OnTop(below, top), EntryLines(e, d) + rest, env)
      == Run(OnTop(below, top.(node := Map(top.node.entries + [Pair(e.key, DocValue(e.doc))]))), rest, env)
    decreases e, 0
  {
    hide Run, ParseScalar, PlainKey, Follows, Trimmed, KeyLine, Indented, Spaced, DocLines, BulletLines, Values,
         ItemValues, Means, Written, WrittenItems;
    match e.doc
    case Line(text, v) =>
      MeansTrimmed(text, v);
      MeansReads(text, v, env);
      LoadScalarEntry(below, top, e.key, text, v, d, rest, env);
    case Block(step, es) => LoadBlock(below, top, e.key, es, d, d + step, rest, env);
    case Bullets(step, items) => LoadBullets(below, top, e.key, items, d, d + step, rest, env);
  }

  lemma {:induction false} LoadBlock(below: seq<Frame>, top: Frame, key: string, es: seq<Entry>, d: nat, inner: nat,
                                     rest: seq<string>, env: Env)
    requires top.indent < d < inner && NewKey(top.node, key) && PlainKey(key) && Follows(rest, d) && Written(es)
    ensures Run(OnTop(below, top), [Indented(d, KeyLine(key, ""))] + DocLines(es, inner) + rest, env)
      == Run(OnTop(below, top.(node := Map(top.node.entries + [Pair(key, Map(Values(es)))]))), rest, env)
    decreases es, 1
  {
    hide Run, LeadingSpaces, NextIsList, PlainKey, Written, DocLines, Values, NewKey, KeyLine, Indented;
    assert top.node.Map? by { NewKeyInMap(top.node, key); }
    var before := top.node.entries;
    var lines := DocLines(es, inner) + rest;
    NoListBelow(es, d, inner, rest);
    LoadOpening(below, top, key, d, lines, env);
    assert [Indented(d, KeyLine(key, ""))] + DocLines(es, inner) + rest == [Indented(d, KeyLine(key, ""))] + lines;
    var top' := top.(node := Map(before + [Pair(key, Map([]))]));
    LoadEntries(OnTop(below, top'), Frame(d, Map([]), |before|), es, inner, rest, env);
    var full := Map(Values(es));
    assert [] + Values(es) == Values(es);
    RunFinish(below, top', Frame(d, full, |before|), rest, env);
    assert (before + [Pair(key, Map([]))])[|before| := Pair(key, full)] == before + [Pair(key, full)];
  }

  lemma NoListBelow(es: seq<Entry>, d: nat, inner: nat, rest: seq<string>)
    requires Written(es) && Follows(rest, d) && d < inner
    ensures !NextIsList(DocLines(es, inner) + rest, d)
    ensures Follows(rest, inner)
  {
    hide LeadingSpaces, Strip, StartsWith, Written, EntryLines;
    FollowEntries(es, inner, rest);
    if es == [] { assert DocLines(es, inner) + rest == rest; }
  }

  lemma {:induction false} LoadBullets(below: seq<Frame>, top: Frame, key: string, items: seq<Item>, d: nat, inner: nat,
                                       rest: seq<string>, env: Env)
    requires top.indent < d < inner && NewKey(top.node, key) && PlainKey(key) && Follows(rest, d)
    requires WrittenItems(items)
    ensures var v := if items == [] then Map([]) else List(ItemValues(items));
      Run(OnTop(below, top), [Indented(d, KeyLine(key, ""))] + BulletLines(items, inner) + rest, env)
      == Run(OnTop(below, top.(node := Map(top.node.entries + [Pair(key, v)]))), rest, env)
    decreases items, 1
  {
    hide Run, LeadingSpaces, Strip, StartsWith, PlainKey, WrittenItems, ItemLines, ItemValue, NewKey, KeyLine, Indented;
    assert top.node.Map? by { NewKeyInMap(top.node, key); }
    var before := top.node.entries;
    var lines := BulletLines(items, inner) + rest;
    assert Follows(rest, inner);
    FollowItems(items, inner, rest);
    var empty := if items == [] then Map([]) else List([]);
    assert NextIsList(lines, d) == (items != []) by { if items == [] { assert lines == rest; } }
    LoadOpening(below, top, key, d, lines, env);
    assert [Indented(d, KeyLine(key, ""))] + BulletLines(items, inner) + rest
      == [Indented(d, KeyLine(key, ""))] + lines;
    var top' := top.(node := Map(before + [Pair(key, empty)]));
    var full := if items == [] then Map([]) else List(ItemValues(items));
    if items == [] {
      assert lines == rest;
    } else {
      LoadItems(OnTop(below, top'), Frame(d, List([]), |before|), items, inner, rest, env);
      assert [] + ItemValues(items) == ItemValues(items);
    }
    RunFinish(below, top', Frame(d, full, |before|), rest, env);
    assert (before + [Pair(key, empty)])[|before| := Pair(key, full)] == before + [Pair(key, full)];
  }

  /** The items of a list are added to the list on top. */
  lemma {:induction false} LoadItems(below: seq<Frame>, top: Frame, items: seq<Item>, d: nat, rest: seq<string>,
                                     env: Env)
    requires top.indent < d && top.node.List? && Follows(rest, d) && WrittenItems(items)
    ensures Run(OnTop(below, top), BulletLines(items, d) + rest, env)
      == Run(OnTop(below, top.(node := List(top.node.items + ItemValues(items)))), rest, env)
    decreases items, 0
  {
    hide Run, Follows, ItemLines, BulletLines, ItemValue, ItemValues, WrittenItems, WrittenItem;
    var before := top.node.items;
    ItemsSplit(before, items, d, rest);
    if items != [] {
      FollowItems(items[1..], d, rest);
      LoadItem(below, top, items[0], d, BulletLines(items[1..], d) + rest, env);
      LoadItems(below, top.(node := List(before + [ItemValue(items[0])])), items[1..], d, rest, env);
    }
  }

  lemma ItemsSplit(before: seq<Value>, items: seq<Item>, d: nat, rest: seq<string>)
    requires WrittenItems(items)
    ensures items == [] ==> BulletLines(items, d) + rest == rest && before + ItemValues(items) == before
    ensures items != [] ==>
      && WrittenItem(items[0]) && WrittenItems(items[1..])
      && BulletLines(items, d) + rest == ItemLines(items[0], d) + (BulletLines(items[1..], d) + rest)
      && before + ItemValues(items) == before + [ItemValue(items[0])] + ItemValues(items[1..])
  {
    hide ItemLines, ItemValue, WrittenItem;
  }

  lemma {:induction false} LoadItem(below: seq<Frame>, top: Frame, item: Item, d: nat, rest: seq<string>, env: Env)
    requires top.indent < d && top.node.List? && Follows(rest, d) && WrittenItem(item)
    ensures Run(OnTop(below, top), ItemLines(item, d) + rest, env)
      == Run(OnTop(below, top.(node := List(top.node.items + [ItemValue(item)]))), rest, env)
    decreases item
  {
    hide Run, Follows, ItemLines, ItemValue;
    if item.Plain? { LoadPlain(below, top, item, d, rest, env); } else { LoadRecord(below, top, item, d, rest, env); }
  }

  lemma LoadPlain(below: seq<Frame>, top: Frame, item: Item, d: nat, rest: seq<string>, env: Env)
    requires top.indent < d && top.node.List? && WrittenItem(item) && item.Plain?
    ensures Run(OnTop(below, top), ItemLines(item, d) + rest, env)
      == Run(OnTop(below, top.(node := List(top.node.items + [ItemValue(item)]))), rest, env)
  {
    hide Run, Step, NextIsList, LeadingSpaces, Trimmed, ParseScalar, ColonAt, DashLine, Indented, Means;
    var frames := OnTop(below, top);
    var top' := top.(node := List(top.node.items + [item.v]));
    var line := Indented(d, DashLine(item.text));
    MeansTrimmed(item.text, item.v);
    MeansReads(item.text, item.v, env);
    if !InQuotes(item.text) { NoColon(item.text); }
    ScalarItemLine(frames, d, item.text, item.v, NextIsList(rest, LeadingSpaces(line)), env);
    assert WithTop(frames, top'.node) == OnTop(below, top');
    RunStep(frames, line, rest, OnTop(below, top'), env);
  }

  lemma {:induction false} LoadRecord(below: seq<Frame>, top: Frame, item: Item, d: nat, rest: seq<string>, env: Env)
    requires top.indent < d && top.node.List? && Follows(rest, d) && WrittenItem(item) && item.Record?
    ensures Run(OnTop(below, top), ItemLines(item, d) + rest, env)
      == Run(OnTop(below, top.(node := List(top.node.items + [ItemValue(item)]))), rest, env)
    decreases item, 0
  {
    hide Run, Step, NextIsList, LeadingSpaces, Trimmed, ParseScalar, PlainKey, DocLines, Values, Written, NewKeys,
         KeyLine, DashLine, Indented, Spaced, Means;
    var frames, key, v, more := OnTop(below, top), item.key, item.v, item.more;
    var before, inner := top.node.items, d + item.step;
    var line := Indented(d, DashLine(KeyLine(key, Spaced(item.text))));
    var lines := DocLines(more, inner) + rest;
    MeansTrimmed(item.text, v);
    MeansReads(item.text, v, env);
    MappingItemLine(frames, d, key, item.text, v, NextIsList(lines, LeadingSpaces(line)), env);
    var first := Map([Pair(key, v)]);
    var top' := top.(node := List(before + [first]));
    assert WithTop(frames, top'.node) == OnTop(below, top');
    RunStep(frames, line, lines, OnTop(OnTop(below, top'), Frame(d, first, |before|)), env);
    assert ItemLines(item, d) + rest == [line] + lines;
    assert NewKeys(first.entries, Values(more)) by { FirstKey(Pair(key, v), more); }
    LoadEntries(OnTop(below, top'), Frame(d, first, |before|), more, inner, rest, env);
    var full := ItemValue(item);
    RunFinish(below, top', Frame(d, full, |before|), rest, env);
    assert (before + [first])[|before| := full] == before + [full];
  }

  lemma FirstKey(r: Pair, more: seq<Entry>)
    requires OtherKeys(more, r.key)
    ensures NewKeys([r], Values(more))
  {
    hide Values;
  }

  // ---------------------------------------------------------------- documents through the scanner

  lemma {:induction false} EntriesSurvive(es: seq<Entry>, d: nat)
    requires Written(es)
    ensures AllSurvive(DocLines(es, d))
    decreases es
  {
    hide Survives, PlainKey, EntryLines, WrittenDoc;
    if es != [] {
      EntrySurvives(es[0], d);
      EntriesSurvive(es[1..], d);
      Concat(EntryLines(es[0], d), DocLines(es[1..], d));
    }
  }

  lemma {:induction false} EntrySurvives(e: Entry, d: nat)
    requires PlainKey(e.key) && WrittenDoc(e.doc)
    ensures AllSurvive(EntryLines(e, d))
    decreases e
  {
    hide Survives, AllSurvive, PlainKey, DocLines, BulletLines, Means, Written, WrittenItems, KeyLine, Indented, Spaced;
    var head := Indented(d, KeyLine(e.key, ""));
    HeadSurvives(d, e.key);
    match e.doc
    case Line(text, v) => LineSurvives(d, e.key, text, v);
    case Block(step, es) =>
      EntriesSurvive(es, d + step);
      Concat([head], DocLines(es, d + step));
    case Bullets(step, items) =>
      ItemsSurvive(items, d + step);
      Concat([head], BulletLines(items, d + step));
  }

  lemma {:induction false} ItemsSurvive(items: seq<Item>, d: nat)
    requires WrittenItems(items)
    ensures AllSurvive(BulletLines(items, d))
    decreases items
  {
    hide Survives, ItemLines, WrittenItem;
    if items != [] {
      ItemSurvives(items[0], d);
      ItemsSurvive(items[1..], d);
      Concat(ItemLines(items[0], d), BulletLines(items[1..], d));
    }
  }

  lemma {:induction false} ItemSurvives(item: Item, d: nat)
    requires WrittenItem(item)
    ensures AllSurvive(ItemLines(item, d))
    decreases item
  {
    hide Survives, AllSurvive, PlainKey, DocLines, Means, Written, DashLine, KeyLine, Indented, Spaced;
    match item
    case Plain(text, v) => DashSurvives(d, text, v);
    case Record(key, text, v, step, more) =>
      RecordSurvives(d, key, text, v);
      EntriesSurvive(more, d + step);
      Concat([Indented(d, DashLine(KeyLine(key, Spaced(text))))], DocLines(more, d + step));
  }

  lemma LineSurvives(d: nat, key: string, text: string, v: Value)
    requires PlainKey(key) && Means(text, v)
    ensures AllSurvive([Indented(d, KeyLine(key, Spaced(text)))])
  {
    hide Survives, AllSurvive, Quiet, PlainKey, Means, KeyLine, Indented, Spaced;
    PlainHead(d, key);
    MeansSurvives(Indented(d, KeyLine(key, Spaced(""))), text, v);
    KeyLineAppend(d, key, Spaced(""), text);
    SpacedAppend(text);
    One(Indented(d, KeyLine(key, Spaced(text))));
  }

  lemma DashSurvives(d: nat, text: string, v: Value)
    requires Means(text, v)
    ensures AllSurvive([Indented(d, DashLine(text))])
  {
    QuietIndent(d);
    hide Survives, AllSurvive, Quiet, Means, DashLine, Indented;
    DashAppend(d, text);
    MeansSurvives(Indented(d, DashLine("")), text, v);
    One(Indented(d, DashLine(text)));
  }

  lemma RecordSurvives(d: nat, key: string, text: string, v: Value)
    requires PlainKey(key) && Means(text, v)
    ensures AllSurvive([Indented(d, DashLine(KeyLine(key, Spaced(text))))])
  {
    QuietIndent(d);
    hide Survives, AllSurvive, Quiet, PlainKey, Means, KeyLine, DashLine, Indented, Spaced;
    var dash, head := Indented(d, DashLine("")), KeyLine(key, Spaced(""));
    PlainHead(d, key);
    QuietConcat(dash, head);
    MeansSurvives(dash + head, text, v);
    Assoc(dash, head, text);
    KeyLineTail(key, text);
    DashAppend(d, KeyLine(key, Spaced(text)));
    One(Indented(d, DashLine(KeyLine(key, Spaced(text)))));
  }

  /** `key:` alone. */
  lemma HeadSurvives(d: nat, key: string)
    requires PlainKey(key)
    ensures AllSurvive([Indented(d, KeyLine(key, ""))])
  {
    hide Survives, AllSurvive, Quiet, PlainKey, IsSpace, KeyLine, Indented, Spaced;
    var head := Indented(d, KeyLine(key, ""));
    PlainHead(d, key);
    KeyLineLast(d, key);
    QuietSurvives(head);
    One(head);
  }

  lemma SpacedAppend(t: string)
    ensures Spaced("") + t == Spaced(t)
  {
    assert " " + "" == " ";
  }

  lemma KeyLineAppend(d: nat, key: string, rest: string, t: string)
    ensures Indented(d, KeyLine(key, rest)) + t == Indented(d, KeyLine(key, rest + t))
  {
    Assoc(key + ":", rest, t);
    Assoc(Spaces(d), KeyLine(key, rest), t);
  }

  lemma DashAppend(d: nat, t: string)
    ensures Indented(d, DashLine("")) + t == Indented(d, DashLine(t))
  {
    assert "- " + "" == "- ";
    Assoc(Spaces(d), "- ", t);
  }

  lemma KeyLineLast(d: nat, key: string)
    ensures var line := Indented(d, KeyLine(key, "")); line != "" && !IsSpace(line[|line| - 1])
  {
    SpaceFacts();
    hide IsSpace;
    assert KeyLine(key, "")[|key|] == ':';
  }

  lemma PlainHead(d: nat, key: string)
    requires PlainKey(key)
    ensures Quiet(Indented(d, KeyLine(key, ""))) && Quiet(Indented(d, KeyLine(key, Spaced(""))))
    ensures Quiet(KeyLine(key, Spaced("")))
  {
    QuietIndent(d);
    hide Quiet, PlainKey, KeyLine, Spaced, DashLine;
    QuietKeyLine(key, "");
    QuietKeyLine(key, Spaced(""));
    QuietConcat(Spaces(d), KeyLine(key, ""));
    QuietConcat(Spaces(d), KeyLine(key, Spaced("")));
  }

  lemma KeyLineTail(key: string, t: string)
    ensures KeyLine(key, Spaced("")) + t == KeyLine(key, Spaced(t))
  {
    Assoc(key + ":", Spaced(""), t);
    SpacedAppend(t);
  }

  // ---------------------------------------------------------------- main result

  /** A file as people write it, with any comments, loads to what it says: every key to the number, truth
      value or word behind it, the quoted text, the list or the block below it, in order. */
  lemma WrittenLoads(es: seq<Entry>, text: seq<string>, env: Env)
    requires Written(es) && Commented(DocLines(es, 0), text)
    requires forall k :: 0 <= k < |text| ==> SingleLine(text[k])
    ensures Load(JoinLines(text), env) == Ok(Map(Values(es)))
  {
    hide SplitLines, JoinLines, AllSurvive, Entries, SingleLine, Run, Commented, DocLines, Values, Written;
    var lines := DocLines(es, 0);
    EntriesSurvive(es, 0);
    EntriesOfText(lines, text);
    LoadEntries([], ROOT, es, 0, [], env);
    assert OnTop([], ROOT) == [ROOT] && lines + [] == lines;
    assert [] + Values(es) == Values(es);
    var all := ROOT.(node := Map(Values(es)));
    assert OnTop([], all) == [all];
    NothingLeft(Map(Values(es)), env);
  }

  lemma NothingLeft(v: Value, env: Env)
    ensures Run([ROOT.(node := v)], [], env) == Ok(v)
  {
  }
}
