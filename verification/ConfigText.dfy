/** The printed text: a document like those people write, so it loads to what it says; and exactly when
    that is the configuration that went in. */
module ConfigText {
  import opened Text
  import opened Config
  import opened ConfigRoundTrip
  import opened ConfigComments
  import opened ConfigScalars
  import opened ConfigDocs

  // ---------------------------------------------------------------- what the printer writes

  /** The document behind a printed value: quoted strings come back still escaped, and an empty list
      inside a list item is a bare key. */
  function DocOf(v: Value, inItem: bool, env: Env): Doc
    decreases v
  {
    match v
    case Map(es) => Block(2, DocEntries(es, false, env))
    case List(items) => if items == [] && !inItem then Line("[]", v) else Bullets(2, DocItems(items, env))
    case _ => Line(DumpScalar(v, env), ReloadScalar(v, env))
  }

  function DocEntries(es: seq<Pair>, inItem: bool, env: Env): (r: seq<Entry>)
    ensures |r| == |es| && forall i :: 0 <= i < |es| ==> r[i].key == es[i].key
    decreases es
  {
    if es == [] then [] else [Entry(es[0].key, DocOf(es[0].value, inItem, env))] + DocEntries(es[1..], inItem, env)
  }

  function DocItem(v: Value, env: Env): Item
    decreases v
  {
    if !v.Map? then Plain(DumpScalar(v, env), ReloadScalar(v, env))
    else if v.entries == [] then Plain("{}", Str("{}"))
    else
      var first := v.entries[0];
      Record(first.key, DumpScalar(first.value, env), ReloadScalar(first.value, env), 2,
             DocEntries(v.entries[1..], true, env))
  }

  function DocItems(items: seq<Value>, env: Env): seq<Item>
    decreases items
  {
    if items == [] then [] else [DocItem(items[0], env)] + DocItems(items[1..], env)
  }

  lemma WordMeans(t: string)
    requires Word(t) && Trimmed(t) && t[0] != '['
    ensures Means(t, WordValue(t))
  {
    assert t[0] != '|' && t[0] != '>';
    WordIsQuiet(t);
    hide Word, Trimmed, Quiet, WordValue;
  }

  lemma BoolMeans(b: bool)
    ensures Means(if b then "true" else "false", Bool(b))
  {
    var t := if b then "true" else "false";
    assert Word(t);
    assert WordValue(t) == Bool(b);
    WordShape();
    hide Word, Trimmed, WordValue, Means, ColonAt;
    WordMeans(t);
  }

  lemma BracesMean()
    ensures Means("{}", Str("{}"))
  {
    assert Word("{}");
    assert WordValue("{}") == Str("{}") by { assert !Digits("{}"); }
    WordShape();
    hide Word, Trimmed, WordValue, Means, ColonAt;
    WordMeans("{}");
  }

  lemma BareInt(t: string, n: int)
    requires t != "" && Trimmed(t) && Quiet(t) && IntLiteral(t) && IntValue(t) == n && (t[0] == '-' || IsDigit(t[0]))
    ensures Means(t, Int(n))
  {
    hide Trimmed, Quiet, IntLiteral, IntValue;
  }

  lemma IntMeans(n: int)
    ensures Means(IntText(n), Int(n)) && ':' !in IntText(n)
  {
    IntTextShape(n);
    IntTextIsWord(n);
    WordIsQuiet(IntText(n));
    ParseIntOfText(n);
    ParseIntMeans(IntText(n));
    hide IntText, ParseInt, Quiet, IntValue, IntLiteral, Trimmed, Word, Means, ColonAt;
    BareInt(IntText(n), n);
    assert forall i :: 0 <= i < |IntText(n)| ==> IntText(n)[i] != ':';
  }

  /** A printed scalar means what it reads back as. */
  lemma PrintedMeans(v: Value, env: Env)
    requires ReprOnOneLine(env) && (v.Str? ==> SingleLine(v.s))
    ensures Means(DumpScalar(v, env), ReloadScalar(v, env))
    ensures InQuotes(DumpScalar(v, env)) || ':' !in DumpScalar(v, env)
  {
    hide Quiet, WordValue, Escape, IntText, SingleLine, Trimmed;
    match v
    case Int(n) => IntMeans(n);
    case Bool(b) => BoolMeans(b);
    case Null =>
      EscapeNothing();
      assert SingleLine("") by { QuietIndent(0); QuietIsSingleLine(""); }
    case _ => assert SingleLine(TextOf(v, env));
  }

  // ---------------------------------------------------------------- the printed lines are the document's

  /** The printer's lines are those of a well written document, which stands for the reloaded entries. */
  lemma {:induction false} PrintedIsDoc(es: seq<Pair>, d: nat, inItem: bool, env: Env)
    requires OneLinerEntries(es) && DistinctKeys(es) && ReprOnOneLine(env)
    ensures var doc := DocEntries(es, inItem, env);
      && Written(doc) && DocLines(doc, d) == DumpEntries(es, d, inItem, env)
      && Values(doc) == ReloadEntries(es, inItem, env)
    decreases es
  {
    hide PlainKey, OneLiners, ReprOnOneLine, WrittenDoc, DocValue, DocOf, Reload, EntryLines, DumpEntry;
    if es != [] {
      assert OneLinerEntries(es[1..]) && DistinctKeys(es[1..]);
      PrintedEntryIsDoc(es[0], d, inItem, env);
      PrintedIsDoc(es[1..], d, inItem, env);
    }
  }

  lemma {:induction false} PrintedEntryIsDoc(e: Pair, d: nat, inItem: bool, env: Env)
    requires OneLiners(e.value) && ReprOnOneLine(env)
    ensures var doc := DocOf(e.value, inItem, env);
      && WrittenDoc(doc) && EntryLines(Entry(e.key, doc), d) == DumpEntry(e, d, inItem, env)
      && DocValue(doc) == Reload(e.value, inItem, env)
    decreases e
  {
    hide ReprOnOneLine, Means, DumpScalar, ReloadScalar, Written, WrittenItems, DocLines, BulletLines, DumpEntries,
         DumpItems, Values, ItemValues, DocEntries, DocItems, ReloadEntries, ReloadItems, KeyLine, Indented, Spaced,
         SingleLine;
    match e.value
    case Map(es) => PrintedIsDoc(es, d + 2, false, env);
    case List(items) =>
      PrintedItemsAreDoc(items, d + 2, env);
      EmptyListMeans();
      ItemsAlike(items, env);
    case _ => PrintedMeans(e.value, env);
  }

  lemma EmptyListMeans()
    ensures Means("[]", List([]))
  {
  }

  lemma ItemsAlike(items: seq<Value>, env: Env)
    ensures items == [] <==> DocItems(items, env) == []
    ensures items == [] ==> ReloadItems(items, env) == []
  {
  }

  lemma {:induction false} PrintedItemsAreDoc(items: seq<Value>, d: nat, env: Env)
    requires OneLiners(List(items)) && ReprOnOneLine(env)
    ensures var doc := DocItems(items, env);
      WrittenItems(doc) && BulletLines(doc, d) == DumpItems(items, d, env) && ItemValues(doc) == ReloadItems(items, env)
    decreases items
  {
    hide ReprOnOneLine, WrittenItem, ItemValue, DocItem, ReloadItem, ItemLines, DumpItem;
    if items != [] {
      assert OneLiners(items[0]) && OneLiners(List(items[1..]));
      PrintedItemIsDoc(items[0], d, env);
      PrintedItemsAreDoc(items[1..], d, env);
    }
  }

  lemma {:induction false} PrintedItemIsDoc(v: Value, d: nat, env: Env)
    requires OneLiners(v) && ReprOnOneLine(env)
    ensures var doc := DocItem(v, env);
      WrittenItem(doc) && ItemLines(doc, d) == DumpItem(v, d, env) && ItemValue(doc) == ReloadItem(v, env)
    decreases v
  {
    hide ReprOnOneLine, Means, DumpScalar, ReloadScalar, Written, DocLines, DumpEntries, Values, DocEntries,
         ReloadEntries, KeyLine, DashLine, Indented, Spaced, SingleLine, PlainKey, InQuotes;
    if !v.Map? {
      PrintedMeans(v, env);
    } else if v.entries == [] {
      BracesMean();
    } else {
      var es := v.entries;
      assert OneLiners(es[0].value) && PlainKey(es[0].key);
      PrintedMeans(es[0].value, env);
      assert OneLinerEntries(es[1..]) && DistinctKeys(es[1..]);
      PrintedIsDoc(es[1..], d + 2, true, env);
    }
  }

  // ---------------------------------------------------------------- main results

  /** A configuration the loader can be asked about: plain distinct keys, one-line strings. */
  predicate Printable(es: seq<Pair>) {
    OneLiners(Map(es))
  }

  /** Splitting the printed text and stripping comments gives back the printed lines. */
  lemma DumpedEntries(es: seq<Pair>, env: Env)
    requires Printable(es) && ReprOnOneLine(env)
    ensures Entries(SplitLines(Dump(es, env))) == DumpEntries(es, 0, false, env)
  {
    hide SplitLines, JoinLines, AllSurvive, Entries, OneLinerEntries, DistinctKeys, ReprOnOneLine, DumpEntries,
         SingleLine, Commented, Written, DocLines, DocEntries;
    PrintedIsDoc(es, 0, false, env);
    var lines := DumpEntries(es, 0, false, env);
    ConfigDocs.EntriesSurvive(DocEntries(es, false, env), 0);
    SurvivorsAreSingleLines(lines);
    UncommentedIsCommented(lines);
    EntriesOfText(lines, lines);
  }

  /** Loading what the printer wrote always succeeds, and gives exactly the reloaded entries,
      in order, at every nesting depth. */
  lemma DumpThenLoad(es: seq<Pair>, env: Env)
    requires Printable(es) && ReprOnOneLine(env)
    ensures Load(Dump(es, env), env) == Ok(Map(ReloadEntries(es, false, env)))
  {
    hide SplitLines, JoinLines, AllSurvive, OneLinerEntries, DistinctKeys, ReprOnOneLine, DumpEntries,
         ReloadEntries, SingleLine, Commented, Written, DocLines, DocEntries, Values, Load;
    PrintedIsDoc(es, 0, false, env);
    var lines := DumpEntries(es, 0, false, env);
    ConfigDocs.EntriesSurvive(DocEntries(es, false, env), 0);
    SurvivorsAreSingleLines(lines);
    UncommentedIsCommented(lines);
    WrittenLoads(DocEntries(es, false, env), lines, env);
  }

  /** The round trip holds exactly for the dumpable configurations. */
  lemma RoundTripIffDumpable(es: seq<Pair>, env: Env)
    requires Printable(es) && ReprOnOneLine(env)
    ensures Load(Dump(es, env), env) == Ok(Map(es)) <==> DumpableEntries(es, false)
  {
    DumpThenLoad(es, env);
    ReloadEntriesFixes(es, false, env);
  }

  /** Comments make no difference: a commented copy of a printed file loads as the file does. */
  lemma CommentsAreIgnored(es: seq<Pair>, text: seq<string>, env: Env)
    requires Printable(es) && ReprOnOneLine(env)
    requires Commented(DumpEntries(es, 0, false, env), text) && forall k :: 0 <= k < |text| ==> SingleLine(text[k])
    ensures Load(JoinLines(text), env) == Load(Dump(es, env), env)
  {
    hide SplitLines, JoinLines, AllSurvive, OneLinerEntries, DistinctKeys, ReprOnOneLine, DumpEntries, ReloadEntries,
         SingleLine, Commented, Written, DocLines, DocEntries, Values, Load, Dump;
    DumpThenLoad(es, env);
    PrintedIsDoc(es, 0, false, env);
    WrittenLoads(DocEntries(es, false, env), text, env);
  }
}
