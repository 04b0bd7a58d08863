/** What repairing aliased modes guarantees, over every JSON tree. */
module AliasRepair {
  import opened Text
  import opened Json
  import opened Aliases

  // ---------------------------------------------------------------- looking into trees

  function Child(t: Json, s: Step): Option<Json> {
    match s
    case Key(key) => if t.Object? then Get(t.fields, key) else None
    case Index(i) => if t.List? && i < |t.items| then Some(t.items[i]) else None
  }

  /** The value at path `p`. */
  function At(t: Json, p: Path): Option<Json>
    decreases |p|
  {
    if p == [] then Some(t) else
    var child := Child(t, p[0]);
    if child.Some? then At(child.value, p[1..]) else None
  }

  /** Path `p` leads to a field `mode` that holds an alias. */
  predicate AliasAt(t: Json, p: Path) {
    p != [] && p[|p| - 1] == Key("mode") && At(t, p).Some? && AliasOf(At(t, p).value).Some?
  }

  // ---------------------------------------------------------------- canonical modes are no aliases

  predicate LowercaseWord(s: string) {
    s != "" && forall i :: 0 <= i < |s| ==> 'a' <= s[i] <= 'z' || s[i] == '_'
  }

  lemma LowercaseStays(s: string)
    requires LowercaseWord(s)
    ensures Normalized(Str(s)) == s
  {
    hide Strip;
    StripKeeps(s);
    assert Lower(s) == s;
  }

  lemma RepoDiscovery()
    ensures LowercaseWord("repo_discovery")
  {
  }

  lemma BenchmarkSpec()
    ensures LowercaseWord("benchmark_spec")
  {
  }

  lemma CanonicalIsNoAlias(mode: string)
    ensures Canonical(mode).Some? ==> AliasOf(Str(Canonical(mode).value)) == None
  {
    hide Strip, Lower, LowercaseWord, Normalized;
    if Canonical(mode).Some? {
      RepoDiscovery();
      BenchmarkSpec();
      LowercaseStays(Canonical(mode).value);
    }
  }

  /** Repairing a value does not make it or unmake it an alias itself. */
  lemma RepairedKeepsAlias(v: Json)
    ensures AliasOf(Repaired(v)) == AliasOf(v)
  {
    hide Canonical, Strip, Lower;
  }

  // ---------------------------------------------------------------- nothing else changes

  lemma {:induction false} GetRepaired(t: Json, n: nat, key: string)
    requires t.Object? && n <= |t.fields|
    ensures Get(Repaired(t).fields[n..], key) == FixedIn(t.fields[n..], key)
    decreases |t.fields| - n
  {
    hide AliasOf;
    var given, mended := t.fields, Repaired(t).fields;
    assert |mended| == |given|;
    if n < |given| {
      assert mended[n] == RepairedField(t, n);
      assert mended[n..][1..] == mended[n + 1..] && given[n..][1..] == given[n + 1..];
      GetRepaired(t, n + 1, key);
    }
  }

  function Fixed(s: Step, v: Json): Json {
    if s == Key("mode") && AliasOf(v).Some? then Str(AliasOf(v).value) else Repaired(v)
  }

  function FixedIn(fields: seq<Field>, key: string): Option<Json> {
    var v := Get(fields, key);
    if v.Some? then Some(Fixed(Key(key), v.value)) else None
  }

  lemma ChildRepaired(t: Json, s: Step)
    ensures Child(Repaired(t), s) == if Child(t, s).Some? then Some(Fixed(s, Child(t, s).value)) else None
  {
    hide AliasOf;
    if s.Key? && t.Object? {
      GetRepaired(t, 0, s.key);
      assert t.fields[0..] == t.fields && Repaired(t).fields[0..] == Repaired(t).fields;
    }
  }

  lemma NotStringNoAlias(v: Json)
    ensures AliasOf(v).Some? ==> v.Str?
  {
    hide Strip, Lower;
  }

  lemma FixedString(s: Step, v: Json, p: Path)
    requires p != []
    ensures Fixed(s, v) != Repaired(v) ==> At(Fixed(s, v), p) == None && At(Repaired(v), p) == None && At(v, p) == None
  {
    hide Canonical, Strip, Lower;
    if Fixed(s, v) != Repaired(v) {
      NotStringNoAlias(v);
    }
  }

  /** Everywhere below the root, the repaired tree has a value exactly where the given one has, and
      it is the same value, repaired in turn, unless it is an aliased mode. */
  lemma {:induction false} OnlyAliasesChange(t: Json, p: Path)
    requires p != []
    ensures At(Repaired(t), p) == if At(t, p).Some? then Some(Fixed(p[|p| - 1], At(t, p).value)) else None
    decreases |p|
  {
    hide Fixed, Repaired, Child;
    ChildRepaired(t, p[0]);
    if |p| > 1 && Child(t, p[0]).Some? {
      var v := Child(t, p[0]).value;
      FixedString(p[0], v, p[1..]);
      OnlyAliasesChange(v, p[1..]);
    }
  }

  /** What a mode becomes: an alias of setting up becomes `repo_discovery`, one of running a benchmark
      `benchmark_spec`, whatever its case and the blanks around it; any other mode stays as it is. */
  lemma ModesBecome(t: Json, p: Path, mode: string)
    requires p != [] && p[|p| - 1] == Key("mode") && At(t, p) == Some(Str(mode))
    ensures var word := Lower(Strip(mode));
      At(Repaired(t), p) ==
      Some(Str(if word in {"repo_setup", "install", "setup", "dependency_install"} then "repo_discovery"
               else if word in {"docker_benchmark", "docker_swebench"} then "benchmark_spec"
               else mode))
  {
    hide Strip, Lower;
    OnlyAliasesChange(t, p);
  }

  /** What is no text is no alias. */
  lemma OthersStay(t: Json, p: Path)
    requires p != [] && At(t, p).Some? && (p[|p| - 1] != Key("mode") || !At(t, p).value.Str?)
    ensures At(Repaired(t), p) == Some(Repaired(At(t, p).value))
  {
    hide Strip, Lower, Repaired;
    OnlyAliasesChange(t, p);
  }

  /** No aliased mode is left anywhere. */
  lemma NoAliasLeft(t: Json, p: Path)
    ensures !AliasAt(Repaired(t), p)
  {
    hide AliasOf, Repaired, At;
    if p != [] {
      OnlyAliasesChange(t, p);
      if At(t, p).Some? {
        var v := At(t, p).value;
        RepairedKeepsAlias(v);
        AliasFixed(v);
      }
    }
  }

  lemma AliasFixed(v: Json)
    ensures AliasOf(v).Some? ==> AliasOf(Str(AliasOf(v).value)) == None
  {
    hide Normalized, Canonical;
    CanonicalIsNoAlias(Normalized(v));
  }

  // ---------------------------------------------------------------- one repair per alias

  /** The repairs name, behind `at`, exactly the paths of `places`, each once. */
  ghost predicate Exact(repairs: seq<Repair>, at: Path, places: iset<Path>) {
    && (forall i :: 0 <= i < |repairs| ==> at <= repairs[i].path && repairs[i].path[|at|..] in places)
    && (forall p :: p in places ==> exists i :: 0 <= i < |repairs| && repairs[i].path == at + p)
    && (forall i, j :: 0 <= i < j < |repairs| ==> repairs[i].path != repairs[j].path)
  }

  lemma ExactConcat(a: seq<Repair>, b: seq<Repair>, at: Path, first: iset<Path>, second: iset<Path>)
    requires Exact(a, at, first) && Exact(b, at, second) && first !! second
    ensures Exact(a + b, at, first + second)
  {
    var rs := a + b;
    forall i, j | 0 <= i < j < |rs| ensures rs[i].path != rs[j].path {
      if i < |a| && j >= |a| {
        assert a[i].path[|at|..] in first && b[j - |a|].path[|at|..] in second;
      }
    }
    forall p | p in first + second ensures exists i :: 0 <= i < |rs| && rs[i].path == at + p {
      if p in first {
        var i :| 0 <= i < |a| && a[i].path == at + p;
        assert rs[i].path == at + p;
      } else {
        var i :| 0 <= i < |b| && b[i].path == at + p;
        assert rs[|a| + i].path == at + p;
      }
    }
  }

  ghost function Behind(s: Step, places: iset<Path>): iset<Path> {
    iset p: Path | p != [] && p[0] == s && p[1..] in places
  }

  lemma PathBehind(q: Path, at: Path, s: Step)
    requires at + [s] <= q
    ensures at <= q && q[|at|..] != [] && q[|at|..][0] == s && q[|at|..][1..] == q[|at| + 1..]
  {
    assert q[..|at| + 1] == at + [s];
    assert q[..|at|] == at;
  }

  lemma ExactBehind(repairs: seq<Repair>, at: Path, s: Step, places: iset<Path>)
    requires Exact(repairs, at + [s], places)
    ensures Exact(repairs, at, Behind(s, places))
  {
    hide Behind;
    forall i | 0 <= i < |repairs| ensures at <= repairs[i].path && repairs[i].path[|at|..] in Behind(s, places) {
      PlaceBehind(repairs[i].path, at, s, places);
    }
    forall p | p in Behind(s, places) ensures exists i :: 0 <= i < |repairs| && repairs[i].path == at + p {
      FoundBehind(repairs, at, s, places, p);
    }
  }

  lemma PlaceBehind(q: Path, at: Path, s: Step, places: iset<Path>)
    requires at + [s] <= q && q[|at| + 1..] in places
    ensures at <= q && q[|at|..] in Behind(s, places)
  {
    PathBehind(q, at, s);
  }

  lemma FoundBehind(repairs: seq<Repair>, at: Path, s: Step, places: iset<Path>, p: Path)
    requires Exact(repairs, at + [s], places) && p in Behind(s, places)
    ensures exists i :: 0 <= i < |repairs| && repairs[i].path == at + p
  {
    var q := p[1..];
    assert q in places;
    var i :| 0 <= i < |repairs| && repairs[i].path == at + [s] + q;
    assert p == [s] + q;
    assert at + [s] + q == at + p;
  }

  ghost function AliasesIn(t: Json): iset<Path> {
    iset p: Path | AliasAt(t, p)
  }

  /** An alias below a child is an alias of the child. */
  lemma AliasBelow(t: Json, s: Step, p: Path)
    requires Child(t, s).Some? && p != []
    ensures AliasAt(t, [s] + p) <==> AliasAt(Child(t, s).value, p)
  {
    hide AliasOf, Child;
    assert ([s] + p)[1..] == p;
    assert ([s] + p)[|p|] == p[|p| - 1];
  }

  /** Aliases below the first `n` children, not counting the mode of `t` itself. */
  ghost function FieldAliases(t: Json, n: nat): iset<Path>
    requires t.Object? && n <= |t.fields|
  {
    iset p: Path | |p| > 1 && AliasAt(t, p) && exists i :: 0 <= i < n && p[0] == Key(t.fields[i].key)
  }

  ghost function ItemAliases(t: Json, n: nat): iset<Path>
    requires t.List? && n <= |t.items|
  {
    iset p: Path | AliasAt(t, p) && exists i :: 0 <= i < n && p[0] == Index(i)
  }

  lemma FieldIsChild(t: Json, i: nat)
    requires t.Object? && i < |t.fields| && WellKeyed(t)
    ensures Child(t, Key(t.fields[i].key)) == Some(t.fields[i].value) && WellKeyed(t.fields[i].value)
  {
    GetIsFirst(t.fields, t.fields[i].key);
  }

  lemma FieldAliasesNext(t: Json, n: nat)
    requires t.Object? && n < |t.fields| && WellKeyed(t)
    ensures var f := t.fields[n]; var own := Behind(Key(f.key), if IsAliasField(f) then iset{} else AliasesIn(f.value));
      FieldAliases(t, n + 1) == FieldAliases(t, n) + own && FieldAliases(t, n) !! own
  {
    hide AliasOf, AliasAt, Child, IsAliasField;
    var f := t.fields[n];
    var own := Behind(Key(f.key), if IsAliasField(f) then iset{} else AliasesIn(f.value));
    FieldIsChild(t, n);
    KeysDiffer(t);
    forall p: Path ensures p in own <==> |p| > 1 && AliasAt(t, p) && p[0] == Key(f.key) {
      BelowField(t, n, p);
    }
  }

  lemma KeysDiffer(t: Json)
    requires t.Object? && WellKeyed(t)
    ensures forall i, j :: 0 <= i < j < |t.fields| ==> t.fields[i].key != t.fields[j].key
  {
  }

  lemma BelowField(t: Json, n: nat, p: Path)
    requires t.Object? && n < |t.fields| && WellKeyed(t)
    ensures var f := t.fields[n];
      p in Behind(Key(f.key), if IsAliasField(f) then iset{} else AliasesIn(f.value)) <==>
      |p| > 1 && AliasAt(t, p) && p[0] == Key(f.key)
  {
    hide AliasOf, Child;
    var f := t.fields[n];
    FieldIsChild(t, n);
    if p != [] && p[0] == Key(f.key) {
      assert p == [p[0]] + p[1..];
      if |p| > 1 {
        AliasBelow(t, p[0], p[1..]);
        if IsAliasField(f) {
          NotStringNoAlias(f.value);
          NothingBelowStrings(f.value, p[1..]);
        }
      } else {
        assert p[1..] == [];
      }
    }
  }

  lemma NothingBelowStrings(v: Json, p: Path)
    requires v.Str? && p != []
    ensures !AliasAt(v, p)
  {
  }

  lemma ItemAliasesNext(t: Json, n: nat)
    requires t.List? && n < |t.items|
    ensures var own := Behind(Index(n), AliasesIn(t.items[n]));
      ItemAliases(t, n + 1) == ItemAliases(t, n) + own && ItemAliases(t, n) !! own
  {
    hide AliasOf, AliasAt, Child;
    var own := Behind(Index(n), AliasesIn(t.items[n]));
    forall p: Path ensures p in own <==> p != [] && AliasAt(t, p) && p[0] == Index(n) {
      BelowItem(t, n, p);
    }
    forall p: Path | p in ItemAliases(t, n) ensures p !in own {}
    AliasesAreBelow(t);
  }

  lemma AliasesAreBelow(t: Json)
    ensures forall p :: AliasAt(t, p) ==> p != []
  {
  }

  lemma BelowItem(t: Json, n: nat, p: Path)
    requires t.List? && n < |t.items|
    ensures p in Behind(Index(n), AliasesIn(t.items[n])) <==> p != [] && AliasAt(t, p) && p[0] == Index(n)
  {
    hide AliasOf;
    if p != [] && p[0] == Index(n) {
      assert p == [p[0]] + p[1..];
      if |p| > 1 { AliasBelow(t, p[0], p[1..]); } else { assert p[1..] == []; }
    }
  }

  /** In a tree without duplicate keys there is exactly one repair for every aliased mode. */
  lemma {:induction false} OneRepairPerAlias(t: Json, at: Path)
    requires WellKeyed(t)
    ensures Exact(RepairsIn(t, at), at, AliasesIn(t))
    decreases t, 1, 0
  {
    hide AliasOf, Exact, AliasesIn, FieldAliases, ItemAliases, WellKeyed, FieldRepairs, ItemRepairs, OwnRepair;
    match t
    case Object(fields) =>
      FieldsExact(t, |fields|, at);
      OwnModeExact(t, at);
      OwnAndFields(t);
      ExactConcat(OwnRepair(fields, at), FieldRepairs(t, |fields|, at), at, OwnAliases(t), FieldAliases(t, |fields|));
    case List(items) =>
      ItemsExact(t, |items|, at);
      AllItems(t);
    case _ => LeafExact(t, at);
  }

  lemma {:induction false} FieldsExact(t: Json, n: nat, at: Path)
    requires t.Object? && n <= |t.fields| && WellKeyed(t)
    ensures Exact(FieldRepairs(t, n, at), at, FieldAliases(t, n))
    decreases t, 0, n
  {
    hide AliasOf, Exact, AliasesIn, FieldAliases, WellKeyed, RepairsIn, IsAliasField, Behind;
    if n == 0 {
      NoneExact(at);
      NoFieldAliases(t);
    } else {
      var f := t.fields[n - 1];
      FieldsExact(t, n - 1, at);
      FieldAliasesNext(t, n - 1);
      FieldIsChild(t, n - 1);
      if IsAliasField(f) {
        NoneExact(at + [Key(f.key)]);
        ExactBehind([], at, Key(f.key), iset{});
        ExactConcat(FieldRepairs(t, n - 1, at), [], at, FieldAliases(t, n - 1), Behind(Key(f.key), iset{}));
      } else {
        OneRepairPerAlias(f.value, at + [Key(f.key)]);
        var below := RepairsIn(f.value, at + [Key(f.key)]);
        ExactBehind(below, at, Key(f.key), AliasesIn(f.value));
        ExactConcat(FieldRepairs(t, n - 1, at), below, at,
          FieldAliases(t, n - 1), Behind(Key(f.key), AliasesIn(f.value)));
      }
    }
  }

  lemma {:induction false} ItemsExact(t: Json, n: nat, at: Path)
    requires t.List? && n <= |t.items| && WellKeyed(t)
    ensures Exact(ItemRepairs(t, n, at), at, ItemAliases(t, n))
    decreases t, 0, n
  {
    hide AliasOf, Exact, AliasesIn, ItemAliases, RepairsIn, Behind;
    if n == 0 {
      NoneExact(at);
      NoItemAliases(t);
    } else {
      ItemsExact(t, n - 1, at);
      ItemAliasesNext(t, n - 1);
      OneRepairPerAlias(t.items[n - 1], at + [Index(n - 1)]);
      var below := RepairsIn(t.items[n - 1], at + [Index(n - 1)]);
      ExactBehind(below, at, Index(n - 1), AliasesIn(t.items[n - 1]));
      ExactConcat(ItemRepairs(t, n - 1, at), below, at,
        ItemAliases(t, n - 1), Behind(Index(n - 1), AliasesIn(t.items[n - 1])));
    }
  }

  lemma NoneExact(at: Path)
    ensures Exact([], at, iset{})
  {
  }

  lemma NoFieldAliases(t: Json)
    requires t.Object?
    ensures FieldAliases(t, 0) == iset{}
  {
  }

  lemma NoItemAliases(t: Json)
    requires t.List?
    ensures ItemAliases(t, 0) == iset{}
  {
  }

  lemma LeafExact(t: Json, at: Path)
    requires !t.Object? && !t.List?
    ensures Exact([], at, AliasesIn(t))
  {
    hide AliasOf;
    assert AliasesIn(t) == iset{};
  }

  ghost function OwnAliases(t: Json): iset<Path> {
    iset p: Path | |p| == 1 && AliasAt(t, p)
  }

  lemma OneStep(t: Json, s: Step)
    ensures At(t, [s]) == Child(t, s)
  {
    hide Child;
    assert [s][1..] == [];
    if Child(t, s).Some? { assert At(Child(t, s).value, []) == Child(t, s); }
  }

  lemma OwnModeExact(t: Json, at: Path)
    requires t.Object?
    ensures Exact(OwnRepair(t.fields, at), at, OwnAliases(t))
  {
    hide AliasOf, At;
    var mode := Get(t.fields, "mode");
    forall p: Path | |p| == 1 ensures AliasAt(t, p) <==> p == [Key("mode")] && mode.Some? && AliasOf(mode.value).Some? {
      assert p == [p[0]];
      OneStep(t, p[0]);
    }
    hide AliasAt;
    assert (at + [Key("mode")])[|at|..] == [Key("mode")];
  }

  lemma OwnAndFields(t: Json)
    requires t.Object? && WellKeyed(t)
    ensures AliasesIn(t) == OwnAliases(t) + FieldAliases(t, |t.fields|) && OwnAliases(t) !! FieldAliases(t, |t.fields|)
  {
    hide AliasOf, WellKeyed;
    AliasesAreBelow(t);
    forall p: Path | AliasAt(t, p) ensures exists i :: 0 <= i < |t.fields| && p[0] == Key(t.fields[i].key) {
      assert Child(t, p[0]).Some?;
      GetIsFirst(t.fields, p[0].key);
    }
    hide AliasAt;
  }

  lemma AllItems(t: Json)
    requires t.List?
    ensures AliasesIn(t) == ItemAliases(t, |t.items|)
  {
    hide AliasOf;
    AliasesAreBelow(t);
    forall p: Path | AliasAt(t, p) ensures exists i :: 0 <= i < |t.items| && p[0] == Index(i) {
      assert Child(t, p[0]).Some?;
      assert p[0] == Index(p[0].index);
    }
    hide AliasAt;
  }

  // ---------------------------------------------------------------- the whole contract

  /** No field `mode` holds an alias, at any depth. */
  ghost predicate Clean(t: Json)
    decreases t
  {
    match t
    case Object(fields) => forall i :: 0 <= i < |fields| ==> !IsAliasField(fields[i]) && Clean(fields[i].value)
    case List(items) => forall i :: 0 <= i < |items| ==> Clean(items[i])
    case _ => true
  }

  lemma {:induction false} RepairedIsClean(t: Json)
    ensures Clean(Repaired(t))
    decreases t
  {
    hide AliasOf;
    match t
    case Object(fields) =>
      var mended := Repaired(t).fields;
      forall i | 0 <= i < |mended| ensures !IsAliasField(mended[i]) && Clean(mended[i].value) {
        var f := fields[i];
        assert mended[i] == RepairedField(t, i);
        RepairedKeepsAlias(f.value);
        AliasFixed(f.value);
        if !IsAliasField(f) { RepairedIsClean(f.value); }
      }
    case List(items) =>
      forall i | 0 <= i < |items| ensures Clean(Repaired(items[i])) { RepairedIsClean(items[i]); }
    case _ =>
  }

  lemma {:induction false} CleanNeedsNoRepair(t: Json, at: Path)
    requires Clean(t)
    ensures RepairsIn(t, at) == [] && Repaired(t) == t
    decreases t, 1, 0
  {
    hide AliasOf, FieldRepairs, ItemRepairs;
    match t
    case Object(fields) =>
      CleanFields(t, |fields|, at);
      CleanOwnMode(fields, at);
      forall i | 0 <= i < |fields| ensures RepairedField(t, i) == fields[i] {
        CleanNeedsNoRepair(fields[i].value, at);
      }
      assert Repaired(t).fields == fields;
    case List(items) =>
      CleanItems(t, |items|, at);
      forall i | 0 <= i < |items| ensures Repaired(items[i]) == items[i] { CleanNeedsNoRepair(items[i], at); }
      assert Repaired(t).items == items;
    case _ =>
  }

  lemma {:induction false} CleanFields(t: Json, n: nat, at: Path)
    requires t.Object? && Clean(t) && n <= |t.fields|
    ensures FieldRepairs(t, n, at) == []
    decreases t, 0, n
  {
    hide AliasOf, RepairsIn;
    if n > 0 {
      CleanFields(t, n - 1, at);
      CleanNeedsNoRepair(t.fields[n - 1].value, at + [Key(t.fields[n - 1].key)]);
    }
  }

  lemma {:induction false} CleanItems(t: Json, n: nat, at: Path)
    requires t.List? && Clean(t) && n <= |t.items|
    ensures ItemRepairs(t, n, at) == []
    decreases t, 0, n
  {
    hide AliasOf, RepairsIn;
    if n > 0 {
      CleanItems(t, n - 1, at);
      CleanNeedsNoRepair(t.items[n - 1], at + [Index(n - 1)]);
    }
  }

  lemma {:induction false} CleanOwnMode(fields: seq<Field>, at: Path)
    requires forall i :: 0 <= i < |fields| ==> !IsAliasField(fields[i])
    ensures OwnRepair(fields, at) == []
    decreases |fields|
  {
    hide AliasOf;
    if fields != [] && fields[0].key != "mode" { CleanOwnMode(fields[1..], at); }
  }

  function NoteTexts(repairs: seq<Repair>): seq<Json>
    decreases |repairs|
  {
    if repairs == [] then [] else NoteTexts(repairs[..|repairs| - 1]) + [NoteText(repairs[|repairs| - 1])]
  }

  /** The notes grow by one text for every repair, and no other field changes. */
  lemma {:induction false} NotesAreAdded(fields: seq<Field>, repairs: seq<Repair>, key: string)
    ensures NotesOf(WithNotes(fields, repairs)) == NotesOf(fields) + NoteTexts(repairs)
    ensures key != NOTES ==> Get(WithNotes(fields, repairs), key) == Get(fields, key)
    decreases |repairs|
  {
    hide NoteText, Get, SetField;
    if repairs == [] {
      assert NotesOf(fields) + [] == NotesOf(fields);
    } else {
      var rest, note := repairs[..|repairs| - 1], NoteText(repairs[|repairs| - 1]);
      NotesAreAdded(fields, rest, key);
      var before := WithNotes(fields, rest);
      SetFieldIs(before, NOTES, List(NotesOf(before) + [note]), key);
      SetFieldIs(before, NOTES, List(NotesOf(before) + [note]), NOTES);
      assert NotesOf(fields) + NoteTexts(rest) + [note] == NotesOf(fields) + (NoteTexts(rest) + [note]);
    }
  }

  lemma {:induction false} NotesKeepClean(fields: seq<Field>, repairs: seq<Repair>)
    requires Clean(Object(fields))
    ensures Clean(Object(WithNotes(fields, repairs)))
    decreases |repairs|
  {
    hide IsAliasField, SetField, Clean;
    if repairs != [] {
      var rest, note := repairs[..|repairs| - 1], NoteText(repairs[|repairs| - 1]);
      NotesKeepClean(fields, rest);
      NoteKeepsClean(WithNotes(fields, rest), note);
    }
  }

  lemma NoteKeepsClean(fields: seq<Field>, note: Json)
    requires Clean(Object(fields)) && note.Str?
    ensures Clean(Object(SetField(fields, NOTES, List(NotesOf(fields) + [note]))))
  {
    hide AliasOf, SetField, Get, NotesOf;
    var value := List(NotesOf(fields) + [note]);
    OldNotesAreClean(fields);
    SetFieldIs(fields, NOTES, value, NOTES);
    var after := SetField(fields, NOTES, value);
    assert Clean(value);
    forall i | 0 <= i < |after| ensures !IsAliasField(after[i]) && Clean(after[i].value) {
      if after[i] in fields {
        var j :| 0 <= j < |fields| && fields[j] == after[i];
      }
    }
  }

  lemma OldNotesAreClean(fields: seq<Field>)
    requires Clean(Object(fields))
    ensures forall i :: 0 <= i < |NotesOf(fields)| ==> Clean(NotesOf(fields)[i])
  {
    hide IsAliasField;
    var notes := Get(fields, NOTES);
    if notes.Some? && notes.value.List? {
      var i := FirstAt(fields, NOTES);
      assert Clean(fields[i].value);
    }
  }

  lemma {:induction false} FirstAt(fields: seq<Field>, key: string) returns (i: nat)
    requires Get(fields, key).Some?
    ensures i < |fields| && fields[i].key == key && Get(fields, key) == Some(fields[i].value)
    decreases |fields|
  {
    if fields[0].key == key {
      i := 0;
    } else {
      var j := FirstAt(fields[1..], key);
      i := j + 1;
    }
  }

  /** Repairing a contract twice is repairing it once: nothing is left to repair or to note. */
  lemma RepairIsIdempotent(fields: seq<Field>)
    ensures var once := RepairedContract(fields);
      RepairsIn(Object(once), []) == [] && RepairedContract(once) == once
    ensures RepairsIn(Object(fields), []) != [] ==> Clean(Object(RepairedContract(fields)))
  {
    hide Clean, RepairsIn, Repaired, WithNotes;
    var t, once := Object(fields), RepairedContract(fields);
    if RepairsIn(t, []) != [] {
      RepairedIsClean(t);
      ObjectsStayObjects(fields);
      NotesKeepClean(Repaired(t).fields, RepairsIn(t, []));
      CleanNeedsNoRepair(Object(once), []);
    }
  }

  /** What a repaired contract holds under every key: the given value with its aliases replaced, and
      under the notes, whatever notes there were and one more for every repair. */
  lemma ContractFields(fields: seq<Field>, key: string)
    requires RepairsIn(Object(fields), []) != []
    ensures var once := RepairedContract(fields);
      && (key != NOTES ==> Get(once, key) == FixedIn(fields, key))
      && NotesOf(once) == NotesOf(Repaired(Object(fields)).fields) + NoteTexts(RepairsIn(Object(fields), []))
  {
    hide RepairsIn, Repaired, WithNotes, FixedIn, NotesOf;
    var t := Object(fields);
    ObjectsStayObjects(fields);
    GetRepaired(t, 0, key);
    assert t.fields[0..] == t.fields && Repaired(t).fields[0..] == Repaired(t).fields;
    NotesAreAdded(Repaired(t).fields, RepairsIn(t, []), key);
  }
}
