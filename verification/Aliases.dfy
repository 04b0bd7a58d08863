/** Repairing aliased contract modes in a parsed contract. */
module Aliases {
  import opened Text
  import opened Json

  /** `CONTRACT_MODE_ALIASES`. */
  function Canonical(mode: string): Option<string> {
    if mode in {"repo_setup", "install", "setup", "dependency_install"} then Some("repo_discovery")
    else if mode in {"docker_benchmark", "docker_swebench"} then Some("benchmark_spec")
    else None
  }

  function AliasOf(v: Json): Option<string> {
    Canonical(Normalized(v))
  }

  datatype Step = Key(key: string) | Index(index: nat)

  type Path = seq<Step>

  /** How a repair names the place it changed. */
  function PathText(p: Path): string
    decreases |p|
  {
    if p == [] then "" else
    var before, last := PathText(p[..|p| - 1]), p[|p| - 1];
    match last
    case Key(key) => if before != "" then before + "." + key else key
    case Index(i) => before + "[" + NatText(i) + "]"
  }

  datatype Repair = Repair(path: Path, before: string, after: string)

  /** The field `mode` of an object holds an alias. */
  predicate IsAliasField(f: Field) {
    f.key == "mode" && AliasOf(f.value).Some?
  }

  /** The contract with every aliased mode replaced. */
  function Repaired(t: Json): Json
    decreases t, 1
  {
    match t
    case Object(fields) => Object(seq(|fields|, i requires 0 <= i < |fields| => RepairedField(t, i)))
    case List(items) => List(seq(|items|, i requires 0 <= i < |items| => Repaired(items[i])))
    case _ => t
  }

  function RepairedField(t: Json, i: nat): Field
    requires t.Object? && i < |t.fields|
    decreases t, 0
  {
    var f := t.fields[i];
    Field(f.key, if IsAliasField(f) then Str(AliasOf(f.value).value) else Repaired(f.value))
  }

  /** The repairs below `t`, which sits at `at`: its own mode first, then those of its children. */
  function RepairsIn(t: Json, at: Path): seq<Repair>
    decreases t, 2, 0
  {
    match t
    case Object(fields) => OwnRepair(fields, at) + FieldRepairs(t, |fields|, at)
    case List(items) => ItemRepairs(t, |items|, at)
    case _ => []
  }

  function OwnRepair(fields: seq<Field>, at: Path): seq<Repair> {
    var mode := Get(fields, "mode");
    if mode.Some? && AliasOf(mode.value).Some?
    then [Repair(at + [Key("mode")], Normalized(mode.value), AliasOf(mode.value).value)] else []
  }

  function FieldRepairs(t: Json, n: nat, at: Path): seq<Repair>
    requires t.Object? && n <= |t.fields|
    decreases t, 1, n
  {
    if n == 0 then [] else
    FieldRepairs(t, n - 1, at) +
    if IsAliasField(t.fields[n - 1]) then [] else RepairsIn(t.fields[n - 1].value, at + [Key(t.fields[n - 1].key)])
  }

  function ItemRepairs(t: Json, n: nat, at: Path): seq<Repair>
    requires t.List? && n <= |t.items|
    decreases t, 1, n
  {
    if n == 0 then [] else ItemRepairs(t, n - 1, at) + RepairsIn(t.items[n - 1], at + [Index(n - 1)])
  }

  /** `_repair_contract_mode_aliases_in_mapping`, returning the rewritten value. */
  method RepairAliases(value: Json, at: Path) returns (repaired: Json, repairs: seq<Repair>)
    ensures repaired == Repaired(value) && repairs == RepairsIn(value, at)
    decreases value, 1
  {
    match value {
      case Object(_) => repaired, repairs := RepairObject(value, at);
      case List(_) => repaired, repairs := RepairList(value, at);
      case _ => repaired, repairs := value, [];
    }
  }

  method RepairObject(value: Json, at: Path) returns (repaired: Json, repairs: seq<Repair>)
    requires value.Object?
    ensures repaired == Repaired(value) && repairs == RepairsIn(value, at)
    decreases value, 0
  {
    hide AliasOf, Repaired, RepairsIn, FieldRepairs, RepairedField, OwnRepair;
    var given := value.fields;
    var mended: seq<Field> := [];
    repairs := RepairOwnMode(given, at);
    ghost var own := repairs;
    NoFieldRepairs(value, at);
    assert own + [] == own;
    for i := 0 to |given|
      invariant |mended| == i && forall j :: 0 <= j < i ==> mended[j] == RepairedField(value, j)
      invariant repairs == own + FieldRepairs(value, i, at)
    {
      FieldStep(value, i, at);
      if IsAliasField(given[i]) {
        mended := mended + [Field("mode", Str(AliasOf(given[i].value).value))];
      } else {
        var child, more := RepairAliases(given[i].value, at + [Key(given[i].key)]);
        assert own + (FieldRepairs(value, i, at) + more) == (own + FieldRepairs(value, i, at)) + more;
        mended := mended + [Field(given[i].key, child)];
        repairs := repairs + more;
      }
    }
    repaired := Object(mended);
    ObjectIsRepaired(value, mended, at);
  }

  method RepairOwnMode(given: seq<Field>, at: Path) returns (repairs: seq<Repair>)
    ensures repairs == OwnRepair(given, at)
  {
    var mode := Get(given, "mode");
    repairs := [];
    if mode.Some? {
      var canonical := AliasOf(mode.value);
      if canonical.Some? {
        repairs := [Repair(at + [Key("mode")], Normalized(mode.value), canonical.value)];
      }
    }
  }

  lemma NoFieldRepairs(t: Json, at: Path)
    requires t.Object?
    ensures FieldRepairs(t, 0, at) == []
  {
  }

  lemma FieldStep(t: Json, i: nat, at: Path)
    requires t.Object? && i < |t.fields|
    ensures var f := t.fields[i];
      && RepairedField(t, i) == Field(f.key, if IsAliasField(f) then Str(AliasOf(f.value).value) else Repaired(f.value))
      && FieldRepairs(t, i + 1, at) == if IsAliasField(f) then FieldRepairs(t, i, at)
                                       else FieldRepairs(t, i, at) + RepairsIn(f.value, at + [Key(f.key)])
    ensures IsAliasField(t.fields[i]) ==> t.fields[i].key == "mode" && AliasOf(t.fields[i].value).Some?
  {
    hide AliasOf, Repaired, RepairsIn;
    var f := t.fields[i];
    if IsAliasField(f) {
      assert FieldRepairs(t, i, at) + [] == FieldRepairs(t, i, at);
    }
  }

  lemma ObjectIsRepaired(t: Json, mended: seq<Field>, at: Path)
    requires t.Object? && |mended| == |t.fields| && forall j :: 0 <= j < |mended| ==> mended[j] == RepairedField(t, j)
    ensures Object(mended) == Repaired(t)
    ensures RepairsIn(t, at) == OwnRepair(t.fields, at) + FieldRepairs(t, |t.fields|, at)
  {
    hide AliasOf, RepairedField, OwnRepair, FieldRepairs;
    assert Repaired(t).fields == mended;
  }

  method RepairList(value: Json, at: Path) returns (repaired: Json, repairs: seq<Repair>)
    requires value.List?
    ensures repaired == Repaired(value) && repairs == RepairsIn(value, at)
    decreases value, 0
  {
    hide AliasOf, Repaired, RepairsIn, ItemRepairs;
    var given := value.items;
    var mended: seq<Json> := [];
    repairs := [];
    NoItemRepairs(value, at);
    for i := 0 to |given|
      invariant |mended| == i && forall j :: 0 <= j < i ==> mended[j] == Repaired(given[j])
      invariant repairs == ItemRepairs(value, i, at)
    {
      ItemStep(value, i, at);
      var child, more := RepairAliases(given[i], at + [Index(i)]);
      mended := mended + [child];
      repairs := repairs + more;
    }
    repaired := List(mended);
    ListIsRepaired(value, mended, at);
  }

  lemma NoItemRepairs(t: Json, at: Path)
    requires t.List?
    ensures ItemRepairs(t, 0, at) == []
  {
  }

  lemma ItemStep(t: Json, i: nat, at: Path)
    requires t.List? && i < |t.items|
    ensures ItemRepairs(t, i + 1, at) == ItemRepairs(t, i, at) + RepairsIn(t.items[i], at + [Index(i)])
  {
    hide RepairsIn;
  }

  lemma ListIsRepaired(t: Json, mended: seq<Json>, at: Path)
    requires t.List? && |mended| == |t.items| && forall j :: 0 <= j < |mended| ==> mended[j] == Repaired(t.items[j])
    ensures List(mended) == Repaired(t)
    ensures RepairsIn(t, at) == ItemRepairs(t, |t.items|, at)
  {
    hide AliasOf, ItemRepairs;
    assert Repaired(t).items == mended;
  }

  // ---------------------------------------------------------------- the whole contract

  const NOTES := "harness_canonicalizations"

  function NotesOf(fields: seq<Field>): seq<Json> {
    var notes := Get(fields, NOTES);
    if notes.Some? && notes.value.List? then notes.value.items else []
  }

  function NoteText(r: Repair): Json {
    Str(PathText(r.path) + " '" + r.before + "' -> '" + r.after + "'")
  }

  /** A note names the place with dots between keys and brackets around positions, and both modes in quotes. */
  lemma NoteReads(a: string, b: string, i: nat, before: string, after: string)
    requires a != ""
    ensures NoteText(Repair([Key(a), Key(b), Index(i), Key("mode")], before, after)) ==
            Str(a + "." + b + "[" + NatText(i) + "]" + ".mode" + " '" + before + "' -> '" + after + "'")
    ensures NoteText(Repair([Key("mode")], before, after)) == Str("mode '" + before + "' -> '" + after + "'")
  {
    hide NatText;
    PathTextNext([], Key(a));
    PathTextNext([Key(a)], Key(b));
    PathTextNext([Key(a), Key(b)], Index(i));
    PathTextNext([Key(a), Key(b), Index(i)], Key("mode"));
    PathTextNext([], Key("mode"));
    assert [] + [Key("mode")] == [Key("mode")] && [] + [Key(a)] == [Key(a)] && [Key(a)] + [Key(b)] == [Key(a), Key(b)];
    assert [Key(a), Key(b)] + [Index(i)] == [Key(a), Key(b), Index(i)];
    assert [Key(a), Key(b), Index(i)] + [Key("mode")] == [Key(a), Key(b), Index(i), Key("mode")];
  }

  lemma PathTextNext(p: Path, last: Step)
    ensures PathText([]) == ""
    ensures PathText(p + [last]) == match last
                                    case Key(key) => if PathText(p) != "" then PathText(p) + "." + key else key
                                    case Index(i) => PathText(p) + "[" + NatText(i) + "]"
  {
    assert (p + [last])[..|p|] == p;
  }

  /** `add_canonicalization_note` for every repair. */
  function WithNotes(fields: seq<Field>, repairs: seq<Repair>): seq<Field>
    decreases |repairs|
  {
    if repairs == [] then fields else
    var before := WithNotes(fields, repairs[..|repairs| - 1]);
    SetField(before, NOTES, List(NotesOf(before) + [NoteText(repairs[|repairs| - 1])]))
  }

  /** A contract with its aliased modes replaced and every replacement noted. */
  function RepairedContract(fields: seq<Field>): seq<Field> {
    var repairs := RepairsIn(Object(fields), []);
    if repairs == [] then fields else WithNotes(Repaired(Object(fields)).fields, repairs)
  }

  /** `repair_contract_mode_aliases` on a parsed contract. */
  method RepairContractModeAliases(fields: seq<Field>) returns (repaired: seq<Field>, repairs: seq<Repair>)
    ensures repaired == RepairedContract(fields) && repairs == RepairsIn(Object(fields), [])
  {
    hide RepairsIn, Repaired, SetField, NoteText, NotesOf;
    var payload: Json;
    payload, repairs := RepairAliases(Object(fields), []);
    if repairs == [] {
      return fields, [];
    }
    ObjectsStayObjects(fields);
    repaired := payload.fields;
    assert repairs[..0] == [];
    for i := 0 to |repairs|
      invariant repaired == WithNotes(payload.fields, repairs[..i])
    {
      assert repairs[..i + 1][..i] == repairs[..i];
      repaired := SetField(repaired, NOTES, List(NotesOf(repaired) + [NoteText(repairs[i])]));
    }
    assert repairs[..|repairs|] == repairs;
  }

  lemma ObjectsStayObjects(fields: seq<Field>)
    ensures Repaired(Object(fields)).Object?
  {
  }
}
