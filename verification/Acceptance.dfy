/** Checking a tester's oracle results against the oracles of the selected plan. */
module Acceptance {
  import opened Text
  import opened Json

  const ABSOLUTE_PASS := 1
  const REGRESSION_DELTA := 2
  const STATUSES: set<string> := {"passed", "failed", "blocked", "not_run"}

  datatype Oracle = Oracle(id: string, required: bool, mode: int)

  function BoolField(fields: seq<Field>, key: string): Option<bool> {
    var v := Get(fields, key);
    if v.Some? && v.value.Bool? then Some(v.value.b) else None
  }

  /** The oracle an entry of the plan defines, if it is complete enough to be one. */
  function OracleOf(item: Json): Option<Oracle> {
    if !item.Object? then None else
    var id := StringField(item.fields, "id");
    var forTester := BoolField(item.fields, "required_for_tester");
    var required := if forTester.Some? then forTester else BoolField(item.fields, "required");
    var code := NumericCode(item.fields, "verification_mode_code");
    if id == "" || required.None? then None
    else Some(Oracle(id, required.value, if code.None? || code.value == 0 then ABSOLUTE_PASS else code.value))
  }

  function OraclesOf(items: seq<Json>): seq<Oracle>
    decreases |items|
  {
    if items == [] then [] else
    var before, o := OraclesOf(items[..|items| - 1]), OracleOf(items[|items| - 1]);
    if o.Some? then before + [o.value] else before
  }

  /** `acceptance_oracles_from_payload`. */
  method AcceptanceOracles(payload: seq<Field>) returns (parsed: seq<Oracle>)
    ensures var list := Get(payload, "acceptance_oracles");
      parsed == if list.Some? && list.value.List? then OraclesOf(list.value.items) else []
  {
    hide OracleOf, Get;
    parsed := [];
    var list := Get(payload, "acceptance_oracles");
    if list.None? || !list.value.List? {
      return;
    }
    var items := list.value.items;
    assert items[..0] == [];
    for i := 0 to |items|
      invariant parsed == OraclesOf(items[..i])
    {
      assert items[..i + 1][..i] == items[..i];
      var o := OracleOf(items[i]);
      if o.Some? {
        parsed := parsed + [o.value];
      }
    }
    assert items[..|items|] == items;
  }

  // ---------------------------------------------------------------- one result

  function StatusOfCode(code: int): Option<string> {
    if code == 0 then Some("passed") else if code == 1 then Some("failed")
    else if code == 2 then Some("blocked") else if code == 3 then Some("not_run") else None
  }

  datatype Message =
    | NotAList
    | NotAnObject(at: nat)
    | NoId(at: nat)
    | DuplicateId(at: nat)
    | BadStatus(at: nat)
    | BadResultCode(at: nat)
    | StatusMismatch(at: nat)
    | BadCode(at: nat, field: string)
    | BadDelta(at: nat)
    | NoEvidence(at: nat)
    | NoCommands(at: nat)
    | BadExcerpt(at: nat)
    | UnknownOracle(at: nat)
    | MissingRequired(ids: set<string>)
    | DeltaNotProven(at: nat)
    | PassedWithFailures(ids: set<string>)
    | NoFailedOracle

  function If(b: bool, m: Message): seq<Message> { if b then [m] else [] }

  function IdOf(r: Json): string {
    if r.Object? then StringField(r.fields, "oracle_id") else ""
  }

  /** `_oracle_result_status`: the code decides, else the text. */
  function ResultStatus(fields: seq<Field>): string {
    var code := NumericCode(fields, "oracle_result_code");
    if code.Some? && StatusOfCode(code.value).Some? then StatusOfCode(code.value).value
    else StringField(fields, "status")
  }

  predicate OutOfRange(code: Option<int>, limit: int) {
    code.Some? && !(0 <= code.value <= limit)
  }

  function StatusMessages(fields: seq<Field>, at: nat): seq<Message> {
    var code, status := NumericCode(fields, "oracle_result_code"), StringField(fields, "status");
    if code.None? then If(status !in STATUSES, BadStatus(at))
    else if StatusOfCode(code.value).None? then [BadResultCode(at)]
    else If(status != "" && status != StatusOfCode(code.value).value, StatusMismatch(at))
  }

  function FieldMessages(fields: seq<Field>, at: nat): seq<Message> {
    var commands, excerpt := Get(fields, "commands_run"), Get(fields, "output_excerpt");
    If(OutOfRange(NumericCode(fields, "baseline_result_code"), 3), BadCode(at, "baseline_result_code"))
    + If(OutOfRange(NumericCode(fields, "current_result_code"), 3), BadCode(at, "current_result_code"))
    + If(OutOfRange(NumericCode(fields, "regression_delta_code"), 2), BadDelta(at))
    + If(StringField(fields, "evidence") == "", NoEvidence(at))
    + If(commands.None? || !commands.value.List?, NoCommands(at))
    + If(excerpt.Some? && excerpt.value != Null && !excerpt.value.Str?, BadExcerpt(at))
  }

  // ---------------------------------------------------------------- shape

  /** The ids of the results, in all. */
  function IdsOf(results: seq<Json>): set<string> {
    set r | r in results && IdOf(r) != "" :: IdOf(r)
  }

  function ShapeOf(results: seq<Json>): seq<Message>
    decreases |results|
  {
    if results == [] then [] else
    var at := |results| - 1; var r := results[at];
    if !r.Object? then ShapeOf(results[..at]) + [NotAnObject(at)] else
    var named := if IdOf(r) == "" then [NoId(at)] else If(IdOf(r) in IdsOf(results[..at]), DuplicateId(at));
    ShapeOf(results[..at]) + (named + (StatusMessages(r.fields, at) + FieldMessages(r.fields, at)))
  }

  /** `validate_tester_oracle_result_shape` without the demand for numeric codes. */
  method ValidateShape(results: seq<Json>) returns (messages: seq<Message>)
    ensures messages == ShapeOf(results)
  {
    hide StatusMessages, FieldMessages, IdOf;
    messages := [];
    var seen: set<string> := {};
    assert results[..0] == [];
    for i := 0 to |results|
      invariant messages == ShapeOf(results[..i])
      invariant seen == IdsOf(results[..i])
    {
      assert results[..i + 1][..i] == results[..i];
      IdsNext(results, i);
      var r := results[i];
      if !r.Object? {
        messages := messages + [NotAnObject(i)];
        NoIdWithoutObject(r);
        continue;
      }
      var named: seq<Message> := [];
      if IdOf(r) == "" {
        named := [NoId(i)];
      } else if IdOf(r) in seen {
        named := [DuplicateId(i)];
      } else {
        seen := seen + {IdOf(r)};
      }
      messages := messages + (named + (StatusMessages(r.fields, i) + FieldMessages(r.fields, i)));
    }
    assert results[..|results|] == results;
  }

  lemma NoIdWithoutObject(r: Json)
    ensures !r.Object? ==> IdOf(r) == ""
  {
  }

  lemma IdsNext(results: seq<Json>, i: nat)
    requires i < |results|
    ensures IdsOf(results[..i + 1]) == IdsOf(results[..i]) + if IdOf(results[i]) == "" then {} else {IdOf(results[i])}
  {
    hide IdOf;
    assert results[..i + 1] == results[..i] + [results[i]];
  }

  // ---------------------------------------------------------------- against the plan

  /** `{oracle.oracle_id: oracle ...}`: the last oracle of an id. */
  function ExpectedOf(oracles: seq<Oracle>): map<string, Oracle>
    decreases |oracles|
  {
    if oracles == [] then map[]
    else ExpectedOf(oracles[..|oracles| - 1])[oracles[|oracles| - 1].id := oracles[|oracles| - 1]]
  }

  function RequiredIds(oracles: seq<Oracle>): set<string> {
    set o | o in oracles && o.required :: o.id
  }

  /** The first result of every id, in order, by its position. */
  function FirstResults(results: seq<Json>): seq<nat>
    decreases |results|
  {
    if results == [] then [] else
    var at := |results| - 1; var before := FirstResults(results[..at]);
    if IdOf(results[at]) != "" && IdOf(results[at]) !in IdsOf(results[..at]) then before + [at] else before
  }

  predicate Known(expected: map<string, Oracle>, id: string) {
    expected == map[] || id in expected
  }

  /** Whether the first result at `at` is of a known oracle and has a readable status. */
  predicate Counted(expected: map<string, Oracle>, results: seq<Json>, at: nat) {
    at < |results| && results[at].Object? &&
    Known(expected, IdOf(results[at])) && ResultStatus(results[at].fields) in STATUSES
  }

  /** The statuses of the counted first results among `firsts`. */
  function StatusesOf(expected: map<string, Oracle>, results: seq<Json>, firsts: seq<nat>): map<string, string>
    decreases |firsts|
  {
    if firsts == [] then map[] else
    var before, at := StatusesOf(expected, results, firsts[..|firsts| - 1]), firsts[|firsts| - 1];
    if Counted(expected, results, at) then before[IdOf(results[at]) := ResultStatus(results[at].fields)] else before
  }

  function UnknownMessages(expected: map<string, Oracle>, results: seq<Json>, firsts: seq<nat>): seq<Message>
    decreases |firsts|
  {
    if firsts == [] then [] else
    var at := firsts[|firsts| - 1];
    UnknownMessages(expected, results, firsts[..|firsts| - 1])
    + If(at < |results| && !Known(expected, IdOf(results[at])), UnknownOracle(at))
  }

  /** `_validate_regression_delta_pass`. */
  predicate DeltaProven(fields: seq<Field>) {
    && NumericCode(fields, "baseline_result_code") in {Some(0), Some(1)}
    && NumericCode(fields, "current_result_code") in {Some(0), Some(1)}
    && NumericCode(fields, "regression_delta_code") == Some(0)
  }

  /** The result claims to pass an oracle that compares with a baseline without proving it. */
  predicate Unproven(expected: map<string, Oracle>, statuses: map<string, string>, results: seq<Json>, at: nat) {
    at < |results| && results[at].Object? &&
    var id := IdOf(results[at]);
    && id in expected && expected[id].mode == REGRESSION_DELTA
    && id in statuses && statuses[id] == "passed"
    && !DeltaProven(results[at].fields)
  }

  function DeltaMessages(expected: map<string, Oracle>, statuses: map<string, string>, results: seq<Json>,
                         firsts: seq<nat>): seq<Message>
    decreases |firsts|
  {
    if firsts == [] then [] else
    var at := firsts[|firsts| - 1];
    DeltaMessages(expected, statuses, results, firsts[..|firsts| - 1]) +
      If(Unproven(expected, statuses, results, at), DeltaNotProven(at))
  }

  /** `_tester_status`. */
  function TesterStatus(payload: seq<Field>): string {
    var code := NumericCode(payload, "tester_status_code");
    if code == Some(0) then "tests_passed" else if code == Some(1) then "source_bug"
    else if code == Some(2) then "environment_blocked" else StringField(payload, "status")
  }

  function NotPassed(required: set<string>, statuses: map<string, string>): set<string> {
    set id | id in statuses && id in required && statuses[id] != "passed"
  }

  function FailedOnes(required: set<string>, statuses: map<string, string>): set<string> {
    set id | id in statuses && id in required && statuses[id] == "failed"
  }

  function VerdictMessages(payload: seq<Field>, required: set<string>, statuses: map<string, string>): seq<Message> {
    If(TesterStatus(payload) == "tests_passed" && NotPassed(required, statuses) != {},
       PassedWithFailures(NotPassed(required, statuses)))
    + If(TesterStatus(payload) == "source_bug" && Get(payload, "environment_dependency_issue") != Some(Bool(true))
         && FailedOnes(required, statuses) == {}, NoFailedOracle)
  }

  /** Everything `validate_tester_oracle_results` reports. */
  function AllMessages(payload: seq<Field>, selected: Option<seq<Oracle>>): seq<Message> {
    var list := Get(payload, "oracle_results");
    if list.None? || !list.value.List? then [NotAList] else
    var results := list.value.items;
    if selected.None? then ShapeOf(results) else
    var expected, required, firsts := ExpectedOf(selected.value), RequiredIds(selected.value), FirstResults(results);
    var statuses, missing := StatusesOf(expected, results, firsts), required - IdsOf(results);
    ShapeOf(results)
    + (UnknownMessages(expected, results, firsts)
    + (If(missing != {}, MissingRequired(missing))
    + (DeltaMessages(expected, statuses, results, firsts)
    + VerdictMessages(payload, required, statuses))))
  }

  lemma NothingIndexed(expected: map<string, Oracle>, results: seq<Json>)
    ensures IdsOf(results[..0]) == {} && FirstResults(results[..0]) == []
    ensures StatusesOf(expected, results, []) == map[] && UnknownMessages(expected, results, []) == []
  {
  }

  lemma FirstStep(results: seq<Json>, i: nat)
    requires i < |results|
    ensures FirstResults(results[..i + 1]) == FirstResults(results[..i])
            + if IdOf(results[i]) != "" && IdOf(results[i]) !in IdsOf(results[..i]) then [i] else []
  {
    hide IdOf, IdsOf;
    assert results[..i + 1][..i] == results[..i];
    assert FirstResults(results[..i]) + [] == FirstResults(results[..i]);
  }

  lemma FirstsStep(expected: map<string, Oracle>, results: seq<Json>, firsts: seq<nat>, i: nat)
    requires i < |results|
    ensures StatusesOf(expected, results, firsts + [i]) ==
            if Counted(expected, results, i)
            then StatusesOf(expected, results, firsts)[IdOf(results[i]) := ResultStatus(results[i].fields)]
            else StatusesOf(expected, results, firsts)
    ensures UnknownMessages(expected, results, firsts + [i]) ==
            UnknownMessages(expected, results, firsts) + If(!Known(expected, IdOf(results[i])), UnknownOracle(i))
  {
    hide IdOf, ResultStatus, STATUSES;
    assert (firsts + [i])[..|firsts|] == firsts;
  }

  /** The sets and dictionaries of the loop over the results. */
  method IndexResults(expected: map<string, Oracle>, results: seq<Json>)
    returns (seen: set<string>, firsts: seq<nat>, statuses: map<string, string>, messages: seq<Message>)
    ensures seen == IdsOf(results) && firsts == FirstResults(results)
    ensures statuses == StatusesOf(expected, results, firsts)
    ensures messages == UnknownMessages(expected, results, firsts)
  {
    hide IdOf, ResultStatus, STATUSES, FirstResults, StatusesOf, UnknownMessages, IdsOf;
    seen, firsts, statuses, messages := {}, [], map[], [];
    NothingIndexed(expected, results);
    assert results[..0] == [];
    for i := 0 to |results|
      invariant seen == IdsOf(results[..i]) && firsts == FirstResults(results[..i])
      invariant statuses == StatusesOf(expected, results, firsts)
      invariant messages == UnknownMessages(expected, results, firsts)
    {
      IdsNext(results, i);
      FirstStep(results, i);
      FirstsStep(expected, results, firsts, i);
      NoIdWithoutObject(results[i]);
      var id := IdOf(results[i]);
      if id == "" || id in seen {
        continue;
      }
      seen := seen + {id};
      firsts := firsts + [i];
      if expected != map[] && id !in expected {
        messages := messages + [UnknownOracle(i)];
        continue;
      }
      if ResultStatus(results[i].fields) in STATUSES {
        statuses := statuses[id := ResultStatus(results[i].fields)];
      }
    }
    assert results[..|results|] == results;
  }

  method CheckDeltas(expected: map<string, Oracle>, statuses: map<string, string>, results: seq<Json>, firsts: seq<nat>)
    returns (messages: seq<Message>)
    ensures messages == DeltaMessages(expected, statuses, results, firsts)
  {
    hide Unproven;
    messages := [];
    assert firsts[..0] == [];
    for i := 0 to |firsts|
      invariant messages == DeltaMessages(expected, statuses, results, firsts[..i])
    {
      assert firsts[..i + 1][..i] == firsts[..i];
      if Unproven(expected, statuses, results, firsts[i]) {
        messages := messages + [DeltaNotProven(firsts[i])];
      }
    }
    assert firsts[..|firsts|] == firsts;
  }

  /** `validate_tester_oracle_results`. */
  method ValidateTesterOracleResults(payload: seq<Field>,
                                     selected: Option<seq<Oracle>>) returns (messages: seq<Message>)
    ensures messages == AllMessages(payload, selected)
  {
    hide Get, ShapeOf, StatusesOf, UnknownMessages, DeltaMessages, VerdictMessages, FirstResults, IdsOf, ExpectedOf,
         RequiredIds;
    var list := Get(payload, "oracle_results");
    if list.None? || !list.value.List? {
      return [NotAList];
    }
    var results := list.value.items;
    var shape := ValidateShape(results);
    if selected.None? {
      return shape;
    }
    var expected, required := ExpectedOf(selected.value), RequiredIds(selected.value);
    var seen, firsts, statuses, unknown := IndexResults(expected, results);
    var missing := required - seen;
    var deltas := CheckDeltas(expected, statuses, results, firsts);
    messages := shape + (unknown + ((if missing != {} then [MissingRequired(missing)] else [])
                + (deltas + VerdictMessages(payload, required, statuses))));
  }
}
