/** What it means that the check of a tester's results reports nothing. */
module AcceptanceVerdict {
  import opened Text
  import opened Json
  import opened Acceptance

  // ---------------------------------------------------------------- the results by themselves

  /** The field holds this number. */
  predicate HasNumber(fields: seq<Field>, key: string, n: int) {
    Get(fields, key) == Some(Json.Int(n))
  }

  /** If the field holds a number at all, it is one from 0 to `limit`. */
  ghost predicate NumberUpTo(fields: seq<Field>, key: string, limit: nat) {
    forall n :: HasNumber(fields, key, n) ==> 0 <= n <= limit
  }

  /** The field holds this text, between any blanks. */
  predicate HasText(fields: seq<Field>, key: string, text: string) {
    Get(fields, key).Some? && Get(fields, key).value.Str? && Strip(Get(fields, key).value.s) == text
  }

  /** The field holds no text, or a blank one. */
  predicate NoText(fields: seq<Field>, key: string) {
    Get(fields, key).Some? && Get(fields, key).value.Str? ==> Strip(Get(fields, key).value.s) == ""
  }

  function Word(k: nat): string {
    if k == 0 then "passed" else if k == 1 then "failed" else if k == 2 then "blocked" else "not_run"
  }

  predicate ByNumber(fields: seq<Field>, k: nat) {
    HasNumber(fields, "oracle_result_code", k) && (NoText(fields, "status") || HasText(fields, "status", Word(k)))
  }

  ghost predicate NoNumber(fields: seq<Field>, key: string) {
    forall n :: !HasNumber(fields, key, n)
  }

  /** There is a number for the status, from 0 to 3, with no other word beside it; or else the word alone. */
  ghost predicate StatusOk(fields: seq<Field>) {
    || (exists k :: 0 <= k < 4 && ByNumber(fields, k))
    || (NoNumber(fields, "oracle_result_code") && exists k :: 0 <= k < 4 && HasText(fields, "status", Word(k)))
  }

  ghost predicate FieldsOk(fields: seq<Field>) {
    var commands, excerpt := Get(fields, "commands_run"), Get(fields, "output_excerpt");
    && NumberUpTo(fields, "baseline_result_code", 3)
    && NumberUpTo(fields, "current_result_code", 3)
    && NumberUpTo(fields, "regression_delta_code", 2)
    && !NoText(fields, "evidence")
    && commands.Some? && commands.value.List?
    && (excerpt.Some? ==> excerpt.value == Null || excerpt.value.Str?)
  }

  ghost predicate ResultOk(r: Json) {
    r.Object? && !NoText(r.fields, "oracle_id") && StatusOk(r.fields) && FieldsOk(r.fields)
  }

  /** The result gives its oracle status `k`: by number, or else by word. */
  ghost predicate Says(fields: seq<Field>, k: nat) {
    || HasNumber(fields, "oracle_result_code", k)
    || ((forall n :: 0 <= n < 4 ==> !HasNumber(fields, "oracle_result_code", n)) && HasText(fields, "status", Word(k)))
  }

  ghost predicate Passes(fields: seq<Field>) { Says(fields, 0) }

  ghost predicate Fails(fields: seq<Field>) { Says(fields, 1) }

  lemma ReadersMean(fields: seq<Field>, key: string)
    ensures forall n :: HasNumber(fields, key, n) <==> NumericCode(fields, key) == Some(n)
    ensures NoNumber(fields, key) <==> NumericCode(fields, key) == None
    ensures NoText(fields, key) <==> StringField(fields, key) == ""
    ensures forall t :: t != "" ==> (HasText(fields, key, t) <==> StringField(fields, key) == t)
  {
    hide Get, Strip;
    var v := Get(fields, key);
    if v.Some? && v.value.Int? { assert HasNumber(fields, key, v.value.n); }
  }

  predicate HasBool(fields: seq<Field>, key: string, b: bool) {
    Get(fields, key) == Some(Json.Bool(b))
  }

  /** The entry of a plan defines this oracle: it is named, says whether the tester needs it, or else whether it
      is required at all, and how it is to be verified, by default and for 0 as an absolute pass. */
  ghost predicate Defines(item: Json, o: Oracle) {
    && item.Object? && o.id != "" && HasText(item.fields, "id", o.id)
    && (|| HasBool(item.fields, "required_for_tester", o.required)
        || (!HasBool(item.fields, "required_for_tester", true) && !HasBool(item.fields, "required_for_tester", false)
            && HasBool(item.fields, "required", o.required)))
    && (|| (o.mode == 1 && NoNumber(item.fields, "verification_mode_code"))
        || (o.mode == 1 && HasNumber(item.fields, "verification_mode_code", 0))
        || (o.mode != 0 && HasNumber(item.fields, "verification_mode_code", o.mode)))
  }

  lemma PlanMeans(item: Json, o: Oracle)
    ensures OracleOf(item) == Some(o) <==> Defines(item, o)
  {
    hide Get, Strip, HasNumber, HasText, NoNumber, NumericCode, StringField;
    if item.Object? {
      ReadersMean(item.fields, "id");
      ReadersMean(item.fields, "verification_mode_code");
      assert forall b :: HasBool(item.fields, "required_for_tester", b) <==>
        BoolField(item.fields, "required_for_tester") == Some(b);
    }
  }

  /** The oracle a result is for. */
  lemma IdMeans(r: Json)
    requires r.Object?
    ensures IdOf(r) == "" <==> NoText(r.fields, "oracle_id")
    ensures forall id :: id != "" ==> (IdOf(r) == id <==> HasText(r.fields, "oracle_id", id))
  {
    hide Get, Strip, HasText, NoText, StringField;
    ReadersMean(r.fields, "oracle_id");
  }

  lemma SaysMeans(fields: seq<Field>)
    ensures ResultStatus(fields) == "passed" <==> Passes(fields)
    ensures ResultStatus(fields) == "failed" <==> Fails(fields)
  {
    hide Get, Strip, HasNumber, HasText, NumericCode, StringField;
    ReadersMean(fields, "oracle_result_code");
    ReadersMean(fields, "status");
  }

  /** The tester's own verdict: by number, or else by word. */
  ghost predicate Claims(payload: seq<Field>, k: nat)
    requires k < 3
  {
    || HasNumber(payload, "tester_status_code", k)
    || ((forall n :: 0 <= n < 3 ==> !HasNumber(payload, "tester_status_code", n))
        && HasText(payload, "status", ["tests_passed", "source_bug", "environment_blocked"][k]))
  }

  lemma ClaimsMean(payload: seq<Field>)
    ensures TesterStatus(payload) == "tests_passed" <==> Claims(payload, 0)
    ensures TesterStatus(payload) == "source_bug" <==> Claims(payload, 1)
  {
    hide Get, Strip, HasNumber, HasText, NumericCode, StringField;
    ReadersMean(payload, "tester_status_code");
    ReadersMean(payload, "status");
  }

  /** Every result is complete, and no two are for the same oracle. */
  ghost predicate ShapeOk(results: seq<Json>) {
    && (forall i :: 0 <= i < |results| ==> ResultOk(results[i]))
    && (forall i, j :: 0 <= i < j < |results| ==> IdOf(results[i]) != IdOf(results[j]))
  }

  lemma StatusMessagesMean(fields: seq<Field>, at: nat)
    ensures StatusMessages(fields, at) == [] <==> StatusOk(fields)
  {
    hide Get, Strip, HasNumber, HasText, NoText, NoNumber, NumericCode, StringField;
    ReadersMean(fields, "oracle_result_code");
    ReadersMean(fields, "status");
    var code, status := NumericCode(fields, "oracle_result_code"), StringField(fields, "status");
    if StatusMessages(fields, at) == [] {
      if code.None? {
        var k := if status == "passed" then 0 else if status == "failed" then 1
                 else if status == "blocked" then 2 else 3;
        assert HasText(fields, "status", Word(k));
      } else {
        assert ByNumber(fields, code.value);
      }
    } else if exists k :: 0 <= k < 4 && ByNumber(fields, k) {
      var k :| 0 <= k < 4 && ByNumber(fields, k);
      assert code == Some(k) && Word(k) != "";
    }
  }

  lemma RangeMeans(fields: seq<Field>, key: string, limit: nat)
    ensures OutOfRange(NumericCode(fields, key), limit) <==> !NumberUpTo(fields, key, limit)
  {
    hide Get, HasNumber, NumericCode;
    ReadersMean(fields, key);
  }

  lemma FieldMessagesMean(fields: seq<Field>, at: nat)
    ensures FieldMessages(fields, at) == [] <==> FieldsOk(fields)
  {
    hide Get, Strip, HasNumber, NoText, NumericCode, StringField, OutOfRange, NumberUpTo;
    RangeMeans(fields, "baseline_result_code", 3);
    RangeMeans(fields, "current_result_code", 3);
    RangeMeans(fields, "regression_delta_code", 2);
    ReadersMean(fields, "evidence");
  }

  lemma ResultMessagesMean(fields: seq<Field>, at: nat)
    ensures StatusMessages(fields, at) + FieldMessages(fields, at) == [] <==> StatusOk(fields) && FieldsOk(fields)
  {
    hide StatusMessages, FieldMessages, StatusOk, FieldsOk;
    StatusMessagesMean(fields, at);
    FieldMessagesMean(fields, at);
  }

  lemma IdsContain(results: seq<Json>, id: string)
    ensures id in IdsOf(results) <==> id != "" && exists i :: 0 <= i < |results| && IdOf(results[i]) == id
  {
    hide IdOf;
  }

  lemma {:induction false} ShapeMeans(results: seq<Json>)
    ensures ShapeOf(results) == [] <==> ShapeOk(results)
    decreases |results|
  {
    hide IdOf, IdsOf, StatusMessages, FieldMessages, StatusOk, FieldsOk, NoText;
    if results != [] {
      var at := |results| - 1;
      var r, before := results[at], results[..at];
      ShapeMeans(before);
      IdsContain(before, IdOf(r));
      if r.Object? {
        ResultMessagesMean(r.fields, at);
        IdMeans(r);
      }
      assert results == before + [r];
      ShapeNext(before, r, results);
    }
  }

  lemma ShapeNext(before: seq<Json>, r: Json, results: seq<Json>)
    requires results == before + [r]
    ensures ShapeOk(results) <==>
            ShapeOk(before) && ResultOk(r) && forall i :: 0 <= i < |before| ==> IdOf(before[i]) != IdOf(r)
  {
    hide IdOf, ResultOk;
    if ShapeOk(results) {
      forall i | 0 <= i < |before| ensures ResultOk(before[i]) && IdOf(before[i]) != IdOf(r) {
        assert results[i] == before[i] && results[|before|] == r;
      }
      forall i, j | 0 <= i < j < |before| ensures IdOf(before[i]) != IdOf(before[j]) {
        assert results[i] == before[i] && results[j] == before[j];
      }
      assert ResultOk(results[|before|]);
    }
  }

  lemma StatusIsKnown(r: Json)
    requires ResultOk(r)
    ensures ResultStatus(r.fields) in STATUSES
  {
    hide Get, Strip, FieldsOk, IdOf, HasNumber, HasText, NoText, NoNumber, NumericCode, StringField;
    ReadersMean(r.fields, "oracle_result_code");
    ReadersMean(r.fields, "status");
    var code := NumericCode(r.fields, "oracle_result_code");
    if code.Some? {
      var k :| 0 <= k < 4 && ByNumber(r.fields, k);
      assert code == Some(k);
    } else {
      var k :| 0 <= k < 4 && HasText(r.fields, "status", Word(k));
      assert Word(k) != "";
    }
  }

  // ---------------------------------------------------------------- the tables of the plan check

  ghost predicate UniqueIds(oracles: seq<Oracle>) {
    forall i, j :: 0 <= i < j < |oracles| ==> oracles[i].id != oracles[j].id
  }

  lemma ExpectedNext(before: seq<Oracle>, last: Oracle, oracles: seq<Oracle>, m: map<string, Oracle>)
    requires oracles == before + [last] && UniqueIds(oracles)
    requires forall o :: o in before ==> o.id in m && m[o.id] == o
    ensures forall o :: o in oracles ==> o.id in m[last.id := last] && m[last.id := last][o.id] == o
    ensures m[last.id := last] != map[]
  {
    forall o | o in before ensures o.id != last.id {
      var i :| 0 <= i < |before| && before[i] == o;
      assert oracles[i] == o && oracles[|before|] == last;
    }
    assert last.id in m[last.id := last];
  }

  lemma {:induction false} ExpectedIs(oracles: seq<Oracle>)
    requires UniqueIds(oracles)
    ensures forall o :: o in oracles ==> o.id in ExpectedOf(oracles) && ExpectedOf(oracles)[o.id] == o
    ensures forall id :: id in ExpectedOf(oracles) ==> exists o :: o in oracles && o.id == id
    ensures ExpectedOf(oracles) == map[] <==> oracles == []
    decreases |oracles|
  {
    if oracles != [] {
      var before, last := oracles[..|oracles| - 1], oracles[|oracles| - 1];
      ExpectedIs(before);
      ExpectedNext(before, last, oracles, ExpectedOf(before));
    }
  }

  function UpTo(n: nat): seq<nat> {
    if n == 0 then [] else UpTo(n - 1) + [n - 1]
  }

  /** When no id repeats, every result is the first of its oracle. */
  lemma {:induction false} FirstsAreAll(results: seq<Json>, n: nat)
    requires ShapeOk(results) && n <= |results|
    ensures FirstResults(results[..n]) == UpTo(n)
    decreases n
  {
    hide IdOf, IdsOf, FirstResults, ResultOk;
    if n == 0 {
      NoFirsts(results);
    } else {
      FirstsAreAll(results, n - 1);
      FirstStep(results, n - 1);
      IdsContain(results[..n - 1], IdOf(results[n - 1]));
      assert ResultOk(results[n - 1]);
      HasId(results[n - 1]);
    }
  }

  lemma NoFirsts(results: seq<Json>)
    ensures FirstResults(results[..0]) == []
  {
  }

  lemma HasId(r: Json)
    requires ResultOk(r)
    ensures IdOf(r) != "" && r.Object?
  {
    hide IdOf, StatusOk, FieldsOk, NoText;
    IdMeans(r);
  }

  lemma {:induction false} UnknownMeans(expected: map<string, Oracle>, results: seq<Json>, n: nat)
    requires n <= |results|
    ensures UnknownMessages(expected, results, UpTo(n)) == [] <==>
      forall i :: 0 <= i < n ==> Known(expected, IdOf(results[i]))
    decreases n
  {
    hide IdOf, Known, UnknownMessages, StatusesOf;
    if n == 0 {
      NothingIndexed(expected, results);
    } else {
      FirstsStep(expected, results, UpTo(n - 1), n - 1);
      UnknownMeans(expected, results, n - 1);
    }
  }

  lemma {:induction false} DeltasMean(expected: map<string, Oracle>, statuses: map<string, string>,
                                      results: seq<Json>, n: nat)
    requires n <= |results|
    ensures DeltaMessages(expected, statuses, results, UpTo(n)) == [] <==>
            forall i :: 0 <= i < n ==> !Unproven(expected, statuses, results, i)
    decreases n
  {
    hide Unproven, DeltaMessages;
    if n == 0 {
      NoDeltas(expected, statuses, results);
    } else {
      DeltaStep(expected, statuses, results, UpTo(n - 1), n - 1);
      DeltasMean(expected, statuses, results, n - 1);
    }
  }

  lemma NoDeltas(expected: map<string, Oracle>, statuses: map<string, string>, results: seq<Json>)
    ensures DeltaMessages(expected, statuses, results, []) == []
  {
  }

  lemma DeltaStep(expected: map<string, Oracle>, statuses: map<string, string>, results: seq<Json>, firsts: seq<nat>,
                  i: nat)
    ensures DeltaMessages(expected, statuses, results, firsts + [i]) ==
            DeltaMessages(expected, statuses, results, firsts) +
              If(Unproven(expected, statuses, results, i), DeltaNotProven(i))
  {
    hide Unproven;
    assert (firsts + [i])[..|firsts|] == firsts;
  }

  /** The status table holds the status of every result of a known oracle, and nothing else. */
  ghost predicate Tabled(statuses: map<string, string>, results: seq<Json>, n: nat)
    requires n <= |results| && forall i :: 0 <= i < n ==> results[i].Object?
  {
    && (forall i ::
      0 <= i < n ==> IdOf(results[i]) in statuses && statuses[IdOf(results[i])] == ResultStatus(results[i].fields))
    && (forall id :: id in statuses ==> exists i :: 0 <= i < n && IdOf(results[i]) == id)
  }

  lemma AllObjects(results: seq<Json>)
    requires ShapeOk(results)
    ensures forall i :: 0 <= i < |results| ==> results[i].Object?
  {
    hide IdOf, StatusOk, FieldsOk;
  }

  lemma {:induction false} StatusesAre(expected: map<string, Oracle>, results: seq<Json>, n: nat)
    requires n <= |results| && ShapeOk(results)
    requires forall i :: 0 <= i < |results| ==> results[i].Object? && Known(expected, IdOf(results[i]))
    ensures Tabled(StatusesOf(expected, results, UpTo(n)), results, n)
    decreases n
  {
    hide IdOf, ResultStatus, STATUSES, Known, StatusesOf, ResultOk, UnknownMessages;
    if n == 0 {
      NothingIndexed(expected, results);
    } else {
      assert ResultOk(results[n - 1]);
      StatusIsKnown(results[n - 1]);
      FirstsStep(expected, results, UpTo(n - 1), n - 1);
      StatusesAre(expected, results, n - 1);
    }
  }

  // ---------------------------------------------------------------- the verdict

  /** The result proves a pass against a baseline: both runs passed or failed, and there is no regression. */
  predicate Proves(fields: seq<Field>) {
    && (HasNumber(fields, "baseline_result_code", 0) || HasNumber(fields, "baseline_result_code", 1))
    && (HasNumber(fields, "current_result_code", 0) || HasNumber(fields, "current_result_code", 1))
    && HasNumber(fields, "regression_delta_code", 0)
  }

  lemma ProvesMeans(fields: seq<Field>)
    ensures DeltaProven(fields) <==> Proves(fields)
  {
    hide Get;
  }

  lemma AllSay(results: seq<Json>)
    ensures forall i :: 0 <= i < |results| && results[i].Object? ==>
      var fields := results[i].fields;
      && (ResultStatus(fields) == "passed" <==> Passes(fields))
      && (ResultStatus(fields) == "failed" <==> Fails(fields))
      && (DeltaProven(fields) <==> Proves(fields))
  {
    hide ResultStatus, Passes, Fails, DeltaProven, Proves;
    forall i | 0 <= i < |results| && results[i].Object?
      ensures var fields := results[i].fields;
        && (ResultStatus(fields) == "passed" <==> Passes(fields))
        && (ResultStatus(fields) == "failed" <==> Fails(fields))
        && (DeltaProven(fields) <==> Proves(fields))
    {
      SaysMeans(results[i].fields);
      ProvesMeans(results[i].fields);
    }
  }

  /** Result `i` answers oracle `o`. */
  predicate Answers(results: seq<Json>, i: nat, o: Oracle) {
    i < |results| && results[i].Object? && IdOf(results[i]) == o.id
  }

  ghost predicate OnlyKnown(results: seq<Json>, oracles: seq<Oracle>) {
    oracles != [] ==> forall i :: 0 <= i < |results| ==> exists o :: o in oracles && o.id == IdOf(results[i])
  }

  ghost predicate AllAnswered(results: seq<Json>, oracles: seq<Oracle>) {
    forall o :: o in oracles && o.required ==> exists i: nat :: Answers(results, i, o)
  }

  ghost predicate DeltasProven(results: seq<Json>, oracles: seq<Oracle>) {
    forall o, i: nat :: o in oracles && o.mode == REGRESSION_DELTA && Answers(results, i, o) ==>
      Passes(results[i].fields) ==> Proves(results[i].fields)
  }

  ghost predicate AllPassed(results: seq<Json>, oracles: seq<Oracle>) {
    forall o, i: nat ::
      o in oracles && o.required && Answers(results, i, o) ==> Passes(results[i].fields)
  }

  ghost predicate SomeFailed(results: seq<Json>, oracles: seq<Oracle>) {
    exists o, i: nat ::
      o in oracles && o.required && Answers(results, i, o) && Fails(results[i].fields)
  }

  ghost predicate Acceptable(payload: seq<Field>, results: seq<Json>, oracles: seq<Oracle>) {
    && ShapeOk(results) && OnlyKnown(results, oracles)
    && AllAnswered(results, oracles) && DeltasProven(results, oracles)
    && (Claims(payload, 0) ==> AllPassed(results, oracles))
    && (Claims(payload, 1) && Get(payload, "environment_dependency_issue") != Some(Bool(true))
        ==> SomeFailed(results, oracles))
  }

  lemma KnownMeans(results: seq<Json>, oracles: seq<Oracle>)
    requires UniqueIds(oracles)
    ensures (forall i :: 0 <= i < |results| ==> Known(ExpectedOf(oracles), IdOf(results[i]))) <==>
      OnlyKnown(results, oracles)
  {
    hide IdOf, ExpectedOf;
    ExpectedIs(oracles);
  }

  lemma MissingMeans(results: seq<Json>, oracles: seq<Oracle>)
    requires ShapeOk(results)
    ensures RequiredIds(oracles) - IdsOf(results) == {} <==> AllAnswered(results, oracles)
  {
    hide IdOf, IdsOf, ResultOk;
    AllObjects(results);
    forall id: string ensures id in IdsOf(results) <==> exists i: nat :: i < |results| && IdOf(results[i]) == id {
      IdsContain(results, id);
      if exists i: nat :: i < |results| && IdOf(results[i]) == id {
        var i: nat :| i < |results| && IdOf(results[i]) == id;
        assert ResultOk(results[i]);
        HasId(results[i]);
      }
    }
    forall o | o in oracles && o.required ensures o.id in IdsOf(results) <==> exists i: nat :: Answers(results, i, o) {
      if o.id in IdsOf(results) {
        var i: nat :| i < |results| && IdOf(results[i]) == o.id;
        assert Answers(results, i, o);
      }
    }
    var missing := RequiredIds(oracles) - IdsOf(results);
    if missing == {} {
      forall o | o in oracles && o.required ensures o.id in IdsOf(results) {
        assert o.id in RequiredIds(oracles);
        assert o.id !in missing;
      }
    } else {
      var id :| id in missing;
    }
  }

  lemma DeltasProvenMeans(results: seq<Json>, oracles: seq<Oracle>, statuses: map<string, string>)
    requires UniqueIds(oracles) && ShapeOk(results) && forall i :: 0 <= i < |results| ==> results[i].Object?
    requires Tabled(statuses, results, |results|)
    ensures (forall i :: 0 <= i < |results| ==> !Unproven(ExpectedOf(oracles), statuses, results, i)) <==>
      DeltasProven(results, oracles)
  {
    AllSay(results);
    hide IdOf, ExpectedOf, ResultStatus, DeltaProven, Proves, Passes, ResultOk, UniqueIds;
    ExpectedIs(oracles);
    var expected := ExpectedOf(oracles);
    if DeltasProven(results, oracles) {
      forall i | 0 <= i < |results| ensures !Unproven(expected, statuses, results, i) {
        if IdOf(results[i]) in expected {
          var o :| o in oracles && o.id == IdOf(results[i]);
          assert Answers(results, i, o);
        }
      }
    } else {
      var o, i: nat :| o in oracles && o.mode == REGRESSION_DELTA && Answers(results, i, o)
                  && Passes(results[i].fields) && !Proves(results[i].fields);
      assert Unproven(expected, statuses, results, i);
    }
  }

  lemma PassedMeans(results: seq<Json>, oracles: seq<Oracle>, statuses: map<string, string>)
    requires forall i :: 0 <= i < |results| ==> results[i].Object?
    requires Tabled(statuses, results, |results|)
    ensures NotPassed(RequiredIds(oracles), statuses) == {} <==> AllPassed(results, oracles)
    ensures FailedOnes(RequiredIds(oracles), statuses) != {} <==> SomeFailed(results, oracles)
  {
    AllSay(results);
    hide IdOf, ResultStatus, Passes, Fails;
    var required := RequiredIds(oracles);
    forall o, i: nat | o in oracles && o.required && Answers(results, i, o)
      ensures o.id in statuses && o.id in required && statuses[o.id] == ResultStatus(results[i].fields) {}
    forall id | id in statuses && id in required
      ensures exists o, i: nat :: o in oracles && o.required && o.id == id && Answers(results, i, o)
    {
      var o :| o in oracles && o.required && o.id == id;
      var i: nat :| i < |results| && IdOf(results[i]) == id;
      assert Answers(results, i, o);
    }
    if NotPassed(required, statuses) != {} {
      var id :| id in NotPassed(required, statuses);
    } else {
      forall o, i: nat | o in oracles && o.required && Answers(results, i, o)
        ensures Passes(results[i].fields)
      {
        assert o.id !in NotPassed(required, statuses);
      }
    }
    if FailedOnes(required, statuses) != {} {
      var id :| id in FailedOnes(required, statuses);
      assert id in statuses && id in required && statuses[id] == "failed";
    } else {
      forall o, i: nat | o in oracles && o.required && Answers(results, i, o)
        ensures !Fails(results[i].fields)
      {
        assert o.id !in FailedOnes(required, statuses);
      }
    }
  }

  /** The check reports nothing iff the results are acceptable: complete, for known oracles only, one
      for every required oracle, with proof for passes against a baseline, and in line with the
      tester's own verdict. */
  lemma NothingReportedIff(payload: seq<Field>, oracles: seq<Oracle>)
    requires UniqueIds(oracles)
    ensures var list := Get(payload, "oracle_results");
      AllMessages(payload, Some(oracles)) == [] <==>
      list.Some? && list.value.List? && Acceptable(payload, list.value.items, oracles)
  {
    hide Get, ShapeOf, StatusesOf, UnknownMessages, DeltaMessages, FirstResults, IdsOf, ExpectedOf, RequiredIds,
         ShapeOk,
         OnlyKnown, AllAnswered, DeltasProven, AllPassed, SomeFailed,
         NotPassed, FailedOnes, UpTo, Tabled, TesterStatus, Claims, UniqueIds;
    ClaimsMean(payload);
    var list := Get(payload, "oracle_results");
    if list.Some? && list.value.List? {
      var results := list.value.items;
      ShapeMeans(results);
      if ShapeOk(results) {
        var expected := ExpectedOf(oracles);
        var n := |results|;
        FirstsAreAll(results, n);
        assert results[..n] == results;
        UnknownMeans(expected, results, n);
        KnownMeans(results, oracles);
        if OnlyKnown(results, oracles) {
          AllObjects(results);
          StatusesAre(expected, results, n);
          var statuses := StatusesOf(expected, results, UpTo(n));
          MissingMeans(results, oracles);
          DeltasMean(expected, statuses, results, n);
          DeltasProvenMeans(results, oracles, statuses);
          PassedMeans(results, oracles, statuses);
        }
      }
    }
  }

  /** With unique oracle ids, an empty report and a claim that the tests passed: every required oracle
      has exactly one result, it is passed, and a pass against a baseline is proven. */
  lemma PassIsSound(payload: seq<Field>, oracles: seq<Oracle>, o: Oracle) returns (i: nat)
    requires UniqueIds(oracles) && o in oracles && o.required
    requires AllMessages(payload, Some(oracles)) == [] && Claims(payload, 0)
    ensures var list := Get(payload, "oracle_results");
      && list.Some? && list.value.List?
      && var results := list.value.items;
      && Answers(results, i, o) && (forall j: nat :: Answers(results, j, o) ==> j == i)
      && Passes(results[i].fields)
      && (o.mode == REGRESSION_DELTA ==> Proves(results[i].fields))
  {
    hide AllMessages, Get, IdOf, Passes, ResultOk, Proves, Claims;
    NothingReportedIff(payload, oracles);
    var results := Get(payload, "oracle_results").value.items;
    i :| Answers(results, i, o);
  }

  /** An empty report and a claim of a source bug without an environment issue: some required oracle
      failed. */
  lemma BugIsSound(payload: seq<Field>, oracles: seq<Oracle>) returns (o: Oracle, i: nat)
    requires UniqueIds(oracles)
    requires AllMessages(payload, Some(oracles)) == [] && Claims(payload, 1)
    requires Get(payload, "environment_dependency_issue") != Some(Bool(true))
    ensures var list := Get(payload, "oracle_results");
      && list.Some? && list.value.List? && o in oracles && o.required
      && Answers(list.value.items, i, o) && Fails(list.value.items[i].fields)
  {
    hide AllMessages, Get, IdOf, Fails, ShapeOk, Claims;
    NothingReportedIff(payload, oracles);
    var results := Get(payload, "oracle_results").value.items;
    o, i :| o in oracles && o.required && Answers(results, i, o) && Fails(results[i].fields);
  }
}
