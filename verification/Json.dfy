/** Parsed JSON and the readers the contract checks use. */
module Json {
  import opened Text

  /** Objects keep their fields in order; a parsed object has no key twice (`WellKeyed`). */
  datatype Json = Null | Bool(b: bool) | Int(n: int) | Float(r: real) | Str(s: string)
    | List(items: seq<Json>) | Object(fields: seq<Field>)

  datatype Field = Field(key: string, value: Json)

  /** `payload.get(key)`; absent and null are told apart. */
  function Get(fields: seq<Field>, key: string): Option<Json>
    decreases |fields|
  {
    if fields == [] then None
    else if fields[0].key == key then Some(fields[0].value)
    else Get(fields[1..], key)
  }

  /** `numeric_code`: an integer that is not a boolean. */
  function NumericCode(fields: seq<Field>, key: string): Option<int> {
    var v := Get(fields, key);
    if v.Some? && v.value.Int? then Some(v.value.n) else None
  }

  /** `_string_field`: a stripped string, empty when there is none. */
  function StringField(fields: seq<Field>, key: string): string {
    var v := Get(fields, key);
    if v.Some? && v.value.Str? then Strip(v.value.s) else ""
  }

  /** `_normalized_string`. */
  function Normalized(v: Json): string {
    if v.Str? then Lower(Strip(v.s)) else ""
  }

  ghost predicate WellKeyed(t: Json)
    decreases t
  {
    match t
    case Object(fields) =>
      && (forall i, j :: 0 <= i < j < |fields| ==> fields[i].key != fields[j].key)
      && (forall i :: 0 <= i < |fields| ==> WellKeyed(fields[i].value))
    case List(items) => forall i :: 0 <= i < |items| ==> WellKeyed(items[i])
    case _ => true
  }

  lemma {:induction false} GetIsFirst(fields: seq<Field>, key: string)
    ensures Get(fields, key).None? <==> forall i :: 0 <= i < |fields| ==> fields[i].key != key
    ensures forall i ::
      0 <= i < |fields| && fields[i].key == key && (forall j :: 0 <= j < i ==> fields[j].key != key) ==>
        Get(fields, key) == Some(fields[i].value)
    decreases |fields|
  {
    if fields != [] && fields[0].key != key {
      GetIsFirst(fields[1..], key);
      forall i | 0 < i < |fields| ensures fields[i] == fields[1..][i - 1] {}
    }
  }

  /** `payload[key] = value`. */
  function SetField(fields: seq<Field>, key: string, value: Json): seq<Field>
    decreases |fields|
  {
    if fields == [] then [Field(key, value)]
    else if fields[0].key == key then [Field(key, value)] + fields[1..]
    else [fields[0]] + SetField(fields[1..], key, value)
  }

  lemma {:induction false} SetFieldIs(fields: seq<Field>, key: string, value: Json, other: string)
    ensures Get(SetField(fields, key, value), other) == if other == key then Some(value) else Get(fields, other)
    ensures forall f :: f in SetField(fields, key, value) ==> f in fields || f == Field(key, value)
    decreases |fields|
  {
    if fields != [] && fields[0].key != key {
      SetFieldIs(fields[1..], key, value, other);
      assert ([fields[0]] + SetField(fields[1..], key, value))[1..] == SetField(fields[1..], key, value);
    } else if fields != [] {
      assert ([Field(key, value)] + fields[1..])[1..] == fields[1..];
    }
  }
}
