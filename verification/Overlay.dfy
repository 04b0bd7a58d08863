/** Laying a task's configuration over the loaded one. */
module Overlay {
  import opened Text
  import opened Json

  function Merged(t: Json, u: Json): Json
    requires t.Object? && u.Object?
    ensures Merged(t, u).Object?
    decreases u, 1, 0
  {
    Object(MergedFields(t.fields, u, |u.fields|))
  }

  /** The first `n` fields of `u` laid over `fields`. */
  function MergedFields(fields: seq<Field>, u: Json, n: nat): seq<Field>
    requires u.Object? && n <= |u.fields|
    decreases u, 0, n
  {
    if n == 0 then fields else
    var before, f := MergedFields(fields, u, n - 1), u.fields[n - 1];
    SetField(before, f.key, Laid(Get(before, f.key), u, n - 1))
  }

  /** The value of field `i` of `u` laid over what was there. */
  function Laid(there: Option<Json>, u: Json, i: nat): Json
    requires u.Object? && i < |u.fields|
    decreases u, 0, i
  {
    var v := u.fields[i].value;
    if v.Object? && there.Some? && there.value.Object? then Merged(there.value, v) else v
  }

  /** `_deep_update`. */
  method DeepUpdate(target: seq<Field>, updates: Json) returns (fields: seq<Field>)
    requires updates.Object?
    ensures fields == MergedFields(target, updates, |updates.fields|)
    decreases updates
  {
    fields := target;
    for i := 0 to |updates.fields|
      invariant fields == MergedFields(target, updates, i)
    {
      var f := updates.fields[i];
      var held := Get(fields, f.key);
      if f.value.Object? && held.Some? && held.value.Object? {
        var inner := DeepUpdate(held.value.fields, f.value);
        assert Merged(held.value, f.value) == Object(inner);
        fields := SetField(fields, f.key, Object(inner));
      } else {
        fields := SetField(fields, f.key, f.value);
      }
    }
  }

  // ---------------------------------------------------------------- looking into configurations

  /** The value under a path of keys. */
  function At(t: Json, p: seq<string>): Option<Json>
    decreases |p|
  {
    if p == [] then Some(t)
    else if !t.Object? then None
    else
      var child := Get(t.fields, p[0]);
      if child.Some? then At(child.value, p[1..]) else None
  }

  lemma AtOneKey(fields: seq<Field>, key: string, p: seq<string>)
    ensures At(Object(fields), []) == Some(Object(fields)) && At(Object(fields), [key]) == Get(fields, key)
    ensures Get(fields, key).Some? ==> At(Object(fields), [key] + p) == At(Get(fields, key).value, p)
  {
    hide Get;
    assert ([key] + p)[1..] == p && [key][1..] == [];
  }

  /** `u` has something other than an object on the way to `p`. */
  predicate Blocked(u: Json, p: seq<string>)
    decreases |p|
  {
    if p == [] then false
    else if !u.Object? then true
    else
      var child := Get(u.fields, p[0]);
      child.Some? && Blocked(child.value, p[1..])
  }

  function Over(t: Option<Json>, v: Json): Json {
    if v.Object? && t.Some? && t.value.Object? then Merged(t.value, v) else v
  }

  /** The value of `key` among the first `n` fields. */
  function GetBefore(u: Json, n: nat, key: string): Option<Json>
    requires u.Object? && n <= |u.fields|
  {
    if n == 0 then None
    else if u.fields[n - 1].key == key then Some(u.fields[n - 1].value)
    else GetBefore(u, n - 1, key)
  }

  lemma {:induction false} GetMerged(fields: seq<Field>, u: Json, n: nat, key: string)
    requires u.Object? && n <= |u.fields|
    requires forall i, j :: 0 <= i < j < |u.fields| ==> u.fields[i].key != u.fields[j].key
    ensures Get(MergedFields(fields, u, n), key) ==
            if GetBefore(u, n, key).Some? then Some(Over(Get(fields, key), GetBefore(u, n, key).value))
            else Get(fields, key)
    decreases n
  {
    hide Get, SetField, Merged;
    if n > 0 {
      GetMerged(fields, u, n - 1, key);
      var before, f := MergedFields(fields, u, n - 1), u.fields[n - 1];
      SetFieldIs(before, f.key, Laid(Get(before, f.key), u, n - 1), key);
      if f.key == key { NotBefore(u, n - 1, key); }
    }
  }

  lemma {:induction false} NotBefore(u: Json, n: nat, key: string)
    requires u.Object? && n <= |u.fields| && forall i :: 0 <= i < n ==> u.fields[i].key != key
    ensures GetBefore(u, n, key) == None
  {
    if n > 0 { NotBefore(u, n - 1, key); }
  }

  lemma {:induction false} GetBeforeIsGet(u: Json, n: nat, key: string)
    requires u.Object? && n <= |u.fields|
    requires forall i, j :: 0 <= i < j < |u.fields| ==> u.fields[i].key != u.fields[j].key
    ensures n == |u.fields| ==> GetBefore(u, n, key) == Get(u.fields, key)
    ensures GetBefore(u, n, key).Some? ==> exists i ::
      0 <= i < n && u.fields[i].key == key && GetBefore(u, n, key) == Some(u.fields[i].value)
    ensures GetBefore(u, n, key).None? ==> forall i :: 0 <= i < n ==> u.fields[i].key != key
    decreases n
  {
    hide Get;
    GetIsFirst(u.fields, key);
    if n > 0 { GetBeforeIsGet(u, n - 1, key); }
  }

  /** One level of a merge, read by key. */
  lemma MergedAtKey(t: Json, u: Json, key: string)
    requires t.Object? && u.Object? && WellKeyed(u)
    ensures Get(Merged(t, u).fields, key) ==
            if Get(u.fields, key).Some? then Some(Over(Get(t.fields, key), Get(u.fields, key).value))
            else Get(t.fields, key)
  {
    hide Get, GetBefore, MergedFields, Over;
    DifferentKeys(u);
    GetMerged(t.fields, u, |u.fields|, key);
    GetBeforeIsGet(u, |u.fields|, key);
  }

  lemma DifferentKeys(u: Json)
    requires u.Object? && WellKeyed(u)
    ensures forall i, j :: 0 <= i < j < |u.fields| ==> u.fields[i].key != u.fields[j].key
  {
  }

  lemma ChildIsWellKeyed(u: Json, key: string)
    requires u.Object? && WellKeyed(u) && Get(u.fields, key).Some?
    ensures WellKeyed(Get(u.fields, key).value)
  {
    hide GetBefore;
    DifferentKeys(u);
    GetBeforeIsGet(u, |u.fields|, key);
  }

  /** What a merge holds under any path: what the overlay says there, laid over what was there; where
      the overlay says nothing, what was there, unless the overlay put something else on the way. */
  lemma {:induction false} MergedAtPath(t: Json, u: Json, p: seq<string>)
    requires t.Object? && u.Object? && WellKeyed(u)
    ensures At(Merged(t, u), p) ==
            if At(u, p).Some? then Some(Over(At(t, p), At(u, p).value))
            else if Blocked(u, p) then None
            else At(t, p)
    decreases |p|
  {
    hide Get, Merged, WellKeyed;
    if p != [] {
      MergedAtKey(t, u, p[0]);
      var v, there := Get(u.fields, p[0]), Get(t.fields, p[0]);
      if v.Some? {
        ChildIsWellKeyed(u, p[0]);
        if v.value.Object? && there.Some? && there.value.Object? {
          MergedAtPath(there.value, v.value, p[1..]);
        } else {
          NothingUnder(there, v.value, p[1..]);
        }
      }
    }
  }

  /** Laid over nothing, or laid as something that is no object, an overlay stands as it is. */
  lemma NothingUnder(there: Option<Json>, v: Json, p: seq<string>)
    requires !(v.Object? && there.Some? && there.value.Object?)
    ensures var before := if there.Some? then At(there.value, p) else None;
      At(v, p) == if At(v, p).Some? then Some(Over(before, At(v, p).value)) else if Blocked(v, p) then None else before
  {
    hide Get, Merged;
  }

  // ---------------------------------------------------------------- the same overlay twice

  lemma {:induction false} SetSame(fields: seq<Field>, key: string, value: Json)
    requires Get(fields, key) == Some(value)
    ensures SetField(fields, key, value) == fields
    decreases |fields|
  {
    assert fields == [fields[0]] + fields[1..];
    if fields[0].key == key {
      assert fields[0] == Field(key, value);
    } else {
      SetSame(fields[1..], key, value);
    }
  }

  /** Fields over which every field of `u` has already been laid stay as they are. */
  lemma {:induction false} NothingToLay(fields: seq<Field>, u: Json, n: nat)
    requires u.Object? && n <= |u.fields|
    requires forall i :: 0 <= i < n ==>
      Get(fields, u.fields[i].key).Some?
      && Over(Get(fields, u.fields[i].key), u.fields[i].value) == Get(fields, u.fields[i].key).value
    ensures MergedFields(fields, u, n) == fields
    decreases n
  {
    hide Get, SetField, Merged;
    if n > 0 {
      NothingToLay(fields, u, n - 1);
      SetSame(fields, u.fields[n - 1].key, Get(fields, u.fields[n - 1].key).value);
    }
  }

  lemma FieldIsThere(u: Json, i: nat)
    requires u.Object? && WellKeyed(u) && i < |u.fields|
    ensures Get(u.fields, u.fields[i].key) == Some(u.fields[i].value) && WellKeyed(u.fields[i].value)
  {
    hide Get;
    DifferentKeys(u);
    GetIsFirst(u.fields, u.fields[i].key);
  }

  lemma {:induction false} LaidOverItself(u: Json)
    requires u.Object? && WellKeyed(u)
    ensures Merged(u, u) == u
    decreases u
  {
    hide Get, SetField, MergedFields;
    forall i | 0 <= i < |u.fields|
      ensures Get(u.fields, u.fields[i].key).Some?
              && Over(Get(u.fields, u.fields[i].key), u.fields[i].value) == Get(u.fields, u.fields[i].key).value
    {
      FieldIsThere(u, i);
      if u.fields[i].value.Object? { LaidOverItself(u.fields[i].value); }
    }
    NothingToLay(u.fields, u, |u.fields|);
  }

  /** Laying the same overlay over a configuration again changes nothing. */
  lemma {:induction false} OverlayIsIdempotent(t: Json, u: Json)
    requires t.Object? && u.Object? && WellKeyed(u)
    ensures Merged(Merged(t, u), u) == Merged(t, u)
    decreases u
  {
    hide Get, SetField, MergedFields, WellKeyed;
    var m := Merged(t, u);
    forall i | 0 <= i < |u.fields|
      ensures Get(m.fields, u.fields[i].key).Some?
              && Over(Get(m.fields, u.fields[i].key), u.fields[i].value) == Get(m.fields, u.fields[i].key).value
    {
      var key, v := u.fields[i].key, u.fields[i].value;
      FieldIsThere(u, i);
      MergedAtKey(t, u, key);
      if v.Object? {
        var there := Get(t.fields, key);
        if there.Some? && there.value.Object? { OverlayIsIdempotent(there.value, v); } else { LaidOverItself(v); }
      }
    }
    NothingToLay(m.fields, u, |u.fields|);
  }
}
