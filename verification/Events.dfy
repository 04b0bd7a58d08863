/** The two append-only event stores. */
module Events {
  import opened Text

  datatype Event = Event(id: string, typ: string, taskId: Option<string>, aggregateId: Option<string>, payload: string)

  /** The filter of a stream; a missing part matches everything. */
  datatype Filter = Filter(taskId: Option<string>, typ: Option<string>, aggregateId: Option<string>)

  predicate Selects(f: Filter, e: Event) {
    && (f.taskId.Some? ==> e.taskId == f.taskId)
    && (f.typ.Some? ==> e.typ == f.typ.value)
    && (f.aggregateId.Some? ==> e.aggregateId == f.aggregateId)
  }

  function Select(f: Filter, events: seq<Event>): seq<Event>
    decreases |events|
  {
    if events == [] then [] else
    var before, e := Select(f, events[..|events| - 1]), events[|events| - 1];
    if Selects(f, e) then before + [e] else before
  }

  predicate HasId(events: seq<Event>, id: string) {
    exists i :: 0 <= i < |events| && events[i].id == id
  }

  predicate UniqueIds(events: seq<Event>) {
    forall i, j :: 0 <= i < j < |events| ==> events[i].id != events[j].id
  }

  /** How many events of a batch can be appended before the first duplicate. */
  function Fresh(stored: seq<Event>, batch: seq<Event>): (n: nat)
    ensures n <= |batch|
    decreases |batch|
  {
    if batch == [] || HasId(stored, batch[0].id) then 0 else 1 + Fresh(stored + [batch[0]], batch[1..])
  }

  function MemoryAfter(stored: seq<Event>, batch: seq<Event>): seq<Event> {
    stored + batch[..Fresh(stored, batch)]
  }

  function TableAfter(stored: seq<Event>, batch: seq<Event>): seq<Event> {
    if Fresh(stored, batch) == |batch| then stored + batch else stored
  }

  class InMemoryEventStore {
    var events: seq<Event>
    var ids: set<string>

    ghost predicate Valid()
      reads this
    {
      UniqueIds(events) && forall id :: id in ids <==> HasId(events, id)
    }

    constructor ()
      ensures Valid() && events == []
    {
      events, ids := [], {};
    }

    /** `append`; the result says whether the event was stored or a duplicate was reported. */
    method Append(e: Event) returns (stored: bool)
      requires Valid()
      modifies this
      ensures Valid()
      ensures stored == !old(HasId(events, e.id)) && events == if stored then old(events) + [e] else old(events)
    {
      hide UniqueIds;
      if e.id in ids {
        return false;
      }
      AddedIsUnique(events, e);
      events := events + [e];
      ids := ids + {e.id};
      stored := true;
    }

    /** `append_many`: stops at the first duplicate and keeps what was appended before it. */
    method AppendMany(batch: seq<Event>) returns (stored: bool)
      requires Valid()
      modifies this
      ensures Valid()
      ensures events == MemoryAfter(old(events), batch) && stored == (Fresh(old(events), batch) == |batch|)
    {
      hide HasId, UniqueIds;
      assert batch[..0] == [] && old(events) + [] == old(events) && batch[0..] == batch;
      for i := 0 to |batch|
        invariant Valid()
        invariant events == old(events) + batch[..i]
        invariant Fresh(old(events), batch) == i + Fresh(events, batch[i..])
      {
        assert batch[i..][0] == batch[i] && batch[i..][1..] == batch[i + 1..];
        assert old(events) + batch[..i] + [batch[i]] == old(events) + batch[..i + 1];
        var ok := Append(batch[i]);
        if !ok {
          return false;
        }
      }
      assert batch[..|batch|] == batch;
      stored := true;
    }

    /** `stream`: one pass for every part of the filter. */
    method Stream(f: Filter) returns (r: seq<Event>)
      ensures r == Select(f, events)
    {
      hide Select;
      r := events;
      ghost var g := Filter(None, None, None);
      SelectAll(events);
      if f.taskId.Some? {
        r := Pass(Filter(f.taskId, None, None), r);
        SelectTwice(g, Filter(f.taskId, None, None), Filter(f.taskId, None, None), events);
      }
      g := Filter(f.taskId, None, None);
      if f.typ.Some? {
        r := Pass(Filter(None, f.typ, None), r);
        SelectTwice(g, Filter(None, f.typ, None), Filter(f.taskId, f.typ, None), events);
      }
      g := Filter(f.taskId, f.typ, None);
      if f.aggregateId.Some? {
        r := Pass(Filter(None, None, f.aggregateId), r);
        SelectTwice(g, Filter(None, None, f.aggregateId), f, events);
      }
    }
  }

  method Pass(f: Filter, events: seq<Event>) returns (r: seq<Event>)
    ensures r == Select(f, events)
  {
    hide Selects;
    r := [];
    assert events[..0] == [];
    for i := 0 to |events|
      invariant r == Select(f, events[..i])
    {
      assert events[..i + 1][..i] == events[..i];
      if Selects(f, events[i]) {
        r := r + [events[i]];
      }
    }
    assert events[..|events|] == events;
  }

  lemma {:induction false} SelectAll(events: seq<Event>)
    ensures Select(Filter(None, None, None), events) == events
    decreases |events|
  {
    if events != [] {
      SelectAll(events[..|events| - 1]);
    }
  }

  /** An event has what the filter asks for: task, type and aggregate, as far as it names them. */
  predicate Wanted(f: Filter, e: Event) {
    && (f.taskId == None || e.taskId == f.taskId)
    && (f.typ == None || Some(e.typ) == f.typ)
    && (f.aggregateId == None || e.aggregateId == f.aggregateId)
  }

  /** A stream has the wanted events, each as often as it was stored, in the order in which they were. */
  lemma {:induction false} StreamMeans(f: Filter, events: seq<Event>, e: Event)
    ensures Select(f, events + [e]) == if Wanted(f, e) then Select(f, events) + [e] else Select(f, events)
    ensures e in Select(f, events) <==> e in events && Wanted(f, e)
    decreases |events|
  {
    assert (events + [e])[..|events|] == events;
    if events != [] {
      var before, last := events[..|events| - 1], events[|events| - 1];
      StreamMeans(f, before, e);
      assert events == before + [last];
    }
  }

  lemma {:induction false} SelectTwice(f: Filter, g: Filter, both: Filter, events: seq<Event>)
    requires forall e :: Selects(both, e) <==> Selects(f, e) && Selects(g, e)
    ensures Select(g, Select(f, events)) == Select(both, events)
    decreases |events|
  {
    hide Selects;
    if events != [] {
      var before, e := events[..|events| - 1], events[|events| - 1];
      SelectTwice(f, g, both, before);
      assert (Select(f, before) + [e])[..|Select(f, before)|] == Select(f, before);
    }
  }

  lemma AddedIsUnique(events: seq<Event>, e: Event)
    requires UniqueIds(events) && !HasId(events, e.id)
    ensures UniqueIds(events + [e])
    ensures forall id :: HasId(events + [e], id) <==> HasId(events, id) || id == e.id
  {
    forall id ensures HasId(events + [e], id) <==> HasId(events, id) || id == e.id {
      if HasId(events, id) {
        var i :| 0 <= i < |events| && events[i].id == id;
        assert (events + [e])[i].id == id;
      }
      assert (events + [e])[|events|].id == e.id;
    }
  }

  /** The table with its unique index; a transaction commits its rows or none. */
  class SQLiteEventStore {
    var rows: seq<Event>

    ghost predicate Valid()
      reads this
    {
      UniqueIds(rows)
    }

    constructor ()
      ensures Valid() && rows == []
    {
      rows := [];
    }

    method Append(e: Event) returns (stored: bool)
      requires Valid()
      modifies this
      ensures Valid()
      ensures stored == !old(HasId(rows, e.id)) && rows == if stored then old(rows) + [e] else old(rows)
    {
      if HasId(rows, e.id) {
        return false;
      }
      AddedIsUnique(rows, e);
      rows := rows + [e];
      stored := true;
    }

    /** `append_many`: one transaction, rolled back at the first duplicate. */
    method AppendMany(batch: seq<Event>) returns (stored: bool)
      requires Valid()
      modifies this
      ensures Valid()
      ensures rows == TableAfter(old(rows), batch) && stored == (Fresh(old(rows), batch) == |batch|)
    {
      hide HasId, UniqueIds;
      var pending := rows;
      assert batch[..0] == [] && rows + [] == rows && batch[0..] == batch;
      for i := 0 to |batch|
        invariant UniqueIds(pending) && rows == old(rows)
        invariant pending == rows + batch[..i]
        invariant Fresh(rows, batch) == i + Fresh(pending, batch[i..])
      {
        assert batch[i..][0] == batch[i] && batch[i..][1..] == batch[i + 1..];
        assert rows + batch[..i] + [batch[i]] == rows + batch[..i + 1];
        if HasId(pending, batch[i].id) {
          return false;
        }
        AddedIsUnique(pending, batch[i]);
        pending := pending + [batch[i]];
      }
      assert batch[..|batch|] == batch;
      rows := pending;
      stored := true;
    }

    method Stream(f: Filter) returns (r: seq<Event>)
      ensures r == Select(f, rows)
    {
      r := Pass(f, rows);
    }
  }

  // ---------------------------------------------------------------- the two stores side by side

  /** The batches one after another; a reported duplicate does not stop the caller. */
  function Memory(batches: seq<seq<Event>>): seq<Event>
    decreases |batches|
  {
    if batches == [] then [] else MemoryAfter(Memory(batches[..|batches| - 1]), batches[|batches| - 1])
  }

  function Table(batches: seq<seq<Event>>): seq<Event>
    decreases |batches|
  {
    if batches == [] then [] else TableAfter(Table(batches[..|batches| - 1]), batches[|batches| - 1])
  }

  function Together(batches: seq<seq<Event>>): seq<Event>
    decreases |batches|
  {
    if batches == [] then [] else Together(batches[..|batches| - 1]) + batches[|batches| - 1]
  }

  /** What a batch has before its first duplicate: everything iff no id repeats an earlier one. */
  lemma {:induction false} FreshIsMaximal(stored: seq<Event>, batch: seq<Event>)
    requires UniqueIds(stored)
    ensures var n := Fresh(stored, batch);
      && UniqueIds(stored + batch[..n])
      && (n < |batch| ==> HasId(stored + batch[..n], batch[n].id))
    decreases |batch|
  {
    hide HasId, UniqueIds;
    if batch == [] || HasId(stored, batch[0].id) {
      assert stored + batch[..0] == stored;
    } else {
      var n := Fresh(stored + [batch[0]], batch[1..]);
      AddedIsUnique(stored, batch[0]);
      FreshIsMaximal(stored + [batch[0]], batch[1..]);
      assert stored + [batch[0]] + batch[1..][..n] == stored + batch[..n + 1];
    }
  }

  lemma WholeBatchIff(stored: seq<Event>, batch: seq<Event>)
    requires UniqueIds(stored)
    ensures Fresh(stored, batch) == |batch| <==> UniqueIds(stored + batch)
  {
    var n := Fresh(stored, batch);
    FreshIsMaximal(stored, batch);
    if n == |batch| {
      assert batch[..n] == batch;
    } else {
      var i :| 0 <= i < |stored + batch[..n]| && (stored + batch[..n])[i].id == batch[n].id;
      assert (stored + batch)[i].id == (stored + batch)[|stored| + n].id;
    }
  }

  lemma {:induction false} IdsStayUnique(batches: seq<seq<Event>>)
    ensures UniqueIds(Memory(batches)) && UniqueIds(Table(batches))
    decreases |batches|
  {
    hide UniqueIds, HasId, Fresh;
    if batches == [] {
      NoneRepeats();
    } else {
      var before, last := batches[..|batches| - 1], batches[|batches| - 1];
      IdsStayUnique(before);
      FreshIsMaximal(Memory(before), last);
      FreshIsMaximal(Table(before), last);
      WholeBatchIff(Table(before), last);
    }
  }

  lemma NoneRepeats()
    ensures UniqueIds([])
  {
  }

  /** Ids stay unique, what is stored is never changed or reordered, and on a batch with a duplicate
      the table is unchanged while the memory keeps exactly the prefix before the duplicate. */
  lemma EveryBatch(batches: seq<seq<Event>>, batch: seq<Event>)
    ensures var m, t := Memory(batches), Table(batches);
      && UniqueIds(m) && UniqueIds(t)
      && m <= Memory(batches + [batch]) && t <= Table(batches + [batch])
      && (if UniqueIds(t + batch) then Table(batches + [batch]) == t + batch else Table(batches + [batch]) == t)
      && (if UniqueIds(m + batch) then Memory(batches + [batch]) == m + batch
          else exists n: nat :: n < |batch| && Memory(batches + [batch]) == m + batch[..n] && UniqueIds(m + batch[..n])
                                && HasId(m + batch[..n], batch[n].id))
  {
    hide UniqueIds, HasId, Fresh;
    assert (batches + [batch])[..|batches|] == batches;
    IdsStayUnique(batches);
    var m, t := Memory(batches), Table(batches);
    WholeBatchIff(t, batch);
    WholeBatchIff(m, batch);
    FreshIsMaximal(m, batch);
    assert batch[..|batch|] == batch;
  }

  lemma UniquePart(a: seq<Event>, b: seq<Event>)
    requires UniqueIds(a + b)
    ensures UniqueIds(a)
  {
    forall i, j | 0 <= i < j < |a| ensures a[i].id != a[j].id {
      assert (a + b)[i] == a[i] && (a + b)[j] == a[j];
    }
  }

  /** Without duplicates the two stores hold the same events, so every filter gives the same stream. */
  lemma {:induction false} StoresAgree(batches: seq<seq<Event>>)
    requires UniqueIds(Together(batches))
    ensures Memory(batches) == Table(batches) == Together(batches)
    decreases |batches|
  {
    hide UniqueIds, HasId, Fresh;
    if batches != [] {
      var before, last := batches[..|batches| - 1], batches[|batches| - 1];
      UniquePart(Together(before), last);
      StoresAgree(before);
      WholeBatchIff(Together(before), last);
      assert last[..|last|] == last;
    }
  }

  lemma StreamsAgree(batches: seq<seq<Event>>, f: Filter)
    requires UniqueIds(Together(batches))
    ensures Select(f, Memory(batches)) == Select(f, Table(batches)) == Select(f, Together(batches))
  {
    StoresAgree(batches);
  }
}
