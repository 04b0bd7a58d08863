/** The bulkhead scheduler: counting semaphores taken in the order global, backend, role by any
    number of concurrent workers, with cancellation while waiting. */
module Scheduler {
  import opened Text

  datatype Sem = Global | Backend(name: string) | Role(name: string)

  /** The constructor keeps only positive limits, so every limit here is one. */
  type Limit = n: nat | n > 0 witness 1

  datatype Limits = Limits(global: Option<Limit>, backend: map<string, Limit>, role: map<string, Limit>)

  /** `limits.get(name) or limits.get("default") or limits.get("*")`. */
  function LimitFor(limits: map<string, Limit>, name: string): Option<Limit> {
    if name in limits then Some(limits[name])
    else if "default" in limits then Some(limits["default"])
    else if "*" in limits then Some(limits["*"])
    else None
  }

  function SemLimit(limits: Limits, sem: Sem): Option<Limit> {
    match sem
    case Global => limits.global
    case Backend(name) => LimitFor(limits.backend, name)
    case Role(name) => LimitFor(limits.role, name)
  }

  function IfLimited(limits: Limits, sem: Sem): seq<Sem> {
    if SemLimit(limits, sem).Some? then [sem] else []
  }

  /** The semaphores a worker takes, in order. */
  function SemsFor(limits: Limits, backend: string, role: string): seq<Sem> {
    IfLimited(limits, Global) + IfLimited(limits, Backend(backend)) + IfLimited(limits, Role(role))
  }

  /** Free permits of the semaphores created so far. */
  type Free = map<Sem, nat>

  /** `table.setdefault(name, Semaphore(limit))`. */
  function Create(limits: Limits, free: Free, sem: Sem): Free {
    if sem in free || SemLimit(limits, sem).None? then free else free[sem := SemLimit(limits, sem).value]
  }

  function CreateAll(limits: Limits, free: Free, sems: seq<Sem>): (r: Free)
    ensures free.Keys <= r.Keys && forall s :: s in free ==> r[s] == free[s]
    decreases |sems|
  {
    if sems == [] then free else CreateAll(limits, Create(limits, free, sems[0]), sems[1..])
  }

  lemma {:induction false} CreateConcat(limits: Limits, free: Free, a: seq<Sem>, b: seq<Sem>)
    ensures CreateAll(limits, free, a + b) == CreateAll(limits, CreateAll(limits, free, a), b)
    decreases |a|
  {
    if a == [] {
      assert a + b == b;
    } else {
      assert (a + b)[1..] == a[1..] + b;
      CreateConcat(limits, Create(limits, free, a[0]), a[1..], b);
    }
  }

  /** Every semaphore of `sems` is there and has a permit. */
  predicate Available(free: Free, sems: seq<Sem>) {
    forall i :: 0 <= i < |sems| ==> sems[i] in free && free[sems[i]] > 0
  }

  /** One permit less of each semaphore of `sems`. */
  function TakenFrom(free: Free, sems: seq<Sem>): (r: Free)
    ensures r.Keys == free.Keys
    decreases |sems|
  {
    if sems == [] then free else
    var r, last := TakenFrom(free, sems[..|sems| - 1]), sems[|sems| - 1];
    if last in r && r[last] > 0 then r[last := r[last] - 1] else r
  }

  lemma {:induction false} TakenElsewhere(free: Free, sems: seq<Sem>, sem: Sem)
    requires sem in free && sem !in sems
    ensures TakenFrom(free, sems)[sem] == free[sem]
    decreases |sems|
  {
    if sems != [] {
      assert sems == sems[..|sems| - 1] + [sems[|sems| - 1]];
      TakenElsewhere(free, sems[..|sems| - 1], sem);
    }
  }

  predicate Distinct(sems: seq<Sem>) {
    forall i, j :: 0 <= i < j < |sems| ==> sems[i] != sems[j]
  }

  lemma DistinctPrefix(sems: seq<Sem>, n: nat)
    requires n <= |sems| && Distinct(sems)
    ensures Distinct(sems[..n])
  {
  }

  lemma NothingTaken(free: Free, sems: seq<Sem>)
    ensures sems[..0] == [] && TakenFrom(free, sems[..0]) == free
  {
  }

  /** Taking the next permit, and giving it back. */
  lemma TakeNext(free: Free, sems: seq<Sem>, i: nat)
    requires i < |sems| && Distinct(sems) && sems[i] in free
    ensures var before, after := TakenFrom(free, sems[..i]), TakenFrom(free, sems[..i + 1]);
      && before[sems[i]] == free[sems[i]]
      && (free[sems[i]] > 0 ==>
        after == before[sems[i] := before[sems[i]] - 1] && before == after[sems[i] := after[sems[i]] + 1])
  {
    assert sems[..i + 1][..i] == sems[..i];
    TakenElsewhere(free, sems[..i], sems[i]);
  }

  lemma SemsDistinct(limits: Limits, backend: string, role: string)
    ensures var sems := SemsFor(limits, backend, role);
      && |sems| <= 3
      && Distinct(sems)
      && (forall i :: 0 <= i < |sems| ==> SemLimit(limits, sems[i]).Some?)
  {
  }

  lemma {:induction false} CreatedAreThere(limits: Limits, free: Free, sems: seq<Sem>)
    requires forall i :: 0 <= i < |sems| ==> SemLimit(limits, sems[i]).Some?
    ensures forall i :: 0 <= i < |sems| ==> sems[i] in CreateAll(limits, free, sems)
    decreases |sems|
  {
    hide SemLimit;
    if sems != [] {
      CreatedAreThere(limits, Create(limits, free, sems[0]), sems[1..]);
    }
  }

  // ---------------------------------------------------------------- the shared object

  class BackendBulkheadScheduler {
    const limits: Limits
    var globalFree: Option<nat>
    var backendFree: map<string, nat>
    var roleFree: map<string, nat>

    function Lookup(sem: Sem): Option<nat>
      reads this
    {
      match sem
      case Global => globalFree
      case Backend(b) => if b in backendFree then Some(backendFree[b]) else None
      case Role(r) => if r in roleFree then Some(roleFree[r]) else None
    }

    /** The tables hold exactly the semaphores of `free`, with its permits; the global semaphore
        exists exactly when it is limited. */
    ghost predicate Shows(free: Free)
      reads this
    {
      && (globalFree.Some? <==> limits.global.Some?)
      && (forall s :: s in free <==> Lookup(s).Some?)
      && (forall s :: s in free ==> Lookup(s) == Some(free[s]))
    }

    constructor (limits: Limits)
      ensures this.limits == limits && Shows(Create(limits, map[], Global))
    {
      this.limits := limits;
      globalFree := match limits.global case None => None case Some(n) => Some(n);
      backendFree, roleFree := map[], map[];
    }

    method CreateMissing(sem: Sem, ghost free: Free)
      requires Shows(free)
      modifies this
      ensures Shows(Create(limits, free, sem))
    {
      var limit := SemLimit(limits, sem);
      if Lookup(sem).None? && limit.Some? {
        match sem
        case Global => assert false;
        case Backend(b) => backendFree := backendFree[b := limit.value];
        case Role(r) => roleFree := roleFree[r := limit.value];
      }
    }

    /** `_semaphores_for`: names the semaphores to take and creates the missing ones, full. */
    method SemaphoresFor(backend: string, role: string, ghost free: Free) returns (sems: seq<Sem>)
      requires Shows(free)
      modifies this
      ensures sems == SemsFor(limits, backend, role)
      ensures Shows(CreateAll(limits, free, sems))
    {
      hide Shows;
      sems := [];
      var wanted := [Global, Backend(backend), Role(role)];
      for i := 0 to 3
        invariant sems == if i == 0 then [] else if i == 1 then IfLimited(limits, Global)
          else if i == 2 then IfLimited(limits, Global) + IfLimited(limits, Backend(backend))
          else SemsFor(limits, backend, role)
        invariant Shows(CreateAll(limits, free, sems))
      {
        if SemLimit(limits, wanted[i]).Some? {
          CreateConcat(limits, free, sems, [wanted[i]]);
          CreateMissing(wanted[i], CreateAll(limits, free, sems));
          sems := sems + [wanted[i]];
        }
      }
    }

    /** `semaphore.acquire(timeout=...)`: takes a permit if there is one, else times out. */
    method TryAcquire(sem: Sem, ghost free: Free) returns (taken: bool)
      requires Shows(free) && sem in free
      modifies this
      ensures taken == (free[sem] > 0)
      ensures Shows(if taken then free[sem := free[sem] - 1] else free)
    {
      var n := Lookup(sem).value;
      taken := n > 0;
      if taken {
        Store(sem, n - 1, free);
      }
    }

    /** `semaphore.release()`. */
    method Release(sem: Sem, ghost free: Free)
      requires Shows(free) && sem in free
      modifies this
      ensures Shows(free[sem := free[sem] + 1])
    {
      Store(sem, Lookup(sem).value + 1, free);
    }

    /** `_acquire_with_cancel` of a worker whose cancel flag is set after `patience` polls. */
    method AcquireWithCancel(sem: Sem, patience: nat, ghost free: Free) returns (taken: bool, left: nat)
      requires Shows(free) && sem in free
      modifies this
      ensures taken == (patience > 0 && free[sem] > 0) && left == (if taken then patience else 0)
      ensures Shows(if taken then free[sem := free[sem] - 1] else free)
    {
      hide Shows;
      left := patience;
      while true
        invariant Shows(free)
        invariant left == patience || free[sem] == 0
        decreases left
      {
        if left == 0 {
          return false, 0;
        }
        taken := TryAcquire(sem, free);
        if taken {
          return;
        }
        left := left - 1;
      }
    }

    /** `acquire` up to the guarded body, with no other worker around: all permits are taken in order,
        or, if the cancel flag is set first, every permit taken so far has been given back. */
    method Acquire(backend: string, role: string, patience: nat, ghost free: Free)
      returns (acquired: seq<Sem>, cancelled: bool)
      requires Shows(free)
      modifies this
      ensures var sems := SemsFor(limits, backend, role); var full := CreateAll(limits, free, sems);
        && cancelled == (sems != [] && (patience == 0 || !Available(full, sems)))
        && (if cancelled then acquired == [] && Shows(full) else acquired == sems && Shows(TakenFrom(full, sems)))
    {
      hide Shows, SemsFor, CreateAll, TakenFrom, SemLimit, Distinct;
      var sems := SemaphoresFor(backend, role, free);
      ghost var full := CreateAll(limits, free, sems);
      SemsDistinct(limits, backend, role);
      CreatedAreThere(limits, free, sems);
      acquired := [];
      var left := patience;
      NothingTaken(full, sems);
      for i := 0 to |sems|
        invariant acquired == sems[..i] && Shows(TakenFrom(full, acquired)) && left == patience
        invariant i > 0 ==> patience > 0
        invariant Available(full, sems[..i])
      {
        TakeNext(full, sems, i);
        var taken;
        taken, left := AcquireWithCancel(sems[i], left, TakenFrom(full, acquired));
        if !taken {
          assert !(patience > 0 && Available(full, sems)) by {
            assert sems[i] in full;
          }
          DistinctPrefix(sems, i);
          ReleaseAll(acquired, full);
          return [], true;
        }
        acquired := acquired + [sems[i]];
      }
      assert sems[..|sems|] == sems;
      cancelled := false;
    }

    /** The `finally` block: releases what was acquired, last first. */
    method ReleaseAll(acquired: seq<Sem>, ghost free: Free)
      requires Available(free, acquired) && Distinct(acquired)
      requires Shows(TakenFrom(free, acquired))
      modifies this
      ensures Shows(free)
    {
      hide Shows, TakenFrom, Distinct;
      var n := |acquired|;
      assert acquired[..n] == acquired;
      while n > 0
        invariant n <= |acquired| && Shows(TakenFrom(free, acquired[..n]))
      {
        TakeNext(free, acquired, n - 1);
        Release(acquired[n - 1], TakenFrom(free, acquired[..n]));
        n := n - 1;
      }
      NothingTaken(free, acquired);
    }

    method Store(sem: Sem, n: nat, ghost free: Free)
      requires Shows(free) && sem in free
      modifies this
      ensures Shows(free[sem := n])
    {
      match sem
      case Global => globalFree := Some(n);
      case Backend(b) => backendFree := backendFree[b := n];
      case Role(r) => roleFree := roleFree[r := n];
    }
  }
}
