/** Every interleaving of any number of workers going through `BackendBulkheadScheduler.acquire`:
    permits are conserved, limits hold, cancellation gives back what was taken, nothing deadlocks. */
module SchedulerRuns {
  import opened Text
  import opened Scheduler

  /** Where a worker is in `acquire`. `Waiting(checked)`: before its next semaphore, the cancel flag
      already looked at (about to wait for a permit) or not. */
  datatype Pc = Start | Waiting(checked: bool) | Body | Unwinding | Done

  datatype Worker = Worker(backend: string, role: string, sems: seq<Sem>, held: nat, pc: Pc, cancelled: bool)

  datatype State = State(free: Free, workers: map<nat, Worker>)

  datatype Event =
    | Enter(w: nat)    // name the semaphores, creating the missing ones
    | Check(w: nat)    // look at the cancel flag: raise, or go and wait
    | Take(w: nat)     // a permit arrives in time
    | Timeout(w: nat)  // none did
    | Begin(w: nat)    // all taken: the guarded body starts
    | Leave(w: nat)    // the body returns or raises
    | Free1(w: nat)    // release the latest permit still held
    | Finish(w: nat)   // nothing left to release
    | Cancel(w: nat)   // someone sets the worker's cancel flag

  predicate Enabled(s: State, e: Event) {
    e.w in s.workers &&
    var k := s.workers[e.w];
    match e
    case Enter(_) => k.pc == Start
    case Check(_) => k.pc == Waiting(false) && k.held < |k.sems|
    case Take(_) => k.pc == Waiting(true) && k.held < |k.sems| && k.sems[k.held] in s.free && s.free[k.sems[k.held]] > 0
    case Timeout(_) => k.pc == Waiting(true)
    case Begin(_) => k.pc == Waiting(false) && k.held == |k.sems|
    case Leave(_) => k.pc == Body
    case Free1(_) => k.pc == Unwinding && 0 < k.held <= |k.sems| && k.sems[k.held - 1] in s.free
    case Finish(_) => k.pc == Unwinding && k.held == 0
    case Cancel(_) => true
  }

  function Moved(s: State, w: nat, k: Worker): State {
    s.(workers := s.workers[w := k])
  }

  function Next(limits: Limits, s: State, e: Event): State
    requires Enabled(s, e)
  {
    var k := s.workers[e.w];
    match e
    case Enter(w) =>
      var sems := SemsFor(limits, k.backend, k.role);
      State(CreateAll(limits, s.free, sems), s.workers[w := k.(sems := sems, pc := Waiting(false))])
    case Check(w) => Moved(s, w, k.(pc := if k.cancelled then Unwinding else Waiting(true)))
    case Take(w) =>
      var sem := k.sems[k.held];
      State(s.free[sem := s.free[sem] - 1], s.workers[w := k.(held := k.held + 1, pc := Waiting(false))])
    case Timeout(w) => Moved(s, w, k.(pc := Waiting(false)))
    case Begin(w) => Moved(s, w, k.(pc := Body))
    case Leave(w) => Moved(s, w, k.(pc := Unwinding))
    case Free1(w) =>
      var sem := k.sems[k.held - 1];
      State(s.free[sem := s.free[sem] + 1], s.workers[w := k.(held := k.held - 1)])
    case Finish(w) => Moved(s, w, k.(pc := Done))
    case Cancel(w) => Moved(s, w, k.(cancelled := true))
  }

  /** Any workers, none of which has called `acquire` yet. */
  predicate Initial(limits: Limits, s: State) {
    && s.free == Create(limits, map[], Global)
    && forall w :: w in s.workers ==> s.workers[w].pc == Start && s.workers[w].held == 0 && s.workers[w].sems == []
  }

  predicate ValidRun(limits: Limits, s: State, run: seq<Event>)
    decreases |run|
  {
    run == [] || (Enabled(s, run[0]) && ValidRun(limits, Next(limits, s, run[0]), run[1..]))
  }

  function After(limits: Limits, s: State, run: seq<Event>): State
    requires ValidRun(limits, s, run)
    decreases |run|
  {
    if run == [] then s else After(limits, Next(limits, s, run[0]), run[1..])
  }

  // ---------------------------------------------------------------- the invariant

  predicate Holds(k: Worker, sem: Sem) {
    k.held <= |k.sems| && sem in k.sems[..k.held]
  }

  function Holders(s: State, sem: Sem): set<nat> {
    set w | w in s.workers && Holds(s.workers[w], sem)
  }

  /** Workers inside the guarded body that run under `sem`. */
  function Running(s: State, sem: Sem): set<nat> {
    set w | w in s.workers && s.workers[w].pc == Body && sem in s.workers[w].sems
  }

  predicate WorkerOk(limits: Limits, free: Free, k: Worker) {
    && k.held <= |k.sems|
    && (k.pc == Start ==> k.sems == [])
    && (k.pc != Start ==> k.sems == SemsFor(limits, k.backend, k.role))
    && (k.pc == Body ==> k.held == |k.sems|)
    && (k.pc == Waiting(true) ==> k.held < |k.sems|)
    && (k.pc == Done ==> k.held == 0)
    && (forall i :: 0 <= i < |k.sems| ==> k.sems[i] in free)
  }

  /** Free permits and holders always add up to the limit. */
  predicate Conserved(limits: Limits, s: State, sem: Sem) {
    sem in s.free ==>
      SemLimit(limits, sem).Some? && s.free[sem] + |Holders(s, sem)| == SemLimit(limits, sem).value
  }

  ghost predicate Inv(limits: Limits, s: State) {
    && (forall w :: w in s.workers ==> WorkerOk(limits, s.free, s.workers[w]))
    && (forall sem :: Conserved(limits, s, sem))
  }

  // ---------------------------------------------------------------- the invariant is kept

  lemma WorkerIsOk(limits: Limits, s: State, w: nat)
    requires Inv(limits, s) && w in s.workers
    ensures WorkerOk(limits, s.free, s.workers[w])
  {
    hide SemsFor, Conserved;
  }

  lemma InitialInv(limits: Limits, s: State)
    requires Initial(limits, s)
    ensures Inv(limits, s)
  {
    forall sem ensures Conserved(limits, s, sem) {
      assert Holders(s, sem) == {};
    }
  }

  /** Only worker `w` changed between `s` and `t`. */
  predicate OnlyMoved(s: State, t: State, w: nat) {
    w in s.workers && w in t.workers && t.workers == s.workers[w := t.workers[w]]
  }

  lemma SameHolders(s: State, t: State, w: nat, sem: Sem)
    requires OnlyMoved(s, t, w) && Holds(t.workers[w], sem) == Holds(s.workers[w], sem)
    ensures Holders(t, sem) == Holders(s, sem)
  {
    hide Holds;
  }

  lemma OneMoreHolder(s: State, t: State, w: nat, sem: Sem)
    requires OnlyMoved(s, t, w) && Holds(t.workers[w], sem) && !Holds(s.workers[w], sem)
    ensures |Holders(t, sem)| == |Holders(s, sem)| + 1
  {
    hide Holds;
    assert Holders(t, sem) == Holders(s, sem) + {w};
  }

  lemma CreatedConserved(limits: Limits, free: Free, sems: seq<Sem>, sem: Sem)
    requires forall i :: 0 <= i < |sems| ==> SemLimit(limits, sems[i]).Some?
    ensures var r := CreateAll(limits, free, sems);
      && (sem in r <==> sem in free || sem in sems)
      && (sem in r && sem !in free ==> SemLimit(limits, sem).Some? && r[sem] == SemLimit(limits, sem).value)
    decreases |sems|
  {
    if sems != [] {
      CreatedConserved(limits, Create(limits, free, sems[0]), sems[1..], sem);
    }
  }

  lemma NobodyHoldsUncreated(limits: Limits, s: State, sem: Sem)
    requires Inv(limits, s) && sem !in s.free
    ensures Holders(s, sem) == {}
  {
    forall w | w in s.workers ensures !Holds(s.workers[w], sem) {
      var k := s.workers[w];
      assert WorkerOk(limits, s.free, k);
      hide SemsFor;
      assert forall x :: x in k.sems[..k.held] ==> x in s.free;
    }
  }

  lemma OthersStayOk(limits: Limits, s: State, t: State, w: nat)
    requires OnlyMoved(s, t, w) && s.free.Keys <= t.free.Keys
    requires forall v :: v in s.workers ==> WorkerOk(limits, s.free, s.workers[v])
    requires WorkerOk(limits, t.free, t.workers[w])
    ensures forall v :: v in t.workers ==> WorkerOk(limits, t.free, t.workers[v])
  {
    forall v | v in t.workers && v != w ensures WorkerOk(limits, t.free, t.workers[v]) {
      hide SemsFor;
      assert WorkerOk(limits, s.free, s.workers[v]);
    }
  }

  lemma EnterConserves(limits: Limits, s: State, w: nat, sem: Sem)
    requires Inv(limits, s) && Enabled(s, Enter(w))
    ensures Conserved(limits, Next(limits, s, Enter(w)), sem)
  {
    var t, k := Next(limits, s, Enter(w)), s.workers[w];
    SemsDistinct(limits, k.backend, k.role);
    hide SemsFor, CreateAll;
    assert Conserved(limits, s, sem) && WorkerOk(limits, s.free, k);
    CreatedConserved(limits, s.free, t.workers[w].sems, sem);
    assert !Holds(k, sem) && !Holds(t.workers[w], sem);
    SameHolders(s, t, w, sem);
    if sem !in s.free { NobodyHoldsUncreated(limits, s, sem); }
  }

  lemma EnterInv(limits: Limits, s: State, w: nat)
    requires Inv(limits, s) && Enabled(s, Enter(w))
    ensures Inv(limits, Next(limits, s, Enter(w)))
  {
    var t, k := Next(limits, s, Enter(w)), s.workers[w];
    var sems := t.workers[w].sems;
    SemsDistinct(limits, k.backend, k.role);
    hide SemsFor, CreateAll;
    assert WorkerOk(limits, s.free, k);
    forall sem ensures Conserved(limits, t, sem) { EnterConserves(limits, s, w, sem); }
    forall i | 0 <= i < |sems| ensures sems[i] in t.free { CreatedConserved(limits, s.free, sems, sems[i]); }
    hide Conserved;
    OthersStayOk(limits, s, t, w);
  }

  /** `t` is `s` with worker `w` holding the next of its semaphores too. */
  predicate TookNext(limits: Limits, s: State, t: State, w: nat) {
    && OnlyMoved(s, t, w)
    && var k, l := s.workers[w], t.workers[w];
       && k.sems == l.sems == SemsFor(limits, k.backend, k.role)
       && k.held < |k.sems|
       && l.held == k.held + 1
       && var sem := k.sems[k.held];
          sem in s.free && sem in t.free && s.free[sem] == t.free[sem] + 1 && s.free == t.free[sem := t.free[sem] + 1]
  }

  /** Taking the next permit adds that semaphore to those held, and it was not among them. */
  lemma HeldAfterTaking(limits: Limits, s: State, t: State, w: nat, sem: Sem)
    requires TookNext(limits, s, t, w)
    ensures var k := s.workers[w];
      && !Holds(k, k.sems[k.held])
      && (Holds(t.workers[w], sem) <==> Holds(k, sem) || sem == k.sems[k.held])
  {
    var k := s.workers[w];
    SemsDistinct(limits, k.backend, k.role);
    hide SemsFor;
    assert k.sems[..k.held + 1] == k.sems[..k.held] + [k.sems[k.held]];
  }

  lemma TakenConserves(limits: Limits, s: State, t: State, w: nat, sem: Sem)
    requires TookNext(limits, s, t, w)
    ensures Conserved(limits, s, sem) <==> Conserved(limits, t, sem)
  {
    hide SemsFor, Holders, Holds;
    var k := s.workers[w];
    HeldAfterTaking(limits, s, t, w, sem);
    if sem == k.sems[k.held] { OneMoreHolder(s, t, w, sem); } else { SameHolders(s, t, w, sem); }
  }

  lemma TakeInv(limits: Limits, s: State, w: nat)
    requires Inv(limits, s) && Enabled(s, Take(w))
    ensures Inv(limits, Next(limits, s, Take(w)))
  {
    hide SemsFor;
    var t := Next(limits, s, Take(w));
    assert WorkerOk(limits, s.free, s.workers[w]);
    forall sem ensures Conserved(limits, t, sem) {
      assert Conserved(limits, s, sem);
      hide Conserved;
      TakenConserves(limits, s, t, w, sem);
    }
    hide Conserved;
    OthersStayOk(limits, s, t, w);
  }

  lemma ReleaseInv(limits: Limits, s: State, w: nat)
    requires Inv(limits, s) && Enabled(s, Free1(w))
    ensures Inv(limits, Next(limits, s, Free1(w)))
  {
    hide SemsFor;
    var t := Next(limits, s, Free1(w));
    assert WorkerOk(limits, s.free, s.workers[w]);
    forall sem ensures Conserved(limits, t, sem) {
      assert Conserved(limits, s, sem);
      hide Conserved;
      TakenConserves(limits, t, s, w, sem);
    }
    hide Conserved;
    OthersStayOk(limits, s, t, w);
  }

  /** A worker that only changes where it is, or its cancel flag, leaves every count as it is. */
  lemma QuietInv(limits: Limits, s: State, t: State, w: nat)
    requires Inv(limits, s) && OnlyMoved(s, t, w) && t.free == s.free
    requires t.workers[w].sems == s.workers[w].sems && t.workers[w].held == s.workers[w].held
    requires WorkerOk(limits, s.free, t.workers[w])
    ensures Inv(limits, t)
  {
    hide SemsFor, Holders;
    forall sem ensures Conserved(limits, t, sem) {
      assert Conserved(limits, s, sem);
      SameHolders(s, t, w, sem);
    }
    hide Conserved;
    OthersStayOk(limits, s, t, w);
  }

  lemma QuietWorkerOk(limits: Limits, s: State, e: Event)
    requires Inv(limits, s) && Enabled(s, e) && !e.Enter? && !e.Take? && !e.Free1?
    ensures WorkerOk(limits, s.free, Next(limits, s, e).workers[e.w])
  {
    hide SemsFor, Conserved, CreateAll;
    var k := s.workers[e.w];
    assert WorkerOk(limits, s.free, k);
    hide Inv;
  }

  lemma StepInv(limits: Limits, s: State, e: Event)
    requires Inv(limits, s) && Enabled(s, e)
    ensures Inv(limits, Next(limits, s, e))
  {
    match e
    case Enter(w) => EnterInv(limits, s, w);
    case Take(w) => TakeInv(limits, s, w);
    case Free1(w) => ReleaseInv(limits, s, w);
    case _ =>
      QuietWorkerOk(limits, s, e);
      hide WorkerOk, Inv;
      QuietInv(limits, s, Next(limits, s, e), e.w);
  }

  lemma {:induction false} RunInv(limits: Limits, s: State, run: seq<Event>)
    requires Inv(limits, s) && ValidRun(limits, s, run)
    ensures Inv(limits, After(limits, s, run))
    decreases |run|
  {
    hide Inv, Enabled, Next;
    if run != [] {
      StepInv(limits, s, run[0]);
      RunInv(limits, Next(limits, s, run[0]), run[1..]);
    }
  }
}
