/** What the invariant of `SchedulerRuns` gives every caller of the scheduler. */
module SchedulerGuarantees {
  import opened Text
  import opened Scheduler
  import opened SchedulerRuns

  // ---------------------------------------------------------------- limits and permits

  /** What the tables say: the entry of the name itself, else that of `default`, else that of `*`. */
  predicate Entry(table: map<string, Limit>, name: string, n: nat) {
    || (name in table && n == table[name])
    || (name !in table && "default" in table && n == table["default"])
    || (name !in table && "default" !in table && "*" in table && n == table["*"])
  }

  predicate Listed(table: map<string, Limit>, name: string) {
    name in table || "default" in table || "*" in table
  }

  /** A worker takes the global semaphore if there is a global limit, then the one of its own backend and
      then the one of its own role, each if its table lists it; nothing else. */
  lemma SemaphoresAre(limits: Limits, backend: string, role: string)
    ensures SemsFor(limits, backend, role) ==
            (if limits.global.Some? then [Global] else [])
            + (if Listed(limits.backend, backend) then [Backend(backend)] else [])
            + (if Listed(limits.role, role) then [Role(role)] else [])
  {
  }

  /** A semaphore has as many permits as its entry says. */
  lemma PermitsAre(limits: Limits, name: string, n: nat)
    ensures SemLimit(limits, Global) == limits.global
    ensures SemLimit(limits, Backend(name)) == Some(n) <==> Entry(limits.backend, name, n)
    ensures SemLimit(limits, Role(name)) == Some(n) <==> Entry(limits.role, name, n)
  {
  }

  function InBody(s: State): set<nat> {
    set w | w in s.workers && s.workers[w].pc == Body
  }

  function BackendInBody(s: State, backend: string): set<nat> {
    set w | w in s.workers && s.workers[w].pc == Body && s.workers[w].backend == backend
  }

  function RoleInBody(s: State, role: string): set<nat> {
    set w | w in s.workers && s.workers[w].pc == Body && s.workers[w].role == role
  }

  /** In every reachable state no more workers are in the body than the global limit, no more of any
      backend and no more of any role than their entries in the tables. */
  lemma LimitsHold(limits: Limits, s: State, run: seq<Event>)
    requires Initial(limits, s) && ValidRun(limits, s, run)
    ensures var t := After(limits, s, run);
      && (limits.global.Some? ==> |InBody(t)| <= limits.global.value)
      && (forall backend, n :: Entry(limits.backend, backend, n) ==> |BackendInBody(t, backend)| <= n)
      && (forall role, n :: Entry(limits.role, role, n) ==> |RoleInBody(t, role)| <= n)
  {
    InitialInv(limits, s);
    RunInv(limits, s, run);
    var t := After(limits, s, run);
    hide Inv, After, ValidRun, Initial, SemLimit, Entry, InBody, BackendInBody, RoleInBody, Running;
    if limits.global.Some? {
      PermitsAre(limits, "", 0);
      BodyHolds(limits, t, Global, InBody(t));
    }
    forall backend, n | Entry(limits.backend, backend, n) ensures |BackendInBody(t, backend)| <= n {
      PermitsAre(limits, backend, n);
      BodyHolds(limits, t, Backend(backend), BackendInBody(t, backend));
    }
    forall role, n | Entry(limits.role, role, n) ensures |RoleInBody(t, role)| <= n {
      PermitsAre(limits, role, n);
      BodyHolds(limits, t, Role(role), RoleInBody(t, role));
    }
  }

  /** The workers in the body that a semaphore is for run under it. */
  lemma BodyHolds(limits: Limits, t: State, sem: Sem, ws: set<nat>)
    requires Inv(limits, t) && SemLimit(limits, sem).Some?
    requires ws == match sem
                   case Global => InBody(t)
                   case Backend(b) => BackendInBody(t, b)
                   case Role(r) => RoleInBody(t, r)
    ensures |ws| <= SemLimit(limits, sem).value
  {
    RunnersHold(limits, t, sem);
    forall w | w in ws ensures w in Running(t, sem) {
      WorkerIsOk(limits, t, w);
      hide Inv;
      var k := t.workers[w];
      assert sem in IfLimited(limits, sem);
      assert sem in SemsFor(limits, k.backend, k.role);
    }
    SubsetSize(ws, Running(t, sem));
  }

  /** In every reachable state each semaphore's permits are accounted for, and no more workers run
      under it than it has permits. */
  lemma SemaphoresHold(limits: Limits, s: State, run: seq<Event>, sem: Sem)
    requires Initial(limits, s) && ValidRun(limits, s, run)
    ensures var t := After(limits, s, run);
      && (sem in t.free ==> SemLimit(limits, sem).Some?
                            && t.free[sem] + |Holders(t, sem)| == SemLimit(limits, sem).value)
      && (SemLimit(limits, sem).Some? ==> |Running(t, sem)| <= SemLimit(limits, sem).value)
      && (SemLimit(limits, sem).None? ==> Running(t, sem) == {})
  {
    InitialInv(limits, s);
    RunInv(limits, s, run);
    var t := After(limits, s, run);
    hide After, ValidRun, Initial, Holders, Running, WorkerOk;
    RunnersHold(limits, t, sem);
    assert Conserved(limits, t, sem);
  }

  lemma RunnersHold(limits: Limits, t: State, sem: Sem)
    requires Inv(limits, t)
    ensures Running(t, sem) <= Holders(t, sem)
    ensures SemLimit(limits, sem).None? ==> Running(t, sem) == {}
    ensures SemLimit(limits, sem).Some? ==> |Running(t, sem)| <= SemLimit(limits, sem).value
  {
    assert Conserved(limits, t, sem);
    forall w | w in Running(t, sem) ensures Holds(t.workers[w], sem) && sem in t.free {
      var k := t.workers[w];
      assert WorkerOk(limits, t.free, k) && k.sems[..k.held] == k.sems;
      hide SemsFor;
    }
    hide Conserved, Inv;
    SubsetSize(Running(t, sem), Holders(t, sem));
    if sem !in t.free { assert Running(t, sem) == {}; }
  }

  lemma SubsetSize(a: set<nat>, b: set<nat>)
    requires a <= b
    ensures |a| <= |b|
  {
    assert b == a + (b - a);
  }

  predicate AllDone(s: State) {
    forall w :: w in s.workers ==> s.workers[w].pc == Done
  }

  /** When every worker is done, every counter is back at its limit. */
  lemma AllReturned(limits: Limits, s: State, run: seq<Event>, sem: Sem)
    requires Initial(limits, s) && ValidRun(limits, s, run) && AllDone(After(limits, s, run))
    ensures sem in After(limits, s, run).free ==> Some(After(limits, s, run).free[sem]) == SemLimit(limits, sem)
  {
    var t := After(limits, s, run);
    InitialInv(limits, s);
    RunInv(limits, s, run);
    forall w | w in t.workers ensures !Holds(t.workers[w], sem) {
      assert WorkerOk(limits, t.free, t.workers[w]);
    }
    assert Conserved(limits, t, sem) && Holders(t, sem) == {};
  }

  /** Any callers, each asking for a backend and a role, before they call. */
  function Callers(limits: Limits, asked: map<nat, (string, string)>): State {
    State(Create(limits, map[], Global),
          map w | w in asked :: Worker(asked[w].0, asked[w].1, [], 0, Start, false))
  }

  lemma CallersAreInitial(limits: Limits, asked: map<nat, (string, string)>)
    ensures Initial(limits, Callers(limits, asked))
  {
  }

  // ---------------------------------------------------------------- no deadlock

  /** A step other than a poll that found nothing and a cancellation from outside. */
  predicate Progress(s: State, e: Event) {
    Enabled(s, e) && !e.Timeout? && !e.Cancel?
  }

  function Rank(sem: Sem): nat {
    match sem case Global => 0 case Backend(_) => 1 case Role(_) => 2
  }

  lemma SemsClimb(limits: Limits, backend: string, role: string)
    ensures var sems := SemsFor(limits, backend, role);
      forall i, j :: 0 <= i < j < |sems| ==> Rank(sems[i]) < Rank(sems[j])
  {
  }

  function Waits(k: Worker): nat {
    if k.pc == Waiting(true) && k.held < |k.sems| then 3 - Rank(k.sems[k.held]) else 0
  }

  /** As long as some worker is not done, some worker can make progress: one that waits for a
      semaphore without permits waits for a holder, who waits, if at all, further up the order. */
  lemma SomeoneMoves(limits: Limits, s: State, w: nat) returns (e: Event)
    requires Inv(limits, s) && w in s.workers && s.workers[w].pc != Done
    ensures Progress(s, e)
    decreases Waits(s.workers[w])
  {
    hide SemsFor, Inv, Holders, Holds;
    var k := s.workers[w];
    WorkerIsOk(limits, s, w);
    match k.pc
    case Start => e := Enter(w);
    case Body => e := Leave(w);
    case Unwinding => e := if k.held == 0 then Finish(w) else Free1(w);
    case Waiting(checked) =>
      if !checked {
        e := if k.held == |k.sems| then Begin(w) else Check(w);
      } else if s.free[k.sems[k.held]] > 0 {
        e := Take(w);
      } else {
        var v := AHolder(limits, s, k.sems[k.held]);
        HolderWaitsHigher(limits, s, v, k.sems[k.held]);
        e := SomeoneMoves(limits, s, v);
      }
  }

  lemma AHolder(limits: Limits, s: State, sem: Sem) returns (v: nat)
    requires Inv(limits, s) && sem in s.free && s.free[sem] == 0
    ensures v in s.workers && Holds(s.workers[v], sem)
  {
    assert Conserved(limits, s, sem);
    assert Holders(s, sem) != {};
    v :| v in Holders(s, sem);
  }

  lemma HolderWaitsHigher(limits: Limits, s: State, v: nat, sem: Sem)
    requires Inv(limits, s) && v in s.workers && Holds(s.workers[v], sem)
    ensures s.workers[v].pc != Done
    ensures Waits(s.workers[v]) < 3 - Rank(sem)
  {
    var k := s.workers[v];
    assert WorkerOk(limits, s.free, k);
    SemsClimb(limits, k.backend, k.role);
    hide SemsFor, Inv;
    var i :| 0 <= i < k.held && k.sems[i] == sem;
  }

  // ---------------------------------------------------------------- every run can be completed

  /** How many progress steps a worker can still make, at most. */
  function Left(k: Worker): nat {
    match k.pc
    case Start => 20
    case Waiting(checked) => (if k.held < 3 then 3 * (3 - k.held) else 0) + (if checked then 8 else 9)
    case Body => 5
    case Unwinding => 1 + k.held
    case Done => 0
  }

  ghost function Pick(m: map<nat, Worker>): nat
    requires m != map[]
    ensures Pick(m) in m
  {
    var w :| w in m; w
  }

  ghost function Total(m: map<nat, Worker>): nat
    decreases |m|
  {
    if m == map[] then 0 else Left(m[Pick(m)]) + Total(m - {Pick(m)})
  }

  lemma TotalSplit(m: map<nat, Worker>, w: nat)
    requires w in m
    ensures Total(m) == Left(m[w]) + Total(m - {w})
    decreases |m|
  {
    hide Left;
    var v := Pick(m);
    if v != w {
      TotalSplit(m - {v}, w);
      TotalSplit(m - {w}, v);
      assert (m - {v}) - {w} == (m - {w}) - {v};
    }
  }

  lemma ProgressIsBounded(limits: Limits, s: State, e: Event)
    requires Inv(limits, s) && Progress(s, e)
    ensures Total(Next(limits, s, e).workers) < Total(s.workers)
  {
    var t := Next(limits, s, e);
    WorkerProgresses(limits, s, e);
    hide *;
    OthersUntouched(limits, s, e);
    TotalSplit(s.workers, e.w);
    TotalSplit(t.workers, e.w);
  }

  lemma OthersUntouched(limits: Limits, s: State, e: Event)
    requires Enabled(s, e)
    ensures e.w in s.workers && e.w in Next(limits, s, e).workers
    ensures Next(limits, s, e).workers - {e.w} == s.workers - {e.w}
  {
    hide SemsFor, CreateAll;
  }

  lemma WorkerProgresses(limits: Limits, s: State, e: Event)
    requires Inv(limits, s) && Progress(s, e)
    ensures Left(Next(limits, s, e).workers[e.w]) < Left(s.workers[e.w])
  {
    var k := s.workers[e.w];
    assert WorkerOk(limits, s.free, k);
    SemsDistinct(limits, k.backend, k.role);
    hide SemsFor, Inv, CreateAll;
  }

  lemma NextAfter(limits: Limits, s: State, e: Event, run: seq<Event>)
    requires Enabled(s, e) && ValidRun(limits, Next(limits, s, e), run)
    ensures ValidRun(limits, s, [e] + run)
    ensures After(limits, s, [e] + run) == After(limits, Next(limits, s, e), run)
  {
    hide Enabled, Next;
    assert ([e] + run)[1..] == run;
  }

  /** From every state of every run, however the workers got there, all of them can still finish,
      without anyone being cancelled. */
  lemma {:induction false} CanFinish(limits: Limits, s: State) returns (run: seq<Event>)
    requires Inv(limits, s)
    ensures ValidRun(limits, s, run) && AllDone(After(limits, s, run))
    ensures |run| <= Total(s.workers) && forall e :: e in run ==> !e.Cancel? && !e.Timeout?
    decreases Total(s.workers)
  {
    hide Inv, Enabled, Next, Total;
    if AllDone(s) {
      run := [];
    } else {
      var w :| w in s.workers && s.workers[w].pc != Done;
      var e := SomeoneMoves(limits, s, w);
      ProgressIsBounded(limits, s, e);
      StepInv(limits, s, e);
      var rest := CanFinish(limits, Next(limits, s, e));
      NextAfter(limits, s, e, rest);
      run := [e] + rest;
    }
  }

  /** So any callers can all get through: their calls have a run that ends with every call done. */
  lemma CallersCanFinish(limits: Limits, asked: map<nat, (string, string)>) returns (run: seq<Event>)
    ensures ValidRun(limits, Callers(limits, asked), run)
    ensures AllDone(After(limits, Callers(limits, asked), run))
    ensures After(limits, Callers(limits, asked), run).workers.Keys == asked.Keys
  {
    hide Initial, Inv, ValidRun, After, AllDone, Total;
    CallersAreInitial(limits, asked);
    InitialInv(limits, Callers(limits, asked));
    run := CanFinish(limits, Callers(limits, asked));
    KeysStay(limits, Callers(limits, asked), run);
    assert Callers(limits, asked).workers.Keys == asked.Keys;
  }

  lemma {:induction false} KeysStay(limits: Limits, s: State, run: seq<Event>)
    requires ValidRun(limits, s, run)
    ensures After(limits, s, run).workers.Keys == s.workers.Keys
    decreases |run|
  {
    hide CreateAll, SemsFor;
    if run != [] {
      assert Next(limits, s, run[0]).workers.Keys == s.workers.Keys;
      KeysStay(limits, Next(limits, s, run[0]), run[1..]);
    }
  }

  // ---------------------------------------------------------------- cancellation

  /** `n` releases and the end of worker `w`. */
  function Unwind(w: nat, n: nat): seq<Event> {
    if n == 0 then [Finish(w)] else [Free1(w)] + Unwind(w, n - 1)
  }

  /** One permit of `sem` more if `k` holds it. */
  function GivenBack(k: Worker, sem: Sem): nat {
    if Holds(k, sem) then 1 else 0
  }

  /** `t` is `s` after worker `w` gave back exactly the permits it held, one of each, and ended. */
  predicate GaveBack(s: State, t: State, w: nat) {
    && w in s.workers
    && t.workers == s.workers[w := s.workers[w].(held := 0, pc := Done)]
    && t.free.Keys == s.free.Keys
    && forall sem :: sem in s.free ==> t.free[sem] == s.free[sem] + GivenBack(s.workers[w], sem)
  }

  lemma GaveBackOneMore(limits: Limits, s: State, u: State, t: State, w: nat)
    requires TookNext(limits, u, s, w) && GaveBack(u, t, w)
    requires u.free.Keys == s.free.Keys
    requires w in u.workers && u.workers[w] == s.workers[w].(held := s.workers[w].held - 1)
    ensures GaveBack(s, t, w)
  {
    hide SemsFor, Holds;
    var k := s.workers[w];
    forall sem | sem in s.free ensures t.free[sem] == s.free[sem] + GivenBack(k, sem) {
      HeldAfterTaking(limits, u, s, w, sem);
    }
    assert t.workers == s.workers[w := k.(held := 0, pc := Done)];
  }

  lemma ReleasedStep(limits: Limits, s: State, w: nat)
    requires w in s.workers && s.workers[w].pc == Unwinding && s.workers[w].held > 0
    requires WorkerOk(limits, s.free, s.workers[w])
    ensures Enabled(s, Free1(w))
    ensures var u := Next(limits, s, Free1(w));
      && TookNext(limits, u, s, w) && u.free.Keys == s.free.Keys
      && w in u.workers && u.workers[w] == s.workers[w].(held := s.workers[w].held - 1)
  {
    hide SemsFor;
  }

  lemma UnwoundEnd(limits: Limits, s: State, w: nat)
    requires w in s.workers && s.workers[w].pc == Unwinding && s.workers[w].held == 0
    ensures ValidRun(limits, s, Unwind(w, 0)) && GaveBack(s, After(limits, s, Unwind(w, 0)), w)
  {
    hide SemsFor, CreateAll;
    NextAfter(limits, s, Finish(w), []);
    assert [Finish(w)] + [] == Unwind(w, 0);
    assert After(limits, Next(limits, s, Finish(w)), []) == Next(limits, s, Finish(w));
  }

  /** A worker that unwinds gives back exactly the permits it holds, and nothing else changes. */
  lemma {:induction false} UnwindReturns(limits: Limits, s: State, w: nat)
    requires Inv(limits, s) && w in s.workers && s.workers[w].pc == Unwinding
    ensures ValidRun(limits, s, Unwind(w, s.workers[w].held))
    ensures GaveBack(s, After(limits, s, Unwind(w, s.workers[w].held)), w)
    decreases s.workers[w].held
  {
    hide Inv, Enabled, Next, TookNext, GaveBack, After, ValidRun, WorkerOk;
    var k := s.workers[w];
    WorkerIsOk(limits, s, w);
    if k.held == 0 {
      UnwoundEnd(limits, s, w);
    } else {
      ReleasedStep(limits, s, w);
      ReleaseInv(limits, s, w);
      var u := Next(limits, s, Free1(w));
      UnwindReturns(limits, u, w);
      NextAfter(limits, s, Free1(w), Unwind(w, k.held - 1));
      GaveBackOneMore(limits, s, u, After(limits, u, Unwind(w, k.held - 1)), w);
    }
  }

  lemma CheckedReturns(limits: Limits, s: State, w: nat)
    requires Inv(limits, s) && w in s.workers && Enabled(s, Check(w)) && s.workers[w].cancelled
    ensures var run := [Check(w)] + Unwind(w, s.workers[w].held);
      ValidRun(limits, s, run) && GaveBack(s, After(limits, s, run), w)
  {
    hide Inv, Next, Enabled, ValidRun, After;
    var k, t := s.workers[w], Next(limits, s, Check(w));
    CheckedCancelled(limits, s, w);
    StepInv(limits, s, Check(w));
    UnwindReturns(limits, t, w);
    NextAfter(limits, s, Check(w), Unwind(w, k.held));
    assert After(limits, t, Unwind(w, k.held)).workers == s.workers[w := k.(held := 0, pc := Done)];
  }

  lemma CheckedCancelled(limits: Limits, s: State, w: nat)
    requires w in s.workers && Enabled(s, Check(w)) && s.workers[w].cancelled
    ensures Next(limits, s, Check(w)) == State(s.free, s.workers[w := s.workers[w].(pc := Unwinding)])
  {
    hide SemsFor, CreateAll;
  }

  /** The worker waits for one of its semaphores and its cancel flag is set. */
  predicate CancelledWaiting(k: Worker) {
    k.pc.Waiting? && k.held < |k.sems| && k.cancelled
  }

  /** What such a worker does by itself: it ends the timed wait it is in, sees the flag, and unwinds. */
  function CancelRun(w: nat, k: Worker): seq<Event> {
    (if k.pc == Waiting(true) then [Timeout(w)] else []) + ([Check(w)] + Unwind(w, k.held))
  }

  /** Any worker can be cancelled at any time; that sets its flag and changes nothing else. */
  lemma CancelAnytime(limits: Limits, s: State, w: nat)
    requires w in s.workers
    ensures Enabled(s, Cancel(w))
    ensures var k := s.workers[w];
      Next(limits, s, Cancel(w)) == State(s.free, s.workers[w := Worker(k.backend, k.role, k.sems, k.held, k.pc, true)])
  {
  }

  /** Cancellation at any waiting point, before or in the timed wait for a semaphore, returns exactly
      the permits taken before it. */
  lemma CancelReturns(limits: Limits, s: State, w: nat)
    requires Inv(limits, s) && w in s.workers && CancelledWaiting(s.workers[w])
    ensures var run := CancelRun(w, s.workers[w]); ValidRun(limits, s, run) && GaveBack(s, After(limits, s, run), w)
  {
    hide Inv, Next, Enabled, ValidRun, After, GaveBack, Unwind;
    var k := s.workers[w];
    var rest := [Check(w)] + Unwind(w, k.held);
    if k.pc == Waiting(true) {
      TimedOut(limits, s, w);
      var t := Next(limits, s, Timeout(w));
      StepInv(limits, s, Timeout(w));
      CheckedReturns(limits, t, w);
      NextAfter(limits, s, Timeout(w), rest);
      GaveBackMoved(s, t, After(limits, t, rest), w);
    } else {
      CheckIsNext(s, w);
      assert [] + rest == rest;
      CheckedReturns(limits, s, w);
    }
  }

  lemma CheckIsNext(s: State, w: nat)
    requires w in s.workers && s.workers[w].pc == Waiting(false) && s.workers[w].held < |s.workers[w].sems|
    ensures Enabled(s, Check(w))
  {
  }

  lemma TimedOut(limits: Limits, s: State, w: nat)
    requires w in s.workers && s.workers[w].pc == Waiting(true) && s.workers[w].held < |s.workers[w].sems|
    ensures Enabled(s, Timeout(w))
    ensures var t := Next(limits, s, Timeout(w));
      t == State(s.free, s.workers[w := s.workers[w].(pc := Waiting(false))]) && w in t.workers && Enabled(t, Check(w))
  {
    hide SemsFor, CreateAll;
  }

  /** Where the worker was does not matter for what it gave back. */
  lemma GaveBackMoved(s: State, t: State, end: State, w: nat)
    requires w in s.workers && GaveBack(t, end, w)
    requires t.free == s.free && t.workers == s.workers[w := s.workers[w].(pc := t.workers[w].pc)]
    ensures GaveBack(s, end, w)
  {
    assert end.workers == s.workers[w := s.workers[w].(held := 0, pc := Done)];
    assert forall sem :: Holds(t.workers[w], sem) == Holds(s.workers[w], sem);
    hide Holds;
  }

  /** If the permit arrives first, but is not the last one, the worker gives it back with the others. */
  lemma LatePermitReturns(limits: Limits, s: State, w: nat)
    requires Inv(limits, s) && w in s.workers && CancelledWaiting(s.workers[w])
    requires Enabled(s, Take(w)) && s.workers[w].held + 1 < |s.workers[w].sems|
    ensures var run := [Take(w)] + ([Check(w)] + Unwind(w, s.workers[w].held + 1));
      ValidRun(limits, s, run) && GaveBack(s, After(limits, s, run), w)
  {
    hide Inv, Next, Enabled, ValidRun, After, GaveBack, Unwind, TookNext;
    var k, t := s.workers[w], Next(limits, s, Take(w));
    var rest := [Check(w)] + Unwind(w, k.held + 1);
    WorkerIsOk(limits, s, w);
    TookLate(limits, s, w);
    StepInv(limits, s, Take(w));
    CheckedReturns(limits, t, w);
    NextAfter(limits, s, Take(w), rest);
    GaveBackOneLess(limits, s, t, After(limits, t, rest), w);
  }

  lemma TookLate(limits: Limits, s: State, w: nat)
    requires w in s.workers && Enabled(s, Take(w)) && WorkerOk(limits, s.free, s.workers[w])
    ensures var k, t := s.workers[w], Next(limits, s, Take(w));
      && TookNext(limits, s, t, w) && t.free.Keys == s.free.Keys
      && w in t.workers && t.workers[w] == k.(held := k.held + 1, pc := Waiting(false))
      && (k.held + 1 < |k.sems| ==> Enabled(t, Check(w)))
  {
    hide SemsFor, CreateAll;
  }

  lemma GaveBackOneLess(limits: Limits, s: State, t: State, end: State, w: nat)
    requires TookNext(limits, s, t, w) && GaveBack(t, end, w) && t.free.Keys == s.free.Keys
    requires t.workers[w] == s.workers[w].(held := s.workers[w].held + 1, pc := t.workers[w].pc)
    ensures GaveBack(s, end, w)
  {
    hide SemsFor, Holds;
    forall sem | sem in s.free ensures end.free[sem] == s.free[sem] + GivenBack(s.workers[w], sem) {
      HeldAfterTaking(limits, s, t, w, sem);
    }
    assert end.workers == s.workers[w := s.workers[w].(held := 0, pc := Done)];
  }

  /** The flag is set and the worker will look at it before its last permit. */
  predicate Doomed(limits: Limits, k: Worker) {
    || k.pc == Unwinding || k.pc == Done
    || (k.cancelled && match k.pc
                       case Start => k.held == 0 && SemsFor(limits, k.backend, k.role) != []
                       case Waiting(checked) => k.held + (if checked then 1 else 0) < |k.sems|
                       case _ => false)
  }

  /** Such a worker never enters the guarded body, whatever the others do. */
  lemma {:induction false} CancelledNeverRuns(limits: Limits, s: State, w: nat, run: seq<Event>)
    requires w in s.workers && Doomed(limits, s.workers[w]) && ValidRun(limits, s, run)
    ensures var t := After(limits, s, run);
      w in t.workers && Doomed(limits, t.workers[w]) && t.workers[w].pc != Body
    decreases |run|
  {
    hide Next, Enabled, Doomed;
    DoomedIsOutside(limits, s.workers[w]);
    if run != [] {
      DoomedStays(limits, s, w, run[0]);
      CancelledNeverRuns(limits, Next(limits, s, run[0]), w, run[1..]);
    }
  }

  lemma DoomedIsOutside(limits: Limits, k: Worker)
    ensures Doomed(limits, k) ==> k.pc != Body
  {
    hide SemsFor;
  }

  lemma DoomedStays(limits: Limits, s: State, w: nat, e: Event)
    requires w in s.workers && Doomed(limits, s.workers[w]) && Enabled(s, e)
    ensures w in Next(limits, s, e).workers && Doomed(limits, Next(limits, s, e).workers[w])
  {
    hide SemsFor, CreateAll;
  }

  /** Any other worker still enters the body although its flag is set, if the permit it may be waiting
      for, its last one, is there: no later point looks at the flag. */
  lemma CancelledStillRuns(limits: Limits, s: State, w: nat) returns (run: seq<Event>)
    requires Inv(limits, s) && w in s.workers && s.workers[w].cancelled && !Doomed(limits, s.workers[w])
    requires s.workers[w].pc == Waiting(true) ==> Enabled(s, Take(w))
    ensures ValidRun(limits, s, run)
    ensures var t := After(limits, s, run); w in t.workers && t.workers[w].pc == Body && t.workers[w].cancelled
  {
    hide ValidRun, After, CreateAll, SemsFor, Conserved;
    var k := s.workers[w];
    WorkerIsOk(limits, s, w);
    hide Inv;
    if k.pc == Body {
      run := [];
      NoEvents(limits, s);
    } else {
      var e := if k.pc == Start then Enter(w) else if k.pc == Waiting(true) then Take(w) else Begin(w);
      var t := Next(limits, s, e);
      run := if e.Begin? then [] else [Begin(w)];
      if e.Begin? {
        NoEvents(limits, t);
      } else {
        var u := Next(limits, t, Begin(w));
        NoEvents(limits, u);
        NextAfter(limits, t, Begin(w), []);
        assert [Begin(w)] + [] == [Begin(w)];
      }
      NextAfter(limits, s, e, run);
      run := [e] + run;
    }
  }

  lemma NoEvents(limits: Limits, s: State)
    ensures ValidRun(limits, s, []) && After(limits, s, []) == s
  {
    hide Enabled, Next;
  }
}
