/** What the circuit breaker answers, read off the history of calls alone. */
module HealthHistory {
  import opened Text
  import opened Health

  // ---------------------------------------------------------------- one backend

  function StateAfter(cfg: Settings, calls: seq<Event>): Health
    decreases |calls|
  {
    if calls == [] then WELL else Apply(cfg, StateAfter(cfg, calls[..|calls| - 1]), calls[|calls| - 1])
  }

  /** A failure that is the backend's: of authentication, by timeout, at run time, or of a kind a cooldown
      left behind. */
  predicate Blames(cfg: Settings, e: Event) {
    cfg.enabled && e.Failure? && e.kind in {Auth, Timeout, RuntimeError, ManualCooldown}
  }

  lemma CountsMeans(cfg: Settings, e: Event)
    ensures Counts(cfg, e) <==> Blames(cfg, e)
  {
    if e.Failure? {
      match e.kind
      case Auth =>
      case Timeout =>
      case _ =>
    }
  }

  /** A counted failure or a cooldown by hand: what can open the circuit or degrade it. */
  predicate Sets(cfg: Settings, e: Event) {
    Blames(cfg, e) || e.Cooldown?
  }

  /** `i` is a call after the last success. */
  predicate Recent(calls: seq<Event>, i: int) {
    0 <= i < |calls| && forall j :: i <= j < |calls| ==> !calls[j].Success?
  }

  /** `i` is the last setting call since the last success. */
  predicate LastSetting(cfg: Settings, calls: seq<Event>, i: int) {
    Recent(calls, i) && Sets(cfg, calls[i]) && forall j :: i < j < |calls| ==> !Sets(cfg, calls[j])
  }

  ghost function CountedSince(cfg: Settings, calls: seq<Event>): set<int> {
    set i | 0 <= i < |calls| && Recent(calls, i) && Blames(cfg, calls[i])
  }

  /** The first setting call since the last success is a cooldown, which counts as one failure. */
  ghost predicate CooledFirst(cfg: Settings, calls: seq<Event>) {
    exists i ::
      Recent(calls, i) && calls[i].Cooldown? && forall j :: 0 <= j < i && Recent(calls, j) ==> !Blames(cfg, calls[j])
  }

  /** The consecutive failures: counted failures since the last success, and a leading cooldown. */
  ghost function RunningCount(cfg: Settings, calls: seq<Event>): nat {
    |CountedSince(cfg, calls)| + if CooledFirst(cfg, calls) then 1 else 0
  }

  /** Setting call `i` opened the circuit. */
  ghost predicate Opened(cfg: Settings, calls: seq<Event>, i: int)
    requires 0 <= i < |calls| && Sets(cfg, calls[i])
  {
    calls[i].Cooldown? || calls[i].kind == Auth || RunningCount(cfg, calls[..i + 1]) >= cfg.threshold
  }

  /** When the circuit that call `i` opened lets a probe through. */
  function Deadline(cfg: Settings, e: Event): real
    requires Sets(cfg, e)
  {
    if e.Failure? then e.now + cfg.cooldown else if e.seconds > 0.0 then e.now + e.seconds else e.now
  }

  /** Call `i` is the last setting call, it opened the circuit, and no check since has seen its
      deadline pass. */
  ghost predicate HeldOpen(cfg: Settings, calls: seq<Event>, i: int) {
    && LastSetting(cfg, calls, i) && Opened(cfg, calls, i)
    && forall j :: i < j < |calls| && calls[j].Check? ==> calls[j].now < Deadline(cfg, calls[i])
  }

  predicate OneMore(calls: seq<Event>, before: seq<Event>, e: Event) {
    calls == before + [e]
  }

  lemma CallsNext(calls: seq<Event>, before: seq<Event>, e: Event)
    requires OneMore(calls, before, e)
    ensures |calls| == |before| + 1 && calls[|before|] == e && calls[..|before|] == before
    ensures forall i :: 0 <= i < |before| ==> calls[i] == before[i]
    ensures forall n :: 0 <= n <= |before| ==> calls[..n] == before[..n]
    ensures calls[..|before| + 1] == calls
  {
  }

  lemma RecentNext(calls: seq<Event>, before: seq<Event>, e: Event)
    requires OneMore(calls, before, e)
    ensures e.Success? ==> forall i :: !Recent(calls, i)
    ensures !e.Success? ==>
      Recent(calls, |before|) && forall i :: i != |before| ==> (Recent(calls, i) <==> Recent(before, i))
  {
    CallsNext(calls, before, e);
  }

  /** How the running count moves. */
  lemma CountNext(cfg: Settings, calls: seq<Event>, before: seq<Event>, e: Event)
    requires OneMore(calls, before, e)
    ensures RunningCount(cfg, calls) ==
            if e.Success? then 0
            else if Blames(cfg, e) then RunningCount(cfg, before) + 1
            else if e.Cooldown? && RunningCount(cfg, before) == 0 then 1
            else RunningCount(cfg, before)
  {
    hide Recent, Blames, OneMore;
    CallsNext(calls, before, e);
    RecentNext(calls, before, e);
    RecentIsInside(calls);
    RecentIsInside(before);
    if e.Success? {
      assert CountedSince(cfg, calls) == {};
    } else {
      CountsAreFailures(cfg, e);
      if Blames(cfg, e) {
        assert CountedSince(cfg, calls) == CountedSince(cfg, before) + {|before|};
      } else {
        assert CountedSince(cfg, calls) == CountedSince(cfg, before);
      }
      CooledNext(cfg, calls, before, e);
    }
  }

  lemma RecentIsInside(calls: seq<Event>)
    ensures forall i :: Recent(calls, i) ==> 0 <= i < |calls|
  {
  }

  lemma CountsAreFailures(cfg: Settings, e: Event)
    ensures Blames(cfg, e) ==> e.Failure?
  {
  }

  lemma CooledNext(cfg: Settings, calls: seq<Event>, before: seq<Event>, e: Event)
    requires OneMore(calls, before, e) && !e.Success?
    ensures CooledFirst(cfg, calls) <==> CooledFirst(cfg, before) || (e.Cooldown? && CountedSince(cfg, before) == {})
  {
    hide Recent, Blames, OneMore;
    CallsNext(calls, before, e);
    RecentNext(calls, before, e);
    RecentIsInside(calls);
    RecentIsInside(before);
    if CountedSince(cfg, before) == {} {
      forall j | 0 <= j < |before| && Recent(before, j) ensures !Blames(cfg, before[j]) {
        assert j !in CountedSince(cfg, before);
      }
    }
    if CooledFirst(cfg, calls) && !CooledFirst(cfg, before) {
      var i :| Recent(calls, i) && calls[i].Cooldown? &&
        forall j :: 0 <= j < i && Recent(calls, j) ==> !Blames(cfg, calls[j]);
      assert i == |before|;
      assert CountedSince(cfg, before) == {};
    }
  }

  /** The state the monitor keeps is what the history says: the failures are the running count, and
      the circuit is open iff the last setting call since the last success opened it and no later
      check saw its deadline pass. */
  ghost predicate Explains(cfg: Settings, h: Health, calls: seq<Event>) {
    && h.failures == RunningCount(cfg, calls)
    && (h.state == Open <==> exists i :: HeldOpen(cfg, calls, i))
    && (forall i :: HeldOpen(cfg, calls, i) ==> h.openUntil == Some(Deadline(cfg, calls[i])))
  }

  lemma LastSettingNext(cfg: Settings, calls: seq<Event>, before: seq<Event>, e: Event)
    requires OneMore(calls, before, e)
    ensures e.Success? ==> forall i :: !LastSetting(cfg, calls, i)
    ensures !e.Success? && Sets(cfg, e) ==> forall i :: LastSetting(cfg, calls, i) <==> i == |before|
    ensures !e.Success? && !Sets(cfg, e) ==> forall i :: LastSetting(cfg, calls, i) <==> LastSetting(cfg, before, i)
  {
    hide Recent, Sets, OneMore;
    CallsNext(calls, before, e);
    RecentNext(calls, before, e);
    RecentIsInside(calls);
    RecentIsInside(before);
  }

  lemma HeldOpenNext(cfg: Settings, calls: seq<Event>, before: seq<Event>, e: Event, i: int)
    requires OneMore(calls, before, e)
    ensures HeldOpen(cfg, calls, i) <==>
            if e.Success? then false
            else if Sets(cfg, e) then
              i == |before| && (e.Cooldown? || e.kind == Auth || RunningCount(cfg, calls) >= cfg.threshold)
            else HeldOpen(cfg, before, i) && (e.Check? ==> e.now < Deadline(cfg, before[i]))
  {
    hide RunningCount, Deadline, OneMore;
    CallsNext(calls, before, e);
    LastSettingNext(cfg, calls, before, e);
    SettingIsInside(cfg, calls);
    SettingIsInside(cfg, before);
    hide LastSetting, Blames;
  }

  lemma SettingIsInside(cfg: Settings, calls: seq<Event>)
    ensures forall i :: LastSetting(cfg, calls, i) ==> 0 <= i < |calls| && Sets(cfg, calls[i])
  {
    hide Sets;
  }

  lemma HeldOpenIsInside(cfg: Settings, calls: seq<Event>)
    ensures forall i :: HeldOpen(cfg, calls, i) ==> 0 <= i < |calls| && Sets(cfg, calls[i])
  {
    hide Sets;
  }

  lemma {:induction false} HistoryExplains(cfg: Settings, calls: seq<Event>)
    requires cfg.enabled
    ensures Explains(cfg, StateAfter(cfg, calls), calls)
    decreases |calls|
  {
    hide Apply, Explains;
    if calls == [] {
      NothingExplained(cfg);
    } else {
      var before, e := calls[..|calls| - 1], calls[|calls| - 1];
      HistoryExplains(cfg, before);
      assert OneMore(calls, before, e);
      ExplainsNext(cfg, StateAfter(cfg, before), calls, before, e);
    }
  }

  lemma NothingExplained(cfg: Settings)
    ensures Explains(cfg, WELL, [])
  {
    assert CountedSince(cfg, []) == {};
  }

  lemma ExplainsNext(cfg: Settings, h: Health, calls: seq<Event>, before: seq<Event>, e: Event)
    requires cfg.enabled && OneMore(calls, before, e) && Explains(cfg, h, before)
    ensures Explains(cfg, Apply(cfg, h, e), calls)
  {
    hide RunningCount, HeldOpen, OneMore;
    CallsNext(calls, before, e);
    CountNext(cfg, calls, before, e);
    HeldOpenIsInside(cfg, calls);
    HeldOpenIsInside(cfg, before);
    forall i ensures HeldOpen(cfg, calls, i) <==>
            if e.Success? then false
            else if Sets(cfg, e) then
              i == |before| && (e.Cooldown? || e.kind == Auth || RunningCount(cfg, calls) >= cfg.threshold)
            else HeldOpen(cfg, before, i) && (e.Check? ==> e.now < Deadline(cfg, before[i]))
    {
      HeldOpenNext(cfg, calls, before, e, i);
    }
    if Sets(cfg, e) {
      assert HeldOpen(cfg, calls, |before|) <==> Apply(cfg, h, e).state == Open;
    } else if h.state == Open {
      var i :| HeldOpen(cfg, before, i);
      assert HeldOpen(cfg, calls, i) <==> Apply(cfg, h, e).state == Open;
    }
  }

  /** With the monitor enabled, `check` blocks iff the last counted failure or cooldown since the
      last success opened the circuit, no check since saw its deadline pass, and it is ahead still. */
  lemma CheckBlocksIff(cfg: Settings, backend: string, calls: seq<Event>, now: real)
    requires cfg.enabled
    ensures !Reply(cfg, backend, StateAfter(cfg, calls), Check(now)).allowed <==>
            exists i :: HeldOpen(cfg, calls, i) && now < Deadline(cfg, calls[i])
  {
    hide HeldOpen, StateAfter, RunningCount;
    HistoryExplains(cfg, calls);
    HeldOpenIsInside(cfg, calls);
    var h := StateAfter(cfg, calls);
    if h.state == Open {
      var i :| HeldOpen(cfg, calls, i);
      assert Reply(cfg, backend, h, Check(now)).allowed <==> now >= Deadline(cfg, calls[i]);
    }
  }

  /** On a clock that does not run backwards only the last setting call and its deadline matter. */
  lemma MonotoneCheckBlocksIff(cfg: Settings, backend: string, calls: seq<Event>, now: real)
    requires cfg.enabled
    requires forall j :: 0 <= j < |calls| && calls[j].Check? ==> calls[j].now <= now
    ensures !Reply(cfg, backend, StateAfter(cfg, calls), Check(now)).allowed <==>
            exists i :: LastSetting(cfg, calls, i) && Opened(cfg, calls, i) && now < Deadline(cfg, calls[i])
  {
    hide StateAfter, RunningCount, Reply, Deadline, LastSetting, Opened;
    SettingIsInside(cfg, calls);
    CheckBlocksIff(cfg, backend, calls, now);
    forall i | LastSetting(cfg, calls, i) && Opened(cfg, calls, i) && now < Deadline(cfg, calls[i])
      ensures HeldOpen(cfg, calls, i)
    {}
  }

  /** A sub-threshold failure closes even a circuit opened by an authentication failure. */
  lemma LaterFailureCloses(cfg: Settings, backend: string, calls: seq<Event>, kind: Kind, at: real, now: real)
    requires cfg.enabled && Blames(cfg, Failure(kind, at)) && kind != Auth
    requires RunningCount(cfg, calls) + 1 < cfg.threshold
    ensures Reply(cfg, backend, StateAfter(cfg, calls + [Failure(kind, at)]), Check(now)).allowed
  {
    hide RunningCount;
    HistoryExplains(cfg, calls);
    assert (calls + [Failure(kind, at)])[..|calls|] == calls;
  }

  // ---------------------------------------------------------------- all backends, restarts

  datatype Call = Call(backend: string, event: Event)

  function AfterCalls(cfg: Settings, m: Monitor, calls: seq<Call>): Monitor
    decreases |calls|
  {
    if calls == [] then m else AfterCalls(cfg, Handle(cfg, m, calls[0].backend, calls[0].event), calls[1..])
  }

  function Answers(cfg: Settings, m: Monitor, calls: seq<Call>): seq<Snapshot>
    decreases |calls|
  {
    if calls == [] then [] else
    var c := calls[0];
    [Answer(cfg, m, c.backend, c.event)] + Answers(cfg, Handle(cfg, m, c.backend, c.event), calls[1..])
  }

  function About(calls: seq<Call>, backend: string): seq<Event>
    decreases |calls|
  {
    if calls == [] then [] else
    (if calls[0].backend == backend then [calls[0].event] else []) + About(calls[1..], backend)
  }

  function From(cfg: Settings, h: Health, calls: seq<Event>): Health
    decreases |calls|
  {
    if calls == [] then h else From(cfg, Apply(cfg, h, calls[0]), calls[1..])
  }

  lemma {:induction false} FromIsStateAfter(cfg: Settings, before: seq<Event>, calls: seq<Event>)
    ensures From(cfg, StateAfter(cfg, before), calls) == StateAfter(cfg, before + calls)
    decreases |calls|
  {
    hide Apply;
    if calls == [] {
      assert before + calls == before;
    } else {
      assert (before + [calls[0]])[..|before|] == before;
      FromIsStateAfter(cfg, before + [calls[0]], calls[1..]);
      assert before + [calls[0]] + calls[1..] == before + calls;
    }
  }

  /** Backends do not influence one another: each one's state is that of its own calls. */
  lemma {:induction false} BackendsAreIndependent(cfg: Settings, m: Monitor, calls: seq<Call>, backend: string)
    ensures StateFor(AfterCalls(cfg, m, calls).states, backend) ==
      From(cfg, StateFor(m.states, backend), About(calls, backend))
    decreases |calls|
  {
    hide Apply, Reply, Persists;
    if calls != [] {
      var c := calls[0];
      BackendsAreIndependent(cfg, Handle(cfg, m, c.backend, c.event), calls[1..], backend);
      var rest := About(calls[1..], backend);
      if c.backend == backend {
        assert ([c.event] + rest)[0] == c.event && ([c.event] + rest)[1..] == rest;
      } else {
        assert [] + rest == rest;
      }
    }
  }

  lemma OneBackendsHistory(cfg: Settings, stored: map<string, Snapshot>, calls: seq<Call>, backend: string)
    ensures StateFor(AfterCalls(cfg, Monitor(map[], stored), calls).states, backend) ==
      StateAfter(cfg, About(calls, backend))
  {
    BackendsAreIndependent(cfg, Monitor(map[], stored), calls, backend);
    FromIsStateAfter(cfg, [], About(calls, backend));
    assert [] + About(calls, backend) == About(calls, backend);
  }

  /** A new monitor built from what the old one has persisted. */
  function Rebuilt(m: Monitor): Monitor {
    Monitor(map b | b in m.stored :: Restored(m.stored[b]), m.stored)
  }

  ghost predicate Alike(m: Monitor, n: Monitor) {
    forall b :: StateFor(m.states, b) == StateFor(n.states, b)
  }

  lemma HandleKeepsSync(cfg: Settings, m: Monitor, backend: string, e: Event)
    requires Alike(m, Rebuilt(m))
    ensures Alike(Handle(cfg, m, backend, e), Rebuilt(Handle(cfg, m, backend, e)))
  {
    hide Alike, Apply, Reply, Persists;
    var h, n := StateFor(m.states, backend), Handle(cfg, m, backend, e);
    PersistedOrSame(cfg, backend, h, e);
    forall b ensures StateFor(n.states, b) == StateFor(Rebuilt(n).states, b) {
      AlikeAt(m, Rebuilt(m), b);
    }
    AlikeFrom(n, Rebuilt(n));
  }

  lemma AlikeAt(m: Monitor, n: Monitor, b: string)
    requires Alike(m, n)
    ensures StateFor(m.states, b) == StateFor(n.states, b)
  {
  }

  lemma AlikeFrom(m: Monitor, n: Monitor)
    requires forall b :: StateFor(m.states, b) == StateFor(n.states, b)
    ensures Alike(m, n)
  {
  }

  /** A call either persists the new state or does not change it. */
  lemma PersistedOrSame(cfg: Settings, backend: string, h: Health, e: Event)
    ensures if Persists(cfg, h, e) then
      Restored(Reply(cfg, backend, h, e)) == Apply(cfg, h, e)
            else Apply(cfg, h, e) == h
  {
  }

  lemma {:induction false} RunKeepsSync(cfg: Settings, m: Monitor, calls: seq<Call>)
    requires Alike(m, Rebuilt(m))
    ensures Alike(AfterCalls(cfg, m, calls), Rebuilt(AfterCalls(cfg, m, calls)))
    decreases |calls|
  {
    hide Alike, Handle, Rebuilt;
    if calls != [] {
      HandleKeepsSync(cfg, m, calls[0].backend, calls[0].event);
      RunKeepsSync(cfg, Handle(cfg, m, calls[0].backend, calls[0].event), calls[1..]);
    }
  }

  lemma AlikeHandled(cfg: Settings, m: Monitor, n: Monitor, backend: string, e: Event)
    requires Alike(m, n)
    ensures Alike(Handle(cfg, m, backend, e), Handle(cfg, n, backend, e))
  {
    hide Apply, Reply, Persists, Alike;
    AlikeAt(m, n, backend);
    var m', n' := Handle(cfg, m, backend, e), Handle(cfg, n, backend, e);
    forall b ensures StateFor(m'.states, b) == StateFor(n'.states, b) {
      AlikeAt(m, n, b);
    }
    AlikeFrom(m', n');
  }

  lemma {:induction false} AlikeAnswersAlike(cfg: Settings, m: Monitor, n: Monitor, calls: seq<Call>)
    requires Alike(m, n)
    ensures Answers(cfg, m, calls) == Answers(cfg, n, calls)
    decreases |calls|
  {
    hide Apply, Reply, Persists, Alike, Handle;
    if calls != [] {
      var c := calls[0];
      AlikeAt(m, n, c.backend);
      AlikeHandled(cfg, m, n, c.backend, c.event);
      AlikeAnswersAlike(cfg, Handle(cfg, m, c.backend, c.event), Handle(cfg, n, c.backend, c.event), calls[1..]);
    }
  }

  /** A monitor rebuilt at any moment from what was persisted answers every later run of calls
      exactly as the old one would have, however often it was rebuilt before. */
  lemma RebuiltAnswersAlike(cfg: Settings, stored: map<string, Snapshot>, past: seq<Call>, future: seq<Call>)
    ensures var m := AfterCalls(cfg, Rebuilt(Monitor(map[], stored)), past);
      Answers(cfg, Rebuilt(m), future) == Answers(cfg, m, future)
  {
    hide Answers, AfterCalls, Alike;
    var start := Rebuilt(Monitor(map[], stored));
    AlikeFrom(start, Rebuilt(start));
    RunKeepsSync(cfg, start, past);
    var m := AfterCalls(cfg, start, past);
    AlikeAnswersAlike(cfg, m, Rebuilt(m), future);
  }
}
