/** The circuit breaker that keeps agents off a failing backend. */
module Health {
  import opened Text

  datatype Circuit = Healthy | Degraded | Open

  datatype Kind = Auth | Timeout | RuntimeError | RequestSize | OutputContract | AgentRuntime | ManualCooldown

  datatype Reason =
    | ProbeAllowed
    | OpenedAfter(failures: nat, kind: Kind)
    | DegradedAfter(failures: nat, kind: Kind)
    | Given(text: string)
    | CooledDown(seconds: int)

  datatype Health =
    Health(state: Circuit, failures: nat, kind: Option<Kind>, openUntil: Option<real>, reason: Option<Reason>)

  const WELL := Health(Healthy, 0, None, None, None)

  datatype Snapshot = Snapshot(backend: string, state: Circuit, allowed: bool, failures: nat, kind: Option<Kind>,
                               openUntil: Option<real>, reason: Option<Reason>)

  /** The constructor clamps both numbers. */
  datatype Settings = Settings(enabled: bool, threshold: int, cooldown: real) {
    ghost predicate Valid() { threshold >= 1 && cooldown >= 0.0 }
  }

  /** A call about one backend, at the time it makes the monitor read from the clock. */
  datatype Event =
    | Check(now: real)
    | Success
    | Failure(kind: Kind, now: real)
    | Cooldown(seconds: real, text: string, now: real)

  function Clamp(seconds: real): real {
    if seconds < 0.0 then 0.0 else seconds
  }

  /** A failure that says something about the backend. */
  predicate Counts(cfg: Settings, e: Event) {
    e.Failure? && cfg.enabled && e.kind !in {RequestSize, OutputContract, AgentRuntime}
  }

  predicate Expires(cfg: Settings, h: Health, e: Event) {
    e.Check? && cfg.enabled && h.state == Open && h.openUntil.Some? && e.now >= h.openUntil.value
  }

  /** The state after a call. */
  function Apply(cfg: Settings, h: Health, e: Event): Health {
    match e
    case Check(now) =>
      if Expires(cfg, h, e) then h.(state := Degraded, openUntil := None, reason := Some(ProbeAllowed)) else h
    case Success => WELL
    case Failure(kind, now) =>
      if !Counts(cfg, e) then h
      else if kind == Auth || h.failures + 1 >= cfg.threshold then
        Health(Open, h.failures + 1, Some(kind), Some(now + cfg.cooldown), Some(OpenedAfter(h.failures + 1, kind)))
      else
        // an earlier deadline stays behind, unused
        Health(Degraded, h.failures + 1, Some(kind), h.openUntil, Some(DegradedAfter(h.failures + 1, kind)))
    case Cooldown(seconds, text, now) =>
      Health(Open, if h.failures < 1 then 1 else h.failures, if h.kind.Some? then h.kind else Some(ManualCooldown),
             Some(now + Clamp(seconds)), Some(if text != "" then Given(text) else CooledDown(Clamp(seconds).Floor)))
  }

  function SnapshotOf(backend: string, h: Health, allowed: bool, kind: Option<Kind>): Snapshot {
    Snapshot(backend, h.state, allowed, h.failures, if kind.Some? then kind else h.kind, h.openUntil, h.reason)
  }

  /** What a call returns. */
  function Reply(cfg: Settings, backend: string, h: Health, e: Event): Snapshot {
    var after := Apply(cfg, h, e);
    match e
    case Check(_) => SnapshotOf(backend, after, !cfg.enabled || after.state != Open, None)
    case Success => SnapshotOf(backend, after, true, None)
    case Failure(kind, _) =>
      if Counts(cfg, e) then SnapshotOf(backend, after, after.state != Open, None)
      else SnapshotOf(backend, after, true, Some(kind))
    case Cooldown(_, _, _) => SnapshotOf(backend, after, false, None)
  }

  /** Which calls hand a snapshot to the persistence callback. */
  predicate Persists(cfg: Settings, h: Health, e: Event) {
    Expires(cfg, h, e) || e.Success? || Counts(cfg, e) || e.Cooldown?
  }

  /** What the constructor makes of a persisted snapshot. */
  function Restored(s: Snapshot): Health {
    Health(s.state, s.failures, s.kind, s.openUntil, s.reason)
  }

  function StateFor(states: map<string, Health>, backend: string): Health {
    if backend in states then states[backend] else WELL
  }

  /** The states in memory and the last snapshot persisted, per backend. */
  datatype Monitor = Monitor(states: map<string, Health>, stored: map<string, Snapshot>)

  /** A call about one backend; no other backend is touched. */
  function Handle(cfg: Settings, m: Monitor, backend: string, e: Event): Monitor {
    var h := StateFor(m.states, backend);
    Monitor(m.states[backend := Apply(cfg, h, e)],
            if Persists(cfg, h, e) then m.stored[backend := Reply(cfg, backend, h, e)] else m.stored)
  }

  function Answer(cfg: Settings, m: Monitor, backend: string, e: Event): Snapshot {
    Reply(cfg, backend, StateFor(m.states, backend), e)
  }

  class BackendHealthMonitor {
    const cfg: Settings
    var states: map<string, Health>
    /** The last snapshot handed to the callback, per backend. */
    var persisted: map<string, Snapshot>

    constructor (enabled: bool, threshold: int, cooldown: real, stored: map<string, Snapshot>)
      ensures cfg == Settings(enabled, if threshold < 1 then 1 else threshold, if cooldown > 0.0 then cooldown else 0.0)
      ensures cfg.Valid()
      ensures persisted == stored && states.Keys == stored.Keys
      ensures forall b :: b in stored ==> states[b] == Restored(stored[b])
    {
      cfg := Settings(enabled, if threshold < 1 then 1 else threshold, Clamp(cooldown));
      persisted := stored;
      states := map b | b in stored :: Restored(stored[b]);
    }

    function Now(): Monitor
      reads this
    {
      Monitor(states, persisted)
    }

    method Persist(backend: string, h: Health, allowed: bool, kind: Option<Kind>)
      modifies `persisted
      ensures persisted == old(persisted)[backend := SnapshotOf(backend, h, allowed, kind)]
    {
      persisted := persisted[backend := SnapshotOf(backend, h, allowed, kind)];
    }

    method Check(backend: string, now: real) returns (reply: Snapshot)
      modifies this
      ensures Now() == Handle(cfg, old(Now()), backend, Event.Check(now))
      ensures reply == Answer(cfg, old(Now()), backend, Event.Check(now))
    {
      var h := StateFor(states, backend);
      states := states[backend := h];
      if !cfg.enabled {
        return SnapshotOf(backend, h, true, None);
      }
      if h.state == Open && h.openUntil.Some? && now >= h.openUntil.value {
        h := h.(state := Degraded, openUntil := None, reason := Some(ProbeAllowed));
        states := states[backend := h];
        Persist(backend, h, true, None);
      }
      reply := SnapshotOf(backend, h, h.state != Open, None);
    }

    method RecordSuccess(backend: string) returns (reply: Snapshot)
      modifies this
      ensures Now() == Handle(cfg, old(Now()), backend, Success) && reply == Answer(cfg, old(Now()), backend, Success)
    {
      states := states[backend := WELL];
      Persist(backend, WELL, true, None);
      reply := SnapshotOf(backend, WELL, true, None);
    }

    method RecordFailure(backend: string, kind: Kind, now: real) returns (reply: Snapshot)
      modifies this
      ensures Now() == Handle(cfg, old(Now()), backend, Failure(kind, now))
      ensures reply == Answer(cfg, old(Now()), backend, Failure(kind, now))
    {
      var h := StateFor(states, backend);
      ghost var was, e := Now(), Failure(kind, now);
      states := states[backend := h];
      if !cfg.enabled || kind in {RequestSize, OutputContract, AgentRuntime} {
        return SnapshotOf(backend, h, true, Some(kind));
      }
      h := h.(failures := h.failures + 1, kind := Some(kind));
      if kind == Auth || h.failures >= cfg.threshold {
        h := h.(state := Open, openUntil := Some(now + cfg.cooldown), reason := Some(OpenedAfter(h.failures, kind)));
      } else {
        h := h.(state := Degraded, reason := Some(DegradedAfter(h.failures, kind)));
      }
      assert h == Apply(cfg, StateFor(was.states, backend), e);
      states := states[backend := h];
      Persist(backend, h, h.state != Open, Some(kind));
      reply := SnapshotOf(backend, h, h.state != Open, None);
    }

    method CooldownBackend(backend: string, seconds: real, text: string, now: real) returns (reply: Snapshot)
      modifies this
      ensures Now() == Handle(cfg, old(Now()), backend, Cooldown(seconds, text, now))
      ensures reply == Answer(cfg, old(Now()), backend, Cooldown(seconds, text, now))
    {
      var h := StateFor(states, backend);
      h := h.(state := Open, openUntil := Some(now + Clamp(seconds)),
              reason := Some(if text != "" then Given(text) else CooledDown(Clamp(seconds).Floor)));
      if h.failures < 1 {
        h := h.(failures := 1);
      }
      if h.kind.None? {
        h := h.(kind := Some(ManualCooldown));
      }
      states := states[backend := h];
      Persist(backend, h, false, None);
      reply := SnapshotOf(backend, h, false, None);
    }
  }
}
