/** The attempt loop of an agent run and the output-token budget it lowers after a request that was
    too large for the context window. */
module Retry {
  import opened Text

  // ---------------------------------------------------------------- token settings

  /** `claude.max_output_tokens`: nothing, one number, or a number per role. */
  datatype MaxOutput = Unset | Flat(n: nat) | PerRole(roles: map<string, nat>)

  /** Absent settings are `None`; a setting of 0 switches the limit off. */
  datatype Config = Config(maxOutput: MaxOutput, window: Option<nat>, buffer: Option<nat>)

  const MIN_OUTPUT := 64
  const DEFAULT_WINDOW := 199_999
  const DEFAULT_BUFFER := 2_048

  function DefaultMaxOutput(role: string): nat {
    if role == "classifier" then 2048
    else if role in {"misc", "planner", "executor", "tester", "reviewer", "communicator"} then 64000
    else 16000
  }

  function Positive(n: nat): Option<nat> {
    if n == 0 then None else Some(n)
  }

  /** `claude_max_output_tokens`. */
  function MaxOutputTokens(cfg: Config, role: string): Option<nat> {
    match cfg.maxOutput
    case Unset => Some(DefaultMaxOutput(role))
    case Flat(n) => Positive(n)
    case PerRole(roles) =>
      if role in roles then Positive(roles[role])
      else if "default" in roles then Positive(roles["default"])
      else Some(DefaultMaxOutput(role))
  }

  function Window(cfg: Config): Option<nat> {
    if cfg.window.None? then Some(DEFAULT_WINDOW) else Positive(cfg.window.value)
  }

  function Buffer(cfg: Config): nat {
    if cfg.buffer.None? then DEFAULT_BUFFER else cfg.buffer.value
  }

  /** The output budget sent for a prompt of `estimate` tokens: no budget at all, or the configured
      one lowered to what the window leaves; an error when that is less than 64. */
  function SentBudget(cfg: Config, role: string, estimate: nat): Result<Option<nat>, int> {
    var configured, window := MaxOutputTokens(cfg, role), Window(cfg);
    if configured.None? || window.None? then Ok(configured)
    else
      var available := window.value - Buffer(cfg) - estimate;
      if available < MIN_OUTPUT then Err(available)
      else Ok(Some(if available >= configured.value then configured.value else available))
  }

  /** `config_with_role_max_output_override`. */
  function Override(cfg: Config, role: string, n: nat): Config {
    cfg.(maxOutput := if cfg.maxOutput.PerRole? then PerRole(cfg.maxOutput.roles[role := n]) else Flat(n))
  }

  /** What the texts of a failed attempt say: nothing about size, or a size failure with the input
      and output tokens they name. */
  datatype SizeReport = NoSizeFailure | TooLarge(input: Option<nat>, requested: Option<nat>)

  /** `request_size_retry_max_output_tokens`. */
  function NextBudget(cfg: Config, report: SizeReport): Option<nat> {
    var window := Window(cfg);
    if report.NoSizeFailure? || report.input.None? || report.requested.None? || window.None? then None
    else
      var next := window.value - report.input.value;
      if next >= report.requested.value || next < MIN_OUTPUT then None else Some(next)
  }

  /** Reading the budget of a role back after an override gives the override. With a number per role
      the other roles keep theirs, except that an override of `default` reaches the roles without a
      number of their own; with one number, or none, the override reaches every role. */
  lemma OverrideReadsBack(cfg: Config, role: string, n: nat, other: string)
    requires n > 0
    ensures MaxOutputTokens(Override(cfg, role, n), role) == Some(n)
    ensures cfg.maxOutput.PerRole? && other != role ==>
      MaxOutputTokens(Override(cfg, role, n), other) ==
      if role == "default" && other !in cfg.maxOutput.roles then Some(n) else MaxOutputTokens(cfg, other)
    ensures !cfg.maxOutput.PerRole? ==> MaxOutputTokens(Override(cfg, role, n), other) == Some(n)
    ensures Window(Override(cfg, role, n)) == Window(cfg) && Buffer(Override(cfg, role, n)) == Buffer(cfg)
  {
  }

  // ---------------------------------------------------------------- run statuses

  datatype Status = Running | Completed | Failed | OutputInvalid | Timeout

  /** `AGENT_RUN_TRANSITIONS`. */
  function Targets(from: Status): set<Status> {
    match from
    case Running => {Running, Completed, Failed, OutputInvalid, Timeout}
    case Completed => {Completed}
    case Failed => {Failed}
    case OutputInvalid => {OutputInvalid}
    case Timeout => {Timeout}
  }

  /** The status of a run after some writes; a refused write leaves it as it was. */
  function StatusAfter(writes: seq<Status>): Status
    decreases |writes|
  {
    if writes == [] then Running else
    var before, target := StatusAfter(writes[..|writes| - 1]), writes[|writes| - 1];
    if target in Targets(before) then target else before
  }

  // ---------------------------------------------------------------- one attempt

  datatype Answer = Accepted | Rejected(outputInvalid: bool) | Raised

  /** Whether the bookkeeping after the run's status is written raises: the health record, the trace,
      the progress callback. The report is what the handler then finds in the texts. */
  datatype Effect = Quiet | Raises(size: SizeReport)

  /** What the outside world does during one attempt. */
  datatype World = World(
    cancelledBefore: bool,  // the phase timed out before the attempt
    allowed: bool,          // the backend's circuit lets it through
    setupRaises: bool,      // preparing the workspace, the context or the prompt raises
    estimate: nat,          // estimated tokens of its prompt
    answer: Answer,         // how the adapter and the validation end
    cancelledDuring: bool,  // the phase timed out before the answer is looked at
    size: SizeReport,       // what the failure texts say
    after: Effect,          // the bookkeeping after the answer's status is written
    cancelledLate: bool,    // the phase timed out after that, before the handler looks
    handlerRaises: bool,    // the bookkeeping of the handler itself raises
    allowedAfter: bool)     // the circuit still lets calls through after the failure is recorded

  /** How an attempt ends: accepted, to be repeated with a lower budget, to be repeated, given up, or
      with an exception that leaves the call. */
  datatype End = Accept | Downgrade(n: nat) | Repeat | GiveUp | Escape

  /** An attempt that ran: the override it ran under, the budget it sent, the statuses it asked the
      repository to write for its run, and its end. */
  datatype Attempt = Attempt(override: Option<nat>, sent: Result<Option<nat>, int>, writes: seq<Status>, end: End)

  function ConfigFor(cfg: Config, role: string, override: Option<nat>): Config {
    if override.Some? then Override(cfg, role, override.value) else cfg
  }

  /** A prompt without room for an answer is not sent; the adapter then reports a failed run. */
  function AnswerOf(sent: Result<Option<nat>, int>, w: World): Answer {
    if sent.Err? && w.answer != Raised then Rejected(false) else w.answer
  }

  /** The adapter came back, in time, and its answer was written as a status. */
  predicate Answered(sent: Result<Option<nat>, int>, w: World) {
    !AnswerOf(sent, w).Raised? && !w.cancelledDuring
  }

  /** The statuses written before any exception is handled. */
  function FirstWrite(sent: Result<Option<nat>, int>, w: World): seq<Status> {
    match AnswerOf(sent, w)
    case Raised => []
    case Accepted => [if w.cancelledDuring then Timeout else Completed]
    case Rejected(outputInvalid) =>
      [if w.cancelledDuring then Timeout else if outputInvalid && !w.size.TooLarge? then OutputInvalid else Failed]
  }

  /** What the handler writes. */
  function HandlerStatus(w: World): Status {
    if w.cancelledDuring || w.cancelledLate then Timeout else Failed
  }

  /** The report from which the end of a failed attempt is decided. */
  function ReportOf(sent: Result<Option<nat>, int>, w: World): SizeReport {
    if Answered(sent, w) && w.after.Raises? then w.after.size else w.size
  }

  /** How a failed attempt ends; the last one is never repeated with a lower budget. */
  function FailureEnd(cfg: Config, report: SizeReport, allowedAfter: bool, last: bool): (end: End)
    ensures end.Downgrade? || end.GiveUp? || end.Repeat?
    ensures end.Downgrade? ==> !last
  {
    var next := if last then None else NextBudget(cfg, report);
    if next.Some? then Downgrade(next.value)
    else if !allowedAfter || report.TooLarge? then GiveUp
    else Repeat
  }

  function AttemptWith(cfg: Config, role: string, override: Option<nat>, w: World, last: bool): Attempt {
    var config := ConfigFor(cfg, role, override);
    var sent := SentBudget(config, role, w.estimate);
    var first, end := FirstWrite(sent, w), FailureEnd(config, ReportOf(sent, w), w.allowedAfter, last);
    if Answered(sent, w) && w.after.Quiet? then
      Attempt(override, sent, first, if AnswerOf(sent, w).Accepted? then Accept else end)
    else
      var refused := HandlerStatus(w) !in Targets(StatusAfter(first));
      Attempt(override, sent, first + [HandlerStatus(w)], if refused || w.handlerRaises then Escape else end)
  }

  /** One turn of the loop from the adapter's call on: the body of the `try`, and its handler. */
  method RunAttempt(cfg: Config, role: string, override: Option<nat>, w: World, last: bool) returns (a: Attempt)
    ensures a == AttemptWith(cfg, role, override, w, last)
  {
    hide SentBudget, NextBudget, MaxOutputTokens;
    var config := ConfigFor(cfg, role, override);
    var sent := SentBudget(config, role, w.estimate);
    var answer := if sent.Err? && w.answer != Raised then Rejected(false) else w.answer;
    var status, writes, report, raised := Running, [], w.size, answer.Raised?;
    if !raised && w.cancelledDuring {
      writes, status, raised := [Timeout], Timeout, true;
    }
    if !raised {
      status := if answer.Accepted? then Completed
                else if answer.outputInvalid && !w.size.TooLarge? then OutputInvalid else Failed;
      writes := [status];
      if w.after.Quiet? {
        return Attempt(override, sent, writes,
          if answer.Accepted? then Accept else FailureEnd(config, report, w.allowedAfter, last));
      }
      report := w.after.size;
    }
    var failure := if w.cancelledDuring || w.cancelledLate then Timeout else Failed;
    OneWrite(status);
    assert writes == FirstWrite(sent, w) && status == StatusAfter(writes);
    writes := writes + [failure];
    if failure !in Targets(status) || w.handlerRaises {
      return Attempt(override, sent, writes, Escape);
    }
    a := Attempt(override, sent, writes, FailureEnd(config, report, w.allowedAfter, last));
  }

  lemma OneWrite(status: Status)
    ensures StatusAfter([]) == Running && StatusAfter([status]) == status
  {
    assert [status][..0] == [];
  }

  // ---------------------------------------------------------------- the loop

  datatype Verdict = Result(attempts: nat) | Cancelled | CircuitOpen | NonRetryable | Escaped | Exhausted | NoAttempt

  function OverrideAfter(override: Option<nat>, a: Attempt): Option<nat> {
    if a.end.Downgrade? then Some(a.end.n) else override
  }

  /** The attempts from number `k` on, and how the call ends. */
  function AttemptsFrom(cfg: Config, role: string, maxRetry: int, world: nat -> World, k: nat, override: Option<nat>)
    : (seq<Attempt>, Verdict)
    decreases maxRetry + 1 - k
  {
    if k > maxRetry then ([], if k == 0 then NoAttempt else Exhausted)
    else if world(k).cancelledBefore then ([], Cancelled)
    else if !world(k).allowed then ([], CircuitOpen)
    else if world(k).setupRaises then ([], Escaped)
    else
      var a := AttemptWith(cfg, role, override, world(k), k == maxRetry);
      if a.end.Accept? then ([a], Result(k + 1))
      else if a.end.GiveUp? then ([a], NonRetryable)
      else if a.end.Escape? then ([a], Escaped)
      else
        var (rest, verdict) := AttemptsFrom(cfg, role, maxRetry, world, k + 1, OverrideAfter(override, a));
        ([a] + rest, verdict)
  }

  /** One turn of the loop. */
  lemma AttemptsStep(cfg: Config, role: string, maxRetry: int, world: nat -> World, k: nat, override: Option<nat>)
    requires k <= maxRetry
    ensures var (log, verdict) := AttemptsFrom(cfg, role, maxRetry, world, k, override);
      var a := AttemptWith(cfg, role, override, world(k), k == maxRetry);
      if world(k).cancelledBefore then log == [] && verdict == Cancelled
      else if !world(k).allowed then log == [] && verdict == CircuitOpen
      else if world(k).setupRaises then log == [] && verdict == Escaped
      else if a.end.Accept? then log == [a] && verdict == Result(k + 1)
      else if a.end.GiveUp? then log == [a] && verdict == NonRetryable
      else if a.end.Escape? then log == [a] && verdict == Escaped
      else log == [a] + AttemptsFrom(cfg, role, maxRetry, world, k + 1, OverrideAfter(override, a)).0
           && verdict == AttemptsFrom(cfg, role, maxRetry, world, k + 1, OverrideAfter(override, a)).1
  {
    hide AttemptWith;
  }

  /** `run_agent_with_retry`. */
  method RunAgentWithRetry(cfg: Config, role: string, maxRetry: int, world: nat -> World)
    returns (log: seq<Attempt>, verdict: Verdict)
    ensures (log, verdict) == AttemptsFrom(cfg, role, maxRetry, world, 0, None)
  {
    hide AttemptsFrom, AttemptWith;
    log := [];
    var downgraded: Option<nat> := None;
    var attempt: nat := 0;
    ghost var all := AttemptsFrom(cfg, role, maxRetry, world, 0, None);
    ghost var rest := all.0;
    assert log + rest == all.0;
    while attempt <= maxRetry
      invariant attempt == 0 || attempt <= maxRetry + 1
      invariant AttemptsFrom(cfg, role, maxRetry, world, attempt, downgraded) == (rest, all.1)
      invariant log + rest == all.0
    {
      AttemptsStep(cfg, role, maxRetry, world, attempt, downgraded);
      assert rest == [] ==> log + rest == log;
      var w := world(attempt);
      if w.cancelledBefore {
        return log, Cancelled;
      }
      if !w.allowed {
        return log, CircuitOpen;
      }
      if w.setupRaises {
        return log, Escaped;
      }
      var a := RunAttempt(cfg, role, downgraded, w, attempt == maxRetry);
      log := log + [a];
      if a.end.Accept? {
        return log, Result(attempt + 1);
      }
      if a.end.GiveUp? {
        return log, NonRetryable;
      }
      if a.end.Escape? {
        return log, Escaped;
      }
      rest := rest[1..];
      if a.end.Downgrade? {
        downgraded := Some(a.end.n);
      }
      attempt := attempt + 1;
    }
    NoMoreAttempts(cfg, role, maxRetry, world, attempt, downgraded);
    assert log + rest == log;
    verdict := if attempt == 0 then NoAttempt else Exhausted;
  }

  lemma NoMoreAttempts(cfg: Config, role: string, maxRetry: int, world: nat -> World, k: nat, override: Option<nat>)
    requires k > maxRetry
    ensures AttemptsFrom(cfg, role, maxRetry, world, k, override) == ([], if k == 0 then NoAttempt else Exhausted)
  {
  }
}
