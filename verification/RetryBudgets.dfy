/** What the attempt loop guarantees about its attempts and the budgets they send. */
module RetryBudgets {
  import opened Text
  import opened Retry

  function LogOf(cfg: Config, role: string, maxRetry: int, world: nat -> World, k: nat,
                 override: Option<nat>): seq<Attempt> {
    AttemptsFrom(cfg, role, maxRetry, world, k, override).0
  }

  predicate Continues(a: Attempt) { a.end.Repeat? || a.end.Downgrade? }

  /** At most `maxRetry + 1` attempts run, each but the last to be repeated, and the verdict says
      how the last one ended; the last attempt that is allowed never asks for a lower budget. An
      exception leaves the call from an attempt or while one is set up. */
  lemma {:induction false} AttemptsAreBounded(cfg: Config, role: string, maxRetry: int, world: nat -> World, k: nat,
                                              override: Option<nat>)
    requires k == 0 || k <= maxRetry + 1
    ensures var (log, verdict) := AttemptsFrom(cfg, role, maxRetry, world, k, override);
      && k + |log| <= (if maxRetry < 0 then 0 else maxRetry + 1)
      && (forall i :: 0 <= i < |log| - 1 ==> Continues(log[i]))
      && (verdict.Result? <==> log != [] && log[|log| - 1].end.Accept?)
      && (verdict.Result? ==> verdict.attempts == k + |log|)
      && (verdict.NonRetryable? <==> log != [] && log[|log| - 1].end.GiveUp?)
      && (verdict.NoAttempt? <==> k == 0 && maxRetry < 0)
      && (verdict.Exhausted? ==> k + |log| == maxRetry + 1 && (log != [] ==> log[|log| - 1].end.Repeat?))
      && (verdict.Cancelled? || verdict.CircuitOpen? ==> k + |log| <= maxRetry)
      && (log != [] && log[|log| - 1].end.Escape? ==> verdict.Escaped?)
      && (verdict.Escaped? ==> (log != [] && log[|log| - 1].end.Escape?)
                               || (k + |log| <= maxRetry && world(k + |log|).setupRaises))
    decreases maxRetry + 1 - k
  {
    hide AttemptsFrom, AttemptWith;
    if k > maxRetry {
      NoMoreAttempts(cfg, role, maxRetry, world, k, override);
    } else {
      AttemptsStep(cfg, role, maxRetry, world, k, override);
      DowngradeFits(cfg, role, override, world(k), k == maxRetry);
      var a := AttemptWith(cfg, role, override, world(k), k == maxRetry);
      if Continues(a) {
        AttemptsAreBounded(cfg, role, maxRetry, world, k + 1, OverrideAfter(override, a));
      }
    }
  }

  /** The backend's size failures name the budget that was sent. */
  predicate Honest(world: nat -> World, k: nat, log: seq<Attempt>) {
    forall i :: 0 <= i < |log| ==>
      var report := ReportOf(log[i].sent, world(k + i));
      report.TooLarge? && report.requested.Some? ==> log[i].sent == Ok(report.requested)
  }

  /** A lowered budget: with the reported input it fills the window exactly, it is at least 64 and
      below the budget named as requested. */
  lemma DowngradeFits(cfg: Config, role: string, override: Option<nat>, w: World, last: bool)
    ensures var a := AttemptWith(cfg, role, override, w, last); var report := ReportOf(a.sent, w);
      a.end.Downgrade? ==>
        && !last && report.TooLarge? && report.input.Some? && report.requested.Some? && Window(cfg).Some?
        && report.input.value + a.end.n == Window(cfg).value
        && MIN_OUTPUT <= a.end.n < report.requested.value
  {
    hide SentBudget, MaxOutputTokens, FirstWrite, Answered, ReportOf, Targets, StatusAfter;
  }

  /** What an attempt sends: nothing at all if the role has no limit; its limit if the window is not limited;
      else the most that its limit and the window, beside the estimate and the buffer, leave room for. It
      is an error iff the window leaves room for fewer than 64 tokens. */
  lemma SentMeans(cfg: Config, role: string, estimate: nat)
    ensures var sent, limit, window := SentBudget(cfg, role, estimate), MaxOutputTokens(cfg, role), Window(cfg);
      && (sent == Ok(None) <==> limit == None)
      && (limit.Some? && window.None? ==> sent == Ok(limit))
      && (sent.Err? <==> limit.Some? && window.Some? && window.value < estimate + Buffer(cfg) + 64)
      && (limit.Some? && window.Some? && sent.Ok? ==>
            && sent.value.Some? && sent.value.value <= limit.value
            && sent.value.value + estimate + Buffer(cfg) <= window.value
            && (sent.value == limit || sent.value.value + estimate + Buffer(cfg) == window.value))
  {
  }

  /** Without settings the classifier sends 2048 tokens, the agents 64000 and any other role 16000, as long
      as that many fit beside the prompt in the window of 199999 with its buffer of 2048; else what fits. */
  lemma DefaultsSend(role: string, estimate: nat)
    ensures var sent := SentBudget(Config(Unset, None, None), role, estimate);
      var wanted := if role == "classifier" then 2_048
                    else if role in {"misc", "planner", "executor", "tester", "reviewer", "communicator"} then 64_000
                    else 16_000;
      && (sent == Ok(Some(wanted)) <==> estimate + wanted <= 197_951)
      && (sent.Err? <==> estimate > 197_887)
      && (sent.Ok? && estimate + wanted > 197_951 ==> sent.value == Some(197_951 - estimate))
  {
  }

  /** Under an override an attempt sends at most the override and at least 64, and its own estimate
      fits the window with the buffer. */
  lemma OverrideBoundsSent(cfg: Config, role: string, n: nat, w: World, last: bool)
    requires n >= MIN_OUTPUT && Window(cfg).Some?
    ensures var a := AttemptWith(cfg, role, Some(n), w, last);
      a.sent.Ok? ==> a.sent.value.Some? && MIN_OUTPUT <= a.sent.value.value <= n
                     && w.estimate + Buffer(cfg) + a.sent.value.value <= Window(cfg).value
  {
    hide NextBudget, FirstWrite, Answered, ReportOf, Targets, StatusAfter;
    OverrideReadsBack(cfg, role, n, role);
  }

  lemma LogStep(cfg: Config, role: string, maxRetry: int, world: nat -> World, k: nat, override: Option<nat>)
    requires LogOf(cfg, role, maxRetry, world, k, override) != []
    ensures var log := LogOf(cfg, role, maxRetry, world, k, override);
      && log[0] == AttemptWith(cfg, role, override, world(k), k == maxRetry)
      && (|log| > 1 ==> log[1..] == LogOf(cfg, role, maxRetry, world, k + 1, OverrideAfter(override, log[0])))
  {
    hide AttemptWith;
  }

  lemma OverrideKept(cfg: Config, role: string, override: Option<nat>, w: World, last: bool)
    ensures AttemptWith(cfg, role, override, w, last).override == override
  {
    hide SentBudget, NextBudget, FirstWrite, Answered, ReportOf, Targets, StatusAfter;
  }

  /** Once lowered, the override never rises again, and what is sent stays within it. */
  lemma {:induction false} OverridesFall(cfg: Config, role: string, maxRetry: int, world: nat -> World, k: nat,
                                         n: nat, i: nat)
    requires n >= MIN_OUTPUT && Window(cfg).Some? && i < |LogOf(cfg, role, maxRetry, world, k, Some(n))|
    requires Honest(world, k, LogOf(cfg, role, maxRetry, world, k, Some(n)))
    ensures var a := LogOf(cfg, role, maxRetry, world, k, Some(n))[i];
      && a.override.Some? && MIN_OUTPUT <= a.override.value <= n
      && (a.sent.Ok? ==> a.sent.value.Some? && MIN_OUTPUT <= a.sent.value.value <= a.override.value)
    decreases i
  {
    hide AttemptsFrom, AttemptWith, ReportOf;
    var log := LogOf(cfg, role, maxRetry, world, k, Some(n));
    var a := log[0];
    LogStep(cfg, role, maxRetry, world, k, Some(n));
    OverrideBoundsSent(cfg, role, n, world(k), k == maxRetry);
    DowngradeFits(cfg, role, Some(n), world(k), k == maxRetry);
    OverrideKept(cfg, role, Some(n), world(k), k == maxRetry);
    if i > 0 {
      var m := if a.end.Downgrade? then a.end.n else n;
      RestIsHonest(world, k, log);
      assert world(k + 0) == world(k);
      OverridesFall(cfg, role, maxRetry, world, k + 1, m, i - 1);
    }
  }

  lemma RestIsHonest(world: nat -> World, k: nat, log: seq<Attempt>)
    requires log != [] && Honest(world, k, log)
    ensures Honest(world, k + 1, log[1..])
  {
    forall i | 0 <= i < |log| - 1 ensures log[1..][i] == log[i + 1] && world(k + 1 + i) == world(k + (i + 1)) {}
  }

  /** A downgrade lowers what is sent for good: every later attempt sends strictly less than the one
      that was too large, at least 64, and the next one fits the window with the reported input. */
  lemma {:induction false} BudgetsStrictlyDecrease(cfg: Config, role: string, maxRetry: int, world: nat -> World,
                                                   k: nat, override: Option<nat>, i: nat, j: nat)
    requires Honest(world, k, LogOf(cfg, role, maxRetry, world, k, override))
    requires i < j < |LogOf(cfg, role, maxRetry, world, k, override)|
    requires LogOf(cfg, role, maxRetry, world, k, override)[i].end.Downgrade?
    ensures var log := LogOf(cfg, role, maxRetry, world, k, override);
      var a, b, report := log[i], log[j], ReportOf(log[i].sent, world(k + i));
      && a.sent.Ok? && a.sent.value.Some?
      && b.override.Some? && MIN_OUTPUT <= b.override.value <= a.end.n < a.sent.value.value
      && (b.sent.Ok? ==> b.sent.value.Some? && MIN_OUTPUT <= b.sent.value.value < a.sent.value.value
                         && report.TooLarge? && report.input.Some? && Window(cfg).Some?
                         && report.input.value + b.sent.value.value <= Window(cfg).value)
    decreases i
  {
    hide AttemptsFrom, AttemptWith, Window, ReportOf;
    var log := LogOf(cfg, role, maxRetry, world, k, override);
    var a := log[0];
    LogStep(cfg, role, maxRetry, world, k, override);
    RestIsHonest(world, k, log);
    if i > 0 {
      BudgetsStrictlyDecrease(cfg, role, maxRetry, world, k + 1, OverrideAfter(override, a), i - 1, j - 1);
      assert world(k + i) == world(k + 1 + (i - 1));
    } else {
      DowngradeFits(cfg, role, override, world(k), k == maxRetry);
      assert world(k + 0) == world(k);
      OverridesFall(cfg, role, maxRetry, world, k + 1, a.end.n, j - 1);
    }
  }

  /** Without trust in the report: an attempt after a downgrade sends less than the one that was too
      large iff the input reported leaves less than that in the window, or the new prompt is so long
      that its own estimate does. */
  lemma DowngradeLowersIff(cfg: Config, role: string, override: Option<nat>, w: World, last: bool,
                           next: World, nextIsLast: bool)
    requires var a := AttemptWith(cfg, role, override, w, last); a.end.Downgrade? && a.sent.Ok? && a.sent.value.Some?
    requires AttemptWith(cfg, role, Some(AttemptWith(cfg, role, override, w, last).end.n), next, nextIsLast).sent.Ok?
    ensures var a := AttemptWith(cfg, role, override, w, last); var report := ReportOf(a.sent, w);
      var b := AttemptWith(cfg, role, Some(a.end.n), next, nextIsLast);
      && report.TooLarge? && report.input.Some? && Window(cfg).Some? && b.sent.value.Some?
      && (b.sent.value.value < a.sent.value.value <==>
          report.input.value > Window(cfg).value - a.sent.value.value
          || next.estimate > Window(cfg).value - Buffer(cfg) - a.sent.value.value)
  {
    hide NextBudget, FirstWrite, Answered, ReportOf, Targets, StatusAfter, FailureEnd;
    DowngradeFits(cfg, role, override, w, last);
    OverrideReadsBack(cfg, role, AttemptWith(cfg, role, override, w, last).end.n, role);
  }

  /** The same for two consecutive attempts of any call. */
  lemma {:induction false} NextSendsLessIff(cfg: Config, role: string, maxRetry: int, world: nat -> World, k: nat,
                                            override: Option<nat>, i: nat)
    requires i + 1 < |LogOf(cfg, role, maxRetry, world, k, override)|
    requires var log := LogOf(cfg, role, maxRetry, world, k, override);
      log[i].end.Downgrade? && log[i].sent.Ok? && log[i].sent.value.Some? && log[i + 1].sent.Ok?
    ensures var log := LogOf(cfg, role, maxRetry, world, k, override);
      var a, b, report := log[i], log[i + 1], ReportOf(log[i].sent, world(k + i));
      && report.TooLarge? && report.input.Some? && Window(cfg).Some? && b.sent.value.Some?
      && (b.sent.value.value < a.sent.value.value <==>
          report.input.value > Window(cfg).value - a.sent.value.value
          || world(k + i + 1).estimate > Window(cfg).value - Buffer(cfg) - a.sent.value.value)
    decreases i
  {
    hide AttemptsFrom, AttemptWith, Window, ReportOf, Buffer;
    var log := LogOf(cfg, role, maxRetry, world, k, override);
    LogStep(cfg, role, maxRetry, world, k, override);
    var after := OverrideAfter(override, log[0]);
    if i > 0 {
      NextSendsLessIff(cfg, role, maxRetry, world, k + 1, after, i - 1);
      assert world(k + i) == world(k + 1 + (i - 1)) && world(k + i + 1) == world(k + 1 + (i - 1) + 1);
    } else {
      LogStep(cfg, role, maxRetry, world, k + 1, after);
      assert world(k + 0) == world(k) && world(k + 0 + 1) == world(k + 1);
      assert log[1] == log[1..][0];
      DowngradeLowersIff(cfg, role, override, world(k), k == maxRetry, world(k + 1), k + 1 == maxRetry);
    }
  }

  /** A report that names more than was sent, and what is sent after it: 500 tokens where 100 were too
      many. */
  lemma OverstatedReport()
    ensures var cfg := Config(Flat(100), Some(1000), Some(0));
      var size := TooLarge(Some(500), Some(900));
      var w := World(false, true, false, 10, Rejected(false), false, size, Quiet, false, false, true);
      var a := AttemptWith(cfg, "tester", None, w, false);
      var b := AttemptWith(cfg, "tester", Some(500), w, false);
      && a.sent == Ok(Some(100)) && a.end == Downgrade(500)
      && OverrideAfter(None, a) == Some(500) && b.sent == Ok(Some(500))
  {
  }

  // ---------------------------------------------------------------- run statuses

  /** No write is one that the transition table refuses. */
  predicate Legal(writes: seq<Status>) {
    forall i :: 0 <= i < |writes| ==> writes[i] in Targets(StatusAfter(writes[..i]))
  }

  /** The bookkeeping raises after the answer's status was written, and that status is not the one the
      handler will write: COMPLETED, OUTPUT_INVALID, or any status of a phase that has timed out since. */
  predicate Clashes(sent: Result<Option<nat>, int>, w: World) {
    && Answered(sent, w) && w.after.Raises?
    && (AnswerOf(sent, w).Accepted? || (AnswerOf(sent, w).outputInvalid && !w.size.TooLarge?) || w.cancelledLate)
  }

  lemma TwoWrites(first: Status, second: Status)
    ensures StatusAfter([]) == Running && StatusAfter([first]) == first
    ensures StatusAfter([first, second]) == if second in Targets(first) then second else first
    ensures Legal([first]) && (Legal([first, second]) <==> second in Targets(first))
    ensures [] + [second] == [second] && [first] + [second] == [first, second]
  {
    assert [first][..0] == [] && [first, second][..1] == [first] && [first, second][..0] == [];
  }

  /** The statuses written for a run are legal iff no bookkeeping raises after a status that clashes
      with the handler's; a clash makes the exception leave the call. */
  lemma StatusesAreLegalIff(cfg: Config, role: string, override: Option<nat>, w: World, last: bool)
    ensures var a := AttemptWith(cfg, role, override, w, last);
      && a.writes != []
      && (Legal(a.writes) <==> !Clashes(a.sent, w))
      && (Clashes(a.sent, w) ==> a.end.Escape?)
      && (a.end.Escape? ==> Clashes(a.sent, w) || w.handlerRaises)
  {
    hide SentBudget, NextBudget, Legal, StatusAfter, FailureEnd;
    var sent := SentBudget(ConfigFor(cfg, role, override), role, w.estimate);
    var first := FirstWrite(sent, w);
    if first == [] {
      TwoWrites(HandlerStatus(w), HandlerStatus(w));
    } else {
      assert first == [first[0]];
      TwoWrites(first[0], HandlerStatus(w));
    }
  }

  /** A run ends COMPLETED iff its answer was accepted in time; then the attempt is accepted, unless the
      bookkeeping raises, and then the run stays COMPLETED although the call has no result. */
  lemma CompletedMeans(cfg: Config, role: string, override: Option<nat>, w: World, last: bool)
    ensures var a := AttemptWith(cfg, role, override, w, last);
      && (StatusAfter(a.writes) == Completed <==> Answered(a.sent, w) && AnswerOf(a.sent, w).Accepted?)
      && (a.end.Accept? <==> StatusAfter(a.writes) == Completed && w.after.Quiet?)
      && (StatusAfter(a.writes) == Completed && !a.end.Accept? ==> a.end.Escape? && Clashes(a.sent, w))
  {
    hide SentBudget, NextBudget, StatusAfter, FailureEnd, Legal;
    var sent := SentBudget(ConfigFor(cfg, role, override), role, w.estimate);
    var first := FirstWrite(sent, w);
    if first == [] {
      TwoWrites(HandlerStatus(w), HandlerStatus(w));
    } else {
      assert first == [first[0]];
      TwoWrites(first[0], HandlerStatus(w));
    }
  }

  /** Over a whole call: every attempt but the last writes legally and does not end COMPLETED; the last
      one does iff the call has a result or lost one to a clash. */
  lemma {:induction false} CallStatuses(cfg: Config, role: string, maxRetry: int, world: nat -> World, k: nat,
                                        override: Option<nat>)
    requires k == 0 || k <= maxRetry + 1
    ensures var (log, verdict) := AttemptsFrom(cfg, role, maxRetry, world, k, override); var n := |log| - 1;
      && (log == [] ==> !verdict.Result?)
      && (forall i :: 0 <= i < n ==> Legal(log[i].writes) && StatusAfter(log[i].writes) != Completed)
      && (log != [] ==>
            && (Legal(log[n].writes) <==> !Clashes(log[n].sent, world(k + n)))
            && (Clashes(log[n].sent, world(k + n)) ==> verdict.Escaped?)
            && (verdict.Result? <==> StatusAfter(log[n].writes) == Completed && !Clashes(log[n].sent, world(k + n))))
    decreases maxRetry + 1 - k
  {
    hide AttemptWith, Legal, StatusAfter, Clashes, AttemptsFrom;
    if k > maxRetry {
      NoMoreAttempts(cfg, role, maxRetry, world, k, override);
    } else {
      AttemptsStep(cfg, role, maxRetry, world, k, override);
      var w, last := world(k), k == maxRetry;
      var a := AttemptWith(cfg, role, override, w, last);
      StatusesAreLegalIff(cfg, role, override, w, last);
      CompletedMeans(cfg, role, override, w, last);
      AcceptIsNoClash(cfg, role, override, w, last);
      assert world(k + 0) == world(k);
      if Continues(a) {
        var after := OverrideAfter(override, a);
        CallStatuses(cfg, role, maxRetry, world, k + 1, after);
        var rest := LogOf(cfg, role, maxRetry, world, k + 1, after);
        if rest != [] {
          assert world(k + 1 + (|rest| - 1)) == world(k + |rest|);
        }
      }
    }
  }

  lemma AcceptIsNoClash(cfg: Config, role: string, override: Option<nat>, w: World, last: bool)
    ensures AttemptWith(cfg, role, override, w, last).end.Accept? ==>
      !Clashes(AttemptWith(cfg, role, override, w, last).sent, w)
  {
    hide SentBudget, NextBudget, FirstWrite, Targets, StatusAfter;
  }

  /** A progress callback that raises after an accepted result: COMPLETED is written, FAILED is refused,
      and the call ends in an exception instead of the result. */
  lemma RaisingAfterCompleted()
    ensures var w :=
      World(false, true, false, 10, Accepted, false, NoSizeFailure, Raises(NoSizeFailure), false, false, true);
      var a := AttemptWith(Config(Unset, None, None), "tester", None, w, false);
      && a.writes == [Completed, Failed] && !Legal(a.writes) && StatusAfter(a.writes) == Completed && a.end == Escape
  {
    TwoWrites(Completed, Failed);
  }
}
