/** When an attempt is repeated, lowered or given up, read off what the outside world answered, and what
    that makes of a whole call. */
module RetryRepeats {
  import opened Text
  import opened Retry
  import opened RetryBudgets

  // ---------------------------------------------------------------- how one attempt ends

  /** The run came back accepted and in time, a budget was there to send, and no bookkeeping raised. */
  predicate Succeeds(sent: Result<Option<nat>, int>, w: World) {
    sent.Ok? && w.answer == Accepted && !w.cancelledDuring && w.after == Quiet
  }

  /** The adapter or its setup raised, the phase timed out, or the bookkeeping raised: the handler runs. */
  predicate HandlerRuns(w: World) {
    w.answer == Raised || w.cancelledDuring || w.after != Quiet
  }

  /** The status written before the handler runs, if any: the one it cannot overwrite. */
  predicate StatusStands(sent: Result<Option<nat>, int>, w: World) {
    && w.answer != Raised && !w.cancelledDuring
    && (|| (sent.Ok? && w.answer == Accepted)
        || (sent.Ok? && w.answer == Rejected(true) && w.size.NoSizeFailure?)
        || w.cancelledLate)
  }

  /** The exception leaves the call: from the handler's own bookkeeping, or because the status it writes
      is refused. */
  predicate Leaves(sent: Result<Option<nat>, int>, w: World) {
    HandlerRuns(w) && (w.handlerRaises || StatusStands(sent, w))
  }

  /** What the failure texts say about the size of the request. */
  function SizeSaid(w: World): SizeReport {
    if w.answer != Raised && !w.cancelledDuring && w.after != Quiet then w.after.size else w.size
  }

  /** The report names input and request, and the window has at least 64 tokens left beside the input, but
      fewer than were requested: `n`. */
  predicate Lowers(cfg: Config, size: SizeReport, n: nat) {
    && size.TooLarge? && size.input.Some? && size.requested.Some? && Window(cfg).Some?
    && size.input.value + n == Window(cfg).value && 64 <= n < size.requested.value
  }

  lemma AnswersMean(sent: Result<Option<nat>, int>, w: World)
    ensures Answered(sent, w) <==> w.answer != Raised && !w.cancelledDuring
    ensures Answered(sent, w) && AnswerOf(sent, w).Accepted? && w.after.Quiet? <==> Succeeds(sent, w)
    ensures ReportOf(sent, w) == SizeSaid(w)
    ensures Answered(sent, w) && w.after.Quiet? <==> !HandlerRuns(w)
  {
  }

  lemma RefusedMeans(sent: Result<Option<nat>, int>, w: World)
    requires HandlerRuns(w)
    ensures HandlerStatus(w) !in Targets(StatusAfter(FirstWrite(sent, w))) <==> StatusStands(sent, w)
  {
    hide StatusAfter;
    OneWrite(Completed);
    OneWrite(Failed);
    OneWrite(OutputInvalid);
    OneWrite(Timeout);
  }

  lemma LowersMeans(cfg: Config, role: string, override: Option<nat>, size: SizeReport)
    ensures forall n: nat :: NextBudget(ConfigFor(cfg, role, override), size) == Some(n) <==> Lowers(cfg, size, n)
    ensures NextBudget(ConfigFor(cfg, role, override), size).Some? ==> size.TooLarge?
  {
  }

  /** How an attempt ends. It is accepted iff it succeeds, and an exception leaves the call iff one can.
      Any other attempt is lowered iff it is not the last and the report says by how much; else it is
      repeated iff the report is no size failure and the backend's circuit still lets calls through; else
      it is given up. */
  lemma EndMeans(cfg: Config, role: string, override: Option<nat>, w: World, last: bool)
    ensures var a := AttemptWith(cfg, role, override, w, last); var size := SizeSaid(w);
      && (a.end == Accept <==> Succeeds(a.sent, w))
      && (a.end == Escape <==> Leaves(a.sent, w))
      && (forall n: nat :: a.end == Downgrade(n) <==>
           !Succeeds(a.sent, w) && !Leaves(a.sent, w) && !last && Lowers(cfg, size, n))
      && (a.end == Repeat <==>
           !Succeeds(a.sent, w) && !Leaves(a.sent, w) && size.NoSizeFailure? && w.allowedAfter)
      && (a.end == GiveUp <==>
           && !Succeeds(a.sent, w) && !Leaves(a.sent, w)
           && (last || forall n: nat :: !Lowers(cfg, size, n))
           && (size.TooLarge? || !w.allowedAfter))
  {
    hide SentBudget, NextBudget, FirstWrite, Answered, AnswerOf, ReportOf, StatusStands, Targets, StatusAfter, Lowers,
         ConfigFor;
    var config := ConfigFor(cfg, role, override);
    var sent := SentBudget(config, role, w.estimate);
    AnswersMean(sent, w);
    if HandlerRuns(w) { RefusedMeans(sent, w); }
    LowersMeans(cfg, role, override, SizeSaid(w));
    var next := NextBudget(config, SizeSaid(w));
    assert next.Some? ==> Lowers(cfg, SizeSaid(w), next.value);
  }

  // ---------------------------------------------------------------- whole calls

  /** Nothing stops the call before the attempt. */
  predicate Starts(w: World) {
    !w.cancelledBefore && w.allowed && !w.setupRaises
  }

  /** An attempt that fails in the ordinary way: no exception leaves the call, the request was not too
      large, and the circuit stays closed. */
  predicate FailsOrdinarily(cfg: Config, role: string, w: World) {
    var sent := SentBudget(cfg, role, w.estimate);
    Starts(w) && !Succeeds(sent, w) && !Leaves(sent, w) && SizeSaid(w).NoSizeFailure? && w.allowedAfter
  }

  predicate SucceedsAtOnce(cfg: Config, role: string, w: World) {
    Starts(w) && Succeeds(SentBudget(cfg, role, w.estimate), w)
  }

  /** After ordinary failures from attempt `k` on up to attempt `j`, the call stands where it would stand if
      it began with attempt `j`. */
  lemma {:induction false} OrdinaryFailuresRepeat(cfg: Config, role: string, maxRetry: int, world: nat -> World, k: nat,
                                                  j: nat)
    requires k <= j <= maxRetry + 1
    requires forall i: nat :: k <= i < j ==> FailsOrdinarily(cfg, role, world(i))
    ensures var (log, verdict) := AttemptsFrom(cfg, role, maxRetry, world, k, None);
      var (rest, last) := AttemptsFrom(cfg, role, maxRetry, world, j, None);
      && |log| == j - k + |rest| && verdict == last && log[j - k..] == rest
      && forall i :: 0 <= i < j - k ==> log[i].end == Repeat
    decreases j - k
  {
    hide AttemptsFrom, AttemptWith;
    if k < j {
      AttemptsStep(cfg, role, maxRetry, world, k, None);
      RepeatsOrdinarily(cfg, role, world(k), k == maxRetry);
      hide SizeSaid, FailsOrdinarily;
      var a := AttemptWith(cfg, role, None, world(k), k == maxRetry);
      OrdinaryFailuresRepeat(cfg, role, maxRetry, world, k + 1, j);
      OneBefore(a, AttemptsFrom(cfg, role, maxRetry, world, k + 1, None).0, j - k - 1);
    } else {
      var log := AttemptsFrom(cfg, role, maxRetry, world, k, None).0;
      assert log[0..] == log;
    }
  }

  lemma OneBefore(a: Attempt, rest: seq<Attempt>, m: nat)
    requires a.end == Repeat && m <= |rest| && forall i :: 0 <= i < m ==> rest[i].end == Repeat
    ensures ([a] + rest)[m + 1..] == rest[m..]
    ensures forall i :: 0 <= i < m + 1 ==> ([a] + rest)[i].end == Repeat
  {
  }

  lemma RepeatsOrdinarily(cfg: Config, role: string, w: World, last: bool)
    requires FailsOrdinarily(cfg, role, w)
    ensures Starts(w) && AttemptWith(cfg, role, None, w, last).end == Repeat
  {
    hide AttemptWith, SentBudget;
    EndMeans(cfg, role, None, w, last);
    SentWithout(cfg, role, w, last);
  }

  lemma SentWithout(cfg: Config, role: string, w: World, last: bool)
    ensures AttemptWith(cfg, role, None, w, last).sent == SentBudget(cfg, role, w.estimate)
  {
    hide SentBudget, NextBudget, FirstWrite, Answered, ReportOf, Targets, StatusAfter;
  }

  /** If the attempts before number `j` fail in the ordinary way and number `j` succeeds, the call has its
      result, after `j + 1` attempts. */
  lemma RetriedUntilAccepted(cfg: Config, role: string, maxRetry: int, world: nat -> World, j: nat)
    requires j <= maxRetry && SucceedsAtOnce(cfg, role, world(j))
    requires forall i: nat :: i < j ==> FailsOrdinarily(cfg, role, world(i))
    ensures var (log, verdict) := AttemptsFrom(cfg, role, maxRetry, world, 0, None);
      |log| == j + 1 && verdict == Retry.Result(j + 1)
  {
    hide AttemptsFrom, AttemptWith;
    OrdinaryFailuresRepeat(cfg, role, maxRetry, world, 0, j);
    AttemptsStep(cfg, role, maxRetry, world, j, None);
    EndMeans(cfg, role, None, world(j), j == maxRetry);
    SentWithout(cfg, role, world(j), j == maxRetry);
  }

  /** If all of them do, exactly `maxRetry + 1` attempts run, and the call ends in that failure. */
  lemma RetriedUntilExhausted(cfg: Config, role: string, maxRetry: nat, world: nat -> World)
    requires forall i: nat :: i <= maxRetry ==> FailsOrdinarily(cfg, role, world(i))
    ensures var (log, verdict) := AttemptsFrom(cfg, role, maxRetry, world, 0, None);
      |log| == maxRetry + 1 && verdict == Exhausted
  {
    hide AttemptsFrom, FailsOrdinarily;
    OrdinaryFailuresRepeat(cfg, role, maxRetry, world, 0, maxRetry + 1);
    NoMoreAttempts(cfg, role, maxRetry, world, maxRetry + 1, None);
  }

  /** What stops a call before its next attempt. */
  lemma StoppedBetween(cfg: Config, role: string, maxRetry: int, world: nat -> World, j: nat)
    requires j <= maxRetry && !Starts(world(j))
    requires forall i: nat :: i < j ==> FailsOrdinarily(cfg, role, world(i))
    ensures var (log, verdict) := AttemptsFrom(cfg, role, maxRetry, world, 0, None);
      |log| == j && verdict == if world(j).cancelledBefore then Cancelled
                               else if !world(j).allowed then CircuitOpen else Escaped
  {
    hide AttemptsFrom, AttemptWith, FailsOrdinarily;
    OrdinaryFailuresRepeat(cfg, role, maxRetry, world, 0, j);
    AttemptsStep(cfg, role, maxRetry, world, j, None);
  }
}
