/** One agent invocation: the loop that spends a retry budget and a revision budget. */
module InvocationLoop {
  import opened Sequences
  import opened SelfRevision

  datatype Config = Config(
    maxRetries: int,
    maxRevisionAttempts: int,
    revisionQualityThreshold: real,
    backoffBaseMs: Option<real>,
    backoffCapMs: Option<real>,
    revisionBackoffBaseMs: Option<real>,
    revisionBackoffCapMs: Option<real>,
    enforceContinuity: bool)

  // ----- What the outside does during one attempt

  datatype Call =
    | Raised(failure: Failure)
    | Returned(outputPath: Option<string>, response: Option<Response>, continuityWarnings: bool)

  /** The invoker's answer, how the event file answers and whether the log callback fails, at
      each place where the loop uses them. */
  datatype Attempt = Attempt(
    call: Call,
    tryAppend: AppendAnswer,
    tryMark: StoreAnswer,
    tryLog: Option<Failure>,
    catchAppend: AppendAnswer,
    catchMark: StoreAnswer,
    catchLog: Option<Failure>,
    finalMark: StoreAnswer)

  // ----- State

  datatype EntryStatus = Success | Failed | TimedOut | Retry

  datatype LogEntry = LogEntry(attempt: int, status: EntryStatus, revisionAttempt: int, revisionEvent: Option<nat>)

  /** `calls` counts invoker calls and `relogged` entries that were logged twice. */
  datatype LoopState = LoopState(
    attempt: int,
    transientRetries: int,
    revisionAttempts: int,
    lastEvent: Option<nat>,
    log: seq<LogEntry>,
    file: EventFile,
    sleptMs: real,
    calls: nat,
    relogged: nat)

  datatype StopReason = MaxRevisionAttempts | RetryBudgetExhausted | ContinuityBroken | FatalError | Approved

  datatype Result = Result(success: bool, severity: Option<Severity>, stopReason: StopReason, revisionEvent: Option<nat>)

  /** The revision fields of the log entry that the attempt has under way. */
  datatype Stamp = Stamp(revisionAttempt: int, revisionEvent: Option<nat>)

  datatype Outcome =
    | Continue(next: LoopState)
    | Return(result: Result, last: LoopState)
    | Throw(failure: Failure, last: LoopState)
    | Caught(failure: Failure, caughtIn: LoopState, logged: bool, stamp: Stamp)

  // ----- Delays

  function Pow2(k: nat): real { if k == 0 then 1.0 else 2.0 * Pow2(k - 1) }

  const DEFAULT_BACKOFF_BASE_MS := 2000.0
  const DEFAULT_BACKOFF_CAP_MS := 30000.0

  function OrElse(value: Option<real>, fallback: real): real { if value.Some? then value.value else fallback }

  function DelayMs(baseMs: Option<real>, capMs: Option<real>, k: int): real {
    var delay := OrElse(baseMs, DEFAULT_BACKOFF_BASE_MS) * Pow2(if k > 1 then k - 1 else 0);
    var cap := OrElse(capMs, DEFAULT_BACKOFF_CAP_MS);
    if delay < cap then delay else cap
  }

  function RetryDelay(cfg: Config, k: int): real { DelayMs(cfg.backoffBaseMs, cfg.backoffCapMs, k) }

  function RevisionDelay(cfg: Config, k: int): real { DelayMs(cfg.revisionBackoffBaseMs, cfg.revisionBackoffCapMs, k) }

  // ----- One attempt

  function StampOf(st: LoopState): Stamp { Stamp(st.revisionAttempts, st.lastEvent) }

  function Logged(st: LoopState, entry: LogEntry): LoopState { st.(log := st.log + [entry]) }

  function NextAttempt(st: LoopState, delay: real): LoopState {
    st.(attempt := st.attempt + 1, sleptMs := st.sleptMs + delay)
  }

  /** The revision event that a decision makes. */
  function WithEvent(st: LoopState, trigger: Trigger, answer: AppendAnswer): LoopState {
    st.(file := Appended(st.file, trigger, Added(answer)), lastEvent := Some(NextId(st.file)))
  }

  function MarkLast(st: LoopState, status: Status, answer: StoreAnswer): LoopState {
    if st.lastEvent.None? then st else st.(file := Marked(st.file, st.lastEvent.value, status, answer.Stored?))
  }

  /** Logging in the body; a callback that fails has been given the entry all the same. */
  function OnLog(st: LoopState, entry: LogEntry, fault: Option<Failure>, after: Outcome): Outcome {
    if fault.Some? then Caught(fault.value, Logged(st, entry), true, Stamp(entry.revisionAttempt, entry.revisionEvent))
    else after
  }

  /** A response that asked for a revision which it does not get. */
  function Refuse(st: LoopState, o: Attempt, start: Stamp): Outcome {
    if st.lastEvent.Some? && o.tryMark.Broken? then Caught(o.tryMark.failure, st, false, start)
    else
      var st1 := MarkLast(st, Escalated, o.tryMark);
      var entry := LogEntry(st.attempt, Failed, st.revisionAttempts, st.lastEvent);
      OnLog(st1, entry, o.tryLog,
            Return(Result(false, Some(Recoverable), MaxRevisionAttempts, st.lastEvent), Logged(st1, entry)))
  }

  function Revise(cfg: Config, st: LoopState, decision: Decision, o: Attempt): Outcome {
    var start := StampOf(st);
    var st1 := st.(revisionAttempts := st.revisionAttempts + 1);
    if !RevisionNeeded(decision) then Refuse(st1, o, start)
    else if o.tryAppend.fault.Some? then Caught(o.tryAppend.fault.value, st1, false, start)
    else
      var st2 := WithEvent(st1, decision.trigger, o.tryAppend);
      if o.tryMark.Broken? then Caught(o.tryMark.failure, st2, false, start)
      else
        var st3 := MarkLast(st2, Applied, o.tryMark);
        var entry := LogEntry(st.attempt, Retry, st3.revisionAttempts, st3.lastEvent);
        OnLog(st3, entry, o.tryLog,
              Continue(NextAttempt(Logged(st3, entry), RevisionDelay(cfg, st3.revisionAttempts))))
  }

  function Accept(cfg: Config, st: LoopState, warnings: bool, o: Attempt): Outcome {
    if cfg.enforceContinuity && warnings then
      var entry := LogEntry(st.attempt, Failed, st.revisionAttempts, st.lastEvent);
      OnLog(st, entry, o.tryLog,
            Return(Result(false, Some(Recoverable), ContinuityBroken, None), Logged(st, entry)))
    else if st.lastEvent.Some? && o.tryMark.Broken? then Caught(o.tryMark.failure, st, false, StampOf(st))
    else
      var st1 := MarkLast(st, Succeeded, o.tryMark);
      var entry := LogEntry(st.attempt, Success, st.revisionAttempts, st.lastEvent);
      OnLog(st1, entry, o.tryLog, Return(Result(true, None, Approved, None), Logged(st1, entry)))
  }

  function TryBlock(cfg: Config, st: LoopState, o: Attempt): (r: Outcome)
    ensures r.Continue? ==> r.next.attempt == st.attempt + 1
    ensures r.Caught? ==> r.caughtIn.attempt == st.attempt
  {
    match o.call
    case Raised(failure) => Caught(failure, st, false, StampOf(st))
    case Returned(_, response, warnings) =>
      var decision := DecideFromResponse(response, cfg.revisionQualityThreshold);
      if decision.None? then Accept(cfg, st, warnings, o)
      else if st.revisionAttempts < cfg.maxRevisionAttempts then Revise(cfg, st, decision.value, o)
      else Refuse(st, o, StampOf(st))
  }

  function CatchStatus(cfg: Config, attempt: int, failure: Failure): EntryStatus {
    if failure.message == "TIMEOUT" then TimedOut
    else if failure.severity == Fatal then Failed
    else if attempt <= cfg.maxRetries then Retry
    else Failed
  }

  function HandlerEntry(cfg: Config, st: LoopState, failure: Failure, stamp: Stamp): LogEntry {
    LogEntry(st.attempt, CatchStatus(cfg, st.attempt, failure), stamp.revisionAttempt, stamp.revisionEvent)
  }

  /** Logging in the handler. An entry that the body had logged already is the same
      object, so what the handler writes into it shows in both places. */
  function Relog(st: LoopState, entry: LogEntry, logged: bool): LoopState {
    if logged && st.log != [] then
      st.(log := st.log[|st.log| - 1 := entry] + [entry], relogged := st.relogged + 1)
    else Logged(st, entry)
  }

  /** A revision of a failure always makes an event (`ErrorDecisionNeedsRevision`). */
  function CatchRevise(cfg: Config, st: LoopState, logged: bool, o: Attempt): Outcome {
    var st1 := st.(revisionAttempts := st.revisionAttempts + 1);
    if o.catchAppend.fault.Some? then Throw(o.catchAppend.fault.value, st1)
    else
      var st2 := WithEvent(st1, VerifierFindings, o.catchAppend);
      if o.catchMark.Broken? then Throw(o.catchMark.failure, st2)
      else
        var st3 := MarkLast(st2, Applied, o.catchMark);
        var st4 := Relog(st3, LogEntry(st.attempt, Retry, st3.revisionAttempts, st3.lastEvent), logged);
        if o.catchLog.Some? then Throw(o.catchLog.value, st4)
        else Continue(NextAttempt(st4, RevisionDelay(cfg, st4.revisionAttempts)))
  }

  function GiveUpOrRetry(cfg: Config, st: LoopState, failure: Failure, revisable: bool, o: Attempt): Outcome {
    if failure.severity == Fatal then Return(Result(false, Some(Fatal), FatalError, None), st)
    else if st.transientRetries < cfg.maxRetries then
      var st1 := st.(transientRetries := st.transientRetries + 1);
      Continue(NextAttempt(st1, RetryDelay(cfg, st1.transientRetries)))
    else if revisable && st.lastEvent.Some? && o.finalMark.Broken? then Throw(o.finalMark.failure, st)
    else
      var st1 := if revisable then MarkLast(st, Escalated, o.finalMark) else st;
      var severity := if failure.severity == Recoverable then Recoverable else Fatal;
      Return(Result(false, Some(severity), if revisable then MaxRevisionAttempts else RetryBudgetExhausted, st.lastEvent), st1)
  }

  /** The handler's entry keeps the revision fields that the body has left in it. */
  function CatchBlock(cfg: Config, st: LoopState, failure: Failure, logged: bool, stamp: Stamp, o: Attempt): (r: Outcome)
    ensures r.Continue? ==> r.next.attempt == st.attempt + 1
    ensures !r.Caught?
  {
    var decision := DecideFromError(failure, cfg.revisionQualityThreshold);
    if failure.message == "ABORTED" then Throw(failure, st)
    else if decision.Some? && st.revisionAttempts < cfg.maxRevisionAttempts then CatchRevise(cfg, st, logged, o)
    else
      var entry := HandlerEntry(cfg, st, failure, stamp);
      var st1 := Relog(st, entry, logged);
      if o.catchLog.Some? then Throw(o.catchLog.value, st1)
      else GiveUpOrRetry(cfg, st1, failure, decision.Some?, o)
  }

  function Handle(cfg: Config, body: Outcome, o: Attempt): (r: Outcome)
    ensures body.Caught? && r.Continue? ==> r.next.attempt == body.caughtIn.attempt + 1
    ensures !body.Caught? ==> r == body
    ensures !r.Caught?
  {
    if body.Caught? then CatchBlock(cfg, body.caughtIn, body.failure, body.logged, body.stamp, o) else body
  }

  function AttemptOnce(cfg: Config, st: LoopState, o: Attempt): (r: Outcome)
    ensures r.Continue? ==> r.next.attempt == st.attempt + 1
    ensures !r.Caught?
  {
    Handle(cfg, TryBlock(cfg, st.(calls := st.calls + 1), o), o)
  }

  // ----- The loop

  function MaxTotalAttempts(cfg: Config): int { cfg.maxRetries + cfg.maxRevisionAttempts + 1 }

  datatype Final =
    | Ended(result: Result, last: LoopState)
    | Escaped(failure: Failure, last: LoopState)
    | FellThrough(last: LoopState)

  /** `oracle(n)` is what happens during attempt `n`. */
  function Run(cfg: Config, oracle: int -> Attempt, st: LoopState): Final
    decreases MaxTotalAttempts(cfg) - st.attempt
  {
    if st.attempt > MaxTotalAttempts(cfg) then FellThrough(st)
    else
      match AttemptOnce(cfg, st, oracle(st.attempt))
      case Continue(next) => Run(cfg, oracle, next)
      case Return(result, last) => Ended(result, last)
      case Throw(failure, last) => Escaped(failure, last)
  }

  function Start(file: EventFile): LoopState {
    LoopState(1, 0, 0, None, [], file, 0.0, 0, 0)
  }
}
