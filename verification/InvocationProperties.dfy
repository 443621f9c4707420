/** What holds of every invocation, whatever the agent, the revision store and the log callback do. */
module InvocationProperties {
  import opened Sequences
  import opened SelfRevision
  import opened InvocationLoop

  // ----- Budgets

  ghost predicate UnderCaps(cfg: Config, st: LoopState) {
    && 0 <= st.transientRetries && (st.transientRetries == 0 || st.transientRetries <= cfg.maxRetries)
    && 0 <= st.revisionAttempts && (st.revisionAttempts == 0 || st.revisionAttempts <= cfg.maxRevisionAttempts)
  }

  /** Every attempt after the first is paid for by a retry or a revision, and no attempt
      takes more than one retry. */
  ghost predicate Paid(cfg: Config, attempts: int, st: LoopState) {
    st.transientRetries < attempts <= 1 + st.transientRetries + st.revisionAttempts && UnderCaps(cfg, st)
  }

  ghost predicate AtHead(cfg: Config, st: LoopState) {
    1 <= st.attempt == st.calls + 1 && Paid(cfg, st.attempt, st)
  }

  ghost predicate During(cfg: Config, n: int, st: LoopState) {
    st.attempt == n == st.calls && Paid(cfg, n, st)
  }

  ghost predicate PaidAfter(cfg: Config, n: int, outcome: Outcome) {
    match outcome
    case Continue(next) => AtHead(cfg, next) && next.attempt == n + 1
    case Return(_, last) => During(cfg, n, last)
    case Throw(_, last) => During(cfg, n, last)
    case Caught(_, last, _, _) => During(cfg, n, last)
  }

  lemma TryPays(cfg: Config, n: int, st: LoopState, o: Attempt)
    requires n >= 1 && During(cfg, n, st)
    ensures PaidAfter(cfg, n, TryBlock(cfg, st, o))
  {
    hide DecideFromResponse, RevisionNeeded;
  }

  lemma CatchRevisePays(cfg: Config, n: int, st: LoopState, logged: bool, o: Attempt)
    requires n >= 1 && During(cfg, n, st) && st.revisionAttempts < cfg.maxRevisionAttempts
    ensures PaidAfter(cfg, n, CatchRevise(cfg, st, logged, o))
  {
  }

  lemma GiveUpPays(cfg: Config, n: int, st: LoopState, failure: Failure, revisable: bool, o: Attempt)
    requires n >= 1 && During(cfg, n, st)
    ensures PaidAfter(cfg, n, GiveUpOrRetry(cfg, st, failure, revisable, o))
  {
  }

  lemma CatchPays(cfg: Config, n: int, st: LoopState, failure: Failure, logged: bool, stamp: Stamp, o: Attempt)
    requires n >= 1 && During(cfg, n, st)
    ensures PaidAfter(cfg, n, CatchBlock(cfg, st, failure, logged, stamp, o))
  {
    hide CatchRevise, GiveUpOrRetry;
    var decision := DecideFromError(failure, cfg.revisionQualityThreshold);
    if decision.Some? && st.revisionAttempts < cfg.maxRevisionAttempts {
      CatchRevisePays(cfg, n, st, logged, o);
    } else {
      var entry := HandlerEntry(cfg, st, failure, stamp);
      GiveUpPays(cfg, n, Relog(st, entry, logged), failure, decision.Some?, o);
    }
  }

  lemma AttemptPays(cfg: Config, st: LoopState, o: Attempt)
    requires AtHead(cfg, st)
    ensures PaidAfter(cfg, st.attempt, AttemptOnce(cfg, st, o))
  {
    hide TryBlock, CatchBlock;
    var called := st.(calls := st.calls + 1);
    TryPays(cfg, st.attempt, called, o);
    var body := TryBlock(cfg, called, o);
    if body.Caught? {
      CatchPays(cfg, st.attempt, body.caughtIn, body.failure, body.logged, body.stamp, o);
    }
  }

  /** With budgets that are not negative the loop is always left from inside, after at
      most one call more than the two budgets together. */
  lemma {:induction false} EndsWithinBudget(cfg: Config, oracle: int -> Attempt, st: LoopState)
    requires cfg.maxRetries >= 0 && cfg.maxRevisionAttempts >= 0 && AtHead(cfg, st)
    ensures var final := Run(cfg, oracle, st);
            && !final.FellThrough?
            && During(cfg, final.last.attempt, final.last)
            && final.last.calls <= cfg.maxRetries + cfg.maxRevisionAttempts + 1
    decreases MaxTotalAttempts(cfg) - st.attempt
  {
    AttemptPays(cfg, st, oracle(st.attempt));
    var outcome := AttemptOnce(cfg, st, oracle(st.attempt));
    if outcome.Continue? {
      EndsWithinBudget(cfg, oracle, outcome.next);
    }
  }

  // ----- The tail behind the loop

  function Quiet(call: Call): Attempt {
    Attempt(call, CLEAN, Stored, None, CLEAN, Stored, None, Stored)
  }

  const LostConnection := Failure("ECONNRESET", Transient, false)
  const MissingSections := Failure("required sections", Recoverable, true)

  /** An agent that keeps failing in the way that still has a budget. */
  function KeepsFailing(cfg: Config): int -> Attempt {
    (n: int) => Quiet(Raised(if cfg.maxRevisionAttempts >= 0 then MissingSections else LostConnection))
  }

  lemma {:induction false} FailsThrough(cfg: Config, st: LoopState)
    requires cfg.maxRetries < 0 || cfg.maxRevisionAttempts < 0
    requires st.attempt == 1 + (if cfg.maxRevisionAttempts >= 0 then st.revisionAttempts else st.transientRetries)
    ensures Run(cfg, KeepsFailing(cfg), st).FellThrough?
    decreases MaxTotalAttempts(cfg) - st.attempt
  {
    if st.attempt <= MaxTotalAttempts(cfg) {
      var outcome := AttemptOnce(cfg, st, KeepsFailing(cfg)(st.attempt));
      assert outcome.Continue?;
      FailsThrough(cfg, outcome.next);
    }
  }

  /** The code behind the loop can be reached exactly when one of the budgets is negative. */
  lemma TailReachableIff(cfg: Config, file: EventFile)
    ensures (exists oracle :: Run(cfg, oracle, Start(file)).FellThrough?) <==>
            cfg.maxRetries < 0 || cfg.maxRevisionAttempts < 0
  {
    if cfg.maxRetries < 0 || cfg.maxRevisionAttempts < 0 {
      FailsThrough(cfg, Start(file));
    } else {
      forall oracle: int -> Attempt
        ensures !Run(cfg, oracle, Start(file)).FellThrough?
      {
        EndsWithinBudget(cfg, oracle, Start(file));
      }
    }
  }

  // ----- The log

  /** `k` entries in all, none of them a success, numbered in step unless one was repeated. */
  ghost predicate Unsuccessful(log: seq<LogEntry>, k: int, relogged: nat) {
    && k <= |log|
    && (forall i :: 0 <= i < k ==> log[i].status != Success)
    && (relogged == 0 ==> forall i :: 0 <= i < k ==> log[i].attempt == i + 1)
  }

  ghost predicate LogAtHead(st: LoopState) {
    |st.log| == st.attempt - 1 + st.relogged && Unsuccessful(st.log, |st.log|, st.relogged)
  }

  ghost predicate LogDuring(st: LoopState, logged: bool) {
    && |st.log| == st.attempt - 1 + st.relogged + (if logged then 1 else 0)
    && Unsuccessful(st.log, st.attempt - 1 + st.relogged, st.relogged)
  }

  /** One entry for each call, plus the repeated ones; the last, and only the last, says
      whether the call succeeded, and it never announces a retry. */
  ghost predicate LogAtEnd(result: Result, st: LoopState) {
    && |st.log| == st.calls + st.relogged >= 1
    && Unsuccessful(st.log, |st.log| - 1, st.relogged)
    && var last := st.log[|st.log| - 1];
       (last.status == Success <==> result.success) && last.status != Retry && last.attempt == st.calls
  }

  ghost predicate LogAfter(outcome: Outcome) {
    match outcome
    case Continue(next) => LogAtHead(next)
    case Return(result, last) => LogAtEnd(result, last)
    case Throw(_, _) => true
    case Caught(_, last, logged, _) => LogDuring(last, logged)
  }

  lemma PushEntry(st: LoopState, entry: LogEntry)
    requires LogDuring(st, false) && entry.attempt == st.attempt
    ensures LogDuring(Logged(st, entry), true)
    ensures entry.status != Success ==> Unsuccessful(Logged(st, entry).log, |st.log| + 1, st.relogged)
  {
  }

  lemma ReviseLogs(cfg: Config, st: LoopState, decision: Decision, o: Attempt)
    requires LogDuring(st, false) && st.attempt == st.calls >= 1
    ensures LogAfter(Revise(cfg, st, decision, o))
  {
    var st1 := st.(revisionAttempts := st.revisionAttempts + 1);
    if !RevisionNeeded(decision) {
      RefuseLogs(st1, o, StampOf(st));
    } else {
      var st3 := MarkLast(WithEvent(st1, decision.trigger, o.tryAppend), Applied, o.tryMark);
      PushEntry(st3, LogEntry(st.attempt, Retry, st3.revisionAttempts, st3.lastEvent));
    }
  }

  lemma RefuseLogs(st: LoopState, o: Attempt, start: Stamp)
    requires LogDuring(st, false) && st.attempt == st.calls >= 1
    ensures LogAfter(Refuse(st, o, start))
  {
    PushEntry(MarkLast(st, Escalated, o.tryMark), LogEntry(st.attempt, Failed, st.revisionAttempts, st.lastEvent));
  }

  lemma AcceptLogs(cfg: Config, st: LoopState, warnings: bool, o: Attempt)
    requires LogDuring(st, false) && st.attempt == st.calls >= 1
    ensures LogAfter(Accept(cfg, st, warnings, o))
  {
    PushEntry(st, LogEntry(st.attempt, Failed, st.revisionAttempts, st.lastEvent));
    PushEntry(MarkLast(st, Succeeded, o.tryMark), LogEntry(st.attempt, Success, st.revisionAttempts, st.lastEvent));
  }

  lemma TryLogs(cfg: Config, st: LoopState, o: Attempt)
    requires LogDuring(st, false) && st.attempt == st.calls >= 1
    ensures LogAfter(TryBlock(cfg, st, o))
  {
    if o.call.Returned? {
      var decision := DecideFromResponse(o.call.response, cfg.revisionQualityThreshold);
      AcceptLogs(cfg, st, o.call.continuityWarnings, o);
      RefuseLogs(st, o, StampOf(st));
      if decision.Some? {
        ReviseLogs(cfg, st, decision.value, o);
      }
    }
  }

  ghost predicate HandlerLogged(st: LoopState, entry: LogEntry) {
    && |st.log| == st.attempt + st.relogged >= 1
    && Unsuccessful(st.log, |st.log|, st.relogged)
    && st.log[|st.log| - 1] == entry
  }

  lemma RelogEntry(st: LoopState, entry: LogEntry, logged: bool)
    requires LogDuring(st, logged) && entry.attempt == st.attempt >= 1 && entry.status != Success
    ensures HandlerLogged(Relog(st, entry, logged), entry)
  {
  }

  lemma CatchReviseLogs(cfg: Config, st: LoopState, logged: bool, o: Attempt)
    requires LogDuring(st, logged) && st.attempt >= 1
    ensures LogAfter(CatchRevise(cfg, st, logged, o))
  {
    var st3 := MarkLast(WithEvent(st.(revisionAttempts := st.revisionAttempts + 1), VerifierFindings, o.catchAppend), Applied, o.catchMark);
    RelogEntry(st3, LogEntry(st.attempt, Retry, st3.revisionAttempts, st3.lastEvent), logged);
  }

  lemma GiveUpLogs(cfg: Config, st: LoopState, failure: Failure, revisable: bool, o: Attempt, entry: LogEntry)
    requires HandlerLogged(st, entry) && During(cfg, st.attempt, st) && st.attempt >= 1
    requires entry.status == CatchStatus(cfg, st.attempt, failure) && entry.attempt == st.attempt
    ensures LogAfter(GiveUpOrRetry(cfg, st, failure, revisable, o))
  {
  }

  lemma CatchLogs(cfg: Config, st: LoopState, failure: Failure, logged: bool, stamp: Stamp, o: Attempt)
    requires LogDuring(st, logged) && During(cfg, st.attempt, st) && st.attempt >= 1
    ensures LogAfter(CatchBlock(cfg, st, failure, logged, stamp, o))
  {
    hide CatchRevise, GiveUpOrRetry;
    var decision := DecideFromError(failure, cfg.revisionQualityThreshold);
    if decision.Some? && st.revisionAttempts < cfg.maxRevisionAttempts {
      CatchReviseLogs(cfg, st, logged, o);
    } else {
      var entry := HandlerEntry(cfg, st, failure, stamp);
      RelogEntry(st, entry, logged);
      GiveUpLogs(cfg, Relog(st, entry, logged), failure, decision.Some?, o, entry);
    }
  }

  lemma AttemptLogs(cfg: Config, st: LoopState, o: Attempt)
    requires AtHead(cfg, st) && LogAtHead(st)
    ensures LogAfter(AttemptOnce(cfg, st, o))
  {
    hide TryBlock, CatchBlock;
    var called := st.(calls := st.calls + 1);
    TryPays(cfg, st.attempt, called, o);
    TryLogs(cfg, called, o);
    var body := TryBlock(cfg, called, o);
    if body.Caught? {
      CatchLogs(cfg, body.caughtIn, body.failure, body.logged, body.stamp, o);
    }
  }

  /** Every run that returns has logged its calls in order, ending with its verdict. */
  lemma {:induction false} ReturnedRunIsLogged(cfg: Config, oracle: int -> Attempt, st: LoopState)
    requires AtHead(cfg, st) && LogAtHead(st)
    ensures var final := Run(cfg, oracle, st); final.Ended? ==> LogAtEnd(final.result, final.last)
    decreases MaxTotalAttempts(cfg) - st.attempt
  {
    if st.attempt <= MaxTotalAttempts(cfg) {
      AttemptPays(cfg, st, oracle(st.attempt));
      AttemptLogs(cfg, st, oracle(st.attempt));
      var outcome := AttemptOnce(cfg, st, oracle(st.attempt));
      if outcome.Continue? {
        ReturnedRunIsLogged(cfg, oracle, outcome.next);
      }
    }
  }

  /** The body comes to its log callback: the invoker answers, and no write to the event file
      before it throws. */
  predicate BodyLogs(cfg: Config, st: LoopState, o: Attempt) {
    o.call.Returned? &&
    var decision := DecideFromResponse(o.call.response, cfg.revisionQualityThreshold);
    if decision.Some? && st.revisionAttempts < cfg.maxRevisionAttempts && RevisionNeeded(decision.value) then
      o.tryAppend.fault.None? && !o.tryMark.Broken?
    else
      (decision.None? && cfg.enforceContinuity && o.call.continuityWarnings) || st.lastEvent.None? || !o.tryMark.Broken?
  }

  predicate ThrowsInBody(cfg: Config, st: LoopState, o: Attempt) { o.tryLog.Some? && BodyLogs(cfg, st, o) }

  /** Where attempt `k` of a run begins, if the run comes to it. */
  function StateAt(cfg: Config, oracle: int -> Attempt, file: EventFile, k: nat): LoopState {
    if k <= 1 then Start(file)
    else
      var before := StateAt(cfg, oracle, file, k - 1);
      var outcome := AttemptOnce(cfg, before, oracle(k - 1));
      if outcome.Continue? then outcome.next else before
  }

  /** How many of the first `n` attempts have their callback throw in the body. */
  function Throws(cfg: Config, oracle: int -> Attempt, file: EventFile, n: nat): nat {
    if n == 0 then 0
    else
      Throws(cfg, oracle, file, n - 1) + if ThrowsInBody(cfg, StateAt(cfg, oracle, file, n), oracle(n)) then 1 else 0
  }

  lemma {:induction false} NoThrows(cfg: Config, oracle: int -> Attempt, file: EventFile, n: nat)
    ensures Throws(cfg, oracle, file, n) == 0 <==>
            forall k :: 1 <= k <= n ==> !ThrowsInBody(cfg, StateAt(cfg, oracle, file, k), oracle(k))
  {
    hide ThrowsInBody, StateAt;
    if n > 0 {
      NoThrows(cfg, oracle, file, n - 1);
    }
  }

  /** A throwing callback ends the body with the entry logged; nothing else does. */
  lemma BodyThrows(cfg: Config, st: LoopState, o: Attempt)
    ensures var body, throws := TryBlock(cfg, st, o), ThrowsInBody(cfg, st, o);
            && (throws ==> body.Caught? && body.logged && body.caughtIn.log != [])
            && (!throws ==> body.Caught? ==> !body.logged)
            && (body.Continue? ==> body.next.relogged == st.relogged)
            && (body.Return? ==> body.last.relogged == st.relogged)
            && (body.Caught? ==> body.caughtIn.relogged == st.relogged)
  {
    hide DecideFromResponse, RevisionNeeded, Appended, Marked;
  }

  lemma HandlerRelogs(cfg: Config, st: LoopState, failure: Failure, logged: bool, stamp: Stamp, o: Attempt)
    requires logged ==> st.log != []
    ensures var r := CatchBlock(cfg, st, failure, logged, stamp, o);
            var relogged := st.relogged + if logged then 1 else 0;
            && (r.Continue? ==> r.next.relogged == relogged)
            && (r.Return? ==> r.last.relogged == relogged)
  {
    hide DecideFromError, Appended, Marked;
  }

  lemma AttemptRelogs(cfg: Config, st: LoopState, o: Attempt)
    ensures var outcome := AttemptOnce(cfg, st, o);
            var relogged := st.relogged + if ThrowsInBody(cfg, st, o) then 1 else 0;
            && (outcome.Continue? ==> outcome.next.relogged == relogged)
            && (outcome.Return? ==> outcome.last.relogged == relogged)
  {
    hide TryBlock, CatchBlock, DecideFromResponse, RevisionNeeded;
    var called := st.(calls := st.calls + 1);
    BodyThrows(cfg, called, o);
    assert ThrowsInBody(cfg, called, o) == ThrowsInBody(cfg, st, o);
    var body := TryBlock(cfg, called, o);
    if body.Caught? {
      HandlerRelogs(cfg, body.caughtIn, body.failure, body.logged, body.stamp, o);
    }
  }

  /** The run has come to `st` from `file` and has repeated the entries of the throwing callbacks. */
  ghost predicate Counted(cfg: Config, oracle: int -> Attempt, file: EventFile, st: LoopState) {
    && AtHead(cfg, st) && st == StateAt(cfg, oracle, file, st.attempt)
    && st.relogged == Throws(cfg, oracle, file, st.calls)
  }

  lemma AttemptCounts(cfg: Config, oracle: int -> Attempt, file: EventFile, st: LoopState)
    requires Counted(cfg, oracle, file, st)
    ensures var outcome := AttemptOnce(cfg, st, oracle(st.attempt));
            && (outcome.Continue? ==> Counted(cfg, oracle, file, outcome.next))
            && (outcome.Return? ==> outcome.last.relogged == Throws(cfg, oracle, file, outcome.last.calls))
  {
    hide AttemptOnce, ThrowsInBody, Paid;
    AttemptPays(cfg, st, oracle(st.attempt));
    AttemptRelogs(cfg, st, oracle(st.attempt));
    assert Throws(cfg, oracle, file, st.attempt) ==
           Throws(cfg, oracle, file, st.calls) + if ThrowsInBody(cfg, st, oracle(st.attempt)) then 1 else 0;
  }

  lemma {:induction false} RunRelogs(cfg: Config, oracle: int -> Attempt, file: EventFile, st: LoopState)
    requires Counted(cfg, oracle, file, st)
    ensures var final := Run(cfg, oracle, st);
            final.Ended? ==> final.last.relogged == Throws(cfg, oracle, file, final.last.calls)
    decreases MaxTotalAttempts(cfg) - st.attempt
  {
    if st.attempt <= MaxTotalAttempts(cfg) {
      hide AttemptOnce, Counted, Throws;
      AttemptCounts(cfg, oracle, file, st);
      var outcome := AttemptOnce(cfg, st, oracle(st.attempt));
      if outcome.Continue? {
        RunRelogs(cfg, oracle, file, outcome.next);
      }
    }
  }

  /** A run that returns logs one entry for each invoker call and one more for each call whose
      log callback threw in the body; so it logs exactly one entry per call if and only if that
      callback threw for none of them. */
  lemma OneEntryPerCallIff(cfg: Config, oracle: int -> Attempt, file: EventFile)
    ensures var final := Run(cfg, oracle, Start(file));
            final.Ended? ==>
              && |final.last.log| == final.last.calls + Throws(cfg, oracle, file, final.last.calls)
              && (|final.last.log| == final.last.calls <==>
                  forall k :: 1 <= k <= final.last.calls ==>
                    !ThrowsInBody(cfg, StateAt(cfg, oracle, file, k), oracle(k)))
  {
    hide ThrowsInBody;
    var final := Run(cfg, oracle, Start(file));
    ReturnedRunIsLogged(cfg, oracle, Start(file));
    RunRelogs(cfg, oracle, file, Start(file));
    if final.Ended? {
      NoThrows(cfg, oracle, file, final.last.calls);
    }
  }

  /** When the event file never throws, that is a matter of the invoker and the callback alone. */
  lemma OneEntryPerCallOutside(cfg: Config, oracle: int -> Attempt, file: EventFile)
    requires forall n :: oracle(n).tryAppend.fault.None? && !oracle(n).tryMark.Broken?
    ensures var final := Run(cfg, oracle, Start(file));
            final.Ended? ==>
              (|final.last.log| == final.last.calls <==>
               forall k :: 1 <= k <= final.last.calls ==> !(oracle(k).call.Returned? && oracle(k).tryLog.Some?))
  {
    hide StateAt;
    OneEntryPerCallIff(cfg, oracle, file);
    var n := Run(cfg, oracle, Start(file)).last.calls;
    forall k | 1 <= k <= n
      ensures ThrowsInBody(cfg, StateAt(cfg, oracle, file, k), oracle(k)) <==> oracle(k).call.Returned? && oracle(k).tryLog.Some?
    {
      assert oracle(k).tryAppend.fault.None? && !oracle(k).tryMark.Broken?;
    }
  }

  /** While the log callback does not throw, a run that returns logs exactly one entry
      per invoker call, numbered 1 to n, and only the last can be a success. */
  lemma OneEntryPerCall(cfg: Config, oracle: int -> Attempt, file: EventFile)
    requires forall n :: oracle(n).tryLog.None?
    ensures var final := Run(cfg, oracle, Start(file));
            final.Ended? ==>
              && |final.last.log| == final.last.calls >= 1
              && (forall i :: 0 <= i < |final.last.log| ==> final.last.log[i].attempt == i + 1)
              && (forall i :: 0 <= i < |final.last.log| ==>
                    (final.last.log[i].status == Success <==> final.result.success && i == |final.last.log| - 1))
              && final.last.log[|final.last.log| - 1].status != Retry
  {
    hide StateAt, Throws, BodyLogs, Run;
    ReturnedRunIsLogged(cfg, oracle, Start(file));
    OneEntryPerCallIff(cfg, oracle, file);
  }

  /** Whatever the budgets, a callback that throws something fatal makes the one call of its
      run show up twice. */
  lemma ThrowingCallbackLogsTwice(cfg: Config, fault: Failure, file: EventFile)
    requires cfg.maxRetries + cfg.maxRevisionAttempts >= 0
    requires fault.severity == Fatal && fault.message != "ABORTED"
    ensures var oracle := (n: int) => Quiet(Returned(None, None, false)).(tryLog := Some(fault));
            var final := Run(cfg, oracle, Start(file));
            final.Ended? && !final.result.success && final.last.calls == 1 && |final.last.log| == 2
  {
    var oracle := (n: int) => Quiet(Returned(None, None, false)).(tryLog := Some(fault));
    hide Marked;
    assert AttemptOnce(cfg, Start(file), oracle(1)).Return?;
    OneEntryPerCallIff(cfg, oracle, file);
    assert ThrowsInBody(cfg, StateAt(cfg, oracle, file, 1), oracle(1));
    assert Throws(cfg, oracle, file, 0) == 0 && Throws(cfg, oracle, file, 1) == 1;
  }

  // ----- Sleep

  function RetrySleep(cfg: Config, k: int): real {
    if k <= 0 then 0.0 else RetrySleep(cfg, k - 1) + RetryDelay(cfg, k)
  }

  function RevisionSleep(cfg: Config, k: int): real {
    if k <= 0 then 0.0 else RevisionSleep(cfg, k - 1) + RevisionDelay(cfg, k)
  }

  ghost predicate DelaysNonNegative(cfg: Config) {
    forall k :: RetryDelay(cfg, k) >= 0.0 && RevisionDelay(cfg, k) >= 0.0
  }

  lemma {:induction false} PowPositive(k: nat)
    ensures Pow2(k) >= 1.0
  {
    if k > 0 {
      PowPositive(k - 1);
    }
  }

  lemma ProductNonNegative(x: real, y: real)
    requires x >= 0.0 && y >= 0.0
    ensures x * y >= 0.0
  {
  }

  /** Settings that are not negative give delays that are not negative. */
  lemma SettingsGiveDelays(cfg: Config)
    requires OrElse(cfg.backoffBaseMs, 0.0) >= 0.0 && OrElse(cfg.backoffCapMs, 0.0) >= 0.0
    requires OrElse(cfg.revisionBackoffBaseMs, 0.0) >= 0.0 && OrElse(cfg.revisionBackoffCapMs, 0.0) >= 0.0
    ensures DelaysNonNegative(cfg)
  {
    forall k
      ensures RetryDelay(cfg, k) >= 0.0 && RevisionDelay(cfg, k) >= 0.0
    {
      var e := if k > 1 then k - 1 else 0;
      PowPositive(e);
      ProductNonNegative(OrElse(cfg.backoffBaseMs, DEFAULT_BACKOFF_BASE_MS), Pow2(e));
      ProductNonNegative(OrElse(cfg.revisionBackoffBaseMs, DEFAULT_BACKOFF_BASE_MS), Pow2(e));
    }
  }

  /** Each exponent is slept at most once per budget. */
  ghost predicate SleptAtMost(cfg: Config, st: LoopState) {
    st.sleptMs <= RetrySleep(cfg, st.transientRetries) + RevisionSleep(cfg, st.revisionAttempts)
  }

  ghost predicate SleptAfter(cfg: Config, outcome: Outcome) {
    match outcome
    case Continue(next) => SleptAtMost(cfg, next)
    case Return(_, last) => SleptAtMost(cfg, last)
    case Throw(_, last) => SleptAtMost(cfg, last)
    case Caught(_, last, _, _) => SleptAtMost(cfg, last)
  }

  lemma TrySleeps(cfg: Config, n: int, st: LoopState, o: Attempt)
    requires DelaysNonNegative(cfg) && SleptAtMost(cfg, st) && n >= 1 && During(cfg, n, st)
    ensures SleptAfter(cfg, TryBlock(cfg, st, o))
  {
    assert RevisionDelay(cfg, st.revisionAttempts + 1) >= 0.0;
    assert RevisionSleep(cfg, st.revisionAttempts + 1) ==
           RevisionSleep(cfg, st.revisionAttempts) + RevisionDelay(cfg, st.revisionAttempts + 1);
  }

  lemma CatchReviseSleeps(cfg: Config, st: LoopState, logged: bool, o: Attempt)
    requires DelaysNonNegative(cfg) && SleptAtMost(cfg, st) && st.revisionAttempts >= 0
    ensures SleptAfter(cfg, CatchRevise(cfg, st, logged, o))
  {
    assert RevisionDelay(cfg, st.revisionAttempts + 1) >= 0.0;
    assert RevisionSleep(cfg, st.revisionAttempts + 1) ==
           RevisionSleep(cfg, st.revisionAttempts) + RevisionDelay(cfg, st.revisionAttempts + 1);
  }

  lemma GiveUpSleeps(cfg: Config, st: LoopState, failure: Failure, revisable: bool, o: Attempt)
    requires SleptAtMost(cfg, st) && st.transientRetries >= 0
    ensures SleptAfter(cfg, GiveUpOrRetry(cfg, st, failure, revisable, o))
  {
    assert RetrySleep(cfg, st.transientRetries + 1) ==
           RetrySleep(cfg, st.transientRetries) + RetryDelay(cfg, st.transientRetries + 1);
  }

  lemma CatchSleeps(cfg: Config, n: int, st: LoopState, failure: Failure, logged: bool, stamp: Stamp, o: Attempt)
    requires DelaysNonNegative(cfg) && SleptAtMost(cfg, st) && n >= 1 && During(cfg, n, st)
    ensures SleptAfter(cfg, CatchBlock(cfg, st, failure, logged, stamp, o))
  {
    hide CatchRevise, GiveUpOrRetry;
    var decision := DecideFromError(failure, cfg.revisionQualityThreshold);
    if decision.Some? && st.revisionAttempts < cfg.maxRevisionAttempts {
      CatchReviseSleeps(cfg, st, logged, o);
    } else {
      var entry := HandlerEntry(cfg, st, failure, stamp);
      GiveUpSleeps(cfg, Relog(st, entry, logged), failure, decision.Some?, o);
    }
  }

  lemma AttemptSleeps(cfg: Config, st: LoopState, o: Attempt)
    requires DelaysNonNegative(cfg) && AtHead(cfg, st) && SleptAtMost(cfg, st)
    ensures SleptAfter(cfg, AttemptOnce(cfg, st, o))
  {
    hide TryBlock, CatchBlock;
    var called := st.(calls := st.calls + 1);
    TryPays(cfg, st.attempt, called, o);
    TrySleeps(cfg, st.attempt, called, o);
    var body := TryBlock(cfg, called, o);
    if body.Caught? {
      CatchSleeps(cfg, st.attempt, body.caughtIn, body.failure, body.logged, body.stamp, o);
    }
  }

  lemma {:induction false} RunSleeps(cfg: Config, oracle: int -> Attempt, st: LoopState)
    requires DelaysNonNegative(cfg) && AtHead(cfg, st) && SleptAtMost(cfg, st)
    ensures SleptAtMost(cfg, Run(cfg, oracle, st).last) && UnderCaps(cfg, Run(cfg, oracle, st).last)
    decreases MaxTotalAttempts(cfg) - st.attempt
  {
    if st.attempt <= MaxTotalAttempts(cfg) {
      AttemptPays(cfg, st, oracle(st.attempt));
      AttemptSleeps(cfg, st, oracle(st.attempt));
      var outcome := AttemptOnce(cfg, st, oracle(st.attempt));
      if outcome.Continue? {
        RunSleeps(cfg, oracle, outcome.next);
      }
    }
  }

  lemma {:induction false} SleepMonotone(cfg: Config, j: int, k: int)
    requires DelaysNonNegative(cfg) && j <= k
    ensures RetrySleep(cfg, j) <= RetrySleep(cfg, k) && RevisionSleep(cfg, j) <= RevisionSleep(cfg, k)
    decreases k - j
  {
    if j < k {
      SleepMonotone(cfg, j, k - 1);
      assert RetryDelay(cfg, k) >= 0.0 && RevisionDelay(cfg, k) >= 0.0;
    }
  }

  /** However a run ends, it has slept at most the two full backoff series. */
  lemma TotalSleepBounded(cfg: Config, oracle: int -> Attempt, file: EventFile)
    requires DelaysNonNegative(cfg)
    ensures Run(cfg, oracle, Start(file)).last.sleptMs <=
            RetrySleep(cfg, cfg.maxRetries) + RevisionSleep(cfg, cfg.maxRevisionAttempts)
  {
    RunSleeps(cfg, oracle, Start(file));
    var last := Run(cfg, oracle, Start(file)).last;
    if last.transientRetries > 0 {
      SleepMonotone(cfg, last.transientRetries, cfg.maxRetries);
    } else {
      SleepMonotone(cfg, if cfg.maxRetries > 0 then 0 else cfg.maxRetries, cfg.maxRetries);
    }
    if last.revisionAttempts > 0 {
      SleepMonotone(cfg, last.revisionAttempts, cfg.maxRevisionAttempts);
    } else {
      SleepMonotone(cfg, if cfg.maxRevisionAttempts > 0 then 0 else cfg.maxRevisionAttempts, cfg.maxRevisionAttempts);
    }
  }

}
