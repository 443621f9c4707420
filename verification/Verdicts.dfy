/** Which answers make an invocation succeed, and what each kind of failure costs. */
module Verdicts {
  import opened Sequences
  import opened SelfRevision
  import opened InvocationLoop
  import opened InvocationProperties

  // ----- Answers

  /** A score of at most 1 is a fraction, a larger one a percentage, and a missing one counts as
      a hundred percent. */
  predicate ReachesPercent(score: Option<real>, threshold: real) {
    match score
    case None => 100.0 >= threshold
    case Some(x) => (x <= 1.0 && x * 100.0 >= threshold) || (x > 1.0 && x >= threshold)
  }

  /** The answer has no failed contract and, if its quality is assessed, is approved and reaches
      the threshold. */
  predicate Approved(response: Option<Response>, threshold: real) {
    response.None? ||
    (var contract, quality := response.value.contractValidation, response.value.deliverableQuality;
     && (contract.None? || contract.value.status != Some("failed"))
     && (quality.None? ||
         (quality.value.approvalSignal == Some("approve") && ReachesPercent(quality.value.score, threshold))))
  }

  lemma DecidesIff(response: Option<Response>, threshold: real)
    ensures DecideFromResponse(response, threshold).None? <==> Approved(response, threshold)
  {
  }

  function PercentOf(quality: Option<Quality>): real {
    if quality.None? || quality.value.score.None? then 100.0
    else if quality.value.score.value > 1.0 then quality.value.score.value else 100.0 * quality.value.score.value
  }

  /** A decision is about the findings of the verifier exactly when the contract failed, and then
      always becomes an event; it carries the percentages that were compared. */
  lemma DecisionSaysWhy(response: Response, threshold: real)
    requires !Approved(Some(response), threshold)
    ensures var decision := DecideFromResponse(Some(response), threshold);
            var failed := response.contractValidation == Some(Contract(Some("failed")));
            && decision.Some? && decision.value.finding == failed
            && decision.value.qualityScore == Some(PercentOf(response.deliverableQuality))
            && decision.value.qualityThreshold == threshold
            && decision.value.trigger == if failed then VerifierFindings else QualityBelowThreshold
  {
  }

  /** An attempt makes the invocation succeed exactly when the invoker answers, the answer is
      approved, continuity does not refuse it, and neither event file nor log callback throws. */
  lemma AttemptSucceedsIff(cfg: Config, st: LoopState, o: Attempt)
    ensures var outcome := AttemptOnce(cfg, st, o);
            outcome.Return? && outcome.result.success <==>
            && o.call.Returned? && Approved(o.call.response, cfg.revisionQualityThreshold)
            && !(cfg.enforceContinuity && o.call.continuityWarnings)
            && (st.lastEvent.None? || !o.tryMark.Broken?) && o.tryLog.None?
  {
    hide DecideFromResponse, DecideFromError, RevisionNeeded, Approved, Appended, Marked;
    if o.call.Returned? {
      DecidesIff(o.call.response, cfg.revisionQualityThreshold);
    }
  }

  /** An invocation that ends succeeds exactly when its last attempt does so. */
  lemma {:induction false} SucceedsFrom(cfg: Config, oracle: int -> Attempt, file: EventFile, st: LoopState)
    requires Counted(cfg, oracle, file, st)
    ensures var final := Run(cfg, oracle, st);
            final.Ended? ==>
              var n := final.last.calls;
              n >= 1 &&
              var outcome := AttemptOnce(cfg, StateAt(cfg, oracle, file, n), oracle(n));
              outcome == Return(final.result, final.last)
    decreases MaxTotalAttempts(cfg) - st.attempt
  {
    if st.attempt <= MaxTotalAttempts(cfg) {
      AttemptPays(cfg, st, oracle(st.attempt));
      hide AttemptOnce, Throws, StateAt, Paid;
      AttemptCounts(cfg, oracle, file, st);
      var outcome := AttemptOnce(cfg, st, oracle(st.attempt));
      if outcome.Continue? {
        SucceedsFrom(cfg, oracle, file, outcome.next);
      }
    }
  }

  /** Whatever the outside does, an invocation that ends has succeeded if and only if its last call
      was answered with an approved response that continuity does not refuse, and marking it and
      logging it did not throw. */
  lemma SucceedsIff(cfg: Config, oracle: int -> Attempt, file: EventFile)
    ensures var final := Run(cfg, oracle, Start(file));
            final.Ended? ==>
              var last := oracle(final.last.calls);
              (final.result.success <==>
               && last.call.Returned? && Approved(last.call.response, cfg.revisionQualityThreshold)
               && !(cfg.enforceContinuity && last.call.continuityWarnings)
               && (StateAt(cfg, oracle, file, final.last.calls).lastEvent.None? || !last.tryMark.Broken?)
               && last.tryLog.None?)
  {
    hide Run, StateAt, Approved, AttemptOnce;
    var final := Run(cfg, oracle, Start(file));
    StartIsCounted(cfg, oracle, file);
    SucceedsFrom(cfg, oracle, file, Start(file));
    if final.Ended? {
      AttemptSucceedsIff(cfg, StateAt(cfg, oracle, file, final.last.calls), oracle(final.last.calls));
    }
  }

  lemma StartIsCounted(cfg: Config, oracle: int -> Attempt, file: EventFile)
    ensures Counted(cfg, oracle, file, Start(file))
  {
  }

  /** A first answer like that ends the invocation: it has succeeded after one call. */
  lemma ApprovedAtOnce(cfg: Config, oracle: int -> Attempt, file: EventFile)
    requires cfg.maxRetries + cfg.maxRevisionAttempts >= 0
    requires oracle(1).call.Returned? && Approved(oracle(1).call.response, cfg.revisionQualityThreshold)
    requires !(cfg.enforceContinuity && oracle(1).call.continuityWarnings) && oracle(1).tryLog.None?
    ensures var final := Run(cfg, oracle, Start(file));
            final.Ended? && final.result.success && final.last.calls == 1 && final.last.file == file
  {
    hide Approved, DecideFromResponse;
    DecidesIff(oracle(1).call.response, cfg.revisionQualityThreshold);
    assert AttemptOnce(cfg, Start(file), oracle(1)).Return?;
  }

  // ----- The same refused answer again and again

  /** Asking for a revision makes an event: the contract failed, or the quality is too low also
      when percentages up to 1 are scaled once more. */
  predicate MakesEvent(response: Response, threshold: real) {
    response.contractValidation == Some(Contract(Some("failed"))) ||
    Again(ScoreOf(response.deliverableQuality)) < Again(threshold)
  }

  lemma RefusedDecision(response: Response, threshold: real)
    requires !Approved(Some(response), threshold)
    ensures var decision := DecideFromResponse(Some(response), threshold);
            decision.Some? && (RevisionNeeded(decision.value) <==> MakesEvent(response, threshold))
  {
  }

  lemma {:induction false} RefusedFrom(cfg: Config, response: Response, path: Option<string>, warnings: bool, first: nat, st: LoopState)
    requires !Approved(Some(response), cfg.revisionQualityThreshold) && cfg.maxRetries >= 0
    requires 0 <= st.revisionAttempts <= cfg.maxRevisionAttempts && st.attempt == st.revisionAttempts + 1 == st.calls + 1
    requires NextId(st.file) == first + st.revisionAttempts && st.sleptMs == RevisionSleep(cfg, st.revisionAttempts)
    requires !MakesEvent(response, cfg.revisionQualityThreshold) ==> st.revisionAttempts == 0
    ensures var final := Run(cfg, (n: int) => Quiet(Returned(path, Some(response), warnings)), st);
            var revised := if MakesEvent(response, cfg.revisionQualityThreshold) then cfg.maxRevisionAttempts else 0;
            && final.Ended? && !final.result.success && final.result.severity == Some(Recoverable)
            && final.result.stopReason == MaxRevisionAttempts
            && final.last.calls == revised + 1 && NextId(final.last.file) == first + revised
            && final.last.sleptMs == RevisionSleep(cfg, revised)
    decreases cfg.maxRevisionAttempts - st.revisionAttempts
  {
    hide DecideFromResponse, RevisionNeeded, MakesEvent, Approved, RevisionDelay;
    RefusedDecision(response, cfg.revisionQualityThreshold);
    var o := Quiet(Returned(path, Some(response), warnings));
    var outcome := AttemptOnce(cfg, st, o);
    if MakesEvent(response, cfg.revisionQualityThreshold) && st.revisionAttempts < cfg.maxRevisionAttempts {
      assert outcome.Continue? && outcome.next.revisionAttempts == st.revisionAttempts + 1;
      RefusedFrom(cfg, response, path, warnings, first, outcome.next);
    } else {
      assert outcome.Return?;
    }
  }

  /** An answer that is not approved, given again and again while nothing fails, uses up the
      revisions and fails: one call more than there are revisions, one event for each, and the
      whole series of delays; but after one call if asking for a revision makes no event. */
  lemma RefusedUntilSpent(cfg: Config, response: Response, path: Option<string>, warnings: bool, file: EventFile)
    requires !Approved(Some(response), cfg.revisionQualityThreshold) && cfg.maxRetries >= 0 && cfg.maxRevisionAttempts >= 0
    ensures var final := Run(cfg, (n: int) => Quiet(Returned(path, Some(response), warnings)), Start(file));
            var revised := if MakesEvent(response, cfg.revisionQualityThreshold) then cfg.maxRevisionAttempts else 0;
            && final.Ended? && !final.result.success && final.result.severity == Some(Recoverable)
            && final.result.stopReason == MaxRevisionAttempts
            && final.last.calls == revised + 1 && NextId(final.last.file) == NextId(file) + revised
            && final.last.sleptMs == RevisionSleep(cfg, revised)
  {
    RefusedFrom(cfg, response, path, warnings, NextId(file), Start(file));
  }

  // ----- The same failure again and again

  predicate IsRevisable(failure: Failure) { failure.severity == Recoverable && failure.revisable }

  /** Revisions are spent before retries. */
  ghost predicate Spending(cfg: Config, failure: Failure, st: LoopState) {
    && 0 <= st.transientRetries <= cfg.maxRetries && 0 <= st.revisionAttempts
    && (if IsRevisable(failure) then st.revisionAttempts <= cfg.maxRevisionAttempts else st.revisionAttempts == 0)
    && (IsRevisable(failure) && st.revisionAttempts < cfg.maxRevisionAttempts ==> st.transientRetries == 0)
    && st.attempt == st.transientRetries + st.revisionAttempts + 1 == st.calls + 1
    && st.sleptMs == RetrySleep(cfg, st.transientRetries) + RevisionSleep(cfg, st.revisionAttempts)
  }

  lemma {:induction false} FailsFrom(cfg: Config, failure: Failure, st: LoopState)
    requires cfg.maxRetries >= 0 && cfg.maxRevisionAttempts >= 0 && Spending(cfg, failure, st)
    requires failure.message != "ABORTED" && failure.severity != Fatal
    ensures var final := Run(cfg, (n: int) => Quiet(Raised(failure)), st);
            var revised := if IsRevisable(failure) then cfg.maxRevisionAttempts else 0;
            && final.Ended? && !final.result.success
            && final.result.severity == Some(if failure.severity == Recoverable then Recoverable else Fatal)
            && final.result.stopReason == (if IsRevisable(failure) then MaxRevisionAttempts else RetryBudgetExhausted)
            && final.last.calls == cfg.maxRetries + revised + 1
            && final.last.sleptMs == RetrySleep(cfg, cfg.maxRetries) + RevisionSleep(cfg, revised)
    decreases cfg.maxRetries + cfg.maxRevisionAttempts - st.transientRetries - st.revisionAttempts
  {
    hide RevisionDelay, RetryDelay, CatchStatus, Appended, Marked;
    var outcome := AttemptOnce(cfg, st, Quiet(Raised(failure)));
    if outcome.Continue? {
      FailsFrom(cfg, failure, outcome.next);
    }
  }

  /** What a failure costs that the invoker raises every time: an abort leaves at once, a fatal one
      ends the invocation at once; a recoverable one that may be revised uses up the revisions and
      then the retries, with both series of delays; any other one the retries alone. */
  lemma FailureCosts(cfg: Config, failure: Failure, file: EventFile)
    requires cfg.maxRetries >= 0 && cfg.maxRevisionAttempts >= 0
    ensures var final := Run(cfg, (n: int) => Quiet(Raised(failure)), Start(file));
            var revised := if IsRevisable(failure) then cfg.maxRevisionAttempts else 0;
            if failure.message == "ABORTED" then final.Escaped? && final.failure == failure && final.last.calls == 1
            else if failure.severity == Fatal then
              && final.Ended? && final.result == Result(false, Some(Fatal), FatalError, None)
              && final.last.calls == 1 && final.last.sleptMs == 0.0
            else
              && final.Ended? && !final.result.success
              && final.result.severity == Some(if failure.severity == Recoverable then Recoverable else Fatal)
              && final.result.stopReason == (if IsRevisable(failure) then MaxRevisionAttempts else RetryBudgetExhausted)
              && final.last.calls == cfg.maxRetries + revised + 1
              && final.last.sleptMs == RetrySleep(cfg, cfg.maxRetries) + RevisionSleep(cfg, revised)
  {
    if failure.message != "ABORTED" && failure.severity != Fatal {
      FailsFrom(cfg, failure, Start(file));
    }
  }

  /** Retries log what they are: a timeout as such, and otherwise a retry while one is left by the
      attempt's number, then a failure. */
  lemma {:induction false} RetriesAreLogged(cfg: Config, failure: Failure, st: LoopState)
    requires cfg.maxRetries >= 0 && cfg.maxRevisionAttempts >= 0 && !IsRevisable(failure)
    requires failure.message != "ABORTED" && failure.severity != Fatal && Spending(cfg, failure, st)
    requires |st.log| == st.calls && st.lastEvent == None
    ensures var log := Run(cfg, (n: int) => Quiet(Raised(failure)), st).last.log;
            && |log| == cfg.maxRetries + 1 && st.log <= log
            && forall i :: |st.log| <= i < |log| ==>
                 log[i] == LogEntry(i + 1, if failure.message == "TIMEOUT" then TimedOut
                                           else if i < cfg.maxRetries then Retry else Failed, 0, None)
    decreases cfg.maxRetries - st.transientRetries
  {
    hide RevisionDelay, RetryDelay, Appended, Marked;
    var outcome := AttemptOnce(cfg, st, Quiet(Raised(failure)));
    if outcome.Continue? {
      RetriesAreLogged(cfg, failure, outcome.next);
    }
  }

  // ----- Delays

  /** What the settings make of the first delay and of each next one: it doubles, never above the cap. */
  ghost predicate Doubles(delay: int -> real, baseMs: Option<real>, capMs: Option<real>) {
    var base, cap := if baseMs.Some? then baseMs.value else 2000.0, if capMs.Some? then capMs.value else 30000.0;
    && delay(1) == (if base < cap then base else cap)
    && forall k :: k >= 1 ==> var twice := 2.0 * delay(k); delay(k + 1) == if twice < cap then twice else cap
  }

  lemma DelayDoubles(baseMs: Option<real>, capMs: Option<real>, k: int)
    requires OrElse(baseMs, 0.0) >= 0.0 && OrElse(capMs, 0.0) >= 0.0 && k >= 1
    ensures var base, cap := if baseMs.Some? then baseMs.value else 2000.0, if capMs.Some? then capMs.value else 30000.0;
            && DelayMs(baseMs, capMs, 1) == (if base < cap then base else cap)
            && var twice := 2.0 * DelayMs(baseMs, capMs, k);
               DelayMs(baseMs, capMs, k + 1) == if twice < cap then twice else cap
  {
    assert Pow2(k) == 2.0 * Pow2(k - 1);
    var base := OrElse(baseMs, DEFAULT_BACKOFF_BASE_MS);
    assert base * (2.0 * Pow2(k - 1)) == 2.0 * (base * Pow2(k - 1));
  }

  lemma BackoffDoubles(baseMs: Option<real>, capMs: Option<real>)
    requires OrElse(baseMs, 0.0) >= 0.0 && OrElse(capMs, 0.0) >= 0.0
    ensures Doubles((k: int) => DelayMs(baseMs, capMs, k), baseMs, capMs)
  {
    hide DelayMs;
    var delay := (k: int) => DelayMs(baseMs, capMs, k);
    DelayDoubles(baseMs, capMs, 1);
    forall k: int | k >= 1
      ensures var cap, twice := if capMs.Some? then capMs.value else 30000.0, 2.0 * delay(k);
              delay(k + 1) == if twice < cap then twice else cap
    {
      DelayDoubles(baseMs, capMs, k);
    }
  }

  /** Retries and revisions back off by their own settings. */
  lemma DelaysDouble(cfg: Config)
    requires OrElse(cfg.backoffBaseMs, 0.0) >= 0.0 && OrElse(cfg.backoffCapMs, 0.0) >= 0.0
    requires OrElse(cfg.revisionBackoffBaseMs, 0.0) >= 0.0 && OrElse(cfg.revisionBackoffCapMs, 0.0) >= 0.0
    ensures Doubles((k: int) => RetryDelay(cfg, k), cfg.backoffBaseMs, cfg.backoffCapMs)
    ensures Doubles((k: int) => RevisionDelay(cfg, k), cfg.revisionBackoffBaseMs, cfg.revisionBackoffCapMs)
  {
    BackoffDoubles(cfg.backoffBaseMs, cfg.backoffCapMs);
    BackoffDoubles(cfg.revisionBackoffBaseMs, cfg.revisionBackoffCapMs);
    hide DelayMs;
    var retry, revision := (k: int) => DelayMs(cfg.backoffBaseMs, cfg.backoffCapMs, k),
                           (k: int) => DelayMs(cfg.revisionBackoffBaseMs, cfg.revisionBackoffCapMs, k);
    assert forall k :: RetryDelay(cfg, k) == retry(k) && RevisionDelay(cfg, k) == revision(k);
  }

  lemma DefaultBackoff()
    ensures DelayMs(None, None, 1) == 2000.0 && DelayMs(None, None, 2) == 4000.0 && DelayMs(None, None, 3) == 8000.0
    ensures DelayMs(None, None, 4) == 16000.0 && DelayMs(None, None, 5) == 30000.0
  {
    BackoffDoubles(None, None);
    var delay := (k: int) => DelayMs(None, None, k);
    assert delay(2) == 4000.0 && delay(3) == 8000.0 && delay(4) == 16000.0 && delay(5) == 30000.0;
  }

  // ----- Results

  /** What a result says, reason by reason. */
  ghost predicate Explains(cfg: Config, result: Result, last: Attempt, st: LoopState) {
    match result.stopReason
    case Approved => result == Result(true, None, StopReason.Approved, None)
    case ContinuityBroken =>
      && result == Result(false, Some(Recoverable), ContinuityBroken, None)
      && cfg.enforceContinuity && last.call.Returned? && last.call.continuityWarnings
    case FatalError => result == Result(false, Some(Fatal), FatalError, None)
    case MaxRevisionAttempts => result == Result(false, Some(Recoverable), MaxRevisionAttempts, st.lastEvent)
    case RetryBudgetExhausted =>
      && result.severity in {Some(Recoverable), Some(Fatal)} && st.transientRetries >= cfg.maxRetries
      && result == Result(false, result.severity, RetryBudgetExhausted, st.lastEvent)
  }

  lemma AttemptExplains(cfg: Config, st: LoopState, o: Attempt)
    ensures var outcome := AttemptOnce(cfg, st, o); outcome.Return? ==> Explains(cfg, outcome.result, o, outcome.last)
  {
    hide DecideFromResponse, RevisionNeeded, Appended, Marked;
  }

  /** Every result of an invocation says why it ended: an approval names no fault and no event, a
      spent budget names the newest event, a broken continuity and a fatal failure none. */
  lemma ResultExplains(cfg: Config, oracle: int -> Attempt, file: EventFile)
    ensures var final := Run(cfg, oracle, Start(file));
            final.Ended? ==> Explains(cfg, final.result, oracle(final.last.calls), final.last)
  {
    hide Run, StateAt, AttemptOnce, Explains;
    var final := Run(cfg, oracle, Start(file));
    StartIsCounted(cfg, oracle, file);
    SucceedsFrom(cfg, oracle, file, Start(file));
    if final.Ended? {
      AttemptExplains(cfg, StateAt(cfg, oracle, file, final.last.calls), oracle(final.last.calls));
    }
  }

  /** When the body of an attempt ends the invocation, the entry it logs last carries the revisions
      made and the newest event. */
  lemma VerdictEntry(cfg: Config, st: LoopState, o: Attempt)
    requires o.call.Returned? && o.tryLog.None? && o.tryAppend.fault.None? && !o.tryMark.Broken?
    ensures var outcome := AttemptOnce(cfg, st, o);
            && !outcome.Throw?
            && (outcome.Return? ==>
                  outcome.last.log == st.log + [LogEntry(st.attempt, if outcome.result.success then Success else Failed,
                                                         outcome.last.revisionAttempts, outcome.last.lastEvent)])
            && (outcome.Continue? ==>
                  outcome.next.log == st.log + [LogEntry(st.attempt, Retry, outcome.next.revisionAttempts, outcome.next.lastEvent)])
  {
    hide DecideFromResponse, RevisionNeeded, Appended, Marked;
  }

  /** An exception leaves an attempt whose call failed exactly when it is an abort, or when the
      handler's own event, mark or log entry throws; only a revisable failure is marked in the end. */
  lemma EscapesIff(cfg: Config, st: LoopState, o: Attempt)
    requires o.call.Raised?
    ensures var failure := o.call.failure;
            AttemptOnce(cfg, st, o).Throw? <==>
            || failure.message == "ABORTED"
            || (if IsRevisable(failure) && st.revisionAttempts < cfg.maxRevisionAttempts then
                  o.catchAppend.fault.Some? || o.catchMark.Broken? || o.catchLog.Some?
                else
                  || o.catchLog.Some?
                  || (IsRevisable(failure) && st.transientRetries >= cfg.maxRetries && st.lastEvent.Some? && o.finalMark.Broken?))
  {
    hide Appended, Marked;
  }

  /** A failed call is logged once when nothing throws in the handler: as a retry with its new event
      when it is revised, and otherwise with what its attempt number makes of it and the revisions
      made before. */
  lemma RaisedEntry(cfg: Config, st: LoopState, o: Attempt)
    requires o.call.Raised? && !AttemptOnce(cfg, st, o).Throw?
    ensures var outcome, failure := AttemptOnce(cfg, st, o), o.call.failure;
            if IsRevisable(failure) && st.revisionAttempts < cfg.maxRevisionAttempts then
              && outcome.Continue?
              && outcome.next.log == st.log + [LogEntry(st.attempt, Retry, st.revisionAttempts + 1, Some(NextId(st.file)))]
            else
              (if outcome.Continue? then outcome.next.log else outcome.last.log) ==
              st.log + [LogEntry(st.attempt,
                                 if failure.message == "TIMEOUT" then TimedOut
                                 else if failure.severity == Fatal || st.attempt > cfg.maxRetries then Failed else Retry,
                                 st.revisionAttempts, st.lastEvent)]
  {
    hide Appended, Marked;
  }
}
