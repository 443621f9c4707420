/** The retry loop as the dispatcher runs it, with its variables updated in place. */
module Dispatcher {
  import opened Sequences
  import opened SelfRevision
  import opened InvocationLoop

  /** How one attempt leaves its block. */
  datatype Flow =
    | GoOn
    | Leave(result: Result)
    | Rethrow(failure: Failure)
    | Fault(failure: Failure, logged: bool, stamp: Stamp)

  function OutcomeOf(flow: Flow, st: LoopState): Outcome {
    match flow
    case GoOn => Continue(st)
    case Leave(result) => Return(result, st)
    case Rethrow(failure) => Throw(failure, st)
    case Fault(failure, logged, stamp) => Caught(failure, st, logged, stamp)
  }

  class Invocation {
    const cfg: Config
    var attempt: int
    var transientRetries: int
    var revisionAttempts: int
    var lastEvent: Option<nat>
    var log: seq<LogEntry>
    var sleptMs: real
    const ledger: RevisionLedger
    ghost var calls: nat
    ghost var relogged: nat

    ghost function View(): LoopState
      reads this, ledger
    {
      LoopState(attempt, transientRetries, revisionAttempts, lastEvent, log, ledger.file, sleptMs, calls, relogged)
    }

    constructor (cfg: Config, ledger: RevisionLedger)
      ensures this.cfg == cfg && this.ledger == ledger && View() == Start(ledger.file)
    {
      this.cfg, this.ledger := cfg, ledger;
      attempt, transientRetries, revisionAttempts, lastEvent := 1, 0, 0, None;
      log, sleptMs, calls, relogged := [], 0.0, 0, 0;
    }

    method Sleep(ms: real)
      modifies this`attempt, this`sleptMs
      ensures View() == NextAttempt(old(View()), ms)
    {
      sleptMs := sleptMs + ms;
      attempt := attempt + 1;
    }

    method MarkLastEvent(status: Status, answer: StoreAnswer)
      modifies ledger
      ensures View() == MarkLast(old(View()), status, answer)
    {
      if lastEvent.Some? {
        var _ := ledger.Mark(lastEvent.value, status, answer.Stored?);
      }
    }

    /** The response asked for a revision that it does not get. */
    method RefuseResponse(o: Attempt, start: Stamp) returns (flow: Flow)
      modifies this, ledger
      ensures OutcomeOf(flow, View()) == Refuse(old(View()), o, start)
    {
      if lastEvent.Some? && o.tryMark.Broken? {
        return Fault(o.tryMark.failure, false, start);
      }
      MarkLastEvent(Escalated, o.tryMark);
      log := log + [LogEntry(attempt, Failed, revisionAttempts, lastEvent)];
      if o.tryLog.Some? {
        return Fault(o.tryLog.value, true, Stamp(revisionAttempts, lastEvent));
      }
      flow := Leave(Result(false, Some(Recoverable), MaxRevisionAttempts, lastEvent));
    }

    method ReviseResponse(decision: Decision, o: Attempt) returns (flow: Flow)
      modifies this, ledger
      ensures OutcomeOf(flow, View()) == Revise(cfg, old(View()), decision, o)
    {
      var start := Stamp(revisionAttempts, lastEvent);
      revisionAttempts := revisionAttempts + 1;
      if !RevisionNeeded(decision) {
        flow := RefuseResponse(o, start);
        return;
      }
      var id := ledger.Append(decision.trigger, o.tryAppend);
      if id.None? {
        return Fault(o.tryAppend.fault.value, false, start);
      }
      lastEvent := id;
      if o.tryMark.Broken? {
        return Fault(o.tryMark.failure, false, start);
      }
      MarkLastEvent(Applied, o.tryMark);
      log := log + [LogEntry(attempt, Retry, revisionAttempts, lastEvent)];
      if o.tryLog.Some? {
        return Fault(o.tryLog.value, true, Stamp(revisionAttempts, lastEvent));
      }
      Sleep(RevisionDelay(cfg, revisionAttempts));
      flow := GoOn;
    }

    method AcceptResponse(warnings: bool, o: Attempt) returns (flow: Flow)
      modifies this, ledger
      ensures OutcomeOf(flow, View()) == Accept(cfg, old(View()), warnings, o)
    {
      if cfg.enforceContinuity && warnings {
        log := log + [LogEntry(attempt, Failed, revisionAttempts, lastEvent)];
        if o.tryLog.Some? {
          return Fault(o.tryLog.value, true, Stamp(revisionAttempts, lastEvent));
        }
        return Leave(Result(false, Some(Recoverable), ContinuityBroken, None));
      }
      if lastEvent.Some? && o.tryMark.Broken? {
        return Fault(o.tryMark.failure, false, Stamp(revisionAttempts, lastEvent));
      }
      MarkLastEvent(Succeeded, o.tryMark);
      log := log + [LogEntry(attempt, Success, revisionAttempts, lastEvent)];
      if o.tryLog.Some? {
        return Fault(o.tryLog.value, true, Stamp(revisionAttempts, lastEvent));
      }
      flow := Leave(Result(true, None, Approved, None));
    }

    method TryBody(o: Attempt) returns (flow: Flow)
      modifies this, ledger
      ensures OutcomeOf(flow, View()) == TryBlock(cfg, old(View()).(calls := old(calls) + 1), o)
    {
      calls := calls + 1;
      match o.call {
        case Raised(failure) =>
          flow := Fault(failure, false, Stamp(revisionAttempts, lastEvent));
        case Returned(_, response, warnings) =>
          var decision := DecideFromResponse(response, cfg.revisionQualityThreshold);
          if decision.None? {
            flow := AcceptResponse(warnings, o);
          } else if revisionAttempts < cfg.maxRevisionAttempts {
            flow := ReviseResponse(decision.value, o);
          } else {
            flow := RefuseResponse(o, Stamp(revisionAttempts, lastEvent));
          }
      }
    }

    /** `entry` is one object: what the handler writes shows wherever it was logged. */
    method LogInHandler(entry: LogEntry, logged: bool)
      modifies this`log, this`relogged
      ensures View() == Relog(old(View()), entry, logged)
    {
      if logged && log != [] {
        log := log[|log| - 1 := entry];
        relogged := relogged + 1;
      }
      log := log + [entry];
    }

    method HandleFailure(failure: Failure, logged: bool, stamp: Stamp, o: Attempt) returns (flow: Flow)
      modifies this, ledger
      ensures OutcomeOf(flow, View()) == CatchBlock(cfg, old(View()), failure, logged, stamp, o)
    {
      if failure.message == "ABORTED" {
        return Rethrow(failure);
      }
      var decision := DecideFromError(failure, cfg.revisionQualityThreshold);
      if decision.Some? && revisionAttempts < cfg.maxRevisionAttempts {
        ErrorDecisionNeedsRevision(failure, cfg.revisionQualityThreshold);
        flow := ReviseFailure(decision.value, logged, o);
        return;
      }
      LogInHandler(LogEntry(attempt, CatchStatus(cfg, attempt, failure), stamp.revisionAttempt, stamp.revisionEvent), logged);
      if o.catchLog.Some? {
        return Rethrow(o.catchLog.value);
      }
      flow := GiveUp(failure, decision.Some?, o);
    }

    method ReviseFailure(decision: Decision, logged: bool, o: Attempt) returns (flow: Flow)
      requires decision.trigger == VerifierFindings && RevisionNeeded(decision)
      modifies this, ledger
      ensures OutcomeOf(flow, View()) == CatchRevise(cfg, old(View()), logged, o)
    {
      revisionAttempts := revisionAttempts + 1;
      var id := ledger.Append(decision.trigger, o.catchAppend);
      if id.None? {
        return Rethrow(o.catchAppend.fault.value);
      }
      lastEvent := id;
      if o.catchMark.Broken? {
        return Rethrow(o.catchMark.failure);
      }
      MarkLastEvent(Applied, o.catchMark);
      LogInHandler(LogEntry(attempt, Retry, revisionAttempts, lastEvent), logged);
      if o.catchLog.Some? {
        return Rethrow(o.catchLog.value);
      }
      Sleep(RevisionDelay(cfg, revisionAttempts));
      flow := GoOn;
    }

    method GiveUp(failure: Failure, revisable: bool, o: Attempt) returns (flow: Flow)
      modifies this, ledger
      ensures OutcomeOf(flow, View()) == GiveUpOrRetry(cfg, old(View()), failure, revisable, o)
    {
      if failure.severity == Fatal {
        return Leave(Result(false, Some(Fatal), FatalError, None));
      }
      if transientRetries < cfg.maxRetries {
        transientRetries := transientRetries + 1;
        Sleep(RetryDelay(cfg, transientRetries));
        return GoOn;
      }
      if revisable && lastEvent.Some? && o.finalMark.Broken? {
        return Rethrow(o.finalMark.failure);
      }
      if revisable {
        MarkLastEvent(Escalated, o.finalMark);
      }
      flow := Leave(Result(false, Some(if failure.severity == Recoverable then Recoverable else Fatal),
                           if revisable then MaxRevisionAttempts else RetryBudgetExhausted, lastEvent));
    }

    method OneAttempt(o: Attempt) returns (flow: Flow)
      modifies this, ledger
      ensures OutcomeOf(flow, View()) == AttemptOnce(cfg, old(View()), o)
    {
      hide TryBlock, CatchBlock;
      flow := TryBody(o);
      if flow.Fault? {
        flow := HandleFailure(flow.failure, flow.logged, flow.stamp, o);
      }
    }

    /** `invoke`: runs exactly as `Run` says, for every behaviour of the outside. */
    method Invoke(oracle: int -> Attempt) returns (flow: Flow)
      modifies this, ledger
      ensures var final := Run(cfg, oracle, old(View()));
              && View() == final.last
              && flow == match final
                         case Ended(result, _) => Leave(result)
                         case Escaped(failure, _) => Rethrow(failure)
                         case FellThrough(_) => GoOn
    {
      hide TryBlock, CatchBlock, Handle, AttemptOnce;
      while attempt <= cfg.maxRetries + cfg.maxRevisionAttempts + 1
        invariant Run(cfg, oracle, View()) == Run(cfg, oracle, old(View()))
        decreases MaxTotalAttempts(cfg) - attempt
      {
        flow := OneAttempt(oracle(attempt));
        if !flow.GoOn? {
          return;
        }
      }
      flow := GoOn;
    }
  }
}
