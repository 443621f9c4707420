/** What an invocation leaves in the file of revision events. */
module RevisionEvents {
  import opened Sequences
  import opened SelfRevision
  import opened InvocationLoop
  import opened InvocationProperties

  // ----- The events of a run

  /** Marking works and the body's log callback does not throw; appends and the handler's
      callback may fail in any way. */
  ghost predicate MarksWork(o: Attempt) {
    o.tryMark.Stored? && o.catchMark.Stored? && o.finalMark.Stored? && o.tryLog.None?
  }

  /** The events made since `earlier` that are still in the file are applied, except that the
      newest may have moved on to `newest`; the loop knows which one that is. */
  ghost predicate EventsAre(earlier: EventFile, st: LoopState, newest: Status) {
    && NextId(st.file) >= NextId(earlier)
    && (st.lastEvent == if NextId(st.file) == NextId(earlier) then None else Some(NextId(st.file) - 1))
    && (st.lastEvent.Some? ==> st.file.events != [])
    && (forall id :: NextId(earlier) <= id < NextId(st.file) && Holds(st.file, id) ==>
          st.file.events[id - st.file.lost].status == if id == NextId(st.file) - 1 then newest else Applied)
  }

  function NewestStatus(result: Result): Status {
    match result.stopReason
    case Approved => Succeeded
    case MaxRevisionAttempts => Escalated
    case _ => Applied
  }

  ghost predicate EventsAfter(earlier: EventFile, outcome: Outcome) {
    match outcome
    case Continue(next) => EventsAre(earlier, next, Applied)
    case Return(result, last) => EventsAre(earlier, last, NewestStatus(result))
    case Throw(_, last) => EventsAre(earlier, last, Applied)
    case Caught(_, last, _, _) => EventsAre(earlier, last, Applied)
  }

  lemma MarkNewest(earlier: EventFile, st: LoopState, status: Status)
    requires EventsAre(earlier, st, Applied)
    ensures EventsAre(earlier, MarkLast(st, status, Stored), status)
  {
    var file := MarkLast(st, status, Stored).file;
    forall id | NextId(earlier) <= id < NextId(file) && Holds(file, id)
      ensures file.events[id - file.lost].status == if id == NextId(file) - 1 then status else Applied
    {
      assert Holds(st.file, id);
    }
  }

  lemma AddEvent(earlier: EventFile, st: LoopState, trigger: Trigger, answer: AppendAnswer)
    requires EventsAre(earlier, st, Applied)
    ensures EventsAre(earlier, MarkLast(WithEvent(st, trigger, answer), Applied, Stored), Applied)
  {
    var file := MarkLast(WithEvent(st, trigger, answer), Applied, Stored).file;
    assert file.events[|file.events| - 1] == Event(trigger, Applied);
    forall id | NextId(earlier) <= id < NextId(file) && Holds(file, id)
      ensures file.events[id - file.lost].status == Applied
    {
      if id < NextId(file) - 1 {
        assert Holds(st.file, id) && file.events[id - file.lost] == st.file.events[id - st.file.lost];
      }
    }
  }

  lemma RefuseEvents(earlier: EventFile, st: LoopState, o: Attempt, start: Stamp)
    requires EventsAre(earlier, st, Applied) && MarksWork(o)
    ensures EventsAfter(earlier, Refuse(st, o, start))
  {
    hide MarkLast;
    MarkNewest(earlier, st, Escalated);
  }

  lemma ReviseEvents(cfg: Config, earlier: EventFile, st: LoopState, decision: Decision, o: Attempt)
    requires EventsAre(earlier, st, Applied) && MarksWork(o)
    ensures EventsAfter(earlier, Revise(cfg, st, decision, o))
  {
    hide Refuse, MarkLast, WithEvent;
    var st1 := st.(revisionAttempts := st.revisionAttempts + 1);
    RefuseEvents(earlier, st1, o, StampOf(st));
    AddEvent(earlier, st1, decision.trigger, o.tryAppend);
  }

  lemma AcceptEvents(cfg: Config, earlier: EventFile, st: LoopState, warnings: bool, o: Attempt)
    requires EventsAre(earlier, st, Applied) && MarksWork(o)
    ensures EventsAfter(earlier, Accept(cfg, st, warnings, o))
  {
    hide MarkLast;
    MarkNewest(earlier, st, Succeeded);
  }

  lemma TryEvents(cfg: Config, earlier: EventFile, st: LoopState, o: Attempt)
    requires EventsAre(earlier, st, Applied) && MarksWork(o)
    ensures EventsAfter(earlier, TryBlock(cfg, st, o))
  {
    hide Refuse, Revise, Accept;
    if o.call.Returned? {
      var decision := DecideFromResponse(o.call.response, cfg.revisionQualityThreshold);
      RefuseEvents(earlier, st, o, StampOf(st));
      AcceptEvents(cfg, earlier, st, o.call.continuityWarnings, o);
      if decision.Some? {
        ReviseEvents(cfg, earlier, st, decision.value, o);
      }
    }
  }

  lemma CatchReviseEvents(cfg: Config, earlier: EventFile, st: LoopState, logged: bool, o: Attempt)
    requires EventsAre(earlier, st, Applied) && MarksWork(o)
    ensures EventsAfter(earlier, CatchRevise(cfg, st, logged, o))
  {
    hide MarkLast, WithEvent;
    AddEvent(earlier, st.(revisionAttempts := st.revisionAttempts + 1), VerifierFindings, o.catchAppend);
  }

  lemma GiveUpEvents(cfg: Config, earlier: EventFile, st: LoopState, failure: Failure, revisable: bool, o: Attempt)
    requires EventsAre(earlier, st, Applied) && MarksWork(o)
    ensures EventsAfter(earlier, GiveUpOrRetry(cfg, st, failure, revisable, o))
  {
    hide MarkLast;
    MarkNewest(earlier, st, Escalated);
  }

  lemma CatchEvents(cfg: Config, earlier: EventFile, st: LoopState, failure: Failure, logged: bool, stamp: Stamp, o: Attempt)
    requires EventsAre(earlier, st, Applied) && MarksWork(o)
    ensures EventsAfter(earlier, CatchBlock(cfg, st, failure, logged, stamp, o))
  {
    hide CatchRevise, GiveUpOrRetry, DecideFromError;
    CatchReviseEvents(cfg, earlier, st, logged, o);
    var entry := HandlerEntry(cfg, st, failure, stamp);
    GiveUpEvents(cfg, earlier, Relog(st, entry, logged), failure,
                 DecideFromError(failure, cfg.revisionQualityThreshold).Some?, o);
  }

  lemma {:induction false} RunEvents(cfg: Config, oracle: int -> Attempt, earlier: EventFile, st: LoopState)
    requires EventsAre(earlier, st, Applied) && forall n :: MarksWork(oracle(n))
    ensures var final := Run(cfg, oracle, st);
            EventsAre(earlier, final.last, if final.Ended? then NewestStatus(final.result) else Applied)
    decreases MaxTotalAttempts(cfg) - st.attempt
  {
    if st.attempt <= MaxTotalAttempts(cfg) {
      hide TryBlock, CatchBlock, EventsAre, MarksWork;
      var o, called := oracle(st.attempt), st.(calls := st.calls + 1);
      SameFile(earlier, st, called);
      TryEvents(cfg, earlier, called, o);
      var body := TryBlock(cfg, called, o);
      if body.Caught? {
        CatchEvents(cfg, earlier, body.caughtIn, body.failure, body.logged, body.stamp, o);
      }
      var outcome := AttemptOnce(cfg, st, o);
      if outcome.Continue? {
        RunEvents(cfg, oracle, earlier, outcome.next);
      }
    }
  }

  lemma SameFile(earlier: EventFile, st: LoopState, other: LoopState)
    requires EventsAre(earlier, st, Applied) && other.file == st.file && other.lastEvent == st.lastEvent
    ensures EventsAre(earlier, other, Applied)
  {
  }

  /** While marks work and the body's log callback does not throw, the newest event of a run
      tells how the run ended: succeeded for an approval, escalated when revisions ran out,
      applied otherwise; of its other events those still in the file are applied. */
  lemma NewestEventTellsTheEnd(cfg: Config, oracle: int -> Attempt, file: EventFile, id: nat)
    requires forall n :: MarksWork(oracle(n))
    requires id >= NextId(file)
    ensures var final := Run(cfg, oracle, Start(file));
            var after := final.last.file;
            && (final.last.lastEvent == if NextId(after) > NextId(file) then Some(NextId(after) - 1) else None)
            && (final.last.lastEvent == Some(id) ==>
                  EventOf(after, id).Some? &&
                  EventOf(after, id).value.status == if final.Ended? then NewestStatus(final.result) else Applied)
            && (final.last.lastEvent != Some(id) ==>
                  EventOf(after, id).Some? ==> EventOf(after, id).value.status == Applied)
  {
    hide Run, MarksWork;
    RunEvents(cfg, oracle, file, Start(file));
  }

  /** Once the body's log callback throws, the newest event can say that a run succeeded which
      has failed: a revision, an approval whose entry the callback rejects, a fatal verdict. */
  lemma CallbackFaultMisleads(cfg: Config, file: EventFile, response: Response, fault: Failure)
    requires cfg.maxRevisionAttempts >= 1 && cfg.maxRetries >= 0 && !cfg.enforceContinuity
    requires response.contractValidation == Some(Contract(Some("failed")))
    requires fault.severity == Fatal && fault.message != "ABORTED"
    ensures var oracle := (n: int) =>
              if n == 1 then Quiet(Returned(None, Some(response), false))
              else Quiet(Returned(None, None, false)).(tryLog := Some(fault));
            var final := Run(cfg, oracle, Start(file));
            && final.Ended? && !final.result.success
            && final.last.lastEvent == Some(NextId(file))
            && EventOf(final.last.file, NextId(file)) == Some(Event(VerifierFindings, Succeeded))
  {
    var oracle := (n: int) =>
      if n == 1 then Quiet(Returned(None, Some(response), false))
      else Quiet(Returned(None, None, false)).(tryLog := Some(fault));
    hide Pow2;
    var decision := DecideFromResponse(Some(response), cfg.revisionQualityThreshold);
    assert decision.Some? && decision.value.trigger == VerifierFindings && decision.value.finding;
    var called := Start(file).(calls := 1);
    var o1, o2 := Quiet(Returned(None, Some(response), false)), Quiet(Returned(None, None, false)).(tryLog := Some(fault));
    assert oracle(1) == o1 && oracle(2) == o2;
    assert TryBlock(cfg, called, o1) == Revise(cfg, called, decision.value, o1);
    var first := AttemptOnce(cfg, Start(file), o1);
    assert first.Continue? && first.next.file == EventFile(file.lost, file.events + [Event(VerifierFindings, Applied)]);
    assert first.next.attempt == 2 && first.next.lastEvent == Some(NextId(file));
    var second := AttemptOnce(cfg, first.next, o2);
    assert second.Return? && second.last.file == EventFile(file.lost, file.events + [Event(VerifierFindings, Succeeded)]);
  }

  // ----- Older events

  /** The body of the attempt writes its event over the others. */
  predicate BodyRewrites(cfg: Config, st: LoopState, o: Attempt) {
    && o.tryAppend.fault.None? && !Added(o.tryAppend)
    && o.call.Returned? && st.revisionAttempts < cfg.maxRevisionAttempts
    && var decision := DecideFromResponse(o.call.response, cfg.revisionQualityThreshold);
       decision.Some? && RevisionNeeded(decision.value)
  }

  /** So does the handler, for a failure that it may revise. */
  predicate HandlerRewrites(cfg: Config, st: LoopState, failure: Failure, o: Attempt) {
    && failure.message != "ABORTED" && st.revisionAttempts < cfg.maxRevisionAttempts
    && DecideFromError(failure, cfg.revisionQualityThreshold).Some?
    && o.catchAppend.fault.None? && !Added(o.catchAppend)
  }

  predicate AttemptRewrites(cfg: Config, st: LoopState, o: Attempt) {
    var body := TryBlock(cfg, st.(calls := st.calls + 1), o);
    BodyRewrites(cfg, st, o) || (body.Caught? && HandlerRewrites(cfg, body.caughtIn, body.failure, o))
  }

  /** Some event of the run is written over the others. */
  predicate Rewrites(cfg: Config, oracle: int -> Attempt, st: LoopState)
    decreases MaxTotalAttempts(cfg) - st.attempt
  {
    st.attempt <= MaxTotalAttempts(cfg) &&
    (AttemptRewrites(cfg, st, oracle(st.attempt)) ||
     var outcome := AttemptOnce(cfg, st, oracle(st.attempt));
     outcome.Continue? && Rewrites(cfg, oracle, outcome.next))
  }

  /** The older events are all gone, or all there and untouched. The loop only ever marks an
      event of its own. */
  ghost predicate OlderStand(earlier: EventFile, gone: bool, st: LoopState) {
    && (st.lastEvent.Some? ==> st.lastEvent.value >= NextId(earlier))
    && NextId(st.file) >= NextId(earlier)
    && (if gone then st.file.lost >= NextId(earlier) else st.file.lost == earlier.lost && earlier.events <= st.file.events)
  }

  ghost predicate OlderAfter(earlier: EventFile, gone: bool, outcome: Outcome) {
    match outcome
    case Continue(next) => OlderStand(earlier, gone, next)
    case Return(_, last) => OlderStand(earlier, gone, last)
    case Throw(_, last) => OlderStand(earlier, gone, last)
    case Caught(_, last, _, _) => OlderStand(earlier, gone, last)
  }

  lemma MarkStands(earlier: EventFile, gone: bool, st: LoopState, status: Status, answer: StoreAnswer)
    requires OlderStand(earlier, gone, st)
    ensures OlderStand(earlier, gone, MarkLast(st, status, answer))
  {
  }

  lemma AppendStands(earlier: EventFile, gone: bool, st: LoopState, trigger: Trigger, answer: AppendAnswer)
    requires OlderStand(earlier, gone, st)
    ensures OlderStand(earlier, gone || !Added(answer), WithEvent(st, trigger, answer))
  {
  }

  lemma RefuseStands(earlier: EventFile, gone: bool, st: LoopState, o: Attempt, start: Stamp)
    requires OlderStand(earlier, gone, st)
    ensures OlderAfter(earlier, gone, Refuse(st, o, start))
  {
    hide MarkLast;
    MarkStands(earlier, gone, st, Escalated, o.tryMark);
  }

  lemma ReviseStands(cfg: Config, earlier: EventFile, gone: bool, st: LoopState, decision: Decision, o: Attempt)
    requires OlderStand(earlier, gone, st)
    ensures OlderAfter(earlier, gone || (RevisionNeeded(decision) && o.tryAppend.fault.None? && !Added(o.tryAppend)),
                       Revise(cfg, st, decision, o))
  {
    hide MarkLast, WithEvent, Refuse, RevisionNeeded;
    var st1 := st.(revisionAttempts := st.revisionAttempts + 1);
    RefuseStands(earlier, gone, st1, o, StampOf(st));
    if o.tryAppend.fault.None? {
      AppendStands(earlier, gone, st1, decision.trigger, o.tryAppend);
      MarkStands(earlier, gone || !Added(o.tryAppend), WithEvent(st1, decision.trigger, o.tryAppend), Applied, o.tryMark);
    }
  }

  lemma TryStands(cfg: Config, earlier: EventFile, gone: bool, st: LoopState, o: Attempt)
    requires OlderStand(earlier, gone, st)
    ensures OlderAfter(earlier, gone || BodyRewrites(cfg, st, o), TryBlock(cfg, st, o))
  {
    hide MarkLast, Refuse, Revise, DecideFromResponse, RevisionNeeded;
    RefuseStands(earlier, gone, st, o, StampOf(st));
    MarkStands(earlier, gone, st, Succeeded, o.tryMark);
    if o.call.Returned? && DecideFromResponse(o.call.response, cfg.revisionQualityThreshold).Some? {
      ReviseStands(cfg, earlier, gone, st, DecideFromResponse(o.call.response, cfg.revisionQualityThreshold).value, o);
    }
  }

  lemma CatchReviseStands(cfg: Config, earlier: EventFile, gone: bool, st: LoopState, logged: bool, o: Attempt)
    requires OlderStand(earlier, gone, st)
    ensures OlderAfter(earlier, gone || (o.catchAppend.fault.None? && !Added(o.catchAppend)), CatchRevise(cfg, st, logged, o))
  {
    hide MarkLast, WithEvent;
    var st1 := st.(revisionAttempts := st.revisionAttempts + 1);
    if o.catchAppend.fault.None? {
      AppendStands(earlier, gone, st1, VerifierFindings, o.catchAppend);
      MarkStands(earlier, gone || !Added(o.catchAppend), WithEvent(st1, VerifierFindings, o.catchAppend), Applied, o.catchMark);
    }
  }

  lemma GiveUpStands(cfg: Config, earlier: EventFile, gone: bool, st: LoopState, failure: Failure, revisable: bool, o: Attempt)
    requires OlderStand(earlier, gone, st)
    ensures OlderAfter(earlier, gone, GiveUpOrRetry(cfg, st, failure, revisable, o))
  {
    hide MarkLast;
    MarkStands(earlier, gone, st, Escalated, o.finalMark);
  }

  lemma CatchStands(cfg: Config, earlier: EventFile, gone: bool, st: LoopState, failure: Failure, logged: bool,
                    stamp: Stamp, o: Attempt)
    requires OlderStand(earlier, gone, st)
    ensures OlderAfter(earlier, gone || HandlerRewrites(cfg, st, failure, o), CatchBlock(cfg, st, failure, logged, stamp, o))
  {
    hide CatchRevise, GiveUpOrRetry, DecideFromError;
    CatchReviseStands(cfg, earlier, gone, st, logged, o);
    var entry := HandlerEntry(cfg, st, failure, stamp);
    GiveUpStands(cfg, earlier, gone, Relog(st, entry, logged), failure,
                 DecideFromError(failure, cfg.revisionQualityThreshold).Some?, o);
  }

  /** Counting the call leaves the file and what the body does to it alone. */
  lemma CountingIsNeutral(cfg: Config, earlier: EventFile, gone: bool, st: LoopState, o: Attempt)
    requires OlderStand(earlier, gone, st)
    ensures var called := st.(calls := st.calls + 1);
            OlderStand(earlier, gone, called) && BodyRewrites(cfg, called, o) == BodyRewrites(cfg, st, o)
  {
    hide DecideFromResponse, RevisionNeeded;
  }

  lemma AttemptStands(cfg: Config, earlier: EventFile, gone: bool, st: LoopState, o: Attempt)
    requires OlderStand(earlier, gone, st)
    ensures OlderAfter(earlier, gone || AttemptRewrites(cfg, st, o), AttemptOnce(cfg, st, o))
  {
    hide TryBlock, CatchBlock, BodyRewrites, HandlerRewrites, OlderStand;
    var called := st.(calls := st.calls + 1);
    CountingIsNeutral(cfg, earlier, gone, st, o);
    TryStands(cfg, earlier, gone, called, o);
    var body := TryBlock(cfg, called, o);
    if body.Caught? {
      CatchStands(cfg, earlier, gone || BodyRewrites(cfg, called, o), body.caughtIn, body.failure, body.logged, body.stamp, o);
    }
  }

  lemma {:induction false} RunStands(cfg: Config, oracle: int -> Attempt, earlier: EventFile, gone: bool, st: LoopState)
    requires OlderStand(earlier, gone, st)
    ensures OlderStand(earlier, gone || Rewrites(cfg, oracle, st), Run(cfg, oracle, st).last)
    decreases MaxTotalAttempts(cfg) - st.attempt
  {
    if st.attempt <= MaxTotalAttempts(cfg) {
      hide AttemptOnce, AttemptRewrites, OlderStand;
      AttemptStands(cfg, earlier, gone, st, oracle(st.attempt));
      var outcome := AttemptOnce(cfg, st, oracle(st.attempt));
      if outcome.Continue? {
        RunStands(cfg, oracle, earlier, gone || AttemptRewrites(cfg, st, oracle(st.attempt)), outcome.next);
      }
    }
  }

  /** Whatever fails, a run never changes an event older than itself: each one is there as it
      was, unless the run has written an event of its own over them all. */
  lemma OlderEventsStand(cfg: Config, oracle: int -> Attempt, file: EventFile, id: nat)
    requires id < NextId(file)
    ensures var final := Run(cfg, oracle, Start(file));
            EventOf(final.last.file, id) == if Rewrites(cfg, oracle, Start(file)) then None else EventOf(file, id)
  {
    hide Run, Rewrites;
    RunStands(cfg, oracle, file, false, Start(file));
  }

  /** While every append goes behind the others, no older event is lost. */
  lemma {:induction false} AddedIsNotRewritten(cfg: Config, oracle: int -> Attempt, st: LoopState)
    requires forall n :: Added(oracle(n).tryAppend) && Added(oracle(n).catchAppend)
    ensures !Rewrites(cfg, oracle, st)
    decreases MaxTotalAttempts(cfg) - st.attempt
  {
    hide AttemptOnce, TryBlock, DecideFromResponse, DecideFromError, RevisionNeeded, Added;
    if st.attempt <= MaxTotalAttempts(cfg) {
      var outcome := AttemptOnce(cfg, st, oracle(st.attempt));
      if outcome.Continue? {
        AddedIsNotRewritten(cfg, oracle, outcome.next);
      }
    }
  }

  /** A file that can always be read does not help: the first write of the first event fails,
      the second one works, and every older event is lost, whatever happens afterwards. */
  lemma FailedWriteLosesOlder(cfg: Config, oracle: int -> Attempt, file: EventFile, response: Response, id: nat)
    requires cfg.maxRevisionAttempts >= 1 && cfg.maxRetries >= 0
    requires response.contractValidation == Some(Contract(Some("failed")))
    requires oracle(1) == Quiet(Returned(None, Some(response), false)).(tryAppend := AppendAnswer(true, false, None))
    requires Holds(file, id)
    ensures EventOf(file, id).Some? && EventOf(Run(cfg, oracle, Start(file)).last.file, id) == None
  {
    var decision := DecideFromResponse(Some(response), cfg.revisionQualityThreshold);
    assert decision.Some? && decision.value.finding;
    assert AttemptRewrites(cfg, Start(file), oracle(1));
    OlderEventsStand(cfg, oracle, file, id);
  }
}
