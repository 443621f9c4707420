/** When an invocation asks for a self-revision, and the life of a revision event. */
module SelfRevision {
  import opened Sequences

  datatype Severity = Transient | Recoverable | Fatal

  /** An exception as the retry loop sees it: its message, what `classifyError` says of
      it, and whether the message matches the pattern of revisable errors. */
  datatype Failure = Failure(message: string, severity: Severity, revisable: bool)

  datatype Contract = Contract(status: Option<string>)

  datatype Quality = Quality(score: Option<real>, approvalSignal: Option<string>)

  datatype Response = Response(contractValidation: Option<Contract>, deliverableQuality: Option<Quality>)

  datatype Trigger = VerifierFindings | QualityBelowThreshold

  /** `finding` says whether the decision carries its one high-severity finding. */
  datatype Decision = Decision(trigger: Trigger, qualityScore: Option<real>, qualityThreshold: real, finding: bool)

  /** Scores of at most 1 are fractions; larger ones are percentages already. */
  function NormalizePercent(value: Option<real>, fallback: real): real {
    if value.None? then fallback else if value.value <= 1.0 then value.value * 100.0 else value.value
  }

  function ScoreOf(quality: Option<Quality>): real {
    NormalizePercent(if quality.Some? then quality.value.score else None, 100.0)
  }

  function DecideFromResponse(response: Option<Response>, threshold: real): Option<Decision> {
    if response.None? then None
    else
      var contract, quality := response.value.contractValidation, response.value.deliverableQuality;
      var score := ScoreOf(quality);
      var approved := quality.Some? && quality.value.approvalSignal == Some("approve");
      if contract.None? && quality.None? then None
      else if (contract.None? || contract.value.status == Some("passed"))
              && (quality.None? || (approved && score >= threshold)) then None
      else if contract.Some? && contract.value.status == Some("failed") then
        Some(Decision(VerifierFindings, Some(score), threshold, true))
      else if quality.Some? && (!approved || score < threshold) then
        Some(Decision(QualityBelowThreshold, Some(score), threshold, false))
      else None
  }

  function DecideFromError(failure: Failure, threshold: real): Option<Decision> {
    if failure.severity != Recoverable || !failure.revisable then None
    else Some(Decision(VerifierFindings, None, threshold, true))
  }

  const DEFAULT_QUALITY_THRESHOLD := 75.0

  /** Whether `evaluateRevisionNeed` makes an event; it normalises both numbers again. */
  predicate RevisionNeeded(decision: Decision) {
    decision.finding ||
    NormalizePercent(decision.qualityScore, 100.0)
      < NormalizePercent(Some(decision.qualityThreshold), DEFAULT_QUALITY_THRESHOLD)
  }

  /** A decision on an error always becomes an event. */
  lemma ErrorDecisionNeedsRevision(failure: Failure, threshold: real)
    ensures DecideFromError(failure, threshold).Some? ==> RevisionNeeded(DecideFromError(failure, threshold).value)
  {
  }

  /** What a score or threshold, already normalised once, counts for in `evaluateRevisionNeed`. */
  function Again(percent: real): real { NormalizePercent(Some(percent), 0.0) }

  /** A response is refused without an event exactly when its contract did not fail, its score
      is good enough after the second normalisation, and either the approval is missing or the
      score was too low after the first one only. */
  lemma RefusedWithoutEventIff(response: Response, threshold: real)
    ensures var decision := DecideFromResponse(Some(response), threshold);
            var score := ScoreOf(response.deliverableQuality);
            decision.Some? && !RevisionNeeded(decision.value) <==>
            && (response.contractValidation.Some? ==> response.contractValidation.value.status != Some("failed"))
            && response.deliverableQuality.Some?
            && (response.deliverableQuality.value.approvalSignal != Some("approve") || score < threshold)
            && Again(score) >= Again(threshold)
  {
  }

  /** A score of one percent, given as a fraction, is too low at first and then counts as a
      hundred: the response is refused although it is approved. */
  lemma TinyScoreIsRefused()
    ensures var response := Response(None, Some(Quality(Some(0.01), Some("approve"))));
            var decision := DecideFromResponse(Some(response), 75.0);
            decision.Some? && !RevisionNeeded(decision.value)
  {
    RefusedWithoutEventIff(Response(None, Some(Quality(Some(0.01), Some("approve")))), 75.0);
  }

  // ----- Events

  datatype Status = Requested | Applied | Succeeded | Escalated

  datatype Event = Event(trigger: Trigger, status: Status)

  /** How the store behaves during an append: whether reading the file and then writing it
      works, and whether an exception leaves the append, because the directory cannot be made
      or the event cannot even be written alone. */
  datatype AppendAnswer = AppendAnswer(readOk: bool, writeOk: bool, fault: Option<Failure>)

  const CLEAN := AppendAnswer(true, true, None)

  /** The event goes behind the others; otherwise it is written alone. */
  predicate Added(answer: AppendAnswer) { answer.readOk && answer.writeOk }

  /** How marking an event ends; a file that cannot be read counts as an empty one. */
  datatype StoreAnswer = Stored | Unread | Broken(failure: Failure)

  /** The event file: the events it holds, and how many made before them it has lost. An
      event is known by its place among all events ever made. */
  datatype EventFile = EventFile(lost: nat, events: seq<Event>)

  function NextId(f: EventFile): nat { f.lost + |f.events| }

  /** A new event goes behind the others, or is written over them. */
  function Appended(f: EventFile, trigger: Trigger, added: bool): EventFile {
    var event := Event(trigger, Requested);
    if added then f.(events := f.events + [event]) else EventFile(NextId(f), [event])
  }

  predicate Holds(f: EventFile, id: nat) { f.lost <= id < NextId(f) }

  function Marked(f: EventFile, id: nat, status: Status, readable: bool): EventFile {
    if readable && Holds(f, id) then f.(events := f.events[id - f.lost := f.events[id - f.lost].(status := status)]) else f
  }

  function EventOf(f: EventFile, id: nat): Option<Event> {
    if Holds(f, id) then Some(f.events[id - f.lost]) else None
  }

  /** What an append leaves of every event: all of them, or none but the new one when the
      event had to be written alone. */
  lemma AppendKeeps(f: EventFile, trigger: Trigger, added: bool, id: nat)
    ensures EventOf(Appended(f, trigger, added), id) ==
            if id == NextId(f) then Some(Event(trigger, Requested)) else if added then EventOf(f, id) else None
  {
  }

  /** Marking touches the named event alone, and nothing if the file cannot be read. */
  lemma MarkChangesOne(f: EventFile, k: nat, status: Status, readable: bool, id: nat)
    ensures var event := EventOf(f, id);
            EventOf(Marked(f, k, status, readable), id) ==
            if event.Some? && id == k && readable then Some(event.value.(status := status)) else event
  {
  }

  class RevisionLedger {
    var file: EventFile

    constructor ()
      ensures file == EventFile(0, [])
    {
      file := EventFile(0, []);
    }

    /** An exception leaves the file as it was; short of that, one failure, of the read or of
        the first write, is enough to write the event alone. */
    method Append(trigger: Trigger, answer: AppendAnswer) returns (id: Option<nat>)
      modifies this
      ensures id == if answer.fault.Some? then None else Some(NextId(old(file)))
      ensures file == if answer.fault.Some? then old(file) else Appended(old(file), trigger, Added(answer))
    {
      if answer.fault.Some? {
        return None;
      }
      var next := file.lost + |file.events|;
      if answer.readOk {
        var existing := file.events;
        if answer.writeOk {
          file := file.(events := existing + [Event(trigger, Requested)]);
          return Some(next);
        }
      }
      file := EventFile(next, [Event(trigger, Requested)]);
      id := Some(next);
    }

    /** `updateEvent`: an unknown id changes nothing, nor does a file that cannot be read. */
    method Mark(id: nat, status: Status, readable: bool) returns (found: bool)
      modifies this
      ensures found <==> readable && Holds(old(file), id)
      ensures file == Marked(old(file), id, status, readable)
    {
      found := readable && file.lost <= id < file.lost + |file.events|;
      if found {
        var place := id - file.lost;
        file := file.(events := file.events[place := file.events[place].(status := status)]);
      }
    }
  }
}
