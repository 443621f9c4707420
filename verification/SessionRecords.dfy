/** What the session file says of the machine: its state, every move it has made, every gate
    result, and the flow it runs; and what a new engine reads back from that. */
module SessionRecords {
  import opened Sequences
  import opened SessionFiles
  import opened SessionEngine

  /** The object that stands for a move; its reason is there only if the move has one. */
  ghost predicate IsMove(json: Json, move: Move) {
    && json.Obj?
    && (forall name :: name in json.fields <==> name in {"from", "to", "timestamp"} || (name == "reason" && move.reason.Some?))
    && json.fields["from"] == Str(move.from) && json.fields["to"] == Str(move.to)
    && json.fields["timestamp"] == Str(move.timestamp)
    && (move.reason.Some? ==> json.fields["reason"] == Str(move.reason.value))
  }

  ghost predicate IsHistory(items: seq<Json>, history: seq<Move>) {
    |items| == |history| && forall i :: 0 <= i < |items| ==> IsMove(items[i], history[i])
  }

  /** An object with exactly the recorded gate results, each under its state. */
  ghost predicate IsGates(json: Json, gates: map<string, GateResult>) {
    json.Obj? && json.fields.Keys == gates.Keys && forall state :: state in gates ==> json.fields[state] == gates[state].json
  }

  ghost predicate SaysText(r: Record, k: Key, text: string) {
    text != "" ==> Lookup(r, k) == Some(Str(text))
  }

  ghost predicate IsSetup(r: Record, setup: Setup) {
    && Lookup(r, Mode) == Some(Str(setup.mode))
    && SaysText(r, FlowVersion, setup.flowVersion) && SaysText(r, FlowSource, setup.flowSource)
    && SaysText(r, FlowManifestVersion, setup.manifestVersion)
    && SaysText(r, FlowPackId, setup.packId) && SaysText(r, FlowPackName, setup.packName)
    && SaysText(r, FlowPackVersion, setup.packVersion)
  }

  /** The file has the machine written down in full. */
  ghost predicate Records(r: Record, setup: Setup, m: Machine) {
    && Lookup(r, Status) == Some(Str(m.state)) && IsSetup(r, setup)
    && Lookup(r, StateHistory).Some? && Lookup(r, StateHistory).value.Arr?
    && IsHistory(Lookup(r, StateHistory).value.items, m.history)
    && Lookup(r, GateResults).Some? && IsGates(Lookup(r, GateResults).value, m.gates)
  }

  lemma SerializeIsMachine(setup: Setup, m: Machine, now: string)
    ensures var s := Serialize(setup, m, now);
            && s.status == m.state && s.mode == setup.mode && s.lastUpdated == now && s.governanceMode == ""
            && s.stateHistory.Arr? && IsHistory(s.stateHistory.items, m.history) && IsGates(s.gateResults, m.gates)
  {
    forall i | 0 <= i < |m.history|
      ensures IsMove(MoveJson(m.history[i]), m.history[i])
    {
    }
  }

  /** Every save writes the machine down in full, under the time of the save. */
  lemma SaveRecords(setup: Setup, r: Record, m: Machine, now: string)
    ensures var t := Saved(r, Serialize(setup, m, now));
            Records(t, setup, m) && Lookup(t, LastUpdated) == Some(Str(now))
  {
    var s := Serialize(setup, m, now);
    SerializeIsMachine(setup, m, now);
    SavedLookup(r, s, Status);
    SavedLookup(r, s, Mode);
    SavedLookup(r, s, FlowVersion);
    SavedLookup(r, s, FlowSource);
    SavedLookup(r, s, FlowManifestVersion);
    SavedLookup(r, s, FlowPackId);
    SavedLookup(r, s, FlowPackName);
    SavedLookup(r, s, FlowPackVersion);
    SavedLookup(r, s, StateHistory);
    SavedLookup(r, s, GateResults);
    SavedLookup(r, s, LastUpdated);
    hide Saved, IsHistory, IsGates;
  }

  lemma ElsewhereRecords(r: Record, t: Record, setup: Setup, m: Machine)
    requires Records(r, setup, m)
    requires forall k :: !Marker(k) && k != DegradationLog ==> Lookup(t, k) == Lookup(r, k)
    ensures Records(t, setup, m)
  {
    hide IsHistory, IsGates, Lookup;
  }

  lemma IntentRecords(r: Record, to: string, now: string, id: string, setup: Setup, m: Machine)
    requires Records(r, setup, m)
    ensures Records(Intended(r, to, now, id), setup, m)
  {
    hide Records, Intended;
    forall k | !Marker(k)
      ensures Lookup(Intended(r, to, now, id), k) == Lookup(r, k)
    {
      IntendedElsewhere(r, to, now, id, k);
    }
    ElsewhereRecords(r, Intended(r, to, now, id), setup, m);
  }

  lemma CompleteRecords(r: Record, setup: Setup, m: Machine)
    requires Records(r, setup, m)
    ensures Records(Completed(r), setup, m)
  {
    hide Records, Completed;
    forall k | !Marker(k)
      ensures Lookup(Completed(r), k) == Lookup(r, k)
    {
      CompletedLookup(r, k);
    }
    ElsewhereRecords(r, Completed(r), setup, m);
  }

  lemma DegradeRecords(r: Record, entry: Json, setup: Setup, m: Machine)
    requires Records(r, setup, m)
    ensures Records(Degraded(r, entry), setup, m)
  {
    hide Records, Log;
    ElsewhereRecords(r, Degraded(r, entry), setup, m);
  }

  // ----- Operations

  /** The operation saves the machine: an advance unless it has no target, no lease or a fault
      before the machine moves; a recovery only in the error state. */
  predicate Saves(setup: Setup, m: Machine, op: Op) {
    match op
    case Advance(a) => NextState(setup, m.state).Some? && a.leaseGranted
                       && (a.hookError.Some? || (a.fault != Some(IntentEvent) && a.fault != Some(Renewal)))
    case LogDegradation(_, _) => false
    case PauseAtCheckpoint(_) => true
    case Fail(_, _, _) => true
    case Recover(_) => m.state == ERROR
  }

  lemma AdvanceRecords(setup: Setup, r: Record, m: Machine, resume: Option<Resume>, a: Attempt)
    requires Records(r, setup, m) || Saves(setup, m, Advance(a))
    ensures Records(Last(r, AdvanceWrites(setup, r, m, resume, a)), setup, AdvancedMachine(setup, m, a))
  {
    hide Records, Saved, Intended, Completed, Serialize;
    var outcome, after := AdvanceOutcome(setup, m, a), AdvancedMachine(setup, m, a);
    match outcome {
      case NoTarget =>
      case LeaseRefused =>
      case HookFailed => SaveRecords(setup, r, after, a.savedAt);
      case Interrupted =>
        var to := NextState(setup, m.state).value;
        IntentRecords(r, to, a.intendedAt, TransitionIdFor(resume, to, a.freshId), setup, m);
      case GateFailed =>
        var to := NextState(setup, m.state).value;
        var intent := Intended(r, to, a.intendedAt, TransitionIdFor(resume, to, a.freshId));
        SaveRecords(setup, Saved(intent, Serialize(setup, Gated(m, a.gate), a.gatedAt)), after, a.savedAt);
      case _ =>
        AdvanceIsOneSave(setup, r, m, resume, a);
        SaveRecords(setup, r, after, a.savedAt);
        CompleteRecords(Saved(r, Serialize(setup, after, a.savedAt)), setup, after);
    }
  }

  lemma StepRecords(setup: Setup, s: Session, op: Op)
    requires Records(s.record, setup, s.machine) || Saves(setup, s.machine, op)
    ensures Records(Step(setup, s, op).record, setup, Step(setup, s, op).machine)
  {
    hide Records, Saved, Completed, Degraded, Serialize;
    var after := MachineAfter(setup, s.machine, op);
    match op {
      case Advance(a) => AdvanceRecords(setup, s.record, s.machine, s.resume, a);
      case LogDegradation(entry, now) => DegradeRecords(s.record, EntryJson(entry, s.machine.state, now), setup, s.machine);
      case PauseAtCheckpoint(now) =>
        SaveRecords(setup, s.record, s.machine, now);
        CompleteRecords(Saved(s.record, Serialize(setup, s.machine, now)), setup, s.machine);
      case Fail(_, _, savedAt) => SaveRecords(setup, s.record, after, savedAt);
      case Recover(now) => SaveRecords(setup, s.record, after, now);
    }
  }

  /** Some operation of the run saves. */
  predicate SavesInRun(setup: Setup, s: Session, ops: seq<Op>) {
    ops != [] &&
    var init := ops[..|ops| - 1];
    SavesInRun(setup, s, init) || Saves(setup, Run(setup, s, init).machine, ops[|ops| - 1])
  }

  /** After any run in which something was saved the file has the machine written down in full:
      its state, its moves in order, its gate results and its flow. */
  lemma {:induction false} RunRecords(setup: Setup, s: Session, ops: seq<Op>)
    requires Records(s.record, setup, s.machine) || SavesInRun(setup, s, ops)
    ensures Records(Run(setup, s, ops).record, setup, Run(setup, s, ops).machine)
    decreases ops
  {
    if ops != [] {
      hide Records, Saves, Step;
      var init := ops[..|ops| - 1];
      if Records(s.record, setup, s.machine) || SavesInRun(setup, s, init) {
        RunRecords(setup, s, init);
      }
      StepRecords(setup, Run(setup, s, init), ops[|ops| - 1]);
    }
  }

  /** Every record that an advance leaves on disk, and so every crash in it, has the machine
      written down as it was, with the new gate result, or as it is afterwards. */
  lemma AdvanceImagesRecord(setup: Setup, r: Record, m: Machine, resume: Option<Resume>, a: Attempt, i: nat)
    requires Records(r, setup, m) && i < |AdvanceWrites(setup, r, m, resume, a)|
    ensures var image := AdvanceWrites(setup, r, m, resume, a)[i];
            Records(image, setup, m) || Records(image, setup, Gated(m, a.gate)) || Records(image, setup, AdvancedMachine(setup, m, a))
  {
    hide Records, Saved, Intended, Completed, Serialize;
    var outcome, after := AdvanceOutcome(setup, m, a), AdvancedMachine(setup, m, a);
    if outcome.HookFailed? {
      SaveRecords(setup, r, after, a.savedAt);
    } else {
      var to := NextState(setup, m.state).value;
      var id := TransitionIdFor(resume, to, a.freshId);
      var intent, gate := Intended(r, to, a.intendedAt, id), Serialize(setup, Gated(m, a.gate), a.gatedAt);
      IntentRecords(r, to, a.intendedAt, id, setup, m);
      SaveRecords(setup, intent, Gated(m, a.gate), a.gatedAt);
      SaveRecords(setup, intent, after, a.savedAt);
      SaveRecords(setup, Saved(intent, gate), after, a.savedAt);
      CompleteRecords(Saved(intent, Serialize(setup, after, a.savedAt)), setup, after);
      CompleteRecords(Saved(Saved(intent, gate), Serialize(setup, after, a.savedAt)), setup, after);
    }
  }

  // ----- Starting again

  /** `decode` reads the objects that stand for moves. */
  ghost predicate Reads(decode: seq<Json> -> seq<Move>) {
    forall items, history :: IsHistory(items, history) ==> decode(items) == history
  }

  lemma OneMove(json: Json, a: Move, b: Move)
    requires IsMove(json, a) && IsMove(json, b)
    ensures a == b
  {
    assert a.reason.Some? <==> "reason" in json.fields;
    assert b.reason.Some? <==> "reason" in json.fields;
    assert a.reason == b.reason;
  }

  /** There is such a reader: the objects leave no choice of the moves. */
  lemma OneHistory(items: seq<Json>, a: seq<Move>, b: seq<Move>)
    requires IsHistory(items, a) && IsHistory(items, b)
    ensures a == b
  {
    forall i | 0 <= i < |a|
      ensures a[i] == b[i]
    {
      OneMove(items[i], a[i], b[i]);
    }
  }

  /** An engine started on a file that has a machine written down is in its state with its
      history, if the flow has that state, and then only; the idle state starts without one. */
  lemma RestartKeepsIff(setup: Setup, r: Record, m: Machine, replay: Option<Replay>, states: set<string>,
                        decode: seq<Json> -> seq<Move>)
    requires Records(r, setup, m) && Reads(decode)
    requires !InProgress(r) || replay.None?
    ensures var start := StartRecord(r, replay);
            StartState(start, states) == m.state && StartHistory(start, states, decode) == m.history <==>
            if m.state == IDLE then m.history == [] else m.state != "" && m.state in states
  {
    assert Loaded(r) == r && StartRecord(r, replay) == r;
    assert IsHistory(Lookup(r, StateHistory).value.items, m.history);
  }

  /** After an interrupted transition the event log, where it has transitions, decides instead:
      whatever the file says, the engine starts in the state replayed with the moves replayed. */
  lemma RestartReplays(r: Record, replay: Replay, items: seq<Json>, states: set<string>, decode: seq<Json> -> seq<Move>)
    requires HasStatus(r) && InProgress(r) && replay.moves == Arr(items)
    requires replay.state in states && replay.state !in {"", IDLE}
    ensures var start := StartRecord(r, Some(replay));
            StartState(start, states) == replay.state && StartHistory(start, states, decode) == decode(items)
  {
  }

  /** A crash and a restart in the error state change nothing of what recovery does: it comes to
      the same state, after any run in which something was saved. */
  lemma RestartRecoversTheSame(setup: Setup, s: Session, ops: seq<Op>, states: set<string>,
                               decode: seq<Json> -> seq<Move>, now: string)
    requires Records(s.record, setup, s.machine) || SavesInRun(setup, s, ops)
    requires Reads(decode) && ERROR in states
    requires Run(setup, s, ops).machine.state == ERROR && !InProgress(Run(setup, s, ops).record)
    ensures var end := Run(setup, s, ops);
            var start := StartRecord(end.record, None);
            var restarted := Machine(StartState(start, states), StartHistory(start, states, decode), map[]);
            MachineAfter(setup, restarted, Recover(now)).state == MachineAfter(setup, end.machine, Recover(now)).state
  {
    hide Run, Records, Reads;
    RunRecords(setup, s, ops);
    var end := Run(setup, s, ops);
    RestartKeepsIff(setup, end.record, end.machine, None, states, decode);
  }

  /** A new engine does not read gate results back: its first save leaves none in the file. */
  lemma RestartForgetsGates(setup: Setup, r: Record, state: string, history: seq<Move>, now: string)
    ensures Lookup(Saved(r, Serialize(setup, Machine(state, history, map[]), now)), GateResults) == Some(Obj(map[]))
  {
    var m := Machine(state, history, map[]);
    SaveRecords(setup, r, m, now);
    var json := Lookup(Saved(r, Serialize(setup, m, now)), GateResults).value;
    assert IsGates(json, m.gates);
    assert json.fields == map[];
  }

  // ----- Single operations

  /** An error is the last move that is written down, with its reason; a hook that throws gives the
      reason of its own. */
  lemma ErrorsAreWritten(setup: Setup, s: Session, op: Op, reason: string, at: string)
    requires match op
             case Fail(given, failedAt, _) => reason == given && at == failedAt
             case Advance(a) =>
               && NextState(setup, s.machine.state).Some? && a.leaseGranted && a.hookError.Some?
               && reason == "beforeTransition hook failed: " + a.hookError.value && at == a.failedAt
             case _ => false
    ensures var after := Step(setup, s, op);
            && after.machine.state == "ERROR"
            && after.machine.history == s.machine.history + [Move(s.machine.state, "ERROR", at, Some(reason))]
            && Records(after.record, setup, after.machine)
  {
    hide Records;
    StepRecords(setup, s, op);
  }

  /** An advance that moves writes down a move from the old state to the next one of the flow. */
  lemma MovesAreWritten(setup: Setup, s: Session, a: Attempt)
    requires Moves(AdvanceOutcome(setup, s.machine, a))
    ensures var after := Step(setup, s, Advance(a));
            && s.machine.state in setup.flow && after.machine.state == setup.flow[s.machine.state] != ""
            && after.machine.history == s.machine.history + [Move(s.machine.state, after.machine.state, a.movedAt, None)]
            && Records(after.record, setup, after.machine)
  {
    hide Records;
    StepRecords(setup, s, Advance(a));
  }

  /** There is no target exactly when the flow has none, or an empty one, for the state. */
  lemma NoTargetIff(setup: Setup, m: Machine, a: Attempt)
    ensures AdvanceOutcome(setup, m, a) == NoTarget <==> m.state !in setup.flow || setup.flow[m.state] == ""
  {
  }

  /** Outside the states whose name begins with CRITIC_ a gate result makes no difference at all. */
  lemma UncriticalIgnoresGate(setup: Setup, s: Session, a: Attempt, gate: Option<GateResult>)
    requires |s.machine.state| < 7 || s.machine.state[..7] != "CRITIC_"
    ensures Step(setup, s, Advance(a)) == Step(setup, s, Advance(a.(gate := gate)))
    ensures AdvanceOutcome(setup, s.machine, a) == AdvanceOutcome(setup, s.machine, a.(gate := gate))
  {
    var m, b := s.machine, a.(gate := gate);
    assert !IsCritic(m.state);
    assert AdvanceOutcome(setup, m, a) == AdvanceOutcome(setup, m, b);
    assert AdvancedMachine(setup, m, a) == AdvancedMachine(setup, m, b);
    forall intent
      ensures WritesAfterIntent(setup, intent, m, a) == WritesAfterIntent(setup, intent, m, b)
    {
      hide Saved, Completed, Serialize, AdvanceOutcome, AdvancedMachine;
    }
    hide WritesAfterIntent, Saved, Intended, Serialize, AdvancedMachine, AdvanceOutcome;
    assert AdvanceWrites(setup, s.record, m, s.resume, a) == AdvanceWrites(setup, s.record, m, s.resume, b);
  }

  /** In such a state a result that is not approved keeps the machine there, and is written down. */
  lemma CriticalRefuses(setup: Setup, s: Session, a: Attempt, result: GateResult)
    requires |s.machine.state| >= 7 && s.machine.state[..7] == "CRITIC_" && a.gate == Some(result)
    requires ReachesGate(setup, s.machine, a) && result.verdict != "APPROVED"
    ensures var after := Step(setup, s, Advance(a));
            && after.machine == s.machine.(gates := s.machine.gates[s.machine.state := result])
            && Records(after.record, setup, after.machine)
  {
    assert IsCritic(s.machine.state);
    hide Records;
    StepRecords(setup, s, Advance(a));
  }

  /** A finished transition is forgotten: the next advance goes on under its own new identifier. */
  lemma AdvancedForgetsResume(setup: Setup, s: Session, a: Attempt, b: Attempt)
    requires AdvanceOutcome(setup, s.machine, a).Advanced? && b.freshId != ""
    requires var next := Step(setup, s, Advance(a));
             Moves(AdvanceOutcome(setup, next.machine, b)) || LeavesOpen(AdvanceOutcome(setup, next.machine, b))
    ensures var next := Step(setup, s, Advance(a));
            var writes := AdvanceWrites(setup, next.record, next.machine, next.resume, b);
            writes != [] && Lookup(writes[0], TransitionId) == Some(Str(b.freshId))
  {
    hide Saved, Completed, Serialize;
  }

  /** A degradation entry says when, what, why and in which state: the one given, or else the
      machine's. */
  lemma DegradationSays(setup: Setup, s: Session, entry: DegradationEntry, now: string)
    requires entry.state != "" || s.machine.state != ""
    ensures var log := Log(Step(setup, s, LogDegradation(entry, now)).record);
            log == Log(s.record) + [Obj(map["timestamp" := Str(now), "component" := Str(entry.component),
                                            "reason" := Str(entry.reason),
                                            "state" := Str(if entry.state == "" then s.machine.state else entry.state)])]
  {
  }

  /** A text of the flow that the machine does not give stays as the file has it; anything there
      that is no text goes. The governance mode stays unless it is empty, zero, false or null. */
  lemma SaveKeepsTexts(r: Record, s: Serialized, k: Key, given: string)
    requires (k, given) in {(FlowVersion, s.flowVersion), (FlowSource, s.flowSource),
                            (FlowManifestVersion, s.flowManifestVersion), (FlowPackId, s.flowPackId),
                            (FlowPackName, s.flowPackName), (FlowPackVersion, s.flowPackVersion)}
    ensures given != "" ==> Lookup(Saved(r, s), k) == Some(Str(given))
    ensures given == "" && k in r && r[k].Str? ==> Lookup(Saved(r, s), k) == Some(r[k])
    ensures given == "" && (k !in r || !r[k].Str?) ==> k !in Saved(r, s)
    ensures s.governanceMode == "" && GovernanceMode in r ==>
              (GovernanceMode in Saved(r, s) <==> r[GovernanceMode] !in {Null, Bool(false), Num(0.0), Str("")})
  {
    SavedLookup(r, s, k);
    SavedLookup(r, s, GovernanceMode);
  }

  /** Apart from advances, errors add their move and nothing else, recoveries move the state and
      nothing else, and all other operations leave the machine as it is. */
  lemma OthersKeepMachine(setup: Setup, m: Machine, op: Op)
    requires !op.Advance?
    ensures var after := MachineAfter(setup, m, op);
            && after.gates == m.gates
            && (!op.Fail? ==> after.history == m.history)
            && (!op.Fail? && !op.Recover? ==> after == m)
            && (op.Recover? && m.state != "ERROR" ==> after == m)
            && (op.Recover? && m.state == "ERROR" && m.history == [] ==> after.state == "IDLE")
  {
  }
}
