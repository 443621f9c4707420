/** The engine around the session file: every operation as the list of records it writes. */
module SessionEngine {
  import opened Sequences
  import opened SessionFiles

  const IDLE := "IDLE"
  const ERROR := "ERROR"
  const APPROVED := "APPROVED"

  // ----- The machine

  datatype Move = Move(from: string, to: string, timestamp: string, reason: Option<string>)

  datatype GateResult = GateResult(verdict: string, json: Json)

  datatype Machine = Machine(state: string, history: seq<Move>, gates: map<string, GateResult>)

  /** What does not change while an engine lives. */
  datatype Setup = Setup(
    flow: map<string, string>,
    mode: string,
    flowVersion: string,
    flowSource: string,
    manifestVersion: string,
    packId: string,
    packName: string,
    packVersion: string)

  predicate IsCritic(state: string) { "CRITIC_" <= state }

  function NextState(setup: Setup, state: string): Option<string> {
    if state in setup.flow && setup.flow[state] != "" then Some(setup.flow[state]) else None
  }

  function MoveJson(move: Move): Json {
    var fields := map["from" := Str(move.from), "to" := Str(move.to), "timestamp" := Str(move.timestamp)];
    Obj(if move.reason.Some? then fields["reason" := Str(move.reason.value)] else fields)
  }

  function Serialize(setup: Setup, m: Machine, now: string): Serialized {
    Serialized(m.state, setup.mode, setup.flowVersion, setup.flowSource,
               setup.manifestVersion, setup.packId, setup.packName, setup.packVersion,
               Arr(Map(m.history, MoveJson)), Obj(map s | s in m.gates :: m.gates[s].json), now, "")
  }

  function Moved(m: Machine, to: string, now: string, reason: Option<string>): Machine {
    m.(state := to, history := m.history + [Move(m.state, to, now, reason)])
  }

  function Failed(m: Machine, reason: string, now: string): Machine { Moved(m, ERROR, now, Some(reason)) }

  /** The gate result that `_doAdvance` looks at. */
  function Gate(m: Machine, gate: Option<GateResult>): Option<GateResult> {
    if IsCritic(m.state) then gate else None
  }

  function Gated(m: Machine, gate: Option<GateResult>): Machine {
    match Gate(m, gate)
    case None => m
    case Some(result) => m.(gates := m.gates[m.state := result])
  }

  /** Where `recover` goes back to: the newest end of a move that is not the error state. */
  function LastGood(history: seq<Move>): Option<string> {
    if history == [] then None
    else
      var last := history[|history| - 1];
      if last.to != ERROR then Some(last.to)
      else if last.from != ERROR then Some(last.from)
      else LastGood(history[..|history| - 1])
  }

  function RecoveryState(history: seq<Move>): string {
    match LastGood(history)
    case Some(state) => state
    case None => IDLE
  }

  // ----- Advancing

  /** What can fail besides: recording the intent in the event log, renewing the lease, or
      recording in the event log that the transition was applied. */
  datatype Fault = IntentEvent | Renewal | AppliedEvent

  /** What an advance meets outside: the lease, the `beforeTransition` hooks, the gate
      result passed in, a fault, a fresh identifier and the clock. */
  datatype Attempt = Attempt(
    leaseGranted: bool,
    hookError: Option<string>,
    gate: Option<GateResult>,
    fault: Option<Fault>,
    freshId: string,
    failedAt: string,
    intendedAt: string,
    gatedAt: string,
    movedAt: string,
    savedAt: string)

  /** `Interrupted` after the intent was written; `Unrecorded` when all but the last entry of
      the event log was. */
  datatype Outcome =
    | NoTarget
    | LeaseRefused
    | HookFailed
    | Interrupted
    | GateFailed
    | Unrecorded(from: string, to: string)
    | Advanced(from: string, to: string)

  /** The machine has moved, and the file says so. */
  predicate Moves(outcome: Outcome) { outcome.Advanced? || outcome.Unrecorded? }

  /** The markers of an interrupted transition, as found when the engine started. */
  datatype Resume = Resume(target: string, id: string)

  function HookFailure(error: string): string { "beforeTransition hook failed: " + error }

  function AdvanceOutcome(setup: Setup, m: Machine, a: Attempt): Outcome {
    match NextState(setup, m.state)
    case None => NoTarget
    case Some(to) =>
      if !a.leaseGranted then LeaseRefused
      else if a.hookError.Some? then HookFailed
      else if a.fault == Some(IntentEvent) || a.fault == Some(Renewal) then Interrupted
      else if Gate(m, a.gate).Some? && Gate(m, a.gate).value.verdict != APPROVED then GateFailed
      else if a.fault == Some(AppliedEvent) then Unrecorded(m.state, to)
      else Advanced(m.state, to)
  }

  function AdvancedMachine(setup: Setup, m: Machine, a: Attempt): Machine {
    match AdvanceOutcome(setup, m, a)
    case Advanced(_, to) => Moved(Gated(m, a.gate), to, a.movedAt, None)
    case Unrecorded(_, to) => Moved(Gated(m, a.gate), to, a.movedAt, None)
    case GateFailed => Gated(m, a.gate)
    case HookFailed => Failed(m, HookFailure(a.hookError.value), a.failedAt)
    case _ => m
  }

  function TransitionIdFor(resume: Option<Resume>, to: string, freshId: string): string {
    if resume.Some? && resume.value.target == to then resume.value.id else freshId
  }

  /** The records an advance writes over `r`, in order. */
  function AdvanceWrites(setup: Setup, r: Record, m: Machine, resume: Option<Resume>, a: Attempt): seq<Record> {
    match AdvanceOutcome(setup, m, a)
    case NoTarget => []
    case LeaseRefused => []
    case HookFailed => [Saved(r, Serialize(setup, Failed(m, HookFailure(a.hookError.value), a.failedAt), a.savedAt))]
    case _ =>
      var to := NextState(setup, m.state).value;
      var intent := Intended(r, to, a.intendedAt, TransitionIdFor(resume, to, a.freshId));
      [intent] + WritesAfterIntent(setup, intent, m, a)
  }

  function WritesAfterIntent(setup: Setup, intent: Record, m: Machine, a: Attempt): seq<Record> {
    match AdvanceOutcome(setup, m, a)
    case GateFailed =>
      var gated := Saved(intent, Serialize(setup, Gated(m, a.gate), a.gatedAt));
      [gated, Saved(gated, Serialize(setup, Gated(m, a.gate), a.savedAt))]
    case Interrupted => []
    case _ =>
      var gated := if Gate(m, a.gate).Some? then [Saved(intent, Serialize(setup, Gated(m, a.gate), a.gatedAt))] else [];
      var moved := Saved(Last(intent, gated), Serialize(setup, AdvancedMachine(setup, m, a), a.savedAt));
      gated + [moved, Completed(moved)]
  }

  /** What the file holds after `writes` over `r`. */
  function Last(r: Record, writes: seq<Record>): Record {
    if writes == [] then r else writes[|writes| - 1]
  }

  // ----- Runs

  datatype DegradationEntry = DegradationEntry(component: string, reason: string, state: string)

  /** The log entry; an empty state is replaced by the machine's, and an empty one of those by null. */
  function EntryJson(entry: DegradationEntry, current: string, now: string): Json {
    var state := if entry.state != "" then entry.state else current;
    Obj(map["timestamp" := Str(now), "component" := Str(entry.component), "reason" := Str(entry.reason),
            "state" := if state != "" then Str(state) else Null])
  }

  datatype Op =
    | Advance(a: Attempt)
    | LogDegradation(entry: DegradationEntry, now: string)
    | PauseAtCheckpoint(now: string)
    | Fail(reason: string, failedAt: string, savedAt: string)
    | Recover(now: string)

  function MachineAfter(setup: Setup, m: Machine, op: Op): Machine {
    match op
    case Advance(a) => AdvancedMachine(setup, m, a)
    case Fail(reason, failedAt, _) => Failed(m, reason, failedAt)
    case Recover(_) => if m.state == ERROR then m.(state := RecoveryState(m.history)) else m
    case _ => m
  }

  function ResumeAfter(setup: Setup, m: Machine, resume: Option<Resume>, op: Op): Option<Resume> {
    if op.Advance? && AdvanceOutcome(setup, m, op.a).Advanced? then None else resume
  }

  function Writes(setup: Setup, r: Record, m: Machine, resume: Option<Resume>, op: Op): seq<Record> {
    match op
    case Advance(a) => AdvanceWrites(setup, r, m, resume, a)
    case LogDegradation(entry, now) => [Degraded(r, EntryJson(entry, m.state, now))]
    case PauseAtCheckpoint(now) =>
      var saved := Saved(r, Serialize(setup, m, now));
      [saved, Completed(saved)]
    case Fail(reason, failedAt, savedAt) => [Saved(r, Serialize(setup, Failed(m, reason, failedAt), savedAt))]
    case Recover(now) =>
      if m.state != ERROR then []
      else [Saved(r, Serialize(setup, MachineAfter(setup, m, op), now))]
  }

  /** The file says that the session is in `state`; a file without a status says `IDLE`. */
  ghost predicate Shows(r: Record, state: string) {
    || Lookup(r, Status) == Some(Str(state))
    || (state == IDLE && (Lookup(r, Status) == None || !Truthy(Lookup(r, Status).value)))
  }

  lemma SavedShows(setup: Setup, r: Record, m: Machine, now: string)
    ensures Shows(Saved(r, Serialize(setup, m, now)), m.state)
  {
    SavedLookup(r, Serialize(setup, m, now), Status);
  }

  // ----- One operation

  /** `writes` are written over `r` one after another, and each follows the one before it. */
  ghost predicate Chain(r: Record, writes: seq<Record>) {
    && (writes != [] ==> Follows(r, writes[0]))
    && (forall i :: 0 < i < |writes| ==> Follows(writes[i - 1], writes[i]))
  }

  /** The transition to `to` under `id` is written down as being under way. */
  ghost predicate UnderWay(r: Record, to: string, id: string) {
    && InProgress(r) && Lookup(r, TransitionTarget) == Some(Str(to))
    && (id != "" ==> Lookup(r, TransitionId) == Some(Str(id)))
  }

  lemma IntentStep(r: Record, to: string, now: string, id: string, state: string)
    requires WellFormed(r) && Shows(r, state)
    ensures var t := Intended(r, to, now, id);
            Follows(r, t) && WellFormed(t) && Shows(t, state) && UnderWay(t, to, id)
  {
    hide Intended;
    IntendedFollows(r, to, now, id);
  }

  lemma SaveStep(setup: Setup, r: Record, m: Machine, now: string)
    requires WellFormed(r)
    ensures var t := Saved(r, Serialize(setup, m, now));
            && Follows(r, t) && WellFormed(t) && Shows(t, m.state) && Log(t) == Log(r)
            && (InProgress(t) <==> InProgress(r))
            && (forall to, id :: UnderWay(r, to, id) ==> UnderWay(t, to, id))
  {
    hide Saved, Log;
    SavedFollows(r, Serialize(setup, m, now));
    SavedShows(setup, r, m, now);
  }

  lemma CompleteStep(r: Record, state: string)
    requires WellFormed(r) && Shows(r, state)
    ensures var t := Completed(r);
            Follows(r, t) && WellFormed(t) && Shows(t, state) && !InProgress(t)
  {
    hide Completed;
    CompletedFollows(r);
  }

  lemma DegradeStep(r: Record, entry: Json, state: string)
    requires WellFormed(r) && Shows(r, state)
    ensures var t := Degraded(r, entry);
            && Follows(r, t) && WellFormed(t) && Shows(t, state) && Log(t) == Log(r) + [entry]
            && (InProgress(t) <==> InProgress(r)) && Lookup(t, TransitionTarget) == Lookup(r, TransitionTarget)
  {
    hide Degraded;
    DegradedFollows(r, entry);
  }

  /** Every record that an advance which goes through leaves on disk: the source state until
      the move is saved and the target state from then on; under way, naming the target and
      the transition, until the very last record and not in it. */
  lemma AdvanceIsSafe(setup: Setup, r: Record, m: Machine, resume: Option<Resume>, a: Attempt)
    requires WellFormed(r) && Shows(r, m.state) && Moves(AdvanceOutcome(setup, m, a))
    ensures var to := NextState(setup, m.state).value;
            var id := TransitionIdFor(resume, to, a.freshId);
            var writes := AdvanceWrites(setup, r, m, resume, a);
            var n := |writes|;
            && n >= 3 && Chain(r, writes)
            && (forall i :: 0 <= i < n - 2 ==> Shows(writes[i], m.state))
            && Shows(writes[n - 2], to) && Shows(writes[n - 1], to)
            && (forall i :: 0 <= i < n - 1 ==> UnderWay(writes[i], to, id))
            && !InProgress(writes[n - 1])
  {
    hide Saved, Intended, Completed, Follows, WellFormed, Serialize, InProgress, Shows, UnderWay;
    var to := NextState(setup, m.state).value;
    var id := TransitionIdFor(resume, to, a.freshId);
    var intent := Intended(r, to, a.intendedAt, id);
    IntentStep(r, to, a.intendedAt, id, m.state);
    SaveStep(setup, intent, Gated(m, a.gate), a.gatedAt);
    var gated := Saved(intent, Serialize(setup, Gated(m, a.gate), a.gatedAt));
    var before := if Gate(m, a.gate).Some? then gated else intent;
    SaveStep(setup, before, AdvancedMachine(setup, m, a), a.savedAt);
    CompleteStep(Saved(before, Serialize(setup, AdvancedMachine(setup, m, a), a.savedAt)), to);
  }

  /** The advance has announced its transition and left it open. */
  predicate LeavesOpen(outcome: Outcome) { outcome.GateFailed? || outcome.Interrupted? }

  /** A gate that refuses, and a fault before the machine moves, leave the source state behind,
      still under way. */
  lemma OpenAdvanceIsSafe(setup: Setup, r: Record, m: Machine, resume: Option<Resume>, a: Attempt)
    requires WellFormed(r) && Shows(r, m.state) && LeavesOpen(AdvanceOutcome(setup, m, a))
    ensures var to := NextState(setup, m.state).value;
            var id := TransitionIdFor(resume, to, a.freshId);
            var writes := AdvanceWrites(setup, r, m, resume, a);
            && writes != [] && Chain(r, writes)
            && forall i :: 0 <= i < |writes| ==> Shows(writes[i], m.state) && UnderWay(writes[i], to, id)
  {
    hide Saved, Intended, Follows, WellFormed, Serialize, InProgress, Shows, UnderWay;
    var to := NextState(setup, m.state).value;
    var id := TransitionIdFor(resume, to, a.freshId);
    var intent := Intended(r, to, a.intendedAt, id);
    IntentStep(r, to, a.intendedAt, id, m.state);
    SaveStep(setup, intent, Gated(m, a.gate), a.gatedAt);
    SaveStep(setup, Saved(intent, Serialize(setup, Gated(m, a.gate), a.gatedAt)), Gated(m, a.gate), a.savedAt);
  }

  // ----- The gate of a critic state

  /** The advance gets as far as the gate, and nothing fails after it. */
  predicate ReachesGate(setup: Setup, m: Machine, a: Attempt) {
    NextState(setup, m.state).Some? && a.leaseGranted && a.hookError.None? && a.fault.None?
  }

  /** In a critic state an advance that nothing else stops goes through if and only if its gate
      result approves or is missing; so it had a passing result if and only if one was supplied. */
  lemma CriticAdvancesIff(setup: Setup, m: Machine, a: Attempt)
    requires IsCritic(m.state) && ReachesGate(setup, m, a)
    ensures AdvanceOutcome(setup, m, a).Advanced? <==> a.gate.None? || a.gate.value.verdict == APPROVED
    ensures AdvanceOutcome(setup, m, a).Advanced? ==>
              ((a.gate.Some? && a.gate.value.verdict == APPROVED) <==> a.gate.Some?)
  {
  }

  /** What the gate leaves behind: after an advance out of a critic state an approved result is
      recorded for that state, unless none was supplied; then the record is what it was. */
  lemma CriticLeavesRecord(setup: Setup, m: Machine, a: Attempt)
    requires IsCritic(m.state) && Moves(AdvanceOutcome(setup, m, a))
    ensures var gates := AdvancedMachine(setup, m, a).gates;
            if a.gate.Some? then gates == m.gates[m.state := a.gate.value] && gates[m.state].verdict == APPROVED
            else gates == m.gates
  {
  }

  /** A critic state that advances with no gate result at all, now or ever before. */
  lemma CriticAdvancesUngated(setup: Setup, a: Attempt)
    requires setup.flow == map["CRITIC_1" := "PHASE_2"]
    requires a.leaseGranted && a.hookError.None? && a.fault.None? && a.gate.None?
    ensures var m := Machine("CRITIC_1", [], map[]);
            && IsCritic(m.state)
            && AdvanceOutcome(setup, m, a) == Advanced("CRITIC_1", "PHASE_2")
            && AdvancedMachine(setup, m, a).state == "PHASE_2" && AdvancedMachine(setup, m, a).gates == map[]
  {
    var m := Machine("CRITIC_1", [], map[]);
    assert IsCritic(m.state) by {
      assert "CRITIC_1"[..7] == "CRITIC_";
    }
    assert NextState(setup, m.state) == Some("PHASE_2");
  }

  // ----- Any operation

  lemma {:induction false} ChainEnds(r: Record, writes: seq<Record>)
    requires Chain(r, writes) && WellFormed(r)
    ensures WellFormed(Last(r, writes)) && Follows(r, Last(r, writes))
    ensures forall i :: 0 <= i < |writes| ==> Follows(r, writes[i])
    ensures forall i, j :: 0 <= i < j < |writes| ==> Follows(writes[i], writes[j])
  {
    hide WellFormed, SameOutside, Log;
    if writes == [] {
      FollowsItself(r);
    } else {
      var n := |writes| - 1;
      ChainEnds(r, writes[..n]);
      if n > 0 {
        assert Follows(writes[n - 1], writes[n]);
        FollowsTransitive(r, writes[n - 1], writes[n]);
        forall i | 0 <= i < n
          ensures Follows(writes[i], writes[n])
        {
          if i < n - 1 {
            assert Follows(writes[..n][i], writes[..n][n - 1]);
            FollowsTransitive(writes[i], writes[n - 1], writes[n]);
          }
        }
      }
    }
  }

  /** The file tells which transition, if any, is under way. */
  ghost predicate Marks(r: Record, open: Option<string>) {
    && (InProgress(r) <==> open.Some?)
    && (open.Some? ==> Lookup(r, TransitionTarget) == Some(Str(open.value)))
  }

  /** The transition left open after `op`: a refused gate and a fault before the move leave their
      own open, an advance that moves and a pause close it, nothing else touches it. */
  function OpenAfter(setup: Setup, m: Machine, open: Option<string>, op: Op): Option<string> {
    match op
    case PauseAtCheckpoint(_) => None
    case Advance(a) =>
      var outcome := AdvanceOutcome(setup, m, a);
      if Moves(outcome) then None
      else if LeavesOpen(outcome) then NextState(setup, m.state)
      else open
    case _ => open
  }

  /** What holds after `op` on a good file whose state agrees with the machine. */
  lemma OperationIsSafe(setup: Setup, r: Record, m: Machine, resume: Option<Resume>, op: Op)
    requires WellFormed(r) && Shows(r, m.state)
    ensures var writes := Writes(setup, r, m, resume, op);
            var after := MachineAfter(setup, m, op);
            && Chain(r, writes) && WellFormed(Last(r, writes))
            && (forall i :: 0 <= i < |writes| ==> Shows(writes[i], m.state) || Shows(writes[i], after.state))
            && Shows(Last(r, writes), after.state)
            && (forall open :: Marks(r, open) ==> Marks(Last(r, writes), OpenAfter(setup, m, open, op)))
  {
    hide Saved, Intended, Completed, Degraded, Follows, Serialize, Shows, Lookup, InProgress, WellFormed, Log;
    var writes := Writes(setup, r, m, resume, op);
    match op
    case Advance(a) => AdvanceStep(setup, r, m, resume, a);
    case LogDegradation(entry, now) =>
      DegradeStep(r, EntryJson(entry, m.state, now), m.state);
    case PauseAtCheckpoint(now) =>
      SaveStep(setup, r, m, now);
      CompleteStep(Saved(r, Serialize(setup, m, now)), m.state);
    case Fail(reason, failedAt, savedAt) =>
      SaveStep(setup, r, Failed(m, reason, failedAt), savedAt);
      SameMarks(setup, r, Failed(m, reason, failedAt), savedAt);
    case Recover(now) =>
      SaveStep(setup, r, MachineAfter(setup, m, op), now);
      SameMarks(setup, r, MachineAfter(setup, m, op), now);
  }

  lemma SameMarks(setup: Setup, r: Record, m: Machine, now: string)
    requires WellFormed(r)
    ensures forall open :: Marks(r, open) ==> Marks(Saved(r, Serialize(setup, m, now)), open)
  {
    hide Saved, WellFormed;
    SavedFollows(r, Serialize(setup, m, now));
  }

  lemma AdvanceStep(setup: Setup, r: Record, m: Machine, resume: Option<Resume>, a: Attempt)
    requires WellFormed(r) && Shows(r, m.state)
    ensures var writes := AdvanceWrites(setup, r, m, resume, a);
            var after := AdvancedMachine(setup, m, a);
            && Chain(r, writes) && WellFormed(Last(r, writes))
            && (forall i :: 0 <= i < |writes| ==> Shows(writes[i], m.state) || Shows(writes[i], after.state))
            && Shows(Last(r, writes), after.state)
            && (forall open :: Marks(r, open) ==> Marks(Last(r, writes), OpenAfter(setup, m, open, Advance(a))))
  {
    hide Saved, Intended, Completed, Serialize, Shows, Lookup, InProgress, WellFormed, Log;
    var writes := AdvanceWrites(setup, r, m, resume, a);
    var outcome := AdvanceOutcome(setup, m, a);
    if Moves(outcome) {
      AdvanceIsSafe(setup, r, m, resume, a);
    } else if LeavesOpen(outcome) {
      OpenAdvanceIsSafe(setup, r, m, resume, a);
      var to := NextState(setup, m.state).value;
      assert UnderWay(writes[|writes| - 1], to, TransitionIdFor(resume, to, a.freshId));
      ChainEnds(r, writes);
    } else if outcome.HookFailed? {
      SaveStep(setup, r, AdvancedMachine(setup, m, a), a.savedAt);
      SameMarks(setup, r, AdvancedMachine(setup, m, a), a.savedAt);
    }
  }

  // ----- Any run

  datatype Session = Session(record: Record, machine: Machine, resume: Option<Resume>)

  function Step(setup: Setup, s: Session, op: Op): Session {
    Session(Last(s.record, Writes(setup, s.record, s.machine, s.resume, op)),
            MachineAfter(setup, s.machine, op),
            ResumeAfter(setup, s.machine, s.resume, op))
  }

  function Run(setup: Setup, s: Session, ops: seq<Op>): Session {
    if ops == [] then s else Step(setup, Run(setup, s, ops[..|ops| - 1]), ops[|ops| - 1])
  }

  /** A record on disk, with the machine's state before and after the operation that wrote it. */
  datatype Image = Image(record: Record, before: string, after: string)

  function Images(writes: seq<Record>, before: string, after: string): seq<Image> {
    Map(writes, (r: Record) => Image(r, before, after))
  }

  /** Everything a run writes: each element is what a crash at that moment leaves behind. */
  function Trace(setup: Setup, s: Session, ops: seq<Op>): seq<Image> {
    if ops == [] then []
    else
      var init, op := ops[..|ops| - 1], ops[|ops| - 1];
      var was := Run(setup, s, init);
      Trace(setup, s, init) + Images(Writes(setup, was.record, was.machine, was.resume, op),
                                     was.machine.state, Step(setup, was, op).machine.state)
  }

  function OpenAfterRun(setup: Setup, s: Session, open: Option<string>, ops: seq<Op>): Option<string> {
    if ops == [] then open
    else
      var init := ops[..|ops| - 1];
      OpenAfter(setup, Run(setup, s, init).machine, OpenAfterRun(setup, s, open, init), ops[|ops| - 1])
  }

  ghost predicate Good(s: Session) {
    WellFormed(s.record) && Shows(s.record, s.machine.state)
  }

  lemma StepIsGood(setup: Setup, s: Session, op: Op)
    requires Good(s)
    ensures Good(Step(setup, s, op))
    ensures forall open :: Marks(s.record, open) ==> Marks(Step(setup, s, op).record, OpenAfter(setup, s.machine, open, op))
  {
    hide Writes, MachineAfter, WellFormed, Shows, Marks, OpenAfter, Last;
    OperationIsSafe(setup, s.record, s.machine, s.resume, op);
  }

  lemma {:induction false} RunIsGood(setup: Setup, s: Session, ops: seq<Op>)
    requires Good(s)
    ensures Good(Run(setup, s, ops))
    decreases ops
  {
    if ops != [] {
      RunIsGood(setup, s, ops[..|ops| - 1]);
      StepIsGood(setup, Run(setup, s, ops[..|ops| - 1]), ops[|ops| - 1]);
    }
  }

  /** Every record on disk at any moment of any run shows the state before or after the
      operation at work. */
  lemma {:induction false} CrashImagesShowAState(setup: Setup, s: Session, ops: seq<Op>)
    requires Good(s)
    ensures forall i :: 0 <= i < |Trace(setup, s, ops)| ==>
      var image := Trace(setup, s, ops)[i]; Shows(image.record, image.before) || Shows(image.record, image.after)
    decreases ops
  {
    if ops != [] {
      hide Writes, MachineAfter, WellFormed, Shows, Last;
      var init, op := ops[..|ops| - 1], ops[|ops| - 1];
      CrashImagesShowAState(setup, s, init);
      RunIsGood(setup, s, init);
      var was := Run(setup, s, init);
      OperationIsSafe(setup, was.record, was.machine, was.resume, op);
    }
  }

  /** Every image on the way from `first` to `last` follows all that came before it. */
  ghost predicate Grows(first: Record, trace: seq<Image>, last: Record) {
    && Follows(first, last)
    && (forall i :: 0 <= i < |trace| ==> Follows(first, trace[i].record) && Follows(trace[i].record, last))
    && (forall i, j :: 0 <= i < j < |trace| ==> Follows(trace[i].record, trace[j].record))
  }

  /** Over any run, each record written keeps the foreign fields of every record before it,
      only adds to its degradation log, and is well formed. */
  lemma {:induction false} CrashImagesFollow(setup: Setup, s: Session, ops: seq<Op>)
    requires Good(s)
    ensures Grows(s.record, Trace(setup, s, ops), Run(setup, s, ops).record)
    decreases ops
  {
    if ops == [] {
      FollowsItself(s.record);
    } else {
      hide Writes, MachineAfter, WellFormed, Shows, Follows, OpenAfter, Grows;
      var init, op := ops[..|ops| - 1], ops[|ops| - 1];
      CrashImagesFollow(setup, s, init);
      RunIsGood(setup, s, init);
      var was := Run(setup, s, init);
      var writes := Writes(setup, was.record, was.machine, was.resume, op);
      OperationIsSafe(setup, was.record, was.machine, was.resume, op);
      ChainExtends(s.record, Trace(setup, s, init), was.record, writes, was.machine.state, Step(setup, was, op).machine.state);
    }
  }

  lemma ChainExtends(r: Record, trace: seq<Image>, was: Record, writes: seq<Record>, before: string, after: string)
    requires WellFormed(was) && Chain(was, writes) && Grows(r, trace, was)
    ensures Grows(r, trace + Images(writes, before, after), Last(was, writes))
  {
    hide WellFormed, Follows, Chain;
    ChainEnds(was, writes);
    FollowsTransitive(r, was, Last(was, writes));
    var all := trace + Images(writes, before, after);
    forall j | 0 <= j < |all|
      ensures Follows(r, all[j].record) && Follows(all[j].record, Last(was, writes))
      ensures forall i :: 0 <= i < j ==> Follows(all[i].record, all[j].record)
    {
      if j < |trace| {
        FollowsTransitive(trace[j].record, was, Last(was, writes));
      } else {
        var record := writes[j - |trace|];
        FollowsTransitive(r, was, record);
        ChainInto(was, writes, j - |trace|);
        forall i | 0 <= i < j
          ensures Follows(all[i].record, record)
        {
          if i < |trace| {
            FollowsTransitive(trace[i].record, was, record);
          } else {
            assert Follows(writes[i - |trace|], writes[j - |trace|]);
          }
        }
      }
    }
  }

  lemma ChainInto(r: Record, writes: seq<Record>, i: nat)
    requires Chain(r, writes) && WellFormed(r) && i < |writes|
    ensures Follows(writes[i], Last(r, writes))
  {
    ChainEnds(r, writes);
    if i == |writes| - 1 {
      FollowsItself(writes[i]);
    }
  }

  /** Between operations the file is in progress exactly while an advance that did not move has
      left a transition open, and names that transition. */
  lemma {:induction false} InProgressOnlyWhileOpen(setup: Setup, s: Session, open: Option<string>, ops: seq<Op>)
    requires Good(s) && Marks(s.record, open)
    ensures Marks(Run(setup, s, ops).record, OpenAfterRun(setup, s, open, ops))
    decreases ops
  {
    if ops != [] {
      hide Marks, WellFormed, Shows, OpenAfter, Step;
      InProgressOnlyWhileOpen(setup, s, open, ops[..|ops| - 1]);
      RunIsGood(setup, s, ops[..|ops| - 1]);
      StepIsGood(setup, Run(setup, s, ops[..|ops| - 1]), ops[|ops| - 1]);
    }
  }

  // ----- What an advance comes to

  /** However many records an advance writes, it leaves the file as one save of the state
      reached and a completion would. */
  lemma AdvanceIsOneSave(setup: Setup, r: Record, m: Machine, resume: Option<Resume>, a: Attempt)
    requires Moves(AdvanceOutcome(setup, m, a))
    ensures Last(r, AdvanceWrites(setup, r, m, resume, a)) ==
            Completed(Saved(r, Serialize(setup, AdvancedMachine(setup, m, a), a.savedAt)))
  {
    hide Completed, Saved, Intended;
    var to := NextState(setup, m.state).value;
    var id := TransitionIdFor(resume, to, a.freshId);
    var after := Serialize(setup, AdvancedMachine(setup, m, a), a.savedAt);
    LastSaveCounts(Intended(r, to, a.intendedAt, id), Serialize(setup, Gated(m, a.gate), a.gatedAt), after);
    MarkersLeaveNoTrace(r, to, a.intendedAt, id, after);
  }

  // ----- Recovering from errors

  function FailAll(m: Machine, failures: seq<(string, string)>): Machine {
    if failures == [] then m
    else
      var last := failures[|failures| - 1];
      Failed(FailAll(m, failures[..|failures| - 1]), last.0, last.1)
  }

  lemma {:induction false} FailedFrom(m: Machine, failures: seq<(string, string)>)
    requires m.state != ERROR && failures != []
    ensures FailAll(m, failures).state == ERROR
    ensures LastGood(FailAll(m, failures).history) == Some(m.state)
    decreases failures
  {
    var n := |failures| - 1;
    var before := FailAll(m, failures[..n]);
    var after := FailAll(m, failures);
    assert after.history[..|after.history| - 1] == before.history;
    if n > 0 {
      FailedFrom(m, failures[..n]);
    }
  }

  /** Recovering undoes any number of errors in a row: the machine is back where it failed first. */
  lemma RecoverUndoesErrors(setup: Setup, m: Machine, failures: seq<(string, string)>, now: string)
    requires m.state != ERROR && failures != []
    ensures MachineAfter(setup, FailAll(m, failures), Recover(now)).state == m.state
  {
    FailedFrom(m, failures);
  }

  // ----- Starting on a file

  /** `loadSessionState` refuses a file whose status is not a text. */
  predicate HasStatus(r: Record) {
    Lookup(r, Status).Some? && Lookup(r, Status).value.Str?
  }

  /** What a new engine loads: the record, or nothing at all. */
  function Loaded(r: Record): Record {
    if HasStatus(r) then r else map[]
  }

  /** What replaying the event log yields, if it holds any transition. */
  datatype Replay = Replay(state: string, moves: Json)

  /** The record a new engine starts from: after an interrupted transition the event log, not
      the file, says where the session is. */
  function StartRecord(r: Record, replay: Option<Replay>): Record {
    var loaded := Loaded(r);
    if InProgress(loaded) && replay.Some? then
      Assign(Assign(loaded, Status, Some(Str(replay.value.state))), StateHistory, Some(replay.value.moves))
    else loaded
  }

  /** `_recoverOrInit`. */
  function StartState(r: Record, states: set<string>): string {
    match Lookup(r, Status)
    case Some(Str(state)) => if state != "" && state in states then state else IDLE
    case _ => IDLE
  }

  /** The history that comes back with a known state; `decode` reads the moves of an array. */
  function StartHistory(r: Record, states: set<string>, decode: seq<Json> -> seq<Move>): seq<Move> {
    if StartState(r, states) == IDLE then []
    else
      match Lookup(r, StateHistory)
      case Some(Arr(items)) => decode(items)
      case _ => []
  }

  /** The state `_recoverOrInit` accepts from a status. */
  function Accepted(state: string, states: set<string>): string {
    if state != "" && state in states then state else IDLE
  }

  /** Without a replay, file and machine agree at the start unless the file names a state that
      the flow does not have; after a replay, if the file shows the state replayed. */
  lemma StartAgreesIff(r: Record, replay: Option<Replay>, states: set<string>)
    ensures Shows(r, StartState(StartRecord(r, replay), states)) <==>
            if InProgress(Loaded(r)) && replay.Some? then Shows(r, Accepted(replay.value.state, states))
            else
              match Lookup(r, Status)
              case None => true
              case Some(Str(state)) => state == "" || state == IDLE || state in states
              case Some(status) => !Truthy(status)
  {
  }

  /** The markers that an engine picks up from an interrupted transition. */
  function ResumeFrom(r: Record): Option<Resume> {
    var loaded := Loaded(r);
    if InProgress(loaded) then
      match (Lookup(loaded, TransitionTarget), Lookup(loaded, TransitionId))
      case (Some(Str(target)), Some(Str(id))) => Some(Resume(target, id))
      case _ => None
    else None
  }

  /** Every record of an advance but its intent has a status; the intent keeps that of the file. */
  lemma AdvanceWritesStatus(setup: Setup, r: Record, m: Machine, resume: Option<Resume>, a: Attempt, i: nat)
    requires Moves(AdvanceOutcome(setup, m, a)) || LeavesOpen(AdvanceOutcome(setup, m, a))
    requires i < |AdvanceWrites(setup, r, m, resume, a)|
    ensures HasStatus(AdvanceWrites(setup, r, m, resume, a)[i]) <==> i > 0 || HasStatus(r)
  {
    hide Saved, Intended, Completed, Serialize, Lookup;
    var to := NextState(setup, m.state).value;
    var id := TransitionIdFor(resume, to, a.freshId);
    var intent := Intended(r, to, a.intendedAt, id);
    IntendedElsewhere(r, to, a.intendedAt, id, Status);
    var gate, after := Serialize(setup, Gated(m, a.gate), a.gatedAt), AdvancedMachine(setup, m, a);
    SavedLookup(intent, gate, Status);
    SavedLookup(Saved(intent, gate), Serialize(setup, after, a.savedAt), Status);
    SavedLookup(intent, Serialize(setup, after, a.savedAt), Status);
    CompletedLookup(Saved(Saved(intent, gate), Serialize(setup, after, a.savedAt)), Status);
    CompletedLookup(Saved(intent, Serialize(setup, after, a.savedAt)), Status);
  }

  /** A crash that leaves a transition open, behind any record of an advance: a new engine sees
      the transition, and an advance of it to the same target goes on under the same identifier,
      if and only if the crash came after the intent or the file had a status before. */
  lemma RetryKeepsTheId(setup: Setup, r: Record, m: Machine, resume: Option<Resume>, a: Attempt, i: nat, unused: string)
    requires Good(Session(r, m, resume))
    requires var outcome, n := AdvanceOutcome(setup, m, a), |AdvanceWrites(setup, r, m, resume, a)|;
             (Moves(outcome) && i < n - 1) || (LeavesOpen(outcome) && i < n)
    requires TransitionIdFor(resume, NextState(setup, m.state).value, a.freshId) !in {"", unused}
    ensures var to := NextState(setup, m.state).value;
            var crashed := AdvanceWrites(setup, r, m, resume, a)[i];
            && (TransitionIdFor(ResumeFrom(crashed), to, unused) == TransitionIdFor(resume, to, a.freshId)
                <==> i > 0 || HasStatus(r))
            && (InProgress(Loaded(crashed)) <==> i > 0 || HasStatus(r))
  {
    hide AdvanceWrites, WellFormed, Shows;
    if Moves(AdvanceOutcome(setup, m, a)) {
      AdvanceIsSafe(setup, r, m, resume, a);
    } else {
      OpenAdvanceIsSafe(setup, r, m, resume, a);
    }
    AdvanceWritesStatus(setup, r, m, resume, a, i);
    assert UnderWay(AdvanceWrites(setup, r, m, resume, a)[i], NextState(setup, m.state).value,
                    TransitionIdFor(resume, NextState(setup, m.state).value, a.freshId));
  }

  /** The first advance of a session without a file, lost behind its intent: the new engine
      neither sees the transition nor keeps its identifier. */
  lemma FirstIntentIsForgotten(setup: Setup, a: Attempt, unused: string)
    requires setup.flow == map[IDLE := "PHASE_1"]
    requires a.leaseGranted && a.hookError.None? && a.fault.None? && a.freshId == "old-id" && unused != "old-id"
    ensures var m, r := Machine(IDLE, [], map[]), map[];
            && Good(Session(r, m, None)) && AdvanceOutcome(setup, m, a) == Advanced(IDLE, "PHASE_1")
            && var crashed := AdvanceWrites(setup, r, m, None, a)[0];
               && UnderWay(crashed, "PHASE_1", "old-id")
               && Loaded(crashed) == map[]
               && TransitionIdFor(ResumeFrom(crashed), "PHASE_1", unused) == unused
  {
    var m := Machine(IDLE, [], map[]);
    assert !IsCritic(IDLE) by {
      assert IDLE[0] != "CRITIC_"[0];
    }
    assert NextState(setup, IDLE) == Some("PHASE_1");
    RetryKeepsTheId(setup, map[], m, None, a, 0, unused);
    AdvanceIsSafe(setup, map[], m, None, a);
  }

  // ----- The engine

  /** An engine: its machine, the markers it found at the start, and the transition status
      that it reports. */
  class Engine {
    const setup: Setup
    const file: SessionFile
    var machine: Machine
    var resume: Option<Resume>
    var transitionStatus: Option<string>

    ghost function Current(): Session
      reads this, file
    {
      Session(Existing(file.disk), machine, resume)
    }

    /** `op` took the engine from `before`, when `was` had been written, to where it is now. */
    ghost predicate Did(op: Op, before: Session, was: seq<Record>)
      reads this, file
    {
      && Current() == Step(setup, before, op)
      && file.written == was + Writes(setup, before.record, before.machine, before.resume, op)
    }

    constructor (setup: Setup, file: SessionFile, replay: Option<Replay>, states: set<string>,
                 decode: seq<Json> -> seq<Move>)
      ensures this.setup == setup && this.file == file
      ensures var start := StartRecord(Existing(file.disk), replay);
              machine == Machine(StartState(start, states), StartHistory(start, states, decode), map[])
      ensures resume == ResumeFrom(Existing(file.disk))
      ensures transitionStatus.Some? ==> Lookup(Loaded(Existing(file.disk)), TransitionStatus) == Some(Str(transitionStatus.value))
      ensures InProgress(Loaded(Existing(file.disk))) ==> transitionStatus == Some("IN_PROGRESS")
    {
      this.setup := setup;
      this.file := file;
      var r := Existing(file.disk);
      var start := StartRecord(r, replay);
      machine := Machine(StartState(start, states), StartHistory(start, states, decode), map[]);
      resume := ResumeFrom(r);
      transitionStatus :=
        if InProgress(Loaded(r)) then Some("IN_PROGRESS")
        else if Lookup(Loaded(r), TransitionStatus) == Some(COMPLETE) then Some("COMPLETE")
        else None;
    }

    method Persist(now: string)
      modifies file
      ensures Existing(file.disk) == Saved(Existing(old(file.disk)), Serialize(setup, machine, now))
      ensures file.written == old(file.written) + [Existing(file.disk)]
    {
      file.SaveSessionState(Serialize(setup, machine, now));
    }

    /** The machine's own advance to `to`: a gate result is recorded and saved, and refuses
        unless it is approved; the state that is reached, or kept, is saved last. */
    method AdvanceMachine(a: Attempt, to: string) returns (passed: bool)
      modifies this`machine, file
      ensures passed <==> !(Gate(old(machine), a.gate).Some? && Gate(old(machine), a.gate).value.verdict != APPROVED)
      ensures machine == if passed then Moved(Gated(old(machine), a.gate), to, a.movedAt, None) else Gated(old(machine), a.gate)
      ensures var r := Existing(old(file.disk));
              var gated := if Gate(old(machine), a.gate).None? then []
                           else [Saved(r, Serialize(setup, Gated(old(machine), a.gate), a.gatedAt))];
              && Existing(file.disk) == Saved(Last(r, gated), Serialize(setup, machine, a.savedAt))
              && file.written == old(file.written) + gated + [Existing(file.disk)]
    {
      hide Saved, Serialize;
      var from := machine.state;
      if IsCritic(from) && a.gate.Some? {
        machine := machine.(gates := machine.gates[from := a.gate.value]);
        Persist(a.gatedAt);
        if a.gate.value.verdict != APPROVED {
          Persist(a.savedAt);
          return false;
        }
      }
      machine := machine.(state := to, history := machine.history + [Move(from, to, a.movedAt, None)]);
      Persist(a.savedAt);
      passed := true;
    }

    method Advance(a: Attempt) returns (outcome: Outcome)
      modifies this, file
      ensures outcome == AdvanceOutcome(setup, old(machine), a)
      ensures Did(Op.Advance(a), old(Current()), old(file.written))
      ensures transitionStatus ==
              match outcome
              case Advanced(_, _) => Some("COMPLETE")
              case GateFailed => None
              case Unrecorded(_, _) => None
              case Interrupted => if a.fault == Some(IntentEvent) then old(transitionStatus) else None
              case _ => old(transitionStatus)
    {
      hide Saved, Intended, Completed, Serialize;
      var next := NextState(setup, machine.state);
      if next == None {
        return NoTarget;
      }
      var from, to := machine.state, next.value;
      var id := TransitionIdFor(resume, to, a.freshId);
      if !a.leaseGranted {
        return LeaseRefused;
      }
      if a.hookError.Some? {
        machine := Failed(machine, HookFailure(a.hookError.value), a.failedAt);
        Persist(a.savedAt);
        return HookFailed;
      }
      file.SaveTransitionIntent(to, a.intendedAt, id);
      if a.fault == Some(IntentEvent) {
        return Interrupted;
      }
      transitionStatus := Some("IN_PROGRESS");
      if a.fault == Some(Renewal) {
        transitionStatus := None;
        return Interrupted;
      }
      var passed := AdvanceMachine(a, to);
      if !passed {
        transitionStatus := None;
        return GateFailed;
      }
      file.SaveTransitionComplete();
      if a.fault == Some(AppliedEvent) {
        transitionStatus := None;
        return Unrecorded(from, to);
      }
      transitionStatus := Some("COMPLETE");
      resume := None;
      outcome := Advanced(from, to);
    }

    method LogDegradation(entry: DegradationEntry, now: string)
      modifies file
      ensures Did(Op.LogDegradation(entry, now), old(Current()), old(file.written))
    {
      file.AddDegradationEntry(EntryJson(entry, machine.state, now));
    }

    method PauseAtCheckpoint(now: string)
      modifies file
      ensures Did(Op.PauseAtCheckpoint(now), old(Current()), old(file.written))
    {
      hide Saved, Completed, Serialize;
      Persist(now);
      file.SaveTransitionComplete();
    }

    method Fail(reason: string, failedAt: string, savedAt: string)
      modifies this, file
      ensures Did(Op.Fail(reason, failedAt, savedAt), old(Current()), old(file.written))
      ensures transitionStatus == old(transitionStatus)
    {
      machine := Failed(machine, reason, failedAt);
      Persist(savedAt);
    }

    /** Going back to the last good state; refused outside the error state. */
    method Recover(now: string) returns (state: Option<string>)
      modifies this, file
      ensures Did(Op.Recover(now), old(Current()), old(file.written))
      ensures state == if old(machine).state == ERROR then Some(machine.state) else None
      ensures transitionStatus == old(transitionStatus)
    {
      if machine.state != ERROR {
        return None;
      }
      hide Saved, Serialize;
      assert machine.history[..|machine.history|] == machine.history;
      var found := false;
      var i := |machine.history| - 1;
      var target := IDLE;
      while i >= 0 && !found
        invariant -1 <= i < |machine.history|
        invariant found ==> LastGood(machine.history) == Some(target)
        invariant !found ==> target == IDLE && LastGood(machine.history) == LastGood(machine.history[..i + 1])
        invariant machine == old(machine) && resume == old(resume) && transitionStatus == old(transitionStatus)
        decreases !found, i
      {
        var move := machine.history[i];
        assert machine.history[..i + 1][..i] == machine.history[..i];
        if move.to != ERROR {
          target, found := move.to, true;
        } else if move.from != ERROR {
          target, found := move.from, true;
        } else {
          i := i - 1;
        }
      }
      machine := machine.(state := target);
      Persist(now);
      state := Some(target);
    }
  }
}
